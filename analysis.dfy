/**
 * The stage as it runs: one object holding the scope arena's binding
 * tables and the renamer's working state, filled by a walk over the
 * declarations and then by the renaming loop, each method proved against
 * the specification functions of the Bindings, Renamer and Transform
 * modules.
 */
module Analysis {
  import opened Wrappers
  import opened Scopes
  import opened Syntax
  import opened Bindings
  import opened Names
  import opened Renamer
  import opened Transform

  class ScopeAnalysis {
    const program: Program
    /** One binding table per scope of the arena. */
    var tables: seq<Table>
    /** Per scope, the names `var` and function declarations have claimed on their way to their hoist target. */
    var claimed: seq<set<string>>
    /** The name each hoisted binding was given. */
    var chosen: map<(string, nat), string>
    /** Per hoist target, the names already given to bindings hoisted into it. */
    var aliases: seq<set<string>>

    function State(): RenameState
      reads this
    {
      RenameState(chosen, aliases)
    }

    function Bindings(): Env
      reads this
    {
      Env(tables, claimed)
    }

    constructor (p: Program)
      requires Valid(p)
      ensures program == p && Bindings() == EmptyEnv(|p.scopes|)
      ensures State() == InitialState(|p.scopes|)
    {
      program := p;
      tables := EmptyEnv(|p.scopes|).tables;
      claimed := EmptyEnv(|p.scopes|).claimed;
      chosen := map[];
      aliases := seq(|p.scopes|, _ => {});
    }

    /** Walks up the span of `s`, looking for a lexical binding of `n`. */
    method LexicalAbove(s: nat, n: string) returns (found: bool)
      requires Valid(program) && |tables| == |program.scopes| && s < |program.scopes|
      ensures found == LexicalOnSpan(program.scopes, tables, s, n)
    {
      var u: nat := s;
      while !(n in tables[u] && Lexical(tables[u][n])) && program.scopes[u].kind == Block
        invariant u < |program.scopes| == |tables|
        invariant LexicalOnSpan(program.scopes, tables, s, n) == LexicalOnSpan(program.scopes, tables, u, n)
        decreases u
      {
        u := program.scopes[u].parent.value;
      }
      found := n in tables[u] && Lexical(tables[u][n]);
    }

    /** Claims `n` in every scope of the span of `s`, from `s` up to its hoist target. */
    method ClaimSpan(s: nat, n: string)
      requires Valid(program) && |claimed| == |program.scopes| && s < |program.scopes|
      modifies this
      ensures claimed == Claim(program.scopes, old(claimed), s, n)
      ensures tables == old(tables) && State() == old(State())
    {
      var u: nat := s;
      while program.scopes[u].kind == Block
        invariant u < |program.scopes| && |claimed| == |program.scopes|
        invariant Claim(program.scopes, old(claimed), s, n) == Claim(program.scopes, claimed, u, n)
        invariant tables == old(tables) && State() == old(State())
        decreases u
      {
        claimed := claimed[u := claimed[u] + {n}];
        u := program.scopes[u].parent.value;
      }
      claimed := claimed[u := claimed[u] + {n}];
    }

    /** Registers one declaration, or reports the redeclaration and changes nothing. */
    method Declare(d: Decl) returns (err: Option<CompileError>)
      requires Valid(program) && Sized(program.scopes, Bindings()) && d.scope < |program.scopes|
      modifies this
      ensures State() == old(State()) && Sized(program.scopes, Bindings())
      ensures Register(program.scopes, old(Bindings()), d) == (if err.Some? then Err(err.value) else Ok(Bindings()))
      ensures err.Some? ==> Bindings() == old(Bindings())
    {
      var t := DeclScope(program.scopes, d);
      if d.kind != SelfName {
        if d.name in tables[t] && tables[t][d.name] != SelfName && (Lexical(d.kind) || Lexical(tables[t][d.name])) {
          return Some(DuplicateDeclaration(d.name));
        }
        if Lexical(d.kind) && d.name in claimed[t] {
          return Some(DuplicateDeclaration(d.name));
        }
        if VarLike(d.kind) {
          var above := LexicalAbove(d.scope, d.name);
          if above {
            return Some(DuplicateDeclaration(d.name));
          }
        }
      } else if d.name in tables[t] {
        return None;
      }
      tables := tables[t := tables[t][d.name := d.kind]];
      if VarLike(d.kind) {
        ClaimSpan(d.scope, d.name);
      }
      err := None;
    }

    /** Registers every declaration in source order, stopping at the first redeclaration. */
    method BuildTables() returns (err: Option<CompileError>)
      requires Valid(program) && Bindings() == EmptyEnv(|program.scopes|)
      modifies this
      ensures State() == old(State())
      ensures Build(program.scopes, program.decls) == (if err.Some? then Err(err.value) else Ok(tables))
    {
      var decls := program.decls;
      var i := 0;
      assert decls[..0] == [];
      while i < |decls|
        invariant 0 <= i <= |decls|
        invariant State() == old(State())
        invariant Walk(program.scopes, decls[..i]) == Ok(Bindings())
      {
        assert decls[..i + 1][..i] == decls[..i];
        assert DeclsIn(program.scopes, decls[..i + 1]);
        err := Declare(decls[i]);
        if err.Some? {
          BuildErrPersists(program.scopes, decls, i + 1);
          return;
        }
        i := i + 1;
      }
      assert decls[..i] == decls;
      err := None;
    }

    /** Gives declaration `i` the first free name in its hoist target. */
    method Hoist(i: nat)
      requires TablesFor(program, tables) && i < |program.decls| && |aliases| == |program.scopes|
      modifies this
      ensures tables == old(tables)
      ensures State() == HoistStep(program, tables, old(State()), i)
    {
      var d := program.decls[i];
      var f := FunctionScope(program.scopes, d.scope);
      var occupied := tables[f].Keys + Referenced(program, tables, f) + aliases[f];
      var n := FreshName(d.name, occupied);
      chosen := chosen[(d.name, d.scope) := n];
      aliases := aliases[f := aliases[f] + {n}];
    }

    /** The order in which hoisted bindings are renamed: blocks in source order, declarations in source order within a block. */
    method HoistOrder() returns (q: seq<nat>)
      requires Valid(program)
      ensures q == Queue(program, |program.scopes|)
    {
      q := [];
      for s := 0 to |program.scopes|
        invariant q == Queue(program, s)
      {
        for i := 0 to |program.decls|
          invariant q == Queue(program, s) + BlockQueue(program, s, i)
        {
          if program.decls[i].scope == s && Hoisted(program.scopes, program.decls[i]) {
            q := q + [i];
          }
        }
      }
    }

    /** The renaming loop: every hoisted binding, in order, takes the first free name in its hoist target. */
    method Deconflict()
      requires TablesFor(program, tables) && State() == InitialState(|program.scopes|)
      modifies this
      ensures tables == old(tables)
      ensures State() == RenameAll(program, tables, Queue(program, |program.scopes|))
    {
      var q := HoistOrder();
      for k := 0 to |q|
        invariant tables == old(tables)
        invariant State() == RenameAll(program, tables, q[..k])
      {
        RenameAllPrefix(program, tables, q, k);
        Hoist(q[k]);
      }
      assert q[..|q|] == q;
    }

    /** Rewrites every declaration and occurrence under the chosen names. */
    method Emit() returns (out: Output)
      requires TablesFor(program, tables)
      ensures out == Rewrite(program, tables, chosen)
    {
      var ds: seq<OutDecl> := [];
      for i := 0 to |program.decls|
        invariant |ds| == i
        invariant forall k :: 0 <= k < i ==> ds[k] == RewriteDecl(program.scopes, chosen, program.decls[k])
      {
        ds := ds + [RewriteDecl(program.scopes, chosen, program.decls[i])];
      }
      var os: seq<OutOcc> := [];
      for j := 0 to |program.occs|
        invariant |os| == j
        invariant forall k :: 0 <= k < j ==> os[k] == RewriteOcc(program.scopes, tables, chosen, program.occs[k])
      {
        os := os + [RewriteOcc(program.scopes, tables, chosen, program.occs[j])];
      }
      out := Output(ds, os);
    }
  }

  /** Runs the stage on one program: tables, const check, then renaming and rewriting when enabled. */
  method Analyze(p: Program, opts: Options) returns (r: Result<Output, CompileError>)
    requires Valid(p)
    ensures r == Run(p, opts)
  {
    var a := new ScopeAnalysis(p);
    var err := a.BuildTables();
    if err.Some? {
      return Err(err.value);
    }
    var readOnly := ConstCheck(p.scopes, a.tables, p.occs);
    if readOnly.Some? {
      return Err(readOnly.value);
    }
    if !opts.letConst {
      return Ok(Unchanged(p));
    }
    a.Deconflict();
    var out := a.Emit();
    return Ok(out);
  }
}
