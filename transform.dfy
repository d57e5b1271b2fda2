/**
 * The whole stage as functions: binding tables, the const-write check,
 * renaming, and the rewrite of declarations and occurrences; with the
 * lemmas relating its outcome to the input.
 */
module Transform {
  import opened Wrappers
  import opened Scopes
  import opened Syntax
  import opened Bindings
  import opened Renamer
  import Patterns

  /** `letConst` switches the rewrite of `let`/`const` off; the static checks still run. */
  datatype Options = Options(letConst: bool)

  /** A write (assignment, update, destructuring target) to a name bound by `const`. */
  predicate WritesConst(scopes: seq<Scope>, tables: seq<Table>, o: Occurrence)
    requires WellFormed(scopes) && |tables| == |scopes| && (IsReference(o) ==> o.scope < |scopes|)
  {
    && IsWrite(o)
    && match Resolve(scopes, tables, o.scope, o.name)
       case Some(t) => tables[t][o.name] == Const
       case None => false
  }

  /** The read-only error for the first write to a constant, if any. */
  function ConstCheck(scopes: seq<Scope>, tables: seq<Table>, occs: seq<Occurrence>): (r: Option<CompileError>)
    requires WellFormed(scopes) && |tables| == |scopes| && OccsIn(scopes, occs)
    ensures r.None? <==> forall i :: 0 <= i < |occs| ==> !WritesConst(scopes, tables, occs[i])
    ensures r.Some? ==> exists i :: 0 <= i < |occs| && WritesConst(scopes, tables, occs[i])
                                    && r.value == ReadOnly(occs[i].name)
                                    && forall j :: 0 <= j < i ==> !WritesConst(scopes, tables, occs[j])
    decreases |occs|
  {
    if occs == [] then None
    else if WritesConst(scopes, tables, occs[0]) then Some(ReadOnly(occs[0].name))
    else
      var r := ConstCheck(scopes, tables, occs[1..]);
      assert forall i :: 1 <= i < |occs| ==> occs[i] == occs[1..][i - 1];
      r
  }

  /** The write targets of a destructuring assignment `pattern = ...` written in scope `s`. */
  function PatternWrites(p: Patterns.Pattern, s: nat): (r: seq<Occurrence>)
    ensures |r| == |Patterns.Targets(p)|
    ensures forall i :: 0 <= i < |r| ==> r[i] == Ident(Patterns.Targets(p)[i], s, Write)
  {
    var ts := Patterns.Targets(p);
    seq(|ts|, i requires 0 <= i < |ts| => Ident(ts[i], s, Write))
  }

  /**
   * Any destructuring assignment with a target bound by `const` is refused:
   * shorthand, renamed, rest, array-element and array-rest targets alike.
   */
  lemma DestructuredConstWriteRejected(scopes: seq<Scope>, tables: seq<Table>, occs: seq<Occurrence>,
                                        p: Patterns.Pattern, s: nat, k: nat)
    requires WellFormed(scopes) && |tables| == |scopes| && OccsIn(scopes, occs) && s < |scopes|
    requires forall o :: o in PatternWrites(p, s) ==> o in occs
    requires k < |Patterns.Targets(p)|
    requires Resolve(scopes, tables, s, Patterns.Targets(p)[k]).Some?
    requires tables[Resolve(scopes, tables, s, Patterns.Targets(p)[k]).value][Patterns.Targets(p)[k]] == Const
    ensures ConstCheck(scopes, tables, occs).Some?
  {
    var o := PatternWrites(p, s)[k];
    assert o in occs;
    assert WritesConst(scopes, tables, o);
  }

  datatype OutDecl = OutDecl(name: string, kind: DeclKind)

  datatype OutOcc =
    | OutIdent(name: string)
    | OutProperty(name: string)
    | OutShorthand(name: string)
    | OutKeyValue(key: string, value: string)  // `{ key: value }`, a shorthand spelled out

  datatype Output = Output(decls: seq<OutDecl>, occs: seq<OutOcc>)

  /** The name binding `(n, t)` is declared under after renaming. */
  function NewName(chosen: map<(string, nat), string>, n: string, t: nat): string
  {
    if (n, t) in chosen then chosen[(n, t)] else n
  }

  /** The name a reference to `n` in scope `s` is printed with: that of the binding it resolves to. */
  function RefName(scopes: seq<Scope>, tables: seq<Table>, chosen: map<(string, nat), string>, n: string, s: nat): string
    requires WellFormed(scopes) && |tables| == |scopes| && s < |scopes|
  {
    match Resolve(scopes, tables, s, n)
    case Some(t) => NewName(chosen, n, t)
    case None => n
  }

  function VarKind(k: DeclKind): DeclKind
  {
    if k == Let || k == Const then Var else k
  }

  function RewriteDecl(scopes: seq<Scope>, chosen: map<(string, nat), string>, d: Decl): OutDecl
    requires WellFormed(scopes) && d.scope < |scopes|
  {
    OutDecl(NewName(chosen, d.name, DeclScope(scopes, d)), VarKind(d.kind))
  }

  function RewriteOcc(scopes: seq<Scope>, tables: seq<Table>, chosen: map<(string, nat), string>, o: Occurrence): OutOcc
    requires WellFormed(scopes) && |tables| == |scopes| && (IsReference(o) ==> o.scope < |scopes|)
  {
    match o
    case Ident(n, s, _) => OutIdent(RefName(scopes, tables, chosen, n, s))
    case Property(n) => OutProperty(n)
    case Shorthand(n, s, _) =>
      var m := RefName(scopes, tables, chosen, n, s);
      if m == n then OutShorthand(n) else OutKeyValue(n, m)
  }

  function Rewrite(p: Program, tables: seq<Table>, chosen: map<(string, nat), string>): (out: Output)
    requires TablesFor(p, tables)
    ensures |out.decls| == |p.decls| && |out.occs| == |p.occs|
  {
    Output(seq(|p.decls|, i requires 0 <= i < |p.decls| => RewriteDecl(p.scopes, chosen, p.decls[i])),
           seq(|p.occs|, i requires 0 <= i < |p.occs| => RewriteOcc(p.scopes, tables, chosen, p.occs[i])))
  }

  function PlainOcc(o: Occurrence): OutOcc
  {
    match o
    case Ident(n, _, _) => OutIdent(n)
    case Property(n) => OutProperty(n)
    case Shorthand(n, _, _) => OutShorthand(n)
  }

  /** The input printed back as it is. */
  function Unchanged(p: Program): Output
  {
    Output(seq(|p.decls|, i requires 0 <= i < |p.decls| => OutDecl(p.decls[i].name, p.decls[i].kind)),
           seq(|p.occs|, i requires 0 <= i < |p.occs| => PlainOcc(p.occs[i])))
  }

  /** The input with only `let`/`const` turned into `var`. */
  function KeywordsOnly(p: Program): Output
  {
    Output(seq(|p.decls|, i requires 0 <= i < |p.decls| => OutDecl(p.decls[i].name, VarKind(p.decls[i].kind))),
           seq(|p.occs|, i requires 0 <= i < |p.occs| => PlainOcc(p.occs[i])))
  }

  /** The renaming decisions for a program whose tables are `tables`. */
  function Renames(p: Program, tables: seq<Table>): map<(string, nat), string>
    requires TablesFor(p, tables)
  {
    RenameAll(p, tables, Queue(p, |p.scopes|)).chosen
  }

  /** The block-scoping stage: errors first, then (when enabled) renaming and rewriting. */
  function Run(p: Program, opts: Options): Result<Output, CompileError>
    requires Valid(p)
  {
    match Build(p.scopes, p.decls)
    case Err(e) => Err(e)
    case Ok(tables) =>
      match ConstCheck(p.scopes, tables, p.occs)
      case Some(e) => Err(e)
      case None =>
        if !opts.letConst then Ok(Unchanged(p))
        else Ok(Rewrite(p, tables, Renames(p, tables)))
  }

  /**
   * The stage fails exactly on a redeclaration or a write to a constant, and
   * the `letConst` switch changes neither verdict; with it off, the output
   * is the input unchanged.
   */
  lemma RunErrors(p: Program, opts: Options)
    requires Valid(p)
    ensures HasDuplicate(p.scopes, p.decls) ==> Run(p, opts).Err? && Run(p, opts).error.DuplicateDeclaration?
    ensures Run(p, opts).Err? && !HasDuplicate(p.scopes, p.decls) ==> Run(p, opts).error.ReadOnly?
    ensures Build(p.scopes, p.decls).Err? <==> HasDuplicate(p.scopes, p.decls)
    ensures Build(p.scopes, p.decls).Ok? ==>
      (Run(p, opts).Err? <==>
         exists i :: 0 <= i < |p.occs| && WritesConst(p.scopes, Build(p.scopes, p.decls).value, p.occs[i]))
    ensures Run(p, Options(false)) == (if Run(p, Options(true)).Ok? then Ok(Unchanged(p)) else Run(p, Options(true)))
  {
    BuildCorrect(p.scopes, p.decls);
  }

  /** Exactly the bindings in the queue have a recorded name. */
  lemma {:induction false} RenameAllCoversQueue(p: Program, tables: seq<Table>, q: seq<nat>)
    requires TablesFor(p, tables) && InDecls(p, q)
    ensures forall x :: x in q ==> Key(p, x) in RenameAll(p, tables, q).chosen
    ensures forall k :: k in RenameAll(p, tables, q).chosen ==> exists x :: x in q && k == Key(p, x)
    decreases |q|
  {
    if q != [] {
      var q' := q[..|q| - 1];
      var x := q[|q| - 1];
      RenameAllCoversQueue(p, tables, q');
      HoistStepKeys(p, tables, RenameAll(p, tables, q'), x);
      forall y | y in q ensures Key(p, y) in RenameAll(p, tables, q).chosen {
        if y != x {
          assert y in q';
        }
      }
      forall k | k in RenameAll(p, tables, q).chosen ensures exists y :: y in q && k == Key(p, y) {
        if k != Key(p, x) {
          var y :| y in q' && k == Key(p, y);
          assert y in q;
        }
      }
    }
  }

  /**
   * Every hoisted binding receives a name; two of them sharing a hoist
   * target receive different names, and none takes a name bound in, or
   * referenced through, that target.
   */
  lemma HoistedRenamed(p: Program, tables: seq<Table>, i1: nat, i2: nat)
    requires TablesFor(p, tables) && i1 < |p.decls| && i2 < |p.decls|
    requires Hoisted(p.scopes, p.decls[i1]) && Hoisted(p.scopes, p.decls[i2])
    ensures Key(p, i1) in Renames(p, tables) && Key(p, i2) in Renames(p, tables)
    ensures Key(p, i1) != Key(p, i2) && Target(p, i1) == Target(p, i2) ==>
      Renames(p, tables)[Key(p, i1)] != Renames(p, tables)[Key(p, i2)]
    ensures Renames(p, tables)[Key(p, i1)] !in Fixed(p, tables, Target(p, i1))
  {
    var q := Queue(p, |p.scopes|);
    QueueHasHoisted(p, i1);
    QueueHasHoisted(p, i2);
    RenameAllCoversQueue(p, tables, q);
    RenameAllDeconflicted(p, tables, q);
  }

  /** With `letConst` on, the output is the rewrite under the renamer's choices. */
  lemma RunOutput(p: Program)
    requires Valid(p) && Run(p, Options(true)).Ok?
    ensures Build(p.scopes, p.decls).Ok?
    ensures var tables := Build(p.scopes, p.decls).value;
            Run(p, Options(true)).value == Rewrite(p, tables, Renames(p, tables))
  {
  }

  /**
   * With `letConst` on: two hoisted bindings of different blocks or names
   * sharing a hoist target end up declared under different names, and none
   * takes a name bound in, or referenced through, that target.
   */
  lemma HoistedNamesDistinct(p: Program, i1: nat, i2: nat)
    requires Valid(p) && Run(p, Options(true)).Ok?
    requires i1 < |p.decls| && i2 < |p.decls|
    requires Hoisted(p.scopes, p.decls[i1]) && Hoisted(p.scopes, p.decls[i2])
    ensures Key(p, i1) != Key(p, i2) && Target(p, i1) == Target(p, i2) ==>
      Run(p, Options(true)).value.decls[i1].name != Run(p, Options(true)).value.decls[i2].name
    ensures Run(p, Options(true)).value.decls[i1].name !in Fixed(p, Build(p.scopes, p.decls).value, Target(p, i1))
  {
    RunOutput(p);
    var tables := Build(p.scopes, p.decls).value;
    var chosen := Renames(p, tables);
    HoistedRenamed(p, tables, i1, i2);
    var out := Rewrite(p, tables, chosen);
    assert out.decls[i1].name == chosen[Key(p, i1)];
    assert out.decls[i2].name == chosen[Key(p, i2)];
  }

  /**
   * A declaration of any kind that lands in a hoisted binding's target
   * (a parameter, `var`, function or class declaration, import, or the
   * function's own expression name) keeps that binding off its name.
   */
  lemma OccupantForcesRename(p: Program, i: nat, j: nat)
    requires Valid(p) && Run(p, Options(true)).Ok?
    requires i < |p.decls| && j < |p.decls| && Hoisted(p.scopes, p.decls[i])
    requires DeclScope(p.scopes, p.decls[j]) == Target(p, i)
    ensures Run(p, Options(true)).value.decls[i].name != p.decls[j].name
  {
    HoistedNamesDistinct(p, i, i);
    BuildCorrect(p.scopes, p.decls);
    var tables := Build(p.scopes, p.decls).value;
    var f := Target(p, i);
    assert Declares(p.scopes, p.decls, f, p.decls[j].name);
    assert TableMatchesAt(p.scopes, p.decls, Walk(p.scopes, p.decls).value, f, p.decls[j].name);
    assert p.decls[j].name in Fixed(p, tables, f);
  }

  /**
   * The renaming decisions for the bindings written in scope `s`, by name:
   * the map a destructuring declaration in `s` is desugared or respelled under.
   */
  function BlockRenames(chosen: map<(string, nat), string>, s: nat): (ren: map<string, string>)
    ensures forall n :: n in ren <==> (n, s) in chosen
    ensures forall n :: n in ren ==> ren[n] == chosen[(n, s)]
  {
    map n | n in (set k | k in chosen && k.1 == s :: k.0) :: chosen[(n, s)]
  }

  /** A `let`/`const` written in scope `s` is declared under the name the renames of `s` give it. */
  lemma BlockRenamesNameDecl(p: Program, i: nat)
    requires Valid(p) && Run(p, Options(true)).Ok? && i < |p.decls|
    requires p.decls[i].kind == Let || p.decls[i].kind == Const
    ensures Build(p.scopes, p.decls).Ok?
    ensures var tables := Build(p.scopes, p.decls).value;
            Run(p, Options(true)).value.decls[i].name ==
              Patterns.Rename(BlockRenames(Renames(p, tables), p.decls[i].scope), p.decls[i].name)
  {
    RunOutput(p);
  }

  /**
   * A destructuring `let`/`const` in scope `s` declares its targets, in
   * order, as declarations `start ..` of the program. Desugared under the
   * renames of `s`, each generated `var` assigns exactly the name the stage
   * gives the matching declaration, and reads the target's own place in the
   * source value.
   */
  lemma DesugarMatchesDecls(p: Program, pat: Patterns.Pattern, src: Patterns.Source, s: nat, start: nat)
    requires Valid(p) && Run(p, Options(true)).Ok? && !Patterns.HasObjectRest(pat)
    requires start + |Patterns.Targets(pat)| <= |p.decls|
    requires forall k :: 0 <= k < |Patterns.Targets(pat)| ==>
      && p.decls[start + k].name == Patterns.Targets(pat)[k] && p.decls[start + k].scope == s
      && (p.decls[start + k].kind == Let || p.decls[start + k].kind == Const)
    ensures var tables := Build(p.scopes, p.decls).value;
            var steps := Patterns.Desugar(pat, src, BlockRenames(Renames(p, tables), s));
            && steps.Some? && |steps.value| == |Patterns.Targets(pat)| == |Patterns.Paths(pat)|
            && forall k :: 0 <= k < |steps.value| ==>
                 && steps.value[k].target == Run(p, Options(true)).value.decls[start + k].name
                 && steps.value[k].source == Patterns.Apply(src, Patterns.Paths(pat)[k])
  {
    assert Build(p.scopes, p.decls).Ok?;
    var tables := Build(p.scopes, p.decls).value;
    var ren := BlockRenames(Renames(p, tables), s);
    Patterns.FlattenReadsPaths(pat, src, ren);
    forall k | 0 <= k < |Patterns.Targets(pat)|
      ensures Patterns.Desugar(pat, src, ren).value[k].target == Run(p, Options(true)).value.decls[start + k].name
    {
      assert p.decls[start + k].name == Patterns.Targets(pat)[k];
      BlockRenamesNameDecl(p, start + k);
    }
  }

  /**
   * The same declaration kept as a pattern (destructuring not lowered):
   * respelled under the renames of `s`, it binds exactly the names the
   * stage gives the matching declarations, and still reads the same keys.
   */
  lemma RenamePatternMatchesDecls(p: Program, pat: Patterns.Pattern, s: nat, start: nat)
    requires Valid(p) && Run(p, Options(true)).Ok? && Patterns.ShorthandsBindKeys(pat)
    requires start + |Patterns.Targets(pat)| <= |p.decls|
    requires forall k :: 0 <= k < |Patterns.Targets(pat)| ==>
      && p.decls[start + k].name == Patterns.Targets(pat)[k] && p.decls[start + k].scope == s
      && (p.decls[start + k].kind == Let || p.decls[start + k].kind == Const)
    ensures var tables := Build(p.scopes, p.decls).value;
            var kept := Patterns.RenamePattern(pat, BlockRenames(Renames(p, tables), s));
            && |Patterns.Targets(kept)| == |Patterns.Targets(pat)|
            && Patterns.Keys(kept) == Patterns.Keys(pat)
            && forall k :: 0 <= k < |Patterns.Targets(kept)| ==>
                 Patterns.Targets(kept)[k] == Run(p, Options(true)).value.decls[start + k].name
  {
    assert Build(p.scopes, p.decls).Ok?;
    var tables := Build(p.scopes, p.decls).value;
    var ren := BlockRenames(Renames(p, tables), s);
    Patterns.RenamePatternCorrect(pat, ren);
    forall k | 0 <= k < |Patterns.Targets(pat)|
      ensures Patterns.Targets(Patterns.RenamePattern(pat, ren))[k] == Run(p, Options(true)).value.decls[start + k].name
    {
      assert p.decls[start + k].name == Patterns.Targets(pat)[k];
      BlockRenamesNameDecl(p, start + k);
    }
  }

  /** Only hoisted declarations are queued for renaming. */
  lemma {:induction false} QueueOnlyHoisted(p: Program, n: nat)
    requires Valid(p) && n <= |p.scopes|
    ensures forall x :: x in Queue(p, n) ==> Hoisted(p.scopes, p.decls[x])
    decreases n
  {
    if n > 0 {
      QueueOnlyHoisted(p, n - 1);
      BlockQueueOnlyHoisted(p, n - 1, |p.decls|);
    }
  }

  lemma {:induction false} BlockQueueOnlyHoisted(p: Program, s: nat, i: nat)
    requires Valid(p) && i <= |p.decls|
    ensures forall x :: x in BlockQueue(p, s, i) ==> p.decls[x].scope == s && Hoisted(p.scopes, p.decls[x])
    decreases i
  {
    if i > 0 {
      BlockQueueOnlyHoisted(p, s, i - 1);
    }
  }

  /**
   * A declaration that is not a `let`/`const` inside a block (a `var`, a
   * function, class or import, a parameter, or a `let`/`const` directly in
   * a function or at top level) keeps its name; only its keyword may change.
   */
  lemma UnhoistedKeepsName(p: Program, i: nat)
    requires Valid(p) && Run(p, Options(true)).Ok?
    requires i < |p.decls| && !Hoisted(p.scopes, p.decls[i])
    ensures Run(p, Options(true)).value.decls[i] == OutDecl(p.decls[i].name, VarKind(p.decls[i].kind))
  {
    RunOutput(p);
    BuildCorrect(p.scopes, p.decls);
    var tables := Build(p.scopes, p.decls).value;
    var q := Queue(p, |p.scopes|);
    var d := p.decls[i];
    var t := DeclScope(p.scopes, d);
    RenameAllCoversQueue(p, tables, q);
    QueueOnlyHoisted(p, |p.scopes|);
    forall x | x in q ensures Key(p, x) != (d.name, t) {
      KeyOfUnhoisted(p, i, x);
    }
    assert (d.name, t) !in Renames(p, tables);
  }

  /** An unhoisted declaration sharing a hoisted binding's name and table would redeclare it. */
  lemma KeyOfUnhoisted(p: Program, i: nat, x: nat)
    requires Valid(p) && i < |p.decls| && x < |p.decls|
    requires !Hoisted(p.scopes, p.decls[i]) && Hoisted(p.scopes, p.decls[x])
    ensures Key(p, x) == (p.decls[i].name, DeclScope(p.scopes, p.decls[i])) ==> HasDuplicate(p.scopes, p.decls)
  {
    var d, e := p.decls[i], p.decls[x];
    if Key(p, x) == (d.name, DeclScope(p.scopes, d)) {
      assert Clash(p.scopes, d, e) && Clash(p.scopes, e, d);
      if i < x {
        assert Clash(p.scopes, p.decls[i], p.decls[x]);
      } else {
        assert Clash(p.scopes, p.decls[x], p.decls[i]);
      }
    }
  }

  /** Every hoisted declaration is in the queue. */
  lemma QueueHasHoisted(p: Program, i: nat)
    requires Valid(p) && i < |p.decls| && Hoisted(p.scopes, p.decls[i])
    ensures i in Queue(p, |p.scopes|)
  {
    var s := p.decls[i].scope;
    BlockQueueHas(p, s, i, |p.decls|);
    QueueHasBlock(p, s, |p.scopes|);
  }

  lemma {:induction false} BlockQueueHas(p: Program, s: nat, i: nat, n: nat)
    requires Valid(p) && i < n <= |p.decls| && p.decls[i].scope == s && Hoisted(p.scopes, p.decls[i])
    ensures i in BlockQueue(p, s, n)
    decreases n
  {
    var pre := BlockQueue(p, s, n - 1);
    var last := if p.decls[n - 1].scope == s && Hoisted(p.scopes, p.decls[n - 1]) then [n - 1] else [];
    assert BlockQueue(p, s, n) == pre + last;
    if i < n - 1 {
      BlockQueueHas(p, s, i, n - 1);
      assert i in pre;
    } else {
      assert last == [i];
    }
  }

  lemma {:induction false} QueueHasBlock(p: Program, s: nat, n: nat)
    requires Valid(p) && s < n <= |p.scopes|
    ensures forall x :: x in BlockQueue(p, s, |p.decls|) ==> x in Queue(p, n)
    decreases n
  {
    var b := BlockQueue(p, s, |p.decls|);
    if s < n - 1 {
      QueueHasBlock(p, s, n - 1);
      assert Queue(p, n) == Queue(p, n - 1) + BlockQueue(p, n - 1, |p.decls|);
    } else {
      assert Queue(p, n) == Queue(p, n - 1) + b;
    }
  }

  /** The name an output occurrence prints for its reference. */
  function PrintedName(o: OutOcc): string
  {
    match o
    case OutIdent(n) => n
    case OutProperty(n) => n
    case OutShorthand(n) => n
    case OutKeyValue(_, v) => v
  }

  /**
   * A rename reaches exactly the references that resolve to the renamed
   * binding: a reference resolving to a declaration prints that
   * declaration's new name; a member property, a free reference, or one
   * resolving to a binding that kept its name is printed unchanged; a
   * shorthand keeps its key.
   */
  lemma RenameFollowsResolution(p: Program, j: nat, i: nat)
    requires Valid(p) && Run(p, Options(true)).Ok? && j < |p.occs| && i < |p.decls|
    ensures var out := Run(p, Options(true)).value;
            var tables := Build(p.scopes, p.decls).value;
            var o := p.occs[j];
            && (IsReference(o) && p.decls[i].name == o.name
                && Resolve(p.scopes, tables, o.scope, o.name) == Some(DeclScope(p.scopes, p.decls[i]))
                ==> PrintedName(out.occs[j]) == out.decls[i].name)
            && (PrintedName(out.occs[j]) != o.name ==>
                  IsReference(o) && Resolve(p.scopes, tables, o.scope, o.name).Some?
                  && (o.name, Resolve(p.scopes, tables, o.scope, o.name).value) in Renames(p, tables))
            && (o.Shorthand? ==> out.occs[j] == OutShorthand(o.name)
                                 || (out.occs[j].OutKeyValue? && out.occs[j].key == o.name))
  {
  }

  /**
   * When no hoisted binding collides with anything in its hoist target,
   * the output differs from the input only by `let`/`const` becoming `var`.
   */
  lemma NoCollisionOnlyKeywords(p: Program)
    requires Valid(p) && Run(p, Options(true)).Ok?
    requires NoCollision(p, Build(p.scopes, p.decls).value, Queue(p, |p.scopes|))
    ensures Run(p, Options(true)).value == KeywordsOnly(p)
  {
    RunOutput(p);
    var tables := Build(p.scopes, p.decls).value;
    var chosen := Renames(p, tables);
    NoCollisionKeepsNames(p, tables, Queue(p, |p.scopes|));
    var out := Rewrite(p, tables, chosen);
    var want := KeywordsOnly(p);
    forall i | 0 <= i < |p.decls| ensures out.decls[i] == want.decls[i] {
      var d := p.decls[i];
      assert NewName(chosen, d.name, DeclScope(p.scopes, d)) == d.name;
    }
    forall j | 0 <= j < |p.occs| ensures out.occs[j] == want.occs[j] {
      var o := p.occs[j];
      if IsReference(o) {
        assert RefName(p.scopes, tables, chosen, o.name, o.scope) == o.name by {
          match Resolve(p.scopes, tables, o.scope, o.name)
          case None =>
          case Some(t) => assert NewName(chosen, o.name, t) == o.name;
        }
      }
    }
    assert out.decls == want.decls && out.occs == want.occs;
  }
}
