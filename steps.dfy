/**
 * Single steps of the stage on concrete programs: one registration of the
 * binding walk, and the rewrite assembled from its parts. The fixture
 * modules chain these instead of unfolding the walk as a whole.
 */
module Steps {
  import opened Wrappers
  import opened Scopes
  import opened Syntax
  import opened Bindings
  import opened Names
  import opened Renamer
  import opened Transform

  /** A `let`, `const`, `class`, import or parameter whose name its scope neither binds nor has claimed. */
  lemma RegisterFresh(scopes: seq<Scope>, env: Env, d: Decl)
    requires WellFormed(scopes) && Sized(scopes, env) && d.scope < |scopes|
    requires !VarLike(d.kind) && d.kind != SelfName
    requires d.name !in env.tables[d.scope] && d.name !in env.claimed[d.scope]
    ensures Register(scopes, env, d) == Ok(env.(tables := env.tables[d.scope := env.tables[d.scope][d.name := d.kind]]))
  {
  }

  /** A function expression's own name, in a function scope that does not bind it yet. */
  lemma RegisterFreshSelfName(scopes: seq<Scope>, env: Env, d: Decl)
    requires WellFormed(scopes) && Sized(scopes, env) && d.scope < |scopes|
    requires d.kind == SelfName && d.name !in env.tables[d.scope]
    ensures Register(scopes, env, d) == Ok(env.(tables := env.tables[d.scope := env.tables[d.scope][d.name := d.kind]]))
  {
  }

  /** A `var` or function declaration written directly in a function or the global scope that does not bind its name yet. */
  lemma RegisterFreshVar(scopes: seq<Scope>, env: Env, d: Decl)
    requires WellFormed(scopes) && Sized(scopes, env) && d.scope < |scopes|
    requires VarLike(d.kind) && scopes[d.scope].kind != Block && d.name !in env.tables[d.scope]
    ensures Register(scopes, env, d)
         == Ok(Env(env.tables[d.scope := env.tables[d.scope][d.name := d.kind]],
                   env.claimed[d.scope := env.claimed[d.scope] + {d.name}]))
  {
  }

  /** A `let`, `const`, class, import or parameter whose name is still free in its scope binds it there. */
  lemma FreshStep(scopes: seq<Scope>, decls: seq<Decl>, k: nat, env: Env)
    requires WellFormed(scopes) && DeclsIn(scopes, decls) && k < |decls|
    requires Walk(scopes, decls[..k]) == Ok(env) && Sized(scopes, env)
    requires !VarLike(decls[k].kind) && decls[k].kind != SelfName
    requires decls[k].name !in env.tables[decls[k].scope] && decls[k].name !in env.claimed[decls[k].scope]
    ensures var d := decls[k];
            Walk(scopes, decls[..k + 1]) == Ok(env.(tables := env.tables[d.scope := env.tables[d.scope][d.name := d.kind]]))
  {
    var d := decls[k];
    RegisterFresh(scopes, env, d);
    WalkStep(scopes, decls, k, env, env.(tables := env.tables[d.scope := env.tables[d.scope][d.name := d.kind]]));
  }

  /** The rewrite is `out` when it agrees with `out` declaration by declaration and occurrence by occurrence. */
  lemma RewriteFrom(p: Program, tables: seq<Table>, chosen: map<(string, nat), string>, out: Output)
    requires TablesFor(p, tables) && |out.decls| == |p.decls| && |out.occs| == |p.occs|
    requires forall i :: 0 <= i < |p.decls| ==> RewriteDecl(p.scopes, chosen, p.decls[i]) == out.decls[i]
    requires forall j :: 0 <= j < |p.occs| ==> RewriteOcc(p.scopes, tables, chosen, p.occs[j]) == out.occs[j]
    ensures Rewrite(p, tables, chosen) == out
  {
  }

  /** The walk over the first `k + 1` declarations is one registration past the walk over the first `k`. */
  lemma WalkStep(scopes: seq<Scope>, decls: seq<Decl>, k: nat, env: Env, env': Env)
    requires WellFormed(scopes) && DeclsIn(scopes, decls) && k < |decls|
    requires Walk(scopes, decls[..k]) == Ok(env)
    requires Register(scopes, env, decls[k]) == Ok(env')
    ensures Walk(scopes, decls[..k + 1]) == Ok(env')
  {
    assert decls[..k + 1][..k] == decls[..k];
  }

  /** A `var` or function declaration whose name is still free in its function or global scope binds and claims it there. */
  lemma FreshVarStep(scopes: seq<Scope>, decls: seq<Decl>, k: nat, env: Env)
    requires WellFormed(scopes) && DeclsIn(scopes, decls) && k < |decls|
    requires Walk(scopes, decls[..k]) == Ok(env) && Sized(scopes, env)
    requires VarLike(decls[k].kind) && scopes[decls[k].scope].kind != Block && decls[k].name !in env.tables[decls[k].scope]
    ensures var d := decls[k];
            Walk(scopes, decls[..k + 1]) ==
            Ok(Env(env.tables[d.scope := env.tables[d.scope][d.name := d.kind]],
                   env.claimed[d.scope := env.claimed[d.scope] + {d.name}]))
  {
    var d := decls[k];
    RegisterFreshVar(scopes, env, d);
    WalkStep(scopes, decls, k, env, Env(env.tables[d.scope := env.tables[d.scope][d.name := d.kind]],
                                        env.claimed[d.scope := env.claimed[d.scope] + {d.name}]));
  }

  /** A function expression's own name binds in its function scope when nothing binds it there yet. */
  lemma SelfNameStep(scopes: seq<Scope>, decls: seq<Decl>, k: nat, env: Env)
    requires WellFormed(scopes) && DeclsIn(scopes, decls) && k < |decls|
    requires Walk(scopes, decls[..k]) == Ok(env) && Sized(scopes, env)
    requires decls[k].kind == SelfName && decls[k].name !in env.tables[decls[k].scope]
    ensures var d := decls[k];
            Walk(scopes, decls[..k + 1]) == Ok(env.(tables := env.tables[d.scope := env.tables[d.scope][d.name := d.kind]]))
  {
    var d := decls[k];
    RegisterFreshSelfName(scopes, env, d);
    WalkStep(scopes, decls, k, env, env.(tables := env.tables[d.scope := env.tables[d.scope][d.name := d.kind]]));
  }

  /** A `let`, `const`, class, import or parameter takes its name over from a function expression's own name. */
  lemma OverSelfNameStep(scopes: seq<Scope>, decls: seq<Decl>, k: nat, env: Env)
    requires WellFormed(scopes) && DeclsIn(scopes, decls) && k < |decls|
    requires Walk(scopes, decls[..k]) == Ok(env) && Sized(scopes, env)
    requires !VarLike(decls[k].kind) && decls[k].kind != SelfName
    requires decls[k].name in env.tables[decls[k].scope] && env.tables[decls[k].scope][decls[k].name] == SelfName
    requires decls[k].name !in env.claimed[decls[k].scope]
    ensures var d := decls[k];
            Walk(scopes, decls[..k + 1]) == Ok(env.(tables := env.tables[d.scope := env.tables[d.scope][d.name := d.kind]]))
  {
    var d := decls[k];
    assert !Refused(scopes, env, d);
    WalkStep(scopes, decls, k, env, env.(tables := env.tables[d.scope := env.tables[d.scope][d.name := d.kind]]));
  }

  /** A program that writes nothing writes no constant. */
  lemma NoWrites(p: Program, tables: seq<Table>)
    requires Valid(p) && |tables| == |p.scopes|
    requires forall j :: 0 <= j < |p.occs| ==> !IsWrite(p.occs[j])
    ensures ConstCheck(p.scopes, tables, p.occs) == None
  {
  }

  /** No name is referenced through `f` when no occurrence references through it. */
  lemma NothingReferenced(p: Program, tables: seq<Table>, f: nat)
    requires TablesFor(p, tables)
    requires forall j :: 0 <= j < |p.occs| ==> !ReferencesThrough(p, tables, p.occs[j], f)
    ensures Referenced(p, tables, f) == {}
  {
    forall x | x in Referenced(p, tables, f)
      ensures false
    {
      ReferencedInMeans(p, tables, f, p.occs, x);
    }
  }

  /** With a single hoisted binding, it takes the first name free in its target. */
  lemma RenamesOne(p: Program, tables: seq<Table>, i: nat, occupied: set<string>, n: string)
    requires TablesFor(p, tables) && i < |p.decls| && Queue(p, |p.scopes|) == [i]
    requires Occupied(p, tables, InitialState(|p.scopes|), Target(p, i)) == occupied
    requires FirstFree(p.decls[i].name, occupied) == n
    ensures Renames(p, tables) == map[Key(p, i) := n]
  {
    var t0 := InitialState(|p.scopes|);
    assert [i][..0] == [];
    assert RenameAll(p, tables, [i]) == HoistStep(p, tables, t0, i);
  }

  /**
   * Two hoisted bindings sharing a target with `fixed` taken: the first takes
   * the first name free there, the second the first free once that is taken too.
   */
  lemma RenamesTwo(p: Program, tables: seq<Table>, i: nat, j: nat, fixed: set<string>, n1: string, n2: string)
    requires TablesFor(p, tables) && i < |p.decls| && j < |p.decls| && Queue(p, |p.scopes|) == [i, j]
    requires Target(p, i) == Target(p, j) && Fixed(p, tables, Target(p, i)) == fixed
    requires FirstFree(p.decls[i].name, fixed) == n1 && FirstFree(p.decls[j].name, fixed + {n1}) == n2
    ensures Renames(p, tables) == map[Key(p, i) := n1, Key(p, j) := n2]
  {
    var f := Target(p, i);
    var st1 := HoistFirst(p, tables, i, fixed, n1);
    var st2 := HoistNext(p, tables, [i], st1, j, fixed + {n1}, n2);
    assert [i] + [j] == [i, j];
  }

  /** Three hoisted bindings sharing a target, each taking the first name still free. */
  lemma RenamesThree(p: Program, tables: seq<Table>, i: nat, j: nat, k: nat, fixed: set<string>,
                     n1: string, n2: string, n3: string)
    requires TablesFor(p, tables) && i < |p.decls| && j < |p.decls| && k < |p.decls|
    requires Queue(p, |p.scopes|) == [i, j, k]
    requires Target(p, i) == Target(p, j) == Target(p, k) && Fixed(p, tables, Target(p, i)) == fixed
    requires FirstFree(p.decls[i].name, fixed) == n1 && FirstFree(p.decls[j].name, fixed + {n1}) == n2
    requires FirstFree(p.decls[k].name, fixed + {n1, n2}) == n3
    ensures Renames(p, tables) == map[Key(p, i) := n1, Key(p, j) := n2, Key(p, k) := n3]
  {
    var st1 := HoistFirst(p, tables, i, fixed, n1);
    var st2 := HoistNext(p, tables, [i], st1, j, fixed + {n1}, n2);
    assert [i] + [j] == [i, j];
    assert fixed + {n1} + {n2} == fixed + {n1, n2};
    var st3 := HoistNext(p, tables, [i, j], st2, k, fixed + {n1, n2}, n3);
    assert [i, j] + [k] == [i, j, k];
  }

  /** The first binding queued takes the first name free among those `fixed` in its target. */
  lemma HoistFirst(p: Program, tables: seq<Table>, i: nat, fixed: set<string>, n: string)
    returns (st: RenameState)
    requires TablesFor(p, tables) && i < |p.decls| && Fixed(p, tables, Target(p, i)) == fixed
    requires FirstFree(p.decls[i].name, fixed) == n
    ensures InDecls(p, [i]) && RenameAll(p, tables, [i]) == st
    ensures st.chosen == map[Key(p, i) := n] && |st.aliases| == |p.scopes|
    ensures Occupied(p, tables, st, Target(p, i)) == fixed + {n}
  {
    var st0 := InitialState(|p.scopes|);
    assert [i][..0] == [] && RenameAll(p, tables, []) == st0;
    assert Occupied(p, tables, st0, Target(p, i)) == fixed;
    st := RenameAll(p, tables, [i]);
    assert st == Record(st0, Key(p, i), Target(p, i), n);
  }

  /**
   * One more binding queued after `q`, in a target where `occupied` is taken:
   * it takes the first free name, which is then taken too.
   */
  lemma HoistNext(p: Program, tables: seq<Table>, q: seq<nat>, st: RenameState, i: nat,
                  occupied: set<string>, n: string)
    returns (st': RenameState)
    requires TablesFor(p, tables) && InDecls(p, q) && i < |p.decls| && RenameAll(p, tables, q) == st
    requires Occupied(p, tables, st, Target(p, i)) == occupied && FirstFree(p.decls[i].name, occupied) == n
    ensures InDecls(p, q + [i]) && RenameAll(p, tables, q + [i]) == st'
    ensures st'.chosen == st.chosen[Key(p, i) := n] && |st'.aliases| == |p.scopes|
    ensures Occupied(p, tables, st', Target(p, i)) == occupied + {n}
  {
    assert (q + [i])[..|q|] == q;
    st' := RenameAll(p, tables, q + [i]);
  }
}
