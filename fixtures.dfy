/**
 * Fixture programs of the block-scoping tests, run through the whole stage.
 */
module Fixtures {
  import opened Wrappers
  import opened Scopes
  import opened Syntax
  import opened Bindings
  import opened Names
  import opened Renamer
  import opened Transform
  import opened Steps

  /** `if (a) { let x } else if (b) { let x } else { let x }` at top level, each block using its `x`. */
  function SiblingBlocks(): (p: Program)
    ensures Valid(p)
  {
    Program([Scope(Global, None), Scope(Block, Some(0)), Scope(Block, Some(0)), Scope(Block, Some(0))],
            [Decl("x", Let, 1), Decl("x", Let, 2), Decl("x", Let, 3)],
            [Ident("x", 1, Read), Ident("x", 2, Read), Ident("x", 3, Read)])
  }

  function SiblingTables(): seq<Table>
  {
    [map[], map["x" := Let], map["x" := Let], map["x" := Let]]
  }

  lemma SiblingBlocksBuild()
    ensures Build(SiblingBlocks().scopes, SiblingBlocks().decls) == Ok(SiblingTables())
  {
    var p := SiblingBlocks();
    var none: seq<set<string>> := [{}, {}, {}, {}];
    var e0 := Env([map[], map[], map[], map[]], none);
    var e1 := Env([map[], map["x" := Let], map[], map[]], none);
    var e2 := Env([map[], map["x" := Let], map["x" := Let], map[]], none);
    var e3 := Env(SiblingTables(), none);
    assert EmptyEnv(4) == e0 && p.decls[..0] == [];
    assert e0.tables[1 := e0.tables[1]["x" := Let]] == e1.tables;
    RegisterFresh(p.scopes, e0, p.decls[0]);
    WalkStep(p.scopes, p.decls, 0, e0, e1);
    assert e1.tables[2 := e1.tables[2]["x" := Let]] == e2.tables;
    RegisterFresh(p.scopes, e1, p.decls[1]);
    WalkStep(p.scopes, p.decls, 1, e1, e2);
    assert e2.tables[3 := e2.tables[3]["x" := Let]] == e3.tables;
    RegisterFresh(p.scopes, e2, p.decls[2]);
    WalkStep(p.scopes, p.decls, 2, e2, e3);
    assert p.decls[..3] == p.decls;
  }

  lemma SiblingBlocksQueue()
    ensures Queue(SiblingBlocks(), 4) == [0, 1, 2]
  {
    var p := SiblingBlocks();
    assert Hoisted(p.scopes, p.decls[0]) && Hoisted(p.scopes, p.decls[1]) && Hoisted(p.scopes, p.decls[2]);
    forall s: nat | s < 4 && s != 1
      ensures BlockQueue(p, s, 1) == []
    {
      assert BlockQueue(p, s, 0) == [];
    }
    assert BlockQueue(p, 1, 1) == [0];
    assert BlockQueue(p, 0, 3) == BlockQueue(p, 0, 1);
    assert BlockQueue(p, 1, 3) == BlockQueue(p, 1, 1);
    assert BlockQueue(p, 2, 3) == BlockQueue(p, 2, 1) + [1];
    assert BlockQueue(p, 3, 3) == BlockQueue(p, 3, 1) + [2];
    assert Queue(p, 1) == Queue(p, 0) + BlockQueue(p, 0, 3) == [];
    assert Queue(p, 2) == Queue(p, 1) + BlockQueue(p, 1, 3) == [0];
    assert Queue(p, 3) == Queue(p, 2) + BlockQueue(p, 2, 3) == [0, 1];
    assert Queue(p, 4) == Queue(p, 3) + BlockQueue(p, 3, 3);
  }

  lemma SiblingBlocksNothingReferenced()
    ensures Referenced(SiblingBlocks(), SiblingTables(), 0) == {}
  {
    var p := SiblingBlocks();
    var t := SiblingTables();
    forall o | o in p.occs
      ensures !ReferencesThrough(p, t, o, 0)
    {
      assert Resolve(p.scopes, t, o.scope, o.name) == Some(o.scope);
    }
    forall x | x in Referenced(p, t, 0)
      ensures false
    {
      ReferencedInMeans(p, t, 0, p.occs, x);
    }
  }

  /** Nothing is bound in, or referenced through, the global scope the three blocks hoist into. */
  lemma SiblingBlocksTarget(i: nat)
    requires i < 3
    ensures Target(SiblingBlocks(), i) == 0
    ensures Fixed(SiblingBlocks(), SiblingTables(), 0) == {}
  {
    SiblingBlocksNothingReferenced();
  }

  /** The first three sibling names of `x`. */
  lemma FirstSiblingNames()
    ensures SiblingName("x", 0) == "x" && SiblingName("x", 1) == "x$1" && SiblingName("x", 2) == "x$2"
  {
    assert NatToString(1) == "1" && NatToString(2) == "2";
  }

  /** All three are called `x` and hoisted into the global scope. */
  lemma SiblingBlocksShared()
    ensures var p, q := SiblingBlocks(), [0, 1, 2];
            forall a :: 0 <= a < |q| ==> p.decls[q[a]].name == "x" && Target(p, q[a]) == 0
  {
    forall a | 0 <= a < 3 ensures Target(SiblingBlocks(), a) == 0 {
      SiblingBlocksTarget(a);
    }
  }

  /** The numbering of the three blocks' bindings, spelled out. */
  lemma SiblingBlocksNumbering(p: Program)
    requires p == SiblingBlocks()
    ensures Numbering(p, [0, 1, 2], "x") == map[("x", 1) := "x", ("x", 2) := "x$1", ("x", 3) := "x$2"]
  {
    var q := [0, 1, 2];
    FirstSiblingNames();
    assert q[..2] == [0, 1] && q[..2][..1] == [0] && [0][..0] == [];
    assert Numbering(p, [0], "x") == map[("x", 1) := "x"];
    assert Numbering(p, [0, 1], "x") == map[("x", 1) := "x", ("x", 2) := "x$1"];
  }

  /** Nothing in the global scope is in the way, so the blocks are numbered `x`, `x$1`, `x$2`. */
  lemma SiblingBlocksChosen(p: Program, t: seq<Table>)
    requires p == SiblingBlocks() && t == SiblingTables()
    ensures TablesFor(p, t)
    ensures RenameAll(p, t, [0, 1, 2]).chosen == map[("x", 1) := "x", ("x", 2) := "x$1", ("x", 3) := "x$2"]
  {
    SiblingBlocksShared();
    SiblingBlocksTarget(0);
    SiblingsNumbered(p, t, [0, 1, 2], 0, "x");
    SiblingBlocksNumbering(p);
  }

  lemma SiblingBlocksRenames(p: Program, t: seq<Table>)
    requires p == SiblingBlocks() && t == SiblingTables()
    ensures TablesFor(p, t)
    ensures Renames(p, t) == map[("x", 1) := "x", ("x", 2) := "x$1", ("x", 3) := "x$2"]
  {
    SiblingBlocksQueue();
    SiblingBlocksChosen(p, t);
    assert Queue(p, |p.scopes|) == [0, 1, 2];
  }

  lemma SiblingBlocksNoConstWrite()
    ensures ConstCheck(SiblingBlocks().scopes, SiblingTables(), SiblingBlocks().occs) == None
  {
    var p := SiblingBlocks();
    forall k | 0 <= k < |p.occs|
      ensures !WritesConst(p.scopes, SiblingTables(), p.occs[k])
    {
    }
  }

  lemma SiblingBlocksRewrite()
    ensures Rewrite(SiblingBlocks(), SiblingTables(), map[("x", 1) := "x", ("x", 2) := "x$1", ("x", 3) := "x$2"])
         == Output([OutDecl("x", Var), OutDecl("x$1", Var), OutDecl("x$2", Var)],
                   [OutIdent("x"), OutIdent("x$1"), OutIdent("x$2")])
  {
    var p := SiblingBlocks();
    var t := SiblingTables();
    assert Resolve(p.scopes, t, 1, "x") == Some(1);
    assert Resolve(p.scopes, t, 2, "x") == Some(2);
    assert Resolve(p.scopes, t, 3, "x") == Some(3);
  }

  /** The three blocks' bindings become `var x`, `var x$1`, `var x$2`, and each use follows its own. */
  lemma SiblingBlocksRenamed()
    ensures Run(SiblingBlocks(), Options(true))
         == Ok(Output([OutDecl("x", Var), OutDecl("x$1", Var), OutDecl("x$2", Var)],
                      [OutIdent("x"), OutIdent("x$1"), OutIdent("x$2")]))
  {
    SiblingBlocksBuild();
    SiblingBlocksNoConstWrite();
    SiblingBlocksRenames(SiblingBlocks(), SiblingTables());
    SiblingBlocksRewrite();
  }

  /**
   * `var x = 'y'; function foo () { if (a) { let x } else if (b) { let x } else { let x } }`,
   * each block using its own `x`: the blocks hoist into `foo`, not into the
   * global scope that binds the outer `x`.
   */
  function NestedBlocks(): (p: Program)
    ensures Valid(p)
  {
    Program([Scope(Global, None), Scope(Function, Some(0)), Scope(Block, Some(1)), Scope(Block, Some(1)), Scope(Block, Some(1))],
            [Decl("x", Var, 0), Decl("foo", FunctionDecl, 0), Decl("x", Let, 2), Decl("x", Let, 3), Decl("x", Let, 4)],
            [Ident("x", 2, Read), Ident("x", 3, Read), Ident("x", 4, Read)])
  }

  function NestedTables(): seq<Table>
  {
    [map["x" := Var, "foo" := FunctionDecl], map[], map["x" := Let], map["x" := Let], map["x" := Let]]
  }

  /** The outer `var x` and `function foo` bind, and claim, their names in the global scope. */
  lemma NestedBlocksWalkTop(p: Program)
    requires p == NestedBlocks()
    ensures Walk(p.scopes, p.decls[..2]) == Ok(Env([NestedTables()[0], map[], map[], map[], map[]], [{"x", "foo"}, {}, {}, {}, {}]))
  {
    var e0 := Env([map[], map[], map[], map[], map[]], [{}, {}, {}, {}, {}]);
    var e1 := Env([map["x" := Var], map[], map[], map[], map[]], [{"x"}, {}, {}, {}, {}]);
    var e2 := Env([NestedTables()[0], map[], map[], map[], map[]], [{"x", "foo"}, {}, {}, {}, {}]);
    assert EmptyEnv(5) == e0 && p.decls[..0] == [];
    assert e0.tables[0 := e0.tables[0]["x" := Var]] == e1.tables;
    assert e0.claimed[0] + {"x"} == {"x"};
    assert e0.claimed[0 := {"x"}] == e1.claimed;
    RegisterFreshVar(p.scopes, e0, p.decls[0]);
    WalkStep(p.scopes, p.decls, 0, e0, e1);
    assert e1.tables[0 := e1.tables[0]["foo" := FunctionDecl]] == e2.tables;
    assert e1.claimed[0] + {"foo"} == {"x", "foo"};
    assert e1.claimed[0 := {"x", "foo"}] == e2.claimed;
    RegisterFreshVar(p.scopes, e1, p.decls[1]);
    WalkStep(p.scopes, p.decls, 1, e1, e2);
  }

  /**
   * From declaration `k` on, each of the inner blocks binds its own `x`; no
   * `var` has claimed `x` there.
   */
  lemma {:induction false} NestedBlocksWalkInner(scopes: seq<Scope>, decls: seq<Decl>, k: nat, e: Env)
    requires WellFormed(scopes) && DeclsIn(scopes, decls) && |scopes| == |decls| == 5 && 2 <= k <= 5
    requires Walk(scopes, decls[..k]) == Ok(e) && Sized(scopes, e)
    requires forall j :: k <= j < 5 ==> decls[j] == Decl("x", Let, j) && e.tables[j] == map[] && e.claimed[j] == {}
    ensures Walk(scopes, decls) == Ok(e.(tables := LetsFrom(e.tables, k)))
    decreases 5 - k
  {
    if k == 5 {
      assert decls[..5] == decls;
    } else {
      FreshStep(scopes, decls, k, e);
      var e' := e.(tables := e.tables[k := map["x" := Let]]);
      assert e.tables[k]["x" := Let] == map["x" := Let];
      NestedBlocksWalkInner(scopes, decls, k + 1, e');
      assert LetsFrom(e'.tables, k + 1) == LetsFrom(e.tables, k);
    }
  }

  /** `tables` with the tables of scopes `k` to 4 each binding `x` by `let`. */
  function LetsFrom(tables: seq<Table>, k: nat): (r: seq<Table>)
    requires |tables| == 5 && k <= 5
    ensures |r| == 5
    decreases 5 - k
  {
    if k == 5 then tables else LetsFrom(tables[k := map["x" := Let]], k + 1)
  }

  lemma NestedBlocksBuild()
    ensures Build(NestedBlocks().scopes, NestedBlocks().decls) == Ok(NestedTables())
  {
    var p := NestedBlocks();
    var e2 := Env([NestedTables()[0], map[], map[], map[], map[]], [{"x", "foo"}, {}, {}, {}, {}]);
    NestedBlocksWalkTop(p);
    NestedBlocksWalkInner(p.scopes, p.decls, 2, e2);
    assert LetsFrom(e2.tables, 2) == NestedTables();
  }

  /** Block `s` holds exactly one hoisted binding when it is one of the three inner blocks, none otherwise. */
  lemma NestedBlocksBlockQueue(p: Program, s: nat)
    requires p == NestedBlocks() && s < 5
    ensures BlockQueue(p, s, 5) == if 2 <= s then [s] else []
  {
    assert !Hoisted(p.scopes, p.decls[0]) && !Hoisted(p.scopes, p.decls[1]);
    assert BlockQueue(p, s, 1) == [] by { assert BlockQueue(p, s, 0) == []; }
    assert BlockQueue(p, s, 2) == [];
    assert Hoisted(p.scopes, p.decls[2]) && Hoisted(p.scopes, p.decls[3]) && Hoisted(p.scopes, p.decls[4]);
    assert BlockQueue(p, s, 3) == if s == 2 then [2] else [];
    assert BlockQueue(p, s, 4) == if s == 2 || s == 3 then [s] else [];
  }

  lemma NestedBlocksQueue(p: Program)
    requires p == NestedBlocks()
    ensures Queue(p, 5) == [2, 3, 4]
  {
    NestedBlocksBlockQueue(p, 0);
    NestedBlocksBlockQueue(p, 1);
    NestedBlocksBlockQueue(p, 2);
    NestedBlocksBlockQueue(p, 3);
    NestedBlocksBlockQueue(p, 4);
    NestedQueueAssembled(p);
  }

  lemma NestedQueueAssembled(p: Program)
    requires Valid(p) && |p.scopes| == 5 && |p.decls| == 5
    requires BlockQueue(p, 0, 5) == [] && BlockQueue(p, 1, 5) == []
    requires BlockQueue(p, 2, 5) == [2] && BlockQueue(p, 3, 5) == [3] && BlockQueue(p, 4, 5) == [4]
    ensures Queue(p, 5) == [2, 3, 4]
  {
    assert Queue(p, 2) == [] by { assert Queue(p, 1) == []; }
    assert Queue(p, 3) == [2];
    assert Queue(p, 4) == [2, 3];
  }

  lemma NestedBlocksNothingReferenced()
    ensures Referenced(NestedBlocks(), NestedTables(), 1) == {}
  {
    var p := NestedBlocks();
    var t := NestedTables();
    forall o | o in p.occs
      ensures !ReferencesThrough(p, t, o, 1)
    {
      assert Resolve(p.scopes, t, o.scope, o.name) == Some(o.scope);
    }
    forall x | x in Referenced(p, t, 1)
      ensures false
    {
      ReferencedInMeans(p, t, 1, p.occs, x);
    }
  }

  /** Each inner block hoists into `foo`. */
  lemma NestedBlocksTarget(p: Program, i: nat)
    requires p == NestedBlocks() && 2 <= i < 5
    ensures Target(p, i) == 1
  {
    assert p.decls[i].scope == i && p.scopes[i] == Scope(Block, Some(1));
  }

  /** All three are called `x` and hoisted into `foo`, where nothing is bound or referenced through. */
  lemma NestedBlocksSiblings(p: Program, t: seq<Table>)
    requires p == NestedBlocks() && t == NestedTables()
    ensures TablesFor(p, t) && InDecls(p, [2, 3, 4]) && 1 < |p.scopes|
    ensures Siblings(p, [2, 3, 4], 1, "x")
    ensures forall k :: 0 <= k < 3 ==> SiblingName("x", k) !in Fixed(p, t, 1)
  {
    var q := [2, 3, 4];
    forall a | 0 <= a < 3
      ensures p.decls[q[a]].name == "x" && Target(p, q[a]) == 1
    {
      NestedBlocksTarget(p, q[a]);
    }
    NestedBlocksFixed(p, t);
  }

  lemma NestedBlocksFixed(p: Program, t: seq<Table>)
    requires p == NestedBlocks() && t == NestedTables()
    ensures TablesFor(p, t) && 1 < |p.scopes|
    ensures Fixed(p, t, 1) == {}
  {
    NestedBlocksNothingReferenced();
  }

  lemma NestedBlocksNumbering(p: Program)
    requires p == NestedBlocks()
    ensures Numbering(p, [2, 3, 4], "x") == map[("x", 2) := "x", ("x", 3) := "x$1", ("x", 4) := "x$2"]
  {
    var q := [2, 3, 4];
    FirstSiblingNames();
    assert q[..2] == [2, 3] && q[..2][..1] == [2] && [2][..0] == [];
    assert Numbering(p, [2], "x") == map[("x", 2) := "x"];
    assert Numbering(p, [2, 3], "x") == map[("x", 2) := "x", ("x", 3) := "x$1"];
  }

  /** The outer `x` lives in the global scope, out of the way: the blocks are numbered `x`, `x$1`, `x$2`. */
  lemma NestedBlocksChosen(p: Program, t: seq<Table>)
    requires p == NestedBlocks() && t == NestedTables()
    ensures TablesFor(p, t)
    ensures RenameAll(p, t, [2, 3, 4]).chosen == map[("x", 2) := "x", ("x", 3) := "x$1", ("x", 4) := "x$2"]
  {
    NestedBlocksSiblings(p, t);
    SiblingsNumbered(p, t, [2, 3, 4], 1, "x");
    NestedBlocksNumbering(p);
  }

  lemma NestedBlocksRenames(p: Program, t: seq<Table>)
    requires p == NestedBlocks() && t == NestedTables()
    ensures TablesFor(p, t)
    ensures Renames(p, t) == map[("x", 2) := "x", ("x", 3) := "x$1", ("x", 4) := "x$2"]
  {
    NestedBlocksQueue(p);
    NestedBlocksChosen(p, t);
    assert Queue(p, |p.scopes|) == [2, 3, 4];
  }

  lemma NestedBlocksNoConstWrite()
    ensures ConstCheck(NestedBlocks().scopes, NestedTables(), NestedBlocks().occs) == None
  {
    var p := NestedBlocks();
    forall k | 0 <= k < |p.occs|
      ensures !WritesConst(p.scopes, NestedTables(), p.occs[k])
    {
    }
  }

  lemma NestedBlocksRewrite()
    ensures Rewrite(NestedBlocks(), NestedTables(), map[("x", 2) := "x", ("x", 3) := "x$1", ("x", 4) := "x$2"])
         == Output([OutDecl("x", Var), OutDecl("foo", FunctionDecl), OutDecl("x", Var), OutDecl("x$1", Var), OutDecl("x$2", Var)],
                   [OutIdent("x"), OutIdent("x$1"), OutIdent("x$2")])
  {
    var p := NestedBlocks();
    var t := NestedTables();
    var m := map[("x", 2) := "x", ("x", 3) := "x$1", ("x", 4) := "x$2"];
    var out := Output([OutDecl("x", Var), OutDecl("foo", FunctionDecl), OutDecl("x", Var), OutDecl("x$1", Var), OutDecl("x$2", Var)],
                      [OutIdent("x"), OutIdent("x$1"), OutIdent("x$2")]);
    NestedBlocksRewriteDecls(p, m);
    NestedBlocksRefNames(p, t, m);
    RewriteFrom(p, t, m, out);
  }

  /** The outer `var x` and `function foo` keep their names; block `s` declares `m[("x", s)]`. */
  lemma NestedBlocksRewriteDecls(p: Program, m: map<(string, nat), string>)
    requires p == NestedBlocks() && m == map[("x", 2) := "x", ("x", 3) := "x$1", ("x", 4) := "x$2"]
    ensures RewriteDecl(p.scopes, m, p.decls[0]) == OutDecl("x", Var)
    ensures RewriteDecl(p.scopes, m, p.decls[1]) == OutDecl("foo", FunctionDecl)
    ensures forall s :: 2 <= s < 5 ==> RewriteDecl(p.scopes, m, p.decls[s]) == OutDecl(m[("x", s)], Var)
  {
    assert DeclScope(p.scopes, p.decls[0]) == 0 && DeclScope(p.scopes, p.decls[1]) == 0;
  }

  /** Each block's use of `x` resolves to that block's own binding. */
  lemma NestedBlocksRefNames(p: Program, t: seq<Table>, m: map<(string, nat), string>)
    requires p == NestedBlocks() && t == NestedTables()
    requires m == map[("x", 2) := "x", ("x", 3) := "x$1", ("x", 4) := "x$2"]
    ensures forall j :: 0 <= j < 3 ==> RewriteOcc(p.scopes, t, m, p.occs[j]) == OutIdent(m[("x", j + 2)])
  {
    assert Resolve(p.scopes, t, 2, "x") == Some(2);
    assert Resolve(p.scopes, t, 3, "x") == Some(3);
    assert Resolve(p.scopes, t, 4, "x") == Some(4);
  }

  /** Inside `foo` the blocks' bindings become `var x`, `var x$1`, `var x$2`; the outer `var x` keeps its name. */
  lemma NestedBlocksRenamed()
    ensures Run(NestedBlocks(), Options(true))
         == Ok(Output([OutDecl("x", Var), OutDecl("foo", FunctionDecl), OutDecl("x", Var), OutDecl("x$1", Var), OutDecl("x$2", Var)],
                      [OutIdent("x"), OutIdent("x$1"), OutIdent("x$2")]))
  {
    NestedBlocksBuild();
    NestedBlocksNoConstWrite();
    NestedBlocksRenames(NestedBlocks(), NestedTables());
    NestedBlocksRewrite();
  }

  /**
   * `function foo (x) { return function () { if (true) { const x } ... } }`:
   * the block's `x` is used inside the block, and, when `outerUse` holds, the
   * parameter `x` is also used in the inner function after the block.
   */
  function Closure(outerUse: bool): (p: Program)
    ensures Valid(p)
  {
    Program([Scope(Global, None), Scope(Function, Some(0)), Scope(Function, Some(1)), Scope(Block, Some(2))],
            [Decl("foo", FunctionDecl, 0), Decl("x", Param, 1), Decl("x", Const, 3)],
            [Ident("x", 3, Read)] + (if outerUse then [Ident("x", 2, Read)] else []))
  }

  function ClosureTables(): seq<Table>
  {
    [map["foo" := FunctionDecl], map["x" := Param], map[], map["x" := Const]]
  }

  /** `function foo` binds and claims `foo` in the global scope; the parameter `x` binds in `foo`'s scope. */
  lemma ClosureWalkHead(p: Program, outerUse: bool)
    requires p == Closure(outerUse)
    ensures Walk(p.scopes, p.decls[..2]) == Ok(Env([map["foo" := FunctionDecl], map["x" := Param], map[], map[]], [{"foo"}, {}, {}, {}]))
  {
    var claims: seq<set<string>> := [{"foo"}, {}, {}, {}];
    var e0 := Env([map[], map[], map[], map[]], [{}, {}, {}, {}]);
    var e1 := Env([map["foo" := FunctionDecl], map[], map[], map[]], claims);
    var e2 := Env([map["foo" := FunctionDecl], map["x" := Param], map[], map[]], claims);
    assert EmptyEnv(4) == e0 && p.decls[..0] == [];
    assert e0.tables[0 := e0.tables[0]["foo" := FunctionDecl]] == e1.tables;
    assert e0.claimed[0] + {"foo"} == {"foo"};
    assert e0.claimed[0 := {"foo"}] == e1.claimed;
    RegisterFreshVar(p.scopes, e0, p.decls[0]);
    WalkStep(p.scopes, p.decls, 0, e0, e1);
    assert e1.tables[1 := e1.tables[1]["x" := Param]] == e2.tables;
    RegisterFresh(p.scopes, e1, p.decls[1]);
    WalkStep(p.scopes, p.decls, 1, e1, e2);
  }

  lemma ClosureBuild(outerUse: bool)
    ensures Build(Closure(outerUse).scopes, Closure(outerUse).decls) == Ok(ClosureTables())
  {
    var p := Closure(outerUse);
    var e2 := Env([map["foo" := FunctionDecl], map["x" := Param], map[], map[]], [{"foo"}, {}, {}, {}]);
    var e3 := Env(ClosureTables(), [{"foo"}, {}, {}, {}]);
    ClosureWalkHead(p, outerUse);
    assert e2.tables[3 := e2.tables[3]["x" := Const]] == e3.tables;
    RegisterFresh(p.scopes, e2, p.decls[2]);
    WalkStep(p.scopes, p.decls, 2, e2, e3);
    assert p.decls[..3] == p.decls;
  }

  lemma ClosureQueue(outerUse: bool)
    ensures Queue(Closure(outerUse), 4) == [2]
  {
    var p := Closure(outerUse);
    assert !Hoisted(p.scopes, p.decls[0]) && !Hoisted(p.scopes, p.decls[1]) && Hoisted(p.scopes, p.decls[2]);
    forall s: nat | s < 4
      ensures BlockQueue(p, s, 2) == []
    {
      assert BlockQueue(p, s, 0) == [];
      assert BlockQueue(p, s, 1) == BlockQueue(p, s, 0);
    }
    assert BlockQueue(p, 0, 3) == BlockQueue(p, 0, 2);
    assert BlockQueue(p, 1, 3) == BlockQueue(p, 1, 2);
    assert BlockQueue(p, 2, 3) == BlockQueue(p, 2, 2);
    assert BlockQueue(p, 3, 3) == BlockQueue(p, 3, 2) + [2];
    assert Queue(p, 1) == Queue(p, 0) + BlockQueue(p, 0, 3) == [];
    assert Queue(p, 2) == Queue(p, 1) + BlockQueue(p, 1, 3) == [];
    assert Queue(p, 3) == Queue(p, 2) + BlockQueue(p, 2, 3) == [];
    assert Queue(p, 4) == Queue(p, 3) + BlockQueue(p, 3, 3);
  }

  /** The inner function sees the parameter `x` pass through it exactly when it is used there. */
  lemma ClosureReferenced(outerUse: bool)
    ensures Referenced(Closure(outerUse), ClosureTables(), 2) == if outerUse then {"x"} else {}
  {
    var p := Closure(outerUse);
    var t := ClosureTables();
    assert Resolve(p.scopes, t, 3, "x") == Some(3);
    assert !ReferencesThrough(p, t, p.occs[0], 2);
    if outerUse {
      assert Chain(p.scopes, 2) == [2, 1, 0];
      assert Resolve(p.scopes, t, 2, "x") == Some(1);
      assert ReferencesThrough(p, t, p.occs[1], 2);
    }
    forall x
      ensures x in Referenced(p, t, 2) <==> outerUse && x == "x"
    {
      ReferencedInMeans(p, t, 2, p.occs, x);
    }
  }

  lemma ClosureOccupied(outerUse: bool) returns (occ: set<string>)
    ensures Target(Closure(outerUse), 2) == 2
    ensures occ == Occupied(Closure(outerUse), ClosureTables(), InitialState(4), 2)
    ensures occ == if outerUse then {"x"} else {}
  {
    ClosureReferenced(outerUse);
    occ := Occupied(Closure(outerUse), ClosureTables(), InitialState(4), 2);
  }

  lemma ClosureRenames(outerUse: bool)
    ensures Renames(Closure(outerUse), ClosureTables()) == map[("x", 3) := if outerUse then "x$1" else "x"]
  {
    var p := Closure(outerUse);
    var t := ClosureTables();
    ClosureQueue(outerUse);
    var occ := ClosureOccupied(outerUse);
    SiblingAliases();
    assert [2][..0] == [];
    assert RenameAll(p, t, [2]) == HoistStep(p, t, InitialState(4), 2);
    assert HoistStep(p, t, InitialState(4), 2).chosen == map[("x", 3) := FirstFree("x", occ)];
  }

  lemma ClosureNoConstWrite(outerUse: bool)
    ensures ConstCheck(Closure(outerUse).scopes, ClosureTables(), Closure(outerUse).occs) == None
  {
    var p := Closure(outerUse);
    forall k | 0 <= k < |p.occs|
      ensures !WritesConst(p.scopes, ClosureTables(), p.occs[k])
    {
    }
  }

  function ClosureOutput(outerUse: bool): Output
  {
    var x := if outerUse then "x$1" else "x";
    Output([OutDecl("foo", FunctionDecl), OutDecl("x", Param), OutDecl(x, Var)],
           [OutIdent(x)] + (if outerUse then [OutIdent("x")] else []))
  }

  /** Each use of `x` prints under the name of the binding it resolves to. */
  lemma ClosureRefNames(outerUse: bool, m: map<(string, nat), string>)
    requires m == map[("x", 3) := if outerUse then "x$1" else "x"]
    ensures RefName(Closure(outerUse).scopes, ClosureTables(), m, "x", 3) == m[("x", 3)]
    ensures RefName(Closure(outerUse).scopes, ClosureTables(), m, "x", 2) == "x"
  {
    var p := Closure(outerUse);
    var t := ClosureTables();
    assert Resolve(p.scopes, t, 3, "x") == Some(3);
    assert Resolve(p.scopes, t, 2, "x") == Some(1);
  }

  /** `foo` and the parameter keep their names; the block's `const x` is declared as `m[("x", 3)]`. */
  lemma ClosureRewriteDecls(outerUse: bool, m: map<(string, nat), string>)
    requires m == map[("x", 3) := if outerUse then "x$1" else "x"]
    ensures forall i :: 0 <= i < 3 ==>
      RewriteDecl(Closure(outerUse).scopes, m, Closure(outerUse).decls[i]) == ClosureOutput(outerUse).decls[i]
  {
    var p := Closure(outerUse);
    assert DeclScope(p.scopes, p.decls[0]) == 0;
    assert DeclScope(p.scopes, p.decls[1]) == 1;
    assert DeclScope(p.scopes, p.decls[2]) == 3;
  }

  lemma ClosureRewrite(outerUse: bool)
    ensures Rewrite(Closure(outerUse), ClosureTables(), map[("x", 3) := if outerUse then "x$1" else "x"])
            == ClosureOutput(outerUse)
  {
    var p := Closure(outerUse);
    var m := map[("x", 3) := if outerUse then "x$1" else "x"];
    var out := ClosureOutput(outerUse);
    ClosureRefNames(outerUse, m);
    ClosureRewriteDecls(outerUse, m);
    assert RewriteOcc(p.scopes, ClosureTables(), m, p.occs[0]) == out.occs[0];
    if outerUse {
      assert RewriteOcc(p.scopes, ClosureTables(), m, p.occs[1]) == out.occs[1];
    }
    RewriteFrom(p, ClosureTables(), m, out);
  }

  /**
   * The block's `const x` becomes `var x$1` when the parameter `x` is used in
   * the same function, and keeps its name when it is not.
   */
  lemma ClosureRenamed(outerUse: bool)
    ensures Run(Closure(outerUse), Options(true)) == Ok(ClosureOutput(outerUse))
  {
    ClosureBuild(outerUse);
    ClosureNoConstWrite(outerUse);
    ClosureRenames(outerUse);
    ClosureRewrite(outerUse);
  }

  /**
   * `var bar = function foo () { ... }` with a block declaring `let foo` and
   * using it: the block sits inside the function body when `inside`, after
   * the statement otherwise. The expression's own name `foo` is bound in the
   * function's scope only.
   */
  function SelfNamed(inside: bool): (p: Program)
    ensures Valid(p)
  {
    Program([Scope(Global, None), Scope(Function, Some(0)), Scope(Block, Some(if inside then 1 else 0))],
            [Decl("bar", Var, 0), Decl("foo", SelfName, 1), Decl("foo", Let, 2)],
            [Ident("foo", 2, Read)])
  }

  function SelfNamedTables(): seq<Table>
  {
    [map["bar" := Var], map["foo" := SelfName], map["foo" := Let]]
  }

  /** `var bar` binds and claims `bar` in the global scope; the expression's own name `foo` binds in its function scope. */
  lemma SelfNamedWalkHead(p: Program, inside: bool)
    requires p == SelfNamed(inside)
    ensures Walk(p.scopes, p.decls[..2]) == Ok(Env([map["bar" := Var], map["foo" := SelfName], map[]], [{"bar"}, {}, {}]))
  {
    var e0 := Env([map[], map[], map[]], [{}, {}, {}]);
    var e1 := Env([map["bar" := Var], map[], map[]], [{"bar"}, {}, {}]);
    var e2 := Env([map["bar" := Var], map["foo" := SelfName], map[]], [{"bar"}, {}, {}]);
    assert EmptyEnv(3) == e0 && p.decls[..0] == [];
    assert e0.tables[0 := e0.tables[0]["bar" := Var]] == e1.tables;
    assert e0.claimed[0] + {"bar"} == {"bar"};
    assert e0.claimed[0 := {"bar"}] == e1.claimed;
    RegisterFreshVar(p.scopes, e0, p.decls[0]);
    WalkStep(p.scopes, p.decls, 0, e0, e1);
    assert e1.tables[1 := e1.tables[1]["foo" := SelfName]] == e2.tables;
    RegisterFreshSelfName(p.scopes, e1, p.decls[1]);
    WalkStep(p.scopes, p.decls, 1, e1, e2);
  }

  lemma SelfNamedBuild(inside: bool)
    ensures Build(SelfNamed(inside).scopes, SelfNamed(inside).decls) == Ok(SelfNamedTables())
  {
    var p := SelfNamed(inside);
    var e2 := Env([map["bar" := Var], map["foo" := SelfName], map[]], [{"bar"}, {}, {}]);
    var e3 := Env(SelfNamedTables(), [{"bar"}, {}, {}]);
    SelfNamedWalkHead(p, inside);
    assert e2.tables[2 := e2.tables[2]["foo" := Let]] == e3.tables;
    RegisterFresh(p.scopes, e2, p.decls[2]);
    WalkStep(p.scopes, p.decls, 2, e2, e3);
    assert p.decls[..3] == p.decls;
  }

  lemma SelfNamedQueue(inside: bool)
    ensures Queue(SelfNamed(inside), 3) == [2]
  {
    var p := SelfNamed(inside);
    assert !Hoisted(p.scopes, p.decls[0]) && !Hoisted(p.scopes, p.decls[1]) && Hoisted(p.scopes, p.decls[2]);
    forall s: nat | s < 3
      ensures BlockQueue(p, s, 2) == []
    {
      assert BlockQueue(p, s, 0) == [];
      assert BlockQueue(p, s, 1) == BlockQueue(p, s, 0);
    }
    assert BlockQueue(p, 0, 3) == BlockQueue(p, 0, 2);
    assert BlockQueue(p, 1, 3) == BlockQueue(p, 1, 2);
    assert BlockQueue(p, 2, 3) == BlockQueue(p, 2, 2) + [2];
    assert Queue(p, 1) == Queue(p, 0) + BlockQueue(p, 0, 3) == [];
    assert Queue(p, 2) == Queue(p, 1) + BlockQueue(p, 1, 3) == [];
    assert Queue(p, 3) == Queue(p, 2) + BlockQueue(p, 2, 3);
  }

  /**
   * The block hoists into the function when inside it, where the function's
   * own name is taken, and into the global scope otherwise, where only `bar` is.
   */
  lemma SelfNamedOccupied(inside: bool) returns (occ: set<string>)
    ensures Target(SelfNamed(inside), 2) == if inside then 1 else 0
    ensures occ == Occupied(SelfNamed(inside), SelfNamedTables(), InitialState(3), Target(SelfNamed(inside), 2))
    ensures occ == if inside then {"foo"} else {"bar"}
  {
    var p := SelfNamed(inside);
    var t := SelfNamedTables();
    var f := Target(p, 2);
    assert Resolve(p.scopes, t, 2, "foo") == Some(2);
    assert !ReferencesThrough(p, t, p.occs[0], f);
    forall x | x in Referenced(p, t, f)
      ensures false
    {
      ReferencedInMeans(p, t, f, p.occs, x);
    }
    occ := Occupied(p, t, InitialState(3), f);
  }

  lemma SelfNamedRenames(inside: bool)
    ensures Renames(SelfNamed(inside), SelfNamedTables()) == map[("foo", 2) := if inside then "foo$1" else "foo"]
  {
    var p := SelfNamed(inside);
    var t := SelfNamedTables();
    SelfNamedQueue(inside);
    var occ := SelfNamedOccupied(inside);
    SelfNamedFirstFree(inside, occ);
    assert [2][..0] == [];
    assert RenameAll(p, t, [2]) == HoistStep(p, t, InitialState(3), 2);
    assert HoistStep(p, t, InitialState(3), 2).chosen == map[("foo", 2) := FirstFree("foo", occ)];
  }

  lemma SelfNamedFirstFree(inside: bool, occ: set<string>)
    requires occ == if inside then {"foo"} else {"bar"}
    ensures FirstFree("foo", occ) == if inside then "foo$1" else "foo"
  {
    if inside {
      assert NatToString(1) == "1" && Tried("foo", 1) == {};
      NextSiblingName("foo", {}, 1);
      assert {} + SiblingNames("foo", 1) == occ;
    }
  }

  function SelfNamedOutput(inside: bool): Output
  {
    var foo := if inside then "foo$1" else "foo";
    Output([OutDecl("bar", Var), OutDecl("foo", SelfName), OutDecl(foo, Var)], [OutIdent(foo)])
  }

  lemma SelfNamedRewrite(inside: bool)
    ensures Rewrite(SelfNamed(inside), SelfNamedTables(), map[("foo", 2) := if inside then "foo$1" else "foo"])
         == SelfNamedOutput(inside)
  {
    var p := SelfNamed(inside);
    assert DeclScope(p.scopes, p.decls[0]) == 0;
    assert Resolve(p.scopes, SelfNamedTables(), 2, "foo") == Some(2);
  }

  /**
   * The block's `let foo` keeps its name beside a function expression named
   * `foo`, and becomes `var foo$1` inside that function's body.
   */
  lemma SelfNamedRenamed(inside: bool)
    ensures Run(SelfNamed(inside), Options(true)) == Ok(SelfNamedOutput(inside))
  {
    SelfNamedBuild(inside);
    assert ConstCheck(SelfNamed(inside).scopes, SelfNamedTables(), SelfNamed(inside).occs) == None by {
      assert !WritesConst(SelfNamed(inside).scopes, SelfNamedTables(), SelfNamed(inside).occs[0]);
    }
    SelfNamedRenames(inside);
    SelfNamedRewrite(inside);
  }

  /** `let x = 1; let x = 2;` */
  function DoubleLet(): (p: Program)
    ensures Valid(p)
  {
    Program([Scope(Global, None)], [Decl("x", Let, 0), Decl("x", Let, 0)], [])
  }

  lemma DoubleLetBuild()
    ensures Build(DoubleLet().scopes, DoubleLet().decls) == Err(DuplicateDeclaration("x"))
  {
    var p := DoubleLet();
    var e0 := Env([map[]], [{}]);
    var e1 := Env([map["x" := Let]], [{}]);
    assert EmptyEnv(1) == e0 && p.decls[..0] == [];
    assert e0.tables[0 := e0.tables[0]["x" := Let]] == e1.tables;
    RegisterFresh(p.scopes, e0, p.decls[0]);
    WalkStep(p.scopes, p.decls, 0, e0, e1);
    assert p.decls[..1] == p.decls[..|p.decls| - 1];
  }

  /** The second `let x` is refused. */
  lemma DoubleLetRejected(opts: Options)
    ensures Run(DoubleLet(), opts) == Err(DuplicateDeclaration("x"))
  {
    DoubleLetBuild();
  }

  /** The message a redeclared `x` prints. */
  lemma DuplicateMessageForX()
    ensures Message(DuplicateDeclaration("x")) == "Identifier 'x' has already been declared"
  {
    var head: string := "Identifier '" + "x";
    assert head == "Identifier 'x";
    assert head + "' has already been declared" == "Identifier 'x' has already been declared";
  }

  /** The message a write to the constant `x` prints. */
  lemma ReadOnlyMessageForX()
    ensures Message(ReadOnly("x")) == "x is read-only"
  {
  }

  /** `const x = 1; x = 2;` (with `x++` the write is a ReadWrite; the outcome is the same). */
  function ConstAssign(access: Access): (p: Program)
    ensures Valid(p)
  {
    Program([Scope(Global, None)], [Decl("x", Const, 0)], [Ident("x", 0, access)])
  }

  lemma ConstAssignBuild(access: Access)
    ensures Build(ConstAssign(access).scopes, ConstAssign(access).decls) == Ok([map["x" := Const]])
  {
    var p := ConstAssign(access);
    var e0 := Env([map[]], [{}]);
    assert EmptyEnv(1) == e0 && p.decls[..0] == [];
    assert e0.tables[0 := e0.tables[0]["x" := Const]] == [map["x" := Const]];
    RegisterFresh(p.scopes, e0, p.decls[0]);
    WalkStep(p.scopes, p.decls, 0, e0, Env([map["x" := Const]], [{}]));
    assert p.decls[..1] == p.decls;
  }

  lemma ConstAssignCheck(access: Access)
    ensures ConstCheck(ConstAssign(access).scopes, [map["x" := Const]], ConstAssign(access).occs)
         == if access == Read then None else Some(ReadOnly("x"))
  {
    var p := ConstAssign(access);
    var t: seq<Table> := [map["x" := Const]];
    assert Resolve(p.scopes, t, 0, "x") == Some(0);
    assert WritesConst(p.scopes, t, p.occs[0]) <==> access != Read;
    assert p.occs[1..] == [];
  }

  /** Assigning or updating the constant is refused as read-only; reading it is not. */
  lemma ConstAssignRejected(access: Access, opts: Options)
    ensures Run(ConstAssign(access), opts).Err? <==> access != Read
    ensures access != Read ==> Run(ConstAssign(access), opts) == Err(ReadOnly("x"))
  {
    ConstAssignBuild(access);
    ConstAssignCheck(access);
  }

  /**
   * A top-level `const bar`, shadowed inside an immediately invoked function
   * by `let bar` declared after the inner `function foo` that writes `bar`.
   */
  function ShadowedConst(): (p: Program)
    ensures Valid(p)
  {
    Program([Scope(Global, None), Scope(Function, Some(0)), Scope(Function, Some(1))],
            [Decl("bar", Const, 0), Decl("foo", FunctionDecl, 1), Decl("bar", Let, 1)],
            [Ident("bar", 2, ReadWrite), Ident("bar", 2, Write), Ident("bar", 2, Read),
             Ident("foo", 1, Read), Ident("bar", 1, Read)])
  }

  function ShadowedTables(): seq<Table>
  {
    [map["bar" := Const], map["foo" := FunctionDecl, "bar" := Let], map[]]
  }

  /** `const bar` binds in the global scope; `function foo` binds and claims `foo` in the outer function's scope. */
  lemma ShadowedConstWalkHead(p: Program)
    requires p == ShadowedConst()
    ensures Walk(p.scopes, p.decls[..2]) == Ok(Env([map["bar" := Const], map["foo" := FunctionDecl], map[]], [{}, {"foo"}, {}]))
  {
    var e0 := Env([map[], map[], map[]], [{}, {}, {}]);
    var e1 := Env([map["bar" := Const], map[], map[]], [{}, {}, {}]);
    var e2 := Env([map["bar" := Const], map["foo" := FunctionDecl], map[]], [{}, {"foo"}, {}]);
    assert EmptyEnv(3) == e0 && p.decls[..0] == [];
    assert e0.tables[0 := e0.tables[0]["bar" := Const]] == e1.tables;
    RegisterFresh(p.scopes, e0, p.decls[0]);
    WalkStep(p.scopes, p.decls, 0, e0, e1);
    assert e1.tables[1 := e1.tables[1]["foo" := FunctionDecl]] == e2.tables;
    assert e1.claimed[1] + {"foo"} == {"foo"};
    assert e1.claimed[1 := {"foo"}] == e2.claimed;
    RegisterFreshVar(p.scopes, e1, p.decls[1]);
    WalkStep(p.scopes, p.decls, 1, e1, e2);
  }

  lemma ShadowedConstBuild()
    ensures Build(ShadowedConst().scopes, ShadowedConst().decls) == Ok(ShadowedTables())
  {
    var p := ShadowedConst();
    var e2 := Env([map["bar" := Const], map["foo" := FunctionDecl], map[]], [{}, {"foo"}, {}]);
    var e3 := Env(ShadowedTables(), e2.claimed);
    ShadowedConstWalkHead(p);
    assert e2.tables[1 := e2.tables[1]["bar" := Let]] == e3.tables;
    RegisterFresh(p.scopes, e2, p.decls[2]);
    WalkStep(p.scopes, p.decls, 2, e2, e3);
    assert p.decls[..3] == p.decls;
  }

  /** The writes in `foo` reach the later `let bar`, so none of them writes the constant. */
  lemma ShadowedConstNoWrite()
    ensures ConstCheck(ShadowedConst().scopes, ShadowedTables(), ShadowedConst().occs) == None
  {
    var p := ShadowedConst();
    var t := ShadowedTables();
    assert Resolve(p.scopes, t, 2, "bar") == Some(1);
    assert Resolve(p.scopes, t, 1, "bar") == Some(1);
    assert !WritesConst(p.scopes, t, p.occs[0]) && !WritesConst(p.scopes, t, p.occs[1]);
    assert !WritesConst(p.scopes, t, p.occs[2]) && !WritesConst(p.scopes, t, p.occs[3]);
    assert !WritesConst(p.scopes, t, p.occs[4]);
  }

  lemma ShadowedConstNoRenames()
    ensures Queue(ShadowedConst(), 3) == []
  {
    var p := ShadowedConst();
    assert !Hoisted(p.scopes, p.decls[0]) && !Hoisted(p.scopes, p.decls[1]) && !Hoisted(p.scopes, p.decls[2]);
    assert BlockQueue(p, 0, 3) == [] && BlockQueue(p, 1, 3) == [] && BlockQueue(p, 2, 3) == [];
    assert Queue(p, 1) == [] && Queue(p, 2) == [];
  }

  lemma ShadowedConstRewrite()
    ensures Rewrite(ShadowedConst(), ShadowedTables(), map[])
         == Output([OutDecl("bar", Var), OutDecl("foo", FunctionDecl), OutDecl("bar", Var)],
                   [OutIdent("bar"), OutIdent("bar"), OutIdent("bar"), OutIdent("foo"), OutIdent("bar")])
  {
    var p := ShadowedConst();
    assert DeclScope(p.scopes, p.decls[1]) == 1;
  }

  /** The program is accepted, and every `let`/`const` becomes `var` under its own name. */
  lemma ShadowedConstAccepted()
    ensures Run(ShadowedConst(), Options(true))
         == Ok(Output([OutDecl("bar", Var), OutDecl("foo", FunctionDecl), OutDecl("bar", Var)],
                      [OutIdent("bar"), OutIdent("bar"), OutIdent("bar"), OutIdent("foo"), OutIdent("bar")]))
  {
    ShadowedConstBuild();
    ShadowedConstNoWrite();
    ShadowedConstNoRenames();
    ShadowedConstRewrite();
  }

  /** `let a` at top level and in a block, with `letConst` off. */
  function Disabled(): (p: Program)
    ensures Valid(p)
  {
    Program([Scope(Global, None), Scope(Block, Some(0))],
            [Decl("a", Let, 0), Decl("a", Let, 1)],
            [Ident("x", 0, Read), Ident("a", 1, Read), Ident("a", 0, Read)])
  }

  /** With the option off the output is the input: both bindings stay `let a`. */
  lemma DisabledUnchanged()
    ensures Run(Disabled(), Options(false))
         == Ok(Output([OutDecl("a", Let), OutDecl("a", Let)],
                      [OutIdent("x"), OutIdent("a"), OutIdent("a")]))
  {
    var p := Disabled();
    var t: seq<Table> := [map["a" := Let], map["a" := Let]];
    var e0 := Env([map[], map[]], [{}, {}]);
    var e1 := Env([map["a" := Let], map[]], [{}, {}]);
    assert EmptyEnv(2) == e0 && p.decls[..0] == [];
    assert e0.tables[0 := e0.tables[0]["a" := Let]] == e1.tables;
    RegisterFresh(p.scopes, e0, p.decls[0]);
    WalkStep(p.scopes, p.decls, 0, e0, e1);
    assert e1.tables[1 := e1.tables[1]["a" := Let]] == t;
    RegisterFresh(p.scopes, e1, p.decls[1]);
    WalkStep(p.scopes, p.decls, 1, e1, Env(t, [{}, {}]));
    assert p.decls[..2] == p.decls;
    forall k | 0 <= k < |p.occs|
      ensures !WritesConst(p.scopes, t, p.occs[k])
    {
    }
    assert ConstCheck(p.scopes, t, p.occs) == None;
    assert Unchanged(p) == Output([OutDecl("a", Let), OutDecl("a", Let)],
                                  [OutIdent("x"), OutIdent("a"), OutIdent("a")]);
  }
}
