/**
 * Test records in which a binding meets another binding of its name: a
 * top-level `let`, an outer binding of every kind that forces a block's
 * `let` to be renamed, a `let` beside a function expression's own name,
 * a `var` passing through a block's `let`, and a block whose closure
 * refers to a `let` declared after it.
 *
 * Free names a record only reads (`x` in `if ( x )`, `console`) are not
 * listed among the occurrences: they bind nowhere, are never renamed, and
 * only add names no binding here wants.
 */
module Shadowing {
  import opened Wrappers
  import opened Scopes
  import opened Syntax
  import opened Bindings
  import opened Names
  import opened Renamer
  import opened Transform
  import opened Steps

  /** `let x = 'y';` */
  function TopLevelLet(): (p: Program)
    ensures Valid(p)
  {
    Program([Scope(Global, None)], [Decl("x", Let, 0)], [])
  }

  lemma TopLevelLetBuild(p: Program)
    requires p == TopLevelLet()
    ensures Build(p.scopes, p.decls) == Ok([map["x" := Let]])
  {
    var e0 := Env([map[]], [{}]);
    assert EmptyEnv(1) == e0 && p.decls[..0] == [];
    assert e0.tables[0 := e0.tables[0]["x" := Let]] == [map["x" := Let]];
    FreshStep(p.scopes, p.decls, 0, e0);
    assert p.decls[..1] == p.decls;
  }

  /** A top-level `let` is not hoisted anywhere: it becomes `var x` under its own name. */
  lemma TopLevelLetTranspiled()
    ensures Run(TopLevelLet(), Options(true)) == Ok(Output([OutDecl("x", Var)], []))
  {
    var p := TopLevelLet();
    var t := [map["x" := Let]];
    TopLevelLetBuild(p);
    assert BlockQueue(p, 0, 1) == [] by { assert BlockQueue(p, 0, 0) == []; }
    assert Queue(p, 1) == [];
    assert Renames(p, t) == map[];
    assert RewriteDecl(p.scopes, map[], p.decls[0]) == OutDecl("x", Var);
    RewriteFrom(p, t, map[], Output([OutDecl("x", Var)], []));
  }

  /** `var bar = function foo () { let foo = 1; };` */
  function LetBesideSelfName(): (p: Program)
    ensures Valid(p)
  {
    Program([Scope(Global, None), Scope(Function, Some(0))],
            [Decl("bar", Var, 0), Decl("foo", SelfName, 1), Decl("foo", Let, 1)], [])
  }

  /** `var bar` binds and claims `bar` globally; the expression's own name binds `foo` in its function scope. */
  lemma LetBesideSelfNameHead(p: Program)
    requires p == LetBesideSelfName()
    ensures Walk(p.scopes, p.decls[..2]) == Ok(Env([map["bar" := Var], map["foo" := SelfName]], [{"bar"}, {}]))
  {
    var e0 := Env([map[], map[]], [{}, {}]);
    var e1 := Env([map["bar" := Var], map[]], [{"bar"}, {}]);
    assert EmptyEnv(2) == e0 && p.decls[..0] == [];
    assert e0.tables[0 := e0.tables[0]["bar" := Var]] == e1.tables;
    assert e0.claimed[0] + {"bar"} == {"bar"};
    assert e0.claimed[0 := {"bar"}] == e1.claimed;
    FreshVarStep(p.scopes, p.decls, 0, e0);
    assert e1.tables[1 := e1.tables[1]["foo" := SelfName]] == [map["bar" := Var], map["foo" := SelfName]];
    SelfNameStep(p.scopes, p.decls, 1, e1);
  }

  /** The body's `let foo` then takes the name over from the expression's own name. */
  lemma LetBesideSelfNameBuild(p: Program)
    requires p == LetBesideSelfName()
    ensures Build(p.scopes, p.decls) == Ok([map["bar" := Var], map["foo" := Let]])
  {
    var e2 := Env([map["bar" := Var], map["foo" := SelfName]], [{"bar"}, {}]);
    LetBesideSelfNameHead(p);
    assert map["foo" := SelfName]["foo" := Let] == map["foo" := Let];
    assert e2.tables[1 := e2.tables[1]["foo" := Let]] == [map["bar" := Var], map["foo" := Let]];
    OverSelfNameStep(p.scopes, p.decls, 2, e2);
    assert p.decls[..3] == p.decls;
  }

  /**
   * A `let` directly in a function expression's body may reuse the
   * expression's own name: it is no redeclaration, and nothing is renamed.
   */
  lemma LetBesideSelfNameAccepted()
    ensures Run(LetBesideSelfName(), Options(true))
         == Ok(Output([OutDecl("bar", Var), OutDecl("foo", SelfName), OutDecl("foo", Var)], []))
  {
    var p := LetBesideSelfName();
    var t := [map["bar" := Var], map["foo" := Let]];
    LetBesideSelfNameBuild(p);
    LetBesideSelfNameQueue(p);
    assert Renames(p, t) == map[];
    LetBesideSelfNameRewrite(p, t);
  }

  lemma LetBesideSelfNameRewrite(p: Program, t: seq<Table>)
    requires p == LetBesideSelfName() && t == [map["bar" := Var], map["foo" := Let]]
    ensures Rewrite(p, t, map[]) == Output([OutDecl("bar", Var), OutDecl("foo", SelfName), OutDecl("foo", Var)], [])
  {
    var out := Output([OutDecl("bar", Var), OutDecl("foo", SelfName), OutDecl("foo", Var)], []);
    assert DeclScope(p.scopes, p.decls[0]) == 0;
    assert RewriteDecl(p.scopes, map[], p.decls[0]) == out.decls[0];
    RewriteFrom(p, t, map[], out);
  }

  /** Nothing is hoisted: the `let` sits directly in the function body. */
  lemma LetBesideSelfNameQueue(p: Program)
    requires p == LetBesideSelfName()
    ensures Queue(p, 2) == []
  {
    forall s | 0 <= s < 2 ensures BlockQueue(p, s, 3) == [] {
      assert BlockQueue(p, s, 1) == [] && BlockQueue(p, s, 2) == [];
    }
    assert Queue(p, 1) == [];
  }

  /** `{ let x; { var x; } }` */
  function VarThroughLet(): (p: Program)
    ensures Valid(p)
  {
    Program([Scope(Global, None), Scope(Block, Some(0)), Scope(Block, Some(1))],
            [Decl("x", Let, 1), Decl("x", Var, 2)], [])
  }

  /** A `var` hoisted out through a block that binds its name by `let` is a redeclaration, whatever the options. */
  lemma VarThroughLetRejected(opts: Options)
    ensures Run(VarThroughLet(), opts) == Err(DuplicateDeclaration("x"))
  {
    var p := VarThroughLet();
    var e0 := Env([map[], map[], map[]], [{}, {}, {}]);
    var e1 := Env([map[], map["x" := Let], map[]], [{}, {}, {}]);
    assert EmptyEnv(3) == e0 && p.decls[..0] == [];
    assert e0.tables[1 := e0.tables[1]["x" := Let]] == e1.tables;
    FreshStep(p.scopes, p.decls, 0, e0);
    assert LexicalOnSpan(p.scopes, e1.tables, 2, "x");
    assert Register(p.scopes, e1, p.decls[1]) == Err(DuplicateDeclaration("x"));
    assert p.decls[..1] == p.decls[..|p.decls| - 1];
  }

  /**
   * A binding of `foo` of kind `k` in the global scope, then
   * `if ( x ) { let foo = 'y'; console.log( foo ); }`; with `member`, the
   * block also writes `this.foo` and `this[ foo ]`, whose `foo` in brackets
   * is a reference.
   */
  function Occupant(k: DeclKind, member: bool): (p: Program)
    requires k != SelfName
    ensures Valid(p)
  {
    Program([Scope(Global, None), Scope(Block, Some(0))], [Decl("foo", k, 0), Decl("foo", Let, 1)],
            (if member then [Property("foo")] else []) + [Ident("foo", 1, Read)])
  }

  function OccupantTables(k: DeclKind): seq<Table>
  {
    [map["foo" := k], map["foo" := Let]]
  }

  function OccupantOutput(k: DeclKind, member: bool): Output
  {
    Output([OutDecl("foo", VarKind(k)), OutDecl("foo$1", Var)],
           (if member then [OutProperty("foo")] else []) + [OutIdent("foo$1")])
  }

  lemma OccupantBuild(p: Program, k: DeclKind, member: bool)
    requires k != SelfName && p == Occupant(k, member)
    ensures Build(p.scopes, p.decls) == Ok(OccupantTables(k))
  {
    var c: set<string> := if VarLike(k) then {"foo"} else {};
    var e0 := Env([map[], map[]], [{}, {}]);
    var e1 := Env([map["foo" := k], map[]], [c, {}]);
    assert EmptyEnv(2) == e0 && p.decls[..0] == [];
    assert e0.tables[0 := e0.tables[0]["foo" := k]] == e1.tables;
    if VarLike(k) {
      assert e0.claimed[0] + {"foo"} == {"foo"};
      assert e0.claimed[0 := {"foo"}] == e1.claimed;
      FreshVarStep(p.scopes, p.decls, 0, e0);
    } else {
      FreshStep(p.scopes, p.decls, 0, e0);
    }
    assert e1.tables[1 := e1.tables[1]["foo" := Let]] == OccupantTables(k);
    FreshStep(p.scopes, p.decls, 1, e1);
    assert p.decls[..2] == p.decls;
  }

  /** Only the block's `let foo` is hoisted. */
  lemma OccupantQueue(p: Program, k: DeclKind, member: bool)
    requires k != SelfName && p == Occupant(k, member)
    ensures Queue(p, 2) == [1]
  {
    assert !Hoisted(p.scopes, p.decls[0]) && Hoisted(p.scopes, p.decls[1]);
    assert BlockQueue(p, 0, 0) == [] && BlockQueue(p, 1, 0) == [];
    assert BlockQueue(p, 0, 1) == [] && BlockQueue(p, 1, 1) == [];
    assert BlockQueue(p, 0, 2) == [];
    assert BlockQueue(p, 1, 2) == [1];
    assert Queue(p, 1) == [];
  }

  /** In the global scope only `foo` is taken: the block's reference to `foo` resolves inside it. */
  lemma OccupantOccupied(p: Program, k: DeclKind, member: bool)
    requires k != SelfName && p == Occupant(k, member)
    ensures Target(p, 1) == 0 && Occupied(p, OccupantTables(k), InitialState(2), 0) == {"foo"}
  {
    var t := OccupantTables(k);
    forall j | 0 <= j < |p.occs| ensures !ReferencesThrough(p, t, p.occs[j], 0) {
      if IsReference(p.occs[j]) {
        assert p.occs[j] == Ident("foo", 1, Read);
        assert Resolve(p.scopes, t, 1, "foo") == Some(1);
      }
    }
    NothingReferenced(p, t, 0);
  }

  /** The block's `let foo`, hoisted into the global scope where `foo` is taken, is named `foo$1`. */
  lemma OccupantRenames(p: Program, k: DeclKind, member: bool)
    requires k != SelfName && p == Occupant(k, member)
    ensures Renames(p, OccupantTables(k)) == map[("foo", 1) := "foo$1"]
  {
    OccupantQueue(p, k, member);
    OccupantOccupied(p, k, member);
    FirstAlias("foo", {"foo"});
    RenamesOne(p, OccupantTables(k), 1, {"foo"}, "foo$1");
  }

  lemma OccupantRewrite(p: Program, k: DeclKind, member: bool)
    requires k != SelfName && p == Occupant(k, member)
    ensures Rewrite(p, OccupantTables(k), map[("foo", 1) := "foo$1"]) == OccupantOutput(k, member)
  {
    var t := OccupantTables(k);
    var m := map[("foo", 1) := "foo$1"];
    var out := OccupantOutput(k, member);
    assert DeclScope(p.scopes, p.decls[0]) == 0;
    assert RewriteDecl(p.scopes, m, p.decls[0]) == out.decls[0];
    assert RewriteDecl(p.scopes, m, p.decls[1]) == out.decls[1];
    assert Resolve(p.scopes, t, 1, "foo") == Some(1);
    var last := |p.occs| - 1;
    assert p.occs[last] == Ident("foo", 1, Read) && out.occs[last] == OutIdent("foo$1");
    assert RewriteOcc(p.scopes, t, m, p.occs[last]) == out.occs[last];
    RewriteFrom(p, t, m, out);
  }

  /**
   * Whatever binds `foo` in the global scope (a `var`, a function or class
   * declaration, a default or named import, a top-level `let` or `const`),
   * the block's `let foo` becomes `var foo$1` and its references follow,
   * while the member name `this.foo` stays as written.
   */
  lemma OccupantRenamed(k: DeclKind, member: bool)
    requires k != SelfName
    ensures Run(Occupant(k, member), Options(true)) == Ok(OccupantOutput(k, member))
  {
    var p := Occupant(k, member);
    OccupantBuild(p, k, member);
    NoWrites(p, OccupantTables(k));
    OccupantRenames(p, k, member);
    OccupantRewrite(p, k, member);
  }

  /** `function bar ( foo ) { if ( x ) { let foo = 'y'; console.log( foo ); } }` */
  function ShadowedParam(): (p: Program)
    ensures Valid(p)
  {
    Program([Scope(Global, None), Scope(Function, Some(0)), Scope(Block, Some(1))],
            [Decl("bar", FunctionDecl, 0), Decl("foo", Param, 1), Decl("foo", Let, 2)],
            [Ident("foo", 2, Read)])
  }

  function ShadowedParamTables(): seq<Table>
  {
    [map["bar" := FunctionDecl], map["foo" := Param], map["foo" := Let]]
  }

  lemma ShadowedParamBuild(p: Program)
    requires p == ShadowedParam()
    ensures Build(p.scopes, p.decls) == Ok(ShadowedParamTables())
  {
    var e0 := Env([map[], map[], map[]], [{}, {}, {}]);
    var e1 := Env([map["bar" := FunctionDecl], map[], map[]], [{"bar"}, {}, {}]);
    var e2 := Env([map["bar" := FunctionDecl], map["foo" := Param], map[]], [{"bar"}, {}, {}]);
    assert EmptyEnv(3) == e0 && p.decls[..0] == [];
    assert e0.tables[0 := e0.tables[0]["bar" := FunctionDecl]] == e1.tables;
    assert e0.claimed[0] + {"bar"} == {"bar"};
    assert e0.claimed[0 := {"bar"}] == e1.claimed;
    FreshVarStep(p.scopes, p.decls, 0, e0);
    assert e1.tables[1 := e1.tables[1]["foo" := Param]] == e2.tables;
    FreshStep(p.scopes, p.decls, 1, e1);
    assert e2.tables[2 := e2.tables[2]["foo" := Let]] == ShadowedParamTables();
    FreshStep(p.scopes, p.decls, 2, e2);
    assert p.decls[..3] == p.decls;
  }

  lemma ShadowedParamQueue(p: Program)
    requires p == ShadowedParam()
    ensures Queue(p, 3) == [2]
  {
    assert BlockQueue(p, 2, 1) == [] && BlockQueue(p, 2, 2) == [];
    assert BlockQueue(p, 2, 3) == [2];
    forall s | 0 <= s < 2 ensures BlockQueue(p, s, 3) == [] {
      assert BlockQueue(p, s, 1) == [] && BlockQueue(p, s, 2) == [];
    }
    assert Queue(p, 2) == [] by { assert Queue(p, 1) == []; }
  }

  /** The block's `let foo` hoists into `bar`, where the parameter takes `foo`; its use resolves inside the block. */
  lemma ShadowedParamOccupied(p: Program)
    requires p == ShadowedParam()
    ensures Target(p, 2) == 1 && Occupied(p, ShadowedParamTables(), InitialState(3), 1) == {"foo"}
  {
    var t := ShadowedParamTables();
    assert Resolve(p.scopes, t, 2, "foo") == Some(2);
    assert !ReferencesThrough(p, t, p.occs[0], 1);
    NothingReferenced(p, t, 1);
  }

  lemma ShadowedParamRenames(p: Program)
    requires p == ShadowedParam()
    ensures Renames(p, ShadowedParamTables()) == map[("foo", 2) := "foo$1"]
  {
    ShadowedParamQueue(p);
    ShadowedParamOccupied(p);
    FirstAlias("foo", {"foo"});
    RenamesOne(p, ShadowedParamTables(), 2, {"foo"}, "foo$1");
  }

  function ShadowedParamOutput(): Output
  {
    Output([OutDecl("bar", FunctionDecl), OutDecl("foo", Param), OutDecl("foo$1", Var)], [OutIdent("foo$1")])
  }

  lemma ShadowedParamRewrite(p: Program)
    requires p == ShadowedParam()
    ensures Rewrite(p, ShadowedParamTables(), map[("foo", 2) := "foo$1"]) == ShadowedParamOutput()
  {
    var t := ShadowedParamTables();
    var m := map[("foo", 2) := "foo$1"];
    var out := ShadowedParamOutput();
    assert DeclScope(p.scopes, p.decls[0]) == 0;
    assert RewriteDecl(p.scopes, m, p.decls[0]) == out.decls[0];
    assert Resolve(p.scopes, t, 2, "foo") == Some(2);
    RewriteFrom(p, t, m, out);
  }

  /** A block's `let` named like a parameter of the enclosing function becomes `var foo$1`. */
  lemma ShadowedParamRenamed()
    ensures Run(ShadowedParam(), Options(true)) == Ok(ShadowedParamOutput())
  {
    var p := ShadowedParam();
    ShadowedParamBuild(p);
    NoWrites(p, ShadowedParamTables());
    ShadowedParamRenames(p);
    ShadowedParamRewrite(p);
  }

  /**
   * `if ( x ) { let a = function () { b(); }; let b = function () { ... }; a(); b(); }`:
   * the closure bound to `a` refers to `b` before `b` is declared.
   */
  function ForwardReference(): (p: Program)
    ensures Valid(p)
  {
    Program([Scope(Global, None), Scope(Block, Some(0)), Scope(Function, Some(1))],
            [Decl("a", Let, 1), Decl("b", Let, 1)],
            [Ident("b", 2, Read), Ident("a", 1, Read), Ident("b", 1, Read)])
  }

  function ForwardReferenceTables(): seq<Table>
  {
    [map[], map["a" := Let, "b" := Let], map[]]
  }

  function ForwardReferenceOutput(): Output
  {
    Output([OutDecl("a", Var), OutDecl("b", Var)], [OutIdent("b"), OutIdent("a"), OutIdent("b")])
  }

  lemma ForwardReferenceBuild(p: Program)
    requires p == ForwardReference()
    ensures Build(p.scopes, p.decls) == Ok(ForwardReferenceTables())
  {
    var e0 := Env([map[], map[], map[]], [{}, {}, {}]);
    var e1 := Env([map[], map["a" := Let], map[]], [{}, {}, {}]);
    assert EmptyEnv(3) == e0 && p.decls[..0] == [];
    assert e0.tables[1 := e0.tables[1]["a" := Let]] == e1.tables;
    FreshStep(p.scopes, p.decls, 0, e0);
    assert e1.tables[1 := e1.tables[1]["b" := Let]] == ForwardReferenceTables();
    FreshStep(p.scopes, p.decls, 1, e1);
    assert p.decls[..2] == p.decls;
  }

  lemma ForwardReferenceQueue(p: Program)
    requires p == ForwardReference()
    ensures Queue(p, 3) == [0, 1]
  {
    assert Hoisted(p.scopes, p.decls[0]) && Hoisted(p.scopes, p.decls[1]);
    assert BlockQueue(p, 0, 1) == [];
    assert BlockQueue(p, 0, 2) == [];
    assert BlockQueue(p, 1, 1) == [0];
    assert BlockQueue(p, 1, 2) == [0, 1];
    assert BlockQueue(p, 2, 1) == [];
    assert BlockQueue(p, 2, 2) == [];
    assert Queue(p, 1) == [];
    assert Queue(p, 2) == [0, 1];
  }

  /** Every use, the closure's early `b()` included, resolves in the block: nothing is taken in the global scope. */
  lemma ForwardReferenceFixed(p: Program)
    requires p == ForwardReference()
    ensures Target(p, 0) == 0 && Target(p, 1) == 0 && Fixed(p, ForwardReferenceTables(), 0) == {}
  {
    var t := ForwardReferenceTables();
    assert Resolve(p.scopes, t, 1, "b") == Some(1);
    assert Resolve(p.scopes, t, 2, "b") == Some(1);
    assert Resolve(p.scopes, t, 1, "a") == Some(1);
    forall j | 0 <= j < |p.occs| ensures !ReferencesThrough(p, t, p.occs[j], 0) {
    }
    NothingReferenced(p, t, 0);
  }

  lemma ForwardReferenceRenames(p: Program)
    requires p == ForwardReference()
    ensures Renames(p, ForwardReferenceTables()) == map[("a", 1) := "a", ("b", 1) := "b"]
  {
    ForwardReferenceQueue(p);
    ForwardReferenceFixed(p);
    assert FirstFree("a", {}) == "a";
    assert FirstFree("b", {} + {"a"}) == "b";
    RenamesTwo(p, ForwardReferenceTables(), 0, 1, {}, "a", "b");
  }

  lemma ForwardReferenceRewrite(p: Program)
    requires p == ForwardReference()
    ensures Rewrite(p, ForwardReferenceTables(), map[("a", 1) := "a", ("b", 1) := "b"]) == ForwardReferenceOutput()
  {
    var t := ForwardReferenceTables();
    var m := map[("a", 1) := "a", ("b", 1) := "b"];
    var out := ForwardReferenceOutput();
    assert RewriteDecl(p.scopes, m, p.decls[0]) == out.decls[0];
    assert RewriteDecl(p.scopes, m, p.decls[1]) == out.decls[1];
    assert Resolve(p.scopes, t, 1, "b") == Some(1);
    assert Resolve(p.scopes, t, 2, "b") == Some(1);
    assert Resolve(p.scopes, t, 1, "a") == Some(1);
    RewriteFrom(p, t, m, out);
  }

  /**
   * A reference that precedes its declaration is no obstacle: both `let`s
   * become `var`s under their own names and every use is kept.
   */
  lemma ForwardReferenceKept()
    ensures Run(ForwardReference(), Options(true)) == Ok(ForwardReferenceOutput())
  {
    var p := ForwardReference();
    ForwardReferenceBuild(p);
    NoWrites(p, ForwardReferenceTables());
    ForwardReferenceRenames(p);
    ForwardReferenceRewrite(p);
  }
}
