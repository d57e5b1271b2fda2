/**
 * Test records in which a block's destructuring declaration, or a
 * shorthand property, names a binding that has to be renamed: the
 * renamer's decisions for the block are what the declarators, the kept
 * pattern and the spelled-out property print.
 *
 * As in the shadowing records, free names a record only reads (`point`,
 * `console`) are not listed among the occurrences.
 */
module Destructuring {
  import opened Wrappers
  import opened Scopes
  import opened Syntax
  import opened Bindings
  import opened Names
  import opened Renamer
  import opened Transform
  import opened Steps
  import Patterns

  /**
   * `let x;` (or `const x = 1;`) then a block declaring `x` and `y` with
   * the same keyword, where `x` is then used: as `console.log( x )`, or,
   * with `shorthand`, as the property `{ x }` of `y`'s initialiser.
   */
  function Pair(k: DeclKind, shorthand: bool): (p: Program)
    requires k == Let || k == Const
    ensures Valid(p)
  {
    Program([Scope(Global, None), Scope(Block, Some(0))],
            [Decl("x", k, 0), Decl("x", k, 1), Decl("y", k, 1)],
            [if shorthand then Shorthand("x", 1, Read) else Ident("x", 1, Read)])
  }

  function PairTables(k: DeclKind): seq<Table>
  {
    [map["x" := k], map["x" := k, "y" := k]]
  }

  function PairOutput(shorthand: bool): Output
  {
    Output([OutDecl("x", Var), OutDecl("x$1", Var), OutDecl("y", Var)],
           [if shorthand then OutKeyValue("x", "x$1") else OutIdent("x$1")])
  }

  lemma PairBuild(p: Program, k: DeclKind, shorthand: bool)
    requires (k == Let || k == Const) && p == Pair(k, shorthand)
    ensures Build(p.scopes, p.decls) == Ok(PairTables(k))
  {
    var e0 := Env([map[], map[]], [{}, {}]);
    var e1 := Env([map["x" := k], map[]], [{}, {}]);
    var e2 := Env([map["x" := k], map["x" := k]], [{}, {}]);
    assert EmptyEnv(2) == e0 && p.decls[..0] == [];
    assert e0.tables[0 := e0.tables[0]["x" := k]] == e1.tables;
    FreshStep(p.scopes, p.decls, 0, e0);
    assert e1.tables[1 := e1.tables[1]["x" := k]] == e2.tables;
    FreshStep(p.scopes, p.decls, 1, e1);
    assert e2.tables[1 := e2.tables[1]["y" := k]] == PairTables(k);
    FreshStep(p.scopes, p.decls, 2, e2);
    assert p.decls[..3] == p.decls;
  }

  /** The block's `x`, then its `y`, are hoisted. */
  lemma PairQueue(p: Program, k: DeclKind, shorthand: bool)
    requires (k == Let || k == Const) && p == Pair(k, shorthand)
    ensures Queue(p, 2) == [1, 2]
  {
    assert !Hoisted(p.scopes, p.decls[0]) && Hoisted(p.scopes, p.decls[1]) && Hoisted(p.scopes, p.decls[2]);
    assert BlockQueue(p, 0, 1) == [];
    assert BlockQueue(p, 0, 2) == [];
    assert BlockQueue(p, 0, 3) == [];
    assert BlockQueue(p, 1, 1) == [];
    assert BlockQueue(p, 1, 2) == [1];
    assert BlockQueue(p, 1, 3) == [1, 2];
    assert Queue(p, 1) == [];
  }

  /** In the global scope only the outer `x` is taken: the block's use of `x` resolves inside it. */
  lemma PairFixed(p: Program, k: DeclKind, shorthand: bool)
    requires (k == Let || k == Const) && p == Pair(k, shorthand)
    ensures Target(p, 1) == 0 && Target(p, 2) == 0 && Fixed(p, PairTables(k), 0) == {"x"}
  {
    var t := PairTables(k);
    assert Resolve(p.scopes, t, 1, "x") == Some(1);
    assert !ReferencesThrough(p, t, p.occs[0], 0);
    NothingReferenced(p, t, 0);
  }

  /** `x` becomes `x$1`; `y`, still free once `x$1` is taken, keeps its name. */
  lemma PairRenames(p: Program, k: DeclKind, shorthand: bool)
    requires (k == Let || k == Const) && p == Pair(k, shorthand)
    ensures Renames(p, PairTables(k)) == map[("x", 1) := "x$1", ("y", 1) := "y"]
  {
    PairQueue(p, k, shorthand);
    PairFixed(p, k, shorthand);
    FirstAlias("x", {"x"});
    assert FirstFree("y", {"x"} + {"x$1"}) == "y";
    RenamesTwo(p, PairTables(k), 1, 2, {"x"}, "x$1", "y");
  }

  lemma PairRewrite(p: Program, k: DeclKind, shorthand: bool)
    requires (k == Let || k == Const) && p == Pair(k, shorthand)
    ensures Rewrite(p, PairTables(k), map[("x", 1) := "x$1", ("y", 1) := "y"]) == PairOutput(shorthand)
  {
    var t := PairTables(k);
    var m := map[("x", 1) := "x$1", ("y", 1) := "y"];
    var out := PairOutput(shorthand);
    assert RewriteDecl(p.scopes, m, p.decls[0]) == out.decls[0];
    assert RewriteDecl(p.scopes, m, p.decls[1]) == out.decls[1];
    assert RewriteDecl(p.scopes, m, p.decls[2]) == out.decls[2];
    assert Resolve(p.scopes, t, 1, "x") == Some(1);
    assert RewriteOcc(p.scopes, t, m, p.occs[0]) == out.occs[0];
    RewriteFrom(p, t, m, out);
  }

  /**
   * The block's `x` becomes `var x$1` and its use follows: a plain use as
   * `x$1`, a shorthand property as `{ x: x$1 }` keeping its key; `y` stays.
   */
  lemma PairRenamed(k: DeclKind, shorthand: bool)
    requires k == Let || k == Const
    ensures Run(Pair(k, shorthand), Options(true)) == Ok(PairOutput(shorthand))
  {
    var p := Pair(k, shorthand);
    PairBuild(p, k, shorthand);
    NoWrites(p, PairTables(k));
    PairRenames(p, k, shorthand);
    PairRewrite(p, k, shorthand);
  }

  /** The renames the stage decides for the block of `Pair(Let, false)`. */
  lemma PairBlockRenames()
    ensures var p := Pair(Let, false);
            && Build(p.scopes, p.decls) == Ok(PairTables(Let))
            && Patterns.Rename(BlockRenames(Renames(p, PairTables(Let)), 1), "x") == "x$1"
            && Patterns.Rename(BlockRenames(Renames(p, PairTables(Let)), 1), "y") == "y"
  {
    var p := Pair(Let, false);
    PairBuild(p, Let, false);
    PairRenames(p, Let, false);
  }

  /**
   * `let { x, y } = point` and `let [ x, y ] = point` in that block,
   * desugared under the stage's renames for it: `x$1 = point.x`,
   * `y = point.y`, and `x$1 = point[0]`, `y = point[1]`.
   */
  lemma PairDesugared()
    ensures Build(Pair(Let, false).scopes, Pair(Let, false).decls).Ok?
    ensures var p := Pair(Let, false);
            var ren := BlockRenames(Renames(p, Build(p.scopes, p.decls).value), 1);
            && Patterns.Desugar(Patterns.ObjectPattern([Patterns.KeyProp("x", Patterns.Bind("x"), true),
                                                        Patterns.KeyProp("y", Patterns.Bind("y"), true)]),
                                Patterns.Root("point"), ren)
               == Some([Patterns.Step("x$1", Patterns.Member(Patterns.Root("point"), "x")),
                        Patterns.Step("y", Patterns.Member(Patterns.Root("point"), "y"))])
            && Patterns.Desugar(Patterns.ArrayPattern([Patterns.Bind("x"), Patterns.Bind("y")], None),
                                Patterns.Root("point"), ren)
               == Some([Patterns.Step("x$1", Patterns.Index(Patterns.Root("point"), 0)),
                        Patterns.Step("y", Patterns.Index(Patterns.Root("point"), 1))])
  {
    var p := Pair(Let, false);
    PairBlockRenames();
    var ren := BlockRenames(Renames(p, PairTables(Let)), 1);
    Patterns.ObjectPatternExample(ren);
    Patterns.ArrayPatternExample(ren);
  }

  /** `let x;` then `if ( true ) { let [ first, second, ...x ] = y; console.log( x ); }` */
  function RestBlock(): (p: Program)
    ensures Valid(p)
  {
    Program([Scope(Global, None), Scope(Block, Some(0))],
            [Decl("x", Let, 0), Decl("first", Let, 1), Decl("second", Let, 1), Decl("x", Let, 1)],
            [Ident("x", 1, Read)])
  }

  function RestBlockTables(): seq<Table>
  {
    [map["x" := Let], map["first" := Let, "second" := Let, "x" := Let]]
  }

  function RestBlockRenaming(): map<(string, nat), string>
  {
    map[("first", 1) := "first", ("second", 1) := "second", ("x", 1) := "x$1"]
  }

  function RestBlockOutput(): Output
  {
    Output([OutDecl("x", Var), OutDecl("first", Var), OutDecl("second", Var), OutDecl("x$1", Var)],
           [OutIdent("x$1")])
  }

  lemma RestBlockBuild(p: Program)
    requires p == RestBlock()
    ensures Build(p.scopes, p.decls) == Ok(RestBlockTables())
  {
    var e0 := Env([map[], map[]], [{}, {}]);
    var e1 := Env([map["x" := Let], map[]], [{}, {}]);
    var e2 := Env([map["x" := Let], map["first" := Let]], [{}, {}]);
    var e3 := Env([map["x" := Let], map["first" := Let, "second" := Let]], [{}, {}]);
    assert EmptyEnv(2) == e0 && p.decls[..0] == [];
    assert e0.tables[0 := e0.tables[0]["x" := Let]] == e1.tables;
    FreshStep(p.scopes, p.decls, 0, e0);
    assert e1.tables[1 := e1.tables[1]["first" := Let]] == e2.tables;
    FreshStep(p.scopes, p.decls, 1, e1);
    assert e2.tables[1 := e2.tables[1]["second" := Let]] == e3.tables;
    FreshStep(p.scopes, p.decls, 2, e2);
    assert e3.tables[1 := e3.tables[1]["x" := Let]] == RestBlockTables();
    FreshStep(p.scopes, p.decls, 3, e3);
    assert p.decls[..4] == p.decls;
  }

  lemma RestBlockQueue(p: Program)
    requires p == RestBlock()
    ensures Queue(p, 2) == [1, 2, 3]
  {
    assert !Hoisted(p.scopes, p.decls[0]);
    assert BlockQueue(p, 0, 1) == [];
    assert BlockQueue(p, 0, 2) == [];
    assert BlockQueue(p, 0, 3) == [];
    assert BlockQueue(p, 0, 4) == [];
    assert BlockQueue(p, 1, 1) == [];
    assert BlockQueue(p, 1, 2) == [1];
    assert BlockQueue(p, 1, 3) == [1, 2];
    assert BlockQueue(p, 1, 4) == [1, 2, 3];
    assert Queue(p, 1) == [];
  }

  lemma RestBlockFixed(p: Program)
    requires p == RestBlock()
    ensures Target(p, 1) == 0 && Target(p, 2) == 0 && Target(p, 3) == 0
    ensures Fixed(p, RestBlockTables(), 0) == {"x"}
  {
    var t := RestBlockTables();
    assert Resolve(p.scopes, t, 1, "x") == Some(1);
    assert !ReferencesThrough(p, t, p.occs[0], 0);
    NothingReferenced(p, t, 0);
  }

  /** `first` and `second` are free in the global scope; the rest element's `x` is not and becomes `x$1`. */
  lemma RestBlockRenames(p: Program)
    requires p == RestBlock()
    ensures Renames(p, RestBlockTables()) == RestBlockRenaming()
  {
    RestBlockQueue(p);
    RestBlockFixed(p);
    assert FirstFree("first", {"x"}) == "first";
    assert FirstFree("second", {"x"} + {"first"}) == "second";
    FirstAlias("x", {"x"} + {"first", "second"});
    RenamesThree(p, RestBlockTables(), 1, 2, 3, {"x"}, "first", "second", "x$1");
  }

  lemma RestBlockRewrite(p: Program)
    requires p == RestBlock()
    ensures Rewrite(p, RestBlockTables(), RestBlockRenaming()) == RestBlockOutput()
  {
    var t := RestBlockTables();
    var m := RestBlockRenaming();
    var out := RestBlockOutput();
    assert RewriteDecl(p.scopes, m, p.decls[0]) == out.decls[0];
    assert RewriteDecl(p.scopes, m, p.decls[1]) == out.decls[1];
    assert RewriteDecl(p.scopes, m, p.decls[2]) == out.decls[2];
    assert RewriteDecl(p.scopes, m, p.decls[3]) == out.decls[3];
    assert Resolve(p.scopes, t, 1, "x") == Some(1);
    RewriteFrom(p, t, m, out);
  }

  /**
   * The rest element's binding becomes `var x$1` and its use follows; the
   * desugared declaration reads `y[0]`, `y[1]` and `y.slice(2)` into
   * `first`, `second` and `x$1`.
   */
  lemma RestBlockRenamed()
    ensures Run(RestBlock(), Options(true)) == Ok(RestBlockOutput())
    ensures var p := RestBlock();
            Patterns.Desugar(Patterns.ArrayPattern([Patterns.Bind("first"), Patterns.Bind("second")],
                                                   Some(Patterns.Bind("x"))),
                             Patterns.Root("y"), BlockRenames(Renames(p, Build(p.scopes, p.decls).value), 1))
            == Some([Patterns.Step("first", Patterns.Index(Patterns.Root("y"), 0)),
                     Patterns.Step("second", Patterns.Index(Patterns.Root("y"), 1)),
                     Patterns.Step("x$1", Patterns.Slice(Patterns.Root("y"), 2))])
  {
    var p := RestBlock();
    RestBlockBuild(p);
    NoWrites(p, RestBlockTables());
    RestBlockRenames(p);
    RestBlockRewrite(p);
    Patterns.RestElementExample(BlockRenames(RestBlockRenaming(), 1));
  }

  /** `const x = 1;` then `if ( true ) { const y = {}; const { x } = y; }` */
  function KeptPattern(): (p: Program)
    ensures Valid(p)
  {
    Program([Scope(Global, None), Scope(Block, Some(0))],
            [Decl("x", Const, 0), Decl("y", Const, 1), Decl("x", Const, 1)],
            [Ident("y", 1, Read)])
  }

  function KeptPatternTables(): seq<Table>
  {
    [map["x" := Const], map["y" := Const, "x" := Const]]
  }

  function KeptPatternOutput(): Output
  {
    Output([OutDecl("x", Var), OutDecl("y", Var), OutDecl("x$1", Var)], [OutIdent("y")])
  }

  lemma KeptPatternBuild(p: Program)
    requires p == KeptPattern()
    ensures Build(p.scopes, p.decls) == Ok(KeptPatternTables())
  {
    var e0 := Env([map[], map[]], [{}, {}]);
    var e1 := Env([map["x" := Const], map[]], [{}, {}]);
    var e2 := Env([map["x" := Const], map["y" := Const]], [{}, {}]);
    assert EmptyEnv(2) == e0 && p.decls[..0] == [];
    assert e0.tables[0 := e0.tables[0]["x" := Const]] == e1.tables;
    FreshStep(p.scopes, p.decls, 0, e0);
    assert e1.tables[1 := e1.tables[1]["y" := Const]] == e2.tables;
    FreshStep(p.scopes, p.decls, 1, e1);
    assert e2.tables[1 := e2.tables[1]["x" := Const]] == KeptPatternTables();
    FreshStep(p.scopes, p.decls, 2, e2);
    assert p.decls[..3] == p.decls;
  }

  lemma KeptPatternQueue(p: Program)
    requires p == KeptPattern()
    ensures Queue(p, 2) == [1, 2]
  {
    assert !Hoisted(p.scopes, p.decls[0]) && Hoisted(p.scopes, p.decls[1]) && Hoisted(p.scopes, p.decls[2]);
    assert BlockQueue(p, 0, 1) == [];
    assert BlockQueue(p, 0, 2) == [];
    assert BlockQueue(p, 0, 3) == [];
    assert BlockQueue(p, 1, 1) == [];
    assert BlockQueue(p, 1, 2) == [1];
    assert BlockQueue(p, 1, 3) == [1, 2];
    assert Queue(p, 1) == [];
  }

  lemma KeptPatternFixed(p: Program)
    requires p == KeptPattern()
    ensures Target(p, 1) == 0 && Target(p, 2) == 0 && Fixed(p, KeptPatternTables(), 0) == {"x"}
  {
    var t := KeptPatternTables();
    assert Resolve(p.scopes, t, 1, "y") == Some(1);
    assert !ReferencesThrough(p, t, p.occs[0], 0);
    NothingReferenced(p, t, 0);
  }

  /** `y` keeps its name; the block's `x`, queued after it, becomes `x$1`. */
  lemma KeptPatternRenames(p: Program)
    requires p == KeptPattern()
    ensures Renames(p, KeptPatternTables()) == map[("y", 1) := "y", ("x", 1) := "x$1"]
  {
    KeptPatternQueue(p);
    KeptPatternFixed(p);
    assert FirstFree("y", {"x"}) == "y";
    FirstAlias("x", {"x"} + {"y"});
    RenamesTwo(p, KeptPatternTables(), 1, 2, {"x"}, "y", "x$1");
  }

  lemma KeptPatternRewrite(p: Program)
    requires p == KeptPattern()
    ensures Rewrite(p, KeptPatternTables(), map[("y", 1) := "y", ("x", 1) := "x$1"]) == KeptPatternOutput()
  {
    var t := KeptPatternTables();
    var m := map[("y", 1) := "y", ("x", 1) := "x$1"];
    var out := KeptPatternOutput();
    assert RewriteDecl(p.scopes, m, p.decls[0]) == out.decls[0];
    assert RewriteDecl(p.scopes, m, p.decls[1]) == out.decls[1];
    assert RewriteDecl(p.scopes, m, p.decls[2]) == out.decls[2];
    assert Resolve(p.scopes, t, 1, "y") == Some(1);
    assert RewriteOcc(p.scopes, t, m, p.occs[0]) == out.occs[0];
    RewriteFrom(p, t, m, out);
  }

  /**
   * With destructuring not lowered, `const { x } = y` is kept as a pattern:
   * its binding is declared as `x$1`, so the pattern respelled under the
   * block's renames is `{ x: x$1 }`, the key still `x`.
   */
  lemma KeptPatternRenamed()
    ensures Run(KeptPattern(), Options(true)) == Ok(KeptPatternOutput())
    ensures var p := KeptPattern();
            Patterns.RenamePattern(Patterns.ObjectPattern([Patterns.KeyProp("x", Patterns.Bind("x"), true)]),
                                   BlockRenames(Renames(p, Build(p.scopes, p.decls).value), 1))
            == Patterns.ObjectPattern([Patterns.KeyProp("x", Patterns.Bind("x$1"), false)])
  {
    var p := KeptPattern();
    KeptPatternBuild(p);
    NoWrites(p, KeptPatternTables());
    KeptPatternRenames(p);
    KeptPatternRewrite(p);
    Patterns.KeptShorthandExample(BlockRenames(map[("y", 1) := "y", ("x", 1) := "x$1"], 1));
  }

  /** `const x = 1;` then `for ( const x in { x } ) {}`, the loop head a block. */
  function ForInShorthand(): (p: Program)
    ensures Valid(p)
  {
    Program([Scope(Global, None), Scope(Block, Some(0))],
            [Decl("x", Const, 0), Decl("x", Const, 1)],
            [Shorthand("x", 1, Read)])
  }

  function ForInShorthandTables(): seq<Table>
  {
    [map["x" := Const], map["x" := Const]]
  }

  function ForInShorthandOutput(): Output
  {
    Output([OutDecl("x", Var), OutDecl("x$1", Var)], [OutKeyValue("x", "x$1")])
  }

  lemma ForInShorthandBuild(p: Program)
    requires p == ForInShorthand()
    ensures Build(p.scopes, p.decls) == Ok(ForInShorthandTables())
  {
    var e0 := Env([map[], map[]], [{}, {}]);
    var e1 := Env([map["x" := Const], map[]], [{}, {}]);
    assert EmptyEnv(2) == e0 && p.decls[..0] == [];
    assert e0.tables[0 := e0.tables[0]["x" := Const]] == e1.tables;
    FreshStep(p.scopes, p.decls, 0, e0);
    assert e1.tables[1 := e1.tables[1]["x" := Const]] == ForInShorthandTables();
    FreshStep(p.scopes, p.decls, 1, e1);
    assert p.decls[..2] == p.decls;
  }

  lemma ForInShorthandRenames(p: Program)
    requires p == ForInShorthand()
    ensures Renames(p, ForInShorthandTables()) == map[("x", 1) := "x$1"]
  {
    var t := ForInShorthandTables();
    assert !Hoisted(p.scopes, p.decls[0]) && Hoisted(p.scopes, p.decls[1]);
    assert BlockQueue(p, 0, 1) == [];
    assert BlockQueue(p, 0, 2) == [];
    assert BlockQueue(p, 1, 1) == [];
    assert BlockQueue(p, 1, 2) == [1];
    assert Queue(p, 1) == [];
    assert Resolve(p.scopes, t, 1, "x") == Some(1);
    assert !ReferencesThrough(p, t, p.occs[0], 0);
    NothingReferenced(p, t, 0);
    FirstAlias("x", {"x"});
    RenamesOne(p, t, 1, {"x"}, "x$1");
  }

  lemma ForInShorthandRewrite(p: Program)
    requires p == ForInShorthand()
    ensures Rewrite(p, ForInShorthandTables(), map[("x", 1) := "x$1"]) == ForInShorthandOutput()
  {
    var t := ForInShorthandTables();
    var m := map[("x", 1) := "x$1"];
    assert Resolve(p.scopes, t, 1, "x") == Some(1);
    assert RewriteDecl(p.scopes, m, p.decls[0]) == ForInShorthandOutput().decls[0];
    RewriteFrom(p, t, m, ForInShorthandOutput());
  }

  /**
   * The loop's `const x` becomes `var x$1`, and the shorthand `{ x }`
   * that refers to it is spelled out once, as `{ x: x$1 }`.
   */
  lemma ForInShorthandRenamed()
    ensures Run(ForInShorthand(), Options(true)) == Ok(ForInShorthandOutput())
  {
    var p := ForInShorthand();
    ForInShorthandBuild(p);
    NoWrites(p, ForInShorthandTables());
    ForInShorthandRenames(p);
    ForInShorthandRewrite(p);
  }
}
