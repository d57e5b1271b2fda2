/**
 * The abstract program the block-scoping stage works on: a scope arena,
 * the declarations in source order and the identifier occurrences.
 */
module Syntax {
  import opened Scopes

  /** One declared name, written in scope `scope`. */
  datatype Decl = Decl(name: string, kind: DeclKind, scope: nat)

  datatype Access = Read | Write | ReadWrite

  /**
   * An occurrence of a name in the program.
   * - `Ident`: an identifier reference, including a computed key `this[ foo ]`
   *   and every target of an assignment, update or destructuring assignment.
   * - `Property`: a member-expression property `this.foo`, never a reference.
   * - `Shorthand`: a shorthand property `{ x }`, whose key is `x` and whose
   *   value is a reference to `x`.
   */
  datatype Occurrence =
    | Ident(name: string, scope: nat, access: Access)
    | Property(name: string)
    | Shorthand(name: string, scope: nat, access: Access)

  datatype Program = Program(scopes: seq<Scope>, decls: seq<Decl>, occs: seq<Occurrence>)

  predicate IsReference(o: Occurrence)
  {
    o.Ident? || o.Shorthand?
  }

  predicate IsWrite(o: Occurrence)
  {
    IsReference(o) && o.access != Read
  }

  /** Every declaration names a scope of its arena. */
  predicate DeclsIn(scopes: seq<Scope>, decls: seq<Decl>)
  {
    forall i :: 0 <= i < |decls| ==> decls[i].scope < |scopes|
  }

  /** Every reference names a scope of its arena. */
  predicate OccsIn(scopes: seq<Scope>, occs: seq<Occurrence>)
  {
    forall i :: 0 <= i < |occs| ==> IsReference(occs[i]) ==> occs[i].scope < |scopes|
  }

  /** A function expression's own name is bound in that function's scope. */
  predicate SelfNamesOwnFunctions(scopes: seq<Scope>, decls: seq<Decl>)
    requires DeclsIn(scopes, decls)
  {
    forall i :: 0 <= i < |decls| && decls[i].kind == SelfName ==> scopes[decls[i].scope].kind == Function
  }

  predicate Valid(p: Program)
  {
    WellFormed(p.scopes) && DeclsIn(p.scopes, p.decls) && OccsIn(p.scopes, p.occs)
    && SelfNamesOwnFunctions(p.scopes, p.decls)
  }

  /**
   * `let`, `const`, `class` and `import` bindings: no other declaration of
   * the name may share their scope, and no `var` may pass through it.
   */
  predicate Lexical(k: DeclKind)
  {
    k == Let || k == Const || k == ClassDecl || k == Import
  }

  /** `var` and function declarations, which belong to the nearest Function or Global scope. */
  predicate VarLike(k: DeclKind)
  {
    k == Var || k == FunctionDecl
  }

  /**
   * The scope whose table receives a declaration: `var` and function
   * declarations go to the nearest Function or Global scope, everything
   * else stays in the scope where it is written.
   */
  function DeclScope(scopes: seq<Scope>, d: Decl): (t: nat)
    requires WellFormed(scopes) && d.scope < |scopes|
    ensures t < |scopes|
    ensures VarLike(d.kind) ==>
      && t in Chain(scopes, d.scope) && scopes[t].kind != Block
      && forall u :: u in Chain(scopes, d.scope) && t < u ==> scopes[u].kind == Block
    ensures !VarLike(d.kind) ==> t == d.scope
  {
    FunctionScopeNearest(scopes, d.scope);
    if VarLike(d.kind) then FunctionScope(scopes, d.scope) else d.scope
  }

  /** A `let` or `const` written directly in a Block: hoisted and possibly renamed. */
  predicate Hoisted(scopes: seq<Scope>, d: Decl)
    requires d.scope < |scopes|
  {
    (d.kind == Let || d.kind == Const) && scopes[d.scope].kind == Block
  }
}
