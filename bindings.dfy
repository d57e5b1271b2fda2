/**
 * The binding tables: filling one table per scope from the declarations, in
 * source order, and rejecting a redeclaration ("Identifier 'x' has already
 * been declared") that involves a lexical binding, in one scope or through
 * a `var` hoisted past it.
 */
module Bindings {
  import opened Wrappers
  import opened Scopes
  import opened Syntax

  /** The two static errors of the stage; each names the offending identifier. */
  datatype CompileError = DuplicateDeclaration(name: string) | ReadOnly(name: string)

  /** The diagnostic text reported for an error. */
  function Message(e: CompileError): (m: string)
    ensures e.DuplicateDeclaration? ==>
      12 + |e.name| <= |m| && m[..12] == "Identifier '" && m[12..12 + |e.name|] == e.name
    ensures e.ReadOnly? ==>
      |e.name| <= |m| && m[..|e.name|] == e.name && m[|e.name|..] == " is read-only"
  {
    match e
    case DuplicateDeclaration(n) => "Identifier '" + n + "' has already been declared"
    case ReadOnly(n) => n + " is read-only"
  }

  /**
   * What the walk over the declarations has built so far: one binding table
   * per scope, and per scope the names that `var` and function declarations
   * have claimed there, by being written in it or by passing through it on
   * the way to their hoist target.
   */
  datatype Env = Env(tables: seq<Table>, claimed: seq<set<string>>)

  predicate Sized(scopes: seq<Scope>, env: Env)
  {
    |env.tables| == |scopes| && |env.claimed| == |scopes|
  }

  function EmptyEnv(n: nat): (env: Env)
    ensures |env.tables| == n && |env.claimed| == n
    ensures forall u :: 0 <= u < n ==> env.tables[u] == map[] && env.claimed[u] == {}
  {
    Env(seq(n, _ => map[]), seq(n, _ => {}))
  }

  /** Some scope of the span of `s` binds `n` lexically. */
  predicate LexicalOnSpan(scopes: seq<Scope>, tables: seq<Table>, s: nat, n: string)
    requires WellFormed(scopes) && |tables| == |scopes| && s < |scopes|
    decreases s
  {
    || (n in tables[s] && Lexical(tables[s][n]))
    || (scopes[s].kind == Block && LexicalOnSpan(scopes, tables, scopes[s].parent.value, n))
  }

  /** The walk up the span finds a lexical binding exactly when one of its scopes holds one. */
  lemma {:induction false} LexicalOnSpanMeans(scopes: seq<Scope>, tables: seq<Table>, s: nat, n: string)
    requires WellFormed(scopes) && |tables| == |scopes| && s < |scopes|
    ensures LexicalOnSpan(scopes, tables, s, n) <==>
      exists u :: 0 <= u < |scopes| && InSpan(scopes, s, u) && n in tables[u] && Lexical(tables[u][n])
    decreases s
  {
    if scopes[s].kind == Block {
      var q := scopes[s].parent.value;
      LexicalOnSpanMeans(scopes, tables, q, n);
      if LexicalOnSpan(scopes, tables, s, n) && !(n in tables[s] && Lexical(tables[s][n])) {
        var u :| 0 <= u < |scopes| && InSpan(scopes, q, u) && n in tables[u] && Lexical(tables[u][n]);
        assert InSpan(scopes, s, u);
      }
    }
    if !LexicalOnSpan(scopes, tables, s, n) {
      forall u | 0 <= u < |scopes| && InSpan(scopes, s, u)
        ensures !(n in tables[u] && Lexical(tables[u][n]))
      {
      }
    }
  }

  /** `n` claimed in every scope of the span of `s`. */
  function Claim(scopes: seq<Scope>, claimed: seq<set<string>>, s: nat, n: string): (c: seq<set<string>>)
    requires WellFormed(scopes) && |claimed| == |scopes| && s < |scopes|
    ensures |c| == |claimed|
    ensures forall u :: 0 <= u < |c| ==> c[u] == if InSpan(scopes, s, u) then claimed[u] + {n} else claimed[u]
    decreases s
  {
    var c := claimed[s := claimed[s] + {n}];
    if scopes[s].kind == Block then Claim(scopes, c, scopes[s].parent.value, n) else c
  }

  /**
   * A declaration that the bindings already in `env` forbid: a clash in its
   * own table, a lexical binding in a scope some `var` has claimed, or a
   * `var` passing through a scope that binds the name lexically. A function
   * expression's own name is never refused.
   */
  predicate Refused(scopes: seq<Scope>, env: Env, d: Decl)
    requires WellFormed(scopes) && Sized(scopes, env) && d.scope < |scopes|
  {
    var t, n := DeclScope(scopes, d), d.name;
    && d.kind != SelfName
    && (|| (n in env.tables[t] && env.tables[t][n] != SelfName && (Lexical(d.kind) || Lexical(env.tables[t][n])))
        || (Lexical(d.kind) && n in env.claimed[t])
        || (VarLike(d.kind) && LexicalOnSpan(scopes, env.tables, d.scope, n)))
  }

  /**
   * Adds one declaration, or reports the redeclaration. A function
   * expression's own name yields to any other binding of the name in its
   * scope; any other declaration takes the name over.
   */
  function Register(scopes: seq<Scope>, env: Env, d: Decl): (r: Result<Env, CompileError>)
    requires WellFormed(scopes) && Sized(scopes, env) && d.scope < |scopes|
    ensures r.Ok? ==> Sized(scopes, r.value)
  {
    var t, n := DeclScope(scopes, d), d.name;
    if Refused(scopes, env, d) then Err(DuplicateDeclaration(n))
    else if d.kind == SelfName && n in env.tables[t] then Ok(env)
    else
      Ok(Env(env.tables[t := env.tables[t][n := d.kind]],
             if VarLike(d.kind) then Claim(scopes, env.claimed, d.scope, n) else env.claimed))
  }

  /** The walk over `decls` in source order, stopping at the first redeclaration. */
  function Walk(scopes: seq<Scope>, decls: seq<Decl>): (r: Result<Env, CompileError>)
    requires WellFormed(scopes) && DeclsIn(scopes, decls)
    ensures r.Ok? ==> Sized(scopes, r.value)
    decreases |decls|
  {
    if decls == [] then Ok(EmptyEnv(|scopes|))
    else
      match Walk(scopes, decls[..|decls| - 1])
      case Err(e) => Err(e)
      case Ok(env) => Register(scopes, env, decls[|decls| - 1])
  }

  /** The binding tables of the declarations, or the first redeclaration. */
  function Build(scopes: seq<Scope>, decls: seq<Decl>): (r: Result<seq<Table>, CompileError>)
    requires WellFormed(scopes) && DeclsIn(scopes, decls)
    ensures r.Ok? ==> |r.value| == |scopes|
  {
    match Walk(scopes, decls)
    case Err(e) => Err(e)
    case Ok(env) => Ok(env.tables)
  }

  /** Both bind `a`'s name in one table, and one of them is lexical. */
  predicate SameTable(scopes: seq<Scope>, a: Decl, b: Decl)
    requires WellFormed(scopes) && a.scope < |scopes| && b.scope < |scopes|
  {
    DeclScope(scopes, a) == DeclScope(scopes, b) && (Lexical(a.kind) || Lexical(b.kind))
  }

  /** `a` is a `var` or function declaration passing through the scope of the lexical `b`. */
  predicate PassesLexical(scopes: seq<Scope>, a: Decl, b: Decl)
    requires WellFormed(scopes) && a.scope < |scopes| && b.scope < |scopes|
  {
    VarLike(a.kind) && Lexical(b.kind) && InSpan(scopes, a.scope, b.scope)
  }

  /**
   * Two declarations of one name that may not both appear: in one table
   * with one of them lexical, or a `var` passing through the scope of a
   * lexical binding. A function expression's own name clashes with nothing.
   */
  predicate Clash(scopes: seq<Scope>, a: Decl, b: Decl)
    requires WellFormed(scopes) && a.scope < |scopes| && b.scope < |scopes|
  {
    && a.name == b.name && a.kind != SelfName && b.kind != SelfName
    && (SameTable(scopes, a, b) || PassesLexical(scopes, a, b) || PassesLexical(scopes, b, a))
  }

  ghost predicate HasDuplicate(scopes: seq<Scope>, decls: seq<Decl>)
    requires WellFormed(scopes) && DeclsIn(scopes, decls)
  {
    exists i, j :: 0 <= i < j < |decls| && Clash(scopes, decls[i], decls[j])
  }

  /** Some declaration in `decls` puts `n` into the table of scope `u`. */
  ghost predicate Declares(scopes: seq<Scope>, decls: seq<Decl>, u: nat, n: string)
    requires WellFormed(scopes) && DeclsIn(scopes, decls)
  {
    exists i :: 0 <= i < |decls| && decls[i].name == n && DeclScope(scopes, decls[i]) == u
  }

  ghost predicate DeclaresLexical(scopes: seq<Scope>, decls: seq<Decl>, u: nat, n: string)
    requires WellFormed(scopes) && DeclsIn(scopes, decls)
  {
    exists i :: 0 <= i < |decls| && decls[i].name == n && DeclScope(scopes, decls[i]) == u && Lexical(decls[i].kind)
  }

  /** Some declaration other than a function expression's own name puts `n` into the table of `u`. */
  ghost predicate DeclaresOther(scopes: seq<Scope>, decls: seq<Decl>, u: nat, n: string)
    requires WellFormed(scopes) && DeclsIn(scopes, decls)
  {
    exists i :: 0 <= i < |decls| && decls[i].name == n && DeclScope(scopes, decls[i]) == u && decls[i].kind != SelfName
  }

  /** Some `var` or function declaration of `n` has `u` in its span. */
  ghost predicate ClaimsVar(scopes: seq<Scope>, decls: seq<Decl>, u: nat, n: string)
    requires WellFormed(scopes) && DeclsIn(scopes, decls)
  {
    exists i :: 0 <= i < |decls| && decls[i].name == n && VarLike(decls[i].kind) && InSpan(scopes, decls[i].scope, u)
  }

  /**
   * The walk's state agrees with the declarations: the tables bind exactly
   * the declared names; a binding is lexical iff a lexical declaration made
   * it, and is a function expression's own name iff nothing else declares
   * the name there; a scope's claimed names are those of the `var`s whose
   * span holds it.
   */
  ghost predicate EnvMatches(scopes: seq<Scope>, decls: seq<Decl>, env: Env)
    requires WellFormed(scopes) && DeclsIn(scopes, decls)
  {
    && Sized(scopes, env)
    && forall u, n :: 0 <= u < |scopes| ==>
         TableMatchesAt(scopes, decls, env, u, n) && ClaimsMatchAt(scopes, decls, env, u, n)
  }

  /** Against a state that matches `pre`, the own-table test fires iff `d` clashes in one table with some declaration of `pre`. */
  lemma SameTableRefused(scopes: seq<Scope>, pre: seq<Decl>, env: Env, d: Decl)
    requires WellFormed(scopes) && DeclsIn(scopes, pre) && d.scope < |scopes| && d.kind != SelfName
    requires EnvMatches(scopes, pre, env)
    ensures var t, n := DeclScope(scopes, d), d.name;
      (n in env.tables[t] && env.tables[t][n] != SelfName && (Lexical(d.kind) || Lexical(env.tables[t][n])))
      <==> exists i :: 0 <= i < |pre| && pre[i].name == n && pre[i].kind != SelfName && SameTable(scopes, pre[i], d)
  {
    var t, n := DeclScope(scopes, d), d.name;
    assert TableMatchesAt(scopes, pre, env, t, n);
    if n in env.tables[t] && env.tables[t][n] != SelfName && (Lexical(d.kind) || Lexical(env.tables[t][n])) {
      if Lexical(d.kind) {
        assert DeclaresOther(scopes, pre, t, n);
        var i :| 0 <= i < |pre| && pre[i].name == n && DeclScope(scopes, pre[i]) == t && pre[i].kind != SelfName;
        assert SameTable(scopes, pre[i], d);
      } else {
        assert DeclaresLexical(scopes, pre, t, n);
        var i :| 0 <= i < |pre| && pre[i].name == n && DeclScope(scopes, pre[i]) == t && Lexical(pre[i].kind);
        assert SameTable(scopes, pre[i], d);
      }
    }
    if exists i :: 0 <= i < |pre| && pre[i].name == n && pre[i].kind != SelfName && SameTable(scopes, pre[i], d) {
      var i :| 0 <= i < |pre| && pre[i].name == n && pre[i].kind != SelfName && SameTable(scopes, pre[i], d);
      assert Declares(scopes, pre, t, n) && DeclaresOther(scopes, pre, t, n);
      if Lexical(pre[i].kind) {
        assert DeclaresLexical(scopes, pre, t, n);
      }
    }
  }

  /** Against a state that matches `pre`, the claimed-name test fires iff some `var` of `pre` passes through the lexical `d`'s scope. */
  lemma ClaimedRefused(scopes: seq<Scope>, pre: seq<Decl>, env: Env, d: Decl)
    requires WellFormed(scopes) && DeclsIn(scopes, pre) && d.scope < |scopes|
    requires EnvMatches(scopes, pre, env)
    ensures (Lexical(d.kind) && d.name in env.claimed[DeclScope(scopes, d)])
      <==> exists i :: 0 <= i < |pre| && pre[i].name == d.name && PassesLexical(scopes, pre[i], d)
  {
    assert ClaimsMatchAt(scopes, pre, env, d.scope, d.name);
    if Lexical(d.kind) && d.name in env.claimed[d.scope] {
      assert ClaimsVar(scopes, pre, d.scope, d.name);
    }
    if exists i :: 0 <= i < |pre| && pre[i].name == d.name && PassesLexical(scopes, pre[i], d) {
      assert ClaimsVar(scopes, pre, d.scope, d.name);
    }
  }

  /** Against a state that matches `pre`, the span test fires iff the `var` `d` passes through the scope of some lexical declaration of `pre`. */
  lemma SpanRefused(scopes: seq<Scope>, pre: seq<Decl>, env: Env, d: Decl)
    requires WellFormed(scopes) && DeclsIn(scopes, pre) && d.scope < |scopes|
    requires EnvMatches(scopes, pre, env)
    ensures (VarLike(d.kind) && LexicalOnSpan(scopes, env.tables, d.scope, d.name))
      <==> exists i :: 0 <= i < |pre| && pre[i].name == d.name && PassesLexical(scopes, d, pre[i])
  {
    var n := d.name;
    LexicalOnSpanMeans(scopes, env.tables, d.scope, n);
    if VarLike(d.kind) && LexicalOnSpan(scopes, env.tables, d.scope, n) {
      var u :| 0 <= u < |scopes| && InSpan(scopes, d.scope, u) && n in env.tables[u] && Lexical(env.tables[u][n]);
      LexicalBindingDeclared(scopes, pre, env, u, n);
    }
    LexicalDeclsBound(scopes, pre, env);
  }

  /** In a matching state every lexical declaration has its binding, lexical, in its own scope. */
  lemma LexicalDeclsBound(scopes: seq<Scope>, pre: seq<Decl>, env: Env)
    requires WellFormed(scopes) && DeclsIn(scopes, pre)
    requires EnvMatches(scopes, pre, env)
    ensures forall i :: 0 <= i < |pre| && Lexical(pre[i].kind) ==>
      pre[i].name in env.tables[pre[i].scope] && Lexical(env.tables[pre[i].scope][pre[i].name])
  {
    forall i | 0 <= i < |pre| && Lexical(pre[i].kind)
      ensures pre[i].name in env.tables[pre[i].scope] && Lexical(env.tables[pre[i].scope][pre[i].name])
    {
      assert DeclaresLexical(scopes, pre, pre[i].scope, pre[i].name);
      assert TableMatchesAt(scopes, pre, env, pre[i].scope, pre[i].name);
    }
  }

  /** A lexical binding in a matching state comes from a lexical declaration written in that scope. */
  lemma LexicalBindingDeclared(scopes: seq<Scope>, pre: seq<Decl>, env: Env, u: nat, n: string)
    requires WellFormed(scopes) && DeclsIn(scopes, pre) && u < |scopes|
    requires EnvMatches(scopes, pre, env)
    requires n in env.tables[u] && Lexical(env.tables[u][n])
    ensures exists i :: 0 <= i < |pre| && pre[i].name == n && pre[i].scope == u && Lexical(pre[i].kind)
  {
    assert TableMatchesAt(scopes, pre, env, u, n);
    var i :| 0 <= i < |pre| && pre[i].name == n && DeclScope(scopes, pre[i]) == u && Lexical(pre[i].kind);
  }

  /** Against a state that matches `pre`, a new declaration is refused iff it clashes with one in `pre`. */
  lemma RegisterRefusesClash(scopes: seq<Scope>, pre: seq<Decl>, env: Env, d: Decl)
    requires WellFormed(scopes) && DeclsIn(scopes, pre) && d.scope < |scopes|
    requires EnvMatches(scopes, pre, env)
    ensures Register(scopes, env, d).Err? <==> exists i :: 0 <= i < |pre| && Clash(scopes, pre[i], d)
  {
    if d.kind != SelfName {
      SameTableRefused(scopes, pre, env, d);
      ClaimedRefused(scopes, pre, env, d);
      SpanRefused(scopes, pre, env, d);
      if exists i :: 0 <= i < |pre| && Clash(scopes, pre[i], d) {
        var i :| 0 <= i < |pre| && Clash(scopes, pre[i], d);
        assert SameTable(scopes, pre[i], d) || PassesLexical(scopes, pre[i], d) || PassesLexical(scopes, d, pre[i]);
      }
    }
  }

  /** How each of the four facts about `pre + [d]` follows from the same fact about `pre` and `d` alone. */
  lemma SnocFacts(scopes: seq<Scope>, pre: seq<Decl>, d: Decl, u: nat, m: string)
    requires WellFormed(scopes) && DeclsIn(scopes, pre) && d.scope < |scopes|
    ensures DeclsIn(scopes, pre + [d])
    ensures Declares(scopes, pre + [d], u, m) <==>
      Declares(scopes, pre, u, m) || (d.name == m && DeclScope(scopes, d) == u)
    ensures DeclaresLexical(scopes, pre + [d], u, m) <==>
      DeclaresLexical(scopes, pre, u, m) || (d.name == m && DeclScope(scopes, d) == u && Lexical(d.kind))
    ensures DeclaresOther(scopes, pre + [d], u, m) <==>
      DeclaresOther(scopes, pre, u, m) || (d.name == m && DeclScope(scopes, d) == u && d.kind != SelfName)
    ensures ClaimsVar(scopes, pre + [d], u, m) <==>
      ClaimsVar(scopes, pre, u, m) || (d.name == m && VarLike(d.kind) && InSpan(scopes, d.scope, u))
  {
    SnocDeclares(scopes, pre, d, u, m);
    SnocClaims(scopes, pre, d, u, m);
  }

  lemma SnocDeclares(scopes: seq<Scope>, pre: seq<Decl>, d: Decl, u: nat, m: string)
    requires WellFormed(scopes) && DeclsIn(scopes, pre) && d.scope < |scopes|
    ensures DeclsIn(scopes, pre + [d])
    ensures Declares(scopes, pre + [d], u, m) <==>
      Declares(scopes, pre, u, m) || (d.name == m && DeclScope(scopes, d) == u)
    ensures DeclaresLexical(scopes, pre + [d], u, m) <==>
      DeclaresLexical(scopes, pre, u, m) || (d.name == m && DeclScope(scopes, d) == u && Lexical(d.kind))
    ensures DeclaresOther(scopes, pre + [d], u, m) <==>
      DeclaresOther(scopes, pre, u, m) || (d.name == m && DeclScope(scopes, d) == u && d.kind != SelfName)
  {
    var decls := pre + [d];
    assert forall i :: 0 <= i < |pre| ==> decls[i] == pre[i];
    assert decls[|pre|] == d;
  }

  lemma SnocClaims(scopes: seq<Scope>, pre: seq<Decl>, d: Decl, u: nat, m: string)
    requires WellFormed(scopes) && DeclsIn(scopes, pre) && d.scope < |scopes|
    ensures DeclsIn(scopes, pre + [d])
    ensures ClaimsVar(scopes, pre + [d], u, m) <==>
      ClaimsVar(scopes, pre, u, m) || (d.name == m && VarLike(d.kind) && InSpan(scopes, d.scope, u))
  {
    var decls := pre + [d];
    assert forall i :: 0 <= i < |pre| ==> decls[i] == pre[i];
    assert decls[|pre|] == d;
  }

  /** Registering a declaration that clashes with nothing keeps the state matching. */
  lemma RegisterKeepsMatch(scopes: seq<Scope>, pre: seq<Decl>, env: Env, d: Decl)
    requires WellFormed(scopes) && DeclsIn(scopes, pre) && d.scope < |scopes|
    requires EnvMatches(scopes, pre, env)
    requires forall i :: 0 <= i < |pre| ==> !Clash(scopes, pre[i], d)
    ensures Register(scopes, env, d).Ok?
    ensures DeclsIn(scopes, pre + [d]) && EnvMatches(scopes, pre + [d], Register(scopes, env, d).value)
  {
    RegisterRefusesClash(scopes, pre, env, d);
    SnocFacts(scopes, pre, d, 0, d.name);
    forall u, m | 0 <= u < |scopes|
      ensures TableMatchesAt(scopes, pre + [d], Register(scopes, env, d).value, u, m)
      ensures ClaimsMatchAt(scopes, pre + [d], Register(scopes, env, d).value, u, m)
    {
      TableStaysMatched(scopes, pre, env, d, u, m);
      ClaimsStayMatched(scopes, pre, env, d, u, m);
    }
  }

  ghost predicate TableMatchesAt(scopes: seq<Scope>, decls: seq<Decl>, env: Env, u: nat, m: string)
    requires WellFormed(scopes) && DeclsIn(scopes, decls) && Sized(scopes, env) && u < |scopes|
  {
    && (m in env.tables[u] <==> Declares(scopes, decls, u, m))
    && (m in env.tables[u] ==> (Lexical(env.tables[u][m]) <==> DeclaresLexical(scopes, decls, u, m)))
    && (m in env.tables[u] ==> (env.tables[u][m] == SelfName <==> !DeclaresOther(scopes, decls, u, m)))
  }

  ghost predicate ClaimsMatchAt(scopes: seq<Scope>, decls: seq<Decl>, env: Env, u: nat, m: string)
    requires WellFormed(scopes) && DeclsIn(scopes, decls) && Sized(scopes, env) && u < |scopes|
  {
    m in env.claimed[u] <==> ClaimsVar(scopes, decls, u, m)
  }

  /** After registering `d`, the table of `u` agrees with `pre + [d]` on name `m`. */
  lemma TableStaysMatched(scopes: seq<Scope>, pre: seq<Decl>, env: Env, d: Decl, u: nat, m: string)
    requires WellFormed(scopes) && DeclsIn(scopes, pre) && d.scope < |scopes| && u < |scopes|
    requires EnvMatches(scopes, pre, env)
    requires forall i :: 0 <= i < |pre| ==> !Clash(scopes, pre[i], d)
    requires Register(scopes, env, d).Ok?
    ensures DeclsIn(scopes, pre + [d])
    ensures TableMatchesAt(scopes, pre + [d], Register(scopes, env, d).value, u, m)
  {
    SnocFacts(scopes, pre, d, u, m);
    assert TableMatchesAt(scopes, pre, env, u, m);
    if u == DeclScope(scopes, d) && m == d.name {
      NewBindingMatches(scopes, pre, env, d);
    } else {
      RegisterKeepsOtherEntries(scopes, env, d, u, m);
    }
  }

  /** Registering `d` leaves every other table entry as it was. */
  lemma RegisterKeepsOtherEntries(scopes: seq<Scope>, env: Env, d: Decl, u: nat, m: string)
    requires WellFormed(scopes) && Sized(scopes, env) && d.scope < |scopes| && u < |scopes|
    requires Register(scopes, env, d).Ok? && (u != DeclScope(scopes, d) || m != d.name)
    ensures var env' := Register(scopes, env, d).value;
            && (m in env'.tables[u] <==> m in env.tables[u])
            && (m in env.tables[u] ==> env'.tables[u][m] == env.tables[u][m])
  {
  }

  /** After registering `d`, the claims of `u` agree with `pre + [d]` on name `m`. */
  lemma ClaimsStayMatched(scopes: seq<Scope>, pre: seq<Decl>, env: Env, d: Decl, u: nat, m: string)
    requires WellFormed(scopes) && DeclsIn(scopes, pre) && d.scope < |scopes| && u < |scopes|
    requires EnvMatches(scopes, pre, env)
    requires Register(scopes, env, d).Ok?
    ensures DeclsIn(scopes, pre + [d])
    ensures ClaimsMatchAt(scopes, pre + [d], Register(scopes, env, d).value, u, m)
  {
    SnocFacts(scopes, pre, d, u, m);
    assert ClaimsMatchAt(scopes, pre, env, u, m);
    RegisterClaims(scopes, env, d, u);
  }

  /** Registering a `var` or function declaration claims its name across its span, and nothing else. */
  lemma RegisterClaims(scopes: seq<Scope>, env: Env, d: Decl, u: nat)
    requires WellFormed(scopes) && Sized(scopes, env) && d.scope < |scopes| && u < |scopes|
    requires Register(scopes, env, d).Ok?
    ensures Register(scopes, env, d).value.claimed[u] ==
            if VarLike(d.kind) && InSpan(scopes, d.scope, u) then env.claimed[u] + {d.name} else env.claimed[u]
  {
  }

  /** The binding `d` leaves in its own table agrees with `pre + [d]`. */
  lemma NewBindingMatches(scopes: seq<Scope>, pre: seq<Decl>, env: Env, d: Decl)
    requires WellFormed(scopes) && DeclsIn(scopes, pre) && d.scope < |scopes|
    requires EnvMatches(scopes, pre, env)
    requires forall i :: 0 <= i < |pre| ==> !Clash(scopes, pre[i], d)
    requires Register(scopes, env, d).Ok?
    ensures var t, n, env' := DeclScope(scopes, d), d.name, Register(scopes, env, d).value;
      && n in env'.tables[t]
      && (Lexical(env'.tables[t][n]) <==> DeclaresLexical(scopes, pre, t, n) || Lexical(d.kind))
      && (env'.tables[t][n] == SelfName <==> !DeclaresOther(scopes, pre, t, n) && d.kind == SelfName)
  {
    var t, n := DeclScope(scopes, d), d.name;
    assert TableMatchesAt(scopes, pre, env, t, n);
    if d.kind == SelfName && n !in env.tables[t] {
      assert !Declares(scopes, pre, t, n);
      assert !DeclaresLexical(scopes, pre, t, n) && !DeclaresOther(scopes, pre, t, n);
    }
  }

  /**
   * Duplicate detection is exact: the walk fails iff two declarations clash,
   * the error names the later of a clashing pair, and on success its state
   * agrees with the declarations.
   */
  ghost predicate BuildExact(scopes: seq<Scope>, decls: seq<Decl>)
    requires WellFormed(scopes) && DeclsIn(scopes, decls)
  {
    && (Walk(scopes, decls).Ok? <==> !HasDuplicate(scopes, decls))
    && (Walk(scopes, decls).Ok? ==> EnvMatches(scopes, decls, Walk(scopes, decls).value))
    && (Walk(scopes, decls).Err? ==>
          exists i, j :: 0 <= i < j < |decls| && Clash(scopes, decls[i], decls[j])
                         && Walk(scopes, decls).error == DuplicateDeclaration(decls[j].name))
  }

  lemma {:induction false} BuildCorrect(scopes: seq<Scope>, decls: seq<Decl>)
    requires WellFormed(scopes) && DeclsIn(scopes, decls)
    ensures Build(scopes, decls).Ok? <==> !HasDuplicate(scopes, decls)
    ensures Walk(scopes, decls).Ok? ==>
      EnvMatches(scopes, decls, Walk(scopes, decls).value) && Build(scopes, decls).value == Walk(scopes, decls).value.tables
    ensures Build(scopes, decls).Err? ==>
      exists i, j :: 0 <= i < j < |decls| && Clash(scopes, decls[i], decls[j])
                     && Build(scopes, decls).error == DuplicateDeclaration(decls[j].name)
    ensures Build(scopes, decls).Err? ==>
      exists j :: 0 <= j < |decls| && Redeclares(scopes, decls, j)
                  && Build(scopes, decls).error == DuplicateDeclaration(decls[j].name)
                  && forall k :: 0 <= k < j ==> !Redeclares(scopes, decls, k)
    decreases |decls|
  {
    BuildExactAll(scopes, decls);
    FirstRedeclaration(scopes, decls);
  }

  /** Declaration `j` clashes with a declaration before it. */
  ghost predicate Redeclares(scopes: seq<Scope>, decls: seq<Decl>, j: nat)
    requires WellFormed(scopes) && DeclsIn(scopes, decls)
  {
    j < |decls| && exists i :: 0 <= i < j && Clash(scopes, decls[i], decls[j])
  }

  /** A refused list is refused at its first redeclaration, in source order. */
  lemma {:induction false} FirstRedeclaration(scopes: seq<Scope>, decls: seq<Decl>)
    requires WellFormed(scopes) && DeclsIn(scopes, decls)
    ensures Walk(scopes, decls).Err? ==>
      exists j :: 0 <= j < |decls| && Redeclares(scopes, decls, j)
                  && Walk(scopes, decls).error == DuplicateDeclaration(decls[j].name)
                  && forall k :: 0 <= k < j ==> !Redeclares(scopes, decls, k)
    decreases |decls|
  {
    if decls != [] {
      var n := |decls| - 1;
      var pre := decls[..n];
      assert DeclsIn(scopes, pre);
      if Walk(scopes, pre).Err? {
        FirstRedeclaration(scopes, pre);
        var j :| 0 <= j < n && Redeclares(scopes, pre, j)
                 && Walk(scopes, pre).error == DuplicateDeclaration(pre[j].name)
                 && forall k :: 0 <= k < j ==> !Redeclares(scopes, pre, k);
        RedeclaresPrefix(scopes, decls, n);
      } else {
        RefusedAtLast(scopes, decls);
      }
    }
  }

  /** Below the cut, redeclaring in a list and in its prefix agree. */
  lemma RedeclaresPrefix(scopes: seq<Scope>, decls: seq<Decl>, n: nat)
    requires WellFormed(scopes) && DeclsIn(scopes, decls) && n <= |decls|
    ensures DeclsIn(scopes, decls[..n])
    ensures forall k :: 0 <= k < n ==> (Redeclares(scopes, decls[..n], k) <==> Redeclares(scopes, decls, k))
  {
    assert DeclsIn(scopes, decls[..n]);
    forall k | 0 <= k < n
      ensures Redeclares(scopes, decls[..n], k) <==> Redeclares(scopes, decls, k)
    {
      assert forall x :: 0 <= x <= k ==> decls[..n][x] == decls[x];
    }
  }

  /** A list whose prefix is accepted is refused, if at all, at its last declaration. */
  lemma RefusedAtLast(scopes: seq<Scope>, decls: seq<Decl>)
    requires WellFormed(scopes) && DeclsIn(scopes, decls) && decls != []
    requires DeclsIn(scopes, decls[..|decls| - 1]) && Walk(scopes, decls[..|decls| - 1]).Ok?
    ensures Walk(scopes, decls).Err? ==>
      Redeclares(scopes, decls, |decls| - 1)
      && Walk(scopes, decls).error == DuplicateDeclaration(decls[|decls| - 1].name)
      && forall k :: 0 <= k < |decls| - 1 ==> !Redeclares(scopes, decls, k)
  {
    var n := |decls| - 1;
    var pre := decls[..n];
    BuildExactAll(scopes, pre);
    RegisterRefusesClash(scopes, pre, Walk(scopes, pre).value, decls[n]);
    RedeclaresPrefix(scopes, decls, n);
    if Walk(scopes, decls).Err? {
      forall k | 0 <= k < n ensures !Redeclares(scopes, pre, k) {
      }
      var i :| 0 <= i < n && Clash(scopes, pre[i], decls[n]);
      assert decls[i] == pre[i];
    }
  }

  lemma {:induction false} BuildExactAll(scopes: seq<Scope>, decls: seq<Decl>)
    requires WellFormed(scopes) && DeclsIn(scopes, decls)
    ensures BuildExact(scopes, decls)
    decreases |decls|
  {
    if decls != [] {
      var n := |decls| - 1;
      assert DeclsIn(scopes, decls[..n]);
      BuildExactAll(scopes, decls[..n]);
      BuildStep(scopes, decls[..n], decls[n]);
      assert decls == decls[..n] + [decls[n]];
    }
  }

  /** Exactness carries over from a list to the list with one more declaration. */
  lemma BuildStep(scopes: seq<Scope>, pre: seq<Decl>, d: Decl)
    requires WellFormed(scopes) && DeclsIn(scopes, pre) && d.scope < |scopes|
    requires BuildExact(scopes, pre)
    ensures DeclsIn(scopes, pre + [d]) && BuildExact(scopes, pre + [d])
  {
    assert (pre + [d])[..|pre|] == pre;
    if Walk(scopes, pre).Err? {
      BuildStepAfterErr(scopes, pre, d);
    } else {
      BuildStepAfterOk(scopes, pre, d);
    }
  }

  /** After a refused prefix: the same error, and the clashing pair is still there. */
  lemma BuildStepAfterErr(scopes: seq<Scope>, pre: seq<Decl>, d: Decl)
    requires WellFormed(scopes) && DeclsIn(scopes, pre) && d.scope < |scopes|
    requires BuildExact(scopes, pre) && Walk(scopes, pre).Err?
    requires (pre + [d])[..|pre|] == pre
    ensures DeclsIn(scopes, pre + [d]) && BuildExact(scopes, pre + [d])
  {
    var decls := pre + [d];
    var e := Walk(scopes, pre).error;
    var i, j :| 0 <= i < j < |pre| && Clash(scopes, pre[i], pre[j]) && e == DuplicateDeclaration(pre[j].name);
    assert decls[i] == pre[i] && decls[j] == pre[j];
  }

  /** After an accepted prefix: the new declaration is refused iff it clashes with an earlier one. */
  lemma BuildStepAfterOk(scopes: seq<Scope>, pre: seq<Decl>, d: Decl)
    requires WellFormed(scopes) && DeclsIn(scopes, pre) && d.scope < |scopes|
    requires BuildExact(scopes, pre) && Walk(scopes, pre).Ok?
    requires (pre + [d])[..|pre|] == pre
    ensures DeclsIn(scopes, pre + [d]) && BuildExact(scopes, pre + [d])
  {
    var decls := pre + [d];
    var n := |pre|;
    var env := Walk(scopes, pre).value;
    RegisterRefusesClash(scopes, pre, env, d);
    if Register(scopes, env, d).Err? {
      var i :| 0 <= i < |pre| && Clash(scopes, pre[i], d);
      assert decls[i] == pre[i] && decls[n] == d;
    } else {
      NoClashExtends(scopes, pre, d);
      RegisterKeepsMatch(scopes, pre, env, d);
    }
  }

  /** A clash-free list stays clash-free when a declaration that clashes with none of it is appended. */
  lemma NoClashExtends(scopes: seq<Scope>, pre: seq<Decl>, d: Decl)
    requires WellFormed(scopes) && DeclsIn(scopes, pre) && d.scope < |scopes| && DeclsIn(scopes, pre + [d])
    requires !HasDuplicate(scopes, pre)
    requires forall i :: 0 <= i < |pre| ==> !Clash(scopes, pre[i], d)
    ensures !HasDuplicate(scopes, pre + [d])
  {
    var decls := pre + [d];
    forall i, j | 0 <= i < j < |decls| ensures !Clash(scopes, decls[i], decls[j]) {
      if j < |pre| {
        assert !Clash(scopes, pre[i], pre[j]);
      } else {
        assert !Clash(scopes, pre[i], d);
      }
    }
  }

  /** Once a prefix of the declarations is refused, so is the whole list, with the same error. */
  lemma {:induction false} BuildErrPersists(scopes: seq<Scope>, decls: seq<Decl>, k: nat)
    requires WellFormed(scopes) && DeclsIn(scopes, decls) && k <= |decls|
    requires Walk(scopes, decls[..k]).Err?
    ensures Walk(scopes, decls) == Walk(scopes, decls[..k])
    decreases |decls| - k
  {
    if k < |decls| {
      var n := |decls| - 1;
      assert decls[..n][..k] == decls[..k];
      assert DeclsIn(scopes, decls[..n]);
      BuildErrPersists(scopes, decls[..n], k);
    } else {
      assert decls[..k] == decls;
    }
  }
}
