/**
 * The scope arena: scopes indexed by `nat`, each with a kind and a parent
 * handle, and per-scope binding tables mapping names to declaration kinds.
 * Scopes are numbered in the order their opening construct appears in the
 * source (a pre-order walk), so a parent always has a smaller index than
 * its children and index 0 is the global scope.
 */
module Scopes {
  import opened Wrappers

  datatype ScopeKind = Global | Function | Block

  /**
   * How a name came to be bound in a scope. `SelfName` is the own name of a
   * named function or class expression, bound only inside its own body.
   */
  datatype DeclKind =
    | Var | Let | Const | FunctionDecl | ClassDecl | Param | Import | CatchParam | SelfName

  datatype Scope = Scope(kind: ScopeKind, parent: Option<nat>)

  /** Names bound in one scope, with the kind of their binding. */
  type Table = map<string, DeclKind>

  /** Only Global is parentless; every other scope points to an earlier one. */
  predicate WellFormed(scopes: seq<Scope>)
  {
    && 0 < |scopes|
    && scopes[0] == Scope(Global, None)
    && forall i :: 0 < i < |scopes| ==>
         scopes[i].kind != Global && scopes[i].parent.Some? && scopes[i].parent.value < i
  }

  /** The scope chain from `s` out to the global scope, innermost first. */
  function Chain(scopes: seq<Scope>, s: nat): (c: seq<nat>)
    requires WellFormed(scopes) && s < |scopes|
    ensures 0 < |c| && c[0] == s && c[|c| - 1] == 0
    ensures forall i :: 0 <= i < |c| ==> c[i] < |scopes|
    ensures forall i, j :: 0 <= i < j < |c| ==> c[j] < c[i]
    ensures forall i :: 0 <= i < |c| - 1 ==> scopes[c[i]].parent == Some(c[i + 1])
    decreases s
  {
    if s == 0 then [0] else [s] + Chain(scopes, scopes[s].parent.value)
  }

  /**
   * The hoist target of scope `s`: the nearest Function or Global scope on
   * its chain. Every scope between `s` and it is a Block.
   */
  function FunctionScope(scopes: seq<Scope>, s: nat): (f: nat)
    requires WellFormed(scopes) && s < |scopes|
    ensures f <= s && scopes[f].kind != Block
    decreases s
  {
    if scopes[s].kind != Block then s else FunctionScope(scopes, scopes[s].parent.value)
  }

  /** The hoist target lies on the chain, and every scope on the chain below it is a Block. */
  lemma {:induction false} FunctionScopeNearest(scopes: seq<Scope>, s: nat)
    requires WellFormed(scopes) && s < |scopes|
    ensures FunctionScope(scopes, s) in Chain(scopes, s)
    ensures forall u :: u in Chain(scopes, s) && FunctionScope(scopes, s) < u ==> scopes[u].kind == Block
    decreases s
  {
    if scopes[s].kind == Block {
      FunctionScopeNearest(scopes, scopes[s].parent.value);
    }
  }

  /**
   * The scopes a `var` written in `s` passes through on its way to its
   * hoist target: `s` itself, and its parents as long as they are blocks.
   */
  predicate InSpan(scopes: seq<Scope>, s: nat, u: nat)
    requires WellFormed(scopes) && s < |scopes|
    ensures InSpan(scopes, s, u) ==> u <= s
    decreases s
  {
    u == s || (scopes[s].kind == Block && InSpan(scopes, scopes[s].parent.value, u))
  }

  /** The span is the part of the chain from `s` out to the hoist target, both ends included. */
  lemma {:induction false} SpanIsChainPrefix(scopes: seq<Scope>, s: nat, u: nat)
    requires WellFormed(scopes) && s < |scopes|
    ensures InSpan(scopes, s, u) <==> u in Chain(scopes, s) && FunctionScope(scopes, s) <= u
    decreases s
  {
    if scopes[s].kind == Block {
      SpanIsChainPrefix(scopes, scopes[s].parent.value, u);
    } else if u in Chain(scopes, s) && u != s {
      assert u < s;
    }
  }

  /**
   * Name resolution: the nearest scope on the chain of `s` whose table binds
   * `name`, or None when the name is free (a global reference).
   */
  function Resolve(scopes: seq<Scope>, tables: seq<Table>, s: nat, name: string): (r: Option<nat>)
    requires WellFormed(scopes) && |tables| == |scopes| && s < |scopes|
    ensures r.Some? ==> r.value <= s && name in tables[r.value]
    decreases s
  {
    if name in tables[s] then Some(s)
    else if s == 0 then None
    else Resolve(scopes, tables, scopes[s].parent.value, name)
  }

  /**
   * Resolution finds the innermost binding: the scope found is on the chain
   * and binds the name, no scope below it on the chain does, and a free name
   * is bound nowhere on the chain.
   */
  lemma {:induction false} ResolveNearest(scopes: seq<Scope>, tables: seq<Table>, s: nat, name: string)
    requires WellFormed(scopes) && |tables| == |scopes| && s < |scopes|
    ensures var r := Resolve(scopes, tables, s, name);
            && (r.Some? ==> r.value in Chain(scopes, s)
                            && forall u :: u in Chain(scopes, s) && r.value < u ==> name !in tables[u])
            && (r.None? ==> forall u :: u in Chain(scopes, s) ==> name !in tables[u])
    decreases s
  {
    if name !in tables[s] && s != 0 {
      ResolveNearest(scopes, tables, scopes[s].parent.value, name);
    }
  }

  /**
   * A reference to `name` written in scope `s` passes through scope `f`:
   * `f` is on the chain of `s` and the reference resolves outside `f` (or
   * nowhere). Such a name counts as referenced in `f`.
   */
  predicate PassesThrough(scopes: seq<Scope>, tables: seq<Table>, s: nat, name: string, f: nat)
    requires WellFormed(scopes) && |tables| == |scopes| && s < |scopes|
  {
    && f in Chain(scopes, s)
    && match Resolve(scopes, tables, s, name)
       case None => true
       case Some(t) => t < f
  }
}
