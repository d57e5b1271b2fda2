/**
 * The conflict renamer, as specification functions: the order in which
 * hoisted bindings are processed, the names occupied in a hoist target, one
 * renaming step, and the state after all steps; with the lemmas that the
 * chosen names never collide.
 */
module Renamer {
  import opened Scopes
  import opened Syntax
  import opened Names

  /**
   * `chosen` maps a hoisted binding (its name and the block declaring it)
   * to the name it is declared under; `aliases[f]` holds every name chosen
   * so far for bindings hoisted into scope `f`.
   */
  datatype RenameState = RenameState(chosen: map<(string, nat), string>, aliases: seq<set<string>>)

  function InitialState(n: nat): (st: RenameState)
    ensures st.chosen == map[] && |st.aliases| == n
    ensures forall f :: 0 <= f < n ==> st.aliases[f] == {}
  {
    RenameState(map[], seq(n, _ => {}))
  }

  predicate TablesFor(p: Program, tables: seq<Table>)
  {
    Valid(p) && |tables| == |p.scopes|
  }

  /** Occurrence `o` is a reference written inside `f` that resolves outside it, or nowhere. */
  predicate ReferencesThrough(p: Program, tables: seq<Table>, o: Occurrence, f: nat)
    requires TablesFor(p, tables)
  {
    IsReference(o) && o.scope < |p.scopes| && PassesThrough(p.scopes, tables, o.scope, o.name, f)
  }

  /** Names of the occurrences among `occs` that reference through `f`. */
  function ReferencedIn(p: Program, tables: seq<Table>, f: nat, occs: seq<Occurrence>): set<string>
    requires TablesFor(p, tables)
    decreases |occs|
  {
    if occs == [] then {}
    else
      var o := occs[|occs| - 1];
      ReferencedIn(p, tables, f, occs[..|occs| - 1]) + (if ReferencesThrough(p, tables, o, f) then {o.name} else {})
  }

  /** Names referenced inside `f` that resolve outside it, or nowhere. */
  function Referenced(p: Program, tables: seq<Table>, f: nat): set<string>
    requires TablesFor(p, tables)
  {
    ReferencedIn(p, tables, f, p.occs)
  }

  /** A name is referenced through `f` exactly when some occurrence of it references through `f`. */
  lemma {:induction false} ReferencedInMeans(p: Program, tables: seq<Table>, f: nat, occs: seq<Occurrence>, x: string)
    requires TablesFor(p, tables)
    ensures x in ReferencedIn(p, tables, f, occs) <==>
            exists o :: o in occs && o.name == x && ReferencesThrough(p, tables, o, f)
    decreases |occs|
  {
    if occs != [] {
      var pre, o := occs[..|occs| - 1], occs[|occs| - 1];
      assert occs == pre + [o];
      ReferencedInMeans(p, tables, f, pre, x);
    }
  }

  /** Names a hoisted binding may never take in `f`: bound in `f`, or referenced through it. */
  function Fixed(p: Program, tables: seq<Table>, f: nat): set<string>
    requires TablesFor(p, tables) && f < |p.scopes|
  {
    tables[f].Keys + Referenced(p, tables, f)
  }

  function Occupied(p: Program, tables: seq<Table>, st: RenameState, f: nat): set<string>
    requires TablesFor(p, tables) && f < |p.scopes| && |st.aliases| == |p.scopes|
  {
    Fixed(p, tables, f) + st.aliases[f]
  }

  /** Hoist target of declaration `i`. */
  function Target(p: Program, i: nat): (f: nat)
    requires Valid(p) && i < |p.decls|
    ensures f < |p.scopes|
  {
    FunctionScope(p.scopes, p.decls[i].scope)
  }

  function Key(p: Program, i: nat): (string, nat)
    requires i < |p.decls|
  {
    (p.decls[i].name, p.decls[i].scope)
  }

  /** Declaration `i` takes the first free name in its hoist target, which then counts as occupied. */
  function HoistStep(p: Program, tables: seq<Table>, st: RenameState, i: nat): (st': RenameState)
    requires TablesFor(p, tables) && i < |p.decls| && |st.aliases| == |p.scopes|
    ensures |st'.aliases| == |p.scopes|
  {
    var f := Target(p, i);
    Record(st, Key(p, i), f, FirstFree(p.decls[i].name, Occupied(p, tables, st, f)))
  }

  /** Binding `k`, hoisted into `f`, is declared as `n`; `n` now counts as taken in `f`. */
  function Record(st: RenameState, k: (string, nat), f: nat, n: string): (st': RenameState)
    requires f < |st.aliases|
    ensures st'.chosen.Keys == st.chosen.Keys + {k} && st'.chosen[k] == n
    ensures |st'.aliases| == |st.aliases| && st'.aliases[f] == st.aliases[f] + {n}
    ensures forall g :: 0 <= g < |st.aliases| && g != f ==> st'.aliases[g] == st.aliases[g]
    ensures forall k' :: k' in st.chosen && k' != k ==> st'.chosen[k'] == st.chosen[k']
  {
    RenameState(st.chosen[k := n], st.aliases[f := st.aliases[f] + {n}])
  }

  /** Hoisted declarations of block `s` among the first `i` declarations, in source order. */
  function BlockQueue(p: Program, s: nat, i: nat): (q: seq<nat>)
    requires Valid(p) && i <= |p.decls|
    ensures forall a :: 0 <= a < |q| ==> q[a] < i
  {
    if i == 0 then []
    else
      BlockQueue(p, s, i - 1)
      + (if p.decls[i - 1].scope == s && Hoisted(p.scopes, p.decls[i - 1]) then [i - 1] else [])
  }

  /** Hoisted declarations of scopes below `s`, block by block in arena (source) order. */
  function Queue(p: Program, s: nat): (q: seq<nat>)
    requires Valid(p) && s <= |p.scopes|
    ensures InDecls(p, q)
  {
    if s == 0 then [] else Queue(p, s - 1) + BlockQueue(p, s - 1, |p.decls|)
  }

  predicate InDecls(p: Program, q: seq<nat>)
  {
    forall a :: 0 <= a < |q| ==> q[a] < |p.decls|
  }

  /** The state after processing queue `q` in order. */
  function RenameAll(p: Program, tables: seq<Table>, q: seq<nat>): (st: RenameState)
    requires TablesFor(p, tables) && InDecls(p, q)
    ensures |st.aliases| == |p.scopes|
    decreases |q|
  {
    if q == [] then InitialState(|p.scopes|)
    else HoistStep(p, tables, RenameAll(p, tables, q[..|q| - 1]), q[|q| - 1])
  }

  /** Renaming one more binding of a fixed queue is one more step. */
  lemma RenameAllPrefix(p: Program, tables: seq<Table>, q: seq<nat>, k: nat)
    requires TablesFor(p, tables) && InDecls(p, q) && k < |q|
    ensures InDecls(p, q[..k]) && InDecls(p, q[..k + 1])
    ensures RenameAll(p, tables, q[..k + 1]) == HoistStep(p, tables, RenameAll(p, tables, q[..k]), q[k])
  {
    assert q[..k + 1][..k] == q[..k];
  }

  /** One step records a name for its binding and keeps every earlier record's key. */
  lemma HoistStepKeys(p: Program, tables: seq<Table>, st: RenameState, i: nat)
    requires TablesFor(p, tables) && i < |p.decls| && |st.aliases| == |p.scopes|
    ensures HoistStep(p, tables, st, i).chosen.Keys == st.chosen.Keys + {Key(p, i)}
  {
  }

  /**
   * One step keeps the binding's own name when it is free and otherwise
   * takes the first free `name$k`; either way the name was unoccupied.
   */
  lemma HoistStepChoosesFirstFree(p: Program, tables: seq<Table>, st: RenameState, i: nat)
    requires TablesFor(p, tables) && i < |p.decls| && |st.aliases| == |p.scopes|
    ensures IsFirstFree(p.decls[i].name, Occupied(p, tables, st, Target(p, i)), HoistStep(p, tables, st, i).chosen[Key(p, i)])
  {
    var occ := Occupied(p, tables, st, Target(p, i));
    FirstFreeCharacterized(p.decls[i].name, occ, FirstFree(p.decls[i].name, occ));
  }

  /**
   * What renaming guarantees: every chosen name is recorded among its
   * target's aliases, avoids every name bound in or referenced through that
   * target, and no two bindings hoisted into one target share a name.
   */
  ghost predicate Deconflicted(p: Program, tables: seq<Table>, st: RenameState)
    requires TablesFor(p, tables)
  {
    && |st.aliases| == |p.scopes|
    && (forall k :: k in st.chosen ==>
          && k.1 < |p.scopes|
          && st.chosen[k] in st.aliases[FunctionScope(p.scopes, k.1)]
          && st.chosen[k] !in Fixed(p, tables, FunctionScope(p.scopes, k.1)))
    && (forall k1, k2 :: k1 in st.chosen && k2 in st.chosen && k1 != k2
          && k1.1 < |p.scopes| && k2.1 < |p.scopes|
          && FunctionScope(p.scopes, k1.1) == FunctionScope(p.scopes, k2.1)
          ==> st.chosen[k1] != st.chosen[k2])
  }

  /** Recording a name that is neither fixed nor already chosen in the target keeps the renaming deconflicted. */
  lemma RecordDeconflicted(p: Program, tables: seq<Table>, st: RenameState, k: (string, nat), n: string)
    requires TablesFor(p, tables) && Deconflicted(p, tables, st) && k.1 < |p.scopes|
    requires var f := FunctionScope(p.scopes, k.1); n !in Fixed(p, tables, f) && n !in st.aliases[f]
    ensures Deconflicted(p, tables, Record(st, k, FunctionScope(p.scopes, k.1), n))
  {
    var f := FunctionScope(p.scopes, k.1);
    var st' := Record(st, k, f, n);
    forall k1 | k1 in st'.chosen
      ensures k1.1 < |p.scopes|
      ensures st'.chosen[k1] in st'.aliases[FunctionScope(p.scopes, k1.1)]
      ensures st'.chosen[k1] !in Fixed(p, tables, FunctionScope(p.scopes, k1.1))
    {
      if k1 != k {
        var g := FunctionScope(p.scopes, k1.1);
        assert st'.chosen[k1] == st.chosen[k1];
        assert st.chosen[k1] in st.aliases[g];
        assert st.aliases[g] <= st'.aliases[g];
      }
    }
    forall k1, k2 | k1 in st'.chosen && k2 in st'.chosen && k1 != k2
      && k1.1 < |p.scopes| && k2.1 < |p.scopes|
      && FunctionScope(p.scopes, k1.1) == FunctionScope(p.scopes, k2.1)
      ensures st'.chosen[k1] != st'.chosen[k2]
    {
      if k1 == k {
        assert st.chosen[k2] in st.aliases[f];
      } else if k2 == k {
        assert st.chosen[k1] in st.aliases[f];
      }
    }
  }

  lemma HoistStepDeconflicted(p: Program, tables: seq<Table>, st: RenameState, i: nat)
    requires TablesFor(p, tables) && i < |p.decls| && Deconflicted(p, tables, st)
    ensures Deconflicted(p, tables, HoistStep(p, tables, st, i))
  {
    var f := Target(p, i);
    var occ := Occupied(p, tables, st, f);
    var n := FirstFree(p.decls[i].name, occ);
    FirstFreeCharacterized(p.decls[i].name, occ, n);
    assert n !in Fixed(p, tables, f) && n !in st.aliases[f];
    RecordDeconflicted(p, tables, st, Key(p, i), n);
  }

  /** Renaming a whole queue keeps every chosen name clear of collisions. */
  lemma {:induction false} RenameAllDeconflicted(p: Program, tables: seq<Table>, q: seq<nat>)
    requires TablesFor(p, tables) && InDecls(p, q)
    ensures Deconflicted(p, tables, RenameAll(p, tables, q))
    decreases |q|
  {
    if q != [] {
      var q' := q[..|q| - 1];
      RenameAllDeconflicted(p, tables, q');
      HoistStepDeconflicted(p, tables, RenameAll(p, tables, q'), q[|q| - 1]);
    }
  }

  /**
   * The input needs no renaming: no hoisted binding's name is bound in or
   * referenced through its hoist target, and no two bindings hoisted into
   * one target share a name.
   */
  ghost predicate NoCollision(p: Program, tables: seq<Table>, q: seq<nat>)
    requires TablesFor(p, tables) && InDecls(p, q)
  {
    && (forall a :: 0 <= a < |q| ==> p.decls[q[a]].name !in Fixed(p, tables, Target(p, q[a])))
    && (forall a, b :: 0 <= a < b < |q| && Target(p, q[a]) == Target(p, q[b])
          ==> p.decls[q[a]].name != p.decls[q[b]].name)
  }

  /** Aliases recorded in `f` are names of queue entries hoisted into `f`. */
  ghost predicate AliasesFromQueue(p: Program, q: seq<nat>, st: RenameState)
    requires Valid(p) && InDecls(p, q) && |st.aliases| == |p.scopes|
  {
    forall f, n :: 0 <= f < |p.scopes| && n in st.aliases[f] ==>
      exists a :: 0 <= a < |q| && Target(p, q[a]) == f && p.decls[q[a]].name == n
  }

  ghost predicate KeepsOwnNames(st: RenameState)
  {
    forall k :: k in st.chosen ==> st.chosen[k] == k.0
  }

  /** A binding whose own name is free in its hoist target keeps it. */
  lemma HoistStepKeepsFreeName(p: Program, tables: seq<Table>, st: RenameState, i: nat)
    requires TablesFor(p, tables) && i < |p.decls| && |st.aliases| == |p.scopes|
    requires p.decls[i].name !in Occupied(p, tables, st, Target(p, i))
    ensures HoistStep(p, tables, st, i) == Record(st, Key(p, i), Target(p, i), p.decls[i].name)
  {
  }

  /** Recording a binding under its own name, free among the names chosen so far, keeps both invariants. */
  lemma NoCollisionStep(p: Program, q: seq<nat>, st: RenameState, i: nat)
    requires Valid(p) && InDecls(p, q) && i < |p.decls| && |st.aliases| == |p.scopes|
    requires KeepsOwnNames(st) && AliasesFromQueue(p, q, st)
    requires forall a :: 0 <= a < |q| && Target(p, q[a]) == Target(p, i) ==> p.decls[q[a]].name != p.decls[i].name
    ensures p.decls[i].name !in st.aliases[Target(p, i)]
    ensures InDecls(p, q + [i])
    ensures KeepsOwnNames(Record(st, Key(p, i), Target(p, i), p.decls[i].name))
    ensures AliasesFromQueue(p, q + [i], Record(st, Key(p, i), Target(p, i), p.decls[i].name))
  {
    var f := Target(p, i);
    var name := p.decls[i].name;
    var q2 := q + [i];
    assert forall a :: 0 <= a < |q| ==> q2[a] == q[a];
    assert q2[|q|] == i;
    var st' := Record(st, Key(p, i), f, name);
    forall g, n | 0 <= g < |p.scopes| && n in st'.aliases[g]
      ensures exists a :: 0 <= a < |q2| && Target(p, q2[a]) == g && p.decls[q2[a]].name == n
    {
      if g == f && n == name {
        assert Target(p, q2[|q|]) == g;
      } else {
        assert n in st.aliases[g];
        var a :| 0 <= a < |q| && Target(p, q[a]) == g && p.decls[q[a]].name == n;
        assert q2[a] == q[a];
      }
    }
  }

  /** When nothing collides, every hoisted binding keeps its own name. */
  lemma {:induction false} NoCollisionKeepsNames(p: Program, tables: seq<Table>, q: seq<nat>)
    requires TablesFor(p, tables) && InDecls(p, q) && NoCollision(p, tables, q)
    ensures KeepsOwnNames(RenameAll(p, tables, q))
    ensures AliasesFromQueue(p, q, RenameAll(p, tables, q))
    decreases |q|
  {
    if q != [] {
      var m := |q| - 1;
      var q' := q[..m];
      assert q == q' + [q[m]];
      assert forall a :: 0 <= a < m ==> q'[a] == q[a];
      assert NoCollision(p, tables, q');
      NoCollisionKeepsNames(p, tables, q');
      NoCollisionStep(p, q', RenameAll(p, tables, q'), q[m]);
      HoistStepKeepsFreeName(p, tables, RenameAll(p, tables, q'), q[m]);
    }
  }

  /** Bindings of queue `q` all called `x`, all hoisted into `f`. */
  ghost predicate Siblings(p: Program, q: seq<nat>, f: nat, x: string)
    requires Valid(p) && InDecls(p, q)
  {
    forall a :: 0 <= a < |q| ==> p.decls[q[a]].name == x && Target(p, q[a]) == f
  }

  /** The binding at position `a` of `q` named by the `a`-th sibling name of `x` (a later entry wins a repeated key). */
  function Numbering(p: Program, q: seq<nat>, x: string): map<(string, nat), string>
    requires InDecls(p, q)
    decreases |q|
  {
    if q == [] then map[]
    else Numbering(p, q[..|q| - 1], x)[Key(p, q[|q| - 1]) := SiblingName(x, |q| - 1)]
  }

  /** One more sibling: it takes the next sibling name, which joins the target's aliases. */
  lemma SiblingStep(p: Program, tables: seq<Table>, st: RenameState, i: nat, f: nat, x: string, k: nat)
    requires TablesFor(p, tables) && i < |p.decls| && |st.aliases| == |p.scopes|
    requires p.decls[i].name == x && Target(p, i) == f
    requires st.aliases[f] == SiblingNames(x, k) && SiblingName(x, k) !in Fixed(p, tables, f)
    ensures HoistStep(p, tables, st, i) == Record(st, Key(p, i), f, SiblingName(x, k))
    ensures HoistStep(p, tables, st, i).aliases[f] == SiblingNames(x, k + 1)
  {
    NextSiblingName(x, Fixed(p, tables, f), k);
    SiblingNamesStep(x, k);
  }

  /**
   * Same-named bindings hoisted into one target, none of whose sibling
   * names the target fixes, are numbered in queue order: the first keeps
   * `x`, the `k`-th becomes `x$k`, and those names fill the target's aliases.
   */
  lemma {:induction false} SiblingsNumbered(p: Program, tables: seq<Table>, q: seq<nat>, f: nat, x: string)
    requires TablesFor(p, tables) && InDecls(p, q) && f < |p.scopes| && Siblings(p, q, f, x)
    requires forall k :: 0 <= k < |q| ==> SiblingName(x, k) !in Fixed(p, tables, f)
    ensures RenameAll(p, tables, q).aliases[f] == SiblingNames(x, |q|)
    ensures RenameAll(p, tables, q).chosen == Numbering(p, q, x)
    decreases |q|
  {
    if q != [] {
      var m := |q| - 1;
      var q', i := q[..m], q[m];
      assert forall a :: 0 <= a < m ==> q'[a] == q[a];
      assert Siblings(p, q', f, x);
      SiblingsNumbered(p, tables, q', f, x);
      SiblingStep(p, tables, RenameAll(p, tables, q'), i, f, x, m);
    }
  }
}
