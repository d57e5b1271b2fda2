/**
 * Fresh-name generation for hoisted block-scoped bindings.
 *
 * A binding that keeps colliding takes the first unoccupied name among
 * `name$1`, `name$2`, ... (the `$` suffix of buble's scope identifiers).
 */
module Names {

  /** Decimal digit for `d`. */
  function DigitChar(d: nat): char
    requires d < 10
  {
    "0123456789"[d]
  }

  /** Decimal representation of `n`, without leading zeros. */
  function NatToString(n: nat): (s: string)
    ensures 1 <= |s|
    ensures n < 10 <==> |s| == 1
    decreases n
  {
    if n < 10 then [DigitChar(n)] else NatToString(n / 10) + [DigitChar(n % 10)]
  }

  lemma DigitCharInjective(a: nat, b: nat)
    requires a < 10 && b < 10
    ensures DigitChar(a) == DigitChar(b) ==> a == b
  {
  }

  /** Distinct numbers print as distinct strings. */
  lemma {:induction false} NatToStringInjective(n: nat, m: nat)
    ensures NatToString(n) == NatToString(m) ==> n == m
    decreases n
  {
    if NatToString(n) == NatToString(m) {
      if n < 10 {
        DigitCharInjective(n, m);
      } else {
        var s, t := NatToString(n), NatToString(m);
        assert s[|s| - 1] == DigitChar(n % 10) && t[|t| - 1] == DigitChar(m % 10);
        DigitCharInjective(n % 10, m % 10);
        assert s[..|s| - 1] == NatToString(n / 10);
        assert t[..|t| - 1] == NatToString(m / 10);
        NatToStringInjective(n / 10, m / 10);
      }
    }
  }

  /** The k-th alternative for `base`: `base$k`. */
  function Alias(base: string, k: nat): (a: string)
    ensures |a| > |base| && a[..|base|] == base
  {
    base + "$" + NatToString(k)
  }

  /** Aliases of one base are pairwise distinct and never equal the base itself. */
  lemma AliasInjective(base: string, j: nat, k: nat)
    ensures Alias(base, j) == Alias(base, k) ==> j == k
    ensures Alias(base, k) != base
  {
    var a, b := Alias(base, j), Alias(base, k);
    assert |b| > |base|;
    if a == b {
      assert a[|base| + 1..] == NatToString(j);
      assert b[|base| + 1..] == NatToString(k);
      NatToStringInjective(j, k);
    }
  }

  /** The aliases `base$1` .. `base$(k-1)`, the candidates tried before `base$k`. */
  function Tried(base: string, k: nat): set<string>
  {
    set j | 1 <= j < k :: Alias(base, j)
  }

  lemma TriedStep(base: string, k: nat)
    requires 1 <= k
    ensures Tried(base, k + 1) == Tried(base, k) + {Alias(base, k)}
    ensures Alias(base, k) !in Tried(base, k)
  {
    if Alias(base, k) in Tried(base, k) {
      var j :| 1 <= j < k && Alias(base, j) == Alias(base, k);
      AliasInjective(base, j, k);
    }
  }

  /** The first alias from `base$k` on that `occupied` does not hold. */
  function FirstFreeFrom(base: string, occupied: set<string>, k: nat): (r: string)
    requires 1 <= k && Tried(base, k) <= occupied
    ensures r !in occupied
    decreases occupied - Tried(base, k)
  {
    TriedStep(base, k);
    if Alias(base, k) !in occupied then Alias(base, k)
    else FirstFreeFrom(base, occupied, k + 1)
  }

  /** The search from `base$k` ends at some `base$m` with every alias before it occupied. */
  lemma {:induction false} FirstFreeFromIsAlias(base: string, occupied: set<string>, k: nat)
    requires 1 <= k && Tried(base, k) <= occupied
    ensures exists m :: k <= m && FirstFreeFrom(base, occupied, k) == Alias(base, m) && Tried(base, m) <= occupied
    decreases occupied - Tried(base, k)
  {
    TriedStep(base, k);
    if Alias(base, k) in occupied {
      FirstFreeFromIsAlias(base, occupied, k + 1);
    }
  }

  /** The name a hoisted binding called `base` receives when `occupied` is taken. */
  function FirstFree(base: string, occupied: set<string>): (r: string)
    ensures r !in occupied
  {
    if base !in occupied then base else FirstFreeFrom(base, occupied, 1)
  }

  /**
   * `r` is the first free name for `base`: unoccupied, and either `base` itself,
   * or `base$k` where `base` and every `base$j` with `1 <= j < k` are occupied.
   */
  ghost predicate IsFirstFree(base: string, occupied: set<string>, r: string)
  {
    && r !in occupied
    && (r == base
        || (base in occupied && exists k :: 1 <= k && r == Alias(base, k) && Tried(base, k) <= occupied))
  }

  /** FirstFree computes exactly the first free name: both directions. */
  lemma FirstFreeCharacterized(base: string, occupied: set<string>, r: string)
    ensures IsFirstFree(base, occupied, r) <==> r == FirstFree(base, occupied)
  {
    var f := FirstFree(base, occupied);
    if base in occupied {
      FirstFreeFromIsAlias(base, occupied, 1);
      var m :| 1 <= m && f == Alias(base, m) && Tried(base, m) <= occupied;
      assert IsFirstFree(base, occupied, f);
      if IsFirstFree(base, occupied, r) {
        var k :| 1 <= k && r == Alias(base, k) && Tried(base, k) <= occupied;
      }
    }
  }

  /** The counter loop: try `base`, then `base$1`, `base$2`, ... until one is free. */
  method FreshName(base: string, occupied: set<string>) returns (name: string)
    ensures name == FirstFree(base, occupied)
    ensures name !in occupied
  {
    if base !in occupied {
      return base;
    }
    var k := 1;
    name := Alias(base, k);
    while name in occupied
      invariant 1 <= k && name == Alias(base, k) && Tried(base, k) <= occupied
      invariant FirstFreeFrom(base, occupied, k) == FirstFree(base, occupied)
      decreases occupied - Tried(base, k)
    {
      TriedStep(base, k);
      k := k + 1;
      name := Alias(base, k);
    }
  }

  /** The name the `k`-th of several same-named bindings sharing a hoist target takes: `base`, then `base$k`. */
  function SiblingName(base: string, k: nat): string
  {
    if k == 0 then base else Alias(base, k)
  }

  /** The names the first `n` of those bindings take. */
  function SiblingNames(base: string, n: nat): set<string>
  {
    if n == 0 then {} else {base} + Tried(base, n)
  }

  lemma SiblingNamesStep(base: string, n: nat)
    ensures SiblingNames(base, n + 1) == SiblingNames(base, n) + {SiblingName(base, n)}
  {
    if n == 0 {
      assert Tried(base, 1) == {};
    } else {
      TriedStep(base, n);
    }
  }

  /**
   * With the first `k` sibling names already taken and none of the names
   * fixed by the target in the way, the next binding takes the `k`-th name.
   */
  lemma NextSiblingName(base: string, fixed: set<string>, k: nat)
    requires SiblingName(base, k) !in fixed
    ensures FirstFree(base, fixed + SiblingNames(base, k)) == SiblingName(base, k)
  {
    if k > 0 {
      var occupied := fixed + SiblingNames(base, k);
      TriedStep(base, k);
      AliasInjective(base, k, k);
      assert IsFirstFree(base, occupied, Alias(base, k));
      FirstFreeCharacterized(base, occupied, Alias(base, k));
    }
  }

  /** A binding whose name is taken, but not its first alias `base$1`, takes that alias. */
  lemma FirstAlias(base: string, occupied: set<string>)
    requires base in occupied && base + "$1" !in occupied
    ensures FirstFree(base, occupied) == base + "$1"
  {
    assert NatToString(1) == "1" && Tried(base, 1) == {};
    assert Alias(base, 1) == base + "$1";
    assert FirstFreeFrom(base, occupied, 1) == Alias(base, 1);
  }

  /** Three sibling blocks declaring `x` in one hoist target: `x`, `x$1`, `x$2`. */
  lemma SiblingAliases()
    ensures FirstFree("x", {}) == "x"
    ensures FirstFree("x", {"x"}) == "x$1"
    ensures FirstFree("x", {"x", "x$1"}) == "x$2"
  {
    assert NatToString(1) == "1" && NatToString(2) == "2";
    assert Alias("x", 1) == "x$1" && Alias("x", 2) == "x$2";
    assert Tried("x", 1) == {};
    assert Tried("x", 2) == {"x$1"} by { TriedStep("x", 1); }
    FirstFreeCharacterized("x", {"x"}, "x$1");
    FirstFreeCharacterized("x", {"x", "x$1"}, "x$2");
  }
}
