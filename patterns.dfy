/**
 * The pattern desugarer: an object, array or rest pattern bound to a source
 * expression becomes an ordered list of simple assignments
 * (`target = src.k`, `target = src[i]`, `target = src.slice(i)`), in the
 * left-to-right, depth-first order of the pattern.
 */
module Patterns {
  import opened Wrappers

  datatype Pattern =
    | Bind(name: string)
    | Hole  // an elided array position `[ , x ]`
    | ObjectPattern(props: seq<Prop>)
    | ArrayPattern(elems: seq<Pattern>, rest: Option<Pattern>)

  /** `{ key: value }`; `shorthand` marks `{ key }`, which binds the name `key`. */
  datatype Prop =
    | KeyProp(key: string, value: Pattern, shorthand: bool)
    | RestProp(name: string)

  /** The expression a step reads: `src`, `src.k`, `src[i]` or `src.slice(i)`. */
  datatype Source =
    | Root(name: string)
    | Member(obj: Source, key: string)
    | Index(arr: Source, i: nat)
    | Slice(arr: Source, from: nat)

  /** One generated declarator `var target = source`. */
  datatype Step = Step(target: string, source: Source)

  /** The name a binding is declared under, after the renamer's decisions. */
  function Rename(ren: map<string, string>, n: string): (r: string)
    ensures r == n || r in ren.Values
  {
    if n in ren then ren[n] else n
  }

  /** The names a pattern binds, left to right. */
  function Targets(p: Pattern): (ts: seq<string>)
  {
    match p
    case Bind(n) => [n]
    case Hole => []
    case ObjectPattern(props) => PropsTargets(props)
    case ArrayPattern(elems, rest) =>
      ElemsTargets(elems) + (if rest.Some? then Targets(rest.value) else [])
  }

  function PropsTargets(props: seq<Prop>): seq<string>
  {
    if props == [] then []
    else
      (match props[0]
       case KeyProp(_, v, _) => Targets(v)
       case RestProp(n) => [n])
      + PropsTargets(props[1..])
  }

  function ElemsTargets(elems: seq<Pattern>): seq<string>
  {
    if elems == [] then []
    else Targets(elems[0]) + ElemsTargets(elems[1..])
  }

  /** Whether an object rest `{ ...r }` occurs anywhere in the pattern. */
  predicate HasObjectRest(p: Pattern)
  {
    match p
    case Bind(_) => false
    case Hole => false
    case ObjectPattern(props) => PropsHaveRest(props)
    case ArrayPattern(elems, rest) => ElemsHaveRest(elems) || (rest.Some? && HasObjectRest(rest.value))
  }

  predicate PropsHaveRest(props: seq<Prop>)
  {
    props != [] &&
    ((match props[0]
      case KeyProp(_, v, _) => HasObjectRest(v)
      case RestProp(_) => true)
     || PropsHaveRest(props[1..]))
  }

  predicate ElemsHaveRest(elems: seq<Pattern>)
  {
    elems != [] && (HasObjectRest(elems[0]) || ElemsHaveRest(elems[1..]))
  }

  /** The steps for `p` reading from `src`, targets renamed through `ren`. */
  function Flatten(p: Pattern, src: Source, ren: map<string, string>): (steps: seq<Step>)
    requires !HasObjectRest(p)
  {
    match p
    case Bind(n) => [Step(Rename(ren, n), src)]
    case Hole => []
    case ObjectPattern(props) => FlattenProps(props, src, ren)
    case ArrayPattern(elems, rest) =>
      FlattenElems(elems, 0, src, ren)
      + (if rest.Some? then Flatten(rest.value, Slice(src, |elems|), ren) else [])
  }

  function FlattenProps(props: seq<Prop>, src: Source, ren: map<string, string>): seq<Step>
    requires !PropsHaveRest(props)
  {
    if props == [] then []
    else Flatten(props[0].value, Member(src, props[0].key), ren) + FlattenProps(props[1..], src, ren)
  }

  /** Elements from position `from` on; position `from + k` reads `src[from + k]`. */
  function FlattenElems(elems: seq<Pattern>, from: nat, src: Source, ren: map<string, string>): seq<Step>
    requires !ElemsHaveRest(elems)
  {
    if elems == [] then []
    else
      Flatten(elems[0], Index(src, from), ren) + FlattenElems(elems[1..], from + 1, src, ren)
  }

  /** A declaration pattern desugared, or None for an object rest, which this stage leaves alone. */
  function Desugar(p: Pattern, src: Source, ren: map<string, string>): (r: Option<seq<Step>>)
    ensures r.None? <==> HasObjectRest(p)
    ensures r.Some? ==> |r.value| == |Targets(p)|
    ensures r.Some? ==> forall i :: 0 <= i < |r.value| ==> r.value[i].target == Rename(ren, Targets(p)[i])
  {
    if HasObjectRest(p) then None
    else
      FlattenOrder(p, src, ren);
      Some(Flatten(p, src, ren))
  }

  /** One step per bound name, in the pattern's left-to-right order, each under its renamed name. */
  lemma {:induction false} FlattenOrder(p: Pattern, src: Source, ren: map<string, string>)
    requires !HasObjectRest(p)
    ensures |Flatten(p, src, ren)| == |Targets(p)|
    ensures forall i :: 0 <= i < |Targets(p)| ==> Flatten(p, src, ren)[i].target == Rename(ren, Targets(p)[i])
    decreases p, 1
  {
    match p
    case Bind(_) =>
    case Hole =>
    case ObjectPattern(props) => PropsOrder(props, src, ren);
    case ArrayPattern(elems, rest) => ArrayOrder(elems, rest, src, ren);
  }

  lemma {:induction false} ArrayOrder(elems: seq<Pattern>, rest: Option<Pattern>, src: Source, ren: map<string, string>)
    requires !HasObjectRest(ArrayPattern(elems, rest))
    ensures var steps, ts := Flatten(ArrayPattern(elems, rest), src, ren), Targets(ArrayPattern(elems, rest));
            && |steps| == |ts|
            && forall i :: 0 <= i < |ts| ==> steps[i].target == Rename(ren, ts[i])
    decreases ArrayPattern(elems, rest), 0
  {
    ElemsOrder(elems, 0, src, ren);
    var a: seq<Step>, ta: seq<string> := FlattenElems(elems, 0, src, ren), ElemsTargets(elems);
    var b: seq<Step>, tb: seq<string> := [], [];
    if rest.Some? {
      FlattenOrder(rest.value, Slice(src, |elems|), ren);
      b, tb := Flatten(rest.value, Slice(src, |elems|), ren), Targets(rest.value);
    }
    assert Flatten(ArrayPattern(elems, rest), src, ren) == a + b;
    assert Targets(ArrayPattern(elems, rest)) == ta + tb;
    forall i | 0 <= i < |ta + tb| ensures (a + b)[i].target == Rename(ren, (ta + tb)[i]) {
      if i >= |ta| {
        assert (a + b)[i] == b[i - |a|];
      }
    }
  }

  lemma {:induction false} PropsOrder(props: seq<Prop>, src: Source, ren: map<string, string>)
    requires !PropsHaveRest(props)
    ensures |FlattenProps(props, src, ren)| == |PropsTargets(props)|
    ensures forall i :: 0 <= i < |PropsTargets(props)| ==>
      FlattenProps(props, src, ren)[i].target == Rename(ren, PropsTargets(props)[i])
    decreases props
  {
    if props != [] {
      var m := Member(src, props[0].key);
      FlattenOrder(props[0].value, m, ren);
      PropsOrder(props[1..], src, ren);
      var a: seq<Step>, b: seq<Step> := Flatten(props[0].value, m, ren), FlattenProps(props[1..], src, ren);
      var ta: seq<string>, tb: seq<string> := Targets(props[0].value), PropsTargets(props[1..]);
      assert FlattenProps(props, src, ren) == a + b;
      assert PropsTargets(props) == ta + tb;
      forall i | 0 <= i < |ta + tb| ensures (a + b)[i].target == Rename(ren, (ta + tb)[i]) {
        if i >= |ta| {
          assert (a + b)[i] == b[i - |a|];
        }
      }
    }
  }

  lemma {:induction false} ElemsOrder(elems: seq<Pattern>, from: nat, src: Source, ren: map<string, string>)
    requires !ElemsHaveRest(elems)
    ensures |FlattenElems(elems, from, src, ren)| == |ElemsTargets(elems)|
    ensures forall i :: 0 <= i < |ElemsTargets(elems)| ==>
      FlattenElems(elems, from, src, ren)[i].target == Rename(ren, ElemsTargets(elems)[i])
    decreases elems
  {
    if elems != [] {
      FlattenOrder(elems[0], Index(src, from), ren);
      ElemsOrder(elems[1..], from + 1, src, ren);
      var a: seq<Step>, b: seq<Step> := Flatten(elems[0], Index(src, from), ren), FlattenElems(elems[1..], from + 1, src, ren);
      var ta: seq<string>, tb: seq<string> := Targets(elems[0]), ElemsTargets(elems[1..]);
      assert FlattenElems(elems, from, src, ren) == a + b;
      assert ElemsTargets(elems) == ta + tb;
      forall i | 0 <= i < |ta + tb| ensures (a + b)[i].target == Rename(ren, (ta + tb)[i]) {
        if i >= |ta| {
          assert (a + b)[i] == b[i - |a|];
        }
      }
    }
  }

  /** The same steps with every target renamed through `ren`. */
  function Retarget(steps: seq<Step>, ren: map<string, string>): (r: seq<Step>)
    ensures |r| == |steps|
    ensures forall i :: 0 <= i < |r| ==> r[i] == Step(Rename(ren, steps[i].target), steps[i].source)
  {
    seq(|steps|, i requires 0 <= i < |steps| => Step(Rename(ren, steps[i].target), steps[i].source))
  }

  lemma RetargetAppend(a: seq<Step>, b: seq<Step>, ren: map<string, string>)
    ensures Retarget(a + b, ren) == Retarget(a, ren) + Retarget(b, ren)
  {
  }

  /**
   * Renaming changes only the left-hand targets: the steps under `ren` are
   * the unrenamed steps with their targets renamed, so every source (and
   * every key read from it) is the original one.
   */
  lemma {:induction false} FlattenRenameOnlyTargets(p: Pattern, src: Source, ren: map<string, string>)
    requires !HasObjectRest(p)
    ensures Flatten(p, src, ren) == Retarget(Flatten(p, src, map[]), ren)
    decreases p, 1
  {
    match p
    case Bind(_) =>
    case Hole =>
    case ObjectPattern(props) => PropsRenameOnlyTargets(props, src, ren);
    case ArrayPattern(elems, rest) =>
      ElemsRenameOnlyTargets(elems, 0, src, ren);
      if rest.Some? {
        FlattenRenameOnlyTargets(rest.value, Slice(src, |elems|), ren);
        RetargetAppend(FlattenElems(elems, 0, src, map[]), Flatten(rest.value, Slice(src, |elems|), map[]), ren);
      } else {
        RetargetAppend(FlattenElems(elems, 0, src, map[]), [], ren);
      }
  }

  lemma {:induction false} PropsRenameOnlyTargets(props: seq<Prop>, src: Source, ren: map<string, string>)
    requires !PropsHaveRest(props)
    ensures FlattenProps(props, src, ren) == Retarget(FlattenProps(props, src, map[]), ren)
    decreases props
  {
    if props != [] {
      FlattenRenameOnlyTargets(props[0].value, Member(src, props[0].key), ren);
      PropsRenameOnlyTargets(props[1..], src, ren);
      RetargetAppend(Flatten(props[0].value, Member(src, props[0].key), map[]), FlattenProps(props[1..], src, map[]), ren);
    }
  }

  lemma {:induction false} ElemsRenameOnlyTargets(elems: seq<Pattern>, from: nat, src: Source, ren: map<string, string>)
    requires !ElemsHaveRest(elems)
    ensures FlattenElems(elems, from, src, ren) == Retarget(FlattenElems(elems, from, src, map[]), ren)
    decreases elems
  {
    if elems != [] {
      var head := Flatten(elems[0], Index(src, from), map[]);
      FlattenRenameOnlyTargets(elems[0], Index(src, from), ren);
      ElemsRenameOnlyTargets(elems[1..], from + 1, src, ren);
      RetargetAppend(head, FlattenElems(elems[1..], from + 1, src, map[]), ren);
    }
  }

  /** One access out of a value: `.k`, `[i]` or `.slice(i)`. */
  datatype Access = Key(key: string) | At(index: nat) | From(index: nat)

  function Read(src: Source, a: Access): Source
  {
    match a
    case Key(k) => Member(src, k)
    case At(i) => Index(src, i)
    case From(i) => Slice(src, i)
  }

  /** `src` followed by the accesses of `path`, outermost first. */
  function Apply(src: Source, path: seq<Access>): Source
    decreases |path|
  {
    if path == [] then src else Apply(Read(src, path[0]), path[1..])
  }

  function Prefix(a: Access, paths: seq<seq<Access>>): (r: seq<seq<Access>>)
    ensures |r| == |paths| && forall i :: 0 <= i < |r| ==> r[i] == [a] + paths[i]
  {
    seq(|paths|, i requires 0 <= i < |paths| => [a] + paths[i])
  }

  /**
   * Where each name a pattern binds sits in the destructured value, left to
   * right: the keys and positions leading to it, and `.slice(n)` for the
   * rest element after `n` elements.
   */
  function Paths(p: Pattern): seq<seq<Access>>
  {
    match p
    case Bind(_) => [[]]
    case Hole => []
    case ObjectPattern(props) => PropsPaths(props)
    case ArrayPattern(elems, rest) =>
      ElemsPaths(elems, 0) + (if rest.Some? then Prefix(From(|elems|), Paths(rest.value)) else [])
  }

  function PropsPaths(props: seq<Prop>): seq<seq<Access>>
  {
    if props == [] then []
    else
      (match props[0]
       case KeyProp(k, v, _) => Prefix(Key(k), Paths(v))
       case RestProp(_) => [[]])
      + PropsPaths(props[1..])
  }

  function ElemsPaths(elems: seq<Pattern>, from: nat): seq<seq<Access>>
  {
    if elems == [] then [] else Prefix(At(from), Paths(elems[0])) + ElemsPaths(elems[1..], from + 1)
  }

  /** Steps whose sources are `src` read along `paths`, one for one. */
  predicate ReadAlong(steps: seq<Step>, src: Source, paths: seq<seq<Access>>)
  {
    |steps| == |paths| && forall i :: 0 <= i < |steps| ==> steps[i].source == Apply(src, paths[i])
  }

  lemma ReadAlongAppend(a: seq<Step>, b: seq<Step>, src: Source, pa: seq<seq<Access>>, pb: seq<seq<Access>>)
    requires ReadAlong(a, src, pa) && ReadAlong(b, src, pb)
    ensures ReadAlong(a + b, src, pa + pb)
  {
    forall i | 0 <= i < |a + b| ensures (a + b)[i].source == Apply(src, (pa + pb)[i]) {
      if i >= |a| {
        assert (a + b)[i] == b[i - |a|] && (pa + pb)[i] == pb[i - |a|];
      }
    }
  }

  /** Steps reading `Read(src, a)` along `paths` read `src` along the same paths behind `a`. */
  lemma ReadAlongPrefix(steps: seq<Step>, src: Source, a: Access, paths: seq<seq<Access>>)
    requires ReadAlong(steps, Read(src, a), paths)
    ensures ReadAlong(steps, src, Prefix(a, paths))
  {
    forall i | 0 <= i < |steps| ensures steps[i].source == Apply(src, Prefix(a, paths)[i]) {
      var q := Prefix(a, paths)[i];
      assert q[0] == a && q[1..] == paths[i];
    }
  }

  /**
   * Each generated step reads its target's own place in the value: the
   * `i`-th step's source is `src` followed by the `i`-th path of the pattern.
   */
  lemma {:induction false} FlattenReadsPaths(p: Pattern, src: Source, ren: map<string, string>)
    requires !HasObjectRest(p)
    ensures ReadAlong(Flatten(p, src, ren), src, Paths(p))
    decreases p, 1
  {
    match p
    case Bind(_) =>
    case Hole =>
    case ObjectPattern(props) => PropsReadPaths(props, src, ren);
    case ArrayPattern(elems, rest) =>
      ElemsReadPaths(elems, 0, src, ren);
      if rest.Some? {
        FlattenReadsPaths(rest.value, Slice(src, |elems|), ren);
        ReadAlongPrefix(Flatten(rest.value, Slice(src, |elems|), ren), src, From(|elems|), Paths(rest.value));
        ReadAlongAppend(FlattenElems(elems, 0, src, ren), Flatten(rest.value, Slice(src, |elems|), ren), src,
                        ElemsPaths(elems, 0), Prefix(From(|elems|), Paths(rest.value)));
      } else {
        ReadAlongAppend(FlattenElems(elems, 0, src, ren), [], src, ElemsPaths(elems, 0), []);
      }
  }

  lemma {:induction false} PropsReadPaths(props: seq<Prop>, src: Source, ren: map<string, string>)
    requires !PropsHaveRest(props)
    ensures ReadAlong(FlattenProps(props, src, ren), src, PropsPaths(props))
    decreases props
  {
    if props != [] {
      var k := props[0].key;
      FlattenReadsPaths(props[0].value, Member(src, k), ren);
      ReadAlongPrefix(Flatten(props[0].value, Member(src, k), ren), src, Key(k), Paths(props[0].value));
      PropsReadPaths(props[1..], src, ren);
      ReadAlongAppend(Flatten(props[0].value, Member(src, k), ren), FlattenProps(props[1..], src, ren), src,
                      Prefix(Key(k), Paths(props[0].value)), PropsPaths(props[1..]));
    }
  }

  lemma {:induction false} ElemsReadPaths(elems: seq<Pattern>, from: nat, src: Source, ren: map<string, string>)
    requires !ElemsHaveRest(elems)
    ensures ReadAlong(FlattenElems(elems, from, src, ren), src, ElemsPaths(elems, from))
    decreases elems
  {
    if elems != [] {
      FlattenReadsPaths(elems[0], Index(src, from), ren);
      ReadAlongPrefix(Flatten(elems[0], Index(src, from), ren), src, At(from), Paths(elems[0]));
      ElemsReadPaths(elems[1..], from + 1, src, ren);
      ReadAlongAppend(Flatten(elems[0], Index(src, from), ren), FlattenElems(elems[1..], from + 1, src, ren), src,
                      Prefix(At(from), Paths(elems[0])), ElemsPaths(elems[1..], from + 1));
    }
  }

  /** `s` is `src` or is read out of it by member, index and slice accesses. */
  predicate ReadsFrom(s: Source, src: Source)
  {
    s == src ||
    match s
    case Root(_) => false
    case Member(o, _) => ReadsFrom(o, src)
    case Index(a, _) => ReadsFrom(a, src)
    case Slice(a, _) => ReadsFrom(a, src)
  }

  /** Every generated step reads from the pattern's source expression. */
  lemma {:induction false} FlattenReadsSource(p: Pattern, src: Source, ren: map<string, string>)
    requires !HasObjectRest(p)
    ensures forall i :: 0 <= i < |Flatten(p, src, ren)| ==> ReadsFrom(Flatten(p, src, ren)[i].source, src)
    decreases p, 1
  {
    match p
    case Bind(_) =>
    case Hole =>
    case ObjectPattern(props) => PropsReadSource(props, src, ren);
    case ArrayPattern(elems, rest) =>
      ElemsReadSource(elems, 0, src, ren);
      if rest.Some? {
        FlattenReadsSource(rest.value, Slice(src, |elems|), ren);
        ReadsFromSteps(Flatten(rest.value, Slice(src, |elems|), ren), Slice(src, |elems|), src);
      }
  }

  lemma {:induction false} ReadsFromTransitive(s: Source, mid: Source, src: Source)
    requires ReadsFrom(s, mid) && ReadsFrom(mid, src)
    ensures ReadsFrom(s, src)
    decreases s
  {
    if s != mid {
      match s
      case Root(_) =>
      case Member(o, _) => ReadsFromTransitive(o, mid, src);
      case Index(a, _) => ReadsFromTransitive(a, mid, src);
      case Slice(a, _) => ReadsFromTransitive(a, mid, src);
    }
  }

  lemma ReadsFromSteps(steps: seq<Step>, mid: Source, src: Source)
    requires ReadsFrom(mid, src)
    requires forall i :: 0 <= i < |steps| ==> ReadsFrom(steps[i].source, mid)
    ensures forall i :: 0 <= i < |steps| ==> ReadsFrom(steps[i].source, src)
  {
    forall i | 0 <= i < |steps| ensures ReadsFrom(steps[i].source, src) {
      ReadsFromTransitive(steps[i].source, mid, src);
    }
  }

  lemma {:induction false} PropsReadSource(props: seq<Prop>, src: Source, ren: map<string, string>)
    requires !PropsHaveRest(props)
    ensures forall i :: 0 <= i < |FlattenProps(props, src, ren)| ==> ReadsFrom(FlattenProps(props, src, ren)[i].source, src)
    decreases props
  {
    if props != [] {
      var m := Member(src, props[0].key);
      FlattenReadsSource(props[0].value, m, ren);
      ReadsFromSteps(Flatten(props[0].value, m, ren), m, src);
      PropsReadSource(props[1..], src, ren);
    }
  }

  lemma {:induction false} ElemsReadSource(elems: seq<Pattern>, from: nat, src: Source, ren: map<string, string>)
    requires !ElemsHaveRest(elems)
    ensures forall i :: 0 <= i < |FlattenElems(elems, from, src, ren)| ==>
      ReadsFrom(FlattenElems(elems, from, src, ren)[i].source, src)
    decreases elems
  {
    if elems != [] {
      var x := Index(src, from);
      FlattenReadsSource(elems[0], x, ren);
      ReadsFromSteps(Flatten(elems[0], x, ren), x, src);
      ElemsReadSource(elems[1..], from + 1, src, ren);
    }
  }

  /** The property keys a pattern reads, left to right, at every depth. */
  function Keys(p: Pattern): seq<string>
  {
    match p
    case Bind(_) => []
    case Hole => []
    case ObjectPattern(props) => PropsKeys(props)
    case ArrayPattern(elems, rest) => ElemsKeys(elems) + (if rest.Some? then Keys(rest.value) else [])
  }

  function PropsKeys(props: seq<Prop>): seq<string>
  {
    if props == [] then []
    else
      (match props[0]
       case KeyProp(k, v, _) => [k] + Keys(v)
       case RestProp(_) => [])
      + PropsKeys(props[1..])
  }

  function ElemsKeys(elems: seq<Pattern>): seq<string>
  {
    if elems == [] then [] else Keys(elems[0]) + ElemsKeys(elems[1..])
  }

  /** Every shorthand property `{ k }` binds exactly the name `k`. */
  predicate ShorthandsBindKeys(p: Pattern)
  {
    match p
    case Bind(_) => true
    case Hole => true
    case ObjectPattern(props) => PropsShorthandsBindKeys(props)
    case ArrayPattern(elems, rest) =>
      ElemsShorthandsBindKeys(elems) && (rest.Some? ==> ShorthandsBindKeys(rest.value))
  }

  predicate PropsShorthandsBindKeys(props: seq<Prop>)
  {
    props != [] ==>
      && (match props[0]
          case KeyProp(k, v, sh) => (sh ==> v == Bind(k)) && ShorthandsBindKeys(v)
          case RestProp(_) => true)
      && PropsShorthandsBindKeys(props[1..])
  }

  predicate ElemsShorthandsBindKeys(elems: seq<Pattern>)
  {
    elems != [] ==> ShorthandsBindKeys(elems[0]) && ElemsShorthandsBindKeys(elems[1..])
  }

  function RenameNames(ren: map<string, string>, ns: seq<string>): (r: seq<string>)
    ensures |r| == |ns| && forall i :: 0 <= i < |ns| ==> r[i] == Rename(ren, ns[i])
  {
    seq(|ns|, i requires 0 <= i < |ns| => Rename(ren, ns[i]))
  }

  /**
   * A pattern kept as a pattern (destructuring not desugared), with its
   * bindings renamed; a shorthand `{ x }` whose binding becomes `x$1` is
   * spelled out as `{ x: x$1 }`.
   */
  function RenamePattern(p: Pattern, ren: map<string, string>): Pattern
  {
    match p
    case Bind(n) => Bind(Rename(ren, n))
    case Hole => Hole
    case ObjectPattern(props) => ObjectPattern(RenameProps(props, ren))
    case ArrayPattern(elems, rest) =>
      ArrayPattern(RenameElems(elems, ren), if rest.Some? then Some(RenamePattern(rest.value, ren)) else None)
  }

  function RenameProps(props: seq<Prop>, ren: map<string, string>): (r: seq<Prop>)
    ensures |r| == |props|
  {
    if props == [] then []
    else
      [match props[0]
       case KeyProp(k, v, sh) =>
         var v' := RenamePattern(v, ren);
         KeyProp(k, v', sh && v' == Bind(k))
       case RestProp(n) => RestProp(Rename(ren, n))]
      + RenameProps(props[1..], ren)
  }

  function RenameElems(elems: seq<Pattern>, ren: map<string, string>): (r: seq<Pattern>)
    ensures |r| == |elems|
  {
    if elems == [] then [] else [RenamePattern(elems[0], ren)] + RenameElems(elems[1..], ren)
  }

  lemma RenameNamesAppend(ren: map<string, string>, a: seq<string>, b: seq<string>)
    ensures RenameNames(ren, a + b) == RenameNames(ren, a) + RenameNames(ren, b)
  {
  }

  /**
   * Renaming a kept pattern reads the same keys in the same order (a key is
   * never renamed nor duplicated), binds the renamed names in the same
   * order, and leaves every remaining shorthand binding its own key.
   */
  lemma {:induction false} RenamePatternCorrect(p: Pattern, ren: map<string, string>)
    requires ShorthandsBindKeys(p)
    ensures Keys(RenamePattern(p, ren)) == Keys(p)
    ensures Targets(RenamePattern(p, ren)) == RenameNames(ren, Targets(p))
    ensures ShorthandsBindKeys(RenamePattern(p, ren))
    decreases p, 1
  {
    match p
    case Bind(_) =>
    case Hole =>
    case ObjectPattern(props) => RenamePropsCorrect(props, ren);
    case ArrayPattern(elems, rest) => RenameArrayCorrect(elems, rest, ren);
  }

  lemma {:induction false} RenameArrayCorrect(elems: seq<Pattern>, rest: Option<Pattern>, ren: map<string, string>)
    requires ShorthandsBindKeys(ArrayPattern(elems, rest))
    ensures var r := RenamePattern(ArrayPattern(elems, rest), ren);
            && Keys(r) == Keys(ArrayPattern(elems, rest))
            && Targets(r) == RenameNames(ren, Targets(ArrayPattern(elems, rest)))
            && ShorthandsBindKeys(r)
    decreases ArrayPattern(elems, rest), 0
  {
    RenameElemsCorrect(elems, ren);
    if rest.Some? {
      RenamePatternCorrect(rest.value, ren);
      RenameNamesAppend(ren, ElemsTargets(elems), Targets(rest.value));
    } else {
      RenameNamesAppend(ren, ElemsTargets(elems), []);
    }
  }

  lemma {:induction false} RenamePropsCorrect(props: seq<Prop>, ren: map<string, string>)
    requires PropsShorthandsBindKeys(props)
    ensures PropsKeys(RenameProps(props, ren)) == PropsKeys(props)
    ensures PropsTargets(RenameProps(props, ren)) == RenameNames(ren, PropsTargets(props))
    ensures PropsShorthandsBindKeys(RenameProps(props, ren))
    decreases props
  {
    if props != [] {
      var r := RenameProps(props, ren);
      assert r[1..] == RenameProps(props[1..], ren);
      RenamePropsCorrect(props[1..], ren);
      match props[0]
      case KeyProp(k, v, sh) =>
        RenamePatternCorrect(v, ren);
        RenameNamesAppend(ren, Targets(v), PropsTargets(props[1..]));
      case RestProp(n) =>
        RenameNamesAppend(ren, [n], PropsTargets(props[1..]));
    }
  }

  lemma {:induction false} RenameElemsCorrect(elems: seq<Pattern>, ren: map<string, string>)
    requires ElemsShorthandsBindKeys(elems)
    ensures ElemsKeys(RenameElems(elems, ren)) == ElemsKeys(elems)
    ensures ElemsTargets(RenameElems(elems, ren)) == RenameNames(ren, ElemsTargets(elems))
    ensures ElemsShorthandsBindKeys(RenameElems(elems, ren))
    decreases elems
  {
    if elems != [] {
      var r := RenameElems(elems, ren);
      assert r[1..] == RenameElems(elems[1..], ren);
      RenamePatternCorrect(elems[0], ren);
      RenameElemsCorrect(elems[1..], ren);
      RenameNamesAppend(ren, Targets(elems[0]), ElemsTargets(elems[1..]));
    }
  }

  /** `let { x, y } = point` with `x` renamed: `x$1 = point.x; y = point.y`. */
  lemma ObjectPatternExample(ren: map<string, string>)
    requires Rename(ren, "x") == "x$1" && Rename(ren, "y") == "y"
    ensures Desugar(ObjectPattern([KeyProp("x", Bind("x"), true), KeyProp("y", Bind("y"), true)]),
                    Root("point"), ren)
         == Some([Step("x$1", Member(Root("point"), "x")), Step("y", Member(Root("point"), "y"))])
  {
    var py := [KeyProp("y", Bind("y"), true)];
    var props := [KeyProp("x", Bind("x"), true)] + py;
    assert props == [KeyProp("x", Bind("x"), true), KeyProp("y", Bind("y"), true)];
    assert props[1..] == py && py[1..] == [];
    assert !PropsHaveRest(py) && !PropsHaveRest(props);
    assert FlattenProps(py, Root("point"), ren) == [Step("y", Member(Root("point"), "y"))];
    var want := [Step("x$1", Member(Root("point"), "x")), Step("y", Member(Root("point"), "y"))];
    assert FlattenProps(props, Root("point"), ren) == want;
    assert Flatten(ObjectPattern(props), Root("point"), ren) == want;
    assert Desugar(ObjectPattern(props), Root("point"), ren) == Some(want);
  }

  /** `let [ x, y ] = point` with `x` renamed: `x$1 = point[0]; y = point[1]`. */
  lemma ArrayPatternExample(ren: map<string, string>)
    requires Rename(ren, "x") == "x$1" && Rename(ren, "y") == "y"
    ensures Desugar(ArrayPattern([Bind("x"), Bind("y")], None), Root("point"), ren)
         == Some([Step("x$1", Index(Root("point"), 0)), Step("y", Index(Root("point"), 1))])
  {
    var elems := [Bind("x"), Bind("y")];
    assert elems[1..] == [Bind("y")] && elems[1..][1..] == [];
    assert !ElemsHaveRest(elems[1..]) && !ElemsHaveRest(elems);
    assert FlattenElems(elems[1..], 1, Root("point"), ren) == [Step("y", Index(Root("point"), 1))];
    var want := [Step("x$1", Index(Root("point"), 0)), Step("y", Index(Root("point"), 1))];
    assert FlattenElems(elems, 0, Root("point"), ren) == want;
    assert Flatten(ArrayPattern(elems, None), Root("point"), ren) == want;
    assert Desugar(ArrayPattern(elems, None), Root("point"), ren) == Some(want);
  }

  /** `let [ first, second, ...x ] = y` with `x` renamed: `y[0]`, `y[1]`, `y.slice(2)`. */
  lemma RestElementExample(ren: map<string, string>)
    requires Rename(ren, "first") == "first" && Rename(ren, "second") == "second" && Rename(ren, "x") == "x$1"
    ensures Desugar(ArrayPattern([Bind("first"), Bind("second")], Some(Bind("x"))), Root("y"), ren)
         == Some([Step("first", Index(Root("y"), 0)), Step("second", Index(Root("y"), 1)),
                  Step("x$1", Slice(Root("y"), 2))])
  {
    var elems := [Bind("first"), Bind("second")];
    assert elems[1..] == [Bind("second")] && elems[1..][1..] == [];
    assert !ElemsHaveRest(elems[1..]) && !ElemsHaveRest(elems);
    assert FlattenElems(elems[1..], 1, Root("y"), ren) == [Step("second", Index(Root("y"), 1))];
    var front := [Step("first", Index(Root("y"), 0)), Step("second", Index(Root("y"), 1))];
    assert FlattenElems(elems, 0, Root("y"), ren) == front;
    var p := ArrayPattern(elems, Some(Bind("x")));
    assert !HasObjectRest(p);
    assert Flatten(p, Root("y"), ren) == front + [Step("x$1", Slice(Root("y"), 2))];
    assert Desugar(p, Root("y"), ren) == Some(front + [Step("x$1", Slice(Root("y"), 2))]);
    assert front + [Step("x$1", Slice(Root("y"), 2))]
        == [Step("first", Index(Root("y"), 0)), Step("second", Index(Root("y"), 1)), Step("x$1", Slice(Root("y"), 2))];
  }

  /** `const { x } = y` kept as a pattern, `x` renamed: `var { x: x$1 } = y`. */
  lemma KeptShorthandExample(ren: map<string, string>)
    requires Rename(ren, "x") == "x$1"
    ensures RenamePattern(ObjectPattern([KeyProp("x", Bind("x"), true)]), ren)
         == ObjectPattern([KeyProp("x", Bind("x$1"), false)])
  {
    var props := [KeyProp("x", Bind("x"), true)];
    assert props[1..] == [];
    assert RenameProps(props, ren) == [KeyProp("x", Bind("x$1"), false)];
  }
}
