/**
  The key under which instances are pooled: `RequestResource` with its equality and its hash.  A hash table is
  right only if equal keys have equal hashes, whatever the order in which each key's own maps are walked.
 */
module ResourceKey {
  import opened Options
  import opened Sets

  type Word = bv64

  datatype Session = Session(id: string, ttl: int)

  /** A floating-point value; the two zeros are one. */
  datatype Float = NaN | Infinite(negative: bool) | Num(value: real)

  /** The fields that equality or hash look at; an affinity counts only through its own hash. */
  datatype Resource = Resource(language: int, functionId: string, cpu: int, memory: int, concurrency: nat,
    custom: map<string, Float>, affinities: seq<Word>, labels: map<string, string>, env: map<string, string>,
    session: Option<Session>, sessionCtxId: string, ringName: string, deviceName: string, debug: bool,
    groupName: string, bundleIndex: int)

  /** The standard library's hashes, and how the machine rounds a difference of two floats. */
  datatype Machine = Machine(str: string -> Word, num: int -> Word, flag: bool -> Word, float: Float -> Word,
    round: real -> Float)

  /** The single-precision number nearest to 1e-6. */
  const FLOAT_EQUAL_RANGE: real := 8796093.0 / 8796093022208.0

  // -------------------------------------------------------------------------------- exclusive or

  function Xor(a: Word, b: Word): Word {
    a ^ b
  }

  lemma XorAssociates(a: Word, b: Word, c: Word)
    ensures Xor(Xor(a, b), c) == Xor(a, Xor(b, c))
  {
  }

  lemma XorCommutes(a: Word, b: Word)
    ensures Xor(a, b) == Xor(b, a)
  {
  }

  lemma XorSwaps(a: Word, b: Word, c: Word)
    ensures Xor(Xor(a, b), c) == Xor(Xor(a, c), b)
  {
    hide Xor;
    XorAssociates(a, b, c);
    XorCommutes(b, c);
    XorAssociates(a, c, b);
  }

  lemma XorZero(a: Word)
    ensures Xor(0, a) == a && Xor(a, 0) == a && Xor(a, a) == 0
  {
  }

  lemma XorCancels(a: Word, b: Word, c: Word)
    ensures Xor(c, a) == Xor(c, b) <==> a == b
    ensures Xor(a, b) == 0 <==> a == b
  {
    hide Xor;
    XorAssociates(c, c, a);
    XorAssociates(c, c, b);
    XorAssociates(a, a, b);
    XorZero(a);
    XorZero(b);
    XorZero(c);
  }

  /** The words of the first `n` keys combined. */
  function Fold(keys: seq<string>, f: string -> Word, n: nat): Word
    requires n <= |keys|
  {
    if n == 0 then 0 else Xor(Fold(keys, f, n - 1), f(keys[n - 1]))
  }

  function FoldAll(keys: seq<string>, f: string -> Word): Word {
    Fold(keys, f, |keys|)
  }

  lemma {:induction false} FoldSameWords(keys: seq<string>, f: string -> Word, g: string -> Word, n: nat)
    requires n <= |keys| && forall i :: 0 <= i < n ==> f(keys[i]) == g(keys[i])
    ensures Fold(keys, f, n) == Fold(keys, g, n)
  {
    hide Xor;
    if n > 0 { FoldSameWords(keys, f, g, n - 1); }
  }

  lemma {:induction false} FoldSameKeys(a: seq<string>, b: seq<string>, f: string -> Word, n: nat)
    requires n <= |a| && n <= |b| && forall i :: 0 <= i < n ==> a[i] == b[i]
    ensures Fold(a, f, n) == Fold(b, f, n)
  {
    hide Xor;
    if n > 0 { FoldSameKeys(a, b, f, n - 1); }
  }

  function Without(keys: seq<string>, p: nat): (r: seq<string>)
    requires p < |keys|
    ensures |r| == |keys| - 1 && forall i :: 0 <= i < |r| ==> r[i] == keys[if i < p then i else i + 1]
  {
    keys[..p] + keys[p + 1..]
  }

  /** A key may be combined last. */
  lemma {:induction false} FoldTakeOut(keys: seq<string>, f: string -> Word, p: nat, n: nat)
    requires p < n <= |keys|
    ensures Fold(keys, f, n) == Xor(Fold(Without(keys, p), f, n - 1), f(keys[p]))
  {
    hide Xor;
    var rest := Without(keys, p);
    if p == n - 1 {
      FoldSameKeys(keys, rest, f, n - 1);
    } else {
      FoldTakeOut(keys, f, p, n - 1);
      XorSwaps(Fold(rest, f, n - 2), f(keys[p]), f(keys[n - 1]));
    }
  }

  /** `keys` walks the set `s`: each member once. */
  ghost predicate Walks(keys: seq<string>, s: set<string>) {
    && (forall k :: k in keys <==> k in s)
    && (forall i, j :: 0 <= i < j < |keys| ==> keys[i] != keys[j])
  }

  lemma EmptyWalk(keys: seq<string>, s: set<string>)
    requires Walks(keys, s)
    ensures keys == [] <==> s == {}
  {
    if keys != [] { assert keys[0] in keys; }
  }

  lemma WalkWithout(keys: seq<string>, s: set<string>, p: nat)
    requires Walks(keys, s) && p < |keys|
    ensures Walks(Without(keys, p), s - {keys[p]})
  {
    var rest := Without(keys, p);
    forall k | k in s - {keys[p]} ensures k in rest {
      var i :| 0 <= i < |keys| && keys[i] == k;
      assert rest[if i < p then i else i - 1] == k;
    }
  }

  /** The order of the walk does not matter. */
  lemma {:induction false} FoldAnyOrder(a: seq<string>, b: seq<string>, s: set<string>, f: string -> Word)
    requires Walks(a, s) && Walks(b, s)
    ensures FoldAll(a, f) == FoldAll(b, f)
    decreases |a|
  {
    hide Xor;
    if a == [] {
      EmptyWalk(a, s);
      EmptyWalk(b, s);
    } else {
      var last := a[|a| - 1];
      assert last in a;
      var p :| 0 <= p < |b| && b[p] == last;
      WalkWithout(a, s, |a| - 1);
      WalkWithout(b, s, p);
      FoldAnyOrder(Without(a, |a| - 1), Without(b, p), s - {last}, f);
      FoldTakeOut(a, f, |a| - 1, |a|);
      FoldTakeOut(b, f, p, |b|);
    }
  }

  /** Words of keys and values may be combined apart. */
  lemma {:induction false} FoldApart(keys: seq<string>, f: string -> Word, g: string -> Word, h: string -> Word, n: nat)
    requires n <= |keys| && forall k :: f(k) == Xor(g(k), h(k))
    ensures Fold(keys, f, n) == Xor(Fold(keys, g, n), Fold(keys, h, n))
  {
    hide Xor;
    if n == 0 {
      XorZero(0);
    } else {
      FoldApart(keys, f, g, h, n - 1);
      XorPairs(Fold(keys, g, n - 1), Fold(keys, h, n - 1), g(keys[n - 1]), h(keys[n - 1]));
    }
  }

  lemma XorPairs(a: Word, b: Word, c: Word, d: Word)
    ensures Xor(Xor(a, b), Xor(c, d)) == Xor(Xor(a, c), Xor(b, d))
  {
    hide Xor;
    XorAssociates(Xor(a, b), c, d);
    XorSwaps(a, b, c);
    XorAssociates(Xor(a, c), b, d);
  }

  // ----------------------------------------------------------------------------- hashing a map

  function ValueHash<V>(m: map<string, V>, value: V -> Word): string -> Word {
    k => if k in m then value(m[k]) else 0
  }

  function EntryHash<V>(m: map<string, V>, key: string -> Word, value: V -> Word): string -> Word {
    k => Xor(key(k), ValueHash(m, value)(k))
  }

  /** A map's contribution to the hash, walked in the given order. */
  function MapHash<V>(m: map<string, V>, keys: seq<string>, key: string -> Word, value: V -> Word): Word {
    FoldAll(keys, EntryHash(m, key, value))
  }

  function XorTo(words: seq<Word>, n: nat): Word
    requires n <= |words|
  {
    if n == 0 then 0 else Xor(XorTo(words, n - 1), words[n - 1])
  }

  function XorAll(words: seq<Word>): Word {
    XorTo(words, |words|)
  }

  /** The orders in which a key's three maps are walked; any will do. */
  datatype Walk = Walk(custom: seq<string>, labels: seq<string>, env: seq<string>)

  ghost predicate WalksOf(w: Walk, r: Resource) {
    Walks(w.custom, r.custom.Keys) && Walks(w.labels, r.labels.Keys) && Walks(w.env, r.env.Keys)
  }

  function HeadHash(r: Resource, h: Machine): Word {
    Xor(Xor(Xor(Xor(h.num(r.language), h.str(r.functionId)), h.num(r.cpu)), h.num(r.memory)), h.num(r.concurrency))
  }

  function WithSession(start: Word, s: Option<Session>, h: Machine): Word {
    if s.None? then start else Xor(Xor(start, h.str(s.value.id)), h.num(s.value.ttl))
  }

  /** What follows the custom resources, combined onto `start`. */
  function TailHash(start: Word, r: Resource, w: Walk, h: Machine): Word {
    var labelled := Xor(Xor(start, XorAll(r.affinities)), MapHash(r.labels, w.labels, h.str, h.str));
    var session := Xor(WithSession(labelled, r.session, h), h.str(r.sessionCtxId));
    var env := Xor(session, MapHash(r.env, w.env, h.str, h.str));
    Xor(Xor(Xor(env, h.str(r.ringName)), h.flag(r.debug)), Xor(h.str(r.groupName), h.num(r.bundleIndex)))
  }

  function HashOf(r: Resource, w: Walk, h: Machine): Word {
    TailHash(Xor(HeadHash(r, h), MapHash(r.custom, w.custom, h.str, h.float)), r, w, h)
  }

  // ------------------------------------------------------------------------------------- equality

  function Minus(x: Float, y: Float, round: real -> Float): Float {
    match (x, y)
    case (NaN, _) => NaN
    case (_, NaN) => NaN
    case (Infinite(m), Infinite(n)) => if m == n then NaN else x
    case (Infinite(_), Num(_)) => x
    case (Num(_), Infinite(n)) => Infinite(!n)
    case (Num(v), Num(w)) => round(v - w)
  }

  function Negated(x: Float): Float {
    match x
    case NaN => NaN
    case Infinite(n) => Infinite(!n)
    case Num(v) => Num(-v)
  }

  /** `fabs(x) > range`, which is false of a NaN. */
  predicate AbsExceeds(x: Float, range: real) {
    match x
    case NaN => false
    case Infinite(_) => true
    case Num(v) => v > range || -v > range
  }

  /** The test by which two custom values are told apart. */
  predicate Apart(x: Float, y: Float, round: real -> Float) {
    AbsExceeds(Minus(y, x, round), FLOAT_EQUAL_RANGE)
  }

  /** Rounding does not depend on the sign. */
  ghost predicate OddRounding(round: real -> Float) {
    forall v: real :: round(-v) == Negated(round(v))
  }

  lemma ApartIsSymmetric(x: Float, y: Float, round: real -> Float)
    requires OddRounding(round)
    ensures Apart(x, y, round) <==> Apart(y, x, round)
  {
    if x.Num? && y.Num? {
      assert x.value - y.value == -(y.value - x.value);
      assert Minus(x, y, round) == Negated(Minus(y, x, round));
    }
  }

  /** Sizes agree and every entry of `a` is found in `b`. */
  predicate SameStrings(a: map<string, string>, b: map<string, string>) {
    |a| == |b| && forall k :: k in a ==> k in b && a[k] == b[k]
  }

  predicate SameCustom(a: map<string, Float>, b: map<string, Float>, round: real -> Float) {
    |a| == |b| && forall k :: k in a ==> k in b && !Apart(a[k], b[k], round)
  }

  predicate SamePlain(a: Resource, b: Resource) {
    && a.language == b.language && a.functionId == b.functionId && a.cpu == b.cpu && a.memory == b.memory
    && a.concurrency == b.concurrency && a.session == b.session && a.sessionCtxId == b.sessionCtxId
    && a.ringName == b.ringName && a.deviceName == b.deviceName && a.debug == b.debug
    && a.groupName == b.groupName && a.bundleIndex == b.bundleIndex
  }

  predicate Equal(a: Resource, b: Resource, h: Machine) {
    && SameCustom(a.custom, b.custom, h.round) && SameStrings(a.labels, b.labels) && SameStrings(b.env, a.env)
    && SamePlain(a, b)
    && |a.affinities| == |b.affinities| && Xor(XorAll(a.affinities), XorAll(b.affinities)) == 0
  }

  lemma SameStringsIsEqual(a: map<string, string>, b: map<string, string>)
    ensures SameStrings(a, b) <==> a == b
  {
    if SameStrings(a, b) {
      SameSize(a.Keys, b.Keys);
      assert a == b;
    }
  }

  lemma SameCustomKeys(a: map<string, Float>, b: map<string, Float>, round: real -> Float)
    requires SameCustom(a, b, round)
    ensures a.Keys == b.Keys
  {
    SameSize(a.Keys, b.Keys);
  }

  lemma SameCustomSwaps(a: map<string, Float>, b: map<string, Float>, round: real -> Float)
    requires OddRounding(round) && SameCustom(a, b, round)
    ensures SameCustom(b, a, round)
  {
    SameCustomKeys(a, b, round);
    forall k | k in b ensures !Apart(b[k], a[k], round) { ApartIsSymmetric(a[k], b[k], round); }
  }

  lemma EqualIsSymmetric(a: Resource, b: Resource, h: Machine)
    requires OddRounding(h.round)
    ensures Equal(a, b, h) <==> Equal(b, a, h)
  {
    if SameCustom(a.custom, b.custom, h.round) { SameCustomSwaps(a.custom, b.custom, h.round); }
    if SameCustom(b.custom, a.custom, h.round) { SameCustomSwaps(b.custom, a.custom, h.round); }
    hide Xor, SameCustom, OddRounding;
    SameStringsIsEqual(a.labels, b.labels);
    SameStringsIsEqual(b.labels, a.labels);
    SameStringsIsEqual(a.env, b.env);
    SameStringsIsEqual(b.env, a.env);
    XorCommutes(XorAll(a.affinities), XorAll(b.affinities));
  }

  // ------------------------------------------------------------------------- hash against equality

  /** The one part of the hash on which equal keys can differ. */
  function CustomValuesHash(r: Resource, w: Walk, h: Machine): Word {
    FoldAll(w.custom, ValueHash(r.custom, h.float))
  }

  /** The hash with the custom resources' values taken out. */
  function RestHash(r: Resource, w: Walk, h: Machine): Word {
    TailHash(Xor(HeadHash(r, h), FoldAll(w.custom, h.str)), r, w, h)
  }

  lemma SessionSlides(start: Word, v: Word, s: Option<Session>, h: Machine)
    ensures WithSession(Xor(start, v), s, h) == Xor(WithSession(start, s, h), v)
  {
    hide Xor;
    if s.Some? {
      XorSwaps(start, v, h.str(s.value.id));
      XorSwaps(Xor(start, h.str(s.value.id)), v, h.num(s.value.ttl));
    }
  }

  /** A word combined early may be combined last. */
  lemma TailSlides(start: Word, v: Word, r: Resource, w: Walk, h: Machine)
    ensures TailHash(Xor(start, v), r, w, h) == Xor(TailHash(start, r, w, h), v)
  {
    hide Xor, XorTo, Fold, EntryHash;
    var affinity, labels := XorAll(r.affinities), MapHash(r.labels, w.labels, h.str, h.str);
    var env, group := MapHash(r.env, w.env, h.str, h.str), Xor(h.str(r.groupName), h.num(r.bundleIndex));
    var s0 := start;
    var s1 := Xor(s0, affinity);
    var s2 := Xor(s1, labels);
    var s3 := WithSession(s2, r.session, h);
    var s4 := Xor(s3, h.str(r.sessionCtxId));
    var s5 := Xor(s4, env);
    var s6 := Xor(s5, h.str(r.ringName));
    var s7 := Xor(s6, h.flag(r.debug));
    XorSwaps(s0, v, affinity);
    XorSwaps(s1, v, labels);
    SessionSlides(s2, v, r.session, h);
    XorSwaps(s3, v, h.str(r.sessionCtxId));
    XorSwaps(s4, v, env);
    XorSwaps(s5, v, h.str(r.ringName));
    XorSwaps(s6, v, h.flag(r.debug));
    XorSwaps(s7, v, group);
  }

  lemma HashTakesValuesLast(r: Resource, w: Walk, h: Machine)
    ensures HashOf(r, w, h) == Xor(RestHash(r, w, h), CustomValuesHash(r, w, h))
  {
    hide Xor, Fold, TailHash, HeadHash;
    var keys, values := FoldAll(w.custom, h.str), CustomValuesHash(r, w, h);
    FoldApart(w.custom, EntryHash(r.custom, h.str, h.float), h.str, ValueHash(r.custom, h.float), |w.custom|);
    XorAssociates(HeadHash(r, h), keys, values);
    TailSlides(Xor(HeadHash(r, h), keys), values, r, w, h);
  }

  lemma RestAgrees(a: Resource, v: Walk, b: Resource, w: Walk, h: Machine)
    requires Equal(a, b, h) && WalksOf(v, a) && WalksOf(w, b)
    ensures RestHash(a, v, h) == RestHash(b, w, h)
  {
    hide Xor, Fold, XorTo, EntryHash;
    SameCustomKeys(a.custom, b.custom, h.round);
    SameStringsIsEqual(a.labels, b.labels);
    SameStringsIsEqual(b.env, a.env);
    FoldAnyOrder(v.custom, w.custom, a.custom.Keys, h.str);
    FoldAnyOrder(v.labels, w.labels, a.labels.Keys, EntryHash(a.labels, h.str, h.str));
    FoldAnyOrder(v.env, w.env, a.env.Keys, EntryHash(a.env, h.str, h.str));
    XorCancels(XorAll(a.affinities), XorAll(b.affinities), 0);
  }

  /** Equal keys have equal hashes exactly when their custom resources' values hash alike, in any walks of their
      maps. */
  lemma EqualHashIff(a: Resource, v: Walk, b: Resource, w: Walk, h: Machine)
    requires Equal(a, b, h) && WalksOf(v, a) && WalksOf(w, b)
    ensures HashOf(a, v, h) == HashOf(b, w, h) <==> CustomValuesHash(a, v, h) == CustomValuesHash(b, w, h)
  {
    hide Xor, HashOf, RestHash, CustomValuesHash;
    HashTakesValuesLast(a, v, h);
    HashTakesValuesLast(b, w, h);
    RestAgrees(a, v, b, w, h);
    XorCancels(CustomValuesHash(a, v, h), CustomValuesHash(b, w, h), RestHash(a, v, h));
  }

  /** Equal keys whose custom resources agree exactly have equal hashes. */
  lemma ExactlyEqualHash(a: Resource, v: Walk, b: Resource, w: Walk, h: Machine)
    requires Equal(a, b, h) && a.custom == b.custom && WalksOf(v, a) && WalksOf(w, b)
    ensures HashOf(a, v, h) == HashOf(b, w, h)
  {
    hide Xor, HashOf, Fold;
    FoldAnyOrder(v.custom, w.custom, a.custom.Keys, ValueHash(a.custom, h.float));
    EqualHashIff(a, v, b, w, h);
  }

  /** Values that pass for the same but hash apart break the hash. */
  lemma ToleranceBreaksHash(a: Resource, x: Float, y: Float, w: Walk, h: Machine)
    requires !Apart(x, y, h.round) && h.float(x) != h.float(y)
    requires w == Walk(["npu"], [], []) && a.labels == map[] && a.env == map[] && a.custom == map["npu" := x]
    ensures var b := a.(custom := map["npu" := y]);
      WalksOf(w, a) && WalksOf(w, b) && Equal(a, b, h) && HashOf(a, w, h) != HashOf(b, w, h)
  {
    hide Xor, HashOf, XorTo, Fold, ValueHash, Apart;
    var b := a.(custom := map["npu" := y]);
    XorZero(XorAll(a.affinities));
    OneKey(a.custom, w, h, x);
    OneKey(b.custom, w, h, y);
    EqualHashIff(a, w, b, w, h);
  }

  lemma OneKey(m: map<string, Float>, w: Walk, h: Machine, x: Float)
    requires w.custom == ["npu"] && m == map["npu" := x]
    ensures FoldAll(w.custom, ValueHash(m, h.float)) == h.float(x)
  {
    hide Xor;
    var f := ValueHash(m, h.float);
    assert Fold(w.custom, f, 1) == Xor(Fold(w.custom, f, 0), f("npu"));
    XorZero(h.float(x));
  }

  /** Equality of custom values is not transitive, for numbers one and two tolerances apart whose differences are
      not rounded; and a NaN passes for any value. */
  lemma NotTransitive(x: Float, y: Float, z: Float, any: Float, round: real -> Float)
    requires x == Num(0.0) && y == Num(FLOAT_EQUAL_RANGE) && z == Num(FLOAT_EQUAL_RANGE + FLOAT_EQUAL_RANGE)
    requires round(y.value - x.value) == y && round(z.value - y.value) == y && round(z.value - x.value) == z
    ensures !Apart(x, y, round) && !Apart(y, z, round) && Apart(x, z, round)
    ensures !Apart(NaN, any, round) && !Apart(any, NaN, round)
  {
  }

  /** The same for keys: three that differ only in such a custom value. */
  lemma KeysNotTransitive(a: Resource, x: Float, y: Float, z: Float, h: Machine)
    requires a.custom == map["npu" := x] && !Apart(x, y, h.round) && !Apart(y, z, h.round) && Apart(x, z, h.round)
    ensures var b, c := a.(custom := map["npu" := y]), a.(custom := map["npu" := z]);
      Equal(a, b, h) && Equal(b, c, h) && !Equal(a, c, h)
  {
    hide Xor, XorTo, Apart;
    XorZero(XorAll(a.affinities));
    assert "npu" in a.custom;
  }

  /** Exactly when two steps of equality make one: when no custom value of the first is apart from the third's. */
  lemma TransitiveIff(a: Resource, b: Resource, c: Resource, h: Machine)
    requires Equal(a, b, h) && Equal(b, c, h)
    ensures Equal(a, c, h) <==>
      forall k :: k in a.custom && k in c.custom ==> !Apart(a.custom[k], c.custom[k], h.round)
  {
    hide Xor, XorTo, Apart;
    SameCustomKeys(a.custom, b.custom, h.round);
    SameCustomKeys(b.custom, c.custom, h.round);
    SameStringsIsEqual(a.labels, b.labels);
    SameStringsIsEqual(b.labels, c.labels);
    SameStringsIsEqual(a.labels, c.labels);
    SameStringsIsEqual(b.env, a.env);
    SameStringsIsEqual(c.env, b.env);
    SameStringsIsEqual(c.env, a.env);
    XorCancels(XorAll(a.affinities), XorAll(b.affinities), 0);
    XorCancels(XorAll(b.affinities), XorAll(c.affinities), 0);
    XorCancels(XorAll(a.affinities), XorAll(c.affinities), 0);
  }

  // ------------------------------------------------------------------------------------- the loops

  method AddMap<V>(start: Word, m: map<string, V>, keys: seq<string>, key: string -> Word, value: V -> Word)
    returns (result: Word)
    requires forall k :: k in keys ==> k in m
    ensures result == Xor(start, MapHash(m, keys, key, value))
  {
    hide Xor;
    ghost var f := EntryHash(m, key, value);
    result := start;
    XorZero(start);
    for i := 0 to |keys|
      invariant result == Xor(start, Fold(keys, f, i))
    {
      XorAssociates(start, Fold(keys, f, i), f(keys[i]));
      XorAssociates(result, key(keys[i]), value(m[keys[i]]));
      result := Xor(Xor(result, key(keys[i])), value(m[keys[i]]));
    }
  }

  method AddWords(start: Word, words: seq<Word>) returns (result: Word)
    ensures result == Xor(start, XorAll(words))
  {
    hide Xor;
    result := start;
    XorZero(start);
    for i := 0 to |words|
      invariant result == Xor(start, XorTo(words, i))
    {
      XorAssociates(start, XorTo(words, i), words[i]);
      result := Xor(result, words[i]);
    }
  }

  /** `HashFn`, walking the maps in the given orders. */
  method Hash(r: Resource, w: Walk, h: Machine) returns (result: Word)
    requires WalksOf(w, r)
    ensures result == HashOf(r, w, h)
  {
    hide Xor, Fold, XorTo, EntryHash;
    result := Xor(h.num(r.language), h.str(r.functionId));
    result := Xor(Xor(Xor(result, h.num(r.cpu)), h.num(r.memory)), h.num(r.concurrency));
    result := AddMap(result, r.custom, w.custom, h.str, h.float);
    result := AddWords(result, r.affinities);
    result := AddMap(result, r.labels, w.labels, h.str, h.str);
    if r.session.Some? {
      result := Xor(Xor(result, h.str(r.session.value.id)), h.num(r.session.value.ttl));
    }
    result := Xor(result, h.str(r.sessionCtxId));
    result := AddMap(result, r.env, w.env, h.str, h.str);
    result := Xor(Xor(result, h.str(r.ringName)), h.flag(r.debug));
    result := Xor(result, Xor(h.str(r.groupName), h.num(r.bundleIndex)));
  }

  method SameStringsLoop(a: map<string, string>, b: map<string, string>, keys: seq<string>) returns (same: bool)
    requires Walks(keys, a.Keys)
    ensures same <==> SameStrings(a, b)
  {
    if |a| != |b| { return false; }
    for i := 0 to |keys|
      invariant forall j :: 0 <= j < i ==> keys[j] in b && b[keys[j]] == a[keys[j]]
    {
      assert keys[i] in a;
      if keys[i] !in b || b[keys[i]] != a[keys[i]] { return false; }
    }
    return true;
  }

  method SameCustomLoop(a: map<string, Float>, b: map<string, Float>, keys: seq<string>, round: real -> Float)
    returns (same: bool)
    requires Walks(keys, a.Keys)
    ensures same <==> SameCustom(a, b, round)
  {
    hide Apart;
    if |a| != |b| { return false; }
    for i := 0 to |keys|
      invariant forall j :: 0 <= j < i ==> keys[j] in b && !Apart(a[keys[j]], b[keys[j]], round)
    {
      assert keys[i] in a;
      if keys[i] !in b || Apart(a[keys[i]], b[keys[i]], round) { return false; }
    }
    return true;
  }

  /** `operator==`, walking this key's custom resources and labels and the other's environment. */
  method Equals(a: Resource, b: Resource, h: Machine, w: Walk, env: seq<string>) returns (same: bool)
    requires WalksOf(w, a) && Walks(env, b.env.Keys)
    ensures same <==> Equal(a, b, h)
  {
    hide Xor, XorTo, SameCustom, SameStrings;
    same := SameCustomLoop(a.custom, b.custom, w.custom, h.round);
    if !same || |a.affinities| != |b.affinities| { return false; }
    var affinityHash := AddWords(0, a.affinities);
    XorZero(XorAll(a.affinities));
    affinityHash := AddWords(affinityHash, b.affinities);
    if a.session.Some? || b.session.Some? {
      if a.session.None? || b.session.None? { return false; }
      if a.session.value.id != b.session.value.id { return false; }
      if a.session.value.ttl != b.session.value.ttl { return false; }
    }
    if a.sessionCtxId != b.sessionCtxId { return false; }
    same := SameStringsLoop(a.labels, b.labels, w.labels);
    if !same || b.deviceName != a.deviceName || b.debug != a.debug || b.ringName != a.ringName { return false; }
    same := SameStringsLoop(b.env, a.env, env);
    if !same { return false; }
    return a.language == b.language && a.functionId == b.functionId && a.cpu == b.cpu && a.memory == b.memory
      && a.concurrency == b.concurrency && a.groupName == b.groupName && a.bundleIndex == b.bundleIndex
      && affinityHash == 0;
  }
}
