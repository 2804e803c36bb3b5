/**
  The least-recently-used cache: a recency list of nodes plus a map from keys to nodes of that list.
  The list, most recent first, is the abstract value; the operations are specified on it.
 */
module LruCache {
  import opened Options

  datatype Op<K, V> = Get(key: K) | Insert(key: K, value: V) | Erase(key: K) | Clear

  const DEFAULT_CAPACITY: nat := 20

  function Normalised(capacity: nat): nat {
    if capacity == 0 then DEFAULT_CAPACITY else capacity
  }

  // --------------------------------------------------------------------- the list of entries

  predicate Has<K(==), V>(es: seq<(K, V)>, key: K) {
    exists i :: 0 <= i < |es| && es[i].0 == key
  }

  function Lookup<K(==), V>(es: seq<(K, V)>, key: K): Option<V> {
    if es == [] then None else if es[0].0 == key then Some(es[0].1) else Lookup(es[1..], key)
  }

  function Without<K(==), V>(es: seq<(K, V)>, key: K): seq<(K, V)> {
    if es == [] then [] else if es[0].0 == key then Without(es[1..], key) else [es[0]] + Without(es[1..], key)
  }

  ghost predicate DistinctKeys<K, V>(es: seq<(K, V)>) {
    forall i, j :: 0 <= i < j < |es| ==> es[i].0 != es[j].0
  }

  /** What is pushed out when a new key comes in. */
  function Trimmed<K, V>(capacity: nat, es: seq<(K, V)>): seq<(K, V)>
    requires capacity > 0
  {
    if |es| >= capacity then es[..|es| - 1] else es
  }

  function Apply<K(==), V>(capacity: nat, es: seq<(K, V)>, op: Op<K, V>): seq<(K, V)>
    requires capacity > 0
  {
    match op
    case Get(key) =>
      (match Lookup(es, key)
       case None => es
       case Some(value) => [(key, value)] + Without(es, key))
    case Insert(key, value) =>
      if Lookup(es, key).Some? then [(key, value)] + Without(es, key) else [(key, value)] + Trimmed(capacity, es)
    case Erase(key) => Without(es, key)
    case Clear => []
  }

  function Run<K(==), V>(capacity: nat, ops: seq<Op<K, V>>): seq<(K, V)>
    requires capacity > 0
  {
    if ops == [] then [] else Apply(capacity, Run(capacity, ops[..|ops| - 1]), ops[|ops| - 1])
  }

  // ---------------------------------------------------------------------------- list lemmas

  lemma {:induction false} LookupSpec<K, V>(es: seq<(K, V)>, key: K)
    ensures Lookup(es, key).Some? <==> Has(es, key)
    ensures Lookup(es, key).Some? ==> (key, Lookup(es, key).value) in es
  {
    if es != [] {
      LookupSpec(es[1..], key);
      if Has(es, key) && es[0].0 != key {
        var i :| 0 <= i < |es| && es[i].0 == key;
        assert es[1..][i - 1].0 == key;
      }
    }
  }

  lemma {:induction false} LookupAt<K, V>(es: seq<(K, V)>, i: nat)
    requires DistinctKeys(es) && i < |es|
    ensures Lookup(es, es[i].0) == Some(es[i].1)
  {
    if i > 0 {
      assert es[i] == es[1..][i - 1];
      LookupAt(es[1..], i - 1);
    }
  }

  lemma {:induction false} WithoutSpec<K, V>(es: seq<(K, V)>, key: K)
    ensures !Has(Without(es, key), key) && |Without(es, key)| <= |es|
    ensures forall e :: e in Without(es, key) <==> e in es && e.0 != key
  {
    if es != [] {
      WithoutSpec(es[1..], key);
      assert es == [es[0]] + es[1..];
    }
  }

  lemma {:induction false} WithoutMember<K, V>(es: seq<(K, V)>, key: K, i: nat)
    requires i < |Without(es, key)|
    ensures Without(es, key)[i] in es && Without(es, key)[i].0 != key
  {
    if es[0].0 == key {
      WithoutMember(es[1..], key, i);
    } else if i > 0 {
      WithoutMember(es[1..], key, i - 1);
    }
  }

  lemma {:induction false} WithoutAbsent<K, V>(es: seq<(K, V)>, key: K)
    requires !Has(es, key)
    ensures Without(es, key) == es
  {
    if es != [] {
      assert es[0].0 != key;
      forall i | 0 <= i < |es[1..]| ensures es[1..][i].0 != key { assert es[1..][i] == es[i + 1]; }
      WithoutAbsent(es[1..], key);
    }
  }

  lemma {:induction false} WithoutAt<K, V>(es: seq<(K, V)>, i: nat)
    requires DistinctKeys(es) && i < |es|
    ensures Without(es, es[i].0) == es[..i] + es[i + 1..]
  {
    if i == 0 {
      WithoutAbsent(es[1..], es[0].0);
    } else {
      assert es[i] == es[1..][i - 1];
      WithoutAt(es[1..], i - 1);
      assert [es[0]] + (es[1..][..i - 1] + es[1..][i..]) == es[..i] + es[i + 1..];
    }
  }

  // --------------------------------------------------------------- inclusion between capacities

  predicate Subsequence<T(==)>(a: seq<T>, b: seq<T>) {
    a == [] || (b != [] && ((a[0] == b[0] && Subsequence(a[1..], b[1..])) || Subsequence(a, b[1..])))
  }

  lemma {:induction false} SubsequenceMembers<T>(a: seq<T>, b: seq<T>, x: T)
    requires Subsequence(a, b) && x in a
    ensures x in b
    decreases |b|
  {
    if a[0] == b[0] && Subsequence(a[1..], b[1..]) {
      if x != a[0] { SubsequenceMembers(a[1..], b[1..], x); }
    } else {
      SubsequenceMembers(a, b[1..], x);
    }
  }

  lemma {:induction false} SubsequenceDropsLast<T>(a: seq<T>, b: seq<T>)
    requires Subsequence(a, b) && a != []
    ensures Subsequence(a[..|a| - 1], b)
    decreases |b|
  {
    if a[0] == b[0] && Subsequence(a[1..], b[1..]) {
      if |a| > 1 {
        SubsequenceDropsLast(a[1..], b[1..]);
        assert a[..|a| - 1][1..] == a[1..][..|a| - 2];
      }
    } else {
      SubsequenceDropsLast(a, b[1..]);
    }
  }

  lemma {:induction false} SubsequenceDropsBothLast<T>(a: seq<T>, b: seq<T>)
    requires Subsequence(a, b) && a != []
    ensures Subsequence(a[..|a| - 1], b[..|b| - 1])
    decreases |b|
  {
    if |a| > 1 {
      if a[0] == b[0] && Subsequence(a[1..], b[1..]) {
        SubsequenceDropsBothLast(a[1..], b[1..]);
        assert a[..|a| - 1][1..] == a[1..][..|a| - 2];
        assert b[..|b| - 1][1..] == b[1..][..|b| - 2];
      } else {
        SubsequenceDropsBothLast(a, b[1..]);
        assert b[..|b| - 1][1..] == b[1..][..|b| - 2];
      }
    }
  }

  lemma {:induction false} SubsequenceWithout<K, V>(a: seq<(K, V)>, b: seq<(K, V)>, key: K)
    requires Subsequence(a, b)
    ensures Subsequence(Without(a, key), Without(b, key))
    decreases |b|
  {
    if a != [] {
      if a[0] == b[0] && Subsequence(a[1..], b[1..]) {
        SubsequenceWithout(a[1..], b[1..], key);
        assert b[0].0 != key ==> Without(b, key)[1..] == Without(b[1..], key);
        assert b[0].0 != key ==> Without(a, key)[1..] == Without(a[1..], key);
      } else {
        SubsequenceWithout(a, b[1..], key);
        assert b[0].0 != key ==> Without(b, key)[1..] == Without(b[1..], key);
      }
    }
  }

  lemma SubsequenceCons<T>(x: T, a: seq<T>, b: seq<T>)
    requires Subsequence(a, b)
    ensures Subsequence([x] + a, [x] + b) && Subsequence(a, [x] + b)
  {
    assert ([x] + a)[1..] == a && ([x] + b)[1..] == b;
  }

  /** The small cache's entries are a subsequence of the large one's, which has no fewer free slots. */
  ghost predicate Included<K, V>(c: nat, small: seq<(K, V)>, d: nat, large: seq<(K, V)>) {
    && Subsequence(small, large) && DistinctKeys(large) && DistinctKeys(small)
    && |small| <= c && |large| <= d && c - |small| <= d - |large|
  }

  lemma WithoutSize<K, V>(es: seq<(K, V)>, key: K)
    requires DistinctKeys(es)
    ensures DistinctKeys(Without(es, key))
    ensures |Without(es, key)| == if Has(es, key) then |es| - 1 else |es|
  {
    if Has(es, key) {
      var i :| 0 <= i < |es| && es[i].0 == key;
      WithoutAt(es, i);
    } else {
      WithoutAbsent(es, key);
    }
  }

  lemma FrontDistinct<K, V>(e: (K, V), es: seq<(K, V)>)
    requires DistinctKeys(es) && !Has(es, e.0)
    ensures DistinctKeys([e] + es)
  {
  }

  /** A hit in the small cache is a hit with the same value in the large one. */
  lemma HitsIncluded<K, V>(c: nat, small: seq<(K, V)>, d: nat, large: seq<(K, V)>, key: K)
    requires Included(c, small, d, large)
    ensures Lookup(small, key).Some? ==> Lookup(large, key) == Lookup(small, key)
  {
    if Lookup(small, key).Some? {
      LookupSpec(small, key);
      var e := (key, Lookup(small, key).value);
      SubsequenceMembers(small, large, e);
      var i :| 0 <= i < |large| && large[i] == e;
      LookupAt(large, i);
    }
  }

  lemma TouchKeepsIncluded<K, V>(c: nat, small: seq<(K, V)>, d: nat, large: seq<(K, V)>, key: K, value: V)
    requires Included(c, small, d, large) && Lookup(small, key).Some?
    ensures Included(c, [(key, value)] + Without(small, key), d, [(key, value)] + Without(large, key))
  {
    HitsIncluded(c, small, d, large, key);
    LookupSpec(small, key);
    LookupSpec(large, key);
    WithoutSpec(small, key);
    WithoutSpec(large, key);
    WithoutSize(small, key);
    WithoutSize(large, key);
    SubsequenceWithout(small, large, key);
    SubsequenceCons((key, value), Without(small, key), Without(large, key));
    FrontDistinct((key, value), Without(small, key));
    FrontDistinct((key, value), Without(large, key));
  }

  lemma TrimKeepsIncluded<K, V>(c: nat, small: seq<(K, V)>, d: nat, large: seq<(K, V)>)
    requires c > 0 && d > 0 && Included(c, small, d, large)
    ensures Subsequence(Trimmed(c, small), Trimmed(d, large))
    ensures c - |Trimmed(c, small)| <= d - |Trimmed(d, large)|
  {
    if |small| >= c {
      if |large| >= d { SubsequenceDropsBothLast(small, large); } else { SubsequenceDropsLast(small, large); }
    }
  }

  lemma InsertKeepsIncluded<K, V>(c: nat, small: seq<(K, V)>, d: nat, large: seq<(K, V)>, key: K, value: V)
    requires 0 < c <= d && Included(c, small, d, large) && Lookup(small, key).None?
    ensures Included(c, Apply(c, small, Insert(key, value)), d, Apply(d, large, Insert(key, value)))
  {
    var e := (key, value);
    LookupSpec(small, key);
    LookupSpec(large, key);
    FrontDistinct(e, Trimmed(c, small));
    if Lookup(large, key).Some? {
      WithoutSpec(large, key);
      WithoutSize(large, key);
      FrontDistinct(e, Without(large, key));
      SubsequenceWithout(small, large, key);
      WithoutAbsent(small, key);
      if |small| >= c { SubsequenceDropsLast(small, Without(large, key)); }
      SubsequenceCons(e, Trimmed(c, small), Without(large, key));
    } else {
      FrontDistinct(e, Trimmed(d, large));
      TrimKeepsIncluded(c, small, d, large);
      SubsequenceCons(e, Trimmed(c, small), Trimmed(d, large));
    }
  }

  lemma GetMissKeepsIncluded<K, V>(c: nat, small: seq<(K, V)>, d: nat, large: seq<(K, V)>, key: K)
    requires 0 < c <= d && Included(c, small, d, large) && Lookup(small, key).None? && Lookup(large, key).Some?
    ensures Included(c, small, d, Apply(d, large, Get(key)))
  {
    LookupSpec(small, key);
    LookupSpec(large, key);
    WithoutSpec(large, key);
    WithoutSize(large, key);
    SubsequenceWithout(small, large, key);
    WithoutAbsent(small, key);
    var e := (key, Lookup(large, key).value);
    SubsequenceCons(e, small, Without(large, key));
    FrontDistinct(e, Without(large, key));
  }

  lemma StepKeepsIncluded<K, V>(c: nat, small: seq<(K, V)>, d: nat, large: seq<(K, V)>, op: Op<K, V>)
    requires 0 < c <= d && Included(c, small, d, large)
    ensures Included(c, Apply(c, small, op), d, Apply(d, large, op))
  {
    match op
    case Get(key) =>
      HitsIncluded(c, small, d, large, key);
      if Lookup(small, key).Some? {
        TouchKeepsIncluded(c, small, d, large, key, Lookup(small, key).value);
      } else if Lookup(large, key).Some? {
        GetMissKeepsIncluded(c, small, d, large, key);
      }
    case Insert(key, value) =>
      HitsIncluded(c, small, d, large, key);
      if Lookup(small, key).Some? { TouchKeepsIncluded(c, small, d, large, key, value); }
      else { InsertKeepsIncluded(c, small, d, large, key, value); }
    case Erase(key) =>
      SubsequenceWithout(small, large, key);
      WithoutSize(small, key);
      WithoutSize(large, key);
      HitsIncluded(c, small, d, large, key);
      LookupSpec(small, key);
      LookupSpec(large, key);
    case Clear =>
  }

  /** LRU inclusion: on the same operations a larger cache holds at least what a smaller one holds, in
      the same order and with the same values, so more capacity never turns a hit into a miss. */
  lemma {:induction false} RunsIncluded<K, V>(c: nat, d: nat, ops: seq<Op<K, V>>)
    requires 0 < c <= d
    ensures Included(c, Run(c, ops), d, Run(d, ops))
    ensures forall key :: Lookup(Run(c, ops), key).Some? ==> Lookup(Run(d, ops), key) == Lookup(Run(c, ops), key)
  {
    if ops != [] {
      RunsIncluded(c, d, ops[..|ops| - 1]);
      StepKeepsIncluded(c, Run(c, ops[..|ops| - 1]), d, Run(d, ops[..|ops| - 1]), ops[|ops| - 1]);
    }
    forall key | Lookup(Run(c, ops), key).Some? ensures Lookup(Run(d, ops), key) == Lookup(Run(c, ops), key) {
      HitsIncluded(c, Run(c, ops), d, Run(d, ops), key);
    }
  }

  // -------------------------------------------------------------------- what the list remembers

  /** The last operation that inserted the key or found it, counted from zero; -1 if there is none. */
  function LastTouch<K(==), V>(capacity: nat, ops: seq<Op<K, V>>, key: K): (t: int)
    requires capacity > 0
    ensures -1 <= t < |ops|
  {
    if ops == [] then -1
    else
      var before := ops[..|ops| - 1];
      match ops[|ops| - 1]
      case Insert(k, _) => if k == key then |ops| - 1 else LastTouch(capacity, before, key)
      case Get(k) =>
        if k == key && Lookup(Run(capacity, before), k).Some? then |ops| - 1 else LastTouch(capacity, before, key)
      case _ => LastTouch(capacity, before, key)
  }

  function LastInserted<K(==), V>(ops: seq<Op<K, V>>, key: K): Option<V> {
    if ops == [] then None
    else
      match ops[|ops| - 1]
      case Insert(k, v) => if k == key then Some(v) else LastInserted(ops[..|ops| - 1], key)
      case _ => LastInserted(ops[..|ops| - 1], key)
  }

  /** Most recently touched first, with the values last inserted. */
  ghost predicate Recent<K, V>(capacity: nat, ops: seq<Op<K, V>>, es: seq<(K, V)>)
    requires capacity > 0
  {
    && |es| <= capacity
    && (forall i :: 0 <= i < |es| ==> LastInserted(ops, es[i].0) == Some(es[i].1))
    && (forall i, j :: 0 <= i < j < |es| ==> LastTouch(capacity, ops, es[i].0) > LastTouch(capacity, ops, es[j].0))
  }

  lemma RecentDistinct<K, V>(capacity: nat, ops: seq<Op<K, V>>, es: seq<(K, V)>)
    requires capacity > 0 && Recent(capacity, ops, es)
    ensures DistinctKeys(es)
  {
    forall i, j | 0 <= i < j < |es| ensures es[i].0 != es[j].0 {
      assert LastTouch(capacity, ops, es[i].0) > LastTouch(capacity, ops, es[j].0);
    }
  }

  /** Dropping entries keeps the order; an operation that does not touch a key keeps its record. */
  lemma RemoveKeepsRecent<K, V>(capacity: nat, ops: seq<Op<K, V>>, es: seq<(K, V)>, key: K)
    requires capacity > 0 && Recent(capacity, ops, es)
    ensures Recent(capacity, ops, Without(es, key))
  {
    RecentDistinct(capacity, ops, es);
    if Has(es, key) {
      var i :| 0 <= i < |es| && es[i].0 == key;
      WithoutAt(es, i);
    } else {
      WithoutAbsent(es, key);
    }
  }

  lemma OthersKeepRecord<K, V>(capacity: nat, ops: seq<Op<K, V>>, es: seq<(K, V)>)
    requires capacity > 0 && ops != [] && Recent(capacity, ops[..|ops| - 1], es)
    requires forall i :: 0 <= i < |es| ==>
      ops[|ops| - 1].Clear? || es[i].0 != ops[|ops| - 1].key || ops[|ops| - 1].Erase?
    ensures Recent(capacity, ops, es)
  {
    var before := ops[..|ops| - 1];
    forall i | 0 <= i < |es|
      ensures LastTouch(capacity, ops, es[i].0) == LastTouch(capacity, before, es[i].0)
      ensures LastInserted(ops, es[i].0) == LastInserted(before, es[i].0)
    {
    }
  }

  lemma TouchedGoesFirst<K, V>(capacity: nat, ops: seq<Op<K, V>>, e: (K, V), es: seq<(K, V)>)
    requires capacity > 0 && ops != [] && |es| < capacity && Recent(capacity, ops, es)
    requires LastTouch(capacity, ops, e.0) == |ops| - 1 && LastInserted(ops, e.0) == Some(e.1)
    requires forall i :: 0 <= i < |es| ==> LastTouch(capacity, ops, es[i].0) < |ops| - 1
    ensures Recent(capacity, ops, [e] + es)
  {
  }

  lemma AbsentInLast<K, V>(capacity: nat, ops: seq<Op<K, V>>, es: seq<(K, V)>, key: K)
    requires capacity > 0 && ops != [] && !Has(es, key)
    requires (ops[|ops| - 1].Get? || ops[|ops| - 1].Insert?) && ops[|ops| - 1].key == key
    ensures forall i :: 0 <= i < |es| ==> LastTouch(capacity, ops, es[i].0) < |ops| - 1
  {
  }

  lemma {:induction false} RunIsRecent<K, V>(capacity: nat, ops: seq<Op<K, V>>)
    requires capacity > 0
    ensures Recent(capacity, ops, Run(capacity, ops))
  {
    if ops != [] {
      var before, op := ops[..|ops| - 1], ops[|ops| - 1];
      var es := Run(capacity, before);
      RunIsRecent(capacity, before);
      RecentDistinct(capacity, before, es);
      match op
      case Clear =>
      case Erase(key) =>
        RemoveKeepsRecent(capacity, before, es, key);
        OthersKeepRecord(capacity, ops, Without(es, key));
      case Get(key) =>
        LookupSpec(es, key);
        if Lookup(es, key).Some? { TouchIsRecent(capacity, ops, Lookup(es, key).value); }
        else { OthersKeepRecord(capacity, ops, es); }
      case Insert(key, value) =>
        LookupSpec(es, key);
        if Lookup(es, key).Some? { TouchIsRecent(capacity, ops, value); }
        else {
          var kept := Trimmed(capacity, es);
          OthersKeepRecord(capacity, ops, kept);
          AbsentInLast(capacity, ops, kept, key);
          TouchedGoesFirst(capacity, ops, (key, value), kept);
        }
    }
  }

  lemma TouchIsRecent<K, V>(capacity: nat, ops: seq<Op<K, V>>, value: V)
    requires capacity > 0 && ops != [] && (ops[|ops| - 1].Get? || ops[|ops| - 1].Insert?)
    requires Recent(capacity, ops[..|ops| - 1], Run(capacity, ops[..|ops| - 1]))
    requires Lookup(Run(capacity, ops[..|ops| - 1]), ops[|ops| - 1].key).Some?
    requires if ops[|ops| - 1].Insert? then value == ops[|ops| - 1].value
             else value == Lookup(Run(capacity, ops[..|ops| - 1]), ops[|ops| - 1].key).value
    ensures var key := ops[|ops| - 1].key;
      Recent(capacity, ops, [(key, value)] + Without(Run(capacity, ops[..|ops| - 1]), key))
  {
    var before, key := ops[..|ops| - 1], ops[|ops| - 1].key;
    var es := Run(capacity, before);
    var rest := Without(es, key);
    RecentDistinct(capacity, before, es);
    LookupSpec(es, key);
    var i :| 0 <= i < |es| && es[i].0 == key;
    LookupAt(es, i);
    WithoutSize(es, key);
    WithoutSpec(es, key);
    RemoveKeepsRecent(capacity, before, es, key);
    OthersKeepRecord(capacity, ops, rest);
    AbsentInLast(capacity, ops, rest, key);
    TouchedGoesFirst(capacity, ops, (key, value), rest);
  }

  /** After any run a hit returns the value last inserted for the key, and an insertion that has to
      make room removes the entry whose last touch is the oldest of all. */
  lemma HitsAndEvictions<K, V>(capacity: nat, ops: seq<Op<K, V>>, key: K, value: V)
    requires capacity > 0
    ensures var es := Run(capacity, ops);
      && (Lookup(es, key).Some? ==> LastInserted(ops, key) == Lookup(es, key))
      && (Lookup(es, key).None? && |es| == capacity ==>
            var es' := Apply(capacity, es, Insert(key, value));
            var victim := es[|es| - 1].0;
            && es' == [(key, value)] + es[..|es| - 1] && !Has(es', victim)
            && forall i :: 0 <= i < |es| - 1 ==> LastTouch(capacity, ops, victim) < LastTouch(capacity, ops, es[i].0))
  {
    hide Run, LastTouch, LastInserted;
    var es := Run(capacity, ops);
    RunIsRecent(capacity, ops);
    RecentDistinct(capacity, ops, es);
    LookupSpec(es, key);
    if Lookup(es, key).Some? {
      var i :| 0 <= i < |es| && es[i].0 == key;
      LookupAt(es, i);
    }
  }

  ghost predicate NothingErased<K, V>(ops: seq<Op<K, V>>) {
    forall i :: 0 <= i < |ops| ==> ops[i].Get? || ops[i].Insert?
  }

  /** The last operation that erased the key, alone or with all others; -1 if there is none. */
  function LastErased<K(==), V>(ops: seq<Op<K, V>>, key: K): (t: int)
    ensures -1 <= t < |ops|
  {
    if ops == [] then -1
    else
      match ops[|ops| - 1]
      case Erase(k) => if k == key then |ops| - 1 else LastErased(ops[..|ops| - 1], key)
      case Clear => |ops| - 1
      case _ => LastErased(ops[..|ops| - 1], key)
  }

  /** Unless it is held, a key touched since its last erasure is older than all that is held; and if nothing was
      ever erased, there is no free slot. */
  ghost predicate HeldOrOlder<K, V>(capacity: nat, ops: seq<Op<K, V>>, es: seq<(K, V)>, key: K)
    requires capacity > 0
  {
    LastTouch(capacity, ops, key) > LastErased(ops, key) && !Has(es, key) ==>
      && (forall i :: 0 <= i < |es| ==> LastTouch(capacity, ops, key) < LastTouch(capacity, ops, es[i].0))
      && (NothingErased(ops) ==> |es| == capacity)
  }

  /** After every run the cache holds the most recently touched keys: one that is missing, though touched since it
      was last erased, is older than all that are held. */
  lemma {:induction false} RunHoldsNewest<K, V>(capacity: nat, ops: seq<Op<K, V>>, key: K)
    requires capacity > 0
    ensures HeldOrOlder(capacity, ops, Run(capacity, ops), key)
  {
    hide HeldOrOlder;
    if ops == [] {
      NothingIsMissing<K, V>(capacity, key);
    } else {
      var before, op := ops[..|ops| - 1], ops[|ops| - 1];
      var es := Run(capacity, before);
      RunHoldsNewest(capacity, before, key);
      RunIsRecent(capacity, before);
      if op.Clear? || op.Erase? {
        ErasureHoldsNewest(capacity, ops, key);
      } else {
        LookupSpec(es, op.key);
        if Lookup(es, op.key).Some? {
          TouchHoldsNewest(capacity, ops, key);
        } else if op.Insert? {
          InsertHoldsNewest(capacity, ops, key);
        } else {
          MissHoldsNewest(capacity, ops, key);
        }
      }
    }
  }

  lemma NothingIsMissing<K, V>(capacity: nat, key: K)
    requires capacity > 0
    ensures HeldOrOlder<K, V>(capacity, [], Run<K, V>(capacity, []), key)
  {
  }

  lemma TouchLosesNobody<K, V>(es: seq<(K, V)>, e: (K, V), key: K)
    ensures Has(es, key) ==> Has([e] + Without(es, e.0), key)
  {
    if Has(es, key) {
      var i :| 0 <= i < |es| && es[i].0 == key;
      var es' := [e] + Without(es, e.0);
      if key == e.0 {
        assert es'[0].0 == key;
      } else {
        WithoutSpec(es, e.0);
        assert es[i] in Without(es, e.0);
        var j :| 0 <= j < |Without(es, e.0)| && Without(es, e.0)[j] == es[i];
        assert es'[j + 1].0 == key;
      }
    }
  }

  lemma InsertLosesOnlyLast<K, V>(capacity: nat, es: seq<(K, V)>, e: (K, V), key: K)
    requires capacity > 0
    ensures Has(es, key) && !Has([e] + Trimmed(capacity, es), key) ==> |es| >= capacity && es[|es| - 1].0 == key
  {
    if Has(es, key) && (|es| < capacity || es[|es| - 1].0 != key) {
      var i :| 0 <= i < |es| && es[i].0 == key;
      assert ([e] + Trimmed(capacity, es))[i + 1] == es[i];
    }
  }

  lemma ErasureHoldsNewest<K, V>(capacity: nat, ops: seq<Op<K, V>>, key: K)
    requires capacity > 0 && ops != [] && (ops[|ops| - 1].Clear? || ops[|ops| - 1].Erase?)
    requires HeldOrOlder(capacity, ops[..|ops| - 1], Run(capacity, ops[..|ops| - 1]), key)
    ensures HeldOrOlder(capacity, ops, Run(capacity, ops), key)
  {
    var before, op := ops[..|ops| - 1], ops[|ops| - 1];
    var es, es' := Run(capacity, before), Run(capacity, ops);
    assert !NothingErased(ops);
    if op.Erase? && op.key != key {
      WithoutSpec(es, op.key);
      ErasureLosesOnly(es, op.key, key);
      forall i | 0 <= i < |es'| ensures exists j :: 0 <= j < |es| && es[j] == es'[i] { WithoutMember(es, op.key, i); }
    }
  }

  lemma ErasureLosesOnly<K, V>(es: seq<(K, V)>, erased: K, key: K)
    requires key != erased
    ensures Has(es, key) ==> Has(Without(es, erased), key)
  {
    if Has(es, key) {
      var i :| 0 <= i < |es| && es[i].0 == key;
      WithoutSpec(es, erased);
      assert es[i] in Without(es, erased);
    }
  }

  lemma MissHoldsNewest<K, V>(capacity: nat, ops: seq<Op<K, V>>, key: K)
    requires capacity > 0 && ops != [] && ops[|ops| - 1].Get?
    requires Lookup(Run(capacity, ops[..|ops| - 1]), ops[|ops| - 1].key).None?
    requires HeldOrOlder(capacity, ops[..|ops| - 1], Run(capacity, ops[..|ops| - 1]), key)
    ensures HeldOrOlder(capacity, ops, Run(capacity, ops), key)
  {
    NothingErasedBefore(ops);
  }

  lemma NothingErasedBefore<K, V>(ops: seq<Op<K, V>>)
    requires ops != []
    ensures NothingErased(ops) ==> NothingErased(ops[..|ops| - 1])
  {
  }

  lemma TouchHoldsNewest<K, V>(capacity: nat, ops: seq<Op<K, V>>, key: K)
    requires capacity > 0 && ops != [] && (ops[|ops| - 1].Get? || ops[|ops| - 1].Insert?)
    requires Recent(capacity, ops[..|ops| - 1], Run(capacity, ops[..|ops| - 1]))
    requires Lookup(Run(capacity, ops[..|ops| - 1]), ops[|ops| - 1].key).Some?
    requires HeldOrOlder(capacity, ops[..|ops| - 1], Run(capacity, ops[..|ops| - 1]), key)
    ensures HeldOrOlder(capacity, ops, Run(capacity, ops), key)
  {
    var before, k := ops[..|ops| - 1], ops[|ops| - 1].key;
    var es, es' := Run(capacity, before), Run(capacity, ops);
    NothingErasedBefore(ops);
    RecentDistinct(capacity, before, es);
    WithoutSpec(es, k);
    WithoutSize(es, k);
    LookupSpec(es, k);
    assert es'[0].0 == k && es'[1..] == Without(es, k);
    TouchLosesNobody(es, es'[0], key);
    if !Has(es', key) && LastTouch(capacity, ops, key) > LastErased(ops, key) {
      forall i | 0 <= i < |es'| ensures LastTouch(capacity, ops, key) < LastTouch(capacity, ops, es'[i].0) {
        if i > 0 {
          WithoutMember(es, k, i - 1);
          assert es'[i] == es'[1..][i - 1];
          var j :| 0 <= j < |es| && es[j] == es'[i];
        }
      }
    }
  }

  lemma InsertHoldsNewest<K, V>(capacity: nat, ops: seq<Op<K, V>>, key: K)
    requires capacity > 0 && ops != [] && ops[|ops| - 1].Insert?
    requires Recent(capacity, ops[..|ops| - 1], Run(capacity, ops[..|ops| - 1]))
    requires Lookup(Run(capacity, ops[..|ops| - 1]), ops[|ops| - 1].key).None?
    requires HeldOrOlder(capacity, ops[..|ops| - 1], Run(capacity, ops[..|ops| - 1]), key)
    ensures HeldOrOlder(capacity, ops, Run(capacity, ops), key)
  {
    var before, k := ops[..|ops| - 1], ops[|ops| - 1].key;
    var es, es' := Run(capacity, before), Run(capacity, ops);
    NothingErasedBefore(ops);
    assert es'[0].0 == k && es'[1..] == Trimmed(capacity, es);
    LookupSpec(es, k);
    InsertLosesOnlyLast(capacity, es, es'[0], key);
    if !Has(es', key) && LastTouch(capacity, ops, key) > LastErased(ops, key) {
      forall i | 0 <= i < |es'| ensures LastTouch(capacity, ops, key) < LastTouch(capacity, ops, es'[i].0) {
        if i > 0 { assert es'[i] == es[i - 1] && es[i - 1].0 != k; }
      }
    }
  }

  // ---------------------------------------------------------------------------------- the class

  /** A list node; an iterator into the list is a reference to its node. */
  class Node<K, V> {
    const key: K
    var value: V

    constructor (key: K, value: V)
      ensures this.key == key && this.value == value
    {
      this.key, this.value := key, value;
    }
  }

  ghost function EntriesOf<K, V>(list: seq<Node<K, V>>): (es: seq<(K, V)>)
    reads list
    ensures |es| == |list|
    ensures forall i :: 0 <= i < |es| ==> es[i] == (list[i].key, list[i].value)
  {
    seq(|list|, i requires 0 <= i < |list| reads list => (list[i].key, list[i].value))
  }

  lemma RemoveEntries<K, V>(list: seq<Node<K, V>>, index: map<K, Node<K, V>>, i: nat)
    requires Linked(list, index) && i < |list|
    ensures DistinctKeys(EntriesOf(list)) && EntriesOf(list)[i].0 == list[i].key
    ensures EntriesOf(list[..i] + list[i + 1..]) == Without(EntriesOf(list), list[i].key)
    ensures Lookup(EntriesOf(list), list[i].key) == Some(list[i].value)
  {
    hide Without, Lookup;
    var es := EntriesOf(list);
    WithoutAt(es, i);
    LookupAt(es, i);
    assert EntriesOf(list[..i] + list[i + 1..]) == es[..i] + es[i + 1..];
  }

  lemma PushEntries<K, V>(node: Node<K, V>, list: seq<Node<K, V>>)
    ensures EntriesOf([node] + list) == [(node.key, node.value)] + EntriesOf(list)
  {
  }

  lemma AbsentEntries<K, V>(list: seq<Node<K, V>>, index: map<K, Node<K, V>>, key: K)
    requires Linked(list, index) && key !in index
    ensures Lookup(EntriesOf(list), key) == None && Without(EntriesOf(list), key) == EntriesOf(list)
  {
    LookupSpec(EntriesOf(list), key);
    WithoutAbsent(EntriesOf(list), key);
  }

  /** List keys are distinct and the map sends exactly those keys to their own nodes. */
  ghost predicate Linked<K, V>(list: seq<Node<K, V>>, index: map<K, Node<K, V>>) {
    && (forall i, j :: 0 <= i < j < |list| ==> list[i].key != list[j].key)
    && (forall i :: 0 <= i < |list| ==> list[i].key in index && index[list[i].key] == list[i])
    && (forall k :: k in index ==> index[k] in list && index[k].key == k)
  }

  lemma LinkedMembers<K, V>(list: seq<Node<K, V>>, list': seq<Node<K, V>>, index: map<K, Node<K, V>>)
    requires Linked(list, index) && |list'| == |list|
    requires forall n :: n in list ==> n in list'
    requires forall i, j :: 0 <= i < j < |list'| ==> list'[i].key != list'[j].key
    requires forall n :: n in list' ==> n in list
    ensures Linked(list', index)
  {
    forall i | 0 <= i < |list'| ensures list'[i].key in index && index[list'[i].key] == list'[i] {
      assert list'[i] in list;
    }
  }

  lemma LinkedSplice<K, V>(list: seq<Node<K, V>>, index: map<K, Node<K, V>>, i: nat)
    requires Linked(list, index) && i < |list|
    ensures Linked([list[i]] + (list[..i] + list[i + 1..]), index)
    ensures forall n :: n in [list[i]] + (list[..i] + list[i + 1..]) <==> n in list
  {
    var list' := [list[i]] + (list[..i] + list[i + 1..]);
    SpliceMembers(list, i);
    SpliceDistinct(list, i);
    hide Linked;
    LinkedMembers(list, list', index);
  }

  lemma SpliceMembers<T>(list: seq<T>, i: nat)
    requires i < |list|
    ensures forall n :: n in [list[i]] + (list[..i] + list[i + 1..]) <==> n in list
  {
    var list' := [list[i]] + (list[..i] + list[i + 1..]);
    forall n | n in list ensures n in list' {
      var j :| 0 <= j < |list| && list[j] == n;
      assert n == if j == i then list'[0] else if j < i then list'[j + 1] else list'[j];
    }
  }

  lemma SpliceDistinct<K, V>(list: seq<Node<K, V>>, i: nat)
    requires i < |list| && forall i, j :: 0 <= i < j < |list| ==> list[i].key != list[j].key
    ensures var list' := [list[i]] + (list[..i] + list[i + 1..]);
      forall i, j :: 0 <= i < j < |list'| ==> list'[i].key != list'[j].key
  {
    var list' := [list[i]] + (list[..i] + list[i + 1..]);
    assert forall j :: 0 <= j < |list'| ==> list'[j] == list[if j == 0 then i else if j <= i then j - 1 else j];
  }

  lemma LinkedRemove<K, V>(list: seq<Node<K, V>>, index: map<K, Node<K, V>>, i: nat)
    requires Linked(list, index) && i < |list|
    ensures Linked(list[..i] + list[i + 1..], index - {list[i].key})
  {
    var list', index' := list[..i] + list[i + 1..], index - {list[i].key};
    forall k | k in index' ensures index'[k] in list' {
      var j :| 0 <= j < |list| && list[j] == index[k];
      assert index[k] == if j < i then list'[j] else list'[j - 1];
    }
  }

  lemma LinkedPush<K, V>(list: seq<Node<K, V>>, index: map<K, Node<K, V>>, node: Node<K, V>)
    requires Linked(list, index) && node.key !in index
    ensures Linked([node] + list, index[node.key := node])
  {
    var list', index' := [node] + list, index[node.key := node];
    forall i | 0 <= i < |list'| ensures list'[i].key in index' && index'[list'[i].key] == list'[i] {
      if i > 0 { assert list'[i] == list[i - 1]; }
    }
  }

  lemma PlaceOf<K, V>(list: seq<Node<K, V>>, index: map<K, Node<K, V>>, key: K) returns (i: nat)
    requires Linked(list, index) && key in index
    ensures i < |list| && list[i] == index[key] && list[i].key == key
  {
    i :| 0 <= i < |list| && list[i] == index[key];
  }

  class LRUCache<K(==), V> {
    var capacity: nat
    var recentList: seq<Node<K, V>>
    var cacheMap: map<K, Node<K, V>>

    ghost predicate Valid()
      reads this
    {
      capacity > 0 && |recentList| <= capacity && Linked(recentList, cacheMap)
    }

    ghost function Entries(): seq<(K, V)>
      reads this, recentList
    {
      EntriesOf(recentList)
    }

    constructor (cap: nat)
      ensures Valid() && capacity == Normalised(cap) && Entries() == []
    {
      capacity := if cap == 0 then DEFAULT_CAPACITY else cap;
      recentList, cacheMap := [], map[];
    }

    /** `splice` of one node to the front. */
    method MoveToFront(node: Node<K, V>)
      requires Valid() && node in recentList
      modifies this`recentList
      ensures Valid()
      ensures Entries() == [(node.key, node.value)] + Without(old(Entries()), node.key)
    {
      hide Linked, EntriesOf, Without, Lookup;
      var i :| 0 <= i < |recentList| && recentList[i] == node;
      var rest := recentList[..i] + recentList[i + 1..];
      LinkedSplice(recentList, cacheMap, i);
      RemoveEntries(recentList, cacheMap, i);
      PushEntries(node, rest);
      recentList := [node] + rest;
    }

    method Get(key: K) returns (r: Option<V>)
      requires Valid()
      modifies this`recentList
      ensures Valid() && r == Lookup(old(Entries()), key)
      ensures Entries() == Apply(capacity, old(Entries()), Op.Get(key))
    {
      hide Linked, EntriesOf, Without, Lookup;
      if key !in cacheMap {
        AbsentEntries(recentList, cacheMap, key);
        return None;
      }
      var node := cacheMap[key];
      ghost var i := PlaceOf(recentList, cacheMap, key);
      RemoveEntries(recentList, cacheMap, i);
      var value := node.value;
      MoveToFront(node);
      return Some(value);
    }

    method EvictLast()
      requires Valid() && recentList != []
      modifies this`recentList, this`cacheMap
      ensures Valid() && Entries() == old(Entries())[..|old(Entries())| - 1]
      ensures recentList == old(recentList)[..|old(recentList)| - 1] && cacheMap.Keys <= old(cacheMap.Keys)
    {
      var n := |recentList| - 1;
      LinkedRemove(recentList, cacheMap, n);
      assert recentList[..n] + recentList[n + 1..] == recentList[..n];
      assert EntriesOf(recentList[..n]) == EntriesOf(recentList)[..n];
      cacheMap := cacheMap - {recentList[n].key};
      recentList := recentList[..n];
    }

    /** Insertion of a key the map already has: overwrite the value in the node and move it. */
    method Overwrite(key: K, value: V)
      requires Valid() && key in cacheMap
      modifies this`recentList, recentList
      ensures Valid() && Entries() == Apply(capacity, old(Entries()), Op.Insert(key, value))
    {
      hide Linked, EntriesOf, Without, Lookup;
      var node := cacheMap[key];
      ghost var i := PlaceOf(recentList, cacheMap, key);
      RemoveEntries(recentList, cacheMap, i);
      SetValue(node, value, recentList[..i] + recentList[i + 1..], i);
      RemoveEntries(recentList, cacheMap, i);
      MoveToFront(node);
    }

    /** Writing through the iterator changes no other entry. */
    method SetValue(node: Node<K, V>, value: V, ghost rest: seq<Node<K, V>>, ghost i: nat)
      requires Valid() && i < |recentList| && recentList[i] == node && rest == recentList[..i] + recentList[i + 1..]
      modifies node
      ensures node.value == value && EntriesOf(rest) == old(EntriesOf(rest))
    {
      assert node !in rest;
      node.value := value;
    }

    method Insert(key: K, value: V)
      requires Valid()
      modifies this, recentList
      ensures Valid() && capacity == old(capacity)
      ensures Entries() == Apply(capacity, old(Entries()), Op.Insert(key, value))
    {
      hide Linked, Without, Lookup;
      if key in cacheMap {
        Overwrite(key, value);
        return;
      }
      AbsentEntries(recentList, cacheMap, key);
      if |recentList| >= capacity {
        EvictLast();
      }
      PushFront(key, value);
    }

    method PushFront(key: K, value: V)
      requires Valid() && |recentList| < capacity && key !in cacheMap
      modifies this`recentList, this`cacheMap
      ensures Valid() && Entries() == [(key, value)] + old(Entries())
    {
      var node := new Node(key, value);
      LinkedPush(recentList, cacheMap, node);
      PushEntries(node, recentList);
      recentList := [node] + recentList;
      cacheMap := cacheMap[key := node];
    }

    method Erase(key: K)
      requires Valid()
      modifies this
      ensures Valid() && capacity == old(capacity)
      ensures Entries() == Apply(capacity, old(Entries()), Op.Erase(key))
    {
      hide Linked, EntriesOf, Without, Lookup;
      if key !in cacheMap {
        AbsentEntries(recentList, cacheMap, key);
        return;
      }
      var node := cacheMap[key];
      ghost var j := PlaceOf(recentList, cacheMap, key);
      assert node in recentList && node.key == key;
      Unlink(node);
    }

    /** `erase` of one node from the list and of its key from the map. */
    method Unlink(node: Node<K, V>)
      requires Valid() && node in recentList
      modifies this`recentList, this`cacheMap
      ensures Valid() && Entries() == Without(old(Entries()), node.key)
    {
      hide Linked, EntriesOf, Without, Lookup;
      var i :| 0 <= i < |recentList| && recentList[i] == node;
      LinkedRemove(recentList, cacheMap, i);
      RemoveEntries(recentList, cacheMap, i);
      recentList := recentList[..i] + recentList[i + 1..];
      cacheMap := cacheMap - {node.key};
    }

    method Clear()
      requires Valid()
      modifies this
      ensures Valid() && capacity == old(capacity) && Entries() == []
    {
      recentList, cacheMap := [], map[];
    }
  }
}
