/**
  Splitting invocation arguments into those sent inside the request and those put into the data system
  first (`PreProcessArgs`): arguments are taken in order of size and kept inline while they fit.
 */
module ArgInlining {
  import opened Options
  import opened Sets

  const TWO_64: nat := 0x1_0000_0000_0000_0000
  const BYPASS_DS_INLINE_PAYLOAD_LIMIT: nat := 100 * 1024 * 1024

  /** An argument; `data` is the size of its data object, absent once the argument is a mere reference. */
  datatype InvokeArg = InvokeArg(data: Option<nat>, isRef: bool, objId: string, nestedObjects: set<string>,
                                 tenantId: string)

  datatype PutAnswer = Stored(objId: string) | Refused(code: int)

  datatype Result = Ok | SizeInvalid | PayloadTooLarge | PutFailed(code: int) | RefsRefused(code: int)

  // ----------------------------------------------------------------------------- sums and orders

  ghost predicate Earlier(order: seq<nat>, p: int, q: int) {
    0 <= p < q < |order|
  }

  /** `order` lists argument positions, each at most once, by size. */
  ghost predicate BySize(sizes: seq<nat>, order: seq<nat>) {
    && (forall p :: 0 <= p < |order| ==> order[p] < |sizes|)
    && (forall p, q :: Earlier(order, p, q) ==> order[p] != order[q] && sizes[order[p]] <= sizes[order[q]])
  }

  /** The sizes in the given order. */
  function Ordered(sizes: seq<nat>, order: seq<nat>): (xs: seq<nat>)
    ensures |xs| == |order|
    ensures forall p :: 0 <= p < |order| && order[p] < |sizes| ==> xs[p] == sizes[order[p]]
  {
    seq(|order|, p requires 0 <= p < |order| => if order[p] < |sizes| then sizes[order[p]] else 0)
  }

  ghost predicate Ascending(xs: seq<nat>) {
    forall p, q :: Earlier(xs, p, q) ==> xs[p] <= xs[q]
  }

  /** The sum of the first `n`. */
  function SumTo(xs: seq<nat>, n: nat): nat
    requires n <= |xs|
  {
    if n == 0 then 0 else SumTo(xs, n - 1) + xs[n - 1]
  }

  /** How many of the first `n` stay inline: the longest run from the start that fits. */
  function InlineCount(xs: seq<nat>, limit: nat, n: nat): (k: nat)
    requires n <= |xs|
    ensures k <= n && SumTo(xs, k) <= limit
    ensures k < n ==> SumTo(xs, k + 1) > limit
  {
    if n == 0 then 0
    else
      var k := InlineCount(xs, limit, n - 1);
      if k == n - 1 && SumTo(xs, n) <= limit then n else k
  }

  lemma {:induction false} SumsGrow(xs: seq<nat>, i: nat, j: nat)
    requires i <= j <= |xs|
    ensures SumTo(xs, i) <= SumTo(xs, j)
    decreases j
  {
    if i < j { SumsGrow(xs, i, j - 1); }
  }

  /** The running total plus the next size is within the bound exactly for the arguments that fit. */
  lemma StepFits(xs: seq<nat>, limit: nat, i: nat)
    requires Ascending(xs) && i < |xs|
    ensures var k := InlineCount(xs, limit, |xs|);
      && (i < k ==> SumTo(xs, i) + xs[i] == SumTo(xs, i + 1) <= limit)
      && (k <= i ==> SumTo(xs, k) + xs[i] > limit && SumTo(xs, |xs|) > limit)
  {
    var k := InlineCount(xs, limit, |xs|);
    if i < k {
      SumsGrow(xs, i + 1, k);
    } else {
      assert k < i ==> Earlier(xs, k, i);
      SumsGrow(xs, k + 1, |xs|);
    }
  }

  // ---------------------------------------------------------------------------------- optimality

  /** The total size of a set of arguments. */
  ghost function SumSet(sizes: seq<nat>, s: set<nat>): nat
    requires forall x :: x in s ==> x < |sizes|
    decreases |s|
  {
    if s == {} then 0 else
      var x :| x in s;
      sizes[x] + SumSet(sizes, s - {x})
  }

  lemma {:induction false} SumSetRemove(sizes: seq<nat>, s: set<nat>, x: nat)
    requires (forall y :: y in s ==> y < |sizes|) && x in s
    ensures SumSet(sizes, s) == sizes[x] + SumSet(sizes, s - {x})
    decreases |s|
  {
    var y :| y in s && SumSet(sizes, s) == sizes[y] + SumSet(sizes, s - {y});
    if y != x {
      SumSetRemove(sizes, s - {y}, x);
      SumSetRemove(sizes, s - {x}, y);
      assert s - {y} - {x} == s - {x} - {y};
    }
  }

  /** The positions of the first `n` arguments. */
  function Firsts(order: seq<nat>, n: nat): set<nat>
    requires n <= |order|
  {
    if n == 0 then {} else Firsts(order, n - 1) + {order[n - 1]}
  }

  lemma {:induction false} FirstsMember(order: seq<nat>, n: nat, x: nat)
    requires n <= |order|
    ensures x in Firsts(order, n) <==> exists p :: 0 <= p < n && order[p] == x
  {
    if n > 0 { FirstsMember(order, n - 1, x); }
  }

  lemma FirstsNew(sizes: seq<nat>, order: seq<nat>, n: nat)
    requires BySize(sizes, order) && 0 < n <= |order|
    ensures order[n - 1] !in Firsts(order, n - 1) && Firsts(order, n) - {order[n - 1]} == Firsts(order, n - 1)
  {
    FirstsMember(order, n - 1, order[n - 1]);
    forall p | 0 <= p < n - 1 ensures order[p] != order[n - 1] { assert Earlier(order, p, n - 1); }
  }

  lemma {:induction false} FirstsSize(sizes: seq<nat>, order: seq<nat>, n: nat)
    requires BySize(sizes, order) && n <= |order|
    ensures |Firsts(order, n)| == n && (forall x :: x in Firsts(order, n) ==> x < |sizes|)
  {
    if n > 0 {
      FirstsSize(sizes, order, n - 1);
      FirstsNew(sizes, order, n);
    }
  }

  lemma {:induction false} FirstsSum(sizes: seq<nat>, order: seq<nat>, n: nat)
    requires BySize(sizes, order) && n <= |order| && forall x :: x in Firsts(order, n) ==> x < |sizes|
    ensures SumSet(sizes, Firsts(order, n)) == SumTo(Ordered(sizes, order), n)
  {
    if n > 0 {
      FirstsNew(sizes, order, n);
      FirstsSum(sizes, order, n - 1);
      SumSetRemove(sizes, Firsts(order, n), order[n - 1]);
    }
  }

  lemma OrderedAscends(sizes: seq<nat>, order: seq<nat>)
    requires BySize(sizes, order)
    ensures Ascending(Ordered(sizes, order))
  {
    forall p, q | Earlier(Ordered(sizes, order), p, q) ensures Ordered(sizes, order)[p] <= Ordered(sizes, order)[q] {
      assert Earlier(order, p, q);
    }
  }

  /** How many of the first `n` arguments are in `s`, and their total size. */
  function CountIn(order: seq<nat>, n: nat, s: set<nat>): (m: nat)
    requires n <= |order|
    ensures m <= n
  {
    if n == 0 then 0 else CountIn(order, n - 1, s) + if order[n - 1] in s then 1 else 0
  }

  function SumIn(xs: seq<nat>, order: seq<nat>, n: nat, s: set<nat>): nat
    requires n <= |order| == |xs|
  {
    if n == 0 then 0 else SumIn(xs, order, n - 1, s) + if order[n - 1] in s then xs[n - 1] else 0
  }

  /** Any `m` of the first `n` together are at least as large as the `m` smallest. */
  lemma {:induction false} SmallestAreSmallest(xs: seq<nat>, order: seq<nat>, n: nat, s: set<nat>)
    requires Ascending(xs) && n <= |order| == |xs|
    ensures SumTo(xs, CountIn(order, n, s)) <= SumIn(xs, order, n, s)
  {
    if n > 0 {
      SmallestAreSmallest(xs, order, n - 1, s);
      var m := CountIn(order, n - 1, s);
      assert m < n - 1 ==> Earlier(xs, m, n - 1);
    }
  }

  lemma MeetGrows(s: set<nat>, t: set<nat>, x: nat)
    requires x !in t
    ensures |s * (t + {x})| == |s * t| + if x in s then 1 else 0
  {
    assert s * (t + {x}) == if x in s then s * t + {x} else s * t;
  }

  lemma {:induction false} CountInIsSize(sizes: seq<nat>, order: seq<nat>, n: nat, s: set<nat>)
    requires BySize(sizes, order) && n <= |order|
    ensures |s * Firsts(order, n)| == CountIn(order, n, s)
  {
    if n > 0 {
      CountInIsSize(sizes, order, n - 1, s);
      FirstsNew(sizes, order, n);
      MeetGrows(s, Firsts(order, n - 1), order[n - 1]);
    }
  }

  lemma {:induction false} SumInIsSum(sizes: seq<nat>, order: seq<nat>, n: nat, s: set<nat>)
    requires BySize(sizes, order) && n <= |order| && forall x :: x in s ==> x < |sizes|
    ensures SumSet(sizes, s * Firsts(order, n)) == SumIn(Ordered(sizes, order), order, n, s)
  {
    var now := s * Firsts(order, n);
    if n > 0 {
      SumInIsSum(sizes, order, n - 1, s);
      FirstsNew(sizes, order, n);
      var before, last := s * Firsts(order, n - 1), order[n - 1];
      if last in s {
        assert now - {last} == before;
        SumSetRemove(sizes, now, last);
      } else {
        assert now == before;
      }
    }
  }

  /** An order as long as the arguments lists every one of them. */
  lemma OrderListsAll(sizes: seq<nat>, order: seq<nat>, x: nat)
    requires BySize(sizes, order) && |order| == |sizes| && x < |sizes|
    ensures x in Firsts(order, |order|)
  {
    FirstsSize(sizes, order, |order|);
    SameSize(Firsts(order, |order|), Below(|sizes|));
  }

  function Below(n: nat): (r: set<nat>)
    ensures |r| == n && forall x: nat :: x in r <==> x < n
  {
    if n == 0 then {} else Below(n - 1) + {n - 1}
  }

  /** Greedy inlining is safe and optimal: the inlined arguments fit, and no set of arguments that fits
      has more members. */
  lemma GreedyIsOptimal(sizes: seq<nat>, order: seq<nat>, limit: nat, s: set<nat>)
    requires BySize(sizes, order) && |order| == |sizes|
    requires (forall x :: x in s ==> x < |sizes|) && SumSet(sizes, s) <= limit
    ensures var inlined := Firsts(order, InlineCount(Ordered(sizes, order), limit, |order|));
      (forall x :: x in inlined ==> x < |sizes|) && SumSet(sizes, inlined) <= limit && |s| <= |inlined|
  {
    hide BySize, SumSet, SumTo, CountIn, SumIn, InlineCount, Ordered;
    var xs := Ordered(sizes, order);
    var k := InlineCount(xs, limit, |order|);
    var m := CountIn(order, |order|, s);
    FirstsSize(sizes, order, k);
    FirstsSum(sizes, order, k);
    forall x | x in s ensures x in Firsts(order, |order|) { OrderListsAll(sizes, order, x); }
    assert s * Firsts(order, |order|) == s;
    CountInIsSize(sizes, order, |order|, s);
    SumInIsSum(sizes, order, |order|, s);
    OrderedAscends(sizes, order);
    SmallestAreSmallest(xs, order, |order|, s);
    if m > k { SumsGrow(xs, k + 1, m); }
  }

  // --------------------------------------------------------------------------------- the method

  function SizesOf(args: seq<InvokeArg>): (r: seq<nat>)
    ensures |r| == |args|
    ensures forall i :: 0 <= i < |r| ==> r[i] == if args[i].data.Some? then args[i].data.value else 0
  {
    seq(|args|, i requires 0 <= i < |args| => if args[i].data.Some? then args[i].data.value else 0)
  }

  /** What `sort` leaves in the index vector: all positions, by size; the order of equal sizes is open. */
  ghost predicate SortedIndex(args: seq<InvokeArg>, order: seq<nat>) {
    |order| == |args| && BySize(SizesOf(args), order)
  }

  /** The objects the first `n` arguments keep alive while the request is under way. */
  function HeldBy(args: seq<InvokeArg>, order: seq<nat>, n: nat): set<string>
    requires n <= |order|
  {
    if n == 0 || order[n - 1] >= |args| then {} else HeldBy(args, order, n - 1) + Held(args[order[n - 1]])
  }

  function Held(a: InvokeArg): set<string> {
    if a.isRef then a.nestedObjects + {a.objId} else a.nestedObjects
  }

  function Reference(a: InvokeArg, objId: string): InvokeArg {
    InvokeArg(None, true, objId, {}, a.tenantId)
  }

  /** The ids the data system gave to the arguments from place `k` to `n`. */
  function Stores(puts: seq<PutAnswer>, k: nat, n: nat): set<string>
    requires n <= |puts|
  {
    if n == 0 then {} else Stores(puts, k, n - 1) + if k < n && puts[n - 1].Stored? then {puts[n - 1].objId} else {}
  }

  /** Of the first `n` in size order those from `k` on have become references; all others are as before. */
  ghost predicate SplitAt(before: seq<InvokeArg>, after: seq<InvokeArg>, order: seq<nat>, puts: seq<PutAnswer>,
                          k: nat, n: nat)
    requires n <= |order| == |puts|
  {
    && |after| == |before|
    && forall p :: 0 <= p < |order| && order[p] < |before| ==>
      if k <= p < n then puts[p].Stored? && after[order[p]] == Reference(before[order[p]], puts[p].objId)
      else after[order[p]] == before[order[p]]
  }

  lemma SplitGrows(before: seq<InvokeArg>, after: seq<InvokeArg>, order: seq<nat>, puts: seq<PutAnswer>, k: nat, i: nat)
    requires k <= i < |order| == |puts| && puts[i].Stored? && order[i] < |before|
    requires forall p, q :: Earlier(order, p, q) ==> order[p] != order[q]
    requires SplitAt(before, after, order, puts, k, i)
    ensures SplitAt(before, after[order[i] := Reference(before[order[i]], puts[i].objId)], order, puts, k, i + 1)
  {
    forall p | 0 <= p < |order| && p != i ensures order[p] != order[i] {
      assert Earlier(order, p, i) || Earlier(order, i, p);
    }
  }

  /** Unsigned 64-bit addition of 64-bit numbers. */
  function Add64(a: nat, b: nat): nat {
    if a + b >= TWO_64 then a + b - TWO_64 else a + b
  }

  function Bound(bypass: bool, limit: nat): nat {
    if bypass then BYPASS_DS_INLINE_PAYLOAD_LIMIT else limit
  }

  ghost predicate Input(args: seq<InvokeArg>, order: seq<nat>, limit: nat, puts: seq<PutAnswer>) {
    && SortedIndex(args, order) && |puts| == |order| && limit < TWO_64
    && forall i :: 0 <= i < |args| ==> args[i].data.Some? && args[i].data.value < TWO_64
  }

  /** What the loop needs to know about its input; `xs` are the sizes in order. */
  ghost predicate Prepared(before: seq<InvokeArg>, order: seq<nat>, xs: seq<nat>, limit: nat, puts: seq<PutAnswer>) {
    && |order| == |puts| == |xs| && limit < TWO_64 && Ascending(xs)
    && (forall p :: 0 <= p < |order| ==> order[p] < |before| && before[order[p]].data == Some(xs[p]) && xs[p] < TWO_64)
    && (forall p, q :: Earlier(order, p, q) ==> order[p] != order[q])
  }

  lemma InputIsPrepared(before: seq<InvokeArg>, order: seq<nat>, limit: nat, puts: seq<PutAnswer>)
    requires Input(before, order, limit, puts)
    ensures Prepared(before, order, Ordered(SizesOf(before), order), limit, puts)
  {
    OrderedAscends(SizesOf(before), order);
  }

  /** The arguments and the running total before the `n`-th pass. */
  ghost predicate At(args: seq<InvokeArg>, total: nat, before: seq<InvokeArg>, order: seq<nat>, xs: seq<nat>,
                     bound: nat,
                     puts: seq<PutAnswer>, n: nat)
    requires n <= |order| == |puts| == |xs|
  {
    var k := InlineCount(xs, bound, |xs|);
    SplitAt(before, args, order, puts, k, n) && total == SumTo(xs, if n < k then n else k) <= bound
  }

  /** What becomes of the argument at place `p` if the loop gets there. */
  ghost function Outcome(xs: seq<nat>, bypass: bool, bound: nat, puts: seq<PutAnswer>, p: nat): Result
    requires p < |xs| == |puts|
  {
    var k := InlineCount(xs, bound, |xs|);
    if p < k then Ok
    else if SumTo(xs, k) + xs[p] >= TWO_64 then SizeInvalid
    else if bypass then PayloadTooLarge
    else if puts[p].Refused? then PutFailed(puts[p].code)
    else Ok
  }

  /** The argument at place `p` fits, or can be stored. */
  ghost predicate Placeable(xs: seq<nat>, bypass: bool, bound: nat, puts: seq<PutAnswer>, p: nat)
    requires p < |xs| == |puts|
  {
    Outcome(xs, bypass, bound, puts, p).Ok?
  }

  /** The run stops at place `i`, the first that cannot be placed, with that place's error. */
  ghost predicate StopsAt(r: Result, xs: seq<nat>, bypass: bool, bound: nat, puts: seq<PutAnswer>, i: nat)
    requires i < |xs| == |puts|
  {
    AllPlaceable(xs, bypass, bound, puts, i) && r == Outcome(xs, bypass, bound, puts, i) && !r.Ok?
  }

  ghost predicate AllPlaceable(xs: seq<nat>, bypass: bool, bound: nat, puts: seq<PutAnswer>, n: nat)
    requires n <= |xs| == |puts|
  {
    n == 0 || (AllPlaceable(xs, bypass, bound, puts, n - 1) && Placeable(xs, bypass, bound, puts, n - 1))
  }

  lemma {:induction false} AllPlaceableSpec(xs: seq<nat>, bypass: bool, bound: nat, puts: seq<PutAnswer>, n: nat)
    requires n <= |xs| == |puts|
    ensures AllPlaceable(xs, bypass, bound, puts, n) <==>
      forall p :: 0 <= p < n ==> Placeable(xs, bypass, bound, puts, p)
  {
    if n > 0 { AllPlaceableSpec(xs, bypass, bound, puts, n - 1); }
  }

  lemma KeepInline(args: seq<InvokeArg>, total: nat, before: seq<InvokeArg>, order: seq<nat>, xs: seq<nat>, bound: nat,
                   puts: seq<PutAnswer>, i: nat)
    requires i < |order| == |puts| == |xs| && i < InlineCount(xs, bound, |xs|) && SumTo(xs, i + 1) <= bound
    requires At(args, total, before, order, xs, bound, puts, i)
    ensures At(args, total + xs[i], before, order, xs, bound, puts, i + 1)
  {
  }

  lemma MakeReference(args: seq<InvokeArg>, total: nat, before: seq<InvokeArg>, order: seq<nat>, xs: seq<nat>,
                      bound: nat,
                      puts: seq<PutAnswer>, i: nat)
    requires i < |order| == |puts| == |xs| && order[i] < |before| && puts[i].Stored?
    requires forall p, q :: Earlier(order, p, q) ==> order[p] != order[q]
    requires InlineCount(xs, bound, |xs|) <= i && At(args, total, before, order, xs, bound, puts, i)
    ensures |args| == |before|
    ensures At(args[order[i] := Reference(before[order[i]], puts[i].objId)], total, before, order, xs, bound, puts,
               i + 1)
  {
    SplitGrows(before, args, order, puts, InlineCount(xs, bound, |xs|), i);
  }

  /** With bypass everything can be placed exactly when the whole request is within the payload limit. */
  lemma BypassIsAllOrNothing(xs: seq<nat>, puts: seq<PutAnswer>)
    requires Ascending(xs) && |puts| == |xs|
    ensures AllPlaceable(xs, true, BYPASS_DS_INLINE_PAYLOAD_LIMIT, puts, |xs|)
       <==> SumTo(xs, |xs|) <= BYPASS_DS_INLINE_PAYLOAD_LIMIT
    ensures SumTo(xs, |xs|) <= BYPASS_DS_INLINE_PAYLOAD_LIMIT ==>
      InlineCount(xs, BYPASS_DS_INLINE_PAYLOAD_LIMIT, |xs|) == |xs|
  {
    var k := InlineCount(xs, BYPASS_DS_INLINE_PAYLOAD_LIMIT, |xs|);
    AllPlaceableSpec(xs, true, BYPASS_DS_INLINE_PAYLOAD_LIMIT, puts, |xs|);
    if k < |xs| {
      StepFits(xs, BYPASS_DS_INLINE_PAYLOAD_LIMIT, k);
      assert !Placeable(xs, true, BYPASS_DS_INLINE_PAYLOAD_LIMIT, puts, k);
    }
  }

  function Refusal(sum: nat, bypass: bool, put: PutAnswer): Result {
    if sum >= TWO_64 then SizeInvalid else if bypass || put.Stored? then PayloadTooLarge else PutFailed(put.code)
  }

  /** The loop body: keep the argument inline if it fits, else store it, else fail. */
  method TakeArg(args: array<InvokeArg>, at: nat, bypass: bool, limit: nat, put: PutAnswer, totalSize: nat)
    returns (r: Result, total: nat, held: set<string>, big: set<string>)
    requires at < args.Length && args[at].data.Some? && args[at].data.value < TWO_64
    requires limit < TWO_64 && totalSize < TWO_64
    modifies args
    ensures var arg := old(args[at]);
      var sum := totalSize + arg.data.value;
      var fits := sum <= Bound(bypass, limit);
      && (r.Ok? <==> fits || (!bypass && put.Stored? && sum < TWO_64))
      && (!r.Ok? ==> args[..] == old(args[..]) && r == Refusal(sum, bypass, put))
      && held == Held(arg)
      && (fits ==> total == sum && big == {} && args[..] == old(args[..]))
      && (r.Ok? && !fits ==> total == totalSize && put.Stored? && big == {put.objId})
      && (r.Ok? && !fits ==> args[..] == old(args[..])[at := Reference(arg, put.objId)])
  {
    var arg := args[at];
    total, held, big := totalSize, Held(arg), {};
    var size := arg.data.value;
    var tmpTotalSize := Add64(totalSize, size);
    if tmpTotalSize < size { return SizeInvalid, total, held, big; }
    if bypass && tmpTotalSize > BYPASS_DS_INLINE_PAYLOAD_LIMIT { return PayloadTooLarge, total, held, big; }
    if !bypass && tmpTotalSize > limit {
      if put.Refused? { return PutFailed(put.code), total, held, big; }
      big := {put.objId};
      args[at] := Reference(arg, put.objId);
    } else {
      total := totalSize + size;
    }
    r := Ok;
  }

  /** One pass at place `i` of the size order. */
  method Pass(args: array<InvokeArg>, ghost before: seq<InvokeArg>, order: seq<nat>, ghost xs: seq<nat>, i: nat,
              bypass: bool, limit: nat, puts: seq<PutAnswer>, totalSize: nat)
    returns (r: Result, total: nat, held: set<string>, big: set<string>)
    requires Prepared(before, order, xs, limit, puts) && i < |order|
    requires At(args[..], totalSize, before, order, xs, Bound(bypass, limit), puts, i)
    modifies args
    ensures r == Outcome(xs, bypass, Bound(bypass, limit), puts, i)
    ensures r.Ok? ==> At(args[..], total, before, order, xs, Bound(bypass, limit), puts, i + 1)
    ensures order[i] < |before| && held == Held(before[order[i]])
    ensures r.Ok? ==>
      big == if InlineCount(xs, Bound(bypass, limit), |xs|) <= i && puts[i].Stored? then {puts[i].objId} else {}
  {
    ghost var bound := Bound(bypass, limit);
    ghost var was := args[..];
    StepFits(xs, bound, i);
    assert args[order[i]] == was[order[i]] == before[order[i]];
    r, total, held, big := TakeArg(args, order[i], bypass, limit, puts[i], totalSize);
    if r.Ok? {
      if i < InlineCount(xs, bound, |xs|) {
        KeepInline(was, totalSize, before, order, xs, bound, puts, i);
      } else {
        MakeReference(was, totalSize, before, order, xs, bound, puts, i);
      }
    }
  }

  /** What a successful run over the first `n` places leaves behind. */
  ghost predicate Placed(args: seq<InvokeArg>, total: nat, objIds: set<string>, bigObjIds: set<string>,
                         before: seq<InvokeArg>,
                         order: seq<nat>, xs: seq<nat>, bound: nat, puts: seq<PutAnswer>, n: nat)
    requires n <= |order| == |puts| == |xs|
  {
    && At(args, total, before, order, xs, bound, puts, n)
    && objIds == HeldBy(before, order, n)
    && bigObjIds == Stores(puts, InlineCount(xs, bound, |xs|), n)
  }

  lemma NonePlaced(before: seq<InvokeArg>, order: seq<nat>, xs: seq<nat>, bound: nat, puts: seq<PutAnswer>)
    requires |order| == |puts| == |xs|
    ensures Placed(before, 0, {}, {}, before, order, xs, bound, puts, 0)
  {
  }

  lemma OneFails(r: Result, xs: seq<nat>, bypass: bool, bound: nat, puts: seq<PutAnswer>, i: nat)
    requires i < |xs| == |puts| && StopsAt(r, xs, bypass, bound, puts, i)
    ensures !AllPlaceable(xs, bypass, bound, puts, |xs|)
  {
    AllPlaceableSpec(xs, bypass, bound, puts, |xs|);
    assert !Placeable(xs, bypass, bound, puts, i);
  }

  method PassAndRecord(args: array<InvokeArg>, ghost before: seq<InvokeArg>, order: seq<nat>, ghost xs: seq<nat>,
                       i: nat,
                       bypass: bool, limit: nat, puts: seq<PutAnswer>,
                       totalSize: nat, objIds: set<string>, bigObjIds: set<string>)
    returns (r: Result, total: nat, objIds': set<string>, bigObjIds': set<string>)
    requires Prepared(before, order, xs, limit, puts) && i < |order|
    requires Placed(args[..], totalSize, objIds, bigObjIds, before, order, xs, Bound(bypass, limit), puts, i)
    modifies args
    ensures r == Outcome(xs, bypass, Bound(bypass, limit), puts, i)
    ensures r.Ok? ==> Placed(args[..], total, objIds', bigObjIds', before, order, xs, Bound(bypass, limit), puts, i + 1)
  {
    var held, big;
    r, total, held, big := Pass(args, before, order, xs, i, bypass, limit, puts, totalSize);
    objIds', bigObjIds' := objIds + held, bigObjIds + big;
  }

  /** All passes, given the sizes in order. */
  method PlaceAll(args: array<InvokeArg>, ghost before: seq<InvokeArg>, order: seq<nat>, ghost xs: seq<nat>,
                  bypass: bool, limit: nat, puts: seq<PutAnswer>)
    returns (r: Result, totalSize: nat, objIds: set<string>, bigObjIds: set<string>)
    requires before == args[..] && |order| == |puts| == |xs| && Prepared(before, order, xs, limit, puts)
    modifies args
    ensures r.Ok? <==> AllPlaceable(xs, bypass, Bound(bypass, limit), puts, |order|)
    ensures !r.Ok? ==> exists i: nat :: i < |order| && StopsAt(r, xs, bypass, Bound(bypass, limit), puts, i)
    ensures r.Ok? ==>
      Placed(args[..], totalSize, objIds, bigObjIds, before, order, xs, Bound(bypass, limit), puts, |order|)
  {
    hide Placed, Prepared;
    ghost var bound := Bound(bypass, limit);
    r, totalSize, objIds, bigObjIds := Ok, 0, {}, {};
    NonePlaced(before, order, xs, bound, puts);
    for i := 0 to |order|
      invariant r.Ok? && AllPlaceable(xs, bypass, bound, puts, i)
      invariant Placed(args[..], totalSize, objIds, bigObjIds, before, order, xs, bound, puts, i)
    {
      r, totalSize, objIds, bigObjIds :=
        PassAndRecord(args, before, order, xs, i, bypass, limit, puts, totalSize, objIds, bigObjIds);
      if !r.Ok? {
        assert StopsAt(r, xs, bypass, Bound(bypass, limit), puts, i);
        OneFails(r, xs, bypass, bound, puts, i);
        return;
      }
    }
  }

  /** `puts` is what the data system would answer for the argument at each place of the size order, `refCode` what the
      memory store answers when asked to keep the arguments' objects alive.  The request goes out exactly when every
      argument can be placed and the objects, if any, are kept; `Placed` tells what became of each argument, and
      `bound` holds the objects tied to the request. */
  method PreProcessArgs(args: array<InvokeArg>, order: seq<nat>, bypass: bool, limit: nat, puts: seq<PutAnswer>,
                        refCode: int)
    returns (r: Result, totalSize: nat, objIds: set<string>, bigObjIds: set<string>, bound: set<string>)
    requires Input(args[..], order, limit, puts)
    modifies args
    ensures var xs := Ordered(old(SizesOf(args[..])), order);
      var placeable := AllPlaceable(xs, bypass, Bound(bypass, limit), puts, |order|);
      var refused := HeldBy(old(args[..]), order, |order|) != {} && refCode != 0;
      && (!placeable ==> exists i: nat :: i < |order| && StopsAt(r, xs, bypass, Bound(bypass, limit), puts, i))
      && (placeable ==> r == if refused then RefsRefused(refCode) else Ok)
      && (placeable ==>
            Placed(args[..], totalSize, objIds, bigObjIds, old(args[..]), order, xs, Bound(bypass, limit), puts,
                   |order|))
    ensures bound == if r.Ok? then objIds + bigObjIds else {}
  {
    ghost var before := args[..];
    InputIsPrepared(before, order, limit, puts);
    hide Input, Placed, StopsAt, AllPlaceable;
    r, totalSize, objIds, bigObjIds :=
      PlaceAll(args, before, order, Ordered(SizesOf(before), order), bypass, limit, puts);
    bound := {};
    if !r.Ok? { return; }
    HeldWhenPlaced(args[..], totalSize, objIds, bigObjIds, before, order, Ordered(SizesOf(before), order),
                   Bound(bypass, limit), puts);
    if objIds != {} && refCode != 0 {
      r := RefsRefused(refCode);
      return;
    }
    bound := objIds + bigObjIds;
  }

  lemma HeldWhenPlaced(args: seq<InvokeArg>, total: nat, objIds: set<string>, bigObjIds: set<string>,
                       before: seq<InvokeArg>,
                       order: seq<nat>, xs: seq<nat>, bound: nat, puts: seq<PutAnswer>)
    requires |order| == |puts| == |xs|
    requires Placed(args, total, objIds, bigObjIds, before, order, xs, bound, puts, |order|)
    ensures objIds == HeldBy(before, order, |order|)
  {
  }
}
