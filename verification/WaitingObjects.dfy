/**
  Waiting for return objects (`WaitingEntity`, `WaitingObjectManager`) against the memory store that
  reports them.  This module holds the data, the functions every operation is specified by, and the
  classes; `WaitingProtocol` interleaves the same functions between any number of threads.
 */
module WaitingObjects {

  type Id = string

  datatype ErrorInfo = ErrorInfo(code: int, msg: string) {
    predicate OK() { code == 0 }
  }

  const NO_ERROR := ErrorInfo(0, "")

  predicate NoDup(ids: seq<Id>) {
    forall i, j :: 0 <= i < j < |ids| ==> ids[i] != ids[j]
  }

  // ------------------------------------------------------------------------------- the entity

  /** A one-shot waiter. `promiseSets` counts the calls of `promise::set_value`, which must not exceed one. */
  datatype Entity = Entity(minReadyNum: int, readyNum: nat, exceptionNum: nat, readyObjIds: seq<Id>,
                           exceptionIds: map<Id, ErrorInfo>, isFinished: bool, promiseSets: nat)

  function NewEntity(minReadyNum: int): Entity {
    Entity(minReadyNum, 0, 0, [], map[], false, 0)
  }

  function Fulfil(e: Entity): Entity {
    if e.readyNum + e.exceptionNum >= e.minReadyNum && !e.isFinished
    then e.(isFinished := true, promiseSets := e.promiseSets + 1) else e
  }

  function Notified(e: Entity, id: Id): Entity {
    Fulfil(e.(readyNum := e.readyNum + 1, readyObjIds := e.readyObjIds + [id]))
  }

  function Errored(e: Entity, id: Id, err: ErrorInfo): Entity {
    Fulfil(e.(exceptionIds := e.exceptionIds[id := err], exceptionNum := e.exceptionNum + 1))
  }

  datatype Delivery = Ready(id: Id) | Failed(id: Id, err: ErrorInfo)

  function Receive(e: Entity, d: Delivery): Entity {
    match d
    case Ready(id) => Notified(e, id)
    case Failed(id, err) => Errored(e, id, err)
  }

  function ReceiveAll(e: Entity, ds: seq<Delivery>): Entity {
    if ds == [] then e else Receive(ReceiveAll(e, ds[..|ds| - 1]), ds[|ds| - 1])
  }

  /** One-shot: for any deliveries, repeated ids included, the promise is set exactly when the number
      of deliveries reaches the threshold, and never a second time. */
  lemma {:induction false} PromiseSetOnce(threshold: int, ds: seq<Delivery>)
    requires threshold >= 1
    ensures var e := ReceiveAll(NewEntity(threshold), ds);
      && e.readyNum + e.exceptionNum == |ds| && e.minReadyNum == threshold
      && e.isFinished == (|ds| >= threshold)
      && e.promiseSets == if |ds| >= threshold then 1 else 0
  {
    if ds != [] { PromiseSetOnce(threshold, ds[..|ds| - 1]); }
  }

  // --------------------------------------------------------------------- one round of waiting

  /** What the scan has sorted the ids into so far; `exceptions` is the caller's map, only added to. */
  datatype Sorted = Sorted(ready: seq<Id>, unready: seq<Id>, exceptions: map<Id, ErrorInfo>)

  /** What the store answers about an id when the scan asks. */
  datatype Reading = Reading(isReady: bool, lastError: ErrorInfo)

  datatype Verdict = Pending | Good | Bad

  /** How the scan judges an id; being in the unready map only matters while the store says "not ready". */
  function Judge(inMap: bool, r: Reading): Verdict {
    if inMap && !r.isReady then Pending else if r.lastError.OK() then Good else Bad
  }

  /** The body of the scan loop; an id found ready is also dropped from the unready map. */
  function SortOne(a: Sorted, id: Id, inMap: bool, r: Reading): Sorted {
    match Judge(inMap, r)
    case Pending => a.(unready := a.unready + [id])
    case Good => a.(ready := a.ready + [id])
    case Bad => if id in a.exceptions then a else a.(exceptions := a.exceptions[id := r.lastError])
  }

  function SortAll(a: Sorted, ids: seq<Id>, inMap: set<Id>, rs: seq<Reading>): Sorted
    requires |ids| == |rs|
  {
    if ids == [] then a
    else
      var n := |ids| - 1;
      SortOne(SortAll(a, ids[..n], inMap, rs[..n]), ids[n], ids[n] in inMap, rs[n])
  }

  predicate Enough(a: Sorted, minReadyNum: int) {
    |a.ready| + |a.exceptions| >= minReadyNum
  }

  /** The entries of `ids` that are in neither collection, in order. */
  function Leftover(ids: seq<Id>, ready: seq<Id>, exceptions: map<Id, ErrorInfo>): seq<Id> {
    if ids == [] then []
    else
      var front := Leftover(ids[..|ids| - 1], ready, exceptions);
      var last := ids[|ids| - 1];
      if last !in ready && last !in exceptions then front + [last] else front
  }

  lemma {:induction false} LeftoverSpec(ids: seq<Id>, ready: seq<Id>, exceptions: map<Id, ErrorInfo>)
    requires NoDup(ids)
    ensures NoDup(Leftover(ids, ready, exceptions))
    ensures forall id :: id in Leftover(ids, ready, exceptions) <==> id in ids && id !in ready && id !in exceptions
  {
    if ids != [] {
      var n := |ids| - 1;
      LeftoverSpec(ids[..n], ready, exceptions);
      assert ids == ids[..n] + [ids[n]];
      assert ids[n] !in ids[..n];
    }
  }

  /** Each waited-for id is in exactly one of the three parts, and listed there once. */
  ghost predicate Partition(ids: seq<Id>, ready: seq<Id>, unready: seq<Id>, exceptions: map<Id, ErrorInfo>) {
    && NoDup(ready) && NoDup(unready)
    && (forall id :: id in ids <==> id in ready || id in unready || id in exceptions)
    && (forall id :: id in ready ==> id !in unready && id !in exceptions)
    && (forall id :: id in unready ==> id !in exceptions)
  }

  function SetOf(ids: seq<Id>): set<Id> { set id | id in ids }

  lemma {:induction false} NoDupSize(ids: seq<Id>)
    requires NoDup(ids)
    ensures |SetOf(ids)| == |ids|
  {
    if ids != [] {
      var n := |ids| - 1;
      NoDupSize(ids[..n]);
      assert ids[n] !in ids[..n];
      assert SetOf(ids) == SetOf(ids[..n]) + {ids[n]};
    }
  }

  lemma PartitionSize(ids: seq<Id>, ready: seq<Id>, unready: seq<Id>, exceptions: map<Id, ErrorInfo>)
    requires NoDup(ids) && Partition(ids, ready, unready, exceptions)
    ensures |ids| == |ready| + |unready| + |exceptions|
  {
    hide NoDup;
    NoDupSize(ids);
    NoDupSize(ready);
    NoDupSize(unready);
    var a, b, c := SetOf(ready), SetOf(unready), exceptions.Keys;
    assert SetOf(ids) == a + b + c;
    assert a !! b && (a + b) !! c;
    DisjointSize(a, b, c);
  }

  lemma DisjointSize(a: set<Id>, b: set<Id>, c: set<Id>)
    requires a !! b && (a + b) !! c
    ensures |a + b + c| == |a| + |b| + |c|
  {
  }

  /** The scan met `id` and judged it `v`. */
  ghost predicate Judged(ids: seq<Id>, inMap: set<Id>, rs: seq<Reading>, id: Id, v: Verdict)
    requires |ids| == |rs|
  {
    exists i :: 0 <= i < |ids| && ids[i] == id && Judge(id in inMap, rs[i]) == v
  }

  /** What a finished scan made of each id. */
  ghost predicate SortedAs(a: Sorted, carried: map<Id, ErrorInfo>, ids: seq<Id>, inMap: set<Id>, rs: seq<Reading>)
    requires |ids| == |rs|
  {
    && NoDup(a.ready) && NoDup(a.unready)
    && (forall id :: id in a.ready <==> Judged(ids, inMap, rs, id, Good))
    && (forall id :: id in a.unready <==> Judged(ids, inMap, rs, id, Pending))
    && (forall id :: id in a.exceptions <==> id in carried || Judged(ids, inMap, rs, id, Bad))
  }

  lemma JudgedSnoc(ids: seq<Id>, inMap: set<Id>, rs: seq<Reading>, id: Id, v: Verdict)
    requires |ids| == |rs| > 0
    ensures var n := |ids| - 1;
      Judged(ids, inMap, rs, id, v) <==>
      (id == ids[n] && Judge(id in inMap, rs[n]) == v) || Judged(ids[..n], inMap, rs[..n], id, v)
  {
    var n := |ids| - 1;
    if i :| 0 <= i < |ids| && ids[i] == id && Judge(id in inMap, rs[i]) == v {
      if i < n { assert ids[..n][i] == id && rs[..n][i] == rs[i]; }
    }
    if Judged(ids[..n], inMap, rs[..n], id, v) {
      var i :| 0 <= i < n && ids[..n][i] == id && Judge(id in inMap, rs[..n][i]) == v;
      assert ids[i] == id && rs[i] == rs[..n][i];
    }
  }

  lemma SortOneStep(a: Sorted, carried: map<Id, ErrorInfo>, ids: seq<Id>, inMap: set<Id>, rs: seq<Reading>)
    requires |ids| == |rs| > 0 && NoDup(ids)
    requires SortedAs(a, carried, ids[..|ids| - 1], inMap, rs[..|ids| - 1])
    ensures SortedAs(SortOne(a, ids[|ids| - 1], ids[|ids| - 1] in inMap, rs[|ids| - 1]), carried, ids, inMap, rs)
  {
    var n := |ids| - 1;
    var last := ids[n];
    var a' := SortOne(a, last, last in inMap, rs[n]);
    assert last !in ids[..n];
    assert last !in a.ready && last !in a.unready;
    forall id
      ensures id in a'.ready <==> Judged(ids, inMap, rs, id, Good)
      ensures id in a'.unready <==> Judged(ids, inMap, rs, id, Pending)
      ensures id in a'.exceptions <==> id in carried || Judged(ids, inMap, rs, id, Bad)
    {
      JudgedSnoc(ids, inMap, rs, id, Good);
      JudgedSnoc(ids, inMap, rs, id, Pending);
      JudgedSnoc(ids, inMap, rs, id, Bad);
    }
  }

  lemma {:induction false} SortAllSpec(carried: map<Id, ErrorInfo>, ids: seq<Id>, inMap: set<Id>, rs: seq<Reading>)
    requires |ids| == |rs| && NoDup(ids)
    ensures SortedAs(SortAll(Sorted([], [], carried), ids, inMap, rs), carried, ids, inMap, rs)
  {
    if ids != [] {
      var n := |ids| - 1;
      SortAllSpec(carried, ids[..n], inMap, rs[..n]);
      SortOneStep(SortAll(Sorted([], [], carried), ids[..n], inMap, rs[..n]), carried, ids, inMap, rs);
    }
  }

  /** Without duplicates every id is judged, and judged once. */
  lemma PartsCover(ids: seq<Id>, inMap: set<Id>, rs: seq<Reading>)
    requires |ids| == |rs| && NoDup(ids)
    ensures forall id :: id in ids <==>
      Judged(ids, inMap, rs, id, Good) || Judged(ids, inMap, rs, id, Pending) || Judged(ids, inMap, rs, id, Bad)
    ensures forall id, v, w :: Judged(ids, inMap, rs, id, v) && Judged(ids, inMap, rs, id, w) ==> v == w
  {
    forall i | 0 <= i < |ids| ensures Judged(ids, inMap, rs, ids[i], Judge(ids[i] in inMap, rs[i])) {}
  }

  /** A round that returns at once splits the ids three ways exactly when every exception carried over
      from the previous round is of a waited-for id that this scan again finds failed. */
  lemma ImmediatePartitionIff(carried: map<Id, ErrorInfo>, ids: seq<Id>, inMap: set<Id>, rs: seq<Reading>)
    requires |ids| == |rs| && NoDup(ids)
    ensures var a := SortAll(Sorted([], [], carried), ids, inMap, rs);
      Partition(ids, a.ready, a.unready, a.exceptions) <==>
      forall id :: id in carried ==> Judged(ids, inMap, rs, id, Bad)
  {
    SortAllSpec(carried, ids, inMap, rs);
    var a := SortAll(Sorted([], [], carried), ids, inMap, rs);
    if Partition(ids, a.ready, a.unready, a.exceptions) {
      forall id | id in carried
        ensures Judged(ids, inMap, rs, id, Bad)
      {
        assert id in a.exceptions;
        var i :| 0 <= i < |ids| && ids[i] == id;
        assert Judged(ids, inMap, rs, id, Judge(id in inMap, rs[i]));
      }
    } else if forall id :: id in carried ==> Judged(ids, inMap, rs, id, Bad) {
      PartsCover(ids, inMap, rs);
    }
  }

  /** The answer when the memory store is gone: every id that has not failed already fails with `err`. */
  function AllFailed(ids: seq<Id>, carried: map<Id, ErrorInfo>, err: ErrorInfo): Sorted {
    Sorted([], [], (map id | id in ids :: err) + carried)
  }

  /** Also that is a partition exactly when only waited-for ids are carried. */
  lemma AllFailedPartitionIff(ids: seq<Id>, carried: map<Id, ErrorInfo>, err: ErrorInfo)
    ensures var a := AllFailed(ids, carried, err);
      Partition(ids, a.ready, a.unready, a.exceptions) <==> forall id :: id in carried ==> id in ids
  {
    var a := AllFailed(ids, carried, err);
    assert forall id :: id in carried ==> id in a.exceptions;
  }

  // ------------------------------------------------------------------------------ the classes

  class WaitingEntity {
    var minReadyNum: int
    var readyNum: nat
    var exceptionNum: nat
    var readyObjIds: seq<Id>
    var exceptionIds: map<Id, ErrorInfo>
    var isFinished: bool
    var promiseSets: nat

    function View(): Entity
      reads this
    {
      Entity(minReadyNum, readyNum, exceptionNum, readyObjIds, exceptionIds, isFinished, promiseSets)
    }

    constructor (minReadyNumber: int)
      ensures View() == NewEntity(minReadyNumber)
    {
      minReadyNum, readyNum, exceptionNum := minReadyNumber, 0, 0;
      readyObjIds, exceptionIds, isFinished, promiseSets := [], map[], false, 0;
    }

    method Notify(readyObjId: Id)
      modifies this
      ensures View() == Notified(old(View()), readyObjId)
    {
      readyNum := readyNum + 1;
      readyObjIds := readyObjIds + [readyObjId];
      if readyNum + exceptionNum >= minReadyNum && !isFinished {
        isFinished := true;
        promiseSets := promiseSets + 1;
      }
    }

    method SetError(id: Id, err: ErrorInfo)
      modifies this
      ensures View() == Errored(old(View()), id, err)
    {
      exceptionIds := exceptionIds[id := err];
      exceptionNum := exceptionNum + 1;
      if readyNum + exceptionNum >= minReadyNum && !isFinished {
        isFinished := true;
        promiseSets := promiseSets + 1;
      }
    }
  }

  class WaitingObjectManager {
    var unreadyObjectMap: map<Id, seq<WaitingEntity>>

    constructor ()
      ensures unreadyObjectMap == map[]
    {
      unreadyObjectMap := map[];
    }

    function Subscribers(id: Id): seq<WaitingEntity>
      reads this
    {
      if id in unreadyObjectMap then unreadyObjectMap[id] else []
    }

    method SetUnready(id: Id) returns (added: bool)
      modifies this
      ensures added <==> id !in old(unreadyObjectMap)
      ensures unreadyObjectMap == if added then old(unreadyObjectMap)[id := []] else old(unreadyObjectMap)
    {
      if id in unreadyObjectMap { return false; }
      unreadyObjectMap := unreadyObjectMap[id := []];
      return true;
    }

    /** Hands `d` to the subscribers in turn; distinct ones each receive it once. */
    method Broadcast(subs: seq<WaitingEntity>, d: Delivery)
      requires forall i, j :: 0 <= i < j < |subs| ==> subs[i] != subs[j]
      modifies set e | e in subs
      ensures forall e :: e in subs ==> e.View() == Receive(old(e.View()), d)
    {
      for i := 0 to |subs|
        invariant forall j :: 0 <= j < i ==> subs[j].View() == Receive(old(subs[j].View()), d)
        invariant forall j :: i <= j < |subs| ==> subs[j].View() == old(subs[j].View())
      {
        match d
        case Ready(id) => subs[i].Notify(id);
        case Failed(id, err) => subs[i].SetError(id, err);
      }
    }

    method SetReady(id: Id) returns (found: bool)
      requires forall i, j :: 0 <= i < j < |Subscribers(id)| ==> Subscribers(id)[i] != Subscribers(id)[j]
      modifies this, set e | e in Subscribers(id)
      ensures found <==> id in old(unreadyObjectMap)
      ensures unreadyObjectMap == old(unreadyObjectMap) - {id}
      ensures forall e :: e in old(Subscribers(id)) ==> e.View() == Notified(old(e.View()), id)
    {
      if id !in unreadyObjectMap { return false; }
      Broadcast(unreadyObjectMap[id], Ready(id));
      unreadyObjectMap := unreadyObjectMap - {id};
      return true;
    }

    method SetError(id: Id, err: ErrorInfo)
      requires forall i, j :: 0 <= i < j < |Subscribers(id)| ==> Subscribers(id)[i] != Subscribers(id)[j]
      modifies this, set e | e in Subscribers(id)
      ensures unreadyObjectMap == old(unreadyObjectMap) - {id}
      ensures forall e :: e in old(Subscribers(id)) ==> e.View() == Errored(old(e.View()), id, err)
    {
      if id in unreadyObjectMap { Broadcast(unreadyObjectMap[id], Failed(id, err)); }
      unreadyObjectMap := unreadyObjectMap - {id};
    }

    /** The scan loop of `GetWaitResult`; `rs` is what the store answers for each id in turn. */
    method SortIds(ids: seq<Id>, rs: seq<Reading>, carried: map<Id, ErrorInfo>) returns (a: Sorted)
      requires NoDup(ids) && |rs| == |ids|
      modifies this
      ensures a == SortAll(Sorted([], [], carried), ids, old(unreadyObjectMap.Keys), rs)
      ensures unreadyObjectMap == old(unreadyObjectMap) - set i | 0 <= i < |ids| && rs[i].isReady :: ids[i]
    {
      a := Sorted([], [], carried);
      ghost var before := unreadyObjectMap;
      for k := 0 to |ids|
        invariant a == SortAll(Sorted([], [], carried), ids[..k], before.Keys, rs[..k])
        invariant unreadyObjectMap == before - set i | 0 <= i < k && rs[i].isReady :: ids[i]
      {
        assert ids[..k + 1][..k] == ids[..k] && rs[..k + 1][..k] == rs[..k];
        assert ids[k] in unreadyObjectMap <==> ids[k] in before;
        a := SortOne(a, ids[k], ids[k] in unreadyObjectMap, rs[k]);
        if ids[k] in unreadyObjectMap && rs[k].isReady { unreadyObjectMap := unreadyObjectMap - {ids[k]}; }
      }
      assert ids[..|ids|] == ids && rs[..|ids|] == rs;
    }

    method Subscribe(ids: seq<Id>, e: WaitingEntity)
      requires NoDup(ids) && forall id :: id in ids ==> id in unreadyObjectMap
      modifies this
      ensures unreadyObjectMap == map id | id in old(unreadyObjectMap) ::
        if id in ids then old(unreadyObjectMap)[id] + [e] else old(unreadyObjectMap)[id]
    {
      ghost var before := unreadyObjectMap;
      for k := 0 to |ids|
        invariant unreadyObjectMap == map id | id in before :: if id in ids[..k] then before[id] + [e] else before[id]
      {
        assert ids[k] !in ids[..k];
        assert ids[..k + 1] == ids[..k] + [ids[k]];
        unreadyObjectMap := unreadyObjectMap[ids[k] := unreadyObjectMap[ids[k]] + [e]];
      }
      assert ids[..|ids|] == ids;
    }

    /** The part of `GetWaitResult` under the lock: the sorted ids and, if too few are settled, an
        entity that every unready id will report to, with a threshold it can reach.  Without a memory
        store every id fails with `gone`. */
    method Scan(alive: bool, gone: ErrorInfo, ids: seq<Id>, rs: seq<Reading>, carried: map<Id, ErrorInfo>,
                minReadyNum: nat)
      returns (a: Sorted, entity: WaitingEntity?)
      requires NoDup(ids) && |rs| == |ids|
      modifies this
      ensures !alive ==>
        a == AllFailed(ids, carried, gone) && entity == null && unreadyObjectMap == old(unreadyObjectMap)
      ensures alive ==> ScanDone(old(unreadyObjectMap), ids, rs, carried, minReadyNum, a, entity)
      ensures entity != null ==>
        fresh(entity) && entity.View() == NewEntity(minReadyNum - |a.ready| - |a.exceptions|)
    {
      hide ScanDone, AllFailed;
      if alive {
        a, entity := ScanStore(ids, rs, carried, minReadyNum);
      } else {
        entity := null;
        a := FailAll(ids, carried, gone);
      }
    }

    static method FailAll(ids: seq<Id>, carried: map<Id, ErrorInfo>, err: ErrorInfo) returns (a: Sorted)
      ensures a == AllFailed(ids, carried, err)
    {
      var failed := carried;
      for k := 0 to |ids|
        invariant failed == (map id | id in ids[..k] :: err) + carried
      {
        assert ids[..k + 1] == ids[..k] + [ids[k]];
        if ids[k] !in failed { failed := failed[ids[k] := err]; }
      }
      assert ids[..|ids|] == ids;
      a := Sorted([], [], failed);
    }

    /** What a scan of a living store leaves behind. */
    ghost predicate ScanDone(before: map<Id, seq<WaitingEntity>>, ids: seq<Id>, rs: seq<Reading>, carried: map<Id,
                             ErrorInfo>,
                             minReadyNum: nat, a: Sorted, entity: WaitingEntity?)
      requires |rs| == |ids|
      reads this
    {
      && a == SortAll(Sorted([], [], carried), ids, before.Keys, rs)
      && (entity == null <==> Enough(a, minReadyNum))
      && unreadyObjectMap.Keys == before.Keys - (set i | 0 <= i < |ids| && rs[i].isReady :: ids[i])
      && unreadyObjectMap.Keys <= before.Keys
      && forall id :: id in unreadyObjectMap ==>
        unreadyObjectMap[id] == if entity != null && id in a.unready then before[id] + [entity] else before[id]
    }

    method ScanStore(ids: seq<Id>, rs: seq<Reading>, carried: map<Id, ErrorInfo>, minReadyNum: nat)
      returns (a: Sorted, entity: WaitingEntity?)
      requires NoDup(ids) && |rs| == |ids|
      modifies this
      ensures ScanDone(old(unreadyObjectMap), ids, rs, carried, minReadyNum, a, entity)
      ensures entity != null ==>
        fresh(entity) && entity.View() == NewEntity(minReadyNum - |a.ready| - |a.exceptions|)
    {
      entity := null;
      ghost var before := unreadyObjectMap.Keys;
      a := SortIds(ids, rs, carried);
      if Enough(a, minReadyNum) { return; }
      var e := new WaitingEntity(minReadyNum - |a.ready| - |a.exceptions|);
      SortAllSpec(carried, ids, before, rs);
      forall id | id in a.unready ensures id in unreadyObjectMap {
        var i :| 0 <= i < |ids| && ids[i] == id && Judge(id in before, rs[i]).Pending?;
        assert id in before && !rs[i].isReady;
      }
      Subscribe(a.unready, e);
      entity := e;
    }

    /** The part of `GetWaitResult` after the sleep: merge what the entity received meanwhile. */
    method Collect(ids: seq<Id>, a: Sorted, errors: map<Id, ErrorInfo>, woken: seq<Id>, minReadyNum: nat)
      returns (ready: seq<Id>, unready: seq<Id>, exceptions: map<Id, ErrorInfo>, needReturn: bool)
      ensures exceptions == errors + a.exceptions
      ensures ready == a.ready + woken
      ensures needReturn <==> |ready| + |exceptions| >= minReadyNum
      ensures unready == Leftover(ids, ready, exceptions)
    {
      exceptions := errors + a.exceptions;
      ready := a.ready + woken;
      needReturn := |woken| + |a.ready| + |exceptions| >= minReadyNum;
      unready := [];
      for k := 0 to |ids|
        invariant unready == Leftover(ids[..k], ready, exceptions)
      {
        assert ids[..k + 1][..k] == ids[..k];
        if ids[k] !in ready && ids[k] !in exceptions { unready := unready + [ids[k]]; }
      }
      assert ids[..|ids|] == ids;
    }
  }
}
