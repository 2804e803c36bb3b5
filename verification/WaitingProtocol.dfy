/**
  The waiting protocol under every interleaving.

  `AddReturnObject`, `SetReady` and `SetError` of the memory store each change the store under its
  own lock and call the waiting manager only afterwards, so other threads run in between.  A scan
  holds the manager's lock but reads the store id by id while the store keeps changing, and one
  waiter's scan may drop an id together with another waiter's subscription.
 */
module WaitingProtocol {
  import opened Sets
  import opened WaitingObjects

  /** `ObjectDetail`: whether the object is settled and with which error. */
  datatype Detail = Detail(ready: bool, err: ErrorInfo)

  /** A call the store still owes the waiting manager. */
  datatype Call = MarkUnready(id: Id) | Report(d: Delivery)

  datatype Phase =
    | Idle
    | Scanning(pos: nat, ready: seq<Id>, unready: seq<Id>)
    | Asleep(ready: seq<Id>, unready: seq<Id>, entity: nat)
    | Awake(ready: seq<Id>, entity: nat)
    | Done(ready: seq<Id>, unready: seq<Id>, needReturn: bool)

  /** A thread in `WaitUntilReady`; `exceptions` is the exception map of its current result object. */
  datatype Waiter = Waiter(ids: seq<Id>, minReadyNum: nat, lastWait: bool, exceptions: map<Id, ErrorInfo>, phase: Phase)

  datatype Lock = Free | HeldBy(w: nat)

  /** `registered` and `watched` record what happened; no component reads them. */
  datatype State = State(store: map<Id, Detail>, calls: set<Call>, unready: map<Id, seq<nat>>, entities: seq<Entity>,
                         waiters: seq<Waiter>, lock: Lock, registered: set<Id>, watched: seq<seq<Id>>)

  datatype Step =
    | Add(id: Id)                            // AddReturnObject, store part
    | StoreReady(id: Id)                     // SetReady, store part
    | StoreError(id: Id, err: ErrorInfo)     // SetError, store part
    | Complete(c: Call)                      // the manager part of any of the three
    | Arrive(ids: seq<Id>, minReadyNum: nat) // a thread enters WaitUntilReady
    | Begin(w: nat, lastWait: bool)          // GetWaitResult takes the manager's lock
    | ScanOne(w: nat)                        // one pass of the scan loop
    | EndScan(w: nat)                        // return at once, or subscribe and release the lock
    | ReadErrors(w: nat)                     // woken or timed out: fetch the entity's exceptions
    | ReadReady(w: nat)                      // ... and then its ready ids, and decide

  function Start(): State {
    State(map[], {}, map[], [], [], Free, {}, [])
  }

  function ReadingOf(store: map<Id, Detail>, id: Id): Reading {
    if id in store then Reading(store[id].ready, store[id].err) else Reading(false, NO_ERROR)
  }

  /** What is true of an id: pending until the store has settled it, then good or bad. */
  function Truth(store: map<Id, Detail>, id: Id): Verdict {
    Judge(true, ReadingOf(store, id))
  }

  function Broadcast(es: seq<Entity>, subs: seq<nat>, d: Delivery): (r: seq<Entity>)
    ensures |r| == |es|
  {
    if subs == [] then es
    else
      var r := Broadcast(es, subs[..|subs| - 1], d);
      var e := subs[|subs| - 1];
      if e < |r| then r[e := Receive(r[e], d)] else r
  }

  function Settle(s: State, id: Id, detail: Detail, d: Delivery): State {
    s.(store := s.store[id := detail], calls := s.calls + {Report(d)})
  }

  function CompleteCall(s: State, c: Call): State {
    match c
    case MarkUnready(id) =>
      s.(calls := s.calls - {c}, registered := s.registered + {id},
         unready := if id in s.unready then s.unready else s.unready[id := []])
    case Report(d) =>
      s.(calls := s.calls - {c}, unready := s.unready - {d.id},
         entities := if d.id in s.unready then Broadcast(s.entities, s.unready[d.id], d) else s.entities)
  }

  function Become(s: State, w: nat, exceptions: map<Id, ErrorInfo>, phase: Phase): State
    requires w < |s.waiters|
  {
    s.(waiters := s.waiters[w := s.waiters[w].(exceptions := exceptions, phase := phase)])
  }

  function ScanNext(s: State, w: nat): State
    requires w < |s.waiters| && s.waiters[w].phase.Scanning? && s.waiters[w].phase.pos < |s.waiters[w].ids|
  {
    var x := s.waiters[w];
    var p := x.phase;
    var id := x.ids[p.pos];
    var r := ReadingOf(s.store, id);
    var a := SortOne(Sorted(p.ready, p.unready, x.exceptions), id, id in s.unready, r);
    Become(s, w, a.exceptions, Scanning(p.pos + 1, a.ready, a.unready))
      .(unready := if id in s.unready && r.isReady then s.unready - {id} else s.unready)
  }

  function Subscribe(unready: map<Id, seq<nat>>, ids: seq<Id>, e: nat): map<Id, seq<nat>> {
    map id | id in unready :: if id in ids then unready[id] + [e] else unready[id]
  }

  function FinishScan(s: State, w: nat): State
    requires w < |s.waiters| && s.waiters[w].phase.Scanning?
  {
    var x := s.waiters[w];
    var p := x.phase;
    if Enough(Sorted(p.ready, p.unready, x.exceptions), x.minReadyNum) then
      Become(s, w, x.exceptions, Done(p.ready, p.unready, true)).(lock := Free)
    else
      var threshold := x.minReadyNum - |p.ready| - |x.exceptions|;
      Become(s, w, x.exceptions, Asleep(p.ready, p.unready, |s.entities|))
        .(lock := Free, unready := Subscribe(s.unready, p.unready, |s.entities|),
          entities := s.entities + [NewEntity(threshold)], watched := s.watched + [p.unready])
  }

  function Decide(s: State, w: nat): State
    requires w < |s.waiters| && s.waiters[w].phase.Awake? && s.waiters[w].phase.entity < |s.entities|
  {
    var x := s.waiters[w];
    var ready := x.phase.ready + s.entities[x.phase.entity].readyObjIds;
    var needReturn := |ready| + |x.exceptions| >= x.minReadyNum;
    Become(s, w, x.exceptions,
           if needReturn || x.lastWait then Done(ready, Leftover(x.ids, ready, x.exceptions), needReturn) else Idle)
  }

  predicate CanArrive(s: State, ids: seq<Id>, minReadyNum: nat) {
    NoDup(ids) && minReadyNum <= |ids| && forall id :: id in ids ==> id in s.registered
  }

  /** A step that is not enabled leaves the state as it is. */
  function Next(s: State, step: Step): State {
    match step
    case Add(id) =>
      if id in s.store then s
      else s.(store := s.store[id := Detail(false, NO_ERROR)], calls := s.calls + {MarkUnready(id)})
    case StoreReady(id) =>
      if id in s.store && !s.store[id].ready then Settle(s, id, s.store[id].(ready := true), Ready(id)) else s
    case StoreError(id, err) =>
      if id in s.store && !s.store[id].ready && !err.OK() then Settle(s, id, Detail(true, err), Failed(id, err)) else s
    case Complete(c) =>
      if c in s.calls && s.lock.Free? then CompleteCall(s, c) else s
    case Arrive(ids, minReadyNum) =>
      if CanArrive(s, ids, minReadyNum) then
        s.(waiters := s.waiters + [Waiter(ids, minReadyNum, false, map[], Idle)])
      else s
    case Begin(w, lastWait) =>
      if w < |s.waiters| && s.lock.Free? && s.waiters[w].phase.Idle? then
        var x := s.waiters[w];
        s.(lock := HeldBy(w),
           waiters := s.waiters[w := Waiter(x.ids, x.minReadyNum, lastWait, if lastWait then x.exceptions else map[],
                                            Scanning(0, [], []))])
      else s
    case ScanOne(w) =>
      if w < |s.waiters| && s.waiters[w].phase.Scanning? && s.waiters[w].phase.pos < |s.waiters[w].ids|
      then ScanNext(s, w) else s
    case EndScan(w) =>
      if w < |s.waiters| && s.waiters[w].phase.Scanning? && s.waiters[w].phase.pos == |s.waiters[w].ids|
      then FinishScan(s, w) else s
    case ReadErrors(w) =>
      if w < |s.waiters| && s.waiters[w].phase.Asleep? && s.waiters[w].phase.entity < |s.entities| then
        var x := s.waiters[w];
        Become(s, w, s.entities[x.phase.entity].exceptionIds + x.exceptions, Awake(x.phase.ready, x.phase.entity))
      else s
    case ReadReady(w) =>
      if w < |s.waiters| && s.waiters[w].phase.Awake? && s.waiters[w].phase.entity < |s.entities|
      then Decide(s, w) else s
  }

  function Exec(s: State, steps: seq<Step>): State {
    if steps == [] then s else Next(Exec(s, steps[..|steps| - 1]), steps[|steps| - 1])
  }

  // ----------------------------------------------------------------------------- the invariant

  predicate IsGood(store: map<Id, Detail>, id: Id) {
    id in store && store[id].ready && store[id].err.OK()
  }

  predicate IsBad(store: map<Id, Detail>, id: Id, err: ErrorInfo) {
    id in store && store[id] == Detail(true, err) && !err.OK()
  }

  ghost predicate CallOk(store: map<Id, Detail>, c: Call) {
    match c
    case MarkUnready(id) => id in store
    case Report(Ready(id)) => IsGood(store, id)
    case Report(Failed(id, err)) => IsBad(store, id, err)
  }

  /** An id leaves the unready map only once it is settled. */
  ghost predicate StoreOk(s: State) {
    && (forall id :: id in s.registered ==> id in s.store && (id !in s.unready ==> s.store[id].ready))
    && (forall id :: id in s.unready ==> id in s.registered)
    && (forall id :: id in s.store && !s.store[id].ready ==> s.store[id].err == NO_ERROR)
    && (forall c :: c in s.calls ==> CallOk(s.store, c))
  }

  ghost predicate Distinct(subs: seq<nat>) {
    forall i, j :: 0 <= i < j < |subs| ==> subs[i] != subs[j]
  }

  /** A subscriber watches the id and has not heard of it yet. */
  ghost predicate SubscriberOk(s: State, id: Id, e: nat) {
    && e < |s.entities| == |s.watched| && id in s.watched[e]
    && id !in s.entities[e].readyObjIds && id !in s.entities[e].exceptionIds
  }

  ghost predicate SubscriptionsOk(s: State) {
    && |s.watched| == |s.entities|
    && (forall id :: id in s.unready ==> Distinct(s.unready[id]))
    && (forall id, e: nat :: id in s.unready && e in s.unready[id] ==> SubscriberOk(s, id, e))
  }

  /** What an entity has heard is true, and counted right. */
  ghost predicate EntityOk(store: map<Id, Detail>, watched: seq<Id>, x: Entity) {
    && NoDup(watched) && 1 <= x.minReadyNum <= |watched|
    && NoDup(x.readyObjIds)
    && (forall id :: id in x.readyObjIds ==> id in watched && IsGood(store, id))
    && (forall id :: id in x.exceptionIds ==> id in watched && IsBad(store, id, x.exceptionIds[id]))
    && x.readyNum == |x.readyObjIds| && x.exceptionNum == |x.exceptionIds|
    && x.isFinished == (x.readyNum + x.exceptionNum >= x.minReadyNum)
    && x.promiseSets == if x.isFinished then 1 else 0
  }

  ghost predicate EntitiesOk(s: State) {
    |s.watched| == |s.entities| && forall e :: 0 <= e < |s.entities| ==> EntityOk(s.store, s.watched[e], s.entities[e])
  }

  ghost predicate PhaseOk(s: State, w: nat, x: Waiter) {
    match x.phase
    case Idle => true
    case Scanning(pos, ready, unready) =>
      && s.lock == HeldBy(w) && pos <= |x.ids|
      && NoDup(ready) && NoDup(unready)
      && (forall id :: id in ready ==> id in x.ids[..pos] && IsGood(s.store, id))
      && (forall id :: id in unready ==> id in x.ids[..pos] && id !in ready && id !in x.exceptions && id in s.unready)
      && (forall id :: id in x.ids[..pos] ==> id in ready || id in unready || id in x.exceptions)
    case Asleep(ready, unready, e) =>
      && Partition(x.ids, ready, unready, x.exceptions)
      && (forall id :: id in ready ==> IsGood(s.store, id))
      && e < |s.watched| && s.watched[e] == unready
    case Awake(ready, e) =>
      && NoDup(ready)
      && (forall id :: id in ready ==> id in x.ids && IsGood(s.store, id))
      && e < |s.watched| && forall id :: id in s.watched[e] ==> id in x.ids && id !in ready
    case Done(ready, unready, needReturn) =>
      && Partition(x.ids, ready, unready, x.exceptions)
      && (forall id :: id in ready ==> IsGood(s.store, id))
      && (needReturn <==> |ready| + |x.exceptions| >= x.minReadyNum)
  }

  ghost predicate WaiterOk(s: State, w: nat, x: Waiter) {
    && NoDup(x.ids) && x.minReadyNum <= |x.ids|
    && (forall id :: id in x.ids ==> id in s.registered)
    && (forall id :: id in x.exceptions ==> id in x.ids && IsBad(s.store, id, x.exceptions[id]))
    && PhaseOk(s, w, x)
  }

  ghost predicate WaitersOk(s: State) {
    && (forall w :: 0 <= w < |s.waiters| ==> WaiterOk(s, w, s.waiters[w]))
    && (s.lock.HeldBy? ==> s.lock.w < |s.waiters| && s.waiters[s.lock.w].phase.Scanning?)
  }

  /** A watched id is subscribed, or heard of, or settled: no wakeup is lost for good. */
  ghost predicate Covered(s: State, e: nat, id: Id)
    requires e < |s.entities|
  {
    || (id in s.unready && e in s.unready[id])
    || id in s.entities[e].readyObjIds || id in s.entities[e].exceptionIds
    || (id in s.store && s.store[id].ready)
  }

  ghost predicate CoverageOk(s: State) {
    |s.watched| == |s.entities| &&
    forall e, id :: 0 <= e < |s.entities| && id in s.watched[e] ==> id in s.registered && Covered(s, e, id)
  }

  ghost predicate Inv(s: State) {
    StoreOk(s) && SubscriptionsOk(s) && EntitiesOk(s) && WaitersOk(s) && CoverageOk(s)
  }

  // ------------------------------------------------------------------------ every step keeps it

  /** Settled ids stay as they are. */
  ghost predicate Grows(a: map<Id, Detail>, b: map<Id, Detail>) {
    forall id :: id in a ==> id in b && (a[id].ready ==> b[id] == a[id])
  }

  lemma WaiterFrame(s: State, s': State, w: nat, x: Waiter)
    requires WaiterOk(s, w, x)
    requires Grows(s.store, s'.store) && s.registered <= s'.registered && s.watched <= s'.watched
    requires x.phase.Scanning? ==> s'.lock == s.lock && forall id :: id in x.phase.unready ==> id in s'.unready
    ensures WaiterOk(s', w, x)
  {
    match x.phase
    case Idle =>
    case Scanning(_, _, _) =>
    case Asleep(_, _, _) =>
    case Awake(_, _) =>
    case Done(_, _, _) =>
  }

  /** Waiters do not notice a step that keeps what is settled and, during a scan, the unready map. */
  lemma WaitersFrame(s: State, s': State)
    requires WaitersOk(s) && s'.waiters == s.waiters && s'.lock == s.lock
    requires Grows(s.store, s'.store) && s.registered <= s'.registered && s.watched <= s'.watched
    requires s.lock.Free? || s'.unready.Keys == s.unready.Keys
    ensures WaitersOk(s')
  {
    forall w | 0 <= w < |s.waiters| ensures WaiterOk(s', w, s'.waiters[w]) {
      WaiterFrame(s, s', w, s.waiters[w]);
    }
  }

  lemma EntitiesFrame(s: State, s': State)
    requires EntitiesOk(s) && Grows(s.store, s'.store) && s'.entities == s.entities && s'.watched == s.watched
    ensures EntitiesOk(s')
  {
    forall e | 0 <= e < |s.entities| ensures EntityOk(s'.store, s'.watched[e], s'.entities[e]) {
      assert EntityOk(s.store, s.watched[e], s.entities[e]);
    }
  }

  /** Coverage survives as long as an id is dropped from the map only when settled. */
  lemma CoverageFrame(s: State, s': State)
    requires CoverageOk(s) && Grows(s.store, s'.store) && s.registered <= s'.registered
    requires s'.entities == s.entities && s'.watched == s.watched
    requires forall id :: id in s.unready ==>
      (id in s'.unready && s'.unready[id] == s.unready[id]) || (id in s'.store && s'.store[id].ready)
    ensures CoverageOk(s')
  {
    forall e, id | 0 <= e < |s'.entities| && id in s'.watched[e] ensures id in s'.registered && Covered(s', e, id) {
      assert Covered(s, e, id);
    }
  }

  lemma StoreStepKeeps(s: State, s': State)
    requires Inv(s) && Grows(s.store, s'.store) && StoreOk(s')
    requires s' == s.(store := s'.store, calls := s'.calls)
    ensures Inv(s')
  {
    WaitersFrame(s, s');
    EntitiesFrame(s, s');
    CoverageFrame(s, s');
  }

  lemma StoreStepsKeepInv(s: State, step: Step)
    requires Inv(s) && (step.Add? || step.StoreReady? || step.StoreError?)
    ensures Inv(Next(s, step))
  {
    var s' := Next(s, step);
    if s' != s {
      forall c | c in s'.calls ensures CallOk(s'.store, c) {
        if c in s.calls { assert CallOk(s.store, c); }
      }
      StoreStepKeeps(s, s');
    }
  }

  /** Broadcasting to distinct subscribers reaches each of them once and nobody else. */
  lemma {:induction false} BroadcastSpec(es: seq<Entity>, subs: seq<nat>, d: Delivery)
    requires Distinct(subs)
    ensures forall e :: 0 <= e < |es| ==> Broadcast(es, subs, d)[e] == if e in subs then Receive(es[e], d) else es[e]
  {
    if subs != [] {
      var n := |subs| - 1;
      BroadcastSpec(es, subs[..n], d);
      assert subs == subs[..n] + [subs[n]];
      assert subs[n] !in subs[..n];
    }
  }

  lemma ReceiveKeepsEntityOk(store: map<Id, Detail>, watched: seq<Id>, x: Entity, d: Delivery)
    requires EntityOk(store, watched, x) && CallOk(store, Report(d))
    requires d.id in watched && d.id !in x.readyObjIds && d.id !in x.exceptionIds
    ensures EntityOk(store, watched, Receive(x, d))
  {
  }

  lemma ReportKeepsSubscriptions(s: State, d: Delivery)
    requires SubscriptionsOk(s) && d.id in s.unready
    ensures SubscriptionsOk(CompleteCall(s, Report(d)))
  {
    var s' := CompleteCall(s, Report(d));
    BroadcastSpec(s.entities, s.unready[d.id], d);
    forall id, e: nat | id in s'.unready && e in s'.unready[id] ensures SubscriberOk(s', id, e) {
      assert SubscriberOk(s, id, e) && id != d.id;
    }
  }

  lemma ReportKeepsEntities(s: State, d: Delivery)
    requires SubscriptionsOk(s) && EntitiesOk(s) && CallOk(s.store, Report(d)) && d.id in s.unready
    ensures EntitiesOk(CompleteCall(s, Report(d)))
  {
    var s' := CompleteCall(s, Report(d));
    BroadcastSpec(s.entities, s.unready[d.id], d);
    forall e | 0 <= e < |s.entities| ensures EntityOk(s'.store, s'.watched[e], s'.entities[e]) {
      assert EntityOk(s.store, s.watched[e], s.entities[e]);
      if e in s.unready[d.id] { ReceiveKeepsEntityOk(s.store, s.watched[e], s.entities[e], d); }
    }
  }

  lemma ReportKeepsCoverage(s: State, d: Delivery)
    requires SubscriptionsOk(s) && CoverageOk(s) && CallOk(s.store, Report(d)) && d.id in s.unready
    ensures CoverageOk(CompleteCall(s, Report(d)))
  {
    var s' := CompleteCall(s, Report(d));
    BroadcastSpec(s.entities, s.unready[d.id], d);
    forall e, id | 0 <= e < |s'.entities| && id in s'.watched[e] ensures id in s'.registered && Covered(s', e, id) {
      assert Covered(s, e, id);
      assert s'.entities[e] == if e in s.unready[d.id] then Receive(s.entities[e], d) else s.entities[e];
    }
  }

  lemma CompleteKeepsStore(s: State, c: Call)
    requires StoreOk(s) && c in s.calls
    ensures StoreOk(CompleteCall(s, c))
  {
    assert CallOk(s.store, c);
  }

  lemma MarkKeepsSubscriptions(s: State, id: Id)
    requires SubscriptionsOk(s)
    ensures SubscriptionsOk(CompleteCall(s, MarkUnready(id)))
  {
    var s' := CompleteCall(s, MarkUnready(id));
    forall x, e: nat | x in s'.unready && e in s'.unready[x] ensures SubscriberOk(s', x, e) {
      assert SubscriberOk(s, x, e);
    }
  }

  lemma CompleteKeepsInv(s: State, c: Call)
    requires Inv(s) && c in s.calls && s.lock.Free?
    ensures Inv(CompleteCall(s, c))
  {
    var s' := CompleteCall(s, c);
    CompleteKeepsStore(s, c);
    WaitersFrame(s, s');
    match c
    case MarkUnready(id) =>
      MarkKeepsSubscriptions(s, id);
      EntitiesFrame(s, s');
      CoverageFrame(s, s');
    case Report(d) =>
      assert CallOk(s.store, c);
      if d.id in s.unready {
        ReportKeepsSubscriptions(s, d);
        ReportKeepsEntities(s, d);
        ReportKeepsCoverage(s, d);
      } else {
        assert s.unready - {d.id} == s.unready;
        EntitiesFrame(s, s');
        CoverageFrame(s, s');
      }
  }

  /** Frame for steps of one waiter that touch nothing else. */
  lemma OwnStepKeeps(s: State, s': State, w: nat)
    requires Inv(s) && w < |s.waiters| == |s'.waiters|
    requires s' == s.(waiters := s'.waiters, lock := s'.lock)
    requires forall v :: 0 <= v < |s.waiters| && v != w ==> s'.waiters[v] == s.waiters[v]
    requires WaiterOk(s', w, s'.waiters[w])
    requires s.lock == s'.lock || (s.lock.Free? && s'.lock == HeldBy(w)) || (s.lock == HeldBy(w) && s'.lock.Free?)
    requires s'.lock == HeldBy(w) <==> s'.waiters[w].phase.Scanning?
    ensures Inv(s')
  {
    OthersFrame(s, s', w);
    CoverageFrame(s, s');
  }

  lemma OthersFrame(s: State, s': State, w: nat)
    requires WaitersOk(s) && w < |s.waiters| == |s'.waiters|
    requires Grows(s.store, s'.store) && s.registered <= s'.registered && s.watched <= s'.watched
    requires forall v :: 0 <= v < |s.waiters| && v != w ==> s'.waiters[v] == s.waiters[v]
    requires WaiterOk(s', w, s'.waiters[w])
    requires s.lock == HeldBy(w) || s'.unready.Keys == s.unready.Keys
    requires s.lock == s'.lock || (s.lock.Free? && s'.lock == HeldBy(w)) || (s.lock == HeldBy(w) && s'.lock.Free?)
    requires s'.lock == HeldBy(w) <==> s'.waiters[w].phase.Scanning?
    ensures WaitersOk(s')
  {
    forall v | 0 <= v < |s.waiters| ensures WaiterOk(s', v, s'.waiters[v]) {
      assert WaiterOk(s, v, s.waiters[v]);
      if v != w { WaiterFrame(s, s', v, s.waiters[v]); }
    }
  }

  lemma ScanOneWaiterOk(s: State, w: nat)
    requires StoreOk(s) && w < |s.waiters| && WaiterOk(s, w, s.waiters[w]) && s.waiters[w].phase.Scanning?
    requires s.waiters[w].phase.pos < |s.waiters[w].ids|
    ensures WaiterOk(ScanNext(s, w), w, ScanNext(s, w).waiters[w])
  {
    var x := s.waiters[w];
    var p := x.phase;
    var id := x.ids[p.pos];
    assert x.ids[..p.pos + 1] == x.ids[..p.pos] + [id];
    assert id !in x.ids[..p.pos];
    assert id in x.ids;
    ScanIsTrue(s, id);
    var s' := ScanNext(s, w);
    match Judge(id in s.unready, ReadingOf(s.store, id))
    case Pending => assert s'.waiters[w] == x.(phase := Scanning(p.pos + 1, p.ready, p.unready + [id]));
    case Good => assert s'.waiters[w] == x.(phase := Scanning(p.pos + 1, p.ready + [id], p.unready));
    case Bad => assert s'.waiters[w].phase == Scanning(p.pos + 1, p.ready, p.unready);
  }

  lemma ScanOneKeepsInv(s: State, w: nat)
    requires Inv(s) && w < |s.waiters| && s.waiters[w].phase.Scanning?
    requires s.waiters[w].phase.pos < |s.waiters[w].ids|
    ensures Inv(ScanNext(s, w))
  {
    var s' := ScanNext(s, w);
    assert WaiterOk(s, w, s.waiters[w]);
    ScanOneWaiterOk(s, w);
    ScanOneKeepsMap(s, w);
    OthersFrame(s, s', w);
    EntitiesFrame(s, s');
    CoverageFrame(s, s');
  }

  lemma ScanOneKeepsMap(s: State, w: nat)
    requires StoreOk(s) && SubscriptionsOk(s) && w < |s.waiters| && s.waiters[w].phase.Scanning?
    requires s.waiters[w].phase.pos < |s.waiters[w].ids|
    ensures StoreOk(ScanNext(s, w)) && SubscriptionsOk(ScanNext(s, w))
  {
    var s' := ScanNext(s, w);
    forall id, e: nat | id in s'.unready && e in s'.unready[id] ensures SubscriberOk(s', id, e) {
      assert SubscriberOk(s, id, e);
    }
  }

  /** A finished scan has sorted every id into one of three parts. */
  lemma ScanEndsInPartition(s: State, w: nat, x: Waiter)
    requires WaiterOk(s, w, x) && x.phase.Scanning? && x.phase.pos == |x.ids|
    ensures Partition(x.ids, x.phase.ready, x.phase.unready, x.exceptions)
  {
    assert x.ids[..x.phase.pos] == x.ids;
  }

  lemma SubscribeKeepsSubscriptions(s: State, w: nat)
    requires SubscriptionsOk(s) && w < |s.waiters| && s.waiters[w].phase.Scanning?
    ensures SubscriptionsOk(FinishScan(s, w))
  {
    var x := s.waiters[w];
    var s' := FinishScan(s, w);
    forall id | id in s'.unready ensures Distinct(s'.unready[id]) {
      var subs := s.unready[id];
      forall i | 0 <= i < |subs| ensures subs[i] < |s.entities| { assert SubscriberOk(s, id, subs[i]); }
    }
    forall id, e: nat | id in s'.unready && e in s'.unready[id] ensures SubscriberOk(s', id, e) {
      if e in s.unready[id] { assert SubscriberOk(s, id, e); }
    }
  }

  lemma SubscribeKeepsEntities(s: State, w: nat)
    requires EntitiesOk(s) && w < |s.waiters| && WaiterOk(s, w, s.waiters[w])
    requires s.waiters[w].phase.Scanning? && s.waiters[w].phase.pos == |s.waiters[w].ids|
    ensures EntitiesOk(FinishScan(s, w))
  {
    var x := s.waiters[w];
    var s' := FinishScan(s, w);
    ScanEndsInPartition(s, w, x);
    PartitionSize(x.ids, x.phase.ready, x.phase.unready, x.exceptions);
    forall e | 0 <= e < |s'.entities| ensures EntityOk(s'.store, s'.watched[e], s'.entities[e]) {
      if e < |s.entities| { assert EntityOk(s.store, s.watched[e], s.entities[e]); }
    }
  }

  lemma UnreadyIsKnown(s: State, w: nat, x: Waiter)
    requires WaiterOk(s, w, x) && x.phase.Scanning?
    ensures forall id :: id in x.phase.unready ==> id in s.registered && id in s.unready
  {
  }

  lemma SubscribeKeepsCoverage(s: State, w: nat)
    requires CoverageOk(s) && w < |s.waiters| && WaiterOk(s, w, s.waiters[w])
    requires s.waiters[w].phase.Scanning? && s.waiters[w].phase.pos == |s.waiters[w].ids|
    ensures CoverageOk(FinishScan(s, w))
  {
    var x := s.waiters[w];
    var s' := FinishScan(s, w);
    UnreadyIsKnown(s, w, x);
    FinishScanAdds(s, w);
    hide WaiterOk, PhaseOk, Covered, FinishScan;
    forall e: nat, id | e < |s'.entities| && id in s'.watched[e] ensures id in s'.registered && Covered(s', e, id) {
      if e < |s.entities| {
        assert Covered(s, e, id);
        OldCoverStays(s, w, e, id);
      } else {
        NewIsCovered(s, w, id);
      }
    }
  }

  /** The end of a scan adds at most one entity, which watches what was unready. */
  lemma FinishScanAdds(s: State, w: nat)
    requires w < |s.waiters| && s.waiters[w].phase.Scanning? && |s.watched| == |s.entities|
    ensures var s' := FinishScan(s, w);
      && s'.registered == s.registered && |s'.watched| == |s'.entities|
      && (s'.watched == s.watched || s'.watched == s.watched + [s.waiters[w].phase.unready])
  {
  }

  lemma OldCoverStays(s: State, w: nat, e: nat, id: Id)
    requires w < |s.waiters| && s.waiters[w].phase.Scanning? && e < |s.entities| && Covered(s, e, id)
    ensures Covered(FinishScan(s, w), e, id)
  {
  }

  lemma NewIsCovered(s: State, w: nat, id: Id)
    requires w < |s.waiters| && s.waiters[w].phase.Scanning? && id in s.waiters[w].phase.unready && id in s.unready
    requires |FinishScan(s, w).entities| > |s.entities|
    ensures Covered(FinishScan(s, w), |s.entities|, id)
  {
  }

  lemma EndScanKeepsInv(s: State, w: nat)
    requires Inv(s) && w < |s.waiters| && s.waiters[w].phase.Scanning?
    requires s.waiters[w].phase.pos == |s.waiters[w].ids|
    ensures Inv(FinishScan(s, w))
  {
    var x := s.waiters[w];
    var s' := FinishScan(s, w);
    assert WaiterOk(s, w, x);
    ScanEndsInPartition(s, w, x);
    OthersFrame(s, s', w);
    SubscribeKeepsSubscriptions(s, w);
    SubscribeKeepsEntities(s, w);
    SubscribeKeepsCoverage(s, w);
  }

  lemma ReadErrorsKeepsInv(s: State, w: nat)
    requires Inv(s)
    ensures Inv(Next(s, ReadErrors(w)))
  {
    var s' := Next(s, ReadErrors(w));
    if s' != s {
      var x := s.waiters[w];
      assert WaiterOk(s, w, x) && EntityOk(s.store, s.watched[x.phase.entity], s.entities[x.phase.entity]);
      ReadErrorsWaiterOk(s, w);
      OwnStepKeeps(s, s', w);
    }
  }

  lemma ReadErrorsWaiterOk(s: State, w: nat)
    requires w < |s.waiters| && s.waiters[w].phase.Asleep? && s.waiters[w].phase.entity < |s.entities| == |s.watched|
    requires WaiterOk(s, w, s.waiters[w])
    requires EntityOk(s.store, s.watched[s.waiters[w].phase.entity], s.entities[s.waiters[w].phase.entity])
    ensures var s' := Next(s, ReadErrors(w)); WaiterOk(s', w, s'.waiters[w])
  {
  }

  lemma AppendNoDup(a: seq<Id>, b: seq<Id>)
    requires NoDup(a) && NoDup(b) && forall id :: id in a ==> id !in b
    ensures NoDup(a + b)
  {
    forall i, j | 0 <= i < j < |a + b| ensures (a + b)[i] != (a + b)[j] {
      if i < |a| <= j { assert a[i] in a && b[j - |a|] in b; }
    }
  }

  lemma ReadReadyKeepsInv(s: State, w: nat)
    requires Inv(s) && w < |s.waiters| && s.waiters[w].phase.Awake? && s.waiters[w].phase.entity < |s.entities|
    ensures Inv(Decide(s, w))
  {
    var x := s.waiters[w];
    assert WaiterOk(s, w, x);
    var e := x.phase.entity;
    assert EntityOk(s.store, s.watched[e], s.entities[e]);
    var ready := x.phase.ready + s.entities[e].readyObjIds;
    LeftoverSpec(x.ids, ready, x.exceptions);
    AppendNoDup(x.phase.ready, s.entities[e].readyObjIds);
    assert forall id :: id in ready ==> IsGood(s.store, id) && id in x.ids;
    assert Partition(x.ids, ready, Leftover(x.ids, ready, x.exceptions), x.exceptions);
    OwnStepKeeps(s, Decide(s, w), w);
  }

  lemma ArriveBeginKeepInv(s: State, step: Step)
    requires Inv(s) && (step.Arrive? || step.Begin?)
    ensures Inv(Next(s, step))
  {
    var s' := Next(s, step);
    if s' != s {
      match step
      case Arrive(ids, minReadyNum) => ArriveKeepsInv(s, ids, minReadyNum);
      case Begin(w, _) =>
        WaiterIsOk(s, w);
        OwnStepKeeps(s, s', w);
    }
  }

  lemma ArriveKeepsInv(s: State, ids: seq<Id>, minReadyNum: nat)
    requires Inv(s) && CanArrive(s, ids, minReadyNum)
    ensures Inv(Next(s, Arrive(ids, minReadyNum)))
  {
    var s' := Next(s, Arrive(ids, minReadyNum));
    forall v | 0 <= v < |s'.waiters| ensures WaiterOk(s', v, s'.waiters[v]) {
      if v < |s.waiters| { WaiterFrame(s, s', v, s.waiters[v]); }
    }
    CoverageFrame(s, s');
  }

  lemma StepKeepsInv(s: State, step: Step)
    requires Inv(s)
    ensures Inv(Next(s, step))
  {
    match step
    case Add(_) => StoreStepsKeepInv(s, step);
    case StoreReady(_) => StoreStepsKeepInv(s, step);
    case StoreError(_, _) => StoreStepsKeepInv(s, step);
    case Complete(c) => if c in s.calls && s.lock.Free? { CompleteKeepsInv(s, c); }
    case Arrive(_, _) => ArriveBeginKeepInv(s, step);
    case Begin(_, _) => ArriveBeginKeepInv(s, step);
    case ScanOne(w) =>
      if w < |s.waiters| && s.waiters[w].phase.Scanning? && s.waiters[w].phase.pos < |s.waiters[w].ids| {
        ScanOneKeepsInv(s, w);
      }
    case EndScan(w) =>
      if w < |s.waiters| && s.waiters[w].phase.Scanning? && s.waiters[w].phase.pos == |s.waiters[w].ids| {
        EndScanKeepsInv(s, w);
      }
    case ReadErrors(w) => ReadErrorsKeepsInv(s, w);
    case ReadReady(w) =>
      if w < |s.waiters| && s.waiters[w].phase.Awake? && s.waiters[w].phase.entity < |s.entities| {
        ReadReadyKeepsInv(s, w);
      }
  }

  lemma {:induction false} RunKeepsInv(steps: seq<Step>)
    ensures Inv(Exec(Start(), steps))
  {
    if steps != [] {
      RunKeepsInv(steps[..|steps| - 1]);
      StepKeepsInv(Exec(Start(), steps[..|steps| - 1]), steps[|steps| - 1]);
    }
  }

  // ------------------------------------------------------------------------------ what it means

  lemma ScanIsTrue(s: State, id: Id)
    requires StoreOk(s) && id in s.registered
    ensures Judge(id in s.unready, ReadingOf(s.store, id)) == Truth(s.store, id)
  {
  }

  /** In every reachable state a scan judges every registered id by the store alone: whether the id is
      still in the unready map, was reported, or was dropped by somebody else's scan does not matter. */
  lemma ScanJudgesTruly(steps: seq<Step>, id: Id)
    requires id in Exec(Start(), steps).registered
    ensures var s := Exec(Start(), steps); Judge(id in s.unready, ReadingOf(s.store, id)) == Truth(s.store, id)
  {
    RunKeepsInv(steps);
    ScanIsTrue(Exec(Start(), steps), id);
  }

  /** No wakeup is lost for good: in every reachable state an id some entity waits for is subscribed to
      it, or has been reported to it, or is settled, so that the next scan judges it good or bad. */
  lemma NoWakeupLost(steps: seq<Step>, e: nat, id: Id)
    requires e < |Exec(Start(), steps).entities| == |Exec(Start(), steps).watched|
    requires id in Exec(Start(), steps).watched[e]
    ensures var s := Exec(Start(), steps);
      || (id in s.unready && e in s.unready[id])
      || id in s.entities[e].readyObjIds || id in s.entities[e].exceptionIds
      || (!Truth(s.store, id).Pending? && !Judge(id in s.unready, ReadingOf(s.store, id)).Pending?)
  {
    RunKeepsInv(steps);
    assert Covered(Exec(Start(), steps), e, id);
  }

  /** Every promise is set at most once, exactly when enough ids were reported, and the threshold lies
      between one and the number of watched ids: once all of them are reported, it has been set. */
  lemma EntityOneShot(steps: seq<Step>, e: nat)
    requires e < |Exec(Start(), steps).entities| == |Exec(Start(), steps).watched|
    ensures var s := Exec(Start(), steps);
      var x := s.entities[e];
      && 1 <= x.minReadyNum <= |s.watched[e]|
      && (x.promiseSets == 1 <==> |x.readyObjIds| + |x.exceptionIds| >= x.minReadyNum) && x.promiseSets <= 1
      && ((forall id :: id in s.watched[e] ==> id in x.readyObjIds || id in x.exceptionIds) ==> x.promiseSets == 1)
  {
    RunKeepsInv(steps);
    var s := Exec(Start(), steps);
    var x := s.entities[e];
    assert EntityOk(s.store, s.watched[e], x);
    if forall id :: id in s.watched[e] ==> id in x.readyObjIds || id in x.exceptionIds {
      NoDupSize(s.watched[e]);
      NoDupSize(x.readyObjIds);
      assert SetOf(s.watched[e]) == SetOf(x.readyObjIds) + x.exceptionIds.Keys;
    }
  }

  /** Every result any waiter ever returns, on every path and in every run, splits its ids into three
      disjoint parts; the ready ids are ready without error, the exceptions are the recorded errors, and
      the return flag tells whether enough ids are settled. */
  lemma ResultsAreTrue(steps: seq<Step>, w: nat)
    requires w < |Exec(Start(), steps).waiters| && Exec(Start(), steps).waiters[w].phase.Done?
    ensures var s := Exec(Start(), steps);
      var x := s.waiters[w];
      && Partition(x.ids, x.phase.ready, x.phase.unready, x.exceptions)
      && (forall id :: id in x.phase.ready ==> Truth(s.store, id) == Good)
      && (forall id :: id in x.exceptions ==> Truth(s.store, id) == Bad && x.exceptions[id] == s.store[id].err)
      && (x.phase.needReturn <==> |x.phase.ready| + |x.exceptions| >= x.minReadyNum)
  {
    RunKeepsInv(steps);
    assert WaiterOk(Exec(Start(), steps), w, Exec(Start(), steps).waiters[w]);
  }

  // --------------------------------------------------------------------- the rescan finds it all

  lemma {:induction false} ContinuedRunKeepsInv(s: State, more: seq<Step>)
    requires Inv(s)
    ensures Inv(Exec(s, more))
  {
    hide Inv, Next;
    if more != [] {
      ContinuedRunKeepsInv(s, more[..|more| - 1]);
      StepKeepsInv(Exec(s, more[..|more| - 1]), more[|more| - 1]);
    }
  }

  /** Everything `x` waits for is settled. */
  ghost predicate AllSettled(s: State, x: Waiter) {
    forall id :: id in x.ids ==> id in s.store && s.store[id].ready
  }

  /** The scan of waiter `w` has left nothing unready so far, or has returned with nothing unready. */
  ghost predicate OnTrack(s: State, w: nat) {
    && w < |s.waiters| && AllSettled(s, s.waiters[w])
    && match s.waiters[w].phase
       case Scanning(pos, _, unready) => pos <= |s.waiters[w].ids| && unready == []
       case Done(_, unready, needReturn) => unready == [] && needReturn
       case _ => false
  }

  /** The waiter's next step in its scan. */
  function OwnStep(s: State, w: nat): Step
    requires w < |s.waiters| && s.waiters[w].phase.Scanning?
  {
    if s.waiters[w].phase.pos < |s.waiters[w].ids| then ScanOne(w) else EndScan(w)
  }

  predicate TakesTurn(s: State, w: nat, step: Step) {
    w < |s.waiters| && s.waiters[w].phase.Scanning? && step == OwnStep(s, w)
  }

  /** How many more turns the scan takes. */
  function TurnsLeft(s: State, w: nat): int {
    if w < |s.waiters| && s.waiters[w].phase.Scanning? then |s.waiters[w].ids| - s.waiters[w].phase.pos + 1 else 0
  }

  /** The turns the waiter gets in the course of `more`. */
  function Turns(s: State, w: nat, more: seq<Step>): nat {
    if more == [] then 0
    else
      Turns(s, w, more[..|more| - 1]) + if TakesTurn(Exec(s, more[..|more| - 1]), w, more[|more| - 1]) then 1 else 0
  }

  lemma StoreGrows(s: State, step: Step)
    ensures Grows(s.store, Next(s, step).store)
  {
  }

  /** While a waiter scans, or once it is done, only its own turns change it. */
  lemma OthersLeaveAlone(s: State, w: nat, step: Step)
    requires w < |s.waiters| && (s.waiters[w].phase.Scanning? || s.waiters[w].phase.Done?)
    requires !TakesTurn(s, w, step)
    ensures w < |Next(s, step).waiters| && Next(s, step).waiters[w] == s.waiters[w]
  {
  }

  /** A turn at a settled id does not leave it unready. */
  lemma ScanTurnStaysOnTrack(s: State, w: nat)
    requires OnTrack(s, w) && TakesTurn(s, w, ScanOne(w))
    ensures OnTrack(Next(s, ScanOne(w)), w) && TurnsLeft(Next(s, ScanOne(w)), w) == TurnsLeft(s, w) - 1
  {
    var x := s.waiters[w];
    assert x.ids[x.phase.pos] in x.ids;
  }

  /** A scan that left nothing unready has enough: the waiter asked for at most all its ids. */
  lemma FullScanReturns(s: State, w: nat)
    requires w < |s.waiters| && WaiterOk(s, w, s.waiters[w]) && s.waiters[w].phase.Scanning?
    requires s.waiters[w].phase.pos == |s.waiters[w].ids| && s.waiters[w].phase.unready == []
    ensures Next(s, EndScan(w)).waiters[w].phase == Done(s.waiters[w].phase.ready, [], true)
    ensures Next(s, EndScan(w)).waiters[w].ids == s.waiters[w].ids && Next(s, EndScan(w)).store == s.store
  {
    var x := s.waiters[w];
    ScanEndsInPartition(s, w, x);
    PartitionSize(x.ids, x.phase.ready, x.phase.unready, x.exceptions);
  }

  lemma StepStaysOnTrack(s: State, w: nat, step: Step)
    requires Inv(s) && OnTrack(s, w)
    ensures OnTrack(Next(s, step), w)
    ensures TurnsLeft(Next(s, step), w) == TurnsLeft(s, w) - if TakesTurn(s, w, step) then 1 else 0
  {
    if !TakesTurn(s, w, step) {
      OthersLeaveAlone(s, w, step);
      StoreGrows(s, step);
      hide Inv, Next;
    } else if step.ScanOne? {
      ScanTurnStaysOnTrack(s, w);
    } else {
      WaiterIsOk(s, w);
      FullScanReturns(s, w);
      hide Inv, Next;
    }
  }

  lemma WaiterIsOk(s: State, w: nat)
    requires Inv(s) && w < |s.waiters|
    ensures WaiterOk(s, w, s.waiters[w])
  {
    hide StoreOk, SubscriptionsOk, EntitiesOk, CoverageOk, WaiterOk;
  }

  lemma {:induction false} RunStaysOnTrack(s: State, w: nat, more: seq<Step>)
    requires Inv(s) && OnTrack(s, w)
    ensures OnTrack(Exec(s, more), w) && TurnsLeft(Exec(s, more), w) == TurnsLeft(s, w) - Turns(s, w, more)
  {
    hide Inv, Next, OnTrack, TurnsLeft, TakesTurn;
    if more != [] {
      RunStaysOnTrack(s, w, more[..|more| - 1]);
      ContinuedRunKeepsInv(s, more[..|more| - 1]);
      StepStaysOnTrack(Exec(s, more[..|more| - 1]), w, more[|more| - 1]);
    }
  }

  /** Once all ids of an idle waiter are settled, its next scan, last or not, finds them all, whatever
      happened to its subscriptions and whatever the store and the other threads do meanwhile: it
      returns with nothing unready after one turn for each id and one more. */
  lemma RescanFindsAll(steps: seq<Step>, w: nat, lastWait: bool, more: seq<Step>)
    requires var s := Exec(Start(), steps);
      w < |s.waiters| && s.waiters[w].phase.Idle? && s.lock.Free? && AllSettled(s, s.waiters[w])
    ensures var s := Next(Exec(Start(), steps), Begin(w, lastWait));
      var t := Exec(s, more);
      && OnTrack(t, w) && Turns(s, w, more) <= |s.waiters[w].ids| + 1
      && (t.waiters[w].phase.Done? <==> Turns(s, w, more) == |s.waiters[w].ids| + 1)
  {
    var s0 := Exec(Start(), steps);
    var s := Next(s0, Begin(w, lastWait));
    RunKeepsInv(steps);
    StepKeepsInv(s0, Begin(w, lastWait));
    assert s.waiters[w].ids == s0.waiters[w].ids && s.store == s0.store && s.waiters[w].phase == Scanning(0, [], []);
    hide Inv, Next;
    RunStaysOnTrack(s, w, more);
  }

  /** Recorded errors are sticky: in every run an exception a waiter holds is judged bad by any scan, so
      that an exception carried into the last round never meets another verdict. */
  lemma ExceptionsStayBad(steps: seq<Step>, w: nat, id: Id)
    requires w < |Exec(Start(), steps).waiters| && id in Exec(Start(), steps).waiters[w].exceptions
    ensures var s := Exec(Start(), steps);
      && id in s.waiters[w].ids && Judge(id in s.unready, ReadingOf(s.store, id)) == Bad
      && s.waiters[w].exceptions[id] == s.store[id].err
  {
    RunKeepsInv(steps);
    var s := Exec(Start(), steps);
    WaiterIsOk(s, w);
    ScanIsTrue(s, id);
  }

  // ------------------------------------------------------------------------ lost subscriptions

  predicate Watches(s: State, e: nat, id: Id) {
    e < |s.entities| && e < |s.watched| && id in s.watched[e]
  }

  predicate HasHeard(s: State, e: nat, id: Id)
    requires e < |s.entities|
  {
    id in s.entities[e].readyObjIds || id in s.entities[e].exceptionIds
  }

  predicate Subscribed(s: State, e: nat, id: Id) {
    id in s.unready && e in s.unready[id]
  }

  /** Entity `e` waits for `id`, has not heard of it and will not be told. */
  predicate Lost(s: State, e: nat, id: Id) {
    Watches(s, e, id) && !HasHeard(s, e, id) && !Subscribed(s, e, id)
  }

  /** The step is a scan that meets `id` in the map, finds it ready, and drops it with the subscription of `e`. */
  predicate Drops(s: State, step: Step, e: nat, id: Id) {
    && step.ScanOne? && step.w < |s.waiters| && s.waiters[step.w].phase.Scanning?
    && s.waiters[step.w].phase.pos < |s.waiters[step.w].ids| && s.waiters[step.w].ids[s.waiters[step.w].phase.pos] == id
    && Subscribed(s, e, id) && ReadingOf(s.store, id).isReady
  }

  lemma ReportLosesNone(s: State, d: Delivery, e: nat, id: Id)
    requires SubscriptionsOk(s) && Watches(s, e, id)
    ensures Lost(CompleteCall(s, Report(d)), e, id) <==> Lost(s, e, id)
  {
    if d.id in s.unready { BroadcastSpec(s.entities, s.unready[d.id], d); }
  }

  lemma ScanLosesDropped(s: State, w: nat, e: nat, id: Id)
    requires SubscriptionsOk(s)
    ensures Lost(Next(s, ScanOne(w)), e, id) <==> Lost(s, e, id) || Drops(s, ScanOne(w), e, id)
  {
    if Subscribed(s, e, id) { assert SubscriberOk(s, id, e); }
  }

  lemma EndScanLosesNone(s: State, w: nat, e: nat, id: Id)
    requires Inv(s)
    ensures Lost(Next(s, EndScan(w)), e, id) <==> Lost(s, e, id)
  {
    if w < |s.waiters| && s.waiters[w].phase.Scanning? && s.waiters[w].phase.pos == |s.waiters[w].ids| {
      WaiterIsOk(s, w);
      UnreadyIsKnown(s, w, s.waiters[w]);
      if e >= |s.entities| { NewEntityLosesNone(s, w, e, id); } else { OldEntityLosesNone(s, w, e, id); }
    }
    hide Inv, Lost, FinishScan;
  }

  lemma OldEntityLosesNone(s: State, w: nat, e: nat, id: Id)
    requires w < |s.waiters| && s.waiters[w].phase.Scanning? && e < |s.entities| == |s.watched|
    ensures Lost(FinishScan(s, w), e, id) <==> Lost(s, e, id)
  {
    var s' := FinishScan(s, w);
    assert s'.entities[e] == s.entities[e] && s'.watched[e] == s.watched[e];
    assert Subscribed(s', e, id) <==> Subscribed(s, e, id);
  }

  lemma NewEntityLosesNone(s: State, w: nat, e: nat, id: Id)
    requires w < |s.waiters| && s.waiters[w].phase.Scanning? && |s.entities| == |s.watched| <= e
    requires forall id :: id in s.waiters[w].phase.unready ==> id in s.unready
    ensures !Lost(FinishScan(s, w), e, id) && !Lost(s, e, id)
  {
  }

  /** An id is lost to an entity by being dropped, and by nothing else; and once lost it stays lost. */
  lemma StepLosesDropped(s: State, step: Step, e: nat, id: Id)
    requires Inv(s)
    ensures Lost(Next(s, step), e, id) <==> Lost(s, e, id) || Drops(s, step, e, id)
  {
    hide WaitersOk, EntitiesOk, CoverageOk, StoreOk;
    match step
    case Complete(c) =>
      if c.Report? && Watches(s, e, id) { ReportLosesNone(s, c.d, e, id); }
    case ScanOne(w) =>
      ScanLosesDropped(s, w, e, id);
    case EndScan(w) => EndScanLosesNone(s, w, e, id);
    case Add(_) =>
    case StoreReady(_) =>
    case StoreError(_, _) =>
    case Arrive(_, _) =>
    case Begin(_, _) =>
    case ReadErrors(_) =>
    case ReadReady(_) =>
  }

  /** For good: whatever happens after, the entity is not told of a lost id. */
  lemma {:induction false} LostStaysLost(s: State, more: seq<Step>, e: nat, id: Id)
    requires Inv(s) && Lost(s, e, id)
    ensures Lost(Exec(s, more), e, id)
  {
    hide Inv, Next, Lost;
    if more != [] {
      LostStaysLost(s, more[..|more| - 1], e, id);
      ContinuedRunKeepsInv(s, more[..|more| - 1]);
      StepLosesDropped(Exec(s, more[..|more| - 1]), more[|more| - 1], e, id);
    }
  }

  /** Some step of the run drops the id with the subscription. */
  ghost predicate EverDropped(steps: seq<Step>, e: nat, id: Id) {
    exists i :: 0 <= i < |steps| && Drops(Exec(Start(), steps[..i]), steps[i], e, id)
  }

  lemma EverDroppedStep(steps: seq<Step>, e: nat, id: Id)
    requires steps != []
    ensures var n := |steps| - 1;
      EverDropped(steps, e, id) <==> EverDropped(steps[..n], e, id) || Drops(Exec(Start(), steps[..n]), steps[n], e, id)
  {
    hide Drops, Exec;
    var n := |steps| - 1;
    var front := steps[..n];
    assert forall i :: 0 <= i < n ==> front[..i] == steps[..i] && front[i] == steps[i];
    if i :| 0 <= i < n && Drops(Exec(Start(), front[..i]), front[i], e, id) {
      assert Drops(Exec(Start(), steps[..i]), steps[i], e, id);
    }
    if i :| 0 <= i < |steps| && Drops(Exec(Start(), steps[..i]), steps[i], e, id) {
      if i < n { assert Drops(Exec(Start(), front[..i]), front[i], e, id); }
    }
  }

  /** Exactly when: in every run an id is lost to an entity iff some scan before met it in the map, settled
      in the store and with the entity subscribed. */
  lemma {:induction false} LostIffDropped(steps: seq<Step>, e: nat, id: Id)
    ensures Lost(Exec(Start(), steps), e, id) <==> EverDropped(steps, e, id)
  {
    if steps == [] {
      assert !Lost(Start(), e, id);
    } else {
      hide Inv, Next, Drops, Lost, EverDropped;
      var n := |steps| - 1;
      LostIffDropped(steps[..n], e, id);
      RunKeepsInv(steps[..n]);
      StepLosesDropped(Exec(Start(), steps[..n]), steps[n], e, id);
      EverDroppedStep(steps, e, id);
    }
  }

  function LostIds(s: State, e: nat): set<Id>
    requires e < |s.watched|
  {
    set id | id in s.watched[e] && Lost(s, e, id)
  }

  lemma {:induction false} EntityKeeps(s: State, more: seq<Step>, e: nat)
    requires Inv(s) && e < |s.entities|
    ensures e < |Exec(s, more).entities| == |Exec(s, more).watched| && Exec(s, more).watched[e] == s.watched[e]
    ensures Exec(s, more).entities[e].minReadyNum == s.entities[e].minReadyNum
  {
    if more != [] {
      EntityKeeps(s, more[..|more| - 1], e);
      ContinuedRunKeepsInv(s, more[..|more| - 1]);
      StepKeepsEntity(Exec(s, more[..|more| - 1]), more[|more| - 1], e);
    }
  }

  lemma StepKeepsEntity(s: State, step: Step, e: nat)
    requires Inv(s) && e < |s.entities|
    ensures e < |Next(s, step).entities| == |Next(s, step).watched| && Next(s, step).watched[e] == s.watched[e]
    ensures Next(s, step).entities[e].minReadyNum == s.entities[e].minReadyNum
  {
    hide WaitersOk, EntitiesOk, CoverageOk, StoreOk;
    if step.Complete? && step.c.Report? && step.c.d.id in s.unready {
      BroadcastSpec(s.entities, s.unready[step.c.d.id], step.c.d);
    }
  }

  /** An entity hears at most of the watched ids it has not lost. */
  lemma HeardIsNotLost(s: State, e: nat)
    requires e < |s.entities| == |s.watched| && EntityOk(s.store, s.watched[e], s.entities[e])
    ensures s.entities[e].readyNum + s.entities[e].exceptionNum <= |s.watched[e]| - |LostIds(s, e)|
  {
    var x, lost, all := s.entities[e], LostIds(s, e), SetOf(s.watched[e]);
    NoDupSize(s.watched[e]);
    NoDupSize(x.readyObjIds);
    HeardApart(s.store, s.watched[e], x);
    DisjointSize(SetOf(x.readyObjIds), x.exceptionIds.Keys, lost);
    SubsetSize(SetOf(x.readyObjIds) + x.exceptionIds.Keys + lost, all);
  }

  lemma HeardApart(store: map<Id, Detail>, watched: seq<Id>, x: Entity)
    requires EntityOk(store, watched, x)
    ensures SetOf(x.readyObjIds) !! x.exceptionIds.Keys
  {
  }

  lemma LostOnlyGrow(s: State, more: seq<Step>, e: nat)
    requires Inv(s) && e < |s.entities|
    ensures e < |Exec(s, more).watched| && e < |s.watched| && |LostIds(s, e)| <= |LostIds(Exec(s, more), e)|
  {
    EntityKeeps(s, more, e);
    var t := Exec(s, more);
    forall id | id in LostIds(s, e) ensures id in LostIds(t, e) { LostStaysLost(s, more, e, id); }
    SubsetSize(LostIds(s, e), LostIds(t, e));
  }

  /** An entity that has lost so many ids that the others are fewer than its threshold is never woken, in any
      continuation of any run: its waiter sleeps the round out. */
  lemma NeverWoken(steps: seq<Step>, e: nat, more: seq<Step>)
    requires var s := Exec(Start(), steps);
      e < |s.entities| == |s.watched| && |s.watched[e]| - |LostIds(s, e)| < s.entities[e].minReadyNum
    ensures var t := Exec(Exec(Start(), steps), more); e < |t.entities| && t.entities[e].promiseSets == 0
  {
    var s := Exec(Start(), steps);
    RunKeepsInv(steps);
    NotWokenFrom(s, e, more);
  }

  /** Exactly: in every run an entity none of whose ids is still subscribed has been woken iff the ids it has not lost
      reach its threshold. */
  lemma WokenIff(steps: seq<Step>, e: nat)
    requires var s := Exec(Start(), steps);
      e < |s.entities| == |s.watched| && forall id :: id in s.watched[e] ==> !Subscribed(s, e, id)
    ensures var s := Exec(Start(), steps);
      s.entities[e].promiseSets == 1 <==> |s.watched[e]| - |LostIds(s, e)| >= s.entities[e].minReadyNum
  {
    RunKeepsInv(steps);
    WokenFrom(Exec(Start(), steps), e);
  }

  lemma WokenFrom(s: State, e: nat)
    requires Inv(s) && e < |s.entities| == |s.watched| && forall id :: id in s.watched[e] ==> !Subscribed(s, e, id)
    ensures s.entities[e].promiseSets == 1 <==> |s.watched[e]| - |LostIds(s, e)| >= s.entities[e].minReadyNum
  {
    EntityIsOk(s, e);
    hide Inv;
    WatchedIsHeardOrLost(s, e);
    hide LostIds, Lost, Subscribed;
    var x, lost := s.entities[e], LostIds(s, e);
    NoDupSize(s.watched[e]);
    NoDupSize(x.readyObjIds);
    DisjointSize(SetOf(x.readyObjIds), x.exceptionIds.Keys, lost);
    CountsHeard(s, e);
    hide EntityOk;
  }

  lemma CountsHeard(s: State, e: nat)
    requires e < |s.entities| == |s.watched| && EntityOk(s.store, s.watched[e], s.entities[e])
    ensures var x := s.entities[e];
      x.promiseSets == 1 <==> |x.readyObjIds| + |x.exceptionIds.Keys| >= x.minReadyNum
  {
    assert |s.entities[e].exceptionIds| == |s.entities[e].exceptionIds.Keys|;
  }

  lemma WatchedIsHeardOrLost(s: State, e: nat)
    requires e < |s.entities| == |s.watched| && EntityOk(s.store, s.watched[e], s.entities[e])
    requires forall id :: id in s.watched[e] ==> !Subscribed(s, e, id)
    ensures var x, lost := s.entities[e], LostIds(s, e);
      && SetOf(s.watched[e]) == SetOf(x.readyObjIds) + x.exceptionIds.Keys + lost
      && SetOf(x.readyObjIds) !! x.exceptionIds.Keys && (SetOf(x.readyObjIds) + x.exceptionIds.Keys) !! lost
  {
    HeardApart(s.store, s.watched[e], s.entities[e]);
    forall id ensures HeardOrLost(s, e, id) { HeardOrLostOne(s, e, id); }
    hide EntityOk, LostIds, Subscribed, SetOf;
    ThreeParts(s.watched[e], s.entities[e].readyObjIds, s.entities[e].exceptionIds.Keys, LostIds(s, e));
  }

  lemma ThreeParts(all: seq<Id>, a: seq<Id>, b: set<Id>, c: set<Id>)
    requires forall id :: id in all <==> id in a || id in b || id in c
    requires forall id :: id in c ==> id !in a && id !in b
    ensures SetOf(all) == SetOf(a) + b + c && (SetOf(a) + b) !! c
  {
  }

  /** A watched id has been heard of or lost, and not both. */
  ghost predicate HeardOrLost(s: State, e: nat, id: Id)
    requires e < |s.entities| == |s.watched|
  {
    && (id in s.watched[e] <==> HasHeard(s, e, id) || id in LostIds(s, e))
    && !(HasHeard(s, e, id) && id in LostIds(s, e))
  }

  lemma HeardOrLostOne(s: State, e: nat, id: Id)
    requires e < |s.entities| == |s.watched| && EntityOk(s.store, s.watched[e], s.entities[e])
    requires id in s.watched[e] ==> !Subscribed(s, e, id)
    ensures HeardOrLost(s, e, id)
  {
  }

  lemma NotWokenFrom(s: State, e: nat, more: seq<Step>)
    requires Inv(s) && e < |s.entities| == |s.watched|
    requires |s.watched[e]| - |LostIds(s, e)| < s.entities[e].minReadyNum
    ensures e < |Exec(s, more).entities| && Exec(s, more).entities[e].promiseSets == 0
  {
    var t := Exec(s, more);
    EntityKeeps(s, more, e);
    LostOnlyGrow(s, more, e);
    ContinuedRunKeepsInv(s, more);
    EntityIsOk(t, e);
    HeardIsNotLost(t, e);
  }

  lemma EntityIsOk(s: State, e: nat)
    requires Inv(s) && e < |s.entities|
    ensures |s.entities| == |s.watched| && EntityOk(s.store, s.watched[e], s.entities[e])
  {
    hide EntityOk, WaitersOk, SubscriptionsOk, CoverageOk, StoreOk;
  }

  // ------------------------------------------------------------------ why the rescan is needed

  /** Two waiters for one pending object, the first of them asleep on it. */
  function OneAsleep(): State {
    State(map["a" := Detail(false, NO_ERROR)], {}, map["a" := [0]], [NewEntity(1)],
          [Waiter(["a"], 1, false, map[], Asleep([], ["a"], 0)), Waiter(["a"], 1, false, map[], Idle)], Free,
          {"a"}, [["a"]])
  }

  ghost predicate Reachable(s: State) {
    exists steps :: Exec(Start(), steps) == s
  }

  lemma ReachStart()
    ensures Reachable(Start())
  {
    assert Exec(Start(), []) == Start();
  }

  lemma Reach(s: State, step: Step)
    requires Reachable(s)
    ensures Reachable(Next(s, step))
  {
    var steps :| Exec(Start(), steps) == s;
    assert (steps + [step])[..|steps|] == steps;
    assert Exec(Start(), steps + [step]) == Next(s, step);
  }

  /** The object is known and two waiters have come, before either scans. */
  function TwoIdle(): State {
    State(map["a" := Detail(false, NO_ERROR)], {}, map["a" := []], [],
          [Waiter(["a"], 1, false, map[], Idle), Waiter(["a"], 1, false, map[], Idle)], Free, {"a"}, [])
  }

  lemma ReachTwoIdle()
    ensures Reachable(TwoIdle())
  {
    hide Reachable, Exec;
    ReachStart();
    Reach(Start(), Add("a"));
    var s1 := Next(Start(), Add("a"));
    Reach(s1, Complete(MarkUnready("a")));
    var s2 := Next(s1, Complete(MarkUnready("a")));
    assert s2 == State(map["a" := Detail(false, NO_ERROR)], {}, map["a" := []], [], [], Free, {"a"}, []);
    Reach(s2, Arrive(["a"], 1));
    var s3 := Next(s2, Arrive(["a"], 1));
    Reach(s3, Arrive(["a"], 1));
    assert Next(s3, Arrive(["a"], 1)) == TwoIdle();
  }

  /** The first waiter has scanned the object and still holds the lock. */
  function FirstScanned(): State {
    TwoIdle().(waiters := [Waiter(["a"], 1, false, map[], Scanning(1, [], ["a"])),
                           Waiter(["a"], 1, false, map[], Idle)], lock := HeldBy(0))
  }

  lemma ReachFirstScanned()
    ensures Reachable(FirstScanned())
  {
    hide Reachable, Exec;
    ReachTwoIdle();
    Reach(TwoIdle(), Begin(0, false));
    var s5 := Next(TwoIdle(), Begin(0, false));
    assert s5.waiters[0] == Waiter(["a"], 1, false, map[], Scanning(0, [], []));
    Reach(s5, ScanOne(0));
    var nothing: seq<Id> := [];
    assert nothing + ["a"] == ["a"];
    assert Next(s5, ScanOne(0)) == FirstScanned();
  }

  lemma ReachOneAsleep()
    ensures Reachable(OneAsleep())
  {
    hide Reachable, Exec;
    ReachFirstScanned();
    var s6 := FirstScanned();
    Reach(s6, EndScan(0));
    var nobody: seq<nat> := [];
    assert nobody + [0] == [0];
    assert Subscribe(s6.unready, ["a"], 0) == map["a" := [0]];
    assert Next(s6, EndScan(0)) == OneAsleep();
  }

  /** The object has become ready and the second waiter has seen it; the report is still under way. */
  function SecondSawIt(): State {
    State(map["a" := Detail(true, NO_ERROR)], {Report(Ready("a"))}, map[], [NewEntity(1)],
          [Waiter(["a"], 1, false, map[], Asleep([], ["a"], 0)),
           Waiter(["a"], 1, false, map[], Scanning(1, ["a"], []))], HeldBy(1), {"a"}, [["a"]])
  }

  lemma ReachSecondSawIt()
    ensures Reachable(SecondSawIt())
  {
    hide Reachable, Exec;
    ReachOneAsleep();
    Reach(OneAsleep(), StoreReady("a"));
    var s8 := Next(OneAsleep(), StoreReady("a"));
    assert s8.calls == {Report(Ready("a"))} && s8.store == map["a" := Detail(true, NO_ERROR)];
    Reach(s8, Begin(1, false));
    var s9 := Next(s8, Begin(1, false));
    assert s9.waiters[1] == Waiter(["a"], 1, false, map[], Scanning(0, [], []));
    Reach(s9, ScanOne(1));
    var nothing: seq<Id> := [];
    assert nothing + ["a"] == ["a"];
    assert Next(s9, ScanOne(1)) == SecondSawIt();
  }

  /** A subscription can be lost: while waiter 0 sleeps on "a", waiter 1 finds it ready and drops it from
      the map with waiter 0's subscription.  In no continuation is waiter 0 woken. */
  lemma SubscriptionCanBeLost() returns (s: State)
    ensures Reachable(s) && Lost(s, 0, "a")
    ensures |s.waiters| == 2
    ensures s.waiters[0].phase == Asleep([], ["a"], 0) && s.waiters[1].phase == Done(["a"], [], true)
    ensures s.calls == {} && s.unready == map[] && Truth(s.store, "a") == Good
    ensures forall more :: var t := Exec(s, more); 0 < |t.entities| && t.entities[0].promiseSets == 0
  {
    s := ReachLost();
    ReachableKeepsInv(s);
    assert LostIds(s, 0) == {"a"};
    hide Reachable, Lost, LostIds, Inv;
    forall more ensures 0 < |Exec(s, more).entities| && Exec(s, more).entities[0].promiseSets == 0 {
      NotWokenFrom(s, 0, more);
    }
  }

  lemma ReachableKeepsInv(s: State)
    requires Reachable(s)
    ensures Inv(s)
  {
    var steps :| Exec(Start(), steps) == s;
    RunKeepsInv(steps);
  }

  lemma ReachLost() returns (s: State)
    ensures Reachable(s) && Lost(s, 0, "a")
    ensures |s.waiters| == 2 && s.watched == [["a"]] && |s.entities| == 1 && s.entities[0] == NewEntity(1)
    ensures s.waiters[0].phase == Asleep([], ["a"], 0) && s.waiters[1].phase == Done(["a"], [], true)
    ensures s.calls == {} && s.unready == map[] && Truth(s.store, "a") == Good
  {
    hide Reachable, Exec;
    ReachSecondSawIt();
    var s10 := SecondSawIt();
    Reach(s10, EndScan(1));
    var s11 := Next(s10, EndScan(1));
    assert s11.lock.Free? && s11.waiters[1].phase == Done(["a"], [], true);
    Reach(s11, Complete(Report(Ready("a"))));
    s := Next(s11, Complete(Report(Ready("a"))));
  }
}
