/**
  Client side of ordered invocation (`InvokeOrderManager`).

  Every instance has a counter that hands out sequence numbers, a low watermark below which every
  request has finished, and the set of finishes that arrived ahead of the watermark.  The reference
  semantics is a `History`: where the registration started, how many numbers it issued and which
  numbers were ever reported finished.  The fast state is proved to be a function of the history.
 */
module InvokeOrder {

  /** `InstanceOrdering`: the counters of one registration of an instance. */
  datatype Ordering = Ordering(counter: int, unfinished: int, finished: set<int>)

  /** What happened since an instance was registered, with nothing drained or forgotten. */
  datatype History = History(base: int, counter: int, done: set<int>)

  type Table = map<string, Ordering>
  type Ledger = map<string, History>

  // ---------------------------------------------------------------- the watermark of one instance

  /** `n` is the first element of the ordered set. */
  predicate IsHead(n: int, pending: set<int>) {
    n in pending && forall x :: x in pending ==> n <= x
  }

  /** The drain loop of `UpdateFinishReqSeqNo`. */
  function Drain(unfinished: int, finished: set<int>): (int, set<int>)
    decreases |finished|
  {
    if IsHead(unfinished, finished) then Drain(unfinished + 1, finished - {unfinished}) else (unfinished, finished)
  }

  function FinishOrdering(o: Ordering, seqNo: int): Ordering {
    if seqNo < o.unfinished then o
    else
      var (u, f) := Drain(o.unfinished, o.finished + {seqNo});
      Ordering(o.counter, u, f)
  }

  /** `NotifyGroupInstance` moves the watermark without looking at the finished set. */
  function NotifyOrdering(o: Ordering): Ordering {
    o.(unfinished := o.unfinished + 1)
  }

  /** The least number from `base` on that is not done. */
  function LeastMissing(base: int, done: set<int>): (least: int)
    ensures base <= least && least !in done
    ensures forall x :: base <= x < least ==> x in done
    decreases |done|
  {
    if base in done then
      var least := LeastMissing(base + 1, done - {base});
      assert forall x :: base <= x < least ==> x in done by {
        forall x | base <= x < least ensures x in done {
          assert x == base || x in done - {base};
        }
      }
      least
    else base
  }

  function Above(done: set<int>, watermark: int): set<int> {
    set x | x in done && x > watermark
  }

  /** The only ordering state a history can lead to. */
  function Canonical(h: History): Ordering {
    var w := LeastMissing(h.base, h.done);
    Ordering(h.counter, w, Above(h.done, w))
  }

  lemma LeastMissingUnique(base: int, done: set<int>, w: int)
    requires base <= w && w !in done
    requires forall x :: base <= x < w ==> x in done
    ensures LeastMissing(base, done) == w
  {
    var least := LeastMissing(base, done);
    assert !(least < w) && !(w < least);
  }

  /** Draining from any point of the finished prefix ends in the canonical state. */
  lemma {:induction false} DrainIsCanonical(base: int, w: int, done: set<int>)
    requires base <= w
    requires forall x :: base <= x < w ==> x in done
    ensures Drain(w, set x | x in done && x >= w)
         == (LeastMissing(base, done), Above(done, LeastMissing(base, done)))
    decreases |set x | x in done && x >= w|
  {
    var ahead := set x | x in done && x >= w;
    if w in done {
      assert ahead - {w} == set x | x in done && x >= w + 1;
      assert IsHead(w, ahead);
      DrainIsCanonical(base, w + 1, done);
    } else {
      LeastMissingUnique(base, done, w);
      assert ahead == Above(done, w);
    }
  }

  /** A finish in any order, duplicate or not, is the canonical state of the enlarged history. */
  lemma FinishRefines(h: History, seqNo: int)
    ensures FinishOrdering(Canonical(h), seqNo) == Canonical(h.(done := h.done + {seqNo}))
  {
    var w := LeastMissing(h.base, h.done);
    var done' := h.done + {seqNo};
    if seqNo < w {
      LeastMissingUnique(h.base, done', w);
      assert Above(done', w) == Above(h.done, w);
    } else {
      assert Above(h.done, w) + {seqNo} == set x | x in done' && x >= w;
      DrainIsCanonical(h.base, w, done');
    }
  }

  /** The group notification counts as the finish of number 0 exactly when it is the first finish
      and number 1 is not already waiting to be drained. */
  lemma NotifyIsFinishZeroIff(h: History)
    requires h.base >= 0
    ensures NotifyOrdering(Canonical(h)) == FinishOrdering(Canonical(h), 0)
       <==> Canonical(h).unfinished == 0 && 1 !in Canonical(h).finished
  {
    var o := Canonical(h);
    if o.unfinished == 0 {
      var all := o.finished + {0};
      assert IsHead(0, all);
      assert all - {0} == o.finished;
      assert Drain(0, all) == Drain(1, o.finished);
      assert IsHead(1, o.finished) <==> 1 in o.finished;
      if 1 in o.finished {
        DrainAdvances(1, o.finished);
      }
    }
  }

  /** So it leaves the canonical state of the history with number 0 finished exactly then. */
  lemma NotifyRefinesIff(h: History)
    requires h.base >= 0
    ensures NotifyOrdering(Canonical(h)) == Canonical(h.(done := h.done + {0}))
       <==> Canonical(h).unfinished == 0 && 1 !in Canonical(h).finished
  {
    NotifyIsFinishZeroIff(h);
    FinishRefines(h, 0);
  }

  lemma {:induction false} DrainAdvances(u: int, finished: set<int>)
    ensures Drain(u, finished).0 >= u
    ensures IsHead(u, finished) ==> Drain(u, finished).0 > u
    decreases |finished|
  {
    if IsHead(u, finished) { DrainAdvances(u + 1, finished - {u}); }
  }

  // ------------------------------------------------------------------ the table of all instances

  datatype Action =
    | Create
    | CreateGroup
    | NotifyGroup
    | Register
    | RegisterAligned(restored: bool)
    | Invoke(isGetInstance: bool)
    | Finish(seqNo: int)

  datatype Event = On(id: string, action: Action) | Remove(id: string) | RemoveAll

  /** How an action starts an instance it does not find, as the first unfinished number and the
      counter; `NotOrdered` if it leaves an unknown instance alone. */
  datatype Start = NotOrdered | From(base: int, counter: int)

  function StartOf(a: Action): Start {
    match a
    case Create => From(0, 1)
    case CreateGroup => From(0, 1)
    case Register => From(0, 0)
    case RegisterAligned(restored) => if restored then From(0, 0) else From(1, 1)
    case Invoke(isGetInstance) => if isGetInstance then From(0, 1) else NotOrdered
    case NotifyGroup => NotOrdered
    case Finish(_) => NotOrdered
  }

  function Act(o: Ordering, a: Action): Ordering {
    match a
    case Invoke(_) => o.(counter := o.counter + 1)
    case Finish(seqNo) => FinishOrdering(o, seqNo)
    case NotifyGroup => NotifyOrdering(o)
    case _ => o
  }

  function Apply(t: Table, e: Event): Table {
    match e
    case RemoveAll => map[]
    case Remove(id) => t - {id}
    case On(id, a) =>
      if id in t then t[id := Act(t[id], a)]
      else match StartOf(a)
        case NotOrdered => t
        case From(base, counter) => t[id := Ordering(counter, base, {})]
  }

  /** The same actions on a history only ever append. */
  function Append(h: History, a: Action): History {
    match a
    case Invoke(_) => h.(counter := h.counter + 1)
    case Finish(seqNo) => h.(done := h.done + {seqNo})
    case NotifyGroup => h.(done := h.done + {0})
    case _ => h
  }

  function Record(l: Ledger, e: Event): Ledger {
    match e
    case RemoveAll => map[]
    case Remove(id) => l - {id}
    case On(id, a) =>
      if id in l then l[id := Append(l[id], a)]
      else match StartOf(a)
        case NotOrdered => l
        case From(base, counter) => l[id := History(base, counter, {})]
  }

  /** A group is notified once, while nothing of it has finished: invokes on a group instance wait for it. */
  predicate Legal(l: Ledger, e: Event) {
    e.On? && e.action.NotifyGroup? && e.id in l ==>
      l[e.id].base == 0 && 0 !in l[e.id].done && 1 !in l[e.id].done
  }

  function ApplyAll(t: Table, es: seq<Event>): Table {
    if es == [] then t else Apply(ApplyAll(t, es[..|es| - 1]), es[|es| - 1])
  }

  function RecordAll(l: Ledger, es: seq<Event>): Ledger {
    if es == [] then l else Record(RecordAll(l, es[..|es| - 1]), es[|es| - 1])
  }

  predicate LegalRun(es: seq<Event>) {
    forall i :: 0 <= i < |es| ==> Legal(RecordAll(map[], es[..i]), es[i])
  }

  ghost predicate Agree(t: Table, l: Ledger) {
    && t.Keys == l.Keys
    && forall id :: id in l ==> t[id] == Canonical(l[id]) && l[id].base >= 0
  }

  lemma StartIsCanonical(base: int, counter: int)
    ensures Canonical(History(base, counter, {})) == Ordering(counter, base, {})
  {
    LeastMissingUnique(base, {}, base);
  }

  lemma ActionRefines(h: History, a: Action)
    requires h.base >= 0
    requires a.NotifyGroup? ==> h.base == 0 && 0 !in h.done && 1 !in h.done
    ensures Act(Canonical(h), a) == Canonical(Append(h, a))
  {
    match a
    case Finish(seqNo) => FinishRefines(h, seqNo);
    case NotifyGroup =>
      LeastMissingUnique(0, h.done, 0);
      NotifyIsFinishZeroIff(h);
      FinishRefines(h, 0);
    case _ =>
  }

  lemma EventKeepsAgreement(t: Table, l: Ledger, e: Event)
    requires Agree(t, l) && Legal(l, e)
    ensures Agree(Apply(t, e), Record(l, e))
  {
    match e
    case RemoveAll =>
    case Remove(id) =>
    case On(id, a) =>
      if id in l {
        ActionRefines(l[id], a);
      } else {
        match StartOf(a)
        case NotOrdered =>
        case From(base, counter) => StartIsCanonical(base, counter);
      }
  }

  /** Watermark refinement: after any legal run of any events on any instances, the state of every
      registered instance is the canonical state of what happened since its registration. */
  lemma {:induction false} RunRefinesHistory(es: seq<Event>)
    requires LegalRun(es)
    ensures Agree(ApplyAll(map[], es), RecordAll(map[], es))
  {
    if es != [] {
      var front := es[..|es| - 1];
      assert forall i :: 0 <= i < |front| ==> front[..i] == es[..i];
      RunRefinesHistory(front);
      EventKeepsAgreement(ApplyAll(map[], front), RecordAll(map[], front), es[|es| - 1]);
    }
  }

  /** Two runs that finished the same requests left the same state, whatever the order and repetitions. */
  lemma OrderOfFinishesIrrelevant(es: seq<Event>, fs: seq<Event>, id: string)
    requires LegalRun(es) && LegalRun(fs)
    requires id in RecordAll(map[], es) && id in RecordAll(map[], fs)
    requires RecordAll(map[], es)[id] == RecordAll(map[], fs)[id]
    ensures id in ApplyAll(map[], es) && id in ApplyAll(map[], fs)
    ensures ApplyAll(map[], es)[id] == ApplyAll(map[], fs)[id]
  {
    RunRefinesHistory(es);
    RunRefinesHistory(fs);
  }

  function AtLeast(done: set<int>, base: int): set<int> {
    set x | x in done && x >= base
  }

  /** Conservation: distinct finishes from the base on are the ones below the watermark plus the ones
      parked above it; finishes below the base count for nothing. */
  lemma {:induction false} FinishesConserved(h: History)
    ensures |AtLeast(h.done, h.base)| == (Canonical(h).unfinished - h.base) + |Canonical(h).finished|
    decreases |h.done|
  {
    var o := Canonical(h);
    if h.base in h.done {
      var rest := History(h.base + 1, h.counter, h.done - {h.base});
      FinishesConserved(rest);
      LeastMissingUnique(h.base + 1, rest.done, o.unfinished);
      assert Above(rest.done, o.unfinished) == o.finished;
      assert AtLeast(h.done, h.base) == AtLeast(rest.done, rest.base) + {h.base};
    } else {
      LeastMissingUnique(h.base, h.done, h.base);
      assert o.finished == AtLeast(h.done, h.base);
    }
  }

  /** When everything issued has finished, nothing is parked and the watermark is the counter. */
  lemma QuiescentWhenAllDone(h: History)
    requires h.base <= h.counter
    requires forall x :: x in h.done <==> h.base <= x < h.counter
    ensures Canonical(h) == Ordering(h.counter, h.counter, {})
  {
    LeastMissingUnique(h.base, h.done, h.counter);
  }

  /** The watermark never retreats and never passes a number that is not done. */
  lemma MoreDoneIsFurther(h: History, more: set<int>, x: int)
    ensures Canonical(h).unfinished <= Canonical(h.(done := h.done + more)).unfinished
    ensures h.base <= x && x !in h.done ==> Canonical(h).unfinished <= x
  {
    var w' := LeastMissing(h.base, h.done + more);
    assert w' !in h.done;
  }

  /** The event forgets instance `id`. */
  predicate Forgets(e: Event, id: string) {
    e.RemoveAll? || (e.Remove? && e.id == id)
  }

  lemma EventAdvances(t: Table, e: Event, id: string)
    requires id in t && !Forgets(e, id)
    ensures id in Apply(t, e) && t[id].unfinished <= Apply(t, e)[id].unfinished
  {
    if e.On? && e.id == id && e.action.Finish? {
      DrainAdvances(t[id].unfinished, t[id].finished + {e.action.seqNo});
    }
  }

  lemma {:induction false} WatermarkAdvances(es: seq<Event>, i: nat, id: string)
    requires i <= |es| && id in ApplyAll(map[], es[..i])
    requires forall j :: i <= j < |es| ==> !Forgets(es[j], id)
    ensures id in ApplyAll(map[], es)
    ensures ApplyAll(map[], es[..i])[id].unfinished <= ApplyAll(map[], es)[id].unfinished
  {
    if i == |es| {
      assert es[..i] == es;
    } else {
      var front := es[..|es| - 1];
      assert front[..i] == es[..i];
      WatermarkAdvances(front, i, id);
      EventAdvances(ApplyAll(map[], front), es[|es| - 1], id);
    }
  }

  /** In every run the watermark of an instance does not go back as long as the instance is not forgotten, and in
      every legal run it does not pass a number that is not done. */
  lemma WatermarkSafe(es: seq<Event>, i: nat, id: string, x: int)
    requires i <= |es| && id in ApplyAll(map[], es[..i])
    requires forall j :: i <= j < |es| ==> !Forgets(es[j], id)
    ensures id in ApplyAll(map[], es)
    ensures ApplyAll(map[], es[..i])[id].unfinished <= ApplyAll(map[], es)[id].unfinished
    ensures LegalRun(es) ==> id in RecordAll(map[], es)
    ensures LegalRun(es) && RecordAll(map[], es)[id].base <= x && x !in RecordAll(map[], es)[id].done ==>
      ApplyAll(map[], es)[id].unfinished <= x
  {
    WatermarkAdvances(es, i, id);
    if LegalRun(es) {
      RunRefinesHistory(es);
      MoreDoneIsFurther(RecordAll(map[], es)[id], {}, x);
    }
  }

  /** A second notification of a group passes request 1, which has been issued and is not done. */
  lemma SecondNotifyPasses(id: string)
    ensures var es := [On(id, CreateGroup), On(id, Action.Invoke(false)), On(id, NotifyGroup), On(id, NotifyGroup)];
      && id in ApplyAll(map[], es) && ApplyAll(map[], es)[id] == Ordering(2, 2, {})
      && id in RecordAll(map[], es) && RecordAll(map[], es)[id].counter == 2 && 1 !in RecordAll(map[], es)[id].done
  {
    var c, i, n := On(id, CreateGroup), On(id, Action.Invoke(false)), On(id, NotifyGroup);
    var es := [c, i, n, n];
    assert es[..3] == [c, i, n] && [c, i, n][..2] == [c, i] && [c, i][..1] == [c];
    assert [c][..0] == [];
    var t1, l1 := Apply(map[], c), Record(map[], c);
    assert ApplyAll(map[], [c]) == t1 && RecordAll(map[], [c]) == l1;
    assert t1[id] == Ordering(1, 0, {}) && l1[id] == History(0, 1, {});
    var t2, l2 := Apply(t1, i), Record(l1, i);
    assert ApplyAll(map[], [c, i]) == t2 && RecordAll(map[], [c, i]) == l2;
    var t3, l3 := Apply(t2, n), Record(l2, n);
    assert ApplyAll(map[], [c, i, n]) == t3 && RecordAll(map[], [c, i, n]) == l3;
    assert ApplyAll(map[], es) == Apply(t3, n) && RecordAll(map[], es) == Record(l3, n);
  }

  // -------------------------------------------------------------------------------- the manager

  /** The part of `InvokeSpec` the manager reads and writes. */
  class InvokeSpec {
    const namedId: string
    const instanceId: string
    const returnIds: seq<string>
    const needOrder: bool
    const isGetInstance: bool
    const isCreate: bool
    var invokeSeqNo: int
    var invokeUnfinishedSeqNo: int

    constructor (namedId: string, instanceId: string, returnIds: seq<string>, needOrder: bool, isGetInstance: bool,
                 isCreate: bool)
      ensures this.namedId == namedId && this.instanceId == instanceId && this.returnIds == returnIds
      ensures this.needOrder == needOrder && this.isGetInstance == isGetInstance && this.isCreate == isCreate
      ensures invokeSeqNo == 0 && invokeUnfinishedSeqNo == 0
    {
      this.namedId, this.instanceId, this.returnIds := namedId, instanceId, returnIds;
      this.needOrder, this.isGetInstance, this.isCreate := needOrder, isGetInstance, isCreate;
      invokeSeqNo, invokeUnfinishedSeqNo := 0, 0;
    }

    /** The id a creation is ordered under; empty if it is not ordered. */
    function CreationId(): string {
      if !needOrder || returnIds == [] then "" else if namedId != "" then namedId else returnIds[0]
    }

    function TargetId(): string {
      if namedId != "" then namedId else instanceId
    }
  }

  datatype Signal = KillInstance | KillAllInstances | KillInstanceSync | KillGroupInstance | OtherSignal

  class InvokeOrderManager {
    var instances: Table

    constructor ()
      ensures instances == map[]
    {
      instances := map[];
    }

    method CreateInstance(spec: InvokeSpec)
      modifies this, spec`invokeSeqNo
      ensures instances == if spec.CreationId() == "" then old(instances)
                           else Apply(old(instances), On(spec.CreationId(), Create))
      ensures spec.invokeSeqNo == if spec.CreationId() == "" || spec.CreationId() in old(instances)
                                  then old(spec.invokeSeqNo) else 0
    {
      var id := spec.CreationId();
      if id == "" { return; }
      if id !in instances {
        instances := instances[id := Ordering(0, 0, {})];
        spec.invokeSeqNo := instances[id].counter;
        instances := instances[id := instances[id].(counter := instances[id].counter + 1)];
      }
    }

    method CreateGroupInstance(id: string)
      modifies this
      ensures instances == if id == "" then old(instances) else Apply(old(instances), On(id, CreateGroup))
    {
      if id == "" { return; }
      if id !in instances {
        instances := instances[id := Ordering(0, 0, {})];
        instances := instances[id := instances[id].(counter := instances[id].counter + 1)];
      }
    }

    method NotifyGroupInstance(id: string)
      modifies this
      ensures instances == Apply(old(instances), On(id, NotifyGroup))
    {
      if id in instances {
        instances := instances[id := instances[id].(unfinished := instances[id].unfinished + 1)];
      }
    }

    method RegisterInstance(id: string)
      modifies this
      ensures instances == if id == "" then old(instances) else Apply(old(instances), On(id, Register))
    {
      if id == "" { return; }
      if id !in instances { instances := instances[id := Ordering(0, 0, {})]; }
    }

    method RegisterInstanceAndUpdateOrder(id: string, restored: bool)
      modifies this
      ensures instances == if id == "" then old(instances) else Apply(old(instances), On(id, RegisterAligned(restored)))
    {
      if id == "" { return; }
      if id !in instances {
        instances := instances[id := Ordering(0, 0, {})];
        if !restored {
          instances := instances[id := instances[id].(counter := instances[id].counter + 1)];
          instances := instances[id := instances[id].(unfinished := instances[id].counter)];
        }
      }
    }

    method RemoveInstance(spec: InvokeSpec)
      modifies this
      ensures instances == if spec.CreationId() == "" then old(instances)
                           else Apply(old(instances), Remove(spec.CreationId()))
    {
      var id := spec.CreationId();
      if id != "" && id in instances { instances := instances - {id}; }
    }

    method RemoveGroupInstance(id: string)
      modifies this
      ensures instances == Apply(old(instances), Remove(id))
    {
      if id in instances { instances := instances - {id}; }
    }

    method Invoke(spec: InvokeSpec)
      modifies this, spec`invokeSeqNo
      ensures var id := spec.TargetId();
        && instances == (if id == "" then old(instances)
                         else Apply(old(instances), On(id, Action.Invoke(spec.isGetInstance))))
        && spec.invokeSeqNo == if id != "" && id in old(instances) then old(instances)[id].counter
                               else if id != "" && spec.isGetInstance then 0
                               else old(spec.invokeSeqNo)
    {
      var id := spec.TargetId();
      if id == "" { return; }
      if id in instances {
        spec.invokeSeqNo := instances[id].counter;
        instances := instances[id := instances[id].(counter := instances[id].counter + 1)];
      } else if spec.isGetInstance {
        instances := instances[id := Ordering(0, 0, {})];
        spec.invokeSeqNo := instances[id].counter;
        instances := instances[id := instances[id].(counter := instances[id].counter + 1)];
      }
    }

    method UpdateUnfinishedSeq(spec: InvokeSpec)
      modifies spec`invokeUnfinishedSeqNo
      ensures spec.invokeUnfinishedSeqNo ==
        if spec.TargetId() != "" && spec.TargetId() in instances then instances[spec.TargetId()].unfinished
        else old(spec.invokeUnfinishedSeqNo)
    {
      var id := spec.TargetId();
      if id != "" && id in instances { spec.invokeUnfinishedSeqNo := instances[id].unfinished; }
    }

    method ClearInsOrderMsg(id: string, signal: Signal)
      modifies this
      ensures instances ==
        if signal == KillAllInstances then Apply(old(instances), RemoveAll)
        else if signal == OtherSignal || id == "" then old(instances)
        else Apply(old(instances), Remove(id))
    {
      if signal == KillAllInstances {
        instances := map[];
      } else if signal == KillInstance || signal == KillGroupInstance || signal == KillInstanceSync {
        if id == "" { return; }
        if id in instances { instances := instances - {id}; }
      }
    }

    method NotifyInvokeSuccess(spec: InvokeSpec)
      requires spec.namedId == "" && spec.isCreate ==> spec.returnIds != []
      modifies this
      ensures var id := if spec.namedId != "" then spec.namedId
                        else if spec.isCreate then spec.returnIds[0] else spec.instanceId;
        instances == if id == "" then old(instances) else Apply(old(instances), On(id, Finish(spec.invokeSeqNo)))
    {
      var id := spec.namedId;
      if id == "" {
        if spec.isCreate { id := spec.returnIds[0]; } else { id := spec.instanceId; }
      }
      if id == "" { return; }
      UpdateFinishReqSeqNo(id, spec.invokeSeqNo);
    }

    method UpdateFinishReqSeqNo(id: string, seqNo: int)
      modifies this
      ensures instances == Apply(old(instances), On(id, Finish(seqNo)))
    {
      if id in instances {
        var order := instances[id];
        if seqNo < order.unfinished { assert instances[id := order] == instances; return; }
        var u, f := order.unfinished, order.finished + {seqNo};
        while f != {}
          invariant Drain(u, f) == Drain(order.unfinished, order.finished + {seqNo})
          decreases |f|
        {
          if !IsHead(u, f) { break; }
          f := f - {u};
          u := u + 1;
        }
        instances := instances[id := Ordering(order.counter, u, f)];
      }
    }
  }
}
