/**
  Ordered invocation end to end: the client's watermark, a network that may reorder, repeat and
  lose messages, and the instance's `OrderedExecutionManager`, which holds back requests that
  arrive early and executes the rest.

  The client issues numbers in call order, dispatches them in whatever order their dependencies
  resolve, and tells the instance with each request which numbers it no longer has to wait for.
 */
module OrderedDelivery {
  import opened InvokeOrder

  // ----------------------------------------------------------------------- the executing side

  /** `Invoker`: the next number to execute for one client and the requests held back, by number. */
  datatype Invoker = Invoker(next: int, waiting: map<int, string>)

  /** One request that left the waiting map; it was run unless it had been cancelled. */
  datatype Entry = Entry(seqNo: int, reqId: string, ran: bool)

  datatype Outcome = Outcome(invoker: Invoker, cancelled: set<string>, log: seq<Entry>)

  /** The loop of `Handle`: as long as the first waiting request is the next one, take it. */
  function TakeReady(v: Invoker, cancelled: set<string>): Outcome
    decreases |v.waiting|
  {
    if IsHead(v.next, v.waiting.Keys) then
      var reqId := v.waiting[v.next];
      var rest := v.waiting - {v.next};
      assert rest.Keys == v.waiting.Keys - {v.next};
      var o := TakeReady(Invoker(v.next + 1, rest), cancelled - {reqId});
      o.(log := [Entry(v.next, reqId, reqId !in cancelled)] + o.log)
    else Outcome(v, cancelled, [])
  }

  lemma TakeReadyStep(v: Invoker, cancelled: set<string>)
    ensures !IsHead(v.next, v.waiting.Keys) ==> TakeReady(v, cancelled) == Outcome(v, cancelled, [])
    ensures IsHead(v.next, v.waiting.Keys) ==>
      var reqId := v.waiting[v.next];
      var o := TakeReady(Invoker(v.next + 1, v.waiting - {v.next}), cancelled - {reqId});
      TakeReady(v, cancelled) == o.(log := [Entry(v.next, reqId, reqId !in cancelled)] + o.log)
  {
  }

  function Accept(v: Invoker, seqNo: int, minUnfinished: int, reqId: string): Invoker {
    var next := if minUnfinished > v.next then minUnfinished else v.next;
    Invoker(next, if seqNo >= next && seqNo !in v.waiting then v.waiting[seqNo := reqId] else v.waiting)
  }

  function HandleOne(v: Invoker, cancelled: set<string>, seqNo: int, minUnfinished: int, reqId: string): Outcome {
    TakeReady(Accept(v, seqNo, minUnfinished, reqId), cancelled)
  }

  /** What is left of a waiting map once `n` consecutive numbers from `next` are taken. */
  function Rest(waiting: map<int, string>, next: int, n: nat): map<int, string> {
    map k | k in waiting && !(next <= k < next + n) :: waiting[k]
  }

  lemma RestStep(waiting: map<int, string>, next: int, n: nat)
    ensures Rest(waiting - {next}, next + 1, n) == Rest(waiting, next, n + 1)
    ensures Rest(waiting, next, 0) == waiting
  {
  }

  /** The numbers of the log count up from `next`, and each was waiting. */
  ghost predicate LogOf(log: seq<Entry>, v: Invoker) {
    forall i :: 0 <= i < |log| ==>
      log[i].seqNo == v.next + i && v.next + i in v.waiting && log[i].reqId == v.waiting[v.next + i]
  }

  lemma LogStep(v: Invoker, first: Entry, later: seq<Entry>)
    requires v.next in v.waiting && first.seqNo == v.next && first.reqId == v.waiting[v.next]
    requires LogOf(later, Invoker(v.next + 1, v.waiting - {v.next}))
    ensures LogOf([first] + later, v)
  {
    var log := [first] + later;
    forall i | 0 <= i < |log|
      ensures log[i].seqNo == v.next + i && v.next + i in v.waiting && log[i].reqId == v.waiting[v.next + i]
    {
      if i > 0 { assert log[i] == later[i - 1]; }
    }
  }

  /** What taking ready requests does: the log counts up from `next` without a gap, the rest waits. */
  lemma {:induction false} TakeReadySpec(v: Invoker, cancelled: set<string>)
    ensures var o := TakeReady(v, cancelled);
      && o.invoker.next == v.next + |o.log| && LogOf(o.log, v)
      && o.invoker.waiting == Rest(v.waiting, v.next, |o.log|)
      && !IsHead(o.invoker.next, o.invoker.waiting.Keys)
    decreases |v.waiting|
  {
    hide TakeReady, Rest;
    TakeReadyStep(v, cancelled);
    if IsHead(v.next, v.waiting.Keys) {
      var rest := v.waiting - {v.next};
      var tail, left := Invoker(v.next + 1, rest), cancelled - {v.waiting[v.next]};
      assert rest.Keys == v.waiting.Keys - {v.next};
      TakeReadySpec(tail, left);
      var o, later := TakeReady(v, cancelled), TakeReady(tail, left);
      assert |o.log| == |later.log| + 1;
      RestStep(v.waiting, v.next, |later.log|);
      LogStep(v, o.log[0], later.log);
      hide LogOf;
    } else {
      RestStep(v.waiting, v.next, 0);
      hide LogOf;
    }
  }

  /** A held-back request with a number already passed: it stays first in the map forever. */
  predicate Blocked(v: Invoker) {
    exists k :: k in v.waiting && k < v.next
  }

  /** Nothing that could be executed is held back. */
  predicate Settled(v: Invoker) {
    forall k :: k in v.waiting ==> k > v.next
  }

  /** From a settled state a request blocks the instance exactly when it claims that a request still
      held back needs no waiting for; otherwise the instance is settled again. */
  lemma HandleBlocksIff(v: Invoker, cancelled: set<string>, seqNo: int, minUnfinished: int, reqId: string)
    requires Settled(v)
    ensures var v' := HandleOne(v, cancelled, seqNo, minUnfinished, reqId).invoker;
      && (Blocked(v') <==> exists k :: k in v.waiting && k < minUnfinished)
      && (!Blocked(v') <==> Settled(v'))
  {
    var a := Accept(v, seqNo, minUnfinished, reqId);
    TakeReadySpec(a, cancelled);
    var o := TakeReady(a, cancelled);
    if k :| k in v.waiting && k < minUnfinished {
      assert k in a.waiting && k < a.next;
      assert !IsHead(a.next, a.waiting.Keys);
      assert o.log == [] && o.invoker == a;
    }
    if !Blocked(o.invoker) {
      assert o.invoker.next !in o.invoker.waiting;
    }
  }

  function HandleAll(v: Invoker, cancelled: set<string>, ms: seq<Msg>): Outcome {
    if ms == [] then Outcome(v, cancelled, [])
    else
      var o := HandleAll(v, cancelled, ms[..|ms| - 1]);
      var m := ms[|ms| - 1];
      var p := HandleOne(o.invoker, o.cancelled, m.seqNo, m.minUnfinished, m.reqId);
      p.(log := o.log + p.log)
  }

  /** A blocked instance never executes anything again for that client, whatever it is sent. */
  lemma {:induction false} BlockedForever(v: Invoker, cancelled: set<string>, ms: seq<Msg>)
    requires Blocked(v)
    ensures var o := HandleAll(v, cancelled, ms); Blocked(o.invoker) && o.log == []
  {
    if ms != [] {
      BlockedForever(v, cancelled, ms[..|ms| - 1]);
      var o := HandleAll(v, cancelled, ms[..|ms| - 1]);
      var m := ms[|ms| - 1];
      var a := Accept(o.invoker, m.seqNo, m.minUnfinished, m.reqId);
      var k :| k in o.invoker.waiting && k < o.invoker.next;
      assert k in a.waiting && k < a.next;
      assert !IsHead(a.next, a.waiting.Keys);
    }
  }

  // ------------------------------------------------------------------------------- the system

  datatype Msg = Msg(seqNo: int, minUnfinished: int, reqId: string)

  /** `undispatched`, `delivered` and `done` record what happened; no component reads them. */
  datatype System = System(base: int, sender: Ordering, undispatched: set<int>, sent: set<Msg>, invoker: Invoker,
                           cancelled: set<string>, log: seq<Entry>, delivered: set<int>, done: set<int>)

  datatype Step =
    | Issue                                  // Invoke: take a number in call order
    | Dispatch(seqNo: int, reqId: string)    // dependencies resolved: send with the current watermark
    | Retry(m: Msg, reqId: string)           // send the same invocation under the next attempt's id
    | Deliver(m: Msg)                        // the instance handles a message sent at some time
    | Ack(seqNo: int)                        // the client learns that an executed request finished
    | Abandon(seqNo: int)                    // the client gives up on a dispatched request, e.g. on a timeout
    | Cancel(reqId: string)

  function Start(base: int): System {
    System(base, Ordering(base, base, {}), {}, {}, Invoker(0, map[]), {}, [], {}, {})
  }

  predicate Logged(log: seq<Entry>, seqNo: int) {
    exists i :: 0 <= i < |log| && log[i].seqNo == seqNo
  }

  function FinishOne(s: System, seqNo: int): System {
    s.(sender := FinishOrdering(s.sender, seqNo), done := s.done + {seqNo})
  }

  /** A step that is not enabled leaves the system as it is. */
  function Next(s: System, step: Step): System {
    match step
    case Issue =>
      s.(sender := s.sender.(counter := s.sender.counter + 1), undispatched := s.undispatched + {s.sender.counter})
    case Dispatch(seqNo, reqId) =>
      if seqNo in s.undispatched then
        s.(undispatched := s.undispatched - {seqNo}, sent := s.sent + {Msg(seqNo, s.sender.unfinished, reqId)})
      else s
    case Retry(m, reqId) =>
      if m in s.sent then s.(sent := s.sent + {m.(reqId := reqId)}) else s
    case Deliver(m) =>
      if m in s.sent then
        var o := HandleOne(s.invoker, s.cancelled, m.seqNo, m.minUnfinished, m.reqId);
        s.(invoker := o.invoker, cancelled := o.cancelled, log := s.log + o.log, delivered := s.delivered + {m.seqNo})
      else s
    case Ack(seqNo) => if Logged(s.log, seqNo) then FinishOne(s, seqNo) else s
    case Abandon(seqNo) =>
      if s.base <= seqNo < s.sender.counter && seqNo !in s.undispatched then FinishOne(s, seqNo) else s
    case Cancel(reqId) => s.(cancelled := s.cancelled + {reqId})
  }

  function Exec(s: System, steps: seq<Step>): System {
    if steps == [] then s else Next(Exec(s, steps[..|steps| - 1]), steps[|steps| - 1])
  }

  predicate NoAbandon(steps: seq<Step>) {
    forall i :: 0 <= i < |steps| ==> !steps[i].Abandon?
  }

  // --------------------------------------------------------- what holds in every run of the client

  predicate Issued(s: System, seqNo: int) {
    s.base <= seqNo < s.sender.counter
  }

  /** The client's own invariant, with or without abandoned requests. */
  ghost predicate ClientSafe(s: System) {
    && s.base <= s.sender.counter
    && s.sender == Canonical(History(s.base, s.sender.counter, s.done))
    && (forall x :: x in s.undispatched ==> Issued(s, x))
    && (forall x :: x in s.done ==> Issued(s, x) && x !in s.undispatched)
    && (forall m :: m in s.sent ==>
          && Issued(s, m.seqNo) && m.seqNo !in s.undispatched
          && s.base <= m.minUnfinished <= m.seqNo && m.minUnfinished <= s.sender.unfinished)
  }

  /** The instance's own invariant: what it logged or holds back was sent to it. */
  ghost predicate InstanceSafe(s: System) {
    && (forall x :: x in s.delivered ==> Issued(s, x) && x !in s.undispatched)
    && (forall k :: k in s.invoker.waiting ==> k in s.delivered)
    && (forall i :: 0 <= i < |s.log| ==> s.log[i].seqNo in s.delivered && s.log[i].seqNo < s.invoker.next)
    && (forall i, j :: 0 <= i < j < |s.log| ==> s.log[i].seqNo < s.log[j].seqNo)
  }

  lemma FinishKeepsSafe(s: System, seqNo: int)
    requires ClientSafe(s) && InstanceSafe(s)
    requires Issued(s, seqNo) && seqNo !in s.undispatched
    ensures ClientSafe(FinishOne(s, seqNo)) && InstanceSafe(FinishOne(s, seqNo))
  {
    var h := History(s.base, s.sender.counter, s.done);
    FinishRefines(h, seqNo);
    MoreDoneIsFurther(h, {seqNo}, s.base);
  }

  lemma DeliverKeepsSafe(s: System, m: Msg)
    requires ClientSafe(s) && InstanceSafe(s)
    ensures ClientSafe(Next(s, Deliver(m))) && InstanceSafe(Next(s, Deliver(m)))
  {
    if m in s.sent {
      var a := Accept(s.invoker, m.seqNo, m.minUnfinished, m.reqId);
      TakeReadySpec(a, s.cancelled);
      var o := TakeReady(a, s.cancelled);
      var log' := s.log + o.log;
      forall i | 0 <= i < |o.log| ensures o.log[i].seqNo in s.delivered + {m.seqNo} {
        assert o.log[i].seqNo in a.waiting;
      }
    }
  }

  lemma StepKeepsSafe(s: System, step: Step)
    requires ClientSafe(s) && InstanceSafe(s)
    ensures ClientSafe(Next(s, step)) && InstanceSafe(Next(s, step))
  {
    var h := History(s.base, s.sender.counter, s.done);
    match step
    case Issue =>
    case Dispatch(seqNo, _) => if seqNo in s.undispatched { MoreDoneIsFurther(h, {}, seqNo); }
    case Retry(_, _) =>
    case Deliver(m) => DeliverKeepsSafe(s, m);
    case Ack(seqNo) => if Logged(s.log, seqNo) { FinishKeepsSafe(s, seqNo); }
    case Abandon(seqNo) => if Issued(s, seqNo) && seqNo !in s.undispatched { FinishKeepsSafe(s, seqNo); }
    case Cancel(_) =>
  }

  lemma {:induction false} RunIsSafe(base: int, steps: seq<Step>)
    ensures ClientSafe(Exec(Start(base), steps)) && InstanceSafe(Exec(Start(base), steps))
    ensures Exec(Start(base), steps).base == base
  {
    if steps == [] {
      StartIsCanonical(base, base);
    } else {
      RunIsSafe(base, steps[..|steps| - 1]);
      StepKeepsSafe(Exec(Start(base), steps[..|steps| - 1]), steps[|steps| - 1]);
    }
  }

  /** Dispatch safety, in every run: each request ever sent carries a min-unfinished number that is
      at most its own and never ahead of a request that was neither acknowledged nor abandoned. */
  lemma DispatchSafety(base: int, steps: seq<Step>, m: Msg, x: int)
    requires m in Exec(Start(base), steps).sent
    ensures base <= m.minUnfinished <= m.seqNo < Exec(Start(base), steps).sender.counter
    ensures base <= x < m.minUnfinished ==> x in Exec(Start(base), steps).done
  {
    RunIsSafe(base, steps);
    var s := Exec(Start(base), steps);
    MoreDoneIsFurther(History(s.base, s.sender.counter, s.done), {}, x);
  }

  /** In every run, abandoned requests included, the instance executes in call order and at most once. */
  lemma InOrderAtMostOnce(base: int, steps: seq<Step>, i: nat, j: nat)
    requires i < j < |Exec(Start(base), steps).log|
    ensures Exec(Start(base), steps).log[i].seqNo < Exec(Start(base), steps).log[j].seqNo
  {
    RunIsSafe(base, steps);
  }

  // ----------------------------------------------------------------- runs that abandon nothing

  /** The number the instance is up to, once it has heard from the client. */
  function UpTo(s: System): int {
    if s.invoker.next < s.base then s.base else s.invoker.next
  }

  ghost predicate GapFree(s: System) {
    && |s.log| == UpTo(s) - s.base
    && (forall i :: 0 <= i < |s.log| ==> s.log[i].seqNo == s.base + i)
    && (s.invoker.next < s.base ==> s.invoker.waiting == map[])
    && Settled(s.invoker)
    && (forall x :: x in s.delivered ==> x < UpTo(s) || x in s.invoker.waiting)
    && (forall x :: x in s.done ==> x < UpTo(s))
  }

  lemma LoggedIffBelow(s: System, x: int)
    requires GapFree(s)
    ensures Logged(s.log, x) <==> s.base <= x < UpTo(s)
  {
    if s.base <= x < UpTo(s) { assert s.log[x - s.base].seqNo == x; }
  }

  /** The watermark cannot be ahead of the instance when only executed requests finish. */
  lemma WatermarkBehindInstance(s: System)
    requires ClientSafe(s) && GapFree(s)
    ensures s.sender.unfinished <= UpTo(s)
  {
    MoreDoneIsFurther(History(s.base, s.sender.counter, s.done), {}, UpTo(s));
  }

  lemma DeliverKeepsGapFree(s: System, m: Msg)
    requires ClientSafe(s) && InstanceSafe(s) && GapFree(s) && m in s.sent
    ensures GapFree(Next(s, Deliver(m)))
  {
    WatermarkBehindInstance(s);
    var a := Accept(s.invoker, m.seqNo, m.minUnfinished, m.reqId);
    assert a.next == UpTo(s);
    TakeReadySpec(a, s.cancelled);
    HandleBlocksIff(s.invoker, s.cancelled, m.seqNo, m.minUnfinished, m.reqId);
    var o := TakeReady(a, s.cancelled);
    var s' := Next(s, Deliver(m));
    forall x | x in s'.delivered ensures x < UpTo(s') || x in s'.invoker.waiting {
      assert x < a.next || x in a.waiting;
    }
    forall i | 0 <= i < |s'.log| ensures s'.log[i].seqNo == s.base + i {
      if i >= |s.log| { assert s'.log[i] == o.log[i - |s.log|]; }
    }
  }

  lemma StepKeepsGapFree(s: System, step: Step)
    requires ClientSafe(s) && InstanceSafe(s) && GapFree(s) && !step.Abandon?
    ensures GapFree(Next(s, step))
  {
    match step
    case Deliver(m) => if m in s.sent { DeliverKeepsGapFree(s, m); }
    case Ack(seqNo) => LoggedIffBelow(s, seqNo);
    case Issue =>
    case Dispatch(_, _) =>
    case Retry(_, _) =>
    case Cancel(_) =>
  }

  lemma {:induction false} RunIsGapFree(base: nat, steps: seq<Step>)
    requires NoAbandon(steps)
    ensures GapFree(Exec(Start(base), steps))
  {
    if steps != [] {
      RunIsGapFree(base, steps[..|steps| - 1]);
      RunIsSafe(base, steps[..|steps| - 1]);
      StepKeepsGapFree(Exec(Start(base), steps[..|steps| - 1]), steps[|steps| - 1]);
    }
  }

  /** End to end: whatever the dispatch order and the network do, a client that abandons nothing has
      its requests executed in call order, each once and none skipped; and as soon as every issued
      request has been delivered at least once, all of them have been executed. */
  lemma OrderedExactlyOnce(base: nat, steps: seq<Step>)
    requires NoAbandon(steps)
    ensures var s := Exec(Start(base), steps);
      && (forall i :: 0 <= i < |s.log| ==> s.log[i].seqNo == base + i)
      && base + |s.log| <= s.sender.counter
      && ((forall x :: Issued(s, x) ==> x in s.delivered) ==>
            base + |s.log| == s.sender.counter && s.invoker.waiting == map[])
  {
    RunIsGapFree(base, steps);
    RunIsSafe(base, steps);
    var s := Exec(Start(base), steps);
    if |s.log| > 0 { assert s.log[|s.log| - 1].seqNo in s.delivered; }
    if forall x :: Issued(s, x) ==> x in s.delivered {
      if UpTo(s) < s.sender.counter { assert Issued(s, UpTo(s)); }
      assert base + |s.log| == s.sender.counter;
      assert forall k :: k in s.invoker.waiting ==> k in s.delivered && k > UpTo(s);
    }
  }

  /** The step delivers a message that says of a request held back at that moment that it need not be waited for. */
  predicate Skips(s: System, step: Step) {
    step.Deliver? && step.m in s.sent && exists k :: k in s.invoker.waiting && k < step.m.minUnfinished
  }

  lemma StepBlocksIff(s: System, step: Step)
    requires Blocked(s.invoker) || Settled(s.invoker)
    ensures Blocked(Next(s, step).invoker) <==> Blocked(s.invoker) || Skips(s, step)
    ensures !Blocked(Next(s, step).invoker) <==> Settled(Next(s, step).invoker)
  {
    hide HandleOne, FinishOrdering;
    if step.Deliver? && step.m in s.sent {
      var m := step.m;
      if Settled(s.invoker) {
        HandleBlocksIff(s.invoker, s.cancelled, m.seqNo, m.minUnfinished, m.reqId);
      } else {
        StaysBlocked(s.invoker, s.cancelled, m);
      }
    }
  }

  lemma StaysBlocked(v: Invoker, cancelled: set<string>, m: Msg)
    requires Blocked(v)
    ensures Blocked(HandleOne(v, cancelled, m.seqNo, m.minUnfinished, m.reqId).invoker)
  {
    assert [m][..0] == [];
    assert HandleAll(v, cancelled, []) == Outcome(v, cancelled, []);
    BlockedForever(v, cancelled, [m]);
  }

  /** Some step of the run skips a request. */
  ghost predicate EverSkipped(base: int, steps: seq<Step>) {
    exists i :: 0 <= i < |steps| && Skips(Exec(Start(base), steps[..i]), steps[i])
  }

  lemma EverSkippedStep(base: int, steps: seq<Step>)
    requires steps != []
    ensures var n := |steps| - 1;
      EverSkipped(base, steps) <==> EverSkipped(base, steps[..n]) || Skips(Exec(Start(base), steps[..n]), steps[n])
  {
    hide Skips, Exec;
    var n := |steps| - 1;
    var front := steps[..n];
    assert forall i :: 0 <= i < n ==> front[..i] == steps[..i] && front[i] == steps[i];
    if i :| 0 <= i < n && Skips(Exec(Start(base), front[..i]), front[i]) {
      assert Skips(Exec(Start(base), steps[..i]), steps[i]);
    }
    if i :| 0 <= i < |steps| && Skips(Exec(Start(base), steps[..i]), steps[i]) {
      if i < n { assert Skips(Exec(Start(base), front[..i]), front[i]); }
    }
  }

  /** In every run, with abandoned requests or without, the instance is blocked exactly when some message delivered
      before skipped a request held back at that moment; otherwise nothing it could execute is held back. */
  lemma {:induction false} BlockedIffSkipped(base: int, steps: seq<Step>)
    ensures Blocked(Exec(Start(base), steps).invoker) <==> EverSkipped(base, steps)
    ensures !Blocked(Exec(Start(base), steps).invoker) <==> Settled(Exec(Start(base), steps).invoker)
  {
    if steps == [] {
      assert !Blocked(Start(base).invoker) && Settled(Start(base).invoker);
    } else {
      hide Next, Skips, Blocked, Settled, EverSkipped;
      var n := |steps| - 1;
      BlockedIffSkipped(base, steps[..n]);
      StepBlocksIff(Exec(Start(base), steps[..n]), steps[n]);
      EverSkippedStep(base, steps);
    }
  }

  /** Abandoning breaks this: request 0 is lost, 1 is held back behind it, the client gives up on both,
      and request 2 then tells the instance to move past the held-back 1.  Everything issued is either
      lost or delivered, yet nothing is or will ever be executed. */
  lemma AbandonCanBlock() returns (steps: seq<Step>)
    ensures var s := Exec(Start(0), steps);
      && Blocked(s.invoker) && s.log == [] && s.sender == Ordering(3, 2, {}) && 2 in s.delivered
  {
    var m1, m2 := Msg(1, 0, "b"), Msg(2, 2, "c");
    steps := [Issue, Issue, Issue, Dispatch(0, "a"), Dispatch(1, "b"), Deliver(m1), Abandon(0), Abandon(1),
              Dispatch(2, "c"), Deliver(m2)];
    var s0 := Start(0);
    var s1 := Next(s0, Issue);
    var s2 := Next(s1, Issue);
    var s3 := Next(s2, Issue);
    var s4 := Next(s3, Dispatch(0, "a"));
    var s5 := Next(s4, Dispatch(1, "b"));
    var s6 := Next(s5, Deliver(m1));
    assert s6.invoker == Invoker(0, map[1 := "b"]) && s6.log == [];
    var s7 := Next(s6, Abandon(0));
    FinishInTurn(s6.sender, 0);
    var s8 := Next(s7, Abandon(1));
    FinishInTurn(s7.sender, 1);
    var s9 := Next(s8, Dispatch(2, "c"));
    assert m2 in s9.sent;
    var s10 := Next(s9, Deliver(m2));
    assert Accept(s9.invoker, 2, 2, "c") == Invoker(2, map[1 := "b", 2 := "c"]);
    assert 1 in s10.invoker.waiting && 1 < s10.invoker.next;
    ExecIsFold(s0, steps, [s0, s1, s2, s3, s4, s5, s6, s7, s8, s9, s10]);
  }

  lemma FinishInTurn(o: Ordering, seqNo: int)
    requires o.unfinished == seqNo && o.finished == {}
    ensures FinishOrdering(o, seqNo) == Ordering(o.counter, seqNo + 1, {})
  {
    var one, none: set<int> := o.finished + {seqNo}, {};
    assert one - {seqNo} == none;
    assert IsHead(seqNo, one) && !IsHead(seqNo + 1, none);
    assert Drain(seqNo, one) == Drain(seqNo + 1, none) == (seqNo + 1, none);
  }

  lemma {:induction false} ExecIsFold(s: System, steps: seq<Step>, states: seq<System>)
    requires |states| == |steps| + 1 && states[0] == s
    requires forall i :: 0 <= i < |steps| ==> states[i + 1] == Next(states[i], steps[i])
    ensures Exec(s, steps) == states[|steps|]
  {
    if steps != [] { ExecIsFold(s, steps[..|steps| - 1], states[..|steps|]); }
  }

  // ------------------------------------------------------------------------------ the manager

  class OrderedExecutionManager {
    var invokers: map<string, Invoker>
    var cancelReqs: set<string>

    constructor ()
      ensures invokers == map[] && cancelReqs == {}
    {
      invokers, cancelReqs := map[], {};
    }

    /** Handles one request; `log` is what was taken out of the waiting map, in that order. */
    method Handle(invokerId: string, seqNo: int, minUnfinished: int, reqId: string) returns (log: seq<Entry>)
      modifies this
      ensures invokerId == "" ==> log == [] && invokers == old(invokers) && cancelReqs == old(cancelReqs)
      ensures invokerId != "" ==>
        var v := if invokerId in old(invokers) then old(invokers)[invokerId] else Invoker(0, map[]);
        var o := HandleOne(v, old(cancelReqs), seqNo, minUnfinished, reqId);
        invokers == old(invokers)[invokerId := o.invoker] && cancelReqs == o.cancelled && log == o.log
    {
      hide TakeReady;
      log := [];
      if invokerId == "" { return; }
      var v := if invokerId in invokers then invokers[invokerId] else Invoker(0, map[]);
      ghost var accepted, cancelled := Accept(v, seqNo, minUnfinished, reqId), cancelReqs;
      if minUnfinished > v.next { v := v.(next := minUnfinished); }
      if seqNo >= v.next && seqNo !in v.waiting { v := v.(waiting := v.waiting[seqNo := reqId]); }
      assert v == accepted;
      while v.waiting != map[] && IsHead(v.next, v.waiting.Keys)
        invariant invokers == old(invokers)
        invariant var all := TakeReady(accepted, cancelled);
          var todo := TakeReady(v, cancelReqs);
          all == todo.(log := log + todo.log)
        decreases |v.waiting|
      {
        TakeReadyStep(v, cancelReqs);
        var first := v.waiting[v.next];
        var isCancel := first in cancelReqs;
        log := log + [Entry(v.next, first, !isCancel)];
        if isCancel { cancelReqs := cancelReqs - {first}; }
        assert cancelReqs - {first} == cancelReqs;
        var rest := v.waiting - {v.next};
        assert rest.Keys == v.waiting.Keys - {v.next};
        v := Invoker(v.next + 1, rest);
      }
      TakeReadyStep(v, cancelReqs);
      invokers := invokers[invokerId := v];
    }

    method CancelInsFunction(invokerId: string, reqId: string) returns (ok: bool)
      modifies this`cancelReqs
      ensures ok <==> invokerId != "" && invokerId in invokers
      ensures cancelReqs == if ok then old(cancelReqs) + {reqId} else old(cancelReqs)
    {
      if invokerId == "" || invokerId !in invokers { return false; }
      cancelReqs := cancelReqs + {reqId};
      return true;
    }
  }
}
