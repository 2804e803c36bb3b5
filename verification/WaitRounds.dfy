/**
  The outer loop of `WaitUntilReady`: how often it rescans, how long it may take and what it returns.  The rounds
  are those of one waiter, one after the other, in one run of `WaitingProtocol`.
 */
module WaitRounds {
  import opened WaitingObjects
  import opened WaitingProtocol

  const BATCH_WAIT_TIMEOUT_MS := 1000
  const WAIT_TIMEOUT_MS := 990
  const WAIT_INTERNAL_TIMEOUT_MS := 10
  const NO_TIMEOUT := -1

  datatype WaitResult = WaitResult(readyIds: seq<Id>, unreadyIds: seq<Id>, exceptionIds: map<Id, ErrorInfo>)

  /** One pass of the loop: what `GetWaitResult` left in the result, its verdict, and the signal check. */
  datatype Round = Round(got: WaitResult, needReturn: bool, signal: ErrorInfo)

  datatype Outcome = Returned(result: WaitResult) | StillWaiting

  function Min(a: int, b: int): int { if a < b then a else b }

  /** The most rounds a wait of `timeoutMs` may take: one, or one per started second. */
  function MaxRounds(timeoutMs: int): (n: nat)
    ensures n >= 1
    ensures timeoutMs > 0 ==> 1000 * (n - 1) < timeoutMs <= 1000 * n
  {
    if timeoutMs <= 0 then 1 else (timeoutMs + 999) / 1000
  }

  ghost predicate IsPartition(ids: seq<Id>, r: WaitResult) {
    Partition(ids, r.readyIds, r.unreadyIds, r.exceptionIds)
  }

  /** What a round hands back: a full result if it says to return, else only failures of waited-for ids. */
  ghost predicate Faithful(ids: seq<Id>, r: Round) {
    if r.needReturn then IsPartition(ids, r.got)
    else r.got.readyIds == [] && r.got.unreadyIds == [] && forall id :: id in r.got.exceptionIds ==> id in ids
  }

  /** What `GetWaitResult` has left in the waiter's result when it returns. */
  function ResultOf(x: Waiter): WaitResult {
    if x.phase.Done? then WaitResult(x.phase.ready, x.phase.unready, x.exceptions) else WaitResult([], [], x.exceptions)
  }

  // ------------------------------------------------------------- the rounds of one waiter in one run

  /** The run and the waiter: it arrives for `ids` at step `at`, round `i` ends at step `ends[i]`, and a last round, if
      there is one, at `lastEnd`. */
  datatype Life = Life(steps: seq<Step>, w: nat, at: nat, ends: seq<nat>, lastEnd: nat)

  /** The waiter after the first `k` steps. */
  function Then(l: Life, k: nat): Waiter
    requires k <= |l.steps|
  {
    var s := Exec(Start(), l.steps[..k]);
    if l.w < |s.waiters| then s.waiters[l.w] else Waiter([], 0, false, map[], Idle)
  }

  predicate Present(l: Life, k: nat) {
    k <= |l.steps| && l.w < |Exec(Start(), l.steps[..k]).waiters|
  }

  /** The waiter goes through one round between two steps: idle up to the one that begins it, then under way. */
  ghost predicate OneRound(l: Life, from: nat, end: nat, lastWait: bool) {
    exists j: nat :: Begins(l, from, j, end, lastWait)
  }

  ghost predicate Begins(l: Life, from: nat, j: nat, end: nat, lastWait: bool) {
    && from <= j < end <= |l.steps| && Present(l, from) && l.steps[j] == Begin(l.w, lastWait)
    && (forall k: nat :: from <= k <= j ==> Then(l, k).phase.Idle?)
    && (forall k: nat :: j < k < end ==> !Then(l, k).phase.Idle? && !Then(l, k).phase.Done?)
  }

  /** Round `i` of the waiter is `r`. */
  ghost predicate RoundIs(l: Life, ids: seq<Id>, minReadyNum: nat, i: nat, r: Round)
    requires i < |l.ends|
  {
    && OneRound(l, if i == 0 then l.at else l.ends[i - 1], l.ends[i], false) && Present(l, l.ends[i])
    && Waits(Then(l, l.ends[i]), ids, minReadyNum) && r.got == ResultOf(Then(l, l.ends[i]))
    && var x := Then(l, l.ends[i]); if r.needReturn then x.phase.Done? && x.phase.needReturn else x.phase.Idle?
  }

  predicate Waits(x: Waiter, ids: seq<Id>, minReadyNum: nat) {
    x.ids == ids && x.minReadyNum == minReadyNum
  }

  /** After round `i` the waiter's last round is `last`. */
  ghost predicate LastIs(l: Life, ids: seq<Id>, minReadyNum: nat, i: nat, last: WaitResult)
    requires i < |l.ends|
  {
    && OneRound(l, l.ends[i], l.lastEnd, true) && Present(l, l.lastEnd)
    && Waits(Then(l, l.lastEnd), ids, minReadyNum) && Then(l, l.lastEnd).phase.Done?
    && last == ResultOf(Then(l, l.lastEnd))
  }

  ghost predicate RoundsAre(l: Life, ids: seq<Id>, minReadyNum: nat, rounds: seq<Round>) {
    |l.ends| == |rounds| && forall i :: 0 <= i < |rounds| ==> RoundIs(l, ids, minReadyNum, i, rounds[i])
  }

  predicate EnoughIn(r: WaitResult, minReadyNum: nat) {
    |r.readyIds| + |r.exceptionIds| >= minReadyNum
  }

  lemma PresentIsOk(l: Life, k: nat)
    requires Present(l, k)
    ensures WaiterOk(Exec(Start(), l.steps[..k]), l.w, Then(l, k))
  {
    RunKeepsInv(l.steps[..k]);
    WaiterIsOk(Exec(Start(), l.steps[..k]), l.w);
  }

  /** Every round of every run is faithful, whatever the other waiters and the store do, and says to return only with
      enough. */
  lemma RoundsAreFaithful(l: Life, ids: seq<Id>, minReadyNum: nat, i: nat, r: Round)
    requires i < |l.ends| && RoundIs(l, ids, minReadyNum, i, r)
    ensures Faithful(ids, r) && (r.needReturn ==> EnoughIn(r.got, minReadyNum))
  {
    hide OneRound;
    PresentIsOk(l, l.ends[i]);
    hide Exec;
  }

  /** The last round of every run hands back a partition, whether or not enough is settled, and with every exception of
      the round before. */
  lemma LastIsPartition(l: Life, ids: seq<Id>, minReadyNum: nat, i: nat, r: Round, last: WaitResult)
    requires i < |l.ends| && RoundIs(l, ids, minReadyNum, i, r) && LastIs(l, ids, minReadyNum, i, last)
    ensures IsPartition(ids, last) && Extends(r.got.exceptionIds, last.exceptionIds)
  {
    PresentIsOk(l, l.lastEnd);
    LastRoundCarries(l, l.ends[i], l.lastEnd);
    hide Exec, OneRound;
  }

  ghost predicate Extends(a: map<Id, ErrorInfo>, b: map<Id, ErrorInfo>) {
    forall id :: id in a ==> id in b && b[id] == a[id]
  }

  predicate OwnStep(step: Step, w: nat) {
    step in {Begin(w, true), Begin(w, false), ScanOne(w), EndScan(w), ReadErrors(w), ReadReady(w)}
  }

  lemma OthersSteps(s: State, step: Step, w: nat)
    requires w < |s.waiters| && !OwnStep(step, w)
    ensures w < |Next(s, step).waiters| && Next(s, step).waiters[w] == s.waiters[w]
  {
  }

  lemma OwnSteps(s: State, step: Step, w: nat)
    requires w < |s.waiters| && OwnStep(step, w) && step != Begin(w, false)
    ensures w < |Next(s, step).waiters| && Extends(s.waiters[w].exceptions, Next(s, step).waiters[w].exceptions)
  {
    hide Leftover, Subscribe;
    match step
    case ScanOne(_) =>
    case EndScan(_) =>
    case _ =>
  }

  lemma BeginSteps(s: State, w: nat)
    requires w < |s.waiters|
    ensures var n := Next(s, Begin(w, false));
      w < |n.waiters| && (n.waiters[w] == s.waiters[w] || (s.waiters[w].phase.Idle? && !n.waiters[w].phase.Idle?))
  {
  }

  /** In the course of a round exceptions are only added; between rounds nothing happens to the waiter. */
  lemma StepExtends(s: State, step: Step, w: nat)
    requires w < |s.waiters|
    ensures w < |Next(s, step).waiters|
    ensures !s.waiters[w].phase.Idle? || step == Begin(w, true) || Next(s, step).waiters[w].phase.Idle? ==>
      Extends(s.waiters[w].exceptions, Next(s, step).waiters[w].exceptions)
  {
    hide Next;
    if !OwnStep(step, w) {
      OthersSteps(s, step, w);
    } else if step == Begin(w, false) {
      BeginSteps(s, w);
    } else {
      OwnSteps(s, step, w);
    }
  }

  lemma ThenStep(l: Life, k: nat)
    requires Present(l, k) && k < |l.steps|
    ensures !Then(l, k).phase.Idle? || l.steps[k] == Begin(l.w, true) || Then(l, k + 1).phase.Idle? ==>
      Extends(Then(l, k).exceptions, Then(l, k + 1).exceptions)
    ensures Present(l, k + 1)
  {
    hide Next, Extends;
    assert l.steps[..k + 1][..k] == l.steps[..k];
    assert Exec(Start(), l.steps[..k + 1]) == Next(Exec(Start(), l.steps[..k]), l.steps[k]);
    StepExtends(Exec(Start(), l.steps[..k]), l.steps[k], l.w);
  }

  lemma {:induction false} CarriesTo(l: Life, from: nat, j: nat, end: nat, k: nat)
    requires Begins(l, from, j, end, true) && from <= k <= end
    ensures Present(l, k) && Extends(Then(l, from).exceptions, Then(l, k).exceptions)
    decreases k
  {
    hide Then, Exec;
    if k > from {
      CarriesTo(l, from, j, end, k - 1);
      ThenStep(l, k - 1);
    }
  }

  lemma LastRoundCarries(l: Life, from: nat, end: nat)
    requires OneRound(l, from, end, true)
    ensures end <= |l.steps| && from <= |l.steps| && Extends(Then(l, from).exceptions, Then(l, end).exceptions)
  {
    var j: nat :| Begins(l, from, j, end, true);
    CarriesTo(l, from, j, end, end);
  }

  // ------------------------------------------------------------------------------------- the loop

  /** Round `i` was reached and did not end the wait. */
  predicate TimesOut(rounds: seq<Round>, i: nat) {
    i < |rounds| && !rounds[i].needReturn && rounds[i].signal.OK()
  }

  /** `rounds` are the waiter's rounds so far; `last` is its last one, begun once the time is up.  The milliseconds
      asked for in waits and sleeps add up in `waited`. */
  method WaitUntilReady(ids: seq<Id>, minReadyNum: nat, timeoutMs: int, ghost l: Life, rounds: seq<Round>,
                        last: WaitResult)
    returns (out: Outcome, used: nat, waited: int)
    requires RoundsAre(l, ids, minReadyNum, rounds)
    requires timeoutMs != NO_TIMEOUT && TimesOut(rounds, MaxRounds(timeoutMs) - 1) ==>
      LastIs(l, ids, minReadyNum, MaxRounds(timeoutMs) - 1, last)
    ensures out.Returned? ==> IsPartition(ids, out.result)
    ensures used <= |rounds|
    ensures out.StillWaiting? <==>
      && used == |rounds| && (timeoutMs == NO_TIMEOUT || |rounds| < MaxRounds(timeoutMs))
      && forall i :: 0 <= i < |rounds| ==> !rounds[i].needReturn && rounds[i].signal.OK()
    ensures timeoutMs != NO_TIMEOUT ==> used <= MaxRounds(timeoutMs)
    ensures timeoutMs >= 0 ==> waited <= timeoutMs + WAIT_INTERNAL_TIMEOUT_MS
    ensures out.Returned? ==>
      && used >= 1
      && (forall i :: 0 <= i < used - 1 ==> !rounds[i].needReturn && rounds[i].signal.OK())
      && EndsWith(ids, minReadyNum, timeoutMs, rounds[used - 1], used, last, out.result)
  {
    hide RoundIs, LastIs, IsPartition, Extends;
    var remain := timeoutMs;
    used, waited := 0, 0;
    while used < |rounds|
      invariant used <= |rounds|
      invariant forall i :: 0 <= i < used ==> !rounds[i].needReturn && rounds[i].signal.OK()
      invariant timeoutMs >= 0 ==> remain == timeoutMs - 1000 * used && waited <= 1000 * used
      invariant timeoutMs >= 0 ==> used == 0 || remain > 0
      invariant timeoutMs < 0 ==> remain == timeoutMs
      invariant timeoutMs < NO_TIMEOUT ==> used == 0
      invariant timeoutMs >= 0 ==> waited <= timeoutMs
      decreases |rounds| - used
    {
      var current := if timeoutMs == NO_TIMEOUT then BATCH_WAIT_TIMEOUT_MS else Min(remain, BATCH_WAIT_TIMEOUT_MS);
      if remain >= 0 { remain := remain - current; }
      var round := rounds[used];
      RoundsAreFaithful(l, ids, minReadyNum, used, round);
      used := used + 1;
      waited := waited + Min(current, WAIT_TIMEOUT_MS);
      if round.needReturn {
        return Returned(round.got), used, waited;
      }
      if !round.signal.OK() {
        out := Returned(SignalResult(ids, round.got, round.signal));
        return;
      }
      waited := waited + WAIT_INTERNAL_TIMEOUT_MS;
      if remain <= 0 && timeoutMs != NO_TIMEOUT {
        LastIsPartition(l, ids, minReadyNum, used - 1, round, last);
        return Returned(last), used, waited;
      }
    }
    out := StillWaiting;
  }

  /** How the wait ends: with a round that has enough, with a signal, or with the last round once the time is up, which
      carries on the exceptions of the round before. */
  ghost predicate EndsWith(ids: seq<Id>, minReadyNum: nat, timeoutMs: int, r: Round, used: nat, last: WaitResult,
                           result: WaitResult)
  {
    if r.needReturn then result == r.got && EnoughIn(result, minReadyNum)
    else if !r.signal.OK() then result == SignalResult(ids, r.got, r.signal)
    else
      && result == last && Extends(r.got.exceptionIds, last.exceptionIds)
      && timeoutMs != NO_TIMEOUT && used == MaxRounds(timeoutMs)
  }

  /** A pending signal turns every id that has not failed already into an exception. */
  function SignalResult(ids: seq<Id>, got: WaitResult, signal: ErrorInfo): (r: WaitResult)
    ensures got.readyIds == [] && got.unreadyIds == [] && (forall id :: id in got.exceptionIds ==> id in ids)
      ==> IsPartition(ids, r)
  {
    got.(exceptionIds := (map id | id in ids :: signal) + got.exceptionIds)
  }
}
