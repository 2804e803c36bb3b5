/**
  The thread pool: jobs queue up under a lock, worker threads take them in turn, a worker stuck in a request can
  be written off and replaced, and the pool can be shut down and started again.  Every critical section is a step.
 */
module ThreadPool {

  type Thread = nat

  datatype Job = Job(fn: nat, reqId: string)

  // ----------------------------------------------------------------------------- one pool, one thread

  /** The pool's own fields. */
  datatype Pool = Pool(init: bool, stop: bool, queue: seq<Job>, workers: set<Thread>, abandoned: seq<Thread>,
    workThread: map<string, Thread>)

  function AddJob(p: Pool, job: Job): Pool {
    p.(queue := p.queue + [job])
  }

  /** The critical section in which thread `t` takes the next job. */
  function TakeJob(p: Pool, t: Thread): Pool
    requires p.queue != [] && !p.stop
  {
    var job := p.queue[0];
    p.(queue := p.queue[1..], workThread := if job.reqId != "" then p.workThread[job.reqId := t] else p.workThread)
  }

  function FinishJob(p: Pool, reqId: string): Pool {
    p.(workThread := if reqId != "" then p.workThread - {reqId} else p.workThread)
  }

  /** Starting the pool; it is not `complete` when a thread could not be created. */
  function AddWorkers(p: Pool, threads: set<Thread>, complete: bool): Pool {
    if p.init then p else p.(stop := false, workers := p.workers + threads, init := complete)
  }

  /** The worker that runs request `reqId`, if the pool knows of one. */
  predicate Replaceable(p: Pool, reqId: string) {
    reqId in p.workThread && p.workThread[reqId] in p.workers
  }

  function Replace(p: Pool, reqId: string, t: Thread): Pool {
    if !Replaceable(p, reqId) then p
    else
      var stuck := p.workThread[reqId];
      p.(workers := p.workers - {stuck} + {t}, workThread := p.workThread - {reqId}, abandoned := p.abandoned + [stuck])
  }

  /** How far a call of `ErasePendingThread` has come; it lets go of the locks between these. */
  datatype Eraser =
    | Found(reqId: string, thread: Thread)   // the thread tracked for the request
    | Moved(reqId: string, thread: Thread)   // ... is no longer a worker
    | Untracked(thread: Thread)              // ... and the request no longer tracked
    | Replaced(thread: Thread)               // ... and a new worker started

  // ------------------------------------------------------------------------------------ the system

  /** The pool and the threads around it: `live` are in the worker loop, `running` says which submitted job a
      thread is running, `guests` run the loop on a thread of their own, `used` are all threads so far, `erasing`
      the calls of `ErasePendingThread` under way. */
  datatype World = World(pool: Pool, live: set<Thread>, running: map<Thread, nat>, guests: set<Thread>,
    used: set<Thread>,
    submitted: seq<Job>, taken: seq<Job>, closing: bool, erasing: map<nat, Eraser>)

  datatype Step =
    | Init(threads: set<Thread>, complete: bool)
    | InitAndRun(thread: Thread)
    | Handle(job: Job)
    | Take(thread: Thread)
    | Leave(thread: Thread)
    | Finish(thread: Thread)
    | Stop
    | Joined
    | EraseFind(caller: nat, reqId: string)
    | EraseMove(caller: nat)
    | EraseUntrack(caller: nat)
    | EraseReplace(caller: nat, replacement: Thread)
    | EraseDone(caller: nat)

  predicate Idle(w: World, t: Thread) {
    t in w.live && t !in w.running
  }

  /** A step that its thread cannot take now changes nothing. */
  function Next(w: World, step: Step): World {
    match step
    case Init(threads, complete) =>
      if threads !! w.used && !w.pool.init then
        w.(pool := AddWorkers(w.pool, threads, complete), live := w.live + threads, used := w.used + threads)
      else w
    case InitAndRun(t) =>
      if t !in w.used then
        w.(pool := w.pool.(stop := false), live := w.live + {t}, guests := w.guests + {t}, used := w.used + {t})
      else w
    case Handle(job) => w.(pool := AddJob(w.pool, job), submitted := w.submitted + [job])
    case Take(t) =>
      if Idle(w, t) && w.pool.queue != [] && !w.pool.stop then
        w.(pool := TakeJob(w.pool, t), running := w.running[t := |w.taken|], taken := w.taken + [w.pool.queue[0]])
      else w
    case Leave(t) => if Idle(w, t) && w.pool.stop then w.(live := w.live - {t}) else w
    case Finish(t) =>
      if t in w.running && w.running[t] < |w.taken| then
        w.(pool := FinishJob(w.pool, w.taken[w.running[t]].reqId), running := w.running - {t})
      else w
    case Stop => if w.pool.stop then w else w.(pool := w.pool.(stop := true, init := false), closing := true)
    case Joined =>
      if w.closing && w.live !! w.pool.workers && w.live !! Members(w.pool.abandoned) then
        w.(pool := w.pool.(workers := {}), closing := false)
      else w
    case EraseFind(c, reqId) =>
      if c !in w.erasing && reqId in w.pool.workThread then
        w.(erasing := w.erasing[c := Found(reqId, w.pool.workThread[reqId])])
      else w
    case EraseMove(c) =>
      if c in w.erasing && w.erasing[c].Found? then
        var t := w.erasing[c].thread;
        if t in w.pool.workers then
          w.(pool := w.pool.(workers := w.pool.workers - {t}), erasing := w.erasing[c := Moved(w.erasing[c].reqId, t)])
        else w.(erasing := w.erasing - {c})
      else w
    case EraseUntrack(c) =>
      if c in w.erasing && w.erasing[c].Moved? then
        w.(pool := w.pool.(workThread := w.pool.workThread - {w.erasing[c].reqId}),
           erasing := w.erasing[c := Untracked(w.erasing[c].thread)])
      else w
    case EraseReplace(c, t) =>
      if c in w.erasing && w.erasing[c].Untracked? && t !in w.used then
        w.(pool := w.pool.(workers := w.pool.workers + {t}), live := w.live + {t}, used := w.used + {t},
           erasing := w.erasing[c := Replaced(w.erasing[c].thread)])
      else w
    case EraseDone(c) =>
      if c in w.erasing && w.erasing[c].Replaced? then
        w.(pool := w.pool.(abandoned := w.pool.abandoned + [w.erasing[c].thread]), erasing := w.erasing - {c})
      else w
  }

  /** The threads that calls under way have taken from the workers and not yet written off. */
  function Transit(erasing: map<nat, Eraser>): set<Thread> {
    set c | c in erasing && !erasing[c].Found? :: erasing[c].thread
  }

  /** The calls under way that have taken a worker and not yet replaced it. */
  function Owing(erasing: map<nat, Eraser>): set<nat> {
    set c | c in erasing && (erasing[c].Moved? || erasing[c].Untracked?)
  }

  function Members(s: seq<Thread>): set<Thread> {
    set t | t in s
  }

  function Exec(w: World, steps: seq<Step>): World {
    if steps == [] then w else Next(Exec(w, steps[..|steps| - 1]), steps[|steps| - 1])
  }

  function Start(): World {
    World(Pool(false, false, [], {}, [], map[]), {}, map[], {}, {}, [], [], false, map[])
  }

  // ------------------------------------------------------------------------------------- the invariant

  /** First in, first out, nothing lost and nothing run twice. */
  ghost predicate Conserved(w: World) {
    w.submitted == w.taken + w.pool.queue
  }

  /** No two sets of threads meet, and no two calls have taken the same thread. */
  ghost predicate Owned(w: World) {
    && Apart(w.pool.workers, Members(w.pool.abandoned), w.guests, Transit(w.erasing))
    && (forall i, j :: 0 <= i < j < |w.pool.abandoned| ==> w.pool.abandoned[i] != w.pool.abandoned[j])
    && (forall c, d :: c in w.erasing && d in w.erasing && c != d && !w.erasing[c].Found? && !w.erasing[d].Found? ==>
          w.erasing[c].thread != w.erasing[d].thread)
  }

  /** Four sets without a common member. */
  predicate Apart(a: set<Thread>, b: set<Thread>, c: set<Thread>, d: set<Thread>) {
    a !! b && a !! c && a !! d && b !! c && b !! d && c !! d
  }

  /** Each thread in the loop belongs to the workers, the written-off, the guests, or a call under way. */
  ghost predicate Accounted(w: World) {
    w.live <= w.pool.workers + Members(w.pool.abandoned) + w.guests + Transit(w.erasing) <= w.used
  }

  /** A thread runs one job, a job is run by one thread. */
  ghost predicate RunsOne(w: World) {
    && (forall t :: t in w.running ==> t in w.live && w.running[t] < |w.taken|)
    && (forall s, t :: s in w.running && t in w.running && s != t ==> w.running[s] != w.running[t])
  }

  function ReqIdOf(w: World, t: Thread): string {
    if t in w.running && w.running[t] < |w.taken| then w.taken[w.running[t]].reqId else ""
  }

  /** What the pool believes of a request is true: the thread it names is running that request. */
  ghost predicate Tracked(w: World) {
    forall r :: r in w.pool.workThread ==>
      r != "" && w.pool.workThread[r] in w.running && ReqIdOf(w, w.pool.workThread[r]) == r
  }

  ghost predicate Inv(w: World) {
    Conserved(w) && Owned(w) && Accounted(w) && RunsOne(w) && Tracked(w)
  }

  lemma StepConserves(w: World, step: Step)
    requires Conserved(w)
    ensures Conserved(Next(w, step))
  {
  }

  lemma MembersAppend(s: seq<Thread>, t: Thread)
    ensures Members(s + [t]) == Members(s) + {t}
  {
  }

  lemma TransitOf(w: World, c: nat, e: Eraser)
    requires c in w.erasing && w.erasing[c].thread == e.thread && !e.Found?
    ensures Transit(w.erasing[c := e]) ==
      if w.erasing[c].Found? then Transit(w.erasing) + {e.thread} else Transit(w.erasing)
  {
    var all := w.erasing[c := e];
    forall t | t in Transit(w.erasing) ensures t in Transit(all) {
      var d :| d in w.erasing && !w.erasing[d].Found? && w.erasing[d].thread == t;
      assert d in all && !all[d].Found? && all[d].thread == t;
    }
    assert all[c] == e;
  }

  lemma TransitFound(w: World, c: nat, reqId: string, t: Thread)
    requires c !in w.erasing
    ensures Transit(w.erasing[c := Found(reqId, t)]) == Transit(w.erasing)
  {
    var all := w.erasing[c := Found(reqId, t)];
    forall u | u in Transit(w.erasing) ensures u in Transit(all) {
      var d :| d in w.erasing && !w.erasing[d].Found? && w.erasing[d].thread == u;
      assert d in all && !all[d].Found? && all[d].thread == u;
    }
  }

  lemma TransitWithout(w: World, c: nat)
    requires Owned(w) && c in w.erasing
    ensures Transit(w.erasing - {c}) ==
      if w.erasing[c].Found? then Transit(w.erasing) else Transit(w.erasing) - {w.erasing[c].thread}
  {
    var all := w.erasing - {c};
    forall t | t in Transit(w.erasing) && (w.erasing[c].Found? || t != w.erasing[c].thread) ensures t in Transit(all) {
      var d :| d in w.erasing && !w.erasing[d].Found? && w.erasing[d].thread == t;
      assert d in all && !all[d].Found? && all[d].thread == t;
    }
  }

  lemma FindKeepsOwned(w: World, c: nat, reqId: string)
    requires Owned(w) && Accounted(w)
    ensures Owned(Next(w, EraseFind(c, reqId))) && Accounted(Next(w, EraseFind(c, reqId)))
  {
    if c !in w.erasing && reqId in w.pool.workThread { TransitFound(w, c, reqId, w.pool.workThread[reqId]); }
    hide Transit, Members;
  }

  lemma MoveKeepsOwned(w: World, c: nat)
    requires Owned(w) && Accounted(w)
    ensures Owned(Next(w, EraseMove(c))) && Accounted(Next(w, EraseMove(c)))
  {
    if c in w.erasing && w.erasing[c].Found? {
      TransitWithout(w, c);
      if w.erasing[c].thread in w.pool.workers {
        TransitOf(w, c, Moved(w.erasing[c].reqId, w.erasing[c].thread));
        NoneHasTaken(w, w.erasing[c].thread);
      }
    }
    hide Transit, Members;
  }

  /** A worker is not in the hands of any call. */
  lemma NoneHasTaken(w: World, t: Thread)
    requires Owned(w) && t in w.pool.workers
    ensures forall d :: d in w.erasing && !w.erasing[d].Found? ==> w.erasing[d].thread != t
  {
    forall d | d in w.erasing && !w.erasing[d].Found? ensures w.erasing[d].thread != t { TransitHas(w, d); }
  }

  lemma UntrackKeepsOwned(w: World, c: nat)
    requires Owned(w) && Accounted(w)
    ensures Owned(Next(w, EraseUntrack(c))) && Accounted(Next(w, EraseUntrack(c)))
  {
    if c in w.erasing && w.erasing[c].Moved? { TransitOf(w, c, Untracked(w.erasing[c].thread)); }
    hide Transit, Members;
  }

  lemma ReplaceKeepsOwned(w: World, c: nat, t: Thread)
    requires Owned(w) && Accounted(w)
    ensures Owned(Next(w, EraseReplace(c, t))) && Accounted(Next(w, EraseReplace(c, t)))
  {
    if c in w.erasing && w.erasing[c].Untracked? { TransitOf(w, c, Replaced(w.erasing[c].thread)); }
    hide Transit, Members;
  }

  lemma DoneKeepsOwned(w: World, c: nat)
    requires Owned(w) && Accounted(w)
    ensures Owned(Next(w, EraseDone(c))) && Accounted(Next(w, EraseDone(c)))
  {
    if c in w.erasing && w.erasing[c].Replaced? {
      var t := w.erasing[c].thread;
      TransitWithout(w, c);
      TransitHas(w, c);
      MembersAppend(w.pool.abandoned, t);
      assert forall i :: 0 <= i < |w.pool.abandoned| ==> w.pool.abandoned[i] in Members(w.pool.abandoned);
    }
    hide Transit, Members;
  }

  lemma TransitHas(w: World, c: nat)
    requires c in w.erasing && !w.erasing[c].Found?
    ensures w.erasing[c].thread in Transit(w.erasing)
  {
  }

  lemma StepKeepsOwned(w: World, step: Step)
    requires Owned(w) && Accounted(w)
    ensures Owned(Next(w, step)) && Accounted(Next(w, step))
  {
    match step
    case EraseFind(c, reqId) => FindKeepsOwned(w, c, reqId);
    case EraseMove(c) => MoveKeepsOwned(w, c);
    case EraseUntrack(c) => UntrackKeepsOwned(w, c);
    case EraseReplace(c, t) => ReplaceKeepsOwned(w, c, t);
    case EraseDone(c) => DoneKeepsOwned(w, c);
    case _ => OtherStepsKeepOwned(w, step);
  }

  lemma OtherStepsKeepOwned(w: World, step: Step)
    requires Owned(w) && Accounted(w)
    requires !(step.EraseFind? || step.EraseMove? || step.EraseUntrack? || step.EraseReplace? || step.EraseDone?)
    ensures Owned(Next(w, step)) && Accounted(Next(w, step))
  {
    hide Transit, Members;
  }

  lemma StepKeepsRunsOne(w: World, step: Step)
    requires RunsOne(w)
    ensures RunsOne(Next(w, step))
  {
  }

  lemma TakeKeepsTracked(w: World, t: Thread)
    requires RunsOne(w) && Tracked(w)
    ensures Tracked(Next(w, Take(t)))
  {
    var n := Next(w, Take(t));
    forall r | r in n.pool.workThread
      ensures r != "" && n.pool.workThread[r] in n.running && ReqIdOf(n, n.pool.workThread[r]) == r
    {
      if n.pool.workThread[r] != t { assert r in w.pool.workThread; }
    }
  }

  lemma FinishKeepsTracked(w: World, t: Thread)
    requires Tracked(w)
    ensures Tracked(Next(w, Finish(t)))
  {
    var n := Next(w, Finish(t));
    forall r | r in n.pool.workThread
      ensures r != "" && n.pool.workThread[r] in n.running && ReqIdOf(n, n.pool.workThread[r]) == r
    {
      assert r in w.pool.workThread;
    }
  }

  /** Steps that neither take nor finish a job leave running what runs, and track nothing new. */
  lemma OtherStepsRunOn(w: World, step: Step)
    requires !step.Take? && !step.Finish?
    ensures var n := Next(w, step);
      && n.taken == w.taken && n.running == w.running
      && forall r :: r in n.pool.workThread ==> r in w.pool.workThread && n.pool.workThread[r] == w.pool.workThread[r]
  {
  }

  lemma StepKeepsTracked(w: World, step: Step)
    requires RunsOne(w) && Tracked(w)
    ensures Tracked(Next(w, step))
  {
    match step
    case Take(t) => TakeKeepsTracked(w, t);
    case Finish(t) => FinishKeepsTracked(w, t);
    case _ =>
      OtherStepsRunOn(w, step);
      TrackedFrame(w, Next(w, step));
  }

  lemma TrackedFrame(w: World, n: World)
    requires Tracked(w) && n.taken == w.taken && n.running == w.running
    requires forall r :: r in n.pool.workThread ==>
      r in w.pool.workThread && n.pool.workThread[r] == w.pool.workThread[r]
    ensures Tracked(n)
  {
  }

  lemma {:induction false} RunKeepsInv(steps: seq<Step>)
    ensures Inv(Exec(Start(), steps))
  {
    if steps != [] {
      var w, step := Exec(Start(), steps[..|steps| - 1]), steps[|steps| - 1];
      RunKeepsInv(steps[..|steps| - 1]);
      StepConserves(w, step);
      StepKeepsOwned(w, step);
      StepKeepsRunsOne(w, step);
      StepKeepsTracked(w, step);
    }
  }

  // ------------------------------------------------------------------------------------ the theorems

  /** In every run the jobs submitted are the jobs taken, in order, followed by the jobs waiting; and no job is
      being run by two threads. */
  lemma FirstInFirstOut(steps: seq<Step>)
    ensures var w := Exec(Start(), steps);
      && w.submitted == w.taken + w.pool.queue
      && forall s, t :: s in w.running && t in w.running && w.running[s] == w.running[t] ==> s == t
  {
    RunKeepsInv(steps);
  }

  predicate Restarts(step: Step) {
    step.Init? || step.InitAndRun?
  }

  /** From a stop to the next start no job is taken, and the jobs waiting stay, with later ones behind them. */
  lemma {:induction false} NothingTakenWhileStopped(w: World, steps: seq<Step>)
    requires w.pool.stop && forall i :: 0 <= i < |steps| ==> !Restarts(steps[i])
    ensures var n := Exec(w, steps); n.pool.stop && n.taken == w.taken && w.pool.queue <= n.pool.queue
  {
    hide Next;
    if steps != [] {
      NothingTakenWhileStopped(w, steps[..|steps| - 1]);
      StoppedStep(Exec(w, steps[..|steps| - 1]), steps[|steps| - 1]);
    }
  }

  lemma StoppedStep(w: World, step: Step)
    requires w.pool.stop && !Restarts(step)
    ensures var n := Next(w, step); n.pool.stop && n.taken == w.taken && w.pool.queue <= n.pool.queue
  {
  }

  predicate ChangesWorkers(step: Step) {
    step.Init? || step.Joined?
  }

  predicate Owes(e: Eraser) {
    e.Moved? || e.Untracked?
  }

  lemma OwingUpdate(erasing: map<nat, Eraser>, c: nat, e: Eraser)
    ensures Owing(erasing[c := e]) - {c} == Owing(erasing) - {c} && (c in Owing(erasing[c := e]) <==> Owes(e))
    ensures Owing(erasing - {c}) == Owing(erasing) - {c}
    ensures c in Owing(erasing) <==> c in erasing && Owes(erasing[c])
  {
  }

  lemma OwingMoves(erasing: map<nat, Eraser>, c: nat, e: Eraser)
    ensures |Owing(erasing[c := e])| == |Owing(erasing)| -
      (if c in erasing && Owes(erasing[c]) then 1 else 0) + if Owes(e) then 1 else 0
    ensures |Owing(erasing - {c})| == |Owing(erasing)| - if c in erasing && Owes(erasing[c]) then 1 else 0
  {
    OwingUpdate(erasing, c, e);
    hide Owing;
    CountOne(Owing(erasing), c);
    CountOne(Owing(erasing[c := e]), c);
  }

  lemma CountOne(s: set<nat>, x: nat)
    ensures |s| == |s - {x}| + if x in s then 1 else 0
  {
    if x in s { assert s == (s - {x}) + {x}; } else { assert s - {x} == s; }
  }

  lemma MoveKeepsCount(w: World, c: nat)
    requires c in w.erasing && w.erasing[c].Found?
    ensures var n := Next(w, EraseMove(c));
      |n.pool.workers| + |Owing(n.erasing)| == |w.pool.workers| + |Owing(w.erasing)|
  {
    hide Owing;
    CountOne(w.pool.workers, w.erasing[c].thread);
    OwingMoves(w.erasing, c, Moved(w.erasing[c].reqId, w.erasing[c].thread));
  }

  lemma ReplaceKeepsCount(w: World, c: nat, t: Thread)
    requires c in w.erasing && w.erasing[c].Untracked? && t !in w.used && w.pool.workers <= w.used
    ensures var n := Next(w, EraseReplace(c, t));
      |n.pool.workers| + |Owing(n.erasing)| == |w.pool.workers| + |Owing(w.erasing)|
  {
    hide Owing;
    CountOne(w.pool.workers + {t}, t);
    assert w.pool.workers + {t} - {t} == w.pool.workers;
    OwingMoves(w.erasing, c, Replaced(w.erasing[c].thread));
  }

  lemma StepKeepsCount(w: World, step: Step)
    requires w.pool.workers <= w.used && !ChangesWorkers(step)
    ensures var n := Next(w, step); |n.pool.workers| + |Owing(n.erasing)| == |w.pool.workers| + |Owing(w.erasing)|
  {
    hide Owing;
    match step
    case EraseFind(c, reqId) =>
      if reqId in w.pool.workThread { OwingMoves(w.erasing, c, Found(reqId, w.pool.workThread[reqId])); }
    case EraseMove(c) => if c in w.erasing && w.erasing[c].Found? { MoveKeepsCount(w, c); }
    case EraseUntrack(c) => if c in w.erasing { OwingMoves(w.erasing, c, Untracked(w.erasing[c].thread)); }
    case EraseReplace(c, t) =>
      if c in w.erasing && w.erasing[c].Untracked? && t !in w.used { ReplaceKeepsCount(w, c, t); }
    case EraseDone(c) => OwingMoves(w.erasing, c, Replaced(0));
    case _ =>
  }

  /** Only starting the pool and finishing a shutdown change the number of workers, counting one for each that is just
      being replaced. */
  lemma {:induction false} WorkerCountKept(w: World, steps: seq<Step>)
    requires Owned(w) && Accounted(w) && forall i :: 0 <= i < |steps| ==> !ChangesWorkers(steps[i])
    ensures Owned(Exec(w, steps)) && Accounted(Exec(w, steps))
    ensures var n := Exec(w, steps); |n.pool.workers| + |Owing(n.erasing)| == |w.pool.workers| + |Owing(w.erasing)|
  {
    hide Owned, Accounted, Next, Owing;
    if steps != [] {
      var m, step := Exec(w, steps[..|steps| - 1]), steps[|steps| - 1];
      WorkerCountKept(w, steps[..|steps| - 1]);
      StepKeepsOwned(m, step);
      WorkersAreUsed(m);
      StepKeepsCount(m, step);
    }
  }

  lemma WorkersAreUsed(w: World)
    requires Accounted(w)
    ensures w.pool.workers <= w.used
  {
    hide Members, Transit;
  }

  /** When a shutdown has joined the threads none of the pool's own is left in the loop, and none runs a job, except
      those a call of `ErasePendingThread` has taken out and not yet written off. */
  lemma ShutdownLeavesNobody(steps: seq<Step>)
    ensures var w := Exec(Start(), steps); var n := Next(w, Joined);
      n != w ==>
        && n.live <= n.guests + Transit(n.erasing) && n.pool.workers == {}
        && forall t :: t in n.running ==> t in n.guests + Transit(n.erasing)
  {
    RunKeepsInv(steps);
    var w := Exec(Start(), steps);
    StepKeepsRunsOne(w, Joined);
    hide Members, Transit, Tracked, Conserved;
  }

  // -------------------------------------------------------------------- writing off a stuck worker

  /** Request ids are given out once; jobs without one do not matter. */
  ghost predicate DistinctIds(jobs: seq<Job>) {
    forall i, j :: 0 <= i < j < |jobs| && jobs[i].reqId != "" ==> jobs[i].reqId != jobs[j].reqId
  }

  /** Every worker that runs a request is known by that request's id. */
  ghost predicate AllKnown(w: World) {
    forall t :: t in w.running && t in w.pool.workers && ReqIdOf(w, t) != "" ==>
      ReqIdOf(w, t) in w.pool.workThread && w.pool.workThread[ReqIdOf(w, t)] == t
  }

  lemma SameIdSameThread(w: World, s: Thread, t: Thread)
    requires RunsOne(w) && Conserved(w) && DistinctIds(w.submitted) && s in w.running && t in w.running
    requires ReqIdOf(w, s) == ReqIdOf(w, t) != ""
    ensures s == t
  {
    var i, j := w.running[s], w.running[t];
    assert w.submitted[i] == w.taken[i] && w.submitted[j] == w.taken[j];
  }

  lemma TakeKeepsAllKnown(w: World, t: Thread)
    requires RunsOne(w) && Conserved(w) && AllKnown(w) && DistinctIds(w.submitted)
    ensures AllKnown(Next(w, Take(t)))
  {
    var n := Next(w, Take(t));
    StepKeepsRunsOne(w, Take(t));
    StepConserves(w, Take(t));
    if n != w {
      forall s | s in n.running && s in n.pool.workers && ReqIdOf(n, s) != ""
        ensures ReqIdOf(n, s) in n.pool.workThread && n.pool.workThread[ReqIdOf(n, s)] == s
      {
        if s != t && ReqIdOf(n, s) == ReqIdOf(n, t) { SameIdSameThread(n, s, t); }
      }
    }
  }

  lemma FinishKeepsAllKnown(w: World, t: Thread)
    requires RunsOne(w) && Conserved(w) && AllKnown(w) && DistinctIds(w.submitted)
    ensures AllKnown(Next(w, Finish(t)))
  {
    var n := Next(w, Finish(t));
    if t in w.running {
      forall s | s in n.running && s in n.pool.workers && ReqIdOf(n, s) != ""
        ensures ReqIdOf(n, s) in n.pool.workThread && n.pool.workThread[ReqIdOf(n, s)] == s
      {
        if ReqIdOf(w, s) == ReqIdOf(w, t) { SameIdSameThread(w, s, t); }
      }
    }
  }

  /** A request that a call is about to untrack has been taken, and only the thread found for it can be running it. */
  ghost predicate ErasersKnow(w: World) {
    forall c :: c in w.erasing && (w.erasing[c].Found? || w.erasing[c].Moved?) ==>
      && w.erasing[c].reqId != "" && WasTaken(w, w.erasing[c].reqId)
      && forall s :: s in w.running && ReqIdOf(w, s) == w.erasing[c].reqId ==> s == w.erasing[c].thread
  }

  ghost predicate WasTaken(w: World, reqId: string) {
    exists i :: 0 <= i < |w.taken| && w.taken[i].reqId == reqId
  }

  lemma TakenOnce(w: World, t: Thread, reqId: string)
    requires Conserved(w) && DistinctIds(w.submitted) && WasTaken(w, reqId) && reqId != ""
    requires w.pool.queue != []
    ensures w.pool.queue[0].reqId != reqId
  {
    var i :| 0 <= i < |w.taken| && w.taken[i].reqId == reqId;
    assert w.submitted[i] == w.taken[i] && w.submitted[|w.taken|] == w.pool.queue[0];
  }

  lemma TakeKeepsErasers(w: World, t: Thread)
    requires RunsOne(w) && Conserved(w) && ErasersKnow(w) && DistinctIds(w.submitted)
    ensures ErasersKnow(Next(w, Take(t)))
  {
    var n := Next(w, Take(t));
    if n != w {
      forall c | c in n.erasing && (n.erasing[c].Found? || n.erasing[c].Moved?)
        ensures n.erasing[c].reqId != "" && WasTaken(n, n.erasing[c].reqId)
        ensures forall s :: s in n.running && ReqIdOf(n, s) == n.erasing[c].reqId ==> s == n.erasing[c].thread
      {
        TakenOnce(w, t, w.erasing[c].reqId);
        var i :| 0 <= i < |w.taken| && w.taken[i].reqId == w.erasing[c].reqId;
        assert n.taken[i] == w.taken[i];
        forall s | s in n.running && s != t ensures ReqIdOf(n, s) == ReqIdOf(w, s) {}
        assert ReqIdOf(n, t) == w.pool.queue[0].reqId;
      }
    }
  }

  lemma FindKeepsErasers(w: World, c: nat, reqId: string)
    requires Inv(w) && ErasersKnow(w) && DistinctIds(w.submitted)
    ensures ErasersKnow(Next(w, EraseFind(c, reqId)))
  {
    hide Owned, Accounted;
    if c !in w.erasing && reqId in w.pool.workThread {
      var t := w.pool.workThread[reqId];
      assert w.taken[w.running[t]].reqId == reqId;
      forall s | s in w.running && ReqIdOf(w, s) == reqId ensures s == t { SameIdSameThread(w, s, t); }
    }
  }

  lemma StepKeepsErasers(w: World, step: Step)
    requires Inv(w) && ErasersKnow(w) && DistinctIds(w.submitted)
    ensures ErasersKnow(Next(w, step))
  {
    match step
    case Take(t) => TakeKeepsErasers(w, t);
    case EraseFind(c, reqId) => FindKeepsErasers(w, c, reqId);
    case _ =>
      hide Inv;
      RunningShrinks(w, step);
  }

  /** Steps other than taking a job add no running thread, and calls under way keep their request. */
  lemma RunningShrinks(w: World, step: Step)
    requires ErasersKnow(w) && !step.Take? && !step.EraseFind?
    ensures ErasersKnow(Next(w, step))
  {
    var n := Next(w, step);
    assert n.taken == w.taken;
    forall s | s in n.running ensures s in w.running && ReqIdOf(n, s) == ReqIdOf(w, s) {}
    forall c | c in n.erasing && (n.erasing[c].Found? || n.erasing[c].Moved?)
      ensures c in w.erasing && (w.erasing[c].Found? || w.erasing[c].Moved?)
      ensures n.erasing[c].reqId == w.erasing[c].reqId && n.erasing[c].thread == w.erasing[c].thread
    {
    }
  }

  lemma UntrackKeepsAllKnown(w: World, c: nat)
    requires Inv(w) && AllKnown(w) && ErasersKnow(w)
    ensures AllKnown(Next(w, EraseUntrack(c)))
  {
    if c in w.erasing && w.erasing[c].Moved? {
      TransitHas(w, c);
      hide Transit, Members;
      assert w.erasing[c].thread !in w.pool.workers;
    }
  }

  lemma StepKeepsAllKnown(w: World, step: Step)
    requires Inv(w) && AllKnown(w) && ErasersKnow(w) && DistinctIds(w.submitted)
    ensures AllKnown(Next(w, step))
  {
    match step
    case Take(t) => TakeKeepsAllKnown(w, t);
    case Finish(t) => FinishKeepsAllKnown(w, t);
    case EraseUntrack(c) => UntrackKeepsAllKnown(w, c);
    case _ =>
      RunningAreUsed(w);
      hide Inv;
      OtherStepsKeepAllKnown(w, step);
  }

  lemma RunningAreUsed(w: World)
    requires Accounted(w) && RunsOne(w)
    ensures forall t :: t in w.running ==> t in w.used
  {
    hide Transit, Members;
  }

  lemma OtherStepsKeepAllKnown(w: World, step: Step)
    requires AllKnown(w) && !step.Take? && !step.Finish? && !step.EraseUntrack?
    requires forall t :: t in w.running ==> t in w.used
    ensures AllKnown(Next(w, step))
  {
    OtherStepsRunOn(w, step);
    var n := Next(w, step);
    assert n.pool.workThread == w.pool.workThread;
    assert forall t :: t in w.running && t in n.pool.workers ==> t in w.pool.workers;
    hide Next;
  }

  lemma SubmittedGrows(w: World, step: Step)
    ensures w.submitted <= Next(w, step).submitted
  {
  }

  lemma {:induction false} RunKeepsAllKnown(steps: seq<Step>)
    requires DistinctIds(Exec(Start(), steps).submitted)
    ensures AllKnown(Exec(Start(), steps)) && ErasersKnow(Exec(Start(), steps))
  {
    if steps != [] {
      var w, step := Exec(Start(), steps[..|steps| - 1]), steps[|steps| - 1];
      SubmittedGrows(w, step);
      DistinctBefore(w.submitted, Next(w, step).submitted);
      hide Inv, AllKnown, ErasersKnow, Next, DistinctIds;
      RunKeepsAllKnown(steps[..|steps| - 1]);
      RunKeepsInv(steps[..|steps| - 1]);
      StepKeepsAllKnown(w, step);
      StepKeepsErasers(w, step);
    }
  }

  lemma DistinctBefore(a: seq<Job>, b: seq<Job>)
    requires a <= b && DistinctIds(b)
    ensures DistinctIds(a)
  {
  }

  /** In every run a call finds a thread for a request only if that thread is running it, and finds the worker that is
      running it if there is one. */
  lemma FindsTheRunner(steps: seq<Step>, c: nat, reqId: string, t: Thread)
    requires DistinctIds(Exec(Start(), steps).submitted) && reqId != "" && c !in Exec(Start(), steps).erasing
    ensures var w := Exec(Start(), steps); var n := Next(w, EraseFind(c, reqId));
      && (c in n.erasing && n.erasing[c] == Found(reqId, t) ==> t in w.running && ReqIdOf(w, t) == reqId)
      && (t in w.running && t in w.pool.workers && ReqIdOf(w, t) == reqId ==>
            c in n.erasing && n.erasing[c] == Found(reqId, t))
  {
    RunKeepsInv(steps);
    RunKeepsAllKnown(steps);
  }

  /** In every run, when a call takes its thread from the workers, that thread is running the request exactly when
      the request is still tracked, which the critical section does not look at, and exactly when anybody is running
      it; its job goes on, and no other thread changes hands. */
  lemma WritesOffTheRunner(steps: seq<Step>, c: nat)
    requires DistinctIds(Exec(Start(), steps).submitted)
    requires c in Exec(Start(), steps).erasing && Exec(Start(), steps).erasing[c].Found?
    ensures var w := Exec(Start(), steps); var n := Next(w, EraseMove(c)); var e := w.erasing[c];
      && ((exists s :: s in w.running && ReqIdOf(w, s) == e.reqId) <==>
            e.thread in w.running && ReqIdOf(w, e.thread) == e.reqId)
      && (e.thread in w.pool.workers ==>
            (e.thread in w.running && ReqIdOf(w, e.thread) == e.reqId <==> e.reqId in w.pool.workThread))
      && n.pool.workers == w.pool.workers - {e.thread}
      && (c in n.erasing <==> e.thread in w.pool.workers) && n.running == w.running && n.live == w.live
  {
    RunKeepsAllKnown(steps);
    RunKeepsInv(steps);
    TrackedIffRunning(Exec(Start(), steps), c);
    hide Inv, AllKnown;
  }

  lemma TrackedIffRunning(w: World, c: nat)
    requires Tracked(w) && AllKnown(w) && ErasersKnow(w) && c in w.erasing && w.erasing[c].Found?
    ensures var e := w.erasing[c];
      e.thread in w.pool.workers ==>
        (e.thread in w.running && ReqIdOf(w, e.thread) == e.reqId <==> e.reqId in w.pool.workThread)
  {
    var e := w.erasing[c];
    if e.reqId in w.pool.workThread { assert w.pool.workThread[e.reqId] == e.thread; }
  }

  /** It need not be running it: a worker that finished the request between the two critical sections is written off
      though it is idle. */
  lemma IdleWorkerWrittenOff() returns (steps: seq<Step>)
    ensures var w := Exec(Start(), steps); var n := Next(w, EraseMove(0));
      && Idle(w, 0) && w.pool.workers == {0} && n.pool.workers == {} && 0 in n.erasing && n.erasing[0] == Moved("r", 0)
  {
    var job := Job(1, "r");
    steps := [Init({0}, true), Handle(job), Take(0), EraseFind(0, "r"), Finish(0)];
    var states := IdleWorkerRun(job);
    hide Next;
    ExecSteps(Start(), steps, states);
  }

  lemma IdleWorkerRun(job: Job) returns (states: seq<World>)
    requires job.reqId == "r"
    ensures |states| == 6 && states[0] == Start()
    ensures states[1] == Next(states[0], Init({0}, true)) && states[2] == Next(states[1], Handle(job))
    ensures states[3] == Next(states[2], Take(0)) && states[4] == Next(states[3], EraseFind(0, "r"))
    ensures states[5] == Next(states[4], Finish(0)) && Idle(states[5], 0) && states[5].pool.workers == {0}
    ensures states[5].erasing == map[0 := Found("r", 0)]
    ensures var n := Next(states[5], EraseMove(0)); n.pool.workers == {} && n.erasing == map[0 := Moved("r", 0)]
  {
    hide Next;
    var s1, s2 := StartWithJob(job);
    var s3, s4, s5 := TakeFindFinish(s2, job);
    MoveIdle(s5);
    states := [Start(), s1, s2, s3, s4, s5];
  }

  lemma StartWithJob(job: Job) returns (s1: World, s2: World)
    ensures s1 == Next(Start(), Init({0}, true)) && s2 == Next(s1, Handle(job))
    ensures s2.pool == Pool(true, false, [job], {0}, [], map[])
    ensures s2.live == {0} && s2.running == map[] && s2.erasing == map[] && s2.taken == []
  {
    s1 := Next(Start(), Init({0}, true));
    assert s1.pool.workers == {0} && s1.live == {0};
    s2 := Next(s1, Handle(job));
    var none: seq<Job> := [];
    assert none + [job] == [job];
  }

  lemma MoveIdle(w: World)
    requires w.pool.workers == {0} && w.erasing == map[0 := Found("r", 0)]
    ensures var n := Next(w, EraseMove(0)); n.pool.workers == {} && n.erasing == map[0 := Moved("r", 0)]
  {
    assert {0 as Thread} - {0} == {};
  }

  lemma TakeFindFinish(w: World, job: Job) returns (s3: World, s4: World, s5: World)
    requires job.reqId == "r" && w.pool == Pool(true, false, [job], {0}, [], map[])
    requires w.live == {0} && w.running == map[] && w.erasing == map[] && w.taken == []
    ensures s3 == Next(w, Take(0)) && s4 == Next(s3, EraseFind(0, "r")) && s5 == Next(s4, Finish(0))
    ensures Idle(s5, 0) && s5.pool.workers == {0} && s5.erasing == map[0 := Found("r", 0)]
  {
    s3 := Next(w, Take(0));
    assert s3.taken == [job] && s3.running == map[0 := 0] && s3.pool.workThread == map["r" := 0];
    s4 := Next(s3, EraseFind(0, "r"));
    s5 := Next(s4, Finish(0));
    assert s5.running == map[];
  }

  lemma {:induction false} ExecSteps(w: World, steps: seq<Step>, states: seq<World>)
    requires |states| == |steps| + 1 && states[0] == w
    requires forall i :: 0 <= i < |steps| ==> states[i + 1] == Next(states[i], steps[i])
    ensures Exec(w, steps) == states[|steps|]
  {
    hide Next;
    if steps != [] {
      var n := |steps| - 1;
      ExecSteps(w, steps[..n], states[..n + 1]);
    }
  }

  /** Nothing between them, the critical sections make up the replacement. */
  lemma PhasesMakeReplace(w: World, c: nat, reqId: string, t: Thread)
    requires c !in w.erasing && t !in w.used && Replaceable(w.pool, reqId)
    ensures var n := Exec(w, [EraseFind(c, reqId), EraseMove(c), EraseUntrack(c), EraseReplace(c, t), EraseDone(c)]);
      n.pool == Replace(w.pool, reqId, t) && n.erasing == w.erasing && n.running == w.running && n.live == w.live + {t}
  {
    var steps := [EraseFind(c, reqId), EraseMove(c), EraseUntrack(c), EraseReplace(c, t), EraseDone(c)];
    var states := Phases(w, c, reqId, t);
    hide Next, Replace, Replaceable;
    ExecSteps(w, steps, states);
  }

  lemma Phases(w: World, c: nat, reqId: string, t: Thread) returns (states: seq<World>)
    requires c !in w.erasing && t !in w.used && Replaceable(w.pool, reqId)
    ensures |states| == 6 && states[0] == w
    ensures states[1] == Next(states[0], EraseFind(c, reqId)) && states[2] == Next(states[1], EraseMove(c))
    ensures states[3] == Next(states[2], EraseUntrack(c)) && states[4] == Next(states[3], EraseReplace(c, t))
    ensures states[5] == Next(states[4], EraseDone(c)) && states[5].pool == Replace(w.pool, reqId, t)
    ensures states[5].erasing == w.erasing && states[5].running == w.running && states[5].live == w.live + {t}
  {
    var s1, s2, s3 := FirstPhases(w, c, reqId);
    var s4, s5 := LastPhases(s3, c, w.pool.workThread[reqId], t);
    hide Next;
    assert s5.erasing == w.erasing;
    states := [w, s1, s2, s3, s4, s5];
  }

  lemma FirstPhases(w: World, c: nat, reqId: string) returns (s1: World, s2: World, s3: World)
    requires c !in w.erasing && Replaceable(w.pool, reqId)
    ensures s1 == Next(w, EraseFind(c, reqId)) && s2 == Next(s1, EraseMove(c)) && s3 == Next(s2, EraseUntrack(c))
    ensures var stuck := w.pool.workThread[reqId];
      s3 == w.(pool := w.pool.(workers := w.pool.workers - {stuck}, workThread := w.pool.workThread - {reqId}),
               erasing := w.erasing[c := Untracked(stuck)])
  {
    s1 := Next(w, EraseFind(c, reqId));
    s2 := Next(s1, EraseMove(c));
    s3 := Next(s2, EraseUntrack(c));
  }

  lemma LastPhases(w: World, c: nat, stuck: Thread, t: Thread) returns (s1: World, s2: World)
    requires c in w.erasing && w.erasing[c] == Untracked(stuck) && t !in w.used
    ensures s1 == Next(w, EraseReplace(c, t)) && s2 == Next(s1, EraseDone(c))
    ensures s2 == w.(pool := w.pool.(workers := w.pool.workers + {t}, abandoned := w.pool.abandoned + [stuck]),
                     live := w.live + {t}, used := w.used + {t}, erasing := w.erasing - {c})
  {
    s1 := Next(w, EraseReplace(c, t));
    s2 := Next(s1, EraseDone(c));
    assert s2.erasing == w.erasing - {c};
  }

  // --------------------------------------------------------------------------------- no job is stuck

  /** An idle thread gets its turn while the pool is running and a job waits. */
  predicate TakesJob(w: World, step: Step) {
    step.Take? && Idle(w, step.thread) && w.pool.queue != [] && !w.pool.stop
  }

  function Turns(w: World, more: seq<Step>): nat {
    if more == [] then 0
    else Turns(w, more[..|more| - 1]) + if TakesJob(Exec(w, more[..|more| - 1]), more[|more| - 1]) then 1 else 0
  }

  lemma {:induction false} TurnsTake(w: World, more: seq<Step>)
    requires Conserved(w)
    ensures var n := Exec(w, more);
      Conserved(n) && w.submitted <= n.submitted && |n.taken| == |w.taken| + Turns(w, more)
  {
    if more != [] {
      var m := Exec(w, more[..|more| - 1]);
      TurnsTake(w, more[..|more| - 1]);
      StepConserves(m, more[|more| - 1]);
      SubmittedGrows(m, more[|more| - 1]);
      StepTakes(m, more[|more| - 1]);
      hide Next, TakesJob;
    }
  }

  lemma StepTakes(w: World, step: Step)
    ensures |Next(w, step).taken| == |w.taken| + if TakesJob(w, step) then 1 else 0
  {
  }

  /** Whatever happens, each turn of any idle thread takes the next job: the one with `p` others before it is taken by
      the time of turn `p + 1`, and not before. */
  lemma TakenInTurn(w: World, more: seq<Step>, p: nat)
    requires Conserved(w) && p < |w.pool.queue|
    ensures var n := Exec(w, more); var i := |w.taken| + p;
      && i < |n.submitted| && n.submitted[i] == w.pool.queue[p]
      && (i < |n.taken| <==> p < Turns(w, more)) && (i < |n.taken| ==> n.taken[i] == w.pool.queue[p])
  {
    TurnsTake(w, more);
    hide Exec, Turns;
    var n := Exec(w, more);
    assert w.submitted[|w.taken| + p] == w.pool.queue[p];
    assert n.submitted[|w.taken| + p] == w.submitted[|w.taken| + p];
  }

  // --------------------------------------------------------------------------------------- the class

  class ThreadPool {
    var init: bool
    var stop: bool
    var jobQueue: seq<Job>
    var workers: set<Thread>
    var abandonedWorkers: seq<Thread>
    var workThread: map<string, Thread>

    function State(): Pool
      reads this
    {
      Pool(init, stop, jobQueue, workers, abandonedWorkers, workThread)
    }

    constructor ()
      ensures State() == Start().pool
    {
      init, stop, jobQueue, workers, abandonedWorkers, workThread := false, false, [], {}, [], map[];
    }

    /** `threads` are the ones it can create, of `n` wanted. */
    method Init(n: nat, threads: seq<Thread>) returns (failed: bool)
      requires |threads| <= n
      modifies this
      ensures State() == AddWorkers(old(State()), Members(threads), |threads| == n)
      ensures failed <==> !old(init) && |threads| < n
    {
      if init { return false; }
      stop := false;
      for i := 0 to n
        invariant i <= |threads|
        invariant !stop && !init && jobQueue == old(jobQueue) && abandonedWorkers == old(abandonedWorkers)
        invariant workThread == old(workThread) && workers == old(workers) + Members(threads[..i])
      {
        if i == |threads| {
          assert threads[..i] == threads;
          return true;
        }
        workers := workers + {threads[i]};
        assert threads[..i + 1] == threads[..i] + [threads[i]];
        MembersAppend(threads[..i], threads[i]);
      }
      assert threads[..|threads|] == threads;
      init, failed := true, false;
    }

    method InitAndRun()
      modifies this
      ensures State() == old(State()).(stop := false)
    {
      stop := false;
    }

    method Handle(job: Job)
      modifies this
      ensures State() == AddJob(old(State()), job)
    {
      jobQueue := jobQueue + [job];
    }

    /** One waiting thread's turn: leave the loop if the pool is stopped, else take a job if there is one. */
    method Take(self: Thread) returns (leave: bool, job: seq<Job>)
      modifies this
      ensures leave == old(stop) && (leave ==> State() == old(State()))
      ensures !leave && old(jobQueue) == [] ==> job == [] && State() == old(State())
      ensures !leave && old(jobQueue) != [] ==> job == [old(jobQueue[0])] && State() == TakeJob(old(State()), self)
    {
      leave, job := stop, [];
      if leave || jobQueue == [] { return; }
      var front := jobQueue[0];
      if front.reqId != "" {
        workThread := workThread[front.reqId := self];
      }
      jobQueue := jobQueue[1..];
      job := [front];
    }

    method Finish(reqId: string)
      modifies this
      ensures State() == FinishJob(old(State()), reqId)
    {
      if reqId != "" {
        workThread := workThread - {reqId};
      }
    }

    /** Returns whether there are threads to join. */
    method Stop() returns (joins: bool)
      modifies this
      ensures joins == !old(stop)
      ensures State() == if old(stop) then old(State()) else old(State()).(stop := true, init := false)
    {
      joins := !stop;
      if joins {
        stop, init := true, false;
      }
    }

    method Joined()
      modifies this
      ensures State() == old(State()).(workers := {})
    {
      workers := {};
    }

    /** The critical sections of `ErasePendingThread`, one by one: the thread tracked for the request, ... */
    method FindThread(reqId: string) returns (found: bool, threadId: Thread)
      ensures found <==> reqId in workThread
      ensures found ==> threadId == workThread[reqId]
    {
      found, threadId := reqId in workThread, 0;
      if found { threadId := workThread[reqId]; }
    }

    /** ... taken from the workers if it is one of them, ... */
    method TakeOut(threadId: Thread) returns (taken: bool)
      modifies this`workers
      ensures taken <==> threadId in old(workers)
      ensures workers == old(workers) - {threadId}
    {
      taken := threadId in workers;
      if taken { workers := workers - {threadId}; }
    }

    /** ... and replaced. */
    method StartWorker(t: Thread)
      modifies this`workers
      ensures workers == old(workers) + {t}
    {
      workers := workers + {t};
    }

    /** All of them with nothing in between. */
    method ErasePendingThread(reqId: string, replacement: Thread)
      modifies this
      ensures State() == Replace(old(State()), reqId, replacement)
    {
      var found, threadId := FindThread(reqId);
      if !found { return; }
      var taken := TakeOut(threadId);
      if !taken { return; }
      workThread := workThread - {reqId};
      StartWorker(replacement);
      abandonedWorkers := abandonedWorkers + [threadId];
    }
  }
}
