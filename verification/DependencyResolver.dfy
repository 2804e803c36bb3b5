/**
  Dependency countdown (`DependencyResolver`): a request completes when all objects it depends on are
  ready, or at the first error.  The callbacks come from the memory store: at registration if the
  object is settled already, otherwise when it is settled, and always after the store's lock is gone.
 */
module DependencyResolver {
  import opened Options
  import opened WaitingObjects

  // ------------------------------------------------------------------------- one callback

  type Pending = map<string, nat>

  /** The ready callback: count down, and hand out the completion at zero or at an error. */
  function Countdown(deps: Pending, req: string, err: ErrorInfo): (Pending, Option<ErrorInfo>) {
    if req !in deps then (deps, None)
    else if Decremented(deps[req]) == 0 || !err.OK() then (deps - {req}, Some(err))
    else (deps[req := Decremented(deps[req])], None)
  }

  /** Pre-decrement of a 64-bit size. */
  function Decremented(n: nat): nat {
    if n == 0 then 0xFFFF_FFFF_FFFF_FFFF else n - 1
  }

  // ----------------------------------------------------------------------------- the system

  /** One registered callback: the `index`-th dependency of a request. */
  datatype Token = Token(req: string, index: nat)

  datatype Place =
    | ToRegister(id: Id)       // AddReadyCallback not called yet
    | Registered(id: Id)       // kept by the store
    | InFlight(err: ErrorInfo) // taken out of the store, about to run
    | Fired

  datatype Detail = Detail(ready: bool, stored: bool, err: ErrorInfo)

  datatype Fire = Fire(token: Token, err: ErrorInfo)
  datatype Completion = Completion(req: string, err: ErrorInfo)

  /** `resolved`, `fires` and `completions` record what happened, in order. */
  datatype State = State(store: map<Id, Detail>, tokens: map<Token, Place>, deps: Pending, resolved: map<string,
                         seq<Id>>,
                         fires: seq<Fire>, completions: seq<Completion>)

  datatype Step =
    | Resolve(req: string, ids: seq<Id>) // ResolveDependencies up to the registration loop
    | Register(t: Token)                 // AddReadyCallback for one dependency
    | Run(t: Token)                      // the callback runs
    | Add(id: Id)                        // AddReturnObject
    | Put(id: Id)                        // the object's data arrives in memory or in the data system
    | SetReady(id: Id)
    | SetError(id: Id, err: ErrorInfo)

  function Start(): State {
    State(map[], map[], map[], map[], [], [])
  }

  /** What the store does with a new callback. */
  function PlaceFor(store: map<Id, Detail>, id: Id): Place {
    if id !in store then InFlight(NO_ERROR)
    else if !store[id].err.OK() then InFlight(store[id].err)
    else if store[id].ready || store[id].stored then InFlight(NO_ERROR)
    else Registered(id)
  }

  function Release(tokens: map<Token, Place>, id: Id, err: ErrorInfo): map<Token, Place> {
    map t | t in tokens :: if tokens[t] == Registered(id) then InFlight(err) else tokens[t]
  }

  /** The first `n` tokens of a request. */
  function Tokens(req: string, n: nat): (r: set<Token>)
    ensures |r| == n && forall t :: t in r <==> t.req == req && t.index < n
  {
    if n == 0 then {} else Tokens(req, n - 1) + {Token(req, n - 1)}
  }

  function NewTokens(req: string, ids: seq<Id>): map<Token, Place> {
    map t | t in Tokens(req, |ids|) :: ToRegister(ids[t.index])
  }

  function RunToken(s: State, t: Token, err: ErrorInfo): State {
    var (deps, done) := Countdown(s.deps, t.req, err);
    s.(tokens := s.tokens[t := Fired], deps := deps, fires := s.fires + [Fire(t, err)],
       completions := if done.Some? then s.completions + [Completion(t.req, done.value)] else s.completions)
  }

  /** A step that is not enabled leaves the state as it is; request ids are not reused. */
  function Next(s: State, step: Step): State {
    match step
    case Resolve(req, ids) =>
      if req in s.resolved then s
      else if ids == [] then
        s.(resolved := s.resolved[req := ids], completions := s.completions + [Completion(req, NO_ERROR)])
      else
        s.(resolved := s.resolved[req := ids], deps := s.deps[req := |ids|], tokens := s.tokens + NewTokens(req, ids))
    case Register(t) =>
      if t in s.tokens && s.tokens[t].ToRegister? then
        s.(tokens := s.tokens[t := PlaceFor(s.store, s.tokens[t].id)])
      else s
    case Run(t) => if t in s.tokens && s.tokens[t].InFlight? then RunToken(s, t, s.tokens[t].err) else s
    case Add(id) => if id in s.store then s else s.(store := s.store[id := Detail(false, false, NO_ERROR)])
    case Put(id) => if id in s.store then s.(store := s.store[id := s.store[id].(stored := true)]) else s
    case SetReady(id) =>
      if id in s.store && !s.store[id].ready then
        s.(store := s.store[id := s.store[id].(ready := true)], tokens := Release(s.tokens, id, NO_ERROR))
      else s
    case SetError(id, err) =>
      if id in s.store && !s.store[id].ready && !err.OK() then
        s.(store := s.store[id := s.store[id].(ready := true, err := err)], tokens := Release(s.tokens, id, err))
      else s
  }

  function Exec(s: State, steps: seq<Step>): State {
    if steps == [] then s else Next(Exec(s, steps[..|steps| - 1]), steps[|steps| - 1])
  }

  // ------------------------------------------------------------------ what a request should see

  /** The first error delivered to a request, in the order the callbacks ran. */
  function FirstError(fires: seq<Fire>, req: string): ErrorInfo {
    if fires == [] then NO_ERROR
    else
      var before := FirstError(fires[..|fires| - 1], req);
      var last := fires[|fires| - 1];
      if before.OK() && last.token.req == req then last.err else before
  }

  function CompletionsOf(cs: seq<Completion>, req: string): seq<ErrorInfo> {
    if cs == [] then []
    else
      var before := CompletionsOf(cs[..|cs| - 1], req);
      if cs[|cs| - 1].req == req then before + [cs[|cs| - 1].err] else before
  }

  function Outstanding(tokens: map<Token, Place>, req: string): set<Token> {
    set t | t in tokens && t.req == req && !tokens[t].Fired?
  }

  // ----------------------------------------------------------------------------- the invariant

  ghost predicate RequestOk(s: State, req: string) {
    if req !in s.resolved then
      && req !in s.deps && Outstanding(s.tokens, req) == {}
      && CompletionsOf(s.completions, req) == [] && FirstError(s.fires, req) == NO_ERROR
    else if req in s.deps then
      && s.deps[req] == |Outstanding(s.tokens, req)| > 0
      && CompletionsOf(s.completions, req) == [] && FirstError(s.fires, req) == NO_ERROR
    else
      && CompletionsOf(s.completions, req) == [FirstError(s.fires, req)]
      && (FirstError(s.fires, req).OK() ==> FirstError(s.fires, req) == NO_ERROR && Outstanding(s.tokens, req) == {})
  }

  /** A callback the store keeps is for an object that is not settled. */
  ghost predicate PlaceOk(s: State, p: Place) {
    match p
    case Registered(id) => id in s.store && !s.store[id].ready
    case InFlight(err) => err.OK() ==> err == NO_ERROR
    case ToRegister(_) => true
    case Fired => true
  }

  ghost predicate RequestsOk(s: State) {
    forall req :: RequestOk(s, req)
  }

  /** `err` is the error the store recorded for the object behind a token. */
  ghost predicate Recorded(s: State, t: Token, err: ErrorInfo) {
    && t.req in s.resolved && t.index < |s.resolved[t.req]|
    && var id := s.resolved[t.req][t.index]; id in s.store && s.store[id].ready && s.store[id].err == err
  }

  /** Every token is one dependency of a resolved request, and an error under way is a recorded one. */
  ghost predicate TokenOk(s: State, t: Token)
    requires t in s.tokens
  {
    && PlaceOk(s, s.tokens[t])
    && t.req in s.resolved && t.index < |s.resolved[t.req]|
    && (s.tokens[t].ToRegister? || s.tokens[t].Registered? ==> s.tokens[t].id == s.resolved[t.req][t.index])
    && (s.tokens[t].InFlight? && !s.tokens[t].err.OK() ==> Recorded(s, t, s.tokens[t].err))
  }

  ghost predicate TokensOk(s: State) {
    forall t :: t in s.tokens ==> TokenOk(s, t)
  }

  ghost predicate FiresOk(s: State) {
    && (forall i :: 0 <= i < |s.fires| ==> s.fires[i].token in s.tokens && s.tokens[s.fires[i].token].Fired?)
    && (forall i :: 0 <= i < |s.fires| && s.fires[i].err.OK() ==> s.fires[i].err == NO_ERROR)
    && (forall i, j :: 0 <= i < j < |s.fires| ==> s.fires[i].token != s.fires[j].token)
    && (forall i :: 0 <= i < |s.fires| && !s.fires[i].err.OK() ==> Recorded(s, s.fires[i].token, s.fires[i].err))
  }

  ghost predicate StoreOk(s: State) {
    forall id :: id in s.store && !s.store[id].ready ==> s.store[id].err == NO_ERROR
  }

  ghost predicate Inv(s: State) {
    RequestsOk(s) && TokensOk(s) && FiresOk(s) && StoreOk(s)
  }

  lemma NewTokensCount(req: string, ids: seq<Id>)
    ensures Outstanding(NewTokens(req, ids), req) == Tokens(req, |ids|)
    ensures |Outstanding(NewTokens(req, ids), req)| == |ids|
  {
  }

  lemma ResolveKeepsRequest(s: State, req: string, ids: seq<Id>, r: string)
    requires RequestOk(s, req) && RequestOk(s, r) && req !in s.resolved
    requires forall t :: t in s.tokens ==> t.req != req
    ensures RequestOk(Next(s, Resolve(req, ids)), r)
  {
    if ids == [] {
      ResolveNoneKeepsRequest(s, req, r);
    } else {
      ResolveSomeKeepsRequest(s, req, ids, r);
    }
  }

  lemma ResolveNoneKeepsRequest(s: State, req: string, r: string)
    requires RequestOk(s, req) && RequestOk(s, r) && req !in s.resolved
    ensures RequestOk(Next(s, Resolve(req, [])), r)
  {
    hide FirstError, Outstanding, CompletionsOf;
    CompletionsAppend(s.completions, Completion(req, NO_ERROR), r);
  }

  lemma ResolveSomeKeepsRequest(s: State, req: string, ids: seq<Id>, r: string)
    requires RequestOk(s, req) && RequestOk(s, r) && req !in s.resolved && ids != []
    requires forall t :: t in s.tokens ==> t.req != req
    ensures RequestOk(Next(s, Resolve(req, ids)), r)
  {
    hide FirstError, CompletionsOf;
    OutstandingAdds(s, req, ids, r);
    hide Outstanding, NewTokens;
  }

  lemma OutstandingAdds(s: State, req: string, ids: seq<Id>, r: string)
    requires forall t :: t in s.tokens ==> t.req != req
    ensures r != req ==> Outstanding(s.tokens + NewTokens(req, ids), r) == Outstanding(s.tokens, r)
    ensures |Outstanding(s.tokens + NewTokens(req, ids), req)| == |ids|
  {
    NewTokensCount(req, ids);
    assert forall t :: t in NewTokens(req, ids) ==> t.req == req;
    hide Outstanding, NewTokens;
    OutstandingOwn(s.tokens, NewTokens(req, ids), req);
    if r != req { OutstandingOther(s.tokens, NewTokens(req, ids), req, r); }
  }

  lemma OutstandingOwn(tokens: map<Token, Place>, added: map<Token, Place>, req: string)
    requires forall t :: t in tokens ==> t.req != req
    ensures Outstanding(tokens + added, req) == Outstanding(added, req)
  {
  }

  lemma OutstandingOther(tokens: map<Token, Place>, added: map<Token, Place>, req: string, r: string)
    requires r != req && forall t :: t in added ==> t.req == req
    ensures Outstanding(tokens + added, r) == Outstanding(tokens, r)
  {
  }

  lemma NobodyHasTokens(s: State, req: string)
    requires TokensOk(s) && req !in s.resolved
    ensures forall t :: t in s.tokens ==> t.req != req
  {
    forall t | t in s.tokens ensures t.req != req { assert TokenOk(s, t); }
  }

  lemma ResolveKeepsInv(s: State, req: string, ids: seq<Id>)
    requires Inv(s) && req !in s.resolved
    ensures Inv(Next(s, Resolve(req, ids)))
  {
    hide RequestOk, TokensOk, FiresOk;
    var s' := Next(s, Resolve(req, ids));
    NobodyHasTokens(s, req);
    forall r ensures RequestOk(s', r) {
      assert RequestOk(s, req) && RequestOk(s, r);
      ResolveKeepsRequest(s, req, ids, r);
    }
    ResolveKeepsTokens(s, req, ids);
    ResolveKeepsFires(s, req, ids);
  }

  lemma ResolveKeepsFires(s: State, req: string, ids: seq<Id>)
    requires FiresOk(s) && req !in s.resolved && forall t :: t in s.tokens ==> t.req != req
    ensures FiresOk(Next(s, Resolve(req, ids)))
  {
  }

  lemma ResolveKeepsTokens(s: State, req: string, ids: seq<Id>)
    requires TokensOk(s) && req !in s.resolved
    ensures TokensOk(Next(s, Resolve(req, ids)))
  {
    var s' := Next(s, Resolve(req, ids));
    forall t | t in s'.tokens ensures TokenOk(s', t) {
      if t in s.tokens { assert TokenOk(s, t); }
    }
  }

  /** Steps that only move callbacks about concern no request. */
  lemma MoveKeepsRequests(s: State, s': State)
    requires RequestsOk(s)
    requires s' == s.(store := s'.store, tokens := s'.tokens) && s'.tokens.Keys == s.tokens.Keys
    requires forall t :: t in s.tokens ==> (s.tokens[t].Fired? <==> s'.tokens[t].Fired?)
    ensures RequestsOk(s')
  {
    forall r ensures RequestOk(s', r) {
      assert RequestOk(s, r);
      assert Outstanding(s'.tokens, r) == Outstanding(s.tokens, r);
    }
  }

  lemma MoveKeepsToken(s: State, step: Step, t: Token)
    requires StoreOk(s) && t in s.tokens && TokenOk(s, t) && !step.Resolve? && !step.Run?
    ensures t in Next(s, step).tokens && TokenOk(Next(s, step), t)
  {
    hide RunToken, NewTokens;
    match step
    case Register(_) =>
    case SetReady(_) =>
    case SetError(_, _) =>
    case _ =>
  }

  lemma MoveKeepsTokens(s: State, step: Step)
    requires TokensOk(s) && StoreOk(s) && !step.Resolve? && !step.Run?
    ensures TokensOk(Next(s, step)) && StoreOk(Next(s, step))
  {
    hide RunToken, NewTokens;
    var s' := Next(s, step);
    forall t | t in s'.tokens ensures TokenOk(s', t) {
      assert TokenOk(s, t);
      MoveKeepsToken(s, step, t);
    }
    hide TokenOk;
  }

  lemma MoveKeepsFires(s: State, step: Step)
    requires FiresOk(s) && !step.Resolve? && !step.Run?
    ensures FiresOk(Next(s, step))
    ensures var s' := Next(s, step);
      && s' == s.(store := s'.store, tokens := s'.tokens) && s'.tokens.Keys == s.tokens.Keys
      && forall t :: t in s.tokens ==> (s.tokens[t].Fired? <==> s'.tokens[t].Fired?)
  {
  }

  lemma FirstErrorAppend(fires: seq<Fire>, f: Fire, req: string)
    ensures var before := FirstError(fires, req);
      FirstError(fires + [f], req) == if before.OK() && f.token.req == req then f.err else before
  {
    assert (fires + [f])[..|fires|] == fires;
  }

  lemma CompletionsAppend(cs: seq<Completion>, c: Completion, req: string)
    ensures var before := CompletionsOf(cs, req);
      CompletionsOf(cs + [c], req) == if c.req == req then before + [c.err] else before
  {
    assert (cs + [c])[..|cs|] == cs;
  }

  lemma RunKeepsRequest(s: State, t: Token, r: string)
    requires RequestOk(s, r) && t in s.tokens && s.tokens[t].InFlight? && PlaceOk(s, s.tokens[t])
    ensures RequestOk(RunToken(s, t, s.tokens[t].err), r)
  {
    hide FirstError, CompletionsOf;
    var s' := RunToken(s, t, s.tokens[t].err);
    FirstErrorAppend(s.fires, Fire(t, s.tokens[t].err), r);
    if s'.completions != s.completions {
      CompletionsAppend(s.completions, s'.completions[|s.completions|], r);
    }
    if r == t.req {
      assert t in Outstanding(s.tokens, r);
      assert Outstanding(s'.tokens, r) == Outstanding(s.tokens, r) - {t};
    } else {
      assert Outstanding(s'.tokens, r) == Outstanding(s.tokens, r);
    }
  }

  lemma RunKeepsInv(s: State, t: Token)
    requires Inv(s) && t in s.tokens && s.tokens[t].InFlight?
    ensures Inv(RunToken(s, t, s.tokens[t].err))
  {
    var s' := RunToken(s, t, s.tokens[t].err);
    assert TokenOk(s, t);
    forall r ensures RequestOk(s', r) {
      assert RequestOk(s, r);
      RunKeepsRequest(s, t, r);
    }
    forall u | u in s'.tokens ensures TokenOk(s', u) { assert TokenOk(s, u); }
  }

  lemma StepKeepsInv(s: State, step: Step)
    requires Inv(s)
    ensures Inv(Next(s, step))
  {
    if step.Resolve? {
      if step.req !in s.resolved { ResolveKeepsInv(s, step.req, step.ids); }
    } else if step.Run? {
      if step.t in s.tokens && s.tokens[step.t].InFlight? { RunKeepsInv(s, step.t); }
    } else {
      MoveKeepsFires(s, step);
      MoveKeepsTokens(s, step);
      MoveKeepsRequests(s, Next(s, step));
    }
  }

  lemma {:induction false} RunsKeepInv(steps: seq<Step>)
    ensures Inv(Exec(Start(), steps))
  {
    if steps != [] {
      RunsKeepInv(steps[..|steps| - 1]);
      StepKeepsInv(Exec(Start(), steps[..|steps| - 1]), steps[|steps| - 1]);
    } else {
      forall req ensures RequestOk(Start(), req) {}
    }
  }

  // ------------------------------------------------------------------------------ what it means

  /** At most once, and right: in every run, whatever callbacks of whatever requests interleave, a
      request completes at most once; if it does, it is with the first error delivered to it, or with OK
      after every one of its callbacks has run; and no countdown is left behind. */
  lemma CompletesAtMostOnce(steps: seq<Step>, req: string)
    ensures var s := Exec(Start(), steps);
      var done := CompletionsOf(s.completions, req);
      && |done| <= 1
      && (|done| == 1 <==> req in s.resolved && req !in s.deps)
      && (|done| == 1 ==> done[0] == FirstError(s.fires, req))
      && (|done| == 1 && done[0].OK() ==> forall t :: t in s.tokens && t.req == req ==> s.tokens[t].Fired?)
      && (|done| == 0 ==> FirstError(s.fires, req).OK())
  {
    RunsKeepInv(steps);
    var s := Exec(Start(), steps);
    assert RequestOk(s, req);
    forall t | t in s.tokens && t.req == req && !s.tokens[t].Fired? ensures t in Outstanding(s.tokens, req) {}
  }

  /** The `i`-th callback to run is the first of the request that brings an error, and brings `err`. */
  ghost predicate FirstAt(fires: seq<Fire>, req: string, i: int, err: ErrorInfo) {
    && 0 <= i < |fires| && fires[i].token.req == req && fires[i].err == err
    && forall j :: 0 <= j < i && fires[j].token.req == req ==> fires[j].err.OK()
  }

  lemma {:induction false} FirstErrorSpec(fires: seq<Fire>, req: string)
    requires forall i :: 0 <= i < |fires| && fires[i].err.OK() ==> fires[i].err == NO_ERROR
    ensures var first := FirstError(fires, req);
      && (first.OK() ==> first == NO_ERROR)
      && (first.OK() ==> forall i :: 0 <= i < |fires| && fires[i].token.req == req ==> fires[i].err.OK())
      && (!first.OK() ==> exists i :: FirstAt(fires, req, i, first))
  {
    if fires != [] {
      var n := |fires| - 1;
      FirstErrorSpec(fires[..n], req);
      var before := FirstError(fires[..n], req);
      if before.OK() {
        if fires[n].token.req == req && !fires[n].err.OK() {
          assert forall j :: 0 <= j < n ==> fires[..n][j] == fires[j];
          assert FirstAt(fires, req, n, fires[n].err);
        }
      } else {
        var i :| FirstAt(fires[..n], req, i, before);
        assert forall j :: 0 <= j < i ==> fires[..n][j] == fires[j];
        assert FirstAt(fires, req, i, before);
      }
    }
  }

  /** A request that completes with an error completes with the recorded error of one of its objects. */
  lemma ErrorsAreRecorded(steps: seq<Step>, req: string)
    requires !FirstError(Exec(Start(), steps).fires, req).OK()
    ensures var s := Exec(Start(), steps);
      && req in s.resolved
      && exists id :: id in s.resolved[req] && id in s.store && s.store[id].err == FirstError(s.fires, req)
  {
    RunsKeepInv(steps);
    var s := Exec(Start(), steps);
    FirstErrorSpec(s.fires, req);
    var i :| FirstAt(s.fires, req, i, FirstError(s.fires, req));
    var t := s.fires[i].token;
    assert Recorded(s, t, s.fires[i].err);
    assert s.resolved[req][t.index] in s.resolved[req];
  }

  /** Every callback runs at most once. */
  lemma CallbacksRunOnce(steps: seq<Step>, i: nat, j: nat)
    requires i < j < |Exec(Start(), steps).fires|
    ensures Exec(Start(), steps).fires[i].token != Exec(Start(), steps).fires[j].token
  {
    RunsKeepInv(steps);
  }

  /** Exactly once: a resolved request all of whose objects are settled and which has no callback left
      to register or to run has completed. */
  lemma CompletesExactlyOnce(steps: seq<Step>, req: string)
    requires var s := Exec(Start(), steps);
      && req in s.resolved
      && (forall id :: id in s.resolved[req] && id in s.store ==> s.store[id].ready)
      && (forall t :: t in s.tokens && t.req == req ==> !s.tokens[t].ToRegister? && !s.tokens[t].InFlight?)
    ensures var s := Exec(Start(), steps);
      CompletionsOf(s.completions, req) == [FirstError(s.fires, req)] && req !in s.deps
  {
    RunsKeepInv(steps);
    var s := Exec(Start(), steps);
    assert RequestOk(s, req);
    forall t | t in s.tokens && t.req == req ensures s.tokens[t].Fired? {
      assert TokenOk(s, t);
    }
    assert Outstanding(s.tokens, req) == {};
  }

  /** In every run, what a completed request reports is success exactly when every callback of it that has run
      brought success; and then all of them have run. */
  lemma SucceedsIffAllDo(steps: seq<Step>, req: string)
    requires CompletionsOf(Exec(Start(), steps).completions, req) != []
    ensures var s := Exec(Start(), steps);
      var report := CompletionsOf(s.completions, req)[0];
      && (report.OK() <==> forall i :: 0 <= i < |s.fires| && s.fires[i].token.req == req ==> s.fires[i].err.OK())
      && (report.OK() ==> forall t :: t in s.tokens && t.req == req ==> s.tokens[t].Fired?)
  {
    RunsKeepInv(steps);
    CompletesAtMostOnce(steps, req);
    FirstErrorSpec(Exec(Start(), steps).fires, req);
  }

  // -------------------------------------------------------------- success against the store's record

  /** The step registers the callback of `t` and finds its object missing, or stored but not settled: the store then
      runs the callback with success at once, and may record an error later. */
  predicate Early(s: State, step: Step, t: Token) {
    && step == Register(t) && t in s.tokens && s.tokens[t].ToRegister?
    && var id := s.tokens[t].id; id !in s.store || (s.store[id].stored && !s.store[id].ready)
  }

  ghost predicate EverEarly(steps: seq<Step>, t: Token) {
    exists i :: 0 <= i < |steps| && Early(Exec(Start(), steps[..i]), steps[i], t)
  }

  lemma EverEarlyStep(steps: seq<Step>, t: Token)
    requires steps != []
    ensures var n := |steps| - 1;
      EverEarly(steps, t) <==> EverEarly(steps[..n], t) || Early(Exec(Start(), steps[..n]), steps[n], t)
  {
    hide Early, Exec;
    var n := |steps| - 1;
    var front := steps[..n];
    assert forall i :: 0 <= i < n ==> front[..i] == steps[..i] && front[i] == steps[i];
    if i :| 0 <= i < n && Early(Exec(Start(), front[..i]), front[i], t) {
      assert Early(Exec(Start(), steps[..i]), steps[i], t);
    }
    if i :| 0 <= i < |steps| && Early(Exec(Start(), steps[..i]), steps[i], t) {
      if i < n { assert Early(Exec(Start(), front[..i]), front[i], t); }
    }
  }

  /** The object behind a token is settled without error. */
  predicate SettledGood(s: State, t: Token) {
    && t.req in s.resolved && t.index < |s.resolved[t.req]|
    && var id := s.resolved[t.req][t.index]; id in s.store && s.store[id].ready && s.store[id].err.OK()
  }

  predicate FiredAt(s: State, t: Token, i: int) {
    0 <= i < |s.fires| && s.fires[i].token == t
  }

  /** A callback that brings success, or has, was early or has an object settled without error. */
  ghost predicate Fate(s: State, t: Token, early: bool) {
    t in s.tokens ==>
      match s.tokens[t]
      case InFlight(err) => err.OK() ==> early || SettledGood(s, t)
      case Fired => exists i :: FiredAt(s, t, i) && (s.fires[i].err.OK() ==> early || SettledGood(s, t))
      case _ => true
  }

  lemma StepKeepsGood(s: State, step: Step, t: Token)
    requires SettledGood(s, t)
    ensures SettledGood(Next(s, step), t)
  {
  }

  lemma RunKeepsFate(s: State, u: Token, t: Token, early: bool)
    requires Fate(s, t, early)
    ensures Fate(Next(s, Run(u)), t, early)
  {
    var n := Next(s, Run(u));
    if u in s.tokens && s.tokens[u].InFlight? && t in s.tokens {
      if t == u {
        assert FiredAt(n, t, |s.fires|);
        if n.fires[|s.fires|].err.OK() && !early { StepKeepsGood(s, Run(u), t); }
      } else if s.tokens[t].Fired? {
        var i :| FiredAt(s, t, i) && (s.fires[i].err.OK() ==> early || SettledGood(s, t));
        assert FiredAt(n, t, i) && n.fires[i] == s.fires[i];
      }
    }
  }

  lemma RegisterKeepsFate(s: State, u: Token, t: Token, early: bool)
    requires Inv(s) && Fate(s, t, early)
    ensures Fate(Next(s, Register(u)), t, early || Early(s, Register(u), t))
  {
    hide RequestsOk, FiresOk;
    if t in s.tokens { assert TokenOk(s, t); }
  }

  lemma SettleKeepsFate(s: State, step: Step, t: Token, early: bool)
    requires Inv(s) && Fate(s, t, early) && (step.SetReady? || step.SetError? || step.Add? || step.Put?)
    ensures Fate(Next(s, step), t, early)
  {
    hide RequestsOk, FiresOk;
    if t in s.tokens { assert TokenOk(s, t); }
    if SettledGood(s, t) { StepKeepsGood(s, step, t); }
  }

  lemma ResolveKeepsFate(s: State, req: string, ids: seq<Id>, t: Token, early: bool)
    requires Inv(s) && Fate(s, t, early)
    ensures Fate(Next(s, Resolve(req, ids)), t, early)
  {
    hide RequestsOk, FiresOk, StoreOk;
    if t in s.tokens { assert TokenOk(s, t); }
    if SettledGood(s, t) { StepKeepsGood(s, Resolve(req, ids), t); }
  }

  lemma {:induction false} RunDecidesFate(steps: seq<Step>, t: Token)
    ensures Fate(Exec(Start(), steps), t, EverEarly(steps, t))
  {
    if steps != [] {
      var n := |steps| - 1;
      var s, step := Exec(Start(), steps[..n]), steps[n];
      RunDecidesFate(steps[..n], t);
      RunsKeepInv(steps[..n]);
      EverEarlyStep(steps, t);
      StepDecidesFate(s, step, t, EverEarly(steps[..n], t));
    }
  }

  lemma StepDecidesFate(s: State, step: Step, t: Token, early: bool)
    requires Inv(s) && Fate(s, t, early)
    ensures Fate(Next(s, step), t, early || Early(s, step, t))
  {
    hide Inv, Fate, Next;
    match step
    case Run(u) => RunKeepsFate(s, u, t, early);
    case Register(u) => RegisterKeepsFate(s, u, t, early);
    case Resolve(req, ids) => ResolveKeepsFate(s, req, ids, t, early);
    case SetReady(_) => SettleKeepsFate(s, step, t, early);
    case SetError(_, _) => SettleKeepsFate(s, step, t, early);
    case Add(_) => SettleKeepsFate(s, step, t, early);
    case Put(_) => SettleKeepsFate(s, step, t, early);
  }

  /** Exactly: in every run, a step that lets a callback go with success has its object settled without error unless
      it is an early registration. */
  lemma ReleasedGoodIff(steps: seq<Step>, step: Step, t: Token)
    requires var s, n := Exec(Start(), steps), Next(Exec(Start(), steps), step);
      && t in s.tokens && !s.tokens[t].InFlight? && t in n.tokens && n.tokens[t].InFlight? && n.tokens[t].err.OK()
    ensures var s := Exec(Start(), steps); SettledGood(Next(s, step), t) <==> !Early(s, step, t)
  {
    RunsKeepInv(steps);
    ReleaseGoodIff(Exec(Start(), steps), step, t);
  }

  lemma ReleaseGoodIff(s: State, step: Step, t: Token)
    requires Inv(s) && t in s.tokens && !s.tokens[t].InFlight?
    requires var n := Next(s, step); t in n.tokens && n.tokens[t].InFlight? && n.tokens[t].err.OK()
    ensures SettledGood(Next(s, step), t) <==> !Early(s, step, t)
  {
    hide RequestsOk, FiresOk;
    assert TokenOk(s, t);
    match step
    case Register(_) =>
    case SetReady(_) =>
    case _ =>
  }

  lemma {:induction false} TokensExist(steps: seq<Step>, req: string, k: nat)
    requires req in Exec(Start(), steps).resolved && k < |Exec(Start(), steps).resolved[req]|
    ensures Token(req, k) in Exec(Start(), steps).tokens
  {
    hide Next;
    if steps != [] {
      var s, step := Exec(Start(), steps[..|steps| - 1]), steps[|steps| - 1];
      ResolveMakesTokens(s, step, req, k);
      if req in s.resolved { TokensExist(steps[..|steps| - 1], req, k); }
    }
  }

  lemma ResolveMakesTokens(s: State, step: Step, req: string, k: nat)
    requires req in Next(s, step).resolved && k < |Next(s, step).resolved[req]|
    ensures req in s.resolved ==> s.resolved[req] == Next(s, step).resolved[req]
    ensures req !in s.resolved || Token(req, k) in s.tokens ==> Token(req, k) in Next(s, step).tokens
  {
    match step
    case Resolve(r, ids) =>
      if ids != [] && r == req && r !in s.resolved { assert Token(req, k) in NewTokens(req, ids); }
    case SetReady(_) =>
    case SetError(_, _) =>
    case _ =>
  }

  /** In every run a request that reports success has all its objects settled without error in the store, except those
      whose callback was registered when they were missing, or stored but not settled. */
  lemma SuccessIsRecorded(steps: seq<Step>, req: string, k: nat)
    requires var s := Exec(Start(), steps);
      && CompletionsOf(s.completions, req) != [] && CompletionsOf(s.completions, req)[0].OK()
      && req in s.resolved && k < |s.resolved[req]|
    ensures SettledGood(Exec(Start(), steps), Token(req, k)) || EverEarly(steps, Token(req, k))
  {
    var s, t := Exec(Start(), steps), Token(req, k);
    SucceedsIffAllDo(steps, req);
    TokensExist(steps, req, k);
    RunDecidesFate(steps, t);
    hide EverEarly, SettledGood;
    var i :| FiredAt(s, t, i) && (s.fires[i].err.OK() ==> EverEarly(steps, t) || SettledGood(s, t));
    assert s.fires[i].token.req == req;
  }

  /** Such a request can report success and its object fail: the callback is registered before the object is known,
      runs with success, and then the store records an error. */
  lemma EarlySuccessCanMiss(err: ErrorInfo) returns (steps: seq<Step>)
    requires !err.OK()
    ensures var s := Exec(Start(), steps);
      && CompletionsOf(s.completions, "r") == [NO_ERROR] && s.resolved == map["r" := ["a"]]
      && "a" in s.store && s.store["a"].err == err
  {
    hide Next, Exec, CompletionsOf;
    var t := Token("r", 0);
    var s1 := Next(Start(), Resolve("r", ["a"]));
    var s2, s3 := EarlyRun(s1, t);
    var s4, s5 := FailLater(s3, err);
    steps := [Resolve("r", ["a"]), Register(t), Run(t), Add("a"), SetError("a", err)];
    ExecSteps(Start(), steps, [Start(), s1, s2, s3, s4, s5]);
  }

  lemma EarlyRun(s1: State, t: Token) returns (s2: State, s3: State)
    requires t == Token("r", 0) && s1 == Next(Start(), Resolve("r", ["a"]))
    ensures s2 == Next(s1, Register(t)) && s3 == Next(s2, Run(t))
    ensures CompletionsOf(s3.completions, "r") == [NO_ERROR] && s3.resolved == map["r" := ["a"]] && s3.store == map[]
  {
    hide Next, CompletionsOf;
    ResolveOne(s1, t, ["a"]);
    s2 := RegisterOne(s1, t);
    s3 := RunOne(s2, t);
    CompletionsAppend([], Completion("r", NO_ERROR), "r");
    NoCompletions("r");
  }

  lemma ResolveOne(s1: State, t: Token, ids: seq<Id>)
    requires t == Token("r", 0) && ids == ["a"] && s1 == Next(Start(), Resolve("r", ids))
    ensures t in s1.tokens && s1.tokens[t] == ToRegister("a") && s1.deps == map["r" := 1]
    ensures s1.store == map[] && s1.completions == [] && s1.resolved == map["r" := ids]
  {
    hide Tokens;
    assert t in Tokens("r", |ids|);
  }

  lemma RegisterOne(s1: State, t: Token) returns (s2: State)
    requires t in s1.tokens && s1.tokens[t] == ToRegister("a") && s1.store == map[]
    ensures s2 == Next(s1, Register(t)) && s2 == s1.(tokens := s1.tokens[t := InFlight(NO_ERROR)])
  {
    s2 := Next(s1, Register(t));
  }

  lemma RunOne(s2: State, t: Token) returns (s3: State)
    requires t.req == "r" && t in s2.tokens && s2.tokens[t] == InFlight(NO_ERROR)
    requires s2.deps == map["r" := 1] && s2.completions == []
    ensures s3 == Next(s2, Run(t)) && s3.completions == [] + [Completion("r", NO_ERROR)]
    ensures s3.store == s2.store && s3.resolved == s2.resolved
  {
    s3 := Next(s2, Run(t));
  }

  lemma NoCompletions(req: string)
    ensures CompletionsOf([], req) + [NO_ERROR] == [NO_ERROR]
  {
  }

  lemma FailLater(s3: State, err: ErrorInfo) returns (s4: State, s5: State)
    requires s3.store == map[] && !err.OK()
    ensures s4 == Next(s3, Add("a")) && s5 == Next(s4, SetError("a", err))
    ensures s5.completions == s3.completions && s5.resolved == s3.resolved
    ensures "a" in s5.store && s5.store["a"].err == err
  {
    s4 := Next(s3, Add("a"));
    s5 := Next(s4, SetError("a", err));
  }

  lemma {:induction false} ExecSteps(s: State, steps: seq<Step>, states: seq<State>)
    requires |states| == |steps| + 1 && states[0] == s
    requires forall i :: 0 <= i < |steps| ==> states[i + 1] == Next(states[i], steps[i])
    ensures Exec(s, steps) == states[|steps|]
  {
    hide Next;
    if steps != [] {
      var n := |steps| - 1;
      ExecSteps(s, steps[..n], states[..n + 1]);
    }
  }

  // ---------------------------------------------------------------------------------- the class

  datatype InvokeArg = InvokeArg(isRef: bool, objId: Id, nestedObjects: seq<Id>)

  /** The objects a request waits for: references and nested objects in argument order, then the instance. */
  function Dependencies(args: seq<InvokeArg>, instanceId: Option<Id>): seq<Id> {
    ArgObjects(args) + (if instanceId.Some? then [instanceId.value] else [])
  }

  function ArgObjects(args: seq<InvokeArg>): seq<Id> {
    if args == [] then []
    else
      var last := args[|args| - 1];
      ArgObjects(args[..|args| - 1]) + (if last.isRef then [last.objId] else []) + last.nestedObjects
  }

  /** Callbacks that run during registration, in order. */
  function Immediate(deps: Pending, req: string, answers: seq<Option<ErrorInfo>>): (Pending, seq<ErrorInfo>) {
    if answers == [] then (deps, [])
    else
      var (d, done) := Immediate(deps, req, answers[..|answers| - 1]);
      match answers[|answers| - 1]
      case None => (d, done)
      case Some(err) =>
        var (d', c) := Countdown(d, req, err);
        (d', if c.Some? then done + [c.value] else done)
  }

  class Resolver {
    var dependencyState: Pending

    constructor ()
      ensures dependencyState == map[]
    {
      dependencyState := map[];
    }

    /** The registered callback. */
    method OnReady(req: string, err: ErrorInfo) returns (done: Option<ErrorInfo>)
      modifies this
      ensures (dependencyState, done) == Countdown(old(dependencyState), req, err)
    {
      if req !in dependencyState { return None; }
      var remaining := Decremented(dependencyState[req]);
      if remaining == 0 || !err.OK() {
        dependencyState := dependencyState - {req};
        return Some(err);
      }
      dependencyState := dependencyState[req := remaining];
      return None;
    }

    /** `answers` says for each dependency whether the store runs its callback during registration.
        Returns the completions that happen before this returns. */
    method ResolveDependencies(req: string, args: seq<InvokeArg>, instanceId: Option<Id>,
                               answers: seq<Option<ErrorInfo>>) returns (ids: seq<Id>, done: seq<ErrorInfo>)
      requires |answers| == |Dependencies(args, instanceId)|
      modifies this
      ensures ids == Dependencies(args, instanceId)
      ensures ids == [] ==> done == [NO_ERROR] && dependencyState == old(dependencyState)
      ensures ids != [] ==>
        var deps := if req in old(dependencyState) then old(dependencyState) else old(dependencyState)[req := |ids|];
        (dependencyState, done) == Immediate(deps, req, answers)
    {
      ids := [];
      for i := 0 to |args|
        invariant ids == ArgObjects(args[..i])
      {
        assert args[..i + 1][..i] == args[..i];
        if args[i].isRef { ids := ids + [args[i].objId]; }
        ids := ids + args[i].nestedObjects;
      }
      assert args[..|args|] == args;
      if instanceId.Some? { ids := ids + [instanceId.value]; }
      if ids == [] { return ids, [NO_ERROR]; }
      if req !in dependencyState { dependencyState := dependencyState[req := |ids|]; }
      ghost var deps := dependencyState;
      done := [];
      for i := 0 to |ids|
        invariant (dependencyState, done) == Immediate(deps, req, answers[..i])
      {
        assert answers[..i + 1][..i] == answers[..i];
        match answers[i]
        case None =>
        case Some(err) =>
          var c := OnReady(req, err);
          if c.Some? { done := done + [c.value]; }
      }
      assert answers[..|ids|] == answers;
    }
  }
}
