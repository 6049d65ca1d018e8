/**
 Where the protocol does less than its documentation suggests: a panicking handler can fill the
 cache through a prefetch job, and a cancelled follower runs the handler again.
 */
module ProtocolLimits {
  import opened Bytes
  import opened Protocol
  import opened ProtocolInvariant
  import opened ProtocolSafety
  import opened ProtocolTheorems
  import opened ProtocolOnce

  // ---- Responses of panicking handlers ----

  /** The handler of a prefetch job panicked, and what it had written so far passes for storable. */
  predicate Salvages(cfg: Config, r: Request, c: Choice) {
    r.prefetch && c.Ended? && c.outcome.Finish? && !c.outcome.e.complete && WillStore(cfg, r, Recorded(c.outcome.e, r))
  }

  predicate StoresPartial(th: Thread) {
    th.pc.Storing? && !th.pc.e.complete
  }

  /** Only a prefetch job's first Set may concern a partial response. */
  predicate WholeElsewhere(th: Thread) {
    match th.pc
    case Storing(_, e) => th.req.prefetch || e.complete
    case StoringVariant(_, e) => e.complete
    case PassStoring(e) => e.complete
    case PassStoringVariant(e) => e.complete
    case _ => true
  }

  predicate PartialMove(cfg: Config, th: Thread, c: Choice, th': Thread, effect: Effect) {
    && WholeElsewhere(th')
    && (StoresPartial(th') <==> Salvages(cfg, th.req, c))
    && (effect.Put? && !effect.e.complete <==> StoresPartial(th) && c == SetDone(true))
    && (StoresPartial(th) ==> c.SetDone?)
  }

  lemma PartialBefore(cfg: Config, th: Thread, c: Choice, inflight: Option<nat>, next: nat, call: Option<Call>)
    requires BeforeFunction(th.pc)
    ensures var step := StepBefore(cfg, th, c, inflight, next, call);
      step.Some? ==> PartialMove(cfg, th, c, step.value.0, step.value.1)
  {
    hide CoalesceKey, Permitted, Matches;
  }

  lemma PartialLeader(cfg: Config, th: Thread, c: Choice)
    requires LocalOk(cfg, th) && WholeElsewhere(th) && !BeforeFunction(th.pc) && !InPass(th.pc)
    ensures var step := StepLeader(cfg, th, c);
      step.Some? ==> PartialMove(cfg, th, c, step.value.0, step.value.1)
  {
    if th.pc.Removed? && !th.pc.res.panicked { RemovedKeeps(cfg, th); }
    hide CoalesceKey, Permitted, Matches, Storable, Shareable, WillStore, LocalOk, AfterDo;
  }

  lemma PartialPass(cfg: Config, th: Thread, c: Choice)
    requires LocalOk(cfg, th) && WholeElsewhere(th) && InPass(th.pc)
    ensures var step := StepPass(cfg, th, c);
      step.Some? ==> PartialMove(cfg, th, c, step.value.0, step.value.1)
  {
    hide CoalesceKey, Permitted, Matches, Storable, WillStore;
  }

  lemma PartialStep(cfg: Config, th: Thread, c: Choice, inflight: Option<nat>, next: nat, call: Option<Call>)
    requires LocalOk(cfg, th) && WholeElsewhere(th)
    ensures var step := StepThread(cfg, th, c, inflight, next, call);
      step.Some? ==> PartialMove(cfg, th, c, step.value.0, step.value.1)
  {
    hide LocalOk, WholeElsewhere, StepBefore, StepPass, StepLeader, PartialMove;
    if BeforeFunction(th.pc) {
      PartialBefore(cfg, th, c, inflight, next, call);
    } else if InPass(th.pc) {
      PartialPass(cfg, th, c);
    } else {
      PartialLeader(cfg, th, c);
    }
  }

  ghost predicate PartialStored(s: State) {
    exists k, e :: e in EverSet(s, k) && !e.complete
  }

  /** A partial response is in the store or about to be. */
  ghost predicate PartialKept(s: State) {
    PartialStored(s) || exists t :: 0 <= t < |s.threads| && StoresPartial(s.threads[t])
  }

  ghost predicate AllWhole(s: State) {
    forall t :: 0 <= t < |s.threads| ==> WholeElsewhere(s.threads[t])
  }

  lemma PartialEver(s: State, s': State, t: nat, effect: Effect)
    requires forall k :: EverSet(s', k) == EverSet(ApplyEffect(s, t, effect), k)
    ensures PartialStored(s') <==> PartialStored(s) || (effect.Put? && !effect.e.complete)
  {
    hide EverSet, ApplyEffect;
    forall k { EverAfter(s, t, effect, k); }
    if effect.Put? && !effect.e.complete {
      assert effect.e in EverSet(s', effect.k);
    }
    if PartialStored(s) {
      var k, e :| e in EverSet(s, k) && !e.complete;
      assert e in EverSet(s', k);
    }
  }

  lemma PartialThreads(s: State, s': State, cfg: Config, t: nat, c: Choice, th': Thread, effect: Effect)
    requires t < |s.threads| && s'.threads == s.threads[t := th'] && AllWhole(s)
    requires PartialMove(cfg, s.threads[t], c, th', effect) && (cfg.reliable && c.SetDone? ==> c.ok)
    requires PartialStored(s') <==> PartialStored(s) || (effect.Put? && !effect.e.complete)
    ensures AllWhole(s') && (PartialKept(s') ==> PartialKept(s) || Salvages(cfg, s.threads[t].req, c))
    ensures cfg.reliable ==> (PartialKept(s) || Salvages(cfg, s.threads[t].req, c) ==> PartialKept(s'))
  {
    hide StoresPartial, WholeElsewhere, Salvages, PartialStored;
    assert s'.threads[t] == th';
    if u :| 0 <= u < |s.threads| && StoresPartial(s.threads[u]) {
      if u != t { assert StoresPartial(s'.threads[u]); }
    }
    if u :| 0 <= u < |s'.threads| && StoresPartial(s'.threads[u]) {
      if u != t { assert StoresPartial(s.threads[u]); }
    }
  }

  lemma PartialEvent(cfg: Config, s: State, ev: Event)
    requires Inv(cfg, s) && AllWhole(s) && Step(cfg, s, ev).Some?
    ensures var s' := Step(cfg, s, ev).value;
      && AllWhole(s')
      && (PartialKept(s') ==> PartialKept(s) || Salvages(cfg, s.threads[ev.t].req, ev.choice))
      && (cfg.reliable ==> (PartialKept(s) || Salvages(cfg, s.threads[ev.t].req, ev.choice) ==> PartialKept(s')))
  {
    var th', effect := StepMoves(cfg, s, ev);
    var s', th := Step(cfg, s, ev).value, s.threads[ev.t];
    assert LocalOk(cfg, th) && WholeElsewhere(th);
    PartialStep(cfg, th, ev.choice, InflightOf(cfg, s, th), |s.objs|, WaitedOn(s, th));
    assert s'.threads == s.threads[ev.t := th'] && s'.ever == ApplyEffect(s, ev.t, effect).ever;
    hide Inv, AllWhole, LocalOk, WholeElsewhere, PartialMove, StepThread, EffectFits, Salvages, PartialKept;
    hide PartialStored, ApplyEffect;
    PartialEver(s, s', ev.t, effect);
    PartialThreads(s, s', cfg, ev.t, ev.choice, th', effect);
  }

  /** Some prefetch job's handler panicked in the run and left what passes for a storable response. */
  predicate Salvaged(cfg: Config, requests: seq<Request>, events: seq<Event>) {
    exists i ::
      0 <= i < |events| && events[i].t < |requests| && Salvages(cfg, requests[events[i].t], events[i].choice)
  }

  /**
   Over every run and with any store, a partial response is stored (or about to be) only if some
   prefetch job's handler panicked and left what passes for a storable response; and with a reliable
   store, exactly then.
   */
  lemma {:induction false} PartialStoredIff(cfg: Config, requests: seq<Request>, events: seq<Event>)
    requires Run(cfg, Start(requests), events).Some?
    ensures var s := Run(cfg, Start(requests), events).value;
      && AllWhole(s)
      && (PartialKept(s) ==> Salvaged(cfg, requests, events))
      && (cfg.reliable ==> (Salvaged(cfg, requests, events) ==> PartialKept(s)))
    decreases |events|
  {
    hide Salvages, PartialKept, AllWhole, Step;
    if events == [] {
      StartWhole(requests);
    } else {
      var prefix, last := events[..|events| - 1], events[|events| - 1];
      PartialStoredIff(cfg, requests, prefix);
      RunInv(cfg, requests, prefix);
      RequestsFixed(cfg, requests, prefix);
      var s := Run(cfg, Start(requests), prefix).value;
      PartialEvent(cfg, s, last);
      EventInRange(cfg, s, last);
      hide Inv, Run, Start;
      RunStep(cfg, requests, events);
      if i :| 0 <= i < |prefix| && prefix[i].t < |requests| && Salvages(cfg, requests[prefix[i].t], prefix[i].choice) {
        assert events[i] == prefix[i];
      }
      if i :| 0 <= i < |events| && events[i].t < |requests| && Salvages(cfg, requests[events[i].t], events[i].choice) {
        if i < |prefix| { assert prefix[i] == events[i]; }
      }
    }
  }

  lemma EventInRange(cfg: Config, s: State, ev: Event)
    requires Step(cfg, s, ev).Some?
    ensures ev.t < |s.threads|
  {
  }

  lemma StartWhole(requests: seq<Request>)
    ensures AllWhole(Start(requests)) && !PartialKept(Start(requests))
  {
  }

  // ---- Cancelled followers ----

  /** A request that is cancelled while it waits can always go on to run the handler itself. */
  lemma CancelledRunsHandler(cfg: Config, requests: seq<Request>, events: seq<Event>, s: State, t: nat)
    requires Reached(cfg, requests, events, s) && t < |s.threads|
    requires s.threads[t].pc.Waiting? && !s.threads[t].req.prefetch
    ensures var s' := Step(cfg, s, Event(t, Cancel));
      s'.Some? && s'.value.threads[t].pc == PassRunning && s'.value.threads[t].runs == 1
  {
    RunInv(cfg, requests, events);
    assert LocalOk(cfg, s.threads[t]);
    hide Inv, CoalesceKey, StepPass, StepLeader;
  }

  // ---- Concrete runs ----

  /** One more step of a run, with its plan worked out. */
  lemma Then(cfg: Config, s0: State, events: seq<Event>, s: State, ev: Event, th': Thread, effect: Effect)
    requires Run(cfg, s0, events) == Some(s)
    requires ev.t < |s.threads| && Allowed(cfg, s, s.threads[ev.t], ev.choice)
    requires Plan(cfg, s, s.threads[ev.t], ev.choice) == Some((th', effect))
    ensures Run(cfg, s0, events + [ev]) == Some(ApplyEffect(s, ev.t, effect).(threads := s.threads[ev.t := th']))
  {
    hide Plan, ApplyEffect, Allowed;
    assert (events + [ev])[..|events|] == events;
  }

  function JoinedTo(r: Request): Thread {
    NewThread(r).(pc := Join)
  }

  function Leading(r: Request, id: nat): Thread {
    NewThread(r).(pc := Check(id), isLeader := true)
  }

  function Ran(r: Request, id: nat, e: Entry): Thread {
    var th := StartRun(Leading(r, id), id);
    if r.prefetch then th.(pc := Storing(id, e))
    else th.(recorder := Buffered, leaderEntry := Some(e), pc := Storing(id, e))
  }

  function Filled(r: Request, id: nat, e: Entry): Thread {
    Ran(r, id, e).(stored := true, pc := Finishing(id, e))
  }

  function OpenCall(r: Request): Call {
    Call(Shared(r.key), 0, None, NoError, false)
  }

  /** The events by which the first thread leads, runs the handler and stores e. */
  function FillEvents(e: Entry): seq<Event> {
    [Event(0, Got(None)), Event(0, Tick), Event(0, Got(None)), Event(0, Ended(Finish(e))), Event(0, SetDone(true))]
  }

  predicate CanLead(cfg: Config, r: Request) {
    CoalesceKey(cfg, r) == Some(Shared(r.key)) && (r.prefetch || !r.noCache)
  }

  lemma LeadRun(cfg: Config, r: Request, x: Request)
    requires CanLead(cfg, r)
    ensures Run(cfg, Start([r, x]), [Event(0, Got(None)), Event(0, Tick), Event(0, Got(None))]) ==
      Some(State(map[], map[Shared(r.key) := 0], [OpenCall(r)], [StartRun(Leading(r, 0), 0), NewThread(x)]))
  {
    var s, X := Start([r, x]), NewThread(x);
    assert s.threads == [NewThread(r), X];
    assert Run(cfg, s, []) == Some(s);
    Then(cfg, s, [], s, Event(0, Got(None)), JoinedTo(r), NoEffect);
    assert [] + [Event(0, Got(None))] == [Event(0, Got(None))];
    assert [NewThread(r), X][0 := JoinedTo(r)] == [JoinedTo(r), X];
    var s1 := State(map[], map[], [], [JoinedTo(r), X]);
    Then(cfg, s, [Event(0, Got(None))], s1, Event(0, Tick), Leading(r, 0), NewCall(Shared(r.key)));
    assert [Event(0, Got(None))] + [Event(0, Tick)] == [Event(0, Got(None)), Event(0, Tick)];
    assert [JoinedTo(r), X][0 := Leading(r, 0)] == [Leading(r, 0), X] && [] + [OpenCall(r)] == [OpenCall(r)];
    var s2 := State(map[], map[Shared(r.key) := 0], [OpenCall(r)], [Leading(r, 0), X]);
    Then(cfg, s, [Event(0, Got(None)), Event(0, Tick)], s2, Event(0, Got(None)), StartRun(Leading(r, 0), 0), NoEffect);
    assert [Event(0, Got(None)), Event(0, Tick)] + [Event(0, Got(None))] ==
      [Event(0, Got(None)), Event(0, Tick), Event(0, Got(None))];
    assert [Leading(r, 0), X][0 := StartRun(Leading(r, 0), 0)] == [StartRun(Leading(r, 0), 0), X];
  }

  lemma RunPlan(cfg: Config, s: State, r: Request, e: Entry)
    requires WillStore(cfg, r, e) && e.vary == NoVary && e.recorded == {} && (r.prefetch || e.complete)
    ensures Plan(cfg, s, StartRun(Leading(r, 0), 0), Ended(Finish(e))) == Some((Ran(r, 0, e), NoEffect))
  {
    assert Recorded(e, r) == e;
    hide WillStore, CoalesceKey, Recorded, InflightOf, WaitedOn;
  }

  lemma StorePlan(cfg: Config, s: State, r: Request, e: Entry)
    requires e.vary == NoVary
    ensures Plan(cfg, s, Ran(r, 0, e), SetDone(true)) == Some((Filled(r, 0, e), Effect.Put(Primary(r.key), e)))
  {
    hide WillStore, CoalesceKey, InflightOf, WaitedOn;
  }

  /** Whatever the other request is, the first thread can fill the cache with its response. */
  lemma FillRun(cfg: Config, r: Request, x: Request, e: Entry)
    requires CanLead(cfg, r) && WillStore(cfg, r, e) && e.vary == NoVary && e.recorded == {}
    requires r.prefetch || e.complete
    ensures Run(cfg, Start([r, x]), FillEvents(e)) ==
      Some(State(map[Primary(r.key) := {e}], map[Shared(r.key) := 0], [OpenCall(r)], [Filled(r, 0, e), NewThread(x)]))
  {
    var s, X := Start([r, x]), NewThread(x);
    var led := [Event(0, Got(None)), Event(0, Tick), Event(0, Got(None))];
    LeadRun(cfg, r, x);
    hide Start, Run, CoalesceKey, Plan, StartRun, Ran, Filled, WillStore, Leading;
    var s3 := State(map[], map[Shared(r.key) := 0], [OpenCall(r)], [StartRun(Leading(r, 0), 0), X]);
    RunPlan(cfg, s3, r, e);
    Then(cfg, s, led, s3, Event(0, Ended(Finish(e))), Ran(r, 0, e), NoEffect);
    assert [StartRun(Leading(r, 0), 0), X][0 := Ran(r, 0, e)] == [Ran(r, 0, e), X];
    var s4 := s3.(threads := [Ran(r, 0, e), X]);
    StorePlan(cfg, s4, r, e);
    assert EverSet(s4, Primary(r.key)) == {} && {} + {e} == {e};
    var put := Effect.Put(Primary(r.key), e);
    Then(cfg, s, led + [Event(0, Ended(Finish(e)))], s4, Event(0, SetDone(true)), Filled(r, 0, e), put);
    assert [Ran(r, 0, e), X][0 := Filled(r, 0, e)] == [Filled(r, 0, e), X];
    assert led + [Event(0, Ended(Finish(e)))] + [Event(0, SetDone(true))] == FillEvents(e);
  }

  const R := Request(0, 0, false, false, false, false, map[], false)
  const CFG := Config({}, false, true)

  /** Two coalescable requests for one key, the second cancelled while it waits: two runs at once. */
  lemma TwoRunsAfterCancel()
    ensures var events := [Event(0, Got(None)), Event(0, Tick), Event(0, Got(None)),
                           Event(1, Got(None)), Event(1, Tick), Event(1, Cancel)];
      var s := Run(CFG, Start([R, R]), events);
      s.Some? && s.value.threads[0].runs == 1 && s.value.threads[1].runs == 1
  {
    var led := [Event(0, Got(None)), Event(0, Tick), Event(0, Got(None))];
    var s, L, X := Start([R, R]), StartRun(Leading(R, 0), 0), NewThread(R);
    var J, W := JoinedTo(R), JoinedTo(R).(pc := Waiting(0));
    LeadRun(CFG, R, R);
    hide Start, Run;
    var s3 := State(map[], map[Shared(0) := 0], [OpenCall(R)], [L, X]);
    Then(CFG, s, led, s3, Event(1, Got(None)), J, NoEffect);
    assert [L, X][1 := J] == [L, J];
    var s4 := s3.(threads := [L, J]);
    assert InflightOf(CFG, s4, J) == Some(0);
    Then(CFG, s, led + [Event(1, Got(None))], s4, Event(1, Tick), W, NoEffect);
    assert [L, J][1 := W] == [L, W];
    var s5 := s3.(threads := [L, W]);
    Then(CFG, s, led + [Event(1, Got(None))] + [Event(1, Tick)], s5, Event(1, Cancel), StartPass(W), NoEffect);
    assert led + [Event(1, Got(None))] + [Event(1, Tick)] + [Event(1, Cancel)] ==
      [Event(0, Got(None)), Event(0, Tick), Event(0, Got(None)), Event(1, Got(None)), Event(1, Tick), Event(1, Cancel)];
  }

  const JOB := R.(prefetch := true)

  /** What the recorder of a job shows when the handler panicked before it wrote anything: 200, no body. */
  const NOTHING_WRITTEN := Entry(200, false, false, false, false, NoVary, {}, [], false)

  /** A prefetch job whose handler panics before writing fills the cache with an empty 200 response. */
  lemma PanicFillsCache()
    ensures var s := Run(CFG, Start([JOB, R]), FillEvents(NOTHING_WRITTEN));
      s.Some? && NOTHING_WRITTEN in EverSet(s.value, Primary(0)) && PartialStored(s.value)
  {
    FillRun(CFG, JOB, R, NOTHING_WRITTEN);
    hide Start, Run;
    var s := Run(CFG, Start([JOB, R]), FillEvents(NOTHING_WRITTEN)).value;
    assert NOTHING_WRITTEN in EverSet(s, Primary(0)) && !NOTHING_WRITTEN.complete;
  }
}
