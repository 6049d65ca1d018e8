/**
 What the handler's own run decides: a request that ran the handler is answered with exactly the response
 the handler returned in that run, be it storable or not, shared or not; a stream stays a stream, and a
 panic answers nothing.
 */
module ProtocolOutcome {
  import opened Bytes
  import opened Protocol
  import opened ProtocolInvariant
  import opened ProtocolSafety
  import opened ProtocolTheorems
  import opened ProtocolOnce

  /** How the handler ended for thread t, if it did, by the events alone. */
  function Ran(events: seq<Event>, t: nat): Option<Outcome> {
    if events == [] then None
    else
      var ev := events[|events| - 1];
      if ev.t == t && ev.choice.Ended? then Some(ev.choice.outcome) else Ran(events[..|events| - 1], t)
  }

  lemma {:induction false} RanAt(events: seq<Event>, t: nat)
    ensures Ran(events, t).Some? ==>
      exists i :: 0 <= i < |events| && events[i].t == t && events[i].choice == Ended(Ran(events, t).value)
    ensures (exists i :: 0 <= i < |events| && events[i].t == t && events[i].choice.Ended?) ==> Ran(events, t).Some?
    decreases |events|
  {
    if events != [] {
      var last := |events| - 1;
      RanAt(events[..last], t);
      if Ran(events, t).Some? && !(events[last].t == t && events[last].choice.Ended?) {
        var i :| 0 <= i < last && events[..last][i].t == t && events[..last][i].choice == Ended(Ran(events, t).value);
        assert events[i] == events[..last][i];
      }
      if i :| 0 <= i < |events| && events[i].t == t && events[i].choice.Ended? {
        assert i == last || events[..last][i] == events[i];
      }
    }
  }

  // ---- One thread ----

  /** The response as the run ends with it: the handler's, and the request's values of the headers in Vary. */
  predicate IsRun(r: Request, ran: Option<Outcome>, e: Entry) {
    ran.Some? && ran.value.Finish? && e == Recorded(ran.value.e, r)
  }

  /** The leader's function returned: it shares what it ran, or only keeps it, streamed, panicked, or never ran. */
  predicate ReturnFits(th: Thread, res: Result, ran: Option<Outcome>) {
    match ran
    case None => !res.panicked && th.recorder == NoRecorder && th.leaderEntry == None && SharesEntry(res)
    case Some(Panic(streamed)) => res.panicked && th.heads == if streamed then 1 else 0
    case Some(Stream) => !res.panicked && th.recorder == Streamed
    case Some(Finish(e0)) =>
      && !res.panicked && th.recorder == Buffered && th.leaderEntry == Some(Recorded(e0, th.req))
      && (SharesEntry(res) ==> res.entry == th.leaderEntry)
  }

  predicate DoneFits(th: Thread, d: Delivery, ran: Option<Outcome>) {
    match ran
    case None => d.Hit? || d.Coalesced?
    case Some(Panic(_)) => false
    case Some(Stream) => d == Streaming
    case Some(Finish(e0)) => d == Own(Recorded(e0, th.req)) || d == Coalesced(Recorded(e0, th.req))
  }

  /** Where a request stands agrees with how its handler ended, if it did. */
  predicate Fits(th: Thread, ran: Option<Outcome>) {
    th.req.prefetch ||
    match th.pc
    case Lookup => ran == None
    case LookupVariant(_) => ran == None
    case Join => ran == None
    case Waiting(_) => ran == None
    case Check(_) => ran == None
    case CheckVariant(_, _) => ran == None
    case Running(_) => ran == None
    case PassRunning => ran == None
    case Storing(_, e) => IsRun(th.req, ran, e) && th.recorder == Buffered && th.leaderEntry == Some(e)
    case StoringVariant(_, e) => IsRun(th.req, ran, e) && th.recorder == Buffered && th.leaderEntry == Some(e)
    case Finishing(_, e) => IsRun(th.req, ran, e) && th.recorder == Buffered && th.leaderEntry == Some(e)
    case PassStoring(e) => IsRun(th.req, ran, e)
    case PassStoringVariant(e) => IsRun(th.req, ran, e)
    case Returned(_, res) => ReturnFits(th, res, ran)
    case Removed(_, res) => ReturnFits(th, res, ran)
    case Done(d) => DoneFits(th, d, ran)
    case Panicked => ran.Some? && ran.value.Panic? && th.heads == if ran.value.streamed then 1 else 0
  }

  function NextRan(c: Choice, ran: Option<Outcome>): Option<Outcome> {
    if c.Ended? then Some(c.outcome) else ran
  }

  lemma BeforeFits(cfg: Config, th: Thread, c: Choice, inflight: Option<nat>, next: nat, call: Option<Call>,
                   ran: Option<Outcome>)
    requires LocalOk(cfg, th) && BeforeFunction(th.pc) && Fits(th, ran)
    ensures var step := StepBefore(cfg, th, c, inflight, next, call);
      step.Some? ==> Fits(step.value.0, NextRan(c, ran))
  {
    hide CoalesceKey, Permitted, Matches, Storable, Recorded;
  }

  lemma LeaderFits(cfg: Config, th: Thread, c: Choice, ran: Option<Outcome>)
    requires LocalOk(cfg, th) && !BeforeFunction(th.pc) && !InPass(th.pc) && Fits(th, ran)
    ensures var step := StepLeader(cfg, th, c);
      step.Some? ==> Fits(step.value.0, NextRan(c, ran))
  {
    hide CoalesceKey, Permitted, Matches, Storable, WillStore, Recorded, Shareable, StoreKeyOf;
  }

  lemma PassFits(cfg: Config, th: Thread, c: Choice, ran: Option<Outcome>)
    requires LocalOk(cfg, th) && InPass(th.pc) && Fits(th, ran) && !th.req.prefetch
    ensures var step := StepPass(cfg, th, c);
      step.Some? ==> Fits(step.value.0, NextRan(c, ran))
  {
    hide CoalesceKey, Permitted, Matches, Storable, WillStore, Recorded, StoreKeyOf;
  }

  lemma StepFits(cfg: Config, th: Thread, c: Choice, inflight: Option<nat>, next: nat, call: Option<Call>,
                 ran: Option<Outcome>)
    requires LocalOk(cfg, th) && Fits(th, ran)
    ensures var step := StepThread(cfg, th, c, inflight, next, call);
      step.Some? ==> step.value.0.req == th.req ==> Fits(step.value.0, NextRan(c, ran))
  {
    hide StepBefore, StepLeader, StepPass;
    if th.req.prefetch {
    } else if BeforeFunction(th.pc) {
      BeforeFits(cfg, th, c, inflight, next, call, ran);
    } else if InPass(th.pc) {
      PassFits(cfg, th, c, ran);
    } else {
      LeaderFits(cfg, th, c, ran);
    }
  }

  // ---- Whole runs ----

  lemma {:induction false} RunFits(cfg: Config, requests: seq<Request>, events: seq<Event>, t: nat)
    requires Run(cfg, Start(requests), events).Some? && t < |requests|
    ensures var s := Run(cfg, Start(requests), events).value;
      t < |s.threads| && s.threads[t].req == requests[t] && Fits(s.threads[t], Ran(events, t))
    decreases |events|
  {
    RequestsFixed(cfg, requests, events);
    if events != [] {
      var prefix, ev := events[..|events| - 1], events[|events| - 1];
      RunStep(cfg, requests, events);
      RunInv(cfg, requests, prefix);
      RunFits(cfg, requests, prefix, t);
      var s := Run(cfg, Start(requests), prefix).value;
      hide Run, Start, Inv, Step, Fits, Plan;
      var th', effect := StepMoves(cfg, s, ev);
      MovesThreads(cfg, s, ev.t, th', effect, Step(cfg, s, ev).value);
      if ev.t == t {
        OwnFits(cfg, s, ev, th', effect, Ran(prefix, t));
      }
    }
  }

  lemma OwnFits(cfg: Config, s: State, ev: Event, th': Thread, effect: Effect, ran: Option<Outcome>)
    requires Inv(cfg, s) && ev.t < |s.threads| && Fits(s.threads[ev.t], ran)
    requires Plan(cfg, s, s.threads[ev.t], ev.choice) == Some((th', effect)) && th'.req == s.threads[ev.t].req
    ensures Fits(th', NextRan(ev.choice, ran))
  {
    var th := s.threads[ev.t];
    assert LocalOk(cfg, th);
    hide Inv, StepThread, LocalOk, Fits, InflightOf, WaitedOn;
    StepFits(cfg, th, ev.choice, InflightOf(cfg, s, th), |s.objs|, WaitedOn(s, th), ran);
  }

  /**
   A finished request that ran the handler is sent what the handler returned in that run, recorded with the
   request's own headers, whether it was stored, shared or neither; one whose handler streamed was sent the
   stream; and one that did not run it got a hit or a shared entry.
   */
  lemma OwnRunDecides(cfg: Config, requests: seq<Request>, events: seq<Event>, s: State, t: nat)
    requires Reached(cfg, requests, events, s) && t < |requests| && !requests[t].prefetch
    ensures t < |s.threads|
    ensures s.threads[t].pc.Done? ==>
      match Ran(events, t)
      case None => s.threads[t].pc.d.Hit? || s.threads[t].pc.d.Coalesced?
      case Some(Finish(e0)) =>
        var e := Recorded(e0, requests[t]); s.threads[t].pc.d == Own(e) || s.threads[t].pc.d == Coalesced(e)
      case Some(Stream) => s.threads[t].pc.d == Streaming
      case Some(Panic(_)) => false
    ensures s.threads[t].pc.Panicked? ==> Ran(events, t).Some? && Ran(events, t).value.Panic?
    ensures s.threads[t].pc.Panicked? ==> s.threads[t].heads == if Ran(events, t).value.streamed then 1 else 0
  {
    RunFits(cfg, requests, events, t);
    hide Run, Start, Recorded, Ran;
  }

  /** A response of its own that a request is sent is the one its handler run ended with. */
  lemma OwnIsReturned(cfg: Config, requests: seq<Request>, events: seq<Event>, s: State, t: nat)
      returns (i: nat, e0: Entry)
    requires Reached(cfg, requests, events, s) && t < |requests| && !requests[t].prefetch
    requires t < |s.threads| && s.threads[t].pc.Done? && s.threads[t].pc.d.Own?
    ensures i < |events| && events[i] == Event(t, Ended(Finish(e0)))
    ensures s.threads[t].pc.d.e == Recorded(e0, requests[t])
    ensures s.threads[t].pc.d.e.status == e0.status && s.threads[t].pc.d.e.body == e0.body
  {
    OwnRunDecides(cfg, requests, events, s, t);
    RanAt(events, t);
    e0 := Ran(events, t).value.e;
    i :| 0 <= i < |events| && events[i].t == t && events[i].choice == Ended(Ran(events, t).value);
  }

  // ---- What a request that did not run the handler was given ----

  /** The lookup gives e: the primary entry has no Vary, the variant was found, or it stood in for the variant. */
  predicate GivesHit(th: Thread, c: Choice, e: Entry) {
    match th.pc
    case Lookup => c == Got(Some(e)) && !e.vary.Fields?
    case LookupVariant(p) => c == Got(Some(e)) || (c == Got(None) && p == e)
    case _ => false
  }

  /** So does the re-check, or the closed call that was waited for. */
  predicate GivesShared(th: Thread, c: Choice, call: Option<Call>, e: Entry) {
    match th.pc
    case Check(_) => c == Got(Some(e)) && !e.vary.Fields?
    case CheckVariant(_, p) => c == Got(Some(e)) || (c == Got(None) && p == e)
    case Waiting(_) =>
      c == Tick && call.Some? && call.value.done && call.value.err == NoError && call.value.entry == Some(e)
    case _ => false
  }

  /** An entry a leader returns with, or has, without having run the handler. */
  predicate Shares(th: Thread, e: Entry) {
    match th.pc
    case Returned(_, res) => res.err == NoError && res.entry == Some(e)
    case Removed(_, res) => res.err == NoError && res.entry == Some(e)
    case Done(d) => d == Coalesced(e)
    case _ => false
  }

  lemma HitGiven(cfg: Config, th: Thread, c: Choice, inflight: Option<nat>, next: nat, call: Option<Call>, e: Entry)
    ensures var step := StepThread(cfg, th, c, inflight, next, call);
      step.Some? && step.value.0.pc == Done(Hit(e)) ==>
        GivesHit(th, c, e) && Matches(e, th.req) && Permitted(cfg, th.req, e)
  {
    hide CoalesceKey, Permitted, Matches, Storable, WillStore, Recorded, StoreKeyOf;
    if BeforeFunction(th.pc) {
      hide StepLeader, StepPass;
    } else {
      hide StepBefore, GivesHit;
    }
  }

  lemma SharedGiven(cfg: Config, th: Thread, c: Choice, inflight: Option<nat>, next: nat, call: Option<Call>, e: Entry)
    requires LocalOk(cfg, th) && !th.req.prefetch && !Shares(th, e)
    ensures var step := StepThread(cfg, th, c, inflight, next, call);
      step.Some? && step.value.0.runs == 0 && Shares(step.value.0, e) ==> GivesShared(th, c, call, e)
  {
    hide CoalesceKey, Permitted, Matches, Storable, WillStore, Recorded, StoreKeyOf, Shareable;
  }

  /** Event i is a step of thread t; s is the state before it. */
  ghost predicate StepOf(cfg: Config, requests: seq<Request>, events: seq<Event>, i: nat, t: nat, s: State) {
    i < |events| && events[i].t == t && Run(cfg, Start(requests), events[..i]) == Some(s) && t < |s.threads|
  }

  lemma StepOfPrefix(cfg: Config, requests: seq<Request>, events: seq<Event>, i: nat, t: nat, s: State)
    requires events != [] && StepOf(cfg, requests, events[..|events| - 1], i, t, s)
    ensures StepOf(cfg, requests, events, i, t, s)
  {
    assert events[..|events| - 1][..i] == events[..i];
    hide Run, Start;
  }

  /** A hit was given by a lookup of the request, of that very entry, which matches and is permitted. */
  lemma {:induction false} HitWasFound(cfg: Config, requests: seq<Request>, events: seq<Event>, s: State, t: nat,
                                       e: Entry) returns (i: nat, s0: State)
    requires Reached(cfg, requests, events, s) && t < |s.threads| && s.threads[t].pc == Done(Hit(e))
    ensures StepOf(cfg, requests, events, i, t, s0) && GivesHit(s0.threads[t], events[i].choice, e)
    ensures var r := s.threads[t].req;
      && e.vary != Star && (forall c :: c in e.recorded ==> (if c.0 in r.header then r.header[c.0] else []) == c.1)
      && (!r.auth || r.key in cfg.publicKeys || e.pub)
    decreases |events|
  {
    HasEvents(cfg, requests, events, s, t);
    hide Run, Start, Inv, Step, Plan, GivesHit, Permitted;
    var prefix, ev := events[..|events| - 1], events[|events| - 1];
    RunStep(cfg, requests, events);
    s0 := Run(cfg, Start(requests), prefix).value;
    RunInv(cfg, requests, prefix);
    var th', effect := StepMoves(cfg, s0, ev);
    MovesThreads(cfg, s0, ev.t, th', effect, s);
    if ev.t == t && s0.threads[t].pc != Done(Hit(e)) {
      i := |events| - 1;
      PlanGives(cfg, s0, t, ev.choice, th', effect, e);
    } else {
      i, s0 := HitWasFound(cfg, requests, prefix, s0, t, e);
      StepOfPrefix(cfg, requests, events, i, t, s0);
    }
  }

  lemma HasEvents(cfg: Config, requests: seq<Request>, events: seq<Event>, s: State, t: nat)
    requires Reached(cfg, requests, events, s) && t < |s.threads| && s.threads[t].pc != Lookup
    ensures events != []
  {
    NotAtStart(requests, t);
    hide Start, Step;
  }

  lemma LocalThread(cfg: Config, s: State, t: nat)
    requires Inv(cfg, s) && t < |s.threads|
    ensures LocalOk(cfg, s.threads[t])
  {
    hide LocalOk;
  }

  lemma NotAtStart(requests: seq<Request>, t: nat)
    ensures t < |requests| ==> Start(requests).threads[t].pc == Lookup
    ensures |Start(requests).threads| == |requests|
  {
  }

  lemma PlanGives(cfg: Config, s: State, t: nat, c: Choice, th': Thread, effect: Effect, e: Entry)
    requires t < |s.threads| && Plan(cfg, s, s.threads[t], c) == Some((th', effect))
    ensures th'.pc == Done(Hit(e)) ==>
      GivesHit(s.threads[t], c, e) && Matches(e, s.threads[t].req) && Permitted(cfg, s.threads[t].req, e)
  {
    var th := s.threads[t];
    HitGiven(cfg, th, c, InflightOf(cfg, s, th), |s.objs|, WaitedOn(s, th), e);
    hide StepThread, InflightOf, WaitedOn, GivesHit, Matches, Permitted;
  }

  lemma PlanShares(cfg: Config, s: State, t: nat, c: Choice, th': Thread, effect: Effect, e: Entry)
    requires t < |s.threads| && Plan(cfg, s, s.threads[t], c) == Some((th', effect))
    requires LocalOk(cfg, s.threads[t]) && !s.threads[t].req.prefetch && !Shares(s.threads[t], e)
    ensures th'.runs == 0 && Shares(th', e) ==> GivesShared(s.threads[t], c, WaitedOn(s, s.threads[t]), e)
  {
    var th := s.threads[t];
    SharedGiven(cfg, th, c, InflightOf(cfg, s, th), |s.objs|, WaitedOn(s, th), e);
    hide StepThread, InflightOf, WaitedOn, GivesShared, Shares, LocalOk;
  }

  lemma RunsOnlyGrow(cfg: Config, s: State, t: nat, c: Choice, th': Thread, effect: Effect)
    requires t < |s.threads| && Plan(cfg, s, s.threads[t], c) == Some((th', effect))
    ensures s.threads[t].runs <= th'.runs
  {
    hide CoalesceKey, Permitted, Matches, Storable, WillStore, Recorded, StoreKeyOf, InflightOf, WaitedOn;
  }

  lemma {:induction false} SharedSince(cfg: Config, requests: seq<Request>, events: seq<Event>, s: State, t: nat,
                                       e: Entry) returns (i: nat, s0: State)
    requires Reached(cfg, requests, events, s) && t < |s.threads| && !s.threads[t].req.prefetch
    requires s.threads[t].runs == 0 && Shares(s.threads[t], e)
    ensures StepOf(cfg, requests, events, i, t, s0)
    ensures GivesShared(s0.threads[t], events[i].choice, WaitedOn(s0, s0.threads[t]), e)
    decreases |events|
  {
    assert s.threads[t].pc != Lookup;
    HasEvents(cfg, requests, events, s, t);
    hide Run, Start, Inv, Plan, GivesShared, Shares, LocalOk, WaitedOn;
    var prefix, ev := events[..|events| - 1], events[|events| - 1];
    RunStep(cfg, requests, events);
    s0 := Run(cfg, Start(requests), prefix).value;
    RunInv(cfg, requests, prefix);
    assert ev.t < |s0.threads|;
    hide Step;
    LocalThread(cfg, s0, ev.t);
    var th', effect := StepMoves(cfg, s0, ev);
    MovesThreads(cfg, s0, ev.t, th', effect, s);
    RunsOnlyGrow(cfg, s0, ev.t, ev.choice, th', effect);
    if ev.t == t && !Shares(s0.threads[t], e) {
      i := |events| - 1;
      PlanShares(cfg, s0, t, ev.choice, th', effect, e);
    } else {
      i, s0 := SharedSince(cfg, requests, prefix, s0, t, e);
      StepOfPrefix(cfg, requests, events, i, t, s0);
    }
  }

  /**
   A shared entry that a request was sent without having run the handler is the very one that its re-check
   found, or that the closed call it waited for held.
   */
  lemma SharedWasGiven(cfg: Config, requests: seq<Request>, events: seq<Event>, s: State, t: nat, e: Entry)
      returns (i: nat, s0: State)
    requires Reached(cfg, requests, events, s) && t < |s.threads| && !s.threads[t].req.prefetch
    requires s.threads[t].runs == 0 && s.threads[t].pc == Done(Coalesced(e))
    ensures StepOf(cfg, requests, events, i, t, s0)
    ensures GivesShared(s0.threads[t], events[i].choice, WaitedOn(s0, s0.threads[t]), e)
  {
    assert Shares(s.threads[t], e);
    i, s0 := SharedSince(cfg, requests, events, s, t, e);
  }
}
