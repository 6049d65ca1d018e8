/**
 Coalesced followers and Vary: a follower is handed an entry without a Vary check of its own, so the
 entry fits it exactly when it sent what the request that produced it sent for the headers in Vary.
 */
module ProtocolVary {
  import opened Bytes
  import opened Protocol
  import opened ProtocolInvariant
  import opened ProtocolSafety
  import opened ProtocolTheorems
  import opened ProtocolLimits
  import opened ProtocolOrigin

  /** What the thread stores or shares fits its own request; what it was served came from its call. */
  predicate VaryOk(th: Thread) {
    match th.pc
    case Storing(_, e) => Matches(e, th.req)
    case StoringVariant(_, e) => Matches(e, th.req)
    case Finishing(_, e) => Matches(e, th.req)
    case Returned(_, res) => OwnMatch(th.req, res)
    case Removed(_, res) => OwnMatch(th.req, res)
    case Done(Coalesced(e)) => th.got.Some? ==> th.got.value.1 == Result(Some(e), NoError, false)
    case _ => true
  }

  predicate OwnMatch(r: Request, res: Result) {
    !r.prefetch && res.err == NoError && res.entry.Some? ==> Matches(res.entry.value, r)
  }

  lemma RecordedMatches(e: Entry, r: Request)
    ensures e.vary != Star ==> Matches(Recorded(e, r), r)
  {
    if e.vary.Fields? {
      var sig := Signature(e.vary.names, r);
      forall c | c in sig
        ensures HeaderValue(r, c.0) == c.1
      {
        var i :| 0 <= i < |sig| && sig[i] == c;
      }
    }
  }

  lemma StorableNotStar(e: Entry)
    ensures Storable(e) ==> e.vary != Star
    ensures forall r :: Recorded(e, r).vary == e.vary
  {
  }

  lemma BeforeVary(cfg: Config, th: Thread, c: Choice, inflight: Option<nat>, next: nat, call: Option<Call>)
    requires LocalOk(cfg, th) && BeforeFunction(th.pc)
    ensures var step := StepBefore(cfg, th, c, inflight, next, call);
      step.Some? ==> VaryOk(step.value.0)
  {
    hide CoalesceKey, Permitted, Matches, Storable;
  }

  lemma LeaderVary(cfg: Config, th: Thread, c: Choice)
    requires LocalOk(cfg, th) && VaryOk(th) && !BeforeFunction(th.pc) && !InPass(th.pc)
    ensures var step := StepLeader(cfg, th, c);
      step.Some? ==> VaryOk(step.value.0)
  {
    if c.Ended? && c.outcome.Finish? {
      RecordedMatches(c.outcome.e, th.req);
      StorableNotStar(c.outcome.e);
      WillStoreStorable(cfg, th.req, Recorded(c.outcome.e, th.req));
    }
    hide CoalesceKey, Permitted, Matches, Storable, WillStore, Recorded, Shareable;
  }

  lemma WillStoreStorable(cfg: Config, r: Request, e: Entry)
    ensures WillStore(cfg, r, e) ==> e.vary != Star
  {
  }

  lemma PassVary(cfg: Config, th: Thread, c: Choice)
    requires InPass(th.pc)
    ensures var step := StepPass(cfg, th, c);
      step.Some? ==> VaryOk(step.value.0)
  {
    hide CoalesceKey, Permitted, Matches, Storable, WillStore, Recorded;
  }

  /** What a call shares fits the request of the leader that made it. */
  predicate CallFits(s: State, call: Call) {
    call.leader < |s.threads| &&
    (call.err == NoError && call.entry.Some? && !s.threads[call.leader].req.prefetch ==>
       Matches(call.entry.value, s.threads[call.leader].req))
  }

  ghost predicate VaryInv(s: State) {
    && (forall t :: 0 <= t < |s.threads| ==> VaryOk(s.threads[t]))
    && (forall id :: 0 <= id < |s.objs| ==> CallFits(s, s.objs[id]))
  }

  lemma ThreadVary(cfg: Config, s: State, ev: Event, th': Thread)
    requires Inv(cfg, s) && VaryInv(s) && Step(cfg, s, ev).Some?
    requires Plan(cfg, s, s.threads[ev.t], ev.choice).value.0 == th'
    ensures VaryOk(th')
  {
    var th, c := s.threads[ev.t], ev.choice;
    assert LocalOk(cfg, th) && VaryOk(th);
    hide Inv, VaryInv, LocalOk, VaryOk, StepBefore, StepPass, StepLeader, Allowed, ApplyEffect, InflightOf, WaitedOn;
    if BeforeFunction(th.pc) {
      BeforeVary(cfg, th, c, InflightOf(cfg, s, th), |s.objs|, WaitedOn(s, th));
    } else if InPass(th.pc) {
      PassVary(cfg, th, c);
    } else {
      LeaderVary(cfg, th, c);
    }
  }

  lemma CallsVary(cfg: Config, s: State, t: nat, th': Thread, effect: Effect, s': State, id: nat)
    requires Inv(cfg, s) && VaryInv(s) && Moves(cfg, s, t, th', effect, s') && VaryOk(th') && id < |s'.objs|
    ensures CallFits(s', s'.objs[id])
  {
    var th := s.threads[t];
    MovesThreads(cfg, s, t, th', effect, s');
    assert th'.req == th.req;
    if id < |s.objs| {
      assert CallFits(s, s.objs[id]);
      CallIdentity(cfg, s, t, th', effect, s', id);
      if LeaderCall(th.pc).Some? { LeaderIs(cfg, s, t); }
    }
    hide Inv, VaryInv, LocalOk, Matches, Storable, CoalesceKey, QuietMove, InflightOf, WaitedOn;
  }

  lemma StepVary(cfg: Config, s: State, ev: Event)
    requires Inv(cfg, s) && VaryInv(s) && Step(cfg, s, ev).Some?
    ensures VaryInv(Step(cfg, s, ev).value)
  {
    var th', effect := StepMoves(cfg, s, ev);
    var s' := Step(cfg, s, ev).value;
    hide Inv, Step, Plan, Moves, CallFits, VaryOk;
    ThreadVary(cfg, s, ev, th');
    MovesThreads(cfg, s, ev.t, th', effect, s');
    forall id | 0 <= id < |s'.objs|
      ensures CallFits(s', s'.objs[id])
    {
      CallsVary(cfg, s, ev.t, th', effect, s', id);
    }
  }

  lemma {:induction false} RunVary(cfg: Config, requests: seq<Request>, events: seq<Event>)
    requires Run(cfg, Start(requests), events).Some?
    ensures VaryInv(Run(cfg, Start(requests), events).value)
    decreases |events|
  {
    if events != [] {
      var prefix, last := events[..|events| - 1], events[|events| - 1];
      hide VaryInv, Step, Start;
      RunInv(cfg, requests, prefix);
      RunVary(cfg, requests, prefix);
      StepVary(cfg, Run(cfg, Start(requests), prefix).value, last);
    }
  }

  /**
   The leader of a request's call satisfies what it shares itself, so its follower satisfies it exactly
   when it sent, for every recorded header, what the leader sent.
   */
  lemma FollowerLikeLeaderIff(cfg: Config, requests: seq<Request>, events: seq<Event>, s: State, t: nat)
    requires Reached(cfg, requests, events, s) && t < |s.threads| && s.threads[t].got.Some?
    requires s.threads[t].pc.Done? && s.threads[t].pc.d.Coalesced?
    ensures var (e, id) := (s.threads[t].pc.d.e, s.threads[t].got.value.0);
      && id < |s.objs| && s.objs[id].leader < |s.threads|
      && (!s.threads[s.objs[id].leader].req.prefetch ==>
            (Matches(e, s.threads[t].req) <==>
               forall c :: c in e.recorded ==>
                 HeaderValue(s.threads[t].req, c.0) == HeaderValue(s.threads[s.objs[id].leader].req, c.0)))
  {
    hide Run, Start, VaryInv, HeaderValue, Storable, VaryOk, CallFits, Matches;
    RunVary(cfg, requests, events);
    FollowerGotPublished(cfg, requests, events, s, t);
    DeliveryPolicy(cfg, requests, events, s, t);
    var e, id := s.threads[t].pc.d.e, s.threads[t].got.value.0;
    ServedFits(s, t, id, e);
    StorableNotStar(e);
    if !s.threads[s.objs[id].leader].req.prefetch {
      MatchAlike(e, s.threads[t].req, s.threads[s.objs[id].leader].req);
    }
  }

  lemma ServedFits(s: State, t: nat, id: nat, e: Entry)
    requires VaryInv(s) && t < |s.threads| && id < |s.objs| && s.threads[t].pc == Done(Coalesced(e))
    requires s.threads[t].got == Some((id, Result(s.objs[id].entry, s.objs[id].err, false)))
    ensures s.objs[id].leader < |s.threads|
    ensures !s.threads[s.objs[id].leader].req.prefetch ==> Matches(e, s.threads[s.objs[id].leader].req)
  {
    assert VaryOk(s.threads[t]) && CallFits(s, s.objs[id]);
    hide VaryInv, Matches;
  }

  /** If one request matches an entry, another does exactly when it sends the same recorded headers. */
  lemma MatchAlike(e: Entry, r: Request, leader: Request)
    requires Matches(e, leader)
    ensures Matches(e, r) <==> forall c :: c in e.recorded ==> HeaderValue(r, c.0) == HeaderValue(leader, c.0)
  {
    hide HeaderValue;
  }

  // ---- Against the request that produced the entry ----

  /** The two requests sent the same for every header in the entry's Vary. */
  predicate SentAlike(e: Entry, r: Request, p: Request) {
    e.vary.Fields? ==> forall n :: n in e.vary.names ==> HeaderValue(r, n) == HeaderValue(p, n)
  }

  lemma MatchesProducerIff(e0: Entry, p: Request, r: Request)
    requires e0.vary != Star
    ensures Matches(Recorded(e0, p), r) <==> SentAlike(Recorded(e0, p), r, p)
  {
    var e := Recorded(e0, p);
    if e0.vary.Fields? {
      var names, sig := e0.vary.names, Signature(e0.vary.names, p);
      hide HeaderValue;
      if Matches(e, r) {
        forall n | n in names
          ensures HeaderValue(r, n) == HeaderValue(p, n)
        {
          var i :| 0 <= i < |names| && names[i] == n;
          assert sig[i] == (n, HeaderValue(p, n)) && sig[i] in sig && sig[i] in e.recorded;
        }
      }
      if SentAlike(e, r, p) {
        forall c | c in e.recorded
          ensures HeaderValue(r, c.0) == c.1
        {
          var i :| 0 <= i < |sig| && sig[i] == c;
          assert names[i] in names;
        }
      }
    }
  }

  lemma ProducerDecides(cfg: Config, requests: seq<Request>, events: seq<Event>, i: nat, k: Key, e: Entry, r: Request)
    requires ProducedAt(cfg, requests, events, i, k, e)
    ensures i < |events| && events[i].t < |requests|
    ensures Matches(e, r) <==> SentAlike(e, r, requests[events[i].t])
  {
    var p, c := requests[events[i].t], events[i].choice;
    WillStoreStorable(cfg, p, e);
    StorableNotStar(c.outcome.e);
    MatchesProducerIff(c.outcome.e, p, r);
    hide Recorded, WillStore, Matches, SentAlike;
  }

  /**
   The entry a request is handed by a call, whoever led it, prefetch jobs included, was produced by a
   request or job for the same key; it satisfies the request's own Vary check exactly when the request
   sent what any such producer sent for the headers in Vary.
   */
  lemma FollowerMatchIff(cfg: Config, requests: seq<Request>, events: seq<Event>, s: State, t: nat) returns (i: nat)
    requires Reached(cfg, requests, events, s) && t < |s.threads|
    requires s.threads[t].pc.Done? && s.threads[t].pc.d.Coalesced?
    ensures ProducedAt(cfg, requests, events, i, s.threads[t].req.key, s.threads[t].pc.d.e)
    ensures var r, e := s.threads[t].req, s.threads[t].pc.d.e;
      forall j: nat :: ProducedAt(cfg, requests, events, j, r.key, e) ==>
        (Matches(e, r) <==> SentAlike(e, r, requests[events[j].t]))
  {
    hide Run, Start, ProducedAt, Matches, SentAlike;
    i := DeliveredWasProduced(cfg, requests, events, s, t);
    var r, e := s.threads[t].req, s.threads[t].pc.d.e;
    forall j: nat | ProducedAt(cfg, requests, events, j, r.key, e)
      ensures j < |events| && events[j].t < |requests|
      ensures Matches(e, r) <==> SentAlike(e, r, requests[events[j].t])
    {
      ProducerDecides(cfg, requests, events, j, r.key, e, r);
    }
  }

  // ---- A run in which the entry does not fit the follower ----

  const NAME: Bytes := [110]
  const FIRST := R.(header := map[NAME := [2]])
  const SECOND := R.(header := map[NAME := [3]])
  const VARIED := Entry(200, false, false, false, false, Fields([NAME], false), {}, [], true)
  const SHARED := VARIED.(recorded := {(NAME, [2])})
  const RESULT := Result(Some(SHARED), NoError, false)
  const STORED := Ran(FIRST, 0, SHARED).(stored := true)

  lemma SharedFacts()
    ensures Recorded(VARIED, FIRST) == SHARED && WillStore(CFG, FIRST, SHARED) && !Matches(SHARED, SECOND)
    ensures CanLead(CFG, FIRST) && CanLead(CFG, SECOND) && FIRST.key == SECOND.key == 0
  {
    var sig := Signature([NAME], FIRST);
    assert |sig| == 1 && sig[0] == (NAME, [2]) && sig[0] in sig;
    var recorded := set c | c in sig :: c;
    assert forall c :: c in recorded <==> c in sig;
    assert recorded == {(NAME, [2])};
    assert (NAME, [2]) in SHARED.recorded && HeaderValue(SECOND, NAME) == [3];
  }

  lemma FollowerPlans(s: State)
    ensures Plan(CFG, s, NewThread(SECOND), Got(None)) == Some((JoinedTo(SECOND), NoEffect))
    ensures Shared(0) in s.calls && s.calls[Shared(0)] == 0 ==>
      Plan(CFG, s, JoinedTo(SECOND), Tick) == Some((JoinedTo(SECOND).(pc := Waiting(0)), NoEffect))
    ensures |s.objs| == 1 && s.objs[0].done && s.objs[0].entry == Some(SHARED) && s.objs[0].err == NoError ==>
      Plan(CFG, s, JoinedTo(SECOND).(pc := Waiting(0)), Tick) ==
        Some((Send(JoinedTo(SECOND).(got := Some((0, RESULT))), Coalesced(SHARED)), NoEffect))
  {
    SharedFacts();
    hide Recorded, WillStore, Matches;
  }

  lemma LeaderPlans(s: State)
    ensures Plan(CFG, s, StartRun(Leading(FIRST, 0), 0), Ended(Finish(VARIED))) ==
      Some((Ran(FIRST, 0, SHARED), NoEffect))
    ensures Plan(CFG, s, Ran(FIRST, 0, SHARED), SetDone(true)) ==
      Some((STORED.(pc := StoringVariant(0, SHARED)), Effect.Put(Primary(0), SHARED)))
    ensures Plan(CFG, s, STORED.(pc := StoringVariant(0, SHARED)), SetDone(true)) ==
      Some((STORED.(pc := Finishing(0, SHARED)), Effect.Put(VariantOf(SHARED, FIRST), SHARED)))
  {
    SharedFacts();
    hide Recorded, WillStore, Matches, InflightOf, WaitedOn, CoalesceKey;
  }

  lemma ClosePlans(s: State)
    ensures Plan(CFG, s, STORED.(pc := Finishing(0, SHARED)), Tick) ==
      Some((STORED.(pc := Returned(0, RESULT)), Assign(0, Some(SHARED), NoError)))
    ensures Plan(CFG, s, STORED.(pc := Returned(0, RESULT)), Tick) ==
      Some((STORED.(pc := Removed(0, RESULT)), Delete(Shared(0))))
    ensures Plan(CFG, s, STORED.(pc := Removed(0, RESULT)), Tick) ==
      Some((Send(STORED, Coalesced(SHARED)), Close(0, false)))
  {
    SharedFacts();
    hide Recorded, WillStore, Matches, InflightOf, WaitedOn;
  }

  /** The follower joins while the handler runs for the leader. */
  const JOINED :=
    [Event(0, Got(None)), Event(0, Tick), Event(0, Got(None))] + [Event(1, Got(None))] + [Event(1, Tick)]

  lemma JoinRun() returns (s: State)
    ensures Run(CFG, Start([FIRST, SECOND]), JOINED) == Some(s) && |s.threads| == 2 && |s.objs| == 1
    ensures s.threads[0] == StartRun(Leading(FIRST, 0), 0) && s.threads[1] == JoinedTo(SECOND).(pc := Waiting(0))
    ensures s.objs[0].err == NoError && s.objs[0].entry == None && !s.objs[0].done
  {
    SharedFacts();
    LeadRun(CFG, FIRST, SECOND);
    hide Run, Start, Plan, CanLead, CoalesceKey;
    var s0, led := Start([FIRST, SECOND]), [Event(0, Got(None)), Event(0, Tick), Event(0, Got(None))];
    var s1 := Run(CFG, s0, led).value;
    FollowerPlans(s1);
    Then(CFG, s0, led, s1, Event(1, Got(None)), JoinedTo(SECOND), NoEffect);
    var s2 := s1.(threads := s1.threads[1 := JoinedTo(SECOND)]);
    FollowerPlans(s2);
    Then(CFG, s0, led + [Event(1, Got(None))], s2, Event(1, Tick), JoinedTo(SECOND).(pc := Waiting(0)), NoEffect);
    s := s2.(threads := s2.threads[1 := JoinedTo(SECOND).(pc := Waiting(0))]);
  }

  /** The leader's thread takes a step, and the follower goes on waiting for the one call. */
  lemma LeaderThen(events: seq<Event>, s: State, c: Choice, th: Thread, effect: Effect) returns (s': State)
    requires Run(CFG, Start([FIRST, SECOND]), events) == Some(s) && |s.threads| == 2 && |s.objs| == 1
    requires Allowed(CFG, s, s.threads[0], c) && Plan(CFG, s, s.threads[0], c) == Some((th, effect))
    requires !effect.NewCall?
    ensures Run(CFG, Start([FIRST, SECOND]), events + [Event(0, c)]) == Some(s') && |s'.threads| == 2 && |s'.objs| == 1
    ensures s'.threads[0] == th && s'.threads[1] == s.threads[1]
    ensures s'.objs[0] == ApplyEffect(s, 0, effect).objs[0]
  {
    hide Run, Start, Plan, Allowed;
    Then(CFG, Start([FIRST, SECOND]), events, s, Event(0, c), th, effect);
    s' := ApplyEffect(s, 0, effect).(threads := s.threads[0 := th]);
  }

  const PUBLISHED :=
    JOINED + [Event(0, Ended(Finish(VARIED)))] + [Event(0, SetDone(true))] + [Event(0, SetDone(true))]
      + [Event(0, Tick)] + [Event(0, Tick)] + [Event(0, Tick)]

  lemma PublishRun() returns (s: State)
    ensures Run(CFG, Start([FIRST, SECOND]), PUBLISHED) == Some(s) && |s.threads| == 2 && |s.objs| == 1
    ensures s.threads[1] == JoinedTo(SECOND).(pc := Waiting(0))
    ensures s.objs[0].err == NoError && s.objs[0].entry == Some(SHARED) && s.objs[0].done
  {
    hide Run, Start, Plan;
    var s0 := JoinRun();
    LeaderPlans(s0);
    var s1 := LeaderThen(JOINED, s0, Ended(Finish(VARIED)), Ran(FIRST, 0, SHARED), NoEffect);
    var run1 := JOINED + [Event(0, Ended(Finish(VARIED)))];
    LeaderPlans(s1);
    var s2 := LeaderThen(run1, s1, SetDone(true), STORED.(pc := StoringVariant(0, SHARED)),
      Effect.Put(Primary(0), SHARED));
    LeaderPlans(s2);
    var s3 := LeaderThen(run1 + [Event(0, SetDone(true))], s2, SetDone(true), STORED.(pc := Finishing(0, SHARED)),
                         Effect.Put(VariantOf(SHARED, FIRST), SHARED));
    s := CloseRun(run1 + [Event(0, SetDone(true))] + [Event(0, SetDone(true))], s3);
  }

  lemma CloseRun(events: seq<Event>, s3: State) returns (s: State)
    requires Run(CFG, Start([FIRST, SECOND]), events) == Some(s3) && |s3.threads| == 2 && |s3.objs| == 1
    requires s3.threads[0] == STORED.(pc := Finishing(0, SHARED))
    ensures Run(CFG, Start([FIRST, SECOND]), events + [Event(0, Tick)] + [Event(0, Tick)] + [Event(0, Tick)]) == Some(s)
    ensures |s.threads| == 2 && |s.objs| == 1 && s.threads[1] == s3.threads[1]
    ensures s.objs[0].err == NoError && s.objs[0].entry == Some(SHARED) && s.objs[0].done
  {
    hide Run, Start, Plan;
    ClosePlans(s3);
    var s4 := LeaderThen(events, s3, Tick, STORED.(pc := Returned(0, RESULT)), Assign(0, Some(SHARED), NoError));
    ClosePlans(s4);
    var s5 := LeaderThen(events + [Event(0, Tick)], s4, Tick, STORED.(pc := Removed(0, RESULT)), Delete(Shared(0)));
    ClosePlans(s5);
    s := LeaderThen(events + [Event(0, Tick)] + [Event(0, Tick)], s5, Tick, Send(STORED, Coalesced(SHARED)),
      Close(0, false));
  }

  /**
   Two unauthenticated requests for one key differ in a header, the second joins the first one's call,
   and the response varies on that header: the second is handed the first one's response.
   */
  lemma FollowerMismatched()
    ensures var s := Run(CFG, Start([FIRST, SECOND]), PUBLISHED + [Event(1, Tick)]);
      && s.Some? && |s.value.threads| == 2 && s.value.threads[1].pc == Done(Coalesced(SHARED))
      && s.value.threads[1].req == SECOND && !Matches(SHARED, SECOND)
  {
    SharedFacts();
    hide Run, Start, Plan, Matches;
    var s := PublishRun();
    FollowerPlans(s);
    Then(CFG, Start([FIRST, SECOND]), PUBLISHED, s, Event(1, Tick),
         Send(JoinedTo(SECOND).(got := Some((0, RESULT))), Coalesced(SHARED)), NoEffect);
  }
}
