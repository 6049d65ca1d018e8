/**
 Client directives: exactly which steps answer a request without running the handler for it, and
 what no-cache and no-store make of them. A client no-cache skips the first lookup only, and a client
 no-store does not skip it.
 */
module ProtocolDirectives {
  import opened Bytes
  import opened Protocol
  import opened ProtocolInvariant
  import opened ProtocolSafety
  import opened ProtocolTheorems
  import opened ProtocolOnce
  import opened ProtocolLimits

  /** The request sent every recorded value, and the entry may be shared with it. */
  predicate Usable(cfg: Config, r: Request, e: Entry) {
    && e.vary != Star && (forall c :: c in e.recorded ==> (if c.0 in r.header then r.header[c.0] else []) == c.1)
    && (!r.auth || r.key in cfg.publicKeys || e.pub)
  }

  lemma UsableIs(cfg: Config, r: Request, e: Entry)
    ensures Usable(cfg, r, e) <==> Matches(e, r) && Permitted(cfg, r, e)
  {
  }

  // ---- The steps that answer a request ----

  /** The lookup, of the primary entry or of its variant, finds something usable. */
  predicate LookupAnswers(cfg: Config, th: Thread, c: Choice) {
    match (th.pc, c)
    case (Lookup, Got(Some(e))) => !th.req.noCache && !e.vary.Fields? && Usable(cfg, th.req, e)
    case (LookupVariant(p), Got(found)) => Usable(cfg, th.req, if found.Some? then found.value else p)
    case _ => false
  }

  /** The leader's re-check finds something usable, or the call waited for shares an entry. */
  predicate CallAnswers(cfg: Config, th: Thread, c: Choice, call: Option<Call>) {
    match (th.pc, c)
    case (Check(_), Got(Some(e))) => !e.vary.Fields? && Usable(cfg, th.req, e)
    case (CheckVariant(_, p), Got(found)) => Usable(cfg, th.req, if found.Some? then found.value else p)
    case (Waiting(_), Tick) => call.Some? && call.value.done && call.value.err == NoError && call.value.entry.Some?
    case _ => false
  }

  /** The request has its answer from the lookup, or from a call, and the handler has not run for it. */
  predicate HasHit(th: Thread) {
    th.pc.Done? && th.pc.d.Hit?
  }

  predicate HasShared(th: Thread) {
    th.runs == 0 && !HasHit(th) && (th.pc.Returned? || th.pc.Removed? || th.pc.Done?)
  }

  predicate AnswersMove(cfg: Config, th: Thread, c: Choice, call: Option<Call>, th': Thread) {
    && (HasHit(th') <==> HasHit(th) || LookupAnswers(cfg, th, c))
    && (HasShared(th') <==> HasShared(th) || CallAnswers(cfg, th, c, call))
  }

  lemma BeforeAnswers(cfg: Config, th: Thread, c: Choice, inflight: Option<nat>, next: nat, call: Option<Call>)
    requires LocalOk(cfg, th) && !th.req.prefetch && BeforeFunction(th.pc)
    ensures var step := StepBefore(cfg, th, c, inflight, next, call);
      step.Some? ==> AnswersMove(cfg, th, c, call, step.value.0)
  {
    if c.Got? && c.found.Some? { UsableIs(cfg, th.req, c.found.value); }
    if th.pc.LookupVariant? { UsableIs(cfg, th.req, th.pc.primary); }
    hide CoalesceKey, Permitted, Matches, Storable, Usable;
  }

  lemma RecheckAnswers(cfg: Config, th: Thread, id: nat, e: Entry)
    requires !th.req.prefetch && th.runs == 0
    ensures HasShared(Recheck(cfg, th, id, e).0) <==> Usable(cfg, th.req, e)
    ensures !HasHit(Recheck(cfg, th, id, e).0)
  {
    UsableIs(cfg, th.req, e);
    hide Permitted, Matches, Usable;
  }

  lemma LeaderAnswers(cfg: Config, th: Thread, c: Choice, call: Option<Call>)
    requires LocalOk(cfg, th) && !th.req.prefetch && !BeforeFunction(th.pc) && !InPass(th.pc)
    ensures var step := StepLeader(cfg, th, c);
      step.Some? ==> AnswersMove(cfg, th, c, call, step.value.0)
  {
    match (th.pc, c) {
      case (Check(id), Got(Some(e))) => RecheckAnswers(cfg, th, id, e);
      case (CheckVariant(id, p), Got(found)) => RecheckAnswers(cfg, th, id, if found.Some? then found.value else p);
      case _ =>
    }
    hide CoalesceKey, Usable, Storable, Shareable, WillStore, Recorded, Recheck, Permitted;
  }

  lemma PassAnswers(cfg: Config, th: Thread, c: Choice, call: Option<Call>)
    requires LocalOk(cfg, th) && InPass(th.pc)
    ensures var step := StepPass(cfg, th, c);
      step.Some? ==> AnswersMove(cfg, th, c, call, step.value.0)
  {
    hide CoalesceKey, Usable, Storable, WillStore, Recorded, Permitted;
  }

  lemma StepAnswers(cfg: Config, s: State, ev: Event)
    requires Inv(cfg, s) && Step(cfg, s, ev).Some? && !s.threads[ev.t].req.prefetch
    ensures AnswersMove(cfg, s.threads[ev.t], ev.choice, WaitedOn(s, s.threads[ev.t]),
      Step(cfg, s, ev).value.threads[ev.t])
  {
    var th, c := s.threads[ev.t], ev.choice;
    assert LocalOk(cfg, th);
    var th', effect := StepMoves(cfg, s, ev);
    MovesThreads(cfg, s, ev.t, th', effect, Step(cfg, s, ev).value);
    hide Inv, Moves, Step, StepBefore, StepPass, StepLeader, LocalOk, AnswersMove, EffectFits, Allowed;
    hide InflightOf, WaitedOn;
    if BeforeFunction(th.pc) {
      BeforeAnswers(cfg, th, c, InflightOf(cfg, s, th), |s.objs|, WaitedOn(s, th));
    } else if InPass(th.pc) {
      PassAnswers(cfg, th, c, WaitedOn(s, th));
    } else {
      LeaderAnswers(cfg, th, c, WaitedOn(s, th));
    }
  }

  // ---- Over whole runs ----

  lemma LocalAt(cfg: Config, s: State, t: nat)
    requires Inv(cfg, s) && t < |s.threads|
    ensures LocalOk(cfg, s.threads[t])
  {
    hide LocalOk;
  }

  /** Event i of the run is a lookup of thread t that answers it. */
  predicate HitAt(cfg: Config, requests: seq<Request>, events: seq<Event>, i: nat, t: nat) {
    && i < |events| && events[i].t == t
    && match Run(cfg, Start(requests), events[..i])
       case None => false
       case Some(s) => t < |s.threads| && LookupAnswers(cfg, s.threads[t], events[i].choice)
  }

  /** Event i of the run is a re-check, or a wait, of thread t that answers it. */
  predicate SharedAt(cfg: Config, requests: seq<Request>, events: seq<Event>, i: nat, t: nat) {
    && i < |events| && events[i].t == t
    && match Run(cfg, Start(requests), events[..i])
       case None => false
       case Some(s) => t < |s.threads| && CallAnswers(cfg, s.threads[t], events[i].choice, WaitedOn(s, s.threads[t]))
  }

  /** Some lookup in the run answered thread t. */
  ghost predicate AnsweredByLookup(cfg: Config, requests: seq<Request>, events: seq<Event>, t: nat) {
    exists i :: HitAt(cfg, requests, events, i, t)
  }

  /** Some re-check, or wait, in the run answered thread t. */
  ghost predicate AnsweredByCall(cfg: Config, requests: seq<Request>, events: seq<Event>, t: nat) {
    exists i :: SharedAt(cfg, requests, events, i, t)
  }

  lemma AtPrefix(cfg: Config, requests: seq<Request>, events: seq<Event>, i: nat, t: nat)
    requires events != []
    ensures HitAt(cfg, requests, events, i, t) <==>
      HitAt(cfg, requests, events[..|events| - 1], i, t) || (i == |events| - 1 && HitAt(cfg, requests, events, i, t))
    ensures SharedAt(cfg, requests, events, i, t) <==>
      SharedAt(cfg, requests, events[..|events| - 1], i, t) ||
        (i == |events| - 1 && SharedAt(cfg, requests, events, i, t))
  {
    hide Run, LookupAnswers, CallAnswers, WaitedOn, Start;
    if i < |events| - 1 {
      assert events[..|events| - 1][..i] == events[..i];
    }
  }

  lemma {:induction false} RunAnswers(cfg: Config, requests: seq<Request>, events: seq<Event>, t: nat)
    requires Run(cfg, Start(requests), events).Some? && t < |requests| && !requests[t].prefetch
    ensures var s := Run(cfg, Start(requests), events).value;
      && t < |s.threads|
      && (HasHit(s.threads[t]) <==> AnsweredByLookup(cfg, requests, events, t))
      && (HasShared(s.threads[t]) <==> AnsweredByCall(cfg, requests, events, t))
    decreases |events|
  {
    RequestsFixed(cfg, requests, events);
    if events != [] {
      var prefix, last := events[..|events| - 1], events[|events| - 1];
      RunAnswers(cfg, requests, prefix, t);
      RunInv(cfg, requests, prefix);
      RequestsFixed(cfg, requests, prefix);
      var s := Run(cfg, Start(requests), prefix).value;
      hide HitAt, SharedAt, Run, Start, HasHit, HasShared, Inv, Step;
      AnswersNext(cfg, requests, events, t);
      SomeNext(cfg, requests, events, t);
    } else {
      hide Run;
      NothingYet(cfg, requests, t);
    }
  }

  lemma NothingYet(cfg: Config, requests: seq<Request>, t: nat)
    requires t < |requests|
    ensures Run(cfg, Start(requests), []) == Some(Start(requests))
    ensures !HasHit(Start(requests).threads[t]) && !HasShared(Start(requests).threads[t])
    ensures !AnsweredByLookup(cfg, requests, [], t) && !AnsweredByCall(cfg, requests, [], t)
  {
  }

  lemma SomeNext(cfg: Config, requests: seq<Request>, events: seq<Event>, t: nat)
    requires events != []
    ensures AnsweredByLookup(cfg, requests, events, t) <==>
      AnsweredByLookup(cfg, requests, events[..|events| - 1], t) || HitAt(cfg, requests, events, |events| - 1, t)
    ensures AnsweredByCall(cfg, requests, events, t) <==>
      AnsweredByCall(cfg, requests, events[..|events| - 1], t) || SharedAt(cfg, requests, events, |events| - 1, t)
  {
    hide HitAt, SharedAt;
    var prefix := events[..|events| - 1];
    if i :| HitAt(cfg, requests, events, i, t) { AtPrefix(cfg, requests, events, i, t); }
    if i :| HitAt(cfg, requests, prefix, i, t) { AtPrefix(cfg, requests, events, i, t); }
    if i :| SharedAt(cfg, requests, events, i, t) { AtPrefix(cfg, requests, events, i, t); }
    if i :| SharedAt(cfg, requests, prefix, i, t) { AtPrefix(cfg, requests, events, i, t); }
  }

  /** What the last event of a run changes for a thread. */
  lemma AnswersNext(cfg: Config, requests: seq<Request>, events: seq<Event>, t: nat)
    requires events != [] && Run(cfg, Start(requests), events).Some? && t < |requests| && !requests[t].prefetch
    requires Run(cfg, Start(requests), events[..|events| - 1]).Some?
    requires Inv(cfg, Run(cfg, Start(requests), events[..|events| - 1]).value)
    requires var s := Run(cfg, Start(requests), events[..|events| - 1]).value;
      t < |s.threads| && s.threads[t].req == requests[t]
    ensures var last := |events| - 1;
      var s, s' := Run(cfg, Start(requests), events[..last]).value, Run(cfg, Start(requests), events).value;
      && t < |s'.threads|
      && (HasHit(s'.threads[t]) <==> HasHit(s.threads[t]) || HitAt(cfg, requests, events, last, t))
      && (HasShared(s'.threads[t]) <==> HasShared(s.threads[t]) || SharedAt(cfg, requests, events, last, t))
  {
    var last := |events| - 1;
    var s, ev := Run(cfg, Start(requests), events[..last]).value, events[last];
    RunStep(cfg, requests, events);
    hide Run, Start, HasHit, HasShared, LookupAnswers, CallAnswers, Inv;
    if ev.t == t {
      StepAnswers(cfg, s, ev);
    } else {
      var th', effect := StepMoves(cfg, s, ev);
      MovesThreads(cfg, s, ev.t, th', effect, Step(cfg, s, ev).value);
    }
  }

  /** A finished request is answered by the lookup exactly when one of its lookups found something usable. */
  lemma HitIff(cfg: Config, requests: seq<Request>, events: seq<Event>, s: State, t: nat)
    requires Reached(cfg, requests, events, s) && t < |requests| && !requests[t].prefetch
    ensures t < |s.threads|
    ensures s.threads[t].pc.Done? && s.threads[t].pc.d.Hit? <==> AnsweredByLookup(cfg, requests, events, t)
  {
    RunAnswers(cfg, requests, events, t);
    hide HitAt, SharedAt, Run, Start;
  }

  /**
   The handler has not run for a finished request exactly when one of its lookups, or the re-check of
   the call it led, or the call it waited for, answered it.
   */
  lemma NoRunIff(cfg: Config, requests: seq<Request>, events: seq<Event>, s: State, t: nat)
    requires Reached(cfg, requests, events, s) && t < |requests| && !requests[t].prefetch
    requires t < |s.threads| && s.threads[t].pc.Done?
    ensures s.threads[t].runs == 0 <==>
      AnsweredByLookup(cfg, requests, events, t) || AnsweredByCall(cfg, requests, events, t)
  {
    hide HitAt, SharedAt, Run, Start, Inv, LocalOk, HasHit, HasShared;
    RunAnswers(cfg, requests, events, t);
    RunInv(cfg, requests, events);
    LocalAt(cfg, s, t);
    RequestsFixed(cfg, requests, events);
    DoneAnswered(cfg, s.threads[t]);
  }

  lemma DoneAnswered(cfg: Config, th: Thread)
    requires LocalOk(cfg, th) && th.pc.Done? && !th.req.prefetch
    ensures th.runs == 0 <==> HasHit(th) || HasShared(th)
  {
    hide Storable, Matches, Permitted;
  }

  // ---- no-cache ----

  function Least(i: nat, n: nat): nat {
    if i < n then i else n
  }

  lemma NoCacheNeverLookedUp(cfg: Config, requests: seq<Request>, events: seq<Event>, i: nat, t: nat)
    requires t < |requests| && !requests[t].prefetch && requests[t].noCache
    ensures !HitAt(cfg, requests, events, i, t)
  {
    if Run(cfg, Start(requests), events[..Least(i, |events|)]).Some? {
      var s := Run(cfg, Start(requests), events[..Least(i, |events|)]).value;
      RunInv(cfg, requests, events[..Least(i, |events|)]);
      RequestsFixed(cfg, requests, events[..Least(i, |events|)]);
      LocalAt(cfg, s, t);
    }
    hide Inv, Run, Start, Usable, Storable;
  }

  lemma SharedNeedsKey(cfg: Config, requests: seq<Request>, events: seq<Event>, i: nat, t: nat)
    requires t < |requests| && SharedAt(cfg, requests, events, i, t)
    ensures CoalesceKey(cfg, requests[t]).Some?
  {
    var s := Run(cfg, Start(requests), events[..i]).value;
    RunInv(cfg, requests, events[..i]);
    RequestsFixed(cfg, requests, events[..i]);
    assert LocalOk(cfg, s.threads[t]);
    hide Inv, Run, Start, Usable, Storable, CoalesceKey;
  }

  /**
   A finished request with a client no-cache has run the handler, unless it is authenticated, may
   coalesce with its own session, and the re-check of the call it led or the call it waited for
   answered it; in exactly that case it has not.
   */
  lemma NoCacheRuns(cfg: Config, requests: seq<Request>, events: seq<Event>, s: State, t: nat)
    requires Reached(cfg, requests, events, s) && t < |requests| && !requests[t].prefetch && requests[t].noCache
    requires t < |s.threads| && s.threads[t].pc.Done?
    ensures s.threads[t].runs <= 1
    ensures s.threads[t].runs == 0 <==>
      requests[t].auth && cfg.coalesceAuthenticated && AnsweredByCall(cfg, requests, events, t)
  {
    NoRunIff(cfg, requests, events, s, t);
    OneRunOneHead(cfg, requests, events, s, t);
    hide HitAt, SharedAt, Run, Start;
    forall i: nat { NoCacheNeverLookedUp(cfg, requests, events, i, t); }
    if i :| SharedAt(cfg, requests, events, i, t) {
      SharedNeedsKey(cfg, requests, events, i, t);
    }
  }

  // ---- Concrete runs ----

  const SHARING := Config({}, true, true)

  /** A public response, and requests that ask for it. */
  const OPEN_ENTRY := Entry(200, false, false, false, true, NoVary, {}, [], true)
  const NO_CACHE := R.(auth := true, noCache := true)
  const NO_STORE := R.(noStore := true)

  lemma StoredAfterFill(x: Request) returns (s: State)
    ensures Run(SHARING, Start([R, x]), FillEvents(OPEN_ENTRY)) == Some(s)
    ensures |s.threads| == 2 && s.threads[1] == NewThread(x) && EverSet(s, Primary(0)) == {OPEN_ENTRY}
    ensures s == State(map[Primary(0) := {OPEN_ENTRY}], map[Shared(0) := 0], [OpenCall(R)],
                       [Filled(R, 0, OPEN_ENTRY), NewThread(x)])
  {
    FillRun(SHARING, R, x, OPEN_ENTRY);
    s := Run(SHARING, Start([R, x]), FillEvents(OPEN_ENTRY)).value;
  }

  /** A client no-store does not keep the lookup from answering. */
  lemma NoStoreStillHits()
    ensures var s := Run(SHARING, Start([R, NO_STORE]), FillEvents(OPEN_ENTRY) + [Event(1, Got(Some(OPEN_ENTRY)))]);
      s.Some? && s.value.threads[1].pc == Done(Hit(OPEN_ENTRY)) && s.value.threads[1].runs == 0
  {
    var s := StoredAfterFill(NO_STORE);
    hide Run, Start;
    Then(SHARING, Start([R, NO_STORE]), FillEvents(OPEN_ENTRY), s, Event(1, Got(Some(OPEN_ENTRY))),
         Send(NewThread(NO_STORE), Hit(OPEN_ENTRY)), NoEffect);
  }

  const USER := PerUser(0, 0)
  const SHARES := Result(Some(OPEN_ENTRY), NoError, false)
  const RECHECKS := NewThread(NO_CACHE).(pc := Check(1), isLeader := true)

  lemma NoCachePlans(s: State)
    ensures NO_CACHE.key == 0 && CoalesceKey(SHARING, NO_CACHE) == Some(USER)
    ensures Plan(SHARING, s, NewThread(NO_CACHE), Tick) == Some((JoinedTo(NO_CACHE), NoEffect))
    ensures |s.objs| == 1 && USER !in s.calls ==>
      Plan(SHARING, s, JoinedTo(NO_CACHE), Tick) == Some((RECHECKS, NewCall(USER)))
    ensures Plan(SHARING, s, RECHECKS, Got(Some(OPEN_ENTRY))) ==
      Some((RECHECKS.(pc := Returned(1, SHARES)), Assign(1, Some(OPEN_ENTRY), NoError)))
    ensures Plan(SHARING, s, RECHECKS.(pc := Returned(1, SHARES)), Tick) ==
      Some((RECHECKS.(pc := Removed(1, SHARES)), Delete(USER)))
    ensures Plan(SHARING, s, RECHECKS.(pc := Removed(1, SHARES)), Tick) ==
      Some((Send(RECHECKS, Coalesced(OPEN_ENTRY)), Close(1, false)))
  {
  }

  lemma CheckAllowed(s: State)
    ensures OPEN_ENTRY in EverSet(s, Primary(0)) ==> Allowed(SHARING, s, RECHECKS, Got(Some(OPEN_ENTRY)))
  {
    hide EverSet;
  }

  const AGAIN := [Event(1, Tick), Event(1, Tick), Event(1, Got(Some(OPEN_ENTRY))), Event(1, Tick), Event(1, Tick)]

  /** A client no-cache does not keep the leader's re-check from answering with a stored response. */
  lemma NoCacheStillServed()
    ensures var s := Run(SHARING, Start([R, NO_CACHE]), FillEvents(OPEN_ENTRY) + AGAIN);
      s.Some? && s.value.threads[1].pc == Done(Coalesced(OPEN_ENTRY)) && s.value.threads[1].runs == 0
  {
    var s0, fill := Start([R, NO_CACHE]), FillEvents(OPEN_ENTRY);
    var s := StoredAfterFill(NO_CACHE);
    hide Run, Start, Filled, FillEvents, OpenCall;
    var s2 := JoinAsUser(s0, fill, s);
    var s3 := FoundAgain(s0, fill + [Event(1, Tick)] + [Event(1, Tick)], s2);
    ReturnAndClose(s0, fill + [Event(1, Tick)] + [Event(1, Tick)] + [Event(1, Got(Some(OPEN_ENTRY)))], s3);
    var found := fill + [Event(1, Tick)] + [Event(1, Tick)] + [Event(1, Got(Some(OPEN_ENTRY)))];
    assert found + [Event(1, Tick)] + [Event(1, Tick)] == fill + AGAIN;
  }

  /** The first lookup is skipped, and the request becomes the leader of its session's own call. */
  lemma JoinAsUser(s0: State, events: seq<Event>, s: State) returns (s2: State)
    requires Run(SHARING, s0, events) == Some(s)
    requires |s.threads| == 2 && s.threads[1] == NewThread(NO_CACHE) && |s.objs| == 1 && USER !in s.calls
    ensures Run(SHARING, s0, events + [Event(1, Tick)] + [Event(1, Tick)]) == Some(s2)
    ensures |s2.threads| == 2 && s2.threads[1] == RECHECKS && |s2.objs| == 2 && s2.ever == s.ever
  {
    hide Run, Plan, CoalesceKey, EverSet;
    NoCachePlans(s);
    Then(SHARING, s0, events, s, Event(1, Tick), JoinedTo(NO_CACHE), NoEffect);
    var s1 := s.(threads := s.threads[1 := JoinedTo(NO_CACHE)]);
    NoCachePlans(s1);
    Then(SHARING, s0, events + [Event(1, Tick)], s1, Event(1, Tick), RECHECKS, NewCall(USER));
    s2 := ApplyEffect(s1, 1, NewCall(USER)).(threads := s1.threads[1 := RECHECKS]);
  }

  lemma FoundAgain(s0: State, events: seq<Event>, s: State) returns (s3: State)
    requires Run(SHARING, s0, events) == Some(s) && OPEN_ENTRY in EverSet(s, Primary(0))
    requires |s.threads| == 2 && s.threads[1] == RECHECKS && |s.objs| == 2
    ensures Run(SHARING, s0, events + [Event(1, Got(Some(OPEN_ENTRY)))]) == Some(s3)
    ensures |s3.threads| == 2 && s3.threads[1] == RECHECKS.(pc := Returned(1, SHARES)) && |s3.objs| == 2
  {
    hide Run, Plan, CoalesceKey, EverSet;
    NoCachePlans(s);
    CheckAllowed(s);
    var found := RECHECKS.(pc := Returned(1, SHARES));
    Then(SHARING, s0, events, s, Event(1, Got(Some(OPEN_ENTRY))), found, Assign(1, Some(OPEN_ENTRY), NoError));
    s3 := ApplyEffect(s, 1, Assign(1, Some(OPEN_ENTRY), NoError)).(threads := s.threads[1 := found]);
  }

  lemma ReturnAndClose(s0: State, events: seq<Event>, s: State)
    requires Run(SHARING, s0, events) == Some(s)
    requires |s.threads| == 2 && s.threads[1] == RECHECKS.(pc := Returned(1, SHARES)) && |s.objs| == 2
    ensures var end := Run(SHARING, s0, events + [Event(1, Tick)] + [Event(1, Tick)]);
      end.Some? && |end.value.threads| == 2 && end.value.threads[1] == Send(RECHECKS, Coalesced(OPEN_ENTRY))
  {
    hide Run, Plan, CoalesceKey, EverSet;
    NoCachePlans(s);
    var gone := RECHECKS.(pc := Removed(1, SHARES));
    Then(SHARING, s0, events, s, Event(1, Tick), gone, Delete(USER));
    var s1 := s.(calls := s.calls - {USER}, threads := s.threads[1 := gone]);
    NoCachePlans(s1);
    var served := Send(RECHECKS, Coalesced(OPEN_ENTRY));
    Then(SHARING, s0, events + [Event(1, Tick)], s1, Event(1, Tick), served, Close(1, false));
  }
}
