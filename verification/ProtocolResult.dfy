/**
 What a coalesced call ends with, by what the handler did for its leader: the entry and the error that
 everyone who waited for the call is given.
 */
module ProtocolResult {
  import opened Bytes
  import opened Protocol
  import opened ProtocolInvariant
  import opened ProtocolSafety
  import opened ProtocolTheorems
  import opened ProtocolOnce
  import opened ProtocolOutcome
  import opened ProtocolPolicy

  /** The result of a leader whose handler ended so, or did not run. */
  predicate Tells(cfg: Config, r: Request, ran: Option<Outcome>, entry: Option<Entry>, err: Error) {
    match ran
    case None => err == NoError && entry.Some?
    case Some(Panic(_)) => err == PanicError && entry == None
    case Some(Stream) => err == StreamingResponse && entry == None
    case Some(Finish(e0)) =>
      if Keeps(cfg, r, e0) then err == NoError && entry == Some(Recorded(e0, r))
      else entry == None && err == if r.prefetch then NoError else NotShareable
  }

  /** Where a leader stands agrees with how its handler ended, if it did. */
  predicate LeaderTells(cfg: Config, th: Thread, ran: Option<Outcome>) {
    match th.pc
    case Lookup => ran == None
    case LookupVariant(_) => ran == None
    case Join => ran == None
    case Check(_) => ran == None
    case CheckVariant(_, _) => ran == None
    case Running(_) => ran == None
    case Storing(_, e) => IsRun(th.req, ran, e) && Keeps(cfg, th.req, ran.value.e)
    case StoringVariant(_, e) => IsRun(th.req, ran, e) && Keeps(cfg, th.req, ran.value.e)
    case Finishing(_, e) => IsRun(th.req, ran, e) && Keeps(cfg, th.req, ran.value.e)
    case Returned(_, res) => Tells(cfg, th.req, ran, res.entry, res.err) && (res.panicked <==> res.err == PanicError)
    case Removed(_, res) => Tells(cfg, th.req, ran, res.entry, res.err) && (res.panicked <==> res.err == PanicError)
    case _ => true
  }

  lemma BeforeTells(cfg: Config, th: Thread, c: Choice, inflight: Option<nat>, next: nat, call: Option<Call>,
                    ran: Option<Outcome>)
    requires BeforeFunction(th.pc) && LeaderTells(cfg, th, ran)
    ensures var step := StepBefore(cfg, th, c, inflight, next, call);
      step.Some? ==> LeaderTells(cfg, step.value.0, NextRan(c, ran))
  {
    hide CoalesceKey, Permitted, Matches, Keeps, Recorded;
  }

  lemma OwnTells(cfg: Config, th: Thread, c: Choice, ran: Option<Outcome>)
    requires LocalOk(cfg, th) && !BeforeFunction(th.pc) && !InPass(th.pc) && LeaderTells(cfg, th, ran)
    ensures var step := StepLeader(cfg, th, c);
      step.Some? ==> LeaderTells(cfg, step.value.0, NextRan(c, ran))
    ensures var step := StepLeader(cfg, th, c);
      step.Some? && th.pc.Removed? ==> step.value.0.pc.Done? || step.value.0.pc.Panicked?
  {
    if c.Ended? && c.outcome.Finish? { KeepsIs(cfg, th.req, c.outcome.e); }
    hide CoalesceKey, Permitted, Matches, Storable, WillStore, Recorded, Shareable, StoreKeyOf, Keeps;
  }

  lemma StepTells(cfg: Config, s: State, ev: Event, th': Thread, effect: Effect, ran: Option<Outcome>)
    requires Inv(cfg, s) && ev.t < |s.threads| && LeaderTells(cfg, s.threads[ev.t], ran)
    requires Plan(cfg, s, s.threads[ev.t], ev.choice) == Some((th', effect))
    ensures LeaderTells(cfg, th', NextRan(ev.choice, ran))
    ensures s.threads[ev.t].pc.Removed? ==> th'.pc.Done? || th'.pc.Panicked?
    ensures !s.threads[ev.t].pc.Done? && !s.threads[ev.t].pc.Panicked?
  {
    var th := s.threads[ev.t];
    assert LocalOk(cfg, th);
    hide Inv, StepBefore, LocalOk, LeaderTells, InflightOf, WaitedOn;
    if BeforeFunction(th.pc) {
      hide StepLeader, StepPass;
      BeforeTells(cfg, th, ev.choice, InflightOf(cfg, s, th), |s.objs|, WaitedOn(s, th), ran);
    } else if InPass(th.pc) {
      PassTells(cfg, th, ev.choice, NextRan(ev.choice, ran));
    } else {
      OwnTells(cfg, th, ev.choice, ran);
    }
  }

  lemma PassTells(cfg: Config, th: Thread, c: Choice, ran: Option<Outcome>)
    requires InPass(th.pc)
    ensures StepPass(cfg, th, c).Some? ==> LeaderTells(cfg, StepPass(cfg, th, c).value.0, ran)
  {
    hide WillStore, Recorded, StoreKeyOf;
  }

  lemma {:induction false} RunTells(cfg: Config, requests: seq<Request>, events: seq<Event>, t: nat)
    requires Run(cfg, Start(requests), events).Some? && t < |requests|
    ensures var s := Run(cfg, Start(requests), events).value;
      t < |s.threads| && s.threads[t].req == requests[t] && LeaderTells(cfg, s.threads[t], Ran(events, t))
    decreases |events|
  {
    RequestsFixed(cfg, requests, events);
    if events != [] {
      var prefix, ev := events[..|events| - 1], events[|events| - 1];
      RunStep(cfg, requests, events);
      RunInv(cfg, requests, prefix);
      RunTells(cfg, requests, prefix, t);
      var s := Run(cfg, Start(requests), prefix).value;
      hide Run, Start, Inv, Step, LeaderTells, Plan;
      var th', effect := StepMoves(cfg, s, ev);
      MovesThreads(cfg, s, ev.t, th', effect, Step(cfg, s, ev).value);
      if ev.t == t {
        StepTells(cfg, s, ev, th', effect, Ran(prefix, t));
      }
    }
  }

  // ---- The call objects ----

  /** A closed call has its leader's result; an open one has it once the leader's function returned,
    unless it panicked. */
  predicate CallTells(cfg: Config, c: Call, id: nat, th: Thread, ran: Option<Outcome>) {
    if c.done then (th.pc.Done? || th.pc.Panicked?) && Tells(cfg, th.req, ran, c.entry, c.err)
    else
      && LeaderCall(th.pc) == Some(id)
      && (((th.pc.Returned? || th.pc.Removed?) && !th.pc.res.panicked) || (c.entry == None && c.err == NoError))
  }

  ghost predicate CallsTell(cfg: Config, s: State, events: seq<Event>) {
    forall id :: 0 <= id < |s.objs| ==>
      var c := s.objs[id];
      c.leader < |s.threads| && CallTells(cfg, c, id, s.threads[c.leader], Ran(events, c.leader))
  }

  /** The step of the leader itself. */
  lemma LeaderStep(cfg: Config, s: State, ev: Event, th': Thread, effect: Effect, s': State, id: nat,
                   ran: Option<Outcome>)
    requires Inv(cfg, s) && Moves(cfg, s, ev.t, th', effect, s') && id < |s.objs| && s.objs[id].leader == ev.t
    requires Plan(cfg, s, s.threads[ev.t], ev.choice) == Some((th', effect)) && th'.req == s.threads[ev.t].req
    requires CallTells(cfg, s.objs[id], id, s.threads[ev.t], ran) && LeaderTells(cfg, s.threads[ev.t], ran)
    ensures id < |s'.objs| && CallTells(cfg, s'.objs[id], id, th', NextRan(ev.choice, ran))
  {
    var th := s.threads[ev.t];
    LinkedAt(cfg, s, ev.t);
    StepTells(cfg, s, ev, th', effect, ran);
    CallIdentity(cfg, s, ev.t, th', effect, s', id);
    MovesThreads(cfg, s, ev.t, th', effect, s');
    EndedRuns(cfg, s, ev, th', effect);
    hide Inv, Plan, LeaderTells, Tells, CoalesceKey, InflightOf, WaitedOn, Storable;
    assert LeaderCall(th.pc) == Some(id);
    if effect.Close? {
      hide LeadsCall;
      Closes(cfg, s, ev.t, th', effect, s', id, ran);
    } else if effect.Assign? {
      assert LeaderCall(th'.pc) == Some(id);
    }
  }

  /** Only the end of a handler run changes how it ended. */
  lemma EndedRuns(cfg: Config, s: State, ev: Event, th': Thread, effect: Effect)
    requires ev.t < |s.threads| && Plan(cfg, s, s.threads[ev.t], ev.choice) == Some((th', effect))
    ensures s.threads[ev.t].pc.Removed? ==> !ev.choice.Ended?
  {
    hide AfterDo, Permitted, Matches, InflightOf, WaitedOn, CoalesceKey;
  }

  lemma Closes(cfg: Config, s: State, t: nat, th': Thread, effect: Effect, s': State, id: nat, ran: Option<Outcome>)
    requires t < |s.threads| && effect.Close? && id < |s.objs| && Moves(cfg, s, t, th', effect, s')
    requires s.threads[t].pc.Removed? && effect == Close(id, s.threads[t].pc.res.panicked)
    requires LeaderTells(cfg, s.threads[t], ran) && th'.req == s.threads[t].req
    requires !s.threads[t].pc.res.panicked ==>
      s.objs[id].entry == s.threads[t].pc.res.entry && s.objs[id].err == s.threads[t].pc.res.err
    requires s.threads[t].pc.res.panicked ==> s.objs[id].entry == None
    requires th'.pc.Done? || th'.pc.Panicked?
    ensures id < |s'.objs| && CallTells(cfg, s'.objs[id], id, th', ran)
  {
    hide LocalOk, EffectFits, InflightOf, WaitedOn, Keeps, Recorded;
  }

  /** A step of another thread. */
  lemma OtherStep(cfg: Config, s: State, ev: Event, th': Thread, effect: Effect, s': State, id: nat,
    ran: Option<Outcome>)
    requires Inv(cfg, s) && Moves(cfg, s, ev.t, th', effect, s') && id < |s.objs| && s.objs[id].leader != ev.t
    requires s.objs[id].leader < |s.threads| && CallTells(cfg, s.objs[id], id, s.threads[s.objs[id].leader], ran)
    ensures id < |s'.objs| && s'.objs[id] == s.objs[id]
    ensures |s'.threads| == |s.threads| && s'.threads[s.objs[id].leader] == s.threads[s.objs[id].leader]
  {
    LinkedAt(cfg, s, ev.t);
    CallIdentity(cfg, s, ev.t, th', effect, s', id);
    MovesThreads(cfg, s, ev.t, th', effect, s');
    hide Inv, CallTells, CoalesceKey, InflightOf, WaitedOn, Storable, LocalOk;
  }

  lemma StepCallsTell(cfg: Config, requests: seq<Request>, events: seq<Event>, ev: Event)
    requires Run(cfg, Start(requests), events + [ev]).Some? && Run(cfg, Start(requests), events).Some?
    requires CallsTell(cfg, Run(cfg, Start(requests), events).value, events)
    ensures CallsTell(cfg, Run(cfg, Start(requests), events + [ev]).value, events + [ev])
  {
    assert (events + [ev])[..|events|] == events;
    RunStep(cfg, requests, events + [ev]);
    RunInv(cfg, requests, events);
    RequestsFixed(cfg, requests, events);
    var s, s' := Run(cfg, Start(requests), events).value, Run(cfg, Start(requests), events + [ev]).value;
    hide Run, Start, Inv, Step, LeaderTells, CallTells, Plan;
    var th', effect := StepMoves(cfg, s, ev);
    MovesThreads(cfg, s, ev.t, th', effect, s');
    var ran := Ran(events, ev.t);
    RunTells(cfg, requests, events, ev.t);
    RanNext(events, ev);
    forall id | 0 <= id < |s'.objs|
      ensures var c := s'.objs[id];
        c.leader < |s'.threads| && CallTells(cfg, c, id, s'.threads[c.leader], Ran(events + [ev], c.leader))
    {
      if id >= |s.objs| {
        NewTells(cfg, s, ev, th', effect, s', id, ran);
      } else {
        CallIdentity(cfg, s, ev.t, th', effect, s', id);
        if s.objs[id].leader == ev.t {
          LeaderStep(cfg, s, ev, th', effect, s', id, ran);
        } else {
          OtherStep(cfg, s, ev, th', effect, s', id, Ran(events, s.objs[id].leader));
        }
      }
    }
  }

  lemma RanNext(events: seq<Event>, ev: Event)
    ensures forall t :: Ran(events + [ev], t) == if t ==
      ev.t then NextRan(ev.choice, Ran(events, t)) else Ran(events, t)
  {
    assert (events + [ev])[..|events|] == events;
  }

  lemma NewTells(cfg: Config, s: State, ev: Event, th': Thread, effect: Effect, s': State, id: nat,
    ran: Option<Outcome>)
    requires Moves(cfg, s, ev.t, th', effect, s') && |s.objs| <= id < |s'.objs|
    ensures s'.objs[id].leader == ev.t && ev.t < |s'.threads|
    ensures CallTells(cfg, s'.objs[id], id, s'.threads[ev.t], NextRan(ev.choice, ran))
  {
    hide LocalOk, InflightOf, WaitedOn, CoalesceKey, Storable, Tells;
  }

  lemma NoneTell(cfg: Config, requests: seq<Request>)
    ensures Run(cfg, Start(requests), []) == Some(Start(requests)) && CallsTell(cfg, Start(requests), [])
  {
  }

  lemma {:induction false} RunCallsTell(cfg: Config, requests: seq<Request>, events: seq<Event>)
    requires Run(cfg, Start(requests), events).Some?
    ensures CallsTell(cfg, Run(cfg, Start(requests), events).value, events)
    decreases |events|
  {
    hide *;
    if events == [] {
      NoneTell(cfg, requests);
    } else {
      var prefix, ev := events[..|events| - 1], events[|events| - 1];
      RunStep(cfg, requests, events);
      RunCallsTell(cfg, requests, prefix);
      assert events == prefix + [ev];
      StepCallsTell(cfg, requests, prefix, ev);
    }
  }

  /**
   Every closed call carries what became of its leader's own handler run. If there was none, an entry that
   was there already; if the response may be kept, exactly that response as recorded for the leader; if not,
   none, with the error that says so for a request and without one for a job; and none with their own errors
   for a stream and a panic.
   */
  lemma PublishedIs(cfg: Config, requests: seq<Request>, events: seq<Event>, s: State, id: nat)
    requires Reached(cfg, requests, events, s) && id < |s.objs| && s.objs[id].done
    ensures s.objs[id].leader < |s.threads|
    ensures var c, r := s.objs[id], s.threads[s.objs[id].leader].req;
      match Ran(events, c.leader)
      case None => c.err == NoError && c.entry.Some?
      case Some(Panic(_)) => c.err == PanicError && c.entry == None
      case Some(Stream) => c.err == StreamingResponse && c.entry == None
      case Some(Finish(e)) =>
        if && e.status == 200 && !e.setCookie && !e.noStore && !e.priv && e.vary != Star
           && if r.prefetch then !r.auth || e.pub else !r.noStore && (!r.auth || r.key in cfg.publicKeys || e.pub)
        then c.err == NoError && c.entry == Some(Recorded(e, r))
        else c.entry == None && c.err == if r.prefetch then NoError else NotShareable
  {
    RunCallsTell(cfg, requests, events);
    hide Run, Start, Ran, Recorded;
  }
}
