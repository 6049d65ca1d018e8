/** What the invariant says of every reachable state, and that every run can finish. */
module ProtocolTheorems {
  import opened Bytes
  import opened Protocol
  import opened ProtocolInvariant
  import opened ProtocolSafety

  ghost predicate Reached(cfg: Config, requests: seq<Request>, events: seq<Event>, s: State) {
    Run(cfg, Start(requests), events) == Some(s)
  }

  // ---- Single flight ----

  /** At most one thread executes a leader's function for a key, and that call is the one in the map. */
  lemma SingleFlight(cfg: Config, requests: seq<Request>, events: seq<Event>, s: State, t: nat, u: nat)
    requires Reached(cfg, requests, events, s) && t < |s.threads| && u < |s.threads|
    requires Executing(s.threads[t].pc) && Executing(s.threads[u].pc)
    requires CoalesceKey(cfg, s.threads[t].req) == CoalesceKey(cfg, s.threads[u].req)
    ensures t == u
    ensures CoalesceKey(cfg, s.threads[t].req).Some?
    ensures var ck := CoalesceKey(cfg, s.threads[t].req).value;
      ck in s.calls && LeaderCall(s.threads[t].pc) == Some(s.calls[ck])
  {
    RunInv(cfg, requests, events);
    OneHolder(cfg, s, t, u);
    LeaderIs(cfg, s, t);
  }

  lemma OneHolder(cfg: Config, s: State, t: nat, u: nat)
    requires Inv(cfg, s) && t < |s.threads| && u < |s.threads|
    requires Holding(s.threads[t].pc) && Holding(s.threads[u].pc)
    requires CoalesceKey(cfg, s.threads[t].req) == CoalesceKey(cfg, s.threads[u].req)
    ensures t == u
  {
    LeaderIs(cfg, s, t);
    LeaderIs(cfg, s, u);
    hide Inv, CoalesceKey;
  }

  predicate RemovesOwn(s: State, t: nat, th: Thread, ck: CallKey) {
    ck in s.calls && LeaderCall(th.pc) == Some(s.calls[ck]) && s.calls[ck] < |s.objs| && s.objs[s.calls[ck]].leader == t
  }

  predicate ClosesOwn(s: State, s': State, t: nat, id: nat) {
    id < |s.objs| && s.objs[id].leader == t && !s.objs[id].done && id < |s'.objs| && s'.objs[id].done
  }

  /** The delete by key removes the leader's own call; the close finds the call open, and closes it. */
  lemma OwnCallOnly(cfg: Config, requests: seq<Request>, events: seq<Event>, s: State, ev: Event)
    requires Reached(cfg, requests, events, s) && Step(cfg, s, ev).Some?
    ensures var th, effect := s.threads[ev.t], Plan(cfg, s, s.threads[ev.t], ev.choice).value.1;
      && (effect.Delete? ==> RemovesOwn(s, ev.t, th, effect.ck))
      && (effect.Close? ==> ClosesOwn(s, Step(cfg, s, ev).value, ev.t, effect.call))
  {
    RunInv(cfg, requests, events);
    var th', effect := StepMoves(cfg, s, ev);
    var th := s.threads[ev.t];
    if LeaderCall(th.pc).Some? { LeaderIs(cfg, s, ev.t); }
    hide Inv, CoalesceKey, LocalOk, Plan, QuietMove;
  }

  /** A published result never changes, whatever happens later. */
  lemma {:induction false} PublishedIsFrozen(cfg: Config, requests: seq<Request>, events: seq<Event>,
      more: seq<Event>, id: nat)
    requires Run(cfg, Start(requests), events).Some? && Run(cfg, Start(requests), events + more).Some?
    requires var s := Run(cfg, Start(requests), events).value; id < |s.objs| && s.objs[id].done
    ensures var s, s' := Run(cfg, Start(requests), events).value, Run(cfg, Start(requests), events + more).value;
      id < |s'.objs| && s'.objs[id] == s.objs[id]
    decreases |more|
  {
    if more == [] {
      assert events + more == events;
    } else {
      var all, init, last := events + more, events + more[..|more| - 1], more[|more| - 1];
      assert all[..|all| - 1] == init && all[|all| - 1] == last;
      RunStep(cfg, requests, all);
      PublishedIsFrozen(cfg, requests, events, more[..|more| - 1], id);
      StepFreezes(cfg, requests, init, last, id);
    }
  }

  lemma RunStep(cfg: Config, requests: seq<Request>, events: seq<Event>)
    requires events != [] && Run(cfg, Start(requests), events).Some?
    ensures var s := Run(cfg, Start(requests), events[..|events| - 1]);
      s.Some? && Run(cfg, Start(requests), events) == Step(cfg, s.value, events[|events| - 1])
  {
    hide Step, Start;
  }

  lemma StepFreezes(cfg: Config, requests: seq<Request>, events: seq<Event>, ev: Event, id: nat)
    requires Run(cfg, Start(requests), events).Some?
    requires var s := Run(cfg, Start(requests), events).value;
      id < |s.objs| && s.objs[id].done && Step(cfg, s, ev).Some?
    ensures var s := Run(cfg, Start(requests), events).value; var s' := Step(cfg, s, ev).value;
      id < |s'.objs| && s'.objs[id] == s.objs[id]
  {
    RunInv(cfg, requests, events);
    var s := Run(cfg, Start(requests), events).value;
    var th', effect := StepMoves(cfg, s, ev);
    OthersCallKept(cfg, s, ev.t, th', effect, Step(cfg, s, ev).value, id);
    hide *;
  }

  /** What a follower returned with is the published result of the call it joined under its own key. */
  lemma FollowerGotPublished(cfg: Config, requests: seq<Request>, events: seq<Event>, s: State, t: nat)
    requires Reached(cfg, requests, events, s) && t < |s.threads| && s.threads[t].got.Some?
    ensures var (id, res) := s.threads[t].got.value;
      id < |s.objs| && s.objs[id].done && res == Result(s.objs[id].entry, s.objs[id].err, false)
      && Some(s.objs[id].key) == CoalesceKey(cfg, s.threads[t].req)
  {
    RunInv(cfg, requests, events);
    assert Linked(cfg, s, t, s.threads[t]);
    hide Inv;
  }

  // ---- One handler run and one head per request ----

  /**
   Each request runs the handler at most once; a finished one has sent exactly one response head,
   and a leader never falls through to the uncoalesced execution.
   */
  lemma OneRunOneHead(cfg: Config, requests: seq<Request>, events: seq<Event>, s: State, t: nat)
    requires Reached(cfg, requests, events, s) && t < |s.threads|
    ensures var th := s.threads[t];
      && th.runs <= 1
      && (th.pc.Done? ==> th.heads == if th.req.prefetch then 0 else 1)
      && th.heads <= 1
      && (th.isLeader ==> !InPass(th.pc))
  {
    RunInv(cfg, requests, events);
    LocalSays(cfg, s.threads[t]);
  }

  lemma LocalSays(cfg: Config, th: Thread)
    requires LocalOk(cfg, th)
    ensures th.runs <= 1 && (th.pc.Done? ==> th.heads == if th.req.prefetch then 0 else 1)
    ensures th.heads <= 1 && (th.isLeader ==> !InPass(th.pc))
  {
    hide Storable, CoalesceKey, Permitted, Matches, Shareable;
  }

  // ---- Policy ----

  /** Everything ever stored is 200, with no Set-Cookie, no-store or private, and no Vary: *. */
  lemma OnlyStorableStored(cfg: Config, requests: seq<Request>, events: seq<Event>, s: State, k: StoreKey, e: Entry)
    requires Reached(cfg, requests, events, s) && e in EverSet(s, k)
    ensures e.status == 200 && !e.setCookie && !e.noStore && !e.priv && e.vary != Star
  {
    RunInv(cfg, requests, events);
    assert Storable(e) by { hide LocalOk, Linked, CallLinked, ObjOk, Storable; }
    hide Inv;
  }

  /**
   A cached or coalesced entry is such a response, and only reaches a request that is unauthenticated,
   on a public route, or receiving a response marked public; a hit also has every value the request sent
   for the headers recorded in it.
   */
  lemma DeliveryPolicy(cfg: Config, requests: seq<Request>, events: seq<Event>, s: State, t: nat)
    requires Reached(cfg, requests, events, s) && t < |s.threads| && s.threads[t].pc.Done?
    ensures var r, d := s.threads[t].req, s.threads[t].pc.d;
      && (d.Hit? || d.Coalesced? ==>
            && d.e.status == 200 && !d.e.setCookie && !d.e.noStore && !d.e.priv && d.e.vary != Star
            && (!r.auth || r.key in cfg.publicKeys || d.e.pub))
      && (d.Hit? ==>
            && s.threads[t].runs == 0
            && forall c :: c in d.e.recorded ==> (if c.0 in r.header then r.header[c.0] else []) == c.1)
  {
    RunInv(cfg, requests, events);
    assert LocalOk(cfg, s.threads[t]);
    hide Inv;
  }

  // ---- Progress ----

  predicate Terminal(pc: PC) {
    pc.Done? || pc.Panicked?
  }

  function Rank(pc: PC): nat {
    match pc
    case Lookup => 20 case LookupVariant(_) => 19 case Join => 18
    case Check(_) => 16 case CheckVariant(_, _) => 15 case Running(_) => 14
    case Storing(_, _) => 13 case StoringVariant(_, _) => 12 case Finishing(_, _) => 11
    case Returned(_, _) => 10 case Removed(_, _) => 9 case Waiting(_) => 8
    case PassRunning => 3 case PassStoring(_) => 2 case PassStoringVariant(_) => 1
    case Done(_) => 0 case Panicked => 0
  }

  function Measure(threads: seq<Thread>): nat {
    if threads == [] then 0 else Rank(threads[0].pc) + Measure(threads[1..])
  }

  lemma {:induction false} MeasureUpdate(threads: seq<Thread>, t: nat, th: Thread)
    requires t < |threads|
    ensures Measure(threads[t := th]) == Measure(threads) - Rank(threads[t].pc) + Rank(th.pc)
    decreases t
  {
    hide Rank;
    var updated := threads[t := th];
    if t == 0 {
      assert updated[1..] == threads[1..];
    } else {
      MeasureUpdate(threads[1..], t - 1, th);
      assert updated[1..] == threads[1..][t - 1 := th];
    }
  }

  lemma RankFallsBefore(cfg: Config, th: Thread, c: Choice, inflight: Option<nat>, next: nat, call: Option<Call>)
    requires BeforeFunction(th.pc)
    ensures var step := StepBefore(cfg, th, c, inflight, next, call);
      step.Some? ==> Rank(step.value.0.pc) < Rank(th.pc)
  {
    hide CoalesceKey, Permitted, Matches;
  }

  lemma RankFallsLeader(cfg: Config, th: Thread, c: Choice)
    requires !BeforeFunction(th.pc)
    ensures var step := StepLeader(cfg, th, c);
      step.Some? ==> Rank(step.value.0.pc) < Rank(th.pc)
  {
    hide CoalesceKey, Permitted, Matches, WillStore, Recorded, StoreKeyOf;
  }

  lemma RankFallsPass(cfg: Config, th: Thread, c: Choice)
    ensures var step := StepPass(cfg, th, c);
      step.Some? ==> Rank(step.value.0.pc) < Rank(th.pc)
  {
    hide CoalesceKey, Permitted, Matches, WillStore, Recorded, StoreKeyOf;
  }

  lemma RankFalls(cfg: Config, th: Thread, c: Choice, inflight: Option<nat>, next: nat, call: Option<Call>)
    ensures var step := StepThread(cfg, th, c, inflight, next, call);
      step.Some? ==> Rank(step.value.0.pc) < Rank(th.pc)
  {
    hide StepBefore, StepPass, StepLeader, Rank;
    if BeforeFunction(th.pc) {
      RankFallsBefore(cfg, th, c, inflight, next, call);
    } else if InPass(th.pc) {
      RankFallsPass(cfg, th, c);
    } else {
      RankFallsLeader(cfg, th, c);
    }
  }

  lemma StepFalls(cfg: Config, s: State, ev: Event)
    requires Step(cfg, s, ev).Some?
    ensures Measure(Step(cfg, s, ev).value.threads) < Measure(s.threads)
  {
    hide StepThread, ApplyEffect, Rank, Measure;
    var th := s.threads[ev.t];
    RankFalls(cfg, th, ev.choice, InflightOf(cfg, s, th), |s.objs|, WaitedOn(s, th));
    MeasureUpdate(s.threads, ev.t, Plan(cfg, s, th, ev.choice).value.0);
  }

  ghost function Pick(s: State, k: StoreKey): Option<Entry> {
    if EverSet(s, k) == {} then None else Some(Any(EverSet(s, k)))
  }

  ghost function Any(es: set<Entry>): Entry
    requires es != {}
  {
    var e :| e in es; e
  }

  /** A choice that lets the thread take its next step, unless it waits on an open call. */
  ghost function NextChoice(s: State, th: Thread): Choice {
    match th.pc
    case Lookup => if th.req.noCache && !th.req.prefetch then Tick else Got(Pick(s, StoreKeyOf(th)))
    case LookupVariant(_) => Got(Pick(s, StoreKeyOf(th)))
    case Check(_) => Got(Pick(s, StoreKeyOf(th)))
    case CheckVariant(_, _) => Got(Pick(s, StoreKeyOf(th)))
    case Running(_) => Ended(Finish(SomeResponse()))
    case PassRunning => Ended(Finish(SomeResponse()))
    case Storing(_, _) => SetDone(true)
    case StoringVariant(_, _) => SetDone(true)
    case PassStoring(_) => SetDone(true)
    case PassStoringVariant(_) => SetDone(true)
    case _ => Tick
  }

  function SomeResponse(): Entry {
    Entry(200, false, false, false, false, NoVary, {}, [], true)
  }

  lemma NextAllowed(cfg: Config, s: State, th: Thread)
    ensures Allowed(cfg, s, th, NextChoice(s, th))
  {
    hide EverSet, StoreKeyOf;
  }

  lemma NextBefore(cfg: Config, s: State, th: Thread)
    requires LocalOk(cfg, th) && BeforeFunction(th.pc)
    requires th.pc.Waiting? ==> WaitedOn(s, th).Some? && WaitedOn(s, th).value.done
    ensures StepBefore(cfg, th, NextChoice(s, th), InflightOf(cfg, s, th), |s.objs|, WaitedOn(s, th)).Some?
  {
    hide CoalesceKey, Permitted, Matches, Pick, StoreKeyOf, Storable, WaitedOn, InflightOf, AfterDo;
  }

  lemma NextLeader(cfg: Config, s: State, th: Thread)
    requires LocalOk(cfg, th) && !Terminal(th.pc) && !BeforeFunction(th.pc) && !InPass(th.pc)
    ensures StepLeader(cfg, th, NextChoice(s, th)).Some?
  {
    hide CoalesceKey, Permitted, Matches, Pick, StoreKeyOf, Storable, Shareable, WillStore, Recorded;
    hide Recheck, AfterDo, LeaderOk;
  }

  lemma NextPass(cfg: Config, s: State, th: Thread)
    requires InPass(th.pc)
    ensures StepPass(cfg, th, NextChoice(s, th)).Some?
  {
    hide CoalesceKey, Permitted, Matches, Pick, StoreKeyOf, Storable, WillStore, Recorded;
  }

  lemma NextEnabled(cfg: Config, s: State, t: nat)
    requires Inv(cfg, s) && t < |s.threads| && !Terminal(s.threads[t].pc)
    requires s.threads[t].pc.Waiting? ==> WaitedOn(s, s.threads[t]).Some? && WaitedOn(s, s.threads[t]).value.done
    ensures Step(cfg, s, Event(t, NextChoice(s, s.threads[t]))).Some?
  {
    var th := s.threads[t];
    assert LocalOk(cfg, th);
    hide Inv, LocalOk, StepBefore, StepPass, StepLeader, NextChoice, ApplyEffect, Allowed;
    NextAllowed(cfg, s, th);
    if BeforeFunction(th.pc) {
      NextBefore(cfg, s, th);
    } else if InPass(th.pc) {
      NextPass(cfg, s, th);
    } else {
      NextLeader(cfg, s, th);
    }
  }

  /**
   No deadlock: in every reachable state with an unfinished thread some thread can step; a waiting
   follower always has a live leader or a published result.
   */
  lemma NoDeadlock(cfg: Config, requests: seq<Request>, events: seq<Event>, s: State, t: nat) returns (ev: Event)
    requires Reached(cfg, requests, events, s) && t < |s.threads| && !Terminal(s.threads[t].pc)
    ensures Step(cfg, s, ev).Some?
  {
    RunInv(cfg, requests, events);
    ev := EnabledEvent(cfg, s, t);
  }

  lemma EnabledEvent(cfg: Config, s: State, t: nat) returns (ev: Event)
    requires Inv(cfg, s) && t < |s.threads| && !Terminal(s.threads[t].pc)
    ensures Step(cfg, s, ev).Some?
  {
    var u := t;
    assert Linked(cfg, s, t, s.threads[t]);
    if s.threads[t].pc.Waiting? {
      var id := s.threads[t].pc.call;
      assert ObjOk(cfg, s, id);
      if !s.objs[id].done {
        u := s.objs[id].leader;
      }
    }
    hide Inv, Step, NextChoice;
    NextEnabled(cfg, s, u);
    ev := Event(u, NextChoice(s, s.threads[u]));
  }

  /** Every run is bounded: twenty steps for each request or job at most. */
  lemma {:induction false} RunBounded(cfg: Config, requests: seq<Request>, events: seq<Event>)
    requires Run(cfg, Start(requests), events).Some?
    ensures |events| + Measure(Run(cfg, Start(requests), events).value.threads) <= 20 * |requests|
    decreases |events|
  {
    hide Step, Start, Measure;
    if events == [] {
      StartMeasure(requests);
    } else {
      var prefix, last := events[..|events| - 1], events[|events| - 1];
      RunBounded(cfg, requests, prefix);
      StepFalls(cfg, Run(cfg, Start(requests), prefix).value, last);
    }
  }

  lemma StartMeasure(requests: seq<Request>)
    ensures Measure(Start(requests).threads) == 20 * |requests|
  {
    AllLookup(Start(requests).threads);
  }

  lemma {:induction false} AllLookup(threads: seq<Thread>)
    requires forall i :: 0 <= i < |threads| ==> threads[i].pc == Lookup
    ensures Measure(threads) == 20 * |threads|
  {
    if threads != [] {
      AllLookup(threads[1..]);
    }
  }

  /** Every run can be continued until every request has returned, panicking handlers included. */
  lemma {:induction false} RunCompletes(cfg: Config, requests: seq<Request>,
      events: seq<Event>) returns (more: seq<Event>)
    requires Run(cfg, Start(requests), events).Some?
    ensures Run(cfg, Start(requests), events + more).Some?
    ensures forall t :: 0 <= t < |Run(cfg, Start(requests), events + more).value.threads| ==>
              Terminal(Run(cfg, Start(requests), events + more).value.threads[t].pc)
    decreases Measure(Run(cfg, Start(requests), events).value.threads)
  {
    hide Inv, Step, Start, Measure, Terminal;
    var s := Run(cfg, Start(requests), events).value;
    if t :| 0 <= t < |s.threads| && !Terminal(s.threads[t].pc) {
      RunInv(cfg, requests, events);
      var ev := EnabledEvent(cfg, s, t);
      StepFalls(cfg, s, ev);
      assert (events + [ev])[..|events|] == events;
      var rest := RunCompletes(cfg, requests, events + [ev]);
      more := [ev] + rest;
      assert events + more == events + [ev] + rest;
    } else {
      more := [];
      assert events + more == events;
    }
  }
}
