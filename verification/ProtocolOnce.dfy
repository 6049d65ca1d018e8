/**
 How often the store is filled for one key: over every interleaving with a reliable store, for
 responses without Vary, at most one leader commits its response.
 */
module ProtocolOnce {
  import opened Bytes
  import opened Protocol
  import opened ProtocolInvariant
  import opened ProtocolSafety
  import opened ProtocolTheorems

  predicate Plain(e: Entry) {
    e.vary == NoVary && e.recorded == {}
  }

  /** The thread's own entries carry no Vary, so it is nowhere near a variant key. */
  predicate PlainThread(th: Thread) {
    match th.pc
    case Storing(_, e) => Plain(e)
    case Finishing(_, e) => Plain(e)
    case PassStoring(e) => Plain(e)
    case LookupVariant(_) => false
    case CheckVariant(_, _) => false
    case StoringVariant(_, _) => false
    case PassStoringVariant(_) => false
    case _ => true
  }

  predicate PlainChoice(c: Choice) {
    match c
    case Got(found) => found.Some? ==> Plain(found.value)
    case SetDone(ok) => ok
    case Ended(outcome) => outcome.Finish? ==> outcome.e.vary == NoVary
    case _ => true
  }

  predicate Leads(cfg: Config, th: Thread, k: Key) {
    CoalesceKey(cfg, th.req) == Some(Shared(k))
  }

  /** A leader on the shared key whose Set has happened. */
  predicate Committed(cfg: Config, th: Thread, k: Key) {
    Leads(cfg, th, k) && th.stored
  }

  /** A leader on the shared key that has missed the re-check and not yet Set its result. */
  predicate PreCommit(cfg: Config, th: Thread, k: Key) {
    Leads(cfg, th, k) && (th.pc.Running? || th.pc.Storing?)
  }

  lemma LeadsKey(cfg: Config, th: Thread, k: Key)
    ensures Leads(cfg, th, k) ==> th.req.key == k
    ensures Leads(cfg, th, k) && !th.req.prefetch ==> !th.req.auth || k in cfg.publicKeys
  {
  }

  lemma PlainMatches(e: Entry, r: Request)
    requires Plain(e)
    ensures Matches(e, r)
  {
  }

  lemma RecordedPlain(e: Entry, r: Request)
    ensures e.vary == NoVary ==> Plain(Recorded(e, r))
  {
  }

  /** What a step of one thread can change of all this. */
  predicate OnceMove(cfg: Config, th: Thread, c: Choice, th': Thread, effect: Effect, k: Key) {
    && PlainThread(th')
    && (effect.Put? ==> effect.k == Primary(th.req.key) && Plain(effect.e))
    && (Committed(cfg, th, k) ==> Committed(cfg, th', k))
    && (Committed(cfg, th', k) && !Committed(cfg, th, k) ==> th.pc.Storing? && effect.Put? && !PreCommit(cfg, th', k))
    && (PreCommit(cfg, th', k) && !PreCommit(cfg, th, k) ==> th.pc.Check? && c == Got(None))
  }

  lemma BeforeOnce(cfg: Config, th: Thread, c: Choice, inflight: Option<nat>, next: nat, call: Option<Call>, k: Key)
    requires LocalOk(cfg, th) && PlainThread(th) && PlainChoice(c) && BeforeFunction(th.pc)
    ensures var step := StepBefore(cfg, th, c, inflight, next, call);
      step.Some? ==> OnceMove(cfg, th, c, step.value.0, step.value.1, k)
  {
    hide CoalesceKey, Permitted, Matches, Storable;
  }

  lemma LeaderOnce(cfg: Config, th: Thread, c: Choice, k: Key)
    requires LocalOk(cfg, th) && PlainThread(th) && PlainChoice(c) && !BeforeFunction(th.pc) && !InPass(th.pc)
    ensures var step := StepLeader(cfg, th, c);
      step.Some? ==> OnceMove(cfg, th, c, step.value.0, step.value.1, k)
  {
    LeadsKey(cfg, th, k);
    if c.Got? && c.found.Some? { PlainMatches(c.found.value, th.req); }
    if c.Ended? && c.outcome.Finish? { RecordedPlain(c.outcome.e, th.req); }
    hide CoalesceKey, Storable, Shareable, WillStore, Recorded, Matches, ResultOk;
  }

  lemma PassOnce(cfg: Config, th: Thread, c: Choice, k: Key)
    requires PlainThread(th) && PlainChoice(c) && InPass(th.pc)
    ensures var step := StepPass(cfg, th, c);
      step.Some? ==> OnceMove(cfg, th, c, step.value.0, step.value.1, k)
  {
    if c.Ended? && c.outcome.Finish? { RecordedPlain(c.outcome.e, th.req); }
    hide CoalesceKey, Storable, WillStore, Recorded;
  }

  /** A Set goes to a store key of the thread's own request. */
  lemma PutOwnKey(cfg: Config, th: Thread, c: Choice, inflight: Option<nat>, next: nat, call: Option<Call>)
    ensures var step := StepThread(cfg, th, c, inflight, next, call);
      step.Some? && step.value.1.Put? ==> step.value.1.k == StoreKeyOf(th) && step.value.1.k.key == th.req.key
  {
    hide CoalesceKey, Permitted, Matches, WillStore, Recorded, Signature;
  }

  lemma StepOnce(cfg: Config, th: Thread, c: Choice, inflight: Option<nat>, next: nat, call: Option<Call>, k: Key)
    requires LocalOk(cfg, th) && PlainThread(th) && PlainChoice(c)
    ensures var step := StepThread(cfg, th, c, inflight, next, call);
      step.Some? ==> OnceMove(cfg, th, c, step.value.0, step.value.1, k)
  {
    hide LocalOk, PlainThread, PlainChoice, StepBefore, StepPass, StepLeader, OnceMove;
    if BeforeFunction(th.pc) {
      BeforeOnce(cfg, th, c, inflight, next, call, k);
    } else if InPass(th.pc) {
      PassOnce(cfg, th, c, k);
    } else {
      LeaderOnce(cfg, th, c, k);
    }
  }

  // ---- At most one leader commits ----

  ghost predicate AllPlain(s: State, k: Key) {
    && (forall t :: 0 <= t < |s.threads| && s.threads[t].req.key == k ==> PlainThread(s.threads[t]))
    && (forall e :: e in EverSet(s, Primary(k)) ==> Plain(e))
  }

  ghost predicate CommitInv(cfg: Config, s: State, k: Key) {
    && (forall t | 0 <= t < |s.threads| && Committed(cfg, s.threads[t], k) :: EverSet(s, Primary(k)) != {})
    && (forall t, u | 0 <= t < |s.threads| && 0 <= u < |s.threads| ::
          Committed(cfg, s.threads[t], k) && Committed(cfg, s.threads[u], k) ==> t == u)
    && (forall t, u | 0 <= t < |s.threads| && 0 <= u < |s.threads| ::
          PreCommit(cfg, s.threads[t], k) ==> !Committed(cfg, s.threads[u], k))
  }

  ghost predicate OnceInv(cfg: Config, s: State, k: Key) {
    AllPlain(s, k) && CommitInv(cfg, s, k)
  }

  /** The responses to requests and jobs for the key carry no Vary header. */
  predicate PlainEvent(th: Thread, c: Choice, k: Key) {
    th.req.key == k && c.Ended? && c.outcome.Finish? ==> c.outcome.e.vary == NoVary
  }

  lemma ChoicePlain(cfg: Config, s: State, th: Thread, c: Choice, k: Key)
    requires cfg.reliable && Allowed(cfg, s, th, c) && PlainEvent(th, c, k) && th.req.key == k && PlainThread(th)
    requires forall e :: e in EverSet(s, Primary(k)) ==> Plain(e)
    ensures PlainChoice(c)
    ensures c == Got(None) ==> EverSet(s, Primary(k)) == {}
  {
    hide EverSet, Plain;
  }

  lemma EverAfter(s: State, t: nat, effect: Effect, k: StoreKey)
    ensures EverSet(ApplyEffect(s, t, effect), k) ==
      if effect.Put? && effect.k == k then EverSet(s, k) + {effect.e} else EverSet(s, k)
  {
  }

  lemma OtherKeyOnce(cfg: Config, s: State, ev: Event, k: Key)
    requires Inv(cfg, s) && OnceInv(cfg, s, k) && Step(cfg, s, ev).Some? && s.threads[ev.t].req.key != k
    ensures OnceInv(cfg, Step(cfg, s, ev).value, k)
  {
    var th', effect := StepMoves(cfg, s, ev);
    var th := s.threads[ev.t];
    var s' := Step(cfg, s, ev).value;
    PutOwnKey(cfg, th, ev.choice, InflightOf(cfg, s, th), |s.objs|, WaitedOn(s, th));
    EverAfter(s, ev.t, effect, Primary(k));
    LeadsKey(cfg, th, k);
    LeadsKey(cfg, th', k);
    assert s'.threads == s.threads[ev.t := th'];
    assert EverSet(s', Primary(k)) == EverSet(s, Primary(k));
    hide Inv, StepThread, EffectFits, ApplyEffect, Leads, PlainThread, Plain, EverSet, LocalOk;
  }

  lemma CommitStep(cfg: Config, s: State, s': State, t: nat, th': Thread, k: Key, c: Choice, effect: Effect)
    requires t < |s.threads| && s'.threads == s.threads[t := th'] && CommitInv(cfg, s, k)
    requires OnceMove(cfg, s.threads[t], c, th', effect, k)
    requires c == Got(None) ==> EverSet(s, Primary(k)) == {}
    requires EverSet(s', Primary(k)) ==
      if effect.Put? && effect.k == Primary(k) then EverSet(s, Primary(k)) + {effect.e} else EverSet(s, Primary(k))
    requires s.threads[t].req.key == k
    requires s.threads[t].pc.Storing? && Committed(cfg, th', k) ==> PreCommit(cfg, s.threads[t], k)
    requires forall w | 0 <= w < |s.threads| ::
      PreCommit(cfg, s.threads[t], k) && PreCommit(cfg, s.threads[w], k) ==> w == t
    ensures CommitInv(cfg, s', k)
  {
    hide Committed, PreCommit, PlainThread, EverSet, Plain;
  }

  /** A step of a thread of the key, as far as the commit argument sees it. */
  lemma KeyMove(cfg: Config, s: State, ev: Event, k: Key) returns (th': Thread, effect: Effect)
    requires Inv(cfg, s) && AllPlain(s, k) && Step(cfg, s, ev).Some? && s.threads[ev.t].req.key == k
    requires cfg.reliable && PlainEvent(s.threads[ev.t], ev.choice, k)
    ensures var s' := Step(cfg, s, ev).value;
      && s'.threads == s.threads[ev.t := th'] && th'.req == s.threads[ev.t].req
      && OnceMove(cfg, s.threads[ev.t], ev.choice, th', effect, k)
      && (ev.choice == Got(None) ==> EverSet(s, Primary(k)) == {})
      && EverSet(s', Primary(k)) ==
           if effect.Put? && effect.k == Primary(k) then EverSet(s, Primary(k)) + {effect.e} else EverSet(s, Primary(k))
  {
    th', effect := StepMoves(cfg, s, ev);
    var th, c := s.threads[ev.t], ev.choice;
    assert LocalOk(cfg, th);
    ChoicePlain(cfg, s, th, c, k);
    hide Inv, AllPlain, StepThread, EffectFits, OnceMove, LocalOk, PlainThread, Plain, Allowed;
    StepOnce(cfg, th, c, InflightOf(cfg, s, th), |s.objs|, WaitedOn(s, th), k);
    EverAfter(s, ev.t, effect, Primary(k));
  }

  lemma OnePreCommit(cfg: Config, s: State, t: nat, w: nat, k: Key)
    requires Inv(cfg, s) && t < |s.threads| && w < |s.threads|
    requires PreCommit(cfg, s.threads[t], k) && PreCommit(cfg, s.threads[w], k)
    ensures w == t
  {
    hide Inv;
    OneHolder(cfg, s, t, w);
  }

  lemma SameKeyOnce(cfg: Config, s: State, ev: Event, k: Key)
    requires Inv(cfg, s) && OnceInv(cfg, s, k) && Step(cfg, s, ev).Some? && s.threads[ev.t].req.key == k
    requires cfg.reliable && PlainEvent(s.threads[ev.t], ev.choice, k)
    ensures OnceInv(cfg, Step(cfg, s, ev).value, k)
  {
    hide Inv, CommitInv, Plan, Allowed, ApplyEffect, EverSet, PlainThread, Plain, CoalesceKey;
    var th', effect := KeyMove(cfg, s, ev, k);
    var t, th, c := ev.t, s.threads[ev.t], ev.choice;
    var s' := Step(cfg, s, ev).value;
    hide Step;
    forall w | 0 <= w < |s.threads|
      ensures PreCommit(cfg, th, k) && PreCommit(cfg, s.threads[w], k) ==> w == t
    {
      if PreCommit(cfg, th, k) && PreCommit(cfg, s.threads[w], k) {
        OnePreCommit(cfg, s, t, w, k);
      }
    }
    CommitStep(cfg, s, s', t, th', k, c, effect);
  }

  ghost predicate PlainRun(requests: seq<Request>, events: seq<Event>, k: Key) {
    forall i :: 0 <= i < |events| && events[i].t < |requests| ==>
      PlainEvent(NewThread(requests[events[i].t]), events[i].choice, k)
  }

  lemma {:induction false} RequestsFixed(cfg: Config, requests: seq<Request>, events: seq<Event>)
    requires Run(cfg, Start(requests), events).Some?
    ensures var s := Run(cfg, Start(requests), events).value;
      |s.threads| == |requests| && forall t :: 0 <= t < |requests| ==> s.threads[t].req == requests[t]
    decreases |events|
  {
    if events != [] {
      var prefix, last := events[..|events| - 1], events[|events| - 1];
      RunInv(cfg, requests, prefix);
      RequestsFixed(cfg, requests, prefix);
      var s := Run(cfg, Start(requests), prefix).value;
      var th', effect := StepMoves(cfg, s, last);
      assert Step(cfg, s, last).value.threads == s.threads[last.t := th'];
      hide Inv, Step, Plan, Start, LocalOk, EffectFits, ApplyEffect;
    }
  }

  lemma {:induction false} RunOnce(cfg: Config, requests: seq<Request>, events: seq<Event>, k: Key)
    requires cfg.reliable && Run(cfg, Start(requests), events).Some? && PlainRun(requests, events, k)
    ensures OnceInv(cfg, Run(cfg, Start(requests), events).value, k)
    decreases |events|
  {
    if events == [] {
      StartOnce(cfg, requests, k);
    } else {
      var prefix, last := events[..|events| - 1], events[|events| - 1];
      RunInv(cfg, requests, prefix);
      RequestsFixed(cfg, requests, prefix);
      assert PlainRun(requests, prefix, k);
      RunOnce(cfg, requests, prefix, k);
      var s := Run(cfg, Start(requests), prefix).value;
      assert last.t < |s.threads|;
      hide Inv, OnceInv, Plan, Start, LocalOk, ApplyEffect;
      if s.threads[last.t].req.key == k {
        assert PlainEvent(NewThread(requests[last.t]), last.choice, k);
        SameKeyOnce(cfg, s, last, k);
      } else {
        OtherKeyOnce(cfg, s, last, k);
      }
    }
  }

  lemma StartOnce(cfg: Config, requests: seq<Request>, k: Key)
    ensures OnceInv(cfg, Start(requests), k)
  {
    hide CoalesceKey;
  }

  /** With a reliable store and no Vary on the key, at most one leader ever commits its response. */
  lemma AtMostOneCommit(cfg: Config, requests: seq<Request>, events: seq<Event>, s: State, k: Key, t: nat, u: nat)
    requires cfg.reliable && Reached(cfg, requests, events, s) && PlainRun(requests, events, k)
    requires t < |s.threads| && u < |s.threads|
    requires Committed(cfg, s.threads[t], k) && Committed(cfg, s.threads[u], k)
    ensures t == u
  {
    RunOnce(cfg, requests, events, k);
    hide Committed, PreCommit, PlainThread;
  }
}
