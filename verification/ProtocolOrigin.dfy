/**
 Where shared responses come from: every entry in the store, in a call, or handed out as a hit or to
 a follower is what the handler returned to some request or job for the same key that policy allowed
 to share it, recorded with that request's own headers.
 */
module ProtocolOrigin {
  import opened Bytes
  import opened Protocol
  import opened ProtocolInvariant
  import opened ProtocolSafety
  import opened ProtocolTheorems
  import opened ProtocolOnce

  // ---- Producers ----

  /** Event i is the end of a handler run for a request of key k whose response, recorded, is e and is to be stored. */
  predicate ProducedAt(cfg: Config, requests: seq<Request>, events: seq<Event>, i: nat, k: Key, e: Entry) {
    i < |events| && events[i].t < |requests| && e in Yields(cfg, requests[events[i].t], events[i].choice, k)
  }

  /** What a step of a request adds to the entries produced for a key. */
  function Yields(cfg: Config, r: Request, c: Choice, k: Key): set<Entry> {
    if r.key == k && c.Ended? && c.outcome.Finish? && WillStore(cfg, r, Recorded(c.outcome.e, r))
    then {Recorded(c.outcome.e, r)} else {}
  }

  /** All entries produced for a key in a run. */
  function Produced(cfg: Config, requests: seq<Request>, events: seq<Event>, k: Key): set<Entry> {
    if events == [] then {}
    else
      var ev := events[|events| - 1];
      Produced(cfg, requests, events[..|events| - 1], k)
        + if ev.t < |requests| then Yields(cfg, requests[ev.t], ev.choice, k) else {}
  }

  lemma {:induction false} ProducedIff(cfg: Config, requests: seq<Request>, events: seq<Event>, k: Key, e: Entry)
    ensures e in Produced(cfg, requests, events, k) <==> exists i :: ProducedAt(cfg, requests, events, i, k, e)
    decreases |events|
  {
    hide Yields;
    if events != [] {
      var last := |events| - 1;
      var prefix := events[..last];
      ProducedIff(cfg, requests, prefix, k, e);
      if i :| ProducedAt(cfg, requests, prefix, i, k, e) {
        assert ProducedAt(cfg, requests, events, i, k, e);
      }
      if i :| ProducedAt(cfg, requests, events, i, k, e) {
        assert i == last || ProducedAt(cfg, requests, prefix, i, k, e);
      }
      if e in Produced(cfg, requests, events, k) && e !in Produced(cfg, requests, prefix, k) {
        assert ProducedAt(cfg, requests, events, last, k, e);
      }
    }
  }

  // ---- One thread's step ----

  predicate ResultFrom(res: Result, from: set<Entry>) {
    res.err == NoError && res.entry.Some? ==> res.entry.value in from
  }

  /** Every entry the thread holds for sharing, or was handed, is from the given ones. */
  predicate ThreadFrom(th: Thread, from: set<Entry>) {
    match th.pc
    case LookupVariant(p) => p in from
    case CheckVariant(_, p) => p in from
    case Storing(_, e) => e in from
    case StoringVariant(_, e) => e in from
    case Finishing(_, e) => e in from
    case PassStoring(e) => e in from
    case PassStoringVariant(e) => e in from
    case Returned(_, res) => ResultFrom(res, from)
    case Removed(_, res) => ResultFrom(res, from)
    case Done(Hit(e)) => e in from
    case Done(Coalesced(e)) => e in from
    case _ => true
  }

  predicate EffectFrom(r: Request, effect: Effect, from: set<Entry>) {
    match effect
    case Put(k, e) => k.key == r.key && e in from
    case Assign(_, entry, err) => err == NoError && entry.Some? ==> entry.value in from
    case _ => true
  }

  predicate ChoiceFrom(c: Choice, call: Option<Call>, from: set<Entry>) {
    && (c.Got? && c.found.Some? ==> c.found.value in from)
    && (call.Some? && call.value.err == NoError && call.value.entry.Some? ==> call.value.entry.value in from)
  }

  lemma BeforeFrom(cfg: Config, th: Thread, c: Choice, inflight: Option<nat>, next: nat, call: Option<Call>,
                   from: set<Entry>)
    requires LocalOk(cfg, th) && BeforeFunction(th.pc) && ThreadFrom(th, from) && ChoiceFrom(c, call, from)
    ensures var step := StepBefore(cfg, th, c, inflight, next, call);
      step.Some? ==> ThreadFrom(step.value.0, from) && EffectFrom(th.req, step.value.1, from)
  {
    hide CoalesceKey, Permitted, Matches, Storable;
  }

  lemma LeaderFrom(cfg: Config, th: Thread, c: Choice, call: Option<Call>, from: set<Entry>)
    requires LocalOk(cfg, th) && !BeforeFunction(th.pc) && !InPass(th.pc)
    requires ThreadFrom(th, from) && ChoiceFrom(c, call, from) && Yields(cfg, th.req, c, th.req.key) <= from
    ensures var step := StepLeader(cfg, th, c);
      step.Some? ==> ThreadFrom(step.value.0, from) && EffectFrom(th.req, step.value.1, from)
  {
    hide CoalesceKey, Permitted, Matches, Storable, WillStore, Recorded, Shareable;
  }

  lemma PassFrom(cfg: Config, th: Thread, c: Choice, from: set<Entry>)
    requires InPass(th.pc) && ThreadFrom(th, from) && Yields(cfg, th.req, c, th.req.key) <= from
    ensures var step := StepPass(cfg, th, c);
      step.Some? ==> ThreadFrom(step.value.0, from) && EffectFrom(th.req, step.value.1, from)
  {
    hide CoalesceKey, Permitted, Matches, Storable, WillStore, Recorded;
  }

  lemma StepFrom(cfg: Config, th: Thread, c: Choice, inflight: Option<nat>, next: nat, call: Option<Call>,
                 from: set<Entry>)
    requires LocalOk(cfg, th) && ThreadFrom(th, from) && ChoiceFrom(c, call, from)
    requires Yields(cfg, th.req, c, th.req.key) <= from
    ensures var step := StepThread(cfg, th, c, inflight, next, call);
      step.Some? ==> ThreadFrom(step.value.0, from) && EffectFrom(th.req, step.value.1, from)
  {
    hide LocalOk, ThreadFrom, ChoiceFrom, EffectFrom, Yields, StepBefore, StepPass, StepLeader;
    if BeforeFunction(th.pc) {
      BeforeFrom(cfg, th, c, inflight, next, call, from);
    } else if InPass(th.pc) {
      PassFrom(cfg, th, c, from);
    } else {
      LeaderFrom(cfg, th, c, call, from);
    }
  }

  // ---- Whole runs ----

  predicate CallFrom(call: Call, from: set<Entry>) {
    call.err == NoError && call.entry.Some? ==> call.entry.value in from
  }

  ghost predicate OriginInv(cfg: Config, requests: seq<Request>, events: seq<Event>, s: State) {
    && |s.threads| == |requests|
    && (forall t :: 0 <= t < |requests| ==> s.threads[t].req == requests[t])
    && (forall t :: 0 <= t < |requests| ==>
          ThreadFrom(s.threads[t], Produced(cfg, requests, events, s.threads[t].req.key)))
    && (forall id :: 0 <= id < |s.objs| ==> CallFrom(s.objs[id], Produced(cfg, requests, events, s.objs[id].key.key)))
    && (forall k: StoreKey :: EverSet(s, k) <= Produced(cfg, requests, events, k.key))
  }

  lemma ProducedGrows(cfg: Config, requests: seq<Request>, events: seq<Event>, k: Key)
    requires events != []
    ensures Produced(cfg, requests, events[..|events| - 1], k) <= Produced(cfg, requests, events, k)
    ensures events[|events| - 1].t < |requests| ==>
      Yields(cfg, requests[events[|events| - 1].t], events[|events| - 1].choice, k) <= Produced(cfg, requests,
        events, k)
  {
    hide Yields;
  }

  lemma ThreadFromGrows(th: Thread, a: set<Entry>, b: set<Entry>)
    requires ThreadFrom(th, a) && a <= b
    ensures ThreadFrom(th, b)
  {
  }

  lemma KeyOfCall(cfg: Config, r: Request)
    ensures CoalesceKey(cfg, r).Some? ==> CoalesceKey(cfg, r).value.key == r.key
  {
  }

  /** The step of one thread, on what was produced up to and including it. */
  lemma OwnOrigin(cfg: Config, requests: seq<Request>, events: seq<Event>, s: State, th': Thread, effect: Effect)
    requires events != [] && Inv(cfg, s) && OriginInv(cfg, requests, events[..|events| - 1], s)
    requires var ev := events[|events| - 1];
      Step(cfg, s, ev).Some? && Plan(cfg, s, s.threads[ev.t], ev.choice) == Some((th', effect))
    ensures var r := requests[events[|events| - 1].t];
      var from := Produced(cfg, requests, events, r.key);
      ThreadFrom(th', from) && EffectFrom(r, effect, from)
  {
    var ev, prefix := events[|events| - 1], events[..|events| - 1];
    var th := s.threads[ev.t];
    var from := Produced(cfg, requests, events, th.req.key);
    ProducedGrows(cfg, requests, events, th.req.key);
    assert LocalOk(cfg, th) && Linked(cfg, s, ev.t, th);
    KeyOfCall(cfg, th.req);
    assert ThreadFrom(th, Produced(cfg, requests, prefix, th.req.key));
    ThreadFromGrows(th, Produced(cfg, requests, prefix, th.req.key), from);
    ChoiceOrigin(cfg, requests, prefix, s, th, ev.choice);
    hide Inv, OriginInv, LocalOk, Linked, ThreadFrom, EffectFrom, Produced, StepThread, ApplyEffect, Yields,
      CoalesceKey;
    hide Allowed, InflightOf, WaitedOn;
    StepFrom(cfg, th, ev.choice, InflightOf(cfg, s, th), |s.objs|, WaitedOn(s, th), from);
  }

  lemma ChoiceOrigin(cfg: Config, requests: seq<Request>, prefix: seq<Event>, s: State, th: Thread, c: Choice)
    requires OriginInv(cfg, requests, prefix, s) && Allowed(cfg, s, th, c)
    requires th.pc.Waiting? ==> th.pc.call < |s.objs| && s.objs[th.pc.call].key.key == th.req.key
    ensures ChoiceFrom(c, WaitedOn(s, th), Produced(cfg, requests, prefix, th.req.key))
  {
    KeyRead(th);
    assert EverSet(s, StoreKeyOf(th)) <= Produced(cfg, requests, prefix, StoreKeyOf(th).key);
    if th.pc.Waiting? {
      assert CallFrom(s.objs[th.pc.call], Produced(cfg, requests, prefix, s.objs[th.pc.call].key.key));
    }
    hide OriginInv, Produced, EverSet, StoreKeyOf;
  }

  lemma KeyRead(th: Thread)
    ensures StoreKeyOf(th).key == th.req.key
  {
  }

  lemma CallsOrigin(cfg: Config, requests: seq<Request>, events: seq<Event>, s: State, th': Thread, effect: Effect,
                    s': State, id: nat)
    requires events != [] && Inv(cfg, s) && OriginInv(cfg, requests, events[..|events| - 1], s)
    requires Moves(cfg, s, events[|events| - 1].t, th', effect, s') && id < |s'.objs|
    requires var r := s.threads[events[|events| - 1].t].req; EffectFrom(r, effect,
      Produced(cfg, requests, events, r.key))
    ensures CallFrom(s'.objs[id], Produced(cfg, requests, events, s'.objs[id].key.key))
  {
    var t := events[|events| - 1].t;
    var th := s.threads[t];
    MovesThreads(cfg, s, t, th', effect, s');
    if LeaderCall(th.pc).Some? {
      LeaderIs(cfg, s, t);
      KeyOfCall(cfg, th.req);
    }
    if id < |s.objs| {
      CallIdentity(cfg, s, t, th', effect, s', id);
      assert CallFrom(s.objs[id], Produced(cfg, requests, events[..|events| - 1], s.objs[id].key.key));
      ProducedGrows(cfg, requests, events, s.objs[id].key.key);
    }
    hide Inv, OriginInv, LocalOk, CoalesceKey, Storable, QuietMove, InflightOf, WaitedOn, Produced;
  }

  lemma EverOrigin(cfg: Config, requests: seq<Request>, events: seq<Event>, s: State, t: nat, r: Request,
                   effect: Effect, k: StoreKey)
    requires events != [] && OriginInv(cfg, requests, events[..|events| - 1], s)
    requires EffectFrom(r, effect, Produced(cfg, requests, events, r.key))
    ensures EverSet(ApplyEffect(s, t, effect), k) <= Produced(cfg, requests, events, k.key)
  {
    EverAfter(s, t, effect, k);
    assert EverSet(s, k) <= Produced(cfg, requests, events[..|events| - 1], k.key);
    ProducedGrows(cfg, requests, events, k.key);
    hide OriginInv, Produced, ApplyEffect;
  }

  lemma StepOrigin(cfg: Config, requests: seq<Request>, events: seq<Event>, s: State)
    requires events != [] && Inv(cfg, s) && OriginInv(cfg, requests, events[..|events| - 1], s)
    requires Step(cfg, s, events[|events| - 1]).Some?
    ensures OriginInv(cfg, requests, events, Step(cfg, s, events[|events| - 1]).value)
  {
    var ev := events[|events| - 1];
    var th', effect := StepMoves(cfg, s, ev);
    var s' := Step(cfg, s, ev).value;
    OwnOrigin(cfg, requests, events, s, th', effect);
    MovesThreads(cfg, s, ev.t, th', effect, s');
    SameEver(cfg, s, ev, th', effect, s');
    assert th'.req == s.threads[ev.t].req;
    hide Inv, Step, Plan, Moves, CallFrom, ThreadFrom, EffectFrom, Produced, ApplyEffect, EverSet, EffectFits,
      InflightOf;
    hide WaitedOn;
    forall t | 0 <= t < |requests|
      ensures ThreadFrom(s'.threads[t], Produced(cfg, requests, events, s'.threads[t].req.key))
    {
      if t != ev.t {
        ProducedGrows(cfg, requests, events, s.threads[t].req.key);
        ThreadFromGrows(s.threads[t], Produced(cfg, requests, events[..|events| - 1], s.threads[t].req.key),
                        Produced(cfg, requests, events, s.threads[t].req.key));
      }
    }
    forall id | 0 <= id < |s'.objs|
      ensures CallFrom(s'.objs[id], Produced(cfg, requests, events, s'.objs[id].key.key))
    {
      CallsOrigin(cfg, requests, events, s, th', effect, s', id);
    }
    forall k: StoreKey
      ensures EverSet(s', k) <= Produced(cfg, requests, events, k.key)
    {
      EverOrigin(cfg, requests, events, s, ev.t, s.threads[ev.t].req, effect, k);
    }
  }

  lemma SameEver(cfg: Config, s: State, ev: Event, th': Thread, effect: Effect, s': State)
    requires Moves(cfg, s, ev.t, th', effect, s')
    ensures forall k :: EverSet(s', k) == EverSet(ApplyEffect(s, ev.t, effect), k)
  {
    hide EffectFits, LocalOk, ApplyEffect;
  }

  lemma StartOrigin(cfg: Config, requests: seq<Request>)
    ensures OriginInv(cfg, requests, [], Start(requests))
  {
  }

  lemma {:induction false} RunOrigin(cfg: Config, requests: seq<Request>, events: seq<Event>)
    requires Run(cfg, Start(requests), events).Some?
    ensures OriginInv(cfg, requests, events, Run(cfg, Start(requests), events).value)
    decreases |events|
  {
    hide OriginInv, Step, Start, Inv;
    if events == [] {
      StartOrigin(cfg, requests);
    } else {
      var prefix := events[..|events| - 1];
      RunInv(cfg, requests, prefix);
      RunOrigin(cfg, requests, prefix);
      StepOrigin(cfg, requests, events, Run(cfg, Start(requests), prefix).value);
    }
  }

  // ---- What that says of the store and of deliveries ----

  /** Everything ever stored under a key is what some request or job for that key produced, and might share. */
  lemma StoredWasProduced(cfg: Config, requests: seq<Request>, events: seq<Event>, s: State, k: StoreKey, e: Entry)
      returns (i: nat)
    requires Reached(cfg, requests, events, s) && e in EverSet(s, k)
    ensures ProducedAt(cfg, requests, events, i, k.key, e)
  {
    RunOrigin(cfg, requests, events);
    hide Run, Start, EverSet, Produced, ProducedAt, ThreadFrom, CallFrom;
    assert e in Produced(cfg, requests, events, k.key);
    ProducedIff(cfg, requests, events, k.key, e);
    i :| ProducedAt(cfg, requests, events, i, k.key, e);
  }

  lemma OriginOf(cfg: Config, requests: seq<Request>, events: seq<Event>, s: State, t: nat)
    requires OriginInv(cfg, requests, events, s) && t < |s.threads|
    ensures ThreadFrom(s.threads[t], Produced(cfg, requests, events, s.threads[t].req.key))
  {
    hide ThreadFrom, Produced, CallFrom, EverSet;
  }

  /** Every hit, and every delivery to a follower or from a re-check, is such a response for the request's key. */
  lemma DeliveredWasProduced(cfg: Config, requests: seq<Request>, events: seq<Event>, s: State, t: nat)
      returns (i: nat)
    requires Reached(cfg, requests, events, s) && t < |s.threads| && s.threads[t].pc.Done?
    requires s.threads[t].pc.d.Hit? || s.threads[t].pc.d.Coalesced?
    ensures ProducedAt(cfg, requests, events, i, s.threads[t].req.key, s.threads[t].pc.d.e)
  {
    hide Run, Start, Produced, ProducedAt, OriginInv;
    RunOrigin(cfg, requests, events);
    var e, k := s.threads[t].pc.d.e, s.threads[t].req.key;
    OriginOf(cfg, requests, events, s, t);
    assert e in Produced(cfg, requests, events, k);
    ProducedIff(cfg, requests, events, k, e);
    i :| ProducedAt(cfg, requests, events, i, k, e);
  }

  /**
   Exactly what is produced for a key: the response, recorded with the request's headers, of a handler run
   for a request or job of that key that ended with a 200 without Set-Cookie, no-store, private or a Vary
   of a star, if a request sent no no-store and is unauthenticated, on a public route, or got a response
   marked public; a job does not look at routes.
   */
  lemma ProducedExactly(cfg: Config, requests: seq<Request>, events: seq<Event>, i: nat, k: Key, e: Entry)
    ensures ProducedAt(cfg, requests, events, i, k, e) <==>
      i < |events| && events[i].t < |requests| && events[i].choice.Ended? && events[i].choice.outcome.Finish? &&
      var r, e0 := requests[events[i].t], events[i].choice.outcome.e;
      && r.key == k && e == Recorded(e0, r)
      && e0.status == 200 && !e0.setCookie && !e0.noStore && !e0.priv && e0.vary != Star
      && if r.prefetch then !r.auth || e0.pub else !r.noStore && (!r.auth || k in cfg.publicKeys || e0.pub)
  {
  }

  /** Policy let the producer share: it was unauthenticated, on a public route, or its response is public. */
  lemma ProducerMayShare(cfg: Config, requests: seq<Request>, events: seq<Event>, i: nat, k: Key, e: Entry)
    requires ProducedAt(cfg, requests, events, i, k, e)
    ensures i < |events| && events[i].t < |requests|
    ensures e.status == 200 && !e.setCookie && !e.noStore && !e.priv && e.vary != Star
    ensures var p := requests[events[i].t];
      p.key == k && (!p.auth || k in cfg.publicKeys || e.pub) && (p.prefetch || !p.noStore)
  {
    ProducedExactly(cfg, requests, events, i, k, e);
  }

  /**
   Authentication isolation: what is stored, or reaches any request as a hit or coalesced, was produced
   for the same key by a request that was unauthenticated or on a public route, or is marked public.
   So nothing a handler returns to an authenticated request on a private route reaches another
   request through the cache, unless it is marked public.
   */
  lemma AuthenticationIsolated(cfg: Config, requests: seq<Request>, events: seq<Event>, s: State, t: nat)
      returns (i: nat)
    requires Reached(cfg, requests, events, s) && t < |s.threads| && s.threads[t].pc.Done?
    requires s.threads[t].pc.d.Hit? || s.threads[t].pc.d.Coalesced?
    ensures i < |events| && events[i].t < |requests|
    ensures ProducedAt(cfg, requests, events, i, s.threads[t].req.key, s.threads[t].pc.d.e)
    ensures var p, r, e := requests[events[i].t], s.threads[t].req, s.threads[t].pc.d.e;
      && p.key == r.key
      && (!p.auth || p.key in cfg.publicKeys || e.pub) && (!r.auth || r.key in cfg.publicKeys || e.pub)
  {
    hide Recorded, Run, Start, WillStore, Storable, ProducedAt;
    i := DeliveredWasProduced(cfg, requests, events, s, t);
    ProducerMayShare(cfg, requests, events, i, s.threads[t].req.key, s.threads[t].pc.d.e);
    DeliveryPolicy(cfg, requests, events, s, t);
  }
}
