/**
 What the protocol does with responses, said without its own rules: who may coalesce with whom, which
 responses a run stores, how often and under which keys, and that nothing else is ever in the store.
 */
module ProtocolPolicy {
  import opened Bytes
  import opened Protocol
  import opened ProtocolInvariant
  import opened ProtocolSafety
  import opened ProtocolTheorems
  import opened ProtocolOnce
  import opened ProtocolOutcome

  // ---- Who may coalesce ----

  /** The request may share a call with anyone who asks for the same: no directives, and nothing of its own. */
  predicate Anyone(cfg: Config, r: Request) {
    r.prefetch || (!r.noCache && !r.noStore && (r.key in cfg.publicKeys || (!r.auth && !r.cookies)))
  }

  /** It may share one with its own session only. */
  predicate OwnSession(cfg: Config, r: Request) {
    !Anyone(cfg, r) && r.auth && cfg.coalesceAuthenticated
  }

  predicate MayShareCall(cfg: Config, r: Request, ck: CallKey) {
    match ck
    case Shared(k) => Anyone(cfg, r) && k == r.key
    case PerUser(k, sid) => OwnSession(cfg, r) && k == r.key && sid == r.sid
  }

  lemma KeyIs(cfg: Config, r: Request, ck: CallKey)
    ensures CoalesceKey(cfg, r) == Some(ck) <==> MayShareCall(cfg, r, ck)
    ensures CoalesceKey(cfg, r) == None <==> !Anyone(cfg, r) && !OwnSession(cfg, r)
  {
  }

  /** Any thread that leads, waits for, or was served by a call may share it. */
  lemma CallBoundary(cfg: Config, requests: seq<Request>, events: seq<Event>, s: State, t: nat, id: nat)
    requires Reached(cfg, requests, events, s) && t < |s.threads|
    requires var th := s.threads[t];
      LeaderCall(th.pc) == Some(id) || th.pc == Waiting(id) || (th.got.Some? && th.got.value.0 == id)
    ensures id < |s.objs| && MayShareCall(cfg, s.threads[t].req, s.objs[id].key)
  {
    RunInv(cfg, requests, events);
    assert Linked(cfg, s, t, s.threads[t]);
    hide Inv, CoalesceKey;
    KeyIs(cfg, s.threads[t].req, s.objs[id].key);
  }

  ghost predicate LeadersMayShare(cfg: Config, s: State) {
    forall id :: 0 <= id < |s.objs| ==>
      s.objs[id].leader < |s.threads| && MayShareCall(cfg, s.threads[s.objs[id].leader].req, s.objs[id].key)
  }

  lemma StepLeaders(cfg: Config, s: State, ev: Event)
    requires Inv(cfg, s) && LeadersMayShare(cfg, s) && Step(cfg, s, ev).Some?
    ensures LeadersMayShare(cfg, Step(cfg, s, ev).value)
  {
    var th', effect := StepMoves(cfg, s, ev);
    var s' := Step(cfg, s, ev).value;
    MovesThreads(cfg, s, ev.t, th', effect, s');
    assert th'.req == s.threads[ev.t].req;
    if effect.NewCall? { KeyIs(cfg, th'.req, effect.ck); }
    hide Inv, Step, Plan, LocalOk, CoalesceKey, MayShareCall, QuietMove, InflightOf, WaitedOn;
    forall id | 0 <= id < |s'.objs|
      ensures s'.objs[id].leader < |s'.threads|
      ensures MayShareCall(cfg, s'.threads[s'.objs[id].leader].req, s'.objs[id].key)
    {
      if id < |s.objs| { CallIdentity(cfg, s, ev.t, th', effect, s', id); }
    }
  }

  lemma {:induction false} RunLeaders(cfg: Config, requests: seq<Request>, events: seq<Event>)
    requires Run(cfg, Start(requests), events).Some?
    ensures LeadersMayShare(cfg, Run(cfg, Start(requests), events).value)
    decreases |events|
  {
    hide Step, Inv, MayShareCall;
    if events != [] {
      RunLeaders(cfg, requests, events[..|events| - 1]);
      RunInv(cfg, requests, events[..|events| - 1]);
      StepLeaders(cfg, Run(cfg, Start(requests), events[..|events| - 1]).value, events[|events| - 1]);
    }
  }

  /**
   Whoever waits for a call, or was served by it, asked for the same as its leader; and they are of one
   authenticated session, or neither has directives or anything of its own.
   */
  lemma OneCallOneSession(cfg: Config, requests: seq<Request>, events: seq<Event>, s: State, t: nat, id: nat)
    requires Reached(cfg, requests, events, s) && t < |s.threads|
    requires s.threads[t].pc == Waiting(id) || (s.threads[t].got.Some? && s.threads[t].got.value.0 == id)
    ensures id < |s.objs| && s.objs[id].leader < |s.threads|
    ensures var r, q := s.threads[t].req, s.threads[s.objs[id].leader].req;
      && r.key == q.key
      && ((r.auth && q.auth && r.sid == q.sid) || (Anyone(cfg, r) && Anyone(cfg, q)))
  {
    CallBoundary(cfg, requests, events, s, t, id);
    RunLeaders(cfg, requests, events);
    hide Run, Start, Anyone;
  }

  /** A request looks up the store exactly if it sent no no-cache, and a job always does. */
  lemma LooksUpIff(cfg: Config, s: State, ev: Event)
    requires Step(cfg, s, ev).Some? && s.threads[ev.t].pc == Lookup
    ensures ev.choice.Got? <==> s.threads[ev.t].req.prefetch || !s.threads[ev.t].req.noCache
  {
    hide CoalesceKey, Permitted, Matches, EverSet, InflightOf, WaitedOn;
  }

  /** A request whose lookup does not answer goes on to a call exactly if it may share one, and else alone. */
  lemma MissGoes(cfg: Config, requests: seq<Request>, events: seq<Event>, s: State, ev: Event)
    requires Reached(cfg, requests, events, s) && Step(cfg, s, ev).Some?
    requires s.threads[ev.t].pc.Lookup? || s.threads[ev.t].pc.LookupVariant?
    ensures ev.t < |Step(cfg, s, ev).value.threads|
    ensures var r, pc := s.threads[ev.t].req, Step(cfg, s, ev).value.threads[ev.t].pc;
      && (pc.Done? || pc.LookupVariant? || pc == Join || pc == PassRunning)
      && (pc == Join ==> Anyone(cfg, r) || OwnSession(cfg, r))
      && (pc == PassRunning ==> !Anyone(cfg, r) && !OwnSession(cfg, r))
  {
    RunInv(cfg, requests, events);
    var th := s.threads[ev.t];
    var th', effect := StepMoves(cfg, s, ev);
    MovesThreads(cfg, s, ev.t, th', effect, Step(cfg, s, ev).value);
    KeyIs(cfg, th.req, Shared(th.req.key));
    hide Run, Start, Inv, Step, CoalesceKey, Permitted, Matches, Anyone, OwnSession;
  }

  // ---- What a run of the handler stores ----

  /** The response is 200 and says nothing against being stored, and may be shared beyond its request. */
  predicate Keeps(cfg: Config, r: Request, e: Entry) {
    && e.status == 200 && !e.setCookie && !e.noStore && !e.priv && e.vary != Star
    && if r.prefetch then !r.auth || e.pub else !r.noStore && (!r.auth || r.key in cfg.publicKeys || e.pub)
  }

  lemma KeepsIs(cfg: Config, r: Request, e: Entry)
    ensures Keeps(cfg, r, e) <==> WillStore(cfg, r, Recorded(e, r))
    ensures Recorded(e, r).vary == e.vary
  {
  }

  /** How many Sets the end of a handler run leads to: none, one, or with a list in Vary a second, of a variant. */
  function SetsFor(cfg: Config, r: Request, ran: Option<Outcome>): nat {
    if ran.Some? && ran.value.Finish? && Keeps(cfg, r, ran.value.e) then
      if ran.value.e.vary.Fields? && !r.prefetch then 2 else 1
    else 0
  }

  /** The Sets of thread t so far. */
  function SetsOf(events: seq<Event>, t: nat): nat {
    if events == [] then 0
    else
      var ev := events[|events| - 1];
      SetsOf(events[..|events| - 1], t) + if ev.t == t && ev.choice.SetDone? then 1 else 0
  }

  predicate SetsFit(cfg: Config, th: Thread, ran: Option<Outcome>, n: nat) {
    match th.pc
    case Lookup => ran == None && n == 0
    case LookupVariant(_) => ran == None && n == 0
    case Join => ran == None && n == 0
    case Waiting(_) => ran == None && n == 0
    case Check(_) => ran == None && n == 0
    case CheckVariant(_, _) => ran == None && n == 0
    case Running(_) => ran == None && n == 0
    case PassRunning => ran == None && n == 0
    case Storing(_, e) => IsRun(th.req, ran, e) && n == 0 && SetsFor(cfg, th.req, ran) > 0
    case StoringVariant(_, e) => IsRun(th.req, ran, e) && n == 1 && SetsFor(cfg, th.req, ran) == 2
    case PassStoring(e) => IsRun(th.req, ran, e) && n == 0 && SetsFor(cfg, th.req, ran) > 0
    case PassStoringVariant(e) => IsRun(th.req, ran, e) && n == 1 && SetsFor(cfg, th.req, ran) == 2
    case _ => n == SetsFor(cfg, th.req, ran)
  }

  function NextSets(c: Choice, n: nat): nat {
    if c.SetDone? then n + 1 else n
  }

  lemma BeforeSets(cfg: Config, th: Thread, c: Choice, inflight: Option<nat>, next: nat, call: Option<Call>,
                   ran: Option<Outcome>, n: nat)
    requires BeforeFunction(th.pc) && SetsFit(cfg, th, ran, n)
    ensures var step := StepBefore(cfg, th, c, inflight, next, call);
      step.Some? ==> SetsFit(cfg, step.value.0, NextRan(c, ran), NextSets(c, n))
  {
    hide CoalesceKey, Permitted, Matches, Keeps;
  }

  lemma LeaderSets(cfg: Config, th: Thread, c: Choice, ran: Option<Outcome>, n: nat)
    requires LocalOk(cfg, th) && !BeforeFunction(th.pc) && !InPass(th.pc) && SetsFit(cfg, th, ran, n)
    ensures var step := StepLeader(cfg, th, c);
      step.Some? ==> SetsFit(cfg, step.value.0, NextRan(c, ran), NextSets(c, n))
  {
    if c.Ended? && c.outcome.Finish? { KeepsIs(cfg, th.req, c.outcome.e); }
    hide CoalesceKey, Permitted, Matches, Storable, WillStore, Recorded, Shareable, StoreKeyOf, Keeps;
  }

  lemma PassSets(cfg: Config, th: Thread, c: Choice, ran: Option<Outcome>, n: nat)
    requires LocalOk(cfg, th) && InPass(th.pc) && SetsFit(cfg, th, ran, n)
    ensures var step := StepPass(cfg, th, c);
      step.Some? ==> SetsFit(cfg, step.value.0, NextRan(c, ran), NextSets(c, n))
  {
    if c.Ended? && c.outcome.Finish? { KeepsIs(cfg, th.req, c.outcome.e); }
    hide CoalesceKey, Permitted, Matches, Storable, WillStore, Recorded, StoreKeyOf, Keeps;
  }

  lemma StepSets(cfg: Config, s: State, ev: Event, th': Thread, effect: Effect, ran: Option<Outcome>, n: nat)
    requires Inv(cfg, s) && ev.t < |s.threads| && SetsFit(cfg, s.threads[ev.t], ran, n)
    requires Plan(cfg, s, s.threads[ev.t], ev.choice) == Some((th', effect))
    ensures SetsFit(cfg, th', NextRan(ev.choice, ran), NextSets(ev.choice, n))
  {
    var th := s.threads[ev.t];
    assert LocalOk(cfg, th);
    hide Inv, StepBefore, StepLeader, StepPass, LocalOk, SetsFit, InflightOf, WaitedOn;
    if BeforeFunction(th.pc) {
      BeforeSets(cfg, th, ev.choice, InflightOf(cfg, s, th), |s.objs|, WaitedOn(s, th), ran, n);
    } else if InPass(th.pc) {
      PassSets(cfg, th, ev.choice, ran, n);
    } else {
      LeaderSets(cfg, th, ev.choice, ran, n);
    }
  }

  lemma {:induction false} RunSets(cfg: Config, requests: seq<Request>, events: seq<Event>, t: nat)
    requires Run(cfg, Start(requests), events).Some? && t < |requests|
    ensures var s := Run(cfg, Start(requests), events).value;
      t < |s.threads| && s.threads[t].req == requests[t]
      && SetsFit(cfg, s.threads[t], Ran(events, t), SetsOf(events, t))
    decreases |events|
  {
    RequestsFixed(cfg, requests, events);
    if events != [] {
      var prefix, ev := events[..|events| - 1], events[|events| - 1];
      RunStep(cfg, requests, events);
      RunInv(cfg, requests, prefix);
      RunSets(cfg, requests, prefix, t);
      var s := Run(cfg, Start(requests), prefix).value;
      hide Run, Start, Inv, Step, SetsFit, Plan;
      var th', effect := StepMoves(cfg, s, ev);
      MovesThreads(cfg, s, ev.t, th', effect, Step(cfg, s, ev).value);
      if ev.t == t {
        StepSets(cfg, s, ev, th', effect, Ran(prefix, t), SetsOf(prefix, t));
      }
    }
  }

  /**
   By the time a request or job is finished, it has made exactly the Sets that its own handler run asks for:
   none if it did not run the handler or the response may not be kept, else one, or two with a list in
   Vary; a job never makes the second.
   */
  lemma SetsMade(cfg: Config, requests: seq<Request>, events: seq<Event>, s: State, t: nat)
    requires Reached(cfg, requests, events, s) && t < |requests|
    ensures t < |s.threads|
    ensures s.threads[t].pc.Done? || s.threads[t].pc.Panicked? ==>
      SetsOf(events, t) == match Ran(events, t)
        case Some(Finish(e)) =>
          var r := requests[t];
          if && e.status == 200 && !e.setCookie && !e.noStore && !e.priv && e.vary != Star
             && if r.prefetch then !r.auth || e.pub else !r.noStore && (!r.auth || r.key in cfg.publicKeys || e.pub)
          then if e.vary.Fields? && !r.prefetch then 2 else 1
          else 0
        case _ => 0
  {
    hide Run, Start, Ran, SetsOf, SetsFor, Keeps, SetsFit;
    RunSets(cfg, requests, events, t);
    SetsDone(cfg, s.threads[t], Ran(events, t), SetsOf(events, t));
    SetsForIs(cfg, requests[t], Ran(events, t));
  }

  lemma SetsDone(cfg: Config, th: Thread, ran: Option<Outcome>, n: nat)
    requires SetsFit(cfg, th, ran, n)
    ensures th.pc.Done? || th.pc.Panicked? ==> n == SetsFor(cfg, th.req, ran)
  {
  }

  lemma SetsForIs(cfg: Config, r: Request, ran: Option<Outcome>)
    ensures SetsFor(cfg, r, ran) == match ran
      case Some(Finish(e)) =>
        if && e.status == 200 && !e.setCookie && !e.noStore && !e.priv && e.vary != Star
           && if r.prefetch then !r.auth || e.pub else !r.noStore && (!r.auth || r.key in cfg.publicKeys || e.pub)
        then if e.vary.Fields? && !r.prefetch then 2 else 1
        else 0
      case _ => 0
  {
  }

  /** With a store that rejects nothing, a leader that has made a Set is marked as having stored. */
  predicate Marked(th: Thread, n: nat) {
    th.isLeader && n > 0 ==> th.stored
  }

  lemma BeforeMarked(cfg: Config, th: Thread, c: Choice, inflight: Option<nat>, next: nat, call: Option<Call>, n: nat)
    requires LocalOk(cfg, th) && BeforeFunction(th.pc) && Marked(th, n) && (th.pc.Join? ==> n == 0)
    ensures var step := StepBefore(cfg, th, c, inflight, next, call);
      step.Some? ==> Marked(step.value.0, NextSets(c, n))
  {
    hide CoalesceKey, Permitted, Matches;
  }

  lemma LeaderMarked(cfg: Config, th: Thread, c: Choice, n: nat)
    requires !BeforeFunction(th.pc) && !InPass(th.pc) && Marked(th, n) && (c.SetDone? ==> c.ok)
    requires th.pc.StoringVariant? ==> n > 0
    ensures var step := StepLeader(cfg, th, c);
      step.Some? ==> Marked(step.value.0, NextSets(c, n))
  {
    hide CoalesceKey, Permitted, Matches, Storable, WillStore, Recorded, StoreKeyOf;
  }

  lemma PassMarked(cfg: Config, th: Thread, c: Choice, n: nat)
    requires LocalOk(cfg, th) && InPass(th.pc)
    ensures var step := StepPass(cfg, th, c);
      step.Some? ==> Marked(step.value.0, NextSets(c, n))
  {
    hide Storable, WillStore, Recorded, StoreKeyOf;
  }

  lemma StepMarked(cfg: Config, s: State, ev: Event, th': Thread, effect: Effect, ran: Option<Outcome>, n: nat)
    requires cfg.reliable && Inv(cfg, s) && ev.t < |s.threads| && SetsFit(cfg, s.threads[ev.t], ran, n)
    requires Marked(s.threads[ev.t], n) && Allowed(cfg, s, s.threads[ev.t], ev.choice)
    requires Plan(cfg, s, s.threads[ev.t], ev.choice) == Some((th', effect))
    ensures Marked(th', NextSets(ev.choice, n))
  {
    var th := s.threads[ev.t];
    assert LocalOk(cfg, th);
    assert th.pc.Join? ==> n == 0;
    assert th.pc.StoringVariant? ==> n > 0;
    hide Inv, StepBefore, StepLeader, StepPass, LocalOk, SetsFit, InflightOf, WaitedOn, Marked, EverSet;
    if BeforeFunction(th.pc) {
      BeforeMarked(cfg, th, ev.choice, InflightOf(cfg, s, th), |s.objs|, WaitedOn(s, th), n);
    } else if InPass(th.pc) {
      PassMarked(cfg, th, ev.choice, n);
    } else {
      LeaderMarked(cfg, th, ev.choice, n);
    }
  }

  lemma {:induction false} RunMarked(cfg: Config, requests: seq<Request>, events: seq<Event>, t: nat)
    requires cfg.reliable && Run(cfg, Start(requests), events).Some? && t < |requests|
    ensures var s := Run(cfg, Start(requests), events).value;
      t < |s.threads| && s.threads[t].req == requests[t] && Marked(s.threads[t], SetsOf(events, t))
    decreases |events|
  {
    RequestsFixed(cfg, requests, events);
    if events != [] {
      var prefix, ev := events[..|events| - 1], events[|events| - 1];
      RunStep(cfg, requests, events);
      RunInv(cfg, requests, prefix);
      RunMarked(cfg, requests, prefix, t);
      RunSets(cfg, requests, prefix, t);
      var s := Run(cfg, Start(requests), prefix).value;
      hide Run, Start, Inv, SetsFit, Plan, Marked, Allowed;
      var th', effect := StepMoves(cfg, s, ev);
      MovesThreads(cfg, s, ev.t, th', effect, Step(cfg, s, ev).value);
      if ev.t == t {
        StepMarked(cfg, s, ev, th', effect, Ran(prefix, t), SetsOf(prefix, t));
      }
    }
  }

  /**
   With a store that neither evicts, expires nor rejects, and no Vary on the responses for a key, at most one
   leader of a call that anyone may share ever makes a Set.
   */
  lemma OneLeaderStores(cfg: Config, requests: seq<Request>, events: seq<Event>, s: State, k: Key, t: nat, u: nat)
    requires cfg.reliable && Reached(cfg, requests, events, s) && t < |requests| && u < |requests|
    requires forall i :: 0 <= i < |events| && events[i].t < |requests| && requests[events[i].t].key == k ==>
      (events[i].choice.Ended? && events[i].choice.outcome.Finish? ==> events[i].choice.outcome.e.vary == NoVary)
    requires t < |s.threads| && u < |s.threads| && s.threads[t].isLeader && s.threads[u].isLeader
    requires requests[t].key == k && Anyone(cfg, requests[t]) && SetsOf(events, t) > 0
    requires requests[u].key == k && Anyone(cfg, requests[u]) && SetsOf(events, u) > 0
    ensures t == u
  {
    assert PlainRun(requests, events, k);
    RunMarked(cfg, requests, events, t);
    RunMarked(cfg, requests, events, u);
    KeyIs(cfg, requests[t], Shared(k));
    KeyIs(cfg, requests[u], Shared(k));
    hide Run, Start, Anyone, CoalesceKey, SetsOf;
    AtMostOneCommit(cfg, requests, events, s, k, t, u);
  }

  // ---- What is in the store ----

  /** The request's values of the names in Vary, in their order. */
  predicate IsSignature(sig: seq<(Bytes, Bytes)>, names: seq<Bytes>, r: Request) {
    && |sig| == |names|
    && forall i :: 0 <= i < |names| ==>
         sig[i].0 == names[i] && sig[i].1 == if names[i] in r.header then r.header[names[i]] else []
  }

  /** A successful Set of e under k: first under the request's own key, then under that of its variant. */
  predicate Puts(th: Thread, c: Choice, k: StoreKey, e: Entry) {
    c == SetDone(true) &&
    match th.pc
    case Storing(_, x) => x == e && k == Primary(th.req.key)
    case PassStoring(x) => x == e && k == Primary(th.req.key)
    case StoringVariant(_, x) =>
      && x == e && e.vary.Fields? && k.Variant? && k.key == th.req.key && k.lead == e.vary.lead
      && IsSignature(k.sig, e.vary.names, th.req)
    case PassStoringVariant(x) =>
      && x == e && e.vary.Fields? && k.Variant? && k.key == th.req.key && k.lead == e.vary.lead
      && IsSignature(k.sig, e.vary.names, th.req)
    case _ => false
  }

  lemma SignatureIs(sig: seq<(Bytes, Bytes)>, names: seq<Bytes>, r: Request)
    ensures IsSignature(sig, names, r) <==> sig == Signature(names, r)
  {
  }

  lemma PutsIff(cfg: Config, th: Thread, c: Choice, inflight: Option<nat>, next: nat, call: Option<Call>,
                k: StoreKey, e: Entry)
    requires th.pc.StoringVariant? || th.pc.PassStoringVariant? ==> th.pc.e.vary.Fields?
    ensures var step := StepThread(cfg, th, c, inflight, next, call);
      step.Some? ==> (step.value.1 == Effect.Put(k, e) <==> Puts(th, c, k, e))
  {
    if k.Variant? && e.vary.Fields? { SignatureIs(k.sig, e.vary.names, th.req); }
    hide CoalesceKey, Permitted, Matches, Storable, WillStore, Recorded, Signature, IsSignature;
  }

  /** Event j of the run is a successful Set of e under k. */
  predicate PutAt(cfg: Config, requests: seq<Request>, events: seq<Event>, j: nat, k: StoreKey, e: Entry) {
    && j < |events|
    && match Run(cfg, Start(requests), events[..j])
       case None => false
       case Some(s) => events[j].t < |s.threads| && Puts(s.threads[events[j].t], events[j].choice, k, e)
  }

  lemma PutPrefix(cfg: Config, requests: seq<Request>, events: seq<Event>, j: nat, k: StoreKey, e: Entry)
    requires events != []
    ensures PutAt(cfg, requests, events, j, k, e) <==>
      PutAt(cfg, requests, events[..|events| - 1], j, k, e) ||
        (j == |events| - 1 && PutAt(cfg, requests, events, j, k, e))
  {
    hide Run, Puts, Start;
    if j < |events| - 1 {
      assert events[..|events| - 1][..j] == events[..j];
    }
  }

  lemma VariantFields(cfg: Config, th: Thread, ran: Option<Outcome>, n: nat)
    requires SetsFit(cfg, th, ran, n) && (th.pc.StoringVariant? || th.pc.PassStoringVariant?)
    ensures th.pc.e.vary.Fields?
  {
    if ran.Some? && ran.value.Finish? { KeepsIs(cfg, th.req, ran.value.e); }
    hide Keeps, Recorded, WillStore;
  }

  lemma StepPuts(cfg: Config, requests: seq<Request>, events: seq<Event>, k: StoreKey, e: Entry)
    requires events != [] && Run(cfg, Start(requests), events).Some?
    ensures Run(cfg, Start(requests), events[..|events| - 1]).Some?
    ensures e in EverSet(Run(cfg, Start(requests), events).value, k) <==>
      e in EverSet(Run(cfg, Start(requests), events[..|events| - 1]).value, k) ||
        PutAt(cfg, requests, events, |events| - 1, k, e)
  {
    var prefix, ev := events[..|events| - 1], events[|events| - 1];
    RunStep(cfg, requests, events);
    RunInv(cfg, requests, prefix);
    RequestsFixed(cfg, requests, prefix);
    var s := Run(cfg, Start(requests), prefix).value;
    hide Run, Start, Inv, Plan, SetsFit, Puts, EverSet, ApplyEffect, StepThread, Allowed;
    assert ev.t < |s.threads|;
    RunSets(cfg, requests, prefix, ev.t);
    var th := s.threads[ev.t];
    if th.pc.StoringVariant? || th.pc.PassStoringVariant? {
      VariantFields(cfg, th, Ran(prefix, ev.t), SetsOf(prefix, ev.t));
    }
    var th', effect := StepMoves(cfg, s, ev);
    PlanPuts(cfg, s, ev.t, ev.choice, th', effect, k, e);
    EverAfter(s, ev.t, effect, k);
    EverKept(ApplyEffect(s, ev.t, effect), Step(cfg, s, ev).value, k);
  }

  lemma EverKept(s: State, s': State, k: StoreKey)
    requires s'.ever == s.ever
    ensures EverSet(s', k) == EverSet(s, k)
  {
  }

  lemma PlanPuts(cfg: Config, s: State, t: nat, c: Choice, th': Thread, effect: Effect, k: StoreKey, e: Entry)
    requires t < |s.threads| && Plan(cfg, s, s.threads[t], c) == Some((th', effect))
    requires s.threads[t].pc.StoringVariant? || s.threads[t].pc.PassStoringVariant? ==> s.threads[t].pc.e.vary.Fields?
    ensures effect == Effect.Put(k, e) <==> Puts(s.threads[t], c, k, e)
  {
    var th := s.threads[t];
    PutsIff(cfg, th, c, InflightOf(cfg, s, th), |s.objs|, WaitedOn(s, th), k, e);
    hide StepThread, InflightOf, WaitedOn, Puts;
  }

  /**
   What is in the store under a key, ever, is exactly what some run stored there: under its own key, or under
   the variant of it that its own headers and the response's Vary make.
   */
  lemma {:induction false} StoredIff(cfg: Config, requests: seq<Request>, events: seq<Event>, s: State, k: StoreKey,
                                     e: Entry)
    requires Reached(cfg, requests, events, s)
    ensures e in EverSet(s, k) <==> exists j :: PutAt(cfg, requests, events, j, k, e)
    decreases |events|
  {
    if events != [] {
      var prefix := events[..|events| - 1];
      StepPuts(cfg, requests, events, k, e);
      var s0 := Run(cfg, Start(requests), prefix).value;
      StoredIff(cfg, requests, prefix, s0, k, e);
      hide Run, Start, EverSet, PutAt;
      if j :| PutAt(cfg, requests, events, j, k, e) { PutPrefix(cfg, requests, events, j, k, e); }
      if j :| PutAt(cfg, requests, prefix, j, k, e) { PutPrefix(cfg, requests, events, j, k, e); }
    }
  }

  // ---- What lookups read ----

  /**
   A lookup or re-check finds only what was Set under the request's own key, and one for a variant only what
   was Set under the variant that the request's headers and the primary entry's Vary make.
   */
  lemma ReadsUnder(cfg: Config, s: State, ev: Event, e: Entry)
    requires Step(cfg, s, ev).Some? && ev.choice == Got(Some(e))
    ensures ev.t < |s.threads|
    ensures var r, pc := s.threads[ev.t].req, s.threads[ev.t].pc;
      && (pc.Lookup? || pc.Check? ==> e in EverSet(s, Primary(r.key)))
      && ((pc.LookupVariant? || pc.CheckVariant?) && pc.primary.vary.Fields? ==>
            exists sig :: IsSignature(sig, pc.primary.vary.names, r)
                          && e in EverSet(s, Variant(r.key, sig, pc.primary.vary.lead)))
  {
    var th := s.threads[ev.t];
    hide EverSet, Plan, ApplyEffect, IsSignature, Signature;
    if (th.pc.LookupVariant? || th.pc.CheckVariant?) && th.pc.primary.vary.Fields? {
      SignatureIs(Signature(th.pc.primary.vary.names, th.req), th.pc.primary.vary.names, th.req);
    }
  }

  /** A job that finds its key in the store before it starts does nothing at all. */
  lemma JobSkips(cfg: Config, requests: seq<Request>, events: seq<Event>, s: State, ev: Event, e: Entry)
    requires Reached(cfg, requests, events, s) && Step(cfg, s, ev).Some? && ev.choice == Got(Some(e))
    requires s.threads[ev.t].req.prefetch && s.threads[ev.t].pc == Lookup
    ensures var s' := Step(cfg, s, ev).value;
      && s'.ever == s.ever && s'.calls == s.calls && s'.objs == s.objs
      && ev.t < |s'.threads| && s'.threads[ev.t].pc == Done(Nothing) && s'.threads[ev.t].runs == 0
  {
    RunInv(cfg, requests, events);
    assert LocalOk(cfg, s.threads[ev.t]);
    hide Run, Start, Inv, CoalesceKey, Permitted, Matches, EverSet, InflightOf, WaitedOn;
  }
}
