/**
 The request protocol running on the two-tier store itself: every lookup of a request or job is a
 Get of the store and takes its outcome from it, and every store of a response is a Set. The store does
 not keep the reference flag of a response being complete; but for that, each run of the two together is
 a run of the protocol alone, so whatever holds of the protocol's runs holds here.
 */
module JoinedMachine {
  import opened Bytes
  import opened Tiered
  import opened StoreBridge
  import opened StoreJoin
  import opened ProtocolAlike
  import Arena
  import P = Protocol
  import T = TierMachine
  import L = TierLimits
  import R = TierReliable
  import ProtocolOrigin

  datatype Joint = Joint(protocol: P.State, store: T.State)

  /**
   A step of a thread that is no store access, a step in the midst of a store call, a Get that returns
   to its thread, or a Set that writes its record, or is refused. The thread of that Set may go on
   while the Set still has L1 to fill, which allows more runs than there are.
   */
  datatype JointEvent =
    | Inner(p: P.Event) | Between(s: T.Event) | Reads(p: P.Event, s: T.Event) | Writes(p: P.Event, s: T.Event)

  /** What a call that has returned tells its thread. */
  ghost function Told(c: T.Caller): Option<P.Choice> {
    match c.pc
    case Answered(r, _) => Some(P.Got(Some(ViewOf(r))))
    case Done => Some(P.Got(None))
    case _ => None
  }

  /** The response a thread is about to store. */
  function ToStore(pc: P.PC): Option<P.Entry> {
    match pc
    case Storing(_, e) => Some(e)
    case StoringVariant(_, e) => Some(e)
    case PassStoring(e) => Some(e)
    case PassStoringVariant(e) => Some(e)
    case _ => None
  }

  predicate WritesRecord(s: T.State, ev: T.Event) {
    ev.t < |s.callers| && s.callers[ev.t].req.SetOf? && ev.choice.Written?
  }

  /** The Get of caller g is the lookup of that thread, and returns that choice in store s'. */
  ghost predicate ReadsFor(a: Addresses, th: P.Thread, c: P.Choice, s: T.State, g: nat, s': T.State) {
    && g < |s.callers| && g < |s'.callers| && P.StoreKeyOf(th) in a.used
    && s.callers[g].req == T.GetOf(a.hash(P.StoreKeyOf(th))) && Told(s'.callers[g]) == Some(c)
  }

  /** The Set of caller t stores that thread's response, and that choice says whether it was accepted. */
  ghost predicate WritesFor(a: Addresses, th: P.Thread, c: P.Choice, s: T.State, t: nat, s': T.State) {
    && t < |s.callers| && t < |s'.callers| && P.StoreKeyOf(th) in a.used
    && s.callers[t].req.SetOf? && s.callers[t].req.h == a.hash(P.StoreKeyOf(th))
    && ToStore(th.pc).Some? && Whole(ToStore(th.pc).value) == ViewOf(s.callers[t].req.entry)
    && c == P.SetDone(s'.callers[t].pc.Accepted?)
  }

  ghost predicate Meets(a: Addresses, j: Joint, e: JointEvent, s': T.State) {
    match e
    case Inner(p) => !p.choice.Got? && !p.choice.SetDone?
    case Between(s) => !WritesRecord(j.store, s)
    case Reads(p, s) =>
      p.t < |j.protocol.threads| && ReadsFor(a, j.protocol.threads[p.t], p.choice, j.store, s.t, s')
    case Writes(p, s) =>
      && p.t < |j.protocol.threads| && WritesRecord(j.store, s)
      && WritesFor(a, j.protocol.threads[p.t], p.choice, j.store, s.t, s')
  }

  /** A store that is to be reliable loses nothing: every Set fits, and nothing is deleted or expires. */
  ghost predicate Behaves(cfg: P.Config, s: T.State, ev: T.Event, s': T.State) {
    cfg.reliable ==> R.Harmless(s, ev) && R.Unexpired(s')
  }

  ghost function StoreStep(cfg: P.Config, s: T.State, ev: T.Event): Option<T.State> {
    var s' := T.Step(s, ev);
    if s'.Some? && Behaves(cfg, s, ev, s'.value) then s' else None
  }

  ghost function JointStep(cfg: P.Config, a: Addresses, j: Joint, e: JointEvent): Option<Joint> {
    var ps' := if e.Between? then Some(j.protocol) else Act(cfg, j.protocol, e.p);
    var s' := if e.Inner? then Some(j.store) else StoreStep(cfg, j.store, e.s);
    if ps'.Some? && s'.Some? && Meets(a, j, e, s'.value) then Some(Joint(ps'.value, s'.value)) else None
  }

  ghost function JointRun(cfg: P.Config, a: Addresses, j: Joint, events: seq<JointEvent>): Option<Joint> {
    if events == [] then Some(j) else
    match JointRun(cfg, a, j, events[..|events| - 1])
    case None => None
    case Some(j') => JointStep(cfg, a, j', events[|events| - 1])
  }

  function ProtocolPart(events: seq<JointEvent>): seq<P.Event> {
    if events == [] then [] else
    var e := events[|events| - 1];
    ProtocolPart(events[..|events| - 1]) + if e.Between? then [] else [e.p]
  }

  function StorePart(events: seq<JointEvent>): seq<T.Event> {
    if events == [] then [] else
    var e := events[|events| - 1];
    StorePart(events[..|events| - 1]) + if e.Inner? then [] else [e.s]
  }

  // ---- What every joint step keeps ----

  ghost predicate ReadsBound(s: T.State) {
    forall g :: 0 <= g < |s.callers| ==> ReadBound(s.ever, s.callers[g])
  }

  /** What the store keeps; reliable, it holds all that was Set, unexpired. */
  ghost predicate StoreInv(cfg: P.Config, s: T.State) {
    && T.Inv(s) && T.Ready(s) && AllFaithful(s) && ReadsBound(s)
    && (cfg.reliable ==> R.HoldsAll(s) && R.Unexpired(s))
  }

  lemma ReadBoundGrows(s: T.State, s': T.State, c: T.Caller)
    requires ReadBound(s.ever, c) && s.ever <= s'.ever
    ensures ReadBound(s'.ever, c)
  {
    if c.req.GetOf? && c.pc.ReadL2? {
      var b :| (c.req.h, b) in s.ever && b.expire == c.pc.r.expiresAt;
      assert (c.req.h, b) in s'.ever;
    }
  }

  lemma OwnReadBound(s: T.State, g: nat, h: nat, c: T.Choice)
    requires T.Inv(s) && T.Ready(s) && g < |s.callers| && s.callers[g].req == T.GetOf(h)
    requires T.StepGet(s, g, h, c).Some?
    ensures ReadBound(s.ever, T.StepGet(s, g, h, c).value.callers[g])
  {
    var found := Arena.Find(T.ShardOf(s, h), h);
    assert T.ShardOk(s.ever, s.maxSize, T.ShardOf(s, h));
    assert T.FoundOk(s.ever, h, found);
    hide T.Inv, Arena.Find, Arena.Consistent, Arena.Expired, Fresh, Arena.ImageOf, T.ShardOk;
    if c.Decoded? && s.callers[g].pc.MissedL1? {
      Shard.ImageStatus(found.value);
    }
  }

  lemma OwnStepBound(s: T.State, t: nat, c: T.Choice)
    requires T.Inv(s) && T.Ready(s) && t < |s.callers| && T.StepAt(s, t, c).Some?
    ensures ReadBound(T.StepAt(s, t, c).value.ever, T.StepAt(s, t, c).value.callers[t])
  {
    L.StepFrame(s, t, c);
    if s.callers[t].req.GetOf? {
      OwnReadBound(s, t, s.callers[t].req.h, c);
      R.GetShards(s, t, s.callers[t].req.h, c);
    }
    hide T.Inv, T.Ready, T.StepGet, T.StepSet, T.StepDel;
  }

  lemma EverGrows(s: T.State, t: nat, c: T.Choice)
    requires T.Inv(s) && T.Ready(s) && t < |s.callers| && T.StepAt(s, t, c).Some?
    ensures s.ever <= T.StepAt(s, t, c).value.ever
  {
    if s.callers[t].req.SetOf? && c.Written? {
      var h, entry, ttl := s.callers[t].req.h, s.callers[t].req.entry, s.callers[t].req.ttl;
      BindingWritten(s, t, h, entry, ttl, c);
    } else {
      EverUnchanged(s, t, c);
    }
    hide T.Inv, T.Ready, T.StepGet, T.StepSet, T.StepDel;
  }

  lemma StoreStepKeeps(cfg: P.Config, s: T.State, ev: T.Event)
    requires StoreInv(cfg, s) && StoreStep(cfg, s, ev).Some?
    ensures StoreInv(cfg, StoreStep(cfg, s, ev).value)
  {
    var s1, s' := s.(now := ev.now), StoreStep(cfg, s, ev).value;
    L.KeptAfter(s, ev);
    T.ClockKeeps(s, ev.now);
    hide T.Inv, R.HoldsAll, T.StepAt, Faithful, ReadBound, R.Harmless, R.Unexpired;
    T.InvReady(s1);
    hide T.Ready;
    L.StepFrame(s1, ev.t, ev.choice);
    OwnStepBound(s1, ev.t, ev.choice);
    EverGrows(s1, ev.t, ev.choice);
    if cfg.reliable {
      R.StepHolds(s, ev);
    }
    forall g | 0 <= g < |s'.callers|
      ensures ReadBound(s'.ever, s'.callers[g])
    {
      if g != ev.t {
        ReadBoundGrows(s, s', s.callers[g]);
      }
    }
  }

  // ---- Every choice of a joint step is allowed ----

  lemma ActIsStep(cfg: P.Config, s: P.State, ev: P.Event)
    requires Act(cfg, s, ev).Some? && P.Allowed(cfg, s, s.threads[ev.t], ev.choice)
    ensures P.Step(cfg, s, ev) == Act(cfg, s, ev)
  {
    hide P.Plan, P.ApplyEffect, P.Allowed;
  }

  /** Only a Set changes what the protocol has seen. */
  lemma QuietAct(cfg: P.Config, s: P.State, ev: P.Event)
    requires Act(cfg, s, ev).Some? && !ev.choice.SetDone?
    ensures Act(cfg, s, ev).value.ever == s.ever
  {
    NoPut(cfg, s.threads[ev.t], ev.choice, P.InflightOf(cfg, s, s.threads[ev.t]), |s.objs|,
          P.WaitedOn(s, s.threads[ev.t]));
    hide P.StepThread, P.InflightOf, P.WaitedOn;
  }

  lemma NoPut(cfg: P.Config, th: P.Thread, c: P.Choice, inflight: Option<nat>, next: nat, call: Option<P.Call>)
    ensures var step := P.StepThread(cfg, th, c, inflight, next, call);
      step.Some? && !c.SetDone? ==> !step.value.1.Put?
  {
    hide P.CoalesceKey, P.Permitted, P.Matches, P.WillStore, P.Recorded, P.Signature;
  }

  lemma SetPlan(cfg: P.Config, th: P.Thread, ok: bool, inflight: Option<nat>, next: nat, call: Option<P.Call>)
    ensures var step := P.StepThread(cfg, th, P.SetDone(ok), inflight, next, call);
      step.Some? ==> ToStore(th.pc).Some? && step.value.1 == P.PutIf(ok, P.StoreKeyOf(th), ToStore(th.pc).value)
  {
    hide P.CoalesceKey, P.Permitted, P.Matches, P.WillStore, P.Recorded, P.StoreKeyOf;
  }

  lemma SetAct(cfg: P.Config, s: P.State, t: nat, ok: bool)
    requires Act(cfg, s, P.Event(t, P.SetDone(ok))).Some?
    ensures ToStore(s.threads[t].pc).Some?
    ensures var th := s.threads[t];
      Act(cfg, s, P.Event(t, P.SetDone(ok))).value.ever ==
        P.ApplyEffect(s, t, P.PutIf(ok, P.StoreKeyOf(th), ToStore(th.pc).value)).ever
  {
    SetPlan(cfg, s.threads[t], ok, P.InflightOf(cfg, s, s.threads[t]), |s.objs|, P.WaitedOn(s, s.threads[t]));
    hide P.StepThread, P.InflightOf, P.WaitedOn, P.ApplyEffect, P.StoreKeyOf, ToStore, P.PutIf;
  }

  lemma SameEverSets(ps: P.State, ps': P.State, s: T.State, a: Addresses)
    requires ps'.ever == ps.ever && SameSets(ps, s, a)
    ensures SameSets(ps', s, a)
  {
    hide SeenUnder, Looks;
    forall k: P.StoreKey | k in a.used
      ensures Looks(P.EverSet(ps', k)) == SeenUnder(s, a.hash(k))
    {
      assert P.EverSet(ps', k) == P.EverSet(ps, k);
    }
  }

  /** The clock reading of a step taken first. */
  lemma AtItsTime(cfg: P.Config, a: Addresses, ps: P.State, s: T.State, ev: T.Event)
    requires StoreInv(cfg, s) && SameSets(ps, s, a) && StoreStep(cfg, s, ev).Some?
    ensures var s1 := s.(now := ev.now); var ev1 := T.Event(ev.t, s1.now, ev.choice);
      && StoreInv(cfg, s1) && SameSets(ps, s1, a) && (cfg.reliable ==> R.Harmless(s1, ev1))
      && T.Step(s1, ev1) == StoreStep(cfg, s, ev)
  {
    var s1 := s.(now := ev.now);
    T.ClockKeeps(s, ev.now);
    T.InvReady(s1);
    EverGrows(s1, ev.t, ev.choice);
    L.StepFrame(s1, ev.t, ev.choice);
    assert s1.(now := s1.now) == s1;
    if cfg.reliable {
      hide T.Ready, T.Inv, T.StepAt, R.Harmless, Arena.Find, SeenUnder, Faithful, ReadBound, Arena.Expired;
      R.SameHolds(s, s1);
      R.UnexpiredBefore(s1, StoreStep(cfg, s, ev).value);
      SameHarmless(s, s1, ev);
    }
    hide T.Ready, T.Inv, T.StepAt, R.Harmless, Arena.Find, Faithful, ReadBound, Arena.Expired, R.HoldsAll, R.Unexpired;
    SameSeenSets(ps, s, s1, a);
  }

  lemma SameHarmless(s: T.State, s1: T.State, ev: T.Event)
    requires s1 == s.(now := ev.now) && R.Harmless(s, ev)
    ensures R.Harmless(s1, T.Event(ev.t, s1.now, ev.choice))
  {
    hide Arena.Accepts, Arena.Overflows;
  }

  lemma SameSeenSets(ps: P.State, s: T.State, s': T.State, a: Addresses)
    requires s'.ever == s.ever && SameSets(ps, s, a)
    ensures SameSets(ps, s', a)
  {
    hide SeenUnder, Looks;
    forall k: P.StoreKey | k in a.used
      ensures Looks(P.EverSet(ps, k)) == SeenUnder(s', a.hash(k))
    {
      SameSeen(s, s', a.hash(k));
    }
  }

  /** A Get ends without an answer by finding nothing unexpired in the arena, or too late. */
  lemma MissesFrom(s: T.State, g: nat, h: nat, c: T.Choice)
    requires T.Ready(s) && g < |s.callers| && s.callers[g].req == T.GetOf(h) && T.StepGet(s, g, h, c).Some?
    ensures T.StepGet(s, g, h, c).value.callers[g].pc.Done? ==>
      c.Tick? && (s.callers[g].pc.MissedL1? || s.callers[g].pc.ReadL2?)
  {
    hide Arena.Find, Arena.Consistent, Arena.Expired, Fresh, Arena.ImageOf;
  }

  lemma MissIsAllowed(cfg: P.Config, a: Addresses, ps: P.State, th: P.Thread, s: T.State, ev: T.Event, s': T.State)
    requires StoreInv(cfg, s) && SameSets(ps, s, a) && ev.now == s.now && T.Step(s, ev) == Some(s')
    requires ReadsFor(a, th, P.Got(None), s, ev.t, s')
    ensures P.Allowed(cfg, ps, th, P.Got(None))
  {
    var g, h := ev.t, a.hash(P.StoreKeyOf(th));
    L.NowIs(s, g, ev.choice);
    L.StepFrame(s, g, ev.choice);
    MissesFrom(s, g, h, ev.choice);
    hide T.Inv, T.Ready, T.StepGet, SameSets, AllFaithful, P.Allowed, ReadBound, R.HoldsAll, R.Unexpired, T.Step;
    if s.callers[g].pc.MissedL1? {
      MissAllowed(cfg, ps, th, s, g, a);
    } else {
      assert cfg.reliable ==> ReadBound(s.ever, s.callers[g]);
      ExpiredMissAllowed(cfg, ps, th, s, g, a);
    }
  }

  /** What the Get returns is a choice the protocol allows, with the right flag on the entry. */
  lemma ReadAllowed(cfg: P.Config, a: Addresses, ps: P.State, th: P.Thread, c: P.Choice, s: T.State,
                    ev: T.Event, s': T.State) returns (d: P.Choice)
    requires StoreInv(cfg, s) && SameSets(ps, s, a) && ev.now == s.now && T.Step(s, ev) == Some(s')
    requires ReadsFor(a, th, c, s, ev.t, s') && StoreInv(cfg, s') && SameSets(ps, s', a)
    ensures P.Allowed(cfg, ps, th, d) && SameChoice(c, d) && d.Got?
  {
    var g := ev.t;
    L.NowIs(s, g, ev.choice);
    L.StepFrame(s, g, ev.choice);
    hide T.Inv, T.Ready, SameSets, AllFaithful, P.Allowed, ReadsBound, R.HoldsAll, R.Unexpired, T.Step, ViewOf,
      T.StepAt;
    d := P.Got(None);
    if s'.callers[g].pc.Answered? {
      WholeOfView(s'.callers[g].pc.r);
      var e := AnswerAllowed(cfg, ps, th, s', g, a);
      d := P.Got(Some(e));
    } else {
      MissIsAllowed(cfg, a, ps, th, s, ev, s');
    }
  }

  lemma WholeOfView(r: Arena.ResponseEntry)
    ensures Whole(ViewOf(r)) == ViewOf(r)
  {
  }

  lemma StampedFirst(s: T.State, ev: T.Event)
    requires T.Inv(s) && ev.now == s.now && T.Step(s, ev).Some? && WritesRecord(s, ev)
    ensures s.callers[ev.t].pc.Stamped?
  {
    L.NowIs(s, ev.t, ev.choice);
    hide T.Inv, T.Ready, Shard.IsStamped, Shard.IsRecordOf, Arena.Encodable, Arena.Accepts, Arena.Put;
  }

  // ---- One joint step, next to an alike state of a run of the protocol ----

  lemma BetweenJoins(cfg: P.Config, a: Addresses, qs: P.State, s: T.State, ev: T.Event)
    requires StoreInv(cfg, s) && SameSets(qs, s, a) && StoreStep(cfg, s, ev).Some? && !WritesRecord(s, ev)
    ensures SameSets(qs, StoreStep(cfg, s, ev).value, a)
  {
    OtherStepsSeeNothing(qs, s, ev, a);
    hide StoreInv, SameSets, Behaves, T.Step;
  }

  /** A step of the protocol that goes alike and keeps what was seen. */
  ghost predicate Follows(cfg: P.Config, a: Addresses, qs: P.State, ev: P.Event, j: Joint) {
    && P.Step(cfg, qs, ev).Some? && Alike(j.protocol, P.Step(cfg, qs, ev).value)
    && SameSets(P.Step(cfg, qs, ev).value, j.store, a)
  }

  lemma AlikeThread(ps: P.State, qs: P.State, t: nat)
    requires Alike(ps, qs) && t < |ps.threads|
    ensures t < |qs.threads| && SameThread(ps.threads[t], qs.threads[t])
  {
  }

  lemma ReadJoins(cfg: P.Config, a: Addresses, j: Joint, qs: P.State, p: P.Event, ev: T.Event)
      returns (d: P.Choice)
    requires StoreInv(cfg, j.store) && SameSets(qs, j.store, a) && Alike(j.protocol, qs)
    requires JointStep(cfg, a, j, Reads(p, ev)).Some?
    ensures SameChoice(p.choice, d)
    ensures Follows(cfg, a, qs, P.Event(p.t, d), JointStep(cfg, a, j, Reads(p, ev)).value)
  {
    var ps, s, s1 := j.protocol, j.store, j.store.(now := ev.now);
    var ev1 := T.Event(ev.t, s1.now, ev.choice);
    var j' := JointStep(cfg, a, j, Reads(p, ev)).value;
    hide StoreInv, SameSets, Act, StoreStep, T.Step, P.StoreKeyOf, Alike, SameThread, SameChoice, Told;
    assert !WritesRecord(s, ev);
    AlikeThread(ps, qs, p.t);
    SameRequest(ps.threads[p.t], qs.threads[p.t]);
    BetweenJoins(cfg, a, qs, s, ev);
    StoreStepKeeps(cfg, s, ev);
    AtItsTime(cfg, a, qs, s, ev);
    d := ReadAllowed(cfg, a, qs, qs.threads[p.t], p.choice, s1, ev1, j'.store);
    ActAlike(cfg, ps, qs, p.t, p.choice, d);
    assert P.Event(p.t, p.choice) == p;
    ActIsStep(cfg, qs, P.Event(p.t, d));
    QuietAct(cfg, qs, P.Event(p.t, d));
    SameEverSets(qs, Act(cfg, qs, P.Event(p.t, d)).value, j'.store, a);
  }

  lemma AlikeStored(th: P.Thread, uh: P.Thread)
    requires SameThread(th, uh) && ToStore(th.pc).Some?
    ensures ToStore(uh.pc).Some? && Whole(ToStore(uh.pc).value) == Whole(ToStore(th.pc).value)
  {
    assert WholeThread(th).pc == WholeThread(uh).pc;
    hide Whole;
  }

  lemma SetSame(ok: bool)
    ensures SameChoice(P.SetDone(ok), P.SetDone(ok))
  {
  }

  lemma WriteJoins(cfg: P.Config, a: Addresses, j: Joint, qs: P.State, p: P.Event, ev: T.Event)
    requires StoreInv(cfg, j.store) && SameSets(qs, j.store, a) && Apart(a) && Alike(j.protocol, qs)
    requires JointStep(cfg, a, j, Writes(p, ev)).Some?
    ensures Follows(cfg, a, qs, p, JointStep(cfg, a, j, Writes(p, ev)).value)
  {
    var ps, s1 := j.protocol, j.store.(now := ev.now);
    var ev1 := T.Event(ev.t, s1.now, ev.choice);
    var j' := JointStep(cfg, a, j, Writes(p, ev)).value;
    AlikeThread(ps, qs, p.t);
    var th := qs.threads[p.t];
    SameRequest(ps.threads[p.t], th);
    AlikeStored(ps.threads[p.t], th);
    var ok, k, e := j'.store.callers[ev.t].pc.Accepted?, P.StoreKeyOf(th), ToStore(th.pc).value;
    AtItsTime(cfg, a, qs, j.store, ev);
    assert p == P.Event(p.t, P.SetDone(ok));
    SetSame(ok);
    hide SameSets, Act, StoreStep, T.Step, P.StoreKeyOf, R.Harmless, T.Inv, T.Ready, ViewOf, P.ApplyEffect, ToStore;
    hide Alike, SameThread, SameChoice, Whole;
    StampedFirst(s1, ev1);
    SetAllowed(cfg, qs, th, s1, ev.t, a, k, e, ev.choice);
    ActAlike(cfg, ps, qs, p.t, p.choice, p.choice);
    ActIsStep(cfg, qs, p);
    SetAct(cfg, qs, p.t, ok);
    SameEverSets(P.ApplyEffect(qs, p.t, P.PutIf(ok, k, e)), Act(cfg, qs, p).value, j'.store, a);
  }

  lemma InnerJoins(cfg: P.Config, a: Addresses, j: Joint, qs: P.State, p: P.Event)
    requires SameSets(qs, j.store, a) && Alike(j.protocol, qs) && JointStep(cfg, a, j, Inner(p)).Some?
    ensures Follows(cfg, a, qs, p, JointStep(cfg, a, j, Inner(p)).value)
  {
    assert SameChoice(p.choice, p.choice);
    assert p == P.Event(p.t, p.choice);
    hide SameSets, Act, Alike, SameChoice;
    ActAlike(cfg, j.protocol, qs, p.t, p.choice, p.choice);
    ActIsStep(cfg, qs, p);
    QuietAct(cfg, qs, p);
    SameEverSets(qs, Act(cfg, qs, p).value, j.store, a);
  }

  /**
   Every joint step is one the protocol allows on its own, but for the flag of what a lookup found, and
   both have still seen the same Sets.
   */
  lemma StepJoins(cfg: P.Config, a: Addresses, j: Joint, qs: P.State, e: JointEvent) returns (d: P.Choice)
    requires StoreInv(cfg, j.store) && SameSets(qs, j.store, a) && Apart(a) && Alike(j.protocol, qs)
    requires JointStep(cfg, a, j, e).Some?
    ensures var j' := JointStep(cfg, a, j, e).value;
      && (if e.Between? then Alike(j'.protocol, qs) && SameSets(qs, j'.store, a)
          else SameChoice(e.p.choice, d) && Follows(cfg, a, qs, P.Event(e.p.t, d), j'))
      && (if e.Inner? then j'.store == j.store else T.Step(j.store, e.s) == Some(j'.store))
      && StoreInv(cfg, j'.store)
  {
    hide StoreInv, SameSets, Act, P.Step, T.Step, Behaves, ReadsFor, WritesFor, Apart, Alike, Follows;
    d := P.Tick;
    match e {
      case Inner(p) => d := p.choice; InnerJoins(cfg, a, j, qs, p);
      case Between(s) => StoreStepKeeps(cfg, j.store, s); BetweenJoins(cfg, a, qs, j.store, s);
      case Reads(p, s) => StoreStepKeeps(cfg, j.store, s); d := ReadJoins(cfg, a, j, qs, p, s);
      case Writes(p, s) => d := p.choice; StoreStepKeeps(cfg, j.store, s); WriteJoins(cfg, a, j, qs, p, s);
    }
  }

  /**
   Whatever a thread is about to store, a partial response too, a Set of an entry that looks like it can
   store: that is a joint step, and the response is then among those Set under its key.
   */
  lemma StoresAny(cfg: P.Config, a: Addresses, j: Joint, t: nat, e: P.Entry, ev: T.Event)
    requires t < |j.protocol.threads| && ToStore(j.protocol.threads[t].pc) == Some(e)
    requires P.StoreKeyOf(j.protocol.threads[t]) in a.used && T.Inv(j.store)
    requires StoreStep(cfg, j.store, ev).Some? && WritesRecord(j.store, ev)
    requires var call := j.store.callers[ev.t].req;
      call.h == a.hash(P.StoreKeyOf(j.protocol.threads[t])) && ViewOf(call.entry) == Whole(e)
    ensures ev.t < |StoreStep(cfg, j.store, ev).value.callers|
    ensures var ok := StoreStep(cfg, j.store, ev).value.callers[ev.t].pc.Accepted?;
      var next := JointStep(cfg, a, j, Writes(P.Event(t, P.SetDone(ok)), ev));
      next.Some? && (ok ==> e in P.EverSet(next.value.protocol, P.StoreKeyOf(j.protocol.threads[t])))
  {
    CallersStay(cfg, j.store, ev);
    var ok := StoreStep(cfg, j.store, ev).value.callers[ev.t].pc.Accepted?;
    hide *;
    StoringActs(cfg, j.protocol, t, ok);
    StoringPuts(cfg, j.protocol, t, ok, e);
    WritesHere(cfg, a, j, t, e, ev, ok);
  }

  lemma WritesHere(cfg: P.Config, a: Addresses, j: Joint, t: nat, e: P.Entry, ev: T.Event, ok: bool)
    requires t < |j.protocol.threads| && ToStore(j.protocol.threads[t].pc) == Some(e)
    requires P.StoreKeyOf(j.protocol.threads[t]) in a.used
    requires StoreStep(cfg, j.store, ev).Some? && WritesRecord(j.store, ev)
    requires var call := j.store.callers[ev.t].req;
      call.h == a.hash(P.StoreKeyOf(j.protocol.threads[t])) && ViewOf(call.entry) == Whole(e)
    requires var s' := StoreStep(cfg, j.store, ev).value; ev.t < |s'.callers| && ok == s'.callers[ev.t].pc.Accepted?
    requires Act(cfg, j.protocol, P.Event(t, P.SetDone(ok))).Some?
    ensures var next := JointStep(cfg, a, j, Writes(P.Event(t, P.SetDone(ok)), ev));
      next.Some? && next.value.protocol == Act(cfg, j.protocol, P.Event(t, P.SetDone(ok))).value
  {
    hide ViewOf, Whole, P.StoreKeyOf, StoreStep, Act, ToStore;
  }

  lemma StoringPuts(cfg: P.Config, s: P.State, t: nat, ok: bool, e: P.Entry)
    requires t < |s.threads| && ToStore(s.threads[t].pc) == Some(e)
    requires Act(cfg, s, P.Event(t, P.SetDone(ok))).Some?
    ensures ok ==>
      e in P.EverSet(Act(cfg, s, P.Event(t, P.SetDone(ok))).value, P.StoreKeyOf(s.threads[t]))
  {
    var k := P.StoreKeyOf(s.threads[t]);
    SetAct(cfg, s, t, ok);
    EverPut(s, t, ok, k, e, k);
    hide Act, P.ApplyEffect, P.StoreKeyOf, ToStore, P.PutIf;
    SameEver(P.ApplyEffect(s, t, P.PutIf(ok, k, e)), Act(cfg, s, P.Event(t, P.SetDone(ok))).value, k);
  }

  lemma SameEver(s: P.State, s': P.State, k: P.StoreKey)
    requires s'.ever == s.ever
    ensures P.EverSet(s', k) == P.EverSet(s, k)
  {
  }

  lemma CallersStay(cfg: P.Config, s: T.State, ev: T.Event)
    requires T.Inv(s) && StoreStep(cfg, s, ev).Some?
    ensures |StoreStep(cfg, s, ev).value.callers| == |s.callers|
  {
    L.OthersKept(s, ev);
    hide T.Inv, T.Step, Behaves;
  }

  lemma StoringActs(cfg: P.Config, s: P.State, t: nat, ok: bool)
    requires t < |s.threads| && ToStore(s.threads[t].pc).Some?
    ensures Act(cfg, s, P.Event(t, P.SetDone(ok))).Some?
  {
    hide P.CoalesceKey, P.StoreKeyOf, P.PutIf;
  }

  // ---- Whole runs ----

  lemma StartJoins(cfg: P.Config, calls: seq<T.Request>, numShards: nat, maxSize: nat)
    requires numShards > 0 && AllFaithful(T.Start(calls, numShards, maxSize))
    ensures StoreInv(cfg, T.Start(calls, numShards, maxSize))
  {
    R.StartHolds(calls, numShards, maxSize);
    hide T.Inv, T.Ready, R.HoldsAll, AllFaithful;
  }

  /** The same steps of the same threads, but for the flags of what lookups found. */
  predicate SameEvents(xs: seq<P.Event>, ys: seq<P.Event>) {
    |xs| == |ys| && forall i :: 0 <= i < |xs| ==> xs[i].t == ys[i].t && SameChoice(xs[i].choice, ys[i].choice)
  }

  function From(requests: seq<P.Request>, calls: seq<T.Request>, numShards: nat, maxSize: nat): Joint {
    Joint(P.Start(requests), T.Start(calls, numShards, maxSize))
  }

  /**
   Any number of requests and jobs on any number of store calls, interleaved in any way: their run is a
   run of the protocol, but for the flags of what lookups found, and a run of the store. So lookups answer
   what was Set and nothing else, and a store all of whose Sets fit, that deletes nothing, and whose
   entries do not expire is reliable.
   */
  lemma {:induction false} RunJoins(cfg: P.Config, a: Addresses, requests: seq<P.Request>, calls: seq<T.Request>,
                                    numShards: nat, maxSize: nat, events: seq<JointEvent>)
      returns (run: seq<P.Event>)
    requires numShards > 0 && Apart(a) && AllFaithful(T.Start(calls, numShards, maxSize))
    requires JointRun(cfg, a, From(requests, calls, numShards, maxSize), events).Some?
    ensures P.Run(cfg, P.Start(requests), run).Some? && SameEvents(ProtocolPart(events), run)
    ensures var j := JointRun(cfg, a, From(requests, calls, numShards, maxSize), events).value;
      && Alike(j.protocol, P.Run(cfg, P.Start(requests), run).value)
      && SameSets(P.Run(cfg, P.Start(requests), run).value, j.store, a) && StoreInv(cfg, j.store)
      && T.Run(T.Start(calls, numShards, maxSize), StorePart(events)) == Some(j.store)
    decreases |events|
  {
    hide StoreInv, SameSets, JointStep, P.Step, T.Step, T.Start, P.Start, Apart, AllFaithful, Alike, SameChoice;
    if events == [] {
      run := [];
      StartJoins(cfg, calls, numShards, maxSize);
      StartSameSets(requests, calls, numShards, maxSize, a);
      AlikeSelf(P.Start(requests));
    } else {
      var prefix, e := events[..|events| - 1], events[|events| - 1];
      var before := RunJoins(cfg, a, requests, calls, numShards, maxSize, prefix);
      var j, qs := JointRun(cfg, a, From(requests, calls, numShards, maxSize), prefix).value,
                   P.Run(cfg, P.Start(requests), before).value;
      var d := StepJoins(cfg, a, j, qs, e);
      LastPart(events);
      run := if e.Between? then before else before + [P.Event(e.p.t, d)];
      if !e.Between? {
        OneMore(cfg, P.Start(requests), before, qs, P.Event(e.p.t, d));
        SameMore(ProtocolPart(prefix), before, e.p, P.Event(e.p.t, d));
      }
      hide P.Run, SameEvents, ProtocolPart;
    }
  }

  lemma OneMore(cfg: P.Config, s: P.State, run: seq<P.Event>, qs: P.State, ev: P.Event)
    requires P.Run(cfg, s, run) == Some(qs)
    ensures P.Run(cfg, s, run + [ev]) == P.Step(cfg, qs, ev)
  {
    assert (run + [ev])[..|run|] == run;
    hide P.Step;
  }

  lemma SameMore(xs: seq<P.Event>, ys: seq<P.Event>, x: P.Event, y: P.Event)
    requires SameEvents(xs, ys) && x.t == y.t && SameChoice(x.choice, y.choice)
    ensures SameEvents(xs + [x], ys + [y])
  {
    hide SameChoice;
  }

  lemma LastPart(events: seq<JointEvent>)
    requires events != []
    ensures var e, prefix := events[|events| - 1], events[..|events| - 1];
      && ProtocolPart(events) == ProtocolPart(prefix) + (if e.Between? then [] else [e.p])
      && (if e.Inner? then StorePart(events) == StorePart(prefix)
          else StorePart(events) != [] && StorePart(events)[..|StorePart(events)| - 1] == StorePart(prefix)
               && StorePart(events)[|StorePart(events)| - 1] == e.s)
  {
  }

  lemma AlikeDelivery(ps: P.State, qs: P.State, t: nat)
    requires Alike(ps, qs) && t < |ps.threads| && ps.threads[t].pc.Done?
    requires ps.threads[t].pc.d.Hit? || ps.threads[t].pc.d.Coalesced?
    ensures t < |qs.threads| && qs.threads[t].req == ps.threads[t].req && qs.threads[t].pc.Done?
    ensures qs.threads[t].pc.d.Hit? || qs.threads[t].pc.d.Coalesced?
    ensures Whole(qs.threads[t].pc.d.e) == Whole(ps.threads[t].pc.d.e)
  {
    AlikeThread(ps, qs, t);
    var th, uh := ps.threads[t], qs.threads[t];
    assert WholeThread(th).pc == WholeThread(uh).pc && WholeThread(th).req == WholeThread(uh).req;
    hide Alike, Whole;
  }

  /**
   Authentication isolation on the tiers themselves: a hit or a coalesced delivery was produced by some
   request or job for its key that policy allowed to share it, and reaches only who may have it.
   */
  lemma JointlyIsolated(cfg: P.Config, a: Addresses, requests: seq<P.Request>, calls: seq<T.Request>,
                        numShards: nat, maxSize: nat, events: seq<JointEvent>, j: Joint, t: nat)
      returns (producer: P.Request)
    requires numShards > 0 && Apart(a) && AllFaithful(T.Start(calls, numShards, maxSize))
    requires JointRun(cfg, a, From(requests, calls, numShards, maxSize), events) == Some(j)
    requires t < |j.protocol.threads| && j.protocol.threads[t].pc.Done?
    requires j.protocol.threads[t].pc.d.Hit? || j.protocol.threads[t].pc.d.Coalesced?
    ensures var r, e := j.protocol.threads[t].req, j.protocol.threads[t].pc.d.e;
      && producer in requests && producer.key == r.key
      && (!producer.auth || r.key in cfg.publicKeys || e.pub) && (!r.auth || r.key in cfg.publicKeys || e.pub)
  {
    var run := RunJoins(cfg, a, requests, calls, numShards, maxSize, events);
    var qs := P.Run(cfg, P.Start(requests), run).value;
    AlikeDelivery(j.protocol, qs, t);
    SamePublic(qs.threads[t].pc.d.e, j.protocol.threads[t].pc.d.e);
    hide P.Run, P.Start, T.Run, T.Start, StoreInv, SameSets, AllFaithful, JointRun, ProtocolOrigin.ProducedAt, Alike;
    hide Whole;
    var i := ProtocolOrigin.AuthenticationIsolated(cfg, requests, run, qs, t);
    producer := requests[run[i].t];
  }

  lemma SamePublic(e: P.Entry, f: P.Entry)
    requires Whole(e) == Whole(f)
    ensures e.pub == f.pub
  {
    assert Whole(e).pub == Whole(f).pub;
  }
}
