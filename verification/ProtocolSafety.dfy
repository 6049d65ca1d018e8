/** Safety of the request protocol over every run. */
module ProtocolSafety {
  import opened Bytes
  import opened Protocol
  import opened ProtocolInvariant

  // ---- Which call a thread leads ----

  function LeaderCall(pc: PC): Option<nat> {
    match pc
    case Check(id) => Some(id)
    case CheckVariant(id, _) => Some(id)
    case Running(id) => Some(id)
    case Storing(id, _) => Some(id)
    case StoringVariant(id, _) => Some(id)
    case Finishing(id, _) => Some(id)
    case Returned(id, _) => Some(id)
    case Removed(id, _) => Some(id)
    case _ => None
  }

  /** The call is still in the map of in-flight calls. */
  predicate Holding(pc: PC) {
    LeaderCall(pc).Some? && !pc.Removed?
  }

  /** The leader's function is executing. */
  predicate Executing(pc: PC) {
    Holding(pc) && !pc.Returned?
  }

  predicate SameRole(th: Thread, th': Thread) {
    LeaderCall(th'.pc) == LeaderCall(th.pc) && Holding(th'.pc) == Holding(th.pc)
  }

  /** How a step's effect on the shared state goes with the thread's move. */
  predicate EffectFits(cfg: Config, th: Thread, th': Thread, effect: Effect,
                       inflight: Option<nat>, next: nat, call: Option<Call>)
  {
    match effect
    case NewCall(ck) =>
      && th.pc.Join? && inflight == None && CoalesceKey(cfg, th.req) == Some(ck)
      && th'.pc == Check(next) && th'.got == th.got
    case Assign(id, entry, err) =>
      && Executing(th.pc) && LeaderCall(th.pc) == Some(id)
      && th'.pc == Returned(id, Result(entry, err, false)) && th'.got == th.got
    case Delete(ck) =>
      && th.pc.Returned? && CoalesceKey(cfg, th.req) == Some(ck)
      && th'.pc == Removed(th.pc.call, th.pc.res) && th'.got == th.got
    case Close(id, panicked) =>
      && th.pc.Removed? && th.pc.call == id && th.pc.res.panicked == panicked
      && LeaderCall(th'.pc) == None && !th'.pc.Waiting? && th'.got == th.got
    case Put(_, e) =>
      && Storable(e) && SameRole(th, th') && th'.got == th.got
      && !th'.pc.Returned? && !th'.pc.Removed? && !th'.pc.Waiting? && !th.pc.Waiting?
    case NoEffect => QuietMove(th, th', inflight, call)
  }

  predicate QuietMove(th: Thread, th': Thread, inflight: Option<nat>, call: Option<Call>) {
    if th.pc.Waiting? then
      && LeaderCall(th'.pc) == None && !th'.pc.Waiting?
      && (th'.got == th.got ||
          (call.Some? && call.value.done &&
             th'.got == Some((th.pc.call, Result(call.value.entry, call.value.err, false)))))
    else if th'.pc.Waiting? then th.pc.Join? && inflight == Some(th'.pc.call) && th'.got == th.got
    else SameRole(th, th') && th'.got == th.got && !th'.pc.Removed? && (th'.pc.Returned? ==> th'.pc.res.panicked)
  }

  lemma BeforeFits(cfg: Config, th: Thread, c: Choice, inflight: Option<nat>, next: nat, call: Option<Call>)
    requires LocalOk(cfg, th) && BeforeFunction(th.pc)
    ensures var step := StepBefore(cfg, th, c, inflight, next, call);
      step.Some? ==> EffectFits(cfg, th, step.value.0, step.value.1, inflight, next, call)
  {
    hide Storable, CoalesceKey, Permitted, Matches;
  }

  lemma LeaderFits(cfg: Config, th: Thread, c: Choice, inflight: Option<nat>, next: nat, call: Option<Call>)
    requires LocalOk(cfg, th) && !BeforeFunction(th.pc) && !InPass(th.pc)
    ensures var step := StepLeader(cfg, th, c);
      step.Some? ==> EffectFits(cfg, th, step.value.0, step.value.1, inflight, next, call)
  {
    if th.pc.Storing? || th.pc.StoringVariant? {
      ShareableStorable(cfg, CoalesceKey(cfg, th.req).value, th.pc.e);
    }
    if th.pc.Removed? && !th.pc.res.panicked {
      RemovedKeeps(cfg, th);
    }
    hide Storable, CoalesceKey, Permitted, Matches, Shareable, WillStore, Recorded, AfterDo, ResultOk;
  }

  lemma PassFits(cfg: Config, th: Thread, c: Choice, inflight: Option<nat>, next: nat, call: Option<Call>)
    requires LocalOk(cfg, th) && InPass(th.pc)
    ensures var step := StepPass(cfg, th, c);
      step.Some? ==> EffectFits(cfg, th, step.value.0, step.value.1, inflight, next, call)
  {
    hide Storable, CoalesceKey, Permitted, Matches, WillStore, Recorded;
  }

  lemma StepFits(cfg: Config, th: Thread, c: Choice, inflight: Option<nat>, next: nat, call: Option<Call>)
    requires LocalOk(cfg, th)
    ensures var step := StepThread(cfg, th, c, inflight, next, call);
      step.Some? ==> EffectFits(cfg, th, step.value.0, step.value.1, inflight, next, call)
  {
    hide LocalOk, StepBefore, StepPass, StepLeader, EffectFits;
    if BeforeFunction(th.pc) {
      BeforeFits(cfg, th, c, inflight, next, call);
    } else if InPass(th.pc) {
      PassFits(cfg, th, c, inflight, next, call);
    } else {
      LeaderFits(cfg, th, c, inflight, next, call);
    }
  }

  // ---- The invariant over the shared state ----

  /** A thread and the calls it waits for, leads, or was served by. */
  predicate Linked(cfg: Config, s: State, t: nat, th: Thread) {
    var ck := CoalesceKey(cfg, th.req);
    && (th.pc.Waiting? ==> th.pc.call < |s.objs| && Some(s.objs[th.pc.call].key) == ck)
    && (LeaderCall(th.pc).Some? ==> LeadsCall(s, t, th, LeaderCall(th.pc).value, ck))
    && (th.got.Some? ==> WasServed(s, th.got.value.0, th.got.value.1, ck))
  }

  predicate LeadsCall(s: State, t: nat, th: Thread, id: nat, ck: Option<CallKey>) {
    && id < |s.objs| && s.objs[id].leader == t && Some(s.objs[id].key) == ck && !s.objs[id].done
    && (Holding(th.pc) ==> s.objs[id].key in s.calls && s.calls[s.objs[id].key] == id)
    && (th.pc.Returned? || th.pc.Removed? ==> !th.pc.res.panicked ==>
          s.objs[id].entry == th.pc.res.entry && s.objs[id].err == th.pc.res.err)
  }

  predicate WasServed(s: State, id: nat, res: Result, ck: Option<CallKey>) {
    && id < |s.objs| && s.objs[id].done && Some(s.objs[id].key) == ck
    && res == Result(s.objs[id].entry, s.objs[id].err, false)
  }

  predicate CallLinked(s: State, ck: CallKey, id: nat) {
    id < |s.objs| && s.objs[id].key == ck && s.objs[id].leader < |s.threads|
    && Holding(s.threads[s.objs[id].leader].pc) && LeaderCall(s.threads[s.objs[id].leader].pc) == Some(id)
  }

  /** An open call has a live leader; what any call shares is shareable under its key. */
  predicate ObjOk(cfg: Config, s: State, id: nat)
    requires id < |s.objs|
  {
    && (!s.objs[id].done ==>
          s.objs[id].leader < |s.threads| && LeaderCall(s.threads[s.objs[id].leader].pc) == Some(id))
    && (s.objs[id].err == NoError && s.objs[id].entry.Some? ==> Shareable(cfg, s.objs[id].key, s.objs[id].entry.value))
  }

  ghost predicate Inv(cfg: Config, s: State) {
    && (forall t :: 0 <= t < |s.threads| ==> LocalOk(cfg, s.threads[t]))
    && (forall t :: 0 <= t < |s.threads| ==> Linked(cfg, s, t, s.threads[t]))
    && (forall ck :: ck in s.calls ==> CallLinked(s, ck, s.calls[ck]))
    && (forall id :: 0 <= id < |s.objs| ==> ObjOk(cfg, s, id))
    && (forall k :: k in s.ever ==> forall e :: e in s.ever[k] ==> Storable(e))
  }

  // ---- Every step keeps the invariant ----

  predicate Moves(cfg: Config, s: State, t: nat, th': Thread, effect: Effect, s': State) {
    && t < |s.threads| && LocalOk(cfg, th') && th'.req == s.threads[t].req
    && EffectFits(cfg, s.threads[t], th', effect, InflightOf(cfg, s, s.threads[t]), |s.objs|, WaitedOn(s, s.threads[t]))
    && s' == ApplyEffect(s, t, effect).(threads := s.threads[t := th'])
  }

  lemma LeaderIs(cfg: Config, s: State, t: nat)
    requires Inv(cfg, s) && t < |s.threads| && LeaderCall(s.threads[t].pc).Some?
    ensures LeadsCall(s, t, s.threads[t], LeaderCall(s.threads[t].pc).value, CoalesceKey(cfg, s.threads[t].req))
  {
    assert Linked(cfg, s, t, s.threads[t]);
  }

  /** A call keeps its key and its leader; only its own leader fills or closes it. */
  lemma CallIdentity(cfg: Config, s: State, t: nat, th': Thread, effect: Effect, s': State, id: nat)
    requires Moves(cfg, s, t, th', effect, s') && id < |s.objs|
    ensures id < |s'.objs| && s'.objs[id].key == s.objs[id].key && s'.objs[id].leader == s.objs[id].leader
    ensures s'.objs[id] == s.objs[id] || (effect.Assign? && effect.call == id) || (effect.Close? && effect.call == id)
  {
    hide LocalOk, EffectFits, InflightOf, WaitedOn;
  }

  lemma MovesThreads(cfg: Config, s: State, t: nat, th': Thread, effect: Effect, s': State)
    requires Moves(cfg, s, t, th', effect, s')
    ensures t < |s.threads| && s'.threads == s.threads[t := th']
    ensures EffectFits(cfg, s.threads[t], th', effect, InflightOf(cfg, s, s.threads[t]), |s.objs|,
      WaitedOn(s, s.threads[t]))
  {
    hide LocalOk, EffectFits, InflightOf, WaitedOn;
  }

  lemma LinkedAt(cfg: Config, s: State, t: nat)
    requires Inv(cfg, s) && t < |s.threads|
    ensures Linked(cfg, s, t, s.threads[t])
  {
    hide Linked, LocalOk, CallLinked, ObjOk, Storable;
  }

  /** A call that is closed, or led by another thread, stays as it is. */
  lemma OthersCallKept(cfg: Config, s: State, t: nat, th': Thread, effect: Effect, s': State, id: nat)
    requires Inv(cfg, s) && Moves(cfg, s, t, th', effect, s')
    requires id < |s.objs| && (s.objs[id].done || s.objs[id].leader != t)
    ensures id < |s'.objs| && s'.objs[id] == s.objs[id]
  {
    CallIdentity(cfg, s, t, th', effect, s', id);
    if LeaderCall(s.threads[t].pc).Some? { LeaderIs(cfg, s, t); }
    hide Inv, LocalOk, CoalesceKey, Storable, QuietMove;
  }

  /** A key another thread's call is in flight under stays with that call. */
  lemma OthersKeyKept(cfg: Config, s: State, t: nat, th': Thread, effect: Effect, s': State, ck: CallKey)
    requires Inv(cfg, s) && Moves(cfg, s, t, th', effect, s')
    requires ck in s.calls && s.calls[ck] < |s.objs| && s.objs[s.calls[ck]].leader != t
    ensures ck in s'.calls && s'.calls[ck] == s.calls[ck]
  {
    if LeaderCall(s.threads[t].pc).Some? { LeaderIs(cfg, s, t); }
    hide Inv, LocalOk, CoalesceKey, Storable, QuietMove;
  }

  lemma OtherLinked(cfg: Config, s: State, t: nat, th': Thread, effect: Effect, s': State, u: nat)
    requires Inv(cfg, s) && Moves(cfg, s, t, th', effect, s') && u < |s.threads| && u != t
    ensures Linked(cfg, s', u, s'.threads[u])
  {
    hide Inv, Moves, CoalesceKey, LeaderCall;
    MovesThreads(cfg, s, t, th', effect, s');
    LinkedAt(cfg, s, u);
    var other := s.threads[u];
    if other.pc.Waiting? { CallIdentity(cfg, s, t, th', effect, s', other.pc.call); }
    if other.got.Some? { OthersCallKept(cfg, s, t, th', effect, s', other.got.value.0); }
    if LeaderCall(other.pc).Some? {
      var id := LeaderCall(other.pc).value;
      OthersCallKept(cfg, s, t, th', effect, s', id);
      if Holding(other.pc) { OthersKeyKept(cfg, s, t, th', effect, s', s.objs[id].key); }
    }
    hide EffectFits, InflightOf, WaitedOn;
  }

  lemma SelfLinked(cfg: Config, s: State, t: nat, th': Thread, effect: Effect, s': State)
    requires Inv(cfg, s) && Moves(cfg, s, t, th', effect, s')
    ensures Linked(cfg, s', t, s'.threads[t])
  {
    var th := s.threads[t];
    assert Linked(cfg, s, t, th);
    if InflightOf(cfg, s, th).Some? {
      assert CallLinked(s, CoalesceKey(cfg, th.req).value, InflightOf(cfg, s, th).value);
    }
    hide Inv, LocalOk, CoalesceKey, ObjOk, Storable;
  }

  /** What is in flight afterwards was in flight before, or was just started by the thread. */
  lemma InflightAfter(s: State, t: nat, effect: Effect, ck: CallKey)
    ensures var s' := ApplyEffect(s, t, effect);
      ck in s'.calls ==>
        || (effect == NewCall(ck) && s'.calls[ck] == |s.objs|
            && s'.objs == s.objs + [Call(ck, t, None, NoError, false)])
        || (ck in s.calls && s'.calls[ck] == s.calls[ck] && effect != NewCall(ck) && effect != Delete(ck))
  {
  }

  /** A leader lets go of its call only by deleting its key. */
  lemma StillHolding(cfg: Config, th: Thread, th': Thread, effect: Effect, inflight: Option<nat>, next: nat,
      call: Option<Call>)
    requires EffectFits(cfg, th, th', effect, inflight, next, call) && Holding(th.pc)
    ensures (Holding(th'.pc) && LeaderCall(th'.pc) == LeaderCall(th.pc))
         || (effect.Delete? && CoalesceKey(cfg, th.req) == Some(effect.ck))
  {
    hide CoalesceKey, Storable;
  }

  lemma CallsKept(cfg: Config, s: State, t: nat, th': Thread, effect: Effect, s': State, ck: CallKey)
    requires Inv(cfg, s) && Moves(cfg, s, t, th', effect, s') && ck in s'.calls
    ensures CallLinked(s', ck, s'.calls[ck])
  {
    var th := s.threads[t];
    InflightAfter(s, t, effect, ck);
    if effect == NewCall(ck) {
      assert th'.pc == Check(|s.objs|) by { MovesThreads(cfg, s, t, th', effect, s'); }
    } else {
      assert CallLinked(s, ck, s.calls[ck]);
      CallIdentity(cfg, s, t, th', effect, s', s.calls[ck]);
      hide ApplyEffect, EffectFits, Inv;
      if s.objs[s.calls[ck]].leader == t {
        LeaderIs(cfg, s, t);
        StillHolding(cfg, th, th', effect, InflightOf(cfg, s, th), |s.objs|, WaitedOn(s, th));
      }
    }
    hide Inv, LocalOk, CoalesceKey, ApplyEffect, EffectFits, InflightOf, WaitedOn;
  }

  /** A thread leads its call until it closes it. */
  lemma StillLeading(cfg: Config, th: Thread, th': Thread, effect: Effect, inflight: Option<nat>, next: nat,
      call: Option<Call>)
    requires EffectFits(cfg, th, th', effect, inflight, next, call) && LeaderCall(th.pc).Some?
    ensures LeaderCall(th'.pc) == LeaderCall(th.pc) || (effect.Close? && LeaderCall(th.pc) == Some(effect.call))
  {
    hide CoalesceKey, Storable;
  }

  /** An open call keeps its live leader until that one closes it. */
  lemma LeaderKept(cfg: Config, s: State, t: nat, th': Thread, effect: Effect, s': State, id: nat)
    requires Moves(cfg, s, t, th', effect, s') && id < |s.objs| && ObjOk(cfg, s, id)
    ensures id < |s'.objs| && (!s'.objs[id].done ==>
      s'.objs[id].leader < |s'.threads| && LeaderCall(s'.threads[s'.objs[id].leader].pc) == Some(id))
  {
    var th := s.threads[t];
    CallIdentity(cfg, s, t, th', effect, s', id);
    if !s.objs[id].done && s.objs[id].leader == t {
      StillLeading(cfg, th, th', effect, InflightOf(cfg, s, th), |s.objs|, WaitedOn(s, th));
    }
    hide LocalOk, Storable, CoalesceKey, Shareable, EffectFits, InflightOf, WaitedOn;
  }

  /** Only a shareable entry is ever assigned to a call. */
  lemma SharesKept(cfg: Config, s: State, t: nat, th': Thread, effect: Effect, s': State, id: nat)
    requires Inv(cfg, s) && Moves(cfg, s, t, th', effect, s') && id < |s.objs| && id < |s'.objs|
    ensures s'.objs[id].err == NoError && s'.objs[id].entry.Some? ==>
      Shareable(cfg, s'.objs[id].key, s'.objs[id].entry.value)
  {
    var th := s.threads[t];
    assert ObjOk(cfg, s, id);
    CallIdentity(cfg, s, t, th', effect, s', id);
    if LeaderCall(th.pc).Some? { LeaderIs(cfg, s, t); }
    if effect.Assign? {
      assert CoalesceKey(cfg, th.req).Some? && ResultOk(cfg, th', CoalesceKey(cfg, th.req).value, th'.pc.res);
    }
    hide Inv, LocalOk, Storable, CoalesceKey, Shareable, AnswerOk;
  }

  lemma ObjsKept(cfg: Config, s: State, t: nat, th': Thread, effect: Effect, s': State, id: nat)
    requires Inv(cfg, s) && Moves(cfg, s, t, th', effect, s') && id < |s'.objs|
    ensures ObjOk(cfg, s', id)
  {
    if id < |s.objs| {
      assert ObjOk(cfg, s, id);
      LeaderKept(cfg, s, t, th', effect, s', id);
      SharesKept(cfg, s, t, th', effect, s', id);
    } else {
      assert effect.NewCall?;
    }
    hide Inv, LocalOk, Storable, CoalesceKey, Shareable, LeaderCall;
  }

  lemma EverKept(cfg: Config, s: State, t: nat, th': Thread, effect: Effect, s': State)
    requires Inv(cfg, s) && Moves(cfg, s, t, th', effect, s')
    ensures forall k :: k in s'.ever ==> forall e :: e in s'.ever[k] ==> Storable(e)
  {
    hide LocalOk, Linked, CallLinked, ObjOk, Storable;
  }

  lemma MovesKeeps(cfg: Config, s: State, t: nat, th': Thread, effect: Effect, s': State)
    requires Inv(cfg, s) && Moves(cfg, s, t, th', effect, s')
    ensures Inv(cfg, s')
  {
    hide Linked, CallLinked, ObjOk, EffectFits;
    hide LocalOk, Storable;
    EverKept(cfg, s, t, th', effect, s');
    SelfLinked(cfg, s, t, th', effect, s');
    forall u: nat | u < |s.threads| && u != t
      ensures Linked(cfg, s', u, s'.threads[u])
    {
      OtherLinked(cfg, s, t, th', effect, s', u);
    }
    forall ck | ck in s'.calls
      ensures CallLinked(s', ck, s'.calls[ck])
    {
      CallsKept(cfg, s, t, th', effect, s', ck);
    }
    forall id | 0 <= id < |s'.objs|
      ensures ObjOk(cfg, s', id)
    {
      ObjsKept(cfg, s, t, th', effect, s', id);
    }
  }

  /** An enabled event is a move. */
  lemma StepMoves(cfg: Config, s: State, ev: Event) returns (th': Thread, effect: Effect)
    requires Inv(cfg, s) && Step(cfg, s, ev).Some?
    ensures Plan(cfg, s, s.threads[ev.t], ev.choice) == Some((th', effect))
    ensures Moves(cfg, s, ev.t, th', effect, Step(cfg, s, ev).value)
  {
    var th := s.threads[ev.t];
    th', effect := Plan(cfg, s, th, ev.choice).value.0, Plan(cfg, s, th, ev.choice).value.1;
    assert LocalOk(cfg, th) && Linked(cfg, s, ev.t, th);
    if th.pc.Waiting? { assert ObjOk(cfg, s, th.pc.call); }
    WaitedCallOk(cfg, s, th);
    hide LocalOk, Linked, ObjOk, CallOk, StepThread, EffectFits, Storable;
    StepThreadKeeps(cfg, th, ev.choice, InflightOf(cfg, s, th), |s.objs|, WaitedOn(s, th));
    StepFits(cfg, th, ev.choice, InflightOf(cfg, s, th), |s.objs|, WaitedOn(s, th));
  }

  lemma WaitedCallOk(cfg: Config, s: State, th: Thread)
    requires th.pc.Waiting? ==>
      th.pc.call < |s.objs| && Some(s.objs[th.pc.call].key) == CoalesceKey(cfg, th.req) && ObjOk(cfg, s, th.pc.call)
    ensures th.pc.Waiting? ==> CallOk(cfg, th, WaitedOn(s, th))
  {
    hide CoalesceKey, Shareable;
  }

  lemma StepKeeps(cfg: Config, s: State, ev: Event)
    requires Inv(cfg, s) && Step(cfg, s, ev).Some?
    ensures Inv(cfg, Step(cfg, s, ev).value)
  {
    var th', effect := StepMoves(cfg, s, ev);
    hide *;
    MovesKeeps(cfg, s, ev.t, th', effect, Step(cfg, s, ev).value);
  }

  lemma StartInv(cfg: Config, requests: seq<Request>)
    ensures Inv(cfg, Start(requests))
  {
    hide Storable, CoalesceKey;
  }

  /** The invariant holds in every state of every run of any number of requests and jobs. */
  lemma {:induction false} RunInv(cfg: Config, requests: seq<Request>, events: seq<Event>)
    requires Run(cfg, Start(requests), events).Some?
    ensures Inv(cfg, Run(cfg, Start(requests), events).value)
    decreases |events|
  {
    hide Inv, Step, Start;
    if events == [] {
      StartInv(cfg, requests);
    } else {
      var prefix, last := events[..|events| - 1], events[|events| - 1];
      RunInv(cfg, requests, prefix);
      StepKeeps(cfg, Run(cfg, Start(requests), prefix).value, last);
    }
  }
}
