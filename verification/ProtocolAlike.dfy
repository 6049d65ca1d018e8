/**
 Whether a response is complete is for reference: no step of the protocol looks at it, but for the end
 of a request's own handler. Runs that differ only in it go alike.
 */
module ProtocolAlike {
  import opened Bytes
  import opened Protocol

  function Whole(e: Entry): Entry {
    e.(complete := true)
  }

  function WholeIf(e: Option<Entry>): Option<Entry> {
    match e
    case None => None
    case Some(x) => Some(Whole(x))
  }

  function Looks(es: set<Entry>): set<Entry> {
    set e | e in es :: Whole(e)
  }

  function WholeResult(res: Result): Result {
    res.(entry := WholeIf(res.entry))
  }

  function WholeDelivery(d: Delivery): Delivery {
    match d
    case Hit(e) => Hit(Whole(e))
    case Coalesced(e) => Coalesced(Whole(e))
    case Own(e) => Own(Whole(e))
    case _ => d
  }

  function WholePC(pc: PC): PC {
    match pc
    case LookupVariant(p) => LookupVariant(Whole(p))
    case CheckVariant(c, p) => CheckVariant(c, Whole(p))
    case Storing(c, e) => Storing(c, Whole(e))
    case StoringVariant(c, e) => StoringVariant(c, Whole(e))
    case Finishing(c, e) => Finishing(c, Whole(e))
    case Returned(c, res) => Returned(c, WholeResult(res))
    case Removed(c, res) => Removed(c, WholeResult(res))
    case PassStoring(e) => PassStoring(Whole(e))
    case PassStoringVariant(e) => PassStoringVariant(Whole(e))
    case Done(d) => Done(WholeDelivery(d))
    case _ => pc
  }

  function WholeGot(got: Option<(nat, Result)>): Option<(nat, Result)> {
    match got
    case None => None
    case Some((c, res)) => Some((c, WholeResult(res)))
  }

  function WholeThread(th: Thread): Thread {
    th.(pc := WholePC(th.pc), leaderEntry := WholeIf(th.leaderEntry), got := WholeGot(th.got))
  }

  function WholeCall(c: Call): Call {
    c.(entry := WholeIf(c.entry))
  }

  function WholeCallIf(c: Option<Call>): Option<Call> {
    match c
    case None => None
    case Some(x) => Some(WholeCall(x))
  }

  function WholeEffect(effect: Effect): Effect {
    match effect
    case Put(k, e) => Effect.Put(k, Whole(e))
    case Assign(c, entry, err) => Assign(c, WholeIf(entry), err)
    case _ => effect
  }

  function WholeChoice(c: Choice): Choice {
    match c
    case Got(found) => Got(WholeIf(found))
    case Ended(Finish(e)) => Ended(Finish(Whole(e)))
    case _ => c
  }

  function WholeStep(step: Option<(Thread, Effect)>): Option<(Thread, Effect)> {
    match step
    case None => None
    case Some((th, effect)) => Some((WholeThread(th), WholeEffect(effect)))
  }

  // ---- One thread's step ----

  lemma WholePolicy(cfg: Config, r: Request, e: Entry)
    ensures Matches(Whole(e), r) == Matches(e, r) && Permitted(cfg, r, Whole(e)) == Permitted(cfg, r, e)
    ensures VariantOf(Whole(e), r) == VariantOf(e, r)
    ensures WillStore(cfg, r, Whole(e)) == WillStore(cfg, r, e) && Recorded(Whole(e), r) == Whole(Recorded(e, r))
  {
    hide HeaderValue, Signature;
  }

  lemma WholeKey(th: Thread)
    ensures StoreKeyOf(WholeThread(th)) == StoreKeyOf(th)
  {
    hide VariantOf;
    var pc := th.pc;
    match pc {
      case LookupVariant(p) => assert VariantOf(Whole(p), th.req) ==
        VariantOf(p, th.req) by { hide *; WholeVariant(p, th.req); }
      case CheckVariant(_, p) => WholeVariant(p, th.req);
      case StoringVariant(_, e) => WholeVariant(e, th.req);
      case PassStoringVariant(e) => WholeVariant(e, th.req);
      case _ =>
    }
  }

  lemma WholeVariant(e: Entry, r: Request)
    ensures VariantOf(Whole(e), r) == VariantOf(e, r)
  {
    hide Signature;
  }

  lemma WholeSend(th: Thread, d: Delivery)
    ensures Send(WholeThread(th), WholeDelivery(d)) == WholeThread(Send(th, d))
  {
  }

  lemma WholeAfterMiss(cfg: Config, th: Thread)
    ensures AfterMiss(cfg, WholeThread(th)) == WholeThread(AfterMiss(cfg, th))
  {
    hide CoalesceKey;
  }

  lemma WholeServe(cfg: Config, th: Thread, e: Entry)
    ensures Serve(cfg, WholeThread(th), Whole(e)) == WholeThread(Serve(cfg, th, e))
  {
    WholePolicy(cfg, th.req, e);
    WholeAfterMiss(cfg, th);
    WholeSend(th, Hit(e));
    assert WholeThread(th).req == th.req;
    hide Matches, Permitted, AfterMiss, Send, WillStore, Recorded, VariantOf, WholeThread;
  }

  lemma WholeRecheck(cfg: Config, th: Thread, id: nat, e: Entry)
    ensures Some(Recheck(cfg, WholeThread(th), id, Whole(e))) == WholeStep(Some(Recheck(cfg, th, id, e)))
  {
    WholePolicy(cfg, th.req, e);
    hide Matches, Permitted, WillStore, Recorded, VariantOf;
  }

  lemma WholeAfterDo(th: Thread, res: Result)
    ensures AfterDo(WholeThread(th), WholeResult(res)) == WholeThread(AfterDo(th, res))
  {
    if res.entry.Some? { WholeSend(th, Coalesced(res.entry.value)); }
    if th.leaderEntry.Some? { WholeSend(th, Own(th.leaderEntry.value)); }
    hide Send;
  }

  lemma LookupAlike(cfg: Config, th: Thread, c: Choice, inflight: Option<nat>, next: nat, call: Option<Call>)
    requires th.pc.Lookup?
    ensures StepBefore(cfg, WholeThread(th), WholeChoice(c), inflight, next, WholeCallIf(call)) ==
      WholeStep(StepBefore(cfg, th, c, inflight, next, call))
  {
    hide AfterMiss, Serve;
    WholeAfterMiss(cfg, th);
    if c.Got? && c.found.Some? {
      WholeServe(cfg, th, c.found.value);
    }
  }

  lemma VariantAlike(cfg: Config, th: Thread, c: Choice, inflight: Option<nat>, next: nat, call: Option<Call>)
    requires th.pc.LookupVariant?
    ensures StepBefore(cfg, WholeThread(th), WholeChoice(c), inflight, next, WholeCallIf(call)) ==
      WholeStep(StepBefore(cfg, th, c, inflight, next, call))
  {
    hide AfterMiss, Serve;
    if c.Got? {
      WholeServe(cfg, th, if c.found.Some? then c.found.value else th.pc.primary);
    }
  }

  lemma WaitingAlike(cfg: Config, th: Thread, c: Choice, inflight: Option<nat>, next: nat, call: Option<Call>)
    requires th.pc.Waiting?
    ensures StepBefore(cfg, WholeThread(th), WholeChoice(c), inflight, next, WholeCallIf(call)) ==
      WholeStep(StepBefore(cfg, th, c, inflight, next, call))
  {
    hide AfterDo;
    if c.Tick? && call.Some? {
      var res := Result(call.value.entry, call.value.err, false);
      WholeAfterDo(th.(got := Some((th.pc.call, res))), res);
    } else if c.Cancel? {
      WholeAfterDo(th, Result(None, Cancelled, false));
    }
  }

  lemma JoinAlike(cfg: Config, th: Thread, c: Choice, inflight: Option<nat>, next: nat, call: Option<Call>)
    requires th.pc.Join?
    ensures StepBefore(cfg, WholeThread(th), WholeChoice(c), inflight, next, WholeCallIf(call)) ==
      WholeStep(StepBefore(cfg, th, c, inflight, next, call))
  {
    hide CoalesceKey;
  }

  lemma WholeReturn(th: Thread, c: nat, entry: Option<Entry>, err: Error)
    ensures Some(Return(WholeThread(th), c, WholeIf(entry), err)) == WholeStep(Some(Return(th, c, entry, err)))
  {
  }

  lemma WholeFinish(cfg: Config, th: Thread, id: nat, e0: Entry)
    requires !th.req.prefetch ==> e0.complete
    ensures EndRun(cfg, WholeThread(th), id, Finish(Whole(e0))) == WholeStep(EndRun(cfg, th, id, Finish(e0)))
  {
    var e := Recorded(e0, th.req);
    WholePolicy(cfg, th.req, e);
    WholePolicy(cfg, th.req, e0);
    hide WillStore, Recorded, Matches, Permitted, VariantOf, Return;
    if th.req.prefetch {
      WholeReturn(th, id, None, NoError);
    } else {
      WholeReturn(th.(recorder := Buffered, leaderEntry := Some(e)), id, None, NotShareable);
    }
  }

  lemma WholeEnd(cfg: Config, th: Thread, id: nat, outcome: Outcome)
    requires outcome.Finish? && !th.req.prefetch ==> outcome.e.complete
    ensures EndRun(cfg, WholeThread(th), id, WholeChoice(Ended(outcome)).outcome) ==
      WholeStep(EndRun(cfg, th, id, outcome))
  {
    if outcome.Finish? {
      WholeFinish(cfg, th, id, outcome.e);
      hide EndRun;
    } else {
      WholeReturn(th.(recorder := Streamed, heads := th.heads + 1), id, None, StreamingResponse);
      hide Return;
    }
  }

  lemma WholeStored(th: Thread, ok: bool, e: Entry)
    ensures WholeEffect(PutIf(ok, StoreKeyOf(th), e)) == PutIf(ok, StoreKeyOf(WholeThread(th)), Whole(e))
  {
    WholeKey(th);
    hide StoreKeyOf, WholeThread;
  }

  lemma CheckAlike(cfg: Config, th: Thread, c: Choice)
    requires th.pc.Check? || th.pc.CheckVariant?
    ensures StepLeader(cfg, WholeThread(th), WholeChoice(c)) == WholeStep(StepLeader(cfg, th, c))
  {
    hide Recheck;
    if c.Got? {
      if c.found.Some? {
        WholeRecheck(cfg, th, th.pc.call, c.found.value);
      } else if th.pc.CheckVariant? {
        WholeRecheck(cfg, th, th.pc.call, th.pc.primary);
      }
    }
  }

  lemma RunningAlike(cfg: Config, th: Thread, c: Choice)
    requires th.pc.Running? && Ends(th, c)
    ensures StepLeader(cfg, WholeThread(th), WholeChoice(c)) == WholeStep(StepLeader(cfg, th, c))
  {
    hide EndRun;
    if c.Ended? {
      WholeEnd(cfg, th, th.pc.call, c.outcome);
    }
  }

  lemma StoringAlike(cfg: Config, th: Thread, c: Choice)
    requires th.pc.Storing? || th.pc.StoringVariant?
    ensures StepLeader(cfg, WholeThread(th), WholeChoice(c)) == WholeStep(StepLeader(cfg, th, c))
  {
    hide StoreKeyOf, PutIf;
    if c.SetDone? {
      WholeStored(th, c.ok, th.pc.e);
    }
  }

  lemma ReturningAlike(cfg: Config, th: Thread, c: Choice)
    requires th.pc.Finishing? || th.pc.Returned? || th.pc.Removed?
    ensures StepLeader(cfg, WholeThread(th), WholeChoice(c)) == WholeStep(StepLeader(cfg, th, c))
  {
    hide CoalesceKey, AfterDo;
    if th.pc.Removed? {
      WholeAfterDo(th, th.pc.res);
    }
  }

  lemma PassEndAlike(cfg: Config, th: Thread, c: Choice)
    requires th.pc.PassRunning? && (c.Ended? && c.outcome.Finish? ==> c.outcome.e.complete)
    ensures StepPass(cfg, WholeThread(th), WholeChoice(c)) == WholeStep(StepPass(cfg, th, c))
  {
    hide WillStore, Recorded, VariantOf, Matches, Permitted, Send;
    if c.Ended? && c.outcome.Finish? {
      var e := Recorded(c.outcome.e, th.req);
      WholePolicy(cfg, th.req, e);
      WholePolicy(cfg, th.req, c.outcome.e);
      WholeSend(th, Own(e));
    } else {
      WholeSend(th, Streaming);
    }
  }

  lemma PassStoreAlike(cfg: Config, th: Thread, c: Choice)
    requires th.pc.PassStoring? || th.pc.PassStoringVariant?
    ensures StepPass(cfg, WholeThread(th), WholeChoice(c)) == WholeStep(StepPass(cfg, th, c))
  {
    hide StoreKeyOf, PutIf, Send;
    if c.SetDone? {
      WholeStored(th, c.ok, th.pc.e);
      WholeSend(th, Own(th.pc.e));
    }
  }

  /** What the handler may end with: in a request's run, or one outside a call, with a whole response only. */
  predicate Ends(th: Thread, c: Choice) {
    c.Ended? && c.outcome.Finish? && (!th.req.prefetch || th.pc.PassRunning?) ==> c.outcome.e.complete
  }

  lemma DoneAlike(cfg: Config, th: Thread, c: Choice)
    requires th.pc.Done? || th.pc.Panicked?
    ensures StepLeader(cfg, WholeThread(th), WholeChoice(c)) == WholeStep(StepLeader(cfg, th, c)) == None
  {
  }

  lemma SameSide(th: Thread)
    ensures BeforeFunction(WholeThread(th).pc) == BeforeFunction(th.pc) && InPass(WholeThread(th).pc) == InPass(th.pc)
  {
  }

  /** A step of a thread is the same step without the reference flags. */
  lemma StepAlike(cfg: Config, th: Thread, c: Choice, inflight: Option<nat>, next: nat, call: Option<Call>)
    requires Ends(th, c)
    ensures StepThread(cfg, WholeThread(th), WholeChoice(c), inflight, next, WholeCallIf(call)) ==
      WholeStep(StepThread(cfg, th, c, inflight, next, call))
  {
    SameSide(th);
    hide StepBefore, StepLeader, StepPass, WholeThread, WholeChoice, WholeStep, WholeCallIf;
    match th.pc {
      case Lookup => LookupAlike(cfg, th, c, inflight, next, call);
      case LookupVariant(_) => VariantAlike(cfg, th, c, inflight, next, call);
      case Join => JoinAlike(cfg, th, c, inflight, next, call);
      case Waiting(_) => WaitingAlike(cfg, th, c, inflight, next, call);
      case Check(_) => CheckAlike(cfg, th, c);
      case CheckVariant(_, _) => CheckAlike(cfg, th, c);
      case Running(_) => RunningAlike(cfg, th, c);
      case Storing(_, _) => StoringAlike(cfg, th, c);
      case StoringVariant(_, _) => StoringAlike(cfg, th, c);
      case Finishing(_, _) => ReturningAlike(cfg, th, c);
      case Returned(_, _) => ReturningAlike(cfg, th, c);
      case Removed(_, _) => ReturningAlike(cfg, th, c);
      case PassRunning => PassEndAlike(cfg, th, c);
      case PassStoring(_) => PassStoreAlike(cfg, th, c);
      case PassStoringVariant(_) => PassStoreAlike(cfg, th, c);
      case Done(_) => DoneAlike(cfg, th, c);
      case Panicked => DoneAlike(cfg, th, c);
    }
  }

  /** A step that happens is one the handler may end with. */
  lemma StepEnds(cfg: Config, th: Thread, c: Choice, inflight: Option<nat>, next: nat, call: Option<Call>)
    requires StepThread(cfg, th, c, inflight, next, call).Some?
    ensures Ends(th, c)
  {
    hide CoalesceKey, WillStore, Recorded, StoreKeyOf, AfterDo, Recheck, AfterMiss, Serve;
  }

  // ---- Whole states ----

  predicate SameThread(th: Thread, uh: Thread) {
    WholeThread(th) == WholeThread(uh)
  }

  predicate SameCall(c: Call, d: Call) {
    WholeCall(c) == WholeCall(d)
  }

  /** The two states differ only in reference flags. */
  ghost predicate Alike(s: State, u: State) {
    && |s.threads| == |u.threads| && (forall t :: 0 <= t < |s.threads| ==> SameThread(s.threads[t], u.threads[t]))
    && |s.objs| == |u.objs| && (forall id :: 0 <= id < |s.objs| ==> SameCall(s.objs[id], u.objs[id]))
    && s.calls == u.calls
    && forall k :: Looks(EverSet(s, k)) == Looks(EverSet(u, k))
  }

  /** The two choices differ only in the flag of what a lookup found. */
  predicate SameChoice(c: Choice, d: Choice) {
    WholeChoice(c) == WholeChoice(d) && (c.Ended? ==> c == d)
  }

  /** A thread's step, whether or not the protocol allows its environment that choice. */
  function Act(cfg: Config, s: State, ev: Event): Option<State> {
    if ev.t >= |s.threads| then None else
    match Plan(cfg, s, s.threads[ev.t], ev.choice)
    case None => None
    case Some((th', effect)) => Some(ApplyEffect(s, ev.t, effect).(threads := s.threads[ev.t := th']))
  }

  lemma SameRequest(th: Thread, uh: Thread)
    requires SameThread(th, uh)
    ensures th.req == uh.req && StoreKeyOf(th) == StoreKeyOf(uh)
  {
    WholeKey(th);
    WholeKey(uh);
    assert WholeThread(th).req == WholeThread(uh).req;
    hide StoreKeyOf;
  }

  lemma SameWaitedOn(s: State, u: State, t: nat)
    requires Alike(s, u) && t < |s.threads|
    ensures WholeCallIf(WaitedOn(s, s.threads[t])) == WholeCallIf(WaitedOn(u, u.threads[t]))
  {
    var th, uh := s.threads[t], u.threads[t];
    assert SameThread(th, uh);
    assert WholeThread(th).pc == WholeThread(uh).pc;
    if th.pc.Waiting? && th.pc.call < |s.objs| {
      assert SameCall(s.objs[th.pc.call], u.objs[th.pc.call]);
    }
    hide Looks, EverSet;
  }

  lemma SameEnds(th: Thread, uh: Thread, c: Choice, d: Choice)
    requires SameThread(th, uh) && SameChoice(c, d) && Ends(th, c)
    ensures Ends(uh, d)
  {
    assert WholeThread(th).req == WholeThread(uh).req && WholeThread(th).pc == WholeThread(uh).pc;
  }

  lemma SameInflight(cfg: Config, s: State, u: State, t: nat)
    requires Alike(s, u) && t < |s.threads|
    ensures InflightOf(cfg, s, s.threads[t]) == InflightOf(cfg, u, u.threads[t])
  {
    assert SameThread(s.threads[t], u.threads[t]);
    SameRequest(s.threads[t], u.threads[t]);
    hide SameThread, SameCall, Looks, EverSet, CoalesceKey, StoreKeyOf;
  }

  lemma PlanAlike(cfg: Config, s: State, u: State, t: nat, c: Choice, d: Choice)
    requires Alike(s, u) && t < |s.threads| && SameChoice(c, d) && Plan(cfg, s, s.threads[t], c).Some?
    ensures WholeStep(Plan(cfg, u, u.threads[t], d)) == WholeStep(Plan(cfg, s, s.threads[t], c))
  {
    var th, uh := s.threads[t], u.threads[t];
    assert SameThread(th, uh);
    SameWaitedOn(s, u, t);
    SameInflight(cfg, s, u, t);
    hide Alike, WholeThread, StepThread, WholeCallIf, WaitedOn, InflightOf, SameChoice, Ends, WholeStep, WholeChoice;
    var inflight, next := InflightOf(cfg, s, th), |s.objs|;
    StepEnds(cfg, th, c, inflight, next, WaitedOn(s, th));
    SameEnds(th, uh, c, d);
    StepAlike(cfg, th, c, inflight, next, WaitedOn(s, th));
    StepAlike(cfg, uh, d, inflight, next, WaitedOn(u, uh));
    SameWhole(th, uh, c, d);
    SameCounts(s, u);
  }

  lemma SameWhole(th: Thread, uh: Thread, c: Choice, d: Choice)
    requires SameThread(th, uh) && SameChoice(c, d)
    ensures WholeThread(th) == WholeThread(uh) && WholeChoice(c) == WholeChoice(d)
  {
    hide WholeThread, WholeChoice;
  }

  lemma SameCounts(s: State, u: State)
    requires Alike(s, u)
    ensures |s.objs| == |u.objs| && |s.threads| == |u.threads|
  {
  }

  lemma LooksPut(es: set<Entry>, e: Entry)
    ensures Looks(es + {e}) == Looks(es) + {Whole(e)}
  {
    hide Whole;
    assert forall x :: x in es ==> x in es + {e};
    assert e in es + {e};
  }

  lemma PutAlike(s: State, u: State, t: nat, k: StoreKey, e: Entry, f: Entry, x: StoreKey)
    requires Looks(EverSet(s, x)) == Looks(EverSet(u, x)) && Whole(e) == Whole(f)
    ensures Looks(EverSet(ApplyEffect(s, t, Effect.Put(k, e)), x)) ==
      Looks(EverSet(ApplyEffect(u, t, Effect.Put(k, f)), x))
  {
    LooksPut(EverSet(s, x), e);
    LooksPut(EverSet(u, x), f);
    hide Looks, Whole;
  }

  lemma ApplyAlike(s: State, u: State, t: nat, effect: Effect, fx: Effect)
    requires Alike(s, u) && WholeEffect(effect) == WholeEffect(fx)
    ensures Alike(ApplyEffect(s, t, effect), ApplyEffect(u, t, fx))
  {
    if effect.Put? {
      hide Looks, SameThread, SameCall, EverSet;
      forall x: StoreKey
        ensures Looks(EverSet(ApplyEffect(s, t, effect), x)) == Looks(EverSet(ApplyEffect(u, t, fx), x))
      {
        PutAlike(s, u, t, effect.k, effect.e, fx.e, x);
      }
    } else {
      CallsAlike(s, u, t, effect, fx);
    }
  }

  lemma CallsAlike(s: State, u: State, t: nat, effect: Effect, fx: Effect)
    requires Alike(s, u) && WholeEffect(effect) == WholeEffect(fx) && !effect.Put?
    ensures Alike(ApplyEffect(s, t, effect), ApplyEffect(u, t, fx))
  {
    var s', u' := ApplyEffect(s, t, effect), ApplyEffect(u, t, fx);
    assert s'.ever == s.ever && u'.ever == u.ever;
    forall k
      ensures Looks(EverSet(s', k)) == Looks(EverSet(u', k))
    {
      assert EverSet(s', k) == EverSet(s, k) && EverSet(u', k) == EverSet(u, k);
    }
    hide Looks, SameThread, EverSet;
    forall id | 0 <= id < |s'.objs|
      ensures SameCall(s'.objs[id], u'.objs[id])
    {
      if id < |s.objs| { assert SameCall(s.objs[id], u.objs[id]); }
    }
  }

  /** What one of two alike states does, the other does, for any flag on what a lookup finds. */
  lemma ActAlike(cfg: Config, s: State, u: State, t: nat, c: Choice, d: Choice)
    requires Alike(s, u) && SameChoice(c, d) && Act(cfg, s, Event(t, c)).Some?
    ensures Act(cfg, u, Event(t, d)).Some?
    ensures Alike(Act(cfg, s, Event(t, c)).value, Act(cfg, u, Event(t, d)).value)
  {
    PlanAlike(cfg, s, u, t, c, d);
    SameCounts(s, u);
    var (th', effect) := Plan(cfg, s, s.threads[t], c).value;
    var (uh', fx) := Plan(cfg, u, u.threads[t], d).value;
    hide Plan, Alike, ApplyEffect, WholeThread, WholeEffect;
    ApplyAlike(s, u, t, effect, fx);
    KeptThreads(s, t, effect);
    KeptThreads(u, t, fx);
    MovedAlike(ApplyEffect(s, t, effect), ApplyEffect(u, t, fx), t, th', uh');
  }

  lemma KeptThreads(s: State, t: nat, effect: Effect)
    ensures ApplyEffect(s, t, effect).threads == s.threads
  {
  }

  lemma MovedAlike(s: State, u: State, t: nat, th: Thread, uh: Thread)
    requires Alike(s, u) && t < |s.threads| && SameThread(th, uh)
    ensures Alike(s.(threads := s.threads[t := th]), u.(threads := u.threads[t := uh]))
  {
    hide SameThread, SameCall, Looks;
    var s', u' := s.(threads := s.threads[t := th]), u.(threads := u.threads[t := uh]);
    forall k
      ensures Looks(EverSet(s', k)) == Looks(EverSet(u', k))
    {
      assert EverSet(s', k) == EverSet(s, k) && EverSet(u', k) == EverSet(u, k);
    }
  }

  lemma AlikeSelf(s: State)
    ensures Alike(s, s)
  {
  }
}
