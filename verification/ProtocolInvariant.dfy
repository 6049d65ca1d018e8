/** The inductive invariant of the request protocol, and what it says of every reachable state. */
module ProtocolInvariant {
  import opened Bytes
  import opened Protocol

  // ---- What a thread's own state says ----

  /** An entry that may be handed to every request coalescing under ck. */
  predicate Shareable(cfg: Config, ck: CallKey, e: Entry) {
    Storable(e) && (ck.PerUser? ==> e.pub || ck.key in cfg.publicKeys)
  }

  predicate Fresh(th: Thread) {
    th.runs == 0 && th.heads == 0 && th.recorder == NoRecorder && th.leaderEntry == None && !th.stored && th.got == None
  }

  /** The leader's result: shareable, or something only the leader itself can answer its client with. */
  predicate ResultOk(cfg: Config, th: Thread, ck: CallKey, res: Result) {
    && (res.err == NoError && res.entry.Some? ==>
          && !res.panicked && Shareable(cfg, ck, res.entry.value)
          && (th.req.prefetch || Permitted(cfg, th.req, res.entry.value)))
    && AnswerOk(th, res)
  }

  predicate AnswerOk(th: Thread, res: Result) {
    if th.req.prefetch then !res.panicked && th.heads == 0
    else if res.panicked then th.runs == 1 && th.heads <= 1
    else if th.recorder == Streamed then th.runs == 1 && th.heads == 1
    else th.heads == 0 && (SharesEntry(res) || OwnsEntry(th))
  }

  predicate SharesEntry(res: Result) {
    res.err == NoError && res.entry.Some?
  }

  predicate OwnsEntry(th: Thread) {
    th.runs == 1 && th.recorder == Buffered && th.leaderEntry.Some?
  }

  /** Every request is answered by exactly one head; cached entries only go where policy lets them. */
  predicate DoneOk(cfg: Config, th: Thread, d: Delivery) {
    if th.req.prefetch then d == Nothing && th.heads == 0
    else
      th.heads == 1 &&
      match d
      case Hit(e) => th.runs == 0 && Storable(e) && Matches(e, th.req) && Permitted(cfg, th.req, e)
      case Coalesced(e) => Storable(e) && Permitted(cfg, th.req, e)
      case Own(e) => th.runs == 1
      case Streaming => th.runs == 1
      case Nothing => false
  }

  predicate LocalOk(cfg: Config, th: Thread) {
    && th.runs <= 1
    && match th.pc
       case Lookup => Fresh(th) && !th.isLeader
       case LookupVariant(p) => Fresh(th) && !th.isLeader && !th.req.prefetch && !th.req.noCache && Storable(p)
       case Join => Fresh(th) && !th.isLeader && CoalesceKey(cfg, th.req).Some?
       case Waiting(_) => Fresh(th) && !th.isLeader && CoalesceKey(cfg, th.req).Some?
       case Done(d) => DoneOk(cfg, th, d)
       case Panicked => th.runs == 1 && th.heads <= 1 && !th.req.prefetch
       case PassRunning => th.runs == 1 && th.heads == 0 && !th.isLeader && !th.req.prefetch
       case PassStoring(e) => th.runs == 1 && th.heads == 0 && !th.isLeader && !th.req.prefetch && Storable(e)
       case PassStoringVariant(e) => th.runs == 1 && th.heads == 0 && !th.isLeader && !th.req.prefetch && Storable(e)
       case _ =>
         && th.isLeader && th.got == None && CoalesceKey(cfg, th.req).Some?
         && LeaderOk(cfg, th, CoalesceKey(cfg, th.req).value)
  }

  predicate LeaderOk(cfg: Config, th: Thread, ck: CallKey) {
    match th.pc
    case Check(_) => Fresh(th)
    case CheckVariant(_, p) => Fresh(th) && Storable(p) && !th.req.prefetch
    case Running(_) => th.runs == 1 && th.heads == 0 && th.recorder == NoRecorder && !th.stored
    case Storing(_, e) => StoringOk(cfg, th, ck, e) && !th.stored
    case StoringVariant(_, e) => StoringOk(cfg, th, ck, e)
    case Finishing(_, e) => StoringOk(cfg, th, ck, e)
    case Returned(_, res) => ResultOk(cfg, th, ck, res)
    case Removed(_, res) => ResultOk(cfg, th, ck, res)
    case _ => true
  }

  predicate StoringOk(cfg: Config, th: Thread, ck: CallKey, e: Entry) {
    && th.runs == 1 && th.heads == 0 && Shareable(cfg, ck, e)
    && (th.req.prefetch || (th.recorder == Buffered && th.leaderEntry == Some(e) && Permitted(cfg, th.req, e)))
  }

  // ---- One thread's step keeps its own state sound ----

  /** What a follower may find in the call it waits for. */
  predicate CallOk(cfg: Config, th: Thread, call: Option<Call>) {
    call.Some? && call.value.err == NoError && call.value.entry.Some? && CoalesceKey(cfg, th.req).Some? ==>
      Shareable(cfg, CoalesceKey(cfg, th.req).value, call.value.entry.value)
  }

  /** Policy is decided on the coalescing key: whoever may join under it may receive what it shares. */
  lemma JoinersPermitted(cfg: Config, r: Request, e: Entry)
    requires !r.prefetch && CoalesceKey(cfg, r).Some? && Shareable(cfg, CoalesceKey(cfg, r).value, e)
    ensures Permitted(cfg, r, e)
  {
  }

  /** What a run of the handler ends up storing is shareable under the leader's key. */
  lemma StoresShareable(cfg: Config, r: Request, e: Entry)
    requires WillStore(cfg, r, e) && CoalesceKey(cfg, r).Some?
    ensures Shareable(cfg, CoalesceKey(cfg, r).value, e)
    ensures r.prefetch || Permitted(cfg, r, e)
  {
  }

  lemma BeforeKeeps(cfg: Config, th: Thread, c: Choice, inflight: Option<nat>, next: nat, call: Option<Call>)
    requires LocalOk(cfg, th) && BeforeFunction(th.pc)
    requires c.Got? && c.found.Some? ==> Storable(c.found.value)
    requires th.pc.Waiting? ==> CallOk(cfg, th, call)
    ensures var step := StepBefore(cfg, th, c, inflight, next, call);
      step.Some? ==> LocalOk(cfg, step.value.0) && step.value.0.req == th.req
  {
    PrefetchCoalesces(cfg, th.req);
    hide Storable, CoalesceKey, Permitted, Matches, Shareable;
    if th.pc.Waiting? && !th.req.prefetch && call.Some? && call.value.err == NoError && call.value.entry.Some? {
      JoinersPermitted(cfg, th.req, call.value.entry.value);
      ShareableStorable(cfg, CoalesceKey(cfg, th.req).value, call.value.entry.value);
    }
  }

  lemma PrefetchCoalesces(cfg: Config, r: Request)
    ensures r.prefetch ==> CoalesceKey(cfg, r).Some?
  {
  }

  lemma ShareableStorable(cfg: Config, ck: CallKey, e: Entry)
    requires Shareable(cfg, ck, e)
    ensures Storable(e)
  {
  }

  lemma HitShareable(cfg: Config, r: Request, e: Entry)
    requires Storable(e) && CoalesceKey(cfg, r).Some? && (r.prefetch || Permitted(cfg, r, e))
    ensures Shareable(cfg, CoalesceKey(cfg, r).value, e)
  {
  }

  lemma EndRunKeeps(cfg: Config, th: Thread, id: nat, outcome: Outcome)
    requires LocalOk(cfg, th) && th.pc == Running(id)
    ensures var step := EndRun(cfg, th, id, outcome);
      step.Some? ==> LocalOk(cfg, step.value.0) && step.value.0.req == th.req
  {
    hide Storable, CoalesceKey, Permitted, Shareable, WillStore, Recorded;
    if outcome.Finish? && WillStore(cfg, th.req, Recorded(outcome.e, th.req)) {
      StoresShareable(cfg, th.req, Recorded(outcome.e, th.req));
    }
  }

  lemma RecheckKeeps(cfg: Config, th: Thread, id: nat, e: Entry)
    requires LocalOk(cfg, th) && (th.pc.Check? || th.pc.CheckVariant?) && Storable(e)
    ensures var step := Recheck(cfg, th, id, e); LocalOk(cfg, step.0) && step.0.req == th.req
  {
    hide Storable, CoalesceKey, Permitted, Matches, Shareable;
    if th.req.prefetch || Permitted(cfg, th.req, e) {
      HitShareable(cfg, th.req, e);
    }
  }

  lemma RemovedKeeps(cfg: Config, th: Thread)
    requires LocalOk(cfg, th) && th.pc.Removed? && !th.pc.res.panicked
    ensures LocalOk(cfg, AfterDo(th, th.pc.res)) && AfterDo(th, th.pc.res).req == th.req
    ensures AfterDo(th, th.pc.res).pc.Done?
  {
    hide Storable, CoalesceKey, Permitted, Shareable;
    var res := th.pc.res;
    if res.err == NoError && res.entry.Some? {
      ShareableStorable(cfg, CoalesceKey(cfg, th.req).value, res.entry.value);
    }
  }

  lemma LeaderKeeps(cfg: Config, th: Thread, c: Choice)
    requires LocalOk(cfg, th) && !BeforeFunction(th.pc) && !InPass(th.pc)
    requires c.Got? && c.found.Some? ==> Storable(c.found.value)
    ensures var step := StepLeader(cfg, th, c);
      step.Some? ==> LocalOk(cfg, step.value.0) && step.value.0.req == th.req
  {
    hide Storable, CoalesceKey, Permitted, Matches, Shareable, EndRun, Recheck, AfterDo;
    match th.pc {
      case Check(id) =>
        if c.Got? && c.found.Some? { RecheckKeeps(cfg, th, id, c.found.value); }
      case CheckVariant(id, p) =>
        if c.Got? { RecheckKeeps(cfg, th, id, if c.found.Some? then c.found.value else p); }
      case Running(id) =>
        if c.Ended? { EndRunKeeps(cfg, th, id, c.outcome); }
      case Removed(id, res) =>
        if !res.panicked { RemovedKeeps(cfg, th); }
      case _ =>
    }
  }

  lemma PassKeeps(cfg: Config, th: Thread, c: Choice)
    requires LocalOk(cfg, th) && InPass(th.pc)
    ensures var step := StepPass(cfg, th, c);
      step.Some? ==> LocalOk(cfg, step.value.0) && step.value.0.req == th.req
  {
    hide CoalesceKey, Permitted, Matches, Recorded;
  }

  lemma StepThreadKeeps(cfg: Config, th: Thread, c: Choice, inflight: Option<nat>, next: nat, call: Option<Call>)
    requires LocalOk(cfg, th)
    requires c.Got? && c.found.Some? ==> Storable(c.found.value)
    requires th.pc.Waiting? ==> CallOk(cfg, th, call)
    ensures var step := StepThread(cfg, th, c, inflight, next, call);
      step.Some? ==> LocalOk(cfg, step.value.0) && step.value.0.req == th.req
  {
    hide LocalOk, StepBefore, StepPass, StepLeader, Storable, CallOk;
    if BeforeFunction(th.pc) {
      BeforeKeeps(cfg, th, c, inflight, next, call);
    } else if InPass(th.pc) {
      PassKeeps(cfg, th, c);
    } else {
      LeaderKeeps(cfg, th, c);
    }
  }
}
