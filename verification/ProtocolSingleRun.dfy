/**
 Coalescing as the README promises it, counted: however many requests and prefetch jobs for one key
 are interleaved, late leaders included, leaders run the handler at most once in all, and every
 cancelled follower runs it once more. It rests on a reliable store and storable responses without
 Vary.
 */
module ProtocolSingleRun {
  import opened Bytes
  import opened Protocol
  import opened ProtocolInvariant
  import opened ProtocolSafety
  import opened ProtocolTheorems
  import opened ProtocolOnce

  /** A request or job that coalesces on the shared key and looks the store up. */
  predicate Coalescable(cfg: Config, r: Request) {
    CoalesceKey(cfg, r) == Some(Shared(r.key)) && (r.prefetch || !r.noCache)
  }

  /** The handler's run ends in a response without Vary that is stored. */
  predicate GoodChoice(cfg: Config, r: Request, c: Choice) {
    match c
    case Ended(Finish(e)) => e.vary == NoVary && WillStore(cfg, r, Recorded(e, r))
    case Ended(_) => false
    case _ => true
  }

  /** A leader that has run the handler is about to commit or has committed. */
  predicate GoodThread(cfg: Config, th: Thread, k: Key) {
    && !th.pc.Panicked?
    && (th.isLeader && th.runs > 0 ==> PreCommit(cfg, th, k) || Committed(cfg, th, k))
    && (th.pc.Returned? || th.pc.Removed? ==> !th.pc.res.panicked && SharesEntry(th.pc.res))
  }

  predicate GoodCall(call: Option<Call>) {
    call.Some? && call.value.done ==> call.value.err == NoError && call.value.entry.Some?
  }

  function LeaderRuns(th: Thread): nat {
    if th.isLeader then th.runs else 0
  }

  /** A step adds to the runs what it adds to the leader's runs, and one more if it is a cancellation. */
  predicate Counts(th: Thread, c: Choice, th': Thread) {
    th'.runs + LeaderRuns(th) == th.runs + LeaderRuns(th') + if c == Cancel then 1 else 0
  }

  lemma BeforeGood(cfg: Config, th: Thread, c: Choice, inflight: Option<nat>, next: nat, call: Option<Call>, k: Key)
    requires LocalOk(cfg, th) && GoodThread(cfg, th, k) && Coalescable(cfg, th.req) && BeforeFunction(th.pc)
    requires GoodChoice(cfg, th.req, c) && GoodCall(call)
    ensures var step := StepBefore(cfg, th, c, inflight, next, call);
      step.Some? ==> GoodThread(cfg, step.value.0, k) && Counts(th, c, step.value.0)
  {
    hide CoalesceKey, Permitted, Matches, Storable;
  }

  lemma LeaderGood(cfg: Config, th: Thread, c: Choice, k: Key)
    requires LocalOk(cfg, th) && PlainThread(th) && PlainChoice(c)
    requires GoodThread(cfg, th, k) && Coalescable(cfg, th.req) && th.req.key == k
    requires !BeforeFunction(th.pc) && !InPass(th.pc) && GoodChoice(cfg, th.req, c)
    ensures var step := StepLeader(cfg, th, c);
      step.Some? ==> GoodThread(cfg, step.value.0, k) && Counts(th, c, step.value.0)
  {
    LeadsKey(cfg, th, k);
    if c.Got? && c.found.Some? { PlainMatches(c.found.value, th.req); }
    if th.pc.Removed? { RemovedKeeps(cfg, th); }
    hide CoalesceKey, Storable, Shareable, WillStore, Recorded, Matches;
  }

  lemma PassGood(cfg: Config, th: Thread, c: Choice, k: Key)
    requires LocalOk(cfg, th) && InPass(th.pc) && GoodChoice(cfg, th.req, c)
    ensures var step := StepPass(cfg, th, c);
      step.Some? ==> GoodThread(cfg, step.value.0, k) && Counts(th, c, step.value.0)
  {
    hide CoalesceKey, Storable, WillStore, Recorded, Permitted;
  }

  lemma StepGood(cfg: Config, th: Thread, c: Choice, inflight: Option<nat>, next: nat, call: Option<Call>, k: Key)
    requires LocalOk(cfg, th) && PlainThread(th) && PlainChoice(c)
    requires GoodThread(cfg, th, k) && Coalescable(cfg, th.req) && th.req.key == k
    requires GoodChoice(cfg, th.req, c) && GoodCall(call)
    ensures var step := StepThread(cfg, th, c, inflight, next, call);
      step.Some? ==> GoodThread(cfg, step.value.0, k) && Counts(th, c, step.value.0)
  {
    hide LocalOk, PlainThread, PlainChoice, StepBefore, StepPass, StepLeader;
    hide GoodThread, GoodChoice, GoodCall, Coalescable, Counts;
    if BeforeFunction(th.pc) {
      BeforeGood(cfg, th, c, inflight, next, call, k);
    } else if InPass(th.pc) {
      PassGood(cfg, th, c, k);
    } else {
      LeaderGood(cfg, th, c, k);
    }
  }

  ghost predicate GoodInv(cfg: Config, s: State, k: Key) {
    && (forall t :: 0 <= t < |s.threads| && s.threads[t].req.key == k ==>
          Coalescable(cfg, s.threads[t].req) && GoodThread(cfg, s.threads[t], k))
    && (forall id :: 0 <= id < |s.objs| && s.objs[id].key == Shared(k) ==> GoodCall(Some(s.objs[id])))
  }

  lemma ObjsGood(cfg: Config, s: State, t: nat, th': Thread, effect: Effect, s': State, k: Key, id: nat)
    requires Inv(cfg, s) && GoodInv(cfg, s, k) && Moves(cfg, s, t, th', effect, s')
    requires id < |s'.objs| && s'.objs[id].key == Shared(k)
    ensures GoodCall(Some(s'.objs[id]))
  {
    var th := s.threads[t];
    if LeaderCall(th.pc).Some? {
      LeaderIs(cfg, s, t);
      LeadsKey(cfg, th, k);
    }
    if th.pc.Removed? && th.req.key == k { assert !th.pc.res.panicked && SharesEntry(th.pc.res); }
    if id < |s.objs| && s.objs[id].key == Shared(k) { assert GoodCall(Some(s.objs[id])); }
    hide Inv, GoodInv, LocalOk, CoalesceKey, Storable, QuietMove, GoodThread;
  }

  lemma ThreadsGood(cfg: Config, s: State, ev: Event, th': Thread, k: Key)
    requires Inv(cfg, s) && OnceInv(cfg, s, k) && GoodInv(cfg, s, k) && Step(cfg, s, ev).Some?
    requires Plan(cfg, s, s.threads[ev.t], ev.choice).value.0 == th' && s.threads[ev.t].req.key == k
    requires cfg.reliable && GoodChoice(cfg, s.threads[ev.t].req, ev.choice)
    ensures GoodThread(cfg, th', k) && Counts(s.threads[ev.t], ev.choice, th')
  {
    var th, c := s.threads[ev.t], ev.choice;
    assert LocalOk(cfg, th) && Linked(cfg, s, ev.t, th);
    assert GoodThread(cfg, th, k) && Coalescable(cfg, th.req) && PlainThread(th);
    WaitedGood(cfg, s, th, k);
    GoodIsPlain(cfg, th, c, k);
    ChoicePlain(cfg, s, th, c, k);
    hide Inv, OnceInv, GoodInv, LocalOk, Linked, PlainThread, PlainChoice;
    hide GoodThread, Coalescable, GoodCall, GoodChoice, StepThread, Counts;
    StepGood(cfg, th, c, InflightOf(cfg, s, th), |s.objs|, WaitedOn(s, th), k);
  }

  lemma GoodIsPlain(cfg: Config, th: Thread, c: Choice, k: Key)
    requires GoodChoice(cfg, th.req, c)
    ensures PlainEvent(th, c, k)
  {
  }

  lemma WaitedGood(cfg: Config, s: State, th: Thread, k: Key)
    requires GoodInv(cfg, s, k) && Coalescable(cfg, th.req) && th.req.key == k
    requires th.pc.Waiting? ==> th.pc.call < |s.objs| && Some(s.objs[th.pc.call].key) == CoalesceKey(cfg, th.req)
    ensures GoodCall(WaitedOn(s, th))
  {
    hide CoalesceKey, GoodThread, GoodCall;
    if th.pc.Waiting? {
      assert GoodCall(Some(s.objs[th.pc.call]));
    } else {
      NoCallGood();
    }
  }

  lemma NoCallGood()
    ensures GoodCall(None)
  {
  }

  lemma GoodStep(cfg: Config, s: State, ev: Event, k: Key)
    requires Inv(cfg, s) && OnceInv(cfg, s, k) && GoodInv(cfg, s, k) && Step(cfg, s, ev).Some? && cfg.reliable
    requires s.threads[ev.t].req.key == k ==> GoodChoice(cfg, s.threads[ev.t].req, ev.choice)
    ensures GoodInv(cfg, Step(cfg, s, ev).value, k)
  {
    var th', effect := StepMoves(cfg, s, ev);
    var s' := Step(cfg, s, ev).value;
    if s.threads[ev.t].req.key == k {
      ThreadsGood(cfg, s, ev, th', k);
    }
    assert s'.threads == s.threads[ev.t := th'] && th'.req == s.threads[ev.t].req;
    forall id | 0 <= id < |s'.objs| && s'.objs[id].key == Shared(k)
      ensures GoodCall(Some(s'.objs[id]))
    {
      ObjsGood(cfg, s, ev.t, th', effect, s', k, id);
    }
    hide Inv, OnceInv, Step, Plan, Moves, Coalescable, GoodThread, GoodCall, GoodChoice;
  }

  ghost predicate GoodRun(cfg: Config, requests: seq<Request>, events: seq<Event>, k: Key) {
    && (forall t :: 0 <= t < |requests| && requests[t].key == k ==> Coalescable(cfg, requests[t]))
    && (forall i :: 0 <= i < |events| && events[i].t < |requests| && requests[events[i].t].key == k ==>
          GoodChoice(cfg, requests[events[i].t], events[i].choice))
  }

  lemma GoodRunIsPlain(cfg: Config, requests: seq<Request>, events: seq<Event>, k: Key)
    requires GoodRun(cfg, requests, events, k)
    ensures PlainRun(requests, events, k)
  {
    forall i | 0 <= i < |events| && events[i].t < |requests|
      ensures PlainEvent(NewThread(requests[events[i].t]), events[i].choice, k)
    {
      if requests[events[i].t].key == k {
        GoodIsPlain(cfg, NewThread(requests[events[i].t]), events[i].choice, k);
      }
    }
  }

  lemma {:induction false} RunGood(cfg: Config, requests: seq<Request>, events: seq<Event>, k: Key)
    requires cfg.reliable && Run(cfg, Start(requests), events).Some? && GoodRun(cfg, requests, events, k)
    ensures GoodInv(cfg, Run(cfg, Start(requests), events).value, k)
    decreases |events|
  {
    if events == [] {
      StartGood(cfg, requests, events, k);
    } else {
      var prefix, last := events[..|events| - 1], events[|events| - 1];
      assert GoodRun(cfg, requests, prefix, k);
      RunInv(cfg, requests, prefix);
      RequestsFixed(cfg, requests, prefix);
      GoodRunIsPlain(cfg, requests, prefix, k);
      RunOnce(cfg, requests, prefix, k);
      RunGood(cfg, requests, prefix, k);
      var s := Run(cfg, Start(requests), prefix).value;
      assert last.t < |s.threads|;
      assert s.threads[last.t].req.key == k ==> GoodChoice(cfg, s.threads[last.t].req, last.choice);
      hide Inv, OnceInv, GoodInv, Plan, Start, LocalOk, ApplyEffect;
      GoodStep(cfg, s, last, k);
    }
  }

  lemma StartGood(cfg: Config, requests: seq<Request>, events: seq<Event>, k: Key)
    requires GoodRun(cfg, requests, events, k)
    ensures GoodInv(cfg, Start(requests), k)
  {
    hide Coalescable, CoalesceKey;
  }

  // ---- Counting the runs of the handler ----

  function OwnRuns(th: Thread, k: Key, leaders: bool): nat {
    if th.req.key != k then 0 else if leaders then LeaderRuns(th) else th.runs
  }

  /** All runs of the handler for the key, or only those by leaders. */
  function RunsOf(threads: seq<Thread>, k: Key, leaders: bool): nat {
    if threads == [] then 0 else OwnRuns(threads[0], k, leaders) + RunsOf(threads[1..], k, leaders)
  }

  predicate Cancels(requests: seq<Request>, ev: Event, k: Key) {
    ev.choice == Cancel && ev.t < |requests| && requests[ev.t].key == k
  }

  /** The cancellations of followers of the key. */
  function CancelsOf(requests: seq<Request>, events: seq<Event>, k: Key): nat {
    if events == [] then 0
    else CancelsOf(requests, events[..|events| - 1], k) + if Cancels(requests, events[|events| - 1], k) then 1 else 0
  }

  lemma {:induction false} RunsUpdate(threads: seq<Thread>, t: nat, th: Thread, k: Key, leaders: bool)
    requires t < |threads|
    ensures RunsOf(threads[t := th], k, leaders)
         == RunsOf(threads, k, leaders) - OwnRuns(threads[t], k, leaders) + OwnRuns(th, k, leaders)
    decreases t
  {
    hide OwnRuns;
    var updated := threads[t := th];
    if t == 0 {
      assert updated[1..] == threads[1..];
    } else {
      RunsUpdate(threads[1..], t - 1, th, k, leaders);
      assert updated[1..] == threads[1..][t - 1 := th];
    }
  }

  lemma {:induction false} NoRuns(threads: seq<Thread>, k: Key, leaders: bool)
    requires forall t :: 0 <= t < |threads| ==> OwnRuns(threads[t], k, leaders) == 0
    ensures RunsOf(threads, k, leaders) == 0
    decreases |threads|
  {
    hide OwnRuns;
    if threads != [] {
      NoRuns(threads[1..], k, leaders);
    }
  }

  lemma {:induction false} OneRunAtMost(threads: seq<Thread>, k: Key)
    requires forall t :: 0 <= t < |threads| ==> OwnRuns(threads[t], k, true) <= 1
    requires forall t, u :: 0 <= t < u < |threads| ==>
      OwnRuns(threads[t], k, true) == 0 || OwnRuns(threads[u], k, true) == 0
    ensures RunsOf(threads, k, true) <= 1
    decreases |threads|
  {
    hide OwnRuns;
    if threads != [] {
      if OwnRuns(threads[0], k, true) == 0 {
        OneRunAtMost(threads[1..], k);
      } else {
        NoRuns(threads[1..], k, true);
      }
    }
  }

  lemma CountStep(cfg: Config, s: State, ev: Event, k: Key)
    requires Inv(cfg, s) && OnceInv(cfg, s, k) && GoodInv(cfg, s, k) && Step(cfg, s, ev).Some? && cfg.reliable
    requires s.threads[ev.t].req.key == k ==> GoodChoice(cfg, s.threads[ev.t].req, ev.choice)
    ensures var s' := Step(cfg, s, ev).value;
      RunsOf(s'.threads, k, false) + RunsOf(s.threads, k, true) ==
        RunsOf(s.threads, k, false) + RunsOf(s'.threads, k, true)
        + if ev.choice == Cancel && s.threads[ev.t].req.key == k then 1 else 0
  {
    var th', effect := StepMoves(cfg, s, ev);
    MovesThreads(cfg, s, ev.t, th', effect, Step(cfg, s, ev).value);
    assert th'.req == s.threads[ev.t].req;
    hide Inv, OnceInv, GoodInv, Step, Plan, Moves, GoodThread, GoodChoice;
    if s.threads[ev.t].req.key == k {
      ThreadsGood(cfg, s, ev, th', k);
    }
    RunsUpdate(s.threads, ev.t, th', k, false);
    RunsUpdate(s.threads, ev.t, th', k, true);
  }

  lemma {:induction false} RunCounts(cfg: Config, requests: seq<Request>, events: seq<Event>, k: Key)
    requires cfg.reliable && Run(cfg, Start(requests), events).Some? && GoodRun(cfg, requests, events, k)
    ensures var s := Run(cfg, Start(requests), events).value;
      RunsOf(s.threads, k, false) == RunsOf(s.threads, k, true) + CancelsOf(requests, events, k)
    decreases |events|
  {
    if events == [] {
      NoRuns(Start(requests).threads, k, false);
      NoRuns(Start(requests).threads, k, true);
    } else {
      var prefix, last := events[..|events| - 1], events[|events| - 1];
      assert GoodRun(cfg, requests, prefix, k);
      RunCounts(cfg, requests, prefix, k);
      RunInv(cfg, requests, prefix);
      RequestsFixed(cfg, requests, prefix);
      GoodRunIsPlain(cfg, requests, prefix, k);
      RunOnce(cfg, requests, prefix, k);
      RunGood(cfg, requests, prefix, k);
      var s := Run(cfg, Start(requests), prefix).value;
      assert last.t < |s.threads|;
      assert s.threads[last.t].req.key == k ==> GoodChoice(cfg, s.threads[last.t].req, last.choice);
      hide Inv, OnceInv, GoodInv, Plan, Start, LocalOk, ApplyEffect, Step, GoodRun, RunsOf, GoodChoice;
      CountStep(cfg, s, last, k);
    }
  }

  /** Two leaders of the key that have run the handler are one. */
  lemma OneLeaderRuns(cfg: Config, requests: seq<Request>, events: seq<Event>, s: State, k: Key, t: nat, u: nat)
    requires cfg.reliable && Reached(cfg, requests, events, s) && GoodRun(cfg, requests, events, k)
    requires t < |s.threads| && u < |s.threads|
    requires OwnRuns(s.threads[t], k, true) > 0 && OwnRuns(s.threads[u], k, true) > 0
    ensures t == u
  {
    RunGood(cfg, requests, events, k);
    GoodRunIsPlain(cfg, requests, events, k);
    RunOnce(cfg, requests, events, k);
    RunInv(cfg, requests, events);
    assert GoodThread(cfg, s.threads[t], k) && GoodThread(cfg, s.threads[u], k);
    if PreCommit(cfg, s.threads[t], k) && PreCommit(cfg, s.threads[u], k) {
      OneHolder(cfg, s, t, u);
    }
    hide Inv, LocalOk, GoodInv, PlainThread, PreCommit, Committed, AllPlain;
  }

  /**
   Over every interleaving of coalescable requests and prefetch jobs for the key, the handler runs
   once for every cancelled follower and at most once besides, by a leader, even if threads missed
   before the first leader finished and became leader after it.
   */
  lemma RunsCounted(cfg: Config, requests: seq<Request>, events: seq<Event>, s: State, k: Key)
    requires cfg.reliable && Reached(cfg, requests, events, s) && GoodRun(cfg, requests, events, k)
    ensures RunsOf(s.threads, k, false) == RunsOf(s.threads, k, true) + CancelsOf(requests, events, k)
    ensures RunsOf(s.threads, k, true) <= 1
  {
    RunCounts(cfg, requests, events, k);
    RunInv(cfg, requests, events);
    forall t | 0 <= t < |s.threads|
      ensures OwnRuns(s.threads[t], k, true) <= 1
    {
      assert LocalOk(cfg, s.threads[t]);
    }
    hide Inv, Run, Start, GoodRun, OwnRuns;
    forall t, u | 0 <= t < u < |s.threads|
      ensures OwnRuns(s.threads[t], k, true) == 0 || OwnRuns(s.threads[u], k, true) == 0
    {
      if OwnRuns(s.threads[t], k, true) > 0 && OwnRuns(s.threads[u], k, true) > 0 {
        OneLeaderRuns(cfg, requests, events, s, k, t, u);
      }
    }
    OneRunAtMost(s.threads, k);
  }

  /** One execution for a whole burst, if none of its followers is cancelled. */
  lemma AtMostOneRun(cfg: Config, requests: seq<Request>, events: seq<Event>, s: State, k: Key)
    requires cfg.reliable && Reached(cfg, requests, events, s) && GoodRun(cfg, requests, events, k)
    requires forall i :: 0 <= i < |events| ==> !Cancels(requests, events[i], k)
    ensures RunsOf(s.threads, k, false) <= 1
  {
    RunsCounted(cfg, requests, events, s, k);
    NoCancels(requests, events, k);
  }

  lemma {:induction false} NoCancels(requests: seq<Request>, events: seq<Event>, k: Key)
    requires forall i :: 0 <= i < |events| ==> !Cancels(requests, events[i], k)
    ensures CancelsOf(requests, events, k) == 0
    decreases |events|
  {
    hide Cancels;
    if events != [] {
      NoCancels(requests, events[..|events| - 1], k);
    }
  }
}
