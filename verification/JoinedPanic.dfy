/**
 A run of the protocol on the two-tier store from nothing: a prefetch job looks up twice and misses, its
 handler panics before it writes, and the job stores what the recorder shows, an empty 200 response.
 */
module JoinedPanic {
  import opened Bytes
  import opened Mime
  import opened StoreBridge
  import opened StoreJoin
  import opened ProtocolAlike
  import opened JoinedMachine
  import Arena
  import HeaderCodec
  import Shard
  import Vary
  import P = Protocol
  import M = ProtocolLimits
  import T = TierMachine
  import L = TierLimits

  const LAX := P.Config({}, false, false)
  const ONE_KEY := Addresses({P.Primary(0)}, k => 0)

  // ---- The job ----

  function Alone(th: P.Thread): P.State {
    P.State(map[], map[], [], [th])
  }

  function Calling(th: P.Thread): P.State {
    P.State(map[], map[P.Shared(0) := 0], [M.OpenCall(M.JOB)], [th])
  }

  /** The job has stored what its handler left. */
  function PanicStored(): P.State {
    P.State(map[P.Primary(0) := {M.NOTHING_WRITTEN}], map[P.Shared(0) := 0], [M.OpenCall(M.JOB)],
            [M.Filled(M.JOB, 0, M.NOTHING_WRITTEN)])
  }

  lemma LookedUp()
    ensures Act(LAX, Alone(P.NewThread(M.JOB)), P.Event(0, P.Got(None))) == Some(Alone(M.JoinedTo(M.JOB)))
  {
    assert [P.NewThread(M.JOB)][0 := M.JoinedTo(M.JOB)] == [M.JoinedTo(M.JOB)];
  }

  lemma Led()
    ensures Act(LAX, Alone(M.JoinedTo(M.JOB)), P.Event(0, P.Tick)) == Some(Calling(M.Leading(M.JOB, 0)))
  {
    assert [M.JoinedTo(M.JOB)][0 := M.Leading(M.JOB, 0)] == [M.Leading(M.JOB, 0)];
    assert [] + [M.OpenCall(M.JOB)] == [M.OpenCall(M.JOB)];
  }

  lemma Checked()
    ensures var th := P.StartRun(M.Leading(M.JOB, 0), 0);
      Act(LAX, Calling(M.Leading(M.JOB, 0)), P.Event(0, P.Got(None))) == Some(Calling(th))
  {
    var th := P.StartRun(M.Leading(M.JOB, 0), 0);
    assert [M.Leading(M.JOB, 0)][0 := th] == [th];
  }

  lemma Panicked()
    ensures var th := P.StartRun(M.Leading(M.JOB, 0), 0);
      Act(LAX, Calling(th), P.Event(0, P.Ended(P.Finish(M.NOTHING_WRITTEN)))) ==
        Some(Calling(M.Ran(M.JOB, 0, M.NOTHING_WRITTEN)))
  {
    var th := P.StartRun(M.Leading(M.JOB, 0), 0);
    M.RunPlan(LAX, Calling(th), M.JOB, M.NOTHING_WRITTEN);
    assert [th][0 := M.Ran(M.JOB, 0, M.NOTHING_WRITTEN)] == [M.Ran(M.JOB, 0, M.NOTHING_WRITTEN)];
    hide P.Plan, P.StartRun, M.Ran, M.Leading;
  }

  lemma Stored()
    ensures Act(LAX, Calling(M.Ran(M.JOB, 0, M.NOTHING_WRITTEN)), P.Event(0, P.SetDone(true))) == Some(PanicStored())
  {
    var th := M.Ran(M.JOB, 0, M.NOTHING_WRITTEN);
    M.StorePlan(LAX, Calling(th), M.JOB, M.NOTHING_WRITTEN);
    assert [th][0 := M.Filled(M.JOB, 0, M.NOTHING_WRITTEN)] == [M.Filled(M.JOB, 0, M.NOTHING_WRITTEN)];
    assert {} + {M.NOTHING_WRITTEN} == {M.NOTHING_WRITTEN};
    hide P.Plan, M.Ran, M.Filled, M.Leading;
  }

  // ---- The store ----

  /** Nothing is stored yet, and it is time zero. */
  ghost predicate Nothing(s: T.State) {
    && T.Inv(s) && T.Ready(s) && s.now == 0 && |s.callers| == 4
    && s.l1[0] == None && s.shards == [Arena.EMPTY] && s.maxSize == L.SHARD_SIZE
  }

  lemma Steps(s: T.State, t: nat, c: T.Choice, s': T.State)
    requires T.Inv(s) && T.Ready(s) && s.now == 0 && t < |s.callers| && T.StepAt(s, t, c) == Some(s')
    ensures StoreStep(LAX, s, L.At(t, c)) == Some(s') && T.Inv(s') && T.Ready(s')
  {
    L.NowIs(s, t, c);
    hide T.Inv, T.Ready, T.Step, T.StepAt;
    L.KeptAfter(s, L.At(t, c));
  }

  /** A Get finds neither slot nor record. */
  lemma Misses(s: T.State, g: nat)
    requires Nothing(s) && g < 4 && s.callers[g].req == T.GetOf(0)
    ensures s.callers[g].pc.Begin? ==> T.StepAt(s, g, T.Tick) == Some(T.Moved(s, g, T.MissedL1))
    ensures s.callers[g].pc.MissedL1? ==> T.StepAt(s, g, T.Tick) == Some(T.Moved(s, g, T.Done))
  {
    Arena.NothingFound(0);
    assert T.ShardOf(s, 0) == Arena.EMPTY;
    hide T.Inv, Arena.Consistent, Arena.Find;
  }

  lemma MovesOn(s: T.State, t: nat, c: T.Choice, pc: T.PC)
    requires Nothing(s) && t < 4 && T.StepAt(s, t, c) == Some(T.Moved(s, t, pc))
    ensures StoreStep(LAX, s, L.At(t, c)) == Some(T.Moved(s, t, pc)) && Nothing(T.Moved(s, t, pc))
  {
    Steps(s, t, c, T.Moved(s, t, pc));
    hide T.Inv, T.Ready, T.StepAt, StoreStep;
  }

  // ---- The two together ----

  lemma Then(j0: Joint, events: seq<JointEvent>, j: Joint, e: JointEvent, j': Joint, events': seq<JointEvent>)
    requires JointRun(LAX, ONE_KEY, j0, events) == Some(j) && JointStep(LAX, ONE_KEY, j, e) == Some(j')
    requires events' == events + [e]
    ensures JointRun(LAX, ONE_KEY, j0, events') == Some(j')
  {
    assert events'[..|events|] == events;
    hide JointStep;
  }

  lemma GoesBetween(ps: P.State, s: T.State, t: nat, c: T.Choice, s': T.State)
    requires StoreStep(LAX, s, L.At(t, c)) == Some(s') && !c.Written?
    ensures JointStep(LAX, ONE_KEY, Joint(ps, s), Between(L.At(t, c))) == Some(Joint(ps, s'))
  {
    hide StoreStep;
  }

  lemma GoesOn(ps: P.State, s: T.State, c: P.Choice, ps': P.State)
    requires Act(LAX, ps, P.Event(0, c)) == Some(ps') && !c.Got? && !c.SetDone?
    ensures JointStep(LAX, ONE_KEY, Joint(ps, s), Inner(P.Event(0, c))) == Some(Joint(ps', s))
  {
    hide Act;
  }

  /** A Get that missed L1 misses the arena, and the job's lookup fails. */
  lemma LookupFails(ps: P.State, s: T.State, g: nat, ps': P.State)
    requires Nothing(s) && g < 4 && s.callers[g] == T.Caller(T.GetOf(0), T.MissedL1)
    requires |ps.threads| > 0 && P.StoreKeyOf(ps.threads[0]) == P.Primary(0)
    requires Act(LAX, ps, P.Event(0, P.Got(None))) == Some(ps')
    ensures JointStep(LAX, ONE_KEY, Joint(ps, s), Reads(P.Event(0, P.Got(None)), L.At(g, T.Tick))) ==
      Some(Joint(ps', T.Moved(s, g, T.Done)))
    ensures Nothing(T.Moved(s, g, T.Done))
  {
    Misses(s, g);
    MovesOn(s, g, T.Tick, T.Done);
    hide Act, StoreStep, P.StoreKeyOf, T.Inv, T.Ready;
  }

  /** A Get of the job runs from its beginning to its miss. */
  lemma GetMisses(j0: Joint, events: seq<JointEvent>, ps: P.State, s: T.State, g: nat, ps': P.State)
      returns (s': T.State)
    requires JointRun(LAX, ONE_KEY, j0, events) == Some(Joint(ps, s))
    requires Nothing(s) && g < 4 && s.callers[g] == T.Caller(T.GetOf(0), T.Begin)
    requires |ps.threads| > 0 && P.StoreKeyOf(ps.threads[0]) == P.Primary(0)
    requires Act(LAX, ps, P.Event(0, P.Got(None))) == Some(ps')
    ensures JointRun(LAX, ONE_KEY, j0, events + Lookup(g)) == Some(Joint(ps', s')) && Nothing(s')
    ensures forall u :: 0 <= u < 4 && u != g ==> s'.callers[u] == s.callers[u]
  {
    var s1 := T.Moved(s, g, T.MissedL1);
    s' := T.Moved(s1, g, T.Done);
    Misses(s, g);
    MovesOn(s, g, T.Tick, T.MissedL1);
    GoesBetween(ps, s, g, T.Tick, s1);
    LookupFails(ps, s1, g, ps');
    hide JointRun, JointStep, Nothing, Act, StoreStep, P.StoreKeyOf, T.StepAt;
    Then(j0, events, Joint(ps, s), Between(L.At(g, T.Tick)), Joint(ps, s1), events + [Between(L.At(g, T.Tick))]);
    Then(j0, events + [Between(L.At(g, T.Tick))], Joint(ps, s1), Reads(P.Event(0, P.Got(None)), L.At(g, T.Tick)),
         Joint(ps', s'), events + Lookup(g));
  }

  function Lookup(g: nat): seq<JointEvent> {
    [Between(L.At(g, T.Tick)), Reads(P.Event(0, P.Got(None)), L.At(g, T.Tick))]
  }

  function From0(): Joint {
    From([M.JOB], L.CALLS, 1, L.SHARD_SIZE)
  }

  function LeadEvents(): seq<JointEvent> {
    Lookup(1) + [Inner(P.Event(0, P.Tick))] + Lookup(3) + [Inner(P.Event(0, P.Ended(P.Finish(M.NOTHING_WRITTEN))))]
  }

  function StoreEvents(): seq<JointEvent> {
    [Between(L.At(0, T.Tick)), Writes(P.Event(0, P.SetDone(true)), L.At(0, T.Written(L.ENTRY, L.RECORD)))]
  }

  lemma Begins()
    ensures From0().protocol == Alone(P.NewThread(M.JOB)) && Nothing(From0().store)
    ensures From0().store.callers[0] == T.Caller(L.CALLS[0], T.Begin)
    ensures From0().store.callers[1] == T.Caller(T.GetOf(0), T.Begin)
    ensures From0().store.callers[3] == T.Caller(T.GetOf(0), T.Begin)
    ensures JointRun(LAX, ONE_KEY, From0(), []) == Some(From0())
  {
    L.Beginning(From0().store);
    assert P.Start([M.JOB]).threads == [P.NewThread(M.JOB)];
    hide T.Inv, T.Ready;
  }

  lemma Leads() returns (s: T.State)
    ensures JointRun(LAX, ONE_KEY, From0(), LeadEvents()) ==
      Some(Joint(Calling(M.Ran(M.JOB, 0, M.NOTHING_WRITTEN)), s))
    ensures Nothing(s) && s.callers[0] == T.Caller(L.CALLS[0], T.Begin)
  {
    Begins();
    LookedUp();
    Led();
    Checked();
    Panicked();
    var j0, E := From0(), P.Ended(P.Finish(M.NOTHING_WRITTEN));
    var p0, p1, p2 := Alone(P.NewThread(M.JOB)), Alone(M.JoinedTo(M.JOB)), Calling(M.Leading(M.JOB, 0));
    var p3, p4 := Calling(P.StartRun(M.Leading(M.JOB, 0), 0)), Calling(M.Ran(M.JOB, 0, M.NOTHING_WRITTEN));
    assert P.StoreKeyOf(p0.threads[0]) == P.StoreKeyOf(p2.threads[0]) == P.Primary(0);
    hide JointRun, JointStep, Nothing, Act, StoreStep, P.StoreKeyOf, From0, M.Ran, P.StartRun, M.Leading, Lookup;
    var e1 := Lookup(1);
    assert [] + e1 == e1;
    var s1 := GetMisses(j0, [], p0, j0.store, 1, p1);
    GoesOn(p1, s1, P.Tick, p2);
    var e2 := e1 + [Inner(P.Event(0, P.Tick))];
    Then(j0, e1, Joint(p1, s1), Inner(P.Event(0, P.Tick)), Joint(p2, s1), e2);
    s := GetMisses(j0, e2, p2, s1, 3, p3);
    GoesOn(p3, s, E, p4);
    Then(j0, e2 + Lookup(3), Joint(p3, s), Inner(P.Event(0, E)), Joint(p4, s), e2 + Lookup(3) + [Inner(P.Event(0, E))]);
  }

  /** To the protocol, the entry is what the recorder shows, but for the flag that it is not complete. */
  lemma LooksEmpty()
    ensures ViewOf(L.ENTRY) == Whole(M.NOTHING_WRITTEN)
  {
  }

  lemma JobFacts()
    ensures var th := M.Ran(M.JOB, 0, M.NOTHING_WRITTEN);
      P.StoreKeyOf(th) == P.Primary(0) && ToStore(th.pc) == Some(M.NOTHING_WRITTEN)
  {
  }

  lemma JobStores(s: T.State)
    requires Nothing(s) && s.callers[0] == T.Caller(L.CALLS[0], T.Stamped(L.ENTRY, 0))
    ensures JointStep(LAX, ONE_KEY, Joint(Calling(M.Ran(M.JOB, 0, M.NOTHING_WRITTEN)), s),
                      Writes(P.Event(0, P.SetDone(true)), L.At(0, T.Written(L.ENTRY, L.RECORD)))) ==
      Some(Joint(PanicStored(), L.Wrote(s)))
  {
    L.SetWrites(s);
    Steps(s, 0, T.Written(L.ENTRY, L.RECORD), L.Wrote(s));
    Stored();
    LooksEmpty();
    JobFacts();
    hide T.Inv, T.Ready, T.StepAt, StoreStep, Act, ViewOf, PanicStored, M.Ran, P.StoreKeyOf, ToStore, Whole;
  }

  lemma EntryFaithful()
    ensures Faithful(L.ENTRY)
  {
    var none: HeaderCodec.Header := map[];
    assert IsCanonical(none) && Vary.Satisfies(none, L.ENTRY.vary);
    forall h' | Vary.IsPersisted(h', L.ENTRY.header, L.ENTRY.vary)
      ensures Shard.EntryFits(L.ENTRY.(header := h'))
    {
      assert h' == map[];
    }
  }

  lemma EmptyIsFaithful()
    ensures AllFaithful(From0().store)
  {
    EntryFaithful();
    hide Faithful;
  }

  lemma EndFacts(s: T.State)
    requires Nothing(s)
    ensures M.NOTHING_WRITTEN in P.EverSet(PanicStored(), P.Primary(0)) && L.Wrote(s).shards == [L.STORED]
  {
    hide T.Inv, T.Ready;
  }

  /**
   On the tiers, too, the partial response of a panicking handler ends in the store: from an empty one, a
   job's panic leaves an empty 200 response in the arena and among those Set under the key.
   */
  lemma PanicReachesStore()
    ensures Apart(ONE_KEY) && AllFaithful(From0().store)
    ensures var end := JointRun(LAX, ONE_KEY, From0(), LeadEvents() + StoreEvents());
      && end.Some? && end.value.store.shards == [L.STORED]
      && M.NOTHING_WRITTEN in P.EverSet(end.value.protocol, P.Primary(0)) && !M.NOTHING_WRITTEN.complete
  {
    EmptyIsFaithful();
    var s := Leads();
    var ps, s1 := Calling(M.Ran(M.JOB, 0, M.NOTHING_WRITTEN)), T.Moved(s, 0, T.Stamped(L.ENTRY, 0));
    L.SetStamps(s);
    MovesOn(s, 0, T.Tick, T.Stamped(L.ENTRY, 0));
    GoesBetween(ps, s, 0, T.Tick, s1);
    JobStores(s1);
    EndFacts(s1);
    hide JointRun, JointStep, Nothing, StoreStep, From0, M.Ran, LeadEvents, T.StepAt, AllFaithful, L.Wrote, PanicStored;
    hide P.EverSet, T.Moved, Calling;
    var e0, e1, e2 := LeadEvents(), LeadEvents() + [StoreEvents()[0]], LeadEvents() + StoreEvents();
    Then(From0(), e0, Joint(ps, s), StoreEvents()[0], Joint(ps, s1), e1);
    Then(From0(), e1, Joint(ps, s1), StoreEvents()[1], Joint(PanicStored(), L.Wrote(s1)), e2);
  }
}
