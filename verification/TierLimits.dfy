/**
 What concurrency costs the two-tier store: exactly when a Get that starts now can still answer a
 hash without a new Set, whatever Dels have returned before; and a run in which it does so after one.
 */
module TierLimits {
  import opened Bytes
  import opened HeaderCodec
  import opened Vary
  import opened Shard
  import opened Tiered
  import opened TierMachine
  import Arena

  // ---- Where an unexpired copy may be ----

  predicate SlotLive(s: State, h: nat)
    requires Shaped(s)
  {
    s.l1[h % L1_SLOTS].Some? && Fresh(s.l1[h % L1_SLOTS].value, h, s.now)
  }

  ghost predicate RecordLive(s: State, h: nat)
    requires Ready(s)
  {
    var found := Arena.Find(ShardOf(s, h), h);
    found.Some? && !Arena.Expired(found.value.expire, s.now)
  }

  /** The caller carries an unexpired entry of h that it is going to promote into L1. */
  predicate CarriesLive(c: Caller, h: nat, now: nat) {
    match (c.req, c.pc)
    case (GetOf(x), ReadL2(r)) => x == h && !Arena.Expired(r.expiresAt, now)
    case (GetOf(x), Promoting(r, _)) => x == h && !Arena.Expired(r.expiresAt, now)
    case (SetOf(x, _, _), Accepted(_, exp)) => x == h && !Arena.Expired(exp, now)
    case _ => false
  }

  ghost predicate CarriedLive(s: State, h: nat) {
    exists t :: 0 <= t < |s.callers| && CarriesLive(s.callers[t], h, s.now)
  }

  /** Some unexpired copy of h is in L1, in the arena, or on its way into L1. */
  ghost predicate Live(s: State, h: nat)
    requires Ready(s)
  {
    SlotLive(s, h) || RecordLive(s, h) || CarriedLive(s, h)
  }

  /** The event is a successful Set of h: it writes a record to the arena. */
  ghost predicate Stores(s: State, ev: Event, h: nat) {
    && Step(s, ev).Some? && s.callers[ev.t].req.SetOf? && s.callers[ev.t].req.h == h
    && s.callers[ev.t].pc.Stamped? && Step(s, ev).value.callers[ev.t].pc.Accepted?
  }

  ghost predicate StoresAt(s: State, events: seq<Event>, i: nat, h: nat)
    requires i < |events|
  {
    Run(s, events[..i]).Some? && Stores(Run(s, events[..i]).value, events[i], h)
  }

  ghost predicate NoNewSet(s: State, events: seq<Event>, h: nat) {
    forall i :: 0 <= i < |events| ==> !StoresAt(s, events, i, h)
  }

  // ---- Nothing live: no later answer ----

  /** A Get of h that has not got hold of anything. */
  predicate EmptyHanded(c: Caller, h: nat) {
    c.req == GetOf(h) && (c.pc.Begin? || c.pc.MissedL1? || c.pc.Done?)
  }

  /** What one step leaves of h, in the slot, in the arena, and with the caller. */
  ghost predicate StepLeaves(s: State, t: nat, s': State, h: nat)
    requires Ready(s) && Ready(s') && t < |s.callers| && t < |s'.callers|
  {
    && (SlotLive(s', h) ==> SlotLive(s, h) || CarriesLive(s.callers[t], h, s.now))
    && (RecordLive(s', h) ==> RecordLive(s, h))
    && (CarriesLive(s'.callers[t], h, s'.now) ==> CarriesLive(s.callers[t], h, s.now) || RecordLive(s, h))
    && (EmptyHanded(s.callers[t], h) && !SlotLive(s, h) && !RecordLive(s, h) ==> EmptyHanded(s'.callers[t], h))
  }

  lemma GetLeaves(s: State, t: nat, x: nat, c: Choice, h: nat)
    requires Ready(s) && t < |s.callers| && s.callers[t].req == GetOf(x) && StepGet(s, t, x, c).Some?
    ensures Ready(StepGet(s, t, x, c).value) && StepLeaves(s, t, StepGet(s, t, x, c).value, h)
  {
    var found := Arena.Find(ShardOf(s, x), x);
    if c.Decoded? && found.Some? {
      ImageStatus(found.value);
    }
    hide Arena.Consistent, Arena.Find, Arena.ImageOf, IsRecovered, Decode;
  }

  lemma SetLeaves(s: State, t: nat, x: nat, entry: Arena.ResponseEntry, ttl: int, c: Choice, h: nat)
    requires Inv(s) && Ready(s) && t < |s.callers| && s.callers[t].req == SetOf(x, entry, ttl)
    requires StepSet(s, t, x, entry, ttl, c).Some?
    requires x != h || !s.callers[t].pc.Stamped? || !StepSet(s, t, x, entry, ttl, c).value.callers[t].pc.Accepted?
    ensures Ready(StepSet(s, t, x, entry, ttl, c).value) && StepLeaves(s, t, StepSet(s, t, x, entry, ttl, c).value, h)
  {
    WrittenOnly(s, t, x, entry, ttl, c);
    hide Inv, StepSet, StepLeaves, Ready;
    if c.Written? {
      WriteLeaves(s, t, x, entry, ttl, c.stored, c.rec, h);
    } else {
      TickSetLeaves(s, t, x, entry, ttl, h);
    }
  }

  lemma TickSetLeaves(s: State, t: nat, x: nat, entry: Arena.ResponseEntry, ttl: int, h: nat)
    requires Ready(s) && t < |s.callers| && s.callers[t].req == SetOf(x, entry, ttl)
    requires StepSet(s, t, x, entry, ttl, Tick).Some?
    ensures Ready(StepSet(s, t, x, entry, ttl, Tick).value)
    ensures StepLeaves(s, t, StepSet(s, t, x, entry, ttl, Tick).value, h)
  {
    hide Arena.Consistent, Arena.Find, IsStamped, IsRecordOf, Arena.Encodable, Arena.Accepts, Arena.Put;
  }

  lemma WriteLeaves(s: State, t: nat, x: nat, entry: Arena.ResponseEntry, ttl: int, stored: Arena.ResponseEntry,
                    rec: Arena.Record, h: nat)
    requires Inv(s) && Ready(s) && t < |s.callers| && s.callers[t].req == SetOf(x, entry, ttl)
    requires s.callers[t].pc.Stamped? && StepSet(s, t, x, entry, ttl, Written(stored, rec)).Some?
    requires x != h || !StepSet(s, t, x, entry, ttl, Written(stored, rec)).value.callers[t].pc.Accepted?
    ensures Ready(StepSet(s, t, x, entry, ttl, Written(stored, rec)).value)
    ensures StepLeaves(s, t, StepSet(s, t, x, entry, ttl, Written(stored, rec)).value, h)
  {
    hide Arena.Consistent, Arena.Find, Arena.Put, Arena.Used, IsStamped, IsEncoding, Arena.Encodable, Arena.Accepts;
    UsedWithin(s, x);
    hide Inv;
    if Arena.Accepts(ShardOf(s, x), rec, s.maxSize) {
      PutElsewhere(s, x, rec, h);
    }
    hide Fresh, Arena.Expired;
  }

  lemma UsedWithin(s: State, x: nat)
    requires Inv(s) && Ready(s)
    ensures Arena.Used(ShardOf(s, x)) <= s.maxSize
  {
    assert ShardOk(s.ever, s.maxSize, ShardOf(s, x));
    hide Arena.Consistent, Arena.Used, Arena.Find;
  }

  /** A record of another hash changes what is found under h to nothing, if at all. */
  lemma PutElsewhere(s: State, x: nat, rec: Arena.Record, h: nat)
    requires Ready(s) && Arena.Encodable(rec) && Arena.Used(ShardOf(s, x)) <= s.maxSize
    requires Arena.Accepts(ShardOf(s, x), rec, s.maxSize)
    ensures var a := Arena.Put(ShardOf(s, x), rec, s.maxSize);
      var shards := s.shards[x % |s.shards| := a];
      && Arena.Consistent(a) && (forall b :: b in shards ==> Arena.Consistent(b))
      && (rec.hash != h && Arena.Find(shards[h % |shards|], h).Some? ==>
            Arena.Find(shards[h % |shards|], h) == Arena.Find(ShardOf(s, h), h))
  {
    Arena.PutKeeps(ShardOf(s, x), rec, s.maxSize);
    hide Arena.Consistent, Arena.Find, Arena.Put, Arena.Used, Arena.Encodable, Arena.Accepts, Arena.Overflows;
  }

  lemma DelLeaves(s: State, t: nat, x: nat, c: Choice, h: nat)
    requires Ready(s) && t < |s.callers| && s.callers[t].req == DelOf(x) && StepDel(s, t, x, c).Some?
    ensures Ready(StepDel(s, t, x, c).value) && StepLeaves(s, t, StepDel(s, t, x, c).value, h)
  {
    hide Arena.Consistent, Arena.Find, Arena.Remove, Arena.Expired, Fresh;
    Arena.RemoveKeeps(ShardOf(s, x), x);
  }

  /** Copies only expire as the clock goes on. */
  lemma ClockLeaves(s: State, now: nat, h: nat)
    requires Ready(s) && s.now <= now
    ensures Ready(s.(now := now)) && (Live(s.(now := now), h) ==> Live(s, h))
  {
    hide Arena.Find, Arena.Consistent;
    var s' := s.(now := now);
    if t :| 0 <= t < |s'.callers| && CarriesLive(s'.callers[t], h, now) {
      assert CarriesLive(s.callers[t], h, s.now);
    }
  }

  ghost predicate Framed(s: State, t: nat, s': State)
    requires t < |s.callers|
  {
    && s'.now == s.now && |s'.callers| == |s.callers| && s'.callers[t].req == s.callers[t].req
    && forall u :: 0 <= u < |s.callers| && u != t ==> s'.callers[u] == s.callers[u]
  }

  /** A step touches only its own caller, and keeps every call's request. */
  lemma StepFrame(s: State, t: nat, c: Choice)
    requires Ready(s) && t < |s.callers| && StepAt(s, t, c).Some?
    ensures Framed(s, t, StepAt(s, t, c).value)
  {
    match s.callers[t].req {
      case GetOf(h) => GetFrame(s, t, h, c);
      case SetOf(h, entry, ttl) => SetFrame(s, t, h, entry, ttl, c);
      case DelOf(h) => DelFrame(s, t, h, c);
    }
    hide StepGet, StepSet, StepDel, Ready;
  }

  lemma GetFrame(s: State, t: nat, h: nat, c: Choice)
    requires Ready(s) && t < |s.callers| && StepGet(s, t, h, c).Some?
    ensures Framed(s, t, StepGet(s, t, h, c).value)
  {
    hide Arena.Find, Arena.Consistent, ReadsBack, Arena.ImageOf, Fresh, Arena.Expired;
  }

  lemma SetFrame(s: State, t: nat, h: nat, entry: Arena.ResponseEntry, ttl: int, c: Choice)
    requires Shaped(s) && t < |s.callers| && StepSet(s, t, h, entry, ttl, c).Some?
    ensures Framed(s, t, StepSet(s, t, h, entry, ttl, c).value)
  {
    hide IsStamped, IsRecordOf, Arena.Encodable, Arena.Accepts, Arena.Put;
  }

  lemma DelFrame(s: State, t: nat, h: nat, c: Choice)
    requires Shaped(s) && t < |s.callers| && StepDel(s, t, h, c).Some?
    ensures Framed(s, t, StepDel(s, t, h, c).value)
  {
    hide Arena.Remove;
  }

  /** A step that is no new Set of h leaves nothing live where nothing was. */
  lemma StepStaysDead(s: State, ev: Event, h: nat, g: nat)
    requires Inv(s) && Ready(s) && Step(s, ev).Some? && !Stores(s, ev, h) && !Live(s, h)
    requires g < |s.callers| && EmptyHanded(s.callers[g], h)
    ensures var s' := Step(s, ev).value;
      Inv(s') && Ready(s') && !Live(s', h) && g < |s'.callers| && EmptyHanded(s'.callers[g], h)
  {
    StepKeeps(s, ev);
    InvReady(Step(s, ev).value);
    ClockLeaves(s, ev.now, h);
    ClockKeeps(s, ev.now);
    var s1, s' := s.(now := ev.now), Step(s, ev).value;
    assert s' == StepAt(s1, ev.t, ev.choice).value;
    hide Inv, Step, Ready, SlotLive, RecordLive, CarriesLive, EmptyHanded;
    StepFrame(s1, ev.t, ev.choice);
    AtLeaves(s1, ev.t, ev.choice, h);
    LiveBefore(s1, ev.t, s', h);
  }

  /** What is live after a step was live before it. */
  lemma LiveBefore(s: State, t: nat, s': State, h: nat)
    requires Ready(s) && Ready(s') && t < |s.callers| && Framed(s, t, s') && StepLeaves(s, t, s', h)
    ensures Live(s', h) ==> Live(s, h)
  {
    hide Ready, SlotLive, RecordLive, CarriesLive, EmptyHanded;
    if u :| 0 <= u < |s'.callers| && CarriesLive(s'.callers[u], h, s'.now) {
      if u != t { assert CarriesLive(s.callers[u], h, s.now); }
    }
  }

  lemma AtLeaves(s: State, t: nat, c: Choice, h: nat)
    requires Inv(s) && Ready(s) && t < |s.callers| && StepAt(s, t, c).Some?
    requires !(s.callers[t].req.SetOf? && s.callers[t].req.h == h && s.callers[t].pc.Stamped?
               && StepAt(s, t, c).value.callers[t].pc.Accepted?)
    ensures Ready(StepAt(s, t, c).value) && StepLeaves(s, t, StepAt(s, t, c).value, h)
  {
    hide Inv, StepGet, StepSet, StepDel, StepLeaves, Ready;
    match s.callers[t].req {
      case GetOf(x) => GetLeaves(s, t, x, c, h);
      case SetOf(x, entry, ttl) => SetLeaves(s, t, x, entry, ttl, c, h);
      case DelOf(x) => DelLeaves(s, t, x, c, h);
    }
  }

  lemma {:induction false} RunStaysDead(s: State, events: seq<Event>, h: nat, g: nat)
    requires Inv(s) && Ready(s) && !Live(s, h) && g < |s.callers| && EmptyHanded(s.callers[g], h)
    requires Run(s, events).Some? && NoNewSet(s, events, h)
    ensures var s' := Run(s, events).value;
      Inv(s') && Ready(s') && !Live(s', h) && g < |s'.callers| && EmptyHanded(s'.callers[g], h)
    decreases |events|
  {
    if events != [] {
      var last := |events| - 1;
      NoNewPrefix(s, events, h);
      assert Run(s, events[..last]).Some?;
      assert !StoresAt(s, events, last, h);
      hide Inv, Ready, Live, EmptyHanded, Step, Stores, NoNewSet;
      RunStaysDead(s, events[..last], h, g);
      StepStaysDead(Run(s, events[..last]).value, events[last], h, g);
    }
  }

  lemma NoNewPrefix(s: State, events: seq<Event>, h: nat)
    requires events != [] && NoNewSet(s, events, h)
    ensures NoNewSet(s, events[..|events| - 1], h)
  {
    hide Run, Stores;
    var prefix := events[..|events| - 1];
    forall i | 0 <= i < |prefix|
      ensures !StoresAt(s, prefix, i, h)
    {
      assert prefix[..i] == events[..i] && !StoresAt(s, events, i, h);
    }
  }

  // ---- Something live: a later Get can answer it ----

  /** There is a continuation without a new Set of h in which the Get answers. */
  ghost predicate CanAnswer(s: State, h: nat, g: nat) {
    exists events :: NoNewSet(s, events, h) && Run(s, events).Some?
      && g < |Run(s, events).value.callers| && Run(s, events).value.callers[g].pc.Answered?
  }

  /** One tick of a caller that stores nothing brings the continuation one step closer. */
  lemma OneMore(s: State, ev: Event, h: nat, g: nat)
    requires Step(s, ev).Some? && !Stores(s, ev, h) && CanAnswer(Step(s, ev).value, h, g)
    ensures CanAnswer(s, h, g)
  {
    hide Step, Stores, Ready, Run, StoresAt;
    var s1 := Step(s, ev).value;
    var events :| NoNewSet(s1, events, h) && Run(s1, events).Some?
      && g < |Run(s1, events).value.callers| && Run(s1, events).value.callers[g].pc.Answered?;
    var all := [ev] + events;
    RunAfter(s, ev, s1, events, |events|);
    assert all[..|events| + 1] == all && events[..|events|] == events;
    forall i | 0 <= i < |all|
      ensures !StoresAt(s, all, i, h)
    {
      if i == 0 {
        StoresFirst(s, ev, events, h);
      } else {
        assert !StoresAt(s1, events, i - 1, h);
        StoresAfter(s, ev, s1, events, i - 1, h);
      }
    }
  }

  lemma StoresFirst(s: State, ev: Event, events: seq<Event>, h: nat)
    ensures StoresAt(s, [ev] + events, 0, h) ==> Stores(s, ev, h)
  {
    hide Step, Stores;
    assert ([ev] + events)[..0] == [];
  }

  lemma StoresAfter(s: State, ev: Event, s1: State, events: seq<Event>, i: nat, h: nat)
    requires Step(s, ev) == Some(s1) && i < |events|
    ensures StoresAt(s, [ev] + events, i + 1, h) <==> StoresAt(s1, events, i, h)
  {
    hide Step, Stores, Run;
    RunAfter(s, ev, s1, events, i);
  }

  lemma {:induction false} RunAfter(s: State, ev: Event, s1: State, events: seq<Event>, n: nat)
    requires Step(s, ev) == Some(s1) && n <= |events|
    ensures Run(s, ([ev] + events)[..n + 1]) == Run(s1, events[..n])
  {
    hide Step;
    var all := [ev] + events;
    if n == 0 {
      assert all[..1] == [ev] && [ev][..0] == [] && events[..0] == [];
      assert Run(s, []) == Some(s);
      assert Run(s, [ev]) == Step(s, ev);
    } else {
      RunAfter(s, ev, s1, events, n - 1);
      assert all[..n + 1][..n] == all[..n] && all[..n + 1][n] == events[n - 1];
      assert events[..n][..n - 1] == events[..n - 1] && events[..n][n - 1] == events[n - 1];
    }
  }

  /** A step at the present time, as seen from its own kind of call. */
  lemma NowIs(s: State, t: nat, c: Choice)
    requires Inv(s) && t < |s.callers|
    ensures Ready(s) && Step(s, TierMachine.Event(t, s.now, c)) == StepAt(s, t, c)
  {
    InvReady(s);
    assert s.(now := s.now) == s;
    hide Inv, StepAt, Ready;
  }

  lemma KeptAfter(s: State, ev: Event)
    requires Inv(s) && Step(s, ev).Some?
    ensures Inv(Step(s, ev).value) && Ready(Step(s, ev).value)
  {
    hide Inv, Ready, Step;
    StepKeeps(s, ev);
    InvReady(Step(s, ev).value);
  }

  /** A Get that starts with a live slot, or holds what it is about to promote, answers with its next step. */
  lemma AnswersNext(s: State, h: nat, g: nat)
    requires Inv(s) && Ready(s) && g < |s.callers| && s.callers[g].req == GetOf(h)
    requires s.callers[g].pc.Promoting? || (s.callers[g].pc.Begin? && SlotLive(s, h))
    ensures CanAnswer(s, h, g)
  {
    NowIs(s, g, Tick);
    var ev := TierMachine.Event(g, s.now, Tick);
    assert Step(s, ev).Some? && Step(s, ev).value.callers[g].pc.Answered?;
    hide Inv, Ready, Step, StepAt;
    assert [ev][..0] == [];
    assert Run(s, []) == Some(s);
    assert Run(s, [ev]) == Step(s, ev);
    assert !StoresAt(s, [ev], 0, h);
    assert NoNewSet(s, [ev], h);
  }

  /** A Get with an unexpired entry from L2 goes on to promote it. */
  lemma ReaderPromotes(s: State, h: nat, t: nat)
    requires Inv(s) && Ready(s) && t < |s.callers| && s.callers[t].req == GetOf(h)
    requires s.callers[t].pc.ReadL2? && !Arena.Expired(s.callers[t].pc.r.expiresAt, s.now)
    ensures var ev := TierMachine.Event(t, s.now, Tick);
      && Step(s, ev) == Some(Moved(s, t, Promoting(s.callers[t].pc.r, s.now))) && !Stores(s, ev, h)
      && Inv(Step(s, ev).value) && Ready(Step(s, ev).value)
  {
    NowIs(s, t, Tick);
    hide Arena.Consistent, Arena.Find;
    KeptAfter(s, TierMachine.Event(t, s.now, Tick));
    hide Inv;
  }

  /** Whoever carries a live entry puts it into its slot, and whoever starts then finds it there. */
  lemma CarrierServes(s: State, h: nat, t: nat, g: nat)
    requires Inv(s) && Ready(s) && t < |s.callers| && g < |s.callers| && s.callers[g] == Caller(GetOf(h), PC.Begin)
    requires CarriesLive(s.callers[t], h, s.now)
    ensures CanAnswer(s, h, g)
  {
    var ev := TierMachine.Event(t, s.now, Tick);
    if s.callers[t].pc.ReadL2? {
      ReaderPromotes(s, h, t);
      CarrierPromotes(Step(s, ev).value, h, t, g);
      hide Inv, Step, Ready, Stores;
      OneMore(s, ev, h, g);
    } else {
      hide Inv, Ready;
      CarrierPromotes(s, h, t, g);
    }
  }

  lemma CarrierPromotes(s: State, h: nat, t: nat, g: nat)
    requires Inv(s) && Ready(s) && t < |s.callers| && g < |s.callers| && s.callers[g] == Caller(GetOf(h), PC.Begin)
    requires CarriesLive(s.callers[t], h, s.now) && !s.callers[t].pc.ReadL2?
    ensures CanAnswer(s, h, g)
  {
    var ev := TierMachine.Event(t, s.now, Tick);
    NowIs(s, t, Tick);
    hide Arena.Consistent, Arena.Find;
    assert Step(s, ev).Some? && !Stores(s, ev, h);
    var s1 := Step(s, ev).value;
    assert Shaped(s1) && SlotLive(s1, h) && s1.callers[g] == s.callers[g];
    KeptAfter(s, ev);
    hide Inv, Ready, Step, Stores, SlotLive;
    AnswersNext(s1, h, g);
    OneMore(s, ev, h, g);
  }

  ghost function HolderOf(h: Header, n: Bytes): Bytes
    requires exists p :: p in h && IsInternal(p) && |h[p]| > 0 && NameOf(p) == n
  {
    var p :| p in h && IsInternal(p) && |h[p]| > 0 && NameOf(p) == n; p
  }

  /** Every header can be read back with some Vary map. */
  lemma RecoveredExists(h: Header) returns (vary: VaryMap)
    ensures IsRecovered(vary, h)
  {
    hide IsInternal;
    var names := set p | p in h && IsInternal(p) && |h[p]| > 0 :: NameOf(p);
    vary := map n | n in names :: h[HolderOf(h, n)][0];
  }

  /** A Get that misses L1 reads the arena, and carries what it found there. */
  lemma RecordServes(s: State, h: nat, g: nat)
    requires Inv(s) && Ready(s) && g < |s.callers| && s.callers[g] == Caller(GetOf(h), PC.Begin)
    requires RecordLive(s, h) && !SlotLive(s, h)
    ensures CanAnswer(s, h, g)
  {
    var ev := TierMachine.Event(g, s.now, Tick);
    NowIs(s, g, Tick);
    hide Arena.Consistent, Arena.Find, Arena.Expired;
    assert Step(s, ev) == Some(Moved(s, g, MissedL1)) && !Stores(s, ev, h);
    var s1 := Step(s, ev).value;
    KeptAfter(s, ev);
    assert ShardOf(s1, h) == ShardOf(s, h) && s1.now == s.now;
    hide Inv, Ready, Step, Stores, SlotLive;
    MissServes(s1, h, g);
    OneMore(s, ev, h, g);
  }

  lemma MissServes(s: State, h: nat, g: nat)
    requires Inv(s) && Ready(s) && g < |s.callers| && s.callers[g] == Caller(GetOf(h), MissedL1) && RecordLive(s, h)
    ensures CanAnswer(s, h, g)
  {
    var img := Arena.ImageOf(Arena.Find(ShardOf(s, h), h).value);
    ImageStatus(Arena.Find(ShardOf(s, h), h).value);
    var hdr := Decode(img.hdr);
    var vary := RecoveredExists(hdr);
    var r := Arena.ResponseEntry(img.status, img.ct, hdr, img.body, img.expire, vary);
    var ev := TierMachine.Event(g, s.now, Decoded(r));
    NowIs(s, g, Decoded(r));
    hide Arena.Consistent, Arena.Find, Arena.Expired, Arena.ImageOf, IsRecovered, Decode;
    assert ReadsBack(r, img);
    assert Step(s, ev) == Some(Moved(s, g, ReadL2(r))) && !Stores(s, ev, h);
    KeptAfter(s, ev);
    hide Inv, Ready, Step, Stores;
    ReadServes(Moved(s, g, ReadL2(r)), h, g);
    OneMore(s, ev, h, g);
  }

  lemma ReadServes(s: State, h: nat, g: nat)
    requires Inv(s) && Ready(s) && g < |s.callers| && s.callers[g].req == GetOf(h)
    requires s.callers[g].pc.ReadL2? && !Arena.Expired(s.callers[g].pc.r.expiresAt, s.now)
    ensures CanAnswer(s, h, g)
  {
    var ev := TierMachine.Event(g, s.now, Tick);
    ReaderPromotes(s, h, g);
    hide Inv, Ready, Step, Stores;
    AnswersNext(Step(s, ev).value, h, g);
    OneMore(s, ev, h, g);
  }

  /**
   From any reachable kind of state, a Get of h that starts now can answer without a new successful
   Set of h exactly when an unexpired copy is in L1, in the arena, or carried by another call. No Del
   that has returned before changes that.
   */
  lemma CanAnswerIff(s: State, h: nat, g: nat)
    requires Inv(s) && g < |s.callers| && s.callers[g] == Caller(GetOf(h), PC.Begin)
    ensures Ready(s)
    ensures CanAnswer(s, h, g) <==> Live(s, h)
  {
    InvReady(s);
    hide Inv, Ready, SlotLive, RecordLive, CarriesLive;
    if SlotLive(s, h) {
      AnswersNext(s, h, g);
    } else if RecordLive(s, h) {
      RecordServes(s, h, g);
    } else if t :| 0 <= t < |s.callers| && CarriesLive(s.callers[t], h, s.now) {
      CarrierServes(s, h, t, g);
    } else {
      forall events | NoNewSet(s, events, h) && Run(s, events).Some?
        ensures g < |Run(s, events).value.callers| ==> !Run(s, events).value.callers[g].pc.Answered?
      {
        RunStaysDead(s, events, h, g);
      }
    }
  }

  /** The same for every reachable state. */
  lemma LaterAnswersIff(requests: seq<Request>, numShards: nat, maxSize: nat, events: seq<Event>, s: State,
      h: nat, g: nat)
    requires numShards > 0 && Run(Start(requests, numShards, maxSize), events) == Some(s)
    requires g < |s.callers| && s.callers[g] == Caller(GetOf(h), PC.Begin)
    ensures Ready(s)
    ensures CanAnswer(s, h, g) <==> Live(s, h)
  {
    RunInv(requests, numShards, maxSize, events);
    hide Inv, Run, Start, CanAnswer, Live, Ready;
    CanAnswerIff(s, h, g);
  }

  // ---- A run in which a deleted entry comes back ----

  const ENTRY := Arena.ResponseEntry(200, [], map[], [], 0, map[])
  const RECORD := Arena.Record(0, 0, 200, [], [], [])
  const ITEM := L1Entry(0, 0, ENTRY)
  const CALLS := [SetOf(0, ENTRY, 0), GetOf(0), DelOf(0), GetOf(0)]
  const SHARD_SIZE: nat := 0x1_0000

  lemma EntryFacts()
    ensures IsStamped(ENTRY, ENTRY, 0) && IsRecordOf(RECORD, 0, ENTRY, 0) && Arena.Encodable(RECORD)
    ensures Arena.Size(RECORD) == 28 && Arena.Used(Arena.EMPTY) == 0
    ensures ReadsBack(ENTRY, Arena.ImageOf(RECORD)) && !Arena.Expired(0, 0)
  {
    assert Arena.Payload(RECORD) == [];
    assert Decode([]) == map[];
  }

  /** The arena with the one record in it. */
  const STORED := Arena.Arena([RECORD], map[0 := 0], false)

  lemma StoredFacts()
    ensures Arena.Accepts(Arena.EMPTY, RECORD, SHARD_SIZE) && Arena.Put(Arena.EMPTY, RECORD, SHARD_SIZE) == STORED
    ensures Arena.Consistent(STORED) ==> Arena.Find(STORED, 0) == Some(RECORD)
  {
    EntryFacts();
    assert [] + [RECORD] == [RECORD];
    hide IsStamped, IsRecordOf, Arena.Encodable, ReadsBack, Arena.Consistent;
  }

  /** One more step at time zero. */
  lemma Then(s0: State, events: seq<Event>, s: State, t: nat, c: Choice, s': State)
    requires Run(s0, events) == Some(s) && Inv(s) && s.now == 0 && t < |s.callers|
    requires Ready(s) && StepAt(s, t, c) == Some(s')
    ensures Run(s0, events + [TierMachine.Event(t, 0, c)]) == Some(s') && Inv(s') && Ready(s')
  {
    var ev := TierMachine.Event(t, 0, c);
    NowIs(s, t, c);
    hide Inv, Step, StepAt, Ready;
    KeptAfter(s, ev);
    assert (events + [ev])[..|events|] == events;
  }

  /** The one shard with the record, as the Set leaves it. */
  function Wrote(s: State): State
    requires 0 < |s.callers|
  {
    Moved(s.(shards := [STORED], ever := s.ever + {(0, Binding(ENTRY, 0))}), 0, Accepted(ENTRY, 0))
  }

  /** What each call of the run does with its next step, at time zero. */
  lemma SetStamps(s: State)
    requires Ready(s) && s.now == 0 && 0 < |s.callers| && s.callers[0] == Caller(CALLS[0], PC.Begin)
    ensures StepAt(s, 0, Tick) == Some(Moved(s, 0, Stamped(ENTRY, 0)))
  {
    hide Arena.Consistent;
  }

  lemma GetMisses(s: State)
    requires Ready(s) && s.now == 0 && 1 < |s.callers| && s.callers[1] == Caller(GetOf(0), PC.Begin) && s.l1[0] == None
    ensures StepAt(s, 1, Tick) == Some(Moved(s, 1, MissedL1))
  {
    hide Arena.Consistent;
  }

  lemma SetWrites(s: State)
    requires Ready(s) && s.now == 0 && 0 < |s.callers| && s.callers[0] == Caller(CALLS[0], Stamped(ENTRY, 0))
    requires s.shards == [Arena.EMPTY] && s.maxSize == SHARD_SIZE
    ensures StepAt(s, 0, Written(ENTRY, RECORD)) == Some(Wrote(s))
  {
    EntryFacts();
    StoredFacts();
    hide IsStamped, IsRecordOf, Arena.Encodable, ReadsBack, Arena.Consistent, Arena.Put, Arena.Accepts;
    assert s.shards[0 := STORED] == [STORED];
  }

  lemma GetReads(s: State)
    requires Ready(s) && s.now == 0 && 1 < |s.callers| && s.callers[1] == Caller(GetOf(0), MissedL1)
    requires s.shards == [STORED]
    ensures StepAt(s, 1, Decoded(ENTRY)) == Some(Moved(s, 1, ReadL2(ENTRY)))
  {
    EntryFacts();
    StoredFacts();
    assert STORED in s.shards;
    hide ReadsBack, Arena.Consistent, Arena.Find, Arena.Expired, Arena.ImageOf;
  }

  lemma SetReturns(s: State)
    requires Ready(s) && s.now == 0 && 0 < |s.callers| && s.callers[0] == Caller(CALLS[0], Accepted(ENTRY, 0))
    ensures StepAt(s, 0, Tick) == Some(Moved(Promote(s, ITEM), 0, Done))
  {
    hide Arena.Consistent;
  }

  lemma DelLoads(s: State)
    requires Ready(s) && s.now == 0 && 2 < |s.callers| && s.callers[2] == Caller(DelOf(0), PC.Begin)
    ensures StepAt(s, 2, Tick) == Some(Moved(s, 2, Loaded(s.l1[0])))
  {
    hide Arena.Consistent;
  }

  lemma DelClears(s: State)
    requires Ready(s) && s.now == 0 && 2 < |s.callers| && s.callers[2] == Caller(DelOf(0), Loaded(Some(ITEM)))
    requires s.l1[0] == Some(ITEM)
    ensures StepAt(s, 2, Swap(true)) == Some(Moved(s.(l1 := s.l1[0 := None]), 2, Cleared))
  {
    hide Arena.Consistent;
  }

  /** An event of the run, all at time zero. */
  function At(t: nat, c: Choice): Event {
    TierMachine.Event(t, 0, c)
  }

  const READ_FIRST := [At(0, Tick), At(1, Tick), At(0, Written(ENTRY, RECORD)), At(1, Decoded(ENTRY))]
  const CLEARED := [At(0, Tick), At(2, Tick), At(2, Swap(true))]

  lemma Beginning(s0: State)
    requires s0 == Start(CALLS, 1, SHARD_SIZE)
    ensures Inv(s0) && Ready(s0) && s0.now == 0 && s0.l1[0] == None && s0.shards == [Arena.EMPTY]
    ensures s0.maxSize == SHARD_SIZE
    ensures |s0.callers| == 4 && s0.callers[0] == Caller(CALLS[0], PC.Begin)
    ensures s0.callers[1] == Caller(GetOf(0), PC.Begin)
    ensures s0.callers[2] == Caller(DelOf(0), PC.Begin) && s0.callers[3] == Caller(GetOf(0), PC.Begin)
    ensures Run(s0, []) == Some(s0)
  {
    StartInv(CALLS, 1, SHARD_SIZE);
    InvReady(s0);
    hide Inv, Ready;
  }

  /** The Set has written its record, and the first Get, which missed L1 before that, has read it. */
  lemma ReadBehindSet(s0: State) returns (s: State)
    requires s0 == Start(CALLS, 1, SHARD_SIZE)
    ensures Run(s0, READ_FIRST) == Some(s) && Inv(s) && Ready(s) && s.now == 0 && |s.callers| == 4
    ensures s.callers[0] == Caller(CALLS[0], Accepted(ENTRY, 0)) && s.callers[1] == Caller(GetOf(0), ReadL2(ENTRY))
    ensures s.callers[2] == Caller(DelOf(0), PC.Begin) && s.callers[3] == Caller(GetOf(0), PC.Begin)
  {
    hide Inv, StepAt, Run, Ready;
    Beginning(s0);
    hide Start;
    SetStamps(s0);
    var s1 := Moved(s0, 0, Stamped(ENTRY, 0));
    Then(s0, [], s0, 0, Tick, s1);
    GetMisses(s1);
    var s2 := Moved(s1, 1, MissedL1);
    Then(s0, [] + [At(0, Tick)], s1, 1, Tick, s2);
    SetWrites(s2);
    var s3 := Wrote(s2);
    Then(s0, [] + [At(0, Tick)] + [At(1, Tick)], s2, 0, Written(ENTRY, RECORD), s3);
    GetReads(s3);
    s := Moved(s3, 1, ReadL2(ENTRY));
    Then(s0, [] + [At(0, Tick)] + [At(1, Tick)] + [At(0, Written(ENTRY, RECORD))], s3, 1, Decoded(ENTRY), s);
    assert [] + [At(0, Tick)] + [At(1, Tick)] + [At(0, Written(ENTRY, RECORD))] + [At(1, Decoded(ENTRY))] == READ_FIRST;
  }

  /** The Set returns, with its entry in L1; then the Del clears the slot. */
  lemma ClearedBehindRead(s0: State, s: State) returns (s': State)
    requires Run(s0, READ_FIRST) == Some(s) && Inv(s) && Ready(s) && s.now == 0 && |s.callers| == 4
    requires s.callers[0] == Caller(CALLS[0], Accepted(ENTRY, 0)) && s.callers[1] == Caller(GetOf(0), ReadL2(ENTRY))
    requires s.callers[2] == Caller(DelOf(0), PC.Begin) && s.callers[3] == Caller(GetOf(0), PC.Begin)
    ensures Run(s0, READ_FIRST + CLEARED) == Some(s') && Inv(s') && s'.now == 0 && |s'.callers| == 4
    ensures s'.callers[0] == Caller(CALLS[0], Done) && s'.callers[1] == Caller(GetOf(0), ReadL2(ENTRY))
    ensures s'.callers[2] == Caller(DelOf(0), Cleared) && s'.callers[3] == Caller(GetOf(0), PC.Begin)
  {
    assert Shaped(s);
    hide Inv, StepAt, Run, Ready;
    SetReturns(s);
    var s1 := Moved(Promote(s, ITEM), 0, Done);
    Then(s0, READ_FIRST, s, 0, Tick, s1);
    DelLoads(s1);
    var s2 := Moved(s1, 2, Loaded(Some(ITEM)));
    Then(s0, READ_FIRST + [At(0, Tick)], s1, 2, Tick, s2);
    DelClears(s2);
    s' := Moved(s2.(l1 := s2.l1[0 := None]), 2, Cleared);
    Then(s0, READ_FIRST + [At(0, Tick)] + [At(2, Tick)], s2, 2, Swap(true), s');
    assert READ_FIRST + [At(0, Tick)] + [At(2, Tick)] + [At(2, Swap(true))] == READ_FIRST + CLEARED;
  }

  lemma {:induction false} RunOn(s0: State, events: seq<Event>, s: State, more: seq<Event>)
    requires Run(s0, events) == Some(s)
    ensures Run(s0, events + more) == Run(s, more)
    decreases |more|
  {
    hide Step;
    if more == [] {
      assert events + more == events;
    } else {
      RunOn(s0, events, s, more[..|more| - 1]);
      assert (events + more)[..|events + more| - 1] == events + more[..|more| - 1];
    }
  }

  lemma OneEvent(s: State, ev: Event)
    ensures Run(s, [ev]) == Step(s, ev)
  {
    hide Step;
    assert [ev][..0] == [];
    assert Run(s, []) == Some(s);
  }

  lemma OthersKept(s: State, ev: Event)
    requires Step(s, ev).Some?
    ensures var s' := Step(s, ev).value;
      |s'.callers| == |s.callers| && forall u :: 0 <= u < |s.callers| && u != ev.t ==> s'.callers[u] == s.callers[u]
  {
    StepFrame(s.(now := ev.now), ev.t, ev.choice);
    hide StepAt;
  }

  lemma {:induction false} RunCallers(s: State, events: seq<Event>)
    requires Run(s, events).Some?
    ensures |Run(s, events).value.callers| == |s.callers|
    decreases |events|
  {
    hide Step;
    if events != [] {
      RunCallers(s, events[..|events| - 1]);
      OthersKept(Run(s, events[..|events| - 1]).value, events[|events| - 1]);
    }
  }

  /**
   One Set, two Gets and a Del of one hash, from an empty store: the Set and the Del have both
   returned when the second Get starts, and it answers the deleted entry all the same.
   */
  lemma DeletedEntryComesBack()
    ensures var s0 := Start(CALLS, 1, SHARD_SIZE);
      var deleted := Run(s0, READ_FIRST + CLEARED + [At(2, Tick)]);
      var end := Run(s0, READ_FIRST + CLEARED + [At(2, Tick), At(1, Tick), At(1, Tick), At(3, Tick)]);
      && deleted.Some? && |deleted.value.callers| == 4 && deleted.value.callers[0].pc == Done
      && deleted.value.callers[2].pc == Done && deleted.value.callers[3].pc == PC.Begin
      && end.Some? && |end.value.callers| == 4 && end.value.callers[3].pc == Answered(ENTRY, 0)
  {
    hide Inv, Run, Ready, Start, StepAt, Step;
    var s0 := Start(CALLS, 1, SHARD_SIZE);
    var read := ReadBehindSet(s0);
    var s := ClearedBehindRead(s0, read);
    var four := [At(2, Tick), At(1, Tick), At(1, Tick), At(3, Tick)];
    PromotionOutlivesDel(s, 0, ENTRY, 1, 2, 3);
    RunOn(s0, READ_FIRST + CLEARED, s, [At(2, Tick)]);
    RunOn(s0, READ_FIRST + CLEARED, s, four);
    OneEvent(s, At(2, Tick));
    OthersKept(s, At(2, Tick));
    RunCallers(s, four);
  }
}
