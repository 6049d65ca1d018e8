/**
 When the two-tier store is reliable in the request protocol's sense: without Dels, rejected or
 overflowing Sets and expiry, a Get that starts once its hash was Set never ends in a miss, whatever
 is interleaved with it.
 */
module TierReliable {
  import opened Bytes
  import opened Shard
  import opened Tiered
  import opened TierMachine
  import opened TierLimits
  import Arena

  /** The step belongs to no Del, and if it writes a record, that fits what is left of its shard. */
  predicate Harmless(s: State, ev: Event) {
    && Shaped(s) && ev.t < |s.callers|
    && match s.callers[ev.t].req
       case GetOf(_) => true
       case DelOf(_) => false
       case SetOf(h, _, _) =>
         ev.choice.Written? ==>
           Arena.Accepts(ShardOf(s, h), ev.choice.rec, s.maxSize) &&
             !Arena.Overflows(ShardOf(s, h), ev.choice.rec, s.maxSize)
  }

  ghost predicate AllHarmless(s: State, events: seq<Event>) {
    forall i :: 0 <= i < |events| ==> Run(s, events[..i]).Some? && Harmless(Run(s, events[..i]).value, events[i])
  }

  /** No binding ever made has expired by now. */
  ghost predicate Unexpired(s: State) {
    forall p :: p in s.ever ==> !Arena.Expired(p.1.expire, s.now)
  }

  ghost predicate EverSet(s: State, h: nat) {
    exists b :: (h, b) in s.ever
  }

  /** The arena has a record of every hash that was ever Set. */
  ghost predicate HoldsAll(s: State)
    requires Ready(s)
  {
    forall h: nat :: EverSet(s, h) ==> Arena.Find(ShardOf(s, h), h).Some?
  }

  // ---- Every harmless step keeps every record ----

  lemma HarmlessHolds(s: State, t: nat, c: Choice)
    requires Inv(s) && Ready(s) && t < |s.callers| && StepAt(s, t, c).Some? && HoldsAll(s)
    requires Harmless(s, TierMachine.Event(t, s.now, c))
    ensures var s' := StepAt(s, t, c).value; Ready(s') && HoldsAll(s') && s.ever <= s'.ever
  {
    hide Inv, StepGet, StepSet, Ready, HoldsAll;
    match s.callers[t].req {
      case GetOf(h) => GetHolds(s, t, h, c);
      case SetOf(h, entry, ttl) => SetHolds(s, t, h, entry, ttl, c);
    }
  }

  lemma GetHolds(s: State, t: nat, h: nat, c: Choice)
    requires Ready(s) && t < |s.callers| && StepGet(s, t, h, c).Some? && HoldsAll(s)
    ensures var s' := StepGet(s, t, h, c).value; Ready(s') && HoldsAll(s') && s.ever <= s'.ever
  {
    GetShards(s, t, h, c);
    hide StepGet, Arena.Find;
    SameHolds(s, StepGet(s, t, h, c).value);
  }

  lemma GetShards(s: State, t: nat, h: nat, c: Choice)
    requires Ready(s) && t < |s.callers| && StepGet(s, t, h, c).Some?
    ensures var s' := StepGet(s, t, h, c).value; s'.shards == s.shards && s'.ever == s.ever && Shaped(s')
  {
    hide Arena.Find, Arena.Consistent, ReadsBack, Arena.ImageOf, Fresh, Arena.Expired;
  }

  lemma SameHolds(s: State, s': State)
    requires Ready(s) && HoldsAll(s) && Shaped(s') && s'.shards == s.shards && s'.ever == s.ever
    ensures Ready(s') && HoldsAll(s')
  {
    hide Arena.Find, Arena.Consistent;
    forall h: nat | EverSet(s', h)
      ensures Arena.Find(ShardOf(s', h), h).Some?
    {
      assert EverSet(s, h);
    }
  }

  lemma SetHolds(s: State, t: nat, h: nat, entry: Arena.ResponseEntry, ttl: int, c: Choice)
    requires Inv(s) && Ready(s) && t < |s.callers| && s.callers[t].req == SetOf(h, entry, ttl)
    requires StepSet(s, t, h, entry, ttl, c).Some? && HoldsAll(s) && Harmless(s, TierMachine.Event(t, s.now, c))
    ensures var s' := StepSet(s, t, h, entry, ttl, c).value; Ready(s') && HoldsAll(s') && s.ever <= s'.ever
  {
    WrittenOnly(s, t, h, entry, ttl, c);
    if c.Written? {
      SetWritten(s, t, h, entry, ttl, c.stored, c.rec);
      UsedWithin(s, h);
      hide Inv, StepSet, Ready, HoldsAll;
      RecordHeld(s, h, c.rec, StepSet(s, t, h, entry, ttl, c).value);
    } else {
      SetShards(s, t, h, entry, ttl);
      hide Inv, StepSet, HoldsAll;
      SameHolds(s, StepSet(s, t, h, entry, ttl, c).value);
    }
  }

  lemma SetShards(s: State, t: nat, h: nat, entry: Arena.ResponseEntry, ttl: int)
    requires Ready(s) && t < |s.callers| && StepSet(s, t, h, entry, ttl, Tick).Some?
    ensures var s' := StepSet(s, t, h, entry, ttl, Tick).value; s'.shards == s.shards && s'.ever == s.ever && Shaped(s')
  {
    hide IsStamped, IsRecordOf, Arena.Encodable, Arena.Accepts, Arena.Put, Arena.Consistent;
  }

  lemma SetWritten(s: State, t: nat, h: nat, entry: Arena.ResponseEntry, ttl: int, stored: Arena.ResponseEntry,
                   rec: Arena.Record)
    requires Ready(s) && t < |s.callers| && StepSet(s, t, h, entry, ttl, Written(stored, rec)).Some?
    requires Arena.Accepts(ShardOf(s, h), rec, s.maxSize)
    ensures var s' := StepSet(s, t, h, entry, ttl, Written(stored, rec)).value;
      && s'.shards == s.shards[h % |s.shards| := Arena.Put(ShardOf(s, h), rec, s.maxSize)] && Shaped(s')
      && s'.ever == s.ever + {(h, Binding(stored, ExpiryOf(ttl, s.now)))}
    ensures rec.hash == h && Arena.Encodable(rec)
  {
    hide IsStamped, Arena.Encodable, Arena.Accepts, Arena.Put, Arena.Consistent;
  }

  /** A record that fits is found, and every other record still is. */
  lemma RecordHeld(s: State, h: nat, rec: Arena.Record, s': State)
    requires Ready(s) && HoldsAll(s) && Shaped(s') && rec.hash == h && Arena.Encodable(rec)
    requires Arena.Used(ShardOf(s, h)) <= s.maxSize && Arena.Accepts(ShardOf(s, h), rec, s.maxSize)
    requires !Arena.Overflows(ShardOf(s, h), rec, s.maxSize)
    requires s'.shards == s.shards[h % |s.shards| := Arena.Put(ShardOf(s, h), rec, s.maxSize)]
    requires exists b :: s'.ever == s.ever + {(h, b)}
    ensures Ready(s') && HoldsAll(s') && s.ever <= s'.ever
  {
    var a := ShardOf(s, h);
    assert a in s.shards;
    Arena.PutKeeps(a, rec, s.maxSize);
    hide Arena.Find, Arena.Consistent, Arena.Put, Arena.Used, Arena.Encodable, Arena.Accepts, Arena.Overflows;
    var b :| s'.ever == s.ever + {(h, b)};
    forall x: nat | EverSet(s', x)
      ensures Arena.Find(ShardOf(s', x), x).Some?
    {
      if x != h {
        var c :| (x, c) in s'.ever;
        assert EverSet(s, x) by { assert (x, c) in s.ever; }
        assert ShardOf(s, x) in s.shards;
      }
    }
  }

  lemma StepHolds(s: State, ev: Event)
    requires Inv(s) && Ready(s) && Step(s, ev).Some? && HoldsAll(s) && Harmless(s, ev)
    ensures var s' := Step(s, ev).value;
      Inv(s') && Ready(s') && HoldsAll(s') && s.ever <= s'.ever && s.now <= s'.now
  {
    KeptAfter(s, ev);
    ClockKeeps(s, ev.now);
    var s1 := s.(now := ev.now);
    SameHolds(s, s1);
    assert Harmless(s1, TierMachine.Event(ev.t, s1.now, ev.choice));
    hide Inv, Ready, HoldsAll, StepAt, Harmless;
    InvReady(s1);
    StepFrame(s1, ev.t, ev.choice);
    HarmlessHolds(s1, ev.t, ev.choice);
  }

  /** Fewer bindings, earlier: still unexpired. */
  lemma UnexpiredBefore(s: State, s': State)
    requires Unexpired(s') && s.ever <= s'.ever && s.now <= s'.now
    ensures Unexpired(s)
  {
  }

  // ---- A Get of a hash that was Set does not miss ----

  /** The Get has not missed; what it read from L2 expires with some binding of its hash. */
  ghost predicate NotMissed(s: State, g: nat, h: nat)
    requires g < |s.callers|
  {
    s.callers[g].req == GetOf(h) &&
    match s.callers[g].pc
    case Begin => true
    case MissedL1 => true
    case ReadL2(r) => exists b :: (h, b) in s.ever && b.expire == r.expiresAt
    case Promoting(_, _) => true
    case Answered(_, _) => true
    case _ => false
  }

  lemma OwnNotMissed(s: State, g: nat, h: nat, c: Choice)
    requires Inv(s) && Ready(s) && HoldsAll(s) && Unexpired(s) && EverSet(s, h)
    requires g < |s.callers| && NotMissed(s, g, h) && StepGet(s, g, h, c).Some?
    ensures g < |StepGet(s, g, h, c).value.callers| && NotMissed(StepGet(s, g, h, c).value, g, h)
  {
    hide Inv, HoldsAll, Unexpired, EverSet, Arena.Consistent, Arena.Find, Arena.ImageOf, Arena.Expired, Fresh;
    var rec := FoundFor(s, h);
    ImageStatus(rec);
    if s.callers[g].pc.ReadL2? {
      BoundUnexpired(s, h, s.callers[g].pc.r.expiresAt);
    }
  }

  lemma BoundUnexpired(s: State, h: nat, exp: nat)
    requires Unexpired(s) && exists b :: (h, b) in s.ever && b.expire == exp
    ensures !Arena.Expired(exp, s.now)
  {
    var b :| (h, b) in s.ever && b.expire == exp;
    assert !Arena.Expired((h, b).1.expire, s.now);
  }

  /** The record of a hash that was Set is there, and expires with some binding. */
  lemma FoundFor(s: State, h: nat) returns (rec: Arena.Record)
    requires Inv(s) && Ready(s) && HoldsAll(s) && Unexpired(s) && EverSet(s, h)
    ensures Arena.Find(ShardOf(s, h), h) == Some(rec) && !Arena.Expired(rec.expire, s.now)
    ensures exists b :: (h, b) in s.ever && b.expire == rec.expire
  {
    rec := Arena.Find(ShardOf(s, h), h).value;
    assert ShardOk(s.ever, s.maxSize, ShardOf(s, h));
    assert FoundOk(s.ever, h, Arena.Find(ShardOf(s, h), h));
    var b :| (h, b) in s.ever && IsRecordOf(rec, h, b.entry, b.expire);
    assert !Arena.Expired((h, b).1.expire, s.now);
    hide Inv, ShardOk, Arena.Find, Arena.Consistent, HoldsAll;
  }

  lemma StepNotMissed(s: State, ev: Event, g: nat, h: nat)
    requires Inv(s) && Ready(s) && HoldsAll(s) && Unexpired(s.(now := ev.now)) && EverSet(s, h)
    requires g < |s.callers| && NotMissed(s, g, h) && Step(s, ev).Some? && Harmless(s, ev)
    ensures g < |Step(s, ev).value.callers| && NotMissed(Step(s, ev).value, g, h)
  {
    hide Inv, HoldsAll, StepGet, StepSet, StepDel, Harmless;
    ClockKeeps(s, ev.now);
    var s1 := s.(now := ev.now);
    SameHolds(s, s1);
    InvReady(s1);
    StepHolds(s, ev);
    hide Ready;
    if ev.t == g {
      assert EverSet(s1, h) && NotMissed(s1, g, h);
      OwnNotMissed(s1, g, h, ev.choice);
    } else {
      StepFrame(s1, ev.t, ev.choice);
    }
  }

  lemma {:induction false} RunNotMissed(s: State, events: seq<Event>, g: nat, h: nat)
    requires Inv(s) && Ready(s) && HoldsAll(s) && EverSet(s, h) && g < |s.callers| && NotMissed(s, g, h)
    requires Run(s, events).Some? && AllHarmless(s, events) && Unexpired(Run(s, events).value)
    ensures var s' := Run(s, events).value;
      && Inv(s') && Ready(s') && HoldsAll(s') && EverSet(s', h) && s.ever <= s'.ever
      && g < |s'.callers| && NotMissed(s', g, h)
    decreases |events|
  {
    hide Inv, Ready, HoldsAll, Step, Harmless, NotMissed, Unexpired;
    if events != [] {
      var last := |events| - 1;
      var prefix, ev := events[..last], events[last];
      var s1 := Run(s, prefix).value;
      assert Harmless(s1, ev);
      HarmlessPrefix(s, events);
      HoldsAlong(s, prefix);
      StepHolds(s1, ev);
      StepClock(s1, ev);
      UnexpiredBefore(s1, Run(s, events).value);
      UnexpiredBefore(s1.(now := ev.now), Run(s, events).value);
      RunNotMissed(s, prefix, g, h);
      StepNotMissed(s1, ev, g, h);
    }
  }

  lemma StepClock(s: State, ev: Event)
    requires Step(s, ev).Some?
    ensures s.now <= ev.now == Step(s, ev).value.now
  {
    StepFrame(s.(now := ev.now), ev.t, ev.choice);
    hide StepAt;
  }

  lemma HarmlessPrefix(s: State, events: seq<Event>)
    requires events != [] && AllHarmless(s, events)
    ensures AllHarmless(s, events[..|events| - 1])
  {
    hide Run, Harmless;
    var prefix := events[..|events| - 1];
    forall i | 0 <= i < |prefix|
      ensures Run(s, prefix[..i]).Some? && Harmless(Run(s, prefix[..i]).value, prefix[i])
    {
      assert prefix[..i] == events[..i];
    }
  }

  lemma {:induction false} HoldsAlong(s: State, events: seq<Event>)
    requires Inv(s) && Ready(s) && HoldsAll(s) && Run(s, events).Some? && AllHarmless(s, events)
    ensures var s' := Run(s, events).value; Inv(s') && Ready(s') && HoldsAll(s') && s.ever <= s'.ever
    decreases |events|
  {
    hide Inv, Ready, HoldsAll, Step, Harmless;
    if events != [] {
      var last := |events| - 1;
      assert Harmless(Run(s, events[..last]).value, events[last]);
      HarmlessPrefix(s, events);
      HoldsAlong(s, events[..last]);
      StepHolds(Run(s, events[..last]).value, events[last]);
    }
  }

  lemma StartHolds(requests: seq<Request>, numShards: nat, maxSize: nat)
    requires numShards > 0
    ensures Inv(Start(requests, numShards, maxSize)) && Ready(Start(requests, numShards, maxSize))
    ensures HoldsAll(Start(requests, numShards, maxSize))
  {
    StartInv(requests, numShards, maxSize);
    InvReady(Start(requests, numShards, maxSize));
    hide Inv, Ready, Arena.Find;
  }

  /**
   In any run of Gets and of Sets that all fit, as long as nothing has expired, a Get of a hash that
   has not missed when the hash was Set never ends in a miss: the store is reliable.
   */
  lemma NeverMissesOnceSet(requests: seq<Request>, numShards: nat, maxSize: nat, events: seq<Event>, more: seq<Event>,
                           g: nat, h: nat)
    requires numShards > 0 && Run(Start(requests, numShards, maxSize), events).Some?
    requires var s := Run(Start(requests, numShards, maxSize), events).value;
      EverSet(s, h) && g < |s.callers| && s.callers[g] == Caller(GetOf(h), PC.Begin)
    requires Run(Start(requests, numShards, maxSize), events + more).Some?
    requires AllHarmless(Start(requests, numShards, maxSize), events + more)
    requires Unexpired(Run(Start(requests, numShards, maxSize), events + more).value)
    ensures var s' := Run(Start(requests, numShards, maxSize), events + more).value;
      g < |s'.callers| && s'.callers[g].pc != Done
  {
    var s0 := Start(requests, numShards, maxSize);
    StartHolds(requests, numShards, maxSize);
    hide Start, Inv, Ready, HoldsAll, Step, Harmless, Unexpired;
    HarmlessSplit(s0, events, more);
    HoldsAlong(s0, events);
    var s := Run(s0, events).value;
    RunOn(s0, events, s, more);
    assert NotMissed(s, g, h);
    hide Run, AllHarmless;
    RunNotMissed(s, more, g, h);
  }

  lemma HarmlessSplit(s0: State, events: seq<Event>, more: seq<Event>)
    requires AllHarmless(s0, events + more) && Run(s0, events).Some?
    ensures AllHarmless(s0, events) && AllHarmless(Run(s0, events).value, more)
  {
    hide Harmless;
    var s, all := Run(s0, events).value, events + more;
    forall i | 0 <= i < |events|
      ensures Run(s0, events[..i]).Some? && Harmless(Run(s0, events[..i]).value, events[i])
    {
      assert all[..i] == events[..i] && all[i] == events[i];
    }
    hide Run;
    forall i | 0 <= i < |more|
      ensures Run(s, more[..i]).Some? && Harmless(Run(s, more[..i]).value, more[i])
    {
      assert all[..|events| + i] == events + more[..i] && all[|events| + i] == more[i];
      RunOn(s0, events, s, more[..i]);
    }
  }
}
