/**
 One call of the two-tier store that no other interrupts: what a Get, a Set and a Del do to the slots and
 the shards, and when a Get answers.
 */
module TierAlone {
  import opened Bytes
  import opened Vary
  import opened Shard
  import opened Tiered
  import opened TierMachine
  import Arena

  // ---- Runs of a few steps ----

  lemma OneStep(s: State, e: Event)
    ensures Run(s, [e]) == Step(s, e)
  {
    hide Step;
    assert [e][..0] == [];
    assert Run(s, []) == Some(s);
  }

  lemma LastStep(s: State, events: seq<Event>, e: Event)
    requires Run(s, events + [e]).Some?
    ensures Run(s, events).Some? && Run(s, events + [e]) == Step(Run(s, events).value, e)
  {
    hide Step;
    assert (events + [e])[..|events|] == events;
  }

  lemma TwoSteps(s: State, e1: Event, e2: Event) returns (s1: State)
    requires Run(s, [e1, e2]).Some?
    ensures Step(s, e1) == Some(s1) && Run(s, [e1, e2]) == Step(s1, e2)
  {
    hide Step, Run;
    assert [e1] + [e2] == [e1, e2];
    LastStep(s, [e1], e2);
    OneStep(s, e1);
    s1 := Step(s, e1).value;
  }

  lemma ThreeSteps(s: State, e1: Event, e2: Event, e3: Event) returns (s1: State, s2: State)
    requires Run(s, [e1, e2, e3]).Some?
    ensures Step(s, e1) == Some(s1) && Step(s1, e2) == Some(s2) && Run(s, [e1, e2, e3]) == Step(s2, e3)
  {
    hide Step, Run;
    assert [e1, e2] + [e3] == [e1, e2, e3];
    LastStep(s, [e1, e2], e3);
    s1 := TwoSteps(s, e1, e2);
    s2 := Run(s, [e1, e2]).value;
  }

  ghost function FoundIn(s: State, h: nat): Option<Arena.Record>
    requires Ready(s)
  {
    Arena.Find(s.shards[h % |s.shards|], h)
  }

  /** Putting a consistent arena in the place of one shard. */
  lemma OneShard(s: State, h: nat, a: Arena.Arena, s': State)
    requires Ready(s) && Arena.Consistent(a) && s'.shards == s.shards[h % |s.shards| := a] && |s'.l1| == |s.l1|
    ensures Ready(s')
    ensures forall x: nat :: FoundIn(s', x) == if x % |s.shards| ==
      h % |s.shards| then Arena.Find(a, x) else FoundIn(s, x)
  {
    hide Arena.Consistent, Arena.Find;
  }

  // ---- Del ----

  /** A Del on its own leaves no answer for its hash, and every other slot and hash as it was. */
  lemma DelAlone(s: State, t: nat, h: nat, n1: nat, n2: nat, n3: nat, s': State)
    requires Inv(s) && t < |s.callers| && s.callers[t] == Caller(DelOf(h), Begin)
    requires Run(s, [Event(t, n1, Tick), Event(t, n2, Swap(true)), Event(t, n3, Tick)]) == Some(s')
    ensures Ready(s) && Ready(s') && s'.callers == s.callers[t := Caller(DelOf(h), Done)] && s'.ever == s.ever
    ensures FoundIn(s', h) == None && forall x: nat :: x != h ==> FoundIn(s', x) == FoundIn(s, x)
    ensures forall i :: 0 <= i < 256 ==>
      s'.l1[i] == if i == h % 256 && s.l1[i].Some? && s.l1[i].value.hash == h then None else s.l1[i]
  {
    var s1, s2 := ThreeSteps(s, Event(t, n1, Tick), Event(t, n2, Swap(true)), Event(t, n3, Tick));
    InvReady(s);
    var a := ShardOf(s, h);
    Arena.RemoveKeeps(a, h);
    hide Inv, Arena.Consistent, Arena.Remove, Arena.Find, Run;
    DelSteps(s, t, h, n1, n2, n3, s1, s2, s');
    OneShard(s, h, Arena.Remove(a, h), s');
  }

  lemma DelSteps(s: State, t: nat, h: nat, n1: nat, n2: nat, n3: nat, s1: State, s2: State, s': State)
    requires Ready(s) && t < |s.callers| && s.callers[t] == Caller(DelOf(h), Begin)
    requires Step(s, Event(t, n1, Tick)) == Some(s1) && Step(s1, Event(t, n2, Swap(true))) == Some(s2)
    requires Step(s2, Event(t, n3, Tick)) == Some(s')
    ensures s'.shards == s.shards[h % |s.shards| := Arena.Remove(ShardOf(s, h), h)]
    ensures s'.l1 == if s.l1[h % L1_SLOTS].Some? && s.l1[h % L1_SLOTS].value.hash == h
                     then s.l1[h % L1_SLOTS := None] else s.l1
    ensures s'.callers == s.callers[t := Caller(DelOf(h), Done)] && s'.ever == s.ever
  {
    hide Arena.Consistent, Arena.Remove, Arena.Find;
  }

  // ---- Set ----

  /**
   A Set on its own: the record written carries the entry and the expiry of the second clock reading, and
   it is found afterwards exactly when the shard is open and the record no larger than it; then the
   records of other hashes stay unless the shard had to be emptied, and the slot takes the entry with
   the expiry of the first clock reading. A refused Set changes nothing.
   */
  lemma SetAlone(s: State, t: nat, h: nat, e: Arena.ResponseEntry, ttl: int, n1: nat, n2: nat,
    stored: Arena.ResponseEntry,
                 rec: Arena.Record, s2: State)
    requires Inv(s) && t < |s.callers| && s.callers[t] == Caller(SetOf(h, e, ttl), Begin)
    requires Run(s, [Event(t, n1, Tick), Event(t, n2, Written(stored, rec))]) == Some(s2)
    ensures Ready(s) && Ready(s2)
    ensures rec == Arena.Record(h, if ttl > 0 then n2 + ttl else 0, e.status, e.contentType, rec.hdr, e.body)
    ensures stored == e.(header := stored.header, expiresAt := if ttl > 0 then n2 + ttl else e.expiresAt)
    ensures var a, size := s.shards[h % |s.shards|], 28 + |rec.ct| + |rec.hdr| + |rec.body|;
      if a.closed || size > s.maxSize then
        s2.l1 == s.l1 && s2.shards == s.shards && s2.ever == s.ever && s2.callers[t].pc == Done
      else
        && SetFinds(s, rec, |Arena.Flatten(a.log)| + size > s.maxSize, s2)
        && s2.l1 == s.l1 && s2.callers[t].pc == Accepted(stored, if ttl > 0 then n1 + ttl else 0)
  {
    var s1 := TwoSteps(s, Event(t, n1, Tick), Event(t, n2, Written(stored, rec)));
    InvReady(s);
    var a := ShardOf(s, h);
    assert ShardOk(s.ever, s.maxSize, a);
    hide Inv, Arena.Consistent, Arena.Put, Arena.Find, Run, Arena.Flatten, SetFinds, Arena.Accepts, Arena.Overflows;
    SetSteps(s, t, h, e, ttl, n1, n2, stored, rec, s1, s2);
    StampedFields(stored, e, if ttl > 0 then e.(expiresAt := n1 + ttl) else e, ttl, n2, rec, h);
    Arena.FitsIs(a, rec, s.maxSize);
    if Arena.Accepts(a, rec, s.maxSize) {
      PutFinds(s, h, rec, s2);
    }
  }

  /** The record is found under its hash, and the others as before unless its shard was emptied for it. */
  ghost predicate SetFinds(s: State, rec: Arena.Record, emptied: bool, s': State) {
    && Ready(s) && Ready(s') && FoundIn(s', rec.hash) == Some(rec)
    && forall x: nat :: x != rec.hash ==>
         FoundIn(s', x) == if emptied && x % |s.shards| == rec.hash % |s.shards| then None else FoundIn(s, x)
  }

  lemma PutFinds(s: State, h: nat, rec: Arena.Record, s': State)
    requires Ready(s) && rec.hash == h && Arena.Encodable(rec) && |s'.l1| == |s.l1|
    requires var a := ShardOf(s, h);
      && Arena.Used(a) <= s.maxSize && Arena.Accepts(a, rec, s.maxSize)
      && s'.shards == s.shards[h % |s.shards| := Arena.Put(a, rec, s.maxSize)]
    ensures SetFinds(s, rec, Arena.Overflows(ShardOf(s, h), rec, s.maxSize), s')
  {
    var a := ShardOf(s, h);
    Arena.PutKeeps(a, rec, s.maxSize);
    hide Arena.Consistent, Arena.Put, Arena.Find, Arena.Accepts, Arena.Overflows, Arena.Used;
    OneShard(s, h, Arena.Put(a, rec, s.maxSize), s');
  }

  lemma StampedFields(stored: Arena.ResponseEntry, e: Arena.ResponseEntry, e1: Arena.ResponseEntry, ttl: int, now: nat,
                      rec: Arena.Record, h: nat)
    requires IsStamped(stored, e1, ExpiryOf(ttl, now)) && IsRecordOf(rec, h, stored, ExpiryOf(ttl, now))
    requires e1 == if ttl > 0 then e.(expiresAt := e1.expiresAt) else e
    ensures rec == Arena.Record(h, if ttl > 0 then now + ttl else 0, e.status, e.contentType, rec.hdr, e.body)
    ensures stored == e.(header := stored.header, expiresAt := if ttl > 0 then now + ttl else e.expiresAt)
  {
    hide IsPersisted, HeaderCodec.IsEncoding;
  }

  lemma SetSteps(s: State, t: nat, h: nat, e: Arena.ResponseEntry, ttl: int, n1: nat, n2: nat,
    stored: Arena.ResponseEntry,
                 rec: Arena.Record, s1: State, s2: State)
    requires Ready(s) && t < |s.callers| && s.callers[t] == Caller(SetOf(h, e, ttl), Begin)
    requires Step(s, Event(t, n1, Tick)) == Some(s1) && Step(s1, Event(t, n2, Written(stored, rec))) == Some(s2)
    ensures var e1 := if ttl > 0 then e.(expiresAt := n1 + ttl) else e;
      IsStamped(stored, e1, ExpiryOf(ttl, n2)) && IsRecordOf(rec, h, stored, ExpiryOf(ttl, n2)) && Arena.Encodable(rec)
    ensures var a := ShardOf(s, h);
      if !Arena.Accepts(a, rec, s.maxSize) then
        s2.l1 == s.l1 && s2.shards == s.shards && s2.ever == s.ever && s2.callers[t].pc == Done
      else
        && s2.shards == s.shards[h % |s.shards| := Arena.Put(a, rec, s.maxSize)] && s2.l1 == s.l1
        && s2.callers[t].pc == Accepted(stored, ExpiryOf(ttl, n1))
  {
    hide Arena.Consistent, Arena.Put, Arena.Find, IsStamped, IsRecordOf, Arena.Encodable, Arena.Accepts;
  }

  /** The last step of an accepted Set, and no other slot. */
  lemma SetPromotes(s: State, t: nat, n: nat, s': State)
    requires Ready(s) && t < |s.callers| && s.callers[t].req.SetOf? && s.callers[t].pc.Accepted?
    requires Step(s, Event(t, n, Tick)) == Some(s')
    ensures var h, pc := s.callers[t].req.h, s.callers[t].pc;
      && s'.l1 == s.l1[h % 256 := Some(L1Entry(h, pc.exp, pc.stored))]
      && s'.shards == s.shards && s'.ever == s.ever && s'.callers[t].pc == Done
  {
    hide Arena.Consistent, Arena.Find, Arena.Put, IsStamped, IsRecordOf;
  }

  // ---- Get ----

  /** A Get whose slot holds its hash unexpired answers from it and changes nothing else. */
  lemma HitAlone(s: State, t: nat, h: nat, n: nat, s': State)
    requires Inv(s) && t < |s.callers| && s.callers[t] == Caller(GetOf(h), Begin)
    requires Step(s, Event(t, n, Tick)) == Some(s')
    ensures Shaped(s) && s'.l1 == s.l1 && s'.shards == s.shards && s'.ever == s.ever
    ensures s'.callers[t].pc ==
      if s.l1[h % 256].Some? && s.l1[h % 256].value.hash == h
         && (s.l1[h % 256].value.expireAt == 0 || n <= s.l1[h % 256].value.expireAt)
      then Answered(s.l1[h % 256].value.entry, n) else MissedL1
  {
    InvReady(s);
    hide Inv, Arena.Consistent, Arena.Find, ReadsBack, Arena.ImageOf;
  }

  /**
   A Get that misses its slot answers exactly when the shard holds a record of its hash that has not
   expired at the two later clock readings; the answer is that record, promoted into the slot.
   */
  lemma ReadAlone(s: State, t: nat, h: nat, n2: nat, n3: nat, n4: nat, r: Arena.ResponseEntry, s': State)
    requires Inv(s) && t < |s.callers| && s.callers[t] == Caller(GetOf(h), MissedL1)
    requires Run(s, [Event(t, n2, Decoded(r)), Event(t, n3, Tick), Event(t, n4, Tick)]) == Some(s')
    ensures Ready(s) && FoundIn(s, h).Some?
    ensures var rec := FoundIn(s, h).value;
      && (rec.expire == 0 || n3 <= rec.expire)
      && r.status == rec.status % 65536 && r.expiresAt == rec.expire
      && r.header == HeaderCodec.Decode(Arena.ImageOf(rec).hdr) && r.body == Arena.ImageOf(rec).body
      && r.contentType == Arena.ImageOf(rec).ct
      && s'.l1 == s.l1[h % 256 := Some(L1Entry(h, rec.expire, r))] && s'.shards == s.shards
      && s'.callers[t].pc == Answered(r, n3)
  {
    var s1, s2 := ThreeSteps(s, Event(t, n2, Decoded(r)), Event(t, n3, Tick), Event(t, n4, Tick));
    InvReady(s);
    hide Inv, Arena.Consistent, Arena.Find, Run, Step, Arena.ImageOf, HeaderCodec.Decode, FoundIn, Ready;
    ReadDecodes(s, t, h, n2, r, s1);
    ReadPromotes(s, t, h, n2, n3, n4, r, s1, s2, s');
  }

  lemma ReadPromotes(s: State, t: nat, h: nat, n2: nat, n3: nat, n4: nat, r: Arena.ResponseEntry, s1: State, s2: State,
                     s': State)
    requires Shaped(s) && t < |s.callers| && s.callers[t].req == GetOf(h) && s1 == Moved(s.(now := n2), t, ReadL2(r))
    requires Step(s1, Event(t, n3, Tick)) == Some(s2) && Step(s2, Event(t, n4, Tick)) == Some(s')
    ensures (r.expiresAt == 0 || n3 <= r.expiresAt) && s'.callers[t].pc == Answered(r, n3)
    ensures s'.l1 == s.l1[h % 256 := Some(L1Entry(h, r.expiresAt, r))] && s'.shards == s.shards
  {
    hide Arena.Consistent, Arena.Find;
    ReadChecks(s1, t, h, n3, r, s2);
    ReadEnds(s2, t, h, n4, r, s');
  }

  lemma ReadDecodes(s: State, t: nat, h: nat, n: nat, r: Arena.ResponseEntry, s': State)
    requires Ready(s) && t < |s.callers| && s.callers[t] == Caller(GetOf(h), MissedL1)
    requires Step(s, Event(t, n, Decoded(r))) == Some(s')
    ensures FoundIn(s, h).Some?
    ensures var rec := FoundIn(s, h).value;
      && s' == Moved(s.(now := n), t, ReadL2(r)) && (rec.expire == 0 || n <= rec.expire)
      && r.status == rec.status % 65536 && r.expiresAt == rec.expire
      && r.header == HeaderCodec.Decode(Arena.ImageOf(rec).hdr) && r.body == Arena.ImageOf(rec).body
      && r.contentType == Arena.ImageOf(rec).ct
  {
    ImageStatus(FoundIn(s, h).value);
    hide Arena.Consistent, Arena.Find, Arena.ImageOf, IsRecovered, HeaderCodec.Decode;
  }

  lemma ReadChecks(s: State, t: nat, h: nat, n: nat, r: Arena.ResponseEntry, s': State)
    requires Shaped(s) && t < |s.callers| && s.callers[t] == Caller(GetOf(h), ReadL2(r))
    requires Step(s, Event(t, n, Tick)) == Some(s')
    ensures if r.expiresAt == 0 || n <= r.expiresAt then s' == Moved(s.(now := n), t, Promoting(r, n))
            else s' == Moved(s.(now := n), t, Done)
  {
    hide Arena.Consistent, Arena.Find, Arena.ImageOf, ReadsBack;
  }

  lemma ReadEnds(s: State, t: nat, h: nat, n: nat, r: Arena.ResponseEntry, s': State)
    requires Shaped(s) && t < |s.callers| && s.callers[t].req == GetOf(h) && Step(s, Event(t, n, Tick)) == Some(s')
    requires s.callers[t].pc.Promoting? && s.callers[t].pc.r == r
    ensures s'.l1 == s.l1[h % 256 := Some(L1Entry(h, r.expiresAt, r))] && s'.shards == s.shards
    ensures s'.callers[t].pc == Answered(r, s.callers[t].pc.at)
  {
    hide Arena.Consistent, Arena.Find, Arena.ImageOf, ReadsBack;
  }

  /** A Get that misses its slot can end at the arena exactly when nothing unexpired is found there. */
  lemma MissAlone(s: State, t: nat, h: nat, n: nat)
    requires Inv(s) && t < |s.callers| && s.callers[t] == Caller(GetOf(h), MissedL1) && s.now <= n
    ensures Ready(s)
    ensures Step(s, Event(t, n, Tick)).Some? <==>
      FoundIn(s, h).None? || (FoundIn(s, h).value.expire != 0 && n > FoundIn(s, h).value.expire)
  {
    InvReady(s);
    hide Inv, Arena.Consistent, Arena.Find, Arena.ImageOf, ReadsBack;
  }
}
