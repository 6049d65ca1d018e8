/**
 The two-tier store under concurrency: any number of Get, Set and Del calls, one atomic access to
 an L1 slot or one locked L2 operation at a time. A Get then answers some successful Set of its
 hash, unexpired; not necessarily the last one, since a promotion can race with a Set or a Del.
 */
module TierMachine {
  import opened Bytes
  import opened HeaderCodec
  import opened Vary
  import opened Arena
  import opened Shard
  import opened Tiered

  datatype Request = GetOf(h: nat) | SetOf(h: nat, entry: ResponseEntry, ttl: int) | DelOf(h: nat)

  /** Where a call stands; a returned Get shows the clock reading it last compared with the expiry. */
  datatype PC =
    | Begin
    | MissedL1 | ReadL2(r: ResponseEntry) | Promoting(r: ResponseEntry, at: nat)
    | Stamped(e: ResponseEntry, exp: nat) | Accepted(stored: ResponseEntry, exp: nat)
    | Loaded(item: Option<L1Entry>) | Cleared
    | Done | Answered(r: ResponseEntry, at: nat)

  datatype Caller = Caller(req: Request, pc: PC)

  /** ever holds every binding a Set was accepted for; it is for reference only. */
  datatype State = State(
    l1: seq<Option<L1Entry>>, shards: seq<Arena>, maxSize: nat, now: nat,
    ever: set<(nat, Binding)>, callers: seq<Caller>)

  /** What the environment decides: how L2 decodes or writes an entry, and whether a swap succeeds. */
  datatype Choice = Tick | Decoded(r: ResponseEntry) | Written(stored: ResponseEntry, rec: Record) | Swap(ok: bool)

  /** Caller t takes a step, its clock reading being now. */
  datatype Event = Event(t: nat, now: nat, choice: Choice)

  predicate Shaped(s: State) {
    |s.l1| == L1_SLOTS && |s.shards| > 0
  }

  function ShardOf(s: State, h: nat): Arena
    requires Shaped(s)
  {
    s.shards[h % |s.shards|]
  }

  function Moved(s: State, t: nat, pc: PC): State
    requires t < |s.callers|
  {
    s.(callers := s.callers[t := s.callers[t].(pc := pc)])
  }

  function Promote(s: State, item: L1Entry): State
    requires Shaped(s)
  {
    s.(l1 := s.l1[item.hash % L1_SLOTS := Some(item)])
  }

  // ---- One step of one call ----

  ghost function StepGet(s: State, t: nat, h: nat, c: Choice): Option<State>
    requires Shaped(s) && t < |s.callers| && (forall a :: a in s.shards ==> Consistent(a))
  {
    match (s.callers[t].pc, c)
    case (Begin, Tick) =>
      var slot := s.l1[h % L1_SLOTS];
      if slot.Some? && Fresh(slot.value, h, s.now) then Some(Moved(s, t, Answered(slot.value.entry, s.now)))
      else Some(Moved(s, t, MissedL1))
    case (MissedL1, Tick) =>
      var found := Find(ShardOf(s, h), h);
      if found.None? || Expired(found.value.expire, s.now) then Some(Moved(s, t, Done)) else None
    case (MissedL1, Decoded(r)) =>
      var found := Find(ShardOf(s, h), h);
      if found.Some? && !Expired(found.value.expire, s.now) && ReadsBack(r, ImageOf(found.value))
      then Some(Moved(s, t, ReadL2(r))) else None
    case (ReadL2(r), Tick) =>
      if Expired(r.expiresAt, s.now) then Some(Moved(s, t, Done)) else Some(Moved(s, t, Promoting(r, s.now)))
    case (Promoting(r, at), Tick) =>
      Some(Moved(Promote(s, L1Entry(h, r.expiresAt, r)), t, Answered(r, at)))
    case _ => None
  }

  ghost function StepSet(s: State, t: nat, h: nat, entry: ResponseEntry, ttl: int, c: Choice): Option<State>
    requires Shaped(s) && t < |s.callers|
  {
    match (s.callers[t].pc, c)
    case (Begin, Tick) =>
      Some(Moved(s, t, Stamped(if ttl > 0 then entry.(expiresAt := s.now + ttl) else entry, ExpiryOf(ttl, s.now))))
    case (Stamped(e, exp), Written(stored, rec)) =>
      var expire, a := ExpiryOf(ttl, s.now), ShardOf(s, h);
      if !IsStamped(stored, e, expire) || !IsRecordOf(rec, h, stored, expire) || !Encodable(rec) then None
      else if !Accepts(a, rec, s.maxSize) then Some(Moved(s, t, Done))
      else
        var s' := s.(shards := s.shards[h % |s.shards| := Put(a, rec, s.maxSize)],
                     ever := s.ever + {(h, Binding(stored, expire))});
        Some(Moved(s', t, Accepted(stored, exp)))
    case (Accepted(stored, exp), Tick) => Some(Moved(Promote(s, L1Entry(h, exp, stored)), t, Done))
    case _ => None
  }

  /** The swap compares pointers, so it may also fail on an equal item, but never succeeds on another. */
  ghost function StepDel(s: State, t: nat, h: nat, c: Choice): Option<State>
    requires Shaped(s) && t < |s.callers|
  {
    match (s.callers[t].pc, c)
    case (Begin, Tick) => Some(Moved(s, t, Loaded(s.l1[h % L1_SLOTS])))
    case (Loaded(item), Swap(ok)) =>
      if item.None? || item.value.hash != h then Some(Moved(s, t, Cleared))
      else if ok then
        if s.l1[h % L1_SLOTS] == item then Some(Moved(s.(l1 := s.l1[h % L1_SLOTS := None]), t, Cleared)) else None
      else Some(Moved(s, t, Cleared))
    case (Cleared, Tick) =>
      Some(Moved(s.(shards := s.shards[h % |s.shards| := Remove(ShardOf(s, h), h)]), t, Done))
    case _ => None
  }

  ghost function StepAt(s: State, t: nat, c: Choice): Option<State>
    requires Shaped(s) && t < |s.callers| && (forall a :: a in s.shards ==> Consistent(a))
  {
    match s.callers[t].req
    case GetOf(h) => StepGet(s, t, h, c)
    case SetOf(h, entry, ttl) => StepSet(s, t, h, entry, ttl, c)
    case DelOf(h) => StepDel(s, t, h, c)
  }

  ghost predicate Ready(s: State) {
    Shaped(s) && (forall a :: a in s.shards ==> Consistent(a))
  }

  ghost function Step(s: State, ev: Event): Option<State> {
    if !Ready(s) || ev.t >= |s.callers| || ev.now < s.now then None
    else StepAt(s.(now := ev.now), ev.t, ev.choice)
  }

  ghost function Run(s: State, events: seq<Event>): Option<State> {
    if events == [] then Some(s)
    else match Run(s, events[..|events| - 1])
      case None => None
      case Some(s') => Step(s', events[|events| - 1])
  }

  function Start(requests: seq<Request>, numShards: nat, maxSize: nat): State {
    State(seq(L1_SLOTS, _ => None), seq(numShards, _ => EMPTY), maxSize, 0, {},
          seq(|requests|, i requires 0 <= i < |requests| => Caller(requests[i], Begin)))
  }

  // ---- The invariant ----

  /** r is what some binding ever made for h answers, and exp a safe expiry for it. */
  ghost predicate Backed(ever: set<(nat, Binding)>, h: nat, r: ResponseEntry, exp: nat) {
    exists b :: (h, b) in ever && Answers(r, h, b) && (b.expire == 0 <==> exp == 0) && exp <= b.expire
  }

  /** r answers some binding ever made for h that had not expired at the given time. */
  ghost predicate Served(ever: set<(nat, Binding)>, h: nat, r: ResponseEntry, at: nat) {
    exists b :: (h, b) in ever && Answers(r, h, b) && !Expired(b.expire, at)
  }

  ghost predicate SlotOk(ever: set<(nat, Binding)>, slot: Option<L1Entry>) {
    slot.Some? ==> Backed(ever, slot.value.hash, slot.value.entry, slot.value.expireAt)
  }

  ghost predicate FoundOk(ever: set<(nat, Binding)>, h: nat, found: Option<Record>) {
    found.Some? ==> exists b :: (h, b) in ever && IsRecordOf(found.value, h, b.entry, b.expire)
  }

  ghost predicate ShardOk(ever: set<(nat, Binding)>, maxSize: nat, a: Arena) {
    Consistent(a) && Used(a) <= maxSize && forall h: nat :: FoundOk(ever, h, Find(a, h))
  }

  ghost predicate CallerOk(ever: set<(nat, Binding)>, now: nat, c: Caller) {
    match (c.req, c.pc)
    case (GetOf(h), ReadL2(r)) => Backed(ever, h, r, r.expiresAt)
    case (GetOf(h), Promoting(r, at)) => Backed(ever, h, r, r.expiresAt) && !Expired(r.expiresAt, at)
    case (GetOf(h), Answered(r, at)) => Served(ever, h, r, at)
    case (SetOf(h, entry, ttl), Stamped(e, exp)) =>
      if ttl > 0 then 0 < exp <= now + ttl && e == entry.(expiresAt := e.expiresAt) else exp == 0 && e == entry
    case (SetOf(h, entry, ttl), Accepted(stored, exp)) => Backed(ever, h, stored, exp)
    case _ => true
  }

  /** The binding is the entry of that call, stamped, and expires its ttl after some time up to now. */
  ghost predicate SetIn(c: Caller, p: (nat, Binding), now: nat) {
    && c.req.SetOf? && c.req.h == p.0 && IsStamped(p.1.entry, c.req.entry, p.1.expire)
    && if c.req.ttl > 0 then c.req.ttl <= p.1.expire <= now + c.req.ttl else p.1.expire == 0
  }

  /** The binding comes from a Set of its hash. */
  ghost predicate SetBy(callers: seq<Caller>, p: (nat, Binding), now: nat) {
    exists t :: 0 <= t < |callers| && SetIn(callers[t], p, now)
  }

  ghost predicate Inv(s: State) {
    && Shaped(s)
    && (forall i :: 0 <= i < L1_SLOTS ==> SlotOk(s.ever, s.l1[i]))
    && (forall a :: a in s.shards ==> ShardOk(s.ever, s.maxSize, a))
    && (forall t :: 0 <= t < |s.callers| ==> CallerOk(s.ever, s.now, s.callers[t]))
    && (forall p :: p in s.ever ==> SetBy(s.callers, p, s.now))
  }

  // ---- What single changes keep ----

  lemma InvReady(s: State)
    requires Inv(s)
    ensures Ready(s)
  {
    hide Consistent, SlotOk, CallerOk, SetBy, FoundOk, Find;
  }

  lemma MoveKeeps(s: State, t: nat, pc: PC)
    requires Inv(s) && t < |s.callers| && CallerOk(s.ever, s.now, s.callers[t].(pc := pc))
    ensures Inv(Moved(s, t, pc))
  {
    hide SlotOk, ShardOk, CallerOk, IsStamped;
    var s' := Moved(s, t, pc);
    forall p | p in s.ever
      ensures SetBy(s'.callers, p, s'.now)
    {
      assert SetBy(s.callers, p, s.now);
      var u :| 0 <= u < |s.callers| && SetIn(s.callers[u], p, s.now);
      assert SetIn(s'.callers[u], p, s'.now);
    }
  }

  lemma PromoteKeeps(s: State, item: L1Entry)
    requires Inv(s) && Backed(s.ever, item.hash, item.entry, item.expireAt)
    ensures Inv(Promote(s, item))
  {
    hide Backed, ShardOk, CallerOk, SetBy;
  }

  lemma ClearKeeps(s: State, h: nat)
    requires Inv(s)
    ensures Inv(s.(l1 := s.l1[h % L1_SLOTS := None]))
  {
    hide Backed, ShardOk, CallerOk, SetBy;
  }

  lemma ShardKeeps(s: State, h: nat, a: Arena)
    requires Inv(s) && ShardOk(s.ever, s.maxSize, a)
    ensures Inv(s.(shards := s.shards[h % |s.shards| := a]))
  {
    hide SlotOk, ShardOk, CallerOk, SetBy;
  }

  lemma ClockKeeps(s: State, now: nat)
    requires Inv(s) && s.now <= now
    ensures Inv(s.(now := now))
  {
    hide SlotOk, ShardOk, Backed, Served, IsStamped;
    forall p | p in s.ever
      ensures SetBy(s.callers, p, now)
    {
      assert SetBy(s.callers, p, s.now);
      var u :| 0 <= u < |s.callers| && SetIn(s.callers[u], p, s.now);
      assert SetIn(s.callers[u], p, now);
    }
  }

  lemma BackedGrows(ever: set<(nat, Binding)>, p: (nat, Binding), h: nat, r: ResponseEntry, exp: nat)
    ensures Backed(ever, h, r, exp) ==> Backed(ever + {p}, h, r, exp)
  {
    hide Answers;
    if Backed(ever, h, r, exp) {
      var b :| (h, b) in ever && Answers(r, h, b) && (b.expire == 0 <==> exp == 0) && exp <= b.expire;
      assert (h, b) in ever + {p};
    }
  }

  lemma ServedGrows(ever: set<(nat, Binding)>, p: (nat, Binding), h: nat, r: ResponseEntry, at: nat)
    ensures Served(ever, h, r, at) ==> Served(ever + {p}, h, r, at)
  {
    hide Answers, Expired;
    if Served(ever, h, r, at) {
      var b :| (h, b) in ever && Answers(r, h, b) && !Expired(b.expire, at);
      assert (h, b) in ever + {p};
    }
  }

  lemma FoundGrows(ever: set<(nat, Binding)>, p: (nat, Binding), h: nat, found: Option<Record>)
    ensures FoundOk(ever, h, found) ==> FoundOk(ever + {p}, h, found)
  {
    hide IsRecordOf;
    if FoundOk(ever, h, found) && found.Some? {
      var b :| (h, b) in ever && IsRecordOf(found.value, h, b.entry, b.expire);
      assert (h, b) in ever + {p};
    }
  }

  lemma ShardGrows(ever: set<(nat, Binding)>, p: (nat, Binding), maxSize: nat, a: Arena)
    requires ShardOk(ever, maxSize, a)
    ensures ShardOk(ever + {p}, maxSize, a)
  {
    hide FoundOk, Find, Consistent, Used;
    forall h: nat
      ensures FoundOk(ever + {p}, h, Find(a, h))
    {
      FoundGrows(ever, p, h, Find(a, h));
    }
  }

  lemma CallerGrows(ever: set<(nat, Binding)>, p: (nat, Binding), now: nat, c: Caller)
    requires CallerOk(ever, now, c)
    ensures CallerOk(ever + {p}, now, c)
  {
    hide Backed, Served;
    match (c.req, c.pc) {
      case (GetOf(h), ReadL2(r)) => BackedGrows(ever, p, h, r, r.expiresAt);
      case (GetOf(h), Promoting(r, at)) => BackedGrows(ever, p, h, r, r.expiresAt);
      case (GetOf(h), Answered(r, at)) => ServedGrows(ever, p, h, r, at);
      case (SetOf(h, entry, ttl), Accepted(stored, exp)) => BackedGrows(ever, p, h, stored, exp);
      case _ =>
    }
  }

  lemma EverKeeps(s: State, p: (nat, Binding))
    requires Inv(s) && SetBy(s.callers, p, s.now)
    ensures Inv(s.(ever := s.ever + {p}))
  {
    hide ShardOk, CallerOk, SetBy, Backed;
    forall i | 0 <= i < L1_SLOTS && s.l1[i].Some?
      ensures SlotOk(s.ever + {p}, s.l1[i])
    {
      assert SlotOk(s.ever, s.l1[i]);
      var item := s.l1[i].value;
      BackedGrows(s.ever, p, item.hash, item.entry, item.expireAt);
    }
    forall a | a in s.shards { ShardGrows(s.ever, p, s.maxSize, a); }
    forall t | 0 <= t < |s.callers| { CallerGrows(s.ever, p, s.now, s.callers[t]); }
  }

  // ---- Every step keeps the invariant ----

  lemma HitServed(ever: set<(nat, Binding)>, h: nat, r: ResponseEntry, exp: nat, at: nat)
    requires Backed(ever, h, r, exp) && (exp == 0 || at <= exp)
    ensures Served(ever, h, r, at)
  {
    hide Answers;
    var b :| (h, b) in ever && Answers(r, h, b) && (b.expire == 0 <==> exp == 0) && exp <= b.expire;
    assert !Expired(b.expire, at);
  }

  lemma DecodedBacked(ever: set<(nat, Binding)>, h: nat, rec: Record, r: ResponseEntry)
    requires FoundOk(ever, h, Some(rec)) && ReadsBack(r, ImageOf(rec))
    ensures Backed(ever, h, r, r.expiresAt)
  {
    ImageStatus(rec);
    hide IsEncoding, IsRecovered, ImageOf, Decode;
    var b :| (h, b) in ever && IsRecordOf(rec, h, b.entry, b.expire);
    AnswersByRecord(r, h, b, rec);
  }

  lemma StoredBacked(ever: set<(nat, Binding)>, h: nat, stored: ResponseEntry, expire: nat, exp: nat)
    requires (h, Binding(stored, expire)) in ever && (expire == 0 <==> exp == 0) && exp <= expire
    ensures Backed(ever, h, stored, exp)
  {
    var b := Binding(stored, expire);
    assert Answers(stored, h, b);
  }

  lemma PutShardOk(ever: set<(nat, Binding)>, a: Arena, maxSize: nat, h: nat, stored: ResponseEntry,
      expire: nat, rec: Record)
    requires ShardOk(ever, maxSize, a) && Encodable(rec) && Accepts(a, rec, maxSize)
    requires IsRecordOf(rec, h, stored, expire) && (h, Binding(stored, expire)) in ever
    ensures ShardOk(ever, maxSize, Put(a, rec, maxSize))
  {
    PutKeeps(a, rec, maxSize);
    assert rec.hash == h;
    hide Put, Find, Consistent, Used, Accepts, IsRecordOf, Encodable, Overflows;
    forall x: nat
      ensures FoundOk(ever, x, Find(Put(a, rec, maxSize), x))
    {
      assert FoundOk(ever, x, Find(a, x));
      if x == h {
        var b := Binding(stored, expire);
        assert IsRecordOf(rec, h, b.entry, b.expire);
      }
    }
  }

  lemma RemoveShardOk(ever: set<(nat, Binding)>, a: Arena, maxSize: nat, h: nat)
    requires ShardOk(ever, maxSize, a)
    ensures ShardOk(ever, maxSize, Remove(a, h))
  {
    RemoveKeeps(a, h);
    hide Remove, Find, Consistent, Used, IsRecordOf;
    forall x: nat
      ensures FoundOk(ever, x, Find(Remove(a, h), x))
    {
      assert FoundOk(ever, x, Find(a, x));
    }
  }

  lemma GetKeeps(s: State, t: nat, h: nat, c: Choice)
    requires Inv(s) && Ready(s) && t < |s.callers| && s.callers[t].req == GetOf(h) && StepGet(s, t, h, c).Some?
    ensures Inv(StepGet(s, t, h, c).value)
  {
    assert CallerOk(s.ever, s.now, s.callers[t]);
    assert SlotOk(s.ever, s.l1[h % L1_SLOTS]);
    assert ShardOk(s.ever, s.maxSize, ShardOf(s, h));
    assert FoundOk(s.ever, h, Find(ShardOf(s, h), h));
    hide Inv, FoundOk, ShardOk, Backed, Served, ReadsBack, ImageOf, Find, Consistent, Promote;
    match (s.callers[t].pc, c) {
      case (Begin, Tick) =>
        var slot := s.l1[h % L1_SLOTS];
        if slot.Some? && Fresh(slot.value, h, s.now) {
          HitServed(s.ever, h, slot.value.entry, slot.value.expireAt, s.now);
          MoveKeeps(s, t, Answered(slot.value.entry, s.now));
        } else {
          MoveKeeps(s, t, MissedL1);
        }
      case (MissedL1, Tick) => MoveKeeps(s, t, Done);
      case (MissedL1, Decoded(r)) =>
        DecodedBacked(s.ever, h, Find(ShardOf(s, h), h).value, r);
        MoveKeeps(s, t, ReadL2(r));
      case (ReadL2(r), Tick) =>
        if Expired(r.expiresAt, s.now) { MoveKeeps(s, t, Done); } else { MoveKeeps(s, t, Promoting(r, s.now)); }
      case (Promoting(r, at), Tick) =>
        HitServed(s.ever, h, r, r.expiresAt, at);
        MoveKeeps(s, t, Answered(r, at));
        PromoteKeeps(Moved(s, t, Answered(r, at)), L1Entry(h, r.expiresAt, r));
        PromoteMoved(s, L1Entry(h, r.expiresAt, r), t, Answered(r, at));
      case _ =>
    }
  }

  lemma PromoteMoved(s: State, item: L1Entry, t: nat, pc: PC)
    requires Shaped(s) && t < |s.callers|
    ensures Promote(Moved(s, t, pc), item) == Moved(Promote(s, item), t, pc)
  {
  }

  lemma SetKeeps(s: State, t: nat, h: nat, entry: ResponseEntry, ttl: int, c: Choice)
    requires Inv(s) && t < |s.callers| && s.callers[t].req == SetOf(h, entry, ttl)
    requires StepSet(s, t, h, entry, ttl, c).Some?
    ensures Inv(StepSet(s, t, h, entry, ttl, c).value)
  {
    InvReady(s);
    WrittenOnly(s, t, h, entry, ttl, c);
    hide Inv, StepSet;
    if c.Written? {
      WriteKeeps(s, t, h, entry, ttl, s.callers[t].pc.e, s.callers[t].pc.exp, c.stored, c.rec);
    } else {
      TickSetKeeps(s, t, h, entry, ttl);
    }
  }

  lemma TickSetKeeps(s: State, t: nat, h: nat, entry: ResponseEntry, ttl: int)
    requires Inv(s) && t < |s.callers| && s.callers[t].req == SetOf(h, entry, ttl)
    requires StepSet(s, t, h, entry, ttl, Tick).Some?
    ensures Inv(StepSet(s, t, h, entry, ttl, Tick).value)
  {
    hide Inv, Backed, Served, Promote, Moved, CallerOk, IsStamped, IsRecordOf, Encodable, Accepts, Put;
    hide ShardOf, ExpiryOf;
    InvReady(s);
    if s.callers[t].pc.Begin? {
      StampKeeps(s, t, h, entry, ttl);
    } else {
      AcceptedBacked(s, t, h);
      PromotedKeeps(s, t, h, s.callers[t].pc.stored, s.callers[t].pc.exp);
    }
  }

  lemma AcceptedBacked(s: State, t: nat, h: nat)
    requires Inv(s) && t < |s.callers| && s.callers[t].req.SetOf? && s.callers[t].req.h == h
    requires s.callers[t].pc.Accepted?
    ensures Backed(s.ever, h, s.callers[t].pc.stored, s.callers[t].pc.exp)
  {
    assert CallerOk(s.ever, s.now, s.callers[t]);
    hide Inv, Backed, Served;
  }

  lemma WrittenOnly(s: State, t: nat, h: nat, entry: ResponseEntry, ttl: int, c: Choice)
    requires Shaped(s) && t < |s.callers| && StepSet(s, t, h, entry, ttl, c).Some?
    ensures if c.Written? then s.callers[t].pc.Stamped? else c == Tick
  {
    hide IsStamped, IsRecordOf, Encodable, Accepts, Put;
  }

  lemma StampKeeps(s: State, t: nat, h: nat, entry: ResponseEntry, ttl: int)
    requires Inv(s) && t < |s.callers| && s.callers[t].req == SetOf(h, entry, ttl)
    ensures Inv(Moved(s, t, Stamped(if ttl > 0 then entry.(expiresAt := s.now + ttl) else entry, ExpiryOf(ttl, s.now))))
  {
    hide Inv, Backed, Served;
    MoveKeeps(s, t, Stamped(if ttl > 0 then entry.(expiresAt := s.now + ttl) else entry, ExpiryOf(ttl, s.now)));
  }

  lemma PromotedKeeps(s: State, t: nat, h: nat, stored: ResponseEntry, exp: nat)
    requires Inv(s) && t < |s.callers| && s.callers[t].req.SetOf? && Backed(s.ever, h, stored, exp)
    ensures Inv(Moved(Promote(s, L1Entry(h, exp, stored)), t, Done))
  {
    InvReady(s);
    hide Inv, Backed, Promote;
    MoveKeeps(s, t, Done);
    PromoteKeeps(Moved(s, t, Done), L1Entry(h, exp, stored));
    PromoteMoved(s, L1Entry(h, exp, stored), t, Done);
  }

  lemma StampedSet(callers: seq<Caller>, t: nat, h: nat, e: ResponseEntry, stored: ResponseEntry, now: nat)
    requires t < |callers| && callers[t].req.SetOf? && callers[t].req.h == h
    requires IsStamped(stored, e, ExpiryOf(callers[t].req.ttl, now))
    requires var entry := callers[t].req.entry;
      e == if callers[t].req.ttl > 0 then entry.(expiresAt := e.expiresAt) else entry
    ensures SetBy(callers, (h, Binding(stored, ExpiryOf(callers[t].req.ttl, now))), now)
  {
    hide IsPersisted;
    assert SetIn(callers[t], (h, Binding(stored, ExpiryOf(callers[t].req.ttl, now))), now);
  }

  lemma WriteKeeps(s: State, t: nat, h: nat, entry: ResponseEntry, ttl: int, e: ResponseEntry, exp: nat,
                   stored: ResponseEntry, rec: Record)
    requires Inv(s) && t < |s.callers| && s.callers[t] == Caller(SetOf(h, entry, ttl), Stamped(e, exp))
    requires StepSet(s, t, h, entry, ttl, Written(stored, rec)).Some?
    ensures Inv(StepSet(s, t, h, entry, ttl, Written(stored, rec)).value)
  {
    assert CallerOk(s.ever, s.now, s.callers[t]);
    assert ShardOk(s.ever, s.maxSize, ShardOf(s, h));
    hide Inv, ShardOk, Backed, Served, Put, Accepts, IsRecordOf, IsStamped, Encodable;
    var expire, a := ExpiryOf(ttl, s.now), ShardOf(s, h);
    if !Accepts(a, rec, s.maxSize) {
      MoveKeeps(s, t, Done);
    } else {
      var p := (h, Binding(stored, expire));
      StampedSet(s.callers, t, h, e, stored, s.now);
      EverKeeps(s, p);
      var s1 := s.(ever := s.ever + {p});
      ShardGrows(s.ever, p, s.maxSize, a);
      PutShardOk(s1.ever, a, s.maxSize, h, stored, expire, rec);
      ShardKeeps(s1, h, Put(a, rec, s.maxSize));
      StoredBacked(s1.ever, h, stored, expire, exp);
      MoveKeeps(s1.(shards := s1.shards[h % |s1.shards| := Put(a, rec, s.maxSize)]), t, Accepted(stored, exp));
    }
  }

  lemma DelKeeps(s: State, t: nat, h: nat, c: Choice)
    requires Inv(s) && t < |s.callers| && s.callers[t].req == DelOf(h) && StepDel(s, t, h, c).Some?
    ensures Inv(StepDel(s, t, h, c).value)
  {
    assert ShardOk(s.ever, s.maxSize, ShardOf(s, h));
    hide Inv, ShardOk, Backed, Served, Remove;
    match (s.callers[t].pc, c) {
      case (Begin, Tick) => MoveKeeps(s, t, Loaded(s.l1[h % L1_SLOTS]));
      case (Loaded(item), Swap(ok)) =>
        ClearKeeps(s, h);
        MoveKeeps(s, t, Cleared);
        MoveKeeps(s.(l1 := s.l1[h % L1_SLOTS := None]), t, Cleared);
      case (Cleared, Tick) =>
        RemoveShardOk(s.ever, ShardOf(s, h), s.maxSize, h);
        ShardKeeps(s, h, Remove(ShardOf(s, h), h));
        MoveKeeps(s.(shards := s.shards[h % |s.shards| := Remove(ShardOf(s, h), h)]), t, Done);
      case _ =>
    }
  }

  lemma StepKeeps(s: State, ev: Event)
    requires Inv(s) && Step(s, ev).Some?
    ensures Inv(Step(s, ev).value)
  {
    var s1 := s.(now := ev.now);
    ClockKeeps(s, ev.now);
    hide Inv, StepGet, StepSet, StepDel, Consistent;
    match s1.callers[ev.t].req {
      case GetOf(h) => GetKeeps(s1, ev.t, h, ev.choice);
      case SetOf(h, entry, ttl) => SetKeeps(s1, ev.t, h, entry, ttl, ev.choice);
      case DelOf(h) => DelKeeps(s1, ev.t, h, ev.choice);
    }
  }

  lemma StartInv(requests: seq<Request>, numShards: nat, maxSize: nat)
    requires numShards > 0
    ensures Inv(Start(requests, numShards, maxSize))
  {
    FlattenNothing();
    forall h: nat { NothingFound(h); }
    hide Flatten;
  }

  lemma {:induction false} RunInv(requests: seq<Request>, numShards: nat, maxSize: nat, events: seq<Event>)
    requires numShards > 0 && Run(Start(requests, numShards, maxSize), events).Some?
    ensures Inv(Run(Start(requests, numShards, maxSize), events).value)
    decreases |events|
  {
    hide Inv, Step, Start;
    if events == [] {
      StartInv(requests, numShards, maxSize);
    } else {
      RunInv(requests, numShards, maxSize, events[..|events| - 1]);
      StepKeeps(Run(Start(requests, numShards, maxSize), events[..|events| - 1]).value, events[|events| - 1]);
    }
  }

  /**
   Over every interleaving, what a Get answers is the entry of some accepted Set of that hash, which
   had not expired at the Get's last clock reading.
   */
  lemma AnsweredWasSet(requests: seq<Request>, numShards: nat, maxSize: nat, events: seq<Event>, s: State, t: nat)
    requires numShards > 0 && Run(Start(requests, numShards, maxSize), events) == Some(s)
    requires t < |s.callers| && s.callers[t].req.GetOf? && s.callers[t].pc.Answered?
    ensures exists b :: (s.callers[t].req.h, b) in s.ever && SetBy(s.callers, (s.callers[t].req.h, b), s.now)
              && Answers(s.callers[t].pc.r, s.callers[t].req.h, b) && (b.expire == 0 || s.callers[t].pc.at <= b.expire)
  {
    RunInv(requests, numShards, maxSize, events);
    var h, r, at := s.callers[t].req.h, s.callers[t].pc.r, s.callers[t].pc.at;
    assert CallerOk(s.ever, s.now, s.callers[t]);
    hide SetBy, Answers, ShardOk, SlotOk, Run, Start;
    var b :| (h, b) in s.ever && Answers(r, h, b) && !Expired(b.expire, at);
    assert SetBy(s.callers, (h, b), s.now);
  }

  // ---- What concurrency costs ----

  lemma RunFour(s: State, e1: Event, e2: Event, e3: Event, e4: Event, s1: State, s2: State, s3: State, s4: State)
    requires Step(s, e1) == Some(s1) && Step(s1, e2) == Some(s2) && Step(s2, e3) == Some(s3) && Step(s3, e4) == Some(s4)
    ensures Run(s, [e1, e2, e3, e4]) == Some(s4)
  {
    hide Step;
    var events := [e1, e2, e3, e4];
    assert events[..3] == [e1, e2, e3] && [e1, e2, e3][..2] == [e1, e2] && [e1, e2][..1] == [e1] && [e1][..0] == [];
    assert Run(s, []) == Some(s);
    assert Run(s, [e1]) == Some(s1);
    assert Run(s, [e1, e2]) == Some(s2);
    assert Run(s, [e1, e2, e3]) == Some(s3);
  }

  /** A Tick of one caller, as seen from its own kind of call. */
  lemma TickIs(s: State, t: nat)
    requires Inv(s) && t < |s.callers|
    ensures Ready(s) && Step(s, Event(t, s.now, Tick)) == StepAt(s, t, Tick)
  {
    InvReady(s);
    assert s.(now := s.now) == s;
    hide Inv, StepAt, Ready;
  }

  /**
   A Get that has read L2 before a Del of the same hash promotes the entry after the Del has
   returned, and a Get that starts later still answers it: under concurrency a hit need not be the
   last Set.
   */
  lemma PromotionOutlivesDel(s: State, h: nat, r: ResponseEntry, g: nat, d: nat, later: nat)
    requires Inv(s) && g < |s.callers| && d < |s.callers| && later < |s.callers| && g != d && d != later && g != later
    requires s.callers[g] == Caller(GetOf(h), ReadL2(r)) && !Expired(r.expiresAt, s.now)
    requires s.callers[d] == Caller(DelOf(h), Cleared) && s.callers[later] == Caller(GetOf(h), Begin)
    ensures var deleted := Step(s, Event(d, s.now, Tick));
      deleted.Some? && deleted.value.callers[d].pc == Done && deleted.value.callers[later].pc == Begin
    ensures var s' := Run(s, [Event(d, s.now, Tick), Event(g, s.now, Tick), Event(g, s.now, Tick),
                              Event(later, s.now, Tick)]);
      s'.Some? && s'.value.callers[later].pc == Answered(r, s.now)
  {
    hide Inv, Remove;
    TickIs(s, d);
    var s1 := Moved(s.(shards := s.shards[h % |s.shards| := Remove(ShardOf(s, h), h)]), d, Done);
    DelKeeps(s, d, h, Tick);
    TickIs(s1, g);
    var s2 := Moved(s1, g, Promoting(r, s.now));
    GetKeeps(s1, g, h, Tick);
    TickIs(s2, g);
    var s3 := Moved(Promote(s2, L1Entry(h, r.expiresAt, r)), g, Answered(r, s.now));
    GetKeeps(s2, g, h, Tick);
    TickIs(s3, later);
    var s4 := Moved(s3, later, Answered(r, s.now));
    assert s3.l1[h % L1_SLOTS] == Some(L1Entry(h, r.expiresAt, r));
    RunFour(s, Event(d, s.now, Tick), Event(g, s.now, Tick), Event(g, s.now, Tick), Event(later, s.now, Tick),
            s1, s2, s3, s4);
  }
}
