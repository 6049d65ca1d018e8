/**
 The two-tier store: a direct-mapped L1 of whole entries in front of the sharded arena. L1 may
 still hold what an arena reset dropped from L2, yet together they refine the map from each
 hash to its last successful Set.
 */
module Tiered {
  import opened Bytes
  import opened HeaderCodec
  import opened Mime
  import opened Vary
  import opened Arena
  import opened Shard
  import opened Sharded

  const L1_SLOTS: nat := 256

  // ---- The reference: a history of successful operations and the last Set in it ----

  datatype StoreEvent = Stored(hash: nat, entry: ResponseEntry, expire: nat) | Deleted(hash: nat) | AllClosed

  datatype Binding = Binding(entry: ResponseEntry, expire: nat)

  /** The last successful Set of h that no Del or Close has undone since. */
  function LastSet(history: seq<StoreEvent>, h: nat): Option<Binding> {
    if history == [] then None else
      var rest := history[..|history| - 1];
      match history[|history| - 1]
      case Stored(x, e, expire) => if x == h then Some(Binding(e, expire)) else LastSet(rest, h)
      case Deleted(x) => if x == h then None else LastSet(rest, h)
      case AllClosed => None
  }

  lemma LastSetAppend(history: seq<StoreEvent>, e: StoreEvent, h: nat)
    ensures LastSet(history + [e], h) == match e
      case Stored(x, entry, expire) => if x == h then Some(Binding(entry, expire)) else LastSet(history, h)
      case Deleted(x) => if x == h then None else LastSet(history, h)
      case AllClosed => None
  {
    assert (history + [e])[..|history|] == history;
  }

  /** Event j undoes what was Set under h before it. */
  predicate Undoes(e: StoreEvent, h: nat) {
    match e
    case Stored(x, _, _) => x == h
    case Deleted(x) => x == h
    case AllClosed => true
  }

  /** Event i Set the entry under h, and no later one has undone it. */
  ghost predicate SetAndKept(history: seq<StoreEvent>, i: nat, h: nat, b: Binding) {
    && i < |history| && history[i] == Stored(h, b.entry, b.expire)
    && forall j :: i < j < |history| ==> !Undoes(history[j], h)
  }

  /** LastSet is what its name says, for every history. */
  lemma {:induction false} LastSetIff(history: seq<StoreEvent>, h: nat, b: Binding)
    ensures LastSet(history, h) == Some(b) <==> exists i :: SetAndKept(history, i, h, b)
    decreases |history|
  {
    if history != [] {
      var last := |history| - 1;
      var rest := history[..last];
      LastSetIff(rest, h, b);
      if history[last] == Stored(h, b.entry, b.expire) {
        assert SetAndKept(history, last, h, b);
      }
      if i :| SetAndKept(rest, i, h, b) {
        assert !Undoes(history[last], h) ==> SetAndKept(history, i, h, b);
      }
      if i :| SetAndKept(history, i, h, b) {
        assert i == last || SetAndKept(rest, i, h, b);
      }
    }
  }

  /** r is the very entry of the binding, or that entry read back from its arena record. */
  ghost predicate Answers(r: ResponseEntry, h: nat, b: Binding) {
    r == b.entry || exists rec :: IsRecordOf(rec, h, b.entry, b.expire) && ReadsBack(r, ImageOf(rec))
  }

  lemma AnswersSame(r: ResponseEntry, h: nat, b: Binding)
    requires Answers(r, h, b) && EntryFits(b.entry)
    ensures SameResponse(r, b.entry)
  {
    hide EntryFits, IsRecordOf, ReadsBack, ImageOf;
    if r != b.entry {
      var rec :| IsRecordOf(rec, h, b.entry, b.expire) && ReadsBack(r, ImageOf(rec));
      ReadBackExact(rec, h, b.entry, b.expire, r);
    }
  }

  /**
   A hit from either tier takes the same Vary decision as the entry the caller stored, when the
   response carried no internal-looking header beyond those its recorded Vary overwrites.
   */
  lemma HitKeepsVary(e: ResponseEntry, r0: Header, b: Binding, h: nat, r: ResponseEntry, req: Header)
    requires IsStamped(b.entry, e, b.expire) && Answers(r, h, b) && EntryFits(b.entry)
    requires IsCanonical(e.header) && IsCanonical(r0) && Satisfies(r0, e.vary)
    requires Overwritten(e.header, e.vary) && IsCanonical(req)
    ensures Matches(r.header, r.vary, req) == Matches(e.header, e.vary, req)
  {
    hide EntryFits, IsRecordOf, ImageOf, IsPersisted, IsRecovered, Overwritten, IsCanonical, Satisfies, Get, Decode;
    PersistedVary(b.entry.header, e.header, e.vary);
    if r != b.entry {
      var rec :| IsRecordOf(rec, h, b.entry, b.expire) && ReadsBack(r, ImageOf(rec));
      ReadBackExact(rec, h, b.entry, b.expire, r);
      assert r.header == b.entry.header;
      SatisfiesSurvives(r.header, e.header, e.vary, r.vary, r0, req);
    }
  }

  // ---- The store ----

  datatype L1Entry = L1Entry(hash: nat, expireAt: nat, entry: ResponseEntry)

  predicate Fresh(item: L1Entry, h: nat, now: nat) {
    item.hash == h && (item.expireAt == 0 || now <= item.expireAt)
  }

  /** An L1 slot holds the last Set of some hash of that slot, and expires no later than it. */
  ghost predicate SlotHolds(history: seq<StoreEvent>, i: nat, slot: Option<L1Entry>) {
    slot.Some? ==>
      var item := slot.value;
      && item.hash % L1_SLOTS == i
      && match LastSet(history, item.hash)
         case None => false
         case Some(b) =>
           && Answers(item.entry, item.hash, b)
           && (b.expire == 0 <==> item.expireAt == 0) && item.expireAt <= b.expire
  }

  /** An arena record is that of the last Set of its hash. */
  ghost predicate RecordHolds(history: seq<StoreEvent>, h: nat, found: Option<Record>) {
    found.Some? ==>
      match LastSet(history, h)
      case None => false
      case Some(b) => IsRecordOf(found.value, h, b.entry, b.expire)
  }

  /** An event about h leaves what other slots hold as it was. */
  lemma SlotElsewhere(history: seq<StoreEvent>, e: StoreEvent, h: nat, i: nat, slot: Option<L1Entry>)
    requires SlotHolds(history, i, slot) && (slot.Some? ==> slot.value.hash != h)
    requires e == Deleted(h) || (e.Stored? && e.hash == h)
    ensures SlotHolds(history + [e], i, slot)
  {
    hide LastSet, Answers;
    if slot.Some? {
      LastSetAppend(history, e, slot.value.hash);
    }
  }

  lemma RecordElsewhere(history: seq<StoreEvent>, e: StoreEvent, h: nat, x: nat, found: Option<Record>)
    requires RecordHolds(history, x, found) && x != h
    requires e == Deleted(h) || (e.Stored? && e.hash == h)
    ensures RecordHolds(history + [e], x, found)
  {
    hide LastSet, IsRecordOf;
    LastSetAppend(history, e, x);
  }

  lemma SlotStored(history: seq<StoreEvent>, h: nat, stored: ResponseEntry, expire: nat, exp: nat)
    requires (expire == 0 <==> exp == 0) && exp <= expire
    ensures SlotHolds(history + [Stored(h, stored, expire)], h % L1_SLOTS, Some(L1Entry(h, exp, stored)))
  {
    hide LastSet;
    LastSetAppend(history, Stored(h, stored, expire), h);
  }

  lemma RecordStored(history: seq<StoreEvent>, h: nat, stored: ResponseEntry, expire: nat, rec: Record)
    requires IsRecordOf(rec, h, stored, expire)
    ensures RecordHolds(history + [Stored(h, stored, expire)], h, Some(rec))
  {
    hide LastSet, IsRecordOf;
    LastSetAppend(history, Stored(h, stored, expire), h);
  }

  lemma SlotIndex(history: seq<StoreEvent>, i: nat, slot: Option<L1Entry>)
    requires SlotHolds(history, i, slot)
    ensures slot.Some? ==> slot.value.hash % L1_SLOTS == i
  {
  }

  lemma EmptySlot(history: seq<StoreEvent>, i: nat)
    ensures SlotHolds(history, i, None)
  {
  }

  lemma NothingHolds(history: seq<StoreEvent>, h: nat)
    ensures RecordHolds(history, h, None)
  {
  }

  class TieredStore {
    const l1: array<Option<L1Entry>>
    const l2: ShardedStore
    ghost var history: seq<StoreEvent>

    ghost predicate Valid()
      reads this, l1, l2.shards
    {
      && l1.Length == L1_SLOTS
      && l2.Valid()
      && (forall i :: 0 <= i < L1_SLOTS ==> SlotHolds(history, i, l1[i]))
      && forall h: nat :: RecordHolds(history, h, l2.Found(h))
    }

    constructor (numShards: nat, maxCostBytes: nat)
      requires numShards > 0 && 2 * (maxCostBytes / numShards) < U32
      ensures Valid() && history == []
    {
      hide Answers, IsRecordOf, Sharded.ShardedStore.Valid;
      l1 := new Option<L1Entry>[L1_SLOTS](_ => None);
      l2 := new ShardedStore(numShards, maxCostBytes);
      history := [];
    }

    /** t1, t2 and t3 are the clock readings of the L1 check, the L2 read and the final check. */
    method Get(h: nat, t1: nat, t2: nat, t3: nat) returns (r: Option<ResponseEntry>)
      requires Valid() && t1 <= t2 <= t3
      modifies l1
      ensures Valid() && history == old(history)
      ensures r.Some? ==> LastSet(history, h).Some?
      ensures r.Some? ==> Answers(r.value, h, LastSet(history, h).value)
      ensures r.Some? ==> LastSet(history, h).value.expire == 0 || t1 <= LastSet(history, h).value.expire
      ensures r.Some? <==>
        || (var slot := old(l1[h % 256]);
            slot.Some? && slot.value.hash == h && (slot.value.expireAt == 0 || t1 <= slot.value.expireAt))
        || (l2.Found(h).Some? && (l2.Found(h).value.expire == 0 || t3 <= l2.Found(h).value.expire))
    {
      hide Answers, LastSet, IsEncoding, ImageOf, Sharded.ShardedStore.Valid;
      var slotIdx := h % L1_SLOTS;
      var slot := l1[slotIdx];
      assert SlotHolds(history, slotIdx, slot);
      if slot.Some? && slot.value.hash == h {
        if slot.value.expireAt == 0 || t1 <= slot.value.expireAt {
          return Some(slot.value.entry);
        }
      }

      assert RecordHolds(history, h, l2.Found(h));
      r := l2.GetByHash(h, t2);
      if r.None? {
        return;
      }
      var entry := r.value;
      ghost var rec := l2.Found(h).value;
      ImageStatus(rec);
      ghost var b := LastSet(history, h).value;
      assert Answers(entry, h, b) by { AnswersByRecord(entry, h, b, rec); }
      var exp := 0;
      if entry.expiresAt != 0 {
        exp := entry.expiresAt;
        if t3 > exp {
          return None;
        }
      }
      PromoteL1(slotIdx, h, entry, exp);
    }

    method PromoteL1(slotIdx: nat, h: nat, entry: ResponseEntry, exp: nat)
      requires Valid() && slotIdx < L1_SLOTS && SlotHolds(history, slotIdx, Some(L1Entry(h, exp, entry)))
      modifies l1
      ensures Valid()
      ensures l1[..] == old(l1[..])[slotIdx := Some(L1Entry(h, exp, entry))]
    {
      hide SlotHolds, RecordHolds, Sharded.ShardedStore.Valid;
      l1[slotIdx] := Some(L1Entry(h, exp, entry));
    }

    /** t1 and t2 are the clock readings of this call and of the one inside the L2 Set. */
    method Set(h: nat, entry: ResponseEntry, ttl: int, t1: nat, t2: nat)
      returns (stored: ResponseEntry, ok: bool)
      requires Valid() && t1 <= t2
      requires h < U64 && ExpiryOf(ttl, t2) <= I64_MAX && Addressable(entry)
      modifies this`history, l1, l2.ShardFor(h)
      ensures Valid()
      ensures IsStamped(stored, entry, ExpiryOf(ttl, t2))
      ensures stored.expiresAt == if ttl > 0 then t2 + ttl else entry.expiresAt
      ensures history == if ok then old(history) +
        [Stored(h, stored, if ttl > 0 then t2 + ttl else 0)] else old(history)
      ensures ok ==> l1[h % 256] == Some(L1Entry(h, if ttl > 0 then t1 + ttl else 0, stored))
      ensures !ok ==> l1[..] == old(l1[..]) && forall x: nat :: l2.Found(x) == old(l2.Found(x))
    {
      hide SlotHolds, RecordHolds, IsEncoding, IsPersisted, IsRecordOf, Sharded.ShardedStore.Valid;
      hide Addressable, Accepts, Overflows;
      var exp := 0;
      stored := entry;
      if ttl > 0 {
        stored := stored.(expiresAt := t1 + ttl);
        exp := t1 + ttl;
      }
      ghost var rec;
      SameAddressable(stored, entry);
      stored, ok, rec := l2.SetByHash(h, stored, ttl, t2);
      if !ok {
        assert forall x: nat :: l2.Found(x) == old(l2.Found(x));
        return;
      }
      ghost var expire := ExpiryOf(ttl, t2);
      ghost var e := Stored(h, stored, expire);
      l1[h % L1_SLOTS] := Some(L1Entry(h, exp, stored));
      SlotStored(history, h, stored, expire, exp);
      forall i | 0 <= i < L1_SLOTS && i != h % L1_SLOTS
        ensures SlotHolds(history + [e], i, l1[i])
      {
        SlotIndex(history, i, l1[i]);
        SlotElsewhere(history, e, h, i, l1[i]);
      }
      forall x: nat
        ensures RecordHolds(history + [e], x, l2.Found(x))
      {
        if x == h {
          RecordStored(history, h, stored, expire, rec);
        } else {
          NothingHolds(history, x);
          RecordElsewhere(history, e, h, x, l2.Found(x));
        }
      }
      history := history + [e];
    }

    method Del(h: nat)
      requires Valid()
      modifies this`history, l1, l2.ShardFor(h)
      ensures Valid() && history == old(history) + [Deleted(h)]
      ensures l2.Found(h) == None && forall x :: x != h ==> l2.Found(x) == old(l2.Found(x))
      ensures forall i :: 0 <= i < 256 ==>
        l1[i] == if old(l1[i]).Some? && old(l1[i]).value.hash == h && i == h % 256 then None else old(l1[i])
    {
      hide SlotHolds, RecordHolds, Sharded.ShardedStore.Valid;
      var slotIdx := h % L1_SLOTS;
      if l1[slotIdx].Some? && l1[slotIdx].value.hash == h {
        l1[slotIdx] := None;
        EmptySlot(history, slotIdx);
      }
      l2.Del(h);
      ghost var e := Deleted(h);
      forall i | 0 <= i < L1_SLOTS
        ensures SlotHolds(history + [e], i, l1[i])
      {
        SlotIndex(history, i, l1[i]);
        SlotElsewhere(history, e, h, i, l1[i]);
      }
      forall x: nat
        ensures RecordHolds(history + [e], x, l2.Found(x))
      {
        if x == h {
          NothingHolds(history + [e], x);
        } else {
          RecordElsewhere(history, e, h, x, l2.Found(x));
        }
      }
      history := history + [e];
    }

    method Close()
      requires Valid()
      modifies this`history, l1, l2.shards
      ensures Valid() && history == old(history) + [AllClosed]
      ensures forall i :: 0 <= i < L1_SLOTS ==> l1[i] == None
      ensures forall h: nat :: l2.Found(h) == None
    {
      hide Answers, LastSet, IsRecordOf, Sharded.ShardedStore.Valid;
      for i := 0 to L1_SLOTS
        invariant l2.Valid() && history == old(history)
        invariant forall j :: 0 <= j < i ==> l1[j] == None
      {
        l1[i] := None;
      }
      l2.Close();
      history := history + [AllClosed];
    }
  }

  lemma SameAddressable(a: ResponseEntry, b: ResponseEntry)
    requires a == b.(expiresAt := a.expiresAt)
    ensures Addressable(a) == Addressable(b)
  {
  }

  lemma AnswersByRecord(r: ResponseEntry, h: nat, b: Binding, rec: Record)
    requires IsRecordOf(rec, h, b.entry, b.expire) && ReadsBack(r, ImageOf(rec))
    ensures Answers(r, h, b)
  {
  }
}
