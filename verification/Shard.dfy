/** One shard of the ShardedStore: the byte arena behind its lock, and the store over all shards. */
module Shard {
  import opened Bytes
  import opened HeaderCodec
  import opened Vary
  import opened Arena

  /** What the fixed-width fields of a record can express. */
  predicate EntryFits(e: ResponseEntry) {
    0 <= e.status < U16 && |e.contentType| < U16 && Fits(e.header)
  }

  /** However the header map is enumerated, the record is shorter than 4 GiB. */
  ghost predicate Addressable(e: ResponseEntry) {
    forall h', b :: IsPersisted(h', e.header, e.vary) && IsEncoding(b, h') ==>
      ENTRY_HEADER_SIZE + |e.contentType| + |b| + |e.body| < U32
  }

  /** For an entry without headers that is just what it takes. */
  lemma AddressablePlain(e: ResponseEntry)
    requires e.header == map[] && e.vary == map[]
    ensures Addressable(e) <==> 28 + |e.contentType| + |e.body| < 0x1_0000_0000
  {
    var none: Header := map[];
    assert IsPersisted(none, e.header, e.vary) && IsEncoding([], none);
    forall h', b | IsPersisted(h', e.header, e.vary) && IsEncoding(b, h')
      ensures b == []
    {
      assert h'.Keys == {};
      assert h' == map[];
    }
  }

  function ExpiryOf(ttl: int, now: nat): nat {
    if ttl > 0 then now + ttl else 0
  }

  /** The entry as a Set leaves it: expiry stamped and recorded Vary persisted in the header. */
  ghost predicate IsStamped(stored: ResponseEntry, e: ResponseEntry, expire: nat) {
    && stored == e.(expiresAt := if expire > 0 then expire else e.expiresAt, header := stored.header)
    && IsPersisted(stored.header, e.header, e.vary)
  }

  ghost predicate IsRecordOf(rec: Record, h: nat, stored: ResponseEntry, expire: nat) {
    && rec == Record(h, expire, stored.status, stored.contentType, rec.hdr, stored.body)
    && IsEncoding(rec.hdr, stored.header)
  }

  ghost predicate ReadsBack(r: ResponseEntry, img: Image) {
    && r.status == img.status && r.contentType == img.ct && r.body == img.body && r.expiresAt == img.expire
    && r.header == Decode(img.hdr)
    && IsRecovered(r.vary, r.header)
  }

  /** Same response: what a client can see of an entry, apart from its expiry. */
  predicate SameResponse(a: ResponseEntry, b: ResponseEntry) {
    a.status == b.status && a.contentType == b.contentType && a.header == b.header && a.body == b.body
  }

  lemma ImageExact(rec: Record)
    ensures |rec.ct| < U16 ==> ImageOf(rec) == Image(rec.expire, rec.status % U16, rec.ct, rec.hdr, rec.body)
    ensures ImageOf(rec).ct == rec.ct ==> |rec.ct| < U16
  {
    var p := Payload(rec);
    if |rec.ct| < U16 {
      var c, d := |rec.ct|, |rec.ct| + |rec.hdr|;
      assert p[..c] == rec.ct;
      assert p[c..d] == rec.hdr;
      assert p[d..d + |rec.body|] == rec.body;
    }
  }

  /** The entry read back from the arena is the stored response exactly when the fields can express it. */
  lemma ReadBackExact(rec: Record, h: nat, stored: ResponseEntry, expire: nat, r: ResponseEntry)
    requires IsRecordOf(rec, h, stored, expire) && ReadsBack(r, ImageOf(rec))
    ensures SameResponse(r, stored) <==> EntryFits(stored)
  {
    hide Payload, ImageOf, Decode, Fits, IsEncoding, IsRecovered;
    ImageExact(rec);
    RoundTrip(stored.header, rec.hdr);
    assert ImageOf(rec).status == rec.status % U16 by { ImageStatus(rec); }
  }

  lemma ImageStatus(rec: Record)
    ensures ImageOf(rec).status == rec.status % U16 && ImageOf(rec).expire == rec.expire
  {
  }

  /** uint32(used) + uint32(size) > maxSize, in wrapping 32-bit arithmetic. */
  predicate NoRoom(used: nat, size: nat, maxSize: nat) {
    (used % U32 + size % U32) % U32 > maxSize
  }

  lemma WrapOnce(x: nat)
    requires x < 2 * U32
    ensures x % U32 == if x < U32 then x else x - U32
  {
  }

  lemma NoRoomAt(used: nat, size: nat, maxSize: nat)
    requires used <= maxSize < U32 && size <= maxSize
    ensures NoRoom(used, size, maxSize) <==>
      (if used + size < U32 then used + size else used + size - U32) > maxSize
  {
    WrapOnce(used);
    WrapOnce(size);
    WrapOnce(used + size);
  }

  /** The wrapped capacity test is the intended one for every fill level exactly below 2 GiB. */
  lemma CapacityTestExact(maxSize: nat)
    requires maxSize < U32
    ensures (forall used: nat, size: nat :: used <= maxSize && size <= maxSize ==>
              NoRoom(used, size, maxSize) == (used + size > maxSize))
       <==> 2 * maxSize < U32
  {
    hide NoRoom;
    forall used: nat, size: nat | used <= maxSize && size <= maxSize && 2 * maxSize < U32
      ensures NoRoom(used, size, maxSize) == (used + size > maxSize)
    {
      NoRoomAt(used, size, maxSize);
    }
    NoRoomAt(maxSize, maxSize, maxSize);
  }

  lemma UintAt(ring: Bytes, at: nat, w: nat)
    requires at + w <= |ring|
    ensures Uint(ring[at..], w) == Some((UnLE(ring[at..at + w]), ring[at + w..]))
  {
    hide UnLE, Pow256;
    assert ring[at..][..w] == ring[at..at + w];
    assert ring[at..][w..] == ring[at + w..];
  }

  /** Reading by offsets into the ring is reading the record at the front of what follows the offset. */
  lemma ParseAt(ring: Bytes, at: nat, h: nat, now: nat)
    requires at + ENTRY_HEADER_SIZE <= |ring|
    ensures var raw := UnLE(ring[at..at + 8]);
      var expire := if raw <= I64_MAX then raw else 0;
      Parse(ring[at..], h, now) ==
        if UnLE(ring[at + 8..at + 16]) != h || Expired(expire, now) then None
        else ReadPayload(ring[at + 28..], expire, UnLE(ring[at + 16..at + 18]), UnLE(ring[at + 18..at + 20]),
                         UnLE(ring[at + 20..at + 24]), UnLE(ring[at + 24..at + 28]))
  {
    hide UnLE, Uint, ReadPayload;
    UintAt(ring, at, 8);
    UintAt(ring, at + 8, 8);
    UintAt(ring, at + 16, 2);
    UintAt(ring, at + 18, 2);
    UintAt(ring, at + 20, 4);
    UintAt(ring, at + 24, 4);
  }

  lemma SliceFrom(s: Bytes, at: nat, i: nat, j: nat)
    requires at <= |s| && i <= j && at + j <= |s|
    ensures s[at..][i..j] == s[at + i..at + j]
  {
  }

  /** The fixed-width fields in front of each record. */
  function FixedPart(rec: Record): Bytes {
    LE(rec.expire, 8) + LE(rec.hash, 8) + LE(rec.status % U16, 2) + LE(|rec.ct| % U16, 2)
      + LE(|rec.hdr| % U32, 4) + LE(|rec.body| % U32, 4)
  }

  lemma SerializeParts(ring: Bytes, rec: Record)
    ensures ring + FixedPart(rec) + rec.ct + rec.hdr + rec.body == ring + Serialize(rec)
  {
    hide LE;
    var p := Payload(rec);
    var a, b, c := LE(rec.expire, 8), LE(rec.hash, 8), LE(rec.status % U16, 2);
    var d, e, f := LE(|rec.ct| % U16, 2), LE(|rec.hdr| % U32, 4), LE(|rec.body| % U32, 4);
    SixParts(a, b, c, d, e, f, p);
    assert ring + FixedPart(rec) + rec.ct + rec.hdr + rec.body == ring + (FixedPart(rec) + p);
  }

  lemma SixParts(a: Bytes, b: Bytes, c: Bytes, d: Bytes, e: Bytes, f: Bytes, p: Bytes)
    ensures a + b + c + d + e + f + p == a + (b + (c + (d + (e + (f + p)))))
  {
    Assoc(a + b + c + d + e, f, p);
    Assoc(a + b + c + d, e, f + p);
    Assoc(a + b + c, d, e + (f + p));
    Assoc(a + b, c, d + (e + (f + p)));
  }

  /** The ring is exactly the records since the last reset, and each offset the start of the latest. */
  ghost predicate Layout(ring: Bytes, entries: map<nat, nat>, a: Arena) {
    && ring == Flatten(a.log)
    && entries.Keys == a.index.Keys
    && forall h :: h in entries ==> a.index[h] < |a.log| && entries[h] == Offset(a.log, a.index[h])
  }

  lemma LayoutAppend(ring: Bytes, entries: map<nat, nat>, a: Arena, rec: Record)
    requires Layout(ring, entries, a)
    ensures Layout(ring + Serialize(rec), entries[rec.hash := |ring|],
                   Arena(a.log + [rec], a.index[rec.hash := |a.log|], false))
  {
    hide Flatten, Serialize;
    var log := a.log + [rec];
    FlattenAppend(a.log, rec);
    forall i | 0 <= i <= |a.log|
      ensures log[..i] == a.log[..i]
    {
    }
    assert a.log[..|a.log|] == a.log;
  }

  lemma RingLength(ring: Bytes, entries: map<nat, nat>, a: Arena)
    requires Layout(ring, entries, a)
    ensures |ring| == Used(a)
  {
  }

  lemma ClosedIsEmpty(ring: Bytes, entries: map<nat, nat>, a: Arena)
    requires Layout(ring, entries, a) && Consistent(a) && a.closed
    ensures entries == map[]
  {
  }

  lemma LayoutEmpty(closed: bool)
    ensures Layout([], map[], Arena([], map[], closed))
  {
  }

  lemma LayoutRemove(ring: Bytes, entries: map<nat, nat>, a: Arena, h: nat)
    requires Layout(ring, entries, a)
    ensures Layout(ring, entries - {h}, Remove(a, h))
  {
    hide Flatten;
  }

  class CacheShard {
    var entries: map<nat, nat>
    var ring: Bytes
    var closed: bool
    const maxSize: nat
    ghost var arena: Arena

    ghost predicate Valid()
      reads this
    {
      && 2 * maxSize < U32
      && Consistent(arena)
      && closed == arena.closed
      && Layout(ring, entries, arena) && |ring| <= maxSize
    }

    constructor (maxSize: nat)
      requires 2 * maxSize < U32
      ensures Valid() && arena == EMPTY && this.maxSize == maxSize
    {
      this.entries, this.ring, this.closed := map[], [], false;
      this.maxSize := maxSize;
      this.arena := EMPTY;
      LayoutEmpty(false);
    }

    method GetByHash(h: nat, now: nat) returns (r: Option<ResponseEntry>)
      requires Valid()
      ensures match Find(arena, h)
        case None => r == None
        case Some(rec) =>
          if rec.expire > 0 && now > rec.expire then r == None
          else r.Some? && ReadsBack(r.value, ImageOf(rec))
    {
      hide UnLE, Parse, Serialize, Flatten, ImageOf, Encodable;
      if closed || h !in entries {
        return None;
      }
      var offset := entries[h];
      ghost var rec := arena.log[arena.index[h]];
      ghost var tail := FlattenAt(arena.log, arena.index[h]);
      ParseSerialized(rec, tail, h, now);
      SerializeSize(rec);
      if offset + ENTRY_HEADER_SIZE > |ring| {
        assert false;
      }
      ParseAt(ring, offset, h, now);

      var rawExpire := UnLE(ring[offset..offset + 8]);
      var expireNano := if rawExpire <= I64_MAX then rawExpire else 0;
      var storedHash := UnLE(ring[offset + 8..offset + 16]);
      var statusCode := UnLE(ring[offset + 16..offset + 18]);
      var ctLen := UnLE(ring[offset + 18..offset + 20]);
      var hdrLen := UnLE(ring[offset + 20..offset + 24]);
      var bodyLen := UnLE(ring[offset + 24..offset + 28]);
      if storedHash != h || (expireNano > 0 && now > expireNano) {
        return None;
      }
      var cursor := offset + ENTRY_HEADER_SIZE;
      if cursor + ctLen + hdrLen + bodyLen > |ring| {
        return None;
      }
      ghost var start := cursor;
      var contentType := ring[cursor..cursor + ctLen];
      cursor := cursor + ctLen;
      var hdrBytes := ring[cursor..cursor + hdrLen];
      cursor := cursor + hdrLen;
      var body := ring[cursor..cursor + bodyLen];
      SliceFrom(ring, start, 0, ctLen);
      SliceFrom(ring, start, ctLen, ctLen + hdrLen);
      SliceFrom(ring, start, ctLen + hdrLen, ctLen + hdrLen + bodyLen);
      assert ImageOf(rec) == Image(expireNano, statusCode, contentType, hdrBytes, body);
      ImageStatus(rec);
      var hdr := DecodeHeaders(hdrBytes);
      var vary := RecoverVary(hdr);
      r := Some(ResponseEntry(statusCode, contentType, hdr, body, expireNano, vary));
    }

    /** The caller's entry is stamped in any case; stored is that entry after the call. */
    method SetByHash(h: nat, entry: ResponseEntry, ttl: int, now: nat)
      returns (stored: ResponseEntry, ok: bool, ghost rec: Record)
      requires Valid() && h < U64 && ExpiryOf(ttl, now) <= I64_MAX && Addressable(entry)
      modifies this
      ensures Valid()
      ensures IsStamped(stored, entry, ExpiryOf(ttl, now)) && IsRecordOf(rec, h, stored, ExpiryOf(ttl, now))
      ensures rec.expire == if ttl > 0 then now + ttl else 0
      ensures stored.expiresAt == if ttl > 0 then now + ttl else entry.expiresAt
      ensures ok == Accepts(old(arena), rec, maxSize)
      ensures arena == Put(old(arena), rec, maxSize)
      ensures if ok then Find(arena, rec.hash) == Some(rec) else arena == old(arena)
      ensures forall x :: x != rec.hash ==>
        Find(arena, x) == if ok && Overflows(old(arena), rec, maxSize) then None else old(Find(arena, x))
    {
      hide LE, Flatten, IsEncoding, IsPersisted;
      var expireNano := 0;
      stored := entry;
      if ttl > 0 {
        expireNano := now + ttl;
        stored := stored.(expiresAt := expireNano);
      }
      var h' := PersistVary(stored.header, stored.vary);
      stored := stored.(header := h');
      var hdrBytes := EncodeHeaders(stored.header);
      var written := Record(h, expireNano, stored.status, stored.contentType, hdrBytes, stored.body);
      rec := written;
      ok := Append(written);
    }

    /** The locked part of SetByHash, on the fields of the record to write. */
    method Append(rec: Record) returns (ok: bool)
      requires Valid() && Encodable(rec) && Size(rec) < U32
      modifies this
      ensures Valid()
      ensures ok == Accepts(old(arena), rec, maxSize)
      ensures arena == Put(old(arena), rec, maxSize)
      ensures if ok then Find(arena, rec.hash) == Some(rec) else arena == old(arena)
      ensures forall x :: x != rec.hash ==>
        Find(arena, x) == if ok && Overflows(old(arena), rec, maxSize) then None else old(Find(arena, x))
    {
      hide LE, Flatten, Serialize, Encodable, Layout, Consistent, FixedPart;
      var totalEntryLen := Size(rec);
      RingLength(ring, entries, arena);
      PutKeeps(arena, rec, maxSize);
      CapacityTestExact(maxSize);
      hide NoRoom;
      if closed {
        return false;
      }
      WrapOnce(totalEntryLen);
      if totalEntryLen % U32 > maxSize {
        return false;
      }
      ghost var before := arena;
      if NoRoom(|ring|, totalEntryLen, maxSize) {
        ring, entries := [], map[];
        arena := EMPTY;
        LayoutEmpty(false);
      }
      var offset := |ring|;
      LayoutAppend(ring, entries, arena, rec);
      SerializeParts(ring, rec);
      ring := ring + FixedPart(rec);
      ring := ring + rec.ct;
      ring := ring + rec.hdr;
      ring := ring + rec.body;
      entries := entries[rec.hash := offset];
      arena := Arena(arena.log + [rec], arena.index[rec.hash := |arena.log|], false);
      assert arena == Put(before, rec, maxSize);
      RingLength(ring, entries, arena);
      ok := true;
    }

    method Del(h: nat)
      requires Valid()
      modifies this
      ensures Valid() && arena == Remove(old(arena), h)
    {
      hide Flatten, Encodable, Layout, Consistent;
      RemoveKeeps(arena, h);
      LayoutRemove(ring, entries, arena, h);
      if closed {
        ClosedIsEmpty(ring, entries, arena);
        assert entries - {h} == entries;
      } else {
        entries := entries - {h};
      }
      arena := Remove(arena, h);
    }

    method Close()
      requires Valid()
      modifies this
      ensures Valid() && arena == CLOSED
    {
      closed, ring, entries := true, [], map[];
      arena := CLOSED;
      LayoutEmpty(true);
    }
  }
}
