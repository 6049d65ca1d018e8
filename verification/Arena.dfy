/**
 The byte arena of one shard: records appended to a ring, found through a hash-to-offset
 index, and dropped wholesale when the next record does not fit.
 */
module Arena {
  import opened Bytes
  import opened HeaderCodec
  import opened Vary

  const ENTRY_HEADER_SIZE: nat := 28

  /** Times are nanoseconds; expiresAt 0 is the zero time. */
  datatype ResponseEntry = ResponseEntry(
    status: int, contentType: Bytes, header: Header, body: Bytes, expiresAt: nat, vary: VaryMap)

  // ---- The binary record ----

  datatype Record = Record(hash: nat, expire: nat, status: int, ct: Bytes, hdr: Bytes, body: Bytes)

  /** The fields a read finds; they are those of the record when its lengths fit. */
  datatype Image = Image(expire: nat, status: nat, ct: Bytes, hdr: Bytes, body: Bytes)

  predicate Encodable(rec: Record) {
    rec.hash < U64 && rec.expire <= I64_MAX && |rec.hdr| < U32 && |rec.body| < U32
  }

  function Payload(rec: Record): Bytes {
    rec.ct + rec.hdr + rec.body
  }

  function Serialize(rec: Record): Bytes {
    LE(rec.expire, 8) + (LE(rec.hash, 8) + (LE(rec.status % U16, 2) + (LE(|rec.ct| % U16, 2)
      + (LE(|rec.hdr| % U32, 4) + (LE(|rec.body| % U32, 4) + Payload(rec))))))
  }

  function Size(rec: Record): nat {
    ENTRY_HEADER_SIZE + |rec.ct| + |rec.hdr| + |rec.body|
  }

  lemma SerializeSize(rec: Record)
    ensures |Serialize(rec)| == Size(rec)
  {
    hide LE;
  }

  predicate Expired(expire: nat, now: nat) {
    0 < expire && now > expire
  }

  function ReadPayload(s: Bytes, expire: nat, status: nat, ctLen: nat, hdrLen: nat, bodyLen: nat): Option<Image> {
    if ctLen + hdrLen + bodyLen > |s| then None
    else Some(Image(expire, status, s[..ctLen], s[ctLen..ctLen + hdrLen], s[ctLen + hdrLen..ctLen + hdrLen + bodyLen]))
  }

  /** Reading a record for hash h at the front of s: a miss, or the fields found. */
  function Parse(s: Bytes, h: nat, now: nat): Option<Image> {
    if |s| < ENTRY_HEADER_SIZE then None else
      var (rawExpire, s1) := Uint(s, 8).value;
      var (storedHash, s2) := Uint(s1, 8).value;
      var (status, s3) := Uint(s2, 2).value;
      var (ctLen, s4) := Uint(s3, 2).value;
      var (hdrLen, s5) := Uint(s4, 4).value;
      var (bodyLen, s6) := Uint(s5, 4).value;
      var expire := if rawExpire <= I64_MAX then rawExpire else 0; // negative as an int64: never expires
      if storedHash != h || Expired(expire, now) then None
      else ReadPayload(s6, expire, status, ctLen, hdrLen, bodyLen)
  }

  /** What a read of the record yields: a content type of 65536 bytes or more is cut short. */
  function ImageOf(rec: Record): Image {
    var c := |rec.ct| % U16;
    var p := Payload(rec);
    Image(rec.expire, rec.status % U16, p[..c], p[c..c + |rec.hdr|], p[c + |rec.hdr|..c + |rec.hdr| + |rec.body|])
  }

  /** Reading at a record sees that record and nothing behind it. */
  lemma ParseSerialized(rec: Record, tail: Bytes, h: nat, now: nat)
    requires Encodable(rec)
    ensures Parse(Serialize(rec) + tail, h, now) ==
      if rec.hash != h || Expired(rec.expire, now) then None else Some(ImageOf(rec))
  {
    hide LE, Uint, Payload, ReadPayload;
    var p := Payload(rec) + tail;
    var s5 := LE(|rec.body| % U32, 4) + p;
    var s4 := LE(|rec.hdr| % U32, 4) + s5;
    var s3 := LE(|rec.ct| % U16, 2) + s4;
    var s2 := LE(rec.status % U16, 2) + s3;
    var s1 := LE(rec.hash, 8) + s2;
    Reassociate(rec, tail);
    Widths();
    UintFront(rec.expire, 8, s1);
    UintFront(rec.hash, 8, s2);
    UintFront(rec.status % U16, 2, s3);
    UintFront(|rec.ct| % U16, 2, s4);
    UintFront(|rec.hdr|, 4, s5);
    UintFront(|rec.body|, 4, p);
    ReadPayloadFront(rec, tail);
  }

  lemma Reassociate(rec: Record, tail: Bytes)
    ensures Serialize(rec) + tail ==
      LE(rec.expire, 8) + (LE(rec.hash, 8) + (LE(rec.status % U16, 2) + (LE(|rec.ct| % U16, 2)
        + (LE(|rec.hdr| % U32, 4) + (LE(|rec.body| % U32, 4) + (Payload(rec) + tail))))))
  {
    hide LE, Payload;
    var p := Payload(rec);
    var s5, s4 := LE(|rec.body| % U32, 4), LE(|rec.hdr| % U32, 4);
    var s3, s2 := LE(|rec.ct| % U16, 2), LE(rec.status % U16, 2);
    var s1, s0 := LE(rec.hash, 8), LE(rec.expire, 8);
    Assoc(s5, p, tail);
    Assoc(s4, s5 + p, tail);
    Assoc(s3, s4 + (s5 + p), tail);
    Assoc(s2, s3 + (s4 + (s5 + p)), tail);
    Assoc(s1, s2 + (s3 + (s4 + (s5 + p))), tail);
    Assoc(s0, s1 + (s2 + (s3 + (s4 + (s5 + p)))), tail);
  }

  lemma ReadPayloadFront(rec: Record, tail: Bytes)
    ensures ReadPayload(Payload(rec) + tail, rec.expire, rec.status % U16, |rec.ct| % U16, |rec.hdr|, |rec.body|)
         == Some(ImageOf(rec))
  {
    var p, c := Payload(rec), |rec.ct| % U16;
    assert c <= |rec.ct|;
    var d := c + |rec.hdr|;
    assert (p + tail)[..c] == p[..c];
    assert (p + tail)[c..d] == p[c..d];
    assert (p + tail)[d..d + |rec.body|] == p[d..d + |rec.body|];
  }

  // ---- The abstract arena: the records since the last reset, and the latest one of each hash ----

  datatype Arena = Arena(log: seq<Record>, index: map<nat, nat>, closed: bool)

  const EMPTY := Arena([], map[], false)

  function Flatten(log: seq<Record>): Bytes {
    if log == [] then [] else Flatten(log[..|log| - 1]) + Serialize(log[|log| - 1])
  }

  function Offset(log: seq<Record>, i: nat): nat
    requires i <= |log|
  {
    |Flatten(log[..i])|
  }

  ghost predicate Consistent(a: Arena) {
    && (a.closed ==> a == CLOSED)
    && (forall i :: 0 <= i < |a.log| ==> Encodable(a.log[i]))
    && (forall h :: h in a.index ==> a.index[h] < |a.log| && a.log[a.index[h]].hash == h)
    && (forall h, j :: h in a.index && a.index[h] < j < |a.log| ==> a.log[j].hash != h)
  }

  function Used(a: Arena): nat {
    |Flatten(a.log)|
  }

  predicate Accepts(a: Arena, rec: Record, maxSize: nat) {
    !a.closed && Size(rec) <= maxSize
  }

  predicate Overflows(a: Arena, rec: Record, maxSize: nat) {
    Used(a) + Size(rec) > maxSize
  }

  /** A record fits a shard if it is open and not smaller than the record, and its tail if that has the room. */
  lemma FitsIs(a: Arena, rec: Record, maxSize: nat)
    ensures Accepts(a, rec, maxSize) <==> !a.closed && 28 + |rec.ct| + |rec.hdr| + |rec.body| <= maxSize
    ensures Overflows(a, rec, maxSize) <==> |Flatten(a.log)| + 28 + |rec.ct| + |rec.hdr| + |rec.body| > maxSize
    ensures Used(a) == |Flatten(a.log)|
  {
    hide Flatten;
  }

  /** How many bytes the records since the last reset take: 28 each, and their content types, headers and bodies. */
  function Bytes28(log: seq<Record>): nat {
    if log == [] then 0
    else
      var r := log[|log| - 1];
      Bytes28(log[..|log| - 1]) + 28 + |r.ct| + |r.hdr| + |r.body|
  }

  lemma {:induction false} UsedIs(log: seq<Record>)
    ensures |Flatten(log)| == Bytes28(log)
    decreases |log|
  {
    hide Serialize;
    if log != [] {
      UsedIs(log[..|log| - 1]);
      SerializeSize(log[|log| - 1]);
    }
  }

  /** Where the fields of a record are. */
  lemma FieldsAt(rec: Record)
    ensures var s := Serialize(rec);
      && |s| >= 28 && s[0..8] == LE(rec.expire, 8) && s[8..16] == LE(rec.hash, 8)
      && s[16..18] == LE(rec.status % U16, 2) && s[18..20] == LE(|rec.ct| % U16, 2)
      && s[20..24] == LE(|rec.hdr| % U32, 4) && s[24..28] == LE(|rec.body| % U32, 4)
      && s[28..] == rec.ct + rec.hdr + rec.body
  {
    hide LE;
  }

  function Put(a: Arena, rec: Record, maxSize: nat): Arena {
    if !Accepts(a, rec, maxSize) then a
    else if Overflows(a, rec, maxSize) then Arena([rec], map[rec.hash := 0], false)
    else Arena(a.log + [rec], a.index[rec.hash := |a.log|], false)
  }

  function Remove(a: Arena, h: nat): Arena {
    a.(index := a.index - {h})
  }

  const CLOSED := Arena([], map[], true)

  function Find(a: Arena, h: nat): (r: Option<Record>)
    requires Consistent(a)
    ensures r.Some? ==> r.value.hash == h && r.value in a.log
  {
    if h in a.index then Some(a.log[a.index[h]]) else None
  }

  lemma FlattenAppend(log: seq<Record>, rec: Record)
    ensures Flatten(log + [rec]) == Flatten(log) + Serialize(rec)
  {
    assert (log + [rec])[..|log|] == log;
  }

  lemma FlattenOne(rec: Record)
    ensures Flatten([rec]) == Serialize(rec) && Flatten([]) == []
  {
    hide Serialize;
    assert [] + [rec] == [rec];
    FlattenAppend([], rec);
  }

  /** The bytes from a record's offset on begin with that record. */
  lemma {:induction false} FlattenAt(log: seq<Record>, i: nat) returns (tail: Bytes)
    requires i < |log|
    ensures Offset(log, i) <= |Flatten(log)|
    ensures Flatten(log)[Offset(log, i)..] == Serialize(log[i]) + tail
    decreases |log|
  {
    hide Serialize;
    var last := |log| - 1;
    var front := Flatten(log[..last]);
    if i == last {
      tail := [];
      assert Flatten(log)[|front|..] == Serialize(log[last]) + [];
    } else {
      var t := FlattenAt(log[..last], i);
      assert log[..last][..i] == log[..i];
      tail := t + Serialize(log[last]);
      var off := Offset(log, i);
      assert Flatten(log)[off..] == front[off..] + Serialize(log[last]);
      Assoc(Serialize(log[i]), t, Serialize(log[last]));
    }
  }

  // ---- Every operation keeps the invariant ----

  lemma PutKeeps(a: Arena, rec: Record, maxSize: nat)
    requires Consistent(a) && Encodable(rec) && Used(a) <= maxSize
    ensures Consistent(Put(a, rec, maxSize)) && Used(Put(a, rec, maxSize)) <= maxSize
    ensures Accepts(a, rec, maxSize) ==> Find(Put(a, rec, maxSize), rec.hash) == Some(rec)
    ensures forall h :: h != rec.hash && !Overflows(a, rec, maxSize) ==> Find(Put(a, rec, maxSize), h) == Find(a, h)
    ensures forall h :: h != rec.hash && Accepts(a, rec, maxSize) && Overflows(a, rec, maxSize)
              ==> Find(Put(a, rec, maxSize), h) == None
  {
    hide Flatten, Serialize, Encodable;
    SerializeSize(rec);
    FlattenOne(rec);
    FlattenAppend(a.log, rec);
  }

  lemma RemoveKeeps(a: Arena, h: nat)
    requires Consistent(a)
    ensures Consistent(Remove(a, h)) && Used(Remove(a, h)) == Used(a)
    ensures Find(Remove(a, h), h) == None
    ensures forall x :: x != h ==> Find(Remove(a, h), x) == Find(a, x)
  {
    hide Flatten, Encodable;
  }

  // ---- Whole runs: how long a record stays readable ----

  datatype Event = Set(rec: Record) | Del(hash: nat) | Close

  function Apply(a: Arena, e: Event, maxSize: nat): Arena {
    match e
    case Set(rec) => Put(a, rec, maxSize)
    case Del(h) => Remove(a, h)
    case Close => CLOSED
  }

  function Run(events: seq<Event>, maxSize: nat): Arena {
    if events == [] then EMPTY
    else Apply(Run(events[..|events| - 1], maxSize), events[|events| - 1], maxSize)
  }

  ghost predicate AllEncodable(events: seq<Event>) {
    forall i :: 0 <= i < |events| && events[i].Set? ==> Encodable(events[i].rec)
  }

  /** Event i is a successful Set of rec. */
  predicate Stores(events: seq<Event>, i: nat, rec: Record, maxSize: nat)
    requires i < |events|
  {
    events[i] == Set(rec) && Accepts(Run(events[..i], maxSize), rec, maxSize)
  }

  /** Event j ends what was readable under h: its own Set or Del, Close, or a Set that does not fit. */
  predicate Ends(events: seq<Event>, j: nat, h: nat, maxSize: nat)
    requires j < |events|
  {
    match events[j]
    case Close => true
    case Del(x) => x == h
    case Set(rec) =>
      var a := Run(events[..j], maxSize);
      Accepts(a, rec, maxSize) && (rec.hash == h || Overflows(a, rec, maxSize))
  }

  /** The record readable under h was stored by event i and nothing since has ended it. */
  ghost predicate StoredAndKept(events: seq<Event>, i: nat, h: nat, rec: Record, maxSize: nat) {
    && i < |events| && rec.hash == h && Stores(events, i, rec, maxSize)
    && forall j :: i < j < |events| ==> !Ends(events, j, h, maxSize)
  }

  lemma {:induction false} RunConsistent(events: seq<Event>, maxSize: nat)
    requires AllEncodable(events)
    ensures Consistent(Run(events, maxSize)) && Used(Run(events, maxSize)) <= maxSize
  {
    hide Flatten, Encodable, Accepts, Overflows, Put;
    FlattenNothing();
    if events != [] {
      var last := |events| - 1;
      var a := Run(events[..last], maxSize);
      RunConsistent(events[..last], maxSize);
      match events[last] {
        case Set(rec) => PutKeeps(a, rec, maxSize);
        case Del(h) => RemoveKeeps(a, h);
        case Close =>
      }
    }
  }

  lemma FlattenNothing()
    ensures Flatten([]) == []
  {
  }

  /** Appending an event keeps the record, stores it, or ends it. */
  lemma LastEvent(events: seq<Event>, h: nat, rec: Record, maxSize: nat)
    requires events != [] && AllEncodable(events)
    requires Consistent(Run(events[..|events| - 1], maxSize)) && Used(Run(events[..|events| - 1], maxSize)) <= maxSize
    ensures var last := |events| - 1;
      var a, a' := Run(events[..last], maxSize), Run(events, maxSize);
      && Consistent(a')
      && (Find(a', h) == Some(rec) <==>
            || (rec.hash == h && Stores(events, last, rec, maxSize))
            || (Find(a, h) == Some(rec) && !Ends(events, last, h, maxSize)))
  {
    hide Flatten, Encodable, Accepts, Overflows, Put, Run, Consistent, Find;
    var last := |events| - 1;
    var a := Run(events[..last], maxSize);
    assert Run(events, maxSize) == Apply(a, events[last], maxSize) by { RunStep(events, maxSize); }
    match events[last] {
      case Set(r) => PutKeeps(a, r, maxSize); PutRejects(a, r, maxSize);
      case Del(x) => RemoveKeeps(a, x);
      case Close => NothingFound(h);
    }
  }

  lemma RunStep(events: seq<Event>, maxSize: nat)
    requires events != []
    ensures Run(events, maxSize) == Apply(Run(events[..|events| - 1], maxSize), events[|events| - 1], maxSize)
  {
    hide Apply;
  }

  lemma PutRejects(a: Arena, rec: Record, maxSize: nat)
    ensures !Accepts(a, rec, maxSize) ==> Put(a, rec, maxSize) == a
  {
    hide Accepts;
  }

  lemma NothingFound(h: nat)
    ensures Consistent(CLOSED) && Find(CLOSED, h) == None
    ensures Consistent(EMPTY) && Find(EMPTY, h) == None
  {
  }

  lemma KeptStep(events: seq<Event>, h: nat, rec: Record, maxSize: nat)
    requires events != []
    ensures var last := |events| - 1;
      (exists i :: StoredAndKept(events, i, h, rec, maxSize)) <==>
        || (rec.hash == h && Stores(events, last, rec, maxSize))
        || ((exists i :: StoredAndKept(events[..last], i, h, rec, maxSize)) && !Ends(events, last, h, maxSize))
  {
    hide StoredAndKept, Stores, Ends;
    var last := |events| - 1;
    KeptPrefix(events, last, h, rec, maxSize);
    if i :| StoredAndKept(events, i, h, rec, maxSize) {
      KeptPrefix(events, i, h, rec, maxSize);
    }
    if i :| StoredAndKept(events[..last], i, h, rec, maxSize) {
      KeptPrefix(events, i, h, rec, maxSize);
    }
  }

  lemma NothingKept(h: nat, rec: Record, maxSize: nat)
    ensures !exists i :: StoredAndKept([], i, h, rec, maxSize)
  {
  }

  /**
   Over every run, a record can be found under h exactly when some event stored it and no later
   event was a Set or Del of h, a Close, or the first Set that did not fit the remaining bytes.
   */
  lemma {:induction false} ReadableIff(events: seq<Event>, h: nat, rec: Record, maxSize: nat)
    requires AllEncodable(events)
    ensures Consistent(Run(events, maxSize))
    ensures Find(Run(events, maxSize), h) == Some(rec) <==> exists i :: StoredAndKept(events, i, h, rec, maxSize)
    decreases |events|
  {
    RunConsistent(events, maxSize);
    hide Find, Run, Stores, Ends, Consistent, StoredAndKept;
    if events == [] {
      NothingFound(h);
      RunNothing(maxSize);
      NothingKept(h, rec, maxSize);
    } else {
      var prefix := events[..|events| - 1];
      RunConsistent(prefix, maxSize);
      ReadableIff(prefix, h, rec, maxSize);
      LastEvent(events, h, rec, maxSize);
      KeptStep(events, h, rec, maxSize);
    }
  }

  lemma RunNothing(maxSize: nat)
    ensures Run([], maxSize) == EMPTY
  {
  }

  lemma KeptPrefix(events: seq<Event>, i: nat, h: nat, rec: Record, maxSize: nat)
    requires events != []
    ensures var last := |events| - 1;
      StoredAndKept(events, i, h, rec, maxSize) <==>
        || (i == last && rec.hash == h && Stores(events, last, rec, maxSize))
        || (StoredAndKept(events[..last], i, h, rec, maxSize) && !Ends(events, last, h, maxSize))
  {
    hide Run, Accepts, Overflows;
    var last := |events| - 1;
    var prefix := events[..last];
    forall j: nat | j < last
      ensures Ends(prefix, j, h, maxSize) == Ends(events, j, h, maxSize)
      ensures Stores(prefix, j, rec, maxSize) == Stores(events, j, rec, maxSize)
    {
      assert prefix[..j] == events[..j];
    }
  }
}
