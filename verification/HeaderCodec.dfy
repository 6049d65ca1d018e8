/**
 The header codec of the byte arena: encodeHeaders and decodeHeaders.

 A Go map is enumerated in an unspecified order, so the encoder is specified by the
 set of byte strings it may produce, one for each enumeration of the keys.
 */
module HeaderCodec {
  import opened Bytes

  type Header = map<Bytes, seq<Bytes>>

  // ---- Specification of the encoder ----

  function EncodeValues(vs: seq<Bytes>): Bytes {
    if vs == [] then [] else LE(|vs[0]| % U32, 4) + vs[0] + EncodeValues(vs[1..])
  }

  function EncodeEntry(k: Bytes, vs: seq<Bytes>): Bytes {
    LE(|k| % U16, 2) + k + LE(|vs| % U16, 2) + EncodeValues(vs)
  }

  function EncodeEntries(order: seq<Bytes>, h: Header): Bytes
    requires forall k :: k in order ==> k in h
  {
    if order == [] then [] else EncodeEntry(order[0], h[order[0]]) + EncodeEntries(order[1..], h)
  }

  ghost predicate Enumerates(order: seq<Bytes>, keys: set<Bytes>) {
    && (forall i, j :: 0 <= i < j < |order| ==> order[i] != order[j])
    && (forall k :: k in order <==> k in keys)
  }

  ghost predicate IsEncoding(b: Bytes, h: Header) {
    if h == map[] then b == []
    else exists order :: Enumerates(order, h.Keys) && b == LE(|h| % U16, 2) + EncodeEntries(order, h)
  }

  // ---- Specification of the decoder, on the bytes from the cursor on ----

  /** The values read, and the bytes left where reading stopped. */
  function DecodeValues(s: Bytes, n: nat): (r: (seq<Bytes>, Bytes))
    decreases n
  {
    if n == 0 then ([], s)
    else match Uint(s, 4)
      case None => ([], s)
      case Some((vLen, s')) =>
        match Take(s', vLen)
        case None => ([], s')
        case Some((v, s'')) =>
          var (vs, rest) := DecodeValues(s'', n - 1);
          ([v] + vs, rest)
  }

  /** The key and values of one header and the bytes left, unless the input ends before them. */
  function DecodeEntry(s: Bytes): Option<(Bytes, seq<Bytes>, Bytes)> {
    match Uint(s, 2)
    case None => None
    case Some((kLen, s')) =>
      match Take(s', kLen)
      case None => None
      case Some((k, s'')) =>
        match Uint(s'', 2)
        case None => None
        case Some((n, values)) =>
          var (vs, rest) := DecodeValues(values, n);
          Some((k, vs, rest))
  }

  function DecodeEntries(s: Bytes, n: nat, h: Header): Header
    decreases n
  {
    if n == 0 then h
    else match DecodeEntry(s)
      case None => h
      case Some((k, vs, rest)) => DecodeEntries(rest, n - 1, h[k := vs])
  }

  function Decode(b: Bytes): Header {
    match Uint(b, 2)
    case None => map[]
    case Some((n, s)) => DecodeEntries(s, n, map[])
  }

  // ---- What the length fields can express ----

  predicate ValuesFit(vs: seq<Bytes>) {
    |vs| < U16 && forall v :: v in vs ==> |v| < U32
  }

  predicate EntriesFit(h: Header) {
    forall k :: k in h ==> |k| < U16 && ValuesFit(h[k])
  }

  predicate Fits(h: Header) {
    |h| < U16 && EntriesFit(h)
  }

  // ---- The decoder inverts the encoder exactly on the headers that fit ----

  lemma DecodeOneValue(v: Bytes, rest: Bytes, n: nat)
    requires n > 0 && |v| < U32
    ensures var (vs, left) := DecodeValues(rest, n - 1);
      DecodeValues(LE(|v| % U32, 4) + v + rest, n) == ([v] + vs, left)
  {
    hide LE, UnLE, Take, Uint;
    Widths();
    assert LE(|v|, 4) + v + rest == LE(|v|, 4) + (v + rest);
    UintFront(|v|, 4, v + rest);
    TakeFront(v, rest);
  }

  lemma {:induction false} DecodeValuesInverts(vs: seq<Bytes>, tail: Bytes)
    requires forall v :: v in vs ==> |v| < U32
    ensures DecodeValues(EncodeValues(vs) + tail, |vs|) == (vs, tail)
    decreases |vs|
  {
    hide LE, UnLE, Take, Uint;
    if vs == [] {
      assert EncodeValues(vs) + tail == tail;
    } else {
      var v, rest := vs[0], EncodeValues(vs[1..]) + tail;
      assert EncodeValues(vs) + tail == LE(|v| % U32, 4) + v + rest;
      hide *;
      DecodeOneValue(v, rest, |vs|);
      DecodeValuesInverts(vs[1..], tail);
      assert [v] + vs[1..] == vs;
    }
  }

  lemma DecodeEntryInverts(k: Bytes, vs: seq<Bytes>, rest: Bytes)
    requires |k| < U16 && ValuesFit(vs)
    ensures DecodeEntry(EncodeEntry(k, vs) + rest) == Some((k, vs, rest))
  {
    hide LE, UnLE, Take, Uint, EncodeValues, DecodeValues;
    var s := LE(|vs|, 2) + (EncodeValues(vs) + rest);
    Widths();
    assert EncodeEntry(k, vs) + rest == LE(|k|, 2) + (k + s);
    UintFront(|k|, 2, k + s);
    TakeFront(k, s);
    UintFront(|vs|, 2, EncodeValues(vs) + rest);
    DecodeValuesInverts(vs, rest);
  }

  /** acc with the headers of h listed in order added one by one. */
  ghost function Collect(order: seq<Bytes>, h: Header, acc: Header): Header
    requires forall k :: k in order ==> k in h
  {
    if order == [] then acc else Collect(order[1..], h, acc[order[0] := h[order[0]]])
  }

  lemma {:induction false} CollectAt(order: seq<Bytes>, h: Header, acc: Header, k: Bytes)
    requires forall x :: x in order ==> x in h
    ensures var c := Collect(order, h, acc);
      && (k in c <==> k in order || k in acc)
      && (k in order ==> c[k] == h[k])
      && (k !in order && k in acc ==> c[k] == acc[k])
    decreases |order|
  {
    if order != [] {
      CollectAt(order[1..], h, acc[order[0] := h[order[0]]], k);
      assert k in order <==> k == order[0] || k in order[1..];
    }
  }

  lemma CollectAll(order: seq<Bytes>, h: Header)
    requires Enumerates(order, h.Keys)
    ensures Collect(order, h, map[]) == h
  {
    hide Collect;
    forall k
      ensures k in Collect(order, h, map[]) <==> k in h
      ensures k in h ==> Collect(order, h, map[])[k] == h[k]
    {
      CollectAt(order, h, map[], k);
    }
  }

  lemma {:induction false} DecodeEntriesInverts(order: seq<Bytes>, h: Header, acc: Header)
    requires forall k :: k in order ==> k in h && |k| < U16 && ValuesFit(h[k])
    ensures DecodeEntries(EncodeEntries(order, h), |order|, acc) == Collect(order, h, acc)
    decreases |order|
  {
    hide DecodeEntry, EncodeEntry, ValuesFit;
    if order != [] {
      var k := order[0];
      DecodeEntryInverts(k, h[k], EncodeEntries(order[1..], h));
      DecodeEntriesInverts(order[1..], h, acc[k := h[k]]);
    }
  }

  lemma {:induction false} EnumerationLength(order: seq<Bytes>, keys: set<Bytes>)
    requires Enumerates(order, keys)
    ensures |order| == |keys|
  {
    if order == [] {
      assert keys == {};
    } else {
      var k, rest := order[0], order[1..];
      forall x
        ensures x in rest <==> x in keys - {k}
      {
        if x in rest {
          var i :| 0 <= i < |rest| && rest[i] == x;
          assert order[i + 1] == x;
        }
        assert x in order ==> x == k || x in rest;
      }
      EnumerationLength(rest, keys - {k});
    }
  }

  lemma DecodeCount(n: nat, s: Bytes)
    requires n < U16
    ensures Decode(LE(n % U16, 2) + s) == DecodeEntries(s, n, map[])
  {
    hide Uint, LE, DecodeEntries;
    Widths();
    UintFront(n, 2, s);
  }

  lemma DecodeInverts(order: seq<Bytes>, h: Header)
    requires Enumerates(order, h.Keys) && Fits(h)
    ensures Decode(LE(|h| % U16, 2) + EncodeEntries(order, h)) == h
  {
    hide Decode, DecodeEntries, EncodeEntries, ValuesFit, Collect;
    EnumerationLength(order, h.Keys);
    DecodeCount(|order|, EncodeEntries(order, h));
    DecodeEntriesInverts(order, h, map[]);
    CollectAll(order, h);
  }

  lemma {:induction false} DecodedValuesFit(s: Bytes, n: nat)
    ensures var vs := DecodeValues(s, n).0; |vs| <= n && forall v :: v in vs ==> |v| < U32
    decreases n
  {
    hide Uint, Take;
    Widths();
    if n > 0 && Uint(s, 4).Some? {
      var (vLen, s') := Uint(s, 4).value;
      if Take(s', vLen).Some? {
        DecodedValuesFit(Take(s', vLen).value.1, n - 1);
      }
    }
  }

  lemma DecodedEntryFits(s: Bytes)
    ensures DecodeEntry(s).Some? ==> |DecodeEntry(s).value.0| < U16 && ValuesFit(DecodeEntry(s).value.1)
  {
    hide Uint, Take, DecodeValues;
    Widths();
    if DecodeEntry(s).Some? {
      var (kLen, s') := Uint(s, 2).value;
      var (n, values) := Uint(Take(s', kLen).value.1, 2).value;
      DecodedValuesFit(values, n);
    }
  }

  lemma InsertFits(h: Header, k: Bytes, vs: seq<Bytes>)
    requires EntriesFit(h) && |k| < U16 && ValuesFit(vs)
    ensures EntriesFit(h[k := vs]) && |h[k := vs]| <= |h| + 1
  {
    hide ValuesFit;
    assert h[k := vs].Keys == h.Keys + {k};
  }

  lemma {:induction false} DecodedEntriesFit(s: Bytes, n: nat, h: Header)
    requires EntriesFit(h)
    ensures var d := DecodeEntries(s, n, h); |d| <= |h| + n && EntriesFit(d)
    decreases n
  {
    hide DecodeEntry, ValuesFit, EntriesFit;
    DecodedEntryFits(s);
    if n > 0 && DecodeEntry(s).Some? {
      var (k, vs, rest) := DecodeEntry(s).value;
      InsertFits(h, k, vs);
      DecodedEntriesFit(rest, n - 1, h[k := vs]);
    }
  }

  /** Whatever bytes it is given, the decoder yields only counts and lengths its fields can express. */
  lemma DecodedFits(b: Bytes)
    ensures Fits(Decode(b))
  {
    hide DecodeEntries, Uint;
    Widths();
    if Uint(b, 2).Some? {
      var (n, s) := Uint(b, 2).value;
      DecodedEntriesFit(s, n, map[]);
    }
  }

  /**
   The codec round trip, for every header map and every enumeration order: reading back what
   was encoded gives the same header exactly when all counts and lengths fit their fields.
   */
  lemma RoundTrip(h: Header, b: Bytes)
    requires IsEncoding(b, h)
    ensures Decode(b) == h <==> Fits(h)
  {
    hide LE, EncodeEntries, DecodeEntries;
    DecodedFits(b);
    if Fits(h) && h != map[] {
      var order :| Enumerates(order, h.Keys) && b == LE(|h| % U16, 2) + EncodeEntries(order, h);
      DecodeInverts(order, h);
    }
  }

  /** A header name of 65536 bytes comes back differently, whatever its values are. */
  lemma LongNameIsLost(vs: seq<Bytes>, b: Bytes)
    requires IsEncoding(b, map[seq(U16, _ => 65) := vs])
    ensures Decode(b) != map[seq(U16, _ => 65) := vs]
  {
    hide Decode, IsEncoding;
    var name: Bytes := seq(U16, _ => 65);
    RoundTrip(map[name := vs], b);
    assert name in map[name := vs] && |name| == U16;
  }

  // ---- What the decoder makes of bytes that end too soon ----

  lemma {:induction false} DecodeEntriesGoOn(order: seq<Bytes>, h: Header, acc: Header, tail: Bytes, n: nat)
    requires forall k :: k in order ==> k in h && |k| < U16 && ValuesFit(h[k])
    requires |order| <= n
    ensures DecodeEntries(EncodeEntries(order, h) + tail, n, acc)
         == DecodeEntries(tail, n - |order|, Collect(order, h, acc))
    decreases |order|
  {
    hide DecodeEntry, EncodeEntry, ValuesFit;
    if order == [] {
      assert EncodeEntries(order, h) + tail == tail;
    } else {
      var k, rest := order[0], EncodeEntries(order[1..], h) + tail;
      assert EncodeEntries(order, h) + tail == EncodeEntry(k, h[k]) + rest;
      DecodeEntryInverts(k, h[k], rest);
      DecodeEntriesGoOn(order[1..], h, acc[k := h[k]], tail, n - 1);
    }
  }

  /** If the bytes end before the next header has its name length, the headers so far are kept. */
  lemma CutBetween(order: seq<Bytes>, h: Header, n: nat, rest: Bytes)
    requires Enumerates(order, h.Keys) && Fits(h) && |order| <= n < U16 && |rest| < 2
    ensures Decode(LE(n % U16, 2) + (EncodeEntries(order, h) + rest)) == h
  {
    hide Decode, DecodeEntries, EncodeEntries, ValuesFit, Collect;
    DecodeCount(n, EncodeEntries(order, h) + rest);
    DecodeEntriesGoOn(order, h, map[], rest, n);
    CollectAll(order, h);
    TooShort(rest, n - |order|, h);
  }

  lemma TooShort(rest: Bytes, n: nat, h: Header)
    requires |rest| < 2
    ensures DecodeEntries(rest, n, h) == h
  {
  }

  lemma Regroup(vs: seq<Bytes>, more: seq<Bytes>)
    requires vs != []
    ensures [vs[0]] + (vs[1..] + more) == vs + more
  {
  }

  lemma {:induction false} ValuesGoOn(vs: seq<Bytes>, tail: Bytes, n: nat)
    requires (forall v :: v in vs ==> |v| < U32) && |vs| <= n
    ensures var (more, rest) := DecodeValues(tail, n - |vs|);
      DecodeValues(EncodeValues(vs) + tail, n) == (vs + more, rest)
    decreases |vs|
  {
    hide LE, UnLE, Take, Uint;
    if vs == [] {
      assert EncodeValues(vs) + tail == tail;
      var more := DecodeValues(tail, n).0;
      assert [] + more == more;
    } else {
      var v, rest := vs[0], EncodeValues(vs[1..]) + tail;
      assert EncodeValues(vs) + tail == LE(|v| % U32, 4) + v + rest;
      hide *;
      DecodeOneValue(v, rest, n);
      ValuesGoOn(vs[1..], tail, n - 1);
      Regroup(vs, DecodeValues(tail, n - |vs|).0);
    }
  }

  /** If they end within a value, the header has its values so far, and reading goes on behind that value's length. */
  lemma CutValue(vs: seq<Bytes>, n: nat, len: nat, part: Bytes)
    requires (forall v :: v in vs ==> |v| < U32) && |vs| < n && |part| < len < U32
    ensures DecodeValues(EncodeValues(vs) + (LE(len, 4) + part), n) == (vs, part)
  {
    hide LE, UnLE, EncodeValues;
    ValuesGoOn(vs, LE(len, 4) + part, n);
    Widths();
    UintFront(len, 4, part);
    hide Uint;
    assert vs + [] == vs;
  }

  // ---- One header, byte by byte ----

  lemma OnlyOrder(order: seq<Bytes>, k: Bytes)
    requires Enumerates(order, {k})
    ensures order == [k]
  {
    assert k in order;
    assert |order| > 1 ==> order[0] != order[1];
    forall i | 0 <= i < |order|
      ensures order[i] == k
    {
      assert order[i] in order;
    }
  }

  lemma OneEntry(k: Bytes, v: Bytes)
    ensures EncodeEntry(k, [v]) == LE(|k| % U16, 2) + k + LE(1, 2) + (LE(|v| % U32, 4) + v)
  {
    hide LE;
    assert [v][1..] == [];
    assert EncodeValues([]) == [];
    assert EncodeValues([v]) == LE(|v| % U32, 4) + v;
  }

  lemma OneKey(k: Bytes, h: Header)
    requires k in h
    ensures EncodeEntries([k], h) == EncodeEntry(k, h[k])
  {
    hide EncodeEntry;
    assert [k][1..] == [];
    assert EncodeEntries([], h) == [];
  }

  /** One header with one value, field by field: counts and name lengths in two bytes, value lengths in four. */
  lemma OneHeader(b: Bytes, h: Header, k: Bytes, v: Bytes)
    requires h.Keys == {k} && h[k] == [v] && IsEncoding(b, h)
    ensures b == LE(1, 2) + (LE(|k| % U16, 2) + k + LE(1, 2) + (LE(|v| % U32, 4) + v))
  {
    hide LE, EncodeEntry, EncodeEntries, EncodeValues;
    assert |h| == |h.Keys| == 1;
    var order :| Enumerates(order, h.Keys) && b == LE(|h| % U16, 2) + EncodeEntries(order, h);
    OnlyOrder(order, k);
    OneKey(k, h);
    OneEntry(k, v);
  }

  // ---- The encoding loops ----

  lemma {:induction false} EncodeValuesAppend(vs: seq<Bytes>, v: Bytes)
    ensures EncodeValues(vs + [v]) == EncodeValues(vs) + (LE(|v| % U32, 4) + v)
  {
    hide LE;
    if vs == [] {
      assert vs + [v] == [v];
    } else {
      EncodeValuesAppend(vs[1..], v);
      assert (vs + [v])[1..] == vs[1..] + [v];
    }
  }

  lemma EncodeNothing()
    ensures EncodeValues([]) == []
  {
  }

  lemma {:induction false} EncodeEntriesAppend(order: seq<Bytes>, h: Header, k: Bytes)
    requires k in h && forall x :: x in order ==> x in h
    ensures EncodeEntries(order + [k], h) == EncodeEntries(order, h) + EncodeEntry(k, h[k])
  {
    hide EncodeEntry;
    if order == [] {
      assert order + [k] == [k];
    } else {
      EncodeEntriesAppend(order[1..], h, k);
      assert (order + [k])[1..] == order[1..] + [k];
    }
  }

  /** The bytes the headers with these keys take, in whichever order they are written. */
  ghost function SizeOf(h: Header, keys: set<Bytes>): nat
    requires keys <= h.Keys
  {
    if keys == {} then 0 else
      var k :| k in keys;
      |EncodeEntry(k, h[k])| + SizeOf(h, keys - {k})
  }

  lemma {:induction false} SizeOfAny(h: Header, keys: set<Bytes>, k: Bytes)
    requires k in keys && keys <= h.Keys
    ensures SizeOf(h, keys) == |EncodeEntry(k, h[k])| + SizeOf(h, keys - {k})
    decreases keys
  {
    hide EncodeEntry;
    var x :| x in keys && SizeOf(h, keys) == |EncodeEntry(x, h[x])| + SizeOf(h, keys - {x});
    if x != k {
      SizeOfAny(h, keys - {x}, k);
      SizeOfAny(h, keys - {k}, x);
      assert keys - {x} - {k} == keys - {k} - {x};
    }
  }

  /** The inner loop that adds up the size of one header. */
  method EntrySize(k: Bytes, vv: seq<Bytes>) returns (size: nat)
    ensures size == |EncodeEntry(k, vv)|
  {
    size := 2 + |k| + 2;
    for i := 0 to |vv|
      invariant size == 4 + |k| + |EncodeValues(vv[..i])|
    {
      size := size + 4 + |vv[i]|;
      EncodeValuesAppend(vv[..i], vv[i]);
      assert vv[..i + 1] == vv[..i] + [vv[i]];
    }
    assert vv[..|vv|] == vv;
  }

  /** The inner loop that writes the values of one header at the cursor. */
  method PutValues(buf: array<Byte>, at: nat, vv: seq<Bytes>) returns (idx: nat)
    requires at + |EncodeValues(vv)| <= buf.Length
    modifies buf
    ensures idx == at + |EncodeValues(vv)|
    ensures buf[..idx] == old(buf[..at]) + EncodeValues(vv)
  {
    hide LE, EncodeValues;
    idx := at;
    assert vv[..0] == [];
    EncodeNothing();
    for i := 0 to |vv|
      invariant idx == at + |EncodeValues(vv[..i])|
      invariant idx <= buf.Length && buf[..idx] == old(buf[..at]) + EncodeValues(vv[..i])
    {
      var v := vv[i];
      ValuesPrefix(vv, i);
      CopyInto(buf, idx, LE(|v| % U32, 4));
      idx := idx + 4;
      CopyInto(buf, idx, v);
      idx := idx + |v|;
    }
    assert vv[..|vv|] == vv;
  }

  /** Writing one header: key length, key, number of values, values. */
  method PutEntry(buf: array<Byte>, at: nat, k: Bytes, vv: seq<Bytes>) returns (idx: nat)
    requires at + |EncodeEntry(k, vv)| <= buf.Length
    modifies buf
    ensures idx == at + |EncodeEntry(k, vv)|
    ensures buf[..idx] == old(buf[..at]) + EncodeEntry(k, vv)
  {
    hide LE, EncodeValues;
    ghost var head := old(buf[..at]);
    CopyInto(buf, at, LE(|k| % U16, 2));
    idx := at + 2;
    CopyInto(buf, idx, k);
    idx := idx + |k|;
    assert buf[..idx] == head + (LE(|k| % U16, 2) + k);
    CopyInto(buf, idx, LE(|vv| % U16, 2));
    idx := idx + 2;
    assert buf[..idx] == head + (LE(|k| % U16, 2) + k + LE(|vv| % U16, 2));
    idx := PutValues(buf, idx, vv);
  }

  /** Writing the value at i extends the first i values to the first i + 1, still within the whole. */
  lemma ValuesPrefix(vs: seq<Bytes>, i: nat)
    requires i < |vs|
    ensures EncodeValues(vs[..i + 1]) == EncodeValues(vs[..i]) + LE(|vs[i]| % U32, 4) + vs[i]
    ensures |EncodeValues(vs[..i + 1])| <= |EncodeValues(vs)|
  {
    hide LE, EncodeValues;
    EncodeValuesAppend(vs[..i], vs[i]);
    assert vs[..i + 1] == vs[..i] + [vs[i]];
    ValuesSplit(vs[..i + 1], vs[i + 1..]);
    assert vs == vs[..i + 1] + vs[i + 1..];
  }

  lemma {:induction false} ValuesSplit(a: seq<Bytes>, b: seq<Bytes>)
    ensures EncodeValues(a + b) == EncodeValues(a) + EncodeValues(b)
  {
    hide LE;
    if a == [] {
      assert a + b == b;
    } else {
      ValuesSplit(a[1..], b);
      assert (a + b)[1..] == a[1..] + b;
    }
  }

  /** The loop that precomputes the buffer size. */
  method EncodedSize(h: Header) returns (size: nat)
    ensures size == 2 + SizeOf(h, h.Keys)
  {
    hide EncodeEntry;
    size := 2;
    var rest := h.Keys;
    while rest != {}
      invariant rest <= h.Keys
      invariant size + SizeOf(h, rest) == 2 + SizeOf(h, h.Keys)
    {
      var k :| k in rest;
      SizeOfAny(h, rest, k);
      var n := EntrySize(k, h[k]);
      size := size + n;
      rest := rest - {k};
    }
  }

  /** encodeHeaders: the bytes written are an encoding, and fill the precomputed size exactly. */
  method EncodeHeaders(h: Header) returns (b: Bytes)
    ensures IsEncoding(b, h)
  {
    hide EncodeEntry, EncodeEntries, LE, Enumerates, SizeOf;
    if |h| == 0 {
      return [];
    }
    var size := EncodedSize(h);
    var buf := new Byte[size];
    CopyInto(buf, 0, LE(|h| % U16, 2));
    var idx := 2;
    ghost var order: seq<Bytes> := [];
    var rest := h.Keys;
    NothingEncoded(h);
    while rest != {}
      invariant rest <= h.Keys && Enumerates(order, h.Keys - rest)
      invariant forall x :: x in order ==> x in h
      invariant 2 <= idx <= buf.Length && idx + SizeOf(h, rest) == buf.Length
      invariant buf[..idx] == LE(|h| % U16, 2) + EncodeEntries(order, h)
    {
      var k :| k in rest;
      SizeOfAny(h, rest, k);
      idx := PutEntry(buf, idx, k, h[k]);
      EncodeEntriesAppend(order, h, k);
      ghost var done := h.Keys - rest;
      EnumeratesNext(order, done, k);
      order := order + [k];
      rest := rest - {k};
      assert h.Keys - rest == done + {k};
    }
    assert h.Keys - rest == h.Keys;
    assert buf[..idx] == buf[..];
    b := buf[..];
  }

  lemma NothingEncoded(h: Header)
    ensures EncodeEntries([], h) == [] && Enumerates([], h.Keys - h.Keys) && SizeOf(h, {}) == 0
  {
  }

  lemma EnumeratesNext(order: seq<Bytes>, keys: set<Bytes>, k: Bytes)
    requires Enumerates(order, keys) && k !in keys
    ensures Enumerates(order + [k], keys + {k})
  {
  }

  // ---- The decoding loops ----

  /** Decoding one value at the cursor, in terms of indices. */
  lemma DecodeAt(b: Bytes, idx: nat, n: nat)
    requires idx <= |b| && n > 0
    ensures DecodeValues(b[idx..], n) ==
      if idx + 4 > |b| then ([], b[idx..]) else
        var vLen, at := UnLE(b[idx..idx + 4]), idx + 4;
        if at + vLen > |b| then ([], b[at..]) else
          var (vs, rest) := DecodeValues(b[at + vLen..], n - 1);
          ([b[at..at + vLen]] + vs, rest)
  {
    hide UnLE, Pow256;
    if idx + 4 <= |b| {
      var vLen, at := UnLE(b[idx..idx + 4]), idx + 4;
      assert b[idx..][..4] == b[idx..at] && b[idx..][4..] == b[at..];
      if at + vLen <= |b| {
        assert b[at..][..vLen] == b[at..at + vLen] && b[at..][vLen..] == b[at + vLen..];
      }
    }
  }

  lemma DecodeNoValues(s: Bytes)
    ensures DecodeValues(s, 0) == ([], s)
  {
  }

  /** The inner loop of decodeHeaders, from the cursor to where it stops. */
  method ReadValues(b: Bytes, start: nat, numValues: nat) returns (vals: seq<Bytes>, idx: nat)
    requires start <= |b|
    ensures idx <= |b| && (vals, b[idx..]) == DecodeValues(b[start..], numValues)
  {
    hide UnLE, DecodeValues;
    vals, idx := [], start;
    var j := 0;
    ghost var goal := DecodeValues(b[start..], numValues);
    assert [] + goal.0 == goal.0;
    while j < numValues && idx + 4 <= |b|
      invariant j <= numValues && idx <= |b|
      invariant var (vs, rest) := DecodeValues(b[idx..], numValues - j); goal == (vals + vs, rest)
    {
      DecodeAt(b, idx, numValues - j);
      var vLen := UnLE(b[idx..idx + 4]);
      idx := idx + 4;
      if idx + vLen > |b| {
        assert vals + [] == vals;
        return;
      }
      var val := b[idx..idx + vLen];
      idx := idx + vLen;
      ghost var (vs, rest) := DecodeValues(b[idx..], numValues - j - 1);
      assert vals + ([val] + vs) == vals + [val] + vs;
      vals := vals + [val];
      j := j + 1;
    }
    if j < numValues {
      DecodeAt(b, idx, numValues - j);
    } else {
      DecodeNoValues(b[idx..]);
    }
    assert vals + [] == vals;
  }

  /** decodeHeaders: total, within bounds and terminating on arbitrary bytes. */
  method DecodeHeaders(b: Bytes) returns (h: Header)
    ensures h == Decode(b)
  {
    hide UnLE, DecodeValues;
    if |b| < 2 {
      return map[];
    }
    var numHeaders := UnLE(b[0..2]);
    var idx := 2;
    h := map[];
    var i := 0;
    assert b[..2] == b[0..2];
    while i < numHeaders && idx + 2 <= |b|
      invariant i <= numHeaders && idx <= |b|
      invariant DecodeEntries(b[idx..], numHeaders - i, h) == Decode(b)
    {
      ghost var s := b[idx..];
      var kLen := UnLE(b[idx..idx + 2]);
      assert s[..2] == b[idx..idx + 2] && s[2..] == b[idx + 2..];
      idx := idx + 2;
      if idx + kLen > |b| {
        assert DecodeEntry(s) == None;
        return;
      }
      var key := b[idx..idx + kLen];
      assert b[idx..][..kLen] == key && b[idx..][kLen..] == b[idx + kLen..];
      idx := idx + kLen;
      if idx + 2 > |b| {
        assert DecodeEntry(s) == None;
        return;
      }
      var numValues := UnLE(b[idx..idx + 2]);
      assert b[idx..][..2] == b[idx..idx + 2] && b[idx..][2..] == b[idx + 2..];
      idx := idx + 2;
      var vals;
      vals, idx := ReadValues(b, idx, numValues);
      assert DecodeEntry(s) == Some((key, vals, b[idx..]));
      h := h[key := vals];
      i := i + 1;
    }
    if i < numHeaders {
      assert DecodeEntry(b[idx..]) == None;
    }
  }
}
