/**
 The store of the request protocol is the two-tier store: what a lookup returns shows the
 protocol exactly what some successful Set under the same hash put there.
 */
module StoreBridge {
  import opened Bytes
  import opened HeaderCodec
  import opened Mime
  import opened HeaderMerge
  import opened Strings
  import opened Arena
  import opened Shard
  import opened Tiered
  import Vary
  import Protocol

  // "Cache-Control", "Set-Cookie", "no-store", "private" and "public" in ASCII.
  const CACHE_CONTROL: Bytes := [67, 97, 99, 104, 101, 45, 67, 111, 110, 116, 114, 111, 108]
  const SET_COOKIE: Bytes := [83, 101, 116, 45, 67, 111, 111, 107, 105, 101]
  const NO_STORE: Bytes := [110, 111, 45, 115, 116, 111, 114, 101]
  const PRIVATE: Bytes := [112, 114, 105, 118, 97, 116, 101]
  const PUBLIC: Bytes := [112, 117, 98, 108, 105, 99]
  const COMMA: Byte := 44

  /** The header names a Vary value lists. */
  function VaryNames(v: Bytes): seq<Bytes> {
    NamesIn(Split(v, COMMA))
  }

  /** The list has names, but its first part is empty. */
  predicate LeadsEmpty(v: Bytes) {
    VaryNames(v) != [] && Trim(Split(v, COMMA)[0]) == []
  }

  function CanonicalAll(names: seq<Bytes>): seq<Bytes> {
    seq(|names|, i requires 0 <= i < |names| => Canonical(names[i]))
  }

  function VaryOf(v: Bytes): Protocol.Vary {
    if v == [] then Protocol.NoVary
    else if v == Vary.STAR then Protocol.Star
    else Protocol.Fields(CanonicalAll(VaryNames(v)), LeadsEmpty(v))
  }

  /** What the request protocol sees of an entry. */
  function ViewOf(e: ResponseEntry): Protocol.Entry {
    var cc := Get(e.header, CACHE_CONTROL);
    Protocol.Entry(
      if e.status >= 0 then e.status else 0,
      ValuesOf(e.header, SET_COOKIE) != [],
      Contains(cc, NO_STORE), Contains(cc, PRIVATE), Contains(cc, PUBLIC),
      VaryOf(Get(e.header, Vary.VARY)),
      set k | k in e.vary :: (Canonical(k), e.vary[k]),
      e.body, true)
  }

  /** The request headers by canonical name, first values only. */
  function RequestHeader(r: Header): map<Bytes, Bytes> {
    map k | k in r && |r[k]| > 0 :: r[k][0]
  }

  /** The protocol takes the Vary decision of the entry itself. */
  lemma MatchesView(e: ResponseEntry, r: Header, req: Protocol.Request)
    requires req.header == RequestHeader(r) && IsCanonical(r)
    ensures Protocol.Matches(ViewOf(e), req) == Vary.Matches(e.header, e.vary, r)
  {
    hide Canonical, Contains, VaryNames;
    forall k | k in e.vary
      ensures Protocol.HeaderValue(req, Canonical(k)) == Get(r, k)
    {
    }
    var recorded := ViewOf(e).recorded;
    if Vary.Satisfies(r, e.vary) {
      assert forall c :: c in recorded ==> Protocol.HeaderValue(req, c.0) == c.1;
    }
    if forall c :: c in recorded ==> Protocol.HeaderValue(req, c.0) == c.1 {
      forall k | k in e.vary
        ensures Get(r, k) == e.vary[k]
      {
        assert (Canonical(k), e.vary[k]) in recorded;
      }
    }
  }

  lemma PlainNames()
    ensures Canonical(CACHE_CONTROL) == CACHE_CONTROL && |CACHE_CONTROL| == 13
    ensures Canonical(SET_COOKIE) == SET_COOKIE && |SET_COOKIE| == 10
  {
    assert forall i :: 0 <= i < 13 ==> IsTokenByte(CACHE_CONTROL[i]);
    assert forall i :: 0 <= i < 13 ==> Capitalise(CACHE_CONTROL)[i] == CACHE_CONTROL[i];
    assert forall i :: 0 <= i < 10 ==> IsTokenByte(SET_COOKIE[i]);
    assert forall i :: 0 <= i < 10 ==> Capitalise(SET_COOKIE)[i] == SET_COOKIE[i];
  }

  /** Persisting the Vary map only touches names of 14 bytes or more. */
  lemma PersistedElsewhere(h': Header, h: Header, vary: Vary.VaryMap, name: Bytes)
    requires Vary.IsPersisted(h', h, vary) && Canonical(name) == name && |name| < 14
    ensures ValuesOf(h', name) == ValuesOf(h, name) && Get(h', name) == Get(h, name)
  {
    hide Vary.InternalKey, Vary.IsInternal;
    forall k | k in vary
      ensures Vary.InternalKey(k) != name
    {
      Vary.InternalKeyName(k);
    }
  }

  /** Stamping an entry for the store does not change what the protocol sees of it. */
  lemma StampedView(stored: ResponseEntry, e: ResponseEntry, expire: nat)
    requires IsStamped(stored, e, expire)
    ensures ViewOf(stored) == ViewOf(e)
  {
    hide Canonical, Contains, VaryNames, Vary.IsPersisted, Get;
    PlainNames();
    PersistedElsewhere(stored.header, e.header, e.vary, CACHE_CONTROL);
    PersistedElsewhere(stored.header, e.header, e.vary, SET_COOKIE);
    Vary.PersistedVary(stored.header, e.header, e.vary);
  }

  /** The recovered constraints are the recorded ones, by canonical name. */
  lemma RecoveredView(h': Header, h: Header, vary: Vary.VaryMap, vary': Vary.VaryMap, r0: Header)
    requires Vary.IsPersisted(h', h, vary) && Vary.IsRecovered(vary', h') && Vary.Overwritten(h, vary)
    requires IsCanonical(r0) && Vary.Satisfies(r0, vary) && forall k :: k in vary ==> IsToken(k)
    ensures (set n | n in vary' :: (Canonical(n), vary'[n])) == (set k | k in vary :: (Canonical(k), vary[k]))
  {
    hide Vary.IsPersisted, Vary.IsRecovered, Vary.Overwritten, IsCanonical, Vary.Satisfies, Canonical;
    forall n | n in vary'
      ensures exists k :: k in vary && Canonical(k) == Canonical(n) && vary[k] == vary'[n]
    {
      var k := Vary.RecoveredFrom(h', h, vary, vary', n);
      RecoveredName(k);
      assert k in vary && Canonical(k) == Canonical(n) && vary[k] == vary'[n];
    }
    forall k | k in vary
      ensures exists n :: n in vary' && Canonical(n) == Canonical(k) && vary'[n] == vary[k]
    {
      var n := RecordedIsRecovered(h', h, vary, vary', k);
      RecoveredName(k);
      var j := Vary.RecoveredFrom(h', h, vary, vary', n);
      Vary.RecordedAlike(r0, vary, j, k);
      assert n in vary' && Canonical(n) == Canonical(k) && vary'[n] == vary[k];
    }
  }

  lemma RecoveredName(k: Bytes)
    requires IsToken(k)
    ensures Vary.IsInternal(Vary.InternalKey(k))
    ensures Canonical(Vary.NameOf(Vary.InternalKey(k))) == Canonical(k)
  {
    hide Vary.InternalKey, Vary.IsInternal, Vary.NameOf;
    Vary.InternalKeyName(k);
    CapitaliseForgetsCase(k);
  }

  lemma RecordedIsRecovered(h': Header, h: Header, vary: Vary.VaryMap, vary': Vary.VaryMap, k: Bytes) returns (n: Bytes)
    requires Vary.IsPersisted(h', h, vary) && Vary.IsRecovered(vary', h') && k in vary
    ensures Vary.IsInternal(Vary.InternalKey(k)) && n == Vary.NameOf(Vary.InternalKey(k)) && n in vary'
  {
    hide Vary.InternalKey, Vary.IsInternal, Vary.NameOf;
    Vary.InternalKeyName(k);
    var p := Vary.InternalKey(k);
    assert p in h' && |h'[p]| > 0;
    n := Vary.NameOf(p);
  }

  /**
   What either tier answers is, to the protocol, the entry the caller stored: same policy flags,
   same Vary header and recorded constraints, same body.
   */
  lemma HitViewSurvives(e: ResponseEntry, r0: Header, b: Binding, h: nat, r: ResponseEntry)
    requires IsStamped(b.entry, e, b.expire) && Answers(r, h, b) && EntryFits(b.entry)
    requires IsCanonical(r0) && Vary.Satisfies(r0, e.vary) && forall k :: k in e.vary ==> IsToken(k)
    requires Vary.Overwritten(e.header, e.vary)
    ensures ViewOf(r) == ViewOf(e)
  {
    StampedView(b.entry, e, b.expire);
    hide EntryFits, IsRecordOf, ImageOf, Canonical, Contains, VaryNames, IsCanonical, Get, Decode, IsToken;
    hide Vary.IsPersisted, Vary.IsRecovered, Vary.Overwritten, Vary.Satisfies;
    if r != b.entry {
      var rec :| IsRecordOf(rec, h, b.entry, b.expire) && ReadsBack(r, ImageOf(rec));
      ReadBackExact(rec, h, b.entry, b.expire, r);
      RecoveredView(r.header, e.header, e.vary, r.vary, r0);
    }
  }

  // ---- Recording the request ----

  /** extractVaryMap: the request's values of the headers a Vary value lists. */
  function ExtractVaryMap(r: Header, v: Bytes): Vary.VaryMap {
    if v == [] || v == Vary.STAR then map[] else ValuesFor(r, VaryNames(v))
  }

  method ExtractVary(r: Header, v: Bytes) returns (m: Vary.VaryMap)
    ensures m == ExtractVaryMap(r, v)
  {
    m := map[];
    if v == [] || v == Vary.STAR {
      return;
    }
    hide Split, Get, Trim, NamesIn;
    var parts := Split(v, COMMA);
    assert parts[..0] == [];
    NamesNone(r);
    for i := 0 to |parts|
      invariant m == ValuesFor(r, NamesIn(parts[..i]))
    {
      NamesAppend(parts[..i], parts[i]);
      assert parts[..i + 1] == parts[..i] + [parts[i]];
      var name := Trim(parts[i]);
      if name != [] {
        ValuesNext(r, NamesIn(parts[..i]), name);
        m := m[name := Get(r, name)];
      } else {
        assert NamesIn(parts[..i]) + [] == NamesIn(parts[..i]);
      }
    }
    assert parts[..|parts|] == parts;
  }

  function ValuesFor(r: Header, names: seq<Bytes>): Vary.VaryMap {
    map name | name in names :: Get(r, name)
  }

  lemma NamesNone(r: Header)
    ensures ValuesFor(r, NamesIn([])) == map[]
  {
  }

  lemma ValuesNext(r: Header, names: seq<Bytes>, name: Bytes)
    ensures ValuesFor(r, names + [name]) == ValuesFor(r, names)[name := Get(r, name)]
  {
    hide Get;
  }

  lemma {:induction false} NamesAppend(parts: seq<Bytes>, p: Bytes)
    ensures NamesIn(parts + [p]) == NamesIn(parts) + if Trim(p) == [] then [] else [Trim(p)]
  {
    if parts == [] {
      assert [] + [p] == [p];
    } else {
      assert (parts + [p])[1..] == parts[1..] + [p];
      NamesAppend(parts[1..], p);
    }
  }

  /**
   What is recorded: under each non-empty name that some comma-separated part of Vary holds with space around
   it, and no other, the request's value; and nothing without Vary or for a star.
   */
  lemma ExtractKeys(r: Header, v: Bytes, k: Bytes)
    ensures k in ExtractVaryMap(r, v) <==>
      v != [] && v != Ascii("*") && k != [] && Clean(k) && exists p :: p in Split(v, COMMA) && Padded(p, k)
    ensures k in ExtractVaryMap(r, v) ==> ExtractVaryMap(r, v)[k] == Get(r, k)
    ensures [COMMA] == Ascii(",")
  {
    NamesInIff(Split(v, COMMA), k);
    assert Vary.STAR == Ascii("*");
    hide Split, NamesIn, Clean, Padded, Get;
  }

  /** The recorded map is one the recording request satisfies. */
  lemma ExtractSatisfied(r: Header, v: Bytes)
    ensures Vary.Satisfies(r, ExtractVaryMap(r, v))
  {
  }

  /** The protocol records for a response what extractVaryMap records in the entry. */
  lemma ExtractView(e: ResponseEntry, r: Header, req: Protocol.Request)
    requires req.header == RequestHeader(r) && IsCanonical(r)
    requires e.vary == ExtractVaryMap(r, Get(e.header, Vary.VARY))
    ensures Protocol.Recorded(ViewOf(e), req) == ViewOf(e)
  {
    hide Canonical, Contains, VaryNames, IsCanonical, Get;
    var v := Get(e.header, Vary.VARY);
    var names := VaryNames(v);
    var sig := Protocol.Signature(CanonicalAll(names), req);
    forall i | 0 <= i < |names|
      ensures sig[i] == (Canonical(names[i]), Get(r, names[i]))
    {
      SameLookup(r, req, names[i]);
    }
    if v != [] && v != Vary.STAR {
      forall k | k in e.vary
        ensures (Canonical(k), e.vary[k]) in sig
      {
        var i :| 0 <= i < |names| && names[i] == k;
        assert sig[i] == (Canonical(k), e.vary[k]);
      }
      forall c | c in sig
        ensures exists k :: k in e.vary && c == (Canonical(k), e.vary[k])
      {
        var i :| 0 <= i < |sig| && sig[i] == c;
        assert names[i] in e.vary;
      }
    }
  }

  lemma SameLookup(r: Header, req: Protocol.Request, name: Bytes)
    requires req.header == RequestHeader(r)
    ensures Protocol.HeaderValue(req, Canonical(name)) == Get(r, name)
  {
    hide Canonical;
  }
}
