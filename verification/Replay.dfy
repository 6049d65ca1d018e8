/** Sending an entry to a client, and what a HIT shows of the original MISS. */
module Replay {
  import opened Bytes
  import opened HeaderCodec
  import opened Mime
  import opened HeaderMerge
  import opened Vary
  import opened Arena
  import opened Shard
  import opened Strings
  import opened Tiered

  // ---- Responses to the client ----

  // "x-precog-vary", "X-Cache", "X-Precog", "HIT", "MISS" and "ram-cache" in ASCII.
  const HIDDEN_PREFIX: Bytes := [120, 45, 112, 114, 101, 99, 111, 103, 45, 118, 97, 114, 121]
  const X_CACHE: Bytes := [88, 45, 67, 97, 99, 104, 101]
  const X_PRECOG: Bytes := [88, 45, 80, 114, 101, 99, 111, 103]
  const HIT: Bytes := [72, 73, 84]
  const MISS: Bytes := [77, 73, 83, 83]
  const RAM_CACHE: Bytes := [114, 97, 109, 45, 99, 97, 99, 104, 101]

  datatype Response = Response(status: int, header: Header, body: Bytes)

  predicate Hidden(k: Bytes) {
    |k| >= |HIDDEN_PREFIX| && Lower(k)[..|HIDDEN_PREFIX|] == HIDDEN_PREFIX
  }

  /** The headers that are replayed: all but the internal ones. */
  function Public(h: Header): Header {
    map k | k in h && !Hidden(k) :: h[k]
  }

  function WithContentType(w: Header, contentType: Bytes): Header {
    if contentType != [] && Get(w, CONTENT_TYPE) == [] then w[CONTENT_TYPE := [contentType]] else w
  }

  /** What WriteResponse sends for a cached entry, over the headers merged into the response. */
  function HitOver(e: ResponseEntry, merged: Header): Response {
    var h := WithContentType(merged, e.contentType);
    Response(if e.status > 0 then e.status else 200, h[X_CACHE := [HIT]][X_PRECOG := [RAM_CACHE]], e.body)
  }

  /** What the middleware sends for an entry it just obtained from the handler or from a leader. */
  function MissOver(e: ResponseEntry, merged: Header): Response {
    var h := WithContentType(merged, e.contentType);
    Response(e.status, h[X_CACHE := [MISS]], e.body)
  }

  /** A response the entry may get on a client's response that already has headers w. */
  ghost predicate IsHit(sent: Response, e: ResponseEntry, w: Header) {
    exists merged :: IsMerge(merged, w, Public(e.header)) && sent == HitOver(e, merged)
  }

  ghost predicate IsMiss(sent: Response, e: ResponseEntry, w: Header) {
    exists merged :: IsMerge(merged, w, Public(e.header)) && sent == MissOver(e, merged)
  }

  /** The loop both paths share: add every header that is not internal. */
  method AddPublic(w: Header, h: Header) returns (r: Header)
    ensures IsMerge(r, w, Public(h))
  {
    hide Hidden, MergeIn, Added, Canonical;
    r := w;
    var rest := h.Keys;
    ghost var open := Public(h);
    ghost var order: seq<Bytes> := [];
    MergeNothing(w, open);
    while rest != {}
      invariant rest <= h.Keys && Enumerates(order, open.Keys - rest)
      invariant forall x :: x in order ==> x in open
      invariant r == MergeIn(order, w, open)
    {
      var k :| k in rest;
      if Hidden(k) {
        assert open.Keys - rest == open.Keys - (rest - {k});
      } else {
        r := AddValues(r, k, h[k]);
        MergeNext(order, w, open, k);
        EnumeratesNext(order, open.Keys - rest, k);
        assert open.Keys - rest + {k} == open.Keys - (rest - {k});
        order := order + [k];
      }
      rest := rest - {k};
    }
    assert open.Keys - {} == open.Keys;
  }

  method WriteResponse(e: ResponseEntry, w: Header) returns (sent: Response)
    ensures IsHit(sent, e, w)
  {
    hide IsMerge, Public;
    var h := AddPublic(w, e.header);
    ghost var merged := h;
    if e.contentType != [] && Get(h, CONTENT_TYPE) == [] {
      h := h[CONTENT_TYPE := [e.contentType]];
    }
    h := h[X_CACHE := [HIT]];
    h := h[X_PRECOG := [RAM_CACHE]];
    if e.status > 0 {
      sent := Response(e.status, h, e.body);
    } else {
      sent := Response(200, h, e.body);
    }
    assert sent == HitOver(e, merged);
  }

  method WriteMiss(e: ResponseEntry, w: Header) returns (sent: Response)
    ensures IsMiss(sent, e, w)
  {
    hide IsMerge, Public;
    var h := AddPublic(w, e.header);
    ghost var merged := h;
    if e.contentType != [] && Get(h, CONTENT_TYPE) == [] {
      h := h[CONTENT_TYPE := [e.contentType]];
    }
    h := h[X_CACHE := [MISS]];
    sent := Response(e.status, h, e.body);
    assert sent == MissOver(e, merged);
  }

  // ---- A HIT replays the MISS ----

  lemma InternalIsHidden(name: Bytes)
    ensures Hidden(InternalKey(name))
  {
    hide InternalKey;
    InternalKeyName(name);
    var l := Lower(InternalKey(name));
    assert l[..|INTERNAL|] == INTERNAL_LOWER;
    assert l[..13] == l[..14][..13];
    assert INTERNAL_LOWER[..13] == HIDDEN_PREFIX;
  }

  lemma PersistedPublic(h': Header, h: Header, vary: VaryMap)
    requires IsPersisted(h', h, vary)
    ensures Public(h') == Public(h)
  {
    hide InternalKey, Hidden;
    forall k | k in vary {
      InternalIsHidden(k);
    }
    assert Public(h').Keys == Public(h).Keys;
  }

  /** Status, body and every header but the two markers agree. */
  ghost predicate SameToClient(hit: Response, miss: Response) {
    && hit.status == miss.status && hit.body == miss.body
    && hit.header - {X_CACHE, X_PRECOG} == miss.header - {X_CACHE, X_PRECOG}
  }

  /**
   Whichever tier answers a lookup, a HIT on a response with headers w shows the status, body and
   every header of a MISS that the stored entry may have got, except X-Cache and X-Precog; of every
   such MISS, if no two of its headers are one name canonically.
   */
  lemma HitReplaysMiss(e: ResponseEntry, b: Binding, h: nat, r: ResponseEntry, w: Header,
      hit: Response) returns (miss: Response)
    requires IsStamped(b.entry, e, b.expire) && Answers(r, h, b)
    requires EntryFits(b.entry) && e.status > 0 && IsHit(hit, r, w)
    ensures IsMiss(miss, e, w) && SameToClient(hit, miss)
    ensures DistinctNames(Public(e.header)) ==> forall any :: IsMiss(any, e, w) ==> any == miss
    ensures Get(hit.header, X_CACHE) == HIT
  {
    hide Public, IsMerge, WithContentType, EntryFits, Answers, IsPersisted, DistinctNames;
    AnswersSame(r, h, b);
    PersistedPublic(b.entry.header, e.header, e.vary);
    XCacheCanonical();
    var merged :| IsMerge(merged, w, Public(r.header)) && hit == HitOver(r, merged);
    miss := MissOver(e, merged);
    if DistinctNames(Public(e.header)) {
      forall any | IsMiss(any, e, w)
        ensures any == miss
      {
        var other :| IsMerge(other, w, Public(e.header)) && any == MissOver(e, other);
        MergeUnique(other, merged, w, Public(e.header));
      }
    }
  }

  lemma XCacheCanonical()
    ensures Canonical(X_CACHE) == X_CACHE && X_CACHE != X_PRECOG
  {
    assert |X_CACHE| == 7 && |X_PRECOG| == 8;
    assert forall i :: 0 <= i < 7 ==> IsTokenByte(X_CACHE[i]);
    assert forall i :: 0 <= i < 7 ==> Capitalise(X_CACHE)[i] == X_CACHE[i];
  }

  // ---- What either sends, header by header ----

  /** The name begins with "x-precog-vary", in any case. */
  predicate Internal(k: Bytes) {
    Ascii("x-precog-vary") <= Lower(k)
  }

  lemma InternalIs(k: Bytes)
    ensures Internal(k) == Hidden(k)
  {
    assert HIDDEN_PREFIX == Ascii("x-precog-vary");
    hide Lower;
  }

  lemma Markers()
    ensures X_CACHE == Ascii("X-Cache") && X_PRECOG == Ascii("X-Precog") && CONTENT_TYPE == Ascii("Content-Type")
    ensures HIT == Ascii("HIT") && MISS == Ascii("MISS") && RAM_CACHE == Ascii("ram-cache")
  {
  }

  predicate Marker(name: Bytes) {
    name == Ascii("X-Cache") || name == Ascii("X-Precog")
  }

  /** The values under a name with the entry's content type filled in where there is none. */
  function Filled(values: seq<Bytes>, contentType: Bytes): seq<Bytes> {
    if contentType != [] && (values == [] || values[0] == []) then [contentType] else values
  }

  /** What is sent under a name that is no marker, given what the merge has there. */
  predicate SentAs(sent: seq<Bytes>, name: Bytes, merged: seq<Bytes>, contentType: Bytes) {
    sent == if name == Ascii("Content-Type") then Filled(merged, contentType) else merged
  }

  lemma ContentTypeName()
    ensures Canonical(CONTENT_TYPE) == CONTENT_TYPE
  {
    assert forall i :: 0 <= i < 12 ==> IsTokenByte(CONTENT_TYPE[i]);
    assert forall i :: 0 <= i < 12 ==> Capitalise(CONTENT_TYPE)[i] == CONTENT_TYPE[i];
  }

  lemma Under(e: ResponseEntry, merged: Header, name: Bytes)
    requires !Marker(name)
    ensures SentAs(ValuesOf(HitOver(e, merged).header, name), name, ValuesOf(merged, name), e.contentType)
    ensures SentAs(ValuesOf(MissOver(e, merged).header, name), name, ValuesOf(merged, name), e.contentType)
  {
    Markers();
    ContentTypeName();
    hide Canonical;
  }

  /** Status and body are the entry's, and the markers say what happened, on either path. */
  lemma SendsEntry(sent: Response, e: ResponseEntry, w: Header)
    ensures IsHit(sent, e, w) ==>
      && sent.status == (if e.status > 0 then e.status else 200) && sent.body == e.body
      && ValuesOf(sent.header, Ascii("X-Cache")) == [Ascii("HIT")]
      && ValuesOf(sent.header, Ascii("X-Precog")) == [Ascii("ram-cache")]
    ensures IsMiss(sent, e, w) ==>
      && sent.status == e.status && sent.body == e.body && ValuesOf(sent.header, Ascii("X-Cache")) == [Ascii("MISS")]
  {
    Markers();
    XCacheCanonical();
    hide IsMerge, Public, WithContentType;
  }

  /**
   On either path the client gets every header of the entry whose name does not begin with "x-precog-vary", with
   all its values behind those already there.
   */
  lemma SendsHeader(sent: Response, e: ResponseEntry, w: Header, k: Bytes)
    requires (IsHit(sent, e, w) || IsMiss(sent, e, w)) && DistinctNames(e.header)
    requires k in e.header && !Internal(k) && !Marker(Canonical(k))
    ensures var name := Canonical(k);
      SentAs(ValuesOf(sent.header, name), name, ValuesOf(w, name) + e.header[k], e.contentType)
  {
    hide IsMerge, Public, HitOver, MissOver, Canonical, SentAs, Internal, Marker;
    InternalIs(k);
    PublicHas(e.header, k);
    var merged := MergedOf(sent, e, w);
    MergeHas(merged, w, Public(e.header), k);
    Under(e, merged, Canonical(k));
  }

  /** Under a name that no such header has, it gets what was already there. */
  lemma SendsNothingElse(sent: Response, e: ResponseEntry, w: Header, name: Bytes)
    requires IsHit(sent, e, w) || IsMiss(sent, e, w)
    requires !Marker(name) && forall k :: k in e.header && Canonical(k) == name ==> Internal(k)
    ensures SentAs(ValuesOf(sent.header, name), name, ValuesOf(w, name), e.contentType)
  {
    hide IsMerge, Public, HitOver, MissOver, Canonical, SentAs, Internal, Marker;
    var merged := MergedOf(sent, e, w);
    forall k | k in Public(e.header)
      ensures Canonical(k) != name
    {
      InternalIs(k);
      PublicHas(e.header, k);
    }
    MergeKeeps(merged, w, Public(e.header), name);
    Under(e, merged, name);
  }

  lemma PublicHas(h: Header, k: Bytes)
    ensures k in Public(h) <==> k in h && !Hidden(k)
    ensures k in Public(h) ==> Public(h)[k] == h[k]
    ensures DistinctNames(h) ==> DistinctNames(Public(h))
  {
    hide Hidden, Canonical;
  }

  lemma MergedOf(sent: Response, e: ResponseEntry, w: Header) returns (merged: Header)
    requires IsHit(sent, e, w) || IsMiss(sent, e, w)
    ensures IsMerge(merged, w, Public(e.header))
    ensures sent == HitOver(e, merged) || sent == MissOver(e, merged)
  {
    hide IsMerge, Public, HitOver, MissOver;
    if IsHit(sent, e, w) {
      merged :| IsMerge(merged, w, Public(e.header)) && sent == HitOver(e, merged);
    } else {
      merged :| IsMerge(merged, w, Public(e.header)) && sent == MissOver(e, merged);
    }
  }
}
