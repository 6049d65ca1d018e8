/**
 The Vary decision (RFC 9111, section 4.1): recording the request headers a response varies
 on, persisting them as internal headers in the arena, and recovering them on a read.
 */
module Vary {
  import opened Bytes
  import opened HeaderCodec
  import opened Mime

  type VaryMap = map<Bytes, Bytes>

  // "X-Precog-Vary-", "x-precog-vary-", "Vary" and "*" in ASCII.
  const INTERNAL: Bytes := [88, 45, 80, 114, 101, 99, 111, 103, 45, 86, 97, 114, 121, 45]
  const INTERNAL_LOWER: Bytes := [120, 45, 112, 114, 101, 99, 111, 103, 45, 118, 97, 114, 121, 45]
  const VARY: Bytes := [86, 97, 114, 121]
  const STAR: Bytes := [42]

  // ---- The decision ----

  predicate Satisfies(r: Header, vary: VaryMap) {
    forall k :: k in vary ==> Get(r, k) == vary[k]
  }

  /** MatchesVary, for an entry with the given response header and recorded request headers. */
  predicate Matches(h: Header, vary: VaryMap, r: Header) {
    Get(h, VARY) != STAR && Satisfies(r, vary)
  }

  method MatchesVary(h: Header, vary: VaryMap, r: Header) returns (ok: bool)
    ensures ok == Matches(h, vary, r)
  {
    if Get(h, VARY) == STAR {
      return false;
    }
    var rest := vary.Keys;
    while rest != {}
      invariant rest <= vary.Keys
      invariant forall k :: k in vary && k !in rest ==> Get(r, k) == vary[k]
    {
      var k :| k in rest;
      if Get(r, k) != vary[k] {
        return false;
      }
      rest := rest - {k};
    }
    return true;
  }

  // ---- Persisting into and recovering from the stored header ----

  /** The internal header that carries the value recorded for name. */
  function InternalKey(name: Bytes): Bytes {
    Canonical(INTERNAL + Lower(name))
  }

  predicate IsInternal(k: Bytes) {
    |k| >= |INTERNAL| && Lower(k)[..|INTERNAL|] == INTERNAL_LOWER
  }

  function NameOf(k: Bytes): Bytes
    requires IsInternal(k)
  {
    k[|INTERNAL|..]
  }

  /** What SetByHash leaves in the header: of recorded names with one internal key, some value wins. */
  ghost predicate IsPersisted(h': Header, h: Header, vary: VaryMap) {
    && h'.Keys == h.Keys + (set k | k in vary :: InternalKey(k))
    && forall p :: p in h' ==>
         if exists k :: k in vary && InternalKey(k) == p
         then exists k :: k in vary && InternalKey(k) == p && h'[p] == [vary[k]]
         else h'[p] == h[p]
  }

  /** What GetByHash recovers from the header it decoded. */
  ghost predicate IsRecovered(vary: VaryMap, h: Header) {
    && (forall p :: p in h && IsInternal(p) && |h[p]| > 0 ==> NameOf(p) in vary)
    && forall n :: n in vary ==>
         exists p :: p in h && IsInternal(p) && |h[p]| > 0 && NameOf(p) == n && h[p][0] == vary[n]
  }

  method PersistVary(h: Header, vary: VaryMap) returns (h': Header)
    ensures IsPersisted(h', h, vary)
  {
    h' := h;
    var rest := vary.Keys;
    while rest != {}
      invariant rest <= vary.Keys
      invariant IsPersisted(h', h, vary - rest)
    {
      var k :| k in rest;
      PersistNext(h', h, vary - rest, k, vary[k]);
      h' := h'[InternalKey(k) := [vary[k]]];
      assert (vary - rest)[k := vary[k]] == vary - (rest - {k});
      rest := rest - {k};
    }
    assert vary - rest == vary;
  }

  lemma PersistNext(h': Header, h: Header, vary: VaryMap, k: Bytes, v: Bytes)
    requires IsPersisted(h', h, vary) && k !in vary
    ensures IsPersisted(h'[InternalKey(k) := [v]], h, vary[k := v])
  {
    hide InternalKey;
    var h'', vary' := h'[InternalKey(k) := [v]], vary[k := v];
    forall p | p in h''
      ensures if exists x :: x in vary' && InternalKey(x) == p
              then exists x :: x in vary' && InternalKey(x) == p && h''[p] == [vary'[x]]
              else h''[p] == h[p]
    {
      if p == InternalKey(k) {
        assert k in vary' && h''[p] == [vary'[k]];
      } else if x :| x in vary && InternalKey(x) == p && h'[p] == [vary[x]] {
        assert x in vary' && h''[p] == [vary'[x]];
      }
    }
  }

  method RecoverVary(h: Header) returns (vary: VaryMap)
    ensures IsRecovered(vary, h)
  {
    hide IsInternal;
    vary := map[];
    var rest := h.Keys;
    while rest != {}
      invariant rest <= h.Keys
      invariant forall p :: p in h && p !in rest && IsInternal(p) && |h[p]| > 0 ==> NameOf(p) in vary
      invariant forall n :: n in vary ==>
        exists p :: p in h && IsInternal(p) && |h[p]| > 0 && NameOf(p) == n && h[p][0] == vary[n]
    {
      var p :| p in rest;
      if IsInternal(p) && |h[p]| > 0 {
        vary := vary[NameOf(p) := h[p][0]];
      }
      rest := rest - {p};
    }
  }

  // ---- Internal keys name the same request header ----

  lemma InternalIsToken()
    ensures IsToken(INTERNAL)
  {
  }

  lemma InternalLowered()
    ensures Lower(INTERNAL) == INTERNAL_LOWER
  {
    assert forall i :: 0 <= i < 14 ==> LowerByte(INTERNAL[i]) == INTERNAL_LOWER[i];
  }

  lemma InternalCapitalised()
    ensures Capitalise(INTERNAL_LOWER) == INTERNAL
  {
    forall i | 0 <= i < 14
      ensures Capitalise(INTERNAL_LOWER)[i] == INTERNAL[i]
    {
      InternalLowered();
      if i == 0 || i == 2 || i == 9 {
        assert UpperByte(INTERNAL_LOWER[i]) == INTERNAL[i];
      } else {
        assert INTERNAL_LOWER[i - 1] != HYPHEN;
        assert LowerByte(INTERNAL_LOWER[i]) == INTERNAL[i];
      }
    }
  }

  lemma InternalPrefix()
    ensures IsToken(INTERNAL) && |INTERNAL| == |INTERNAL_LOWER| == 14 && INTERNAL[13] == HYPHEN
    ensures Capitalise(INTERNAL_LOWER) == INTERNAL && Lower(INTERNAL) == INTERNAL_LOWER
  {
    InternalIsToken();
    InternalLowered();
    InternalCapitalised();
  }

  /** Behind an internal prefix in any letter case, capitalisation starts afresh. */
  lemma CapitaliseInternal(q: Bytes, s: Bytes)
    requires Lower(q) == INTERNAL_LOWER
    ensures Capitalise(q + s) == INTERNAL + Capitalise(s)
  {
    InternalPrefix();
    CapitaliseForgetsCase(q);
    assert LowerByte(q[13]) == INTERNAL_LOWER[13] == HYPHEN;
    forall i | 0 <= i < |q + s|
      ensures Capitalise(q + s)[i] == (INTERNAL + Capitalise(s))[i]
    {
      if i < 14 {
        assert Capitalise(q)[i] == INTERNAL[i];
      }
    }
  }

  lemma InternalKeyIs(k: Bytes)
    ensures InternalKey(k) == INTERNAL + (if IsToken(k) then Capitalise(k) else Lower(k))
  {
    InternalPrefix();
    LowerKeepsToken(k);
    CapitaliseForgetsCase(k);
    CapitaliseInternal(INTERNAL, Lower(k));
    assert IsToken(INTERNAL + Lower(k)) <==> IsToken(Lower(k)) by {
      assert forall i :: 0 <= i < |k| ==> (INTERNAL + Lower(k))[14 + i] == Lower(k)[i];
    }
  }

  lemma InternalKeyName(k: Bytes)
    ensures IsInternal(InternalKey(k)) && |InternalKey(k)| >= 14
    ensures NameOf(InternalKey(k)) == if IsToken(k) then Capitalise(k) else Lower(k)
  {
    hide InternalKey, Capitalise, IsToken;
    InternalKeyIs(k);
    InternalPrefix();
    var p := InternalKey(k);
    assert Lower(p)[..14] == Lower(INTERNAL) by {
      assert forall i :: 0 <= i < 14 ==> Lower(p)[i] == LowerByte(INTERNAL[i]);
    }
  }

  lemma InternalLookup(r: Header, k: Bytes)
    requires IsCanonical(r)
    ensures IsInternal(InternalKey(k))
    ensures Get(r, NameOf(InternalKey(k))) == Get(r, k)
  {
    hide InternalKey, IsInternal, NameOf, Capitalise, IsToken;
    InternalKeyName(k);
    LowerKeepsToken(k);
    CapitaliseForgetsCase(k);
  }

  /** Among canonical keys, the internal key of a name is the only one for that request header. */
  lemma InternalKeyUnique(p: Bytes, k: Bytes)
    requires IsToken(p) && Canonical(p) == p && IsInternal(p)
    requires Canonical(k) == Canonical(NameOf(p))
    ensures InternalKey(k) == p
  {
    InternalPrefix();
    var q, name := p[..14], NameOf(p);
    assert p == q + name;
    assert Lower(q) == INTERNAL_LOWER;
    assert IsToken(name) by {
      assert forall i :: 0 <= i < |name| ==> name[i] == p[14 + i];
    }
    hide Capitalise, IsToken, Lower;
    CapitaliseInternal(q, name);
    CapitaliseForgetsCase(name);
    InternalKeyIs(k);
  }

  // ---- Does the decision survive the arena? ----

  /** Every internal-looking header the response itself carries is one the recorded Vary overwrites. */
  ghost predicate Overwritten(h: Header, vary: VaryMap) {
    forall p :: p in h && IsInternal(p) && |h[p]| > 0 ==> exists k :: k in vary && InternalKey(k) == p
  }

  lemma PersistedVary(h': Header, h: Header, vary: VaryMap)
    requires IsPersisted(h', h, vary)
    ensures Get(h', VARY) == Get(h, VARY)
  {
    hide InternalKey, IsInternal;
    assert |Canonical(VARY)| == 4;
    forall k | k in vary
      ensures InternalKey(k) != Canonical(VARY)
    {
      InternalKeyName(k);
    }
  }

  /** A recovered constraint comes from a recorded one when nothing else in the header looks internal. */
  lemma RecoveredFrom(h': Header, h: Header, vary: VaryMap, vary': VaryMap, n: Bytes)
      returns (k: Bytes)
    requires IsPersisted(h', h, vary) && IsRecovered(vary', h') && Overwritten(h, vary)
    requires n in vary'
    ensures k in vary && vary'[n] == vary[k]
    ensures IsInternal(InternalKey(k)) && NameOf(InternalKey(k)) == n
  {
    hide InternalKey, IsInternal, NameOf;
    var p :| p in h' && IsInternal(p) && |h'[p]| > 0 && NameOf(p) == n && h'[p][0] == vary'[n];
    k :| k in vary && InternalKey(k) == p && h'[p] == [vary[k]];
  }

  /** Two recorded names with one recovered name had the same value in the recording request. */
  lemma RecordedAlike(r0: Header, vary: VaryMap, j: Bytes, k: Bytes)
    requires IsCanonical(r0) && Satisfies(r0, vary) && j in vary && k in vary
    ensures IsInternal(InternalKey(j)) && IsInternal(InternalKey(k))
    ensures NameOf(InternalKey(j)) == NameOf(InternalKey(k)) ==> vary[j] == vary[k]
  {
    hide InternalKey, IsInternal, NameOf, Get, IsCanonical;
    InternalLookup(r0, j);
    InternalLookup(r0, k);
  }

  lemma SatisfiesSurvives(h': Header, h: Header, vary: VaryMap, vary': VaryMap, r0: Header, r: Header)
    requires IsPersisted(h', h, vary) && IsRecovered(vary', h') && Overwritten(h, vary)
    requires IsCanonical(r0) && Satisfies(r0, vary) && IsCanonical(r)
    ensures Satisfies(r, vary') == Satisfies(r, vary)
  {
    hide InternalKey, IsInternal, NameOf, Get, IsCanonical, Overwritten;
    forall n | n in vary' && Satisfies(r, vary)
      ensures Get(r, n) == vary'[n]
    {
      var k := RecoveredFrom(h', h, vary, vary', n);
      InternalLookup(r, k);
    }
    forall k | k in vary && Satisfies(r, vary')
      ensures Get(r, k) == vary[k]
    {
      var p := InternalKey(k);
      InternalLookup(r, k);
      assert p in h' && |h'[p]| > 0;
      var j := RecoveredFrom(h', h, vary, vary', NameOf(p));
      RecordedAlike(r0, vary, j, k);
    }
  }

  /** A request that meets every recorded constraint and violates one the response smuggled in. */
  lemma Distinguishes(h': Header, h: Header, vary: VaryMap, vary': VaryMap, r0: Header, p: Bytes)
      returns (r: Header)
    requires IsPersisted(h', h, vary) && IsRecovered(vary', h') && IsCanonical(h)
    requires IsCanonical(r0) && Satisfies(r0, vary)
    requires p in h && IsInternal(p) && |h[p]| > 0 && forall k :: k in vary ==> InternalKey(k) != p
    ensures IsCanonical(r) && Satisfies(r, vary) && !Satisfies(r, vary')
  {
    hide InternalKey, IsInternal;
    var n := NameOf(p);
    var c := Canonical(n);
    assert p in h' && h'[p] == h[p];
    var w := vary'[n];
    r := r0[c := [w + [0]]];
    NameOfToken(p);
    forall k | k in vary
      ensures Get(r, k) == vary[k]
    {
      if Canonical(k) == c {
        InternalKeyUnique(p, k);
      }
    }
    assert Get(r, n) == w + [0];
  }

  lemma NameOfToken(p: Bytes)
    requires IsToken(p) && IsInternal(p)
    ensures IsToken(NameOf(p)) && IsToken(Canonical(NameOf(p)))
    ensures Canonical(Canonical(NameOf(p))) == Canonical(NameOf(p))
  {
    assert forall i :: 0 <= i < |NameOf(p)| ==> NameOf(p)[i] == p[|INTERNAL| + i];
    CapitaliseForgetsCase(NameOf(p));
  }

  /**
   Reading an entry back from the arena keeps its Vary decision for every request, exactly when
   the response is never matched (Vary: *) or carries no internal-looking header of its own
   beyond those its recorded Vary overwrites.
   */
  lemma DecisionSurvives(h': Header, h: Header, vary: VaryMap, vary': VaryMap, r0: Header)
    requires IsPersisted(h', h, vary) && IsRecovered(vary', h')
    requires IsCanonical(h) && IsCanonical(r0) && Satisfies(r0, vary)
    ensures (forall r :: IsCanonical(r) ==> Matches(h', vary', r) == Matches(h, vary, r))
       <==> (Get(h, VARY) == STAR || Overwritten(h, vary))
  {
    hide InternalKey, IsInternal, IsPersisted, IsRecovered, Get, IsCanonical, Satisfies;
    PersistedVary(h', h, vary);
    if Get(h, VARY) != STAR {
      if Overwritten(h, vary) {
        forall r | IsCanonical(r)
          ensures Satisfies(r, vary') == Satisfies(r, vary)
        {
          SatisfiesSurvives(h', h, vary, vary', r0, r);
        }
      } else {
        var p :| p in h && IsInternal(p) && |h[p]| > 0 && forall k :: k in vary ==> InternalKey(k) != p;
        var r := Distinguishes(h', h, vary, vary', r0, p);
        assert Matches(h, vary, r) && !Matches(h', vary', r);
      }
    }
  }

  // ---- A response for which it does not ----

  // "X-Precog-Vary-A", "A" and "1" in ASCII.
  const OWN_HEADER := INTERNAL + [65]
  const OWN_NAME: Bytes := [65]
  const OWN_VALUE: Bytes := [49]

  /**
   A response that itself carries an X-Precog-Vary-A header, and varies on nothing, matches every
   request before the arena, and only requests with that value of A when read back from it.
   */
  lemma OwnVaryHeaderChangesDecision()
    ensures var h: Header := map[OWN_HEADER := [OWN_VALUE]];
      var vary: VaryMap := map[OWN_NAME := OWN_VALUE];
      && IsPersisted(h, h, map[]) && IsRecovered(vary, h)
      && Matches(h, map[], map[]) && !Matches(h, vary, map[])
  {
    var h: Header := map[OWN_HEADER := [OWN_VALUE]];
    var vary: VaryMap := map[OWN_NAME := OWN_VALUE];
    InternalPrefix();
    assert Lower(OWN_HEADER)[..14] == Lower(INTERNAL);
    assert IsInternal(OWN_HEADER) && NameOf(OWN_HEADER) == OWN_NAME;
    assert |Canonical(VARY)| == 4 && Get(h, VARY) == [];
    assert OWN_NAME in vary && Get(map[], OWN_NAME) == [];
    hide Get, InternalKey, IsInternal, Canonical;
  }
}
