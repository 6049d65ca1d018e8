/**
 The names and characters the program knows, spelled out: letter case, tokens, canonical names, the headers
 that caching looks at, and the names of its internal headers.
 */
module Spelling {
  import opened Bytes
  import opened HeaderCodec
  import opened Mime
  import opened Strings
  import opened StoreBridge
  import opened CacheKey
  import Arena
  import Protocol
  import Vary

  // ---- Letters and tokens ----

  predicate Between(b: Byte, lo: char, hi: char) {
    lo as int <= b <= hi as int
  }

  /** Lower case moves the 26 capitals by 32 and leaves every other byte; upper case moves them back. */
  lemma CaseIs(s: Bytes, i: nat)
    requires i < |s|
    ensures Lower(s)[i] == if Between(s[i], 'A', 'Z') then s[i] + 32 else s[i]
    ensures Upper(s)[i] == if Between(s[i], 'a', 'z') then s[i] - 32 else s[i]
    ensures |Lower(s)| == |Upper(s)| == |s|
  {
  }

  /** A token is made of letters, digits, and the fifteen signs of section 5.6.2 of RFC 9110. */
  lemma TokenIs(b: Byte)
    ensures IsTokenByte(b) <==>
      Between(b, 'a', 'z') || Between(b, 'A', 'Z') || Between(b, '0', '9') || b in Ascii("!#$%&'*+-.^_`|~")
  {
    var signs := Ascii("!#$%&'*+-.^_`|~");
    assert signs == [33, 35, 36, 37, 38, 39, 42, 43, 45, 46, 94, 95, 96, 124, 126];
  }

  /** The canonical form of a token: each word between hyphens with one capital; other names stay as they are. */
  lemma CanonicalIs(s: Bytes, i: nat)
    requires i < |s|
    ensures |Canonical(s)| == |s|
    ensures Canonical(s)[i] ==
      if exists j :: 0 <= j < |s| && !IsTokenByte(s[j]) then s[i]
      else if i == 0 || s[i - 1] == '-' as int then if Between(s[i], 'a', 'z') then s[i] - 32 else s[i]
      else if Between(s[i], 'A', 'Z') then s[i] + 32 else s[i]
  {
  }

  // ---- Texts in texts ----

  /** strings.Contains finds the text at any place. */
  lemma {:induction false} ContainsIff(s: Bytes, sub: Bytes)
    ensures Contains(s, sub) <==> exists i :: 0 <= i <= |s| && sub <= s[i..]
  {
    assert s[0..] == s;
    if s == [] {
      assert sub <= s ==> sub <= s[0..];
    } else {
      ContainsIff(s[1..], sub);
      if i :| 0 <= i <= |s[1..]| && sub <= s[1..][i..] {
        assert s[1..][i..] == s[i + 1..];
      }
      if i :| 0 <= i <= |s| && sub <= s[i..] && i > 0 {
        assert s[1..][i - 1..] == s[i..];
      }
    }
  }

  ghost predicate Mentions(s: Bytes, sub: Bytes) {
    exists i :: 0 <= i <= |s| && sub <= s[i..]
  }

  // ---- What caching sees of an entry ----

  lemma HeaderNames()
    ensures CACHE_CONTROL == Ascii("Cache-Control") && SET_COOKIE == Ascii("Set-Cookie") && Vary.VARY == Ascii("Vary")
    ensures NO_STORE == Ascii("no-store") && PRIVATE == Ascii("private") && PUBLIC == Ascii("public")
    ensures Vary.STAR == Ascii("*") && [COMMA] == Ascii(",") && CONTENT_TYPE == Ascii("Content-Type")
  {
  }

  /**
   To the protocol a response is no-store, private or public if its Cache-Control mentions the word, sets a
   cookie if it has a Set-Cookie header, and varies as its first Vary value says.
   */
  lemma ViewSays(e: Arena.ResponseEntry)
    ensures var v := ViewOf(e); var cc := Get(e.header, CACHE_CONTROL);
      && (v.noStore <==> Mentions(cc, NO_STORE)) && (v.priv <==> Mentions(cc, PRIVATE))
      && (v.pub <==> Mentions(cc, PUBLIC))
      && (v.setCookie <==> SET_COOKIE in e.header && e.header[SET_COOKIE] != [])
      && (v.vary.NoVary? <==> Get(e.header, Vary.VARY) == [])
      && (v.vary.Star? <==> Get(e.header, Vary.VARY) == Vary.STAR)
      && (e.status >= 0 ==> v.status == e.status) && v.body == e.body
  {
    var cc := Get(e.header, CACHE_CONTROL);
    ContainsIff(cc, NO_STORE);
    ContainsIff(cc, PRIVATE);
    ContainsIff(cc, PUBLIC);
    hide Contains, Get, VaryNames, CanonicalAll, LeadsEmpty, Canonical;
  }

  /** Header.Get: the first value under the canonical name. */
  lemma GetIs(h: Header, name: Bytes)
    ensures Get(h, name) == if Canonical(name) in h && h[Canonical(name)] != [] then h[Canonical(name)][0] else []
  {
  }

  /** An entry is fit for a request if its Vary is no star and each recorded value is what the request sends. */
  lemma MatchesIs(h: Header, vary: Vary.VaryMap, r: Header)
    ensures Vary.Matches(h, vary, r) <==>
      Get(h, Ascii("Vary")) != Ascii("*") && forall k :: k in vary ==> Get(r, k) == vary[k]
  {
    HeaderNames();
    hide Get;
  }

  // ---- Internal headers ----

  /** The value recorded for a token is kept under X-Precog-Vary- and its canonical form. */
  lemma InternalNames(name: Bytes)
    requires IsToken(name)
    ensures Vary.InternalKey(name) == Ascii("X-Precog-Vary-") + Canonical(name)
  {
    Vary.InternalKeyIs(name);
    assert Vary.INTERNAL == Ascii("X-Precog-Vary-");
    hide Capitalise;
  }

  /** A header counts as internal by its first 14 letters in any case, and what follows is the name. */
  lemma InternalIff(k: Bytes)
    ensures Vary.IsInternal(k) <==> Ascii("x-precog-vary-") <= Lower(k)
    ensures Vary.IsInternal(k) ==> |k| >= 14 && Vary.NameOf(k) == k[14..]
  {
    assert Vary.INTERNAL_LOWER == Ascii("x-precog-vary-") && |Vary.INTERNAL| == 14;
    hide Lower;
  }

  /** Persisting puts the value recorded for a token under its internal name, and under no other. */
  lemma PersistedIs(h': Header, h: Header, vary: Vary.VaryMap, k: Bytes)
    requires Vary.IsPersisted(h', h, vary) && k in vary && forall j :: j in vary ==> IsToken(j)
    requires forall j :: j in vary && Canonical(j) == Canonical(k) ==> j == k
    ensures var name := Ascii("X-Precog-Vary-") + Canonical(k); name in h' && h'[name] == [vary[k]]
  {
    hide Canonical, IsToken, Vary.InternalKey;
    InternalNames(k);
    forall j | j in vary && Vary.InternalKey(j) == Vary.InternalKey(k)
      ensures j == k
    {
      InternalNames(j);
      SamePrefix(Ascii("X-Precog-Vary-"), Canonical(j), Canonical(k));
    }
    hide Ascii;
    assert Vary.InternalKey(k) in h';
  }

  /** Every other header is as before. */
  lemma PersistedElsewhere(h': Header, h: Header, vary: Vary.VaryMap, name: Bytes)
    requires Vary.IsPersisted(h', h, vary) && forall k :: k in vary ==> IsToken(k)
    requires forall k :: k in vary ==> name != Ascii("X-Precog-Vary-") + Canonical(k)
    ensures name in h' <==> name in h
    ensures name in h' ==> h'[name] == h[name]
  {
    hide Canonical, IsToken, Vary.InternalKey, Ascii;
    forall k | k in vary
      ensures Vary.InternalKey(k) != name
    {
      InternalNames(k);
    }
  }

  lemma SamePrefix(a: Bytes, x: Bytes, y: Bytes)
    requires a + x == a + y
    ensures x == y
  {
    assert (a + x)[|a|..] == x && (a + y)[|a|..] == y;
  }

  /** Recovering takes the first value of each internal header that has one, under what follows its first 14 letters. */
  lemma RecoveredIs(vary: Vary.VaryMap, h: Header, n: Bytes)
    requires Vary.IsRecovered(vary, h)
    ensures n in vary <==>
      exists p :: p in h && h[p] != [] && Ascii("x-precog-vary-") <= Lower(p) && p[14..] == n
    ensures n in vary ==>
      exists p :: p in h && h[p] != [] && Ascii("x-precog-vary-") <= Lower(p) && p[14..] == n && h[p][0] == vary[n]
  {
    hide Lower, Vary.IsInternal;
    forall p | p in h
      ensures Vary.IsInternal(p) <==> Ascii("x-precog-vary-") <= Lower(p)
      ensures Vary.IsInternal(p) ==> |p| >= 14 && Vary.NameOf(p) == p[14..]
    {
      InternalIff(p);
    }
    if p :| p in h && h[p] != [] && Ascii("x-precog-vary-") <= Lower(p) && p[14..] == n {
      assert Vary.NameOf(p) == n;
    }
    if n in vary {
      var p :| p in h && Vary.IsInternal(p) && |h[p]| > 0 && Vary.NameOf(p) == n && h[p][0] == vary[n];
      assert p[14..] == n;
    }
  }
}
