/** The cache key: a canonical form of method, host, path and query, hashed and written in hex. */
module CacheKey {
  import opened Bytes
  import opened Mime
  import opened Sorting
  import opened Strings

  const SPACE: Byte := 32
  const QUESTION: Byte := 63
  const AMPERSAND: Byte := 38
  const SLASH: Byte := 47

  /** strings.ToUpper */
  function Upper(s: Bytes): (r: Bytes)
    ensures |r| == |s| && forall i :: 0 <= i < |s| ==> r[i] == UpperByte(s[i])
  {
    seq(|s|, i requires 0 <= i < |s| => UpperByte(s[i]))
  }

  /** The order of sort.Strings: bytewise, prefixes first. */
  predicate Leq(a: Bytes, b: Bytes) {
    a == [] || (b != [] && (a[0] < b[0] || (a[0] == b[0] && Leq(a[1..], b[1..]))))
  }

  // ---- The text fed to the hash ----

  /** Raw "&"-delimited segments sorted, unless there is no "&" to split at. */
  function CanonicalQuery(q: Bytes): Bytes {
    if AMPERSAND !in q then q else SortedQuery(q)
  }

  function SortedQuery(q: Bytes): Bytes {
    Join(Sort(Split(q, AMPERSAND), Leq), AMPERSAND)
  }

  function Suffix(q: Bytes): Bytes {
    if q == [] then [] else [QUESTION] + CanonicalQuery(q)
  }

  function HostPart(host: Bytes): Bytes {
    if host == [] then [] else Lower(host) + [SPACE]
  }

  function Fed(verb: Bytes, host: Bytes, path: Bytes, query: Bytes): Bytes {
    Upper(verb) + [SPACE] + (HostPart(host) + (path + Suffix(query)))
  }

  /** Methods are tokens, hosts hold no space or slash, and paths are empty or start with a slash. */
  predicate WellFormed(verb: Bytes, host: Bytes, path: Bytes) {
    SPACE !in verb && SPACE !in host && SLASH !in host && (path != [] ==> path[0] == SLASH)
  }

  /** Where a path is empty, the "?" of its query must not be taken for the start of a host. */
  predicate ToldApart(h1: Bytes, p1: Bytes, h2: Bytes, p2: Bytes) {
    (p1 != [] && p2 != []) || (QUESTION !in h1 && QUESTION !in h2)
  }

  // ---- The byte order is total ----

  lemma {:induction false} LeqTotal(a: Bytes, b: Bytes)
    ensures Leq(a, b) || Leq(b, a)
    ensures Leq(a, b) && Leq(b, a) ==> a == b
  {
    if a != [] && b != [] {
      LeqTotal(a[1..], b[1..]);
      assert a == [a[0]] + a[1..] && b == [b[0]] + b[1..];
    }
  }

  lemma {:induction false} LeqTransitive(a: Bytes, b: Bytes, c: Bytes)
    requires Leq(a, b) && Leq(b, c)
    ensures Leq(a, c)
  {
    if a != [] && a[0] == b[0] && b[0] == c[0] {
      LeqTransitive(a[1..], b[1..], c[1..]);
    }
  }

  lemma LeqIsTotalOrder()
    ensures TotalOrder(Leq)
  {
    hide Leq;
    forall a, b { LeqTotal(a, b); }
    forall a, b, c | Leq(a, b) && Leq(b, c) { LeqTransitive(a, b, c); }
  }

  // ---- The query part ----

  /** The shortcut for a query without "&" gives what sorting its one segment gives. */
  lemma ShortcutAgrees(q: Bytes)
    ensures CanonicalQuery(q) == SortedQuery(q)
  {
    hide Leq, Join;
    if AMPERSAND !in q {
      SplitNoSep(q, AMPERSAND);
      assert [q][1..] == [];
      SortOne(q);
      JoinOne(q);
    }
  }

  lemma SortOne(q: Bytes)
    ensures Sort([q], Leq) == [q]
  {
    hide Leq;
    assert Sort([q][1..], Leq) == [];
  }

  lemma JoinOne(q: Bytes)
    ensures Join([q], AMPERSAND) == q
  {
  }

  lemma SortedPartsJoin(q: Bytes)
    ensures Split(SortedQuery(q), AMPERSAND) == Sort(Split(q, AMPERSAND), Leq)
  {
    hide Leq, Join, Split, Sort;
    var parts := Split(q, AMPERSAND);
    var sorted := Sort(parts, Leq);
    PartsHaveNoSep(q, AMPERSAND);
    forall p | p in sorted
      ensures AMPERSAND !in p
    {
      assert p in multiset(sorted);
      assert p in parts;
    }
    SplitJoin(sorted, AMPERSAND);
  }

  /** Two queries have one canonical form exactly when they have the same segments, order aside. */
  lemma SameQueryIff(q1: Bytes, q2: Bytes)
    ensures CanonicalQuery(q1) == CanonicalQuery(q2)
       <==> multiset(Split(q1, AMPERSAND)) == multiset(Split(q2, AMPERSAND))
  {
    ShortcutAgrees(q1);
    ShortcutAgrees(q2);
    SortedPartsJoin(q1);
    SortedPartsJoin(q2);
    LeqIsTotalOrder();
    SortEqualIff(Split(q1, AMPERSAND), Split(q2, AMPERSAND), Leq);
    hide Leq, Join, Split, Sort;
  }

  lemma {:induction false} JoinEmptyOnly(parts: seq<Bytes>)
    requires parts != [] && Join(parts, AMPERSAND) == []
    ensures parts == [[]]
  {
  }

  /** Only the empty query has an empty canonical form, so the "?" tells the two cases apart. */
  lemma EmptyQuery(q: Bytes)
    ensures CanonicalQuery(q) == [] <==> q == []
  {
    hide Leq;
    if AMPERSAND in q && SortedQuery(q) == [] {
      var parts := Split(q, AMPERSAND);
      JoinEmptyOnly(Sort(parts, Leq));
      assert |parts| == 1;
      SortedPartsJoin(q);
      OnePart(q);
    }
  }

  lemma {:induction false} OnePart(q: Bytes)
    requires |Split(q, AMPERSAND)| == 1
    ensures AMPERSAND !in q
  {
    if q != [] {
      OnePart(q[1..]);
      assert q == [q[0]] + q[1..];
    }
  }

  // ---- The whole text ----

  lemma CaseKeeps(s: Bytes, b: Byte)
    requires b == SPACE || b == SLASH || b == QUESTION
    ensures b in Upper(s) <==> b in s
    ensures b in Lower(s) <==> b in s
  {
    assert forall i :: 0 <= i < |s| ==> (Upper(s)[i] == b <==> s[i] == b);
    assert forall i :: 0 <= i < |s| ==> (Lower(s)[i] == b <==> s[i] == b);
  }

  lemma SameSuffixIff(q1: Bytes, q2: Bytes)
    ensures Suffix(q1) == Suffix(q2) <==> CanonicalQuery(q1) == CanonicalQuery(q2)
  {
    hide CanonicalQuery;
    EmptyQuery(q1);
    EmptyQuery(q2);
    if q1 != [] && q2 != [] && Suffix(q1) == Suffix(q2) {
      assert CanonicalQuery(q1) == Suffix(q1)[1..] == Suffix(q2)[1..] == CanonicalQuery(q2);
    }
  }

  /** A path without "?" ends where the suffix begins. */
  lemma PathAndSuffix(p1: Bytes, q1: Bytes, p2: Bytes, q2: Bytes)
    requires QUESTION !in p1 && QUESTION !in p2
    requires p1 + Suffix(q1) == p2 + Suffix(q2)
    ensures p1 == p2 && Suffix(q1) == Suffix(q2)
  {
    hide CanonicalQuery;
    var c1, c2 := CanonicalQuery(q1), CanonicalQuery(q2);
    assert p1 + [] == p1 && p2 + [] == p2;
    QuestionIff(p1, q1);
    QuestionIff(p2, q2);
    if q1 != [] && q2 != [] {
      assert p1 + Suffix(q1) == p1 + [QUESTION] + c1;
      assert p2 + Suffix(q2) == p2 + [QUESTION] + c2;
      FirstSep(p1, c1, p2, c2, QUESTION);
    }
  }

  lemma QuestionIff(p: Bytes, q: Bytes)
    requires QUESTION !in p
    ensures QUESTION in p + Suffix(q) <==> q != []
  {
    hide CanonicalQuery;
    if q != [] {
      assert (p + Suffix(q))[|p|] == QUESTION;
    }
  }

  /** What follows the host part: a slash, a "?" of a query behind an empty path, or nothing. */
  predicate IsRest(r: Bytes) {
    r == [] || r[0] == SLASH || r[0] == QUESTION
  }

  lemma FirstByte(h: Bytes, r: Bytes)
    requires h != []
    ensures HostPart(h) + r != [] && (HostPart(h) + r)[0] == Lower(h)[0] && Lower(h)[0] in Lower(h)
  {
  }

  /** The host part is told apart from what follows by its first byte and ended by its space. */
  lemma HostAndRest(h1: Bytes, r1: Bytes, h2: Bytes, r2: Bytes)
    requires SPACE !in h1 && SLASH !in h1 && SPACE !in h2 && SLASH !in h2 && IsRest(r1) && IsRest(r2)
    requires (r1 != [] && r1[0] == SLASH && r2 != [] && r2[0] == SLASH) || (QUESTION !in h1 && QUESTION !in h2)
    requires HostPart(h1) + r1 == HostPart(h2) + r2
    ensures Lower(h1) == Lower(h2) && r1 == r2
  {
    HostBytes(h1);
    HostBytes(h2);
    var s1, s2 := HostPart(h1) + r1, HostPart(h2) + r2;
    if h1 != [] { FirstByte(h1, r1); }
    if h2 != [] { FirstByte(h2, r2); }
    assert [] + r1 == r1 && [] + r2 == r2;
    if h1 != [] && h2 != [] {
      assert s1 == Lower(h1) + [SPACE] + r1;
      assert s2 == Lower(h2) + [SPACE] + r2;
      hide Lower;
      FirstSep(Lower(h1), r1, Lower(h2), r2, SPACE);
    }
  }

  lemma HostBytes(h: Bytes)
    ensures SPACE in Lower(h) <==> SPACE in h
    ensures SLASH in Lower(h) <==> SLASH in h
    ensures QUESTION in Lower(h) <==> QUESTION in h
  {
    CaseKeeps(h, SPACE);
    CaseKeeps(h, SLASH);
    CaseKeeps(h, QUESTION);
  }

  /** Path and canonical query as they are fed, in one piece. */
  function Target(path: Bytes, query: Bytes): Bytes {
    path + Suffix(query)
  }

  /**
   Two requests feed the same text to the hash exactly when upper-cased methods, lower-cased hosts,
   and the targets made of path and canonical query agree.
   */
  lemma FedEqualIff(m1: Bytes, h1: Bytes, p1: Bytes, q1: Bytes, m2: Bytes, h2: Bytes, p2: Bytes, q2: Bytes)
    requires WellFormed(m1, h1, p1) && WellFormed(m2, h2, p2) && ToldApart(h1, p1, h2, p2)
    ensures Fed(m1, h1, p1, q1) == Fed(m2, h2, p2, q2) <==>
      Upper(m1) == Upper(m2) && Lower(h1) == Lower(h2) && Target(p1, q1) == Target(p2, q2)
  {
    hide Suffix, HostPart, Upper, Lower;
    CaseKeeps(m1, SPACE);
    CaseKeeps(m2, SPACE);
    TargetIsRest(p1, q1);
    TargetIsRest(p2, q2);
    if Fed(m1, h1, p1, q1) == Fed(m2, h2, p2, q2) {
      FirstSep(Upper(m1), HostPart(h1) + (p1 + Suffix(q1)), Upper(m2), HostPart(h2) + (p2 + Suffix(q2)), SPACE);
      HostAndRest(h1, p1 + Suffix(q1), h2, p2 + Suffix(q2));
    }
    if Lower(h1) == Lower(h2) {
      SameHostPart(h1, h2);
    }
  }

  lemma TargetIsRest(p: Bytes, q: Bytes)
    requires p != [] ==> p[0] == SLASH
    ensures IsRest(p + Suffix(q)) && (p != [] ==> (p + Suffix(q))[0] == SLASH && p + Suffix(q) != [])
  {
    hide CanonicalQuery;
  }

  /** Targets of paths of one length, with any bytes in them, agree exactly when both parts do. */
  lemma SameLengthTargetIff(p1: Bytes, q1: Bytes, p2: Bytes, q2: Bytes)
    requires |p1| == |p2|
    ensures Target(p1, q1) == Target(p2, q2) <==>
      p1 == p2 && multiset(Split(q1, AMPERSAND)) == multiset(Split(q2, AMPERSAND))
  {
    hide Suffix, CanonicalQuery, Split;
    HeadAndTail(p1, Suffix(q1), p2, Suffix(q2));
    SameSuffixIff(q1, q2);
    SameQueryIff(q1, q2);
  }

  /** Between paths without "?" targets agree exactly when paths and multisets of segments do. */
  lemma SameTargetIff(p1: Bytes, q1: Bytes, p2: Bytes, q2: Bytes)
    requires QUESTION !in p1 && QUESTION !in p2
    ensures Target(p1, q1) == Target(p2, q2) <==>
      p1 == p2 && multiset(Split(q1, AMPERSAND)) == multiset(Split(q2, AMPERSAND))
  {
    hide Suffix, CanonicalQuery, Split;
    SameQueryIff(q1, q2);
    SameSuffixIff(q1, q2);
    if Target(p1, q1) == Target(p2, q2) {
      PathAndSuffix(p1, q1, p2, q2);
    }
  }

  /**
   Over all paths, targets agree although paths differ exactly when one path holds a "?" behind the
   other path, and what follows it there, with its own query, is the other's canonical query.
   */
  lemma TargetsMixedIff(p1: Bytes, q1: Bytes, p2: Bytes, q2: Bytes)
    requires |p1| < |p2|
    ensures Target(p1, q1) == Target(p2, q2) <==>
      && q1 != [] && p1 + [QUESTION] <= p2
      && CanonicalQuery(q1) == p2[|p1| + 1..] + Suffix(q2)
  {
    hide CanonicalQuery;
    var n := |p1|;
    if q1 == [] {
      assert Target(p1, q1) == p1;
    } else {
      assert Target(p1, q1) == (p1 + [QUESTION]) + CanonicalQuery(q1);
      assert p2 == p2[..n + 1] + p2[n + 1..];
      Assoc(p2[..n + 1], p2[n + 1..], Suffix(q2));
      hide Suffix;
      HeadAndTail(p1 + [QUESTION], CanonicalQuery(q1), p2[..n + 1], p2[n + 1..] + Suffix(q2));
    }
  }

  /** Texts with heads of one length are equal exactly when heads and tails are. */
  lemma HeadAndTail(a: Bytes, s: Bytes, b: Bytes, t: Bytes)
    requires |a| == |b|
    ensures a + s == b + t <==> a == b && s == t
  {
    if a + s == b + t {
      assert a == (a + s)[..|a|] && b == (b + t)[..|b|];
      assert s == (a + s)[|a|..] && t == (b + t)[|b|..];
    }
  }

  /** A decoded path "/a?b" without a query is fed like the path "/a" with the query "b". */
  lemma QuestionInPathCollides(verb: Bytes, host: Bytes)
    ensures Fed(verb, host, [SLASH, 97, QUESTION, 98], []) == Fed(verb, host, [SLASH, 97], [98])
  {
    assert CanonicalQuery([98]) == [98];
    assert [SLASH, 97, QUESTION, 98] + Suffix([]) == [SLASH, 97] + Suffix([98]);
  }

  /** A host "/a" before a path "/b" is fed like no host before a path "/a /b". */
  lemma SlashInHostCollides(verb: Bytes, query: Bytes)
    ensures Fed(verb, [SLASH, 97], [SLASH, 98], query) == Fed(verb, [], [SLASH, 97, SPACE, SLASH, 98], query)
  {
    assert HostPart([SLASH, 97]) == [SLASH, 97, SPACE];
    hide Suffix, HostPart;
    assert HostPart([]) == [] by { NoHost(); }
    assert [SLASH, 97, SPACE] + ([SLASH, 98] + Suffix(query)) == [] + ([SLASH, 97, SPACE, SLASH, 98] + Suffix(query));
  }

  lemma NoHost()
    ensures HostPart([]) == []
  {
  }

  lemma SameHostPart(h1: Bytes, h2: Bytes)
    requires Lower(h1) == Lower(h2)
    ensures HostPart(h1) == HostPart(h2)
  {
    assert |h1| == |Lower(h1)| && |h2| == |Lower(h2)|;
  }

  // ---- Hexadecimal ----

  const HEX_DIGITS: Bytes := [48, 49, 50, 51, 52, 53, 54, 55, 56, 57, 97, 98, 99, 100, 101, 102]

  function Pow16(n: nat): (p: nat)
    ensures p > 0
  {
    if n == 0 then 1 else 16 * Pow16(n - 1)
  }

  /** The n low-order hexadecimal digits of h, most significant first. */
  function Hex(h: nat, n: nat): (s: Bytes)
    ensures |s| == n
  {
    if n == 0 then [] else Hex(h / 16, n - 1) + [HEX_DIGITS[h % 16]]
  }

  lemma {:induction false} HexInjective(a: nat, b: nat, n: nat)
    requires a < Pow16(n) && b < Pow16(n) && Hex(a, n) == Hex(b, n)
    ensures a == b
  {
    if n > 0 {
      var s, t := Hex(a / 16, n - 1), Hex(b / 16, n - 1);
      assert Hex(a, n)[..n - 1] == s && Hex(b, n)[..n - 1] == t;
      assert Hex(a, n)[n - 1] == HEX_DIGITS[a % 16] && Hex(b, n)[n - 1] == HEX_DIGITS[b % 16];
      DigitsDiffer(a % 16, b % 16);
      HexInjective(a / 16, b / 16, n - 1);
    }
  }

  lemma DigitsDiffer(i: nat, j: nat)
    requires i < 16 && j < 16 && HEX_DIGITS[i] == HEX_DIGITS[j]
    ensures i == j
  {
    assert HEX_DIGITS[i] == if i < 10 then 48 + i else 87 + i;
    assert HEX_DIGITS[j] == if j < 10 then 48 + j else 87 + j;
  }

  lemma SixteenDigits()
    ensures Pow16(16) == U64
  {
    assert Pow16(8) == 65536 * Pow16(4) == U32;
    assert Pow16(16) == 65536 * Pow16(12) == 65536 * 65536 * Pow16(8);
  }

  // ---- The loops ----

  /** FastHash64WithHost: what it writes to the digest, in order. */
  method FeedDigest(verb: Bytes, host: Bytes, path: Bytes, rawQuery: Bytes) returns (d: Bytes)
    ensures d == Fed(verb, host, path, rawQuery)
  {
    hide Upper, Lower, Suffix;
    d := Upper(verb);
    d := d + [SPACE];
    ghost var front := d;
    if host != [] {
      d := d + Lower(host);
      d := d + [SPACE];
      Assoc(front, Lower(host), [SPACE]);
    }
    assert d == front + HostPart(host);
    hide HostPart;
    d := d + path;
    d := FeedQuery(d, rawQuery);
    Assoc(front, HostPart(host), path);
    Assoc(front, HostPart(host) + path, Suffix(rawQuery));
    Assoc(HostPart(host), path, Suffix(rawQuery));
  }

  /** Its query part: nothing, one raw segment, or the sorted segments. */
  method FeedQuery(d0: Bytes, rawQuery: Bytes) returns (d: Bytes)
    ensures d == d0 + Suffix(rawQuery)
  {
    hide Leq, Split, Sort, Join;
    d := d0;
    if rawQuery != [] {
      d := d + [QUESTION];
      if AMPERSAND !in rawQuery {
        d := d + rawQuery;
      } else {
        var parts := Split(rawQuery, AMPERSAND);
        parts := Sort(parts, Leq);
        d := WriteParts(d, parts);
      }
      Assoc(d0, [QUESTION], CanonicalQuery(rawQuery));
    }
  }

  /** The loop that writes the sorted parts with an ampersand before each but the first. */
  method WriteParts(d0: Bytes, parts: seq<Bytes>) returns (d: Bytes)
    ensures d == d0 + Join(parts, AMPERSAND)
  {
    hide Join;
    d := d0;
    JoinNothing(d0);
    assert parts[..0] == [];
    for i := 0 to |parts|
      invariant d == d0 + Join(parts[..i], AMPERSAND)
    {
      JoinAppend(parts[..i], parts[i]);
      assert parts[..i + 1] == parts[..i] + [parts[i]];
      if i > 0 {
        d := d + [AMPERSAND];
      }
      d := d + parts[i];
    }
    assert parts[..|parts|] == parts;
  }

  lemma JoinNothing(d: Bytes)
    ensures d + Join([], AMPERSAND) == d
  {
  }

  lemma {:induction false} JoinAppend(parts: seq<Bytes>, p: Bytes)
    ensures Join(parts + [p], AMPERSAND) == if parts == [] then p else Join(parts, AMPERSAND) + [AMPERSAND] + p
    decreases |parts|
  {
    if parts != [] {
      assert (parts + [p])[1..] == parts[1..] + [p];
      JoinAppend(parts[1..], p);
    }
  }

  /** CanonicalCacheKeyWithHost, for any 64-bit hash function. */
  method CanonicalCacheKey(hash: Bytes -> nat, verb: Bytes, host: Bytes, path: Bytes, rawQuery: Bytes)
      returns (key: Bytes)
    ensures key == Hex(hash(Fed(verb, host, path, rawQuery)), 16)
  {
    hide Fed;
    var d := FeedDigest(verb, host, path, rawQuery);
    var h := hash(d);
    ghost var whole := Hex(h, 16);
    var out := new Byte[16];
    var i := 15;
    assert Hex(h, 16) + out[16..] == whole;
    while i >= 0
      invariant -1 <= i <= 15
      invariant Hex(h, i + 1) + out[i + 1..] == whole
      decreases i
    {
      out[i] := HEX_DIGITS[h % 16];
      assert Hex(h, i + 1) == Hex(h / 16, i) + [HEX_DIGITS[h % 16]];
      assert [HEX_DIGITS[h % 16]] + out[i + 1..] == out[i..];
      h := h / 16;
      i := i - 1;
    }
    assert [] + out[0..] == out[..];
    key := out[..];
  }

  /**
   When the hash tells the two texts apart, two requests share a cache key exactly when their
   canonical forms agree.
   */
  lemma KeyEqualIff(hash: Bytes -> nat, m1: Bytes, h1: Bytes, p1: Bytes, q1: Bytes, m2: Bytes, h2: Bytes,
      p2: Bytes, q2: Bytes)
    requires WellFormed(m1, h1, p1) && WellFormed(m2, h2, p2) && ToldApart(h1, p1, h2, p2)
    requires var t1, t2 := Fed(m1, h1, p1, q1), Fed(m2, h2, p2, q2);
      hash(t1) < U64 && hash(t2) < U64 && (hash(t1) == hash(t2) ==> t1 == t2)
    ensures Hex(hash(Fed(m1, h1, p1, q1)), 16) == Hex(hash(Fed(m2, h2, p2, q2)), 16) <==>
      Upper(m1) == Upper(m2) && Lower(h1) == Lower(h2) && Target(p1, q1) == Target(p2, q2)
  {
    FedEqualIff(m1, h1, p1, q1, m2, h2, p2, q2);
    SixteenDigits();
    var a, b := hash(Fed(m1, h1, p1, q1)), hash(Fed(m2, h2, p2, q2));
    hide Fed, Hex, WellFormed, ToldApart, Target, Upper, Lower, Pow16;
    if Hex(a, 16) == Hex(b, 16) {
      HexInjective(a, b, 16);
    }
  }
}
