/** Splitting and joining byte strings, as package strings does. */
module Strings {
  import opened Bytes

  /** The bytes of an ASCII text. */
  function Ascii(s: string): (b: Bytes)
    requires forall i :: 0 <= i < |s| ==> s[i] as int < 128
    ensures |b| == |s| && forall i :: 0 <= i < |s| ==> b[i] == s[i] as int
  {
    seq(|s|, i requires 0 <= i < |s| => s[i] as int)
  }

  /** strings.Split by a single byte */
  function Split(s: Bytes, sep: Byte): (parts: seq<Bytes>)
    ensures |parts| > 0
  {
    if s == [] then [[]]
    else
      var rest := Split(s[1..], sep);
      if s[0] == sep then [[]] + rest else [[s[0]] + rest[0]] + rest[1..]
  }

  function Join(parts: seq<Bytes>, sep: Byte): Bytes {
    if parts == [] then []
    else if |parts| == 1 then parts[0]
    else parts[0] + [sep] + Join(parts[1..], sep)
  }

  lemma {:induction false} SplitNoSep(s: Bytes, sep: Byte)
    requires sep !in s
    ensures Split(s, sep) == [s]
  {
    if s != [] {
      SplitNoSep(s[1..], sep);
      assert s[0] in s && s == [s[0]] + s[1..];
    }
  }

  lemma {:induction false} SplitFirst(a: Bytes, sep: Byte, b: Bytes)
    requires sep !in a
    ensures Split(a + [sep] + b, sep) == [a] + Split(b, sep)
  {
    var s := a + [sep] + b;
    if a == [] {
      assert s[1..] == b;
      assert Split(s, sep) == [[]] + Split(b, sep);
    } else {
      assert s[1..] == a[1..] + [sep] + b;
      SplitFirst(a[1..], sep, b);
      assert s[0] == a[0] && a == [a[0]] + a[1..];
    }
  }

  lemma {:induction false} PartsHaveNoSep(s: Bytes, sep: Byte)
    ensures forall p :: p in Split(s, sep) ==> sep !in p
  {
    if s != [] {
      PartsHaveNoSep(s[1..], sep);
      var rest := Split(s[1..], sep);
      assert sep !in rest[0];
    }
  }

  /** Joining is undone by splitting when no part holds the separator. */
  lemma {:induction false} SplitJoin(parts: seq<Bytes>, sep: Byte)
    requires parts != [] && forall p :: p in parts ==> sep !in p
    ensures Split(Join(parts, sep), sep) == parts
  {
    if |parts| == 1 {
      SplitNoSep(parts[0], sep);
    } else {
      SplitJoin(parts[1..], sep);
      SplitFirst(parts[0], sep, Join(parts[1..], sep));
    }
  }

  /** The text before the first separator and the text after it are determined by the whole. */
  lemma FirstSep(a: Bytes, b: Bytes, c: Bytes, d: Bytes, sep: Byte)
    requires a + [sep] + b == c + [sep] + d && sep !in a && sep !in c
    ensures a == c && b == d
  {
    var s := a + [sep] + b;
    assert s == c + [sep] + d;
    assert s[|a|] == sep && s[|c|] == sep;
    assert forall i :: 0 <= i < |a| ==> s[i] == a[i] != sep;
    assert forall i :: 0 <= i < |c| ==> s[i] == c[i] != sep;
    assert |a| == |c|;
    assert a == s[..|a|] && c == s[..|c|];
    assert b == s[|a| + 1..] && d == s[|c| + 1..];
  }

  /** strings.Contains */
  predicate Contains(s: Bytes, sub: Bytes) {
    sub <= s || (s != [] && Contains(s[1..], sub))
  }

  predicate IsSpace(b: Byte) { b == 32 || 9 <= b <= 13 }

  /** strings.TrimSpace on ASCII */
  function Trim(s: Bytes): Bytes {
    if s == [] then []
    else if IsSpace(s[0]) then Trim(s[1..])
    else if IsSpace(s[|s| - 1]) then Trim(s[..|s| - 1])
    else s
  }

  /** The trimmed, non-empty parts: the header names a Vary value lists. */
  function NamesIn(parts: seq<Bytes>): seq<Bytes> {
    if parts == [] then []
    else (if Trim(parts[0]) == [] then [] else [Trim(parts[0])]) + NamesIn(parts[1..])
  }

  // ---- What trimming does ----

  /** Tab, line feed, vertical tab, form feed, carriage return, or blank. */
  predicate AllSpace(s: Bytes) {
    forall b :: b in s ==> b in [9, 10, 11, 12, 13, 32]
  }

  /** No space at either end. */
  predicate Clean(s: Bytes) {
    s == [] || (s[0] !in [9, 10, 11, 12, 13, 32] && s[|s| - 1] !in [9, 10, 11, 12, 13, 32])
  }

  /** s is k with space around it. */
  ghost predicate Padded(s: Bytes, k: Bytes) {
    exists a, b :: AllSpace(a) && AllSpace(b) && s == a + k + b
  }

  lemma SpaceIs(b: Byte)
    ensures IsSpace(b) <==> b in [9, 10, 11, 12, 13, 32]
  {
  }

  lemma {:induction false} TrimSpace(s: Bytes)
    requires AllSpace(s)
    ensures Trim(s) == []
    decreases |s|
  {
    if s != [] {
      SpaceIs(s[0]);
      TrimSpace(s[1..]);
    }
  }

  lemma {:induction false} TrimBehind(k: Bytes, b: Bytes)
    requires AllSpace(b) && Clean(k) && k != []
    ensures Trim(k + b) == k
    decreases |b|
  {
    var s := k + b;
    SpaceIs(s[0]);
    SpaceIs(s[|s| - 1]);
    if b == [] {
      assert s == k;
    } else {
      assert s[..|s| - 1] == k + b[..|b| - 1];
      TrimBehind(k, b[..|b| - 1]);
    }
  }

  /** Trimming takes off the space around a text, all of it and nothing else. */
  lemma {:induction false} TrimIs(a: Bytes, k: Bytes, b: Bytes)
    requires AllSpace(a) && AllSpace(b) && Clean(k)
    ensures Trim(a + k + b) == k
    decreases |a|
  {
    var s := a + k + b;
    if k == [] {
      TrimSpace(s);
    } else if a == [] {
      assert s == k + b;
      TrimBehind(k, b);
    } else {
      SpaceIs(s[0]);
      assert s[1..] == a[1..] + k + b;
      TrimIs(a[1..], k, b);
    }
  }

  lemma PaddedBy(a: Bytes, k: Bytes, b: Bytes, s: Bytes)
    requires AllSpace(a) && AllSpace(b) && s == a + k + b
    ensures Padded(s, k)
  {
  }

  /** Space put in front of padded text, or behind it, is padding too. */
  lemma PadFront(s: Bytes, k: Bytes)
    requires s != [] && s[0] in [9, 10, 11, 12, 13, 32] && Padded(s[1..], k)
    ensures Padded(s, k)
  {
    var a, b := Padding(s[1..], k);
    hide Padded;
    assert s == [s[0]] + a + k + b;
    PaddedBy([s[0]] + a, k, b, s);
  }

  lemma PadBack(s: Bytes, k: Bytes)
    requires s != [] && s[|s| - 1] in [9, 10, 11, 12, 13, 32] && Padded(s[..|s| - 1], k)
    ensures Padded(s, k)
  {
    var a, b := Padding(s[..|s| - 1], k);
    hide Padded;
    assert s == a + k + (b + [s[|s| - 1]]);
    PaddedBy(a, k, b + [s[|s| - 1]], s);
  }

  lemma TrimNone(s: Bytes)
    requires s == [] || (!IsSpace(s[0]) && !IsSpace(s[|s| - 1]))
    ensures Clean(s) && Padded(s, s)
  {
    if s != [] { SpaceIs(s[0]); SpaceIs(s[|s| - 1]); }
    assert s == [] + s + [];
    PaddedBy([], s, [], s);
  }

  lemma {:induction false} TrimPads(s: Bytes)
    ensures Clean(Trim(s)) && Padded(s, Trim(s))
    decreases |s|
  {
    hide Padded;
    if s == [] || (!IsSpace(s[0]) && !IsSpace(s[|s| - 1])) {
      assert Trim(s) == s;
      TrimNone(s);
    } else if IsSpace(s[0]) {
      SpaceIs(s[0]);
      TrimPads(s[1..]);
      var k := Trim(s);
      assert k == Trim(s[1..]);
      hide *;
      PadFront(s, k);
    } else {
      SpaceIs(s[|s| - 1]);
      TrimPads(s[..|s| - 1]);
      var k := Trim(s);
      assert k == Trim(s[..|s| - 1]);
      hide *;
      PadBack(s, k);
    }
  }

  lemma Padding(s: Bytes, k: Bytes) returns (a: Bytes, b: Bytes)
    requires Padded(s, k)
    ensures AllSpace(a) && AllSpace(b) && s == a + k + b
  {
    a, b :| AllSpace(a) && AllSpace(b) && s == a + k + b;
  }

  lemma TrimIff(s: Bytes, k: Bytes)
    ensures Trim(s) == k <==> Clean(k) && Padded(s, k)
  {
    TrimPads(s);
    if Clean(k) && Padded(s, k) {
      var a, b :| AllSpace(a) && AllSpace(b) && s == a + k + b;
      TrimIs(a, k, b);
    }
  }

  /** The names in a list of parts are the non-empty texts that the parts hold with space around them. */
  lemma {:induction false} NamesInIff(parts: seq<Bytes>, k: Bytes)
    ensures k in NamesIn(parts) <==> k != [] && Clean(k) && exists p :: p in parts && Padded(p, k)
  {
    hide Trim, Clean, Padded;
    if parts != [] {
      NamesInIff(parts[1..], k);
      TrimIff(parts[0], k);
      if p :| p in parts && Padded(p, k) {
        assert p == parts[0] || p in parts[1..];
      }
      assert forall p :: p in parts[1..] ==> p in parts;
    }
  }

  /** Each part gives at most one name, in their order. */
  lemma {:induction false} NamesInOrder(parts: seq<Bytes>, p: Bytes, k: Bytes)
    requires Clean(k) && Padded(p, k)
    ensures NamesIn([p] + parts) == (if k == [] then [] else [k]) + NamesIn(parts)
  {
    TrimIff(p, k);
    assert ([p] + parts)[1..] == parts;
    hide Trim, Clean, Padded;
  }
}
