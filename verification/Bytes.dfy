/** Byte strings and the fixed-width little-endian integers of encoding/binary. */
module Bytes {
  import Division

  type Byte = b: int | 0 <= b < 256
  type Bytes = seq<Byte>

  datatype Option<+T> = None | Some(value: T)

  const U16: nat := 0x1_0000
  const U32: nat := 0x1_0000_0000
  const U64: nat := 0x1_0000_0000_0000_0000
  const I64_MAX: nat := 0x7FFF_FFFF_FFFF_FFFF

  /** The number of values a w-byte unsigned integer can take. */
  function Pow256(w: nat): (p: nat)
    ensures p > 0
  {
    if w == 0 then 1 else 256 * Pow256(w - 1)
  }

  lemma Widths()
    ensures Pow256(2) == U16 && Pow256(4) == U32 && Pow256(8) == U64
  {
    assert Pow256(4) == 256 * 256 * Pow256(2);
    assert Pow256(8) == 256 * 256 * Pow256(6) == 256 * 256 * 256 * 256 * Pow256(4);
  }

  /** PutUint16/32/64: the w low-order bytes of x, least significant first. */
  function LE(x: nat, w: nat): (b: Bytes)
    ensures |b| == w
  {
    if w == 0 then [] else [x % 256] + LE(x / 256, w - 1)
  }

  /** Byte i of a little-endian integer is its digit i to base 256. */
  lemma {:induction false} LEDigit(x: nat, w: nat, i: nat)
    requires i < w
    ensures LE(x, w)[i] == (x / Pow256(i)) % 256
    decreases w
  {
    if i > 0 {
      LEDigit(x / 256, w - 1, i - 1);
      Division.DivTwice(x, 256, Pow256(i - 1));
    }
  }

  /** Uint16/32/64. */
  function UnLE(b: Bytes): nat {
    if b == [] then 0 else b[0] + 256 * UnLE(b[1..])
  }

  lemma {:induction false} UnLEBound(b: Bytes)
    ensures UnLE(b) < Pow256(|b|)
  {
    if b != [] {
      UnLEBound(b[1..]);
    }
  }

  lemma {:induction false} LERoundTrip(x: nat, w: nat)
    requires x < Pow256(w)
    ensures UnLE(LE(x, w)) == x
  {
    if w > 0 {
      LERoundTrip(x / 256, w - 1);
      assert LE(x, w)[1..] == LE(x / 256, w - 1);
    }
  }

  /** The first n bytes and the rest, if there are that many. */
  function Take(s: Bytes, n: nat): (r: Option<(Bytes, Bytes)>)
    ensures r.Some? <==> n <= |s|
    ensures r.Some? ==> |r.value.0| == n && s == r.value.0 + r.value.1
  {
    if n <= |s| then Some((s[..n], s[n..])) else None
  }

  /** The w-byte integer at the front and the rest, if there are that many bytes. */
  function Uint(s: Bytes, w: nat): (r: Option<(nat, Bytes)>)
    ensures r.Some? <==> w <= |s|
    ensures r.Some? ==> |r.value.1| == |s| - w && r.value.0 < Pow256(w)
  {
    if w <= |s| then (UnLEBound(s[..w]); Some((UnLE(s[..w]), s[w..]))) else None
  }

  lemma Assoc(a: Bytes, b: Bytes, c: Bytes)
    ensures (a + b) + c == a + (b + c)
  {
  }

  lemma TakeFront(a: Bytes, b: Bytes)
    ensures Take(a + b, |a|) == Some((a, b))
  {
    assert (a + b)[..|a|] == a && (a + b)[|a|..] == b;
  }

  lemma UintFront(x: nat, w: nat, rest: Bytes)
    requires x < Pow256(w)
    ensures Uint(LE(x, w) + rest, w) == Some((x, rest))
  {
    hide Pow256;
    TakeFront(LE(x, w), rest);
    LERoundTrip(x, w);
  }

  /** copy(buf[at:at+len(s)], s), which also performs every PutUint. */
  method CopyInto(buf: array<Byte>, at: nat, s: Bytes)
    requires at + |s| <= buf.Length
    modifies buf
    ensures buf[..at + |s|] == old(buf[..at]) + s
    ensures buf[at + |s|..] == old(buf[at + |s|..])
  {
    forall i | 0 <= i < |s| {
      buf[at + i] := s[i];
    }
  }
}
