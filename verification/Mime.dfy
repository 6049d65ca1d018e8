/** Header names and header lookup, as net/http and net/textproto define them on ASCII names. */
module Mime {
  import opened Bytes
  import opened HeaderCodec

  const HYPHEN: Byte := 45

  // "Content-Type" in ASCII.
  const CONTENT_TYPE: Bytes := [67, 111, 110, 116, 101, 110, 116, 45, 84, 121, 112, 101]

  predicate IsUpper(b: Byte) { 65 <= b <= 90 }
  predicate IsLower(b: Byte) { 97 <= b <= 122 }

  function LowerByte(b: Byte): Byte { if IsUpper(b) then b + 32 else b }
  function UpperByte(b: Byte): Byte { if IsLower(b) then b - 32 else b }

  /** strings.ToLower */
  function Lower(s: Bytes): (r: Bytes)
    ensures |r| == |s| && forall i :: 0 <= i < |s| ==> r[i] == LowerByte(s[i])
  {
    seq(|s|, i requires 0 <= i < |s| => LowerByte(s[i]))
  }

  /** The token characters of section 5.6.2 of RFC 9110. */
  predicate IsTokenByte(b: Byte) {
    || IsUpper(b) || IsLower(b) || 48 <= b <= 57
    || b == 33 || 35 <= b <= 39 || b == 42 || b == 43 || b == 45 || b == 46
    || b == 94 || b == 95 || b == 96 || b == 124 || b == 126
  }

  predicate IsToken(s: Bytes) {
    forall i :: 0 <= i < |s| ==> IsTokenByte(s[i])
  }

  /** Words between hyphens capitalised. */
  function Capitalise(s: Bytes): (r: Bytes)
    ensures |r| == |s|
    ensures forall i :: 0 <= i < |s| ==>
      r[i] == if i == 0 || s[i - 1] == HYPHEN then UpperByte(s[i]) else LowerByte(s[i])
  {
    seq(|s|, i requires 0 <= i < |s| => if i == 0 || s[i - 1] == HYPHEN then UpperByte(s[i]) else LowerByte(s[i]))
  }

  /** http.CanonicalHeaderKey: names that are not tokens are left alone. */
  function Canonical(s: Bytes): Bytes {
    if IsToken(s) then Capitalise(s) else s
  }

  /** Header.Get: the first value under the canonical name, or the empty string. */
  function Get(h: Header, name: Bytes): Bytes {
    var k := Canonical(name);
    if k in h && |h[k]| > 0 then h[k][0] else []
  }

  /** A header filled through Set and Add with token names, or parsed by the server. */
  predicate IsCanonical(h: Header) {
    forall k :: k in h ==> IsToken(k) && Canonical(k) == k
  }

  lemma LowerKeepsToken(s: Bytes)
    ensures IsToken(Lower(s)) <==> IsToken(s)
  {
    assert forall i :: 0 <= i < |s| ==> IsTokenByte(Lower(s)[i]) == IsTokenByte(s[i]);
  }

  lemma CapitaliseForgetsCase(s: Bytes)
    ensures Capitalise(Lower(s)) == Capitalise(s)
    ensures Capitalise(Capitalise(s)) == Capitalise(s)
    ensures IsToken(s) ==> IsToken(Capitalise(s))
  {
    forall i | 0 <= i < |s|
      ensures Capitalise(Lower(s))[i] == Capitalise(s)[i]
      ensures Capitalise(Capitalise(s))[i] == Capitalise(s)[i]
    {
    }
    assert forall i :: 0 <= i < |s| && IsTokenByte(s[i]) ==> IsTokenByte(Capitalise(s)[i]);
  }
}
