/**
 The cache key read byte by byte: the text fed to the hash, the order of its query segments, and the digits of
 the key.
 */
module KeyReading {
  import opened Bytes
  import opened Mime
  import opened Sorting
  import opened Strings
  import opened CacheKey
  import opened VariantKey
  import Division
  import P = Protocol

  /** a comes before b, or is b: it is the front of b, or smaller in the first byte where they differ. */
  predicate NotAfter(a: Bytes, b: Bytes) {
    a <= b || exists i :: 0 <= i < |a| && i < |b| && a[..i] == b[..i] && a[i] < b[i]
  }

  lemma {:induction false} LeqIff(a: Bytes, b: Bytes)
    ensures Leq(a, b) <==> NotAfter(a, b)
  {
    if a != [] && b != [] {
      if a[0] == b[0] {
        LeqIff(a[1..], b[1..]);
        assert a == [a[0]] + a[1..] && b == [a[0]] + b[1..];
        if i :| 0 <= i < |a[1..]| && i < |b[1..]| && a[1..][..i] == b[1..][..i] && a[1..][i] < b[1..][i] {
          assert a[..i + 1] == [a[0]] + a[1..][..i] && b[..i + 1] == [a[0]] + b[1..][..i];
          assert a[i + 1] < b[i + 1];
        }
        if i :| 0 <= i < |a| && i < |b| && a[..i] == b[..i] && a[i] < b[i] {
          assert i > 0;
          assert a[1..][..i - 1] == a[..i][1..] && b[1..][..i - 1] == b[..i][1..];
          assert a[1..][i - 1] < b[1..][i - 1];
        }
      } else {
        assert a[..0] == b[..0];
        assert a[0] < b[0] ==> NotAfter(a, b);
        if i :| 0 <= i < |a| && i < |b| && a[..i] == b[..i] && a[i] < b[i] {
          assert i > 0 ==> a[..i][0] == b[..i][0];
        }
      }
    }
  }

  /** The canonical query has the segments of the query, in bytewise order. */
  lemma QueryIs(q: Bytes)
    ensures var segments := Split(CanonicalQuery(q), '&' as int);
      && multiset(segments) == multiset(Split(q, '&' as int))
      && forall i, j :: 0 <= i < j < |segments| ==> NotAfter(segments[i], segments[j])
  {
    var parts := Split(q, AMPERSAND);
    ShortcutAgrees(q);
    SortedPartsJoin(q);
    LeqIsTotalOrder();
    SortSorts(parts, Leq);
    hide Leq, Split, Sort, CanonicalQuery, SortedQuery;
    var segments := Sort(parts, Leq);
    forall i, j | 0 <= i < j < |segments|
      ensures NotAfter(segments[i], segments[j])
    {
      LeqIff(segments[i], segments[j]);
    }
  }

  /** Method in capitals, a blank, the host in small letters and a blank if there is one, the path, and the query. */
  lemma FedReads(verb: Bytes, host: Bytes, path: Bytes, query: Bytes)
    ensures Fed(verb, host, path, query) ==
      Upper(verb) + Ascii(" ") + (if host == [] then [] else Lower(host) + Ascii(" "))
        + path + (if query == [] then [] else Ascii("?") + CanonicalQuery(query))
  {
    assert [SPACE] == Ascii(" ") && [QUESTION] == Ascii("?");
    hide CanonicalQuery, Upper, Lower;
    var a, b, c, d := Upper(verb), [SPACE], HostPart(host), path;
    Assoc(a + b, c, d + Suffix(query));
    Assoc(a + b + c, d, Suffix(query));
    assert a + b + (c + (d + Suffix(query))) == a + b + c + d + Suffix(query);
  }

  /** Each letter of the key is the hexadecimal digit of its place, in small letters. */
  lemma {:induction false} HexAt(h: nat, n: nat, i: nat)
    requires i < n
    ensures Hex(h, n)[i] == Ascii("0123456789abcdef")[(h / Pow16(n - 1 - i)) % 16]
    decreases n
  {
    assert HEX_DIGITS == Ascii("0123456789abcdef");
    if i < n - 1 {
      HexAt(h / 16, n - 1, i);
      Division.DivTwice(h, 16, Pow16(n - 2 - i));
    }
  }

  /** The text of a variant's signature: small-letter names, equals signs, values, joined by ampersands. */
  lemma TextReads(a: Bytes, x: Bytes, b: Bytes, y: Bytes)
    ensures Text([(a, x)], false) == Lower(a) + Ascii("=") + x
    ensures Text([(a, x)], true) == Ascii("&") + (Lower(a) + Ascii("=") + x)
    ensures Text([(a, x), (b, y)], false) == Lower(a) + Ascii("=") + x + Ascii("&") + (Lower(b) + Ascii("=") + y)
  {
    assert [EQUALS] == Ascii("=") && [AMPERSAND] == Ascii("&");
    TwoItems((a, x), (b, y));
    assert Items([(a, x)]) == [Item((a, x))];
    hide Lower;
  }

  /** And the key of a variant is the primary key, "_v", and the hash of that text in short hexadecimal. */
  lemma VariantReads(primary: P.Key -> Bytes, digest: Bytes -> nat, key: P.Key, sig: Signature, lead: bool)
    ensures KeyText(primary, digest, P.Variant(key, sig, lead)) ==
      primary(key) + Ascii("_v") + HexShort(digest(Text(sig, lead)))
    ensures KeyText(primary, digest, P.Primary(key)) == primary(key)
  {
    assert INFIX == Ascii("_v");
    hide Text, HexShort;
  }

  /** Short hexadecimal has the same digits and no zero in front. */
  lemma {:induction false} HexShortIs(n: nat)
    ensures HexShort(n) == Hex(n, |HexShort(n)|)
    ensures |HexShort(n)| > 1 ==> HexShort(n)[0] != '0' as int
    decreases n
  {
    if n < 16 {
      assert Hex(n, 1) == Hex(n / 16, 0) + [HEX_DIGITS[n]];
    } else {
      HexShortIs(n / 16);
      if n / 16 < 16 && HEX_DIGITS[n / 16] == HEX_DIGITS[0] {
        DigitsDiffer(n / 16, 0);
      }
    }
  }
}
