/**
 The key of a variant: the primary key and a hash of the text made of the request's values of the
 headers that Vary lists; and when two variants share that text.
 */
module VariantKey {
  import opened Bytes
  import opened HeaderCodec
  import opened Mime
  import opened Strings
  import opened StoreBridge
  import opened CacheKey
  import opened StoreJoin
  import P = Protocol

  const EQUALS: Byte := 61
  // "_v" in ASCII.
  const INFIX: Bytes := [95, 118]

  type Signature = seq<(Bytes, Bytes)>

  function Item(c: (Bytes, Bytes)): Bytes {
    Lower(c.0) + [EQUALS] + c.1
  }

  function Items(sig: Signature): seq<Bytes> {
    seq(|sig|, i requires 0 <= i < |sig| => Item(sig[i]))
  }

  /** The text hashed for a variant; a list of names that begins with an empty part leaves an ampersand. */
  function Text(sig: Signature, lead: bool): Bytes {
    (if lead && sig != [] then [AMPERSAND] else []) + Join(Items(sig), AMPERSAND)
  }

  /** The names a Vary value lists, as given, with the request's values. */
  function Given(parts: seq<Bytes>, r: Header): Signature {
    seq(|NamesIn(parts)|, i requires 0 <= i < |NamesIn(parts)| => (NamesIn(parts)[i], Get(r, NamesIn(parts)[i])))
  }

  // ---- What the loop writes ----

  function Leads(parts: seq<Bytes>): bool {
    NamesIn(parts) != [] && parts != [] && Trim(parts[0]) == []
  }

  /** varySignature */
  method VarySignature(v: Bytes, r: Header) returns (b: Bytes)
    ensures b == Text(Given(Split(v, COMMA), r), LeadsEmpty(v))
  {
    hide Split, Get, Trim, NamesIn, Text, Leads;
    var parts := Split(v, COMMA);
    b := [];
    TextOfNone(r);
    for i := 0 to |parts|
      invariant b == Text(Given(parts[..i], r), Leads(parts[..i]))
    {
      assert parts[..i + 1] == parts[..i] + [parts[i]];
      TextNext(parts[..i], parts[i], r);
      var name := Trim(parts[i]);
      if name != [] {
        if i > 0 {
          b := b + [AMPERSAND];
        }
        b := b + Item((name, Get(r, name)));
      }
    }
    assert parts[..|parts|] == parts;
    LeadsIs(v);
  }

  lemma LeadsIs(v: Bytes)
    ensures Leads(Split(v, COMMA)) == LeadsEmpty(v)
  {
  }

  lemma TextOfNone(r: Header)
    ensures Text(Given([], r), Leads([])) == []
  {
    assert Items(Given([], r)) == [];
  }

  lemma ItemsNext(sig: Signature, c: (Bytes, Bytes))
    ensures Items(sig + [c]) == Items(sig) + [Item(c)]
  {
    hide Item;
  }

  lemma GivenNext(parts: seq<Bytes>, p: Bytes, r: Header)
    ensures Given(parts + [p], r) == Given(parts, r) + if Trim(p) == [] then [] else [(Trim(p), Get(r, Trim(p)))]
  {
    NamesAppend(parts, p);
    hide Trim, NamesIn, Get;
  }

  /** Without names so far, the first part, if any, was empty. */
  lemma NoNames(parts: seq<Bytes>)
    requires NamesIn(parts) == [] && parts != []
    ensures Trim(parts[0]) == []
  {
    hide Trim;
  }

  lemma LeadsNext(parts: seq<Bytes>, p: Bytes)
    requires Trim(p) != []
    ensures Leads(parts + [p]) == if NamesIn(parts) == [] then parts != [] else Leads(parts)
  {
    NamesAppend(parts, p);
    if parts != [] && NamesIn(parts) == [] {
      NoNames(parts);
    }
    hide Trim, NamesIn;
  }

  /** What one part adds to the text. */
  function Added(first: bool, p: Bytes, r: Header): Bytes {
    if Trim(p) == [] then [] else (if first then [] else [AMPERSAND]) + Item((Trim(p), Get(r, Trim(p))))
  }

  lemma TextNext(parts: seq<Bytes>, p: Bytes, r: Header)
    ensures Text(Given(parts + [p], r), Leads(parts + [p])) ==
      Text(Given(parts, r), Leads(parts)) + Added(parts == [], p, r)
  {
    var sig, text := Given(parts, r), Text(Given(parts, r), Leads(parts));
    GivenNext(parts, p, r);
    EmptyNames(parts, r);
    hide Trim, NamesIn, Get, Item, Given, Leads;
    if Trim(p) == [] {
      LeadsSame(parts, p);
      hide Text;
      assert sig + [] == sig && text + [] == text;
    } else {
      LeadsNext(parts, p);
      TextAppend(sig, Leads(parts), (Trim(p), Get(r, Trim(p))), Leads(parts + [p]));
      hide Text;
    }
  }

  lemma EmptyNames(parts: seq<Bytes>, r: Header)
    ensures NamesIn(parts) == [] <==> Given(parts, r) == []
    ensures parts == [] ==> NamesIn(parts) == []
    ensures Leads(parts) ==> NamesIn(parts) != []
  {
    hide Trim, Get;
  }

  lemma LeadsSame(parts: seq<Bytes>, p: Bytes)
    requires Trim(p) == []
    ensures Leads(parts + [p]) == Leads(parts)
  {
    NamesAppend(parts, p);
    assert NamesIn(parts) + [] == NamesIn(parts);
    if parts != [] {
      assert (parts + [p])[0] == parts[0];
    }
    hide Trim;
  }

  lemma TextAppend(sig: Signature, lead: bool, c: (Bytes, Bytes), lead': bool)
    requires sig != [] ==> lead' == lead
    ensures Text(sig + [c], lead') ==
      Text(sig, lead) + ((if sig == [] && !lead' then [] else [AMPERSAND]) + Item(c))
  {
    ItemsNext(sig, c);
    JoinAppend(Items(sig), Item(c));
    if sig == [] {
      assert Items(sig) == [];
    }
    hide Item, Join, Items;
  }

  lemma LowerCanonical(s: Bytes)
    ensures Lower(Canonical(s)) == Lower(s)
  {
    if IsToken(s) {
      forall i | 0 <= i < |s|
        ensures Lower(Capitalise(s))[i] == Lower(s)[i]
      {
      }
    }
  }

  /** The text is that of the signature by which the protocol tells variants apart. */
  lemma TextOfSignature(v: Bytes, r: Header, req: P.Request, lead: bool)
    requires req.header == RequestHeader(r)
    ensures Text(P.Signature(CanonicalAll(VaryNames(v)), req), lead) == Text(Given(Split(v, COMMA), r), lead)
  {
    var names := VaryNames(v);
    var sig, given := P.Signature(CanonicalAll(names), req), Given(Split(v, COMMA), r);
    forall i | 0 <= i < |names|
      ensures Item(sig[i]) == Item(given[i])
    {
      SameLookup(r, req, names[i]);
      LowerCanonical(names[i]);
      hide Canonical, Get, Lower;
    }
    assert Items(sig) == Items(given);
    hide Item, Join, VaryNames;
  }

  // ---- When two signatures share a text ----

  lemma {:induction false} SplitConcat(a: Bytes, sep: Byte, b: Bytes)
    ensures Split(a + [sep] + b, sep) == Split(a, sep) + Split(b, sep)
  {
    var s := a + [sep] + b;
    if a == [] {
      assert s[1..] == b;
    } else {
      assert s[1..] == a[1..] + [sep] + b && s[0] == a[0];
      SplitConcat(a[1..], sep, b);
    }
  }

  /** The pieces of all the parts in a row. */
  function Pieces(parts: seq<Bytes>): seq<Bytes> {
    if parts == [] then [] else Split(parts[0], AMPERSAND) + Pieces(parts[1..])
  }

  lemma {:induction false} SplitJoined(parts: seq<Bytes>)
    requires parts != []
    ensures Split(Join(parts, AMPERSAND), AMPERSAND) == Pieces(parts)
  {
    hide Split;
    if |parts| == 1 {
      assert parts[1..] == [];
      assert Pieces([]) == [];
    } else {
      SplitJoined(parts[1..]);
      SplitConcat(parts[0], AMPERSAND, Join(parts[1..], AMPERSAND));
    }
  }

  /** What a text is cut into at its ampersands, item by item. */
  function Segments(sig: Signature, lead: bool): seq<Bytes> {
    if sig == [] then [[]] else (if lead then [[]] else []) + Pieces(Items(sig))
  }

  lemma SplitText(sig: Signature, lead: bool)
    ensures Split(Text(sig, lead), AMPERSAND) == Segments(sig, lead)
  {
    if sig == [] {
      assert Items(sig) == [];
      assert Text(sig, lead) == [];
    } else {
      SplitJoined(Items(sig));
      if lead {
        SplitConcat([], AMPERSAND, Join(Items(sig), AMPERSAND));
        assert [] + [AMPERSAND] + Join(Items(sig), AMPERSAND) == Text(sig, lead);
        assert Split([], AMPERSAND) == [[]];
      } else {
        assert Text(sig, lead) == Join(Items(sig), AMPERSAND);
      }
      hide Split, Join, Pieces, Item;
    }
  }

  lemma {:induction false} JoinSplit(s: Bytes, sep: Byte)
    ensures Join(Split(s, sep), sep) == s
  {
    if s != [] {
      JoinSplit(s[1..], sep);
      var rest := Split(s[1..], sep);
      if s[0] == sep {
        assert ([[]] + rest)[1..] == rest;
      } else {
        var parts := [[s[0]] + rest[0]] + rest[1..];
        assert parts[1..] == rest[1..];
        if |rest| > 1 {
          assert [s[0]] + rest[0] + [sep] + Join(rest[1..], sep) == [s[0]] + (rest[0] + [sep] + Join(rest[1..], sep));
        }
      }
    }
  }

  /** Two signatures share a text exactly when cutting all their items at the ampersands gives the same segments. */
  lemma SameTextIff(sig1: Signature, lead1: bool, sig2: Signature, lead2: bool)
    ensures Text(sig1, lead1) == Text(sig2, lead2) <==> Segments(sig1, lead1) == Segments(sig2, lead2)
  {
    SplitText(sig1, lead1);
    SplitText(sig2, lead2);
    JoinSplit(Text(sig1, lead1), AMPERSAND);
    JoinSplit(Text(sig2, lead2), AMPERSAND);
    hide Text, Segments, Split, Join;
  }

  /** No ampersand anywhere, and no equals sign in a name. */
  predicate Plain(sig: Signature) {
    forall c :: c in sig ==> AMPERSAND !in c.0 && EQUALS !in c.0 && AMPERSAND !in c.1
  }

  lemma PlainItem(c: (Bytes, Bytes))
    requires AMPERSAND !in c.0 && EQUALS !in c.0 && AMPERSAND !in c.1
    ensures AMPERSAND !in Item(c) && EQUALS !in Lower(c.0) && Item(c) != []
    ensures Split(Item(c), AMPERSAND) == [Item(c)]
  {
    assert forall i :: 0 <= i < |c.0| ==> (Lower(c.0)[i] == AMPERSAND <==> c.0[i] == AMPERSAND);
    assert forall i :: 0 <= i < |c.0| ==> (Lower(c.0)[i] == EQUALS <==> c.0[i] == EQUALS);
    assert AMPERSAND !in Lower(c.0);
    hide Lower;
    SplitNoSep(Item(c), AMPERSAND);
  }

  lemma {:induction false} PlainPieces(sig: Signature)
    requires Plain(sig)
    ensures Pieces(Items(sig)) == Items(sig)
    decreases |sig|
  {
    if sig == [] {
      assert Items(sig) == [];
    } else {
      assert sig[0] in sig;
      PlainItem(sig[0]);
      assert Items(sig)[1..] == Items(sig[1..]);
      PlainPieces(sig[1..]);
      hide Item, Split;
      assert Items(sig) == [Item(sig[0])] + Items(sig[1..]);
    }
  }

  /** The same names, letter case aside, with the same values. */
  predicate SameItems(sig1: Signature, sig2: Signature) {
    |sig1| == |sig2| && forall i :: 0 <= i < |sig1| ==> Lower(sig1[i].0) == Lower(sig2[i].0) && sig1[i].1 == sig2[i].1
  }

  lemma SameItem(c: (Bytes, Bytes), d: (Bytes, Bytes))
    requires EQUALS !in Lower(c.0) && EQUALS !in Lower(d.0)
    ensures Item(c) == Item(d) <==> Lower(c.0) == Lower(d.0) && c.1 == d.1
  {
    if Item(c) == Item(d) {
      FirstSep(Lower(c.0), c.1, Lower(d.0), d.1, EQUALS);
    }
    hide Lower;
  }

  lemma SameItemsIff(sig1: Signature, sig2: Signature)
    requires Plain(sig1) && Plain(sig2)
    ensures Items(sig1) == Items(sig2) <==> SameItems(sig1, sig2)
  {
    hide Item;
    forall i | 0 <= i < |sig1| && i < |sig2|
      ensures Items(sig1)[i] == Items(sig2)[i] <==> Lower(sig1[i].0) == Lower(sig2[i].0) && sig1[i].1 == sig2[i].1
    {
      assert sig1[i] in sig1 && sig2[i] in sig2;
      PlainItem(sig1[i]);
      PlainItem(sig2[i]);
      SameItem(sig1[i], sig2[i]);
    }
  }

  lemma FirstSegment(sig: Signature, lead: bool)
    requires Plain(sig) && sig != []
    ensures Segments(sig, lead) == (if lead then [[]] else []) + Items(sig)
    ensures Segments(sig, lead)[0] == [] <==> lead
    ensures |Segments(sig, lead)| == |sig| + if lead then 1 else 0
    ensures Segments(sig, lead)[if lead then 1 else 0..] == Items(sig) && Segments(sig, lead) != [[]]
  {
    PlainPieces(sig);
    assert sig[0] in sig;
    PlainItem(sig[0]);
    hide Item, Pieces;
  }

  /**
   Without ampersands, and equals signs in names, two signatures share a text exactly when they have the
   same items, letter case of names aside, and both or neither begin with an empty part, or have none.
   */
  lemma PlainTextIff(sig1: Signature, lead1: bool, sig2: Signature, lead2: bool)
    requires Plain(sig1) && Plain(sig2)
    ensures Text(sig1, lead1) == Text(sig2, lead2) <==> SameItems(sig1, sig2) && (lead1 == lead2 || sig1 == [])
  {
    SameTextIff(sig1, lead1, sig2, lead2);
    SameItemsIff(sig1, sig2);
    if sig1 != [] { FirstSegment(sig1, lead1); }
    if sig2 != [] { FirstSegment(sig2, lead2); }
    hide Text, Item, Pieces, Items;
  }

  // ---- The keys of variants ----

  /** fmt.Sprintf("%x") */
  function HexShort(n: nat): (s: Bytes)
    ensures s != []
  {
    if n < 16 then [HEX_DIGITS[n]] else HexShort(n / 16) + [HEX_DIGITS[n % 16]]
  }

  lemma {:induction false} HexShortInjective(a: nat, b: nat)
    requires HexShort(a) == HexShort(b)
    ensures a == b
    decreases a
  {
    var s := HexShort(a);
    assert s[|s| - 1] == HEX_DIGITS[a % 16] == HEX_DIGITS[b % 16];
    DigitsDiffer(a % 16, b % 16);
    if a >= 16 && b >= 16 {
      assert s[..|s| - 1] == HexShort(a / 16) && s[..|s| - 1] == HexShort(b / 16);
      HexShortInjective(a / 16, b / 16);
    }
  }

  /** The key of the store: the primary key, or varyKey. */
  function KeyText(primary: P.Key -> Bytes, digest: Bytes -> nat, k: P.StoreKey): Bytes {
    match k
    case Primary(key) => primary(key)
    case Variant(key, sig, lead) => primary(key) + INFIX + HexShort(digest(Text(sig, lead)))
  }

  /** Two keys made of primary keys of one length agree exactly when the primary keys do, and the digests. */
  lemma VariantKeyIff(primary: P.Key -> Bytes, digest: Bytes -> nat, k: P.StoreKey, l: P.StoreKey)
    requires |primary(k.key)| == |primary(l.key)|
    ensures KeyText(primary, digest, k) == KeyText(primary, digest, l) <==>
      && primary(k.key) == primary(l.key) && k.Variant? == l.Variant?
      && (k.Variant? && l.Variant? ==> digest(Text(k.sig, k.lead)) == digest(Text(l.sig, l.lead)))
  {
    hide Text, HexShort;
    var a, b := KeyText(primary, digest, k), KeyText(primary, digest, l);
    var n := |primary(k.key)|;
    assert a[..n] == primary(k.key) && b[..n] == primary(l.key);
    if k.Variant? && l.Variant? {
      var x, y := digest(Text(k.sig, k.lead)), digest(Text(l.sig, l.lead));
      assert a[n + 2..] == HexShort(x) && b[n + 2..] == HexShort(y);
      if HexShort(x) == HexShort(y) {
        HexShortInjective(x, y);
      }
    } else if k.Variant? {
      assert |a| > |b|;
    } else if l.Variant? {
      assert |b| > |a|;
    }
  }

  const NAMES: seq<Bytes> := [[65], [66]]
  // A: "x&b=y" and B: "z"; A: "x" and B: "y&b=z".
  const ONE: map<Bytes, Bytes> := map[[65] := [120, 38, 98, 61, 121], [66] := [122]]
  const OTHER: map<Bytes, Bytes> := map[[65] := [120], [66] := [121, 38, 98, 61, 122]]

  lemma TwoItems(c: (Bytes, Bytes), d: (Bytes, Bytes))
    ensures Text([c, d], false) == Item(c) + [AMPERSAND] + Item(d)
  {
    assert Items([c, d]) == [Item(c), Item(d)];
    assert [Item(c), Item(d)][1..] == [Item(d)];
    assert Join([Item(d)], AMPERSAND) == Item(d);
    assert Join([Item(c), Item(d)], AMPERSAND) == Item(c) + [AMPERSAND] + Item(d);
    hide Item;
  }

  /**
   Two requests that differ in both headers of "Vary: A, B" address one variant, whatever the hash: the
   value "x&b=y" with "z" reads like "x" with "y&b=z".
   */
  lemma AmpersandCollides(primary: P.Key -> Bytes, digest: Bytes -> nat, r: P.Request, key: P.Key)
    ensures var sig, sig' := P.Signature(NAMES, r.(header := ONE)), P.Signature(NAMES, r.(header := OTHER));
      && sig != sig' && Text(sig, false) == Text(sig', false)
      && KeyText(primary, digest, P.Variant(key, sig, false)) == KeyText(primary, digest, P.Variant(key, sig', false))
  {
    var sig, sig' := P.Signature(NAMES, r.(header := ONE)), P.Signature(NAMES, r.(header := OTHER));
    assert sig == [([65], ONE[[65]]), ([66], ONE[[66]])] && sig' == [([65], OTHER[[65]]), ([66], OTHER[[66]])];
    assert sig[0].1 != sig'[0].1;
    TwoItems(sig[0], sig[1]);
    TwoItems(sig'[0], sig'[1]);
    assert Lower([65]) == [97] && Lower([66]) == [98];
    assert Item(sig[0]) + [AMPERSAND] + Item(sig[1]) == [97, 61, 120, 38, 98, 61, 121, 38, 98, 61, 122];
    assert Item(sig'[0]) + [AMPERSAND] + Item(sig'[1]) == [97, 61, 120, 38, 98, 61, 121, 38, 98, 61, 122];
    hide Text;
  }

  // ---- When the store tells all keys in use apart ----

  /** A variant as the protocol makes it: canonical names, and no leading empty part without any name. */
  predicate WellMade(k: P.StoreKey) {
    k.Variant? ==>
      && (k.lead ==> k.sig != [])
      && forall c :: c in k.sig ==> IsToken(c.0) && Canonical(c.0) == c.0
  }

  ghost predicate SeparatesOn(hash: Bytes -> nat, texts: set<Bytes>) {
    forall x, y :: x in texts && y in texts && hash(x) == hash(y) ==> x == y
  }

  lemma CanonicalLower(a: Bytes, b: Bytes)
    requires IsToken(a) && IsToken(b) && Canonical(a) == a && Canonical(b) == b && Lower(a) == Lower(b)
    ensures a == b
  {
    CapitaliseForgetsCase(a);
    CapitaliseForgetsCase(b);
    hide Lower;
  }

  lemma SameSignature(sig1: Signature, sig2: Signature)
    requires SameItems(sig1, sig2)
    requires forall c :: c in sig1 || c in sig2 ==> IsToken(c.0) && Canonical(c.0) == c.0
    ensures sig1 == sig2
  {
    hide Lower, IsToken, Canonical;
    forall i | 0 <= i < |sig1|
      ensures sig1[i] == sig2[i]
    {
      assert sig1[i] in sig1 && sig2[i] in sig2;
      CanonicalLower(sig1[i].0, sig2[i].0);
    }
  }

  function Texts(used: set<P.StoreKey>): set<Bytes> {
    set k | k in used && k.Variant? :: Text(k.sig, k.lead)
  }

  function KeyTexts(primary: P.Key -> Bytes, digest: Bytes -> nat, used: set<P.StoreKey>): set<Bytes> {
    set k | k in used :: KeyText(primary, digest, k)
  }

  ghost predicate PrimariesApart(primary: P.Key -> Bytes, used: set<P.StoreKey>) {
    forall j, k :: j in used && k in used ==>
      |primary(j.key)| == |primary(k.key)| && (primary(j.key) == primary(k.key) ==> j.key == k.key)
  }

  lemma KeysApart(primary: P.Key -> Bytes, digest: Bytes -> nat, used: set<P.StoreKey>, j: P.StoreKey, k: P.StoreKey)
    requires j in used && k in used && PrimariesApart(primary, used) && SeparatesOn(digest, Texts(used))
    requires WellMade(j) && WellMade(k) && (j.Variant? ==> Plain(j.sig)) && (k.Variant? ==> Plain(k.sig))
    requires KeyText(primary, digest, j) == KeyText(primary, digest, k)
    ensures j == k
  {
    hide KeyText, Text, Plain, SameItems, IsToken, Canonical;
    VariantKeyIff(primary, digest, j, k);
    if j.Variant? && k.Variant? {
      assert Text(j.sig, j.lead) in Texts(used) && Text(k.sig, k.lead) in Texts(used);
      PlainTextIff(j.sig, j.lead, k.sig, k.lead);
      SameSignature(j.sig, k.sig);
    }
  }

  /**
   Where the hashes separate the texts in use, and no value or name in a signature holds an ampersand,
   the store knows all keys in use by hashes of their own.
   */
  lemma UsedApart(primary: P.Key -> Bytes, digest: Bytes -> nat, hash: Bytes -> nat, used: set<P.StoreKey>)
    requires PrimariesApart(primary, used) && SeparatesOn(digest, Texts(used))
    requires SeparatesOn(hash, KeyTexts(primary, digest, used))
    requires forall k :: k in used ==> WellMade(k) && (k.Variant? ==> Plain(k.sig))
    ensures Apart(Addresses(used, k => hash(KeyText(primary, digest, k))))
  {
    hide KeyText, Plain, WellMade, PrimariesApart, Texts;
    forall j, k | j in used && k in used && hash(KeyText(primary, digest, j)) == hash(KeyText(primary, digest, k))
      ensures j == k
    {
      assert KeyText(primary, digest, j) in KeyTexts(primary, digest, used);
      assert KeyText(primary, digest, k) in KeyTexts(primary, digest, used);
      KeysApart(primary, digest, used, j, k);
    }
  }
}
