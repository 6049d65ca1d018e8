/**
 Adding header values to a response, as the loops over Header.Add do. Header.Add canonicalises the
 name, so two keys of a map that are one name canonically end up in the order of the enumeration;
 what a loop may produce is therefore a relation.
 */
module HeaderMerge {
  import opened Bytes
  import opened HeaderCodec
  import opened Mime

  function ValuesOf(h: Header, k: Bytes): seq<Bytes> {
    if k in h then h[k] else []
  }

  /** Header.Add of each value under one name. */
  function Added(w: Header, name: Bytes, vs: seq<Bytes>): Header {
    if vs == [] then w else w[name := ValuesOf(w, name) + vs]
  }

  /** w after the keys of h were added in the given order. */
  ghost function MergeIn(order: seq<Bytes>, w: Header, h: Header): Header
    requires forall k :: k in order ==> k in h
  {
    if order == [] then w
    else
      var last := order[|order| - 1];
      Added(MergeIn(order[..|order| - 1], w, h), Canonical(last), h[last])
  }

  /** r is w after every value of h was added, in some enumeration order of its keys. */
  ghost predicate IsMerge(r: Header, w: Header, h: Header) {
    exists order :: Enumerates(order, h.Keys) && r == MergeIn(order, w, h)
  }

  lemma MergeNext(order: seq<Bytes>, w: Header, h: Header, k: Bytes)
    requires k in h && forall x :: x in order ==> x in h
    ensures MergeIn(order + [k], w, h) == Added(MergeIn(order, w, h), Canonical(k), h[k])
  {
    assert (order + [k])[..|order|] == order;
  }

  // ---- What a merge contains ----

  /** No two keys are one name canonically, as in any map filled through Set and Add. */
  predicate DistinctNames(h: Header) {
    forall j, k :: j in h && k in h && Canonical(j) == Canonical(k) ==> j == k
  }

  /** The values h adds under a name that only the given key has. */
  function ValuesFrom(order: seq<Bytes>, h: Header, name: Bytes): seq<Bytes>
    requires forall k :: k in order ==> k in h
  {
    if order == [] then []
    else
      var last := order[|order| - 1];
      ValuesFrom(order[..|order| - 1], h, name) + if Canonical(last) == name then h[last] else []
  }

  lemma {:induction false} MergeAt(order: seq<Bytes>, w: Header, h: Header, name: Bytes)
    requires forall k :: k in order ==> k in h
    ensures ValuesOf(MergeIn(order, w, h), name) == ValuesOf(w, name) + ValuesFrom(order, h, name)
    ensures name in MergeIn(order, w, h) <==> name in w || ValuesFrom(order, h, name) != []
    decreases |order|
  {
    hide Canonical;
    if order != [] {
      var last := |order| - 1;
      MergeAt(order[..last], w, h, name);
      assert ValuesOf(w, name) + ValuesFrom(order[..last], h, name) + h[order[last]]
          == ValuesOf(w, name) + (ValuesFrom(order[..last], h, name) + h[order[last]]);
    } else {
      assert ValuesOf(w, name) + [] == ValuesOf(w, name);
    }
  }

  lemma {:induction false} NoneFrom(order: seq<Bytes>, h: Header, name: Bytes)
    requires forall k :: k in order ==> k in h && Canonical(k) != name
    ensures ValuesFrom(order, h, name) == []
    decreases |order|
  {
    hide Canonical;
    if order != [] {
      NoneFrom(order[..|order| - 1], h, name);
    }
  }

  lemma {:induction false} OnlyFrom(order: seq<Bytes>, h: Header, k: Bytes)
    requires DistinctNames(h) && k in order && (forall x :: x in order ==> x in h)
    requires forall i, j :: 0 <= i < j < |order| ==> order[i] != order[j]
    ensures ValuesFrom(order, h, Canonical(k)) == h[k]
    decreases |order|
  {
    hide Canonical;
    var front, last := order[..|order| - 1], order[|order| - 1];
    if last == k {
      NoneFrom(front, h, Canonical(k));
      assert [] + h[k] == h[k];
    } else {
      assert k in front;
      OnlyFrom(front, h, k);
      assert h[k] + [] == h[k];
    }
  }

  /** Under distinct names what is added under a name does not depend on the order. */
  lemma FromAnyOrder(a: seq<Bytes>, b: seq<Bytes>, h: Header, name: Bytes)
    requires DistinctNames(h) && Enumerates(a, h.Keys) && Enumerates(b, h.Keys)
    ensures ValuesFrom(a, h, name) == ValuesFrom(b, h, name)
  {
    hide Canonical;
    if k :| k in h && Canonical(k) == name {
      OnlyFrom(a, h, k);
      OnlyFrom(b, h, k);
    } else {
      NoneFrom(a, h, name);
      NoneFrom(b, h, name);
    }
  }

  lemma SameHeader(a: Header, b: Header)
    requires forall k :: (k in a <==> k in b) && ValuesOf(a, k) == ValuesOf(b, k)
    ensures a == b
  {
    forall k | k in a
      ensures a[k] == b[k]
    {
      assert ValuesOf(a, k) == ValuesOf(b, k);
    }
  }

  /** With distinct names there is one merge, whatever the enumeration order. */
  lemma MergeUnique(a: Header, b: Header, w: Header, h: Header)
    requires DistinctNames(h) && IsMerge(a, w, h) && IsMerge(b, w, h)
    ensures a == b
  {
    hide Canonical, MergeIn, ValuesFrom, DistinctNames;
    var p :| Enumerates(p, h.Keys) && a == MergeIn(p, w, h);
    var q :| Enumerates(q, h.Keys) && b == MergeIn(q, w, h);
    forall k
      ensures (k in a <==> k in b) && ValuesOf(a, k) == ValuesOf(b, k)
    {
      MergedAlike(p, q, w, h, k);
    }
    SameHeader(a, b);
  }

  lemma MergedAlike(p: seq<Bytes>, q: seq<Bytes>, w: Header, h: Header, k: Bytes)
    requires DistinctNames(h) && Enumerates(p, h.Keys) && Enumerates(q, h.Keys)
    ensures k in MergeIn(p, w, h) <==> k in MergeIn(q, w, h)
    ensures ValuesOf(MergeIn(p, w, h), k) == ValuesOf(MergeIn(q, w, h), k)
  {
    hide MergeIn, ValuesFrom, DistinctNames;
    MergeAt(p, w, h, k);
    MergeAt(q, w, h, k);
    FromAnyOrder(p, q, h, k);
  }

  /** Under the name of a key a merge has what was there, followed by that key's values, in their order. */
  lemma MergeHas(r: Header, w: Header, h: Header, k: Bytes)
    requires DistinctNames(h) && IsMerge(r, w, h) && k in h
    ensures ValuesOf(r, Canonical(k)) == ValuesOf(w, Canonical(k)) + h[k]
  {
    hide Canonical, MergeIn, ValuesFrom, DistinctNames;
    var order :| Enumerates(order, h.Keys) && r == MergeIn(order, w, h);
    MergeAt(order, w, h, Canonical(k));
    OnlyFrom(order, h, k);
  }

  /** Under any other name it has what was there, and nothing else. */
  lemma MergeKeeps(r: Header, w: Header, h: Header, name: Bytes)
    requires IsMerge(r, w, h) && forall k :: k in h ==> Canonical(k) != name
    ensures ValuesOf(r, name) == ValuesOf(w, name)
    ensures name in r <==> name in w
  {
    hide Canonical, MergeIn, ValuesFrom;
    var order :| Enumerates(order, h.Keys) && r == MergeIn(order, w, h);
    MergeAt(order, w, h, name);
    NoneFrom(order, h, name);
    assert ValuesOf(w, name) + [] == ValuesOf(w, name);
  }

  // ---- The loops ----

  /** The inner loop: Header.Add for each value. */
  method AddValues(w: Header, k: Bytes, vv: seq<Bytes>) returns (r: Header)
    ensures r == Added(w, Canonical(k), vv)
  {
    hide Canonical;
    r := w;
    assert vv[..0] == [];
    for i := 0 to |vv|
      invariant r == Added(w, Canonical(k), vv[..i])
    {
      var name := Canonical(k);
      assert ValuesOf(w, name) + [] == ValuesOf(w, name);
      assert ValuesOf(w, name) + vv[..i] + [vv[i]] == ValuesOf(w, name) + (vv[..i] + [vv[i]]);
      assert vv[..i + 1] == vv[..i] + [vv[i]];
      r := r[name := ValuesOf(r, name) + [vv[i]]];
    }
    assert vv[..|vv|] == vv;
  }

  /** The loop that commits captured headers to the client. */
  method AddAll(w: Header, h: Header) returns (r: Header)
    ensures IsMerge(r, w, h)
  {
    hide Canonical, MergeIn, Added;
    r := w;
    var rest := h.Keys;
    ghost var order: seq<Bytes> := [];
    MergeNothing(w, h);
    while rest != {}
      invariant rest <= h.Keys && Enumerates(order, h.Keys - rest)
      invariant forall x :: x in order ==> x in h
      invariant r == MergeIn(order, w, h)
    {
      var k :| k in rest;
      r := AddValues(r, k, h[k]);
      MergeNext(order, w, h, k);
      EnumeratesNext(order, h.Keys - rest, k);
      assert h.Keys - rest + {k} == h.Keys - (rest - {k});
      order := order + [k];
      rest := rest - {k};
    }
    assert h.Keys - {} == h.Keys;
  }

  lemma MergeNothing(w: Header, h: Header)
    ensures MergeIn([], w, h) == w && Enumerates([], h.Keys - h.Keys)
  {
  }
}
