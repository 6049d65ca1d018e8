/** Top-K prediction: both predictors list the same probabilities for a session. */
module PredictionLists {
  import opened Bytes
  import opened Predictors
  import opened DenseCounters
  import opened PredictorRefinement
  import opened Sorting

  predicate ByCount(a: Prediction, b: Prediction) {
    a.count >= b.count
  }

  predicate Geq(a: nat, b: nat) {
    a >= b
  }

  function Counts(s: seq<Prediction>): (r: seq<nat>)
    ensures |r| == |s| && forall i :: 0 <= i < |s| ==> r[i] == s[i].count
  {
    seq(|s|, i requires 0 <= i < |s| => s[i].count)
  }

  /** What a client sees of a list of predictions but for ties: the probabilities, as fractions. */
  function Probabilities(s: seq<Prediction>): (r: seq<(nat, nat)>)
    ensures |r| == |s| && forall i :: 0 <= i < |s| ==> r[i] == (s[i].count, s[i].total)
  {
    seq(|s|, i requires 0 <= i < |s| => (s[i].count, s[i].total))
  }

  // ---- The dense scan ----

  /** The non-zero cells of a row for the first upto ids. */
  function Candidates(row: seq<nat>, reverse: seq<Pattern>, total: nat, upto: nat): seq<Prediction>
    requires upto <= |row| && upto <= |reverse|
  {
    if upto == 0 then []
    else
      Candidates(row, reverse, total, upto - 1)
        + if row[upto - 1] > 0 then [Prediction(reverse[upto - 1], row[upto - 1], total)] else []
  }

  function ScanEnd(d: DenseState): nat {
    if |d.reverse| > d.maxRoutes then d.maxRoutes else |d.reverse|
  }

  function Scan(d: DenseState, from: nat): seq<Prediction>
    requires Sized(d) && from < d.maxRoutes
  {
    Candidates(Row(d.matrix, d.maxRoutes, from), d.reverse, d.totals[from], ScanEnd(d))
  }

  /**
   r is a result of DenseMatrixPredictor.Predict: equal counts may come in any order. A negative limit
   panics, as None, when it is used for the size of the result.
   */
  ghost predicate DensePredicts(d: DenseState, sid: Sid, topK: int, r: Option<seq<Prediction>>)
    requires Sized(d)
  {
    var hist := HistoryOf(d.sessions, sid);
    if hist == [] || LastOf(hist) >= d.maxRoutes || d.totals[LastOf(hist)] == 0 || Scan(d, LastOf(hist)) == [] then
      r == Some([])
    else if topK < 0 then r == None
    else r.Some? && exists s :: SortedPermutation(s, Scan(d, LastOf(hist)), ByCount) && r.value == Top(s, topK)
  }

  function Top(s: seq<Prediction>, k: nat): seq<Prediction> {
    if k > |s| then s else s[..k]
  }

  // ---- The map scan ----

  /** The entries of a map row, each once, in some order. */
  ghost predicate ListsRow(s: seq<Prediction>, row: map<Pattern, nat>, total: nat) {
    && (forall x :: x in s <==> x.pattern in row && x.count == row[x.pattern] && x.total == total)
    && Distinct(s)
  }

  ghost predicate Distinct(s: seq<Prediction>) {
    forall i, j :: 0 <= i < j < |s| ==> s[i] != s[j]
  }

  ghost predicate MapPredicts(m: MapState, sid: Sid, topK: int, r: seq<Prediction>) {
    var hist := HistoryOf(m.sessions, sid);
    if hist == [] || LastOf(hist) !in m.transitions || TotalIn(m.totals, LastOf(hist)) == 0 then r == []
    else exists entries, s ::
      && ListsRow(entries, m.transitions[LastOf(hist)], TotalIn(m.totals, LastOf(hist)))
      && SortedPermutation(s, entries, ByCount)
      && r == if topK > 0 && |s| > topK then s[..topK] else s
  }

  // ---- Sorting by count determines the list of counts ----

  lemma GeqIsTotalOrder()
    ensures TotalOrder(Geq)
  {
  }

  lemma {:induction false} CountsPermute(a: seq<Prediction>, b: seq<Prediction>)
    requires multiset(a) == multiset(b)
    ensures multiset(Counts(a)) == multiset(Counts(b))
    decreases |a|
  {
    hide Counts;
    if a == [] {
      assert |b| == |multiset(b)| == 0;
      assert a == b;
    } else {
      var x := a[0];
      assert x in multiset(a);
      var ra := CountsRemove(a, x);
      var rb := CountsRemove(b, x);
      CountsPermute(ra, rb);
    }
  }

  lemma CountsRemove(s: seq<Prediction>, x: Prediction) returns (rest: seq<Prediction>)
    requires x in multiset(s)
    ensures |rest| < |s| && multiset(rest) == multiset(s) - multiset{x}
    ensures multiset(Counts(s)) == multiset(Counts(rest)) + multiset{x.count}
  {
    var i :| 0 <= i < |s| && s[i] == x;
    rest := s[..i] + s[i + 1..];
    RemoveAt(s, i);
    var c := Counts(s);
    RemoveAt(c, i);
    assert Counts(rest) == c[..i] + c[i + 1..];
    assert c[i] in multiset(c);
  }

  lemma RemoveAt<T>(s: seq<T>, i: nat)
    requires i < |s|
    ensures multiset(s[..i] + s[i + 1..]) == multiset(s) - multiset{s[i]}
  {
    assert s == s[..i] + [s[i]] + s[i + 1..];
  }

  lemma SortedCounts(s: seq<Prediction>, a: seq<Prediction>)
    requires SortedPermutation(s, a, ByCount)
    ensures Sorted(Counts(s), Geq) && multiset(Counts(s)) == multiset(Counts(a))
  {
    CountsPermute(s, a);
  }

  /** Two sorted permutations of one collection list the same counts. */
  lemma SameCounts(s: seq<Prediction>, t: seq<Prediction>, a: seq<Prediction>, b: seq<Prediction>)
    requires SortedPermutation(s, a, ByCount) && SortedPermutation(t, b, ByCount) && multiset(a) == multiset(b)
    ensures Counts(s) == Counts(t)
  {
    SortedCounts(s, a);
    SortedCounts(t, b);
    CountsPermute(a, b);
    GeqIsTotalOrder();
    SortedUnique(Counts(s), Counts(t), Geq);
  }

  lemma HeadOnce(s: seq<Prediction>)
    requires Distinct(s) && s != []
    ensures s[0] !in s[1..] && Distinct(s[1..])
  {
    forall i | 0 <= i < |s[1..]|
      ensures s[1..][i] != s[0]
    {
      assert s[1..][i] == s[i + 1];
    }
  }

  lemma {:induction false} OnceEach(s: seq<Prediction>, x: Prediction)
    requires Distinct(s)
    ensures multiset(s)[x] == if x in s then 1 else 0
    decreases |s|
  {
    if s != [] {
      var rest := s[1..];
      MultisetTail(s);
      OnceEach(rest, x);
      assert x in s <==> x == s[0] || x in rest;
      HeadOnce(s);
    }
  }

  lemma DistinctSame(a: seq<Prediction>, b: seq<Prediction>)
    requires Distinct(a) && Distinct(b) && forall x :: x in a <==> x in b
    ensures multiset(a) == multiset(b)
  {
    forall x
      ensures multiset(a)[x] == multiset(b)[x]
    {
      OnceEach(a, x);
      OnceEach(b, x);
    }
  }

  // ---- The dense scan lists the map row ----

  lemma {:induction false} CandidatesAre(row: seq<nat>, reverse: seq<Pattern>, total: nat, upto: nat)
    requires upto <= |row| && upto <= |reverse| && NoDup(reverse)
    ensures var s := Candidates(row, reverse, total, upto);
      && (forall x :: x in s <==> exists i :: 0 <= i < upto && row[i] > 0 && x == Prediction(reverse[i], row[i], total))
      && Distinct(s)
    decreases upto
  {
    if upto > 0 {
      CandidatesAre(row, reverse, total, upto - 1);
      var front, s := Candidates(row, reverse, total, upto - 1), Candidates(row, reverse, total, upto);
      forall x
        ensures x in s <==> exists i :: 0 <= i < upto && row[i] > 0 && x == Prediction(reverse[i], row[i], total)
      {
        if row[upto - 1] > 0 {
          assert s == front + [Prediction(reverse[upto - 1], row[upto - 1], total)];
        }
        if i :| 0 <= i < upto && row[i] > 0 && x == Prediction(reverse[i], row[i], total) {
          if i < upto - 1 { assert x in front; }
        }
      }
      forall x | x in front
        ensures x.pattern != reverse[upto - 1]
      {
        var i :| 0 <= i < upto - 1 && row[i] > 0 && x == Prediction(reverse[i], row[i], total);
        assert reverse[i] != reverse[upto - 1];
      }
    }
  }

  lemma CandidatesListRow(row: seq<nat>, reverse: seq<Pattern>, total: nat, counts: map<Pattern, nat>, x: Prediction)
    requires |reverse| <= |row| && NoDup(reverse)
    requires forall b :: 0 <= b < |reverse| ==> row[b] == if reverse[b] in counts then counts[reverse[b]] else 0
    requires forall q :: q in counts ==> q in reverse && counts[q] > 0
    ensures x in Candidates(row, reverse, total, |reverse|)
       <==> x.pattern in counts && x.count == counts[x.pattern] && x.total == total
  {
    CandidatesAre(row, reverse, total, |reverse|);
    hide Candidates, NoDup;
    if x.pattern in counts && x.count == counts[x.pattern] && x.total == total {
      var b :| 0 <= b < |reverse| && reverse[b] == x.pattern;
      assert row[b] > 0 && x == Prediction(reverse[b], row[b], total);
    }
  }

  lemma RowCounts(d: DenseState, m: MapState, a: nat, b: nat)
    requires Agrees(d, m) && a < |d.reverse| && b < |d.reverse|
    ensures Row(d.matrix, d.maxRoutes, a)[b] == CountIn(m.transitions, d.reverse[a], d.reverse[b])
  {
    assert Cell(d.matrix, d.maxRoutes, a, b) == Row(d.matrix, d.maxRoutes, a)[b];
    hide Cell, Row, Safe, SameSessions, SameTotals, Known;
  }

  lemma ScanListsRow(d: DenseState, m: MapState, a: nat, x: Prediction)
    requires Agrees(d, m) && a < |d.reverse| && d.reverse[a] in m.transitions
    ensures x in Scan(d, a) <==>
      && x.pattern in m.transitions[d.reverse[a]] && x.count == m.transitions[d.reverse[a]][x.pattern]
      && x.total == TotalIn(m.totals, d.reverse[a])
    ensures Distinct(Scan(d, a))
  {
    var row, p := Row(d.matrix, d.maxRoutes, a), d.reverse[a];
    var counts := m.transitions[p];
    TotalsMatch(d, m, a);
    forall b | 0 <= b < |d.reverse|
      ensures row[b] == if d.reverse[b] in counts then counts[d.reverse[b]] else 0
    {
      RowCounts(d, m, a, b);
    }
    assert ScanEnd(d) == |d.reverse| && NoDup(d.reverse);
    assert forall q :: q in counts ==> q in d.reverse && counts[q] > 0;
    hide Agrees, Candidates, Row, NoDup, Distinct;
    CandidatesAre(row, d.reverse, d.totals[a], |d.reverse|);
    CandidatesListRow(row, d.reverse, d.totals[a], counts, x);
  }

  /**
   For a prediction limit of at least one, whatever each predictor returns, both list the same
   probabilities. Otherwise only the map predictor lists anything, and the dense one panics if the
   limit is negative and there is something to list.
   */
  lemma PredictionsAgreeIff(d: DenseState, m: MapState, sid: Sid, topK: int, rd: Option<seq<Prediction>>,
                            rm: seq<Prediction>)
    requires Agrees(d, m) && DensePredicts(d, sid, topK, rd) && MapPredicts(m, sid, topK, rm)
    ensures rd.Some? && Probabilities(rd.value) == Probabilities(rm) <==> topK >= 1 || rm == []
    ensures rd == None <==> topK < 0 && rm != []
  {
    SameHistory(d, m, sid);
    var hist := HistoryOf(d.sessions, sid);
    if hist != [] {
      var a := LastOf(hist);
      TotalsMatch(d, m, a);
      if d.totals[a] > 0 {
        NonZeroKnown(d, m, a);
        hide Agrees, Scan;
        ListsAgree(d, m, a, topK, rd, rm);
      }
    }
  }

  lemma TotalsMatch(d: DenseState, m: MapState, a: nat)
    requires Agrees(d, m) && a < |d.reverse|
    ensures a < d.maxRoutes && d.totals[a] == TotalIn(m.totals, d.reverse[a])
  {
    assert TotalOf(d.totals, a) == d.totals[a];
    hide Safe, SameCells, Known, SameSessions;
  }

  /** A route with a positive total has a row in the map predictor. */
  lemma NonZeroKnown(d: DenseState, m: MapState, a: nat)
    requires Agrees(d, m) && a < |d.reverse| && a < d.maxRoutes && d.totals[a] > 0
    ensures d.reverse[a] in m.transitions
  {
    var row := Row(d.matrix, d.maxRoutes, a);
    assert d.totals[a] == Sum(row);
    if d.reverse[a] !in m.transitions {
      forall b | 0 <= b < d.maxRoutes
        ensures row[b] == 0
      {
        assert Cell(d.matrix, d.maxRoutes, a, b) == row[b];
        if b < |d.reverse| {
          assert CountIn(m.transitions, d.reverse[a], d.reverse[b]) == 0;
        }
      }
      AllZero(row);
    }
  }

  /** Sorted listings of one collection, cut at the same limit, list the same probabilities. */
  lemma TopAgrees(s: seq<Prediction>, t: seq<Prediction>, a: seq<Prediction>, b: seq<Prediction>, total: nat, k: nat)
    requires SortedPermutation(s, a, ByCount) && SortedPermutation(t, b, ByCount) && multiset(a) == multiset(b)
    requires forall x :: x in b ==> x.total == total
    ensures |s| == |t| && Probabilities(Top(s, k)) == Probabilities(Top(t, k))
  {
    SameCounts(s, t, a, b);
    assert |s| == |Counts(s)| == |Counts(t)| == |t|;
    forall i | 0 <= i < |s|
      ensures s[i].count == t[i].count && s[i].total == total && t[i].total == total
    {
      assert s[i].count == Counts(s)[i] == Counts(t)[i];
      assert s[i] in multiset(s) && t[i] in multiset(t);
      assert s[i] in multiset(b) && t[i] in multiset(b);
    }
    hide Sorted, Counts, ByCount;
  }

  lemma ScanMultiset(d: DenseState, m: MapState, a: nat, entries: seq<Prediction>)
    requires Agrees(d, m) && a < |d.reverse| && a < d.maxRoutes && d.reverse[a] in m.transitions
    requires ListsRow(entries, m.transitions[d.reverse[a]], TotalIn(m.totals, d.reverse[a]))
    ensures multiset(Scan(d, a)) == multiset(entries)
  {
    assert Sized(d);
    hide Agrees, Scan, Distinct;
    forall x
      ensures x in Scan(d, a) <==> x in entries
    {
      ScanListsRow(d, m, a, x);
    }
    ScanDistinct(d, m, a);
    DistinctSame(Scan(d, a), entries);
  }

  lemma ListsAgree(d: DenseState, m: MapState, a: nat, topK: int, rd: Option<seq<Prediction>>, rm: seq<Prediction>)
    requires Agrees(d, m) && a < |d.reverse| && a < d.maxRoutes && d.reverse[a] in m.transitions
    requires if Scan(d, a) == [] then rd == Some([])
      else if topK < 0 then rd == None
      else rd.Some? && exists s :: SortedPermutation(s, Scan(d, a), ByCount) && rd.value == Top(s, topK)
    requires exists entries, s ::
      && ListsRow(entries, m.transitions[d.reverse[a]], TotalIn(m.totals, d.reverse[a]))
      && SortedPermutation(s, entries, ByCount)
      && rm == if topK > 0 && |s| > topK then s[..topK] else s
    ensures rd.Some? && Probabilities(rd.value) == Probabilities(rm) <==> topK >= 1 || rm == []
    ensures rd == None <==> topK < 0 && rm != []
  {
    assert Sized(d);
    hide Agrees, Scan, SortedPermutation, ListsRow;
    var total := TotalIn(m.totals, d.reverse[a]);
    var entries: seq<Prediction>, t: seq<Prediction> :|
      && ListsRow(entries, m.transitions[d.reverse[a]], total)
      && SortedPermutation(t, entries, ByCount)
      && rm == if topK > 0 && |t| > topK then t[..topK] else t;
    ScanMultiset(d, m, a, entries);
    SameLength(t, entries, Scan(d, a));
    if Scan(d, a) != [] && topK >= 0 {
      var s: seq<Prediction> :| SortedPermutation(s, Scan(d, a), ByCount) && rd.value == Top(s, topK);
      RowTotals(entries, m.transitions[d.reverse[a]], total);
      hide Probabilities;
      TopAgrees(s, t, Scan(d, a), entries, total, topK);
      CutAgrees(s, t, topK, rd.value, rm);
    }
  }

  lemma SameLength(t: seq<Prediction>, entries: seq<Prediction>, scan: seq<Prediction>)
    requires SortedPermutation(t, entries, ByCount) && multiset(scan) == multiset(entries)
    ensures |t| == |scan|
  {
    assert |t| == |multiset(t)| == |multiset(scan)| == |scan|;
  }

  lemma RowTotals(s: seq<Prediction>, row: map<Pattern, nat>, total: nat)
    requires ListsRow(s, row, total)
    ensures forall x :: x in s ==> x.total == total
  {
    hide Distinct;
  }

  lemma CutAgrees(s: seq<Prediction>, t: seq<Prediction>, topK: nat, rd: seq<Prediction>, rm: seq<Prediction>)
    requires rd == Top(s, topK) && rm == if topK > 0 && |t| > topK then t[..topK] else t
    requires |s| == |t| && Probabilities(Top(s, topK)) == Probabilities(Top(t, topK))
    ensures Probabilities(rd) == Probabilities(rm) <==> topK >= 1 || rm == []
  {
    assert s[..|s|] == s && t[..|t|] == t;
    if topK == 0 {
      assert rd == [] && |Probabilities(rm)| == |rm|;
    } else {
      assert rd == Top(s, topK) && rm == Top(t, topK);
    }
  }

  lemma ScanDistinct(d: DenseState, m: MapState, a: nat)
    requires Agrees(d, m) && a < |d.reverse| && d.reverse[a] in m.transitions
    ensures Distinct(Scan(d, a))
  {
    ScanListsRow(d, m, a, Prediction("", 0, 0));
  }

  // ---- Limits below one ----

  /** A session that requests one route twice. */
  const TWICE := [Op.Record("s", "r", None, None), Op.Record("s", "r", None, None)]
  const ONCE_AGAIN := Prediction("r", 1, 1)

  const FIRST := Op.Record("s", "r", None, None)

  /** The map predictor after the first and after the second request. */
  const ONE := MapState(map["s" := ["r"]], map[], map[])
  const TWO := MapState(map["s" := ["r", "r"]], map["r" := map["r" := 1]], map["r" := 1])

  lemma TwiceMap()
    ensures RunMap(TWICE[..0]) == NEW_MAP && RunMap(TWICE[..1]) == ONE && RunMap(TWICE) == TWO
  {
    assert TWICE[..1] == [FIRST] && [FIRST][..0] == [] && TWICE[..0] == [];
    assert [] + ["r"] == ["r"] && ["r"] + ["r"] == ["r", "r"];
    assert RunMap([]) == NEW_MAP;
    assert RunMap([FIRST]) == StepMap(NEW_MAP, FIRST) == ONE;
    assert StepMap(ONE, FIRST) == TWO;
    hide StepMap;
  }

  lemma TwiceDense()
    ensures RunDense(TWICE[..0], 1).sessions == map[]
    ensures "s" in RunDense(TWICE[..1], 1).sessions && RunDense(TWICE[..1], 1).sessions["s"] != []
  {
    var d := NewDense(1);
    assert TWICE[..1] == [FIRST] && [FIRST][..0] == [] && TWICE[..0] == [];
    assert RunDense([], 1) == d;
    assert Register(d.reverse, "r") == (["r"], Some(0)) by { assert [] + ["r"] == ["r"]; }
    hide Bump, Extend;
    assert RunDense([FIRST], 1) == StepDense(d, FIRST);
  }

  lemma TwiceLawful(shardOf: Sid -> nat)
    ensures Lawful(TWICE, 1, shardOf) && WithinLimits(TWICE, 1)
  {
    TwiceMap();
    TwiceDense();
    hide RunDense, RunMap;
    assert SidsIn(TWICE) == {"s"} && PatternsIn(TWICE) == {"r"};
    assert NEW_MAP.sessions.Keys == {};
    var d := RunDense(TWICE[..0], 1);
    assert (set x | x in d.sessions && shardOf(x) == shardOf("s")) == {};
  }

  lemma TwicePredicts(topK: int)
    requires topK < 1
    ensures MapPredicts(TWO, "s", topK, [ONCE_AGAIN])
  {
    var entries := [ONCE_AGAIN];
    assert ListsRow(entries, TWO.transitions["r"], 1) && SortedPermutation(entries, entries, ByCount);
  }

  /**
   A state in which the two predictors agree, and for limits below one the map predictor lists its one
   route, while the dense one lists nothing for zero and panics for a negative limit.
   */
  lemma LimitBelowOneDiffers(shardOf: Sid -> nat, topK: int, r: Option<seq<Prediction>>)
    requires topK < 1
    ensures Sized(RunDense(TWICE, 1)) && Agrees(RunDense(TWICE, 1), RunMap(TWICE))
    ensures MapPredicts(RunMap(TWICE), "s", topK, [ONCE_AGAIN])
    ensures DensePredicts(RunDense(TWICE, 1), "s", topK, r) ==> r == if topK < 0 then None else Some([])
  {
    TwiceMap();
    TwiceLawful(shardOf);
    TwicePredicts(topK);
    hide RunDense, RunMap, Agrees, Lawful, WithinLimits, MapPredicts;
    RunsAgree(TWICE, 1, shardOf);
    if DensePredicts(RunDense(TWICE, 1), "s", topK, r) {
      PredictionsAgreeIff(RunDense(TWICE, 1), RunMap(TWICE), "s", topK, r, [ONCE_AGAIN]);
      TopNone(RunDense(TWICE, 1), "s", topK, r);
    }
  }

  lemma TopNone(d: DenseState, sid: Sid, topK: int, r: Option<seq<Prediction>>)
    requires Sized(d) && DensePredicts(d, sid, topK, r) && topK < 1
    ensures r.Some? ==> r.value == []
  {
    hide Scan, SortedPermutation;
  }
}
