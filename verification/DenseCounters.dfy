/** Counter safety of the dense predictor, and what rescaling a saturated row keeps. */
module DenseCounters {
  import opened Bytes
  import opened Predictors

  // ---- Rescaling ----

  lemma {:induction false} HalvesSum(s: seq<nat>)
    ensures 2 * Sum(Halves(s)) <= Sum(s) <= 2 * Sum(Halves(s)) + |s|
    decreases |s|
  {
    if s != [] {
      HalvesSum(s[1..]);
      assert Halves(s)[1..] == Halves(s[1..]);
    }
  }

  /** A halved row keeps a positive total, well below saturation, and the order of its counts. */
  lemma RescaledRow(s: seq<nat>)
    requires |s| <= 65535 && 0x7FFF_FFFF <= Sum(s)
    ensures 0 < Sum(Halves(s)) && 2 * Sum(Halves(s)) <= Sum(s)
    ensures forall i, j :: 0 <= i < |s| && 0 <= j < |s| && s[i] <= s[j] ==> Halves(s)[i] <= Halves(s)[j]
  {
    HalvesSum(s);
  }

  lemma MulBounds(x: int, y: int, lo: int, hi: int)
    requires 0 <= y && lo <= x <= hi
    ensures lo * y <= x * y <= hi * y
  {
    MulNonNeg(x - lo, y);
    MulNonNeg(hi - x, y);
    assert (x - lo) * y == x * y - lo * y;
    assert (hi - x) * y == hi * y - x * y;
  }

  lemma MulNonNeg(x: int, y: int)
    requires 0 <= x && 0 <= y
    ensures 0 <= x * y
  {
  }

  /** With old = 2 * half + odd and tot = 2 * newTot + lost, the scaled difference in closed form. */
  lemma Difference(half: int, odd: int, newTot: int, lost: int)
    ensures 2 * (half * (2 * newTot + lost) - (2 * half + odd) * newTot) ==
            (2 * half + odd) * lost - odd * (2 * newTot + lost)
  {
    var a, b, c, d := half * newTot, half * lost, odd * newTot, odd * lost;
    assert half * (2 * newTot + lost) == 2 * a + b;
    assert (2 * half + odd) * newTot == 2 * a + c;
    assert (2 * half + odd) * lost == 2 * b + d;
    assert odd * (2 * newTot + lost) == 2 * c + d;
  }

  /**
   Rescaling nearly preserves every transition probability: with old and new totals t and t', the
   new fraction half/t' and the old one old/t differ by at most n / (2 * t') for a row of n routes.
   */
  lemma RescaleBound(s: seq<nat>, i: nat)
    requires i < |s|
    ensures var tot, newTot, n := Sum(s), Sum(Halves(s)), |s|;
      -(n * tot) <= 2 * (Halves(s)[i] * tot - s[i] * newTot) <= n * tot
  {
    var tot, newTot, n, was, half := Sum(s), Sum(Halves(s)), |s|, s[i], Halves(s)[i];
    HalvesSum(s);
    AtMostSum(s, i);
    var odd, lost := was - 2 * half, tot - 2 * newTot;
    Difference(half, odd, newTot, lost);
    MulBounds(odd, tot, 0, 1);
    MulBounds(was, lost, 0, tot);
    MulBounds(lost, tot, 0, n);
    assert tot * lost == lost * tot;
    MulBounds(1, tot, 0, n);
  }

  // ---- Counter safety ----

  ghost predicate NoDup(s: seq<Pattern>) {
    forall i, j :: 0 <= i < j < |s| ==> s[i] != s[j]
  }

  /** The ids a session holds belong to registered routes of the matrix. */
  predicate SessionsOk(d: DenseState) {
    forall sid :: sid in d.sessions ==>
      d.sessions[sid] != [] && LastOf(d.sessions[sid]) < d.maxRoutes && LastOf(d.sessions[sid]) < |d.reverse|
  }

  ghost predicate TotalsOk(d: DenseState)
    requires Sized(d)
  {
    forall a :: 0 <= a < d.maxRoutes ==> d.totals[a] == Sum(Row(d.matrix, d.maxRoutes, a)) < 0x7FFF_FFFF
  }

  ghost predicate Safe(d: DenseState) {
    && d.maxRoutes <= 65535 && Sized(d) && |d.reverse| <= MAX_INDEXED_ROUTES
    && NoDup(d.reverse) && SessionsOk(d) && TotalsOk(d)
  }

  lemma {:induction false} IdOfIs(reverse: seq<Pattern>, p: Pattern)
    ensures match IdOf(reverse, p)
      case None => p !in reverse
      case Some(i) => i < |reverse| && reverse[i] == p
    decreases |reverse|
  {
    if reverse != [] && LastOf(reverse) != p {
      var front := reverse[..|reverse| - 1];
      IdOfIs(front, p);
      assert reverse == front + [LastOf(reverse)];
    }
  }

  /** The registry keeps ids, never gives two patterns one id, and refuses new ones at capacity. */
  lemma RegisterKeeps(reverse: seq<Pattern>, p: Pattern)
    requires NoDup(reverse) && |reverse| <= 4096
    ensures var (reverse', id) := Register(reverse, p);
      && NoDup(reverse') && |reverse'| <= 4096
      && reverse <= reverse'
      && (id.Some? ==> id.value < |reverse'| && reverse'[id.value] == p)
      && (id.None? <==> p !in reverse && |reverse| == 4096)
  {
    IdOfIs(reverse, p);
  }

  lemma RowReplaced(d: DenseState, d': DenseState, a: nat, row: seq<nat>)
    requires Sized(d) && TotalsOk(d) && a < d.maxRoutes && |row| == d.maxRoutes
    requires Sized(d') && d'.maxRoutes == d.maxRoutes && d'.matrix == WithRow(d.matrix, d.maxRoutes, a, row)
    requires d'.totals == d.totals[a := Sum(row)] && Sum(row) < SATURATION
    ensures TotalsOk(d') && Row(d'.matrix, d'.maxRoutes, a) == row
    ensures forall r :: 0 <= r < d.maxRoutes && r != a ==>
      Row(d'.matrix, d'.maxRoutes, r) == Row(d.matrix, d.maxRoutes, r)
  {
    hide Row, WithRow, Sum;
    forall r | 0 <= r < d.maxRoutes
      ensures Row(d'.matrix, d'.maxRoutes, r) == if r == a then row else Row(d.matrix, d.maxRoutes, r)
    {
      RowOfWithRow(d.matrix, d.maxRoutes, a, row, r);
    }
  }

  /** The new row after one more transition from a to b. */
  lemma BumpKeeps(d: DenseState, a: nat, b: nat)
    requires d.maxRoutes <= 65535 && Sized(d) && TotalsOk(d) && a < d.maxRoutes && b < d.maxRoutes
    ensures TotalsOk(Bump(d, a, b))
    ensures var row, row' := Row(d.matrix, d.maxRoutes, a), Row(Bump(d, a, b).matrix, d.maxRoutes, a);
      row' == if d.totals[a] + 1 >= 0x7FFF_FFFF then Halves(row[b := row[b] + 1]) else row[b := row[b] + 1]
    ensures forall r :: 0 <= r < d.maxRoutes && r != a ==>
      Row(Bump(d, a, b).matrix, d.maxRoutes, r) == Row(d.matrix, d.maxRoutes, r)
  {
    hide Row, WithRow, Sum, Halves;
    var row := Row(d.matrix, d.maxRoutes, a);
    AtMostSum(row, b);
    var row' := row[b := row[b] + 1];
    SumUpdate(row, b, row[b] + 1);
    if d.totals[a] + 1 >= SATURATION {
      RescaledRow(row');
      RowReplaced(d, Bump(d, a, b), a, Halves(row'));
    } else {
      RowReplaced(d, Bump(d, a, b), a, row');
    }
  }

  lemma RememberKeeps(d: DenseState, sid: Sid, id: nat, victim: Option<Sid>)
    requires Safe(d) && id < d.maxRoutes && id < |d.reverse|
    ensures Safe(Remember(d, sid, id, victim))
  {
    hide Sum, Row, Extend, NoDup;
  }

  lemma RegisteredSafe(d: DenseState, p: Pattern)
    requires Safe(d)
    ensures Safe(d.(reverse := Register(d.reverse, p).0))
  {
    RegisterKeeps(d.reverse, p);
    hide Sum, Row, Register, NoDup;
  }

  /**
   Whatever is recorded, evictions and saturation included, every row total is the sum of its row
   and stays below saturation: no 32-bit counter ever wraps.
   */
  lemma RecordKeeps(d: DenseState, sid: Sid, p: Pattern, victim: Option<Sid>)
    requires Safe(d)
    ensures Safe(RecordDense(d, sid, p, victim))
  {
    RegisterKeeps(d.reverse, p);
    RegisteredSafe(d, p);
    var (reverse, id) := Register(d.reverse, p);
    if id.Some? && id.value < d.maxRoutes {
      var d2 := Remember(d.(reverse := reverse), sid, id.value, victim);
      RememberKeeps(d.(reverse := reverse), sid, id.value, victim);
      var hist := HistoryOf(d.sessions, sid);
      if hist != [] && LastOf(hist) < d.maxRoutes {
        BumpSafe(d2, LastOf(hist), id.value);
      }
    }
    hide Register, Remember, Bump, Safe;
  }

  lemma BumpSafe(d: DenseState, a: nat, b: nat)
    requires Safe(d) && a < d.maxRoutes && b < d.maxRoutes
    ensures Safe(Bump(d, a, b))
  {
    BumpKeeps(d, a, b);
    BumpShape(d, a, b);
    hide Bump, TotalsOk, NoDup;
  }

  lemma BumpShape(d: DenseState, a: nat, b: nat)
    requires Sized(d) && a < d.maxRoutes && b < d.maxRoutes
    ensures var d' := Bump(d, a, b); d'.sessions == d.sessions && d'.reverse == d.reverse && d'.maxRoutes == d.maxRoutes
    ensures var d' := Bump(d, a, b); forall r :: 0 <= r < d.maxRoutes && r != a ==> d'.totals[r] == d.totals[r]
  {
    hide Sum, Row, WithRow;
  }

  lemma NewSafe(maxRoutes: nat)
    requires maxRoutes <= 65535
    ensures Safe(NewDense(maxRoutes))
  {
    var d := NewDense(maxRoutes);
    forall a | 0 <= a < maxRoutes
      ensures Sum(Row(d.matrix, maxRoutes, a)) == 0
    {
      InMatrix(maxRoutes, a, 0);
      AllZero(Row(d.matrix, maxRoutes, a));
    }
  }
}
