/** The predictors as they keep their state: registry, flat arrays and maps updated in place. */
module PredictorClasses {
  import opened Bytes
  import opened Predictors
  import opened DenseCounters
  import opened PredictorRefinement
  import opened PredictionLists
  import opened Sorting

  const INVALID_ROUTE_ID: nat := 0xFFFF

  // ---- Facts about the flat row the loops need ----

  /** Writing one cell of the flat matrix is writing one cell of its row. */
  lemma CellWrite(matrix: seq<nat>, n: nat, a: nat, b: nat, v: nat)
    requires |matrix| == n * n && a < n && b < n
    ensures a * n + b < |matrix|
    ensures matrix[a * n + b := v] == WithRow(matrix, n, a, Row(matrix, n, a)[b := v])
    ensures Row(matrix, n, a)[b] == matrix[a * n + b]
  {
    InMatrix(n, a, b);
  }

  lemma WithRowTwice(matrix: seq<nat>, n: nat, a: nat, row: seq<nat>, row': seq<nat>)
    requires |matrix| == n * n && a < n && |row| == n && |row'| == n
    ensures WithRow(WithRow(matrix, n, a, row), n, a, row') == WithRow(matrix, n, a, row')
  {
    InMatrix(n, a, 0);
  }

  lemma WithOwnRow(matrix: seq<nat>, n: nat, a: nat)
    requires |matrix| == n * n && a < n
    ensures WithRow(matrix, n, a, Row(matrix, n, a)) == matrix
  {
    InMatrix(n, a, 0);
  }

  // ---- The endpoint registry ----

  class EndpointRegistry {
    var patterns: map<Pattern, nat>
    var reverse: seq<Pattern>
    var count: nat

    ghost predicate Valid()
      reads this
    {
      && count == |reverse| <= MAX_INDEXED_ROUTES
      && forall p :: if p in patterns then IdOf(reverse, p) == Some(patterns[p]) else IdOf(reverse, p) == None
    }

    constructor ()
      ensures Valid() && reverse == []
    {
      patterns, reverse, count := map[], [], 0;
    }

    method GetOrRegister(p: Pattern) returns (id: nat)
      requires Valid()
      modifies this
      ensures Valid()
      ensures var (r, found) := Register(old(reverse), p);
        reverse == r && id == if found.Some? then found.value else 65535
    {
      if p in patterns {
        return patterns[p];
      }
      if count >= MAX_INDEXED_ROUTES {
        return INVALID_ROUTE_ID;
      }
      id := count;
      count := count + 1;
      ghost var before := reverse;
      patterns := patterns[p := id];
      reverse := reverse + [p];
      assert reverse[..|before|] == before;
    }
  }

  // ---- The dense matrix predictor ----

  class DenseMatrixPredictor {
    const registry: EndpointRegistry
    const maxRoutes: nat
    const matrix: array<nat>
    const totals: array<nat>
    var sessions: map<Sid, seq<nat>>
    const shardOf: Sid -> nat

    ghost predicate Valid()
      reads this, registry, matrix, totals
    {
      registry.Valid() && matrix != totals && Safe(View())
    }

    function View(): DenseState
      reads this, registry, matrix, totals
    {
      DenseState(registry.reverse, maxRoutes, matrix[..], totals[..], sessions)
    }

    constructor (maxRoutes: nat, shardOf: Sid -> nat)
      requires maxRoutes <= 65535
      ensures Valid() && View() == NewDense(maxRoutes)
    {
      registry := new EndpointRegistry();
      this.maxRoutes := maxRoutes;
      this.shardOf := shardOf;
      var cells := new nat[maxRoutes * maxRoutes](_ => 0);
      var sums := new nat[maxRoutes](_ => 0);
      matrix, totals := cells, sums;
      sessions := map[];
      new;
      NewSafe(maxRoutes);
      assert View() == NewDense(maxRoutes);
    }

    /** The sessions in the shard of sid. */
    function Crowd(sid: Sid): set<Sid>
      reads this
    {
      set s | s in sessions && shardOf(s) == shardOf(sid)
    }

    method Record(sid: Sid, p: Pattern) returns (ghost victim: Option<Sid>)
      requires Valid()
      modifies this`sessions, registry, matrix, totals
      ensures Valid() && View() == RecordDense(old(View()), sid, p, victim)
      ensures var id := Register(old(registry.reverse), p).1;
        if id.Some? && id.value < maxRoutes
        then Evicts(old(sessions), old(Crowd(sid)), 500, sid, victim)
        else victim == None
    {
      hide Safe, Register, Extend, Bump;
      ghost var d := View();
      victim := None;
      SafeRegistry(d, p);
      var toID := registry.GetOrRegister(p);
      ghost var d1 := d.(reverse := registry.reverse);
      RegisteredSafe(d, p);
      if toID == INVALID_ROUTE_ID || toID >= maxRoutes {
        return;
      }
      var hist := if sid in sessions then sessions[sid] else [];
      var hasPrior := |hist| > 0;
      var fromID := if hasPrior then hist[|hist| - 1] else 0;
      var crowd := set s | s in sessions && shardOf(s) == shardOf(sid);
      if |hist| == 0 && |crowd| >= SHARD_SESSIONS {
        var k := AnyOf(crowd);
        victim := Some(k);
        sessions := sessions - {k};
      }
      sessions := sessions[sid := Extend<nat>(hist, toID)];
      assert sessions == Remember(d1, sid, toID, victim).sessions;
      RememberKeeps(d1, sid, toID, victim);
      assert View() == Remember(d1, sid, toID, victim);
      if hasPrior && fromID < maxRoutes {
        SizedNow(View());
        BumpCounters(fromID, toID);
      }
    }

    /** The lock-free part of Record: two atomic adds, and rescaling on saturation. */
    method BumpCounters(fromID: nat, toID: nat)
      requires Valid() && fromID < maxRoutes && toID < maxRoutes && Sized(View())
      modifies matrix, totals
      ensures Valid() && View() == Bump(old(View()), fromID, toID)
    {
      hide Sum, Row, WithRow, NoDup, SessionsOk, TotalsOk, Halves;
      ghost var d := View();
      BumpSafe(d, fromID, toID);
      CellWrite(matrix[..], maxRoutes, fromID, toID, (Row(d.matrix, maxRoutes, fromID)[toID] + 1) % U32);
      IndexFits(maxRoutes, fromID, toID);
      var idx := (fromID * maxRoutes + toID) % U32;
      matrix[idx] := (matrix[idx] + 1) % U32;
      ghost var row := Row(d.matrix, maxRoutes, fromID);
      ghost var row' := row[toID := (row[toID] + 1) % U32];
      assert matrix[..] == d.matrix[idx := (row[toID] + 1) % U32];
      var tot := (totals[fromID] + 1) % U32;
      totals[fromID] := tot;
      if tot >= SATURATION {
        BumpedRow(d, fromID, toID);
        RowOfWithRow(d.matrix, maxRoutes, fromID, row', fromID);
        WithRowTwice(d.matrix, maxRoutes, fromID, row', Halves(row'));
        RescaleRow(fromID);
        assert totals[..] == d.totals[fromID := Sum(Halves(row')) % U32];
      }
      assert View() == Bump(d, fromID, toID);
    }

    /** Halve every counter of the row and store their new sum as its total. */
    method RescaleRow(fromID: nat)
      requires fromID < maxRoutes <= 65535 && matrix != totals
      requires matrix.Length == maxRoutes * maxRoutes && totals.Length == maxRoutes
      requires Sum(Row(matrix[..], maxRoutes, fromID)) < U32
      modifies matrix, totals
      ensures matrix[..] == WithRow(old(matrix[..]), maxRoutes, fromID, Halves(old(Row(matrix[..], maxRoutes, fromID))))
      ensures totals[..] == old(totals[..])[fromID := Sum(Halves(old(Row(matrix[..], maxRoutes, fromID)))) % U32]
    {
      hide Sum, WithRow, Row, Halves, HalfDone;
      ghost var start, row := matrix[..], Row(matrix[..], maxRoutes, fromID);
      IndexFits(maxRoutes, fromID, 0);
      var rowStart := fromID * maxRoutes % U32;
      var newTotal := 0;
      RescaleStart(start, maxRoutes, fromID);
      for to := 0 to maxRoutes
        invariant newTotal == Sum(Halves(row)[..to])
        invariant matrix[..] == WithRow(start, maxRoutes, fromID, HalfDone(row, to))
        invariant totals[..] == old(totals[..])
      {
        RescaleCell(start, matrix[..], maxRoutes, fromID, to, row);
        HalfSum(row, to);
        IndexFits(maxRoutes, fromID, to);
        var idx := (rowStart + to) % U32;
        var halfCount := matrix[idx] / 2;
        matrix[idx] := halfCount;
        newTotal := (newTotal + halfCount) % U32;
      }
      RescaleEnd(row);
      totals[fromID] := newTotal % U32;
    }

    /** None stands for the panic of a result sized by a negative limit. */
    method Predict(sid: Sid, topK: int) returns (r: Option<seq<Prediction>>)
      requires Valid()
      ensures Sized(View()) && DensePredicts(View(), sid, topK, r)
    {
      hide Safe, Row, Candidates;
      SizedNow(View());
      var hist := if sid in sessions then sessions[sid] else [];
      if |hist| == 0 {
        return Some([]);
      }
      var fromID := hist[|hist| - 1];
      if fromID >= maxRoutes {
        return Some([]);
      }
      var total := totals[fromID];
      if total == 0 {
        return Some([]);
      }
      var registeredCount := registry.count;
      if registeredCount > maxRoutes {
        registeredCount := maxRoutes;
      }
      InMatrix(maxRoutes, fromID, 0);
      var rowStart := fromID * maxRoutes;
      var candidates: seq<Prediction> := [];
      ghost var row := Row(matrix[..], maxRoutes, fromID);
      NoCandidates(row, registry.reverse, total);
      for toID := 0 to registeredCount
        invariant candidates == Candidates(row, registry.reverse, total, toID)
      {
        InMatrix(maxRoutes, fromID, toID);
        CellWrite(matrix[..], maxRoutes, fromID, toID, 0);
        var count := matrix[rowStart + toID];
        NextCandidate(row, registry.reverse, total, toID);
        if count > 0 {
          candidates := candidates + [Prediction(registry.reverse[toID], count, total)];
        }
      }
      ByCountRanks();
      SortSorts(candidates, ByCount);
      assert candidates == Scan(View(), fromID);
      if |candidates| == 0 {
        return Some([]);
      }
      var sorted := Sort(candidates, ByCount);
      var k := if topK > |candidates| then |candidates| else topK;
      if k < 0 {
        return None;
      }
      assert |sorted| == |multiset(sorted)| == |candidates|;
      r := Some(sorted[..k]);
    }

    method ResetSession(sid: Sid)
      requires Valid()
      modifies this`sessions
      ensures Valid() && View() == ResetDense(old(View()), sid)
    {
      ResetSafe(View(), sid);
      sessions := sessions - {sid};
    }
  }

  method AnyOf(s: set<Sid>) returns (k: Sid)
    requires s != {}
    ensures k in s
  {
    k :| k in s;
  }

  lemma SafeRegistry(d: DenseState, p: Pattern)
    requires Safe(d)
    ensures Sized(d) && d.maxRoutes <= 65535
    ensures Register(d.reverse, p).1.Some? ==>
      Register(d.reverse, p).1.value < |Register(d.reverse, p).0| && Register(d.reverse, p).1.value < INVALID_ROUTE_ID
  {
    RegisterKeeps(d.reverse, p);
  }

  lemma SizedNow(d: DenseState)
    requires Safe(d)
    ensures Sized(d) && d.maxRoutes <= 65535
  {
  }

  /** With at most 65535 routes a flat index fits 32 bits, so uint32 arithmetic on it is exact. */
  lemma IndexFits(n: nat, a: nat, b: nat)
    requires n <= 65535 && a < n && b < n
    ensures 0 <= a * n <= a * n + b < U32
    ensures (a * n + b) % U32 == a * n + b && a * n % U32 == a * n
  {
    InMatrix(n, a, b);
    MulLe(n, 65535, n);
    MulLe(n, 65535, 65535);
  }

  /** The row a transition leaves before any rescaling has the total the counter shows. */
  lemma BumpedRow(d: DenseState, a: nat, b: nat)
    requires Safe(d) && a < d.maxRoutes && b < d.maxRoutes
    ensures var row := Row(d.matrix, d.maxRoutes, a);
      Sum(row[b := (row[b] + 1) % U32]) == d.totals[a] + 1 < U32
  {
    var row := Row(d.matrix, d.maxRoutes, a);
    AtMostSum(row, b);
    SumUpdate(row, b, row[b] + 1);
    hide Sum, Row;
  }

  /** A row whose first to counters have been halved. */
  function HalfDone(row: seq<nat>, to: nat): (r: seq<nat>)
    requires to <= |row|
    ensures |r| == |row|
  {
    Halves(row)[..to] + row[to..]
  }

  lemma RescaleStart(matrix: seq<nat>, n: nat, a: nat)
    requires |matrix| == n * n && a < n
    ensures WithRow(matrix, n, a, HalfDone(Row(matrix, n, a), 0)) == matrix
    ensures Sum(Halves(Row(matrix, n, a))[..0]) == 0
  {
    WithOwnRow(matrix, n, a);
    var row := Row(matrix, n, a);
    assert HalfDone(row, 0) == row;
    assert Halves(row)[..0] == [];
  }

  lemma RescaleCell(start: seq<nat>, now: seq<nat>, n: nat, a: nat, to: nat, row: seq<nat>)
    requires |start| == n * n && a < n && to < n && |row| == n
    requires now == WithRow(start, n, a, HalfDone(row, to))
    ensures a * n + to < |now| && now[a * n + to] == row[to]
    ensures now[a * n + to := row[to] / 2] == WithRow(start, n, a, HalfDone(row, to + 1))
  {
    InMatrix(n, a, to);
    assert HalfDone(row, to)[to] == row[to];
    assert HalfDone(row, to)[to := row[to] / 2] == HalfDone(row, to + 1);
  }

  lemma HalfSum(row: seq<nat>, to: nat)
    requires to < |row|
    ensures Sum(Halves(row)[..to + 1]) == Sum(Halves(row)[..to]) + row[to] / 2 <= Sum(row)
  {
    var half := Halves(row);
    assert half[..to + 1] == half[..to] + [half[to]] && half[to] == row[to] / 2;
    hide Sum, Halves;
    HalvesSum(row);
    SumAppend(half[..to], half[to]);
    SumPrefix(half, to + 1);
  }

  lemma RescaleEnd(row: seq<nat>)
    ensures HalfDone(row, |row|) == Halves(row) && Halves(row)[..|row|] == Halves(row)
  {
  }

  lemma NoCandidates(row: seq<nat>, reverse: seq<Pattern>, total: nat)
    ensures Candidates(row, reverse, total, 0) == []
  {
  }

  lemma NextCandidate(row: seq<nat>, reverse: seq<Pattern>, total: nat, i: nat)
    requires i < |row| && i < |reverse|
    ensures Candidates(row, reverse, total, i + 1) == Candidates(row, reverse, total, i)
      + if row[i] > 0 then [Prediction(reverse[i], row[i], total)] else []
  {
  }

  lemma ByCountRanks()
    ensures Ranking(ByCount)
  {
  }

  // ---- The adaptive map predictor ----

  class AdaptiveMarkovPredictor {
    var sessions: map<Sid, seq<Pattern>>
    var transitions: map<Pattern, map<Pattern, nat>>
    var totals: map<Pattern, nat>

    function View(): MapState
      reads this
    {
      MapState(sessions, transitions, totals)
    }

    constructor ()
      ensures View() == NEW_MAP
    {
      sessions, transitions, totals := map[], map[], map[];
    }

    method Record(sid: Sid, p: Pattern) returns (ghost victim: Option<Sid>)
      modifies this
      ensures View() == RecordMap(old(View()), sid, p, victim)
      ensures Evicts(old(sessions), old(sessions.Keys), 5000, sid, victim)
    {
      var hist := if sid in sessions then sessions[sid] else [];
      if |hist| > 0 {
        var fromState := hist[|hist| - 1];
        var row := if fromState in transitions then transitions[fromState] else map[];
        transitions := transitions[fromState := row[p := (if p in row then row[p] else 0) + 1]];
        totals := totals[fromState := (if fromState in totals then totals[fromState] else 0) + 1];
      }
      victim := None;
      if |hist| == 0 && |sessions| >= MAX_SESSIONS {
        assert |sessions| == |sessions.Keys|;
        var k := AnyOf(sessions.Keys);
        victim := Some(k);
        sessions := sessions - {k};
      }
      sessions := sessions[sid := Extend(hist, p)];
    }

    method Predict(sid: Sid, topK: int) returns (r: seq<Prediction>)
      ensures MapPredicts(View(), sid, topK, r)
    {
      var hist := if sid in sessions then sessions[sid] else [];
      if |hist| == 0 {
        return [];
      }
      var fromState := hist[|hist| - 1];
      if fromState !in transitions || |transitions[fromState]| == 0 {
        NothingListed(View(), fromState);
        return [];
      }
      var nextCounts := transitions[fromState];
      var total := if fromState in totals then totals[fromState] else 0;
      if total == 0 {
        return [];
      }
      var preds := ListRow(nextCounts, total);
      ByCountRanks();
      SortSorts(preds, ByCount);
      var sorted := Sort(preds, ByCount);
      hide ListsRow, Sorted;
      assert ListsRow(preds, nextCounts, total) && SortedPermutation(sorted, preds, ByCount);
      if topK > 0 && |sorted| > topK {
        r := sorted[..topK];
      } else {
        r := sorted;
      }
    }

    method ResetSession(sid: Sid)
      modifies this`sessions
      ensures View() == ResetMap(old(View()), sid)
    {
      sessions := sessions - {sid};
    }
  }

  /** An empty row lists nothing. */
  lemma NothingListed(m: MapState, from: Pattern)
    requires from in m.transitions ==> |m.transitions[from]| == 0
    ensures from in m.transitions ==>
      ListsRow([], m.transitions[from], TotalIn(m.totals, from)) && SortedPermutation<Prediction>([], [], ByCount)
  {
  }

  /** The loop over one row of the map, in whatever order it is enumerated. */
  method ListRow(row: map<Pattern, nat>, total: nat) returns (preds: seq<Prediction>)
    ensures ListsRow(preds, row, total)
  {
    preds := [];
    var rest := row.Keys;
    while rest != {}
      invariant rest <= row.Keys
      invariant forall x :: x in preds <==>
        x.pattern in row && x.pattern !in rest && x.count == row[x.pattern] && x.total == total
      invariant Distinct(preds)
    {
      var p :| p in rest;
      preds := preds + [Prediction(p, row[p], total)];
      rest := rest - {p};
    }
  }
}
