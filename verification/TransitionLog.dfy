/**
 What the predictors count and foretell, read off the log of requests alone: how often one route
 followed another within a session, and which routes followed most often.
 */
module TransitionLog {
  import opened Bytes
  import opened Predictors
  import opened DenseCounters
  import opened PredictorRefinement
  import opened PredictionLists
  import opened Sorting

  // ---- What the log says ----

  /** The routes a session requested since it began, was reset or was dropped. */
  function Visited(ops: seq<Op>, sid: Sid): seq<Pattern> {
    if ops == [] then []
    else
      var op, before := ops[|ops| - 1], Visited(ops[..|ops| - 1], sid);
      if op.sid == sid then (if op.Record? then before + [op.p] else [])
      else if op.Record? && op.dropMap == Some(sid) then []
      else before
  }

  /** Request i moved its session on from route a. */
  predicate Leaves(ops: seq<Op>, i: int, a: Pattern) {
    && 0 <= i < |ops| && ops[i].Record?
    && var visited := Visited(ops[..i], ops[i].sid);
       visited != [] && LastOf(visited) == a
  }

  predicate Follows(ops: seq<Op>, i: int, a: Pattern, b: Pattern) {
    Leaves(ops, i, a) && ops[i].p == b
  }

  /** How often b came right after a, and how often anything did. */
  function Times(ops: seq<Op>, a: Pattern, b: Pattern): nat {
    |set i | 0 <= i < |ops| && Follows(ops, i, a, b)|
  }

  function Departures(ops: seq<Op>, a: Pattern): nat {
    |set i | 0 <= i < |ops| && Leaves(ops, i, a)|
  }

  // ---- The sessions of the map predictor ----

  function LastTen(s: seq<Pattern>): seq<Pattern> {
    if |s| <= 10 then s else s[|s| - 10..]
  }

  lemma ExtendLastTen(s: seq<Pattern>, p: Pattern)
    ensures Extend(LastTen(s), p) == LastTen(s + [p])
  {
  }

  /** A session's history is the last ten routes it visited. */
  lemma {:induction false} HistoryIs(ops: seq<Op>, sid: Sid)
    ensures HistoryOf(RunMap(ops).sessions, sid) == LastTen(Visited(ops, sid))
  {
    if ops != [] {
      var front, op := ops[..|ops| - 1], ops[|ops| - 1];
      HistoryIs(front, sid);
      hide Transition, Extend, LastTen, RunMap;
      assert RunMap(ops) == StepMap(RunMap(front), op) by { RunMapUnfolds(ops); }
      if op.Record? {
        ExtendLastTen(Visited(front, sid), op.p);
      }
      NothingLast();
    }
  }

  lemma NothingLast()
    ensures LastTen([]) == []
  {
  }

  lemma RunMapUnfolds(ops: seq<Op>)
    requires ops != []
    ensures RunMap(ops) == StepMap(RunMap(ops[..|ops| - 1]), ops[|ops| - 1])
  {
  }

  lemma LastStays(s: seq<Pattern>)
    ensures LastTen(s) == [] <==> s == []
    ensures s != [] ==> LastOf(LastTen(s)) == LastOf(s)
  {
  }

  // ---- The counts of the map predictor ----

  lemma PrefixSame(ops: seq<Op>, i: nat, a: Pattern)
    requires ops != [] && i < |ops| - 1
    ensures Leaves(ops, i, a) <==> Leaves(ops[..|ops| - 1], i, a)
  {
    assert ops[..|ops| - 1][..i] == ops[..i];
    hide Visited;
  }

  lemma PrefixFollows(ops: seq<Op>, i: nat, a: Pattern, b: Pattern)
    requires ops != [] && i < |ops| - 1
    ensures Follows(ops, i, a, b) <==> Follows(ops[..|ops| - 1], i, a, b)
  {
    PrefixSame(ops, i, a);
    hide Visited;
  }

  lemma LeftSoFar(ops: seq<Op>, a: Pattern)
    requires ops != []
    ensures Departures(ops, a) == Departures(ops[..|ops| - 1], a) + if Leaves(ops, |ops| - 1, a) then 1 else 0
  {
    hide Leaves;
    var n, front := |ops| - 1, ops[..|ops| - 1];
    var now, was := set i | 0 <= i < |ops| && Leaves(ops, i, a), set i | 0 <= i < n && Leaves(front, i, a);
    forall i: nat | i < n
      ensures Leaves(ops, i, a) <==> Leaves(front, i, a)
    {
      PrefixSame(ops, i, a);
    }
    assert now == was + if Leaves(ops, n, a) then {n} else {};
  }

  lemma FollowedSoFar(ops: seq<Op>, a: Pattern, b: Pattern)
    requires ops != []
    ensures Times(ops, a, b) == Times(ops[..|ops| - 1], a, b) + if Follows(ops, |ops| - 1, a, b) then 1 else 0
  {
    hide Follows;
    var n, front := |ops| - 1, ops[..|ops| - 1];
    var now, was := set i | 0 <= i < |ops| && Follows(ops, i, a, b), set i | 0 <= i < n && Follows(front, i, a, b);
    forall i: nat | i < n
      ensures Follows(ops, i, a, b) <==> Follows(front, i, a, b)
    {
      PrefixFollows(ops, i, a, b);
    }
    assert now == was + if Follows(ops, n, a, b) then {n} else {};
  }

  /** One more request counts one more transition, from the last route of its session. */
  lemma StepCounts(m: MapState, op: Op, a: Pattern, b: Pattern)
    ensures var left := op.Record? && HistoryOf(m.sessions, op.sid) != [] && LastOf(HistoryOf(m.sessions, op.sid)) == a;
      && TotalIn(StepMap(m, op).totals, a) == TotalIn(m.totals, a) + (if left then 1 else 0)
      && CountIn(StepMap(m, op).transitions, a, b)
         == CountIn(m.transitions, a, b) + if left && op.p == b then 1 else 0
  {
    hide Extend;
  }

  /**
   Whatever requests, resets and drops come, the counts of the map predictor are the numbers of times
   that one route followed another, and that any route followed it, within a session.
   */
  lemma {:induction false} CountsAre(ops: seq<Op>, a: Pattern, b: Pattern)
    ensures CountIn(RunMap(ops).transitions, a, b) == Times(ops, a, b)
    ensures TotalIn(RunMap(ops).totals, a) == Departures(ops, a)
  {
    if ops == [] {
      assert (set i | 0 <= i < |ops| && Leaves(ops, i, a)) == {};
      assert (set i | 0 <= i < |ops| && Follows(ops, i, a, b)) == {};
    } else {
      var front, op := ops[..|ops| - 1], ops[|ops| - 1];
      CountsAre(front, a, b);
      LeftSoFar(ops, a);
      FollowedSoFar(ops, a, b);
      RunMapUnfolds(ops);
      StepCounts(RunMap(front), op, a, b);
      HistoryIs(front, op.sid);
      LastStays(Visited(front, op.sid));
      hide RunMap, StepMap, Times, Departures, CountIn, TotalIn, LastTen, Visited, HistoryOf;
    }
  }

  /** The dense predictor counts the same wherever the two agree. */
  lemma DenseCountsAre(ops: seq<Op>, maxRoutes: nat, i: nat, j: nat)
    requires Agrees(RunDense(ops, maxRoutes), RunMap(ops))
    requires i < |RunDense(ops, maxRoutes).reverse| && j < |RunDense(ops, maxRoutes).reverse|
    ensures var d := RunDense(ops, maxRoutes);
      && |d.matrix| == d.maxRoutes * d.maxRoutes && 0 <= i * d.maxRoutes + j < |d.matrix| && i < |d.totals|
      && d.matrix[i * d.maxRoutes + j] == Times(ops, d.reverse[i], d.reverse[j])
      && d.totals[i] == Departures(ops, d.reverse[i])
  {
    var d, m := RunDense(ops, maxRoutes), RunMap(ops);
    CountsAre(ops, d.reverse[i], d.reverse[j]);
    hide RunDense, RunMap, Times, Departures;
    RowCounts(d, m, i, j);
    TotalsMatch(d, m, i);
    InMatrix(d.maxRoutes, i, j);
  }

  // ---- The lists of predictions ----

  /**
   The list foretells what followed from: each route listed with its count and the total, most frequent
   first, and a route that is left out follows no more often than any listed one, and only if the list
   is full.
   */
  ghost predicate Foretells(ops: seq<Op>, from: Pattern, r: seq<Prediction>, limit: Option<nat>) {
    && (forall x :: x in r ==> x.count == Times(ops, from, x.pattern) > 0 && x.total == Departures(ops, from))
    && (forall i, j :: 0 <= i < j < |r| ==> r[i].pattern != r[j].pattern && r[i].count >= r[j].count)
    && (limit.Some? ==> |r| <= limit.value)
    && forall q :: Times(ops, from, q) > 0 && (forall x :: x in r ==> x.pattern != q) ==>
         limit == Some(|r|) && forall x :: x in r ==> x.count >= Times(ops, from, q)
  }

  /** Every route that followed, each once. */
  ghost predicate ListsAll(ops: seq<Op>, from: Pattern, s: seq<Prediction>) {
    && Distinct(s)
    && forall x :: x in s <==> x.count == Times(ops, from, x.pattern) > 0 && x.total == Departures(ops, from)
  }

  lemma TwiceIn(s: seq<Prediction>, i: nat, j: nat)
    requires i < j < |s| && s[i] == s[j]
    ensures multiset(s)[s[i]] >= 2
  {
    assert s == s[..i] + [s[i]] + s[i + 1..j] + [s[j]] + s[j + 1..];
  }

  lemma SortedListsAll(ops: seq<Op>, from: Pattern, entries: seq<Prediction>, s: seq<Prediction>)
    requires ListsAll(ops, from, entries) && SortedPermutation(s, entries, ByCount)
    ensures forall x :: x in s <==> x in entries
    ensures forall i, j :: 0 <= i < j < |s| ==> s[i].pattern != s[j].pattern && s[i].count >= s[j].count
  {
    forall x
      ensures x in s <==> x in entries
    {
      assert x in s <==> x in multiset(s);
      assert x in entries <==> x in multiset(entries);
    }
    forall i, j | 0 <= i < j < |s|
      ensures s[i].pattern != s[j].pattern && s[i].count >= s[j].count
    {
      assert ByCount(s[i], s[j]);
      assert s[i] in entries && s[j] in entries;
      if s[i].pattern == s[j].pattern {
        TwiceIn(s, i, j);
        OnceEach(entries, s[i]);
        assert false;
      }
    }
  }

  /** What is left out of the front of the sorted list comes after all of it. */
  lemma LeftOut(s: seq<Prediction>, r: seq<Prediction>, y: Prediction)
    requires y in s && r <= s && (forall x :: x in r ==> x.pattern != y.pattern)
    requires forall i, j :: 0 <= i < j < |s| ==> s[i].count >= s[j].count
    ensures r != s && forall x :: x in r ==> x.count >= y.count
  {
    assert forall k :: 0 <= k < |r| ==> r[k] in r;
    var k :| 0 <= k < |s| && s[k] == y;
    assert k >= |r|;
  }

  /** The front of the sorted list foretells. */
  lemma CutForetells(ops: seq<Op>, from: Pattern, entries: seq<Prediction>, s: seq<Prediction>, limit: Option<nat>,
                     r: seq<Prediction>)
    requires ListsAll(ops, from, entries) && SortedPermutation(s, entries, ByCount)
    requires r == if limit.Some? && |s| > limit.value then s[..limit.value] else s
    ensures Foretells(ops, from, r, limit)
  {
    SortedListsAll(ops, from, entries, s);
    hide Times, Departures, Distinct, SortedPermutation;
    assert r <= s;
    forall q | Times(ops, from, q) > 0 && (forall x :: x in r ==> x.pattern != q)
      ensures limit == Some(|r|) && forall x :: x in r ==> x.count >= Times(ops, from, q)
    {
      LeftOut(s, r, Prediction(q, Times(ops, from, q), Departures(ops, from)));
    }
    FrontListed(ops, from, s, r);
  }

  lemma FrontListed(ops: seq<Op>, from: Pattern, s: seq<Prediction>, r: seq<Prediction>)
    requires r <= s
    requires forall x :: x in s ==> x.count == Times(ops, from, x.pattern) > 0 && x.total == Departures(ops, from)
    ensures forall x :: x in r ==> x.count == Times(ops, from, x.pattern) > 0 && x.total == Departures(ops, from)
  {
    hide Times, Departures;
    forall x | x in r
      ensures x in s
    {
      var k :| 0 <= k < |r| && r[k] == x;
      assert s[k] == x;
    }
  }

  lemma NoneForetold(ops: seq<Op>, from: Pattern, limit: Option<nat>)
    requires forall q :: Times(ops, from, q) == 0
    ensures Foretells(ops, from, [], limit)
  {
  }

  lemma TimesAtMost(ops: seq<Op>, a: Pattern, b: Pattern)
    ensures Times(ops, a, b) <= Departures(ops, a)
  {
    Subset(set i | 0 <= i < |ops| && Follows(ops, i, a, b), set i | 0 <= i < |ops| && Leaves(ops, i, a));
  }

  /** Every count the map predictor holds is positive. */
  lemma {:induction false} Positive(ops: seq<Op>, a: Pattern, b: Pattern)
    requires a in RunMap(ops).transitions && b in RunMap(ops).transitions[a]
    ensures RunMap(ops).transitions[a][b] > 0
  {
    if ops != [] {
      var front, op := ops[..|ops| - 1], ops[|ops| - 1];
      var m := RunMap(front);
      RunMapUnfolds(ops);
      if a in m.transitions && b in m.transitions[a] {
        Positive(front, a, b);
      }
      hide Extend, RunMap;
    }
  }

  lemma RowListsAll(ops: seq<Op>, from: Pattern, entries: seq<Prediction>)
    requires from in RunMap(ops).transitions
    requires ListsRow(entries, RunMap(ops).transitions[from], TotalIn(RunMap(ops).totals, from))
    ensures ListsAll(ops, from, entries)
  {
    var row := RunMap(ops).transitions[from];
    CountsAre(ops, from, from);
    forall x: Prediction
      ensures x.pattern in row ==> row[x.pattern] > 0
      ensures Times(ops, from, x.pattern) == if x.pattern in row then row[x.pattern] else 0
    {
      CountsAre(ops, from, x.pattern);
      if x.pattern in row { Positive(ops, from, x.pattern); }
    }
    hide Times, Departures, RunMap, Distinct;
  }

  /**
   The map predictor foretells the routes that most often followed the last route of the session, on
   every log; a limit below one leaves nothing out.
   */
  lemma MapForetells(ops: seq<Op>, sid: Sid, topK: int, r: seq<Prediction>)
    requires MapPredicts(RunMap(ops), sid, topK, r)
    ensures Visited(ops, sid) == [] ==> r == []
    ensures Visited(ops, sid) != [] ==>
      Foretells(ops, LastOf(Visited(ops, sid)), r, if topK > 0 then Some(topK) else None)
  {
    var m, visited := RunMap(ops), Visited(ops, sid);
    HistoryIs(ops, sid);
    LastStays(visited);
    hide RunMap, Visited, LastTen, HistoryOf, Foretells, ListsRow, SortedPermutation;
    if visited != [] {
      var from, limit := LastOf(visited), if topK > 0 then Some(topK) else None;
      if from !in m.transitions || TotalIn(m.totals, from) == 0 {
        forall q
          ensures Times(ops, from, q) == 0
        {
          CountsAre(ops, from, q);
          TimesAtMost(ops, from, q);
        }
        NoneForetold(ops, from, limit);
      } else {
        var entries, s :|
          && ListsRow(entries, m.transitions[from], TotalIn(m.totals, from))
          && SortedPermutation(s, entries, ByCount)
          && r == if topK > 0 && |s| > topK then s[..topK] else s;
        RowListsAll(ops, from, entries);
        CutForetells(ops, from, entries, s, limit, r);
      }
    }
  }

  /** The scan of the dense row lists the same routes where the predictors agree. */
  lemma ScanListsAll(ops: seq<Op>, d: DenseState, a: nat)
    requires Agrees(d, RunMap(ops)) && a < |d.reverse|
    ensures a < d.maxRoutes && Sized(d) && ListsAll(ops, d.reverse[a], Scan(d, a))
  {
    var m, from := RunMap(ops), d.reverse[a];
    assert Sized(d);
    TotalsMatch(d, m, a);
    CountsAre(ops, from, from);
    assert d.totals[a] == Departures(ops, from);
    CandidatesAre(Row(d.matrix, d.maxRoutes, a), d.reverse, d.totals[a], |d.reverse|);
    forall x
      ensures x in Scan(d, a) <==> x.count == Times(ops, from, x.pattern) > 0 && x.total == Departures(ops, from)
    {
      ScanHas(ops, d, a, x);
    }
  }

  lemma ScanHas(ops: seq<Op>, d: DenseState, a: nat, x: Prediction)
    requires Agrees(d, RunMap(ops)) && a < |d.reverse| && a < d.maxRoutes && Sized(d)
    requires d.totals[a] == Departures(ops, d.reverse[a])
    ensures x in Scan(d, a) <==>
      x.count == Times(ops, d.reverse[a], x.pattern) > 0 && x.total == Departures(ops, d.reverse[a])
  {
    var m, from, row := RunMap(ops), d.reverse[a], Row(d.matrix, d.maxRoutes, a);
    CandidatesAre(row, d.reverse, d.totals[a], |d.reverse|);
    CountsAre(ops, from, x.pattern);
    KnownFollower(d, m, from, x.pattern);
    hide Agrees, Times, Departures, RunMap, Candidates, Row, CountIn;
    if x in Scan(d, a) {
      var b :| 0 <= b < |d.reverse| && row[b] > 0 && x == Prediction(d.reverse[b], row[b], d.totals[a]);
      RowCounts(d, m, a, b);
    }
    if x.count == Times(ops, from, x.pattern) > 0 && x.total == Departures(ops, from) {
      var b :| 0 <= b < |d.reverse| && d.reverse[b] == x.pattern;
      RowCounts(d, m, a, b);
      assert x == Prediction(d.reverse[b], row[b], d.totals[a]);
    }
  }

  lemma KnownFollower(d: DenseState, m: MapState, a: Pattern, b: Pattern)
    requires Agrees(d, m)
    ensures |d.reverse| <= d.maxRoutes && Sized(d) && NoDup(d.reverse)
    ensures CountIn(m.transitions, a, b) > 0 ==> b in d.reverse
  {
    hide SameCells, SameTotals, SameSessions;
  }

  /** So does the dense predictor wherever the two agree; it cuts its list at every limit. */
  lemma DenseForetells(ops: seq<Op>, maxRoutes: nat, sid: Sid, topK: int, r: seq<Prediction>)
    requires Agrees(RunDense(ops, maxRoutes), RunMap(ops))
    requires DensePredicts(RunDense(ops, maxRoutes), sid, topK, Some(r))
    ensures Visited(ops, sid) == [] ==> r == []
    ensures Visited(ops, sid) != [] ==>
      Foretells(ops, LastOf(Visited(ops, sid)), r, Some(if topK < 0 then 0 else topK))
  {
    var d, m, visited := RunDense(ops, maxRoutes), RunMap(ops), Visited(ops, sid);
    HistoryIs(ops, sid);
    LastStays(visited);
    SameHistory(d, m, sid);
    hide RunMap, RunDense, Visited, LastTen, Foretells, Scan, Agrees, SortedPermutation, Times, Departures;
    if visited != [] {
      var a := LastOf(HistoryOf(d.sessions, sid));
      var from := d.reverse[a];
      ScanListsAll(ops, d, a);
      TotalsMatch(d, m, a);
      CountsAre(ops, from, from);
      if d.totals[a] == 0 || Scan(d, a) == [] {
        NoneFollowed(ops, from, Scan(d, a));
        NoneForetold(ops, from, Some(if topK < 0 then 0 else topK));
      } else {
        var s :| SortedPermutation(s, Scan(d, a), ByCount) && r == Top(s, topK);
        CutForetells(ops, from, Scan(d, a), s, Some(topK), r);
      }
    }
  }

  lemma NoneFollowed(ops: seq<Op>, from: Pattern, scan: seq<Prediction>)
    requires ListsAll(ops, from, scan) && (Departures(ops, from) == 0 || scan == [])
    ensures forall q :: Times(ops, from, q) == 0
  {
    forall q
      ensures Times(ops, from, q) == 0
    {
      TimesAtMost(ops, from, q);
      hide Times, Departures;
      assert Prediction(q, Times(ops, from, q), Departures(ops, from)) in scan <==> Times(ops, from, q) > 0;
    }
  }

  // ---- How many sessions and routes are kept ----

  /** One session more, with one dropped when the limit is reached. */
  lemma StaysBounded(crowd: set<Sid>, crowd': set<Sid>, sid: Sid, victim: Option<Sid>, limit: nat)
    requires |crowd| <= limit && limit > 0
    requires crowd' <= (if victim.Some? then crowd - {victim.value} else crowd) + {sid}
    requires sid !in crowd && |crowd| == limit ==> victim.Some? && victim.value in crowd
    ensures |crowd'| <= limit
  {
    var kept := if victim.Some? then crowd - {victim.value} else crowd;
    if sid in crowd {
      Subset(kept + {sid}, crowd);
    }
    Subset(crowd', kept + {sid});
  }

  function Shard(sessions: map<Sid, seq<nat>>, shardOf: Sid -> nat, shard: nat): set<Sid> {
    set s | s in sessions && shardOf(s) == shard
  }

  /** At no time are there more than 5000 sessions, or more than 500 in a shard, or more than 4096 routes. */
  lemma {:induction false} Bounded(ops: seq<Op>, maxRoutes: nat, shardOf: Sid -> nat, shard: nat, n: nat)
    requires Lawful(ops, maxRoutes, shardOf) && n <= |ops|
    ensures |RunMap(ops[..n]).sessions.Keys| <= 5000
    ensures |Shard(RunDense(ops[..n], maxRoutes).sessions, shardOf, shard)| <= 500
    ensures |RunDense(ops[..n], maxRoutes).reverse| <= 4096
  {
    if n == 0 {
      assert ops[..0] == [];
      assert Shard(NewDense(maxRoutes).sessions, shardOf, shard) == {};
    } else {
      Bounded(ops, maxRoutes, shardOf, shard, n - 1);
      var front, op := ops[..n - 1], ops[n - 1];
      assert ops[..n][..n - 1] == front && ops[..n][n - 1] == op;
      assert DropsLawful(RunDense(front, maxRoutes), RunMap(front), op, shardOf);
      hide RunDense, RunMap, Lawful, DropsLawful;
      RunMapUnfolds(ops[..n]);
      RunDenseUnfolds(ops[..n], maxRoutes);
      MapBounded(RunDense(front, maxRoutes), RunMap(front), op, shardOf);
      DenseBounded(RunDense(front, maxRoutes), RunMap(front), op, shardOf, shard);
    }
  }

  lemma RunDenseUnfolds(ops: seq<Op>, maxRoutes: nat)
    requires ops != []
    ensures RunDense(ops, maxRoutes) == StepDense(RunDense(ops[..|ops| - 1], maxRoutes), ops[|ops| - 1])
  {
  }

  lemma MapBounded(d: DenseState, m: MapState, op: Op, shardOf: Sid -> nat)
    requires |m.sessions.Keys| <= 5000 && DropsLawful(d, m, op, shardOf)
    ensures |StepMap(m, op).sessions.Keys| <= 5000
  {
    if op.Record? {
      hide Transition, Extend;
      StaysBounded(m.sessions.Keys, StepMap(m, op).sessions.Keys, op.sid, op.dropMap, 5000);
    } else {
      Subset(StepMap(m, op).sessions.Keys, m.sessions.Keys);
    }
  }

  /** A recorded request adds its session, in place of the dropped one if any, or is refused. */
  lemma DenseSessions(d: DenseState, sid: Sid, p: Pattern, victim: Option<Sid>)
    requires Sized(d)
    ensures RecordDense(d, sid, p, victim).sessions.Keys == d.sessions.Keys
         || RecordDense(d, sid, p, victim).sessions.Keys == Without(d.sessions, victim).Keys + {sid}
    ensures |d.reverse| <= 4096 ==> |RecordDense(d, sid, p, victim).reverse| <= 4096
  {
    hide Extend, IdOf, Sum, Row, WithRow, Halves, HistoryOf;
  }

  lemma DenseBounded(d: DenseState, m: MapState, op: Op, shardOf: Sid -> nat, shard: nat)
    requires Sized(d) && |d.reverse| <= 4096 && |Shard(d.sessions, shardOf, shard)| <= 500
    requires DropsLawful(d, m, op, shardOf)
    ensures |Shard(StepDense(d, op).sessions, shardOf, shard)| <= 500 && |StepDense(d, op).reverse| <= 4096
  {
    var was, now := Shard(d.sessions, shardOf, shard), Shard(StepDense(d, op).sessions, shardOf, shard);
    if op.Record? {
      DenseSessions(d, op.sid, op.p, op.dropDense);
      hide RecordDense;
      if shardOf(op.sid) == shard && StepDense(d, op).sessions.Keys != d.sessions.Keys {
        RoomMade(d, m, op, shardOf);
        hide DropsLawful;
        StaysBounded(was, now, op.sid, op.dropDense, 500);
      } else {
        Subset(now, was);
      }
    } else {
      Subset(now, was);
    }
  }

  lemma RoomMade(d: DenseState, m: MapState, op: Op, shardOf: Sid -> nat)
    requires op.Record? && DropsLawful(d, m, op, shardOf)
    ensures var crowd := Shard(d.sessions, shardOf, shardOf(op.sid));
      op.sid !in crowd && |crowd| == 500 ==> op.dropDense.Some? && op.dropDense.value in crowd
  {
    var crowd := set s | s in d.sessions && shardOf(s) == shardOf(op.sid);
    assert crowd == Shard(d.sessions, shardOf, shardOf(op.sid));
  }

  /** A session is dropped exactly when one without a history arrives at the limit, and it is one of those kept. */
  lemma DroppedIff(ops: seq<Op>, maxRoutes: nat, shardOf: Sid -> nat, n: nat)
    requires Lawful(ops, maxRoutes, shardOf) && n < |ops| && ops[n].Record?
    ensures var (op, keys) := (ops[n], RunMap(ops[..n]).sessions.Keys);
      && (op.dropMap.Some? <==> Visited(ops[..n], op.sid) == [] && |keys| == 5000)
      && (op.dropMap.Some? ==> op.dropMap.value in keys)
  {
    Bounded(ops, maxRoutes, shardOf, 0, n);
    HistoryIs(ops[..n], ops[n].sid);
    LastStays(Visited(ops[..n], ops[n].sid));
    assert DropsLawful(RunDense(ops[..n], maxRoutes), RunMap(ops[..n]), ops[n], shardOf);
    hide RunDense, RunMap, Lawful, LastTen, Visited;
  }
}
