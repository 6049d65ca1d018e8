/**
 The dense predictor refines the map predictor: within the route and session limits and before
 saturation, both count the same transitions and predict the same probabilities.
 */
module PredictorRefinement {
  import opened Bytes
  import opened Predictors
  import opened DenseCounters

  // ---- The simulation relation ----

  predicate SameSessions(reverse: seq<Pattern>, ds: map<Sid, seq<nat>>, ms: map<Sid, seq<Pattern>>) {
    && ds.Keys == ms.Keys
    && forall sid :: sid in ds ==>
         ds[sid] != [] && ms[sid] != [] && LastOf(ds[sid]) < |reverse| && reverse[LastOf(ds[sid])] == LastOf(ms[sid])
  }

  function Cell(matrix: seq<nat>, n: nat, a: nat, b: nat): nat {
    if |matrix| == n * n && a < n && b < n then Row(matrix, n, a)[b] else 0
  }

  function TotalOf(totals: seq<nat>, a: nat): nat {
    if a < |totals| then totals[a] else 0
  }

  /** The cell of two registered patterns is their count; cells of other ids are zero. */
  ghost predicate SameCells(reverse: seq<Pattern>, matrix: seq<nat>, n: nat, transitions: map<Pattern,
      map<Pattern, nat>>) {
    && (forall a, b :: 0 <= a < |reverse| && 0 <= b < |reverse| ==>
          Cell(matrix, n, a, b) == CountIn(transitions, reverse[a], reverse[b]))
    && (forall a: nat, b: nat :: a >= |reverse| || b >= |reverse| ==> Cell(matrix, n, a, b) == 0)
  }

  ghost predicate SameTotals(reverse: seq<Pattern>, totals: seq<nat>, mapTotals: map<Pattern, nat>) {
    && (forall a :: 0 <= a < |reverse| ==> TotalOf(totals, a) == TotalIn(mapTotals, reverse[a]))
    && (forall a: nat :: a >= |reverse| ==> TotalOf(totals, a) == 0)
  }

  /** The map predictor only knows registered patterns, with positive counts. */
  ghost predicate Known(reverse: seq<Pattern>, transitions: map<Pattern, map<Pattern, nat>>,
      mapTotals: map<Pattern, nat>) {
    && (forall p :: p in transitions ==> p in reverse)
    && (forall p :: p in mapTotals ==> p in reverse)
    && (forall p, q :: p in transitions && q in transitions[p] ==> q in reverse && transitions[p][q] > 0)
  }

  ghost predicate Agrees(d: DenseState, m: MapState) {
    && Safe(d) && |d.reverse| <= d.maxRoutes
    && SameSessions(d.reverse, d.sessions, m.sessions)
    && SameCells(d.reverse, d.matrix, d.maxRoutes, m.transitions)
    && SameTotals(d.reverse, d.totals, m.totals)
    && Known(d.reverse, m.transitions, m.totals)
  }

  // ---- Recording keeps the relation ----

  lemma GrowCells(reverse: seq<Pattern>, p: Pattern, matrix: seq<nat>, n: nat, ts: map<Pattern, map<Pattern,
      nat>>, tots: map<Pattern, nat>)
    requires SameCells(reverse, matrix, n, ts) && Known(reverse, ts, tots) && p !in reverse
    ensures SameCells(reverse + [p], matrix, n, ts)
  {
    hide Cell;
    var r' := reverse + [p];
    forall a, b | 0 <= a < |r'| && 0 <= b < |r'|
      ensures Cell(matrix, n, a, b) == CountIn(ts, r'[a], r'[b])
    {
      if a < |reverse| && b < |reverse| {
        assert r'[a] == reverse[a] && r'[b] == reverse[b];
      }
    }
  }

  lemma GrowTotals(reverse: seq<Pattern>, p: Pattern, totals: seq<nat>, ts: map<Pattern, map<Pattern, nat>>,
      tots: map<Pattern, nat>)
    requires SameTotals(reverse, totals, tots) && Known(reverse, ts, tots) && p !in reverse
    ensures SameTotals(reverse + [p], totals, tots) && Known(reverse + [p], ts, tots)
  {
    hide TotalOf;
  }

  lemma GrowSessions(reverse: seq<Pattern>, p: Pattern, ds: map<Sid, seq<nat>>, ms: map<Sid, seq<Pattern>>)
    requires SameSessions(reverse, ds, ms)
    ensures SameSessions(reverse + [p], ds, ms)
  {
  }

  predicate RoomFor(d: DenseState, p: Pattern) {
    p in d.reverse || (|d.reverse| < d.maxRoutes && |d.reverse| < 4096)
  }

  lemma RegisterAgrees(d: DenseState, m: MapState, p: Pattern)
    requires Agrees(d, m) && RoomFor(d, p)
    ensures var (reverse, id) := Register(d.reverse, p);
      && id.Some? && id.value < |reverse| && reverse[id.value] == p && |reverse| <= d.maxRoutes
      && Agrees(d.(reverse := reverse), m)
  {
    RegisteredSafe(d, p);
    RegisterKeeps(d.reverse, p);
    IdOfIs(d.reverse, p);
    if p !in d.reverse {
      GrowCells(d.reverse, p, d.matrix, d.maxRoutes, m.transitions, m.totals);
      GrowTotals(d.reverse, p, d.totals, m.transitions, m.totals);
      GrowSessions(d.reverse, p, d.sessions, m.sessions);
    }
    hide NoDup, Safe, SameCells, SameTotals, SameSessions, Known;
  }

  /** The sessions left when the victim, if any, is dropped. */
  function Without<T>(sessions: map<Sid, seq<T>>, victim: Option<Sid>): map<Sid, seq<T>> {
    if victim.Some? then sessions - {victim.value} else sessions
  }

  function Remembered(m: MapState, sid: Sid, p: Pattern, victim: Option<Sid>): MapState {
    m.(sessions := Without(m.sessions, victim)[sid := Extend(HistoryOf(m.sessions, sid), p)])
  }

  lemma RememberSessions(reverse: seq<Pattern>, ds: map<Sid, seq<nat>>, ms: map<Sid, seq<Pattern>>, sid: Sid, id: nat,
                         victim: Option<Sid>)
    requires SameSessions(reverse, ds, ms) && id < |reverse|
    ensures SameSessions(reverse, Without<nat>(ds, victim)[sid := Extend<nat>(HistoryOf<nat>(ds, sid), id)],
                         Without(ms, victim)[sid := Extend(HistoryOf(ms, sid), reverse[id])])
  {
    hide Extend;
  }

  lemma RememberAgrees(d: DenseState, m: MapState, sid: Sid, id: nat, victim: Option<Sid>)
    requires Agrees(d, m) && id < |d.reverse| && id < d.maxRoutes
    ensures Agrees(Remember(d, sid, id, victim), Remembered(m, sid, d.reverse[id], victim))
  {
    RememberKeeps(d, sid, id, victim);
    RememberSessions(d.reverse, d.sessions, m.sessions, sid, id, victim);
    hide Extend, HistoryOf, Safe, SameCells, SameTotals, SameSessions, Known;
  }

  lemma IndexUnique(s: seq<Pattern>, i: nat, j: nat)
    requires NoDup(s) && i < |s| && j < |s|
    ensures s[i] == s[j] <==> i == j
  {
    if i < j { assert s[i] != s[j]; }
    if j < i { assert s[j] != s[i]; }
  }

  lemma BumpTotal(d: DenseState, a: nat, b: nat)
    requires Sized(d) && a < d.maxRoutes && b < d.maxRoutes && d.totals[a] + 1 < SATURATION
    ensures Bump(d, a, b).totals == d.totals[a := d.totals[a] + 1]
  {
    hide Sum, Row, WithRow;
  }

  lemma BumpCell(d: DenseState, a: nat, b: nat, i: nat, j: nat)
    requires Safe(d) && a < d.maxRoutes && b < d.maxRoutes && d.totals[a] + 1 < SATURATION
    ensures Cell(Bump(d, a, b).matrix, d.maxRoutes, i, j)
         == Cell(d.matrix, d.maxRoutes, i, j) + if i == a && j == b then 1 else 0
  {
    BumpKeeps(d, a, b);
    BumpShape(d, a, b);
    hide Sum, Row, Bump, NoDup, TotalsOk;
  }

  lemma TransitionCells(d: DenseState, d': DenseState, ts: map<Pattern, map<Pattern, nat>>, a: nat, b: nat)
    requires Safe(d) && SameCells(d.reverse, d.matrix, d.maxRoutes, ts) && |d.reverse| <= d.maxRoutes
    requires a < |d.reverse| && b < |d.reverse| && d.totals[a] + 1 < SATURATION && d' == Bump(d, a, b)
    ensures SameCells(d.reverse, d'.matrix, d.maxRoutes, Counted(ts, d.reverse[a], d.reverse[b]))
  {
    var ts' := Counted(ts, d.reverse[a], d.reverse[b]);
    forall i: nat, j: nat
      ensures Cell(d'.matrix, d.maxRoutes, i, j) ==
              Cell(d.matrix, d.maxRoutes, i, j) + if i == a && j == b then 1 else 0
    {
      BumpCell(d, a, b, i, j);
    }
    hide Cell, Bump, Sum, Row;
    forall i, j | 0 <= i < |d.reverse| && 0 <= j < |d.reverse|
      ensures CountIn(ts', d.reverse[i], d.reverse[j])
           == CountIn(ts, d.reverse[i], d.reverse[j]) + if i == a && j == b then 1 else 0
    {
      IndexUnique(d.reverse, a, i);
      IndexUnique(d.reverse, b, j);
    }
  }

  lemma TransitionTotals(reverse: seq<Pattern>, totals: seq<nat>, tots: map<Pattern, nat>, a: nat)
    requires SameTotals(reverse, totals, tots) && NoDup(reverse) && a < |reverse| && a < |totals|
    ensures SameTotals(reverse, totals[a := totals[a] + 1], tots[reverse[a] := TotalIn(tots, reverse[a]) + 1])
  {
    forall i | 0 <= i < |reverse|
      ensures reverse[i] == reverse[a] <==> i == a
    {
      IndexUnique(reverse, a, i);
    }
    var totals', tots' := totals[a := totals[a] + 1], tots[reverse[a] := TotalIn(tots, reverse[a]) + 1];
    assert TotalOf(totals, a) == totals[a];
    forall i: nat
      ensures TotalOf(totals', i) == TotalOf(totals, i) + if i == a then 1 else 0
    {
    }
    hide TotalOf;
  }

  lemma TransitionKnown(reverse: seq<Pattern>, ts: map<Pattern, map<Pattern, nat>>, tots: map<Pattern, nat>,
      p: Pattern, q: Pattern)
    requires Known(reverse, ts, tots) && p in reverse && q in reverse
    ensures Known(reverse, Counted(ts, p, q), tots[p := TotalIn(tots, p) + 1])
  {
    var ts' := Counted(ts, p, q);
    assert forall x :: x in ts' ==> x in reverse;
    forall x, y | x in ts' && y in ts'[x]
      ensures y in reverse && ts'[x][y] > 0
    {
      if x != p || y != q {
        assert x in ts && y in ts[x] && ts'[x][y] == ts[x][y];
      }
    }
    hide Counted, TotalIn;
  }

  lemma BumpFrame(d: DenseState, a: nat, b: nat)
    requires Safe(d) && a < d.maxRoutes && b < d.maxRoutes && d.totals[a] + 1 < SATURATION
    ensures Safe(Bump(d, a, b))
    ensures Bump(d, a, b) == d.(matrix := Bump(d, a, b).matrix, totals := d.totals[a := d.totals[a] + 1])
  {
    hide NoDup, TotalsOk, SessionsOk;
    BumpSafe(d, a, b);
    BumpShape(d, a, b);
    BumpTotal(d, a, b);
  }

  lemma BumpAgrees(d: DenseState, m: MapState, a: nat, b: nat)
    requires Agrees(d, m) && a < |d.reverse| && b < |d.reverse| && d.totals[a] + 1 < SATURATION
    ensures Agrees(Bump(d, a, b), Transition(m, d.reverse[a], d.reverse[b]))
  {
    BumpFrame(d, a, b);
    assert NoDup(d.reverse) && a < |d.totals|;
    AgreesAfter(d, m, a, b, Bump(d, a, b));
  }

  lemma AgreesAfter(d: DenseState, m: MapState, a: nat, b: nat, d': DenseState)
    requires Agrees(d, m) && a < |d.reverse| && b < |d.reverse| && a < |d.totals| && NoDup(d.reverse)
    requires Sized(d) && d.totals[a] + 1 < SATURATION && Safe(d') && d' == Bump(d, a, b)
    requires d' == d.(matrix := d'.matrix, totals := d.totals[a := d.totals[a] + 1])
    ensures Agrees(d', Transition(m, d.reverse[a], d.reverse[b]))
  {
    hide Bump, Safe, Sized, SameCells, SameTotals, SameSessions, Known, Counted, NoDup, TotalIn;
    TransitionCells(d, d', m.transitions, a, b);
    TransitionTotals(d.reverse, d.totals, m.totals, a);
    TransitionKnown(d.reverse, m.transitions, m.totals, d.reverse[a], d.reverse[b]);
  }

  /** The session's last route has a total that the next transition would saturate. */
  predicate Saturates(d: DenseState, sid: Sid) {
    var hist := HistoryOf(d.sessions, sid);
    hist != [] && LastOf(hist) < |d.totals| && d.totals[LastOf(hist)] + 1 >= 0x7FFF_FFFF
  }

  lemma RecordUnfolds(d: DenseState, m: MapState, sid: Sid, p: Pattern, id: nat, dropMap: Option<Sid>,
      dropDense: Option<Sid>)
    requires Sized(d) && Register(d.reverse, p).1 == Some(id) && id < d.maxRoutes
    requires HistoryOf(d.sessions, sid) == [] <==> HistoryOf(m.sessions, sid) == []
    requires HistoryOf(d.sessions, sid) != [] ==> LastOf(HistoryOf(d.sessions, sid)) < d.maxRoutes
    ensures var d2 := Remember(d.(reverse := Register(d.reverse, p).0), sid, id, dropDense);
      var m2 := Remembered(m, sid, p, dropMap);
      var hist, histM := HistoryOf(d.sessions, sid), HistoryOf(m.sessions, sid);
      && RecordDense(d, sid, p, dropDense) == (if hist == [] then d2 else Bump(d2, LastOf(hist), id))
      && RecordMap(m, sid, p, dropMap) == (if hist == [] then m2 else Transition(m2, LastOf(histM), p))
  {
    assert m.sessions - {} == m.sessions;
    hide Bump, Register, Extend, HistoryOf, Counted, Sum, Row;
  }

  /** One recorded request, with the same session dropped, if any, and no row saturating. */
  lemma RecordAgrees(d: DenseState, m: MapState, sid: Sid, p: Pattern, victim: Option<Sid>)
    requires Agrees(d, m) && RoomFor(d, p) && !Saturates(d, sid)
    ensures Agrees(RecordDense(d, sid, p, victim), RecordMap(m, sid, p, victim))
  {
    assert Sized(d);
    hide Agrees, Bump, Extend, Transition, RoomFor, Register, RecordDense, RecordMap, Remembered, Remember, HistoryOf;
    RegisterAgrees(d, m, p);
    var (reverse, id) := Register(d.reverse, p);
    SameHistory(d, m, sid);
    RecordUnfolds(d, m, sid, p, id.value, victim, victim);
    RememberedAgrees(d, m, sid, p, victim, d.(reverse := reverse), id.value);
  }

  /** The session step, and the transition into it if there is one. */
  lemma RememberedAgrees(d: DenseState, m: MapState, sid: Sid, p: Pattern, victim: Option<Sid>, d1: DenseState, id: nat)
    requires Agrees(d1, m) && d1 == d.(reverse := d1.reverse) && id < |d1.reverse| && d1.reverse[id] == p
    requires !Saturates(d, sid)
    ensures |d1.reverse| <= d1.maxRoutes && Sized(d1)
    ensures var d2, m2 := Remember(d1, sid, id, victim), Remembered(m, sid, p, victim);
      var hist := HistoryOf(d.sessions, sid);
      if hist == [] then Agrees(d2, m2)
      else
        && HistoryOf(m.sessions, sid) != [] && LastOf(hist) < d1.maxRoutes && Sized(d2)
        && Agrees(Bump(d2, LastOf(hist), id), Transition(m2, LastOf(HistoryOf(m.sessions, sid)), p))
  {
    assert |d1.reverse| <= d1.maxRoutes && Sized(d1);
    SameHistory(d1, m, sid);
    hide Agrees, Bump, Transition, HistoryOf, Remember, Remembered;
    RememberAgrees(d1, m, sid, id, victim);
    RememberFrame(d1, sid, id, victim);
    var hist := HistoryOf(d.sessions, sid);
    if hist != [] {
      BumpAgrees(Remember(d1, sid, id, victim), Remembered(m, sid, p, victim), LastOf(hist), id);
    }
  }

  lemma RememberFrame(d: DenseState, sid: Sid, id: nat, victim: Option<Sid>)
    ensures Remember(d, sid, id, victim) == d.(sessions := Remember(d, sid, id, victim).sessions)
  {
    hide Extend, HistoryOf;
  }

  lemma SameHistory(d: DenseState, m: MapState, sid: Sid)
    requires Agrees(d, m)
    ensures HistoryOf(d.sessions, sid) == [] <==> HistoryOf(m.sessions, sid) == []
    ensures HistoryOf(d.sessions, sid) != [] ==>
      && LastOf(HistoryOf(d.sessions, sid)) < |d.reverse| <= d.maxRoutes
      && d.reverse[LastOf(HistoryOf(d.sessions, sid))] == LastOf(HistoryOf(m.sessions, sid))
  {
    hide Safe, Known, SameCells, SameTotals;
  }

  lemma ResetAgrees(d: DenseState, m: MapState, sid: Sid)
    requires Agrees(d, m)
    ensures Agrees(ResetDense(d, sid), ResetMap(m, sid))
  {
    ResetSafe(d, sid);
    ResetSessions(d.reverse, d.sessions, m.sessions, sid);
    hide Safe, SameCells, SameTotals, SameSessions, Known;
  }

  lemma ResetSafe(d: DenseState, sid: Sid)
    requires Safe(d)
    ensures Safe(ResetDense(d, sid))
  {
    hide Sum, Row, NoDup;
  }

  lemma ResetSessions(reverse: seq<Pattern>, ds: map<Sid, seq<nat>>, ms: map<Sid, seq<Pattern>>, sid: Sid)
    requires SameSessions(reverse, ds, ms)
    ensures SameSessions(reverse, ds - {sid}, ms - {sid})
  {
  }

  lemma NewAgrees(maxRoutes: nat)
    requires maxRoutes <= 65535
    ensures Agrees(NewDense(maxRoutes), NEW_MAP)
  {
    NewSafe(maxRoutes);
    var d := NewDense(maxRoutes);
    forall a: nat, b: nat
      ensures Cell(d.matrix, maxRoutes, a, b) == 0
    {
      if a < maxRoutes && b < maxRoutes { InMatrix(maxRoutes, a, b); }
    }
    hide Cell, Safe;
  }

  // ---- Whole runs ----

  /** A recorded request, with the session each predictor drops to make room, or a reset. */
  datatype Op = Record(sid: Sid, p: Pattern, dropMap: Option<Sid>, dropDense: Option<Sid>) | Reset(sid: Sid)

  function StepMap(m: MapState, op: Op): MapState {
    match op
    case Record(sid, p, drop, _) => RecordMap(m, sid, p, drop)
    case Reset(sid) => ResetMap(m, sid)
  }

  function StepDense(d: DenseState, op: Op): (d': DenseState)
    requires Sized(d)
    ensures Sized(d')
  {
    match op
    case Record(sid, p, _, drop) => RecordDense(d, sid, p, drop)
    case Reset(sid) => ResetDense(d, sid)
  }

  function RunMap(ops: seq<Op>): MapState {
    if ops == [] then NEW_MAP else StepMap(RunMap(ops[..|ops| - 1]), ops[|ops| - 1])
  }

  function RunDense(ops: seq<Op>, maxRoutes: nat): (d: DenseState)
    ensures Sized(d)
  {
    if ops == [] then NewDense(maxRoutes) else StepDense(RunDense(ops[..|ops| - 1], maxRoutes), ops[|ops| - 1])
  }

  /** Each predictor drops a session only when a new one arrives at its own limit. */
  predicate DropsLawful(d: DenseState, m: MapState, op: Op, shardOf: Sid -> nat) {
    op.Record? ==>
      && Evicts(m.sessions, m.sessions.Keys, MAX_SESSIONS, op.sid, op.dropMap)
      && var crowd := set s | s in d.sessions && shardOf(s) == shardOf(op.sid);
         Evicts(d.sessions, crowd, SHARD_SESSIONS, op.sid, op.dropDense)
  }

  ghost predicate Lawful(ops: seq<Op>, maxRoutes: nat, shardOf: Sid -> nat) {
    forall i :: 0 <= i < |ops| ==> DropsLawful(RunDense(ops[..i], maxRoutes), RunMap(ops[..i]), ops[i], shardOf)
  }

  // ---- Exactly when a step keeps the predictors in agreement ----

  /**
   The dense predictor has room for the pattern, both predictors drop the same session or none, and
   the transition does not make the dense one rescale its row.
   */
  predicate Keeps(d: DenseState, op: Op) {
    op.Record? ==> RoomFor(d, op.p) && op.dropMap == op.dropDense && !Saturates(d, op.sid)
  }

  lemma RefusedDiffers(d: DenseState, m: MapState, op: Op)
    requires Agrees(d, m) && op.Record? && !RoomFor(d, op.p)
    ensures !Agrees(StepDense(d, op), StepMap(m, op))
  {
    IdOfIs(d.reverse, op.p);
    var d', m' := StepDense(d, op), StepMap(m, op);
    LastRecorded(m, op);
    if |d.reverse| >= MAX_INDEXED_ROUTES {
      assert d'.reverse == d.reverse && d'.sessions == d.sessions;
    } else {
      assert d'.reverse == d.reverse + [op.p];
    }
    hide Safe, SameCells, SameTotals, Known, Extend, Transition, Bump, StepDense, StepMap;
  }

  lemma LastRecorded(m: MapState, op: Op)
    requires op.Record?
    ensures op.sid in StepMap(m, op).sessions && StepMap(m, op).sessions[op.sid] != []
    ensures LastOf(StepMap(m, op).sessions[op.sid]) == op.p
  {
    hide Transition;
  }

  lemma DropsDiffer(d: DenseState, m: MapState, op: Op, shardOf: Sid -> nat)
    requires Agrees(d, m) && op.Record? && RoomFor(d, op.p) && DropsLawful(d, m, op, shardOf)
    requires op.dropMap != op.dropDense
    ensures !Agrees(StepDense(d, op), StepMap(m, op))
  {
    SameHistory(d, m, op.sid);
    RegisterAgrees(d, m, op.p);
    var id := Register(d.reverse, op.p).1.value;
    assert Sized(d);
    RecordUnfolds(d, m, op.sid, op.p, id, op.dropMap, op.dropDense);
    SessionKeys(d, m, op, id);
    NewSession(d, m, op, shardOf);
    hide *;
    var dk, mk := StepDense(d, op).sessions.Keys, StepMap(m, op).sessions.Keys;
    var keys := d.sessions.Keys;
    assert dk == (if op.dropDense.Some? then keys - {op.dropDense.value} else keys) + {op.sid};
    assert mk == (if op.dropMap.Some? then keys - {op.dropMap.value} else keys) + {op.sid};
    if op.dropMap.Some? {
      assert op.dropMap.value !in mk && op.dropMap.value in dk;
    } else {
      assert op.dropDense.value !in dk && op.dropDense.value in mk;
    }
    KeysAgree(StepDense(d, op), StepMap(m, op));
  }

  lemma KeysAgree(d: DenseState, m: MapState)
    ensures Agrees(d, m) ==> d.sessions.Keys == m.sessions.Keys
  {
    hide Safe, SameCells, SameTotals, Known;
  }

  /** A session is only ever dropped for a new one, and a dropped one was there. */
  lemma NewSession(d: DenseState, m: MapState, op: Op, shardOf: Sid -> nat)
    requires Agrees(d, m) && op.Record? && DropsLawful(d, m, op, shardOf)
    ensures d.sessions.Keys == m.sessions.Keys
    ensures op.dropMap.Some? ==> op.dropMap.value in d.sessions && op.dropMap.value != op.sid
    ensures op.dropDense.Some? ==> op.dropDense.value in d.sessions && op.dropDense.value != op.sid
  {
    hide Safe, SameCells, SameTotals, Known;
  }

  lemma SessionKeys(d: DenseState, m: MapState, op: Op, id: nat)
    requires Agrees(d, m) && op.Record? && Sized(d) && Register(d.reverse, op.p).1 == Some(id) && id < d.maxRoutes
    requires LastOk(d, op.sid)
    ensures StepDense(d, op).sessions.Keys == Without(d.sessions, op.dropDense).Keys + {op.sid}
    ensures StepMap(m, op).sessions.Keys == Without(m.sessions, op.dropMap).Keys + {op.sid}
  {
    hide Agrees, Register, Extend, Counted, Sum, Row, WithRow;
  }

  predicate LastOk(d: DenseState, sid: Sid) {
    HistoryOf(d.sessions, sid) != [] ==> LastOf(HistoryOf(d.sessions, sid)) < d.maxRoutes
  }

  lemma SaturatedDiffers(d: DenseState, m: MapState, op: Op)
    requires Agrees(d, m) && op.Record? && RoomFor(d, op.p) && Saturates(d, op.sid)
    ensures !Agrees(StepDense(d, op), StepMap(m, op))
  {
    SameHistory(d, m, op.sid);
    var a := LastOf(HistoryOf(d.sessions, op.sid));
    assert TotalOf(d.totals, a) == d.totals[a] == TotalIn(m.totals, d.reverse[a]);
    var d', m' := StepDense(d, op), StepMap(m, op);
    RecordKeeps(d, op.sid, op.p, op.dropDense);
    RecordReverse(d, op.sid, op.p, op.dropDense);
    assert TotalIn(m'.totals, d.reverse[a]) == d.totals[a] + 1 >= SATURATION;
    assert d'.totals[a] < SATURATION && TotalOf(d'.totals, a) == d'.totals[a];
    assert a < |d'.reverse| && d'.reverse[a] == d.reverse[a];
    hide StepDense, StepMap, Safe, SameCells, SameSessions, Known, TotalOf, TotalIn;
  }

  lemma RecordReverse(d: DenseState, sid: Sid, p: Pattern, victim: Option<Sid>)
    requires Sized(d)
    ensures d.reverse <= RecordDense(d, sid, p, victim).reverse
    ensures RecordDense(d, sid, p, victim).maxRoutes == d.maxRoutes
  {
    hide Extend, HistoryOf, IdOf, Sum, Row;
  }

  /** A lawful step from agreeing predictors leaves them in agreement exactly when it keeps them so. */
  lemma StepAgreesIff(d: DenseState, m: MapState, op: Op, shardOf: Sid -> nat)
    requires Agrees(d, m) && DropsLawful(d, m, op, shardOf)
    ensures Sized(d)
    ensures Agrees(StepDense(d, op), StepMap(m, op)) <==> Keeps(d, op)
  {
    assert Sized(d);
    hide Agrees, RoomFor, Saturates, RecordDense, RecordMap, DropsLawful;
    if op.Reset? {
      ResetAgrees(d, m, op.sid);
    } else if !RoomFor(d, op.p) {
      RefusedDiffers(d, m, op);
    } else if Saturates(d, op.sid) {
      SaturatedDiffers(d, m, op);
    } else if op.dropMap != op.dropDense {
      DropsDiffer(d, m, op, shardOf);
    } else {
      RecordAgrees(d, m, op.sid, op.p, op.dropMap);
    }
  }

  /** Both predictors agree after the first n operations. */
  ghost predicate AgreeAfter(ops: seq<Op>, maxRoutes: nat, n: nat)
    requires n <= |ops|
  {
    Agrees(RunDense(ops[..n], maxRoutes), RunMap(ops[..n]))
  }

  predicate KeepsAt(ops: seq<Op>, maxRoutes: nat, n: nat)
    requires n < |ops|
  {
    Keeps(RunDense(ops[..n], maxRoutes), ops[n])
  }

  lemma NextAgreesIff(ops: seq<Op>, maxRoutes: nat, shardOf: Sid -> nat, n: nat)
    requires Lawful(ops, maxRoutes, shardOf) && n < |ops| && AgreeAfter(ops, maxRoutes, n)
    ensures AgreeAfter(ops, maxRoutes, n + 1) <==> KeepsAt(ops, maxRoutes, n)
  {
    assert ops[..n + 1][..n] == ops[..n] && ops[..n + 1][n] == ops[n];
    var d, m := RunDense(ops[..n], maxRoutes), RunMap(ops[..n]);
    assert DropsLawful(d, m, ops[n], shardOf);
    hide Agrees, Keeps, StepDense, StepMap, DropsLawful, Lawful;
    StepAgreesIff(d, m, ops[n], shardOf);
  }

  lemma {:induction false} AgreeUpTo(ops: seq<Op>, maxRoutes: nat, shardOf: Sid -> nat, n: nat)
    requires Lawful(ops, maxRoutes, shardOf) && maxRoutes <= 65535 && n <= |ops|
    requires forall i :: 0 <= i < n ==> KeepsAt(ops, maxRoutes, i)
    ensures AgreeAfter(ops, maxRoutes, n)
  {
    hide Lawful, KeepsAt, AgreeAfter;
    if n == 0 {
      BeginAgrees(ops, maxRoutes);
    } else {
      AgreeUpTo(ops, maxRoutes, shardOf, n - 1);
      NextAgreesIff(ops, maxRoutes, shardOf, n - 1);
    }
  }

  lemma BeginAgrees(ops: seq<Op>, maxRoutes: nat)
    requires maxRoutes <= 65535
    ensures AgreeAfter(ops, maxRoutes, 0)
  {
    NewAgrees(maxRoutes);
    hide Agrees;
  }

  /**
   The predictors agree all along a sequence of requests and resets, however long and with however
   many sessions, exactly when no pattern is refused, both always drop the same session, and no row
   saturates.
   */
  lemma RunsAgreeIff(ops: seq<Op>, maxRoutes: nat, shardOf: Sid -> nat)
    requires Lawful(ops, maxRoutes, shardOf) && maxRoutes <= 65535
    ensures (forall n :: 0 <= n <= |ops| ==> AgreeAfter(ops, maxRoutes, n))
       <==> (forall n :: 0 <= n < |ops| ==> KeepsAt(ops, maxRoutes, n))
  {
    hide Lawful, KeepsAt, AgreeAfter;
    if forall n :: 0 <= n < |ops| ==> KeepsAt(ops, maxRoutes, n) {
      forall n | 0 <= n <= |ops| { AgreeUpTo(ops, maxRoutes, shardOf, n); }
    }
    if forall n :: 0 <= n <= |ops| ==> AgreeAfter(ops, maxRoutes, n) {
      forall n | 0 <= n < |ops|
        ensures KeepsAt(ops, maxRoutes, n)
      {
        assert AgreeAfter(ops, maxRoutes, n) && AgreeAfter(ops, maxRoutes, n + 1);
        NextAgreesIff(ops, maxRoutes, shardOf, n);
      }
    }
  }

  // ---- Limits on the input alone under which they agree ----

  function PatternsIn(ops: seq<Op>): set<Pattern> {
    set op | op in ops && op.Record? :: op.p
  }

  function SidsIn(ops: seq<Op>): set<Sid> {
    set op | op in ops :: op.sid
  }

  /** Few enough routes, sessions and requests that nothing is refused, dropped or rescaled. */
  predicate WithinLimits(ops: seq<Op>, maxRoutes: nat) {
    && maxRoutes <= 65535
    && |PatternsIn(ops)| <= maxRoutes && |PatternsIn(ops)| <= 4096
    && |SidsIn(ops)| <= 500 && |ops| + 1 < 0x7FFF_FFFF
  }

  ghost predicate Confined(d: DenseState, sids: set<Sid>, patterns: set<Pattern>) {
    d.sessions.Keys <= sids && forall p :: p in d.reverse ==> p in patterns
  }

  lemma {:induction false} NoDupLength(s: seq<Pattern>, keys: set<Pattern>)
    requires NoDup(s) && forall p :: p in s ==> p in keys
    ensures |s| <= |keys|
    decreases |s|
  {
    if s != [] {
      var x, rest := s[0], s[1..];
      forall p | p in rest
        ensures p in keys - {x}
      {
        var i :| 0 <= i < |rest| && rest[i] == p;
        assert s[i + 1] == p && s[0] != s[i + 1];
      }
      NoDupLength(rest, keys - {x});
    }
  }

  lemma RoomWithin(d: DenseState, m: MapState, p: Pattern, patterns: set<Pattern>)
    requires Agrees(d, m) && p in patterns && |patterns| <= d.maxRoutes && |patterns| <= MAX_INDEXED_ROUTES
    requires forall q :: q in d.reverse ==> q in patterns
    ensures RoomFor(d, p)
  {
    if p !in d.reverse {
      NoDupLength(d.reverse, patterns - {p});
    }
  }

  lemma Subset<T>(a: set<T>, b: set<T>)
    requires a <= b
    ensures |a| <= |b|
  {
    assert b == a + (b - a);
  }

  lemma NothingDropped(d: DenseState, m: MapState, op: Op, shardOf: Sid -> nat, sids: set<Sid>)
    requires op.Record? && DropsLawful(d, m, op, shardOf) && SameSessions(d.reverse, d.sessions, m.sessions)
    requires d.sessions.Keys <= sids && op.sid in sids && |sids| <= SHARD_SESSIONS
    ensures op.dropMap == None && op.dropDense == None
  {
    if op.sid !in d.sessions {
      var crowd := set s | s in d.sessions && shardOf(s) == shardOf(op.sid);
      Subset(crowd, sids - {op.sid});
      Subset(m.sessions.Keys, sids - {op.sid});
    }
  }

  ghost predicate Unsaturated(d: DenseState, limit: nat) {
    forall a :: 0 <= a < |d.totals| ==> d.totals[a] < limit
  }

  lemma StepUnsaturated(d: DenseState, op: Op, limit: nat)
    requires Sized(d) && Unsaturated(d, limit) && limit < SATURATION
    ensures Unsaturated(StepDense(d, op), limit + 1)
  {
    if op.Record? {
      var d2 := d.(reverse := Register(d.reverse, op.p).0);
      var hist := HistoryOf(d.sessions, op.sid);
      var id := Register(d.reverse, op.p).1;
      if hist != [] && LastOf(hist) < d.maxRoutes && id.Some? && id.value < d.maxRoutes {
        BumpTotal(Remember(d2, op.sid, id.value, op.dropDense), LastOf(hist), id.value);
      }
    }
    hide Register, Remember, Bump;
  }

  lemma StepConfined(d: DenseState, op: Op, sids: set<Sid>, patterns: set<Pattern>)
    requires Sized(d) && Confined(d, sids, patterns) && op.sid in sids && (op.Record? ==> op.p in patterns)
    ensures Confined(StepDense(d, op), sids, patterns) && StepDense(d, op).maxRoutes == d.maxRoutes
  {
    hide Extend, HistoryOf, IdOf, Sum, Row;
  }

  lemma KeepsWithin(d: DenseState, m: MapState, op: Op, shardOf: Sid -> nat, sids: set<Sid>, patterns: set<Pattern>)
    requires Agrees(d, m) && Unsaturated(d, SATURATION - 1) && Confined(d, sids, patterns)
    requires DropsLawful(d, m, op, shardOf)
    requires op.sid in sids && (op.Record? ==> op.p in patterns)
    requires |sids| <= SHARD_SESSIONS && |patterns| <= d.maxRoutes && |patterns| <= MAX_INDEXED_ROUTES
    ensures Keeps(d, op)
  {
    assert Sized(d);
    hide DropsLawful, SameCells, SameTotals, SameSessions, Known, Safe, RoomFor;
    if op.Record? {
      NothingDropped(d, m, op, shardOf, sids);
      RoomWithin(d, m, op.p, patterns);
    }
  }

  lemma {:induction false} WithinAt(ops: seq<Op>, maxRoutes: nat, shardOf: Sid -> nat, n: nat)
    requires Lawful(ops, maxRoutes, shardOf) && WithinLimits(ops, maxRoutes) && n <= |ops|
    ensures AgreeAfter(ops, maxRoutes, n)
    ensures var d := RunDense(ops[..n], maxRoutes);
      Confined(d, SidsIn(ops), PatternsIn(ops)) && Unsaturated(d, n + 1) && d.maxRoutes == maxRoutes
    ensures n < |ops| ==> KeepsAt(ops, maxRoutes, n)
  {
    hide Agrees, StepDense, StepMap, Confined, Unsaturated, DropsLawful, Keeps;
    if n == 0 {
      BeginAgrees(ops, maxRoutes);
      NewConfined(maxRoutes, SidsIn(ops), PatternsIn(ops));
    } else {
      WithinAt(ops, maxRoutes, shardOf, n - 1);
      NextAgreesIff(ops, maxRoutes, shardOf, n - 1);
      assert ops[..n][..n - 1] == ops[..n - 1] && ops[n - 1] in ops;
      StepConfined(RunDense(ops[..n - 1], maxRoutes), ops[n - 1], SidsIn(ops), PatternsIn(ops));
      StepUnsaturated(RunDense(ops[..n - 1], maxRoutes), ops[n - 1], n);
    }
    if n < |ops| {
      assert ops[n] in ops;
      var d, m := RunDense(ops[..n], maxRoutes), RunMap(ops[..n]);
      LimitGrows(d, n + 1, SATURATION - 1);
      assert DropsLawful(d, m, ops[n], shardOf);
      KeepsWithin(d, m, ops[n], shardOf, SidsIn(ops), PatternsIn(ops));
    }
  }

  lemma LimitGrows(d: DenseState, low: nat, high: nat)
    requires Unsaturated(d, low) && low <= high
    ensures Unsaturated(d, high)
  {
  }

  lemma NewConfined(maxRoutes: nat, sids: set<Sid>, patterns: set<Pattern>)
    ensures var d := NewDense(maxRoutes); Confined(d, sids, patterns) && Unsaturated(d, 1) && d.maxRoutes == maxRoutes
  {
  }

  /** Few enough routes, session ids and requests always leave both predictors with the same counts. */
  lemma RunsAgree(ops: seq<Op>, maxRoutes: nat, shardOf: Sid -> nat)
    requires Lawful(ops, maxRoutes, shardOf) && WithinLimits(ops, maxRoutes)
    ensures Agrees(RunDense(ops, maxRoutes), RunMap(ops))
  {
    WithinAt(ops, maxRoutes, shardOf, |ops|);
    assert ops[..|ops|] == ops;
    hide Agrees, Lawful, Confined, WithinLimits;
  }
}
