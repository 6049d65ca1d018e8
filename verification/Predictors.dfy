/**
 The two Markov predictors as state transformers: nested maps keyed by route pattern, and a flat
 matrix addressed by interned route ids. Route patterns are what NormalizeRoute yields.
 */
module Predictors {
  import opened Bytes

  type Sid = string
  type Pattern = string

  const MAX_HISTORY: nat := 10
  const MAX_SESSIONS: nat := 5000
  const SHARD_SESSIONS: nat := 500
  const MAX_INDEXED_ROUTES: nat := 4096
  const SATURATION: nat := 0x7FFF_FFFF

  /** A predicted route with its probability count / total. */
  datatype Prediction = Prediction(pattern: Pattern, count: nat, total: nat)

  function LastOf<T>(s: seq<T>): T
    requires s != []
  {
    s[|s| - 1]
  }

  /** append, then keep the last MAX_HISTORY steps. */
  function Extend<T>(hist: seq<T>, x: T): (r: seq<T>)
    ensures r != [] && LastOf(r) == x
  {
    var h := hist + [x];
    if |h| > MAX_HISTORY then h[|h| - MAX_HISTORY..] else h
  }

  function HistoryOf<T>(sessions: map<Sid, seq<T>>, sid: Sid): seq<T> {
    if sid in sessions then sessions[sid] else []
  }

  // ---- The map predictor ----

  datatype MapState = MapState(
    sessions: map<Sid, seq<Pattern>>, transitions: map<Pattern, map<Pattern, nat>>, totals: map<Pattern, nat>)

  function CountIn(ts: map<Pattern, map<Pattern, nat>>, a: Pattern, b: Pattern): nat {
    if a in ts && b in ts[a] then ts[a][b] else 0
  }

  function TotalIn(totals: map<Pattern, nat>, a: Pattern): nat {
    if a in totals then totals[a] else 0
  }

  /** The counts after one more transition from a to b. */
  function Counted(ts: map<Pattern, map<Pattern, nat>>, a: Pattern, b: Pattern): map<Pattern, map<Pattern, nat>> {
    var row := if a in ts then ts[a] else map[];
    ts[a := row[b := CountIn(ts, a, b) + 1]]
  }

  function Transition(m: MapState, a: Pattern, b: Pattern): MapState {
    m.(transitions := Counted(m.transitions, a, b), totals := m.totals[a := TotalIn(m.totals, a) + 1])
  }

  /** victim is the session dropped to make room, if any. */
  function RecordMap(m: MapState, sid: Sid, p: Pattern, victim: Option<Sid>): MapState {
    var hist := HistoryOf(m.sessions, sid);
    var m' := if hist != [] then Transition(m, LastOf(hist), p) else m;
    var kept := if victim.Some? then m'.sessions - {victim.value} else m'.sessions;
    m'.(sessions := kept[sid := Extend(hist, p)])
  }

  /** A session is dropped exactly when a new one arrives and the limit is reached. */
  predicate Evicts<T>(sessions: map<Sid, seq<T>>, crowd: set<Sid>, limit: nat, sid: Sid, victim: Option<Sid>) {
    if HistoryOf(sessions, sid) == [] && |crowd| >= limit then victim.Some? && victim.value in crowd else victim == None
  }

  function ResetMap(m: MapState, sid: Sid): MapState {
    m.(sessions := m.sessions - {sid})
  }

  // ---- The dense predictor ----

  datatype DenseState = DenseState(
    reverse: seq<Pattern>, maxRoutes: nat, matrix: seq<nat>, totals: seq<nat>, sessions: map<Sid, seq<nat>>)

  /** The id of a registered pattern: its place in the reverse table. */
  function IdOf(reverse: seq<Pattern>, p: Pattern): Option<nat> {
    if reverse == [] then None
    else if LastOf(reverse) == p then Some(|reverse| - 1)
    else IdOf(reverse[..|reverse| - 1], p)
  }

  /** GetOrRegister: at capacity a new pattern gets no id and the table is unchanged. */
  function Register(reverse: seq<Pattern>, p: Pattern): (r: (seq<Pattern>, Option<nat>)) {
    var id := IdOf(reverse, p);
    if id.Some? then (reverse, id)
    else if |reverse| >= MAX_INDEXED_ROUTES then (reverse, None)
    else (reverse + [p], Some(|reverse|))
  }

  function Sum(s: seq<nat>): nat {
    if s == [] then 0 else s[0] + Sum(s[1..])
  }

  function Halves(s: seq<nat>): (r: seq<nat>)
    ensures |r| == |s| && forall i :: 0 <= i < |s| ==> r[i] == s[i] / 2
  {
    seq(|s|, i requires 0 <= i < |s| => s[i] / 2)
  }

  lemma {:induction false} MulLe(x: nat, y: nat, n: nat)
    requires x <= y
    ensures x * n <= y * n
    decreases y - x
  {
    if x < y {
      MulLe(x, y - 1, n);
      MulStep(y - 1, n);
    }
  }

  lemma MulStep(x: nat, n: nat)
    ensures (x + 1) * n == x * n + n
  {
  }

  /** Row and column indices stay within the flat matrix. */
  lemma InMatrix(n: nat, a: nat, b: nat)
    requires a < n && b < n
    ensures 0 <= a * n && a * n + b < a * n + n <= n * n
  {
    MulLe(a + 1, n, n);
    MulStep(a, n);
    MulLe(0, a, n);
  }

  predicate Sized(d: DenseState) {
    |d.matrix| == d.maxRoutes * d.maxRoutes && |d.totals| == d.maxRoutes
  }

  function Row(matrix: seq<nat>, n: nat, a: nat): (row: seq<nat>)
    requires |matrix| == n * n && a < n
    ensures |row| == n
  {
    InMatrix(n, a, 0);
    matrix[a * n..a * n + n]
  }

  function WithRow(matrix: seq<nat>, n: nat, a: nat, row: seq<nat>): (m: seq<nat>)
    requires |matrix| == n * n && a < n && |row| == n
    ensures |m| == n * n
  {
    InMatrix(n, a, 0);
    matrix[..a * n] + row + matrix[a * n + n..]
  }

  /** One transition: the cell and the row total go up, and a saturated row is halved. */
  function Bump(d: DenseState, a: nat, b: nat): (d': DenseState)
    requires Sized(d) && a < d.maxRoutes && b < d.maxRoutes
    ensures Sized(d')
  {
    var n := d.maxRoutes;
    var row := Row(d.matrix, n, a);
    var row' := row[b := (row[b] + 1) % U32];
    var tot := (d.totals[a] + 1) % U32;
    if tot >= SATURATION then
      d.(matrix := WithRow(d.matrix, n, a, Halves(row')), totals := d.totals[a := Sum(Halves(row')) % U32])
    else
      d.(matrix := WithRow(d.matrix, n, a, row'), totals := d.totals[a := tot])
  }

  /** The session history grows by one step, in place of a dropped session if need be. */
  function Remember(d: DenseState, sid: Sid, id: nat, victim: Option<Sid>): DenseState {
    var kept := if victim.Some? then d.sessions - {victim.value} else d.sessions;
    d.(sessions := kept[sid := Extend<nat>(HistoryOf<nat>(d.sessions, sid), id)])
  }

  function RecordDense(d: DenseState, sid: Sid, p: Pattern, victim: Option<Sid>): (d': DenseState)
    requires Sized(d)
    ensures Sized(d')
  {
    var (reverse, id) := Register(d.reverse, p);
    var d1 := d.(reverse := reverse);
    if id.None? || id.value >= d.maxRoutes then d1
    else
      var hist := HistoryOf(d.sessions, sid);
      var d2 := Remember(d1, sid, id.value, victim);
      if hist != [] && LastOf(hist) < d.maxRoutes then Bump(d2, LastOf(hist), id.value) else d2
  }

  function ResetDense(d: DenseState, sid: Sid): DenseState {
    d.(sessions := d.sessions - {sid})
  }

  function NewDense(maxRoutes: nat): (d: DenseState)
    ensures Sized(d)
  {
    DenseState([], maxRoutes, seq(maxRoutes * maxRoutes, _ => 0), seq(maxRoutes, _ => 0), map[])
  }

  const NEW_MAP := MapState(map[], map[], map[])

  // ---- Rows of the matrix ----

  lemma RowOfWithRow(matrix: seq<nat>, n: nat, a: nat, row: seq<nat>, r: nat)
    requires |matrix| == n * n && a < n && |row| == n && r < n
    ensures Row(WithRow(matrix, n, a, row), n, r) == if r == a then row else Row(matrix, n, r)
  {
    InMatrix(n, a, 0);
    InMatrix(n, r, 0);
    var m := WithRow(matrix, n, a, row);
    if r < a {
      MulLe(r + 1, a, n);
      MulStep(r, n);
      assert m[r * n..r * n + n] == matrix[r * n..r * n + n];
    } else if a < r {
      MulLe(a + 1, r, n);
      MulStep(a, n);
      assert m[r * n..r * n + n] == matrix[r * n..r * n + n];
    } else {
      assert m[a * n..a * n + n] == row;
    }
  }

  lemma {:induction false} SumUpdate(s: seq<nat>, i: nat, v: nat)
    requires i < |s|
    ensures Sum(s[i := v]) == Sum(s) - s[i] + v
    decreases i
  {
    if i == 0 {
      assert s[0 := v][1..] == s[1..];
    } else {
      SumUpdate(s[1..], i - 1, v);
      assert s[i := v][1..] == s[1..][i - 1 := v];
    }
  }

  lemma {:induction false} SumAppend(s: seq<nat>, x: nat)
    ensures Sum(s + [x]) == Sum(s) + x
  {
    if s == [] {
      assert s + [x] == [x];
    } else {
      SumAppend(s[1..], x);
      assert (s + [x])[1..] == s[1..] + [x];
    }
  }

  lemma {:induction false} SumPrefix(s: seq<nat>, i: nat)
    requires i <= |s|
    ensures Sum(s[..i]) <= Sum(s)
    decreases |s|
  {
    if i > 0 {
      SumPrefix(s[1..], i - 1);
      assert s[..i][1..] == s[1..][..i - 1];
    }
  }

  lemma {:induction false} AtMostSum(s: seq<nat>, i: nat)
    requires i < |s|
    ensures s[i] <= Sum(s)
    decreases i
  {
    if i > 0 {
      AtMostSum(s[1..], i - 1);
    }
  }

  lemma {:induction false} AllZero(s: seq<nat>)
    requires forall i :: 0 <= i < |s| ==> s[i] == 0
    ensures Sum(s) == 0
  {
    if s != [] {
      AllZero(s[1..]);
    }
  }
}
