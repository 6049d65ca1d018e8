/**
 The lock-free counters under concurrency: each recorder adds to its cell, then to the row total,
 in two separate atomic steps; any number of recorders are interleaved.
 */
module CounterMachine {
  import opened Bytes
  import opened Predictors

  /** A recorder that saturates the total goes on to rescale the row. */
  datatype PC = Adding | Between | Finished | Rescaling

  datatype Recorder = Recorder(from: nat, to: nat, pc: PC)

  datatype State = State(n: nat, matrix: seq<nat>, totals: seq<nat>, recorders: seq<Recorder>)

  predicate Shaped(s: State) {
    && |s.matrix| == s.n * s.n && |s.totals| == s.n
    && forall t :: 0 <= t < |s.recorders| ==> s.recorders[t].from < s.n && s.recorders[t].to < s.n
  }

  function AddToCell(matrix: seq<nat>, n: nat, a: nat, b: nat): (m: seq<nat>)
    requires |matrix| == n * n && a < n && b < n
    ensures |m| == n * n
  {
    var row := Row(matrix, n, a);
    WithRow(matrix, n, a, row[b := (row[b] + 1) % U32])
  }

  /** The next atomic add of recorder t. */
  function Step(s: State, t: nat): (r: Option<State>)
    requires Shaped(s) && t < |s.recorders|
    ensures r.Some? ==> Shaped(r.value) && r.value.n == s.n && |r.value.recorders| == |s.recorders|
  {
    var r := s.recorders[t];
    match r.pc
    case Adding =>
      Some(s.(matrix := AddToCell(s.matrix, s.n, r.from, r.to), recorders := s.recorders[t := r.(pc := Between)]))
    case Between =>
      var tot := (s.totals[r.from] + 1) % U32;
      Some(s.(totals := s.totals[r.from := tot],
              recorders := s.recorders[t := r.(pc := if tot >= SATURATION then Rescaling else Finished)]))
    case _ => None
  }

  function Run(s: State, ts: seq<nat>): (r: Option<State>)
    requires Shaped(s)
    ensures r.Some? ==> Shaped(r.value) && r.value.n == s.n && |r.value.recorders| == |s.recorders|
  {
    if ts == [] then Some(s)
    else match Run(s, ts[..|ts| - 1])
      case None => None
      case Some(s') => if ts[|ts| - 1] < |s'.recorders| then Step(s', ts[|ts| - 1]) else None
  }

  // ---- Counting recorders ----

  datatype Kind =
    | InRow(row: nat) | BetweenIn(row: nat) | OpenIn(row: nat)
    | InCell(a: nat, b: nat) | AddingAt(a: nat, b: nat)

  predicate Is(k: Kind, r: Recorder) {
    match k
    case InRow(a) => r.from == a
    case BetweenIn(a) => r.from == a && r.pc == Between
    case OpenIn(a) => r.from == a && (r.pc == Adding || r.pc == Between)
    case InCell(a, b) => r.from == a && r.to == b
    case AddingAt(a, b) => r.from == a && r.to == b && r.pc == Adding
  }

  function One(k: Kind, r: Recorder): nat {
    if Is(k, r) then 1 else 0
  }

  function Count(rs: seq<Recorder>, k: Kind): (c: nat)
    ensures c <= |rs|
  {
    if rs == [] then 0 else One(k, rs[0]) + Count(rs[1..], k)
  }

  lemma {:induction false} CountUpdate(rs: seq<Recorder>, t: nat, r: Recorder, k: Kind)
    requires t < |rs|
    ensures Count(rs[t := r], k) == Count(rs, k) - One(k, rs[t]) + One(k, r)
    decreases t
  {
    hide One;
    if t == 0 {
      assert rs[0 := r][1..] == rs[1..];
    } else {
      assert rs[t := r][1..] == rs[1..][t - 1 := r];
      CountUpdate(rs[1..], t - 1, r, k);
    }
  }

  lemma {:induction false} CountSame(rs: seq<Recorder>, k: Kind, k': Kind)
    requires forall i :: 0 <= i < |rs| ==> Is(k, rs[i]) == Is(k', rs[i])
    ensures Count(rs, k) == Count(rs, k')
    decreases |rs|
  {
    hide Is;
    if rs != [] {
      CountSame(rs[1..], k, k');
    }
  }

  lemma {:induction false} CountNone(rs: seq<Recorder>, k: Kind)
    requires forall i :: 0 <= i < |rs| ==> !Is(k, rs[i])
    ensures Count(rs, k) == 0
    decreases |rs|
  {
    hide Is;
    if rs != [] {
      CountNone(rs[1..], k);
    }
  }

  // ---- No increment is lost ----

  /** Row a of s, reached from s0: cells and total lag behind by exactly the adds still to come. */
  ghost predicate RowOk(s0: State, s: State, a: nat)
    requires Shaped(s0) && Shaped(s) && s.n == s0.n && a < s.n
  {
    var row, row0 := Row(s.matrix, s.n, a), Row(s0.matrix, s.n, a);
    && Sum(row) == s.totals[a] + Count(s.recorders, BetweenIn(a))
    && s.totals[a] + Count(s.recorders, OpenIn(a)) == s0.totals[a] + Count(s0.recorders, InRow(a))
    && Count(s.recorders, InRow(a)) == Count(s0.recorders, InRow(a))
    && forall b :: 0 <= b < s.n ==>
         row[b] + Count(s.recorders, AddingAt(a, b)) == row0[b] + Count(s0.recorders, InCell(a, b))
  }

  ghost predicate Inv(s0: State, s: State)
    requires Shaped(s0) && Shaped(s) && s.n == s0.n
  {
    && (forall a :: 0 <= a < s.n ==> RowOk(s0, s, a))
    && forall t :: 0 <= t < |s.recorders| ==> !s.recorders[t].pc.Rescaling?
  }

  lemma {:induction false} BetweenOpen(rs: seq<Recorder>, a: nat)
    ensures Count(rs, BetweenIn(a)) <= Count(rs, OpenIn(a))
    decreases |rs|
  {
    if rs != [] {
      BetweenOpen(rs[1..], a);
    }
  }

  /** Every recorder about to start, on rows that their own recorders cannot saturate. */
  ghost predicate Ready(s: State) {
    && Shaped(s)
    && (forall t :: 0 <= t < |s.recorders| ==> s.recorders[t].pc == Adding)
    && forall a :: 0 <= a < s.n ==>
         Sum(Row(s.matrix, s.n, a)) == s.totals[a] && s.totals[a] + Count(s.recorders, InRow(a)) < SATURATION
  }

  /** One add changes one cell of one row, by one. */
  lemma AddedRow(matrix: seq<nat>, n: nat, a: nat, b: nat, x: nat)
    requires |matrix| == n * n && a < n && b < n && x < n && Sum(Row(matrix, n, a)) + 1 < U32
    ensures var row := Row(matrix, n, x);
      Row(AddToCell(matrix, n, a, b), n, x) == if x == a then row[b := row[b] + 1] else row
    ensures Sum(Row(AddToCell(matrix, n, a, b), n, x)) == Sum(Row(matrix, n, x)) + if x == a then 1 else 0
  {
    var row := Row(matrix, n, a);
    AtMostSum(row, b);
    SumUpdate(row, b, row[b] + 1);
    RowOfWithRow(matrix, n, a, row[b := (row[b] + 1) % U32], x);
    hide Row, WithRow, Sum;
  }

  lemma AddingCounts(rs: seq<Recorder>, t: nat, a: nat, b: nat)
    requires t < |rs| && rs[t].pc == Adding
    ensures var rs' := rs[t := rs[t].(pc := Between)]; var here := if a == rs[t].from then 1 else 0;
      && Count(rs', BetweenIn(a)) == Count(rs, BetweenIn(a)) + here
      && Count(rs', OpenIn(a)) == Count(rs, OpenIn(a)) && Count(rs', InRow(a)) == Count(rs, InRow(a))
      && Count(rs', AddingAt(a, b)) == Count(rs, AddingAt(a, b)) - if b == rs[t].to then here else 0
  {
    hide Count;
    var r' := rs[t].(pc := Between);
    CountUpdate(rs, t, r', BetweenIn(a));
    CountUpdate(rs, t, r', OpenIn(a));
    CountUpdate(rs, t, r', InRow(a));
    CountUpdate(rs, t, r', AddingAt(a, b));
  }

  lemma AddingKeeps(s0: State, s: State, t: nat, a: nat)
    requires Shaped(s0) && Shaped(s) && s.n == s0.n && a < s.n && t < |s.recorders|
    requires RowOk(s0, s, a) && RowOk(s0, s, s.recorders[t].from) && s.recorders[t].pc == Adding
    requires var from := s.recorders[t].from; s.totals[from] + Count(s.recorders, OpenIn(from)) < SATURATION
    ensures RowOk(s0, Step(s, t).value, a)
  {
    hide Count, Row, Sum, AddToCell, Is, One;
    var r := s.recorders[t];
    BetweenOpen(s.recorders, r.from);
    AddedRow(s.matrix, s.n, r.from, r.to, a);
    AddingCounts(s.recorders, t, a, 0);
    forall b | 0 <= b < s.n
      ensures Count(s.recorders[t := r.(pc := Between)], AddingAt(a, b)) ==
              Count(s.recorders, AddingAt(a, b)) - if a == r.from && b == r.to then 1 else 0
    {
      AddingCounts(s.recorders, t, a, b);
    }
  }

  lemma BetweenCounts(rs: seq<Recorder>, t: nat, a: nat, b: nat)
    requires t < |rs| && rs[t].pc == Between
    ensures var rs' := rs[t := rs[t].(pc := Finished)]; var here := if a == rs[t].from then 1 else 0;
      && Count(rs', BetweenIn(a)) == Count(rs, BetweenIn(a)) - here
      && Count(rs', OpenIn(a)) == Count(rs, OpenIn(a)) - here && Count(rs', InRow(a)) == Count(rs, InRow(a))
      && Count(rs', AddingAt(a, b)) == Count(rs, AddingAt(a, b))
  {
    hide Count;
    var r' := rs[t].(pc := Finished);
    CountUpdate(rs, t, r', BetweenIn(a));
    CountUpdate(rs, t, r', OpenIn(a));
    CountUpdate(rs, t, r', InRow(a));
    CountUpdate(rs, t, r', AddingAt(a, b));
  }

  lemma BetweenKeeps(s0: State, s: State, t: nat, a: nat)
    requires Shaped(s0) && Shaped(s) && s.n == s0.n && a < s.n && t < |s.recorders|
    requires RowOk(s0, s, a) && s.recorders[t].pc == Between && s.totals[s.recorders[t].from] + 1 < SATURATION
    ensures RowOk(s0, Step(s, t).value, a)
  {
    hide Count, Row, Sum, AddToCell, Is, One;
    BetweenCounts(s.recorders, t, a, 0);
    forall b | 0 <= b < s.n
      ensures Count(s.recorders[t := s.recorders[t].(pc := Finished)], AddingAt(a, b)) ==
              Count(s.recorders, AddingAt(a, b))
    {
      BetweenCounts(s.recorders, t, a, b);
    }
  }

  /** A recorder that has not finished leaves room for its add below saturation. */
  lemma RoomLeft(s0: State, s: State, t: nat)
    requires Ready(s0) && Shaped(s) && s.n == s0.n && |s.recorders| == |s0.recorders| && t < |s.recorders|
    requires s.recorders[t].pc == Adding || s.recorders[t].pc == Between
    requires RowOk(s0, s, s.recorders[t].from)
    ensures s.totals[s.recorders[t].from] + 1 < SATURATION
    ensures var from := s.recorders[t].from; s.totals[from] + Count(s.recorders, OpenIn(from)) < SATURATION
  {
    var r := s.recorders[t];
    CountUpdate(s.recorders, t, r.(pc := Finished), OpenIn(r.from));
    hide Count, Row, Sum;
  }

  lemma StepKeeps(s0: State, s: State, t: nat)
    requires Ready(s0) && Shaped(s) && s.n == s0.n && |s.recorders| == |s0.recorders| && t < |s.recorders|
    requires Inv(s0, s) && Step(s, t).Some?
    ensures Inv(s0, Step(s, t).value)
  {
    var s' := Step(s, t).value;
    RoomLeft(s0, s, t);
    forall a | 0 <= a < s.n
      ensures RowOk(s0, s', a)
    {
      if s.recorders[t].pc == Adding {
        AddingKeeps(s0, s, t, a);
      } else {
        BetweenKeeps(s0, s, t, a);
      }
    }
    hide RowOk, AddToCell;
  }

  lemma StartInv(s: State)
    requires Ready(s)
    ensures Inv(s, s)
  {
    forall a | 0 <= a < s.n
      ensures RowOk(s, s, a)
    {
      CountNone(s.recorders, BetweenIn(a));
      CountSame(s.recorders, OpenIn(a), InRow(a));
      forall b | 0 <= b < s.n
        ensures Count(s.recorders, AddingAt(a, b)) == Count(s.recorders, InCell(a, b))
      {
        CountSame(s.recorders, AddingAt(a, b), InCell(a, b));
      }
    }
  }

  /**
   Over every interleaving of two-step recorders that cannot saturate a row: the row sum is the row
   total plus the recorders between their two adds, and no one rescales.
   */
  lemma {:induction false} RunKeeps(s: State, ts: seq<nat>)
    requires Ready(s) && Run(s, ts).Some?
    ensures Inv(s, Run(s, ts).value)
    decreases |ts|
  {
    if ts == [] {
      StartInv(s);
    } else {
      RunKeeps(s, ts[..|ts| - 1]);
      StepKeeps(s, Run(s, ts[..|ts| - 1]).value, ts[|ts| - 1]);
    }
  }

  /** A recorder goes on to rescale exactly when its add brings the total to 0x7FFFFFFF or beyond. */
  lemma RescalesIff(s: State, t: nat)
    requires Shaped(s) && t < |s.recorders| && s.recorders[t].pc == Between
    requires s.totals[s.recorders[t].from] + 1 < 0x1_0000_0000
    ensures Step(s, t).Some?
    ensures var r, s' := s.recorders[t], Step(s, t).value;
      && s'.totals == s.totals[r.from := s.totals[r.from] + 1] && s'.matrix == s.matrix
      && s'.recorders[t].pc == if s.totals[r.from] + 1 >= 0x7FFF_FFFF then Rescaling else Finished
  {
  }

  lemma SumIsTotalPlusBetween(s: State, ts: seq<nat>, s': State, a: nat)
    requires Ready(s) && Run(s, ts) == Some(s') && a < s.n
    ensures Sum(Row(s'.matrix, s'.n, a)) == s'.totals[a] + Count(s'.recorders, BetweenIn(a))
    ensures s'.totals[a] < SATURATION && forall t :: 0 <= t < |s'.recorders| ==> s'.recorders[t].pc != Rescaling
  {
    RunKeeps(s, ts);
    assert RowOk(s, s', a);
    hide Row, Sum, Run;
  }

  /** Once every recorder is done, no increment was lost, whatever the interleaving was. */
  lemma NothingLost(s: State, ts: seq<nat>, s': State, a: nat, b: nat)
    requires Ready(s) && Run(s, ts) == Some(s') && a < s.n && b < s.n
    requires forall t :: 0 <= t < |s'.recorders| ==> s'.recorders[t].pc == Finished
    ensures Row(s'.matrix, s'.n, a)[b] == Row(s.matrix, s.n, a)[b] + Count(s.recorders, InCell(a, b))
    ensures s'.totals[a] == s.totals[a] + Count(s.recorders, InRow(a)) == Sum(Row(s'.matrix, s'.n, a))
  {
    RunKeeps(s, ts);
    assert RowOk(s, s', a);
    NoneOpen(s'.recorders, a, b);
    hide Row, Sum, Run, Count, Inv, Ready;
  }

  lemma NoneOpen(rs: seq<Recorder>, a: nat, b: nat)
    requires forall t :: 0 <= t < |rs| ==> rs[t].pc == Finished
    ensures Count(rs, BetweenIn(a)) == Count(rs, OpenIn(a)) == Count(rs, AddingAt(a, b)) == 0
  {
    CountNone(rs, BetweenIn(a));
    CountNone(rs, OpenIn(a));
    CountNone(rs, AddingAt(a, b));
  }
}
