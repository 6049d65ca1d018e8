/** A recorder that no other interrupts: the steps of RescaleMachine then do what Record does to a row. */
module RescaleAlone {
  import opened Bytes
  import opened Predictors
  import opened RescaleMachine
  import C = PredictorClasses

  /** n steps of the same caller. */
  function Again(t: nat, n: nat): (ts: seq<nat>)
    ensures |ts| == n && forall i :: 0 <= i < n ==> ts[i] == t
  {
    seq(n, _ => t)
  }

  lemma OneMore(s: State, t: nat, n: nat, s1: State)
    requires Shaped(s) && Run(s, Again(t, n)) == Some(s1)
    ensures Run(s, Again(t, n + 1)) == Step(s1, t)
  {
    hide Step;
    assert Again(t, n + 1)[..n] == Again(t, n);
  }

  /** The row of the caller, and where it stands. */
  function At(s: State, t: nat, cells: seq<nat>, total: nat, pc: PC): State
    requires t < |s.callers|
  {
    State(cells, total, s.callers[t := s.callers[t].(pc := pc)])
  }

  lemma StepAt(s: State, t: nat, cells: seq<nat>, total: nat, pc: PC)
    requires Shaped(s) && t < |s.callers| && |cells| == |s.cells|
    ensures Shaped(At(s, t, cells, total, pc))
    ensures var b := s.callers[t].to; Step(At(s, t, cells, total, pc), t) == match pc
      case Adding => Some(At(s, t, cells[b := (cells[b] + 1) % U32], total, Between))
      case Between =>
        Some(At(s, t, cells, (total + 1) % U32, if (total + 1) % U32 >= SATURATION then Loading(0, 0) else Finished))
      case Loading(i, acc) =>
        if i < |cells| then Some(At(s, t, cells, total, Storing(i, acc, cells[i] / 2)))
        else Some(At(s, t, cells, acc, Finished))
      case Storing(i, acc, half) =>
        if i < |cells| then Some(At(s, t, cells[i := half], total, Loading(i + 1, (acc + half) % U32))) else None
      case Finished => None
  {
    var a := At(s, t, cells, total, pc);
    assert forall p :: a.callers[t := a.callers[t].(pc := p)] == s.callers[t := s.callers[t].(pc := p)];
  }

  /** The first i cells are halved, and their new sum is counted. */
  lemma {:induction false} Halved(s: State, t: nat, n: nat, row: seq<nat>, total: nat, i: nat)
    requires Shaped(s) && t < |s.callers| && |row| == |s.cells| && i <= |row| && Sum(row) < U32
    requires Run(s, Again(t, n)) == Some(At(s, t, row, total, Loading(0, 0)))
    ensures Run(s, Again(t, n + 2 * i)) ==
      Some(At(s, t, C.HalfDone(row, i), total, Loading(i, Sum(Halves(row)[..i]))))
    decreases i
  {
    hide Step, Run, At, Sum, Halves, C.HalfDone;
    if i == 0 {
      HalfNone(row);
    } else {
      Halved(s, t, n, row, total, i - 1);
      var done, acc, half := C.HalfDone(row, i - 1), Sum(Halves(row)[..i - 1]), row[i - 1] / 2;
      HalfNext(row, i - 1);
      StepAt(s, t, done, total, Loading(i - 1, acc));
      OneMore(s, t, n + 2 * (i - 1), At(s, t, done, total, Loading(i - 1, acc)));
      StepAt(s, t, done, total, Storing(i - 1, acc, half));
      OneMore(s, t, n + 2 * (i - 1) + 1, At(s, t, done, total, Storing(i - 1, acc, half)));
      assert n + 2 * (i - 1) + 1 + 1 == n + 2 * i;
    }
  }

  lemma HalfNone(row: seq<nat>)
    ensures C.HalfDone(row, 0) == row && Sum(Halves(row)[..0]) == 0
  {
    assert Halves(row)[..0] == [];
  }

  lemma Swap(h: seq<nat>, row: seq<nat>, i: nat)
    requires i < |row| == |h|
    ensures (h[..i] + row[i..])[i] == row[i]
    ensures (h[..i] + row[i..])[i := h[i]] == h[..i + 1] + row[i + 1..]
  {
  }

  lemma HalfWrite(row: seq<nat>, i: nat)
    requires i < |row|
    ensures C.HalfDone(row, i)[i] == row[i] && C.HalfDone(row, i)[i := row[i] / 2] == C.HalfDone(row, i + 1)
  {
    Swap(Halves(row), row, i);
    var half := row[i] / 2;
    assert Halves(row)[i] == half;
    hide Halves;
  }

  lemma HalfNext(row: seq<nat>, i: nat)
    requires i < |row| && Sum(row) < U32
    ensures C.HalfDone(row, i)[i] == row[i] && C.HalfDone(row, i)[i := row[i] / 2] == C.HalfDone(row, i + 1)
    ensures (Sum(Halves(row)[..i]) + row[i] / 2) % U32 == Sum(Halves(row)[..i + 1])
  {
    hide Sum, Halves, C.HalfDone;
    C.HalfSum(row, i);
    HalfWrite(row, i);
  }

  /** The two adds. */
  lemma Counts(s: State, t: nat, row: seq<nat>)
    requires Shaped(s) && t < |s.callers| && s.callers[t].pc.Adding? && Sum(s.cells) == s.total < 0x7FFF_FFFF
    requires row == s.cells[s.callers[t].to := s.cells[s.callers[t].to] + 1]
    ensures Sum(row) == s.total + 1
    ensures Run(s, Again(t, 2)) ==
      Some(At(s, t, row, s.total + 1, if s.total + 1 >= 0x7FFF_FFFF then Loading(0, 0) else Finished))
  {
    Grown(s.cells, s.callers[t].to);
    hide *;
    CellAdded(s, t, row);
    TotalAdded(s, t, row);
  }

  lemma CellAdded(s: State, t: nat, row: seq<nat>)
    requires Shaped(s) && t < |s.callers| && s.callers[t].pc.Adding?
    requires row == s.cells[s.callers[t].to := (s.cells[s.callers[t].to] + 1) % U32]
    ensures Run(s, Again(t, 1)) == Some(At(s, t, row, s.total, Between))
  {
    Begins(s, t);
    var b := s.callers[t].to;
    assert b < |s.cells|;
    hide *;
    StepAt(s, t, s.cells, s.total, Adding);
    assert Step(s, t) == Some(At(s, t, row, s.total, Between));
    OneMore(s, t, 0, s);
  }

  lemma TotalAdded(s: State, t: nat, row: seq<nat>)
    requires Shaped(s) && t < |s.callers| && |row| == |s.cells| && s.total < 0x7FFF_FFFF
    requires Run(s, Again(t, 1)) == Some(At(s, t, row, s.total, Between))
    ensures Run(s, Again(t, 2)) ==
      Some(At(s, t, row, s.total + 1, if s.total + 1 >= 0x7FFF_FFFF then Loading(0, 0) else Finished))
  {
    hide Again, Run, Step, At, Shaped;
    StepAt(s, t, row, s.total, Between);
    OneMore(s, t, 1, At(s, t, row, s.total, Between));
  }

  /** One more in a cell is one more in the sum, and fits 32 bits. */
  lemma Grown(cells: seq<nat>, b: nat)
    requires b < |cells| && Sum(cells) < 0x7FFF_FFFF
    ensures (cells[b] + 1) % U32 == cells[b] + 1 && Sum(cells[b := cells[b] + 1]) == Sum(cells) + 1
  {
    AtMostSum(cells, b);
    SumUpdate(cells, b, cells[b] + 1);
  }

  /** And the rescaling behind them. */
  lemma Rescales(s: State, t: nat, n: nat, row: seq<nat>, total: nat)
    requires Shaped(s) && t < |s.callers| && |row| == |s.cells| && Sum(row) < U32
    requires Run(s, Again(t, n)) == Some(At(s, t, row, total, Loading(0, 0)))
    ensures Run(s, Again(t, n + 2 * |row| + 1)) == Some(At(s, t, Halves(row), Sum(Halves(row)), Finished))
  {
    hide Step, Run, At, Sum, C.HalfDone, Again;
    Halved(s, t, n, row, total, |row|);
    C.RescaleEnd(row);
    StepAt(s, t, Halves(row), total, Loading(|row|, Sum(Halves(row))));
    OneMore(s, t, n + 2 * |row|, At(s, t, Halves(row), total, Loading(|row|, Sum(Halves(row)))));
  }

  /**
   A recorder alone adds one to its cell and one to the total; if the total then reaches 0x7FFFFFFF, it halves every
   cell of the row, and leaves their new sum as the total.
   */
  lemma RecordAlone(s: State, t: nat, row: seq<nat>, half: seq<nat>)
    requires Shaped(s) && t < |s.callers| && s.callers[t].pc.Adding? && Sum(s.cells) == s.total < 0x7FFF_FFFF
    requires row == s.cells[s.callers[t].to := s.cells[s.callers[t].to] + 1]
    requires |half| == |row| && forall i :: 0 <= i < |row| ==> half[i] == row[i] / 2
    ensures s.total + 1 < 0x7FFF_FFFF ==> Run(s, Again(t, 2)) == Some(At(s, t, row, s.total + 1, Finished))
    ensures s.total + 1 >= 0x7FFF_FFFF ==> Run(s, Again(t, 2 * |row| + 3)) == Some(At(s, t, half, Sum(half), Finished))
  {
    assert Sum(row) < U32 by { Counts(s, t, row); }
    assert half == Halves(row);
    hide *;
    Counts(s, t, row);
    if s.total + 1 >= 0x7FFF_FFFF {
      Rescales(s, t, 2, row, s.total + 1);
      assert 2 + 2 * |row| + 1 == 2 * |row| + 3;
    }
  }

  lemma Begins(s: State, t: nat)
    requires Shaped(s) && t < |s.callers| && s.callers[t].pc.Adding?
    ensures Run(s, Again(t, 0)) == Some(s) && At(s, t, s.cells, s.total, Adding) == s
  {
    assert Again(t, 0) == [];
  }
}
