/**
 What rescaling does to the total of a row when recorders and other rescalers race with it: exact
 accounts of the total against the sum, for a rescaling alone and for any that overlap.
 */
module RescaleDrift {
  import opened Bytes
  import opened Predictors
  import opened RescaleMachine

  // ---- What one rescaling leaves, with recorders in between ----

  /** Caller t rescales, and no one else does. */
  predicate Alone(s: State, t: nat) {
    && t < |s.callers| && Rescaling(s.callers[t].pc)
    && forall u :: 0 <= u < |s.callers| && u != t ==> !Rescaling(s.callers[u].pc)
  }

  predicate Solo(s: State, t: nat, ts: seq<nat>)
    requires Shaped(s)
  {
    && Run(s, ts).Some?
    && forall i :: 0 <= i <= |ts| ==> Run(s, ts[..i]).Some? && Alone(Run(s, ts[..i]).value, t)
  }

  /** Caller u, if it adds to a cell that t has yet to halve. */
  function LateNow(s: State, t: nat, u: nat): set<nat> {
    if u < |s.callers| && t < |s.callers| && s.callers[u].pc.Adding? && s.callers[u].to >= Column(s.callers[t].pc)
    then {u} else {}
  }

  /** The recorders whose cell was halved after they added to it and before they add to the total. */
  function Late(s: State, t: nat, ts: seq<nat>): set<nat>
    requires Shaped(s)
  {
    if ts == [] then Betweens(s.callers)
    else match Run(s, ts[..|ts| - 1])
      case None => {}
      case Some(s') => Late(s, t, ts[..|ts| - 1]) + LateNow(s', t, ts[|ts| - 1])
  }

  /** The halved cells are accounted for: acc lacks those who added behind the rescaler. */
  predicate Accounted(s: State, t: nat, late: set<nat>)
    requires t < |s.callers|
  {
    match s.callers[t].pc
    case Loading(i, acc) => i <= |s.cells| && Sum(s.cells[..i]) + |late| == acc + |Betweens(s.callers)|
    case Storing(i, acc, half) =>
      && i < |s.cells| && half <= s.cells[i]
      && Sum(s.cells[..i]) + |late| == acc + |Betweens(s.callers)|
    case _ => false
  }

  predicate SoloInv(s: State, t: nat, late: set<nat>) {
    Shaped(s) && Alone(s, t) && SATURATION <= s.total && late <= Betweens(s.callers) && Accounted(s, t, late)
  }

  /** While one rescales, every add to the total starts another rescaling, so alone it sees none. */
  lemma OnlyCellAdds(limits: seq<nat>, s: State, t: nat, u: nat)
    requires Within(limits, s) && SATURATION <= s.total
    requires Step(s, u).Some? && u != t && Alone(s, t) && Alone(Step(s, u).value, t)
    ensures s.callers[u].pc.Adding?
  {
    NoneWraps(limits, s, u);
    assert !Rescaling(s.callers[u].pc);
    assert !Rescaling(Step(s, u).value.callers[u].pc);
    hide Within;
  }

  lemma PrefixAdd(cells: seq<nat>, b: nat, i: nat)
    requires b < |cells| && i <= |cells|
    ensures Sum(cells[b := cells[b] + 1][..i]) == Sum(cells[..i]) + if b < i then 1 else 0
  {
    if b < i {
      assert cells[b := cells[b] + 1][..i] == cells[..i][b := cells[b] + 1];
      SumUpdate(cells[..i], b, cells[b] + 1);
    } else {
      assert cells[b := cells[b] + 1][..i] == cells[..i];
    }
  }

  lemma AddIs(limits: seq<nat>, s: State, u: nat)
    requires Within(limits, s) && u < |s.callers| && s.callers[u].pc.Adding?
    ensures var c := s.callers[u];
      Step(s, u) == Some(State(s.cells[c.to := s.cells[c.to] + 1], s.total, s.callers[u := c.(pc := Between)]))
  {
    NoneWraps(limits, s, u);
    hide Within;
  }

  lemma AddBalance(s: State, t: nat, u: nat, late: set<nat>, s': State)
    requires Shaped(s) && t < |s.callers| && u < |s.callers| && u != t && s.callers[u].pc.Adding?
    requires var c := s.callers[u];
      s' == State(s.cells[c.to := s.cells[c.to] + 1], s.total, s.callers[u := c.(pc := Between)])
    requires Accounted(s, t, late) && u !in late
    ensures Accounted(s', t, late + LateNow(s, t, u))
  {
    BetweenGrows(s.callers, u);
    LateGrows(late, u);
    PrefixAdd(s.cells, s.callers[u].to, Column(s.callers[t].pc));
    hide Sum, Betweens;
  }

  lemma AddAccounted(limits: seq<nat>, s: State, t: nat, u: nat, late: set<nat>)
    requires Within(limits, s) && SoloInv(s, t, late) && u < |s.callers| && u != t && s.callers[u].pc.Adding?
    ensures SoloInv(Step(s, u).value, t, late + LateNow(s, t, u))
  {
    AddIs(limits, s, u);
    BetweenGrows(s.callers, u);
    hide Within, Step, Accounted, Betweens;
    AddBalance(s, t, u, late, Step(s, u).value);
  }

  lemma LateGrows(late: set<nat>, u: nat)
    ensures u !in late ==> |late + {u}| == |late| + 1
    ensures late + {} == late
  {
  }

  lemma BetweenGrows(cs: seq<Caller>, u: nat)
    requires u < |cs| && cs[u].pc.Adding?
    ensures Betweens(cs[u := cs[u].(pc := Between)]) == Betweens(cs) + {u} && u !in Betweens(cs)
    ensures |Betweens(cs[u := cs[u].(pc := Between)])| == |Betweens(cs)| + 1
  {
    assert Betweens(cs[u := cs[u].(pc := Between)]) == Betweens(cs) + {u};
  }

  lemma StoreAccounted(limits: seq<nat>, s: State, t: nat, late: set<nat>)
    requires Within(limits, s) && SoloInv(s, t, late) && Column(s.callers[t].pc) < |s.cells|
    ensures SoloInv(Step(s, t).value, t, late)
  {
    var s' := Step(s, t).value;
    NoneWraps(limits, s, t);
    BetweenSame(s.callers, t, s'.callers[t]);
    var i := Column(s.callers[t].pc);
    assert s'.cells[..i] == s.cells[..i];
    if s.callers[t].pc.Storing? {
      PrefixStep(s'.cells, i);
    }
    hide Sum, AddingAt, Open, Within, Betweens;
  }

  lemma BetweenSame(cs: seq<Caller>, t: nat, c: Caller)
    requires t < |cs| && !cs[t].pc.Between? && !c.pc.Between?
    ensures Betweens(cs[t := c]) == Betweens(cs)
  {
  }

  lemma SoloStep(limits: seq<nat>, s: State, t: nat, u: nat, late: set<nat>)
    requires Within(limits, s) && SoloInv(s, t, late) && Step(s, u).Some? && Alone(Step(s, u).value, t)
    ensures SoloInv(Step(s, u).value, t, late + LateNow(s, t, u))
  {
    if u == t {
      assert LateNow(s, t, u) == {};
      assert Column(s.callers[t].pc) < |s.cells|;
      StoreAccounted(limits, s, t, late);
      assert late + {} == late;
    } else {
      OnlyCellAdds(limits, s, t, u);
      AddAccounted(limits, s, t, u, late);
    }
    hide Within, Accounted, Betweens, LateNow;
  }

  lemma {:induction false} SoloRun(limits: seq<nat>, s: State, t: nat, ts: seq<nat>)
    requires Within(limits, s) && Solo(s, t, ts) && t < |s.callers| && s.callers[t].pc == Loading(0, 0)
    requires SATURATION <= s.total
    ensures Within(limits, Run(s, ts).value)
    ensures SoloInv(Run(s, ts).value, t, Late(s, t, ts))
    decreases |ts|
  {
    assert ts[..|ts|] == ts;
    if ts == [] {
      assert s.cells[..0] == [];
      hide Within, Betweens;
      assert Alone(Run(s, ts[..0]).value, t);
    } else {
      var last := |ts| - 1;
      assert Solo(s, t, ts[..last]) by {
        forall i | 0 <= i <= last
          ensures Run(s, ts[..last][..i]).Some? && Alone(Run(s, ts[..last][..i]).value, t)
        {
          assert ts[..last][..i] == ts[..i];
        }
      }
      hide Within, SoloInv, Step, LateNow;
      SoloRun(limits, s, t, ts[..last]);
      var s1 := Run(s, ts[..last]).value;
      StepWithin(limits, s1, ts[last]);
      SoloStep(limits, s1, t, ts[last], Late(s, t, ts[..last]));
    }
  }

  /**
   A rescaling that no other one overlaps, with any number of recorders adding to cells meanwhile: the
   total it stores, and what recorders between their two adds will still add to it, exceeds the sum of
   the row by exactly those of them whose cell was halved after their add. It is exact if there are none.
   */
  lemma LoneRescale(limits: seq<nat>, s: State, t: nat, ts: seq<nat>, s1: State)
    requires Within(limits, s) && Solo(s, t, ts) && t < |s.callers| && s.callers[t].pc == Loading(0, 0)
    requires SATURATION <= s.total && Run(s, ts) == Some(s1) && Column(s1.callers[t].pc) == |s.cells|
    ensures Step(s1, t).Some? && Step(s1, t).value.callers[t].pc.Finished?
    ensures var s', late := Step(s1, t).value, Late(s, t, ts);
      && late <= Betweens(s'.callers)
      && Sum(s'.cells) + |late| == s'.total + |Betweens(s'.callers)|
      && (Sum(s'.cells) == s'.total + |Betweens(s'.callers)| <==> late == {})
  {
    SoloRun(limits, s, t, ts);
    BetweenSame(s1.callers, t, s1.callers[t].(pc := Finished));
    assert s1.cells[..|s1.cells|] == s1.cells;
    hide Sum, Within, Betweens, Late, Run;
  }

  /** Outside rescaling, what the total and the recorders in between lack to the sum stays the same. */
  lemma DriftStep(limits: seq<nat>, s: State, t: nat)
    requires Within(limits, s) && Step(s, t).Some? && !Rescaling(s.callers[t].pc)
    ensures var s' := Step(s, t).value;
      Sum(s'.cells) + s.total + |Betweens(s.callers)| == Sum(s.cells) + s'.total + |Betweens(s'.callers)|
  {
    var c := s.callers[t];
    NoneWraps(limits, s, t);
    SetsMove(s, t, Step(s, t).value, 0);
    SumUpdate(s.cells, c.to, s.cells[c.to] + 1);
    hide Within, Sum, Betweens, AddingAt, Open;
  }

  predicate NoneRescale(s: State, ts: seq<nat>)
    requires Shaped(s)
  {
    forall i :: 0 <= i < |ts| ==>
      Run(s, ts[..i]).Some? && ts[i] < |s.callers| && !Rescaling(Run(s, ts[..i]).value.callers[ts[i]].pc)
  }

  lemma {:induction false} DriftRun(limits: seq<nat>, s: State, ts: seq<nat>)
    requires Within(limits, s) && Run(s, ts).Some? && NoneRescale(s, ts)
    ensures var s' := Run(s, ts).value;
      && Within(limits, s')
      && Sum(s'.cells) + s.total + |Betweens(s.callers)| == Sum(s.cells) + s'.total + |Betweens(s'.callers)|
    decreases |ts|
  {
    assert Shaped(s);
    hide Within, Step, Sum, Betweens;
    if ts != [] {
      var last := |ts| - 1;
      forall i | 0 <= i < last
        ensures Run(s, ts[..last][..i]).Some? && ts[..last][i] < |s.callers|
        ensures !Rescaling(Run(s, ts[..last][..i]).value.callers[ts[..last][i]].pc)
      {
        assert ts[..last][..i] == ts[..i];
      }
      DriftRun(limits, s, ts[..last]);
      DriftStep(limits, Run(s, ts[..last]).value, ts[last]);
      StepWithin(limits, Run(s, ts[..last]).value, ts[last]);
    }
  }

  /** Once all recorders in between have finished, the total exceeds the sum by the number of late ones. */
  lemma DriftAfterRescale(limits: seq<nat>, s: State, t: nat, ts: seq<nat>, s1: State, more: seq<nat>, s2: State)
    requires Within(limits, s) && Solo(s, t, ts) && t < |s.callers| && s.callers[t].pc == Loading(0, 0)
    requires SATURATION <= s.total && Run(s, ts) == Some(s1) && Column(s1.callers[t].pc) == |s.cells|
    requires Shaped(s1) && Step(s1, t).Some? && NoneRescale(Step(s1, t).value, more)
    requires Run(Step(s1, t).value, more) == Some(s2) && Betweens(s2.callers) == {}
    ensures s2.total == Sum(s2.cells) + |Late(s, t, ts)|
  {
    LoneRescale(limits, s, t, ts, s1);
    SoloRun(limits, s, t, ts);
    StepWithin(limits, s1, t);
    DriftRun(limits, Step(s1, t).value, more);
    hide Within, Sum, Betweens, Late, Run, Step;
  }

  // ---- What any rescalings leave, overlapping or not ----

  /** What the next step of caller u, if it is another one, changes in the cells t has halved already. */
  function BehindNow(s: State, t: nat, u: nat): int {
    if u >= |s.callers| || t >= |s.callers| || u == t then 0 else
    match s.callers[u].pc
    case Adding => if s.callers[u].to < Column(s.callers[t].pc) then 1 else 0
    case Storing(i, _, half) => if i < Column(s.callers[t].pc) && i < |s.cells| then half - s.cells[i] else 0
    case _ => 0
  }

  /** What others changed, along the run, in the cells that t had halved: adds, and halves stored over its own. */
  function Behind(s: State, t: nat, ts: seq<nat>): int
    requires Shaped(s)
  {
    if ts == [] then 0
    else match Run(s, ts[..|ts| - 1])
      case None => 0
      case Some(s') => Behind(s, t, ts[..|ts| - 1]) + BehindNow(s', t, ts[|ts| - 1])
  }

  predicate StoresTotal(s: State, u: nat) {
    u < |s.callers| && s.callers[u].pc.Loading? && s.callers[u].pc.i >= |s.cells|
  }

  /**
   What is to be added to the sum to give the total: it changes only when a rescaler stores a total, and
   is then what recorders in between will still add, less what others changed behind that rescaler.
   */
  function Excess(s: State, ts: seq<nat>): int
    requires Shaped(s)
  {
    if ts == [] then 0
    else
      var prefix, u := ts[..|ts| - 1], ts[|ts| - 1];
      match Run(s, prefix)
      case None => 0
      case Some(s') =>
        if StoresTotal(s', u) then |Betweens(s'.callers)| - Behind(s, u, prefix) else Excess(s, prefix)
  }

  /** acc is the sum of the cells t has halved, but for what others changed in them since. */
  predicate Scanned(s: State, t: nat, behind: int)
    requires t < |s.callers|
  {
    match s.callers[t].pc
    case Loading(i, acc) => i <= |s.cells| && Sum(s.cells[..i]) == acc + behind
    case Storing(i, acc, half) => i < |s.cells| && Sum(s.cells[..i]) == acc + behind
    case Finished => true
    case _ => behind == 0
  }

  lemma PrefixStore(cells: seq<nat>, b: nat, v: nat, i: nat)
    requires b < |cells| && i <= |cells|
    ensures Sum(cells[b := v][..i]) == Sum(cells[..i]) + if b < i then v - cells[b] else 0
  {
    if b < i {
      assert cells[b := v][..i] == cells[..i][b := v];
      SumUpdate(cells[..i], b, v);
    } else {
      assert cells[b := v][..i] == cells[..i];
    }
  }

  lemma OtherScanned(limits: seq<nat>, s: State, t: nat, u: nat, behind: int)
    requires Within(limits, s) && t < |s.callers| && Scanned(s, t, behind) && Step(s, u).Some? && u != t
    ensures Scanned(Step(s, u).value, t, behind + BehindNow(s, t, u))
  {
    NoneWraps(limits, s, u);
    var c, i := s.callers[u], Column(s.callers[t].pc);
    if c.pc.Adding? && i <= |s.cells| {
      PrefixStore(s.cells, c.to, s.cells[c.to] + 1, i);
    } else if c.pc.Storing? && i <= |s.cells| {
      PrefixStore(s.cells, c.pc.i, c.pc.half, i);
    }
    hide Sum, Within;
  }

  lemma OwnScanned(limits: seq<nat>, s: State, t: nat, behind: int)
    requires Within(limits, s) && t < |s.callers| && Scanned(s, t, behind) && Step(s, t).Some?
    ensures Scanned(Step(s, t).value, t, behind)
  {
    NoneWraps(limits, s, t);
    var s' := Step(s, t).value;
    if s.callers[t].pc.Storing? {
      var i := s.callers[t].pc.i;
      PrefixStep(s'.cells, i);
      assert s'.cells[..i] == s.cells[..i];
    } else if s.callers[t].pc.Between? {
      assert s'.cells[..0] == [];
    }
    hide Within;
  }

  lemma {:induction false} RunScanned(s: State, ts: seq<nat>, t: nat)
    requires Fresh(s) && s.total + |s.callers| < U32 && Run(s, ts).Some? && t < |s.callers|
    ensures Scanned(Run(s, ts).value, t, Behind(s, t, ts))
    decreases |ts|
  {
    assert Shaped(s);
    if ts != [] {
      var prefix, u := ts[..|ts| - 1], ts[|ts| - 1];
      hide Within, Step, Fresh, Scanned;
      RunWithin(s, prefix);
      RunScanned(s, prefix, t);
      var s1 := Run(s, prefix).value;
      if u == t {
        OwnScanned(Limits(s), s1, t, Behind(s, t, prefix));
      } else {
        OtherScanned(Limits(s), s1, t, u, Behind(s, t, prefix));
      }
    }
  }

  predicate Quiet(s: State) {
    forall u :: 0 <= u < |s.callers| ==> !Rescaling(s.callers[u].pc)
  }

  lemma LastStores(s: State, u: nat, behind: int)
    requires Shaped(s) && StoresTotal(s, u) && Scanned(s, u, behind)
    ensures Step(s, u).Some?
    ensures var s' := Step(s, u).value;
      s'.cells == s.cells && |Betweens(s'.callers)| == |Betweens(s.callers)| && Sum(s'.cells) == s'.total + behind
  {
    BetweenSame(s.callers, u, s.callers[u].(pc := Finished));
    assert s.cells[..|s.cells|] == s.cells;
    hide Sum, Betweens;
  }

  lemma QuietBefore(s: State, u: nat)
    requires Shaped(s) && Step(s, u).Some? && Quiet(Step(s, u).value) && !StoresTotal(s, u)
    ensures Quiet(s)
  {
    var s' := Step(s, u).value;
    forall v | 0 <= v < |s.callers|
      ensures !Rescaling(s.callers[v].pc)
    {
      assert !Rescaling(s'.callers[v].pc);
    }
  }

  /**
   In any run, however its rescalings overlap: whenever no one rescales, the total with what recorders in
   between will still add to it is the sum of the row and the excess, and so exact just if that is none.
   */
  lemma {:induction false} TotalIs(s: State, ts: seq<nat>)
    requires Fresh(s) && s.total + |s.callers| < U32 && Run(s, ts).Some? && Quiet(Run(s, ts).value)
    ensures var s' := Run(s, ts).value; s'.total + |Betweens(s'.callers)| == Sum(s'.cells) + Excess(s, ts)
    decreases |ts|
  {
    assert Shaped(s);
    if ts == [] {
      assert Betweens(s.callers) == {};
    } else {
      var prefix, u := ts[..|ts| - 1], ts[|ts| - 1];
      var s1 := Run(s, prefix).value;
      hide Within, Step, Fresh, Scanned, Sum, Betweens, StoresTotal, Quiet, Behind;
      RunWithin(s, prefix);
      if StoresTotal(s1, u) {
        CallerThere(s1, u);
        RunScanned(s, prefix, u);
        LastStores(s1, u, Behind(s, u, prefix));
      } else {
        QuietBefore(s1, u);
        TotalIs(s, prefix);
        CalmHere(s1, u);
        DriftStep(Limits(s), s1, u);
      }
    }
  }

  lemma CallerThere(s: State, u: nat)
    requires StoresTotal(s, u)
    ensures u < |s.callers|
  {
  }

  lemma CalmHere(s: State, u: nat)
    requires Shaped(s) && Quiet(s) && Step(s, u).Some?
    ensures u < |s.callers| && !Rescaling(s.callers[u].pc)
  {
  }

  /** Once all have finished, the total is the sum of the row exactly when the last rescaler left no excess. */
  lemma ExactIff(s: State, ts: seq<nat>, s': State)
    requires Fresh(s) && s.total + |s.callers| < U32 && Run(s, ts) == Some(s')
    requires forall t :: 0 <= t < |s'.callers| ==> s'.callers[t].pc.Finished?
    ensures s'.total == Sum(s'.cells) + Excess(s, ts)
    ensures s'.total == Sum(s'.cells) <==> Excess(s, ts) == 0
  {
    TotalIs(s, ts);
    assert Betweens(s'.callers) == {};
    hide Sum, Run, Excess;
  }

  // ---- Two rescalers at once ----

  /** A row of one cell, and two callers. */
  function Two(x: nat, total: nat, p: PC, q: PC): State {
    State([x], total, [Caller(0, p), Caller(0, q)])
  }

  /** A step, on the one cell, the total and the caller's own state. */
  function OnOne(x: nat, total: nat, p: PC): Option<(nat, nat, PC)> {
    match p
    case Adding => Some(((x + 1) % U32, total, Between))
    case Between =>
      Some((x, (total + 1) % U32, if (total + 1) % U32 >= SATURATION then Loading(0, 0) else Finished))
    case Loading(i, acc) => if i == 0 then Some((x, total, Storing(i, acc, x / 2))) else Some((x, acc, Finished))
    case Storing(i, acc, half) => if i == 0 then Some((half, total, Loading(1, (acc + half) % U32))) else None
    case Finished => None
  }

  lemma First(x: nat, total: nat, p: PC, q: PC)
    ensures Step(Two(x, total, p, q), 0) == match OnOne(x, total, p)
      case None => None
      case Some((x', total', p')) => Some(Two(x', total', p', q))
  {
    var s' := Step(Two(x, total, p, q), 0);
    if s'.Some? {
      assert s'.value.cells == [s'.value.cells[0]];
      assert s'.value.callers == [s'.value.callers[0], Caller(0, q)];
    }
  }

  lemma Second(x: nat, total: nat, p: PC, q: PC)
    ensures Step(Two(x, total, p, q), 1) == match OnOne(x, total, q)
      case None => None
      case Some((x', total', q')) => Some(Two(x', total', p, q'))
  {
    var s' := Step(Two(x, total, p, q), 1);
    if s'.Some? {
      assert s'.value.cells == [s'.value.cells[0]];
      assert s'.value.callers == [Caller(0, p), s'.value.callers[1]];
    }
  }

  lemma Then(s0: State, ts: seq<nat>, s: State, t: nat, s': State, ts': seq<nat>)
    requires Shaped(s0) && Run(s0, ts) == Some(s) && Step(s, t) == Some(s') && ts' == ts + [t]
    ensures Run(s0, ts') == Some(s')
  {
    assert ts'[..|ts|] == ts;
    hide Step;
  }

  /** One transition short of saturation, and two recorders of it. */
  function NearlyFull(): State {
    Two(SATURATION - 1, SATURATION - 1, Adding, Adding)
  }

  const FULL: nat := SATURATION + 1

  lemma BothAdd()
    ensures Run(NearlyFull(), [0, 1, 0, 1]) == Some(Two(FULL, FULL, Loading(0, 0), Loading(0, 0)))
  {
    var s0 := NearlyFull();
    assert Run(s0, []) == Some(s0);
    First(SATURATION - 1, SATURATION - 1, Adding, Adding);
    Second(SATURATION, SATURATION - 1, Between, Adding);
    First(FULL, SATURATION - 1, Between, Between);
    Second(FULL, SATURATION, Loading(0, 0), Between);
    hide Run, Step, Two;
    Then(s0, [], s0, 0, Two(SATURATION, SATURATION - 1, Between, Adding), [0]);
    Then(s0, [0], Two(SATURATION, SATURATION - 1, Between, Adding), 1,
         Two(FULL, SATURATION - 1, Between, Between), [0, 1]);
    Then(s0, [0, 1], Two(FULL, SATURATION - 1, Between, Between), 0,
         Two(FULL, SATURATION, Loading(0, 0), Between), [0, 1, 0]);
    Then(s0, [0, 1, 0], Two(FULL, SATURATION, Loading(0, 0), Between), 1,
         Two(FULL, FULL, Loading(0, 0), Loading(0, 0)), [0, 1, 0, 1]);
  }

  lemma FirstHalves()
    ensures Run(NearlyFull(), [0, 1, 0, 1, 0, 0]) == Some(Two(FULL / 2, FULL, Loading(1, FULL / 2), Loading(0, 0)))
  {
    var s0, h := NearlyFull(), FULL / 2;
    assert Shaped(s0);
    hide Run, Step, Two;
    First(FULL, FULL, Loading(0, 0), Loading(0, 0));
    First(FULL, FULL, Storing(0, 0, h), Loading(0, 0));
    BothAdd();
    Then(s0, [0, 1, 0, 1], Two(FULL, FULL, Loading(0, 0), Loading(0, 0)), 0,
         Two(FULL, FULL, Storing(0, 0, h), Loading(0, 0)), [0, 1, 0, 1, 0]);
    Then(s0, [0, 1, 0, 1, 0], Two(FULL, FULL, Storing(0, 0, h), Loading(0, 0)), 0,
         Two(h, FULL, Loading(1, h), Loading(0, 0)), [0, 1, 0, 1, 0, 0]);
  }

  lemma BothHalve()
    ensures Run(NearlyFull(), [0, 1, 0, 1, 0, 0, 1, 1]) ==
      Some(Two(FULL / 4, FULL, Loading(1, FULL / 2), Loading(1, FULL / 4)))
  {
    var s0, h := NearlyFull(), FULL / 2;
    assert Shaped(s0);
    hide Run, Step, Two;
    Second(h, FULL, Loading(1, h), Loading(0, 0));
    Second(h, FULL, Loading(1, h), Storing(0, 0, h / 2));
    FirstHalves();
    Then(s0, [0, 1, 0, 1, 0, 0], Two(h, FULL, Loading(1, h), Loading(0, 0)), 1,
         Two(h, FULL, Loading(1, h), Storing(0, 0, h / 2)), [0, 1, 0, 1, 0, 0, 1]);
    Then(s0, [0, 1, 0, 1, 0, 0, 1], Two(h, FULL, Loading(1, h), Storing(0, 0, h / 2)), 1,
         Two(h / 2, FULL, Loading(1, h), Loading(1, h / 2)), [0, 1, 0, 1, 0, 0, 1, 1]);
  }

  function BothHalved(): seq<nat> {
    [0, 1, 0, 1, 0, 0, 1, 1]
  }

  lemma BothStore()
    ensures Run(NearlyFull(), BothHalved() + [1] + [0]) == Some(Two(FULL / 4, FULL / 2, Finished, Finished))
  {
    var s0, h := NearlyFull(), FULL / 2;
    assert Shaped(s0);
    BothHalve();
    hide Run, Step, Two, BothHalved;
    Second(h / 2, FULL, Loading(1, h), Loading(1, h / 2));
    First(h / 2, h / 2, Loading(1, h), Finished);
    Then(s0, BothHalved(), Two(h / 2, FULL, Loading(1, h), Loading(1, h / 2)), 1,
         Two(h / 2, h / 2, Loading(1, h), Finished), BothHalved() + [1]);
    Then(s0, BothHalved() + [1], Two(h / 2, h / 2, Loading(1, h), Finished), 0,
         Two(h / 2, h, Finished, Finished), BothHalved() + [1] + [0]);
  }

  /**
   Two recorders of one transition: both adds to the total saturate, so both rescale, and the first to
   start stores its total last. The cell is halved twice and the total once: the only transition ever
   recorded is left with probability one half.
   */
  lemma RescaledTwice()
    ensures Fresh(NearlyFull()) && NearlyFull().total + |NearlyFull().callers| < U32
    ensures Run(NearlyFull(), BothHalved() + [1] + [0]) == Some(Two(FULL / 4, FULL / 2, Finished, Finished))
    ensures FULL / 2 == 2 * Sum(Two(FULL / 4, FULL / 2, Finished, Finished).cells)
  {
    BothStore();
    assert NearlyFull().cells[1..] == [] && Two(FULL / 4, FULL / 2, Finished, Finished).cells[1..] == [];
    hide Run, Step;
  }
}
