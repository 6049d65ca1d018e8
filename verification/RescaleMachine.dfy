/**
 One row of the lock-free counters with rescaling: each recorder adds to its cell, then to the total,
 and if that saturates goes on to halve the row cell by cell and store the sum of the halves, all in
 separate atomic steps. Any number of recorders and rescalers are interleaved.
 */
module RescaleMachine {
  import opened Bytes
  import opened Predictors

  /** A rescaler has halved the cells below i, to a sum of acc; Storing holds half of what it read in cell i. */
  datatype PC = Adding | Between | Loading(i: nat, acc: nat) | Storing(i: nat, acc: nat, half: nat) | Finished

  datatype Caller = Caller(to: nat, pc: PC)

  datatype State = State(cells: seq<nat>, total: nat, callers: seq<Caller>)

  predicate Shaped(s: State) {
    forall t :: 0 <= t < |s.callers| ==> s.callers[t].to < |s.cells|
  }

  function Moved(s: State, t: nat, pc: PC): State
    requires t < |s.callers|
  {
    s.(callers := s.callers[t := s.callers[t].(pc := pc)])
  }

  /** The next atomic step of caller t. */
  function Step(s: State, t: nat): (r: Option<State>)
    requires Shaped(s)
    ensures r.Some? ==> Shaped(r.value) && |r.value.cells| == |s.cells| && |r.value.callers| == |s.callers|
  {
    if t >= |s.callers| then None else
    var c := s.callers[t];
    match c.pc
    case Adding => Some(Moved(s.(cells := s.cells[c.to := (s.cells[c.to] + 1) % U32]), t, Between))
    case Between =>
      var tot := (s.total + 1) % U32;
      Some(Moved(s.(total := tot), t, if tot >= SATURATION then Loading(0, 0) else Finished))
    case Loading(i, acc) =>
      if i < |s.cells| then Some(Moved(s, t, Storing(i, acc, s.cells[i] / 2)))
      else Some(Moved(s.(total := acc), t, Finished))
    case Storing(i, acc, half) =>
      if i < |s.cells| then Some(Moved(s.(cells := s.cells[i := half]), t, Loading(i + 1, (acc + half) % U32)))
      else None
    case Finished => None
  }

  function Run(s: State, ts: seq<nat>): (r: Option<State>)
    requires Shaped(s)
    ensures r.Some? ==> Shaped(r.value) && |r.value.cells| == |s.cells| && |r.value.callers| == |s.callers|
  {
    if ts == [] then Some(s)
    else match Run(s, ts[..|ts| - 1])
      case None => None
      case Some(s') => Step(s', ts[|ts| - 1])
  }

  // ---- Sets of callers ----

  function AddingBelow(cs: seq<Caller>, m: nat): set<nat> {
    set t | 0 <= t < |cs| && cs[t].pc.Adding? && cs[t].to < m
  }

  function AddingAt(cs: seq<Caller>, b: nat): set<nat> {
    set t | 0 <= t < |cs| && cs[t].pc.Adding? && cs[t].to == b
  }

  function Betweens(cs: seq<Caller>): set<nat> {
    set t | 0 <= t < |cs| && cs[t].pc.Between?
  }

  /** The callers that have yet to add to the total. */
  function Open(cs: seq<Caller>): set<nat> {
    set t | 0 <= t < |cs| && (cs[t].pc.Adding? || cs[t].pc.Between?)
  }

  lemma {:induction false} FewCallers(a: set<nat>, n: nat)
    requires forall t :: t in a ==> t < n
    ensures |a| <= n
    decreases n
  {
    if n > 0 {
      FewCallers(a - {n - 1}, n - 1);
    } else {
      assert a == {};
    }
  }

  // ---- No add wraps, however many rescale at once ----

  /** What the cells can never exceed: what they held and what is still to be added. */
  function Limits(s: State): seq<nat> {
    seq(|s.cells|, b requires 0 <= b < |s.cells| => s.cells[b] + |AddingAt(s.callers, b)|)
  }

  predicate CallerWithin(limits: seq<nat>, s: State, c: Caller) {
    match c.pc
    case Loading(i, acc) => i <= |limits| && 2 * acc <= Sum(limits[..i])
    case Storing(i, acc, half) =>
      && i < |limits| && 2 * acc <= Sum(limits[..i]) && 2 * half <= limits[i]
      && half + |AddingAt(s.callers, i)| <= limits[i]
    case _ => true
  }

  predicate Rescaling(pc: PC) {
    pc.Loading? || pc.Storing?
  }

  /** How many cells are halved already. */
  function Column(pc: PC): nat {
    match pc
    case Loading(i, _) => i
    case Storing(i, _, _) => i
    case _ => 0
  }

  /** The next step of t computes what it would compute in unbounded integers. */
  predicate NoWrap(s: State, t: nat)
    requires Shaped(s) && t < |s.callers|
  {
    match s.callers[t].pc
    case Adding => s.cells[s.callers[t].to] + 1 < U32
    case Between => s.total + 1 < U32
    case Storing(_, acc, half) => acc + half < U32
    case _ => true
  }

  predicate CellsWithin(limits: seq<nat>, s: State) {
    |limits| == |s.cells| && forall b :: 0 <= b < |limits| ==> s.cells[b] + |AddingAt(s.callers, b)| <= limits[b]
  }

  predicate CallersWithin(limits: seq<nat>, s: State) {
    forall t :: 0 <= t < |s.callers| ==> CallerWithin(limits, s, s.callers[t])
  }

  /** Half of the limits, which a rescaler stores at most, leaves room for those yet to add to the total. */
  predicate RoomToStore(limits: seq<nat>, s: State) {
    (exists t :: 0 <= t < |s.callers| && Rescaling(s.callers[t].pc)) ==>
      |Open(s.callers)| + SATURATION <= Sum(limits)
  }

  predicate Within(limits: seq<nat>, s: State) {
    && Shaped(s) && CellsWithin(limits, s) && CallersWithin(limits, s) && RoomToStore(limits, s)
    && s.total + |Open(s.callers)| <= Sum(limits) < U32
  }

  lemma AddingMove(cs: seq<Caller>, t: nat, c: Caller, b: nat)
    requires t < |cs| && !c.pc.Adding?
    ensures |AddingAt(cs[t := c], b)| == |AddingAt(cs, b)| - if cs[t].pc.Adding? && cs[t].to == b then 1 else 0
  {
    if cs[t].pc.Adding? && cs[t].to == b {
      assert AddingAt(cs[t := c], b) == AddingAt(cs, b) - {t};
    } else {
      assert AddingAt(cs[t := c], b) == AddingAt(cs, b);
    }
  }

  lemma OpenMove(cs: seq<Caller>, t: nat, c: Caller)
    requires t < |cs| && (cs[t].pc.Adding? ==> c.pc.Between?) && (!cs[t].pc.Adding? ==> !c.pc.Between?) && !c.pc.Adding?
    ensures |Open(cs[t := c])| == |Open(cs)| - if cs[t].pc.Between? then 1 else 0
  {
    if cs[t].pc.Between? {
      assert Open(cs[t := c]) == Open(cs) - {t};
    } else {
      assert Open(cs[t := c]) == Open(cs);
    }
  }

  lemma BetweenMove(cs: seq<Caller>, t: nat, c: Caller)
    requires t < |cs|
    ensures |Betweens(cs[t := c])| ==
      |Betweens(cs)| + (if c.pc.Between? then 1 else 0) - if cs[t].pc.Between? then 1 else 0
  {
    if c.pc.Between? && !cs[t].pc.Between? {
      assert Betweens(cs[t := c]) == Betweens(cs) + {t};
    } else if cs[t].pc.Between? && !c.pc.Between? {
      assert Betweens(cs[t := c]) == Betweens(cs) - {t};
    } else {
      assert Betweens(cs[t := c]) == Betweens(cs);
    }
  }

  /** What a step does to the sets of callers. */
  lemma SetsMove(s: State, t: nat, s': State, b: nat)
    requires Shaped(s) && Step(s, t) == Some(s')
    ensures |AddingAt(s'.callers, b)| ==
      |AddingAt(s.callers, b)| - if s.callers[t].pc.Adding? && s.callers[t].to == b then 1 else 0
    ensures |Open(s'.callers)| == |Open(s.callers)| - if s.callers[t].pc.Between? then 1 else 0
    ensures |Betweens(s'.callers)| == |Betweens(s.callers)| + (if s.callers[t].pc.Adding? then 1 else 0)
      - if s.callers[t].pc.Between? then 1 else 0
  {
    assert s'.callers == s.callers[t := s'.callers[t]];
    AddingMove(s.callers, t, s'.callers[t], b);
    OpenMove(s.callers, t, s'.callers[t]);
    BetweenMove(s.callers, t, s'.callers[t]);
    hide AddingAt, Open, Betweens;
  }

  lemma PrefixStep(u: seq<nat>, i: nat)
    requires i < |u|
    ensures Sum(u[..i + 1]) == Sum(u[..i]) + u[i] <= Sum(u)
  {
    SumAppend(u[..i], u[i]);
    assert u[..i + 1] == u[..i] + [u[i]];
    SumPrefix(u, i + 1);
  }

  lemma NoneWraps(limits: seq<nat>, s: State, t: nat)
    requires Within(limits, s) && t < |s.callers|
    ensures NoWrap(s, t)
  {
    var c := s.callers[t];
    assert CallerWithin(limits, s, c);
    if c.pc.Adding? {
      assert t in AddingAt(s.callers, c.to);
      AtMostSum(limits, c.to);
    } else if c.pc.Between? {
      assert t in Open(s.callers);
    } else if c.pc.Storing? {
      PrefixStep(limits, c.pc.i);
    }
  }

  lemma CellsKept(limits: seq<nat>, s: State, t: nat, s': State)
    requires Within(limits, s) && Step(s, t) == Some(s')
    ensures CellsWithin(limits, s')
  {
    var c := s.callers[t];
    NoneWraps(limits, s, t);
    assert CallerWithin(limits, s, c);
    hide Sum, AddingAt, Open;
    forall b | 0 <= b < |limits|
      ensures s'.cells[b] + |AddingAt(s'.callers, b)| <= limits[b]
    {
      SetsMove(s, t, s', b);
    }
  }

  lemma CallerKept(limits: seq<nat>, s: State, t: nat, s': State, u: nat)
    requires Within(limits, s) && Step(s, t) == Some(s') && u < |s.callers|
    ensures CallerWithin(limits, s', s'.callers[u])
  {
    var c := s.callers[u];
    NoneWraps(limits, s, t);
    assert CallerWithin(limits, s, c);
    if Rescaling(c.pc) && Column(c.pc) < |limits| {
      var i := Column(c.pc);
      SetsMove(s, t, s', i);
      PrefixStep(limits, i);
      assert s.cells[i] + |AddingAt(s.callers, i)| <= limits[i];
    }
    hide Sum, AddingAt, Open, Betweens, Within;
    if u != t {
      assert s'.callers[u] == c;
    }
  }

  lemma RoomKept(limits: seq<nat>, s: State, t: nat, s': State)
    requires Within(limits, s) && Step(s, t) == Some(s')
    ensures RoomToStore(limits, s') && s'.total + |Open(s'.callers)| <= Sum(limits)
  {
    NoneWraps(limits, s, t);
    SetsMove(s, t, s', 0);
    assert CallerWithin(limits, s, s.callers[t]);
    assert limits[..|limits|] == limits;
    hide Sum, AddingAt, Open, Betweens, CellsWithin, Shaped;
    if u :| 0 <= u < |s'.callers| && Rescaling(s'.callers[u].pc) && !Rescaling(s.callers[u].pc) {
      assert u == t && SATURATION <= s'.total;
    }
  }

  lemma StepWithin(limits: seq<nat>, s: State, t: nat)
    requires Within(limits, s) && Step(s, t).Some?
    ensures Within(limits, Step(s, t).value)
  {
    var s' := Step(s, t).value;
    CellsKept(limits, s, t, s');
    RoomKept(limits, s, t, s');
    hide Sum, AddingAt, Open, Betweens, CellsWithin, RoomToStore;
    forall u | 0 <= u < |s.callers|
      ensures CallerWithin(limits, s', s'.callers[u])
    {
      CallerKept(limits, s, t, s', u);
    }
  }

  /** All are about to add, to a row whose total is its sum. */
  predicate Fresh(s: State) {
    && Shaped(s) && Sum(s.cells) == s.total < SATURATION
    && forall t :: 0 <= t < |s.callers| ==> s.callers[t].pc.Adding?
  }

  lemma {:induction false} LimitsSum(s: State, m: nat)
    requires Shaped(s) && m <= |s.cells|
    ensures Sum(Limits(s)[..m]) == Sum(s.cells[..m]) + |AddingBelow(s.callers, m)|
    decreases m
  {
    if m > 0 {
      LimitsSum(s, m - 1);
      PrefixStep(Limits(s), m - 1);
      PrefixStep(s.cells, m - 1);
      assert AddingBelow(s.callers, m) == AddingBelow(s.callers, m - 1) + AddingAt(s.callers, m - 1);
      assert AddingBelow(s.callers, m - 1) !! AddingAt(s.callers, m - 1);
    }
  }

  lemma StartWithin(s: State)
    requires Fresh(s) && s.total + |s.callers| < U32
    ensures Within(Limits(s), s)
  {
    LimitsSum(s, |s.cells|);
    assert Limits(s)[..|s.cells|] == Limits(s) && s.cells[..|s.cells|] == s.cells;
    assert AddingBelow(s.callers, |s.cells|) == Open(s.callers);
    FewCallers(Open(s.callers), |s.callers|);
    hide Sum;
  }

  lemma {:induction false} RunWithin(s: State, ts: seq<nat>)
    requires Fresh(s) && s.total + |s.callers| < U32 && Run(s, ts).Some?
    ensures Within(Limits(s), Run(s, ts).value)
    decreases |ts|
  {
    assert Shaped(s);
    hide Within, Step, Fresh;
    if ts == [] {
      StartWithin(s);
    } else {
      RunWithin(s, ts[..|ts| - 1]);
      StepWithin(Limits(s), Run(s, ts[..|ts| - 1]).value, ts[|ts| - 1]);
    }
  }

  /** No cell ever exceeds its first value plus the transitions recorded into it. */
  lemma CellsBounded(s: State, ts: seq<nat>, s': State, b: nat)
    requires Fresh(s) && s.total + |s.callers| < U32 && Run(s, ts) == Some(s') && b < |s.cells|
    ensures s'.cells[b] + |AddingAt(s'.callers, b)| <= s.cells[b] + |AddingAt(s.callers, b)|
  {
    RunWithin(s, ts);
    hide Sum, AddingAt, Open;
  }

  lemma Append(s: State, ts: seq<nat>, t: nat)
    requires Shaped(s) && Run(s, ts).Some?
    ensures Run(s, ts + [t]) == Step(Run(s, ts).value, t)
  {
    assert (ts + [t])[..|ts|] == ts;
    hide Step;
  }

  /** The first n callers make their two adds, one after the other, and no rescaler goes on. */
  lemma {:induction false} AddsFirst(s: State, n: nat) returns (ts: seq<nat>)
    requires Fresh(s) && n <= |s.callers| && s.total + n < U32
    ensures Run(s, ts).Some? && Run(s, ts).value.total == s.total + n
    ensures forall u :: n <= u < |s.callers| ==> Run(s, ts).value.callers[u] == s.callers[u]
    decreases n
  {
    hide Sum;
    ts := [];
    if n > 0 {
      var before := AddsFirst(s, n - 1);
      Append(s, before, n - 1);
      Append(s, before + [n - 1], n - 1);
      ts := before + [n - 1] + [n - 1];
      hide Run;
    }
  }

  /**
   Of any number of recorders of a row whose total is its sum, however interleaved and however many of
   them rescale at once, no 32-bit add ever wraps exactly when the total and the recorders together
   stay below 2^32.
   */
  lemma NoAddWraps(s: State)
    requires Fresh(s)
    ensures (forall ts, t :: Run(s, ts).Some? && 0 <= t < |s.callers| ==> NoWrap(Run(s, ts).value, t)) <==>
      s.total + |s.callers| < U32
  {
    if s.total + |s.callers| < U32 {
      forall ts, t | Run(s, ts).Some? && 0 <= t < |s.callers|
        ensures NoWrap(Run(s, ts).value, t)
      {
        RunWithin(s, ts);
        NoneWraps(Limits(s), Run(s, ts).value, t);
      }
    } else {
      var n := U32 - 1 - s.total;
      var ts := AddsFirst(s, n);
      Append(s, ts, n);
      assert !NoWrap(Run(s, ts + [n]).value, n);
    }
  }
}
