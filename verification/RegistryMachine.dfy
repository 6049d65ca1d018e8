/**
 The endpoint registry under concurrency: registrars publish the count, the pattern map and the
 reverse table one after the other under a lock, while readers load any of them at any time.
 */
module RegistryMachine {
  import opened Bytes
  import opened Predictors

  // ---- One step of one registrar of a pattern ----

  /** known is the pattern map the registrar loaded under the lock; the id it allotted follows. */
  datatype PC =
    | Start | WantLock | Locked
    | Counted(id: nat, known: map<Pattern, nat>) | Published(id: nat) | Tabled(id: nat)
    | Returned(result: Option<nat>)

  datatype Registrar = Registrar(p: Pattern, pc: PC)

  datatype State = State(
    patterns: map<Pattern, nat>, reverse: seq<Pattern>, count: nat, holder: Option<nat>, registrars: seq<Registrar>)

  function Begin(ps: seq<Pattern>): State {
    State(map[], [], 0, None, seq(|ps|, i requires 0 <= i < |ps| => Registrar(ps[i], Start)))
  }

  function Moved(s: State, t: nat, pc: PC): State
    requires t < |s.registrars|
  {
    s.(registrars := s.registrars[t := s.registrars[t].(pc := pc)])
  }

  /** The next step of registrar t, if it is not blocked on the lock or done. */
  function Step(s: State, t: nat): Option<State>
    requires t < |s.registrars|
  {
    var r := s.registrars[t];
    match r.pc
    case Start =>
      if r.p in s.patterns then Some(Moved(s, t, Returned(Some(s.patterns[r.p])))) else Some(Moved(s, t, WantLock))
    case WantLock => if s.holder == None then Some(Moved(s, t, Locked).(holder := Some(t))) else None
    case Locked =>
      if r.p in s.patterns then Some(Moved(s, t, Returned(Some(s.patterns[r.p]))).(holder := None))
      else if s.count >= MAX_INDEXED_ROUTES then Some(Moved(s, t, Returned(None)).(holder := None))
      else Some(Moved(s, t, Counted(s.count, s.patterns)).(count := s.count + 1))
    case Counted(id, known) => Some(Moved(s, t, Published(id)).(patterns := known[r.p := id]))
    case Published(id) =>
      // A new table one longer than the old, with the pattern written at its id.
      if id <= |s.reverse| then
        var longer := s.reverse + [""];
        Some(Moved(s, t, Tabled(id)).(reverse := longer[id := r.p]))
      else None
    case Tabled(id) => Some(Moved(s, t, Returned(Some(id))).(holder := None))
    case Returned(_) => None
  }

  function Run(s: State, ts: seq<nat>): Option<State> {
    if ts == [] then Some(s)
    else match Run(s, ts[..|ts| - 1])
      case None => None
      case Some(s') => if ts[|ts| - 1] < |s'.registrars| then Step(s', ts[|ts| - 1]) else None
  }

  /** Pattern: the table entry of an id, or the empty string beyond the table. */
  function PatternOf(s: State, id: nat): Pattern {
    if id < |s.reverse| then s.reverse[id] else ""
  }

  // ---- The invariant ----

  predicate Holds(pc: PC) {
    pc.Locked? || pc.Counted? || pc.Published? || pc.Tabled?
  }

  /** How far the three published values are apart while the holder works. */
  predicate Lengths(s: State) {
    match s.holder
    case None => |s.reverse| == |s.patterns| == s.count
    case Some(t) =>
      t < |s.registrars| &&
      match s.registrars[t].pc
      case Locked => |s.reverse| == |s.patterns| == s.count
      case Counted(id, known) =>
        && |s.reverse| == |s.patterns| == id && s.count == id + 1
        && known == s.patterns && s.registrars[t].p !in s.patterns
      case Published(id) =>
        |s.reverse| == id && |s.patterns| == s.count == id + 1
        && s.registrars[t].p in s.patterns && s.patterns[s.registrars[t].p] == id
      case Tabled(id) =>
        |s.reverse| == |s.patterns| == s.count == id + 1
        && s.registrars[t].p in s.patterns && s.patterns[s.registrars[t].p] == id
      case _ => false
  }

  predicate HasId(patterns: map<Pattern, nat>, i: nat) {
    exists p :: p in patterns && patterns[p] == i
  }

  /** The first n ids are given, each to one pattern, and the table is right wherever it reaches. */
  ghost predicate Interned(patterns: map<Pattern, nat>, n: nat, reverse: seq<Pattern>) {
    && (forall p :: p in patterns ==> patterns[p] < n)
    && (forall p, q :: p in patterns && q in patterns && patterns[p] == patterns[q] ==> p == q)
    && (forall i :: 0 <= i < n ==> HasId(patterns, i))
    && (forall p :: p in patterns && patterns[p] < |reverse| ==> reverse[patterns[p]] == p)
  }

  predicate RegistrarOk(s: State, t: nat, r: Registrar) {
    && (Holds(r.pc) <==> s.holder == Some(t))
    && (r.pc.Returned? ==> if r.pc.result.Some? then r.p in s.patterns && s.patterns[r.p] == r.pc.result.value
                           else r.p !in s.patterns && |s.patterns| == 4096)
  }

  ghost predicate Inv(s: State) {
    && s.count <= 4096
    && Lengths(s)
    && Interned(s.patterns, |s.patterns|, s.reverse)
    && forall t :: 0 <= t < |s.registrars| ==> RegistrarOk(s, t, s.registrars[t])
  }

  lemma MapGrows(patterns: map<Pattern, nat>, p: Pattern, id: nat)
    requires p !in patterns
    ensures |patterns[p := id]| == |patterns| + 1
  {
    assert patterns[p := id].Keys == patterns.Keys + {p};
  }

  lemma InternNext(patterns: map<Pattern, nat>, n: nat, reverse: seq<Pattern>, p: Pattern)
    requires Interned(patterns, n, reverse) && p !in patterns && |reverse| <= n
    ensures Interned(patterns[p := n], n + 1, reverse)
  {
    var grown := patterns[p := n];
    forall i | 0 <= i < n + 1
      ensures HasId(grown, i)
    {
      if i < n {
        assert HasId(patterns, i);
        var q :| q in patterns && patterns[q] == i;
        assert q in grown && grown[q] == i;
      } else {
        assert p in grown && grown[p] == i;
      }
    }
    hide HasId;
  }

  lemma TableNext(patterns: map<Pattern, nat>, n: nat, reverse: seq<Pattern>, p: Pattern)
    requires Interned(patterns, n, reverse) && p in patterns && patterns[p] == |reverse|
    ensures Interned(patterns, n, (reverse + [""])[|reverse| := p])
  {
    hide HasId;
    assert (reverse + [""])[|reverse| := p] == reverse + [p];
  }

  lemma StepInterned(s: State, t: nat)
    requires Inv(s) && t < |s.registrars| && Step(s, t).Some?
    ensures var s' := Step(s, t).value;
      s'.count <= 4096 && Lengths(s') && Interned(s'.patterns, |s'.patterns|, s'.reverse)
  {
    var r := s.registrars[t];
    assert RegistrarOk(s, t, r);
    if r.pc.Counted? {
      InternNext(s.patterns, |s.patterns|, s.reverse, r.p);
      MapGrows(s.patterns, r.p, r.pc.id);
    }
    if r.pc.Published? {
      TableNext(s.patterns, |s.patterns|, s.reverse, r.p);
    }
    hide Interned, RegistrarOk, Inv;
  }

  lemma StepRegistrars(s: State, t: nat, u: nat)
    requires Inv(s) && t < |s.registrars| && Step(s, t).Some? && u < |s.registrars|
    ensures RegistrarOk(Step(s, t).value, u, Step(s, t).value.registrars[u])
  {
    assert RegistrarOk(s, u, s.registrars[u]) && RegistrarOk(s, t, s.registrars[t]);
    if s.registrars[t].pc.Counted? {
      MapGrows(s.patterns, s.registrars[t].p, s.registrars[t].pc.id);
    }
    hide Interned, Inv;
  }

  lemma StepKeeps(s: State, t: nat)
    requires Inv(s) && t < |s.registrars| && Step(s, t).Some?
    ensures Inv(Step(s, t).value)
  {
    StepInterned(s, t);
    forall u | 0 <= u < |s.registrars|
      ensures RegistrarOk(Step(s, t).value, u, Step(s, t).value.registrars[u])
    {
      StepRegistrars(s, t, u);
    }
    hide Interned, RegistrarOk, Lengths;
  }

  lemma {:induction false} RunInv(ps: seq<Pattern>, ts: seq<nat>)
    requires Run(Begin(ps), ts).Some?
    ensures Inv(Run(Begin(ps), ts).value)
    decreases |ts|
  {
    if ts == [] {
    } else {
      RunInv(ps, ts[..|ts| - 1]);
      hide Inv, Step;
      StepKeeps(Run(Begin(ps), ts[..|ts| - 1]).value, ts[|ts| - 1]);
    }
  }

  // ---- What readers and registrars can rely on ----

  /**
   In every reachable state of any interleaving: the map is a bijection onto its first ids, the
   lengths nest, an id read from the map names its own pattern, or nothing while the one registrar that
   holds the lock has not put it into the table, and at most 4096 patterns have ids.
   */
  lemma ReadersSee(ps: seq<Pattern>, ts: seq<nat>, s: State, p: Pattern, q: Pattern)
    requires Run(Begin(ps), ts) == Some(s)
    ensures |s.reverse| <= |s.patterns| <= s.count <= |s.reverse| + 1 && s.count <= 4096
    ensures p in s.patterns ==>
      s.patterns[p] < |s.patterns| && PatternOf(s, s.patterns[p]) == if s.patterns[p] < |s.reverse| then p else ""
    ensures p in s.patterns && s.holder == None ==> PatternOf(s, s.patterns[p]) == p
    ensures p in s.patterns && q in s.patterns && s.patterns[p] == s.patterns[q] ==> p == q
    ensures forall i :: 0 <= i < |s.patterns| ==> HasId(s.patterns, i)
  {
    RunInv(ps, ts);
    hide RegistrarOk, HasId;
  }

  lemma StepMonotone(s: State, t: nat, p: Pattern)
    requires Inv(s) && t < |s.registrars| && Step(s, t).Some?
    ensures p in s.patterns ==> p in Step(s, t).value.patterns && Step(s, t).value.patterns[p] == s.patterns[p]
    ensures s.reverse <= Step(s, t).value.reverse
  {
    assert RegistrarOk(s, t, s.registrars[t]);
    hide Interned;
  }

  /** An id, once given, is that pattern's id for good, and so is its table entry. */
  lemma {:induction false} IdsNeverChange(ps: seq<Pattern>, ts: seq<nat>, more: seq<nat>, p: Pattern)
    requires Run(Begin(ps), ts).Some? && Run(Begin(ps), ts + more).Some?
    ensures var s, s' := Run(Begin(ps), ts).value, Run(Begin(ps), ts + more).value;
      (p in s.patterns ==> p in s'.patterns && s'.patterns[p] == s.patterns[p]) && s.reverse <= s'.reverse
    decreases |more|
  {
    if more == [] {
      assert ts + more == ts;
    } else {
      var init, all := ts + more[..|more| - 1], ts + more;
      assert all[..|all| - 1] == init && all[|all| - 1] == more[|more| - 1];
      hide Step, Begin, Inv;
      IdsNeverChange(ps, ts, more[..|more| - 1], p);
      RunInv(ps, init);
      StepMonotone(Run(Begin(ps), init).value, more[|more| - 1], p);
    }
  }

  /** The write into the new table is in bounds, and only the lock ever blocks a registrar. */
  lemma OnlyLockBlocks(ps: seq<Pattern>, ts: seq<nat>, s: State, t: nat)
    requires Run(Begin(ps), ts) == Some(s) && t < |s.registrars| && !s.registrars[t].pc.Returned?
    ensures Step(s, t) == None <==> s.registrars[t].pc == WantLock && s.holder.Some?
  {
    RunInv(ps, ts);
    assert RegistrarOk(s, t, s.registrars[t]);
    hide Inv, Interned, Run, Begin;
  }

  /** A registrar returns its pattern's id, or none because all 4096 ids went to other patterns. */
  lemma ReturnedIsRight(ps: seq<Pattern>, ts: seq<nat>, s: State, t: nat)
    requires Run(Begin(ps), ts) == Some(s) && t < |s.registrars| && s.registrars[t].pc.Returned?
    ensures var p, result := s.registrars[t].p, s.registrars[t].pc.result;
      if result.Some? then p in s.patterns && s.patterns[p] == result.value
      else p !in s.patterns && |s.patterns| == 4096
  {
    RunInv(ps, ts);
    assert RegistrarOk(s, t, s.registrars[t]);
    hide Inv;
  }
}
