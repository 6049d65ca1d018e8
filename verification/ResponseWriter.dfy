/** The capturing response writer: buffer a response for caching, or switch to streaming it. */
module ResponseWriter {
  import opened Bytes
  import opened HeaderCodec
  import opened Mime
  import opened HeaderMerge

  const STATUS_OK: nat := 200

  // "text/event-stream" and "Upgrade" in ASCII.
  const EVENT_STREAM: Bytes := [116, 101, 120, 116, 47, 101, 118, 101, 110, 116, 45, 115, 116, 114, 101, 97, 109]
  const UPGRADE: Bytes := [85, 112, 103, 114, 97, 100, 101]

  // ---- Specification: what each call does to the writer and to the client behind it ----

  /** A response head as the client receives it. */
  datatype Head = Head(status: nat, header: Header)

  datatype State = State(
    header: Header, buf: Bytes, statusCode: nat, maxBytes: int,
    headerWritten: bool, streaming: bool, overflow: bool,
    clientHeader: Header, heads: seq<Head>, sent: Bytes)

  /** SetHeader stands for any change the handler makes to the captured header. */
  datatype Call = SetHeader(header: Header) | WriteHeader(code: nat) | Write(b: Bytes) | Flush

  /** A call, and the client's header map after it, should it commit: one of the possible merges. */
  datatype Turn = Turn(call: Call, out: Header)

  function NewState(maxBytes: int, clientHeader: Header): State {
    State(map[], [], 0, maxBytes, false, false, false, clientHeader, [], [])
  }

  predicate DetectsStream(h: Header) {
    EVENT_STREAM <= Get(h, CONTENT_TYPE) || Get(h, UPGRADE) != []
  }

  function Commit(s: State, out: Header): State {
    if s.headerWritten then s
    else
      s.(headerWritten := true, clientHeader := out,
         heads := s.heads + [Head(if s.statusCode > 0 then s.statusCode else STATUS_OK, out)])
  }

  function Drain(s: State): State {
    s.(sent := s.sent + s.buf, buf := [])
  }

  function Step(s: State, turn: Turn): State {
    match turn.call
    case SetHeader(h) => s.(header := h)
    case WriteHeader(code) =>
      if s.headerWritten then s
      else if DetectsStream(s.header) then Commit(s.(statusCode := code, streaming := true), turn.out)
      else s.(statusCode := code)
    case Write(b) =>
      if s.streaming then
        var t := Commit(s, turn.out);
        t.(sent := t.sent + b)
      else if s.maxBytes > 0 && |s.buf| + |b| > s.maxBytes then
        var t := Drain(Commit(s.(overflow := true, streaming := true), turn.out));
        t.(sent := t.sent + b)
      else s.(buf := s.buf + b)
    case Flush => Drain(Commit(s.(streaming := true), turn.out))
  }

  function Run(s: State, turns: seq<Turn>): State {
    if turns == [] then s
    else Step(Run(s, turns[..|turns| - 1]), turns[|turns| - 1])
  }

  function Payload(c: Call): Bytes {
    match c case Write(b) => b case _ => []
  }

  /** Every byte the handler wrote, in order. */
  function Written(turns: seq<Turn>): Bytes {
    if turns == [] then [] else Written(turns[..|turns| - 1]) + Payload(turns[|turns| - 1].call)
  }

  lemma RunPrefix(s: State, turns: seq<Turn>, n: nat)
    requires n < |turns|
    ensures Run(s, turns[..n + 1]) == Step(Run(s, turns[..n]), turns[n])
    ensures Written(turns[..n + 1]) == Written(turns[..n]) + Payload(turns[n].call)
  {
    hide Step, Payload;
    assert turns[..n + 1][..n] == turns[..n];
  }

  lemma RunNothing(s: State)
    ensures Run(s, []) == s && Written([]) == []
  {
  }

  // ---- The invariant of the writer ----

  /**
   Nothing is lost or reordered; the head goes out once, when streaming starts, and before any
   byte; the buffer is bounded, and empty while streaming.
   */
  ghost predicate Sound(s: State, written: Bytes) {
    && s.sent + s.buf == written
    && (s.streaming ==> s.buf == [])
    && (s.maxBytes > 0 ==> |s.buf| <= s.maxBytes)
    && |s.heads| == (if s.streaming then 1 else 0)
    && s.headerWritten == s.streaming
    && (s.overflow ==> s.streaming)
    && (!s.streaming ==> s.sent == [])
  }

  /** A status that starts a stream, announced when body bytes are already buffered. */
  predicate Strands(s: State, c: Call) {
    c.WriteHeader? && !s.headerWritten && DetectsStream(s.header) && s.buf != []
  }

  /** Each call keeps the invariant exactly when it does not strand buffered bytes. */
  lemma StepKeeps(s: State, turn: Turn, written: Bytes)
    requires Sound(s, written)
    ensures Sound(Step(s, turn), written + Payload(turn.call)) <==> !Strands(s, turn.call)
  {
    hide DetectsStream;
    match turn.call {
      case Write(b) =>
        assert (s.sent + s.buf) + b == s.sent + (s.buf + b);
        assert s.sent + b + [] == s.sent + b;
      case _ =>
        assert written + Payload(turn.call) == written;
        assert s.sent + s.buf + [] == s.sent + s.buf;
    }
  }

  lemma NewSound(maxBytes: int, w: Header)
    ensures Sound(NewState(maxBytes, w), [])
  {
  }

  /** The writer is sound all along a run exactly when no call of it strands buffered bytes. */
  lemma RunSoundIff(turns: seq<Turn>, maxBytes: int, w: Header)
    ensures var s := NewState(maxBytes, w);
      (forall n :: 0 <= n <= |turns| ==> Sound(Run(s, turns[..n]), Written(turns[..n])))
      <==> (forall n :: 0 <= n < |turns| ==> !Strands(Run(s, turns[..n]), turns[n].call))
  {
    hide Sound, Strands;
    var s := NewState(maxBytes, w);
    if forall n :: 0 <= n < |turns| ==> !Strands(Run(s, turns[..n]), turns[n].call) {
      SoundUpTo(turns, s, |turns|);
    }
    if forall n :: 0 <= n <= |turns| ==> Sound(Run(s, turns[..n]), Written(turns[..n])) {
      forall n | 0 <= n < |turns|
        ensures !Strands(Run(s, turns[..n]), turns[n].call)
      {
        RunPrefix(s, turns, n);
        assert Sound(Run(s, turns[..n + 1]), Written(turns[..n + 1]));
        StepKeeps(Run(s, turns[..n]), turns[n], Written(turns[..n]));
      }
    }
  }

  lemma {:induction false} SoundUpTo(turns: seq<Turn>, s: State, n: nat)
    requires n <= |turns| && s == NewState(s.maxBytes, s.clientHeader)
    requires forall k :: 0 <= k < n ==> !Strands(Run(s, turns[..k]), turns[k].call)
    ensures forall k :: 0 <= k <= n ==> Sound(Run(s, turns[..k]), Written(turns[..k]))
  {
    hide Sound, Strands, Run, Written, Step, NewState;
    if n == 0 {
      NewSound(s.maxBytes, s.clientHeader);
      RunNothing(s);
      assert turns[..0] == [];
    } else {
      SoundUpTo(turns, s, n - 1);
      RunPrefix(s, turns, n - 1);
      StepKeeps(Run(s, turns[..n - 1]), turns[n - 1], Written(turns[..n - 1]));
    }
  }

  // ---- The head ----

  /**
   Whatever the handler does, stranding included: exactly one head once streaming starts and none
   before, and until then nothing is sent and the buffer is the whole body so far.
   */
  ghost predicate HeadSound(s: State, written: Bytes) {
    && |s.heads| == (if s.streaming then 1 else 0)
    && s.headerWritten == s.streaming && (s.overflow ==> s.streaming)
    && (!s.streaming ==> s.sent == [] && s.buf == written)
  }

  lemma StepHead(s: State, turn: Turn, written: Bytes)
    requires HeadSound(s, written)
    ensures HeadSound(Step(s, turn), written + Payload(turn.call))
  {
    hide DetectsStream;
    if !turn.call.Write? {
      assert written + Payload(turn.call) == written;
    }
  }

  lemma {:induction false} HeadOnce(turns: seq<Turn>, maxBytes: int, w: Header)
    ensures HeadSound(Run(NewState(maxBytes, w), turns), Written(turns))
    decreases |turns|
  {
    hide Step, Payload, HeadSound;
    if turns == [] {
      NewHead(maxBytes, w);
    } else {
      var last := |turns| - 1;
      HeadOnce(turns[..last], maxBytes, w);
      StepHead(Run(NewState(maxBytes, w), turns[..last]), turns[last], Written(turns[..last]));
    }
  }

  lemma NewHead(maxBytes: int, w: Header)
    ensures HeadSound(NewState(maxBytes, w), [])
  {
  }

  // ---- Bytes in order ----

  predicate Conserved(s: State, written: Bytes) {
    s.sent + s.buf == written
  }

  /** A write that overtakes buffered bytes, and shows: the two do not read the same in either order. */
  predicate Overtakes(s: State, c: Call) {
    c.Write? && s.streaming && s.buf + c.b != c.b + s.buf
  }

  lemma NothingToOvertake(s: State, c: Call)
    ensures Overtakes(s, c) ==> s.buf != [] && c.b != []
  {
    if c.Write? {
      assert s.buf == [] ==> s.buf + c.b == c.b == c.b + s.buf;
      assert c.b == [] ==> s.buf + c.b == s.buf == c.b + s.buf;
    }
  }

  /** The same bytes in front, or behind, make no difference to whether two strings are equal. */
  lemma SameFront(p: Bytes, a: Bytes, b: Bytes)
    ensures p + a == p + b <==> a == b
  {
    if p + a == p + b {
      assert a == (p + a)[|p|..] && b == (p + b)[|p|..];
    }
  }

  lemma SameBack(a: Bytes, b: Bytes, q: Bytes)
    requires |a| == |b|
    ensures a + q == b + q <==> a == b
  {
    if a + q == b + q {
      assert a == (a + q)[..|a|] && b == (b + q)[..|b|];
    }
  }

  /** Each call keeps what is sent and what is buffered in order exactly when it does not overtake. */
  lemma StepConserves(s: State, turn: Turn, written: Bytes)
    requires Conserved(s, written)
    ensures Conserved(Step(s, turn), written + Payload(turn.call)) <==> !Overtakes(s, turn.call)
  {
    hide DetectsStream;
    match turn.call {
      case Write(b) =>
        assert (s.sent + s.buf) + b == s.sent + (s.buf + b);
        assert (s.sent + b) + s.buf == s.sent + (b + s.buf);
        SameFront(s.sent, b + s.buf, s.buf + b);
        assert s.sent + s.buf + b + [] == s.sent + s.buf + b;
      case _ =>
        assert written + Payload(turn.call) == written;
        assert s.sent + s.buf + [] == s.sent + s.buf;
    }
  }

  /** The bytes stay in order all along a run exactly when no write of it overtakes buffered bytes. */
  lemma RunConservesIff(turns: seq<Turn>, maxBytes: int, w: Header)
    ensures var s := NewState(maxBytes, w);
      (forall n :: 0 <= n <= |turns| ==> Conserved(Run(s, turns[..n]), Written(turns[..n])))
      <==> (forall n :: 0 <= n < |turns| ==> !Overtakes(Run(s, turns[..n]), turns[n].call))
  {
    hide Conserved, Overtakes;
    var s := NewState(maxBytes, w);
    if forall n :: 0 <= n < |turns| ==> !Overtakes(Run(s, turns[..n]), turns[n].call) {
      ConservedUpTo(turns, s, |turns|);
    }
    if forall n :: 0 <= n <= |turns| ==> Conserved(Run(s, turns[..n]), Written(turns[..n])) {
      forall n | 0 <= n < |turns|
        ensures !Overtakes(Run(s, turns[..n]), turns[n].call)
      {
        RunPrefix(s, turns, n);
        assert Conserved(Run(s, turns[..n + 1]), Written(turns[..n + 1]));
        StepConserves(Run(s, turns[..n]), turns[n], Written(turns[..n]));
      }
    }
  }

  lemma {:induction false} ConservedUpTo(turns: seq<Turn>, s: State, n: nat)
    requires n <= |turns| && s == NewState(s.maxBytes, s.clientHeader)
    requires forall k :: 0 <= k < n ==> !Overtakes(Run(s, turns[..k]), turns[k].call)
    ensures forall k :: 0 <= k <= n ==> Conserved(Run(s, turns[..k]), Written(turns[..k]))
  {
    hide Overtakes, Run, Written, Step;
    if n == 0 {
      RunNothing(s);
      assert turns[..0] == [];
    } else {
      hide NewState, Conserved;
      ConservedUpTo(turns, s, n - 1);
      RunPrefix(s, turns, n - 1);
      StepConserves(Run(s, turns[..n - 1]), turns[n - 1], Written(turns[..n - 1]));
    }
  }

  // ---- What the client has at the end ----

  /** Behind the handler the middleware sends what is buffered, unless the response streamed. */
  function Delivered(s: State): Bytes {
    if s.streaming then s.sent else s.buf
  }

  /** Bytes are buffered behind a stream that has begun. */
  predicate Stuck(s: State) {
    s.streaming && s.buf != []
  }

  /** A flush of stuck bytes comes too late: something else was sent in between, and it shows. */
  predicate FlushesLate(s: State, c: Call) {
    c.Flush? && Stuck(s) && s.sent + s.buf != s.buf + s.sent
  }

  /** Where the bytes written are, ok being whether no flush so far came too late. */
  ghost predicate Located(s: State, written: Bytes, ok: bool) {
    && s.headerWritten == s.streaming
    && if !s.streaming then ok && s.sent == [] && s.buf == written
       else if s.buf != [] then ok && written == s.buf + s.sent
       else |s.sent| == |written| && (ok <==> s.sent == written)
  }

  lemma StepLocated(s: State, turn: Turn, written: Bytes, ok: bool)
    requires Located(s, written, ok)
    ensures Located(Step(s, turn), written + Payload(turn.call), ok && !FlushesLate(s, turn.call))
  {
    hide DetectsStream;
    match turn.call {
      case Write(b) =>
        assert (s.buf + s.sent) + b == s.buf + (s.sent + b);
        assert [] + s.buf == s.buf && s.sent + [] == s.sent;
        if s.streaming && s.buf == [] { SameBack(s.sent, written, b); }
      case _ =>
        assert written + Payload(turn.call) == written;
        assert [] + s.buf == s.buf && s.buf + [] == s.buf && s.sent + [] == s.sent;
    }
  }

  predicate NoneLate(s: State, turns: seq<Turn>) {
    forall n :: 0 <= n < |turns| ==> !FlushesLate(Run(s, turns[..n]), turns[n].call)
  }

  lemma NoneLateNext(s: State, turns: seq<Turn>)
    requires turns != []
    ensures var last := |turns| - 1;
      NoneLate(s, turns) <==> NoneLate(s, turns[..last]) && !FlushesLate(Run(s, turns[..last]), turns[last].call)
  {
    hide FlushesLate, Run;
    var last := |turns| - 1;
    forall n | 0 <= n < last
      ensures turns[..last][..n] == turns[..n]
    {
    }
    assert NoneLate(s, turns) ==> forall n :: 0 <= n < last ==> !FlushesLate(Run(s, turns[..n]), turns[n].call);
    if NoneLate(s, turns[..last]) {
      forall n | 0 <= n < last
        ensures !FlushesLate(Run(s, turns[..n]), turns[n].call)
      {
        assert !FlushesLate(Run(s, turns[..last][..n]), turns[..last][n].call);
      }
    }
  }

  lemma {:induction false} RunLocated(turns: seq<Turn>, maxBytes: int, w: Header)
    ensures var s := NewState(maxBytes, w); Located(Run(s, turns), Written(turns), NoneLate(s, turns))
    decreases |turns|
  {
    hide Step, Payload, FlushesLate, Located, NoneLate;
    var s := NewState(maxBytes, w);
    if turns == [] {
      NewLocated(maxBytes, w);
    } else {
      var last := |turns| - 1;
      RunLocated(turns[..last], maxBytes, w);
      StepLocated(Run(s, turns[..last]), turns[last], Written(turns[..last]), NoneLate(s, turns[..last]));
      NoneLateNext(s, turns);
    }
  }

  lemma NewLocated(maxBytes: int, w: Header)
    ensures Located(NewState(maxBytes, w), [], NoneLate(NewState(maxBytes, w), []))
  {
  }

  /**
   The client ends up with exactly the bytes the handler wrote, in order, exactly when no bytes are
   stuck behind the stream at the end and none were flushed too late.
   */
  lemma DeliveredIff(turns: seq<Turn>, maxBytes: int, w: Header)
    ensures var s := NewState(maxBytes, w);
      Delivered(Run(s, turns)) == Written(turns) <==> !Stuck(Run(s, turns)) && NoneLate(s, turns)
  {
    hide Run, Written, NoneLate, NewState;
    RunLocated(turns, maxBytes, w);
  }

  /** A flush before anything else was sent is in time. */
  lemma FlushInTime(s: State, c: Call)
    requires s.sent == []
    ensures !FlushesLate(s, c)
  {
    assert [] + s.buf == s.buf == s.buf + [];
  }

  // ---- Concrete handlers ----

  const SSE: Header := map[CONTENT_TYPE := [EVENT_STREAM]]

  /** A first byte written, then an event stream announced. */
  const STRANDING := [Turn(Write([97]), map[]), Turn(SetHeader(SSE), map[]), Turn(WriteHeader(200), map[])]

  /** The state it leaves: the head is sent, the byte is stuck. */
  const STRANDED := State(SSE, [97], 200, 0, true, true, false, map[], [Head(200, map[])], [])

  lemma Strand()
    ensures Run(NewState(0, map[]), STRANDING) == STRANDED && Written(STRANDING) == [97]
    ensures Strands(Run(NewState(0, map[]), STRANDING[..2]), STRANDING[2].call)
  {
    hide DetectsStream, Run, Written;
    var s := NewState(0, map[]);
    ContentTypeDetected(SSE);
    RunNothing(s);
    assert STRANDING[..0] == [] && STRANDING[..3] == STRANDING;
    RunPrefix(s, STRANDING, 0);
    RunPrefix(s, STRANDING, 1);
    RunPrefix(s, STRANDING, 2);
  }

  lemma AfterStrand(turn: Turn)
    ensures Run(NewState(0, map[]), STRANDING + [turn]) == Step(STRANDED, turn)
    ensures Written(STRANDING + [turn]) == [97] + Payload(turn.call)
  {
    hide Run, Written, Step, NewState;
    Strand();
    RunPrefix(NewState(0, map[]), STRANDING + [turn], 3);
    assert (STRANDING + [turn])[..3] == STRANDING && (STRANDING + [turn])[..4] == STRANDING + [turn];
  }

  /** Announcing an event stream after the first body byte sends the second byte without the first. */
  lemma StrandingLosesBytes()
    ensures var turns := STRANDING + [Turn(Write([98]), map[])];
      var s := Run(NewState(0, map[]), turns);
      s.streaming && Delivered(s) == [98] && Written(turns) == [97, 98]
  {
    AfterStrand(Turn(Write([98]), map[]));
    hide Run, Written;
    assert [97] + [98] == [97, 98];
  }

  /** A flush right after the announcement saves the stranded byte. */
  lemma FlushSavesBytes()
    ensures var turns := STRANDING + [Turn(Flush, map[])];
      var s := Run(NewState(0, map[]), turns);
      s.streaming && s.buf == [] && Delivered(s) == Written(turns) == [97]
  {
    AfterStrand(Turn(Flush, map[]));
    hide Run, Written;
  }

  /** Overtaking need not show: the same byte written twice is in order whichever copy goes first. */
  lemma EqualBytesDoNotShow()
    ensures var s := Run(NewState(0, map[]), STRANDING);
      Stuck(s) && !Overtakes(s, Write([97])) && Overtakes(s, Write([98]))
  {
    Strand();
    hide Run, Written;
    assert [97] + [98] == [97, 98] && [98] + [97] == [98, 97];
    assert ([97] + [98])[0] != ([98] + [97])[0];
  }

  lemma ContentTypeDetected(h: Header)
    requires CONTENT_TYPE in h && h[CONTENT_TYPE] == [EVENT_STREAM]
    ensures DetectsStream(h)
  {
    assert forall i :: 0 <= i < 12 ==> IsTokenByte(CONTENT_TYPE[i]);
    assert forall i :: 0 <= i < 12 ==> Capitalise(CONTENT_TYPE)[i] == CONTENT_TYPE[i];
    assert Canonical(CONTENT_TYPE) == CONTENT_TYPE;
  }

  // ---- The writer itself, in front of the client's response ----

  class Client {
    var header: Header
    var heads: seq<Head>
    var sent: Bytes

    constructor (header: Header)
      ensures this.header == header && heads == [] && sent == []
    {
      this.header, heads, sent := header, [], [];
    }

    method WriteHeader(status: nat)
      modifies this`heads
      ensures heads == old(heads) + [Head(status, header)]
    {
      heads := heads + [Head(status, header)];
    }

    method Write(b: Bytes)
      modifies this`sent
      ensures sent == old(sent) + b
    {
      sent := sent + b;
    }
  }

  class CapturingResponseWriter {
    const w: Client
    var header: Header
    var buf: Bytes
    var statusCode: nat
    const maxBytes: int
    var headerWritten: bool
    var streaming: bool
    var overflow: bool

    function View(): State
      reads this, w
    {
      State(header, buf, statusCode, maxBytes, headerWritten, streaming, overflow, w.header, w.heads, w.sent)
    }

    constructor (w: Client, maxBytes: int)
      requires w.heads == [] && w.sent == []
      ensures View() == NewState(maxBytes, w.header) && this.w == w && this.maxBytes == maxBytes
    {
      this.w, this.maxBytes := w, maxBytes;
      header, buf, statusCode := map[], [], 0;
      headerWritten, streaming, overflow := false, false, false;
    }

    method SetHeader(h: Header)
      modifies this`header
      ensures View() == Step(old(View()), Turn(Call.SetHeader(h), w.header))
    {
      header := h;
    }

    method WriteHeader(code: nat)
      modifies this, w
      ensures View() == Step(old(View()), Turn(Call.WriteHeader(code), w.header)) && header == old(header)
      ensures headerWritten && !old(headerWritten) ==> IsMerge(w.header, old(w.header), header)
    {
      hide IsMerge, Get;
      if headerWritten {
        return;
      }
      statusCode := code;
      var ct := Get(header, CONTENT_TYPE);
      if EVENT_STREAM <= ct || Get(header, UPGRADE) != [] {
        streaming := true;
        CommitHead();
      }
    }

    method Write(b: Bytes)
      modifies this, w
      ensures View() == Step(old(View()), Turn(Call.Write(b), w.header)) && header == old(header)
      ensures headerWritten && !old(headerWritten) ==> IsMerge(w.header, old(w.header), header)
    {
      hide IsMerge;
      if streaming {
        CommitHead();
        w.Write(b);
        return;
      }
      if maxBytes > 0 && |buf| + |b| > maxBytes {
        overflow := true;
        streaming := true;
        CommitHead();
        if |buf| > 0 {
          w.Write(buf);
          buf := [];
        }
        w.Write(b);
        return;
      }
      buf := buf + b;
    }

    method Flush()
      modifies this, w
      ensures View() == Step(old(View()), Turn(Call.Flush, w.header)) && header == old(header)
      ensures headerWritten && !old(headerWritten) ==> IsMerge(w.header, old(w.header), header)
    {
      hide IsMerge;
      streaming := true;
      CommitHead();
      if |buf| > 0 {
        w.Write(buf);
        buf := [];
      }
    }

    method CommitHead()
      modifies this`headerWritten, w
      ensures View() == Commit(old(View()), w.header) && headerWritten
      ensures !old(headerWritten) ==> IsMerge(w.header, old(w.header), header)
    {
      hide IsMerge;
      if headerWritten {
        return;
      }
      headerWritten := true;
      w.header := AddAll(w.header, header);
      if statusCode > 0 {
        w.WriteHeader(statusCode);
      } else {
        w.WriteHeader(STATUS_OK);
      }
    }
  }
}
