/**
 What a handler's calls make of its response, told from the calls alone: when the writer starts to stream,
 with which status and headers, and what is captured if it never does.
 */
module WriterOutcome {
  import opened Bytes
  import opened HeaderCodec
  import opened Mime
  import opened Strings
  import opened ResponseWriter

  /** The code of the last WriteHeader, or 0. */
  function LastCode(turns: seq<Turn>): nat {
    if turns == [] then 0
    else
      var c := turns[|turns| - 1].call;
      if c.WriteHeader? then c.code else LastCode(turns[..|turns| - 1])
  }

  /** The headers as the handler last left them. */
  function LastHeader(turns: seq<Turn>): Header {
    if turns == [] then map[]
    else
      var c := turns[|turns| - 1].call;
      if c.SetHeader? then c.header else LastHeader(turns[..|turns| - 1])
  }

  /** An event stream or an upgrade. */
  predicate Announces(h: Header) {
    Ascii("text/event-stream") <= Get(h, Ascii("Content-Type")) || Get(h, Ascii("Upgrade")) != []
  }

  /**
   The last call starts streaming: a flush, a status over headers that announce a stream, or a write by which
   the body outgrows its limit, if there is one.
   */
  predicate Starts(turns: seq<Turn>, maxBytes: int)
    requires turns != []
  {
    match turns[|turns| - 1].call
    case SetHeader(_) => false
    case WriteHeader(_) => Announces(LastHeader(turns))
    case Write(_) => maxBytes > 0 && |Written(turns)| > maxBytes
    case Flush => true
  }

  /** How many calls there are up to and including the one that starts streaming. */
  function Until(turns: seq<Turn>, maxBytes: int): (n: Option<nat>)
    ensures n.Some? ==> 0 < n.value <= |turns| && Starts(turns[..n.value], maxBytes)
  {
    if turns == [] then None
    else
      var before := Until(turns[..|turns| - 1], maxBytes);
      assert turns[..|turns|] == turns;
      assert before.Some? ==> turns[..|turns| - 1][..before.value] == turns[..before.value];
      if before.Some? then before else if Starts(turns, maxBytes) then Some(|turns|) else None
  }

  lemma {:induction false} UntilFirst(turns: seq<Turn>, maxBytes: int, n: nat)
    requires 0 < n <= |turns| && Starts(turns[..n], maxBytes)
    ensures Until(turns, maxBytes).Some? && Until(turns, maxBytes).value <= n
    decreases |turns|
  {
    hide Starts;
    if n < |turns| {
      assert turns[..|turns| - 1][..n] == turns[..n];
      UntilFirst(turns[..|turns| - 1], maxBytes, n);
    } else {
      assert turns[..n] == turns;
    }
  }

  /** What the writer and its client show after the calls. */
  predicate Shows(s: State, turns: seq<Turn>, maxBytes: int, w: Header) {
    && s.header == LastHeader(turns) && s.maxBytes == maxBytes
    && match Until(turns, maxBytes)
       case None =>
         && !s.streaming && !s.headerWritten && !s.overflow && s.heads == [] && s.sent == []
         && s.statusCode == LastCode(turns) && s.buf == Written(turns) && s.clientHeader == w
       case Some(n) =>
         var code := LastCode(turns[..n]);
         && s.streaming && s.headerWritten && s.overflow == turns[n - 1].call.Write?
         && s.statusCode == code && s.clientHeader == turns[n - 1].out
         && s.heads == [Head(if code > 0 then code else 200, turns[n - 1].out)]
  }

  lemma AnnouncesIs(h: Header)
    ensures Announces(h) == DetectsStream(h)
  {
    assert EVENT_STREAM == Ascii("text/event-stream") && UPGRADE == Ascii("Upgrade");
    assert CONTENT_TYPE == Ascii("Content-Type");
    hide Get;
  }

  /** Nothing a handler does later changes the head that is out. */
  lemma HeadStays(s: State, turn: Turn)
    requires s.streaming && s.headerWritten
    ensures var s' := Step(s, turn);
      && s'.streaming && s'.headerWritten && s'.overflow == s.overflow && s'.maxBytes == s.maxBytes
      && s'.clientHeader == s.clientHeader && s'.heads == s.heads && s'.statusCode == s.statusCode
      && s'.header == if turn.call.SetHeader? then turn.call.header else s.header
  {
    hide DetectsStream;
  }

  /** Before, a call only adds to what is captured, or starts the stream over it. */
  lemma StartOrCapture(s: State, turn: Turn, w: Header)
    requires !s.streaming && !s.headerWritten && !s.overflow && s.heads == [] && s.sent == [] && s.clientHeader == w
    ensures var s', c := Step(s, turn), turn.call;
      var code := if c.WriteHeader? then c.code else s.statusCode;
      var starts := match c
        case SetHeader(_) => false
        case WriteHeader(_) => DetectsStream(s.header)
        case Write(b) => s.maxBytes > 0 && |s.buf + b| > s.maxBytes
        case Flush => true;
      && s'.header == (if c.SetHeader? then c.header else s.header) && s'.maxBytes == s.maxBytes
      && (if starts then
            && s'.streaming && s'.headerWritten && s'.overflow == c.Write? && s'.clientHeader == turn.out
            && s'.heads == [Head(if code > 0 then code else 200, turn.out)] && s'.statusCode == code
          else
            && !s'.streaming && !s'.headerWritten && !s'.overflow && s'.heads == [] && s'.sent == []
            && s'.statusCode == code && s'.buf == s.buf + Payload(c) && s'.clientHeader == w)
  {
    hide DetectsStream;
    assert s.buf + [] == s.buf;
  }

  lemma StreamShows(s: State, turns: seq<Turn>, maxBytes: int, w: Header)
    requires turns != [] && Shows(s, turns[..|turns| - 1], maxBytes, w)
    requires Until(turns[..|turns| - 1], maxBytes).Some?
    ensures Shows(Step(s, turns[|turns| - 1]), turns, maxBytes, w)
  {
    var prefix, n := turns[..|turns| - 1], Until(turns[..|turns| - 1], maxBytes).value;
    assert prefix[..n] == turns[..n] && prefix[n - 1] == turns[n - 1];
    HeadStays(s, turns[|turns| - 1]);
    hide Starts, Written, Step, LastCode;
  }

  lemma StepShows(s: State, turns: seq<Turn>, maxBytes: int, w: Header)
    requires turns != [] && Shows(s, turns[..|turns| - 1], maxBytes, w)
    ensures Shows(Step(s, turns[|turns| - 1]), turns, maxBytes, w)
  {
    if Until(turns[..|turns| - 1], maxBytes).Some? {
      hide *;
      StreamShows(s, turns, maxBytes, w);
    } else {
      AnnouncesIs(s.header);
      WrittenNext(turns);
      assert turns[..|turns|] == turns;
      StartOrCapture(s, turns[|turns| - 1], w);
      hide Announces, DetectsStream, Written, Step;
    }
  }

  lemma WrittenNext(turns: seq<Turn>)
    requires turns != []
    ensures Written(turns) == Written(turns[..|turns| - 1]) + Payload(turns[|turns| - 1].call)
  {
  }

  /**
   For every handler: the writer streams exactly from the first call that flushes, announces a stream or
   outgrows the limit; the one head then carries the code of the last WriteHeader up to that call, or 200,
   over that call's merge of the headers. Until then the status, headers and body captured are the handler's.
   */
  lemma {:induction false} HandlerShows(turns: seq<Turn>, maxBytes: int, w: Header)
    ensures Shows(Run(NewState(maxBytes, w), turns), turns, maxBytes, w)
    decreases |turns|
  {
    hide Shows, Step;
    if turns == [] {
      NothingShows(maxBytes, w);
    } else {
      HandlerShows(turns[..|turns| - 1], maxBytes, w);
      StepShows(Run(NewState(maxBytes, w), turns[..|turns| - 1]), turns, maxBytes, w);
    }
  }

  lemma NothingShows(maxBytes: int, w: Header)
    ensures Shows(NewState(maxBytes, w), [], maxBytes, w)
  {
  }

  /** It streams exactly if some call was a start. */
  lemma StreamsIff(turns: seq<Turn>, maxBytes: int, w: Header)
    ensures Run(NewState(maxBytes, w), turns).streaming <==>
      exists n :: 0 < n <= |turns| && Starts(turns[..n], maxBytes)
  {
    HandlerShows(turns, maxBytes, w);
    hide Starts, Run;
    if n :| 0 < n <= |turns| && Starts(turns[..n], maxBytes) {
      UntilFirst(turns, maxBytes, n);
    }
  }
}
