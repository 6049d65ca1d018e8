/**
 The request protocol as a step machine: any number of requests and prefetch jobs look up the
 store, coalesce on in-flight calls, run the handler, fill the store and publish the result.

 Each event is one step of one thread between two synchronisation points. The store is known
 only by what was ever Set under each key, so a read may return any such entry or a miss; a
 reliable store, which neither evicts nor expires nor rejects, never misses a key once Set.
 */
module Protocol {
  import opened Bytes

  type Key = nat

  /** The names a Vary lists; lead tells whether its first part is empty, which shows in a variant's address. */
  datatype Vary = NoVary | Star | Fields(names: seq<Bytes>, lead: bool)

  /** A response as caching sees it; complete is false when the handler panicked while producing it. */
  datatype Entry = Entry(
    status: nat, setCookie: bool, noStore: bool, priv: bool, pub: bool,
    vary: Vary, recorded: set<(Bytes, Bytes)>, body: Bytes, complete: bool)

  datatype Request = Request(
    key: Key, sid: nat, auth: bool, cookies: bool, noCache: bool, noStore: bool,
    header: map<Bytes, Bytes>, prefetch: bool)

  datatype Config = Config(publicKeys: set<Key>, coalesceAuthenticated: bool, reliable: bool)

  // ---- Policy ----

  function HeaderValue(r: Request, name: Bytes): Bytes {
    if name in r.header then r.header[name] else []
  }

  function Signature(names: seq<Bytes>, r: Request): seq<(Bytes, Bytes)> {
    seq(|names|, i requires 0 <= i < |names| => (names[i], HeaderValue(r, names[i])))
  }

  predicate Matches(e: Entry, r: Request) {
    e.vary != Star && forall c :: c in e.recorded ==> HeaderValue(r, c.0) == c.1
  }

  predicate Permitted(cfg: Config, r: Request, e: Entry) {
    !r.auth || r.key in cfg.publicKeys || e.pub
  }

  /** The README's caching policy for a stored response. */
  predicate Storable(e: Entry) {
    e.status == 200 && !e.setCookie && !e.noStore && !e.priv && e.vary != Star
  }

  /** Whether the request's own run of the handler ends in the store. */
  predicate WillStore(cfg: Config, r: Request, e: Entry) {
    Storable(e) && MayShare(cfg, r, e) && (r.prefetch || !r.noStore)
  }

  /** A prefetch job does not look at the public routes. */
  predicate MayShare(cfg: Config, r: Request, e: Entry) {
    if r.prefetch then !r.auth || e.pub else Permitted(cfg, r, e)
  }

  datatype CallKey = Shared(key: Key) | PerUser(key: Key, sid: nat)

  function CoalesceKey(cfg: Config, r: Request): Option<CallKey> {
    if r.prefetch then Some(Shared(r.key))
    else if !r.noCache && !r.noStore && (r.key in cfg.publicKeys || (!r.auth && !r.cookies)) then Some(Shared(r.key))
    else if r.auth && cfg.coalesceAuthenticated then Some(PerUser(r.key, r.sid))
    else None
  }

  // ---- Threads ----

  datatype Error = NoError | NotShareable | StreamingResponse | PanicError | Cancelled

  datatype Result = Result(entry: Option<Entry>, err: Error, panicked: bool)

  /** What the leader's capturing writer did: nothing, buffered a whole response, or sent it. */
  datatype Recorder = NoRecorder | Buffered | Streamed

  datatype Delivery = Hit(e: Entry) | Coalesced(e: Entry) | Own(e: Entry) | Streaming | Nothing

  datatype PC =
    | Lookup | LookupVariant(primary: Entry)
    | Join | Waiting(call: nat)
    | Check(call: nat) | CheckVariant(call: nat, primary: Entry) | Running(call: nat)
    | Storing(call: nat, e: Entry) | StoringVariant(call: nat, e: Entry) | Finishing(call: nat, e: Entry)
    | Returned(call: nat, res: Result) | Removed(call: nat, res: Result)
    | PassRunning | PassStoring(e: Entry) | PassStoringVariant(e: Entry)
    | Done(d: Delivery) | Panicked

  /** runs counts handler executions, heads response heads sent, got is what a follower received. */
  datatype Thread = Thread(
    req: Request, pc: PC, isLeader: bool, leaderEntry: Option<Entry>, recorder: Recorder,
    runs: nat, heads: nat, stored: bool, got: Option<(nat, Result)>)

  function NewThread(r: Request): Thread {
    Thread(r, Lookup, false, None, NoRecorder, 0, 0, false, None)
  }

  /** Go's inflightCall: key and leader are for reference only. */
  datatype Call = Call(key: CallKey, leader: nat, entry: Option<Entry>, err: Error, done: bool)

  // ---- One step of one thread ----

  /** How a handler execution ends: panic (possibly after streaming), a stream, or a whole response. */
  datatype Outcome = Panic(streamed: bool) | Stream | Finish(e: Entry)

  /** What the environment decides in a step. */
  datatype Choice = Got(found: Option<Entry>) | SetDone(ok: bool) | Ended(outcome: Outcome) | Cancel | Tick

  datatype StoreKey = Primary(key: Key) | Variant(key: Key, sig: seq<(Bytes, Bytes)>, lead: bool)

  /** What a step does to the shared state. */
  datatype Effect =
    | NoEffect | Put(k: StoreKey, e: Entry) | NewCall(ck: CallKey)
    | Assign(call: nat, entry: Option<Entry>, err: Error) | Delete(ck: CallKey) | Close(call: nat, panicked: bool)

  function Send(th: Thread, d: Delivery): Thread {
    th.(pc := Done(d), heads := th.heads + 1)
  }

  function AfterMiss(cfg: Config, th: Thread): Thread {
    if CoalesceKey(cfg, th.req).Some? then th.(pc := Join) else StartPass(th)
  }

  function StartPass(th: Thread): Thread {
    th.(pc := PassRunning, runs := th.runs + 1)
  }

  function Serve(cfg: Config, th: Thread, e: Entry): Thread {
    if Matches(e, th.req) && Permitted(cfg, th.req, e) then Send(th, Hit(e)) else AfterMiss(cfg, th)
  }

  function StartRun(th: Thread, c: nat): Thread {
    th.(pc := Running(c), runs := th.runs + 1)
  }

  /** The leader's function returns: its result goes into the call. */
  function Return(th: Thread, c: nat, entry: Option<Entry>, err: Error): (Thread, Effect) {
    (th.(pc := Returned(c, Result(entry, err, false))), Assign(c, entry, err))
  }

  function Recheck(cfg: Config, th: Thread, c: nat, e: Entry): (Thread, Effect) {
    if th.req.prefetch || (Matches(e, th.req) && Permitted(cfg, th.req, e)) then Return(th, c, Some(e), NoError)
    else (StartRun(th, c), NoEffect)
  }

  /** Behind DoContext: the streaming return, cases A and B, and case C falling through. */
  function AfterDo(th: Thread, res: Result): Thread {
    if th.req.prefetch then th.(pc := Done(Nothing))
    else if th.isLeader && th.recorder == Streamed then th.(pc := Done(Streaming))
    else if res.err == NoError && res.entry.Some? then Send(th, Coalesced(res.entry.value))
    else if th.isLeader && th.leaderEntry.Some? && th.recorder == Buffered then Send(th, Own(th.leaderEntry.value))
    else StartPass(th)
  }

  function Recorded(e: Entry, r: Request): Entry {
    e.(recorded := if e.vary.Fields? then set c | c in Signature(e.vary.names, r) :: c else {})
  }

  /** The store key a thread is about to read or write. */
  function StoreKeyOf(th: Thread): StoreKey {
    match th.pc
    case LookupVariant(p) => VariantOf(p, th.req)
    case CheckVariant(_, p) => VariantOf(p, th.req)
    case StoringVariant(_, e) => VariantOf(e, th.req)
    case PassStoringVariant(e) => VariantOf(e, th.req)
    case _ => Primary(th.req.key)
  }

  function VariantOf(e: Entry, r: Request): StoreKey {
    if e.vary.Fields? then Variant(r.key, Signature(e.vary.names, r), e.vary.lead) else Primary(r.key)
  }

  /** Lookup, join and wait. */
  function StepBefore(cfg: Config, th: Thread, c: Choice, inflight: Option<nat>, next: nat, call: Option<Call>)
    : Option<(Thread, Effect)>
  {
    match (th.pc, c)
    case (Lookup, Tick) =>
      if th.req.noCache && !th.req.prefetch then Some((AfterMiss(cfg, th), NoEffect)) else None
    case (Lookup, Got(found)) =>
      if th.req.noCache && !th.req.prefetch then None
      else if found.None? then Some((AfterMiss(cfg, th), NoEffect))
      else if th.req.prefetch then Some((th.(pc := Done(Nothing)), NoEffect))
      else if found.value.vary.Fields? then Some((th.(pc := LookupVariant(found.value)), NoEffect))
      else Some((Serve(cfg, th, found.value), NoEffect))
    case (LookupVariant(p), Got(found)) =>
      Some((Serve(cfg, th, if found.Some? then found.value else p), NoEffect))
    case (Join, Tick) =>
      var ck := CoalesceKey(cfg, th.req);
      if ck.None? then None
      else if inflight.Some? then Some((th.(pc := Waiting(inflight.value)), NoEffect))
      else Some((th.(pc := Check(next), isLeader := true), NewCall(ck.value)))
    case (Waiting(id), Tick) =>
      if call.Some? && call.value.done then
        var res := Result(call.value.entry, call.value.err, false);
        Some((AfterDo(th.(got := Some((id, res))), res), NoEffect))
      else None
    case (Waiting(id), Cancel) =>
      if th.req.prefetch then None else Some((AfterDo(th, Result(None, Cancelled, false)), NoEffect))
    case _ => None
  }

  /** The leader's function, then removing and closing the call. */
  function StepLeader(cfg: Config, th: Thread, c: Choice): Option<(Thread, Effect)> {
    match (th.pc, c)
    case (Check(id), Got(found)) =>
      if found.None? then Some((StartRun(th, id), NoEffect))
      else if found.value.vary.Fields? && !th.req.prefetch then
        Some((th.(pc := CheckVariant(id, found.value)), NoEffect))
      else Some(Recheck(cfg, th, id, found.value))
    case (CheckVariant(id, p), Got(found)) =>
      Some(Recheck(cfg, th, id, if found.Some? then found.value else p))
    case (Running(id), Ended(outcome)) => EndRun(cfg, th, id, outcome)
    case (Storing(id, e), SetDone(ok)) =>
      var th' := th.(stored := th.stored || ok,
                     pc := if e.vary.Fields? && !th.req.prefetch then StoringVariant(id, e) else Finishing(id, e));
      Some((th', PutIf(ok, StoreKeyOf(th), e)))
    case (StoringVariant(id, e), SetDone(ok)) =>
      Some((th.(pc := Finishing(id, e)), PutIf(ok, StoreKeyOf(th), e)))
    case (Finishing(id, e), Tick) => Some(Return(th, id, Some(e), NoError))
    case (Returned(id, res), Tick) =>
      var ck := CoalesceKey(cfg, th.req);
      if ck.Some? then Some((th.(pc := Removed(id, res)), Delete(ck.value))) else None
    case (Removed(id, res), Tick) =>
      Some((if res.panicked then th.(pc := Panicked) else AfterDo(th, res), Close(id, res.panicked)))
    case _ => None
  }

  function PutIf(ok: bool, k: StoreKey, e: Entry): Effect {
    if ok then Effect.Put(k, e) else NoEffect
  }

  /** A prefetch records whatever a panicking handler left; a request's own handler must return. */
  function EndRun(cfg: Config, th: Thread, id: nat, outcome: Outcome): Option<(Thread, Effect)> {
    if th.req.prefetch then
      match outcome
      case Finish(e0) =>
        var e := Recorded(e0, th.req);
        if WillStore(cfg, th.req, e) then Some((th.(pc := Storing(id, e)), NoEffect))
        else Some(Return(th, id, None, NoError))
      case _ => None
    else
      match outcome
      case Panic(streamed) =>
        var res := Result(None, PanicError, true);
        Some((th.(pc := Returned(id, res), heads := th.heads + if streamed then 1 else 0), NoEffect))
      case Stream =>
        Some(Return(th.(recorder := Streamed, heads := th.heads + 1), id, None, StreamingResponse))
      case Finish(e0) =>
        if !e0.complete then None else
        var e := Recorded(e0, th.req);
        var th' := th.(recorder := Buffered, leaderEntry := Some(e));
        if WillStore(cfg, th.req, e) then Some((th'.(pc := Storing(id, e)), NoEffect))
        else Some(Return(th', id, None, NotShareable))
  }

  /** The uncoalesced execution. */
  function StepPass(cfg: Config, th: Thread, c: Choice): Option<(Thread, Effect)> {
    match (th.pc, c)
    case (PassRunning, Ended(Panic(streamed))) =>
      Some((th.(pc := Panicked, heads := th.heads + if streamed then 1 else 0), NoEffect))
    case (PassRunning, Ended(Stream)) => Some((Send(th, Streaming), NoEffect))
    case (PassRunning, Ended(Finish(e0))) =>
      if !e0.complete then None else
      var e := Recorded(e0, th.req);
      Some((if WillStore(cfg, th.req, e) then th.(pc := PassStoring(e)) else Send(th, Own(e)), NoEffect))
    case (PassStoring(e), SetDone(ok)) =>
      var th' := if e.vary.Fields? then th.(pc := PassStoringVariant(e)) else Send(th, Own(e));
      Some((th', PutIf(ok, StoreKeyOf(th), e)))
    case (PassStoringVariant(e), SetDone(ok)) =>
      Some((Send(th, Own(e)), PutIf(ok, StoreKeyOf(th), e)))
    case _ => None
  }

  predicate InPass(pc: PC) {
    pc.PassRunning? || pc.PassStoring? || pc.PassStoringVariant?
  }

  predicate BeforeFunction(pc: PC) {
    pc.Lookup? || pc.LookupVariant? || pc.Join? || pc.Waiting?
  }

  function StepThread(cfg: Config, th: Thread, c: Choice, inflight: Option<nat>, next: nat, call: Option<Call>)
    : Option<(Thread, Effect)>
  {
    if BeforeFunction(th.pc) then StepBefore(cfg, th, c, inflight, next, call)
    else if InPass(th.pc) then StepPass(cfg, th, c)
    else StepLeader(cfg, th, c)
  }

  // ---- The whole machine ----

  /** ever holds what was ever Set under each store key. */
  datatype State = State(
    ever: map<StoreKey, set<Entry>>, calls: map<CallKey, nat>, objs: seq<Call>, threads: seq<Thread>)

  datatype Event = Event(t: nat, choice: Choice)

  function EverSet(s: State, k: StoreKey): set<Entry> {
    if k in s.ever then s.ever[k] else {}
  }

  /** The choices the environment may make: reads see the store, a reliable store neither misses nor rejects. */
  predicate Allowed(cfg: Config, s: State, th: Thread, c: Choice) {
    match c
    case Got(found) =>
      if found.Some? then found.value in EverSet(s, StoreKeyOf(th))
      else cfg.reliable ==> EverSet(s, StoreKeyOf(th)) == {}
    case SetDone(ok) => cfg.reliable ==> ok
    case _ => true
  }

  function ApplyEffect(s: State, t: nat, effect: Effect): State {
    match effect
    case NoEffect => s
    case Put(k, e) => s.(ever := s.ever[k := EverSet(s, k) + {e}])
    case NewCall(ck) => s.(calls := s.calls[ck := |s.objs|], objs := s.objs + [Call(ck, t, None, NoError, false)])
    case Assign(id, entry, err) =>
      if id < |s.objs| then s.(objs := s.objs[id := s.objs[id].(entry := entry, err := err)]) else s
    case Delete(ck) => s.(calls := s.calls - {ck})
    case Close(id, panicked) =>
      if id < |s.objs| then
        s.(objs := s.objs[id := s.objs[id].(err := if panicked then PanicError else s.objs[id].err, done := true)])
      else s
  }

  function InflightOf(cfg: Config, s: State, th: Thread): Option<nat> {
    var ck := CoalesceKey(cfg, th.req);
    if ck.Some? && ck.value in s.calls then Some(s.calls[ck.value]) else None
  }

  function WaitedOn(s: State, th: Thread): Option<Call> {
    if th.pc.Waiting? && th.pc.call < |s.objs| then Some(s.objs[th.pc.call]) else None
  }

  function Plan(cfg: Config, s: State, th: Thread, c: Choice): Option<(Thread, Effect)> {
    StepThread(cfg, th, c, InflightOf(cfg, s, th), |s.objs|, WaitedOn(s, th))
  }

  function Step(cfg: Config, s: State, ev: Event): Option<State> {
    if ev.t >= |s.threads| then None else
    var th := s.threads[ev.t];
    if !Allowed(cfg, s, th, ev.choice) then None else
    match Plan(cfg, s, th, ev.choice)
    case None => None
    case Some((th', effect)) =>
      var s' := ApplyEffect(s, ev.t, effect);
      Some(s'.(threads := s.threads[ev.t := th']))
  }

  function Start(requests: seq<Request>): State {
    State(map[], map[], [], seq(|requests|, i requires 0 <= i < |requests| => NewThread(requests[i])))
  }

  /** The state after the events, if each was enabled in its turn. */
  function Run(cfg: Config, s: State, events: seq<Event>): Option<State> {
    if events == [] then Some(s) else
    match Run(cfg, s, events[..|events| - 1])
    case None => None
    case Some(s') => Step(cfg, s', events[|events| - 1])
  }
}
