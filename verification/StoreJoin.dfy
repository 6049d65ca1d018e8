/**
 The store of the request protocol and the two-tier store under concurrency, joined step by step: if
 both have seen the same Sets, then what a Get answers, a Get misses, or a Set does in the two-tier
 store is a choice the protocol allows its environment, and both have still seen the same Sets.
 */
module StoreJoin {
  import opened Bytes
  import opened HeaderCodec
  import opened Mime
  import opened Shard
  import opened Tiered
  import opened StoreBridge
  import opened ProtocolAlike
  import Arena
  import Vary
  import P = Protocol
  import T = TierMachine
  import L = TierLimits
  import R = TierReliable

  // ---- Entries the protocol sees unchanged whichever tier they come from ----

  /** The lengths fit their fields, Vary was recorded by some request, and no other header looks internal. */
  ghost predicate Faithful(e: Arena.ResponseEntry) {
    && Vary.Overwritten(e.header, e.vary) && (forall k :: k in e.vary ==> IsToken(k))
    && (exists r0 :: IsCanonical(r0) && Vary.Satisfies(r0, e.vary))
    && forall h' :: Vary.IsPersisted(h', e.header, e.vary) ==> EntryFits(e.(header := h'))
  }

  lemma FitsStamped(stored: Arena.ResponseEntry, e: Arena.ResponseEntry, expire: nat)
    requires Faithful(e) && IsStamped(stored, e, expire)
    ensures EntryFits(stored)
  {
    hide Vary.IsPersisted, Vary.Overwritten, Vary.Satisfies, Fits;
    assert EntryFits(e.(header := stored.header));
  }

  /** So is an entry that has been stored already, internal headers and all, as when it is Set a second time. */
  lemma StampedFaithful(stored: Arena.ResponseEntry, e: Arena.ResponseEntry, expire: nat)
    requires Faithful(e) && IsStamped(stored, e, expire)
    ensures Faithful(stored)
  {
    hide Vary.InternalKey, Vary.IsInternal, Fits, IsToken, Vary.Satisfies, IsCanonical;
    forall h' | Vary.IsPersisted(h', stored.header, stored.vary)
      ensures EntryFits(stored.(header := h'))
    {
      PersistedTwice(h', stored.header, e.header, e.vary);
      assert EntryFits(e.(header := h'));
    }
  }

  lemma PersistedTwice(h'': Header, h': Header, h: Header, vary: Vary.VaryMap)
    requires Vary.IsPersisted(h'', h', vary) && Vary.IsPersisted(h', h, vary)
    ensures Vary.IsPersisted(h'', h, vary)
  {
    hide Vary.InternalKey;
  }

  ghost predicate AllFaithful(s: T.State) {
    forall t :: 0 <= t < |s.callers| && s.callers[t].req.SetOf? ==> Faithful(s.callers[t].req.entry)
  }

  lemma AnswerView(r: Arena.ResponseEntry, e: Arena.ResponseEntry, h: nat, b: Binding)
    requires Faithful(e) && IsStamped(b.entry, e, b.expire) && Answers(r, h, b)
    ensures ViewOf(r) == ViewOf(e) == ViewOf(b.entry)
  {
    hide Answers, ViewOf, IsStamped, EntryFits, Vary.Overwritten, Vary.Satisfies, IsCanonical, IsToken;
    FitsStamped(b.entry, e, b.expire);
    StampedView(b.entry, e, b.expire);
    var r0 :| IsCanonical(r0) && Vary.Satisfies(r0, e.vary);
    HitViewSurvives(e, r0, b, h, r);
  }

  // ---- Having seen the same Sets ----

  /** What the protocol sees of the bindings ever made for a hash. */
  ghost function SeenUnder(s: T.State, h: nat): set<P.Entry> {
    set p | p in s.ever && p.0 == h :: ViewOf(p.1.entry)
  }

  /** The store keys in use, and the hash that the two-tier store knows each of them by. */
  datatype Addresses = Addresses(used: set<P.StoreKey>, hash: P.StoreKey -> nat)

  ghost predicate Apart(a: Addresses) {
    forall j, k :: j in a.used && k in a.used && a.hash(j) == a.hash(k) ==> j == k
  }

  /** Under every store key in use the protocol has entries that look like those bound to its hash. */
  ghost predicate SameSets(ps: P.State, s: T.State, a: Addresses) {
    forall k :: k in a.used ==> Looks(P.EverSet(ps, k)) == SeenUnder(s, a.hash(k))
  }

  // ---- A Get that answers ----

  /** An answer is a read the protocol allows, at the time of its last step. */
  lemma AnswerAllowed(cfg: P.Config, ps: P.State, th: P.Thread, s: T.State, g: nat, a: Addresses)
      returns (e: P.Entry)
    requires T.Inv(s) && AllFaithful(s) && SameSets(ps, s, a) && P.StoreKeyOf(th) in a.used
    requires g < |s.callers| && s.callers[g].req == T.GetOf(a.hash(P.StoreKeyOf(th))) && s.callers[g].pc.Answered?
    ensures P.Allowed(cfg, ps, th, P.Got(Some(e))) && Whole(e) == ViewOf(s.callers[g].pc.r)
  {
    var k := P.StoreKeyOf(th);
    var h, r := a.hash(k), s.callers[g].pc.r;
    assert T.CallerOk(s.ever, s.now, s.callers[g]);
    hide Answers, ViewOf, Faithful, P.EverSet, P.StoreKeyOf, IsStamped, T.CallerOk, Whole;
    var b := ServedBy(s, h, r, s.callers[g].pc.at);
    var t := SetterOf(s, (h, b));
    AnswerView(r, s.callers[t].req.entry, h, b);
    assert ViewOf((h, b).1.entry) in SeenUnder(s, h);
    assert ViewOf(r) in Looks(P.EverSet(ps, k));
    e :| e in P.EverSet(ps, k) && Whole(e) == ViewOf(r);
  }

  lemma ServedBy(s: T.State, h: nat, r: Arena.ResponseEntry, at: nat) returns (b: Binding)
    requires T.Served(s.ever, h, r, at)
    ensures (h, b) in s.ever && Answers(r, h, b)
  {
    hide Answers;
    b :| (h, b) in s.ever && Answers(r, h, b) && !Arena.Expired(b.expire, at);
  }

  lemma SetterOf(s: T.State, p: (nat, Binding)) returns (t: nat)
    requires T.Inv(s) && p in s.ever
    ensures t < |s.callers| && s.callers[t].req.SetOf? && IsStamped(p.1.entry, s.callers[t].req.entry, p.1.expire)
  {
    hide T.ShardOk, T.SlotOk, T.CallerOk, IsStamped;
    assert T.SetBy(s.callers, p, s.now);
    t :| 0 <= t < |s.callers| && T.SetIn(s.callers[t], p, s.now);
  }

  // ---- A Get that misses ----

  /**
   A Get that finds nothing in the arena, or only an expired record, makes a miss the protocol allows:
   always if its store need not be reliable, and if it must, whenever every Set fitted so far and
   nothing has expired.
   */
  lemma MissAllowed(cfg: P.Config, ps: P.State, th: P.Thread, s: T.State, g: nat, a: Addresses)
    requires T.Inv(s) && T.Ready(s) && SameSets(ps, s, a) && P.StoreKeyOf(th) in a.used
    requires cfg.reliable ==> R.HoldsAll(s) && R.Unexpired(s)
    requires g < |s.callers| && s.callers[g] == T.Caller(T.GetOf(a.hash(P.StoreKeyOf(th))), T.MissedL1)
    requires T.Step(s, T.Event(g, s.now, T.Tick)).Some?
    ensures P.Allowed(cfg, ps, th, P.Got(None))
  {
    var k := P.StoreKeyOf(th);
    var h := a.hash(k);
    L.NowIs(s, g, T.Tick);
    assert Looks(P.EverSet(ps, k)) == SeenUnder(s, h);
    if cfg.reliable && R.EverSet(s, h) {
      var rec := R.FoundFor(s, h);
      hide Arena.Find, Arena.Consistent, R.HoldsAll, R.Unexpired, T.Inv, Arena.Expired;
      assert false;
    }
    hide *;
    if e :| e in P.EverSet(ps, k) {
      LooksIn(P.EverSet(ps, k), e);
      SeenEver(s, h);
    }
    NoneAllowed(cfg, ps, th);
  }

  lemma LooksIn(es: set<P.Entry>, e: P.Entry)
    requires e in es
    ensures Whole(e) in Looks(es)
  {
  }

  lemma SeenEver(s: T.State, h: nat)
    ensures SeenUnder(s, h) != {} ==> R.EverSet(s, h)
  {
    hide ViewOf;
    if v :| v in SeenUnder(s, h) {
      var p :| p in s.ever && p.0 == h && v == ViewOf(p.1.entry);
      assert (h, p.1) in s.ever;
    }
  }

  lemma NoneAllowed(cfg: P.Config, ps: P.State, th: P.Thread)
    requires cfg.reliable ==> P.EverSet(ps, P.StoreKeyOf(th)) == {}
    ensures P.Allowed(cfg, ps, th, P.Got(None))
  {
  }

  /** What a Get read from L2 expires with some binding of its hash. */
  ghost predicate ReadBound(ever: set<(nat, Binding)>, c: T.Caller) {
    c.req.GetOf? && c.pc.ReadL2? ==> exists b :: (c.req.h, b) in ever && b.expire == c.pc.r.expiresAt
  }

  /** So is the miss of a Get whose entry expired between the read and the last check. */
  lemma ExpiredMissAllowed(cfg: P.Config, ps: P.State, th: P.Thread, s: T.State, g: nat, a: Addresses)
    requires T.Inv(s) && g < |s.callers| && s.callers[g].req == T.GetOf(a.hash(P.StoreKeyOf(th)))
    requires s.callers[g].pc.ReadL2? && T.Step(s, T.Event(g, s.now, T.Tick)).Some?
    requires cfg.reliable ==> R.Unexpired(s) && ReadBound(s.ever, s.callers[g])
    ensures T.Step(s, T.Event(g, s.now, T.Tick)).value.callers[g].pc == T.Done ==> P.Allowed(cfg, ps, th, P.Got(None))
  {
    L.NowIs(s, g, T.Tick);
    if cfg.reliable {
      R.BoundUnexpired(s, a.hash(P.StoreKeyOf(th)), s.callers[g].pc.r.expiresAt);
      hide Arena.Find, Arena.Consistent, R.Unexpired, T.Inv;
    }
  }

  // ---- A Set ----

  lemma SameView(a: Arena.ResponseEntry, b: Arena.ResponseEntry)
    requires a == b.(expiresAt := a.expiresAt)
    ensures ViewOf(a) == ViewOf(b)
  {
    hide VaryOf;
  }

  lemma SeenNext(s: T.State, s': T.State, h: nat, b: Binding, x: nat)
    requires s'.ever == s.ever + {(h, b)}
    ensures SeenUnder(s', x) == if x == h then SeenUnder(s, x) + {ViewOf(b.entry)} else SeenUnder(s, x)
  {
    hide ViewOf;
    forall v
      ensures v in SeenUnder(s', x) <==> v in SeenUnder(s, x) || (x == h && v == ViewOf(b.entry))
    {
      if v in SeenUnder(s, x) {
        var p :| p in s.ever && p.0 == x && v == ViewOf(p.1.entry);
        assert p in s'.ever;
      }
      if x == h && v == ViewOf(b.entry) {
        assert (h, b) in s'.ever && (h, b).0 == x && v == ViewOf((h, b).1.entry);
      }
      if v in SeenUnder(s', x) {
        var p :| p in s'.ever && p.0 == x && v == ViewOf(p.1.entry);
        assert p in s.ever || p == (h, b);
      }
    }
  }

  /** The binding a successful write adds. */
  lemma BindingWritten(s: T.State, t: nat, h: nat, entry: Arena.ResponseEntry, ttl: int, c: T.Choice)
    requires T.Inv(s) && t < |s.callers| && s.callers[t].req == T.SetOf(h, entry, ttl) && c.Written?
    requires T.StepSet(s, t, h, entry, ttl, c).Some? && s.callers[t].pc.Stamped?
    ensures var s' := T.StepSet(s, t, h, entry, ttl, c).value; var b := Binding(c.stored, ExpiryOf(ttl, s.now));
      && s'.ever == (if s'.callers[t].pc.Accepted? then s.ever + {(h, b)} else s.ever)
      && IsStamped(c.stored, s.callers[t].pc.e, ExpiryOf(ttl, s.now))
      && s.callers[t].pc.e == entry.(expiresAt := s.callers[t].pc.e.expiresAt)
  {
    assert T.CallerOk(s.ever, s.now, s.callers[t]);
    hide T.Inv, T.Backed, T.Served, Arena.Put, Arena.Accepts, Arena.Encodable, IsStamped, IsRecordOf;
  }

  /**
   A Set that writes its record is a successful Set of the protocol, and one whose record is refused
   is an unsuccessful one, for every response that looks like the entry, complete or not; either way
   both stores have still seen the same Sets.
   */
  lemma SetAllowed(cfg: P.Config, ps: P.State, th: P.Thread, s: T.State, t: nat, a: Addresses,
                   k: P.StoreKey, e: P.Entry, c: T.Choice)
    requires T.Inv(s) && T.Ready(s) && SameSets(ps, s, a) && Apart(a) && t < |s.callers| && c.Written?
    requires s.callers[t].req.SetOf? && k in a.used && s.callers[t].req.h == a.hash(k)
    requires Whole(e) == ViewOf(s.callers[t].req.entry)
    requires T.Step(s, T.Event(t, s.now, c)).Some? && s.callers[t].pc.Stamped?
    requires cfg.reliable ==> R.Harmless(s, T.Event(t, s.now, c))
    ensures var s' := T.Step(s, T.Event(t, s.now, c)).value; var ok := s'.callers[t].pc.Accepted?;
      && P.Allowed(cfg, ps, th, P.SetDone(ok))
      && (forall u: nat :: SameSets(P.ApplyEffect(ps, u, P.PutIf(ok, k, e)), s', a))
  {
    var h, entry, ttl := s.callers[t].req.h, s.callers[t].req.entry, s.callers[t].req.ttl;
    L.NowIs(s, t, c);
    BindingWritten(s, t, h, entry, ttl, c);
    var s' := T.Step(s, T.Event(t, s.now, c)).value;
    var ok, b := s'.callers[t].pc.Accepted?, Binding(c.stored, ExpiryOf(ttl, s.now));
    RefusedOnlyUnreliable(s, t, h, entry, ttl, c);
    StampedView(c.stored, s.callers[t].pc.e, ExpiryOf(ttl, s.now));
    SameView(s.callers[t].pc.e, entry);
    hide T.Inv, T.Ready, T.Step, T.StepSet, ViewOf, SeenUnder, P.EverSet, P.ApplyEffect, R.Harmless, IsStamped, Looks;
    hide Whole;
    forall u: nat
      ensures SameSets(P.ApplyEffect(ps, u, P.PutIf(ok, k, e)), s', a)
    {
      forall x: P.StoreKey | x in a.used
        ensures Looks(P.EverSet(P.ApplyEffect(ps, u, P.PutIf(ok, k, e)), x)) == SeenUnder(s', a.hash(x))
      {
        EverPut(ps, u, ok, k, e, x);
        LooksPut(P.EverSet(ps, x), e);
        if ok {
          SeenNext(s, s', h, b, a.hash(x));
        } else {
          SameSeen(s, s', a.hash(x));
        }
      }
    }
  }

  lemma EverPut(ps: P.State, u: nat, ok: bool, k: P.StoreKey, e: P.Entry, x: P.StoreKey)
    ensures P.EverSet(P.ApplyEffect(ps, u, P.PutIf(ok, k, e)), x) ==
      if ok && x == k then P.EverSet(ps, x) + {e} else P.EverSet(ps, x)
  {
  }

  lemma SameSeen(s: T.State, s': T.State, x: nat)
    requires s'.ever == s.ever
    ensures SeenUnder(s', x) == SeenUnder(s, x)
  {
    hide ViewOf;
  }

  lemma RefusedOnlyUnreliable(s: T.State, t: nat, h: nat, entry: Arena.ResponseEntry, ttl: int, c: T.Choice)
    requires T.Ready(s) && t < |s.callers| && s.callers[t].req == T.SetOf(h, entry, ttl) && c.Written?
    requires T.StepSet(s, t, h, entry, ttl, c).Some? && s.callers[t].pc.Stamped?
    ensures R.Harmless(s, T.Event(t, s.now, c)) ==> T.StepSet(s, t, h, entry, ttl, c).value.callers[t].pc.Accepted?
  {
    hide Arena.Put, Arena.Accepts, Arena.Overflows, Arena.Encodable, IsStamped, IsRecordOf, Arena.Consistent;
  }

  /** No other step of the two-tier store is a Set to the protocol. */
  lemma OtherStepsSeeNothing(ps: P.State, s: T.State, ev: T.Event, a: Addresses)
    requires T.Inv(s) && SameSets(ps, s, a) && T.Step(s, ev).Some?
    requires !(s.callers[ev.t].req.SetOf? && ev.choice.Written?)
    ensures SameSets(ps, T.Step(s, ev).value, a)
  {
    var s1 := s.(now := ev.now);
    T.InvReady(s);
    T.ClockKeeps(s, ev.now);
    T.InvReady(s1);
    EverUnchanged(s1, ev.t, ev.choice);
    hide T.Inv, T.Ready, T.StepAt, SeenUnder, P.EverSet;
    forall x: P.StoreKey | x in a.used
      ensures Looks(P.EverSet(ps, x)) == SeenUnder(T.Step(s, ev).value, a.hash(x))
    {
      SameSeen(s, T.Step(s, ev).value, a.hash(x));
    }
  }

  lemma EverUnchanged(s: T.State, t: nat, c: T.Choice)
    requires T.Ready(s) && t < |s.callers| && T.StepAt(s, t, c).Some? && !(s.callers[t].req.SetOf? && c.Written?)
    ensures T.StepAt(s, t, c).value.ever == s.ever
  {
    match s.callers[t].req {
      case GetOf(h) => R.GetShards(s, t, h, c);
      case SetOf(h, entry, ttl) => T.WrittenOnly(s, t, h, entry, ttl, c); R.SetShards(s, t, h, entry, ttl);
      case DelOf(h) => DelEver(s, t, h, c);
    }
    hide T.StepGet, T.StepSet, T.StepDel, T.Ready;
  }

  lemma DelEver(s: T.State, t: nat, h: nat, c: T.Choice)
    requires T.Shaped(s) && t < |s.callers| && T.StepDel(s, t, h, c).Some?
    ensures T.StepDel(s, t, h, c).value.ever == s.ever
  {
    hide Arena.Remove;
  }

  /** At the start neither has seen any Set. */
  lemma StartSameSets(requests: seq<P.Request>, calls: seq<T.Request>, numShards: nat, maxSize: nat,
                      a: Addresses)
    ensures SameSets(P.Start(requests), T.Start(calls, numShards, maxSize), a)
  {
    hide ViewOf;
  }
}
