/**
 The coalescer as it keeps its state: a map from keys to call objects that leaders fill and close,
 and that followers hold on to. Each critical section is one shared effect of the request protocol.
 */
module InflightGroup {
  import opened Bytes
  import opened Protocol

  /** The result a leader publishes; done stands for the closed channel. */
  class InflightCall {
    var entry: Option<Entry>
    var err: Error
    var done: bool
    ghost const key: CallKey
    ghost const leader: nat

    constructor (ghost key: CallKey, ghost leader: nat)
      ensures Snapshot() == Call(key, leader, None, NoError, false)
    {
      entry, err, done := None, NoError, false;
      this.key, this.leader := key, leader;
    }

    ghost function Snapshot(): Call
      reads this
    {
      Call(key, leader, entry, err, done)
    }
  }

  class InflightGroup {
    var calls: map<CallKey, InflightCall>
    /** Every call ever made, and the place there of each one in flight. */
    ghost var made: seq<InflightCall>
    ghost var ids: map<CallKey, nat>

    ghost predicate Valid()
      reads this
    {
      && (forall i, j :: 0 <= i < j < |made| ==> made[i] != made[j])
      && ids.Keys == calls.Keys
      && forall k :: k in calls ==> ids[k] < |made| && made[ids[k]] == calls[k]
    }

    ghost function Objs(): (objs: seq<Call>)
      reads this, made
      ensures |objs| == |made| && forall i :: 0 <= i < |made| ==> objs[i] == made[i].Snapshot()
    {
      seq(|made|, i requires 0 <= i < |made| reads this, made => made[i].Snapshot())
    }

    /** The protocol state with this coalescer in it. */
    ghost function In(s: State): State
      reads this, made
    {
      s.(calls := ids, objs := Objs())
    }

    constructor ()
      ensures Valid() && ids == map[] && made == []
    {
      calls, made, ids := map[], [], map[];
    }

    /** A new call under a key that has none in flight. */
    method Register(ck: CallKey, ghost t: nat) returns (c: InflightCall)
      requires Valid() && ck !in calls
      modifies this
      ensures Valid() && fresh(c) && made == old(made) + [c] && ids == old(ids)[ck := |old(made)|]
      ensures Objs() == old(Objs()) + [Call(ck, t, None, NoError, false)]
    {
      c := new InflightCall(ck, t);
      made, ids := made + [c], ids[ck := |made|];
      calls := calls[ck := c];
      assert forall i :: 0 <= i < |made| - 1 ==>
        made[i] == old(made)[i] && made[i].Snapshot() == old(made[i].Snapshot());
    }

    /** The first critical section of DoContext: join the call in flight or become its leader. */
    method Enter(ck: CallKey, ghost t: nat, ghost s: State) returns (c: InflightCall, leads: bool)
      requires Valid()
      modifies this
      ensures Valid() && leads == (ck !in old(calls)) && old(made) <= made
      ensures ck in ids && ids[ck] < |made| && c == made[ids[ck]]
      ensures In(s) == if leads then ApplyEffect(old(In(s)), t, NewCall(ck)) else old(In(s))
    {
      if ck in calls {
        return calls[ck], false;
      }
      leads := true;
      c := Register(ck, t);
    }

    /** The leader's function returned: its result goes into the call it made. */
    method Fill(ghost id: nat, c: InflightCall, entry: Option<Entry>, err: Error, ghost s: State)
      requires Valid() && id < |made| && c == made[id]
      modifies c
      ensures Valid() && In(s) == ApplyEffect(old(In(s)), c.leader, Assign(id, entry, err))
    {
      c.entry, c.err := entry, err;
      assert Objs() == old(Objs())[id := c.Snapshot()];
    }

    /** The second critical section: the key is free for a new leader. */
    method Remove(ck: CallKey, ghost t: nat, ghost s: State)
      requires Valid()
      modifies this
      ensures Valid() && made == old(made) && In(s) == ApplyEffect(old(In(s)), t, Delete(ck))
    {
      calls := calls - {ck};
      ids := ids - {ck};
    }

    /** A panic replaces the error; then the result is published to every follower. */
    method Publish(ghost id: nat, c: InflightCall, panicked: bool, ghost s: State)
      requires Valid() && id < |made| && c == made[id]
      modifies c
      ensures Valid() && In(s) == ApplyEffect(old(In(s)), c.leader, Close(id, panicked))
    {
      if panicked {
        c.err := PanicError;
      }
      c.done := true;
      assert Objs() == old(Objs())[id := c.Snapshot()];
    }

    /** What a follower returns with once the call it holds is closed; it may have left the map long ago. */
    method Wait(ghost id: nat, c: InflightCall) returns (res: Result)
      requires Valid() && id < |made| && c == made[id] && c.done
      ensures res == Result(Objs()[id].entry, Objs()[id].err, false)
    {
      res := Result(c.entry, c.err, false);
    }
  }
}
