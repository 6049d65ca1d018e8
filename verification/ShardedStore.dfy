/** The ShardedStore: keys spread over shards by their hash, each operation confined to one shard. */
module Sharded {
  import opened Bytes
  import opened HeaderCodec
  import opened Arena
  import opened Shard

  const MIN_SHARD_SIZE: nat := 64 * 1024

  class ShardedStore {
    const shards: seq<CacheShard>

    ghost predicate Valid()
      reads shards
    {
      && |shards| > 0
      && (forall i, j :: 0 <= i < j < |shards| ==> shards[i] != shards[j])
      && forall i :: 0 <= i < |shards| ==> shards[i].Valid()
    }

    /** The record readable under h, expired or not. */
    ghost function Found(h: nat): Option<Record>
      requires Valid()
      reads shards
    {
      Find(ShardFor(h).arena, h)
    }

    function ShardFor(h: nat): CacheShard
      requires |shards| > 0
    {
      shards[h % |shards|]
    }

    constructor (numShards: nat, maxCostBytes: nat)
      requires numShards > 0 && 2 * (maxCostBytes / numShards) < U32
      ensures Valid() && fresh(shards) && |shards| == numShards
      ensures forall i :: 0 <= i < numShards ==>
        shards[i].maxSize == if maxCostBytes / numShards < 65536 then 65536 else maxCostBytes / numShards
      ensures forall h :: Found(h) == None
    {
      var shardMaxSize := maxCostBytes / numShards;
      if shardMaxSize < MIN_SHARD_SIZE {
        shardMaxSize := MIN_SHARD_SIZE;
      }
      var all: seq<CacheShard> := [];
      while |all| < numShards
        invariant |all| <= numShards
        invariant forall i :: 0 <= i < |all| ==> fresh(all[i]) && all[i].Valid() && all[i].arena == EMPTY
        invariant forall i :: 0 <= i < |all| ==> all[i].maxSize == shardMaxSize
        invariant forall i, j :: 0 <= i < j < |all| ==> all[i] != all[j]
      {
        var shard := new CacheShard(shardMaxSize);
        all := all + [shard];
      }
      shards := all;
    }

    method GetByHash(h: nat, now: nat) returns (r: Option<ResponseEntry>)
      requires Valid()
      ensures match Found(h)
        case None => r == None
        case Some(rec) =>
          if rec.expire > 0 && now > rec.expire then r == None
          else r.Some? && ReadsBack(r.value, ImageOf(rec))
    {
      r := ShardFor(h).GetByHash(h, now);
    }

    method SetByHash(h: nat, entry: ResponseEntry, ttl: int, now: nat)
      returns (stored: ResponseEntry, ok: bool, ghost rec: Record)
      requires Valid() && h < U64 && ExpiryOf(ttl, now) <= I64_MAX && Addressable(entry)
      modifies ShardFor(h)
      ensures Valid()
      ensures IsStamped(stored, entry, ExpiryOf(ttl, now)) && IsRecordOf(rec, h, stored, ExpiryOf(ttl, now))
      ensures rec.expire == (if ttl > 0 then now + ttl else 0)
      ensures stored.expiresAt == if ttl > 0 then now + ttl else entry.expiresAt
      ensures ok == Accepts(old(ShardFor(h).arena), rec, ShardFor(h).maxSize)
      ensures ok ==> Found(h) == Some(rec)
      ensures forall x :: x != h ==>
        Found(x) == if ok && ShardFor(x) == ShardFor(h) && Overflows(old(ShardFor(h).arena), rec, ShardFor(h).maxSize)
                    then None else old(Found(x))
      ensures !ok ==> Found(h) == old(Found(h))
    {
      hide Layout, Addressable, IsStamped, IsEncoding, Find, Put, Consistent, Accepts, Overflows;
      stored, ok, rec := ShardFor(h).SetByHash(h, entry, ttl, now);
    }

    method Del(h: nat)
      requires Valid()
      modifies ShardFor(h)
      ensures Valid() && Found(h) == None
      ensures forall x :: x != h ==> Found(x) == old(Found(x))
    {
      hide Layout, Find, Consistent;
      RemoveKeeps(ShardFor(h).arena, h);
      ShardFor(h).Del(h);
    }

    method Close()
      requires Valid()
      modifies shards
      ensures Valid() && forall h :: Found(h) == None
      ensures forall i :: 0 <= i < |shards| ==> shards[i].arena == CLOSED
    {
      hide Layout;
      for i := 0 to |shards|
        invariant Valid()
        invariant forall j :: 0 <= j < i ==> shards[j].arena == CLOSED
      {
        shards[i].Close();
      }
    }
  }
}
