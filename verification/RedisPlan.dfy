/** From the fetches of a request to its countdowns: what the issuing loop of `RedisService::do_service` sets up. */
module RedisPlan {
  import opened Batching
  import opened RedisRequest

  /** A fetch as the loop finds it: whether its client is known, and how many keys it has. */
  datatype Fetch = Fetch(known: bool, keys: nat)

  /** What is sent for a fetch: nothing without a client or without keys; without MGET a send for each key; with it the
      fewest batches that the configured size allows, of equal size except for the last.  Their ranges partition the
      keys, and the k-th answer goes to cell k. */
  ghost predicate SendsOf(fetch: Fetch, batchSize: nat, multiGet: bool, ranges: seq<(nat, nat)>, cells: seq<nat>) {
    && |cells| == |ranges|
    && (forall k :: 0 <= k < |cells| ==> cells[k] == k)
    && if fetch.known && fetch.keys > 0 then
         && Partition(ranges, fetch.keys)
         && (if multiGet then IsCeiling(|ranges|, fetch.keys, batchSize) else |ranges| == fetch.keys)
         && Even(ranges, fetch.keys)
       else ranges == []
  }

  /** All but the last range are as long as n keys spread over that many ranges need, and the last is no longer. */
  ghost predicate Even(ranges: seq<(nat, nat)>, n: nat) {
    exists step: nat :: IsCeiling(step, n, |ranges|) && forall k :: 0 <= k < |ranges| ==> RangeAt(ranges[k], k, step, n)
  }

  ghost predicate RangeAt(range: (nat, nat), k: nat, step: nat, n: nat) {
    range == (k * step, Min(k * step + step, n))
  }

  ghost predicate Planned(fetches: seq<Fetch>, batchSize: nat, multiGet: bool, r: Request,
                          ranges: seq<seq<(nat, nat)>>, cells: seq<seq<nat>>) {
    && |r.batches| == |ranges| == |cells| == |fetches|
    && (forall f: nat {:trigger ranges[f]} :: f < |fetches| ==>
          SendsOf(fetches[f], batchSize, multiGet, ranges[f], cells[f]) && Init(r).item[f] == |ranges[f]|)
  }

  /** The countdowns start at the right values: the outer one at the number of fetches, and each inner one, computed
      before the first send, at the number of sends that the loop then makes. */
  method PlanRequest(fetches: seq<Fetch>, batchSize: nat, multiGet: bool, cached: bool)
    returns (r: Request, ranges: seq<seq<(nat, nat)>>, cells: seq<seq<nat>>)
    requires batchSize >= 1
    ensures Planned(fetches, batchSize, multiGet, r, ranges, cells)
    ensures Init(r).cond == |fetches| && r.cached == cached
  {
    ranges, cells := [], [];
    var batches := [];
    for f := 0 to |fetches|
      invariant |batches| == |ranges| == |cells| == f
      invariant forall g: nat {:trigger ranges[g]} :: g < f ==>
        SendsOf(fetches[g], batchSize, multiGet, ranges[g], cells[g]) && batches[g] == |ranges[g]|
    {
      var count, step, rs, cs := 0, 1, [], [];
      if fetches[f].known && fetches[f].keys > 0 {
        count, step, rs, cs := IssueBatches(fetches[f].keys, batchSize, multiGet);
        if !multiGet {
          CeilingIs(1, fetches[f].keys, count);
        }
        assert forall k :: 0 <= k < |rs| ==> RangeAt(rs[k], k, step, fetches[f].keys);
        assert Even(rs, fetches[f].keys);
      }
      assert SendsOf(fetches[f], batchSize, multiGet, rs, cs);
      batches, ranges, cells := batches + [count], ranges + [rs], cells + [cs];
    }
    r := Request(batches, cached);
  }
}
