/**
  How many streams a push opens (`AsyncPush` in tpu_sync/transport/block_transport.cc), and
  that the receiver's validator expects exactly those: the push count an accepted plan declares
  for a group is the number of streams its senders open for each pool of the group.
 */
module PushStreams {
  import opened TransferTypes
  import opened ReceiverCoverage
  import opened BlockChunks
  import opened Delivery
  import opened PoolSpecs
  import opened PlanChecks
  import Send = PoolReshardSend

  /** The blocks one stream of a push carries. */
  datatype Slice = Slice(offset: int, count: int)

  /** The slices cut `n` blocks into consecutive non-empty pieces. */
  predicate Cuts(slices: seq<Slice>, n: int) {
    && (slices == [] <==> n == 0)
    && (slices != [] ==> slices[0].offset == 0 && slices[|slices| - 1].offset + slices[|slices| - 1].count == n)
    && (forall i | 0 <= i < |slices| - 1 :: slices[i + 1].offset == slices[i].offset + slices[i].count)
    && (forall i | 0 <= i < |slices| :: slices[i].count > 0)
  }

  /** A push of `n` blocks: no more streams than allowed, and fewer only when each carries one block. */
  ghost predicate Splits(slices: seq<Slice>, n: int, parallelism: int) {
    && Cuts(slices, n) && |slices| <= parallelism
    && (|slices| < parallelism ==> forall i | 0 <= i < |slices| :: slices[i].count == 1)
    && (forall i, j | 0 <= i < |slices| && 0 <= j < |slices| :: slices[i].count <= slices[j].count + 1)
  }

  /** Cuts the blocks as evenly as possible; refuses an empty list or no parallelism. */
  method AsyncPush(blocks: nat, parallelism: int) returns (slices: Option<seq<Slice>>)
    ensures slices.Some? <==> blocks > 0 && parallelism > 0
    ensures slices.Some? ==> Splits(slices.value, blocks, parallelism)
  {
    if blocks == 0 || parallelism <= 0 {
      return None;
    }
    var streams := parallelism;
    if blocks < streams {
      streams := blocks;
    }
    DivisionParts(blocks, streams);
    var out := CutEvenly(streams, blocks / streams, blocks % streams);
    slices := Some(out);
  }

  /** The loop: `remainder` slices of one block more than the others. */
  method CutEvenly(streams: int, base: int, remainder: int) returns (out: seq<Slice>)
    requires streams > 0 && base > 0 && 0 <= remainder < streams
    ensures |out| == streams && Cuts(out, streams * base + remainder)
    ensures forall i | 0 <= i < streams :: out[i].count == base + (if i < remainder then 1 else 0)
  {
    out := [];
    var offset := 0;
    for i := 0 to streams
      invariant |out| == i && offset == i * base + (if i < remainder then i else remainder)
      invariant forall k | 0 <= k < i :: out[k].count == base + (if k < remainder then 1 else 0)
      invariant forall k | 0 <= k < i - 1 :: out[k + 1].offset == out[k].offset + out[k].count
      invariant i > 0 ==> out[0].offset == 0 && out[i - 1].offset + out[i - 1].count == offset
    {
      var count := base + (if i < remainder then 1 else 0);
      out := out + [Slice(offset, count)];
      offset := offset + count;
      NextMultiple(i, base);
    }
    NextMultiple(streams - 1, base);
  }

  lemma NextMultiple(i: int, base: int)
    requires i >= 0 && base > 0
    ensures (i + 1) * base == i * base + base && (i + 1) * base > 0
  {
  }

  lemma DivisionParts(n: int, k: int)
    requires 0 < k <= n
    ensures n == k * (n / k) + n % k && 0 <= n % k < k && n / k >= 1
    ensures k == n ==> n / k == 1 && n % k == 0
  {
  }

  lemma {:induction false} OffsetAtLeast(slices: seq<Slice>, n: int, i: nat)
    requires Cuts(slices, n) && i < |slices|
    ensures slices[i].offset >= i
    ensures (forall k | 0 <= k < |slices| :: slices[k].count == 1) ==> slices[i].offset == i
  {
    if i > 0 {
      OffsetAtLeast(slices, n, i - 1);
    }
  }

  /** So a push opens one stream per block, up to the parallelism. */
  lemma SplitLength(slices: seq<Slice>, n: int, parallelism: int)
    requires Splits(slices, n, parallelism)
    ensures |slices| <= n && (|slices| == n || |slices| == parallelism)
  {
    if slices != [] {
      OffsetAtLeast(slices, n, |slices| - 1);
    }
  }

  // ------------------------------------------------------- the pairs of a push

  /** The triples the validator collects, for one peer's pairs. */
  function Triples(peer: string, pairs: seq<(int, int)>): set<(string, int, int)> {
    set i | 0 <= i < |pairs| :: (peer, pairs[i].0, pairs[i].1)
  }

  lemma {:induction false} TriplesSize(peer: string, pairs: seq<(int, int)>)
    requires Send.Distinct(pairs)
    ensures |Triples(peer, pairs)| == |pairs|
  {
    if pairs != [] {
      var n := |pairs| - 1;
      var front, last := pairs[..n], (peer, pairs[n].0, pairs[n].1);
      TriplesSize(peer, front);
      assert forall i | 0 <= i < n :: pairs[i] != pairs[n] && front[i] == pairs[i];
      assert last !in Triples(peer, front);
      forall x ensures x in Triples(peer, pairs) <==> x in Triples(peer, front) || x == last {
        if x in Triples(peer, front) {
          var i :| 0 <= i < n && (peer, front[i].0, front[i].1) == x;
          assert (peer, pairs[i].0, pairs[i].1) == x;
        }
        assert (peer, pairs[n].0, pairs[n].1) == last;
      }
      assert Triples(peer, pairs) == Triples(peer, front) + {last};
    }
  }

  /** An entry of the sender's that the group's pushes to the peer must carry. */
  ghost predicate Owed(entries: seq<Entry>, peer: string, g: int, x: (string, int, int)) {
    exists i :: 0 <= i < |entries| && Send.Moves(entries[i], g, peer, (x.1, x.2)) && x.0 == peer
  }

  predicate ItemGives(it: Item, g: int, rank: int, x: (string, int, int)) {
    && it.entry.Group() == g && it.rank == rank
    && x == (it.entry.dstPeer, it.entry.srcBlock as int, it.entry.dstBlock as int)
  }

  lemma {:induction false} PairsOfExact(items: seq<Item>, g: int, rank: int, x: (string, int, int))
    ensures x in PairsOf(items, g, rank) <==> exists i :: 0 <= i < |items| && ItemGives(items[i], g, rank, x)
  {
    if items != [] {
      var n := |items| - 1;
      PairsOfExact(items[..n], g, rank, x);
      if exists i :: 0 <= i < |items| && ItemGives(items[i], g, rank, x) {
        var i :| 0 <= i < |items| && ItemGives(items[i], g, rank, x);
        assert i < n ==> items[..n][i] == items[i];
      }
      if x in PairsOf(items[..n], g, rank) {
        var i :| 0 <= i < n && ItemGives(items[..n][i], g, rank, x);
        assert ItemGives(items[i], g, rank, x);
      }
    }
  }

  /** Every entry for the peer is in the receiver's copy of the schedule. */
  lemma {:induction false} ForPeerHas(entries: seq<Entry>, peer: string, i: nat) returns (j: nat)
    requires i < |entries| && entries[i].dstPeer == peer
    ensures j < |ForPeer(entries, peer)| && ForPeer(entries, peer)[j] == entries[i]
  {
    var n := |entries| - 1;
    if i == n {
      j := |ForPeer(entries, peer)| - 1;
    } else {
      j := ForPeerHas(entries[..n], peer, i);
    }
  }

  /** What the receiver counts for a sender is what that sender pushes. */
  lemma SamePairs(t: Transfer, mem: Memory, g: int, r: int32)
    requires IterationOrder(t.plan.schedules, t.ranks) && Placed(t, mem) && r in t.plan.schedules
    ensures PairsOf(ItemsOf(t.plan.schedules, t.ranks), g, r)
         == Triples(t.peer, Send.Pairs(t.senders[r].entries, g, t.peer))
  {
    var items, entries := ItemsOf(t.plan.schedules, t.ranks), t.senders[r].entries;
    var pairs := Send.Pairs(entries, g, t.peer);
    Send.PairsExact(entries, g, t.peer);
    forall x | x in PairsOf(items, g, r) ensures x in Triples(t.peer, pairs) {
      PairsOfExact(items, g, r, x);
      var i :| 0 <= i < |items| && ItemGives(items[i], g, r, x);
      ItemsSound(t.plan.schedules, t.ranks, i);
      ForPeerMember(entries, t.peer, items[i].j);
      var k :| 0 <= k < |entries| && entries[k] == items[i].entry;
      assert Send.Moves(entries[k], g, t.peer, (x.1, x.2));
      assert (x.1, x.2) in pairs;
      var m :| 0 <= m < |pairs| && pairs[m] == (x.1, x.2);
    }
    forall x | x in Triples(t.peer, pairs) ensures x in PairsOf(items, g, r) {
      var m :| 0 <= m < |pairs| && (t.peer, pairs[m].0, pairs[m].1) == x;
      assert pairs[m] in pairs;
      var k :| 0 <= k < |entries| && Send.Moves(entries[k], g, t.peer, pairs[m]);
      var j := ForPeerHas(entries, t.peer, k);
      var i := EntryIndex(t.plan.schedules, t.ranks, r, j);
      assert ItemGives(items[i], g, r, x);
      PairsOfExact(items, g, r, x);
    }
  }

  // ---------------------------------------------------------------- the count

  /** All streams of all senders. */
  function Streams(splits: map<int32, seq<Slice>>, ranks: seq<int32>): int
    requires forall r | r in ranks :: r in splits
  {
    if ranks == [] then 0 else Streams(splits, ranks[..|ranks| - 1]) + |splits[ranks[|ranks| - 1]]|
  }

  /** Each sender's pushes of the group are split as the transport splits them. */
  ghost predicate AllSplit(t: Transfer, g: int, splits: map<int32, seq<Slice>>) {
    forall r | r in t.plan.schedules ::
      && r in splits && r in t.senders
      && Splits(splits[r], |Send.Pairs(t.senders[r].entries, g, t.peer)|, t.plan.parallelism)
  }

  lemma {:induction false} CountIsStreams(t: Transfer, mem: Memory, g: int, splits: map<int32, seq<Slice>>, n: nat)
    requires IterationOrder(t.plan.schedules, t.ranks) && Placed(t, mem) && AllSplit(t, g, splits) && n <= |t.ranks|
    requires forall r | r in t.ranks :: r in splits
    ensures PushCount(ItemsOf(t.plan.schedules, t.ranks), g, t.ranks[..n], t.plan.parallelism)
         == Streams(splits, t.ranks[..n])
  {
    if n > 0 {
      var r := t.ranks[n - 1];
      assert r in t.ranks && t.ranks[..n][..n - 1] == t.ranks[..n - 1];
      CountIsStreams(t, mem, g, splits, n - 1);
      OneSender(t, mem, g, r, splits[r]);
    }
  }

  /** One sender: the pairs the receiver counts, capped, are its streams. */
  lemma OneSender(t: Transfer, mem: Memory, g: int, r: int32, slices: seq<Slice>)
    requires IterationOrder(t.plan.schedules, t.ranks) && Placed(t, mem) && r in t.plan.schedules
    requires Splits(slices, |Send.Pairs(t.senders[r].entries, g, t.peer)|, t.plan.parallelism)
    ensures Min(t.plan.parallelism, |PairsOf(ItemsOf(t.plan.schedules, t.ranks), g, r)|) == |slices|
  {
    var pairs := Send.Pairs(t.senders[r].entries, g, t.peer);
    Send.PairsExact(t.senders[r].entries, g, t.peer);
    SamePairs(t, mem, g, r);
    TriplesSize(t.peer, pairs);
    SplitLength(slices, |pairs|, t.plan.parallelism);
  }

  /**
    The pushes a receiver's accepted plan declares for a group are the streams the senders open
    for it, however each push is split, as long as it is split as the transport splits.
   */
  lemma ExpectedPushes(t: Transfer, mem: Memory, specs: seq<PoolSpec>, ids: seq<int64>, shards: int, g: int,
                       splits: map<int32, seq<Slice>>)
    requires ReceiverAccepts(t, specs, ids, shards) && Placed(t, mem)
    requires 0 <= g < |t.plan.poolGroups| && AllSplit(t, g, splits)
    ensures forall r | r in t.ranks :: r in splits
    ensures Streams(splits, t.ranks) == t.plan.poolGroups[g].expectedPushes
  {
    assert t.ranks[..|t.ranks|] == t.ranks;
    CountIsStreams(t, mem, g, splits, |t.ranks|);
  }
}
