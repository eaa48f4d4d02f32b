/**
  End-to-end delivery of a pool reshard.  The receiver's plan was accepted by
  the coverage validator; every sender gathers the chunks of each pair it owes
  and the receiver scatters them.  Pushes may arrive in any order, and more
  than once.
 */
module Delivery {
  import opened Intervals
  import opened TransferTypes
  import opened PoolLayout
  import opened ReceiverCoverage
  import opened BlockChunks

  newtype Byte = x: int | 0 <= x < 256
  type Memory = seq<Byte>

  // ----------------------------------------------- coverage, byte by byte

  /** Repeat `c` of item `i` is scheduled onto logical byte `l` of block `o` of group `g`. */
  predicate Names(plan: StartTransferRequest, pools: map<int, Pool>, items: seq<Item>, i: int, c: int, g: int, o: int,
                  l: int) {
    && 0 <= i < |items| && Targets(plan, items[i].entry, g, o) && 0 <= c < items[i].entry.count
    && var r := RangeAt(SegsOf(plan, pools, g), items[i].entry, c);
       r.Some? && Has(r.value, l)
  }

  lemma {:induction false} EntryRangesAt(segs: seq<Segment>, e: Entry, n: nat)
    requires forall c | 0 <= c < n :: RangeAt(segs, e, c).Some?
    ensures |EntryRanges(segs, e, n)| == n
    ensures forall c | 0 <= c < n :: EntryRanges(segs, e, n)[c] == RangeAt(segs, e, c).value
  {
    if n > 0 {
      EntryRangesAt(segs, e, n - 1);
    }
  }

  /** The part of `Collected` that one entry contributes. */
  function Contribution(plan: StartTransferRequest, pools: map<int, Pool>, e: Entry, g: int, o: int): seq<Interval>
    requires 0 <= g < |plan.poolGroups|
  {
    if Targets(plan, e, g, o) && e.count > 0 then EntryRanges(SegsOf(plan, pools, g), e, e.count) else []
  }

  lemma ContributionAt(plan: StartTransferRequest, pools: map<int, Pool>, e: Entry, g: int, o: int)
    requires 0 <= g < |plan.poolGroups| && ItemOk(plan, pools, e) && Targets(plan, e, g, o)
    ensures |Contribution(plan, pools, e, g, o)| == if e.count > 0 then e.count else 0
    ensures forall c | 0 <= c < e.count ::
              && RangeAt(SegsOf(plan, pools, g), e, c).Some?
              && Contribution(plan, pools, e, g, o)[c] == RangeAt(SegsOf(plan, pools, g), e, c).value
  {
    forall c | 0 <= c < e.count ensures RangeAt(SegsOf(plan, pools, g), e, c).Some? {
      assert RepeatOk(SegsOf(plan, pools, g), e, plan.poolGroups[g].extents[o], c);
    }
    if e.count > 0 {
      EntryRangesAt(SegsOf(plan, pools, g), e, e.count);
    }
  }

  lemma CollectedSplit(plan: StartTransferRequest, pools: map<int, Pool>, items: seq<Item>, g: int, o: int, l: int)
    requires 0 <= g < |plan.poolGroups| && items != []
    ensures Cover(Collected(plan, pools, items, g, o), l)
         == Cover(Collected(plan, pools, items[..|items| - 1], g, o), l)
            + Cover(Contribution(plan, pools, items[|items| - 1].entry, g, o), l)
  {
    CoverConcat(Collected(plan, pools, items[..|items| - 1], g, o),
                Contribution(plan, pools, items[|items| - 1].entry, g, o), l);
  }

  /** The last item's repeats that contain `l` show up in its contribution. */
  lemma LastCovered(plan: StartTransferRequest, pools: map<int, Pool>, items: seq<Item>, c: int, g: int, o: int, l: int)
    requires 0 <= g < |plan.poolGroups| && AllOk(plan, pools, items) && items != []
    requires Names(plan, pools, items, |items| - 1, c, g, o, l)
    ensures var tail := Contribution(plan, pools, items[|items| - 1].entry, g, o);
            0 <= c < |tail| && Has(tail[c], l) && Cover(tail, l) >= 1
  {
    var tail := Contribution(plan, pools, items[|items| - 1].entry, g, o);
    ContributionAt(plan, pools, items[|items| - 1].entry, g, o);
    CoverZero(tail, l);
    assert Has(tail[c], l);
  }

  /** A named byte is counted. */
  lemma {:induction false} NamedCovered(plan: StartTransferRequest, pools: map<int, Pool>, items: seq<Item>, i: int,
                                        c: int, g: int, o: int, l: int)
    requires 0 <= g < |plan.poolGroups| && AllOk(plan, pools, items) && Names(plan, pools, items, i, c, g, o, l)
    ensures Cover(Collected(plan, pools, items, g, o), l) >= 1
  {
    CollectedSplit(plan, pools, items, g, o, l);
    if i == |items| - 1 {
      LastCovered(plan, pools, items, c, g, o, l);
    } else {
      NamedCovered(plan, pools, items[..|items| - 1], i, c, g, o, l);
    }
  }

  /** A byte counted once is named by at most one (item, repeat). */
  lemma {:induction false} NamedOnce(plan: StartTransferRequest, pools: map<int, Pool>, items: seq<Item>, i: int,
                                     c: int, j: int, d: int, g: int, o: int, l: int)
    requires 0 <= g < |plan.poolGroups| && AllOk(plan, pools, items)
    requires Names(plan, pools, items, i, c, g, o, l) && Names(plan, pools, items, j, d, g, o, l)
    requires Cover(Collected(plan, pools, items, g, o), l) <= 1
    ensures i == j && c == d
  {
    var n := |items| - 1;
    var front := items[..n];
    CollectedSplit(plan, pools, items, g, o, l);
    if i < n && j < n {
      NamedOnce(plan, pools, front, i, c, j, d, g, o, l);
    } else if i == n && j == n {
      LastCovered(plan, pools, items, c, g, o, l);
      LastCovered(plan, pools, items, d, g, o, l);
      if c < d {
        CoverTwo(Contribution(plan, pools, items[n].entry, g, o), l, c, d);
      } else if d < c {
        CoverTwo(Contribution(plan, pools, items[n].entry, g, o), l, d, c);
      }
    } else if i == n {
      LastCovered(plan, pools, items, c, g, o, l);
      NamedCovered(plan, pools, front, j, d, g, o, l);
    } else {
      LastCovered(plan, pools, items, d, g, o, l);
      NamedCovered(plan, pools, front, i, c, g, o, l);
    }
  }

  /** A counted byte is named. */
  lemma {:induction false} CoveredNamed(plan: StartTransferRequest, pools: map<int, Pool>, items: seq<Item>, g: int,
                                        o: int, l: int)
    returns (i: int, c: int)
    requires 0 <= g < |plan.poolGroups| && AllOk(plan, pools, items)
    requires Cover(Collected(plan, pools, items, g, o), l) >= 1
    ensures Names(plan, pools, items, i, c, g, o, l)
  {
    var n := |items| - 1;
    CollectedSplit(plan, pools, items, g, o, l);
    var tail := Contribution(plan, pools, items[n].entry, g, o);
    if Cover(tail, l) >= 1 {
      CoverZero(tail, l);
      ContributionAt(plan, pools, items[n].entry, g, o);
      c :| 0 <= c < |tail| && Has(tail[c], l);
      i := n;
    } else {
      i, c := CoveredNamed(plan, pools, items[..n], g, o, l);
    }
  }

  /** In physical terms: the repeat covers physical byte `p` exactly when it covers its logical coordinate. */
  lemma NamesPhysical(segs: seq<Segment>, e: Entry, c: int, p: int)
    requires WellFormed(segs, 0, 0) && RangeAt(segs, e, c).Some? && ToLogical(segs, p).Some?
    ensures Has(RangeAt(segs, e, c).value, ToLogical(segs, p).value)
       <==> e.dstOffset + c * e.dstStride <= p < e.dstOffset + c * e.dstStride + e.size
  {
    var start, l, v := e.dstOffset + c * e.dstStride, ToLogical(segs, p).value, RangeAt(segs, e, c).value;
    RangeMapsBytes(segs, 0, 0, start, e.size);
    if Has(v, l) {
      var q := start + (l - v.start);
      assert ToLogical(segs, q) == Some(l);
      PhysicalOfLogical(segs, 0, 0, p);
      PhysicalOfLogical(segs, 0, 0, q);
    }
  }

  // ------------------------------------------------------ gather and scatter

  function At(mem: Memory, a: int): Byte {
    if 0 <= a < |mem| then mem[a] else 0
  }

  function Read(mem: Memory, ch: Chunk): Memory {
    if ch.size <= 0 then [] else seq(ch.size, k requires 0 <= k < ch.size => At(mem, ch.ptr + k))
  }

  /** The bytes a sender puts on the wire. */
  function Gather(mem: Memory, chunks: seq<Chunk>): Memory {
    if chunks == [] then [] else Read(mem, chunks[0]) + Gather(mem, chunks[1..])
  }

  function Write(mem: Memory, at: int, bytes: Memory): Memory {
    seq(|mem|, a requires 0 <= a < |mem| => if at <= a < at + |bytes| then bytes[a - at] else mem[a])
  }

  /** The receiver reads the stream into its chunks, in order. */
  function Scatter(mem: Memory, chunks: seq<Chunk>, bytes: Memory): Memory
    decreases |chunks|
  {
    if chunks == [] || chunks[0].size < 0 || chunks[0].size > |bytes| then mem
    else Scatter(Write(mem, chunks[0].ptr, bytes[..chunks[0].size]), chunks[1..], bytes[chunks[0].size..])
  }

  predicate Covers(ch: Chunk, a: int) {
    ch.ptr <= a < ch.ptr + ch.size
  }

  ghost predicate Touches(chunks: seq<Chunk>, a: int) {
    exists j :: 0 <= j < |chunks| && Covers(chunks[j], a)
  }

  /** Every chunk that covers `a` takes it from a source byte equal to `v`. */
  ghost predicate Carries(src: Memory, from: seq<Chunk>, to: seq<Chunk>, a: int, v: Byte)
    requires |from| == |to|
  {
    forall j | 0 <= j < |to| && Covers(to[j], a) :: At(src, from[j].ptr + a - to[j].ptr) == v
  }

  /** After one push, a byte holds what the chunks covering it carried, or is as before. */
  lemma {:induction false} PushByte(mem: Memory, src: Memory, from: seq<Chunk>, to: seq<Chunk>, a: int, v: Byte)
    requires SameSizes(from, to) && NonNegative(to) && 0 <= a < |mem|
    requires Carries(src, from, to, a, v) && (mem[a] == v || Touches(to, a))
    ensures |Scatter(mem, to, Gather(src, from))| == |mem|
    ensures Scatter(mem, to, Gather(src, from))[a] == v
    decreases |to|
  {
    if to != [] {
      var bytes, n := Gather(src, from), to[0].size;
      assert bytes[..n] == Read(src, from[0]) && bytes[n..] == Gather(src, from[1..]);
      var mem' := Write(mem, to[0].ptr, bytes[..n]);
      assert SameSizes(from[1..], to[1..]) && NonNegative(to[1..]);
      assert Carries(src, from[1..], to[1..], a, v) by {
        forall j | 0 <= j < |to[1..]| && Covers(to[1..][j], a)
          ensures At(src, from[1..][j].ptr + a - to[1..][j].ptr) == v {
          assert Covers(to[j + 1], a);
        }
      }
      if !Covers(to[0], a) && mem[a] != v {
        var j :| 0 <= j < |to| && Covers(to[j], a);
        assert Covers(to[1..][j - 1], a);
      }
      PushByte(mem', src, from[1..], to[1..], a, v);
    }
  }

  // ------------------------------------------------------------ the transfer

  /** A sender: its whole schedule, its pools, and its staged memory. */
  datatype Sender = Sender(entries: seq<Entry>, pools: map<int, Pool>, mem: Memory)

  datatype Push = Push(rank: int32, pool: int32, src: int, dst: int)

  datatype Transfer = Transfer(
    plan: StartTransferRequest, pools: map<int, Pool>, ranks: seq<int32>,
    senders: map<int32, Sender>, peer: string, shard: int)

  /** Offset `x` of block `b` is a live byte of the pool. */
  predicate LiveAt(p: Pool, b: int, x: int) {
    p.segs.Some? && 0 <= b < p.numBlocks && ToLogical(p.segs.value, x).Some?
  }

  function Addr(p: Pool, b: int, x: int): int {
    p.base + b * p.stride + x
  }

  /** A pool's host mirror backs every live byte of every block. */
  ghost predicate Backed(p: Pool, mem: Memory) {
    forall b, x | LiveAt(p, b, x) :: 0 <= Addr(p, b, x) < |mem|
  }

  predicate InPlan(plan: StartTransferRequest, pool: int) {
    exists g :: 0 <= g < |plan.poolGroups| && HasPool(plan.poolGroups[g], pool)
  }

  /** The mirrors of different pools share no live byte. */
  ghost predicate DisjointMirrors(plan: StartTransferRequest, pools: map<int, Pool>) {
    forall p, q {:trigger Apart(pools[p], pools[q])} | InPlan(plan, p) && InPlan(plan, q) && p in pools && q in pools
        && p != q :: Apart(pools[p], pools[q])
  }

  ghost predicate Apart(p: Pool, q: Pool) {
    forall b, d, x, y | LiveAt(p, b, x) && LiveAt(q, d, y) :: Addr(p, b, x) != Addr(q, d, y)
  }

  /** Destination spans land on live bytes of every pool the entry replays over. */
  ghost predicate DstLive(e: Entry, p: Pool) {
    && p.segs.Some? && 0 <= e.dstBlock < p.numBlocks
    && forall c | 0 <= c < e.count :: RangeAt(p.segs.value, e, c).Some?
  }

  /** Source spans stay inside the sender's block. */
  predicate SrcFits(e: Entry, p: Pool) {
    0 <= e.srcBlock < p.numBlocks && SpanFits(e.srcOffset, e.srcStride, e.size, e.count, p.stride)
  }

  /** The receiver accepted the plan, and each sender holds the schedule the receiver was told about. */
  ghost predicate Valid(t: Transfer, mem: Memory) {
    && t.peer != ""
    && TableOk(t.pools) && IterationOrder(t.plan.schedules, t.ranks)
    && CoverageOk(t.plan, t.pools, t.ranks)
    && DisjointMirrors(t.plan, t.pools)
    && (forall p {:trigger Backed(t.pools[p], mem)} | InPlan(t.plan, p) && p in t.pools :: Backed(t.pools[p], mem))
    && (forall r | r in t.plan.schedules ::
        r in t.senders && t.plan.schedules[r] == ForPeer(t.senders[r].entries, t.peer))
    && (forall r, i {:trigger EntryChecked(t, r, t.plan.schedules[r][i])} |
          r in t.plan.schedules && 0 <= i < |t.plan.schedules[r]| :: EntryChecked(t, r, t.plan.schedules[r][i]))
    && (forall r, i | r in t.senders && 0 <= i < |t.senders[r].entries| ::
          t.senders[r].entries[i].dstPeer == t.peer ==> t.senders[r].entries[i].dstShard == t.shard)
  }

  /** The entry-by-entry checks both ends made before anything moved. */
  ghost predicate EntryChecked(t: Transfer, r: int32, e: Entry) {
    && Screened(e) && e.srcBlock >= 0 && r in t.senders
    && forall p | TargetsPool(t.plan.poolGroups, e, p) ::
         && p in t.pools && DstLive(e, t.pools[p])
         && p in t.senders[r].pools && SrcFits(e, t.senders[r].pools[p])
  }

  function PushSteps(t: Transfer, x: Push): seq<Step>
    requires x.rank in t.plan.schedules
  {
    Steps(t.plan.schedules[x.rank], e => ReceiverSelects(t.plan.poolGroups, x.pool, t.shard, "", x.src, x.dst, e))
  }

  function DstStart(t: Transfer, x: Push): int
    requires x.pool in t.pools
  {
    t.pools[x.pool].base + x.dst * t.pools[x.pool].stride
  }

  function SrcStart(t: Transfer, x: Push): int
    requires x.rank in t.senders && x.pool in t.senders[x.rank].pools
  {
    t.senders[x.rank].pools[x.pool].base + x.src * t.senders[x.rank].pools[x.pool].stride
  }

  /** The transport asks the sender for at most one of its blocks' bytes per pair. */
  function ByteCap(t: Transfer, x: Push): int
    requires x.rank in t.senders && x.pool in t.senders[x.rank].pools
  {
    t.senders[x.rank].pools[x.pool].stride
  }

  predicate Possible(t: Transfer, x: Push) {
    x.rank in t.plan.schedules && x.rank in t.senders && x.pool in t.pools && x.pool in t.senders[x.rank].pools
    && 0 <= x.src && 0 <= x.dst
  }

  /** The sender's list, exactly as `GetBlockChunks` returns it for one block id. */
  function FromChunks(t: Transfer, x: Push): seq<Chunk>
    requires Possible(t, x)
  {
    Cap(SrcChunks(SrcStart(t, x),
                  Steps(t.senders[x.rank].entries,
                        e => SenderSelects(t.plan.poolGroups, x.pool, t.peer, x.src, x.dst, e))),
        ByteCap(t, x))
  }

  /** The receiver's list: its budget is the byte count the sender announced. */
  function ToChunks(t: Transfer, x: Push): seq<Chunk>
    requires Possible(t, x)
  {
    Cap(DstChunks(DstStart(t, x), PushSteps(t, x)), Bytes(FromChunks(t, x)))
  }

  function Deliver(t: Transfer, mem: Memory, x: Push): Memory
    requires Possible(t, x)
  {
    Scatter(mem, ToChunks(t, x), Gather(t.senders[x.rank].mem, FromChunks(t, x)))
  }

  function DeliverAll(t: Transfer, mem: Memory, order: seq<Push>): Memory
    requires forall k | 0 <= k < |order| :: Possible(t, order[k])
    decreases |order|
  {
    if order == [] then mem else DeliverAll(t, Deliver(t, mem, order[0]), order[1..])
  }

  /** The pair (src, dst) of a scheduled entry, for one pool of its group. */
  predicate Owes(t: Transfer, x: Push, e: Entry) {
    TargetsPool(t.plan.poolGroups, e, x.pool) && e.srcBlock == x.src && e.dstBlock == x.dst
  }

  ghost predicate Scheduled(t: Transfer, x: Push) {
    && x.rank in t.plan.schedules
    && exists i :: 0 <= i < |t.plan.schedules[x.rank]| && Owes(t, x, t.plan.schedules[x.rank][i])
  }

  /** Any order, with repeats, of exactly the scheduled pushes. */
  ghost predicate Complete(t: Transfer, order: seq<Push>) {
    && (forall k | 0 <= k < |order| :: Scheduled(t, order[k]))
    && (forall x :: Scheduled(t, x) ==> x in order)
  }

  // ------------------------------------------------------- one push's chunks

  lemma {:induction false} ForPeerMember(entries: seq<Entry>, peer: string, i: nat)
    requires i < |ForPeer(entries, peer)|
    ensures ForPeer(entries, peer)[i] in entries && ForPeer(entries, peer)[i].dstPeer == peer
  {
    var n := |entries| - 1;
    var mine := ForPeer(entries[..n], peer);
    if i < |mine| {
      ForPeerMember(entries[..n], peer, i);
      assert mine[i] in entries[..n];
    }
  }

  lemma PushPossible(t: Transfer, mem: Memory, x: Push)
    requires Valid(t, mem) && Scheduled(t, x)
    ensures Possible(t, x)
  {
    var i :| 0 <= i < |t.plan.schedules[x.rank]| && Owes(t, x, t.plan.schedules[x.rank][i]);
    assert EntryChecked(t, x.rank, t.plan.schedules[x.rank][i]);
  }

  lemma {:induction false} StepsOfAt(e: Entry, n: nat)
    ensures |StepsOf(e, n)| == n
    ensures forall c | 0 <= c < n :: StepsOf(e, n)[c] == Step(e, c)
  {
    if n > 0 {
      StepsOfAt(e, n - 1);
    }
  }

  /** A step is a repeat of a selected entry of the schedule. */
  lemma {:induction false} StepsSound(entries: seq<Entry>, selects: Entry -> bool, k: nat)
    requires k < |Steps(entries, selects)|
    ensures var s := Steps(entries, selects)[k]; s.entry in entries && selects(s.entry) && 0 <= s.c < Replays(s.entry)
  {
    var n := |entries| - 1;
    var before := Steps(entries[..n], selects);
    if k < |before| {
      StepsSound(entries[..n], selects, k);
      assert before[k].entry in entries[..n];
    } else {
      StepsOfAt(entries[n], Replays(entries[n]));
    }
  }

  /** Every repeat of a selected entry is a step. */
  lemma {:induction false} StepsComplete(entries: seq<Entry>, selects: Entry -> bool, i: nat, c: nat) returns (k: nat)
    requires i < |entries| && selects(entries[i]) && c < Replays(entries[i])
    ensures k < |Steps(entries, selects)| && Steps(entries, selects)[k] == Step(entries[i], c)
  {
    var n := |entries| - 1;
    var before := Steps(entries[..n], selects);
    StepsOfAt(entries[n], Replays(entries[n]));
    if i == n {
      k := |before| + c;
    } else {
      k := StepsComplete(entries[..n], selects, i, c);
    }
  }

  /** Both ends of a push cut the same step list at the same place. */
  lemma PushAgrees(t: Transfer, mem: Memory, x: Push)
    requires Valid(t, mem) && Scheduled(t, x) && Possible(t, x)
    ensures FromChunks(t, x) == Cap(SrcChunks(SrcStart(t, x), PushSteps(t, x)), ByteCap(t, x))
    ensures ToChunks(t, x) == Cap(DstChunks(DstStart(t, x), PushSteps(t, x)), ByteCap(t, x))
    ensures SameSizes(FromChunks(t, x), ToChunks(t, x))
  {
    SameSteps(t.plan.poolGroups, t.senders[x.rank].entries, t.peer, x.pool, t.shard, x.src, x.dst);
    var from, to := SrcChunks(SrcStart(t, x), PushSteps(t, x)), DstChunks(DstStart(t, x), PushSteps(t, x));
    assert SameSizes(from, to);
    CapSameSizes(from, to, ByteCap(t, x));
    SameBytes(Cap(from, ByteCap(t, x)), Cap(to, ByteCap(t, x)));
    CapTwice(to, ByteCap(t, x));
  }

  /** A step of a push repeats one of the rank's scheduled entries, for the push's pair and pool. */
  lemma StepScheduled(t: Transfer, mem: Memory, x: Push, k: nat) returns (i: nat)
    requires Valid(t, mem) && Possible(t, x) && k < |PushSteps(t, x)|
    ensures i < |t.plan.schedules[x.rank]|
    ensures var s := PushSteps(t, x)[k];
            && s.entry == t.plan.schedules[x.rank][i] && EntryChecked(t, x.rank, s.entry)
            && Owes(t, x, s.entry) && 0 <= s.c < s.entry.count
  {
    StepsSound(t.plan.schedules[x.rank], e => ReceiverSelects(t.plan.poolGroups, x.pool, t.shard, "", x.src, x.dst, e),
               k);
    var s := PushSteps(t, x)[k];
    i :| 0 <= i < |t.plan.schedules[x.rank]| && t.plan.schedules[x.rank][i] == s.entry;
  }

  /** Every chunk of a push stays inside its block, on live bytes, at both ends. */
  lemma ChunksInside(t: Transfer, mem: Memory, x: Push, k: nat)
    requires Valid(t, mem) && Possible(t, x) && k < |PushSteps(t, x)|
    ensures var s := PushSteps(t, x)[k]; var to, from := DstChunk(DstStart(t, x), s), SrcChunk(SrcStart(t, x), s);
            && DstStart(t, x) <= to.ptr && to.ptr + to.size <= DstStart(t, x) + t.pools[x.pool].stride
            && SrcStart(t, x) <= from.ptr
                && from.ptr + from.size <= SrcStart(t, x) + t.senders[x.rank].pools[x.pool].stride
  {
    var i := StepScheduled(t, mem, x, k);
    var s := PushSteps(t, x)[k];
    EntryInside(t.pools[x.pool], t.senders[x.rank].pools[x.pool], s.entry, s.c);
  }

  lemma EntryInside(to: Pool, from: Pool, e: Entry, c: int)
    requires PoolOk(to) && DstLive(e, to) && SrcFits(e, from) && 0 <= c < e.count
    ensures 0 <= e.dstOffset + c * e.dstStride && e.dstOffset + c * e.dstStride + e.size <= to.stride
    ensures 0 <= e.srcOffset + c * e.srcStride && e.srcOffset + c * e.srcStride + e.size <= from.stride
  {
    RepeatInside(e.srcOffset, e.srcStride, e.size, e.count, from.stride, c);
    assert RangeAt(to.segs.value, e, c).Some?;
    RangeInBlock(to, e.dstOffset + c * e.dstStride, e.size);
  }

  lemma RangeInBlock(p: Pool, offset: int, size: int)
    requires PoolOk(p) && p.segs.Some? && LogicalRange(p.segs.value, offset, size).Some?
    ensures 0 <= offset && offset + size <= p.stride && size > 0
    ensures forall q :: offset <= q < offset + size ==> ToLogical(p.segs.value, q).Some?
  {
    RangeMapsBytes(p.segs.value, 0, 0, offset, size);
    LogicalRangeSize(p.segs.value, offset, size);
    assert ToLogical(p.segs.value, offset).Some? && ToLogical(p.segs.value, offset + size - 1).Some?;
  }

  // -------------------------------------------------- one writer per address

  /** An address holds one byte of one block of one pool. */
  lemma AddressUnique(t: Transfer, mem: Memory, p: int, q: int, b: int, d: int, x: int, y: int)
    requires Valid(t, mem) && InPlan(t.plan, p) && InPlan(t.plan, q) && p in t.pools && q in t.pools
    requires LiveAt(t.pools[p], b, x) && LiveAt(t.pools[q], d, y) && Addr(t.pools[p], b, x) == Addr(t.pools[q], d, y)
    ensures p == q && b == d && x == y
  {
    assert p != q ==> Apart(t.pools[p], t.pools[q]);
    if p == q {
      BlockUnique(b, d, x, y, t.pools[p].stride);
    }
  }

  lemma BlockUnique(b: int, d: int, x: int, y: int, stride: int)
    requires 0 <= x < stride && 0 <= y < stride && b * stride + x == d * stride + y
    ensures b == d && x == y
  {
    assert (b + 1) * stride == b * stride + stride && (d + 1) * stride == d * stride + stride;
    if b < d {
      MulMono(b + 1, d, stride);
    } else if d < b {
      MulMono(d + 1, b, stride);
    }
  }

  lemma {:induction false} GroupSegmentsMember(group: PoolGroup, pools: map<int, Pool>, n: nat, k: nat)
    requires k < n <= |group.poolIndices| && GroupSegments(group, pools, n).Some?
    ensures group.poolIndices[k] in pools && pools[group.poolIndices[k]].segs.Some?
    ensures var s := pools[group.poolIndices[k]].segs.value; s == [] || s == GroupSegments(group, pools, n).value
  {
    if k < n - 1 {
      GroupSegmentsMember(group, pools, n - 1, k);
    }
  }

  /** A pool with live bytes has its group's segments. */
  lemma PoolSegments(t: Transfer, mem: Memory, g: int, pool: int)
    requires Valid(t, mem) && 0 <= g < |t.plan.poolGroups| && HasPool(t.plan.poolGroups[g], pool)
    ensures pool in t.pools && t.pools[pool].segs.Some? && InPlan(t.plan, pool)
    ensures t.pools[pool].segs.value != [] ==> t.pools[pool].segs.value == SegsOf(t.plan, t.pools, g)
  {
    var group := t.plan.poolGroups[g];
    assert GroupOk(group, t.pools);
    var k :| 0 <= k < |group.poolIndices| && group.poolIndices[k] == pool;
    GroupSegmentsMember(group, t.pools, |group.poolIndices|, k);
  }

  lemma {:induction false} AllPoolsAt(groups: seq<PoolGroup>, g: nat, k: nat)
    requires g < |groups| && k < |groups[g].poolIndices|
    ensures |AllPools(groups[..g])| + k < |AllPools(groups)|
    ensures AllPools(groups)[|AllPools(groups[..g])| + k] == groups[g].poolIndices[k]
  {
    var n := |groups| - 1;
    if g == n {
      assert groups[..n] == groups[..g];
    } else {
      AllPoolsAt(groups[..n], g, k);
      assert groups[..n][..g] == groups[..g];
    }
  }

  /** The groups partition the pools. */
  lemma PoolInOneGroup(t: Transfer, mem: Memory, pool: int, g: int, h: int)
    requires Valid(t, mem) && 0 <= g < |t.plan.poolGroups| && 0 <= h < |t.plan.poolGroups|
    requires HasPool(t.plan.poolGroups[g], pool) && HasPool(t.plan.poolGroups[h], pool)
    ensures g == h
  {
    var groups := t.plan.poolGroups;
    var i :| 0 <= i < |groups[g].poolIndices| && groups[g].poolIndices[i] == pool;
    var j :| 0 <= j < |groups[h].poolIndices| && groups[h].poolIndices[j] == pool;
    AllPoolsAt(groups, g, i);
    AllPoolsAt(groups, h, j);
    if g < h {
      AllPoolsBefore(groups, g, h, i);
    } else if h < g {
      AllPoolsBefore(groups, h, g, j);
    }
  }

  lemma {:induction false} AllPoolsBefore(groups: seq<PoolGroup>, g: nat, h: nat, k: nat)
    requires g < h < |groups| && k < |groups[g].poolIndices|
    ensures |AllPools(groups[..g])| + k < |AllPools(groups[..h])|
  {
    AllPoolsAt(groups[..h], g, k);
    assert groups[..h][..g] == groups[..g];
  }

  lemma {:induction false} ItemIndex(schedules: map<int32, seq<Entry>>, ranks: seq<int32>, k: nat, j: nat)
    requires (forall r | r in ranks :: r in schedules) && k < |ranks| && j < |schedules[ranks[k]]|
    ensures var i := |ItemsOf(schedules, ranks[..k])| + j;
            i < |ItemsOf(schedules, ranks)| && ItemsOf(schedules, ranks)[i] == Item(ranks[k], j, schedules[ranks[k]][j])
  {
    var n := |ranks| - 1;
    if k == n {
      assert ranks[..n] == ranks[..k];
    } else {
      ItemIndex(schedules, ranks[..n], k, j);
      assert ranks[..n][..k] == ranks[..k];
    }
  }

  lemma EntryIndex(schedules: map<int32, seq<Entry>>, ranks: seq<int32>, rank: int32, j: nat) returns (i: nat)
    requires IterationOrder(schedules, ranks) && rank in schedules && j < |schedules[rank]|
    ensures i < |ItemsOf(schedules, ranks)| && ItemsOf(schedules, ranks)[i] == Item(rank, j, schedules[rank][j])
  {
    assert rank in ranks;
    var k :| 0 <= k < |ranks| && ranks[k] == rank;
    ItemIndex(schedules, ranks, k, j);
    i := |ItemsOf(schedules, ranks[..k])| + j;
  }

  /** Entry `j` of `rank` is an item, and was accepted as one. */
  lemma EntryItem(t: Transfer, rank: int32, j: nat) returns (i: nat)
    requires IterationOrder(t.plan.schedules, t.ranks) && AllOk(t.plan, t.pools, ItemsOf(t.plan.schedules, t.ranks))
    requires rank in t.plan.schedules && j < |t.plan.schedules[rank]|
    ensures i < |ItemsOf(t.plan.schedules, t.ranks)|
    ensures ItemsOf(t.plan.schedules, t.ranks)[i] == Item(rank, j, t.plan.schedules[rank][j])
    ensures ItemOk(t.plan, t.pools, t.plan.schedules[rank][j])
  {
    i := EntryIndex(t.plan.schedules, t.ranks, rank, j);
    AllOkAt(t.plan, t.pools, ItemsOf(t.plan.schedules, t.ranks), i);
  }

  /** A scheduled write: physical byte `p` of `pool`'s copy of the destination block, by repeat `c` of an entry. */
  datatype Target = Target(rank: int32, j: int, c: int, pool: int, p: int)

  predicate WellPlaced(t: Transfer, w: Target) {
    w.rank in t.plan.schedules && 0 <= w.j < |t.plan.schedules[w.rank]|
  }

  function EntryOf(t: Transfer, w: Target): Entry
    requires WellPlaced(t, w)
  {
    t.plan.schedules[w.rank][w.j]
  }

  predicate WritesByte(t: Transfer, w: Target) {
    && WellPlaced(t, w)
    && var e := EntryOf(t, w);
       && TargetsPool(t.plan.poolGroups, e, w.pool) && 0 <= w.c < e.count
       && e.dstOffset + w.c * e.dstStride <= w.p < e.dstOffset + w.c * e.dstStride + e.size
  }

  /** Group, block ordinal and logical byte: the coordinates the validator counts in. */
  datatype Coord = Coord(g: int, o: int, l: int)

  ghost predicate CoordOk(t: Transfer, k: Coord) {
    && 0 <= k.g < |t.plan.poolGroups| && 0 <= k.o < |t.plan.poolGroups[k.g].extents|
    && 0 <= k.l < t.plan.poolGroups[k.g].extents[k.o]
  }

  /** The write lands at coordinate `k`: `k` is where its block and byte are in its group. */
  ghost predicate LandsAt(t: Transfer, w: Target, k: Coord)
    requires WellPlaced(t, w) && CoordOk(t, k)
  {
    && k.g == EntryOf(t, w).Group() && HasPool(t.plan.poolGroups[k.g], w.pool)
    && k.o == Ordinal(t.plan.poolGroups[k.g].dstBlockIds, EntryOf(t, w).dstBlock)
    && InPlan(t.plan, w.pool) && w.pool in t.pools && t.pools[w.pool].segs == Some(SegsOf(t.plan, t.pools, k.g))
    && LiveAt(t.pools[w.pool], EntryOf(t, w).dstBlock, w.p)
    && ToLogical(SegsOf(t.plan, t.pools, k.g), w.p) == Some(k.l)
  }

  lemma WriteLands(t: Transfer, mem: Memory, w: Target) returns (k: Coord)
    requires Valid(t, mem) && WritesByte(t, w)
    ensures CoordOk(t, k) && LandsAt(t, w, k)
  {
    var e := EntryOf(t, w);
    assert EntryChecked(t, w.rank, t.plan.schedules[w.rank][w.j]);
    var i := EntryItem(t, w.rank, w.j);
    PoolSegments(t, mem, e.Group(), w.pool);
    k := EntryLands(t.plan, t.pools, t.pools[w.pool], e, w.c, w.p);
  }

  lemma EntryLands(plan: StartTransferRequest, pools: map<int, Pool>, pool: Pool, e: Entry, c: int, p: int)
      returns (k: Coord)
    requires ItemOk(plan, pools, e) && PoolOk(pool) && DstLive(e, pool) && 0 <= c < e.count
    requires pool.segs.value != [] ==> pool.segs.value == SegsOf(plan, pools, e.Group())
    requires e.dstOffset + c * e.dstStride <= p < e.dstOffset + c * e.dstStride + e.size
    ensures k.g == e.Group() && k.o == Ordinal(plan.poolGroups[k.g].dstBlockIds, e.dstBlock)
    ensures 0 <= k.o < |plan.poolGroups[k.g].extents| && 0 <= k.l < plan.poolGroups[k.g].extents[k.o]
    ensures pool.segs == Some(SegsOf(plan, pools, k.g)) && ToLogical(pool.segs.value, p) == Some(k.l)
  {
    var g := e.Group() as int;
    var o := Ordinal(plan.poolGroups[g].dstBlockIds, e.dstBlock);
    var segs := pool.segs.value;
    assert RangeAt(segs, e, c).Some?;
    assert RepeatOk(SegsOf(plan, pools, g), e, plan.poolGroups[g].extents[o], c);
    RangeLands(segs, e, c, p);
    k := Coord(g, o, ToLogical(segs, p).value);
  }

  lemma RangeLands(segs: seq<Segment>, e: Entry, c: int, p: int)
    requires WellFormed(segs, 0, 0) && RangeAt(segs, e, c).Some?
    requires e.dstOffset + c * e.dstStride <= p < e.dstOffset + c * e.dstStride + e.size
    ensures ToLogical(segs, p).Some? && 0 <= ToLogical(segs, p).value < RangeAt(segs, e, c).value.end
  {
    RangeMapsBytes(segs, 0, 0, e.dstOffset + c * e.dstStride, e.size);
    LogicalBounds(segs, 0, 0, p);
  }

  /** The write is one of the intervals counted at its coordinate. */
  lemma LandsNamed(t: Transfer, mem: Memory, w: Target, k: Coord) returns (i: nat)
    requires Valid(t, mem) && WritesByte(t, w) && CoordOk(t, k) && LandsAt(t, w, k)
    ensures Names(t.plan, t.pools, ItemsOf(t.plan.schedules, t.ranks), i, w.c, k.g, k.o, k.l)
    ensures ItemsOf(t.plan.schedules, t.ranks)[i] == Item(w.rank, w.j, EntryOf(t, w))
  {
    i := EntryItem(t, w.rank, w.j);
    assert PoolOk(t.pools[w.pool]);
    EntryNamed(t.plan, t.pools, EntryOf(t, w), w.c, w.p, k);
  }

  lemma EntryNamed(plan: StartTransferRequest, pools: map<int, Pool>, e: Entry, c: int, p: int, k: Coord)
    requires ItemOk(plan, pools, e) && 0 <= c < e.count && k.g == e.Group()
    requires WellFormed(SegsOf(plan, pools, k.g), 0, 0) && ToLogical(SegsOf(plan, pools, k.g), p) == Some(k.l)
    requires e.dstOffset + c * e.dstStride <= p < e.dstOffset + c * e.dstStride + e.size
    ensures var r := RangeAt(SegsOf(plan, pools, k.g), e, c); r.Some? && Has(r.value, k.l)
  {
    var group := plan.poolGroups[k.g];
    assert RepeatOk(SegsOf(plan, pools, k.g), e, group.extents[Ordinal(group.dstBlockIds, e.dstBlock)], c);
    NamesPhysical(SegsOf(plan, pools, k.g), e, c, p);
  }

  /** The validator's tiling gives each coordinate one name. */
  lemma CoordinateOnce(t: Transfer, mem: Memory, k: Coord, i: int, c: int, j: int, d: int)
    requires Valid(t, mem) && CoordOk(t, k)
    requires Names(t.plan, t.pools, ItemsOf(t.plan.schedules, t.ranks), i, c, k.g, k.o, k.l)
    requires Names(t.plan, t.pools, ItemsOf(t.plan.schedules, t.ranks), j, d, k.g, k.o, k.l)
    ensures i == j && c == d
  {
    var items := ItemsOf(t.plan.schedules, t.ranks);
    assert BlocksTiled(t.plan, t.pools, items, k.g);
    assert Tiles(Collected(t.plan, t.pools, items, k.g, k.o), t.plan.poolGroups[k.g].extents[k.o]);
    NamedOnce(t.plan, t.pools, items, i, c, j, d, k.g, k.o, k.l);
  }

  function AddrOf(t: Transfer, w: Target): int
    requires WellPlaced(t, w) && w.pool in t.pools
  {
    Addr(t.pools[w.pool], EntryOf(t, w).dstBlock, w.p)
  }

  /** Writes to one address land at one coordinate. */
  lemma SameCoordinates(t: Transfer, mem: Memory, v: Target, w: Target, k: Coord, m: Coord)
    requires Valid(t, mem) && WellPlaced(t, v) && WellPlaced(t, w) && CoordOk(t, k) && CoordOk(t, m)
    requires LandsAt(t, v, k) && LandsAt(t, w, m) && AddrOf(t, v) == AddrOf(t, w)
    ensures k == m && v.pool == w.pool && v.p == w.p
  {
    AddressUnique(t, mem, v.pool, w.pool, EntryOf(t, v).dstBlock, EntryOf(t, w).dstBlock, v.p, w.p);
    PoolInOneGroup(t, mem, v.pool, k.g, m.g);
  }

  /** Writes landing at one coordinate are the same repeat of the same entry. */
  lemma SameRepeat(t: Transfer, mem: Memory, v: Target, w: Target, k: Coord)
    requires Valid(t, mem) && WritesByte(t, v) && WritesByte(t, w) && CoordOk(t, k) && LandsAt(t, v, k)
             && LandsAt(t, w, k)
    ensures v.rank == w.rank && v.j == w.j && v.c == w.c
  {
    var i := LandsNamed(t, mem, v, k);
    var j := LandsNamed(t, mem, w, k);
    CoordinateOnce(t, mem, k, i, v.c, j, w.c);
  }

  /** Two scheduled writes to one address are the same write. */
  lemma OneWriter(t: Transfer, mem: Memory, v: Target, w: Target)
    requires Valid(t, mem) && WritesByte(t, v) && WritesByte(t, w) && v.pool in t.pools && w.pool in t.pools
    requires AddrOf(t, v) == AddrOf(t, w)
    ensures v == w
  {
    var k := WriteLands(t, mem, v);
    var m := WriteLands(t, mem, w);
    SameCoordinates(t, mem, v, w, k, m);
    SameRepeat(t, mem, v, w, k);
  }

  // ----------------------------------------------------------- main theorems

  function PushOf(t: Transfer, w: Target): Push
    requires WellPlaced(t, w) && -0x8000_0000 <= w.pool <= 0x7FFF_FFFF
  {
    Push(w.rank, w.pool, EntryOf(t, w).srcBlock, EntryOf(t, w).dstBlock)
  }

  /** The one source byte the schedule names for a destination byte. */
  function SourceByte(t: Transfer, w: Target): Byte
    requires WellPlaced(t, w) && w.rank in t.senders && w.pool in t.senders[w.rank].pools
  {
    var e := EntryOf(t, w);
    At(t.senders[w.rank].mem,
       Addr(t.senders[w.rank].pools[w.pool], e.srcBlock,
            e.srcOffset + w.c * e.srcStride + w.p - (e.dstOffset + w.c * e.dstStride)))
  }

  /** A pair moves no more bytes than one of the sender's blocks holds. */
  predicate Fits(t: Transfer, x: Push)
    requires Possible(t, x)
  {
    Bytes(DstChunks(DstStart(t, x), PushSteps(t, x))) <= ByteCap(t, x)
  }

  lemma WriteKnown(t: Transfer, mem: Memory, w: Target)
    requires Valid(t, mem) && WritesByte(t, w)
    ensures w.pool in t.pools && w.rank in t.senders && w.pool in t.senders[w.rank].pools
    ensures -0x8000_0000 <= w.pool <= 0x7FFF_FFFF
    ensures Scheduled(t, PushOf(t, w)) && Possible(t, PushOf(t, w))
    ensures 0 <= AddrOf(t, w) < |mem|
  {
    var k := WriteLands(t, mem, w);
    var group := t.plan.poolGroups[k.g];
    var i :| 0 <= i < |group.poolIndices| && group.poolIndices[i] == w.pool;
    assert group.poolIndices[i] <= 0x7FFF_FFFF;
    assert EntryChecked(t, w.rank, t.plan.schedules[w.rank][w.j]);
    assert Owes(t, PushOf(t, w), t.plan.schedules[w.rank][w.j]);
    PushPossible(t, mem, PushOf(t, w));
    assert Backed(t.pools[w.pool], mem);
  }

  /** The write a push's step makes at an address it covers. */
  lemma StepWrites(t: Transfer, mem: Memory, x: Push, k: nat, a: int) returns (w: Target)
    requires Valid(t, mem) && Possible(t, x) && k < |PushSteps(t, x)|
             && Covers(DstChunk(DstStart(t, x), PushSteps(t, x)[k]), a)
    ensures WritesByte(t, w) && w.rank == x.rank && w.pool == x.pool && w.pool in t.pools && AddrOf(t, w) == a
    ensures EntryOf(t, w) == PushSteps(t, x)[k].entry && w.c == PushSteps(t, x)[k].c
    ensures EntryOf(t, w).srcBlock == x.src && EntryOf(t, w).dstBlock == x.dst
  {
    var i := StepScheduled(t, mem, x, k);
    w := Target(x.rank, i, PushSteps(t, x)[k].c, x.pool, a - DstStart(t, x));
  }

  /** A touched address is written by one of the push's steps. */
  lemma TouchWrites(t: Transfer, mem: Memory, x: Push, a: int) returns (w: Target, j: nat)
    requires Valid(t, mem) && Scheduled(t, x) && Possible(t, x) && Touches(ToChunks(t, x), a)
    ensures j < |PushSteps(t, x)| && j < |ToChunks(t, x)| && Covers(ToChunks(t, x)[j], a)
    ensures WritesByte(t, w) && w.rank == x.rank && w.pool == x.pool && w.pool in t.pools && AddrOf(t, w) == a
    ensures EntryOf(t, w) == PushSteps(t, x)[j].entry && w.c == PushSteps(t, x)[j].c
    ensures EntryOf(t, w).srcBlock == x.src && EntryOf(t, w).dstBlock == x.dst
  {
    PushChunks(t, mem, x);
    j :| 0 <= j < |ToChunks(t, x)| && Covers(ToChunks(t, x)[j], a);
    w := StepWrites(t, mem, x, j, a);
  }

  lemma StepsPositive(t: Transfer, mem: Memory, x: Push)
    requires Valid(t, mem) && Possible(t, x)
    ensures forall k | 0 <= k < |PushSteps(t, x)| :: PushSteps(t, x)[k].entry.size > 0
  {
    forall k | 0 <= k < |PushSteps(t, x)| ensures PushSteps(t, x)[k].entry.size > 0 {
      var i := StepScheduled(t, mem, x, k);
    }
  }

  /** Both lists of a push follow the steps; the last chunk may be cut. */
  lemma PushChunks(t: Transfer, mem: Memory, x: Push)
    requires Valid(t, mem) && Scheduled(t, x) && Possible(t, x)
    ensures var from, to, steps := FromChunks(t, x), ToChunks(t, x), PushSteps(t, x);
            && SameSizes(from, to) && NonNegative(to) && |to| <= |steps|
            && forall j | 0 <= j < |to| ::
                 && to[j].ptr == DstChunk(DstStart(t, x), steps[j]).ptr && to[j].size <= steps[j].entry.size
                 && from[j].ptr == SrcChunk(SrcStart(t, x), steps[j]).ptr
    ensures Fits(t, x) ==> ToChunks(t, x) == DstChunks(DstStart(t, x), PushSteps(t, x))
  {
    PushAgrees(t, mem, x);
    StepsPositive(t, mem, x);
    CapPrefix(DstChunks(DstStart(t, x), PushSteps(t, x)), ByteCap(t, x));
    CapPrefix(SrcChunks(SrcStart(t, x), PushSteps(t, x)), ByteCap(t, x));
    CapWholeIff(DstChunks(DstStart(t, x), PushSteps(t, x)), ByteCap(t, x));
  }

  lemma StepCarries(t: Transfer, mem: Memory, x: Push, j: nat, w: Target)
    requires Valid(t, mem) && Possible(t, x) && j < |PushSteps(t, x)| && WritesByte(t, w)
    requires w.pool in t.pools && w.rank in t.senders && w.pool in t.senders[w.rank].pools
    requires Covers(DstChunk(DstStart(t, x), PushSteps(t, x)[j]), AddrOf(t, w))
    ensures var s := PushSteps(t, x)[j];
            At(t.senders[x.rank].mem, SrcChunk(SrcStart(t, x), s).ptr + AddrOf(t, w) - DstChunk(DstStart(t, x), s).ptr)
                == SourceByte(t, w)
  {
    var v := StepWrites(t, mem, x, j, AddrOf(t, w));
    OneWriter(t, mem, v, w);
  }

  /** Whatever a push writes to a scheduled address is the scheduled byte. */
  lemma PushCarries(t: Transfer, mem: Memory, x: Push, w: Target)
    requires Valid(t, mem) && Scheduled(t, x) && Possible(t, x) && WritesByte(t, w)
    requires w.pool in t.pools && w.rank in t.senders && w.pool in t.senders[w.rank].pools
    requires SameSizes(FromChunks(t, x), ToChunks(t, x))
    ensures Carries(t.senders[x.rank].mem, FromChunks(t, x), ToChunks(t, x), AddrOf(t, w), SourceByte(t, w))
  {
    forall j | 0 <= j < |ToChunks(t, x)| && Covers(ToChunks(t, x)[j], AddrOf(t, w))
      ensures At(t.senders[x.rank].mem, FromChunks(t, x)[j].ptr + AddrOf(t, w) - ToChunks(t, x)[j].ptr)
              == SourceByte(t, w) {
      ChunkCarries(t, mem, x, j, w);
    }
  }

  lemma ChunkCarries(t: Transfer, mem: Memory, x: Push, j: nat, w: Target)
    requires Valid(t, mem) && Scheduled(t, x) && Possible(t, x) && WritesByte(t, w)
    requires w.pool in t.pools && w.rank in t.senders && w.pool in t.senders[w.rank].pools
    requires j < |ToChunks(t, x)| == |FromChunks(t, x)| && Covers(ToChunks(t, x)[j], AddrOf(t, w))
    ensures At(t.senders[x.rank].mem, FromChunks(t, x)[j].ptr + AddrOf(t, w) - ToChunks(t, x)[j].ptr)
            == SourceByte(t, w)
  {
    PushChunks(t, mem, x);
    StepCarries(t, mem, x, j, w);
  }

  /** The push that owes a write makes it, unless its byte budget cuts it off. */
  lemma PushTouches(t: Transfer, mem: Memory, w: Target)
    requires Valid(t, mem) && WritesByte(t, w) && w.pool in t.pools && -0x8000_0000 <= w.pool <= 0x7FFF_FFFF
    requires Scheduled(t, PushOf(t, w)) && Possible(t, PushOf(t, w)) && Fits(t, PushOf(t, w))
    ensures Touches(ToChunks(t, PushOf(t, w)), AddrOf(t, w))
  {
    var x, e := PushOf(t, w), EntryOf(t, w);
    PushChunks(t, mem, x);
    EntryShard(t, mem, w);
    var k := StepsComplete(t.plan.schedules[x.rank],
                           f => ReceiverSelects(t.plan.poolGroups, x.pool, t.shard, "", x.src, x.dst, f), w.j, w.c);
    assert PushSteps(t, x)[k] == Step(e, w.c);
    assert Covers(ToChunks(t, x)[k], AddrOf(t, w));
  }

  lemma EntryShard(t: Transfer, mem: Memory, w: Target)
    requires Valid(t, mem) && WellPlaced(t, w)
    ensures EntryOf(t, w).dstShard == t.shard
  {
    ForPeerMember(t.senders[w.rank].entries, t.peer, w.j);
    var m :| 0 <= m < |t.senders[w.rank].entries| && t.senders[w.rank].entries[m] == EntryOf(t, w);
  }

  ghost predicate PushOk(t: Transfer, x: Push, a: int, v: Byte) {
    && Possible(t, x) && SameSizes(FromChunks(t, x), ToChunks(t, x)) && NonNegative(ToChunks(t, x))
    && Carries(t.senders[x.rank].mem, FromChunks(t, x), ToChunks(t, x), a, v)
  }

  /** Order and repetition do not matter when every push carries the same value to `a`. */
  lemma {:induction false} AnyOrder(t: Transfer, mem: Memory, order: seq<Push>, a: int, v: Byte)
    requires 0 <= a < |mem| && forall k | 0 <= k < |order| :: Possible(t, order[k])
    requires forall k | 0 <= k < |order| :: PushOk(t, order[k], a, v)
    requires mem[a] == v || exists k :: 0 <= k < |order| && Touches(ToChunks(t, order[k]), a)
    ensures |DeliverAll(t, mem, order)| == |mem| && DeliverAll(t, mem, order)[a] == v
    decreases |order|
  {
    if order != [] {
      var x := order[0];
      assert PushOk(t, x, a, v);
      var now := if mem[a] == v || Touches(ToChunks(t, x), a) then v else mem[a];
      if now == v {
        PushByte(mem, t.senders[x.rank].mem, FromChunks(t, x), ToChunks(t, x), a, v);
      } else {
        PushByte(mem, t.senders[x.rank].mem, FromChunks(t, x), ToChunks(t, x), a, mem[a]);
        var k :| 0 <= k < |order| && Touches(ToChunks(t, order[k]), a);
        assert order[1..][k - 1] == order[k];
      }
      forall k | 0 <= k < |order[1..]| ensures Possible(t, order[1..][k]) && PushOk(t, order[1..][k], a, v) {
        assert order[1..][k] == order[k + 1];
      }
      AnyOrder(t, Deliver(t, mem, x), order[1..], a, v);
    }
  }

  lemma CompletePossible(t: Transfer, mem: Memory, order: seq<Push>)
    requires Valid(t, mem) && Complete(t, order)
    ensures forall k | 0 <= k < |order| :: Possible(t, order[k])
  {
    forall k | 0 <= k < |order| ensures Possible(t, order[k]) {
      PushPossible(t, mem, order[k]);
    }
  }

  /**
    End-to-end delivery of one byte: after all scheduled pushes, in any order,
    a scheduled destination byte equals the one source byte its schedule names.
   */
  lemma DeliveredByte(t: Transfer, mem: Memory, order: seq<Push>, w: Target)
    requires Valid(t, mem) && Complete(t, order) && WritesByte(t, w)
    requires w.pool in t.pools && w.rank in t.senders && w.pool in t.senders[w.rank].pools
    requires -0x8000_0000 <= w.pool <= 0x7FFF_FFFF && Possible(t, PushOf(t, w)) && Fits(t, PushOf(t, w))
    requires forall k | 0 <= k < |order| :: Possible(t, order[k])
    ensures 0 <= AddrOf(t, w) < |mem| == |DeliverAll(t, mem, order)|
    ensures DeliverAll(t, mem, order)[AddrOf(t, w)] == SourceByte(t, w)
  {
    WriteKnown(t, mem, w);
    forall k | 0 <= k < |order| ensures PushOk(t, order[k], AddrOf(t, w), SourceByte(t, w)) {
      PushChunks(t, mem, order[k]);
      PushCarries(t, mem, order[k], w);
    }
    PushTouches(t, mem, w);
    assert PushOf(t, w) in order;
    AnyOrder(t, mem, order, AddrOf(t, w), SourceByte(t, w));
  }

  /** A byte no push writes keeps its contents. */
  lemma KeptByte(t: Transfer, mem: Memory, order: seq<Push>, a: int)
    requires Valid(t, mem) && Complete(t, order) && 0 <= a < |mem|
    requires forall k | 0 <= k < |order| :: Possible(t, order[k]) && !Touches(ToChunks(t, order[k]), a)
    ensures |DeliverAll(t, mem, order)| == |mem| && DeliverAll(t, mem, order)[a] == mem[a]
  {
    forall k | 0 <= k < |order| ensures PushOk(t, order[k], a, mem[a]) {
      PushChunks(t, mem, order[k]);
      assert !Touches(ToChunks(t, order[k]), a);
    }
    AnyOrder(t, mem, order, a, mem[a]);
  }

  /** Padding, bytes past a block's extent and other blocks are unchanged: a changed byte is a scheduled one. */
  lemma ChangedByteScheduled(t: Transfer, mem: Memory, order: seq<Push>, a: int) returns (w: Target, k: Coord)
    requires Valid(t, mem) && Complete(t, order) && 0 <= a < |mem|
    requires forall i | 0 <= i < |order| :: Possible(t, order[i])
    requires |DeliverAll(t, mem, order)| == |mem| ==> DeliverAll(t, mem, order)[a] != mem[a]
    ensures WritesByte(t, w) && w.pool in t.pools && AddrOf(t, w) == a
    ensures CoordOk(t, k) && LandsAt(t, w, k)
  {
    if forall i | 0 <= i < |order| :: !Touches(ToChunks(t, order[i]), a) {
      KeptByte(t, mem, order, a);
    }
    var i :| 0 <= i < |order| && Touches(ToChunks(t, order[i]), a);
    var j;
    w, j := TouchWrites(t, mem, order[i], a);
    k := WriteLands(t, mem, w);
  }

  lemma {:induction false} ItemsSound(schedules: map<int32, seq<Entry>>, ranks: seq<int32>, i: nat)
    requires (forall r | r in ranks :: r in schedules) && i < |ItemsOf(schedules, ranks)|
    ensures var it := ItemsOf(schedules, ranks)[i];
            it.rank in schedules && 0 <= it.j < |schedules[it.rank]| && it.entry == schedules[it.rank][it.j]
  {
    var n := |ranks| - 1;
    if i < |ItemsOf(schedules, ranks[..n])| {
      ItemsSound(schedules, ranks[..n], i);
    }
  }

  /** Every live byte below a block's extent, in every pool of its group, is scheduled. */
  lemma EveryByteScheduled(t: Transfer, mem: Memory, k: Coord, pool: int) returns (w: Target)
    requires Valid(t, mem) && CoordOk(t, k) && HasPool(t.plan.poolGroups[k.g], pool)
    ensures WritesByte(t, w) && w.pool == pool && LandsAt(t, w, k)
  {
    var items, group := ItemsOf(t.plan.schedules, t.ranks), t.plan.poolGroups[k.g];
    assert BlocksTiled(t.plan, t.pools, items, k.g);
    assert Tiles(Collected(t.plan, t.pools, items, k.g, k.o), group.extents[k.o]);
    var i, c := CoveredNamed(t.plan, t.pools, items, k.g, k.o, k.l);
    ItemsSound(t.plan.schedules, t.ranks, i);
    var it := ItemsOf(t.plan.schedules, t.ranks)[i];
    w := Named(t, mem, k, pool, it.rank, it.j, c);
  }

  lemma Named(t: Transfer, mem: Memory, k: Coord, pool: int, rank: int32, j: int, c: int) returns (w: Target)
    requires Valid(t, mem) && CoordOk(t, k) && HasPool(t.plan.poolGroups[k.g], pool)
    requires rank in t.plan.schedules && 0 <= j < |t.plan.schedules[rank]|
    requires var e := t.plan.schedules[rank][j];
             && Targets(t.plan, e, k.g, k.o) && 0 <= c < e.count
             && RangeAt(SegsOf(t.plan, t.pools, k.g), e, c).Some?
             && Has(RangeAt(SegsOf(t.plan, t.pools, k.g), e, c).value, k.l)
    ensures WritesByte(t, w) && w.pool == pool && LandsAt(t, w, k)
  {
    var e, segs := t.plan.schedules[rank][j], SegsOf(t.plan, t.pools, k.g);
    assert EntryChecked(t, rank, t.plan.schedules[rank][j]);
    PoolSegments(t, mem, k.g, pool);
    assert TargetsPool(t.plan.poolGroups, e, pool);
    var p := NamedByte(t.pools[pool], segs, e, c, k.l);
    w := Target(rank, j, c, pool, p);
  }

  lemma NamedByte(pool: Pool, segs: seq<Segment>, e: Entry, c: int, l: int) returns (p: int)
    requires PoolOk(pool) && Screened(e) && DstLive(e, pool) && 0 <= c < e.count
    requires pool.segs.Some? && (pool.segs.value != [] ==> pool.segs.value == segs)
    requires RangeAt(segs, e, c).Some? && Has(RangeAt(segs, e, c).value, l)
    ensures e.dstOffset + c * e.dstStride <= p < e.dstOffset + c * e.dstStride + e.size
    ensures pool.segs == Some(segs) && LiveAt(pool, e.dstBlock, p) && ToLogical(segs, p) == Some(l)
  {
    assert RangeAt(pool.segs.value, e, c).Some?;
    p := ByteAt(segs, e, c, l);
  }

  /** The physical byte of a repeat at a given logical coordinate of its range. */
  lemma ByteAt(segs: seq<Segment>, e: Entry, c: int, l: int) returns (p: int)
    requires WellFormed(segs, 0, 0) && RangeAt(segs, e, c).Some? && Has(RangeAt(segs, e, c).value, l)
    ensures e.dstOffset + c * e.dstStride <= p < e.dstOffset + c * e.dstStride + e.size && ToLogical(segs, p) == Some(l)
  {
    var start, v := e.dstOffset + c * e.dstStride, RangeAt(segs, e, c).value;
    RangeMapsBytes(segs, 0, 0, start, e.size);
    p := start + (l - v.start);
    assert ToLogical(segs, p) == Some(l);
  }

  // ------------------------------------------------------------ the byte cap

  lemma {:induction false} StepsDistinct(entries: seq<Entry>, selects: Entry -> bool)
    requires NoDuplicates(entries)
    ensures NoDuplicates(Steps(entries, selects))
  {
    if entries != [] {
      var n := |entries| - 1;
      var before := Steps(entries[..n], selects);
      StepsDistinct(entries[..n], selects);
      StepsOfAt(entries[n], Replays(entries[n]));
      forall k | 0 <= k < |before| ensures before[k].entry != entries[n] {
        StepsSound(entries[..n], selects, k);
      }
    }
  }

  /** An accepted plan repeats no entry. */
  lemma EntriesDistinct(t: Transfer, mem: Memory, rank: int32)
    requires Valid(t, mem) && rank in t.plan.schedules
    ensures NoDuplicates(t.plan.schedules[rank])
  {
    var entries := t.plan.schedules[rank];
    forall i, j | 0 <= i < j < |entries| ensures entries[i] != entries[j] {
      if entries[i] == entries[j] {
        var pool := SomeWrite(t, mem, rank, i);
        OneWriter(t, mem, Target(rank, i, 0, pool, entries[i].dstOffset),
                  Target(rank, j, 0, pool, entries[i].dstOffset));
      }
    }
  }

  lemma SomeWrite(t: Transfer, mem: Memory, rank: int32, i: nat) returns (pool: int)
    requires Valid(t, mem) && rank in t.plan.schedules && i < |t.plan.schedules[rank]|
    ensures pool in t.pools && WritesByte(t, Target(rank, i, 0, pool, t.plan.schedules[rank][i].dstOffset))
  {
    var e := t.plan.schedules[rank][i];
    assert EntryChecked(t, rank, t.plan.schedules[rank][i]);
    var m := EntryItem(t, rank, i);
    var g := e.Group() as int;
    assert GroupOk(t.plan.poolGroups[g], t.pools);
    pool := t.plan.poolGroups[g].poolIndices[0] as int;
    assert HasPool(t.plan.poolGroups[g], pool);
  }

  /** A pair over the cap: its last byte is written by no push at all. */
  lemma CutByte(t: Transfer, mem: Memory, order: seq<Push>, x: Push) returns (w: Target)
    requires Valid(t, mem) && Complete(t, order) && Scheduled(t, x) && Possible(t, x) && !Fits(t, x)
    requires forall k | 0 <= k < |order| :: Possible(t, order[k])
    ensures WritesByte(t, w) && w.pool in t.pools && -0x8000_0000 <= w.pool <= 0x7FFF_FFFF && PushOf(t, w) == x
    ensures forall k | 0 <= k < |order| :: !Touches(ToChunks(t, order[k]), AddrOf(t, w))
  {
    var a;
    a, w := LastByte(t, mem, x);
    forall k | 0 <= k < |order| ensures !Touches(ToChunks(t, order[k]), AddrOf(t, w)) {
      if Touches(ToChunks(t, order[k]), a) {
        TouchedByOwner(t, mem, order[k], x, w);
      }
    }
  }

  /** The last byte of a cut pair's last step: a scheduled write outside the pair's own chunks. */
  lemma LastByte(t: Transfer, mem: Memory, x: Push) returns (a: int, w: Target)
    requires Valid(t, mem) && Scheduled(t, x) && Possible(t, x) && !Fits(t, x)
    ensures WritesByte(t, w) && w.pool in t.pools && w.rank == x.rank && w.pool == x.pool && AddrOf(t, w) == a
    ensures EntryOf(t, w).srcBlock == x.src && EntryOf(t, w).dstBlock == x.dst
    ensures !Touches(ToChunks(t, x), a)
  {
    var full := DstChunks(DstStart(t, x), PushSteps(t, x));
    StepsPositive(t, mem, x);
    PushAgrees(t, mem, x);
    CapWholeIff(full, ByteCap(t, x));
    LastCut(full, ByteCap(t, x));
    CapPrefix(full, ByteCap(t, x));
    var m := |full| - 1;
    a := full[m].ptr + full[m].size - 1;
    w := StepWrites(t, mem, x, m, a);
    if Touches(ToChunks(t, x), a) {
      var j := TouchingStep(t, mem, x, m, w);
    }
  }

  /** Only the step that owes an address can touch it. */
  lemma TouchingStep(t: Transfer, mem: Memory, x: Push, m: nat, w: Target) returns (j: nat)
    requires Valid(t, mem) && Scheduled(t, x) && Possible(t, x) && m < |PushSteps(t, x)|
    requires WritesByte(t, w) && w.pool in t.pools && Touches(ToChunks(t, x), AddrOf(t, w))
    requires EntryOf(t, w) == PushSteps(t, x)[m].entry && w.c == PushSteps(t, x)[m].c
    ensures j == m < |ToChunks(t, x)| && Covers(ToChunks(t, x)[m], AddrOf(t, w))
  {
    var v;
    v, j := TouchWrites(t, mem, x, AddrOf(t, w));
    OneWriter(t, mem, v, w);
    PairDistinct(t, mem, x);
  }

  lemma PairDistinct(t: Transfer, mem: Memory, x: Push)
    requires Valid(t, mem) && Possible(t, x)
    ensures NoDuplicates(PushSteps(t, x))
  {
    EntriesDistinct(t, mem, x.rank);
    StepsDistinct(t.plan.schedules[x.rank],
                  e => ReceiverSelects(t.plan.poolGroups, x.pool, t.shard, "", x.src, x.dst, e));
  }

  /** An address one push owes is touched by no other push. */
  lemma TouchedByOwner(t: Transfer, mem: Memory, y: Push, x: Push, w: Target)
    requires Valid(t, mem) && Scheduled(t, y) && Possible(t, y) && WritesByte(t, w) && w.pool in t.pools
    requires w.rank == x.rank && w.pool == x.pool && EntryOf(t, w).srcBlock == x.src && EntryOf(t, w).dstBlock == x.dst
    requires Touches(ToChunks(t, y), AddrOf(t, w))
    ensures y == x
  {
    var v, j := TouchWrites(t, mem, y, AddrOf(t, w));
    OneWriter(t, mem, v, w);
  }

  /** When the cap cuts a list, the last byte of its last chunk is gone. */
  lemma {:induction false} LastCut(s: seq<Chunk>, room: int)
    requires (forall i | 0 <= i < |s| :: s[i].size > 0) && Cap(s, room) != s
    ensures s != []
    ensures |Cap(s, room)| < |s| || Cap(s, room)[|s| - 1].size < s[|s| - 1].size
  {
    if s != [] && room > 0 {
      var n := Min(s[0].size, room);
      assert s == [s[0]] + s[1..];
      assert Cap(s, room) == [Chunk(s[0].ptr, n)] + Cap(s[1..], room - n);
      if n < s[0].size {
        assert Cap(s[1..], room - n) == [];
      } else {
        assert Cap(s[1..], room - n) != s[1..];
        LastCut(s[1..], room - n);
      }
    }
  }

  ghost predicate Delivered(t: Transfer, mem: Memory, order: seq<Push>, w: Target)
    requires WritesByte(t, w) && forall k | 0 <= k < |order| :: Possible(t, order[k])
  {
    && w.pool in t.pools && w.rank in t.senders && w.pool in t.senders[w.rank].pools
    && 0 <= AddrOf(t, w) < |DeliverAll(t, mem, order)|
    && DeliverAll(t, mem, order)[AddrOf(t, w)] == SourceByte(t, w)
  }

  lemma ValidLength(t: Transfer, mem: Memory, m: Memory)
    requires Valid(t, mem) && |m| == |mem|
    ensures Valid(t, m)
  {
    forall p | InPlan(t.plan, p) && p in t.pools ensures Backed(t.pools[p], m) {
      assert Backed(t.pools[p], mem);
    }
  }

  /**
    Delivery is exact: every scheduled byte arrives, whatever was in memory
    before, if and only if no pair moves more bytes than one of its sender's
    blocks holds.
   */
  lemma DeliveryExact(t: Transfer, mem: Memory, order: seq<Push>)
    requires Valid(t, mem) && Complete(t, order)
    ensures forall k | 0 <= k < |order| :: Possible(t, order[k])
    ensures forall x | Scheduled(t, x) :: Possible(t, x)
    ensures (forall x | Scheduled(t, x) :: Fits(t, x))
       <==> (forall m: Memory, w | |m| == |mem| && WritesByte(t, w) :: Delivered(t, m, order, w))
  {
    CompletePossible(t, mem, order);
    forall x | Scheduled(t, x) ensures Possible(t, x) {
      PushPossible(t, mem, x);
    }
    if forall x | Scheduled(t, x) :: Fits(t, x) {
      forall m: Memory, w | |m| == |mem| && WritesByte(t, w) ensures Delivered(t, m, order, w) {
        ValidLength(t, mem, m);
        WriteKnown(t, m, w);
        DeliveredByte(t, m, order, w);
      }
    } else {
      var x :| Scheduled(t, x) && !Fits(t, x);
      var m, w := Lost(t, mem, order, x);
      assert !Delivered(t, m, order, w);
    }
  }

  /** Over the cap, some memory keeps a byte that should have been replaced. */
  lemma Lost(t: Transfer, mem: Memory, order: seq<Push>, x: Push) returns (m: Memory, w: Target)
    requires Valid(t, mem) && Complete(t, order) && Scheduled(t, x) && Possible(t, x) && !Fits(t, x)
    requires forall k | 0 <= k < |order| :: Possible(t, order[k])
    ensures |m| == |mem| && WritesByte(t, w) && !Delivered(t, m, order, w)
  {
    w := CutByte(t, mem, order, x);
    WriteKnown(t, mem, w);
    var a := AddrOf(t, w);
    m := mem[a := if SourceByte(t, w) == 0 then 1 else 0];
    ValidLength(t, mem, m);
    KeptByte(t, m, order, a);
  }
}
