/**
  Turning a registered plan into chunk lists
  (`GetBlockChunks`, tpu_sync/kv_cache/kv_cache_manager_base.cc).  The sender
  gathers the chunks it returns, the receiver scatters into them.  Both lists
  are read off one sequence of (entry, repeat) steps.
 */
module BlockChunks {
  import opened TransferTypes
  import opened ReceiverCoverage
  import opened PoolLayout

  datatype Chunk = Chunk(ptr: int, size: int)

  datatype Step = Step(entry: Entry, c: int)

  // ------------------------------------------------------------- selection

  /** `entry_targets_pool`: plans without groups replay every entry. */
  predicate TargetsPool(groups: seq<PoolGroup>, e: Entry, pool: int) {
    groups == [] || (0 <= e.Group() < |groups| && HasPool(groups[e.Group()], pool))
  }

  predicate HasPool(group: PoolGroup, pool: int) {
    exists i :: 0 <= i < |group.poolIndices| && group.poolIndices[i] == pool
  }

  predicate SenderSelects(groups: seq<PoolGroup>, pool: int, peer: string, src: int, dst: int, e: Entry) {
    && TargetsPool(groups, e, pool)
    && (peer == "" || e.dstPeer == peer)
    && (dst == -1 || e.dstBlock == dst)
    && e.srcBlock == src
  }

  predicate ReceiverSelects(groups: seq<PoolGroup>, pool: int, shard: int, peer: string, src: int, dst: int, e: Entry) {
    && TargetsPool(groups, e, pool)
    && e.dstShard == shard && e.dstBlock == dst && (src == -1 || e.srcBlock == src)
    && (peer == "" || e.dstPeer == peer)
  }

  /** A count that is not positive is replayed once. */
  function Replays(e: Entry): nat {
    if e.count <= 0 then 1 else e.count
  }

  function StepsOf(e: Entry, n: nat): seq<Step> {
    if n == 0 then [] else StepsOf(e, n - 1) + [Step(e, n - 1)]
  }

  /** The (entry, repeat) sequence of the selected entries, in schedule order. */
  function Steps(entries: seq<Entry>, selects: Entry -> bool): seq<Step> {
    if entries == [] then []
    else
      var e := entries[|entries| - 1];
      Steps(entries[..|entries| - 1], selects) + if selects(e) then StepsOf(e, Replays(e)) else []
  }

  function SrcChunk(start: int, s: Step): Chunk {
    Chunk(start + s.entry.srcOffset + s.c * s.entry.srcStride, s.entry.size)
  }

  function DstChunk(start: int, s: Step): Chunk {
    Chunk(start + s.entry.dstOffset + s.c * s.entry.dstStride, s.entry.size)
  }

  function SrcChunks(start: int, steps: seq<Step>): seq<Chunk> {
    seq(|steps|, i requires 0 <= i < |steps| => SrcChunk(start, steps[i]))
  }

  function DstChunks(start: int, steps: seq<Step>): seq<Chunk> {
    seq(|steps|, i requires 0 <= i < |steps| => DstChunk(start, steps[i]))
  }

  // -------------------------------------------------------------- byte cap

  /** Chunks are taken while room remains; the last one taken may be cut. */
  function Cap(chunks: seq<Chunk>, room: int): seq<Chunk> {
    if chunks == [] || room <= 0 then []
    else
      var n := Min(chunks[0].size, room);
      if n > 0 then [Chunk(chunks[0].ptr, n)] + Cap(chunks[1..], room - n)
      else Cap(chunks[1..], room)
  }

  function Bytes(chunks: seq<Chunk>): int {
    if chunks == [] then 0 else chunks[0].size + Bytes(chunks[1..])
  }

  ghost predicate SameSizes(s: seq<Chunk>, t: seq<Chunk>) {
    |s| == |t| && forall i | 0 <= i < |s| :: s[i].size == t[i].size
  }

  ghost predicate NonNegative(chunks: seq<Chunk>) {
    forall i | 0 <= i < |chunks| :: chunks[i].size >= 0
  }

  lemma {:induction false} CapBytes(chunks: seq<Chunk>, room: int)
    ensures 0 <= Bytes(Cap(chunks, room)) && (0 <= room ==> Bytes(Cap(chunks, room)) <= room)
  {
    if chunks != [] && room > 0 {
      var n := Min(chunks[0].size, room);
      CapBytes(chunks[1..], if n > 0 then room - n else room);
      if n > 0 {
        assert Cap(chunks, room)[1..] == Cap(chunks[1..], room - n);
      }
    }
  }

  lemma {:induction false} CapConcat(s: seq<Chunk>, t: seq<Chunk>, room: int)
    ensures Cap(s + t, room) == Cap(s, room) + Cap(t, room - Bytes(Cap(s, room)))
  {
    if s == [] {
      assert s + t == t;
    } else {
      assert (s + t)[1..] == s[1..] + t;
      if room > 0 {
        var n := Min(s[0].size, room);
        CapConcat(s[1..], t, if n > 0 then room - n else room);
        if n > 0 {
          assert Cap(s, room)[1..] == Cap(s[1..], room - n);
        }
      }
    }
  }

  /** The cap sees sizes only, so equal-size lists are cut at the same place. */
  lemma {:induction false} CapSameSizes(s: seq<Chunk>, t: seq<Chunk>, room: int)
    requires SameSizes(s, t)
    ensures SameSizes(Cap(s, room), Cap(t, room))
  {
    if s != [] && room > 0 {
      var n := Min(s[0].size, room);
      assert SameSizes(s[1..], t[1..]);
      CapSameSizes(s[1..], t[1..], if n > 0 then room - n else room);
    }
  }

  /** Capping by the bytes that a cap let through changes nothing more. */
  lemma {:induction false} CapTwice(s: seq<Chunk>, room: int)
    ensures Cap(s, Bytes(Cap(s, room))) == Cap(s, room)
  {
    if s != [] && room > 0 {
      var n := Min(s[0].size, room);
      if n > 0 {
        CapTwice(s[1..], room - n);
        assert Cap(s, room)[1..] == Cap(s[1..], room - n);
        CapBytes(s[1..], room - n);
      } else {
        CapTwice(s[1..], room);
        CapBytes(s[1..], room);
        CapSkip(s, Bytes(Cap(s, room)));
      }
    }
  }

  lemma CapSkip(s: seq<Chunk>, room: int)
    requires s != [] && s[0].size <= 0
    ensures Cap(s, room) == Cap(s[1..], room)
  {
  }

  /** The cap drops nothing exactly when the bytes fit. */
  lemma {:induction false} CapWholeIff(s: seq<Chunk>, room: int)
    requires forall i | 0 <= i < |s| :: s[i].size > 0
    ensures Cap(s, room) == s <==> Bytes(s) <= room || s == []
  {
    if s != [] {
      BytesPositive(s[1..]);
      var n := Min(s[0].size, room);
      if room > 0 {
        CapWholeIff(s[1..], room - n);
        assert s == [s[0]] + s[1..];
        assert Cap(s, room)[0] == Chunk(s[0].ptr, n) && Cap(s, room)[1..] == Cap(s[1..], room - n);
        if s[1..] == [] {
          assert Bytes(s[1..]) == 0;
        }
      }
    }
  }

  lemma {:induction false} BytesPositive(s: seq<Chunk>)
    requires forall i | 0 <= i < |s| :: s[i].size > 0
    ensures Bytes(s) >= |s|
  {
    if s != [] {
      BytesPositive(s[1..]);
    }
  }

  /** A capped list of positive chunks is a prefix whose last chunk may be shorter. */
  lemma {:induction false} CapPrefix(s: seq<Chunk>, room: int)
    requires forall i | 0 <= i < |s| :: s[i].size > 0
    ensures |Cap(s, room)| <= |s|
    ensures forall i | 0 <= i < |Cap(s, room)| ::
            Cap(s, room)[i].ptr == s[i].ptr && 0 < Cap(s, room)[i].size <= s[i].size
  {
    if s != [] && room > 0 {
      var n := Min(s[0].size, room);
      CapPrefix(s[1..], room - n);
      assert forall i | 1 <= i < |s| :: s[i] == s[1..][i - 1];
      forall i | 0 <= i < |Cap(s, room)|
        ensures Cap(s, room)[i].ptr == s[i].ptr && 0 < Cap(s, room)[i].size <= s[i].size {
        if i > 0 {
          assert Cap(s, room)[i] == Cap(s[1..], room - n)[i - 1] && s[i] == s[1..][i - 1];
        }
      }
    }
  }

  /** A capped list holds as many bytes as there are, up to the room. */
  lemma {:induction false} CapTotal(s: seq<Chunk>, room: int)
    requires NonNegative(s) && room >= 0
    ensures Bytes(s) >= 0 && Bytes(Cap(s, room)) == (if Bytes(s) <= room then Bytes(s) else room)
  {
    if s != [] {
      var n := Min(s[0].size, room);
      CapTotal(s[1..], room - n);
      if room > 0 && n > 0 {
        assert Cap(s, room)[1..] == Cap(s[1..], room - n);
      }
    }
  }

  // ------------------------------------------------------- the steps, exactly

  /** Step `k` is a repeat of the selected entry at position `at[k]`. */
  ghost predicate StepAt(entries: seq<Entry>, selects: Entry -> bool, steps: seq<Step>, at: seq<nat>, k: nat)
    requires k < |steps| == |at|
  {
    && at[k] < |entries| && entries[at[k]] == steps[k].entry && selects(steps[k].entry)
    && 0 <= steps[k].c < (if steps[k].entry.count <= 0 then 1 else steps[k].entry.count)
  }

  /** Repeat `c` of the entry at position `i` is one of the steps. */
  ghost predicate Included(steps: seq<Step>, at: seq<nat>, i: nat, c: int) {
    |at| == |steps| && exists k :: 0 <= k < |steps| && at[k] == i && steps[k].c == c
  }

  /** The steps are all repeats of all selected entries, each once, entry after entry and repeat after repeat. */
  ghost predicate AllSteps(entries: seq<Entry>, selects: Entry -> bool, steps: seq<Step>, at: seq<nat>) {
    && |at| == |steps| && (forall k | 0 <= k < |steps| :: StepAt(entries, selects, steps, at, k))
    && (forall j, k | 0 <= j < k < |steps| :: at[j] < at[k] || (at[j] == at[k] && steps[j].c < steps[k].c))
    && (forall i: nat, c: int ::
          && i < |entries| && selects(entries[i])
          && 0 <= c < (if entries[i].count <= 0 then 1 else entries[i].count)
          ==> Included(steps, at, i, c))
  }

  lemma {:induction false} StepsOfShape(e: Entry, n: nat)
    ensures |StepsOf(e, n)| == n && forall c | 0 <= c < n :: StepsOf(e, n)[c] == Step(e, c)
  {
    if n > 0 {
      StepsOfShape(e, n - 1);
    }
  }

  /** What a selection of entries resolves to. */
  lemma {:induction false} StepsExact(entries: seq<Entry>, selects: Entry -> bool) returns (at: seq<nat>)
    ensures AllSteps(entries, selects, Steps(entries, selects), at)
  {
    at := [];
    if entries != [] {
      var n := |entries| - 1;
      var e := entries[n];
      var before := StepsExact(entries[..n], selects);
      var last := if selects(e) then StepsOf(e, Replays(e)) else [];
      StepsOfShape(e, Replays(e));
      var tail: seq<nat> := seq(|last|, _ => n);
      at := before + tail;
      StepsSnoc(entries, selects, Steps(entries[..n], selects), before, last, tail);
    }
  }

  lemma StepsSnoc(entries: seq<Entry>, selects: Entry -> bool, steps: seq<Step>, before: seq<nat>, last: seq<Step>,
                  tail: seq<nat>)
    requires entries != [] && AllSteps(entries[..|entries| - 1], selects, steps, before)
    requires |tail| == |last| && forall k | 0 <= k < |tail| :: tail[k] == |entries| - 1
    requires var e := entries[|entries| - 1];
             && |last| == (if !selects(e) then 0 else if e.count <= 0 then 1 else e.count)
             && forall c | 0 <= c < |last| :: last[c] == Step(e, c)
    ensures AllSteps(entries, selects, steps + last, before + tail)
  {
    var n := |entries| - 1;
    var front, all, at := entries[..n], steps + last, before + tail;
    forall k | 0 <= k < |all| ensures StepAt(entries, selects, all, at, k) {
      if k < |steps| {
        assert StepAt(front, selects, steps, before, k);
      }
    }
    forall j, k | 0 <= j < k < |all| ensures at[j] < at[k] || (at[j] == at[k] && all[j].c < all[k].c) {
      assert j < |steps| ==> StepAt(front, selects, steps, before, j);
    }
    forall i: nat, c: int
      ensures && i < |entries| && selects(entries[i])
              && 0 <= c < (if entries[i].count <= 0 then 1 else entries[i].count)
              ==> Included(all, at, i, c)
    {
      SnocIncluded(entries, selects, steps, before, last, tail, i, c);
    }
  }

  lemma SnocIncluded(entries: seq<Entry>, selects: Entry -> bool, steps: seq<Step>, before: seq<nat>, last: seq<Step>,
                     tail: seq<nat>, i: nat, c: int)
    requires entries != [] && AllSteps(entries[..|entries| - 1], selects, steps, before)
    requires |tail| == |last| && forall k | 0 <= k < |tail| :: tail[k] == |entries| - 1
    requires var e := entries[|entries| - 1];
             && |last| == (if !selects(e) then 0 else if e.count <= 0 then 1 else e.count)
             && forall c | 0 <= c < |last| :: last[c] == Step(e, c)
    ensures && i < |entries| && selects(entries[i])
            && 0 <= c < (if entries[i].count <= 0 then 1 else entries[i].count)
            ==> Included(steps + last, before + tail, i, c)
  {
    var n := |entries| - 1;
    var front, all, at := entries[..n], steps + last, before + tail;
    if i < |entries| && selects(entries[i]) && 0 <= c < (if entries[i].count <= 0 then 1 else entries[i].count) {
      if i < n {
        assert front[i] == entries[i];
        assert Included(steps, before, i, c);
        var k :| 0 <= k < |steps| && before[k] == i && steps[k].c == c;
        assert at[k] == i && all[k].c == c;
      } else {
        assert at[|steps| + c] == i && all[|steps| + c].c == c;
      }
    }
  }

  function EntriesOf(items: seq<Item>): seq<Entry> {
    seq(|items|, i requires 0 <= i < |items| => items[i].entry)
  }

  /** What the validator bounds is the number of pieces that the whole plan expands to. */
  lemma {:induction false} RepeatsAreSteps(items: seq<Item>)
    requires forall i | 0 <= i < |items| :: items[i].entry.count > 0
    ensures |Steps(EntriesOf(items), _ => true)| == Repeats(items)
  {
    if items != [] {
      var n := |items| - 1;
      RepeatsAreSteps(items[..n]);
      assert EntriesOf(items)[..n] == EntriesOf(items[..n]);
      StepsOfShape(items[n].entry, Replays(items[n].entry));
      SameSelection(EntriesOf(items[..n]), _ => true, _ => true);
      SameSelection(EntriesOf(items), _ => true, _ => true);
    }
  }

  lemma {:induction false} SameSelection(entries: seq<Entry>, a: Entry -> bool, b: Entry -> bool)
    requires forall i | 0 <= i < |entries| :: a(entries[i]) == b(entries[i])
    ensures Steps(entries, a) == Steps(entries, b)
  {
    if entries != [] {
      SameSelection(entries[..|entries| - 1], a, b);
    }
  }

  /** Which entries an end selects: an empty peer or a block id of -1 asks for any. */
  lemma SelectedExactly(groups: seq<PoolGroup>, pool: int, shard: int, peer: string, src: int, dst: int, e: Entry)
    ensures SenderSelects(groups, pool, peer, src, dst, e) <==>
              && e.srcBlock == src && (dst == -1 || e.dstBlock == dst) && (peer == "" || e.dstPeer == peer)
              && (groups == [] || (0 <= e.Group() < |groups| && pool in groups[e.Group()].poolIndices))
    ensures ReceiverSelects(groups, pool, shard, peer, src, dst, e) <==>
              && e.dstShard == shard && e.dstBlock == dst && (src == -1 || e.srcBlock == src)
              && (peer == "" || e.dstPeer == peer)
              && (groups == [] || (0 <= e.Group() < |groups| && pool in groups[e.Group()].poolIndices))
  {
    if 0 <= e.Group() < |groups| {
      var group := groups[e.Group()];
      if pool in group.poolIndices {
        var i :| 0 <= i < |group.poolIndices| && group.poolIndices[i] == pool;
        assert HasPool(group, pool);
      }
    }
  }

  // --------------------------------------------------------- GetBlockChunks

  /** What one block id resolves to before the cap. */
  function Resolve(plan: StartTransferRequest, isSender: bool, pools: map<int, Pool>, pool: int, shard: int, block: int,
                   node: int, peer: string, src: int, dst: int): seq<Chunk>
    requires pool in pools
  {
    var start := pools[pool].base + block * pools[pool].stride;
    if isSender then
      if shard !in plan.schedules then []
      else SrcChunks(start, Steps(plan.schedules[shard],
                                  e => SenderSelects(plan.poolGroups, pool, peer, block, dst, e)))
    else
      if node !in plan.schedules then []
      else DstChunks(start, Steps(plan.schedules[node],
                                  e => ReceiverSelects(plan.poolGroups, pool, shard, peer, src, block, e)))
  }

  function ResolveAll(plan: StartTransferRequest, isSender: bool, pools: map<int, Pool>, pool: int, shard: int,
                      blocks: seq<int>, node: int, peer: string, src: int, dst: int): seq<Chunk>
    requires pool in pools
  {
    if blocks == [] then []
    else ResolveAll(plan, isSender, pools, pool, shard, blocks[..|blocks| - 1], node, peer, src, dst)
         + Resolve(plan, isSender, pools, pool, shard, blocks[|blocks| - 1], node, peer, src, dst)
  }

  method AppendRepeats(e: Entry, start: int, forSource: bool, chunks: seq<Chunk>) returns (r: seq<Chunk>)
    ensures r == chunks + if forSource then SrcChunks(start, StepsOf(e, Replays(e)))
            else DstChunks(start, StepsOf(e, Replays(e)))
  {
    r := chunks;
    var count: int := e.count;
    if count <= 0 {
      count := 1;
    }
    for c := 0 to count
      invariant |StepsOf(e, c)| == c
      invariant r == chunks + if forSource then SrcChunks(start, StepsOf(e, c)) else DstChunks(start, StepsOf(e, c))
    {
      var base := if forSource then e.srcOffset else e.dstOffset;
      var stride := if forSource then e.srcStride else e.dstStride;
      r := r + [Chunk(start + base + c * stride, e.size)];
    }
  }

  method GatherBlock(groups: seq<PoolGroup>, entries: seq<Entry>, start: int, pool: int, peer: string, block: int,
                     dst: int)
    returns (chunks: seq<Chunk>)
    ensures chunks == SrcChunks(start, Steps(entries, e => SenderSelects(groups, pool, peer, block, dst, e)))
  {
    chunks := [];
    ghost var selects := e => SenderSelects(groups, pool, peer, block, dst, e);
    for i := 0 to |entries|
      invariant chunks == SrcChunks(start, Steps(entries[..i], selects))
    {
      assert entries[..i + 1][..i] == entries[..i];
      if SenderSelects(groups, pool, peer, block, dst, entries[i]) {
        chunks := AppendRepeats(entries[i], start, true, chunks);
      }
    }
    assert entries[..|entries|] == entries;
  }

  method ScatterBlock(groups: seq<PoolGroup>, entries: seq<Entry>, start: int, pool: int, shard: int, peer: string,
                      src: int, block: int)
    returns (chunks: seq<Chunk>)
    ensures chunks == DstChunks(start, Steps(entries, e => ReceiverSelects(groups, pool, shard, peer, src, block, e)))
  {
    chunks := [];
    ghost var selects := e => ReceiverSelects(groups, pool, shard, peer, src, block, e);
    for i := 0 to |entries|
      invariant chunks == DstChunks(start, Steps(entries[..i], selects))
    {
      assert entries[..i + 1][..i] == entries[..i];
      if ReceiverSelects(groups, pool, shard, peer, src, block, entries[i]) {
        chunks := AppendRepeats(entries[i], start, false, chunks);
      }
    }
    assert entries[..|entries|] == entries;
  }

  method ResolveBlock(plan: StartTransferRequest, isSender: bool, pools: map<int, Pool>, pool: int, shard: int,
                      block: int, node: int, peer: string, src: int, dst: int) returns (chunks: seq<Chunk>)
    requires pool in pools
    ensures chunks == Resolve(plan, isSender, pools, pool, shard, block, node, peer, src, dst)
  {
    var key := if isSender then shard else node;
    if key !in plan.schedules {
      return [];
    }
    var start := pools[pool].base + block * pools[pool].stride;
    if isSender {
      chunks := GatherBlock(plan.poolGroups, plan.schedules[key], start, pool, peer, block, dst);
    } else {
      chunks := ScatterBlock(plan.poolGroups, plan.schedules[key], start, pool, shard, peer, src, block);
    }
  }

  /** Moves resolved chunks to the result until the byte budget is spent. */
  method AppendCapped(chunks: seq<Chunk>, resolved: seq<Chunk>, used: int, total: int)
      returns (r: seq<Chunk>, used': int)
    ensures r == chunks + Cap(resolved, total - used)
    ensures used' == used + Bytes(Cap(resolved, total - used))
  {
    r, used' := chunks, used;
    for i := 0 to |resolved|
      invariant chunks + Cap(resolved, total - used) == r + Cap(resolved[i..], total - used')
      invariant used + Bytes(Cap(resolved, total - used)) == used' + Bytes(Cap(resolved[i..], total - used'))
    {
      if used' >= total {
        break;
      }
      var n := Min(resolved[i].size, total - used');
      assert resolved[i..][1..] == resolved[i + 1..];
      if n > 0 {
        assert Cap(resolved[i..], total - used')[1..] == Cap(resolved[i + 1..], total - used' - n);
        r := r + [Chunk(resolved[i].ptr, n)];
        used' := used' + n;
      }
    }
  }

  /**
    The chunk list for a list of blocks under a registered plan: everything the
    blocks resolve to, cut at `total` bytes; nothing for an unknown pool or a
    block id out of range.
   */
  method GetBlockChunks(plan: StartTransferRequest, isSender: bool, pools: map<int, Pool>, pool: int, shard: int,
                        blocks: seq<int>, total: int, node: int, peer: string, src: int, dst: int)
    returns (chunks: seq<Chunk>)
    ensures pool !in pools || (exists i :: 0 <= i < |blocks| && !(0 <= blocks[i] < pools[pool].numBlocks))
            ==> chunks == []
    ensures pool in pools && (forall i | 0 <= i < |blocks| :: 0 <= blocks[i] < pools[pool].numBlocks) ==>
              chunks == Cap(ResolveAll(plan, isSender, pools, pool, shard, blocks, node, peer, src, dst), total)
  {
    chunks := [];
    if pool !in pools {
      return;
    }
    for i := 0 to |blocks|
      invariant forall k | 0 <= k < i :: 0 <= blocks[k] < pools[pool].numBlocks
    {
      if blocks[i] < 0 || blocks[i] >= pools[pool].numBlocks {
        return;
      }
    }
    chunks := ResolveCapped(plan, isSender, pools, pool, shard, blocks, total, node, peer, src, dst);
  }

  /** The loop over the blocks, cut at `total` bytes. */
  method ResolveCapped(plan: StartTransferRequest, isSender: bool, pools: map<int, Pool>, pool: int, shard: int,
                       blocks: seq<int>, total: int, node: int, peer: string, src: int, dst: int)
    returns (chunks: seq<Chunk>)
    requires pool in pools
    ensures chunks == Cap(ResolveAll(plan, isSender, pools, pool, shard, blocks, node, peer, src, dst), total)
  {
    chunks := [];
    var used := 0;
    for i := 0 to |blocks|
      invariant var all := ResolveAll(plan, isSender, pools, pool, shard, blocks[..i], node, peer, src, dst);
                chunks == Cap(all, total) && used == Bytes(Cap(all, total))
    {
      ghost var all := ResolveAll(plan, isSender, pools, pool, shard, blocks[..i], node, peer, src, dst);
      assert blocks[..i + 1][..i] == blocks[..i];
      var resolved := ResolveBlock(plan, isSender, pools, pool, shard, blocks[i], node, peer, src, dst);
      CapConcat(all, resolved, total);
      BytesConcat(Cap(all, total), Cap(resolved, total - used));
      chunks, used := AppendCapped(chunks, resolved, used, total);
    }
    assert blocks[..|blocks|] == blocks;
  }

  lemma {:induction false} BytesConcat(s: seq<Chunk>, t: seq<Chunk>)
    ensures Bytes(s + t) == Bytes(s) + Bytes(t)
  {
    if s == [] {
      assert s + t == t;
    } else {
      BytesConcat(s[1..], t);
      assert (s + t)[1..] == s[1..] + t;
    }
  }

  // ------------------------------------------------- gather / scatter agree

  function ForPeer(entries: seq<Entry>, peer: string): seq<Entry> {
    if entries == [] then []
    else
      var e := entries[|entries| - 1];
      ForPeer(entries[..|entries| - 1], peer) + if e.dstPeer == peer then [e] else []
  }

  /**
    One schedule seen from both ends: the sender filters its whole schedule by
    peer, the receiver was handed the entries for its own peer and filters by
    shard.  Both walk the same (entry, repeat) sequence.
   */
  lemma {:induction false} SameSteps(groups: seq<PoolGroup>, entries: seq<Entry>, peer: string, pool: int, shard: int,
                                     src: int, dst: int)
    requires peer != "" && src != -1 && dst != -1
    requires forall i | 0 <= i < |entries| :: entries[i].dstPeer == peer ==> entries[i].dstShard == shard
    ensures Steps(entries, e => SenderSelects(groups, pool, peer, src, dst, e))
         == Steps(ForPeer(entries, peer), e => ReceiverSelects(groups, pool, shard, "", src, dst, e))
  {
    if entries != [] {
      var n := |entries| - 1;
      var e := entries[n];
      SameSteps(groups, entries[..n], peer, pool, shard, src, dst);
      var mine := ForPeer(entries[..n], peer);
      if e.dstPeer == peer {
        assert (mine + [e])[..|mine|] == mine;
        assert ForPeer(entries, peer) == mine + [e];
      } else {
        assert ForPeer(entries, peer) == mine;
      }
    }
  }

  /** For any byte cap, the two ends' lists have equal length and pointwise equal sizes. */
  lemma GatherScatterAgree(sender: StartTransferRequest, receiver: StartTransferRequest, senderPools: map<int, Pool>,
                           receiverPools: map<int, Pool>, key: int, rank: int, peer: string, pool: int, shard: int,
                           src: int, dst: int, total: int)
    requires sender.poolGroups == receiver.poolGroups && peer != "" && src != -1 && dst != -1
    requires pool in senderPools && pool in receiverPools
    requires key in sender.schedules && rank in receiver.schedules
    requires receiver.schedules[rank] == ForPeer(sender.schedules[key], peer)
    requires forall i | 0 <= i < |sender.schedules[key]| ::
             sender.schedules[key][i].dstPeer == peer ==> sender.schedules[key][i].dstShard == shard
    ensures var s := Cap(Resolve(sender, true, senderPools, pool, key, src, -1, peer, -1, dst), total);
            var r := Cap(Resolve(receiver, false, receiverPools, pool, shard, dst, rank, "", src, -1), total);
            && SameSizes(s, r)
            && Cap(Resolve(receiver, false, receiverPools, pool, shard, dst, rank, "", src, -1), Bytes(s)) == r
  {
    SameSteps(sender.poolGroups, sender.schedules[key], peer, pool, shard, src, dst);
    var s := Resolve(sender, true, senderPools, pool, key, src, -1, peer, -1, dst);
    var r := Resolve(receiver, false, receiverPools, pool, shard, dst, rank, "", src, -1);
    assert SameSizes(s, r);
    CapSameSizes(s, r, total);
    SameBytes(Cap(s, total), Cap(r, total));
    CapTwice(r, total);
  }

  lemma {:induction false} SameBytes(s: seq<Chunk>, t: seq<Chunk>)
    requires SameSizes(s, t)
    ensures Bytes(s) == Bytes(t)
  {
    if s != [] {
      assert SameSizes(s[1..], t[1..]);
      SameBytes(s[1..], t[1..]);
    }
  }
}
