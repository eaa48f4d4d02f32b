/**
  What each end checks before a pool reshard starts
  (`ValidatePoolReshardPlan` in tpu_sync/core/kv_cache_manager_with_transfer.cc),
  and delivery stated from those checks: pool declarations and plans in, bytes out.
 */
module PlanChecks {
  import opened TransferTypes
  import opened Intervals
  import opened PoolLayout
  import opened ReceiverCoverage
  import opened PoolSpecs
  import opened BlockChunks
  import opened Delivery
  import TransferProgram

  const INT32_MAX: int := 0x7FFF_FFFF

  // ------------------------------------------------------- pool declarations

  /** The pool with its live segments, when the regions expand. */
  ghost predicate Expands(s: PoolSpec, p: Pool) {
    && p.base == s.base && p.stride == s.stride && p.numBlocks == s.numBlocks
    && (p.segs.Some? <==> RegionsFit(s.regions, s.stride) && NoByteTwice(AllIntervals(s.regions)))
    && (p.segs.Some? ==> && WellFormed(p.segs.value, 0, 0)
                         && (forall x :: ToLogical(p.segs.value, x).Some? <==> Live(s.regions, x))
                         && (forall x :: Live(s.regions, x) ==> 0 <= x < s.stride))
  }

  method ExpandPool(s: PoolSpec) returns (p: Pool)
    requires SpecOk(s)
    ensures Expands(s, p)
  {
    var segs := ExpandPoolLiveSegments(s.stride, s.regions);
    p := Pool(s.base, s.stride, s.numBlocks, segs);
  }

  ghost predicate ExpandsAll(specs: seq<PoolSpec>, pools: map<int, Pool>) {
    && (forall i :: i in pools <==> 0 <= i < |specs|)
    && (forall i | 0 <= i < |specs| :: Expands(specs[i], pools[i]))
  }

  method ExpandPools(specs: seq<PoolSpec>) returns (pools: map<int, Pool>)
    requires SpecsOk(specs)
    ensures ExpandsAll(specs, pools)
  {
    pools := map[];
    for i := 0 to |specs|
      invariant ExpandsAll(specs[..i], pools)
    {
      assert SpecOk(specs[i]);
      var p := ExpandPool(specs[i]);
      pools := pools[i := p];
    }
    assert specs[..|specs|] == specs;
  }

  lemma ExpandsOk(s: PoolSpec, p: Pool)
    requires Expands(s, p)
    ensures PoolOk(p)
  {
  }

  lemma ExpandsTable(specs: seq<PoolSpec>, pools: map<int, Pool>)
    requires ExpandsAll(specs, pools)
    ensures TableOk(pools)
  {
    forall i | i in pools ensures PoolOk(pools[i]) {
      ExpandsOk(specs[i], pools[i]);
    }
  }

  /** A strided span the local check accepts: inside the block, every byte live. */
  ghost predicate SpanLive(s: PoolSpec, offset: int, stride: int, size: int, count: int) {
    SpanFits(offset, stride, size, count, s.stride) && RepeatsLive(s.regions, offset, stride, size, count)
  }

  /** One repeat maps to logical coordinates exactly when all its bytes are live. */
  lemma RepeatMaps(s: PoolSpec, p: Pool, e: Entry, c: int)
    requires Expands(s, p) && p.segs.Some? && e.size > 0 && 0 <= e.dstOffset + c * e.dstStride
    ensures RangeAt(p.segs.value, e, c).Some? <==> RepeatLive(s.regions, e.dstOffset, e.dstStride, e.size, c)
  {
    RangeAcceptedIffLive(p.segs.value, 0, 0, e.dstOffset + c * e.dstStride, e.size);
  }

  /** The receiver's span check is the liveness of every repeat, for a pool whose regions expand. */
  lemma DstLiveIff(s: PoolSpec, p: Pool, e: Entry)
    requires Expands(s, p) && p.segs.Some? && Screened(e)
    ensures DstLive(e, p) <==>
              0 <= e.dstBlock < s.numBlocks && SpanLive(s, e.dstOffset, e.dstStride, e.size, e.count)
  {
    forall c | 0 <= c < e.count
      ensures RangeAt(p.segs.value, e, c).Some? <==> RepeatLive(s.regions, e.dstOffset, e.dstStride, e.size, c)
    {
      MulMono(0, c, e.dstStride);
      RepeatMaps(s, p, e, c);
    }
    if DstLive(e, p) {
      ExpandsOk(s, p);
      assert RangeAt(p.segs.value, e, e.count - 1).Some?;
      RangeInBlock(p, e.dstOffset + (e.count - 1) * e.dstStride, e.size);
    }
  }

  // ------------------------------------------------------------- plan checks

  predicate HeaderOk(plan: StartTransferRequest, specs: seq<PoolSpec>, ids: seq<int64>) {
    && plan.reqId != "" && plan.uuid > 0 && plan.useBlockChunks
    && plan.transferPools != [] && plan.poolGroups != []
    && (forall g | 0 <= g < |plan.poolGroups| :: plan.poolGroups[g].expectedPushes > 0)
    && |plan.poolDtypeTags| == |specs|
    && ids != [] && (forall k | 0 <= k < |ids| :: 0 <= ids[k] <= INT32_MAX)
  }

  /** The receiver's block list is the groups' block lists in order, each without repeats. */
  predicate ReceiverIdsOk(plan: StartTransferRequest, ids: seq<int64>) {
    && (forall g | 0 <= g < |plan.poolGroups| :: NoDuplicates(plan.poolGroups[g].dstBlockIds))
    && TransferProgram.ChipBlocks(plan.poolGroups) == ids
  }

  predicate PoolDeclared(plan: StartTransferRequest, specs: seq<PoolSpec>, ids: seq<int64>, p: int)
    requires |plan.poolDtypeTags| == |specs|
  {
    && 0 <= p < |specs| && plan.poolDtypeTags[p] == specs[p].dtypeTag
    && forall k | 0 <= k < |ids| :: ids[k] < specs[p].numBlocks
  }

  predicate PoolsDeclared(plan: StartTransferRequest, specs: seq<PoolSpec>, ids: seq<int64>)
    requires |plan.poolDtypeTags| == |specs|
  {
    && NoDuplicates(plan.transferPools)
    && forall k | 0 <= k < |plan.transferPools| :: PoolDeclared(plan, specs, ids, plan.transferPools[k])
  }

  /** The side of an entry that is local to the end checking it. */
  function LocalBlock(e: Entry, isSender: bool): int {
    if isSender then e.srcBlock else e.dstBlock
  }

  ghost predicate LocalSpan(s: PoolSpec, e: Entry, isSender: bool) {
    if isSender then SpanLive(s, e.srcOffset, e.srcStride, e.size, e.count)
    else SpanLive(s, e.dstOffset, e.dstStride, e.size, e.count)
  }

  ghost predicate GroupSpans(specs: seq<PoolSpec>, group: PoolGroup, e: Entry, isSender: bool) {
    forall k | 0 <= k < |group.poolIndices| ::
      0 <= group.poolIndices[k] < |specs| && LocalSpan(specs[group.poolIndices[k]], e, isSender)
  }

  ghost predicate EntryOk(plan: StartTransferRequest, specs: seq<PoolSpec>, ids: seq<int64>, isSender: bool,
                          shards: int, e: Entry) {
    && e.dstPeer != "" && e.srcBlock >= 0 && e.dstBlock >= 0 && e.dstShard >= 0 && Screened(e)
    && (isSender || e.dstShard < shards)
    && LocalBlock(e, isSender) in ids
    && 0 <= e.Group() < |plan.poolGroups|
    && GroupSpans(specs, plan.poolGroups[e.Group()], e, isSender)
  }

  ghost predicate EntriesOk(plan: StartTransferRequest, specs: seq<PoolSpec>, ids: seq<int64>, isSender: bool,
                            shards: int, items: seq<Item>) {
    forall i | 0 <= i < |items| :: EntryOk(plan, specs, ids, isSender, shards, items[i].entry)
  }

  /** The destination blocks with an entry at offset 0. */
  function ZeroStarts(items: seq<Item>): set<int> {
    if items == [] then {}
    else
      var e := items[|items| - 1].entry;
      ZeroStarts(items[..|items| - 1]) + if e.dstOffset == 0 then {e.dstBlock as int} else {}
  }

  /** The checks both ends make. */
  ghost predicate ChecksPass(plan: StartTransferRequest, specs: seq<PoolSpec>, ids: seq<int64>, isSender: bool,
                             shards: int, ranks: seq<int32>)
    requires IterationOrder(plan.schedules, ranks)
  {
    && HeaderOk(plan, specs, ids) && PoolsDeclared(plan, specs, ids)
    && (forall k | 0 <= k < |ranks| :: ranks[k] >= 0)
    && EntriesOk(plan, specs, ids, isSender, shards, ItemsOf(plan.schedules, ranks))
        && ItemsOf(plan.schedules, ranks) != []
  }

  /** The checks only the receiver makes. */
  ghost predicate ReceiverChecksPass(plan: StartTransferRequest, pools: map<int, Pool>, ids: seq<int64>,
                                     ranks: seq<int32>)
    requires IterationOrder(plan.schedules, ranks)
  {
    && ReceiverIdsOk(plan, ids)
    && (forall k | 0 <= k < |ids| :: ids[k] in ZeroStarts(ItemsOf(plan.schedules, ranks)))
    && CoverageOk(plan, pools, ranks)
  }

  /** What the end with these pools and blocks accepts, said without the algorithm. */
  ghost predicate PlanAccepted(plan: StartTransferRequest, specs: seq<PoolSpec>, pools: map<int, Pool>, ids: seq<int64>,
                               isSender: bool, shards: int, ranks: seq<int32>)
    requires IterationOrder(plan.schedules, ranks)
  {
    ChecksPass(plan, specs, ids, isSender, shards, ranks) && (isSender || ReceiverChecksPass(plan, pools, ids, ranks))
  }

  method CheckHeader(plan: StartTransferRequest, specs: seq<PoolSpec>, ids: seq<int64>) returns (ok: bool)
    ensures ok <==> HeaderOk(plan, specs, ids)
    ensures ok <==>
              && plan.reqId != "" && plan.uuid > 0 && plan.useBlockChunks
              && plan.transferPools != [] && plan.poolGroups != []
              && (forall g | 0 <= g < |plan.poolGroups| :: plan.poolGroups[g].expectedPushes > 0)
              && |plan.poolDtypeTags| == |specs|
              && ids != [] && (forall k | 0 <= k < |ids| :: 0 <= ids[k] <= 0x7FFF_FFFF)
  {
    if plan.reqId == "" || plan.uuid <= 0 || !plan.useBlockChunks || plan.transferPools == [] || plan.poolGroups == [] {
      return false;
    }
    for g := 0 to |plan.poolGroups|
      invariant forall k | 0 <= k < g :: plan.poolGroups[k].expectedPushes > 0
    {
      if plan.poolGroups[g].expectedPushes <= 0 {
        return false;
      }
    }
    if |plan.poolDtypeTags| != |specs| || ids == [] {
      return false;
    }
    for k := 0 to |ids|
      invariant forall j | 0 <= j < k :: 0 <= ids[j] <= INT32_MAX
    {
      if ids[k] < 0 || ids[k] > INT32_MAX {
        return false;
      }
    }
    ok := true;
  }

  lemma {:induction false} ChipPrefix(groups: seq<PoolGroup>, g: nat)
    requires g <= |groups|
    ensures TransferProgram.ChipBlocks(groups[..g]) <= TransferProgram.ChipBlocks(groups)
    decreases |groups|
  {
    if g < |groups| {
      ChipPrefix(groups[..|groups| - 1], g);
      assert groups[..|groups| - 1][..g] == groups[..g];
    } else {
      assert groups[..g] == groups;
    }
  }

  /** Walks the groups' blocks along the local list. */
  method CheckGroupIds(group: PoolGroup, ids: seq<int64>, start: nat) returns (ok: bool)
    requires start <= |ids|
    ensures ok <==> NoDuplicates(group.dstBlockIds) && group.dstBlockIds <= ids[start..]
  {
    var seen: set<int64> := {};
    var blocks := group.dstBlockIds;
    for k := 0 to |blocks|
      invariant NoDuplicates(blocks[..k]) && (forall x :: x in seen <==> x in blocks[..k])
      invariant start + k <= |ids| && ids[start..start + k] == blocks[..k]
    {
      var id := blocks[k];
      assert blocks[..k + 1] == blocks[..k] + [id];
      if id in seen {
        assert id in blocks[..k];
        var j :| 0 <= j < k && blocks[..k][j] == id;
        assert blocks[j] == blocks[k];
        return false;
      }
      if start + k >= |ids| || ids[start + k] != id {
        assert start + k < |ids| ==> ids[start..][k] == ids[start + k];
        return false;
      }
      seen := seen + {id};
    }
    assert blocks[..|blocks|] == blocks && ids[start..][..|blocks|] == blocks;
    ok := true;
  }

  method CheckReceiverIds(plan: StartTransferRequest, ids: seq<int64>) returns (ok: bool)
    ensures ok <==> ReceiverIdsOk(plan, ids)
  {
    var groups := plan.poolGroups;
    var cursor: nat := 0;
    for g := 0 to |groups|
      invariant cursor <= |ids| && ids[..cursor] == TransferProgram.ChipBlocks(groups[..g])
      invariant forall k | 0 <= k < g :: NoDuplicates(groups[k].dstBlockIds)
    {
      var here := CheckGroupIds(groups[g], ids, cursor);
      if !here {
        GroupIdsRefused(groups, ids, g, cursor);
        return false;
      }
      GroupIdsTaken(groups, ids, g, cursor);
      cursor := cursor + |groups[g].dstBlockIds|;
    }
    assert groups[..|groups|] == groups;
    assert ids[..|ids|] == ids;
    ok := cursor == |ids|;
  }

  lemma PrefixTail(all: seq<int64>, front: seq<int64>, mine: seq<int64>)
    requires front + mine <= all
    ensures |front| <= |all| && mine <= all[|front|..]
  {
    assert forall k | 0 <= k < |mine| :: (front + mine)[|front| + k] == mine[k];
    assert forall k | 0 <= k < |mine| :: all[|front|..][k] == all[|front| + k];
  }

  lemma GroupIdsTaken(groups: seq<PoolGroup>, ids: seq<int64>, g: nat, cursor: nat)
    requires g < |groups| && cursor <= |ids| && ids[..cursor] == TransferProgram.ChipBlocks(groups[..g])
    requires groups[g].dstBlockIds <= ids[cursor..]
    ensures var next := cursor + |groups[g].dstBlockIds|;
            next <= |ids| && ids[..next] == TransferProgram.ChipBlocks(groups[..g + 1])
  {
    assert groups[..g + 1][..g] == groups[..g];
    var next, mine := cursor + |groups[g].dstBlockIds|, groups[g].dstBlockIds;
    assert ids[..next] == ids[..cursor] + ids[cursor..][..|mine|];
  }

  lemma GroupIdsRefused(groups: seq<PoolGroup>, ids: seq<int64>, g: nat, cursor: nat)
    requires g < |groups| && cursor <= |ids| && ids[..cursor] == TransferProgram.ChipBlocks(groups[..g])
    requires !(NoDuplicates(groups[g].dstBlockIds) && groups[g].dstBlockIds <= ids[cursor..])
    ensures !(NoDuplicates(groups[g].dstBlockIds) && TransferProgram.ChipBlocks(groups) == ids)
  {
    ChipPrefix(groups, g + 1);
    assert groups[..g + 1][..g] == groups[..g];
    var front, mine := TransferProgram.ChipBlocks(groups[..g]), groups[g].dstBlockIds;
    assert TransferProgram.ChipBlocks(groups[..g + 1]) == front + mine;
    PrefixTail(TransferProgram.ChipBlocks(groups), front, mine);
  }

  method CheckDeclared(plan: StartTransferRequest, specs: seq<PoolSpec>, ids: seq<int64>) returns (ok: bool)
    requires |plan.poolDtypeTags| == |specs|
    ensures ok <==> PoolsDeclared(plan, specs, ids)
    ensures ok <==>
              && (forall i, j | 0 <= i < j < |plan.transferPools| :: plan.transferPools[i] != plan.transferPools[j])
              && (forall i | 0 <= i < |plan.transferPools| ::
                    var p := plan.transferPools[i];
                    && 0 <= p < |specs| && plan.poolDtypeTags[p] == specs[p].dtypeTag
                    && forall k | 0 <= k < |ids| :: ids[k] < specs[p].numBlocks)
  {
    var pools := plan.transferPools;
    var seen: set<int32> := {};
    for k := 0 to |pools|
      invariant NoDuplicates(pools[..k]) && (forall x :: x in seen <==> x in pools[..k])
      invariant forall j | 0 <= j < k :: PoolDeclared(plan, specs, ids, pools[j])
    {
      var p := pools[k];
      assert pools[..k + 1] == pools[..k] + [p];
      if p < 0 {
        return false;
      }
      if p in seen {
        assert p in pools[..k];
        var j :| 0 <= j < k && pools[..k][j] == p;
        assert pools[j] == pools[k];
        return false;
      }
      seen := seen + {p};
      if p >= |specs| || plan.poolDtypeTags[p] != specs[p].dtypeTag {
        return false;
      }
      for i := 0 to |ids|
        invariant forall j | 0 <= j < i :: ids[j] < specs[p].numBlocks
      {
        if ids[i] >= specs[p].numBlocks {
          return false;
        }
      }
    }
    assert pools[..|pools|] == pools;
    ok := true;
  }

  method CheckSpans(specs: seq<PoolSpec>, group: PoolGroup, e: Entry, isSender: bool) returns (ok: bool)
    requires SpecsOk(specs)
    ensures ok <==> GroupSpans(specs, group, e, isSender)
  {
    for k := 0 to |group.poolIndices|
      invariant forall j | 0 <= j < k ::
                  0 <= group.poolIndices[j] < |specs| && LocalSpan(specs[group.poolIndices[j]], e, isSender)
    {
      var p := group.poolIndices[k];
      if p < 0 || p >= |specs| {
        return false;
      }
      var s := specs[p];
      assert SpecOk(s);
      var offset := if isSender then e.srcOffset else e.dstOffset;
      var stride := if isSender then e.srcStride else e.dstStride;
      forall i | 0 <= i < |s.regions| ensures RegionFits(s.regions[i], s.stride) {
        ValidFits(s.regions[i], s.stride);
      }
      var fits := StridedSpanFitsRegions(offset as i64, stride as i64, e.size as i64, e.count as i64, s.stride as i64,
                                         s.regions);
      if !fits {
        return false;
      }
    }
    ok := true;
  }

  method CheckEntry(plan: StartTransferRequest, specs: seq<PoolSpec>, ids: seq<int64>, isSender: bool, shards: int,
                    e: Entry)
    returns (ok: bool)
    requires SpecsOk(specs)
    ensures ok <==> EntryOk(plan, specs, ids, isSender, shards, e)
    ensures ok ==>
              && e.dstPeer != "" && e.size > 0 && 0 < e.count <= 0x10_0000 && 0 <= e.Group() < |plan.poolGroups|
              && e.srcBlock >= 0 && e.dstBlock >= 0 && 0 <= e.dstShard && (isSender || e.dstShard < shards)
              && e.dstOffset >= 0 && e.dstStride >= 0 && e.srcOffset >= 0 && e.srcStride >= 0
              && (e.count > 1 ==> e.srcStride > 0 && e.dstStride > 0)
              && (if isSender then e.srcBlock in ids else e.dstBlock in ids)
  {
    if e.dstPeer == "" {
      return false;
    }
    if e.srcBlock < 0 || e.dstBlock < 0 || e.dstShard < 0 || e.srcOffset < 0 || e.dstOffset < 0 || e.size <= 0
      || e.srcStride < 0 || e.dstStride < 0 || e.count <= 0 || e.count > MAX_EXPANDED_REPEATS {
      return false;
    }
    if e.count > 1 && (e.srcStride == 0 || e.dstStride == 0) {
      return false;
    }
    if !isSender && e.dstShard >= shards {
      return false;
    }
    if LocalBlock(e, isSender) !in ids {
      return false;
    }
    if e.Group() < 0 || e.Group() >= |plan.poolGroups| {
      return false;
    }
    ok := CheckSpans(specs, plan.poolGroups[e.Group()], e, isSender);
  }

  /** Visits every entry; `zeroes` are the destination blocks with an entry at offset 0. */
  method CheckEntries(plan: StartTransferRequest, specs: seq<PoolSpec>, ids: seq<int64>, isSender: bool, shards: int,
                      items: seq<Item>)
    returns (ok: bool, zeroes: set<int>)
    requires SpecsOk(specs)
    ensures ok <==> EntriesOk(plan, specs, ids, isSender, shards, items)
    ensures ok ==> zeroes == ZeroStarts(items)
  {
    zeroes := {};
    for i := 0 to |items|
      invariant forall k | 0 <= k < i :: EntryOk(plan, specs, ids, isSender, shards, items[k].entry)
      invariant zeroes == ZeroStarts(items[..i])
    {
      assert items[..i + 1][..i] == items[..i];
      var e := items[i].entry;
      var here := CheckEntry(plan, specs, ids, isSender, shards, e);
      if !here {
        return false, zeroes;
      }
      if e.dstOffset == 0 {
        zeroes := zeroes + {e.dstBlock};
      }
    }
    assert items[..|items|] == items;
    ok := true;
  }

  /** Accepts exactly the plans that pass every check of this end. */
  method ValidatePoolReshardPlan(plan: StartTransferRequest, specs: seq<PoolSpec>, pools: map<int, Pool>,
                                 ids: seq<int64>, isSender: bool, shards: int, ranks: seq<int32>) returns (ok: bool)
    requires SpecsOk(specs) && ExpandsAll(specs, pools) && IterationOrder(plan.schedules, ranks)
    ensures ok <==> PlanAccepted(plan, specs, pools, ids, isSender, shards, ranks)
  {
    ok := CheckHeader(plan, specs, ids);
    if !ok {
      return;
    }
    if !isSender {
      ok := CheckReceiverIds(plan, ids);
      if !ok {
        return;
      }
    }
    ok := CheckDeclared(plan, specs, ids);
    if !ok {
      return;
    }
    for k := 0 to |ranks|
      invariant forall j | 0 <= j < k :: ranks[j] >= 0
    {
      if ranks[k] < 0 {
        return false;
      }
    }
    var items := ItemsOf(plan.schedules, ranks);
    var zeroes;
    ok, zeroes := CheckEntries(plan, specs, ids, isSender, shards, items);
    if !ok || items == [] {
      return false;
    }
    if isSender {
      return true;
    }
    for k := 0 to |ids|
      invariant forall j | 0 <= j < k :: ids[j] in zeroes
    {
      if ids[k] !in zeroes {
        return false;
      }
    }
    ExpandsTable(specs, pools);
    EntriesScreened(plan, specs, ids, shards, ranks);
    ok := ValidatePoolReshardReceiverCoverage(plan, pools, ranks);
  }

  lemma EntriesScreened(plan: StartTransferRequest, specs: seq<PoolSpec>, ids: seq<int64>, shards: int,
                        ranks: seq<int32>)
    requires IterationOrder(plan.schedules, ranks)
             && EntriesOk(plan, specs, ids, false, shards, ItemsOf(plan.schedules, ranks))
    ensures forall r, i | r in plan.schedules && 0 <= i < |plan.schedules[r]| :: Screened(plan.schedules[r][i])
  {
    forall r, i | r in plan.schedules && 0 <= i < |plan.schedules[r]| ensures Screened(plan.schedules[r][i]) {
      var k := EntryIndex(plan.schedules, ranks, r, i);
      assert EntryOk(plan, specs, ids, false, shards, ItemsOf(plan.schedules, ranks)[k].entry);
    }
  }

  // ------------------------------------------------- delivery from acceptance

  /** One sender: the plan it was sent, its pools, and the blocks it was told to read. */
  datatype SenderEnd = SenderEnd(plan: StartTransferRequest, specs: seq<PoolSpec>, ids: seq<int64>, ranks: seq<int32>,
                                 key: int32)

  /** The sender accepted a plan for the same groups and pools, whose schedule holds this transfer's entries. */
  ghost predicate SenderAccepts(t: Transfer, s: Sender, end: SenderEnd) {
    && SpecsOk(end.specs) && ExpandsAll(end.specs, s.pools) && IterationOrder(end.plan.schedules, end.ranks)
    && PlanAccepted(end.plan, end.specs, s.pools, end.ids, true, 0, end.ranks)
    && end.plan.poolGroups == t.plan.poolGroups && end.plan.transferPools == t.plan.transferPools
    && end.key in end.plan.schedules && end.plan.schedules[end.key] == s.entries
  }

  ghost predicate ReceiverAccepts(t: Transfer, specs: seq<PoolSpec>, ids: seq<int64>, shards: int) {
    && SpecsOk(specs) && ExpandsAll(specs, t.pools) && IterationOrder(t.plan.schedules, t.ranks)
    && PlanAccepted(t.plan, specs, t.pools, ids, false, shards, t.ranks)
  }

  /** Who holds which entries, and where the bytes live: what no single end can check. */
  ghost predicate Placed(t: Transfer, mem: Memory) {
    && t.peer != "" && DisjointMirrors(t.plan, t.pools)
    && (forall p {:trigger Backed(t.pools[p], mem)} | InPlan(t.plan, p) && p in t.pools :: Backed(t.pools[p], mem))
    && (forall r | r in t.plan.schedules ::
        r in t.senders && t.plan.schedules[r] == ForPeer(t.senders[r].entries, t.peer))
    && (forall r, i | r in t.senders && 0 <= i < |t.senders[r].entries| ::
          t.senders[r].entries[i].dstPeer == t.peer ==> t.senders[r].entries[i].dstShard == t.shard)
  }

  ghost predicate SendersAccept(t: Transfer, ends: map<int32, SenderEnd>) {
    forall r | r in t.plan.schedules :: r in t.senders && r in ends && SenderAccepts(t, t.senders[r], ends[r])
  }

  /** A group's pools are transferred pools, since the receiver found that the groups partition them. */
  lemma GroupPoolDeclared(plan: StartTransferRequest, g: int, pool: int)
    requires Partition(plan) && NoDuplicates(plan.transferPools)
    requires 0 <= g < |plan.poolGroups| && HasPool(plan.poolGroups[g], pool)
    ensures pool in plan.transferPools
  {
    var k :| 0 <= k < |plan.poolGroups[g].poolIndices| && plan.poolGroups[g].poolIndices[k] == pool;
    AllPoolsAt(plan.poolGroups, g, k);
    var all := AllPools(plan.poolGroups);
    assert pool in all;
    SameMembers(all, plan.transferPools);
  }

  /** Two lists without repeats, of one length, one inside the other, have the same members. */
  lemma SameMembers(a: seq<int32>, b: seq<int32>)
    requires NoDuplicates(a) && NoDuplicates(b) && |a| == |b| && forall x | x in b :: x in a
    ensures forall x | x in a :: x in b
  {
    SetSize(a);
    SetSize(b);
    assert Members(b) <= Members(a);
    SubsetEqual(Members(b), Members(a));
    forall x | x in a ensures x in b {
      assert x in Members(a);
    }
  }

  function Members(a: seq<int32>): set<int32> {
    set x | x in a
  }

  lemma {:induction false} SetSize(a: seq<int32>)
    requires NoDuplicates(a)
    ensures |Members(a)| == |a|
  {
    if a != [] {
      var front, last := a[..|a| - 1], a[|a| - 1];
      SetSize(front);
      assert a == front + [last];
      assert Members(a) == Members(front) + {last};
      assert last !in front;
    }
  }

  lemma SubsetEqual(a: set<int32>, b: set<int32>)
    requires a <= b && |a| == |b|
    ensures a == b
  {
    assert b == a + (b - a);
    assert |b| == |a| + |b - a|;
  }

  /** The sender's span check covers the entry's source side in every pool of its group. */
  lemma SourceFits(t: Transfer, s: Sender, end: SenderEnd, e: Entry, pool: int)
    requires SenderAccepts(t, s, end) && e in s.entries && Partition(t.plan)
    requires 0 <= e.Group() < |t.plan.poolGroups| && HasPool(t.plan.poolGroups[e.Group()], pool)
    ensures pool in s.pools && SrcFits(e, s.pools[pool])
    ensures SpanLive(end.specs[pool], e.srcOffset, e.srcStride, e.size, e.count)
  {
    var j :| 0 <= j < |s.entries| && s.entries[j] == e;
    var items := ItemsOf(end.plan.schedules, end.ranks);
    var i := EntryIndex(end.plan.schedules, end.ranks, end.key, j);
    assert EntryOk(end.plan, end.specs, end.ids, true, 0, items[i].entry);
    GroupPoolDeclared(t.plan, e.Group(), pool);
    var k :| 0 <= k < |t.plan.transferPools| && t.plan.transferPools[k] == pool;
    assert PoolDeclared(end.plan, end.specs, end.ids, end.plan.transferPools[k]);
    var m :| 0 <= m < |end.ids| && end.ids[m] == e.srcBlock;
    var group := end.plan.poolGroups[e.Group()];
    var n :| 0 <= n < |group.poolIndices| && group.poolIndices[n] == pool;
    assert LocalSpan(end.specs[group.poolIndices[n]], e, true);
    assert Expands(end.specs[pool], s.pools[pool]);
  }

  /** The receiver's span check covers the entry's destination side in every pool of its group. */
  lemma DestinationLive(t: Transfer, specs: seq<PoolSpec>, ids: seq<int64>, shards: int, r: int32, j: nat, pool: int)
    requires ReceiverAccepts(t, specs, ids, shards) && r in t.plan.schedules && j < |t.plan.schedules[r]|
    requires TargetsPool(t.plan.poolGroups, t.plan.schedules[r][j], pool)
    ensures var e := t.plan.schedules[r][j];
            && Screened(e) && e.srcBlock >= 0 && 0 <= e.Group() < |t.plan.poolGroups|
                && HasPool(t.plan.poolGroups[e.Group()], pool)
            && pool in t.pools && DstLive(e, t.pools[pool]) && 0 <= pool < |specs|
            && SpanLive(specs[pool], e.dstOffset, e.dstStride, e.size, e.count)
  {
    var e := t.plan.schedules[r][j];
    var items := ItemsOf(t.plan.schedules, t.ranks);
    var i := EntryIndex(t.plan.schedules, t.ranks, r, j);
    assert EntryOk(t.plan, specs, ids, false, shards, items[i].entry);
    GroupPoolDeclared(t.plan, e.Group(), pool);
    var k :| 0 <= k < |t.plan.transferPools| && t.plan.transferPools[k] == pool;
    assert PoolDeclared(t.plan, specs, ids, t.plan.transferPools[k]);
    var m :| 0 <= m < |ids| && ids[m] == e.dstBlock;
    var group := t.plan.poolGroups[e.Group()];
    var n :| 0 <= n < |group.poolIndices| && group.poolIndices[n] == pool;
    assert LocalSpan(specs[group.poolIndices[n]], e, false);
    assert GroupOk(group, t.pools);
    GroupSegmentsMember(group, t.pools, |group.poolIndices|, n);
    DstLiveIff(specs[pool], t.pools[pool], e);
  }

  /** Plans both ends accept, placed as the coordinator places them, meet every condition of the delivery theorems. */
  lemma AcceptedValid(t: Transfer, mem: Memory, specs: seq<PoolSpec>, ids: seq<int64>, shards: int,
                      ends: map<int32, SenderEnd>)
    requires ReceiverAccepts(t, specs, ids, shards) && SendersAccept(t, ends) && Placed(t, mem)
    ensures Valid(t, mem)
  {
    ExpandsTable(specs, t.pools);
    forall r, i | r in t.plan.schedules && 0 <= i < |t.plan.schedules[r]|
        ensures EntryChecked(t, r, t.plan.schedules[r][i]) {
      AcceptedEntry(t, mem, specs, ids, shards, ends, r, i);
    }
  }

  lemma AcceptedEntry(t: Transfer, mem: Memory, specs: seq<PoolSpec>, ids: seq<int64>, shards: int,
                      ends: map<int32, SenderEnd>, r: int32, j: nat)
    requires ReceiverAccepts(t, specs, ids, shards) && SendersAccept(t, ends) && Placed(t, mem)
    requires r in t.plan.schedules && j < |t.plan.schedules[r]|
    ensures EntryChecked(t, r, t.plan.schedules[r][j])
  {
    var e := t.plan.schedules[r][j];
    ForPeerMember(t.senders[r].entries, t.peer, j);
    var i := EntryIndex(t.plan.schedules, t.ranks, r, j);
    assert EntryOk(t.plan, specs, ids, false, shards, ItemsOf(t.plan.schedules, t.ranks)[i].entry);
    forall p | TargetsPool(t.plan.poolGroups, e, p)
      ensures p in t.pools && DstLive(e, t.pools[p]) && p in t.senders[r].pools && SrcFits(e, t.senders[r].pools[p])
    {
      DestinationLive(t, specs, ids, shards, r, j, p);
      SourceFits(t, t.senders[r], ends[r], e, p);
    }
  }

  /** Every product and sum on the way to the chunk's last byte is a signed 64-bit value. */
  predicate InInt64(s: PoolSpec, b: int, offset: int, stride: int, size: int, c: int) {
    && 0 <= c * stride <= INT64_MAX && 0 <= offset + c * stride && offset + c * stride + size <= INT64_MAX
    && 0 <= b * s.stride <= INT64_MAX && 0 <= s.base + b * s.stride <= INT64_MAX
    && s.base + b * s.stride + offset + c * stride + size <= INT64_MAX
  }

  /** A chunk lies inside its block, on live bytes, and its address arithmetic does not overflow. */
  ghost predicate ChunkSafe(s: PoolSpec, b: int, offset: int, stride: int, size: int, c: int) {
    && 0 <= offset + c * stride && offset + c * stride + size <= s.stride
    && (forall q :: offset + c * stride <= q < offset + c * stride + size ==> Live(s.regions, q))
    && InInt64(s, b, offset, stride, size, c)
  }

  /** Every repeat of a span the division test accepts is safe. */
  lemma SpanSafe(s: PoolSpec, b: int, offset: int, stride: int, size: int, count: int, c: int)
    requires SpecOk(s) && SpanLive(s, offset, stride, size, count) && 0 <= b < s.numBlocks && 0 <= c < count
    ensures ChunkSafe(s, b, offset, stride, size, c)
  {
    RepeatInside(offset, stride, size, count, s.stride, c);
    assert RepeatLive(s.regions, offset, stride, size, c);
    MulMono(0, b, s.stride);
    MulMono(b, s.numBlocks - 1, s.stride);
    LiveBelowEnd(s.regions, s.stride, offset + c * stride + size - 1);
  }

  lemma ReceivedSafe(t: Transfer, specs: seq<PoolSpec>, ids: seq<int64>, shards: int, r: int32, j: nat, pool: int,
                     c: int)
    requires ReceiverAccepts(t, specs, ids, shards) && r in t.plan.schedules && j < |t.plan.schedules[r]|
    requires TargetsPool(t.plan.poolGroups, t.plan.schedules[r][j], pool) && 0 <= c < t.plan.schedules[r][j].count
    ensures var e := t.plan.schedules[r][j];
            0 <= pool < |specs| && ChunkSafe(specs[pool], e.dstBlock, e.dstOffset, e.dstStride, e.size, c)
  {
    var e := t.plan.schedules[r][j];
    DestinationLive(t, specs, ids, shards, r, j, pool);
    assert Expands(specs[pool], t.pools[pool]) && SpecOk(specs[pool]);
    SpanSafe(specs[pool], e.dstBlock, e.dstOffset, e.dstStride, e.size, e.count, c);
  }

  lemma SentSafe(t: Transfer, s: Sender, end: SenderEnd, e: Entry, pool: int, c: int)
    requires SenderAccepts(t, s, end) && e in s.entries && Partition(t.plan)
    requires 0 <= e.Group() < |t.plan.poolGroups| && HasPool(t.plan.poolGroups[e.Group()], pool) && 0 <= c < e.count
    ensures 0 <= pool < |end.specs| && ChunkSafe(end.specs[pool], e.srcBlock, e.srcOffset, e.srcStride, e.size, c)
  {
    SourceFits(t, s, end, e, pool);
    assert Expands(end.specs[pool], s.pools[pool]) && SpecOk(end.specs[pool]);
    SpanSafe(end.specs[pool], e.srcBlock, e.srcOffset, e.srcStride, e.size, e.count, c);
  }

  lemma StepOf(t: Transfer, x: Push, k: nat) returns (j: nat)
    requires x.rank in t.plan.schedules && 0 <= x.src && k < |PushSteps(t, x)|
    ensures var s := PushSteps(t, x)[k];
            && j < |t.plan.schedules[x.rank]| && t.plan.schedules[x.rank][j] == s.entry
            && TargetsPool(t.plan.poolGroups, s.entry, x.pool) && s.entry.srcBlock == x.src && s.entry.dstBlock == x.dst
            && 0 <= s.c < Replays(s.entry)
  {
    var entries, s := t.plan.schedules[x.rank], PushSteps(t, x)[k];
    StepsSound(entries, e => ReceiverSelects(t.plan.poolGroups, x.pool, t.shard, "", x.src, x.dst, e), k);
    j :| 0 <= j < |entries| && entries[j] == s.entry;
  }

  lemma AcceptedStep(t: Transfer, mem: Memory, specs: seq<PoolSpec>, ids: seq<int64>, shards: int,
                     ends: map<int32, SenderEnd>, r: int32, j: nat, pool: int, c: int)
    requires ReceiverAccepts(t, specs, ids, shards) && SendersAccept(t, ends) && Placed(t, mem)
    requires r in t.plan.schedules && r in ends && j < |t.plan.schedules[r]|
    requires TargetsPool(t.plan.poolGroups, t.plan.schedules[r][j], pool) && 0 <= c < Replays(t.plan.schedules[r][j])
    ensures var e := t.plan.schedules[r][j];
            && 0 <= pool < |specs| && ChunkSafe(specs[pool], e.dstBlock, e.dstOffset, e.dstStride, e.size, c)
            && 0 <= pool < |ends[r].specs|
                && ChunkSafe(ends[r].specs[pool], e.srcBlock, e.srcOffset, e.srcStride, e.size, c)
  {
    DestinationLive(t, specs, ids, shards, r, j, pool);
    ForPeerMember(t.senders[r].entries, t.peer, j);
    ReceivedSafe(t, specs, ids, shards, r, j, pool, c);
    SentSafe(t, t.senders[r], ends[r], t.plan.schedules[r][j], pool, c);
  }

  /**
    From acceptance alone: every chunk of every push lies inside its block at both ends, on live
    bytes, and no step of its address arithmetic leaves the signed 64-bit range.
   */
  lemma AcceptedChunks(t: Transfer, mem: Memory, specs: seq<PoolSpec>, ids: seq<int64>, shards: int,
                       ends: map<int32, SenderEnd>, x: Push, k: nat)
    requires ReceiverAccepts(t, specs, ids, shards) && SendersAccept(t, ends) && Placed(t, mem)
    requires x.rank in t.plan.schedules && x.rank in ends && 0 <= x.src && k < |PushSteps(t, x)|
    ensures var s := PushSteps(t, x)[k]; var e := s.entry;
            && 0 <= x.pool < |specs| && ChunkSafe(specs[x.pool], x.dst, e.dstOffset, e.dstStride, e.size, s.c)
            && 0 <= x.pool < |ends[x.rank].specs|
            && ChunkSafe(ends[x.rank].specs[x.pool], x.src, e.srcOffset, e.srcStride, e.size, s.c)
  {
    var j := StepOf(t, x, k);
    AcceptedStep(t, mem, specs, ids, shards, ends, x.rank, j, x.pool, PushSteps(t, x)[k].c);
  }

  /**
    Accepted plans deliver every scheduled byte in every complete order exactly when no pair is over
    the sender's block size.
   */
  lemma AcceptedDelivery(t: Transfer, mem: Memory, specs: seq<PoolSpec>, ids: seq<int64>, shards: int,
                         ends: map<int32, SenderEnd>, order: seq<Push>)
    requires ReceiverAccepts(t, specs, ids, shards) && SendersAccept(t, ends) && Placed(t, mem) && Complete(t, order)
    ensures forall k | 0 <= k < |order| :: Possible(t, order[k])
    ensures forall x | Scheduled(t, x) :: Possible(t, x)
    ensures (forall x | Scheduled(t, x) :: Fits(t, x))
       <==> (forall m: Memory, w | |m| == |mem| && WritesByte(t, w) :: Delivered(t, m, order, w))
  {
    AcceptedValid(t, mem, specs, ids, shards, ends);
    DeliveryExact(t, mem, order);
  }

  /** A pair over the sender's block size loses a byte, whatever plans were accepted. */
  lemma OverCapLoses(t: Transfer, mem: Memory, specs: seq<PoolSpec>, ids: seq<int64>, shards: int,
                     ends: map<int32, SenderEnd>, order: seq<Push>, x: Push) returns (m: Memory, w: Target)
    requires ReceiverAccepts(t, specs, ids, shards) && SendersAccept(t, ends) && Placed(t, mem) && Complete(t, order)
    requires Scheduled(t, x) && Possible(t, x) && !Fits(t, x)
    ensures forall k | 0 <= k < |order| :: Possible(t, order[k])
    ensures |m| == |mem| && WritesByte(t, w) && !Delivered(t, m, order, w)
  {
    AcceptedValid(t, mem, specs, ids, shards, ends);
    CompletePossible(t, mem, order);
    m, w := Lost(t, mem, order, x);
  }
}
