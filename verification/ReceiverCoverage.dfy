/**
  The receiver's checks on a pool reshard plan
  (tpu_sync/core/kv_cache_manager_with_transfer.cc): the strided-span
  arithmetic and the exact-coverage validator.
 */
module ReceiverCoverage {
  import opened Intervals
  import opened TransferTypes
  import opened PoolLayout

  /** Arithmetic on this type is proved free of overflow wherever it appears. */
  newtype i64 = x: int | -0x8000_0000_0000_0000 <= x <= 0x7FFF_FFFF_FFFF_FFFF

  const MAX_EXPANDED_REPEATS: int := 0x10_0000

  // ------------------------------------------------------------ strided spans

  /** The span's last byte stays inside the block. */
  predicate SpanFits(offset: int, stride: int, size: int, count: int, block: int) {
    && offset >= 0 && stride >= 0 && size > 0 && count > 0
    && offset + (count - 1) * stride + size <= block
  }

  /** The division test is the exact inequality, and no intermediate value overflows. */
  predicate StridedSpanFitsBlock(offset: i64, stride: i64, size: i64, count: i64, block: i64): (r: bool)
    ensures r <==> SpanFits(offset as int, stride as int, size as int, count as int, block as int)
  {
    SpanDivision(offset as int, stride as int, size as int, count as int, block as int);
    if offset < 0 || stride < 0 || size <= 0 || count <= 0 || block <= 0 || offset > block || size > block - offset
    then false
    else if count == 1 then true
    else
      var remaining := block - offset - size;
      stride <= remaining / (count - 1)
  }

  lemma SpanDivision(offset: int, stride: int, size: int, count: int, block: int)
    ensures offset >= 0 && stride >= 0 && size > 0 && count > 1 && size <= block - offset ==>
              (stride <= (block - offset - size) / (count - 1) <==> (count - 1) * stride <= block - offset - size)
    ensures SpanFits(offset, stride, size, count, block) ==> block > 0 && offset <= block && size <= block - offset
  {
    if offset >= 0 && stride >= 0 && size > 0 && count > 1 && size <= block - offset {
      var r, k := block - offset - size, count - 1;
      DivBounds(r, k);
      if stride <= r / k {
        MulMono(stride, r / k, k);
      } else {
        MulMono(r / k + 1, stride, k);
      }
    }
    if SpanFits(offset, stride, size, count, block) {
      MulMono(0, count - 1, stride);
    }
  }

  /** Every repeat of a fitting span lies inside the block, so its address arithmetic cannot overflow. */
  lemma RepeatInside(offset: int, stride: int, size: int, count: int, block: int, c: int)
    requires SpanFits(offset, stride, size, count, block) && 0 <= c < count
    ensures 0 <= c * stride && offset <= offset + c * stride && offset + c * stride + size <= block
  {
    MulMono(0, c, stride);
    MulMono(c, count - 1, stride);
  }

  ghost predicate RepeatsLive(regions: seq<Region>, offset: int, stride: int, size: int, count: int) {
    forall c | 0 <= c < count :: RepeatLive(regions, offset, stride, size, c)
  }

  ghost predicate RepeatLive(regions: seq<Region>, offset: int, stride: int, size: int, c: int) {
    forall p :: offset + c * stride <= p < offset + c * stride + size ==> Live(regions, p)
  }

  method StridedSpanFitsRegions(offset: i64, stride: i64, size: i64, count: i64, block: i64, regions: seq<Region>)
    returns (ok: bool)
    requires forall i | 0 <= i < |regions| :: RegionGeometryOk(regions[i])
    ensures ok <==> && SpanFits(offset as int, stride as int, size as int, count as int, block as int)
                    && RepeatsLive(regions, offset as int, stride as int, size as int, count as int)
  {
    if !StridedSpanFitsBlock(offset, stride, size, count, block) {
      return false;
    }
    var repeat: i64 := 0;
    while repeat < count
      invariant 0 <= repeat <= count
      invariant RepeatsLive(regions, offset as int, stride as int, size as int, repeat as int)
    {
      RepeatInside(offset as int, stride as int, size as int, count as int, block as int, repeat as int);
      var start := offset + repeat * stride;
      var covered := RegionsCoverRange(regions, start as int, (start + size) as int);
      if !covered {
        assert !RepeatLive(regions, offset as int, stride as int, size as int, repeat as int);
        return false;
      }
      repeat := repeat + 1;
    }
    ok := true;
  }

  // ------------------------------------------------------------- plan shape

  /** One entry of a pool table: its geometry and the expansion of its regions, if it expands. */
  datatype Pool = Pool(base: nat, stride: nat, numBlocks: nat, segs: Option<seq<Segment>>)

  ghost predicate PoolOk(p: Pool) {
    p.segs.Some? ==>
      && WellFormed(p.segs.value, 0, 0)
      && forall b :: ToLogical(p.segs.value, b).Some? ==> 0 <= b < p.stride
  }

  ghost predicate TableOk(pools: map<int, Pool>) {
    forall i | i in pools :: PoolOk(pools[i])
  }

  function AllPools(groups: seq<PoolGroup>): seq<int32> {
    if groups == [] then [] else AllPools(groups[..|groups| - 1]) + groups[|groups| - 1].poolIndices
  }

  predicate NoDuplicates<T(==)>(s: seq<T>) {
    forall i, j | 0 <= i < j < |s| :: s[i] != s[j]
  }

  /** The groups' pools are distinct, non-negative, and exactly the transferred pools. */
  predicate Partition(plan: StartTransferRequest) {
    var all := AllPools(plan.poolGroups);
    && NoDuplicates(all) && (forall p | p in all :: p >= 0)
    && |all| == |plan.transferPools| && (forall p | p in plan.transferPools :: p in all)
  }

  /** The live segments a group settles on: those of its first pool with any live byte. */
  function GroupSegments(group: PoolGroup, pools: map<int, Pool>, n: nat): Option<seq<Segment>>
    requires n <= |group.poolIndices|
  {
    if n == 0 then Some([])
    else
      var before, p := GroupSegments(group, pools, n - 1), group.poolIndices[n - 1] as int;
      if before.None? || p !in pools || pools[p].segs.None? then None
      else if before.value == [] then pools[p].segs
      else if before.value == pools[p].segs.value then before
      else None
  }

  predicate ExtentsOk(extents: seq<int64>, live: int) {
    && (forall i | 0 <= i < |extents| :: 0 < extents[i] <= live)
    && (forall i | 0 <= i < |extents| - 1 :: extents[i] == live)
  }

  predicate GroupOk(group: PoolGroup, pools: map<int, Pool>) {
    var segs := GroupSegments(group, pools, |group.poolIndices|);
    && group.poolIndices != []
    && segs.Some? && Total(segs.value) > 0
    && group.extents != [] && |group.extents| == |group.dstBlockIds|
    && ExtentsOk(group.extents, Total(segs.value))
  }

  function SegsOf(plan: StartTransferRequest, pools: map<int, Pool>, g: int): seq<Segment>
    requires 0 <= g < |plan.poolGroups|
  {
    var segs := GroupSegments(plan.poolGroups[g], pools, |plan.poolGroups[g].poolIndices|);
    if segs.Some? then segs.value else []
  }

  /** `ordinals[id] = ordinal` in ascending order: the last occurrence wins. */
  function Ordinal(ids: seq<int64>, id: int): int
    ensures -1 <= Ordinal(ids, id) < |ids|
    ensures Ordinal(ids, id) >= 0 ==> ids[Ordinal(ids, id)] == id
    ensures Ordinal(ids, id) == -1 <==> id !in ids
  {
    if ids == [] then -1
    else if ids[|ids| - 1] == id then |ids| - 1
    else Ordinal(ids[..|ids| - 1], id)
  }

  // --------------------------------------------------------------- coverage

  /** Entry `j` of a rank's schedule. */
  datatype Item = Item(rank: int32, j: int, entry: Entry)

  function Tag(rank: int32, entries: seq<Entry>): seq<Item> {
    seq(|entries|, i requires 0 <= i < |entries| => Item(rank, i, entries[i]))
  }

  /** The plan's entries in one iteration order of its schedule map. */
  function ItemsOf(schedules: map<int32, seq<Entry>>, ranks: seq<int32>): seq<Item>
    requires forall r | r in ranks :: r in schedules
  {
    if ranks == [] then []
    else ItemsOf(schedules, ranks[..|ranks| - 1]) + Tag(ranks[|ranks| - 1], schedules[ranks[|ranks| - 1]])
  }

  predicate IterationOrder(schedules: map<int32, seq<Entry>>, ranks: seq<int32>) {
    NoDuplicates(ranks) && (forall r | r in ranks :: r in schedules) && (forall r | r in schedules :: r in ranks)
  }

  /** Sizes, counts, offsets and strides as screened entry by entry before coverage is checked. */
  predicate Screened(e: Entry) {
    && e.size > 0 && 0 < e.count <= MAX_EXPANDED_REPEATS
    && e.dstOffset >= 0 && e.dstStride >= 0 && e.srcOffset >= 0 && e.srcStride >= 0
    && (e.count > 1 ==> e.srcStride > 0 && e.dstStride > 0)
  }

  function RangeAt(segs: seq<Segment>, e: Entry, c: int): Option<Interval> {
    LogicalRange(segs, e.dstOffset + c * e.dstStride, e.size)
  }

  /** The logical intervals of the first `n` repeats. */
  function EntryRanges(segs: seq<Segment>, e: Entry, n: nat): seq<Interval> {
    if n == 0 then []
    else
      var r := RangeAt(segs, e, n - 1);
      EntryRanges(segs, e, n - 1) + [if r.Some? then r.value else Interval(0, 1)]
  }

  predicate RepeatOk(segs: seq<Segment>, e: Entry, extent: int, c: int) {
    RangeAt(segs, e, c).Some? && RangeAt(segs, e, c).value.end <= extent
  }

  predicate RepeatsOk(segs: seq<Segment>, e: Entry, extent: int, n: int) {
    forall c | 0 <= c < n :: RepeatOk(segs, e, extent, c)
  }

  /** The entry names a known group and block, and every repeat maps inside the block's extent. */
  predicate ItemOk(plan: StartTransferRequest, pools: map<int, Pool>, e: Entry) {
    && 0 <= e.Group() < |plan.poolGroups|
    && var group := plan.poolGroups[e.Group()];
       var o := Ordinal(group.dstBlockIds, e.dstBlock);
       o >= 0 && o < |group.extents| && RepeatsOk(SegsOf(plan, pools, e.Group()), e, group.extents[o], e.count)
  }

  function Repeats(items: seq<Item>): int {
    if items == [] then 0 else Repeats(items[..|items| - 1]) + items[|items| - 1].entry.count
  }

  predicate Targets(plan: StartTransferRequest, e: Entry, g: int, o: int) {
    e.Group() == g && 0 <= g < |plan.poolGroups| && Ordinal(plan.poolGroups[g].dstBlockIds, e.dstBlock) == o
  }

  /** The intervals collected for destination block `o` of group `g`. */
  function Collected(plan: StartTransferRequest, pools: map<int, Pool>, items: seq<Item>, g: int, o: int): seq<Interval>
    requires 0 <= g < |plan.poolGroups|
  {
    if items == [] then []
    else
      var e := items[|items| - 1].entry;
      Collected(plan, pools, items[..|items| - 1], g, o)
      + if Targets(plan, e, g, o) && e.count > 0 then EntryRanges(SegsOf(plan, pools, g), e, e.count) else []
  }

  /** The distinct (peer, source block, destination block) pairs a sender owes group `g`. */
  function PairsOf(items: seq<Item>, g: int, rank: int): set<(string, int, int)> {
    if items == [] then {}
    else
      var it := items[|items| - 1];
      PairsOf(items[..|items| - 1], g, rank)
      + if it.entry.Group() == g && it.rank == rank then {(it.entry.dstPeer, it.entry.srcBlock, it.entry.dstBlock)}
          else {}
  }

  function Min(a: int, b: int): int { if a <= b then a else b }

  function PushCount(items: seq<Item>, g: int, ranks: seq<int32>, parallelism: int): int {
    if ranks == [] then 0
    else PushCount(items, g, ranks[..|ranks| - 1], parallelism)
         + Min(parallelism, |PairsOf(items, g, ranks[|ranks| - 1])|)
  }

  ghost predicate BlocksTiled(plan: StartTransferRequest, pools: map<int, Pool>, items: seq<Item>, g: int)
    requires 0 <= g < |plan.poolGroups|
  {
    var group := plan.poolGroups[g];
    forall o | 0 <= o < |group.extents| :: Tiles(Collected(plan, pools, items, g, o), group.extents[o])
  }

  predicate GroupsOk(plan: StartTransferRequest, pools: map<int, Pool>) {
    Partition(plan) && plan.parallelism > 0 && forall g | 0 <= g < |plan.poolGroups| ::
        GroupOk(plan.poolGroups[g], pools)
  }

  predicate ItemsOk(plan: StartTransferRequest, pools: map<int, Pool>, items: seq<Item>) {
    AllOk(plan, pools, items) && Repeats(items) <= MAX_EXPANDED_REPEATS
  }

  predicate AllOk(plan: StartTransferRequest, pools: map<int, Pool>, items: seq<Item>) {
    items == [] || (AllOk(plan, pools, items[..|items| - 1]) && ItemOk(plan, pools, items[|items| - 1].entry))
  }

  /** What the receiver accepts, said without the algorithm. */
  ghost predicate CoverageOk(plan: StartTransferRequest, pools: map<int, Pool>, ranks: seq<int32>)
    requires IterationOrder(plan.schedules, ranks)
  {
    var items := ItemsOf(plan.schedules, ranks);
    && GroupsOk(plan, pools) && ItemsOk(plan, pools, items)
    && forall g | 0 <= g < |plan.poolGroups| ::
         && PushCount(items, g, ranks, plan.parallelism) == plan.poolGroups[g].expectedPushes
         && BlocksTiled(plan, pools, items, g)
  }

  // ------------------------------------------------------------ the validator

  method CheckGroup(group: PoolGroup, pools: map<int, Pool>) returns (ok: bool)
    requires TableOk(pools)
    ensures ok <==> GroupOk(group, pools)
    ensures ok <==>
              var segs := GroupSegments(group, pools, |group.poolIndices|);
              && group.poolIndices != [] && segs.Some? && Total(segs.value) > 0
              && 0 < |group.extents| == |group.dstBlockIds|
              && (forall i | 0 <= i < |group.extents| - 1 :: group.extents[i] == Total(segs.value))
              && 0 < group.extents[|group.extents| - 1] <= Total(segs.value)
  {
    if group.poolIndices == [] {
      return false;
    }
    var segments: seq<Segment> := [];
    for i := 0 to |group.poolIndices|
      invariant GroupSegments(group, pools, i) == Some(segments)
    {
      var p := group.poolIndices[i] as int;
      if p !in pools || pools[p].segs.None? {
        GroupSegmentsFail(group, pools, i + 1, |group.poolIndices|);
        return false;
      }
      if segments == [] {
        segments := pools[p].segs.value;
      } else if segments != pools[p].segs.value {
        GroupSegmentsFail(group, pools, i + 1, |group.poolIndices|);
        return false;
      }
    }
    var live := Total(segments);
    if live <= 0 || group.extents == [] || |group.extents| != |group.dstBlockIds| {
      return false;
    }
    for o := 0 to |group.extents|
      invariant forall i | 0 <= i < o :: 0 < group.extents[i] <= live
      invariant forall i | 0 <= i < o && i < |group.extents| - 1 :: group.extents[i] == live
    {
      var extent := group.extents[o];
      if extent <= 0 || extent > live {
        return false;
      }
      if o != |group.extents| - 1 && extent != live {
        return false;
      }
    }
    ok := true;
  }

  lemma {:induction false} GroupSegmentsFail(group: PoolGroup, pools: map<int, Pool>, i: nat, n: nat)
    requires i <= n <= |group.poolIndices| && GroupSegments(group, pools, i).None?
    ensures GroupSegments(group, pools, n).None?
  {
    if i < n {
      GroupSegmentsFail(group, pools, i, n - 1);
    }
  }

  /** The grouped pools as a set, or `None` when one is negative or repeated. */
  method GroupedPools(all: seq<int32>) returns (grouped: Option<set<int32>>)
    ensures grouped.Some? <==> NoDuplicates(all) && forall p | p in all :: p >= 0
    ensures grouped.Some? ==> |grouped.value| == |all| && forall p :: p in grouped.value <==> p in all
  {
    var seen: set<int32> := {};
    for i := 0 to |all|
      invariant forall p :: p in seen <==> p in all[..i]
      invariant NoDuplicates(all[..i]) && |seen| == i
      invariant forall p | p in all[..i] :: p >= 0
    {
      assert all[..i + 1] == all[..i] + [all[i]];
      if all[i] < 0 {
        assert all[i] in all;
        return None;
      }
      if all[i] in seen {
        var k :| 0 <= k < i && all[..i][k] == all[i];
        assert all[k] == all[i];
        return None;
      }
      seen := seen + {all[i]};
    }
    assert all[..|all|] == all;
    grouped := Some(seen);
  }

  method CheckPartition(plan: StartTransferRequest) returns (ok: bool)
    ensures ok <==> Partition(plan)
  {
    var grouped := GroupedPools(AllPools(plan.poolGroups));
    if grouped.None? || |grouped.value| != |plan.transferPools| {
      return false;
    }
    for i := 0 to |plan.transferPools|
      invariant forall k | 0 <= k < i :: plan.transferPools[k] in grouped.value
    {
      if plan.transferPools[i] !in grouped.value {
        assert plan.transferPools[i] in plan.transferPools;
        return false;
      }
    }
    ok := true;
  }

  method CheckGroups(plan: StartTransferRequest, pools: map<int, Pool>) returns (ok: bool)
    requires TableOk(pools)
    ensures ok <==> GroupsOk(plan, pools)
  {
    var partition := CheckPartition(plan);
    if !partition || plan.parallelism <= 0 {
      return false;
    }
    for g := 0 to |plan.poolGroups|
      invariant forall k | 0 <= k < g :: GroupOk(plan.poolGroups[k], pools)
    {
      var groupOk := CheckGroup(plan.poolGroups[g], pools);
      if !groupOk {
        return false;
      }
    }
    ok := true;
  }

  /** The inner loop: each repeat is mapped, bounded by the extent, and collected. */
  method ExpandEntry(segs: seq<Segment>, e: Entry, extent: int64) returns (r: Option<seq<Interval>>)
    requires Screened(e)
    ensures r.Some? <==> RepeatsOk(segs, e, extent, e.count)
    ensures r.Some? ==> r.value == EntryRanges(segs, e, e.count)
  {
    var ranges: seq<Interval> := [];
    for repeat := 0 to e.count
      invariant ranges == EntryRanges(segs, e, repeat)
      invariant RepeatsOk(segs, e, extent, repeat)
    {
      var physical := e.dstOffset + repeat * e.dstStride;
      var range := PhysicalLiveRangeToLogical(segs, physical, e.size);
      if range.None? || range.value.end > extent {
        assert !RepeatOk(segs, e, extent, repeat);
        return None;
      }
      ranges := ranges + [range.value];
    }
    r := Some(ranges);
  }

  type Coverage = seq<seq<seq<Interval>>>

  lemma {:induction false} RepeatsPrefix(items: seq<Item>, i: nat)
    requires i <= |items| && forall k | 0 <= k < |items| :: items[k].entry.count > 0
    ensures Repeats(items[..i]) <= Repeats(items)
    decreases |items|
  {
    if i == |items| {
      assert items[..i] == items;
    } else {
      var front := items[..|items| - 1];
      RepeatsPrefix(front, i);
      assert front[..i] == items[..i];
    }
  }

  ghost predicate Shaped(plan: StartTransferRequest, cov: Coverage) {
    && |cov| == |plan.poolGroups|
    && forall g | 0 <= g < |cov| :: |cov[g]| == |plan.poolGroups[g].dstBlockIds|
  }

  /** Adds an entry's ranges to the block it targets. */
  function Add(plan: StartTransferRequest, pools: map<int, Pool>, e: Entry, cov: Coverage): Coverage
    requires Shaped(plan, cov)
  {
    var g := e.Group() as int;
    if !(0 <= g < |plan.poolGroups|) then cov
    else
      var o := Ordinal(plan.poolGroups[g].dstBlockIds, e.dstBlock);
      if o < 0 || e.count <= 0 then cov
      else cov[g := cov[g][o := cov[g][o] + EntryRanges(SegsOf(plan, pools, g), e, e.count)]]
  }

  /** One entry: refused, or its ranges added to the block it targets. */
  method CollectItem(plan: StartTransferRequest, pools: map<int, Pool>, e: Entry, cov: Coverage)
      returns (r: Option<Coverage>)
    requires Screened(e) && Shaped(plan, cov)
    requires forall g | 0 <= g < |plan.poolGroups| :: |plan.poolGroups[g].dstBlockIds| == |plan.poolGroups[g].extents|
    ensures r.Some? <==> ItemOk(plan, pools, e)
    ensures r.Some? ==> r.value == Add(plan, pools, e, cov)
  {
    if e.Group() < 0 || e.Group() as int >= |plan.poolGroups| {
      return None;
    }
    var g := e.Group() as int;
    var o := Ordinal(plan.poolGroups[g].dstBlockIds, e.dstBlock);
    if o < 0 {
      return None;
    }
    var ranges := ExpandEntry(SegsOf(plan, pools, g), e, plan.poolGroups[g].extents[o]);
    if ranges.None? {
      return None;
    }
    r := Some(cov[g := cov[g][o := cov[g][o] + ranges.value]]);
  }

  function CoverageOf(plan: StartTransferRequest, pools: map<int, Pool>, items: seq<Item>): (cov: Coverage)
    ensures Shaped(plan, cov)
  {
    NoCoverageShape(plan.poolGroups);
    if items == [] then NoCoverage(plan.poolGroups)
    else Add(plan, pools, items[|items| - 1].entry, CoverageOf(plan, pools, items[..|items| - 1]))
  }

  /** What the collecting loop holds for each block is the list `Collected` describes. */
  lemma {:induction false} CoverageHolds(plan: StartTransferRequest, pools: map<int, Pool>, items: seq<Item>, g: int,
                                         o: int)
    requires 0 <= g < |plan.poolGroups| && 0 <= o < |plan.poolGroups[g].dstBlockIds|
    ensures CoverageOf(plan, pools, items)[g][o] == Collected(plan, pools, items, g, o)
  {
    if items == [] {
      NoCoverageShape(plan.poolGroups);
    } else {
      CoverageHolds(plan, pools, items[..|items| - 1], g, o);
    }
  }

  function NoCoverage(groups: seq<PoolGroup>): Coverage {
    if groups == [] then []
    else NoCoverage(groups[..|groups| - 1]) + [seq(|groups[|groups| - 1].dstBlockIds|, o => [])]
  }

  lemma {:induction false} NoCoverageShape(groups: seq<PoolGroup>)
    ensures |NoCoverage(groups)| == |groups|
    ensures forall g | 0 <= g < |groups| :: |NoCoverage(groups)[g]| == |groups[g].dstBlockIds|
    ensures forall g, o | 0 <= g < |groups| && 0 <= o < |groups[g].dstBlockIds| :: NoCoverage(groups)[g][o] == []
  {
    if groups != [] {
      NoCoverageShape(groups[..|groups| - 1]);
    }
  }

  lemma CollectStep(plan: StartTransferRequest, pools: map<int, Pool>, items: seq<Item>, i: nat)
    requires i < |items|
    ensures Repeats(items[..i + 1]) == Repeats(items[..i]) + items[i].entry.count
    ensures AllOk(plan, pools, items[..i + 1])
       <==> AllOk(plan, pools, items[..i]) && ItemOk(plan, pools, items[i].entry)
    ensures CoverageOf(plan, pools, items[..i + 1])
         == Add(plan, pools, items[i].entry, CoverageOf(plan, pools, items[..i]))
  {
    assert items[..i + 1][..i] == items[..i];
  }

  method CollectCoverage(plan: StartTransferRequest, pools: map<int, Pool>, items: seq<Item>)
      returns (cov: Option<Coverage>)
    requires forall g | 0 <= g < |plan.poolGroups| :: |plan.poolGroups[g].dstBlockIds| == |plan.poolGroups[g].extents|
    requires forall i | 0 <= i < |items| :: Screened(items[i].entry)
    ensures cov.Some? <==> ItemsOk(plan, pools, items)
    ensures cov.Some? ==> cov.value == CoverageOf(plan, pools, items)
  {
    var current := NoCoverage(plan.poolGroups);
    var expanded := 0;
    for i := 0 to |items|
      invariant expanded == Repeats(items[..i]) <= MAX_EXPANDED_REPEATS
      invariant AllOk(plan, pools, items[..i])
      invariant current == CoverageOf(plan, pools, items[..i])
    {
      var e := items[i].entry;
      CollectStep(plan, pools, items, i);
      RepeatsPrefix(items, i + 1);
      expanded := expanded + e.count;
      if expanded > MAX_EXPANDED_REPEATS {
        return None;
      }
      var next := CollectItem(plan, pools, e, current);
      if next.None? {
        if AllOk(plan, pools, items) {
          AllOkAt(plan, pools, items, i);
        }
        return None;
      }
      current := next.value;
    }
    assert items[..|items|] == items;
    cov := Some(current);
  }

  lemma {:induction false} AllOkAt(plan: StartTransferRequest, pools: map<int, Pool>, items: seq<Item>, i: nat)
    requires i < |items| && AllOk(plan, pools, items)
    ensures ItemOk(plan, pools, items[i].entry)
  {
    if i < |items| - 1 {
      AllOkAt(plan, pools, items[..|items| - 1], i);
    }
  }

  method CountPushes(items: seq<Item>, g: int, ranks: seq<int32>, parallelism: int) returns (n: int)
    ensures n == PushCount(items, g, ranks, parallelism)
  {
    n := 0;
    for i := 0 to |ranks|
      invariant n == PushCount(items, g, ranks[..i], parallelism)
    {
      var pairs: set<(string, int, int)> := {};
      for k := 0 to |items|
        invariant pairs == PairsOf(items[..k], g, ranks[i])
      {
        var it := items[k];
        assert items[..k + 1][..k] == items[..k];
        if it.entry.Group() == g && it.rank == ranks[i] {
          pairs := pairs + {(it.entry.dstPeer, it.entry.srcBlock as int, it.entry.dstBlock as int)};
        }
      }
      assert items[..|items|] == items;
      assert ranks[..i + 1][..i] == ranks[..i];
      n := n + Min(parallelism, |pairs|);
    }
    assert ranks[..|ranks|] == ranks;
  }

  lemma {:induction false} EntryRangesPositive(segs: seq<Segment>, e: Entry, n: nat)
    ensures Positive(EntryRanges(segs, e, n)) && |EntryRanges(segs, e, n)| == n
  {
    if n > 0 {
      EntryRangesPositive(segs, e, n - 1);
      LogicalRangeSize(segs, e.dstOffset + (n - 1) * e.dstStride, e.size);
    }
  }

  lemma {:induction false} LogicalRangeSize(segs: seq<Segment>, offset: int, size: int)
    ensures LogicalRange(segs, offset, size).Some? ==>
              size > 0 && LogicalRange(segs, offset, size).value.end
                  == LogicalRange(segs, offset, size).value.start + size
  {
    if segs != [] {
      LogicalRangeSize(segs[1..], offset, size);
    }
  }

  lemma {:induction false} CollectedPositive(plan: StartTransferRequest, pools: map<int, Pool>, items: seq<Item>,
                                             g: int, o: int)
    requires 0 <= g < |plan.poolGroups|
    ensures Positive(Collected(plan, pools, items, g, o))
  {
    if items != [] {
      var e := items[|items| - 1].entry;
      CollectedPositive(plan, pools, items[..|items| - 1], g, o);
      if e.count > 0 {
        EntryRangesPositive(SegsOf(plan, pools, g), e, e.count);
      }
    }
  }

  /** The receiver's coverage validator accepts exactly the plans that tile every destination block. */
  method ValidatePoolReshardReceiverCoverage(plan: StartTransferRequest, pools: map<int, Pool>, ranks: seq<int32>)
    returns (ok: bool)
    requires TableOk(pools) && IterationOrder(plan.schedules, ranks)
    requires forall r, i | r in plan.schedules && 0 <= i < |plan.schedules[r]| :: Screened(plan.schedules[r][i])
    ensures ok <==> CoverageOk(plan, pools, ranks)
  {
    var groupsOk := CheckGroups(plan, pools);
    if !groupsOk {
      return false;
    }
    var items := ItemsOf(plan.schedules, ranks);
    ItemsScreened(plan.schedules, ranks);
    var cov := CollectCoverage(plan, pools, items);
    if cov.None? {
      return false;
    }
    ok := CheckTiling(plan, pools, items, ranks, cov.value);
  }

  /** The last loop: every group has its expected pushes, and its blocks are tiled. */
  method CheckTiling(plan: StartTransferRequest, pools: map<int, Pool>, items: seq<Item>, ranks: seq<int32>,
                     cov: Coverage)
      returns (ok: bool)
    requires forall g | 0 <= g < |plan.poolGroups| :: GroupOk(plan.poolGroups[g], pools)
    requires cov == CoverageOf(plan, pools, items)
    ensures ok <==> forall g | 0 <= g < |plan.poolGroups| ::
                      && PushCount(items, g, ranks, plan.parallelism) == plan.poolGroups[g].expectedPushes
                      && BlocksTiled(plan, pools, items, g)
  {
    for g := 0 to |plan.poolGroups|
      invariant forall k | 0 <= k < g ::
                  && PushCount(items, k, ranks, plan.parallelism) == plan.poolGroups[k].expectedPushes
                  && BlocksTiled(plan, pools, items, k)
    {
      var pushes := CountPushes(items, g, ranks, plan.parallelism);
      if pushes != plan.poolGroups[g].expectedPushes {
        return false;
      }
      var tiled := SweepBlocks(plan, pools, items, g, cov);
      if !tiled {
        return false;
      }
    }
    ok := true;
  }

  /** The inner loop: every destination block of the group is swept. */
  method SweepBlocks(plan: StartTransferRequest, pools: map<int, Pool>, items: seq<Item>, g: nat, cov: Coverage)
      returns (ok: bool)
    requires g < |plan.poolGroups| && GroupOk(plan.poolGroups[g], pools)
    requires cov == CoverageOf(plan, pools, items)
    ensures ok <==> BlocksTiled(plan, pools, items, g)
  {
    var group := plan.poolGroups[g];
    for o := 0 to |group.dstBlockIds|
      invariant forall k | 0 <= k < o :: Tiles(Collected(plan, pools, items, g, k), group.extents[k])
    {
      CollectedPositive(plan, pools, items, g, o);
      CoverageHolds(plan, pools, items, g, o);
      var tiled := SortAndSweep(cov[g][o], group.extents[o]);
      if !tiled {
        return false;
      }
    }
    ok := true;
  }

  lemma {:induction false} ItemsScreened(schedules: map<int32, seq<Entry>>, ranks: seq<int32>)
    requires forall r | r in ranks :: r in schedules
    requires forall r, i | r in schedules && 0 <= i < |schedules[r]| :: Screened(schedules[r][i])
    ensures forall i | 0 <= i < |ItemsOf(schedules, ranks)| :: Screened(ItemsOf(schedules, ranks)[i].entry)
  {
    if ranks != [] {
      ItemsScreened(schedules, ranks[..|ranks| - 1]);
    }
  }
}
