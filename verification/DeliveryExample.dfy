/**
  Plans both ends accept whose one pair moves more bytes than one of the
  sender's blocks holds: two entries read the one byte of a source block into
  the two bytes of a destination block
  (tpu_sync/core/kv_cache_manager_with_transfer.cc,
  tpu_sync/transport/block_transport.cc).
 */
module DeliveryExample {
  import opened TransferTypes
  import opened Intervals
  import opened PoolLayout
  import opened ReceiverCoverage
  import opened BlockChunks
  import opened Delivery
  import opened PoolSpecs
  import opened PlanChecks
  import TransferProgram

  const FIRST := Entry("peer", 0, 0, 0, 1, 0, 0, 0, 0, 1, None, None)
  const SECOND := Entry("peer", 0, 1, 0, 1, 0, 0, 0, 0, 1, None, None)
  const ENTRIES := [FIRST, SECOND]
  const GROUP := PoolGroup([0], [0], 1, [2], 0)

  function PlanFor(isSender: bool, u: int64): StartTransferRequest {
    StartTransferRequest([], [], map[0 := ENTRIES], u, isSender, Hbm, true, 1, "req", ["bf16"], [0], 1, None, [GROUP],
                         map[], map[])
  }

  /** A pool of one block of `n` bytes, all live. */
  function Spec(n: nat): PoolSpec {
    PoolSpec("bf16", 0, n, 1, [Region(0, n, n, 1, 1)])
  }

  function Table(n: nat): map<int, Pool> {
    map[0 := Pool(0, n, 1, Some([Segment(0, 0, n)]))]
  }

  function Replay(u: int64): Transfer {
    Transfer(PlanFor(false, u), Table(2), [0], map[0 := Sender(ENTRIES, Table(1), [7])], "peer", 0)
  }

  function Ends(u: int64): map<int32, SenderEnd> {
    map[0 := SenderEnd(PlanFor(true, u), [Spec(1)], [0], [0], 0)]
  }

  const EMPTY: Memory := [0, 0]
  const PAIR := Push(0, 0, 0, 0)

  // ------------------------------------------------------------------- pools

  lemma OneSegment(n: nat, x: int)
    requires n > 0
    ensures WellFormed([Segment(0, 0, n)], 0, 0)
    ensures ToLogical([Segment(0, 0, n)], x) == (if 0 <= x < n then Some(x) else None)
  {
    assert [Segment(0, 0, n)][1..] == [];
  }

  lemma OneRegion(n: nat)
    requires 0 < n <= 8
    ensures SpecOk(Spec(n)) && RegionsFit(Spec(n).regions, n) && AllIntervals(Spec(n).regions) == [Interval(0, n)]
    ensures forall x :: Live(Spec(n).regions, x) <==> 0 <= x < n
  {
    var r, regions := Region(0, n, n, 1, 1), Spec(n).regions;
    assert r.Packed() == n && RegionEnd(r) == n && RegionFits(r, n);
    var front := regions[..|regions| - 1];
    assert front == [];
    assert AllIntervals(front) == [] && LiveEnd(front) == 0;
    assert RegionIntervals(r) == [Interval(0, n)];
    forall x ensures Live(regions, x) <==> 0 <= x < n {
      assert InUnit(r, 0, x) <==> 0 <= x < n;
      assert RegionLive(regions[0], x) <==> 0 <= x < n;
    }
  }

  lemma OneInterval(n: nat)
    ensures NoByteTwice([Interval(0, n)])
  {
    forall b ensures Cover([Interval(0, n)], b) <= 1 {
      assert [Interval(0, n)][1..] == [];
    }
  }

  lemma OneExpands(n: nat, p: Pool)
    requires 0 < n <= 8 && p == Pool(0, n, 1, Some([Segment(0, 0, n)]))
    ensures Expands(Spec(n), p)
  {
    OneRegion(n);
    OneInterval(n);
    forall x ensures ToLogical(p.segs.value, x).Some? <==> 0 <= x < n {
      OneSegment(n, x);
    }
    OneSegment(n, 0);
  }

  lemma PoolExpands(n: nat)
    requires 0 < n <= 8
    ensures SpecsOk([Spec(n)]) && ExpandsAll([Spec(n)], Table(n))
  {
    OneRegion(n);
    OneExpands(n, Table(n)[0]);
    OnePool(Spec(n), Table(n)[0]);
  }

  lemma OnePool(s: PoolSpec, p: Pool)
    requires SpecOk(s) && Expands(s, p)
    ensures SpecsOk([s]) && ExpandsAll([s], map[0 := p])
  {
  }

  // ----------------------------------------------------------------- entries

  /** Both entries pass the local checks at either end. */
  lemma EntryAccepted(u: int64, isSender: bool, e: Entry)
    requires u > 0
    requires e in ENTRIES
    ensures EntryOk(PlanFor(isSender, u), [Spec(if isSender then 1 else 2)], [0], isSender, if isSender then 0 else 1,
                    e)
  {
    var n := if isSender then 1 else 2;
    OneRegion(n);
    var offset := if isSender then 0 else e.dstOffset;
    assert e == FIRST || e == SECOND;
    forall c | 0 <= c < 1 ensures RepeatLive(Spec(n).regions, offset, 0, 1, c) {
    }
    assert LocalSpan(Spec(n), e, isSender);
    assert e.Group() == 0;
  }

  lemma Items()
    ensures ItemsOf(map[0 := ENTRIES], [0]) == [Item(0, 0, FIRST), Item(0, 1, SECOND)]
  {
    var ranks: seq<int32> := [0];
    assert ranks[..0] == [];
    assert Tag(0, ENTRIES) == [Item(0, 0, FIRST), Item(0, 1, SECOND)];
  }

  const ITEMS := [Item(0, 0, FIRST), Item(0, 1, SECOND)]

  lemma Fronts()
    ensures ITEMS[..1] == [Item(0, 0, FIRST)] && ITEMS[..1][..0] == []
  {
  }

  // ---------------------------------------------------------------- coverage

  lemma Groups(u: int64)
    requires u > 0
    ensures GroupsOk(PlanFor(false, u), Table(2)) && SegsOf(PlanFor(false, u), Table(2), 0) == [Segment(0, 0, 2)]
  {
    var pools, segs := Table(2), [Segment(0, 0, 2)];
    assert GroupSegments(GROUP, pools, 0) == Some([]);
    assert GroupSegments(GROUP, pools, 1) == Some(segs);
    assert segs[1..] == [];
    assert Total(segs) == 2;
    assert [GROUP][..0] == [];
    var none: seq<int32> := [];
    assert AllPools([GROUP][..0]) == none;
    assert AllPools([GROUP]) == none + [0];
  }

  /** A one-byte entry over two live bytes. */
  lemma RangeOf(segs: seq<Segment>, e: Entry)
    requires segs == [Segment(0, 0, 2)] && 0 <= e.dstOffset < 2 && e.size == 1
    ensures RangeAt(segs, e, 0) == Some(Interval(e.dstOffset, e.dstOffset + 1))
    ensures EntryRanges(segs, e, 1) == [Interval(e.dstOffset, e.dstOffset + 1)]
  {
    assert 0 * e.dstStride == 0;
    var none: seq<Interval> := [];
    assert EntryRanges(segs, e, 0) == none;
    assert EntryRanges(segs, e, 1) == none + [Interval(e.dstOffset, e.dstOffset + 1)];
  }

  lemma OneByteItem(plan: StartTransferRequest, pools: map<int, Pool>, e: Entry)
    requires 0 < |plan.poolGroups| && SegsOf(plan, pools, 0) == [Segment(0, 0, 2)]
    requires plan.poolGroups[0].dstBlockIds == [0] && plan.poolGroups[0].extents == [2]
    requires e.Group() == 0 && e.dstBlock == 0 && 0 <= e.dstOffset < 2 && e.size == 1 && e.count == 1
    ensures ItemOk(plan, pools, e) && Targets(plan, e, 0, 0)
  {
    var segs, ids := SegsOf(plan, pools, 0), plan.poolGroups[0].dstBlockIds;
    RangeOf(segs, e);
    assert Ordinal(ids, 0) == 0;
    assert RepeatOk(segs, e, 2, 0);
  }

  lemma ItemAccepted(u: int64, e: Entry)
    requires u > 0
    requires e in ENTRIES
    ensures ItemOk(PlanFor(false, u), Table(2), e) && Targets(PlanFor(false, u), e, 0, 0)
  {
    Groups(u);
    assert e == FIRST || e == SECOND;
    OneByteItem(PlanFor(false, u), Table(2), e);
  }

  lemma ItemsAccepted(u: int64)
    requires u > 0
    ensures ItemsOk(PlanFor(false, u), Table(2), ITEMS)
  {
    Fronts();
    ItemAccepted(u, FIRST);
    ItemAccepted(u, SECOND);
    var plan, pools := PlanFor(false, u), Table(2);
    assert AllOk(plan, pools, ITEMS[..1][..0]);
    assert AllOk(plan, pools, ITEMS[..1]);
    assert Repeats(ITEMS[..1][..0]) == 0;
    assert Repeats(ITEMS[..1]) == 1;
  }

  lemma OnePush()
    ensures PushCount(ITEMS, 0, [0], 1) == 1
  {
    Fronts();
    var ranks: seq<int32> := [0];
    assert ranks[..0] == [];
    assert PairsOf(ITEMS[..1][..0], 0, 0) == {};
    assert PairsOf(ITEMS[..1], 0, 0) == {("peer", 0, 0)};
    assert PairsOf(ITEMS, 0, 0) == {("peer", 0, 0)};
    assert PushCount(ITEMS, 0, ranks[..0], 1) == 0;
  }

  /** The intervals of two one-byte entries, in order. */
  lemma CollectedTwo(plan: StartTransferRequest, pools: map<int, Pool>, items: seq<Item>)
    requires |items| == 2 && 0 < |plan.poolGroups| && SegsOf(plan, pools, 0) == [Segment(0, 0, 2)]
    requires forall i | 0 <= i < 2 ::
               var e := items[i].entry; Targets(plan, e, 0, 0) && 0 <= e.dstOffset < 2 && e.size == 1 && e.count == 1
    ensures var a, b := items[0].entry.dstOffset, items[1].entry.dstOffset;
            Collected(plan, pools, items, 0, 0) == [Interval(a, a + 1), Interval(b, b + 1)]
  {
    var segs, first, second := SegsOf(plan, pools, 0), items[0].entry, items[1].entry;
    RangeOf(segs, first);
    RangeOf(segs, second);
    var front := items[..1];
    assert front[..0] == [] && front[0] == items[0];
    var none: seq<Interval> := [];
    assert Collected(plan, pools, front[..0], 0, 0) == none;
    assert Collected(plan, pools, front, 0, 0) == none + EntryRanges(segs, first, 1);
    assert Collected(plan, pools, items, 0, 0) == Collected(plan, pools, front, 0, 0) + EntryRanges(segs, second, 1);
  }

  lemma Tiled()
    ensures Tiles([Interval(0, 1), Interval(1, 2)], 2)
  {
    var s := [Interval(0, 1), Interval(1, 2)];
    assert s[1..] == [Interval(1, 2)] && s[1..][1..] == [];
    forall b | 0 <= b < 2 ensures Cover(s, b) == 1 {
      assert Cover(s[1..], b) == if b == 1 then 1 else 0;
    }
  }

  lemma OneGroupCovered(plan: StartTransferRequest, pools: map<int, Pool>, ranks: seq<int32>, items: seq<Item>)
    requires IterationOrder(plan.schedules, ranks) && ItemsOf(plan.schedules, ranks) == items
    requires GroupsOk(plan, pools) && ItemsOk(plan, pools, items) && |plan.poolGroups| == 1
             && |plan.poolGroups[0].extents| == 1
    requires PushCount(items, 0, ranks, plan.parallelism) == plan.poolGroups[0].expectedPushes
    requires Tiles(Collected(plan, pools, items, 0, 0), plan.poolGroups[0].extents[0])
    ensures CoverageOk(plan, pools, ranks)
  {
  }

  lemma HalvesTiled(u: int64)
    requires u > 0
    ensures Tiles(Collected(PlanFor(false, u), Table(2), ITEMS, 0, 0), 2)
  {
    Groups(u);
    ItemAccepted(u, FIRST);
    ItemAccepted(u, SECOND);
    CollectedTwo(PlanFor(false, u), Table(2), ITEMS);
    Tiled();
  }

  lemma Covered(u: int64)
    requires u > 0
    ensures IterationOrder(PlanFor(false, u).schedules, [0]) && CoverageOk(PlanFor(false, u), Table(2), [0])
  {
    Items();
    Groups(u);
    ItemsAccepted(u);
    OnePush();
    HalvesTiled(u);
    OneGroupCovered(PlanFor(false, u), Table(2), [0], ITEMS);
  }

  // ------------------------------------------------------------- both ends

  lemma HeadersOk(u: int64, isSender: bool)
    requires u > 0
    ensures var plan, specs := PlanFor(isSender, u), [Spec(if isSender then 1 else 2)];
            HeaderOk(plan, specs, [0]) && PoolsDeclared(plan, specs, [0])
  {
  }

  /** The sender accepts its plan. */
  lemma SenderSide(u: int64)
    requires u > 0
    ensures SenderAccepts(Replay(u), Replay(u).senders[0], Ends(u)[0])
  {
    PoolExpands(1);
    HeadersOk(u, true);
    Items();
    EntryAccepted(u, true, FIRST);
    EntryAccepted(u, true, SECOND);
    assert EntriesOk(PlanFor(true, u), [Spec(1)], [0], true, 0, ITEMS);
  }

  lemma ReceiverIds(u: int64)
    requires u > 0
    ensures ReceiverIdsOk(PlanFor(false, u), [0]) && ZeroStarts(ITEMS) == {0}
  {
    var none: seq<int64> := [];
    assert [GROUP][..0] == [];
    assert TransferProgram.ChipBlocks([GROUP][..0]) == none;
    assert TransferProgram.ChipBlocks([GROUP]) == none + [0];
    Fronts();
    assert ZeroStarts(ITEMS[..1][..0]) == {};
    assert ZeroStarts(ITEMS[..1]) == {0};
  }

  lemma ReceiverEntries(u: int64)
    requires u > 0
    ensures EntriesOk(PlanFor(false, u), [Spec(2)], [0], false, 1, ITEMS)
  {
    EntryAccepted(u, false, FIRST);
    EntryAccepted(u, false, SECOND);
  }

  lemma ReceiverCommon(u: int64)
    requires u > 0
    ensures IterationOrder(PlanFor(false, u).schedules, [0])
            && ChecksPass(PlanFor(false, u), [Spec(2)], [0], false, 1, [0])
  {
    HeadersOk(u, false);
    Items();
    ReceiverEntries(u);
  }

  lemma ReceiverOnly(u: int64)
    requires u > 0
    ensures IterationOrder(PlanFor(false, u).schedules, [0])
            && ReceiverChecksPass(PlanFor(false, u), Table(2), [0], [0])
  {
    Items();
    ReceiverIds(u);
    Covered(u);
  }

  /** The receiver accepts its plan. */
  lemma ReceiverSide(u: int64)
    requires u > 0
    ensures ReceiverAccepts(Replay(u), [Spec(2)], [0], 1)
  {
    PoolExpands(2);
    ReceiverCommon(u);
    ReceiverOnly(u);
  }

  lemma OnlyPool(u: int64, p: int)
    requires u > 0
    ensures HasPool(GROUP, p) <==> p == 0
    ensures InPlan(PlanFor(false, u), p) <==> p == 0
  {
    assert GROUP.poolIndices[0] == 0;
    if p == 0 {
      assert HasPool(PlanFor(false, u).poolGroups[0], p);
    }
  }

  lemma MirrorBacked()
    ensures Backed(Table(2)[0], EMPTY)
  {
    forall b, x | LiveAt(Table(2)[0], b, x) ensures 0 <= Addr(Table(2)[0], b, x) < |EMPTY| {
      OneSegment(2, x);
    }
  }

  lemma SchedulesAgree()
    ensures ForPeer(ENTRIES, "peer") == ENTRIES
  {
    var none: seq<Entry> := [];
    assert ENTRIES[..1] == [FIRST] && ENTRIES[..1][..0] == [];
    assert ForPeer(ENTRIES[..1][..0], "peer") == none;
    assert ForPeer(ENTRIES[..1], "peer") == none + [FIRST];
    assert ForPeer(ENTRIES, "peer") == [FIRST] + [SECOND];
  }

  lemma ReplayPlaced(u: int64)
    requires u > 0
    ensures Placed(Replay(u), EMPTY)
  {
    SchedulesAgree();
    forall p | InPlan(Replay(u).plan, p) && p in Replay(u).pools ensures Backed(Replay(u).pools[p], EMPTY) && p == 0 {
      OnlyPool(u, p);
      MirrorBacked();
    }
  }

  /** Both ends accept their plans, and the plans fit together. */
  lemma ReplayAccepted(u: int64)
    requires u > 0
    ensures ReceiverAccepts(Replay(u), [Spec(2)], [0], 1) && SendersAccept(Replay(u), Ends(u))
            && Placed(Replay(u), EMPTY)
  {
    ReceiverSide(u);
    SenderSide(u);
    ReplayPlaced(u);
  }

  // ------------------------------------------------------------- the lost byte

  lemma PairSteps(u: int64)
    requires u > 0
    ensures PushSteps(Replay(u), PAIR) == [Step(FIRST, 0), Step(SECOND, 0)]
  {
    OnlyPool(u, 0);
    var selects := e => ReceiverSelects(PlanFor(false, u).poolGroups, 0, 0, "", 0, 0, e);
    assert selects(FIRST) && selects(SECOND);
    var none: seq<Step> := [];
    assert ENTRIES[..1] == [FIRST] && ENTRIES[..1][..0] == [];
    assert StepsOf(FIRST, 0) == none && StepsOf(SECOND, 0) == none;
    assert StepsOf(FIRST, 1) == none + [Step(FIRST, 0)] && StepsOf(SECOND, 1) == none + [Step(SECOND, 0)];
    assert Steps(ENTRIES[..1][..0], selects) == none;
    assert Steps(ENTRIES[..1], selects) == none + [Step(FIRST, 0)];
    assert Steps(ENTRIES, selects) == [Step(FIRST, 0)] + [Step(SECOND, 0)];
  }

  lemma TwoBytes(start: int, d: Entry, e: Entry)
    requires d.size == 1 && e.size == 1
    ensures Bytes(DstChunks(start, [Step(d, 0), Step(e, 0)])) == 2
  {
    var a, b := DstChunk(start, Step(d, 0)), DstChunk(start, Step(e, 0));
    assert DstChunks(start, [Step(d, 0), Step(e, 0)]) == [a, b];
    assert [a, b][1..] == [b] && [b][1..] == [];
    assert Bytes([b]) == 1;
  }

  lemma PairPossible(u: int64)
    requires u > 0
    ensures Possible(Replay(u), PAIR) && ByteCap(Replay(u), PAIR) == 1
  {
  }

  lemma PairBytes(u: int64)
    requires u > 0
    ensures Possible(Replay(u), PAIR) && !Fits(Replay(u), PAIR)
  {
    PairPossible(u);
    PairSteps(u);
    TwoBytes(DstStart(Replay(u), PAIR), FIRST, SECOND);
  }

  lemma PairScheduled(u: int64)
    requires u > 0
    ensures Scheduled(Replay(u), PAIR)
  {
    OnlyPool(u, 0);
    assert Owes(Replay(u), PAIR, Replay(u).plan.schedules[0][0]);
  }

  /** The pair is over the sender's block size, so in every complete order some scheduled byte does not arrive. */
  lemma ReplayLost(u: int64, order: seq<Push>) returns (m: Memory, w: Target)
    requires u > 0
    requires Complete(Replay(u), order)
    ensures forall k | 0 <= k < |order| :: Possible(Replay(u), order[k])
    ensures |m| == 2 && WritesByte(Replay(u), w) && !Delivered(Replay(u), m, order, w)
  {
    ReplayAccepted(u);
    PairScheduled(u);
    PairBytes(u);
    m, w := OverCapLoses(Replay(u), EMPTY, [Spec(2)], [0], 1, Ends(u), order, PAIR);
  }

  /** There is such an order: the one pair, pushed once. */
  lemma ReplayOrder(u: int64)
    requires u > 0
    ensures Complete(Replay(u), [PAIR])
  {
    PairScheduled(u);
    forall x | Scheduled(Replay(u), x) ensures x == PAIR {
      var i :| 0 <= i < |Replay(u).plan.schedules[x.rank]| && Owes(Replay(u), x, Replay(u).plan.schedules[x.rank][i]);
      OnlyPool(u, x.pool);
    }
  }
}
