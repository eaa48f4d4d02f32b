/**
  A request the sender accepts whose send never drains: three one-byte entries,
  two peers, and a first group without an entry for the second peer
  (tpu_sync/core/kv_cache_manager_with_transfer.cc).
 */
module SendExample {
  import opened TransferTypes
  import opened PoolLayout
  import opened ReceiverCoverage
  import opened PoolSpecs
  import opened PlanChecks
  import DeliveryExample
  import Send = PoolReshardSend

  const BYTE := Entry("a", 0, 0, 0, 1, 0, 0, 0, 0, 1, None, None)
  const GROUPS := [PoolGroup([0], [0], 1, [1], 0), PoolGroup([1], [0], 2, [1], 0)]

  function Request(u: int64): StartTransferRequest {
    StartTransferRequest([], [], map[0 := Send.Uneven(BYTE)], u, true, Hbm, true, 1, "r", ["bf16", "bf16"], [0, 1], 2,
                         None, GROUPS, map[], map[])
  }

  /** Two pools, each of one block of one live byte. */
  function Specs(): seq<PoolSpec> {
    [DeliveryExample.Spec(1), DeliveryExample.Spec(1)]
  }

  lemma EntryAccepted(u: int64, e: Entry)
    requires e in Send.Uneven(BYTE)
    ensures EntryOk(Request(u), Specs(), [0], true, 0, e)
  {
    ByteLive();
    assert e.srcOffset == 0 && e.srcStride == 0 && e.size == 1 && e.count == 1 && e.dstPeer != "";
    assert e.Group() == 0 || e.Group() == 1;
    ByteAccepted(Request(u), Specs(), e);
  }

  lemma ByteLive()
    ensures SpanLive(DeliveryExample.Spec(1), 0, 0, 1, 1)
  {
    DeliveryExample.OneRegion(1);
  }

  lemma ByteAccepted(plan: StartTransferRequest, specs: seq<PoolSpec>, e: Entry)
    requires e.dstPeer != "" && e.srcBlock == 0 && e.dstBlock == 0 && e.dstShard == 0 && Screened(e)
    requires e.srcOffset == 0 && e.srcStride == 0 && e.size == 1 && e.count == 1 && 0 <= e.Group() < |plan.poolGroups|
    requires forall k | 0 <= k < |plan.poolGroups[e.Group()].poolIndices| ::
               0 <= plan.poolGroups[e.Group()].poolIndices[k] < |specs|
    requires forall i | 0 <= i < |specs| :: SpanLive(specs[i], 0, 0, 1, 1)
    ensures EntryOk(plan, specs, [0], true, 0, e)
  {
  }

  lemma Items(u: int64)
    ensures IterationOrder(Request(u).schedules, [0])
    ensures var items := ItemsOf(Request(u).schedules, [0]);
            items != [] && forall i | 0 <= i < |items| :: items[i].entry in Send.Uneven(BYTE)
  {
    var ranks: seq<int32> := [0];
    assert ranks[..0] == [];
    var tagged := Tag(0, Send.Uneven(BYTE));
    assert |tagged| == 3;
  }

  lemma SpecsRegistered()
    ensures SpecsOk(Specs())
  {
    DeliveryExample.OneRegion(1);
  }

  lemma HeaderAccepted(u: int64)
    requires u > 0
    ensures HeaderOk(Request(u), Specs(), [0]) && PoolsDeclared(Request(u), Specs(), [0])
  {
  }

  lemma EntriesAccepted(u: int64, items: seq<Item>)
    requires forall i | 0 <= i < |items| :: items[i].entry in Send.Uneven(BYTE)
    ensures EntriesOk(Request(u), Specs(), [0], true, 0, items)
  {
    forall i | 0 <= i < |items| ensures EntryOk(Request(u), Specs(), [0], true, 0, items[i].entry) {
      EntryAccepted(u, items[i].entry);
    }
  }

  /** A sender's checks, put together. */
  lemma Assembled(plan: StartTransferRequest, specs: seq<PoolSpec>, pools: map<int, Pool>, ids: seq<int64>,
                  ranks: seq<int32>)
    requires IterationOrder(plan.schedules, ranks) && forall k | 0 <= k < |ranks| :: ranks[k] >= 0
    requires HeaderOk(plan, specs, ids) && PoolsDeclared(plan, specs, ids)
    requires ItemsOf(plan.schedules, ranks) != []
    requires EntriesOk(plan, specs, ids, true, 0, ItemsOf(plan.schedules, ranks))
    ensures PlanAccepted(plan, specs, pools, ids, true, 0, ranks)
  {
  }

  lemma RequestAccepted(u: int64, pools: map<int, Pool>)
    requires u > 0
    ensures IterationOrder(Request(u).schedules, [0]) && PlanAccepted(Request(u), Specs(), pools, [0], true, 0, [0])
  {
    HeaderAccepted(u);
    Items(u);
    EntriesAccepted(u, ItemsOf(Request(u).schedules, [0]));
    Assembled(Request(u), Specs(), pools, [0], [0]);
  }

  /** The sender accepts the request, and the send it starts is stuck once every push has succeeded. */
  lemma RequestSticks(u: int64, pools: map<int, Pool>)
    requires u > 0
    ensures SpecsOk(Specs()) && IterationOrder(Request(u).schedules, [0])
    ensures PlanAccepted(Request(u), Specs(), pools, [0], true, 0, [0])
    ensures var entries := Request(u).schedules[0];
            var start := Send.Begin(Request(u).reqId, Send.PeersOf(entries),
                                    [Send.GroupPeers(entries, 0), Send.GroupPeers(entries, 1)]);
            && Send.Runs(start, Send.ISSUED + Send.PUSHED)
            && Send.Stuck(Send.Run(start, Send.ISSUED + Send.PUSHED))
            && Send.Run(start, Send.ISSUED + Send.PUSHED).core.entry.value.remaining == 1
  {
    SpecsRegistered();
    RequestAccepted(u, pools);
    Send.StuckExample(BYTE);
  }
}
