/**
  The transfer request as it crosses the wire (tpu_sync/rpc/raiden_service.proto):
  schedules of strided copy entries per source rank, and the pool groups that
  scope them.  Fields keep the widths of the protocol.
 */
module TransferTypes {

  datatype Option<+T> = None | Some(value: T)

  type int32 = x: int | -0x8000_0000 <= x <= 0x7FFF_FFFF
  type int64 = x: int | -0x8000_0000_0000_0000 <= x <= 0x7FFF_FFFF_FFFF_FFFF
  type uint64 = x: int | 0 <= x <= 0xFFFF_FFFF_FFFF_FFFF

  datatype MemoryType = MemUnspecified | Dram | Hbm

  datatype RaidenId = RaidenId(jobName: string, jobReplicaId: string, dataName: string, dataReplicaIdx: int32)

  /** One strided copy: `count` pieces of `size` bytes from a source block to a destination block. */
  datatype Entry = Entry(
    dstPeer: string, dstShard: int32,
    dstOffset: int64, srcOffset: int64, size: int64,
    srcBlock: int32, dstBlock: int32,
    srcStride: int64, dstStride: int64, count: int32,
    layerIdx: Option<int32>, poolGroup: Option<int32>)
  {
    /** `pool_group()`: an unset optional reads as zero. */
    function Group(): int32 {
      if poolGroup.Some? then poolGroup.value else 0
    }
  }

  datatype PoolGroup = PoolGroup(
    poolIndices: seq<int32>, dstBlockIds: seq<int64>, expectedPushes: int32,
    extents: seq<int64>, orderRank: int32)

  datatype StartTransferRequest = StartTransferRequest(
    srcUnits: seq<RaidenId>, dstUnits: seq<RaidenId>,
    schedules: map<int32, seq<Entry>>,
    uuid: int64, isSender: bool, dstMemType: MemoryType, useBlockChunks: bool,
    expectedBlockCount: int64, reqId: string, poolDtypeTags: seq<string>,
    transferPools: seq<int32>, parallelism: int32, skipD2h: Option<bool>,
    poolGroups: seq<PoolGroup>, skipTiling: map<int32, bool>,
    expectedLayerChunkCounts: map<int32, int64>)
}
