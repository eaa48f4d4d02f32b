/**
  Registering a pool (`PoolSpec::Validate` in tpu_sync/kv_cache/pool_layout.cc): the checks on
  its geometry, and the saturating arithmetic that bounds the end of its live bytes.
 */
module PoolSpecs {
  import opened TransferTypes
  import opened PoolLayout
  import opened ReceiverCoverage

  /** A pool as a manager registers it; its blocks start `base` bytes into its storage. */
  datatype PoolSpec = PoolSpec(dtypeTag: string, base: int, stride: int, numBlocks: int, regions: seq<Region>)

  // ------------------------------------------------------ what is registered

  /** Where the region's bytes end inside a block. */
  function RegionEnd(r: Region): int {
    if r.numUnits == 0 then r.offset else r.offset + (r.numUnits - 1) * r.stride + r.Packed()
  }

  /** Where the live bytes of a block end. */
  function LiveEnd(regions: seq<Region>): int {
    if regions == [] then 0
    else
      var front, last := LiveEnd(regions[..|regions| - 1]), RegionEnd(regions[|regions| - 1]);
      if front >= last then front else last
  }

  /** Where the live bytes of the last block end in the storage. */
  function StorageEnd(s: PoolSpec): int {
    s.base + (s.numBlocks - 1) * s.stride + LiveEnd(s.regions)
  }

  /** A region that registration accepts; one without units is still bounded by its offset and packed bytes. */
  predicate RegionValid(r: Region, slot: int) {
    && r.offset >= 0 && r.stride >= 0 && r.unitBytes >= 0 && r.numUnits >= 0 && r.unitsPerStride > 0
    && (r.numUnits > 0 ==> r.unitBytes > 0 && r.stride >= r.Packed())
    && (r.numUnits > 1 ==> r.stride > 0)
    && r.offset + (if r.numUnits > 0 then r.numUnits - 1 else 0) * r.stride + r.Packed() <= slot
  }

  predicate RegionsValid(regions: seq<Region>, slot: int) {
    forall i | 0 <= i < |regions| :: RegionValid(regions[i], slot)
  }

  /** The fields are signed 64-bit values. */
  predicate RegionTyped(r: Region) {
    && InI64(r.offset) && InI64(r.stride) && InI64(r.unitBytes) && InI64(r.numUnits) && InI64(r.unitsPerStride)
  }

  predicate InI64(x: int) {
    -INT64_MAX - 1 <= x <= INT64_MAX
  }

  predicate SpecTyped(s: PoolSpec) {
    && InI64(s.base) && InI64(s.stride) && InI64(s.numBlocks)
    && forall i | 0 <= i < |s.regions| :: RegionTyped(s.regions[i])
  }

  /** The geometry is sound. */
  predicate Declared(s: PoolSpec) {
    s.stride > 0 && s.numBlocks > 0 && s.base >= 0 && s.regions != [] && RegionsValid(s.regions, s.stride)
  }

  /** A pool registered on storage of known size: its live bytes end inside the signed 64-bit range. */
  predicate SpecOk(s: PoolSpec) {
    SpecTyped(s) && Declared(s) && StorageEnd(s) < INT64_MAX
  }

  predicate SpecsOk(specs: seq<PoolSpec>) {
    forall i | 0 <= i < |specs| :: SpecOk(specs[i])
  }

  // ---------------------------------------------------------- the arithmetic

  const MAX: i64 := 0x7FFF_FFFF_FFFF_FFFF

  function Saturated(x: int): int {
    if x <= INT64_MAX then x else INT64_MAX
  }

  /** The division test is the exact one, for operands that are not negative. */
  predicate MulWillOverflow(lhs: i64, rhs: i64): (r: bool)
    requires 0 <= lhs && 0 <= rhs
    ensures r <==> lhs as int * rhs as int > INT64_MAX
  {
    if lhs == 0 || rhs == 0 then false
    else
      MulDivision(lhs as int, rhs as int);
      lhs > MAX / rhs
  }

  lemma MulDivision(a: int, b: int)
    requires a > 0 && b > 0
    ensures a > INT64_MAX / b <==> a * b > INT64_MAX
  {
    var q := INT64_MAX / b;
    DivBounds(INT64_MAX, b);
    if a > q {
      MulMono(q + 1, a, b);
    } else {
      MulMono(a, q, b);
    }
  }

  /** A product and a sum that are computed only when they fit. */
  method CheckedMul(lhs: i64, rhs: i64) returns (r: Option<i64>)
    ensures r.Some? <==> 0 <= lhs && 0 <= rhs && lhs as int * rhs as int <= INT64_MAX
    ensures r.Some? ==> r.value as int == lhs as int * rhs as int
  {
    if lhs < 0 || rhs < 0 || MulWillOverflow(lhs, rhs) {
      return None;
    }
    MulMono(0, lhs as int, rhs as int);
    r := Some(lhs * rhs);
  }

  method CheckedAdd(lhs: i64, rhs: i64) returns (r: Option<i64>)
    ensures r.Some? <==> 0 <= lhs && 0 <= rhs && lhs as int + rhs as int <= INT64_MAX
    ensures r.Some? ==> r.value as int == lhs as int + rhs as int
  {
    if lhs < 0 || rhs < 0 || lhs > MAX - rhs {
      return None;
    }
    r := Some(lhs + rhs);
  }

  lemma RegionParts(r: Region)
    requires r.offset >= 0 && r.stride >= 0 && r.unitBytes >= 0 && r.numUnits >= 0 && r.unitsPerStride >= 0
    ensures r.Packed() >= 0 && r.numUnits * r.stride >= 0 && (r.numUnits > 0 ==> (r.numUnits - 1) * r.stride >= 0)
    ensures RegionEnd(r) >= 0
  {
    MulMono(0, r.unitBytes, r.unitsPerStride);
    MulMono(0, r.numUnits, r.stride);
    if r.numUnits > 0 {
      MulMono(0, r.numUnits - 1, r.stride);
    }
  }

  /** The region's checks, each product and sum guarded before it is computed. */
  method ValidateRegion(r: Region, slot: i64) returns (ok: bool)
    requires RegionTyped(r)
    ensures ok <==> slot > 0 && RegionValid(r, slot as int)
  {
    if slot <= 0 || r.offset < 0 || r.stride < 0 || r.unitBytes < 0 || r.numUnits < 0 || r.unitsPerStride <= 0 {
      return false;
    }
    if (r.numUnits > 0 && r.unitBytes <= 0) || (r.numUnits > 1 && r.stride <= 0) {
      return false;
    }
    RegionParts(r);
    var packed := CheckedMul(r.unitsPerStride as i64, r.unitBytes as i64);
    assert r.unitsPerStride * r.unitBytes == r.Packed();
    if packed.None? || (r.numUnits > 0 && r.stride < packed.value as int) {
      return false;
    }
    var extent := CheckedMul(if r.numUnits > 0 then (r.numUnits - 1) as i64 else 0, r.stride as i64);
    if extent.None? {
      return false;
    }
    var start := CheckedAdd(r.offset as i64, extent.value);
    if start.None? {
      return false;
    }
    var end := CheckedAdd(start.value, packed.value);
    ok := end.Some? && end.value <= slot;
  }

  /** The end of a region's bytes, saturating. */
  method ExtentEndBytes(r: Region) returns (end: i64)
    requires RegionTyped(r) && r.offset >= 0 && r.stride >= 0
    requires r.unitBytes >= 0 && r.numUnits >= 0 && r.unitsPerStride >= 0
    ensures end as int == Saturated(RegionEnd(r))
  {
    RegionParts(r);
    if r.numUnits == 0 {
      return r.offset as i64;
    }
    var strided := CheckedMul((r.numUnits - 1) as i64, r.stride as i64);
    var packed := CheckedMul(r.unitsPerStride as i64, r.unitBytes as i64);
    assert r.unitsPerStride * r.unitBytes == r.Packed();
    if strided.None? || packed.None? {
      return MAX;
    }
    if r.offset as i64 > MAX - strided.value {
      return MAX;
    }
    var start := r.offset as i64 + strided.value;
    if start > MAX - packed.value {
      return MAX;
    }
    end := start + packed.value;
  }

  /** The end of the live bytes in the storage, saturating. */
  method StorageExtentEndBytes(s: PoolSpec) returns (end: i64)
    requires SpecTyped(s) && Declared(s)
    ensures end as int == Saturated(StorageEnd(s))
  {
    MulMono(0, s.numBlocks - 1, s.stride);
    LiveEndPositive(s.regions, s.stride, |s.regions|);
    assert s.regions[..|s.regions|] == s.regions;
    var blockOffset := CheckedMul((s.numBlocks - 1) as i64, s.stride as i64);
    if blockOffset.None? {
      return MAX;
    }
    var live: i64 := 0;
    for i := 0 to |s.regions|
      invariant live as int == Saturated(LiveEnd(s.regions[..i]))
    {
      assert RegionValid(s.regions[i], s.stride);
      assert RegionTyped(s.regions[i]);
      assert s.regions[..i + 1][..i] == s.regions[..i];
      var regionEnd := ExtentEndBytes(s.regions[i]);
      live := if live >= regionEnd then live else regionEnd;
    }
    if s.base as i64 > MAX - blockOffset.value {
      return MAX;
    }
    var lastBlock := s.base as i64 + blockOffset.value;
    if live < 0 || lastBlock > MAX - live {
      return MAX;
    }
    end := lastBlock + live;
  }

  lemma {:induction false} LiveEndPositive(regions: seq<Region>, slot: int, n: nat)
    requires n <= |regions| && RegionsValid(regions, slot)
    ensures LiveEnd(regions[..n]) >= 0
  {
    if n > 0 {
      assert regions[..n][..n - 1] == regions[..n - 1];
      LiveEndPositive(regions, slot, n - 1);
    }
  }

  /**
    Registration: accepts iff the geometry is sound and, when the size of the storage is known,
    the live bytes end inside it and inside the signed 64-bit range.  A size of -1 is unknown.
   */
  method ValidatePool(s: PoolSpec, storageBytes: i64) returns (ok: bool)
    requires SpecTyped(s)
    ensures ok <==> && Declared(s)
                    && (storageBytes >= 0 ==> StorageEnd(s) < INT64_MAX && StorageEnd(s) <= storageBytes as int)
    ensures ok ==> s.stride > 0 && s.numBlocks > 0 && s.base >= 0 && s.regions != []
    ensures ok && storageBytes >= 0 ==> SpecOk(s)
  {
    if s.stride <= 0 || s.numBlocks <= 0 || s.base < 0 || s.regions == [] {
      return false;
    }
    for i := 0 to |s.regions|
      invariant forall k | 0 <= k < i :: RegionValid(s.regions[k], s.stride)
    {
      assert RegionTyped(s.regions[i]);
      var valid := ValidateRegion(s.regions[i], s.stride as i64);
      if !valid {
        return false;
      }
    }
    if storageBytes < 0 {
      return true;
    }
    var end := StorageExtentEndBytes(s);
    ok := end != MAX && end <= storageBytes;
  }

  // ------------------------------------------------------------ consequences

  lemma ValidFits(r: Region, slot: int)
    requires RegionValid(r, slot) && slot <= INT64_MAX
    ensures RegionFits(r, slot)
  {
    RegionParts(r);
    if r.numUnits > 0 {
      MulMono(1, r.unitsPerStride, r.unitBytes);
    }
  }

  lemma {:induction false} RegionBelowEnd(regions: seq<Region>, i: nat)
    requires i < |regions|
    ensures RegionEnd(regions[i]) <= LiveEnd(regions)
  {
    if i < |regions| - 1 {
      RegionBelowEnd(regions[..|regions| - 1], i);
    }
  }

  /** Every live byte lies below the live end. */
  lemma LiveBelowEnd(regions: seq<Region>, slot: int, q: int)
    requires RegionsValid(regions, slot) && Live(regions, q)
    ensures q < LiveEnd(regions)
  {
    var i :| 0 <= i < |regions| && RegionLive(regions[i], q);
    var r := regions[i];
    assert RegionValid(r, slot);
    var u :| 0 <= u < r.numUnits && InUnit(r, u, q);
    MulMono(u, r.numUnits - 1, r.stride);
    RegionBelowEnd(regions, i);
  }
}
