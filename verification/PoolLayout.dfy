/**
  The live-byte layout of one pool block (tpu_sync/kv_cache/pool_layout.cc).

  A pool declares strided regions of live bytes.  They expand into separated
  physical runs; concatenating the runs gives the compact-live ("logical")
  coordinates in which destination coverage is checked.
 */
module PoolLayout {
  import opened Intervals
  import opened TransferTypes

  const INT64_MAX: int := 0x7FFF_FFFF_FFFF_FFFF
  const MAX_LIVE_SEGMENTS: int := 0x10_0000

  datatype Region = Region(offset: int, stride: int, unitBytes: int, numUnits: int, unitsPerStride: int) {
    function Packed(): int { unitBytes * unitsPerStride }
  }

  datatype Segment = Segment(logical: int, physical: int, size: int)

  /** Byte `p` lies in unit `u` of the region. */
  predicate InUnit(r: Region, u: int, p: int) {
    r.offset + u * r.stride <= p < r.offset + u * r.stride + r.Packed()
  }

  ghost predicate RegionLive(r: Region, p: int) {
    exists u :: 0 <= u < r.numUnits && InUnit(r, u, p)
  }

  ghost predicate Live(regions: seq<Region>, p: int) {
    exists i :: 0 <= i < |regions| && RegionLive(regions[i], p)
  }

  // ------------------------------------------------------- region expansion

  /** The geometry checks one region passes before it is expanded. */
  predicate RegionGeometryOk(r: Region) {
    && r.offset >= 0 && r.stride >= 0 && r.unitBytes >= 0 && r.numUnits >= 0
    && r.unitsPerStride > 0
    && r.Packed() <= INT64_MAX
    && (r.numUnits > 0 ==> r.Packed() > 0)
    && (r.numUnits > 1 ==> r.stride > 0)
    && (r.numUnits > 0 ==> r.stride >= r.Packed())
  }

  /** The first `n` units, one interval each. */
  function Units(r: Region, n: nat): seq<Interval> {
    if n == 0 then []
    else Units(r, n - 1) + [Interval(r.offset + (n - 1) * r.stride, r.offset + (n - 1) * r.stride + r.Packed())]
  }

  lemma {:induction false} UnitsShape(r: Region, n: nat)
    ensures |Units(r, n)| == n
    ensures forall u | 0 <= u < n ::
              Units(r, n)[u] == Interval(r.offset + u * r.stride, r.offset + u * r.stride + r.Packed())
  {
    if n > 0 {
      UnitsShape(r, n - 1);
    }
  }

  /** `Live` restricted to what a list of intervals records. */
  ghost predicate Recorded(intervals: seq<Interval>, p: int) {
    exists i :: 0 <= i < |intervals| && Has(intervals[i], p)
  }

  lemma RecordedConcat(s: seq<Interval>, t: seq<Interval>, p: int)
    ensures Recorded(s + t, p) <==> Recorded(s, p) || Recorded(t, p)
  {
    if Recorded(s, p) {
      var i :| 0 <= i < |s| && Has(s[i], p);
      assert Has((s + t)[i], p);
    }
    if Recorded(t, p) {
      var i :| 0 <= i < |t| && Has(t[i], p);
      assert Has((s + t)[|s| + i], p);
    }
  }

  lemma PackedUnits(r: Region, p: int)
    requires RegionGeometryOk(r) && r.numUnits > 0 && r.stride == r.Packed()
    ensures RegionLive(r, p) <==> r.offset <= p < r.offset + r.numUnits * r.Packed()
  {
    var k := r.Packed();
    if r.offset <= p < r.offset + r.numUnits * k {
      var u := (p - r.offset) / k;
      DivBounds(p - r.offset, k);
      assert u < r.numUnits by {
        if u >= r.numUnits {
          MulMono(r.numUnits, u, k);
        }
      }
      assert (u + 1) * k == u * k + k;
      assert InUnit(r, u, p);
    }
    if RegionLive(r, p) {
      var u :| 0 <= u < r.numUnits && InUnit(r, u, p);
      MulMono(u + 1, r.numUnits, k);
      assert (u + 1) * k == u * k + k;
    }
  }

  lemma DivBounds(x: int, k: int)
    requires x >= 0 && k > 0
    ensures x / k >= 0 && (x / k) * k <= x < (x / k + 1) * k
  {
  }

  lemma MulMono(a: int, b: int, k: int)
    requires a <= b && k >= 0
    ensures a * k <= b * k
  {
  }

  /** A region passes every check made while it is expanded inside a block of `blockStride` bytes. */
  predicate RegionFits(r: Region, blockStride: int) {
    && RegionGeometryOk(r)
    && (r.numUnits > 0 ==> r.offset + (r.numUnits - 1) * r.stride + r.Packed() <= blockStride)
  }

  /** Abutting units form one run; otherwise one interval per unit. */
  function RegionIntervals(r: Region): seq<Interval> {
    if r.numUnits > 0 && r.stride == r.Packed() then [Interval(r.offset, r.offset + r.numUnits * r.Packed())]
    else if r.numUnits > 0 then Units(r, r.numUnits)
    else []
  }

  lemma RegionIntervalsExact(r: Region, blockStride: int)
    requires RegionFits(r, blockStride)
    ensures Positive(RegionIntervals(r))
    ensures forall i | 0 <= i < |RegionIntervals(r)| ::
              0 <= RegionIntervals(r)[i].start && RegionIntervals(r)[i].end <= blockStride
    ensures forall p :: Recorded(RegionIntervals(r), p) <==> RegionLive(r, p)
  {
    var out, packed := RegionIntervals(r), r.Packed();
    if r.numUnits > 0 && r.stride == packed {
      MulMono(1, r.numUnits, packed);
      assert (r.numUnits - 1) * packed + packed == r.numUnits * packed;
      forall p ensures Recorded(out, p) <==> RegionLive(r, p) {
        PackedUnits(r, p);
        assert out[0] == Interval(r.offset, r.offset + r.numUnits * packed);
      }
    } else {
      UnitsShape(r, r.numUnits);
      forall u | 0 <= u < r.numUnits ensures 0 <= out[u].start && out[u].end <= blockStride {
        MulMono(0, u, r.stride);
        MulMono(u, r.numUnits - 1, r.stride);
      }
      forall p ensures Recorded(out, p) <==> RegionLive(r, p) {
        assert forall u | 0 <= u < r.numUnits :: Has(out[u], p) <==> InUnit(r, u, p);
      }
    }
  }

  /** One interval per unit; refused as soon as a unit leaves the block. */
  method ExpandUnits(r: Region, blockStride: int) returns (out: Option<seq<Interval>>)
    requires RegionGeometryOk(r) && blockStride <= INT64_MAX
    ensures out.Some? <==> RegionFits(r, blockStride)
    ensures out.Some? ==> out.value == Units(r, r.numUnits)
  {
    var packed := r.Packed();
    var units: seq<Interval> := [];
    for u := 0 to r.numUnits
      invariant units == Units(r, u)
      invariant u > 0 ==> r.offset + (u - 1) * r.stride + packed <= blockStride
    {
      MulMono(u, r.numUnits - 1, r.stride);
      if u * r.stride > INT64_MAX {
        return None;
      }
      var start := r.offset + u * r.stride;
      if start + packed > blockStride {
        return None;
      }
      units := units + [Interval(start, start + packed)];
    }
    return Some(units);
  }

  /** Expands one region after `already` intervals; `None` is a refusal. */
  method ExpandRegion(r: Region, blockStride: int, already: nat) returns (out: Option<seq<Interval>>)
    requires blockStride <= INT64_MAX
    ensures out.Some? <==> RegionFits(r, blockStride) && already + r.numUnits <= MAX_LIVE_SEGMENTS
    ensures out.Some? ==> out.value == RegionIntervals(r)
  {
    if r.offset < 0 || r.stride < 0 || r.unitBytes < 0 || r.numUnits < 0 {
      return None;
    }
    if r.unitsPerStride <= 0 || r.Packed() > INT64_MAX {
      return None;
    }
    var packed := r.Packed();
    if (r.numUnits > 0 && packed <= 0) || (r.numUnits > 1 && r.stride <= 0) || (r.numUnits > 0 && r.stride < packed) {
      return None;
    }
    if already + r.numUnits > MAX_LIVE_SEGMENTS {
      return None;
    }
    if r.numUnits > 0 && r.stride == packed {
      PackedExtent(r);
      if r.numUnits * packed > INT64_MAX {
        return None;
      }
      var end := r.offset + r.numUnits * packed;
      if end > blockStride {
        return None;
      }
      return Some([Interval(r.offset, end)]);
    }
    out := ExpandUnits(r, blockStride);
  }

  lemma PackedExtent(r: Region)
    requires r.stride == r.Packed()
    ensures r.offset + (r.numUnits - 1) * r.stride + r.Packed() == r.offset + r.numUnits * r.Packed()
  {
    var k := r.Packed();
    assert (r.numUnits - 1) * k + k == r.numUnits * k;
  }

  /** Runs in address order with a gap of at least one byte between neighbours. */
  predicate Separated(s: seq<Interval>) {
    && (forall i | 0 <= i < |s| :: s[i].start < s[i].end)
    && (forall i, j | 0 <= i < j < |s| :: s[i].end < s[j].start)
  }

  ghost predicate NoByteTwice(s: seq<Interval>) {
    forall b :: Cover(s, b) <= 1
  }

  lemma CoverAppend(s: seq<Interval>, v: Interval, b: int)
    ensures Cover(s + [v], b) == Cover(s, b) + if Has(v, b) then 1 else 0
  {
    CoverConcat(s, [v], b);
  }

  lemma {:induction false} CoverPrefix(s: seq<Interval>, n: nat, b: int)
    requires n <= |s|
    ensures Cover(s[..n], b) <= Cover(s, b)
  {
    assert s == s[..n] + s[n..];
    CoverConcat(s[..n], s[n..], b);
  }

  /** Abutting runs are merged; a byte claimed twice is refused. */
  method MergeRuns(sorted: seq<Interval>) returns (r: Option<seq<Interval>>)
    requires Sorted(sorted) && Positive(sorted)
    ensures r.Some? <==> NoByteTwice(sorted)
    ensures r.Some? ==> Separated(r.value) && forall b :: Cover(r.value, b) == Cover(sorted, b)
  {
    var runs: seq<Interval> := [];
    for i := 0 to |sorted|
      invariant Separated(runs)
      invariant forall b :: Cover(runs, b) == Cover(sorted[..i], b)
      invariant runs != [] ==> i < |sorted| ==> runs[|runs| - 1].start <= sorted[i].start
    {
      var v := sorted[i];
      assert sorted[..i + 1] == sorted[..i] + [v];
      forall b ensures Cover(sorted[..i + 1], b) == Cover(sorted[..i], b) + if Has(v, b) then 1 else 0 {
        CoverAppend(sorted[..i], v, b);
      }
      if runs == [] || runs[|runs| - 1].end < v.start {
        forall b ensures Cover(runs + [v], b) == Cover(runs, b) + if Has(v, b) then 1 else 0 {
          CoverAppend(runs, v, b);
        }
        runs := runs + [v];
      } else {
        var last, front := runs[|runs| - 1], runs[..|runs| - 1];
        assert runs == front + [last];
        if v.start < last.end {
          CoverAppend(front, last, v.start);
          CoverPrefix(sorted, i + 1, v.start);
          assert Cover(sorted, v.start) >= 2;
          return None;
        }
        var joined := Interval(last.start, v.end);
        forall b ensures Cover(front + [joined], b) == Cover(runs, b) + if Has(v, b) then 1 else 0 {
          CoverAppend(front, last, b);
          CoverAppend(front, joined, b);
        }
        runs := front + [joined];
      }
    }
    assert sorted[..|sorted|] == sorted;
    forall b ensures Cover(sorted, b) < 2 {
      SeparatedCover(runs, b);
    }
    r := Some(runs);
  }

  lemma {:induction false} SeparatedCover(s: seq<Interval>, b: int)
    requires Separated(s)
    ensures Cover(s, b) <= 1
    ensures Cover(s, b) == 1 <==> Recorded(s, b)
  {
    if s == [] {
      assert !Recorded(s, b);
    } else {
      SeparatedCover(s[1..], b);
      assert forall i | 1 <= i < |s| :: s[i] == s[1..][i - 1];
      if Recorded(s[1..], b) {
        var i :| 0 <= i < |s[1..]| && Has(s[1..][i], b);
        assert Has(s[i + 1], b);
      }
    }
  }

  /** Segments laid out from the given logical and lowest physical offsets. */
  predicate WellFormed(segs: seq<Segment>, logical: int, lowest: int) {
    segs == [] ||
    (&& segs[0].logical == logical && lowest <= segs[0].physical && segs[0].size > 0
     && WellFormed(segs[1..], logical + segs[0].size, segs[0].physical + segs[0].size + 1))
  }

  function Total(segs: seq<Segment>): int {
    if segs == [] then 0 else segs[0].size + Total(segs[1..])
  }

  function FromRuns(runs: seq<Interval>, logical: int): seq<Segment> {
    if runs == [] then []
    else [Segment(logical, runs[0].start, runs[0].end - runs[0].start)]
         + FromRuns(runs[1..], logical + runs[0].end - runs[0].start)
  }

  lemma {:induction false} FromRunsShape(runs: seq<Interval>, logical: int, lowest: int)
    requires Separated(runs) && (runs != [] ==> lowest <= runs[0].start)
    ensures |FromRuns(runs, logical)| == |runs|
    ensures WellFormed(FromRuns(runs, logical), logical, lowest)
    ensures forall p :: ToLogical(FromRuns(runs, logical), p).Some? <==> Recorded(runs, p)
  {
    if runs == [] {
      assert forall p :: !Recorded(runs, p);
    } else {
      var segs := FromRuns(runs, logical);
      FromRunsShape(runs[1..], logical + runs[0].end - runs[0].start, runs[0].end + 1);
      assert segs[1..] == FromRuns(runs[1..], logical + runs[0].end - runs[0].start);
      forall p ensures ToLogical(segs, p).Some? <==> Recorded(runs, p) {
        assert runs == [runs[0]] + runs[1..];
        RecordedConcat([runs[0]], runs[1..], p);
        assert Recorded([runs[0]], p) <==> Has([runs[0]][0], p);
      }
    }
  }

  lemma {:induction false} FromRunsAppend(runs: seq<Interval>, v: Interval, logical: int)
    ensures FromRuns(runs + [v], logical)
         == FromRuns(runs, logical) + [Segment(logical + Total(FromRuns(runs, logical)), v.start, v.end - v.start)]
  {
    if runs == [] {
      assert [v][1..] == [];
    } else {
      var next := logical + runs[0].end - runs[0].start;
      FromRunsAppend(runs[1..], v, next);
      assert (runs + [v])[1..] == runs[1..] + [v];
      assert FromRuns(runs, logical)[1..] == FromRuns(runs[1..], next);
    }
  }

  lemma {:induction false} TotalAppend(segs: seq<Segment>, s: Segment)
    ensures Total(segs + [s]) == Total(segs) + s.size
  {
    if segs == [] {
      assert [s][1..] == [];
    } else {
      TotalAppend(segs[1..], s);
      assert (segs + [s])[1..] == segs[1..] + [s];
    }
  }

  /** Every region's intervals, in declaration order. */
  function AllIntervals(regions: seq<Region>): seq<Interval> {
    if regions == [] then []
    else AllIntervals(regions[..|regions| - 1]) + RegionIntervals(regions[|regions| - 1])
  }

  /** Each region fits the block, and the expansion bound at its turn. */
  predicate RegionsFit(regions: seq<Region>, blockStride: int) {
    regions == [] ||
    var front, last := regions[..|regions| - 1], regions[|regions| - 1];
    && RegionsFit(front, blockStride)
    && RegionFits(last, blockStride)
    && |AllIntervals(front)| + last.numUnits <= MAX_LIVE_SEGMENTS
  }

  lemma {:induction false} RegionsFitPrefix(regions: seq<Region>, blockStride: int, i: nat)
    requires i <= |regions| && RegionsFit(regions, blockStride)
    ensures RegionsFit(regions[..i], blockStride)
  {
    if i == |regions| {
      assert regions[..i] == regions;
    } else {
      var front := regions[..|regions| - 1];
      RegionsFitPrefix(front, blockStride, i);
      assert front[..i] == regions[..i];
    }
  }

  lemma {:induction false} AllIntervalsExact(regions: seq<Region>, blockStride: int)
    requires RegionsFit(regions, blockStride)
    ensures Positive(AllIntervals(regions))
    ensures forall i | 0 <= i < |AllIntervals(regions)| ::
              0 <= AllIntervals(regions)[i].start && AllIntervals(regions)[i].end <= blockStride
    ensures forall p :: Recorded(AllIntervals(regions), p) <==> Live(regions, p)
  {
    if regions != [] {
      var n := |regions| - 1;
      AllIntervalsExact(regions[..n], blockStride);
      RegionIntervalsExact(regions[n], blockStride);
      forall p ensures Recorded(AllIntervals(regions), p) <==> Live(regions, p) {
        RecordedConcat(AllIntervals(regions[..n]), RegionIntervals(regions[n]), p);
        LiveStep(regions, n, p);
        assert regions[..n + 1] == regions;
      }
    }
  }

  method CollectIntervals(blockStride: int, regions: seq<Region>) returns (r: Option<seq<Interval>>)
    requires blockStride <= INT64_MAX
    ensures r.Some? <==> RegionsFit(regions, blockStride)
    ensures r.Some? ==> r.value == AllIntervals(regions)
  {
    var intervals: seq<Interval> := [];
    for i := 0 to |regions|
      invariant RegionsFit(regions[..i], blockStride) && intervals == AllIntervals(regions[..i])
    {
      var units := ExpandRegion(regions[i], blockStride, |intervals|);
      assert regions[..i + 1][..i] == regions[..i];
      if units.None? {
        if RegionsFit(regions, blockStride) {
          RegionsFitPrefix(regions, blockStride, i + 1);
        }
        return None;
      }
      intervals := intervals + units.value;
    }
    assert regions[..|regions|] == regions;
    r := Some(intervals);
  }

  method LayOut(runs: seq<Interval>) returns (segments: seq<Segment>)
    ensures segments == FromRuns(runs, 0)
  {
    segments := [];
    var logical := 0;
    for i := 0 to |runs|
      invariant segments == FromRuns(runs[..i], 0) && logical == Total(segments)
    {
      var run := runs[i];
      FromRunsAppend(runs[..i], run, 0);
      assert runs[..i + 1] == runs[..i] + [run];
      TotalAppend(segments, Segment(logical, run.start, run.end - run.start));
      segments := segments + [Segment(logical, run.start, run.end - run.start)];
      logical := logical + run.end - run.start;
    }
    assert runs[..|runs|] == runs;
  }

  /**
    A pool is accepted exactly when its regions fit and no byte is claimed
    twice; the segments are then well formed and hold exactly the live bytes,
    all of them below the block stride.
   */
  method ExpandPoolLiveSegments(blockStride: int, regions: seq<Region>) returns (r: Option<seq<Segment>>)
    requires blockStride <= INT64_MAX
    ensures r.Some? <==> && blockStride > 0 && RegionsFit(regions, blockStride)
                         && NoByteTwice(AllIntervals(regions))
    ensures r.Some? ==> WellFormed(r.value, 0, 0)
    ensures r.Some? ==> forall p :: ToLogical(r.value, p).Some? <==> Live(regions, p)
    ensures r.Some? ==> forall p :: Live(regions, p) ==> 0 <= p < blockStride
  {
    if blockStride <= 0 {
      return None;
    }
    var collected := CollectIntervals(blockStride, regions);
    if collected.None? {
      return None;
    }
    AllIntervalsExact(regions, blockStride);
    var sorted := SortIntervals(collected.value);
    SameElements(sorted, collected.value);
    forall b ensures Cover(sorted, b) == Cover(collected.value, b) {
      CoverPermutation(sorted, collected.value, b);
    }
    var runs := MergeRuns(sorted);
    if runs.None? {
      return None;
    }
    RunsLive(runs.value, collected.value, regions, blockStride);
    FromRunsShape(runs.value, 0, 0);
    var segments := LayOut(runs.value);
    r := Some(segments);
  }

  lemma RunsLive(runs: seq<Interval>, intervals: seq<Interval>, regions: seq<Region>, blockStride: int)
    requires Separated(runs) && forall b :: Cover(runs, b) == Cover(intervals, b)
    requires forall p :: Recorded(intervals, p) <==> Live(regions, p)
    requires forall i | 0 <= i < |intervals| :: 0 <= intervals[i].start && intervals[i].end <= blockStride
    ensures forall p :: Recorded(runs, p) <==> Live(regions, p)
    ensures runs != [] ==> 0 <= runs[0].start
    ensures forall p :: Live(regions, p) ==> 0 <= p < blockStride
  {
    forall p ensures Recorded(runs, p) <==> Live(regions, p) {
      SeparatedCover(runs, p);
      CoverZero(intervals, p);
    }
    if runs != [] {
      assert Has(runs[0], runs[0].start);
      assert Recorded(runs, runs[0].start);
    }
  }

  lemma LiveStep(regions: seq<Region>, i: nat, p: int)
    requires i < |regions|
    ensures Live(regions[..i + 1], p) <==> Live(regions[..i], p) || RegionLive(regions[i], p)
  {
    if Live(regions[..i], p) {
      var k :| 0 <= k < i && RegionLive(regions[..i][k], p);
      assert RegionLive(regions[..i + 1][k], p);
    }
    if RegionLive(regions[i], p) {
      assert RegionLive(regions[..i + 1][i], p);
    }
    if Live(regions[..i + 1], p) {
      var k :| 0 <= k < i + 1 && RegionLive(regions[..i + 1][k], p);
      assert k < i ==> RegionLive(regions[..i][k], p);
    }
  }

  // ------------------------------------------- physical / logical coordinates

  predicate InSegment(s: Segment, p: int) {
    s.physical <= p < s.physical + s.size
  }

  /** The compact-live coordinate of physical byte `p`, if it is live. */
  function ToLogical(segs: seq<Segment>, p: int): Option<int> {
    if segs == [] then None
    else if InSegment(segs[0], p) then Some(segs[0].logical + p - segs[0].physical)
    else ToLogical(segs[1..], p)
  }

  /** The physical byte at compact-live coordinate `l`, if there is one. */
  function ToPhysical(segs: seq<Segment>, l: int): Option<int> {
    if segs == [] then None
    else if segs[0].logical <= l < segs[0].logical + segs[0].size then Some(segs[0].physical + l - segs[0].logical)
    else ToPhysical(segs[1..], l)
  }

  lemma {:induction false} LogicalBounds(segs: seq<Segment>, logical: int, lowest: int, p: int)
    requires WellFormed(segs, logical, lowest)
    ensures Total(segs) >= 0
    ensures ToLogical(segs, p).Some? ==> logical <= ToLogical(segs, p).value < logical + Total(segs) && p >= lowest
  {
    if segs != [] {
      LogicalBounds(segs[1..], logical + segs[0].size, segs[0].physical + segs[0].size + 1, p);
    }
  }

  /** A live byte is found again from its logical coordinate. */
  lemma {:induction false} PhysicalOfLogical(segs: seq<Segment>, logical: int, lowest: int, p: int)
    requires WellFormed(segs, logical, lowest) && ToLogical(segs, p).Some?
    ensures ToPhysical(segs, ToLogical(segs, p).value) == Some(p)
  {
    if !InSegment(segs[0], p) {
      var rest, l', p' := segs[1..], logical + segs[0].size, segs[0].physical + segs[0].size + 1;
      LogicalBounds(rest, l', p', p);
      PhysicalOfLogical(rest, l', p', p);
    }
  }

  /** Every logical coordinate below the live size names one live byte. */
  lemma {:induction false} LogicalOfPhysical(segs: seq<Segment>, logical: int, lowest: int, l: int)
    requires WellFormed(segs, logical, lowest) && logical <= l < logical + Total(segs)
    ensures ToPhysical(segs, l).Some? && ToPhysical(segs, l).value >= lowest
    ensures ToLogical(segs, ToPhysical(segs, l).value) == Some(l)
  {
    if !(segs[0].logical <= l < segs[0].logical + segs[0].size) {
      LogicalOfPhysical(segs[1..], logical + segs[0].size, segs[0].physical + segs[0].size + 1, l);
    }
  }

  /** First segment holding the whole range, scanning as the code does. */
  function LogicalRange(segs: seq<Segment>, offset: int, size: int): Option<Interval> {
    if offset < 0 || size <= 0 || segs == [] then None
    else if segs[0].physical <= offset && offset + size <= segs[0].physical + segs[0].size then
      Some(Interval(segs[0].logical + offset - segs[0].physical, segs[0].logical + offset - segs[0].physical + size))
    else LogicalRange(segs[1..], offset, size)
  }

  method PhysicalLiveRangeToLogical(segs: seq<Segment>, offset: int, size: int) returns (r: Option<Interval>)
    ensures r == LogicalRange(segs, offset, size)
  {
    if offset < 0 || size <= 0 {
      return None;
    }
    var physicalEnd := offset + size;
    for i := 0 to |segs|
      invariant LogicalRange(segs, offset, size) == LogicalRange(segs[i..], offset, size)
    {
      var segment := segs[i];
      if segment.physical <= offset && physicalEnd <= segment.physical + segment.size {
        var logical := segment.logical + offset - segment.physical;
        return Some(Interval(logical, logical + size));
      }
      assert segs[i..][1..] == segs[i + 1..];
    }
    r := None;
  }

  /** An accepted range maps byte by byte to one contiguous logical range of the same size. */
  lemma {:induction false} RangeMapsBytes(segs: seq<Segment>, logical: int, lowest: int, offset: int, size: int)
    requires WellFormed(segs, logical, lowest) && LogicalRange(segs, offset, size).Some?
    ensures var v := LogicalRange(segs, offset, size).value;
            && v.end - v.start == size && logical <= v.start && v.end <= logical + Total(segs) && lowest <= offset
            && forall q :: offset <= q < offset + size ==> ToLogical(segs, q) == Some(v.start + q - offset)
  {
    LogicalBounds(segs, logical, lowest, offset);
    LogicalBounds(segs[1..], logical + segs[0].size, segs[0].physical + segs[0].size + 1, offset);
    if !(segs[0].physical <= offset && offset + size <= segs[0].physical + segs[0].size) {
      RangeMapsBytes(segs[1..], logical + segs[0].size, segs[0].physical + segs[0].size + 1, offset, size);
    }
  }

  ghost predicate AllLive(segs: seq<Segment>, offset: int, size: int) {
    forall q :: offset <= q < offset + size ==> ToLogical(segs, q).Some?
  }

  /** A range is accepted exactly when it is non-empty and every byte of it is live. */
  lemma {:induction false} RangeAcceptedIffLive(segs: seq<Segment>, logical: int, lowest: int, offset: int, size: int)
    requires WellFormed(segs, logical, lowest) && 0 <= lowest
    ensures LogicalRange(segs, offset, size).Some?
       <==> offset >= 0 && size > 0 && AllLive(segs, offset, size)
  {
    if LogicalRange(segs, offset, size).Some? {
      RangeMapsBytes(segs, logical, lowest, offset, size);
    } else if offset >= 0 && size > 0 && AllLive(segs, offset, size) {
      AllLiveAccepted(segs, logical, lowest, offset, size);
    }
  }

  lemma {:induction false} AllLiveAccepted(segs: seq<Segment>, logical: int, lowest: int, offset: int, size: int)
    requires WellFormed(segs, logical, lowest) && 0 <= offset && 0 < size
    requires AllLive(segs, offset, size)
    ensures LogicalRange(segs, offset, size).Some?
  {
    assert ToLogical(segs, offset).Some?;
    var s, rest := segs[0], segs[1..];
    var l', p' := logical + s.size, s.physical + s.size + 1;
    if InSegment(s, offset) {
      if offset + size > s.physical + s.size {
        // the byte just past this run is padding
        assert ToLogical(segs, s.physical + s.size).Some?;
        LogicalBounds(rest, l', p', s.physical + s.size);
      }
    } else {
      LogicalBounds(rest, l', p', offset);
      forall q | offset <= q < offset + size ensures ToLogical(rest, q).Some? {
        assert ToLogical(segs, q).Some?;
      }
      AllLiveAccepted(rest, l', p', offset, size);
    }
  }

  // ------------------------------------------------------------ RegionsCover

  /** The unit of `r` that `offset` falls in, as the division in the code finds it. */
  function CoveredEnd(r: Region, offset: int): Option<int>
    requires offset >= 0
  {
    if r.numUnits <= 0 || offset < r.offset || r.Packed() == 0 then None
    else if r.numUnits > 1 && r.stride == 0 then None
    else
      var u := if r.numUnits > 1 then (offset - r.offset) / r.stride else 0;
      if r.numUnits > 1 && u >= r.numUnits then None
      else if offset < r.offset + u * r.stride || offset >= r.offset + u * r.stride + r.Packed() then None
      else Some(r.offset + u * r.stride + r.Packed())
  }

  /** For admitted geometry the division finds a unit exactly when the byte is live. */
  lemma CoveredEndExact(r: Region, p: int)
    requires RegionGeometryOk(r) && p >= 0
    ensures CoveredEnd(r, p).Some? <==> RegionLive(r, p)
    ensures CoveredEnd(r, p).Some? ==>
              p < CoveredEnd(r, p).value && forall q :: p <= q < CoveredEnd(r, p).value ==> RegionLive(r, q)
  {
    if RegionLive(r, p) {
      var u :| 0 <= u < r.numUnits && InUnit(r, u, p);
      MulMono(0, u, r.stride);
      if r.numUnits > 1 {
        DivUnique(p - r.offset, r.stride, u);
      } else {
        assert u == 0;
      }
    }
    if CoveredEnd(r, p).Some? {
      var u := if r.numUnits > 1 then (p - r.offset) / r.stride else 0;
      assert 0 <= u < r.numUnits && InUnit(r, u, p) by {
        if r.numUnits > 1 {
          DivBounds(p - r.offset, r.stride);
        }
      }
      forall q | p <= q < CoveredEnd(r, p).value ensures RegionLive(r, q) {
        assert InUnit(r, u, q);
      }
    }
  }

  lemma DivUnique(x: int, k: int, u: int)
    requires k > 0 && u * k <= x < u * k + k && u >= 0
    ensures x / k == u
  {
    DivBounds(x, k);
    assert (u + 1) * k == u * k + k;
    if x / k < u {
      MulMono(x / k + 1, u, k);
    } else if x / k > u {
      MulMono(u + 1, x / k, k);
    }
  }

  /** Whether the regions jointly cover every byte of `[start, end)`. */
  method RegionsCoverRange(regions: seq<Region>, start: int, end: int) returns (ok: bool)
    requires 0 <= start && forall i | 0 <= i < |regions| :: RegionGeometryOk(regions[i])
    ensures ok <==> forall p :: start <= p < end ==> Live(regions, p)
  {
    var cursor := start;
    while cursor < end
      invariant start <= cursor && (cursor <= end || cursor == start)
      invariant forall p :: start <= p < cursor ==> Live(regions, p)
    {
      var next := cursor;
      for i := 0 to |regions|
        invariant cursor <= next <= end
        invariant forall p :: cursor <= p < next ==> Live(regions, p)
        invariant next == cursor ==> forall k | 0 <= k < i :: !RegionLive(regions[k], cursor)
      {
        CoveredEndExact(regions[i], cursor);
        var covered := CoveredEnd(regions[i], cursor);
        if covered.Some? {
          var reach := if covered.value < end then covered.value else end;
          if reach > next {
            forall p | cursor <= p < reach ensures Live(regions, p) {
              assert RegionLive(regions[i], p);
            }
            next := reach;
          }
        }
      }
      if next == cursor {
        assert !Live(regions, cursor);
        return false;
      }
      cursor := next;
    }
    ok := true;
  }
}
