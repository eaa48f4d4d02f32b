/**
  Run coalescing: the three functions that turn block-by-block copies into runs
  (tpu_sync/core/kv_cache_manager_with_transfer.cc and
  tpu_sync/kv_cache/kv_cache_manager_base.cc), and the byte bounds check made
  on their result.
 */
module CopySpecs {
  import opened TransferTypes

  /** `size` consecutive blocks from `src` to `dst`. */
  datatype Run = Run(src: int, dst: int, size: int)

  datatype Pair = Pair(src: int, dst: int)

  /** The block-by-block copies of a run, in order. */
  function Blocks(r: Run, n: nat): seq<Pair> {
    if n == 0 then [] else Blocks(r, n - 1) + [Pair(r.src + n - 1, r.dst + n - 1)]
  }

  function Expand(runs: seq<Run>): seq<Pair> {
    if runs == [] then []
    else
      var r := runs[|runs| - 1];
      Expand(runs[..|runs| - 1]) + Blocks(r, if r.size < 0 then 0 else r.size)
  }

  /** The second run starts where the first ends, on both sides. */
  predicate Adjoins(a: Run, b: Run) {
    b.src == a.src + a.size && b.dst == a.dst + a.size
  }

  ghost predicate Maximal(runs: seq<Run>) {
    forall i | 0 <= i < |runs| - 1 :: !Adjoins(runs[i], runs[i + 1])
  }

  lemma {:induction false} ExpandSnoc(runs: seq<Run>, r: Run)
    requires r.size >= 0
    ensures Expand(runs + [r]) == Expand(runs) + Blocks(r, r.size)
  {
    assert (runs + [r])[..|runs|] == runs;
  }

  lemma {:induction false} BlocksSplit(r: Run, m: nat, n: nat)
    ensures Blocks(r, m + n) == Blocks(r, m) + Blocks(Run(r.src + m, r.dst + m, n), n)
  {
    if n > 0 {
      BlocksSplit(r, m, n - 1);
      BlocksOfSize(Run(r.src + m, r.dst + m, n), Run(r.src + m, r.dst + m, n - 1), n - 1);
    }
  }

  lemma {:induction false} BlocksOfSize(a: Run, b: Run, n: nat)
    requires a.src == b.src && a.dst == b.dst
    ensures Blocks(a, n) == Blocks(b, n)
  {
    if n > 0 {
      BlocksOfSize(a, b, n - 1);
    }
  }

  // --------------------------------------------------- coalescing adjacent runs

  function Grown(a: Run, more: int): Run {
    Run(a.src, a.dst, a.size + more)
  }

  /** One step of the coalescing loop: grow the last run or start a new one. */
  function Push(out: seq<Run>, r: Run): seq<Run> {
    if out != [] && Adjoins(out[|out| - 1], r) then out[..|out| - 1] + [Grown(out[|out| - 1], r.size)]
    else out + [r]
  }

  function Coalesced(runs: seq<Run>): seq<Run> {
    if runs == [] then [] else Push(Coalesced(runs[..|runs| - 1]), runs[|runs| - 1])
  }

  lemma {:induction false} CoalescedPrefix(runs: seq<Run>, i: nat)
    requires i < |runs|
    ensures Coalesced(runs[..i + 1]) == Push(Coalesced(runs[..i]), runs[i])
  {
    assert runs[..i + 1][..i] == runs[..i];
  }

  method CoalesceMajorDimCopies(runs: seq<Run>) returns (out: seq<Run>)
    ensures out == Coalesced(runs)
  {
    out := [];
    for i := 0 to |runs|
      invariant out == Coalesced(runs[..i])
    {
      ghost var before := out;
      var r := runs[i];
      if |out| > 0 && Adjoins(out[|out| - 1], r) {
        var last := out[|out| - 1];
        out := out[..|out| - 1] + [Run(last.src, last.dst, last.size + r.size)];
      } else {
        out := out + [r];
      }
      assert out == Push(before, r);
      CoalescedPrefix(runs, i);
    }
    assert runs[..|runs|] == runs;
  }

  predicate SizesOk(runs: seq<Run>) {
    forall i | 0 <= i < |runs| :: runs[i].size >= 0
  }

  lemma {:induction false} BlocksMerge(a: Run, b: Run)
    requires a.size >= 0 && b.size >= 0 && Adjoins(a, b)
    ensures Blocks(Grown(a, b.size), a.size + b.size) == Blocks(a, a.size) + Blocks(b, b.size)
  {
    BlocksSplit(a, a.size, b.size);
    BlocksOfSize(a, Grown(a, b.size), a.size + b.size);
    assert Run(a.src + a.size, a.dst + a.size, b.size) == b;
  }

  lemma {:induction false} GrowExpands(front: seq<Run>, last: Run, r: Run)
    requires last.size >= 0 && r.size >= 0 && Adjoins(last, r)
    ensures Expand(front + [Grown(last, r.size)]) == Expand(front + [last]) + Blocks(r, r.size)
  {
    var grown := Grown(last, r.size);
    ExpandSnoc(front, last);
    ExpandSnoc(front, grown);
    BlocksMerge(last, r);
    Regroup(Expand(front), Blocks(last, last.size), Blocks(r, r.size));
    assert grown.size == last.size + r.size;
  }

  lemma Regroup(a: seq<Pair>, b: seq<Pair>, c: seq<Pair>)
    ensures a + (b + c) == a + b + c
  {
  }

  lemma {:induction false} PushSizes(out: seq<Run>, r: Run)
    requires SizesOk(out) && r.size >= 0
    ensures SizesOk(Push(out, r))
  {
    if out != [] && Adjoins(out[|out| - 1], r) {
      assert out[|out| - 1].size >= 0;
    }
  }

  lemma {:induction false} PushExpands(out: seq<Run>, r: Run)
    requires SizesOk(out) && r.size >= 0
    ensures Expand(Push(out, r)) == Expand(out) + Blocks(r, r.size)
  {
    if out != [] && Adjoins(out[|out| - 1], r) {
      var n := |out| - 1;
      assert out[n].size >= 0;
      GrowExpands(out[..n], out[n], r);
      assert out == out[..n] + [out[n]];
      assert Push(out, r) == out[..n] + [Grown(out[n], r.size)];
    } else {
      assert Push(out, r) == out + [r];
      ExpandSnoc(out, r);
    }
  }

  lemma PushAfter(front: seq<Run>, last: Run, before: seq<Run>)
    requires SizesOk(before) && last.size >= 0 && Expand(before) == Expand(front)
    ensures Expand(Push(before, last)) == Expand(front + [last])
  {
    PushExpands(before, last);
    ExpandSnoc(front, last);
  }

  /** Coalescing copies the same blocks in the same order. */
  lemma {:induction false} CoalescedExpands(runs: seq<Run>)
    requires SizesOk(runs)
    ensures SizesOk(Coalesced(runs)) && Expand(Coalesced(runs)) == Expand(runs)
    decreases |runs|
  {
    if runs != [] {
      var front, last := SplitLast(runs);
      assert last == runs[|front|] && forall i | 0 <= i < |front| :: front[i] == runs[i];
      CoalescedExpands(front);
      CoalescedStep(front, last);
    }
  }

  lemma SplitLast(runs: seq<Run>) returns (front: seq<Run>, last: Run)
    requires runs != []
    ensures runs == front + [last]
  {
    front, last := runs[..|runs| - 1], runs[|runs| - 1];
  }

  lemma CoalescedSnoc(front: seq<Run>, last: Run)
    ensures Coalesced(front + [last]) == Push(Coalesced(front), last)
  {
    assert (front + [last])[..|front|] == front;
  }

  lemma CoalescedStep(front: seq<Run>, last: Run)
    requires last.size >= 0 && SizesOk(Coalesced(front)) && Expand(Coalesced(front)) == Expand(front)
    ensures SizesOk(Coalesced(front + [last])) && Expand(Coalesced(front + [last])) == Expand(front + [last])
  {
    CoalescedSnoc(front, last);
    PushSizes(Coalesced(front), last);
    PushAfter(front, last, Coalesced(front));
  }

  /** A list with nothing left to merge is a fixed point, and only such a list is. */
  lemma {:induction false} CoalescedFixed(runs: seq<Run>)
    ensures |Coalesced(runs)| <= |runs|
    ensures Coalesced(runs) == runs <==> Maximal(runs)
  {
    if runs != [] {
      var n := |runs| - 1;
      CoalescedFixed(runs[..n]);
      assert runs == runs[..n] + [runs[n]];
      assert Maximal(runs) <==> Maximal(runs[..n]) && (n > 0 ==> !Adjoins(runs[n - 1], runs[n])) by {
        assert forall i | 0 <= i < n :: runs[..n][i] == runs[i];
      }
      if Coalesced(runs) == runs {
        assert Coalesced(runs)[..n] == runs[..n];
      }
    }
  }

  // -------------------------------------------------------- building runs of pairs

  function Zip(src: seq<int>, dst: seq<int>): seq<Pair>
    requires |src| == |dst|
  {
    seq(|src|, i requires 0 <= i < |src| => Pair(src[i], dst[i]))
  }

  function Singles(pairs: seq<Pair>): seq<Run> {
    seq(|pairs|, i requires 0 <= i < |pairs| => Run(pairs[i].src, pairs[i].dst, 1))
  }

  /** The runs of the first `n` pairs, merged one block at a time. */
  function Built(pairs: seq<Pair>, n: nat): seq<Run>
    requires n <= |pairs|
  {
    Coalesced(Singles(pairs)[..n])
  }

  function Block(p: Pair): Run {
    Run(p.src, p.dst, 1)
  }

  lemma {:induction false} BuiltStep(pairs: seq<Pair>, n: nat)
    requires n < |pairs|
    ensures Built(pairs, n + 1) == Push(Built(pairs, n), Block(pairs[n]))
  {
    CoalescedPrefix(Singles(pairs), n);
  }

  /** The pairs from `start` to `end` follow each other on both sides. */
  ghost predicate OneRun(pairs: seq<Pair>, start: nat, end: nat) {
    start < end <= |pairs| && forall k | start <= k < end ::
        pairs[k] == Pair(pairs[start].src + k - start, pairs[start].dst + k - start)
  }

  /** No run built so far continues into the pair at `n`. */
  ghost predicate Fresh(pairs: seq<Pair>, n: nat)
    requires n <= |pairs|
  {
    n < |pairs| && Built(pairs, n) != [] ==> !Adjoins(Built(pairs, n)[|Built(pairs, n)| - 1], Block(pairs[n]))
  }

  /** Merging the blocks of the pairs from `start` to `end` into `out`, one at a time. */
  function Merged(out: seq<Run>, pairs: seq<Pair>, start: nat, end: nat): seq<Run>
    requires start <= end <= |pairs|
    decreases end
  {
    if end == start then out else Push(Merged(out, pairs, start, end - 1), Block(pairs[end - 1]))
  }

  lemma {:induction false} BuiltMerged(pairs: seq<Pair>, start: nat, end: nat)
    requires start <= end <= |pairs|
    ensures Built(pairs, end) == Merged(Built(pairs, start), pairs, start, end)
    decreases end
  {
    if start < end {
      BuiltMerged(pairs, start, end - 1);
      BuiltStep(pairs, end - 1);
    }
  }

  lemma {:induction false} RunMerged(out: seq<Run>, pairs: seq<Pair>, start: nat, end: nat)
    requires OneRun(pairs, start, end) && (out == [] || !Adjoins(out[|out| - 1], Block(pairs[start])))
    ensures Merged(out, pairs, start, end) == out + [Run(pairs[start].src, pairs[start].dst, end - start)]
    decreases end
  {
    var next, first := Block(pairs[end - 1]), pairs[start];
    if end == start + 1 {
      assert Merged(out, pairs, start, start) == out;
      PushFresh(out, next);
    } else {
      RunMerged(out, pairs, start, end - 1);
      var r := Run(first.src, first.dst, end - 1 - start);
      assert pairs[end - 1] == Pair(first.src + end - 1 - start, first.dst + end - 1 - start);
      assert Adjoins(r, next);
      PushGrows(out, r, next);
    }
  }

  /** A run scanned from `start` to `end` is what merging its blocks one at a time gives. */
  lemma RunScanned(pairs: seq<Pair>, start: nat, end: nat)
    requires OneRun(pairs, start, end) && Fresh(pairs, start)
    ensures Built(pairs, end) == Built(pairs, start) + [Run(pairs[start].src, pairs[start].dst, end - start)]
  {
    BuiltMerged(pairs, start, end);
    RunMerged(Built(pairs, start), pairs, start, end);
  }

  lemma PushFresh(before: seq<Run>, r: Run)
    requires before == [] || !Adjoins(before[|before| - 1], r)
    ensures Push(before, r) == before + [r]
  {
  }

  lemma PushGrows(before: seq<Run>, r: Run, next: Run)
    requires Adjoins(r, next)
    ensures Push(before + [r], next) == before + [Run(r.src, r.dst, r.size + next.size)]
  {
    assert (before + [r])[..|before|] == before;
  }

  lemma {:induction false} RunExtends(pairs: seq<Pair>, start: nat, end: nat)
    requires OneRun(pairs, start, end) && end < |pairs|
             && pairs[end] == Pair(pairs[end - 1].src + 1, pairs[end - 1].dst + 1)
    ensures OneRun(pairs, start, end + 1)
  {
    assert pairs[end - 1] == Pair(pairs[start].src + end - 1 - start, pairs[start].dst + end - 1 - start);
  }

  lemma {:induction false} RunEnds(pairs: seq<Pair>, start: nat, end: nat)
    requires OneRun(pairs, start, end) && Fresh(pairs, start)
    requires end < |pairs| ==> pairs[end] != Pair(pairs[end - 1].src + 1, pairs[end - 1].dst + 1)
    ensures Fresh(pairs, end)
  {
    RunScanned(pairs, start, end);
  }

  /** Scanning ahead for the end of each run gives what merging one block at a time gives. */
  method BuildCoalescedCopySpec(src: seq<int>, dst: seq<int>) returns (spec: Option<seq<Run>>)
    ensures spec.None? <==> |src| != |dst|
    ensures spec.Some? ==> spec.value == Coalesced(Singles(Zip(src, dst)))
    ensures spec.Some? ==> && |Expand(spec.value)| == |src|
                           && forall i | 0 <= i < |src| :: Expand(spec.value)[i] == Pair(src[i], dst[i])
  {
    if |src| != |dst| {
      return None;
    }
    var runs: seq<Run> := [];
    ghost var pairs := Zip(src, dst);
    var start := 0;
    while start < |src|
      invariant 0 <= start <= |src|
      invariant runs == Built(pairs, start) && Fresh(pairs, start)
    {
      var end := start + 1;
      while end < |src| && src[end] == src[end - 1] + 1 && dst[end] == dst[end - 1] + 1
        invariant OneRun(pairs, start, end)
      {
        RunExtends(pairs, start, end);
        end := end + 1;
      }
      RunScanned(pairs, start, end);
      RunEnds(pairs, start, end);
      runs := runs + [Run(src[start], dst[start], end - start)];
      start := end;
    }
    assert Singles(pairs)[..|src|] == Singles(pairs);
    BuiltSpec(pairs);
    spec := Some(runs);
  }

  function Iota(n: nat): seq<int> {
    seq(n, i requires 0 <= i < n => i)
  }

  lemma OffsetsExpand(ids: seq<int>, sourceIsCompact: bool, pairs: seq<Pair>)
    requires pairs == if sourceIsCompact then Zip(Iota(|ids|), ids) else Zip(ids, Iota(|ids|))
    ensures var runs := Coalesced(Singles(pairs));
            && |Expand(runs)| == |ids|
            && forall i | 0 <= i < |ids| ::
                 Expand(runs)[i] == if sourceIsCompact then Pair(i, ids[i]) else Pair(ids[i], i)
  {
    BuiltSpec(pairs);
  }

  /** Blocks packed on one side: the same runs as pairing the ids with 0, 1, 2, and so on. */
  method Offsets(ids: seq<int>, sourceIsCompact: bool) returns (runs: seq<Run>)
    ensures runs == Coalesced(Singles(if sourceIsCompact then Zip(Iota(|ids|), ids) else Zip(ids, Iota(|ids|))))
    ensures |Expand(runs)| == |ids|
    ensures forall i | 0 <= i < |ids| ::
              Expand(runs)[i] == if sourceIsCompact then Pair(i, ids[i]) else Pair(ids[i], i)
  {
    runs := [];
    ghost var pairs := if sourceIsCompact then Zip(Iota(|ids|), ids) else Zip(ids, Iota(|ids|));
    var start := 0;
    while start < |ids|
      invariant 0 <= start <= |ids|
      invariant runs == Built(pairs, start) && Fresh(pairs, start)
    {
      var end := ScanRun(ids, start, sourceIsCompact, pairs);
      RunScanned(pairs, start, end);
      RunEnds(pairs, start, end);
      runs := runs + [if sourceIsCompact then Run(start, ids[start], end - start)
                      else Run(ids[start], start, end - start)];
      start := end;
    }
    assert Singles(pairs)[..|ids|] == Singles(pairs);
    OffsetsExpand(ids, sourceIsCompact, pairs);
  }

  /** The inner loop: the end of the run of consecutive ids. */
  method ScanRun(ids: seq<int>, start: nat, ghost sourceIsCompact: bool, ghost pairs: seq<Pair>) returns (end: nat)
    requires start < |ids| == |pairs|
    requires forall k | 0 <= k < |ids| :: pairs[k] == if sourceIsCompact then Pair(k, ids[k]) else Pair(ids[k], k)
    ensures OneRun(pairs, start, end)
    ensures end < |pairs| ==> pairs[end] != Pair(pairs[end - 1].src + 1, pairs[end - 1].dst + 1)
  {
    end := start + 1;
    while end < |ids| && ids[end] == ids[end - 1] + 1
      invariant OneRun(pairs, start, end)
    {
      RunExtends(pairs, start, end);
      end := end + 1;
    }
  }

  lemma {:induction false} SinglesExpand(pairs: seq<Pair>)
    ensures Expand(Singles(pairs)) == pairs
  {
    if pairs != [] {
      var n := |pairs| - 1;
      SinglesExpand(pairs[..n]);
      assert Singles(pairs)[..n] == Singles(pairs[..n]);
      assert Blocks(Run(pairs[n].src, pairs[n].dst, 1), 0) == [];
      assert pairs == pairs[..n] + [pairs[n]];
    }
  }

  ghost predicate Positive(runs: seq<Run>) {
    forall i | 0 <= i < |runs| :: runs[i].size >= 1
  }

  lemma {:induction false} PushPositive(out: seq<Run>, r: Run)
    requires Positive(out) && r.size >= 1
    ensures Positive(Push(out, r))
  {
    if out != [] && Adjoins(out[|out| - 1], r) {
      assert out[|out| - 1].size >= 1;
    }
  }

  lemma {:induction false} CoalescedPositive(runs: seq<Run>)
    requires Positive(runs)
    ensures Positive(Coalesced(runs))
  {
    if runs != [] {
      var n := |runs| - 1;
      CoalescedPositive(runs[..n]);
      PushPositive(Coalesced(runs[..n]), runs[n]);
    }
  }

  /**
    The built spec copies exactly the given pairs in order, in runs that cannot be merged, and is a
    fixed point of coalescing.
   */
  lemma {:induction false} BuiltSpec(pairs: seq<Pair>)
    ensures Expand(Coalesced(Singles(pairs))) == pairs
    ensures Positive(Coalesced(Singles(pairs))) && Maximal(Coalesced(Singles(pairs)))
    ensures Coalesced(Coalesced(Singles(pairs))) == Coalesced(Singles(pairs))
  {
    SinglesExpand(pairs);
    CoalescedExpands(Singles(pairs));
    CoalescedPositive(Singles(pairs));
    SinglesMaximal(pairs);
    CoalescedFixed(Coalesced(Singles(pairs)));
  }

  lemma {:induction false} SinglesMaximal(pairs: seq<Pair>)
    ensures Maximal(Coalesced(Singles(pairs)))
  {
    if pairs != [] {
      var n := |pairs| - 1;
      SinglesMaximal(pairs[..n]);
      assert Singles(pairs)[..n] == Singles(pairs[..n]);
      var before := Coalesced(Singles(pairs[..n]));
      var after := Push(before, Singles(pairs)[n]);
      forall i | 0 <= i < |after| - 1 ensures !Adjoins(after[i], after[i + 1]) {
        if i < |before| - 1 {
          assert !Adjoins(before[i], before[i + 1]);
        }
      }
    }
  }

  // ------------------------------------------------------------- bounds check

  /** The byte check made before a run is copied. */
  predicate InBounds(r: Run, block: int, srcBytes: int, dstBytes: int) {
    r.src * block + r.size * block <= srcBytes && r.dst * block + r.size * block <= dstBytes
  }

  predicate AllInBounds(runs: seq<Run>, block: int, srcBytes: int, dstBytes: int) {
    forall i | 0 <= i < |runs| :: InBounds(runs[i], block, srcBytes, dstBytes)
  }

  /** Growing a run by its neighbour passes the check exactly when both pass it. */
  lemma {:induction false} MergedInBounds(a: Run, b: Run, block: int, srcBytes: int, dstBytes: int)
    requires Adjoins(a, b) && b.size >= 0 && block >= 0
    ensures InBounds(Grown(a, b.size), block, srcBytes, dstBytes)
       <==> InBounds(a, block, srcBytes, dstBytes) && InBounds(b, block, srcBytes, dstBytes)
  {
    assert (a.size + b.size) * block == a.size * block + b.size * block;
    assert b.src * block == a.src * block + a.size * block;
    assert b.dst * block == a.dst * block + a.size * block;
    assert b.size * block >= 0;
  }

  /** The check passes on the coalesced list exactly when it passes on every original copy. */
  lemma {:induction false} CoalescedInBounds(runs: seq<Run>, block: int, srcBytes: int, dstBytes: int)
    requires SizesOk(runs) && block >= 0
    ensures AllInBounds(Coalesced(runs), block, srcBytes, dstBytes) <==> AllInBounds(runs, block, srcBytes, dstBytes)
  {
    if runs != [] {
      var n := |runs| - 1;
      CoalescedInBounds(runs[..n], block, srcBytes, dstBytes);
      assert AllInBounds(runs, block, srcBytes, dstBytes)
        <==> AllInBounds(runs[..n], block, srcBytes, dstBytes) && InBounds(runs[n], block, srcBytes, dstBytes);
      PushInBounds(Coalesced(runs[..n]), runs[n], block, srcBytes, dstBytes);
    }
  }

  lemma {:induction false} PushInBounds(out: seq<Run>, r: Run, block: int, srcBytes: int, dstBytes: int)
    requires r.size >= 0 && block >= 0
    ensures AllInBounds(Push(out, r), block, srcBytes, dstBytes)
            <==> AllInBounds(out, block, srcBytes, dstBytes) && InBounds(r, block, srcBytes, dstBytes)
  {
    if out != [] && Adjoins(out[|out| - 1], r) {
      var n := |out| - 1;
      MergedInBounds(out[n], r, block, srcBytes, dstBytes);
      var after := Push(out, r);
      assert forall i | 0 <= i < n :: after[i] == out[i];
      assert AllInBounds(out, block, srcBytes, dstBytes)
        <==> AllInBounds(out[..n], block, srcBytes, dstBytes) && InBounds(out[n], block, srcBytes, dstBytes);
      assert AllInBounds(after, block, srcBytes, dstBytes)
        <==> AllInBounds(out[..n], block, srcBytes, dstBytes) && InBounds(after[n], block, srcBytes, dstBytes);
    } else {
      var after := out + [r];
      assert forall i | 0 <= i < |out| :: after[i] == out[i];
      assert after[|out|] == r;
    }
  }

  /** One block pair ends inside both buffers. */
  predicate PairInBounds(p: Pair, block: int, srcBytes: int, dstBytes: int) {
    p.src * block + block <= srcBytes && p.dst * block + block <= dstBytes
  }

  lemma {:induction false} BlocksAt(r: Run, n: nat)
    ensures |Blocks(r, n)| == n && forall i | 0 <= i < n :: Blocks(r, n)[i] == Pair(r.src + i, r.dst + i)
  {
    if n > 0 {
      BlocksAt(r, n - 1);
    }
  }

  lemma RunInBounds(r: Run, block: int, srcBytes: int, dstBytes: int)
    requires r.size >= 1 && block >= 0
    ensures InBounds(r, block, srcBytes, dstBytes)
       <==> forall p | p in Blocks(r, r.size) :: PairInBounds(p, block, srcBytes, dstBytes)
  {
    var pairs := Blocks(r, r.size);
    BlocksAt(r, r.size);
    var last := pairs[r.size - 1];
    assert last in pairs && last == Pair(r.src + r.size - 1, r.dst + r.size - 1);
    LastPair(r, block, srcBytes, dstBytes);
    forall p | p in pairs && InBounds(r, block, srcBytes, dstBytes) ensures PairInBounds(p, block, srcBytes, dstBytes) {
      var i :| 0 <= i < r.size && pairs[i] == p;
      EarlierPair(last, p, block, srcBytes, dstBytes);
    }
  }

  lemma LastPair(r: Run, block: int, srcBytes: int, dstBytes: int)
    ensures InBounds(r, block, srcBytes, dstBytes)
       <==> PairInBounds(Pair(r.src + r.size - 1, r.dst + r.size - 1), block, srcBytes, dstBytes)
  {
    assert (r.src + r.size - 1) * block + block == r.src * block + r.size * block;
    assert (r.dst + r.size - 1) * block + block == r.dst * block + r.size * block;
  }

  lemma EarlierPair(last: Pair, p: Pair, block: int, srcBytes: int, dstBytes: int)
    requires p.src <= last.src && p.dst <= last.dst && block >= 0 && PairInBounds(last, block, srcBytes, dstBytes)
    ensures PairInBounds(p, block, srcBytes, dstBytes)
  {
    Below(p.src, last.src, block);
    Below(p.dst, last.dst, block);
  }

  lemma Below(a: int, b: int, block: int)
    requires a <= b && block >= 0
    ensures a * block <= b * block
  {
  }

  lemma {:induction false} PairsInBounds(runs: seq<Run>, block: int, srcBytes: int, dstBytes: int)
    requires Positive(runs) && block >= 0
    ensures AllInBounds(runs, block, srcBytes, dstBytes)
       <==> forall p | p in Expand(runs) :: PairInBounds(p, block, srcBytes, dstBytes)
  {
    if runs != [] {
      var n := |runs| - 1;
      PairsInBounds(runs[..n], block, srcBytes, dstBytes);
      RunInBounds(runs[n], block, srcBytes, dstBytes);
      LastInBounds(runs, block, srcBytes, dstBytes);
      assert forall p :: p in Expand(runs) <==> p in Expand(runs[..n]) || p in Blocks(runs[n], runs[n].size);
    }
  }

  lemma LastInBounds(runs: seq<Run>, block: int, srcBytes: int, dstBytes: int)
    requires runs != []
    ensures AllInBounds(runs, block, srcBytes, dstBytes)
       <==> && AllInBounds(runs[..|runs| - 1], block, srcBytes, dstBytes)
            && InBounds(runs[|runs| - 1], block, srcBytes, dstBytes)
  {
    var n := |runs| - 1;
    assert forall i | 0 <= i < n :: runs[..n][i] == runs[i];
  }

  /** What the check means: every block pair that the runs copy ends inside both buffers. */
  lemma BoundsExact(runs: seq<Run>, block: int, srcBytes: int, dstBytes: int)
    requires Positive(runs) && block >= 0
    ensures AllInBounds(runs, block, srcBytes, dstBytes)
       <==> forall p | p in Expand(runs) :: p.src * block + block <= srcBytes && p.dst * block + block <= dstBytes
  {
    PairsInBounds(runs, block, srcBytes, dstBytes);
    assert forall p | p in Expand(runs) ::
             PairInBounds(p, block, srcBytes, dstBytes)
             <==> (p.src * block + block <= srcBytes && p.dst * block + block <= dstBytes);
  }
}
