/**
  Half-open byte intervals, and the sort-and-sweep that both the receiver's
  coverage check and the live-region expansion are built on.

  `Cover(s, b)` counts the intervals of `s` that contain byte `b`.  It depends
  only on the multiset of intervals, so facts read off the sorted list hold of
  the list that was collected.
 */
module Intervals {

  datatype Interval = Interval(start: int, end: int)

  /** The order `std::pair<int64_t, int64_t>` compares by. */
  predicate Leq(a: Interval, b: Interval) {
    a.start < b.start || (a.start == b.start && a.end <= b.end)
  }

  predicate Sorted(s: seq<Interval>) {
    forall i, j | 0 <= i < j < |s| :: Leq(s[i], s[j])
  }

  predicate Has(v: Interval, b: int) {
    v.start <= b < v.end
  }

  /** The number of intervals that contain byte `b`. */
  function Cover(s: seq<Interval>, b: int): nat {
    if s == [] then 0 else (if Has(s[0], b) then 1 else 0) + Cover(s[1..], b)
  }

  lemma {:induction false} CoverConcat(s: seq<Interval>, t: seq<Interval>, b: int)
    ensures Cover(s + t, b) == Cover(s, b) + Cover(t, b)
  {
    if s == [] {
      assert s + t == t;
    } else {
      CoverConcat(s[1..], t, b);
      assert (s + t)[1..] == s[1..] + t;
    }
  }

  lemma CoverRemove(t: seq<Interval>, k: nat, b: int)
    requires k < |t|
    ensures Cover(t, b) == Cover(t[..k] + t[k + 1..], b) + if Has(t[k], b) then 1 else 0
  {
    var tail := [t[k]] + t[k + 1..];
    assert t == t[..k] + tail && tail[1..] == t[k + 1..];
    CoverConcat(t[..k], tail, b);
    CoverConcat(t[..k], t[k + 1..], b);
  }

  lemma MultisetRemove(t: seq<Interval>, k: nat)
    requires k < |t|
    ensures multiset(t[..k] + t[k + 1..]) == multiset(t) - multiset{t[k]}
  {
    assert t == t[..k] + [t[k]] + t[k + 1..];
  }

  /** `Cover` depends on the multiset of intervals only. */
  lemma {:induction false} CoverPermutation(s: seq<Interval>, t: seq<Interval>, b: int)
    requires multiset(s) == multiset(t)
    ensures Cover(s, b) == Cover(t, b)
  {
    if s == [] {
      assert |t| == |multiset(t)| == 0;
    } else {
      assert s[0] in multiset(t);
      var k :| 0 <= k < |t| && t[k] == s[0];
      MultisetRemove(s, 0);
      MultisetRemove(t, k);
      assert s[..0] + s[1..] == s[1..];
      CoverPermutation(s[1..], t[..k] + t[k + 1..], b);
      CoverRemove(t, k, b);
    }
  }

  lemma {:induction false} CoverZero(s: seq<Interval>, b: int)
    ensures Cover(s, b) == 0 <==> forall i | 0 <= i < |s| :: !Has(s[i], b)
  {
    if s != [] {
      CoverZero(s[1..], b);
      assert forall i | 1 <= i < |s| :: s[i] == s[1..][i - 1];
      if Cover(s, b) == 0 {
        assert forall i | 0 <= i < |s| :: i == 0 || s[i] == s[1..][i - 1];
      }
    }
  }

  /** Two positions containing the same byte push its count to two. */
  lemma {:induction false} CoverTwo(s: seq<Interval>, b: int, i: nat, j: nat)
    requires i < j < |s| && Has(s[i], b) && Has(s[j], b)
    ensures Cover(s, b) >= 2
  {
    var tail := s[i + 1..];
    assert s == s[..i] + ([s[i]] + tail);
    CoverConcat(s[..i], [s[i]] + tail, b);
    assert ([s[i]] + tail)[1..] == tail;
    CoverZero(tail, b);
    assert tail[j - i - 1] == s[j];
  }

  // ---------------------------------------------------------------- sorting

  function Insert(s: seq<Interval>, v: Interval): seq<Interval> {
    if s == [] || Leq(v, s[0]) then [v] + s else [s[0]] + Insert(s[1..], v)
  }

  lemma {:induction false} InsertSorted(s: seq<Interval>, v: Interval)
    requires Sorted(s)
    ensures Sorted(Insert(s, v)) && multiset(Insert(s, v)) == multiset(s) + multiset{v}
  {
    if s == [] || Leq(v, s[0]) {
    } else {
      InsertSorted(s[1..], v);
      var r := Insert(s[1..], v);
      assert s == [s[0]] + s[1..];
      forall k | 0 <= k < |r| ensures Leq(s[0], r[k]) {
        assert r[k] in multiset(r);
        assert r[k] in s[1..] || r[k] == v;
      }
    }
  }

  /** `std::sort` on intervals: only the sorted permutation it leaves matters. */
  method SortIntervals(s: seq<Interval>) returns (r: seq<Interval>)
    ensures Sorted(r) && multiset(r) == multiset(s)
  {
    r := [];
    for i := 0 to |s|
      invariant Sorted(r) && multiset(r) == multiset(s[..i])
    {
      assert s[..i + 1] == s[..i] + [s[i]];
      InsertSorted(r, s[i]);
      r := Insert(r, s[i]);
    }
    assert s[..|s|] == s;
  }

  // --------------------------------------------------------- exact coverage

  /** Every byte of `[0, extent)` is in exactly one interval, and no interval leaves it. */
  ghost predicate Tiles(s: seq<Interval>, extent: int) {
    && (forall b :: 0 <= b < extent ==> Cover(s, b) == 1)
    && (forall i | 0 <= i < |s| :: 0 <= s[i].start && s[i].end <= extent)
  }

  /** What the sweep accepts from cursor `from`: the intervals abut, and end at `extent`. */
  predicate Chained(s: seq<Interval>, from: int, extent: int) {
    if s == [] then from == extent
    else s[0].start == from && Chained(s[1..], s[0].end, extent)
  }

  ghost predicate Positive(s: seq<Interval>) {
    forall i | 0 <= i < |s| :: s[i].start < s[i].end
  }

  lemma {:induction false} ChainedTiles(s: seq<Interval>, from: int, extent: int)
    requires Positive(s) && Chained(s, from, extent)
    ensures from <= extent
    ensures forall i | 0 <= i < |s| :: from <= s[i].start && s[i].end <= extent
    ensures forall b :: Cover(s, b) == if from <= b < extent then 1 else 0
  {
    if s != [] {
      ChainedTiles(s[1..], s[0].end, extent);
      assert forall i | 1 <= i < |s| :: s[i] == s[1..][i - 1];
    }
  }

  lemma {:induction false} TilesChained(s: seq<Interval>, from: int, extent: int)
    requires Positive(s) && Sorted(s) && from <= extent
    requires forall i | 0 <= i < |s| :: from <= s[i].start && s[i].end <= extent
    requires forall b :: from <= b < extent ==> Cover(s, b) == 1
    ensures Chained(s, from, extent)
  {
    assert from < extent ==> Cover(s, from) == 1;
    if s != [] {
      CoverZero(s, from);
      var rest := s[1..];
      forall i | 0 <= i < |rest| ensures s[0].end <= rest[i].start {
        assert rest[i] == s[i + 1] && Leq(s[0], s[i + 1]);
        assert Cover(s, rest[i].start) == 1;
        if rest[i].start < s[0].end {
          CoverTwo(s, rest[i].start, 0, i + 1);
        }
      }
      forall b | s[0].end <= b < extent ensures Cover(rest, b) == 1 {
        assert Cover(s, b) == 1;
      }
      TilesChained(rest, s[0].end, extent);
    }
  }

  /**
    The sort-and-sweep over one destination block.  It accepts exactly the
    collections that tile the block, in whatever order they were collected.
   */
  method SortAndSweep(intervals: seq<Interval>, extent: int) returns (ok: bool)
    requires Positive(intervals) && 0 <= extent
    ensures ok <==> Tiles(intervals, extent)
  {
    var sorted := SortIntervals(intervals);
    SameElements(sorted, intervals);
    forall b ensures Cover(sorted, b) == Cover(intervals, b) {
      CoverPermutation(sorted, intervals, b);
    }
    assert Tiles(sorted, extent) <==> Tiles(intervals, extent) by {
      SameElements(intervals, sorted);
    }
    SweepExact(sorted, extent);
    var coveredUntil := 0;
    for i := 0 to |sorted|
      invariant Chained(sorted, 0, extent) <==> Chained(sorted[i..], coveredUntil, extent)
    {
      if sorted[i].start != coveredUntil {
        return false;
      }
      coveredUntil := sorted[i].end;
      assert sorted[i..][1..] == sorted[i + 1..];
    }
    ok := coveredUntil == extent;
  }

  /** Sweeping a sorted list accepts exactly when it tiles. */
  lemma SweepExact(sorted: seq<Interval>, extent: int)
    requires Positive(sorted) && Sorted(sorted) && 0 <= extent
    ensures Chained(sorted, 0, extent) <==> Tiles(sorted, extent)
  {
    if Chained(sorted, 0, extent) {
      ChainedTiles(sorted, 0, extent);
    }
    if Tiles(sorted, extent) {
      TilesChained(sorted, 0, extent);
    }
  }

  lemma SameElements(s: seq<Interval>, t: seq<Interval>)
    requires multiset(s) == multiset(t)
    ensures forall i | 0 <= i < |s| :: s[i] in t
  {
    forall i | 0 <= i < |s| ensures s[i] in t {
      assert s[i] in multiset(s);
    }
  }
}
