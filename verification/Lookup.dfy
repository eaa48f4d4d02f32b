/**
  The two-phase lookup of the host offload backend
  (tpu_sync/kv_cache/host_offload_backend.cc).  The backend's lock is dropped
  between the local sweep and the assembly of the answer, while the registry is
  asked about the holes.
 */
module Lookup {
  import opened TransferTypes

  type Hash = string

  datatype Status = Hbm | Host | HostAndHbm | RemoteBlock
  datatype Block = Block(owner: RaidenId, blockId: int, status: Status)

  /** A cache entry; an eviction candidate is kept but invisible to lookups. */
  datatype Node = Node(value: Block, pins: nat, candidate: bool)
  type Cache = map<Hash, Node>

  /** A pinned entry is never queued for eviction. */
  ghost predicate CacheOk(c: Cache) {
    forall h | h in c && c[h].pins > 0 :: !c[h].candidate
  }

  predicate Visible(c: Cache, h: Hash) {
    h in c && !c[h].candidate
  }

  function Count(c: Cache, h: Hash): nat {
    if h in c then c[h].pins else 0
  }

  function Pin(c: Cache, h: Hash): Cache {
    if h in c then c[h := c[h].(pins := c[h].pins + 1, candidate := false)] else c
  }

  function Unpin(c: Cache, h: Hash): Cache {
    if h in c && c[h].pins > 0 then c[h := c[h].(pins := c[h].pins - 1)] else c
  }

  /** The registry's record of a remote block. */
  datatype Meta = Meta(owner: RaidenId, blockId: int)

  datatype Slice = Slice(hash: Hash, block: Block)

  // ------------------------------------------------------------ hits and holes

  /** How many of the first `n` positions are local hits of `h`. */
  function Hits(hs: seq<Hash>, hits: seq<bool>, n: nat, h: Hash): nat
    requires n <= |hs| == |hits|
  {
    if n == 0 then 0 else Hits(hs, hits, n - 1, h) + if hits[n - 1] && hs[n - 1] == h then 1 else 0
  }

  /** How many of the first `n` positions are holes. */
  function HolesBefore(hits: seq<bool>, n: nat): nat
    requires n <= |hits|
  {
    if n == 0 then 0 else HolesBefore(hits, n - 1) + if hits[n - 1] then 0 else 1
  }

  /** The hashes at the first `n` positions that are not local hits, in order. */
  function Holes(hs: seq<Hash>, hits: seq<bool>, n: nat): seq<Hash>
    requires n <= |hs| == |hits|
  {
    if n == 0 then [] else if hits[n - 1] then Holes(hs, hits, n - 1) else Holes(hs, hits, n - 1) + [hs[n - 1]]
  }

  function PinHits(c: Cache, hs: seq<Hash>, hits: seq<bool>, n: nat): Cache
    requires n <= |hs| == |hits|
  {
    if n == 0 then c else if hits[n - 1] then Pin(PinHits(c, hs, hits, n - 1), hs[n - 1])
        else PinHits(c, hs, hits, n - 1)
  }

  /** Unpins the local hits from position `from` up to `n`. */
  function UnpinHits(c: Cache, hs: seq<Hash>, hits: seq<bool>, from: nat, n: nat): Cache
    requires from <= n <= |hs| == |hits|
  {
    if n == from then c
    else if hits[n - 1] then Unpin(UnpinHits(c, hs, hits, from, n - 1), hs[n - 1])
    else UnpinHits(c, hs, hits, from, n - 1)
  }

  lemma {:induction false} HolesLength(hs: seq<Hash>, hits: seq<bool>, n: nat)
    requires n <= |hs| == |hits|
    ensures |Holes(hs, hits, n)| == HolesBefore(hits, n)
  {
    if n > 0 {
      HolesLength(hs, hits, n - 1);
    }
  }

  /** The holes are listed in request order. */
  lemma {:induction false} HoleAt(hs: seq<Hash>, hits: seq<bool>, n: nat, i: nat)
    requires i < n <= |hs| == |hits| && !hits[i]
    ensures HolesBefore(hits, i) < |Holes(hs, hits, n)| && Holes(hs, hits, n)[HolesBefore(hits, i)] == hs[i]
    decreases n
  {
    HolesLength(hs, hits, n - 1);
    if i < n - 1 {
      HoleAt(hs, hits, n - 1, i);
    }
  }

  lemma {:induction false} PinHitsExact(c: Cache, hs: seq<Hash>, hits: seq<bool>, n: nat, h: Hash)
    requires n <= |hs| == |hits| && CacheOk(c) && forall i | 0 <= i < n && hits[i] :: Visible(c, hs[i])
    ensures CacheOk(PinHits(c, hs, hits, n))
    ensures h in PinHits(c, hs, hits, n) <==> h in c
    ensures h in c ==> PinHits(c, hs, hits, n)[h] == c[h].(pins := c[h].pins + Hits(hs, hits, n, h))
  {
    if n > 0 {
      PinHitsExact(c, hs, hits, n - 1, h);
      if hits[n - 1] && h != hs[n - 1] {
        PinHitsExact(c, hs, hits, n - 1, hs[n - 1]);
      }
    }
  }

  lemma {:induction false} UnpinHitsExact(c: Cache, hs: seq<Hash>, hits: seq<bool>, from: nat, n: nat, h: Hash)
    requires from <= n <= |hs| == |hits|
    requires Count(c, h) >= Hits(hs, hits, n, h) - Hits(hs, hits, from, h)
    ensures h in UnpinHits(c, hs, hits, from, n) <==> h in c
    ensures Hits(hs, hits, n, h) >= Hits(hs, hits, from, h)
    ensures h in c ==>
              var taken := Hits(hs, hits, n, h) - Hits(hs, hits, from, h);
              UnpinHits(c, hs, hits, from, n)[h] == c[h].(pins := c[h].pins - taken)
    decreases n
  {
    if n > from {
      UnpinHitsExact(c, hs, hits, from, n - 1, h);
    }
  }

  // ----------------------------------------------------------------- the answer

  /** What position `i` of the request can be answered with, or nothing. */
  function SliceAt(c: Cache, hs: seq<Hash>, hits: seq<bool>, remote: seq<Meta>, self: RaidenId, i: nat): Option<Slice>
    requires i < |hs| == |hits|
  {
    if hits[i] then
      if Visible(c, hs[i]) then Some(Slice(hs[i], c[hs[i]].value)) else None
    else
      var k := HolesBefore(hits, i);
      if k < |remote| && remote[k].owner != self then
        Some(Slice(hs[i], Block(remote[k].owner, remote[k].blockId, RemoteBlock)))
      else None
  }

  /** The longest answered prefix. */
  ghost predicate IsAnswer(c: Cache, hs: seq<Hash>, hits: seq<bool>, remote: seq<Meta>, self: RaidenId, r: seq<Slice>)
    requires |hs| == |hits|
  {
    && |r| <= |hs|
    && (forall i | 0 <= i < |r| :: SliceAt(c, hs, hits, remote, self, i) == Some(r[i]))
    && (|r| < |hs| ==> SliceAt(c, hs, hits, remote, self, |r|) == None)
  }

  /** The holes of the request before position `i`. */
  function HolesUpTo(hits: seq<bool>, i: nat): set<nat> {
    set j: nat | j < i && j < |hits| && !hits[j]
  }

  /**
    Nobody can answer position `i`: a local hit that has left the cache or is queued for
    eviction, or a hole past the end of the registry's answers or that the registry says is here.
   */
  ghost predicate Unanswerable(c: Cache, hs: seq<Hash>, hits: seq<bool>, remote: seq<Meta>, self: RaidenId, i: nat)
    requires i < |hs| == |hits|
  {
    if hits[i] then hs[i] !in c || c[hs[i]].candidate
    else |HolesUpTo(hits, i)| >= |remote| || remote[|HolesUpTo(hits, i)|].owner == self
  }

  lemma {:induction false} HolesCounted(hits: seq<bool>, n: nat)
    requires n <= |hits|
    ensures HolesBefore(hits, n) == |HolesUpTo(hits, n)|
  {
    if n > 0 {
      HolesCounted(hits, n - 1);
      if hits[n - 1] {
        assert HolesUpTo(hits, n) == HolesUpTo(hits, n - 1);
      } else {
        assert HolesUpTo(hits, n) == HolesUpTo(hits, n - 1) + {n - 1};
      }
    } else {
      assert HolesUpTo(hits, 0) == {};
    }
  }

  /** An answer stops at the first position nobody can answer, and nowhere else. */
  lemma AnswerMaximal(c: Cache, hs: seq<Hash>, hits: seq<bool>, remote: seq<Meta>, self: RaidenId)
    requires |hs| == |hits|
    ensures forall i: nat | i < |hs| ::
              SliceAt(c, hs, hits, remote, self, i) == None <==> Unanswerable(c, hs, hits, remote, self, i)
  {
    forall i: nat | i < |hs|
      ensures SliceAt(c, hs, hits, remote, self, i) == None <==> Unanswerable(c, hs, hits, remote, self, i)
    {
      HolesCounted(hits, i);
    }
  }

  class Backend {
    var cache: Cache
    const self: RaidenId

    constructor (self: RaidenId)
      ensures cache == map[] && this.self == self
    {
      this.self, cache := self, map[];
    }

    /** The first locked section: which positions hit, and what the registry is to be asked. */
    method SweepLocal(hs: seq<Hash>, pinFound: bool, interleaved: bool) returns (hits: seq<bool>, missing: seq<Hash>)
      requires CacheOk(cache)
      modifies this
      ensures |hits| == |hs| && CacheOk(cache)
      ensures forall i | 0 <= i < |hs| ::
                (hits[i] <==> (&& hs[i] in old(cache) && !old(cache)[hs[i]].candidate
                               && (interleaved || forall j | 0 <= j < i :: Visible(old(cache), hs[j]))))
      ensures missing == Holes(hs, hits, |hs|)
      ensures cache == if pinFound then PinHits(old(cache), hs, hits, |hs|) else old(cache)
    {
      hits, missing := seq(|hs|, _ => false), [];
      for i := 0 to |hs|
        invariant |hits| == |hs| && forall j | i <= j < |hs| :: !hits[j]
        invariant forall j | 0 <= j < i :: hits[j] <==> Visible(old(cache), hs[j])
        invariant !interleaved ==> forall j | 0 <= j < i :: Visible(old(cache), hs[j])
        invariant missing == Holes(hs, hits, i)
        invariant cache == if pinFound then PinHits(old(cache), hs, hits, i) else old(cache)
      {
        ghost var before := hits;
        PinHitsExact(old(cache), hs, hits, i, hs[i]);
        assert Visible(cache, hs[i]) <==> Visible(old(cache), hs[i]);
        if Visible(cache, hs[i]) {
          if pinFound {
            cache := Pin(cache, hs[i]);
          }
          hits := hits[i := true];
          SamePrefix(old(cache), hs, before, hits, i);
        } else if !interleaved {
          missing := hs[i..];
          AllHoles(hs, hits, i, |hs|);
          AllMissed(old(cache), hs, hits, i, |hs|);
          PinHitsExact(old(cache), hs, hits, |hs|, hs[i]);
          assert hs[i..|hs|] == hs[i..];
          return;
        } else {
          missing := missing + [hs[i]];
        }
      }
      PinHitsOk(old(cache), hs, hits);
    }

    /** The second locked section: the answer, and the pins past its end handed back. */
    method Assemble(hs: seq<Hash>, hits: seq<bool>, remote: seq<Meta>, pinFound: bool) returns (r: seq<Slice>)
      requires |hits| == |hs|
      modifies this
      ensures IsAnswer(old(cache), hs, hits, remote, self, r)
      ensures |r| < |hs| ==> Unanswerable(old(cache), hs, hits, remote, self, |r|)
      ensures forall i | 0 <= i < |r| :: !Unanswerable(old(cache), hs, hits, remote, self, i)
      ensures cache == if pinFound then UnpinHits(old(cache), hs, hits, |r|, |hs|) else old(cache)
    {
      AnswerMaximal(cache, hs, hits, remote, self);
      r := [];
      var next := 0;
      for i := 0 to |hs|
        invariant |r| == i && next == HolesBefore(hits, i)
        invariant forall j | 0 <= j < i :: SliceAt(cache, hs, hits, remote, self, j) == Some(r[j])
      {
        if hits[i] {
          if !Visible(cache, hs[i]) {
            break;
          }
          r := r + [Slice(hs[i], cache[hs[i]].value)];
          continue;
        }
        if next >= |remote| {
          break;
        }
        var meta := remote[next];
        if meta.owner == self {
          break;
        }
        next := next + 1;
        r := r + [Slice(hs[i], Block(meta.owner, meta.blockId, RemoteBlock))];
      }
      if pinFound {
        for i := |r| to |hs|
          invariant cache == UnpinHits(old(cache), hs, hits, |r|, i)
        {
          if hits[i] {
            cache := Unpin(cache, hs[i]);
          }
        }
      }
    }
  }

  lemma {:induction false} SamePrefix(c: Cache, hs: seq<Hash>, a: seq<bool>, b: seq<bool>, n: nat)
    requires n <= |hs| == |a| == |b| && forall i | 0 <= i < n :: a[i] == b[i]
    ensures Holes(hs, a, n) == Holes(hs, b, n) && PinHits(c, hs, a, n) == PinHits(c, hs, b, n)
  {
    if n > 0 {
      SamePrefix(c, hs, a, b, n - 1);
    }
  }

  lemma {:induction false} AllHoles(hs: seq<Hash>, hits: seq<bool>, i: nat, n: nat)
    requires i <= n <= |hs| == |hits| && (forall j | 0 <= j < i :: hits[j]) && (forall j | i <= j < n :: !hits[j])
    ensures Holes(hs, hits, n) == hs[i..n]
    decreases n
  {
    if n > i {
      AllHoles(hs, hits, i, n - 1);
      assert hs[i..n] == hs[i..n - 1] + [hs[n - 1]];
    } else if n > 0 {
      NoHoles(hs, hits, n);
    }
  }

  lemma {:induction false} NoHoles(hs: seq<Hash>, hits: seq<bool>, n: nat)
    requires n <= |hs| == |hits| && forall j | 0 <= j < n :: hits[j]
    ensures Holes(hs, hits, n) == []
  {
    if n > 0 {
      NoHoles(hs, hits, n - 1);
    }
  }

  lemma {:induction false} AllMissed(c: Cache, hs: seq<Hash>, hits: seq<bool>, i: nat, n: nat)
    requires i <= n <= |hs| == |hits| && forall j | i <= j < n :: !hits[j]
    ensures PinHits(c, hs, hits, n) == PinHits(c, hs, hits, i)
    decreases n
  {
    if n > i {
      AllMissed(c, hs, hits, i, n - 1);
    }
  }

  lemma PinHitsOk(c: Cache, hs: seq<Hash>, hits: seq<bool>)
    requires |hs| == |hits| && CacheOk(c) && forall i | 0 <= i < |hs| && hits[i] :: Visible(c, hs[i])
    ensures CacheOk(PinHits(c, hs, hits, |hs|))
  {
    PinHitsExact(c, hs, hits, |hs|, "");
  }

  /** `Hits` counts positions. */
  lemma {:induction false} HitsCounted(hs: seq<Hash>, hits: seq<bool>, n: nat, h: Hash)
    requires n <= |hs| == |hits|
    ensures Hits(hs, hits, n, h) == |set i: nat | i < n && hits[i] && hs[i] == h|
  {
    var all := set i: nat | i < n && hits[i] && hs[i] == h;
    if n == 0 {
      assert all == {};
    } else {
      HitsCounted(hs, hits, n - 1, h);
      var before := set i: nat | i < n - 1 && hits[i] && hs[i] == h;
      if hits[n - 1] && hs[n - 1] == h {
        assert all == before + {n - 1};
      } else {
        assert all == before;
      }
    }
  }

  // ---------------------------------------------------------------- theorems

  /**
    What other threads may do while the lock is dropped: anything that leaves this call's
    own pins in place and keeps pinned entries out of the eviction queue.
   */
  ghost predicate RespectsPins(mid: Cache, hs: seq<Hash>, hits: seq<bool>)
    requires |hs| == |hits|
  {
    CacheOk(mid) && forall h :: Count(mid, h) >= Hits(hs, hits, |hs|, h)
  }

  lemma {:induction false} HitCounts(hs: seq<Hash>, hits: seq<bool>, i: nat, n: nat)
    requires i < n <= |hs| == |hits| && hits[i]
    ensures Hits(hs, hits, n, hs[i]) > 0
    decreases n
  {
    if i < n - 1 {
      HitCounts(hs, hits, i, n - 1);
    }
  }

  /**
    The answer is a prefix of the request, and each remote slice is the registry's answer for the
    hash at its position.
   */
  lemma AnswerIsPrefix(c: Cache, hs: seq<Hash>, hits: seq<bool>, remote: seq<Meta>, self: RaidenId, r: seq<Slice>,
                       registry: map<Hash, Meta>)
    requires |hs| == |hits| && IsAnswer(c, hs, hits, remote, self, r)
    requires |remote| <= |Holes(hs, hits, |hs|)|
    requires forall k | 0 <= k < |remote| ::
             Holes(hs, hits, |hs|)[k] in registry && remote[k] == registry[Holes(hs, hits, |hs|)[k]]
    ensures |r| <= |hs| && forall i | 0 <= i < |r| :: r[i].hash == hs[i]
    ensures forall i | 0 <= i < |r| && hits[i] :: Visible(c, hs[i]) && r[i].block == c[hs[i]].value
    ensures forall i | 0 <= i < |r| && !hits[i] ::
              hs[i] in registry && registry[hs[i]].owner != self
              && r[i].block == Block(registry[hs[i]].owner, registry[hs[i]].blockId, RemoteBlock)
  {
    forall i | 0 <= i < |r|
      ensures r[i].hash == hs[i]
      ensures !hits[i] ==> hs[i] in registry && registry[hs[i]].owner != self
                           && r[i].block == Block(registry[hs[i]].owner, registry[hs[i]].blockId, RemoteBlock)
    {
      assert SliceAt(c, hs, hits, remote, self, i) == Some(r[i]);
      if !hits[i] {
        HoleAt(hs, hits, |hs|, i);
      }
    }
  }

  /**
    With pinning, whatever ran in between: each hash ends with the pins others hold on it plus
    one for each of its local-hit positions inside the returned prefix.
   */
  lemma PinsExact(mid: Cache, hs: seq<Hash>, hits: seq<bool>, remote: seq<Meta>, self: RaidenId, r: seq<Slice>, h: Hash)
    requires |hs| == |hits| && RespectsPins(mid, hs, hits) && IsAnswer(mid, hs, hits, remote, self, r)
    ensures var mine, kept := set i: nat | i < |hs| && hits[i] && hs[i] == h,
                              set i: nat | i < |r| && hits[i] && hs[i] == h;
            Count(UnpinHits(mid, hs, hits, |r|, |hs|), h) == Count(mid, h) - |mine| + |kept|
  {
    HitsCounted(hs, hits, |hs|, h);
    HitsCounted(hs, hits, |r|, h);
    HitsGrow(hs, hits, |r|, |hs|, h);
    UnpinHitsExact(mid, hs, hits, |r|, |hs|, h);
  }

  lemma {:induction false} HitsGrow(hs: seq<Hash>, hits: seq<bool>, i: nat, n: nat, h: Hash)
    requires i <= n <= |hs| == |hits|
    ensures Hits(hs, hits, i, h) <= Hits(hs, hits, n, h)
    decreases n
  {
    if i < n {
      HitsGrow(hs, hits, i, n - 1, h);
    }
  }

  /** With pinning, a local hit never ends the answer: it can only end at a hole. */
  lemma PinnedHitsStay(mid: Cache, hs: seq<Hash>, hits: seq<bool>, remote: seq<Meta>, self: RaidenId, r: seq<Slice>)
    requires |hs| == |hits| && RespectsPins(mid, hs, hits) && IsAnswer(mid, hs, hits, remote, self, r)
    ensures |r| < |hs| ==> !hits[|r|]
  {
    if |r| < |hs| && hits[|r|] {
      HitCounts(hs, hits, |r|, |hs|);
      assert Count(mid, hs[|r|]) > 0;
      assert Visible(mid, hs[|r|]);
      assert false;
    }
  }

  lemma AloneRespects(c: Cache, hs: seq<Hash>, hits: seq<bool>)
    requires |hs| == |hits| && CacheOk(c) && forall i | 0 <= i < |hs| && hits[i] :: Visible(c, hs[i])
    ensures RespectsPins(PinHits(c, hs, hits, |hs|), hs, hits)
  {
    var mid := PinHits(c, hs, hits, |hs|);
    PinHitsOk(c, hs, hits);
    forall x ensures Count(mid, x) >= Hits(hs, hits, |hs|, x) {
      PinHitsExact(c, hs, hits, |hs|, x);
      NoHits(c, hs, hits, |hs|, x);
    }
  }

  /**
    With nothing in between, every count rises by the hash's local hits in the answer and nothing
    else in the cache changes.
   */
  lemma LookupAlone(c: Cache, hs: seq<Hash>, hits: seq<bool>, n: nat, h: Hash)
    requires n <= |hs| == |hits| && CacheOk(c) && forall i | 0 <= i < |hs| && hits[i] :: Visible(c, hs[i])
    ensures var after := UnpinHits(PinHits(c, hs, hits, |hs|), hs, hits, n, |hs|);
            && (h in after <==> h in c)
            && (h in c ==> after[h] == c[h].(pins := c[h].pins + Hits(hs, hits, n, h)))
  {
    PinHitsExact(c, hs, hits, |hs|, h);
    NoHits(c, hs, hits, |hs|, h);
    HitsGrow(hs, hits, n, |hs|, h);
    UnpinHitsExact(PinHits(c, hs, hits, |hs|), hs, hits, n, |hs|, h);
  }

  /** The answer of a lookup that ran alone: it ends only at a hole, and it pins its own local hits and nothing else. */
  lemma AloneAnswer(c: Cache, hs: seq<Hash>, hits: seq<bool>, remote: seq<Meta>, self: RaidenId, r: seq<Slice>, h: Hash)
    requires |hs| == |hits| && CacheOk(c) && forall i | 0 <= i < |hs| && hits[i] :: Visible(c, hs[i])
    requires IsAnswer(PinHits(c, hs, hits, |hs|), hs, hits, remote, self, r)
    ensures |r| < |hs| ==> !hits[|r|]
    ensures Count(UnpinHits(PinHits(c, hs, hits, |hs|), hs, hits, |r|, |hs|), h) == Count(c, h) + Hits(hs, hits, |r|, h)
  {
    var mid := PinHits(c, hs, hits, |hs|);
    AloneRespects(c, hs, hits);
    PinnedHitsStay(mid, hs, hits, remote, self, r);
    PinsExact(mid, hs, hits, remote, self, r, h);
    HitsCounted(hs, hits, |hs|, h);
    HitsCounted(hs, hits, |r|, h);
    PinHitsExact(c, hs, hits, |hs|, h);
    NoHits(c, hs, hits, |hs|, h);
  }

  lemma {:induction false} NoHits(c: Cache, hs: seq<Hash>, hits: seq<bool>, n: nat, h: Hash)
    requires n <= |hs| == |hits| && (forall i | 0 <= i < n && hits[i] :: Visible(c, hs[i]))
    ensures h !in c ==> Hits(hs, hits, n, h) == 0
  {
    if n > 0 {
      NoHits(c, hs, hits, n - 1, h);
    }
  }
}
