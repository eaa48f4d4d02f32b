/**
  The load plan of a remote read (tpu_sync/core/kv_cache_manager_with_transfer.cc):
  blocks are pulled in remote order into staging blocks and uploaded in device
  order, coalesced into runs.  The theorem at the end says what the two phases
  leave on the device.
 */
module LoadPlan {
  import opened TransferTypes
  import opened CopySpecs

  // ------------------------------------------------------------ staging blocks

  /** How many distinct ids occur among the first `n`. */
  function Distinct(ids: seq<int>, n: nat): nat
    requires n <= |ids|
  {
    if n == 0 then 0 else Distinct(ids, n - 1) + if ids[n - 1] in ids[..n - 1] then 0 else 1
  }

  /** Two positions share a staging block exactly when they share a device block. */
  ghost predicate Mirrors(host: seq<int>, local: seq<int>) {
    |host| == |local| && forall i, j | 0 <= i < |local| && 0 <= j < |local| ::
        host[i] == host[j] <==> local[i] == local[j]
  }

  ghost predicate NoRepeats(s: seq<int>) {
    forall i, j | 0 <= i < j < |s| :: s[i] != s[j]
  }

  /** The map after `n` positions: every id so far, in first-seen order, to the slot's blocks. */
  ghost predicate Assigned(m: map<int, int>, local: seq<int>, n: nat, slot: seq<int>, used: nat)
    requires n <= |local| && used <= |slot|
  {
    && (forall x :: x in m <==> x in local[..n])
    && (forall x | x in m :: m[x] in slot[..used])
    && (forall x, y | x in m && y in m && m[x] == m[y] :: x == y)
  }

  method CountDistinct(local: seq<int>) returns (n: nat)
    ensures n == Distinct(local, |local|) == |set x | x in local|
  {
    var unique: set<int> := {};
    for i := 0 to |local|
      invariant |unique| == Distinct(local, i) && forall x :: x in unique <==> x in local[..i]
    {
      assert local[..i + 1] == local[..i] + [local[i]];
      DistinctStep(local, i);
      var id := local[i];
      assert id in unique <==> id in local[..i];
      if id in unique {
        assert unique + {id} == unique;
      }
      unique := unique + {id};
    }
    assert local[..|local|] == local;
    ghost var all := set x | x in local;
    forall x ensures x in unique <==> x in all {
      assert x in unique <==> x in local[..|local|];
    }
    assert unique == all;
    n := |unique|;
  }

  /** Borrows the slot's blocks for the device blocks of the read, or fails if they are too many. */
  method AssignStaging(local: seq<int>, free: Option<seq<int>>, maxBlocks: int) returns (host: Option<seq<int>>)
    requires free.Some? ==> NoRepeats(free.value) && |free.value| == maxBlocks
    ensures host.None? <==> local != [] && (free.None? || |set x | x in local| > maxBlocks)
    ensures host.Some? ==> Mirrors(host.value, local) && forall i | 0 <= i < |local| :: host.value[i] in free.value
  {
    if local == [] {
      return Some([]);
    }
    var n := CountDistinct(local);
    if n > maxBlocks || free.None? {
      return None;
    }
    var slot := free.value;
    var m: map<int, int> := map[];
    var used := 0;
    var blocks: seq<int> := [];
    for i := 0 to |local|
      invariant used == Distinct(local, i) && used <= |slot| && |blocks| == i
      invariant Assigned(m, local, i, slot, used)
      invariant forall k | 0 <= k < i :: local[k] in m && blocks[k] == m[local[k]]
    {
      assert local[..i + 1] == local[..i] + [local[i]];
      DistinctGrows(local, i, |local|);
      DistinctStep(local, i);
      var id := local[i];
      assert id in m <==> id in local[..i];
      if id !in m {
        DistinctGrows(local, i + 1, |local|);
        NewBlock(m, local, i, slot, used);
        m := m[id := slot[used]];
        blocks := blocks + [slot[used]];
        used := used + 1;
      } else {
        blocks := blocks + [m[id]];
      }
    }
    assert slot[..used] <= slot;
    host := Some(blocks);
  }

  lemma DistinctStep(ids: seq<int>, n: nat)
    requires n < |ids|
    ensures Distinct(ids, n + 1) == Distinct(ids, n) + if ids[n] in ids[..n] then 0 else 1
  {
  }

  lemma {:induction false} DistinctGrows(ids: seq<int>, m: nat, n: nat)
    requires m <= n <= |ids|
    ensures Distinct(ids, m) <= Distinct(ids, n)
    decreases n
  {
    if m < n {
      DistinctGrows(ids, m, n - 1);
    }
  }

  lemma NewBlock(m: map<int, int>, local: seq<int>, i: nat, slot: seq<int>, used: nat)
    requires NoRepeats(slot) && i < |local| && used < |slot| && Assigned(m, local, i, slot, used) && local[i] !in m
    ensures Assigned(m[local[i] := slot[used]], local, i + 1, slot, used + 1)
  {
    assert local[..i + 1] == local[..i] + [local[i]];
    assert slot[..used + 1] == slot[..used] + [slot[used]];
    forall x | x in m ensures m[x] != slot[used] {
      var k :| 0 <= k < used && slot[..used][k] == m[x];
    }
  }

  // ------------------------------------------------------------------ stable order

  /** The positions by ascending key, ties in original order. */
  ghost predicate StableOrder(order: seq<nat>, keys: seq<int>, n: nat)
    requires n <= |keys|
  {
    && |order| == n && (forall i | 0 <= i < n :: order[i] < n) && (forall k | 0 <= k < n :: k in order)
    && (forall i, j | 0 <= i < j < n :: Before(keys, order[i], order[j]))
  }

  predicate Before(keys: seq<int>, a: nat, b: nat)
    requires a < |keys|
    requires b < |keys|
  {
    keys[a] < keys[b] || (keys[a] == keys[b] && a < b)
  }

  lemma OrderSides(order: seq<nat>, keys: seq<int>, n: nat, i: nat, u: nat)
    requires n < |keys| && StableOrder(order, keys, n) && i <= n && u < n
    requires i > 0 ==> keys[order[i - 1]] <= keys[n]
    requires i < n ==> keys[n] < keys[order[i]]
    ensures if u < i then Before(keys, order[u], n) else Before(keys, n, order[u])
  {
    assert u < i - 1 ==> Before(keys, order[u], order[i - 1]);
    assert u > i ==> Before(keys, order[i], order[u]);
  }

  lemma InsertedAll(order: seq<nat>, n: nat, i: nat)
    requires |order| == n && i <= n && forall k | 0 <= k < n :: k in order
    ensures forall k | 0 <= k < n + 1 :: k in order[..i] + [n] + order[i..]
  {
    assert order == order[..i] + order[i..];
    forall k | 0 <= k < n + 1 ensures k in order[..i] + [n] + order[i..] {
      if k < n {
        assert k in order[..i] + order[i..];
      }
    }
  }

  lemma InsertedOrder(order: seq<nat>, keys: seq<int>, n: nat, i: nat)
    requires n < |keys| && StableOrder(order, keys, n) && i <= n
    requires i > 0 ==> keys[order[i - 1]] <= keys[n]
    requires i < n ==> keys[n] < keys[order[i]]
    ensures StableOrder(order[..i] + [n] + order[i..], keys, n + 1)
  {
    var out := order[..i] + [n] + order[i..];
    InsertedAll(order, n, i);
    assert forall a | 0 <= a < n + 1 :: out[a] == if a < i then order[a] else if a == i then n else order[a - 1];
    forall a, b | 0 <= a < b < n + 1 ensures Before(keys, out[a], out[b]) {
      if a == i {
        OrderSides(order, keys, n, i, b - 1);
      } else if b == i {
        OrderSides(order, keys, n, i, a);
      }
    }
  }

  method StableSortIndices(keys: seq<int>) returns (order: seq<nat>)
    ensures StableOrder(order, keys, |keys|)
  {
    order := [];
    for n := 0 to |keys|
      invariant StableOrder(order, keys, n)
    {
      var i := n;
      while i > 0 && keys[n] < keys[order[i - 1]]
        invariant 0 <= i <= n && (i < n ==> keys[n] < keys[order[i]])
      {
        i := i - 1;
      }
      InsertedOrder(order, keys, n, i);
      order := order[..i] + [n] + order[i..];
    }
  }

  // ---------------------------------------------------------------------- plan

  datatype CopyPlan = CopyPlan(
    producerRemote: seq<int>, transportHost: seq<int>, uploadLocal: seq<int>, uploadHost: seq<int>,
        uploadCopy: seq<Run>)

  function Pick(ids: seq<int>, order: seq<nat>): seq<int>
    requires forall i | 0 <= i < |order| :: order[i] < |ids|
  {
    seq(|order|, i requires 0 <= i < |order| => ids[order[i]])
  }

  /** Equal device blocks are staged in equal host blocks. */
  ghost predicate Consistent(local: seq<int>, host: seq<int>)
    requires |local| == |host|
  {
    forall i, j | 0 <= i < |local| && 0 <= j < |local| && local[i] == local[j] :: host[i] == host[j]
  }

  ghost predicate Listed(upHost: seq<int>, upLocal: seq<int>, h: int, l: int)
    requires |upHost| == |upLocal|
  {
    exists k :: 0 <= k < |upLocal| && upHost[k] == h && upLocal[k] == l
  }

  /** The pair belongs to one of the given positions. */
  ghost predicate Requested(host: seq<int>, local: seq<int>, order: seq<nat>, h: int, l: int)
    requires |host| == |local| && InRange(order, |local|)
  {
    exists j :: 0 <= j < |order| && host[order[j]] == h && local[order[j]] == l
  }

  ghost predicate InRange(order: seq<nat>, n: nat) {
    forall j | 0 <= j < |order| :: order[j] < n
  }

  /**
    The upload lists name each device block of the given positions once, in ascending order, with
    its staging block.
   */
  ghost predicate Uploads(upHost: seq<int>, upLocal: seq<int>, host: seq<int>, local: seq<int>, order: seq<nat>)
    requires |host| == |local| && InRange(order, |local|)
  {
    && |upHost| == |upLocal|
    && (forall a, b | 0 <= a < b < |upLocal| :: upLocal[a] < upLocal[b])
    && (forall k | 0 <= k < |upLocal| :: Requested(host, local, order, upHost[k], upLocal[k]))
    && (forall j | 0 <= j < |order| :: Listed(upHost, upLocal, host[order[j]], local[order[j]]))
  }

  lemma RequestedMore(host: seq<int>, local: seq<int>, order: seq<nat>, o: nat, h: int, l: int)
    requires |host| == |local| && InRange(order, |local|) && o < |local|
    ensures InRange(order + [o], |local|)
    ensures Requested(host, local, order, h, l) ==> Requested(host, local, order + [o], h, l)
    ensures Requested(host, local, order + [o], host[o], local[o])
  {
    var more := order + [o];
    if Requested(host, local, order, h, l) {
      var j :| 0 <= j < |order| && host[order[j]] == h && local[order[j]] == l;
      assert more[j] == order[j];
    }
    assert more[|order|] == o;
  }

  lemma ListedMore(upHost: seq<int>, upLocal: seq<int>, x: int, y: int, h: int, l: int)
    requires |upHost| == |upLocal|
    ensures Listed(upHost, upLocal, h, l) ==> Listed(upHost + [x], upLocal + [y], h, l)
    ensures Listed(upHost + [x], upLocal + [y], x, y)
  {
    var hs, ls := upHost + [x], upLocal + [y];
    if Listed(upHost, upLocal, h, l) {
      var k :| 0 <= k < |upLocal| && upHost[k] == h && upLocal[k] == l;
      assert hs[k] == h && ls[k] == l;
    }
    assert hs[|upHost|] == x && ls[|upHost|] == y;
  }

  lemma UploadNew(upHost: seq<int>, upLocal: seq<int>, host: seq<int>, local: seq<int>, order: seq<nat>, o: nat)
    requires |host| == |local| && InRange(order, |local|) && o < |local| && Uploads(upHost, upLocal, host, local, order)
    requires upLocal != [] ==> upLocal[|upLocal| - 1] < local[o]
    ensures InRange(order + [o], |local|) && Uploads(upHost + [host[o]], upLocal + [local[o]], host, local, order + [o])
  {
    var hs, ls, more := upHost + [host[o]], upLocal + [local[o]], order + [o];
    RequestedMore(host, local, order, o, 0, 0);
    forall k | 0 <= k < |ls| ensures Requested(host, local, more, hs[k], ls[k]) {
      RequestedMore(host, local, order, o, hs[k], ls[k]);
    }
    forall j | 0 <= j < |more| ensures Listed(hs, ls, host[more[j]], local[more[j]]) {
      ListedMore(upHost, upLocal, host[o], local[o], host[more[j]], local[more[j]]);
      assert j < |order| ==> more[j] == order[j];
    }
  }

  lemma UploadSame(upHost: seq<int>, upLocal: seq<int>, host: seq<int>, local: seq<int>, order: seq<nat>, o: nat)
    requires |host| == |local| && InRange(order, |local|) && o < |local| && Uploads(upHost, upLocal, host, local, order)
    requires upLocal != [] && upLocal[|upLocal| - 1] == local[o] && upHost[|upLocal| - 1] == host[o]
    ensures InRange(order + [o], |local|) && Uploads(upHost, upLocal, host, local, order + [o])
  {
    var more := order + [o];
    RequestedMore(host, local, order, o, 0, 0);
    forall k | 0 <= k < |upLocal| ensures Requested(host, local, more, upHost[k], upLocal[k]) {
      RequestedMore(host, local, order, o, upHost[k], upLocal[k]);
    }
    forall j | 0 <= j < |more| ensures Listed(upHost, upLocal, host[more[j]], local[more[j]]) {
      assert j < |order| ==> more[j] == order[j];
    }
  }

  /** Complete upload lists exist only if equal device blocks are staged alike. */
  lemma UploadsConsistent(upHost: seq<int>, upLocal: seq<int>, host: seq<int>, local: seq<int>, order: seq<nat>)
    requires |host| == |local| && StableOrder(order, local, |local|) && Uploads(upHost, upLocal, host, local, order)
    ensures Consistent(local, host)
  {
    forall i, j | 0 <= i < |local| && 0 <= j < |local| && local[i] == local[j] ensures host[i] == host[j] {
      assert i in order && j in order;
      var a :| 0 <= a < |order| && order[a] == i;
      var b :| 0 <= b < |order| && order[b] == j;
      assert Listed(upHost, upLocal, host[order[a]], local[order[a]])
             && Listed(upHost, upLocal, host[order[b]], local[order[b]]);
      var k :| 0 <= k < |upLocal| && upHost[k] == host[i] && upLocal[k] == local[i];
      var m :| 0 <= m < |upLocal| && upHost[m] == host[j] && upLocal[m] == local[j];
    }
  }

  lemma Conflict(upHost: seq<int>, upLocal: seq<int>, host: seq<int>, local: seq<int>, order: seq<nat>, o: nat)
    requires |host| == |local| && InRange(order, |local|) && o < |local| && Uploads(upHost, upLocal, host, local, order)
    requires upLocal != [] && upLocal[|upLocal| - 1] == local[o] && upHost[|upLocal| - 1] != host[o]
    ensures !Consistent(local, host)
  {
    assert Requested(host, local, order, upHost[|upLocal| - 1], upLocal[|upLocal| - 1]);
    var j :| 0 <= j < |order| && host[order[j]] == upHost[|upLocal| - 1] && local[order[j]] == upLocal[|upLocal| - 1];
    assert local[order[j]] == local[o] && host[order[j]] != host[o];
  }

  ghost predicate Ascends(order: seq<nat>, keys: seq<int>) {
    InRange(order, |keys|) && forall i | 0 < i < |order| :: keys[order[i - 1]] <= keys[order[i]]
  }

  lemma StableAscends(order: seq<nat>, keys: seq<int>)
    requires StableOrder(order, keys, |keys|)
    ensures Ascends(order, keys)
  {
    forall i | 0 < i < |order| ensures keys[order[i - 1]] <= keys[order[i]] {
      assert Before(keys, order[i - 1], order[i]);
    }
  }

  /** The lists after the positions `done`, the last of which they end with. */
  ghost predicate Progress(upHost: seq<int>, upLocal: seq<int>, host: seq<int>, local: seq<int>, done: seq<nat>)
    requires |host| == |local|
  {
    && InRange(done, |local|) && Uploads(upHost, upLocal, host, local, done)
    && if done == [] then upLocal == [] else upLocal != [] && upLocal[|upLocal| - 1] == local[done[|done| - 1]]
  }

  method AddUpload(upHost: seq<int>, upLocal: seq<int>, host: seq<int>, local: seq<int>, ghost done: seq<nat>, o: nat)
    returns (ok: bool, hs: seq<int>, ls: seq<int>)
    requires |host| == |local| && Progress(upHost, upLocal, host, local, done) && o < |local|
    requires done != [] ==> local[done[|done| - 1]] <= local[o]
    ensures ok ==> Progress(hs, ls, host, local, done + [o])
    ensures !ok ==> !Consistent(local, host)
  {
    hs, ls, ok := upHost, upLocal, true;
    if upLocal == [] || upLocal[|upLocal| - 1] != local[o] {
      UploadNew(upHost, upLocal, host, local, done, o);
      hs, ls := upHost + [host[o]], upLocal + [local[o]];
    } else if upHost[|upHost| - 1] != host[o] {
      Conflict(upHost, upLocal, host, local, done, o);
      ok := false;
    } else {
      UploadSame(upHost, upLocal, host, local, done, o);
    }
  }

  /** The device-ordered upload lists, refused when one device block has two staging blocks. */
  method ListUploads(local: seq<int>, host: seq<int>, order: seq<nat>)
      returns (ok: bool, upHost: seq<int>, upLocal: seq<int>)
    requires |local| == |host| && Ascends(order, local)
    ensures ok ==> Uploads(upHost, upLocal, host, local, order)
    ensures !ok ==> !Consistent(local, host)
  {
    upHost, upLocal, ok := [], [], true;
    for i := 0 to |order|
      invariant Progress(upHost, upLocal, host, local, order[..i])
    {
      assert order[..i + 1] == order[..i] + [order[i]];
      ok, upHost, upLocal := AddUpload(upHost, upLocal, host, local, order[..i], order[i]);
      if !ok {
        return;
      }
    }
    assert order[..|order|] == order;
    ok := true;
  }

  /** What a built plan is: pulls in remote order, uploads in device order as maximal runs. */
  ghost predicate PlanOk(plan: CopyPlan, remote: seq<int>, local: seq<int>, host: seq<int>) {
    && |remote| == |local| == |host|
    && (exists order ::
          && StableOrder(order, remote, |remote|)
          && plan.producerRemote == Pick(remote, order) && plan.transportHost == Pick(host, order))
    && (exists order ::
          StableOrder(order, local, |local|) && Uploads(plan.uploadHost, plan.uploadLocal, host, local, order))
    && |plan.producerRemote| == |plan.transportHost| && |plan.uploadHost| == |plan.uploadLocal|
    && plan.uploadCopy == Coalesced(Singles(Zip(plan.uploadHost, plan.uploadLocal)))
  }

  method BuildLoadCopyPlan(remote: seq<int>, local: seq<int>, host: seq<int>) returns (plan: Option<CopyPlan>)
    ensures plan.Some? <==> |remote| == |local| == |host| && Consistent(local, host)
    ensures plan.Some? ==> PlanOk(plan.value, remote, local, host)
  {
    if |remote| != |local| || |local| != |host| {
      return None;
    }
    var remoteOrder := StableSortIndices(remote);
    var producer: seq<int>, transport: seq<int> := [], [];
    for i := 0 to |remoteOrder|
      invariant producer == Pick(remote, remoteOrder)[..i] && transport == Pick(host, remoteOrder)[..i]
    {
      producer := producer + [remote[remoteOrder[i]]];
      transport := transport + [host[remoteOrder[i]]];
    }
    assert producer == Pick(remote, remoteOrder) && transport == Pick(host, remoteOrder);
    var localOrder := StableSortIndices(local);
    StableAscends(localOrder, local);
    var ok, upHost, upLocal := ListUploads(local, host, localOrder);
    if !ok {
      return None;
    }
    UploadsConsistent(upHost, upLocal, host, local, localOrder);
    var copy := BuildCoalescedCopySpec(upHost, upLocal);
    plan := Some(CopyPlan(producer, transport, upLocal, upHost, copy.value));
  }

  // ------------------------------------------------------------------- meaning

  /** The bytes of one block. */
  type Content = seq<int>

  type Memory = int -> Content

  /** Copies in order; a later copy to the same block wins. */
  ghost function Apply(to: Memory, from: Memory, pairs: seq<Pair>): Memory {
    if pairs == [] then to
    else
      var before, p := Apply(to, from, pairs[..|pairs| - 1]), pairs[|pairs| - 1];
      x => if x == p.dst then from(p.src) else before(x)
  }

  /** Every copy to block `x` carries the value `v`. */
  ghost predicate Carries(from: Memory, pairs: seq<Pair>, x: int, v: Content) {
    forall p | p in pairs && p.dst == x :: from(p.src) == v
  }

  lemma {:induction false} ApplyExact(to: Memory, from: Memory, pairs: seq<Pair>, x: int, v: Content)
    requires Carries(from, pairs, x, v)
    ensures (exists p :: p in pairs && p.dst == x) ==> Apply(to, from, pairs)(x) == v
    ensures !(exists p :: p in pairs && p.dst == x) ==> Apply(to, from, pairs)(x) == to(x)
  {
    if pairs != [] {
      var n := |pairs| - 1;
      assert pairs == pairs[..n] + [pairs[n]];
      ApplyExact(to, from, pairs[..n], x, v);
      assert pairs[n] in pairs;
    }
  }

  /** The pulls name exactly the requested (remote, staging) pairs. */
  lemma PullPairs(remote: seq<int>, host: seq<int>, order: seq<nat>, p: Pair)
    requires |remote| == |host| && StableOrder(order, remote, |remote|)
    ensures p in Zip(Pick(remote, order), Pick(host, order))
            <==> exists i :: 0 <= i < |remote| && p == Pair(remote[i], host[i])
  {
    var pulls := Zip(Pick(remote, order), Pick(host, order));
    if p in pulls {
      var k :| 0 <= k < |pulls| && pulls[k] == p;
      assert p == Pair(remote[order[k]], host[order[k]]);
    }
    if exists i :: 0 <= i < |remote| && p == Pair(remote[i], host[i]) {
      var i :| 0 <= i < |remote| && p == Pair(remote[i], host[i]);
      assert i in order;
      var k :| 0 <= k < |order| && order[k] == i;
      assert pulls[k] == p;
    }
  }

  /** The uploads name exactly the requested (staging, device) pairs. */
  lemma UploadPairs(plan: CopyPlan, remote: seq<int>, local: seq<int>, host: seq<int>, p: Pair)
    requires PlanOk(plan, remote, local, host)
    ensures p in Expand(plan.uploadCopy) <==> exists i :: 0 <= i < |local| && p == Pair(host[i], local[i])
  {
    BuiltSpec(Zip(plan.uploadHost, plan.uploadLocal));
    var order :| StableOrder(order, local, |local|) && Uploads(plan.uploadHost, plan.uploadLocal, host, local, order);
    ListedPairs(plan.uploadHost, plan.uploadLocal, local, host, order, p);
  }

  lemma ListedPairs(upHost: seq<int>, upLocal: seq<int>, local: seq<int>, host: seq<int>, order: seq<nat>, p: Pair)
    requires |host| == |local| && StableOrder(order, local, |local|) && Uploads(upHost, upLocal, host, local, order)
    ensures p in Zip(upHost, upLocal) <==> exists i :: 0 <= i < |local| && p == Pair(host[i], local[i])
  {
    var pairs := Zip(upHost, upLocal);
    if p in pairs {
      var k :| 0 <= k < |pairs| && pairs[k] == p;
      assert Requested(host, local, order, upHost[k], upLocal[k]);
    }
    if exists i :: 0 <= i < |local| && p == Pair(host[i], local[i]) {
      var i :| 0 <= i < |local| && p == Pair(host[i], local[i]);
      assert i in order;
      var j :| 0 <= j < |order| && order[j] == i;
      assert Listed(upHost, upLocal, host[order[j]], local[order[j]]);
      var k :| 0 <= k < |upLocal| && upHost[k] == host[i] && upLocal[k] == local[i];
      assert pairs[k] == p;
    }
  }

  /** The pulls may arrive in any order, and any of them more than once. */
  ghost predicate AnyOrder(plan: CopyPlan, pulls: seq<Pair>)
    requires |plan.producerRemote| == |plan.transportHost|
  {
    forall p :: p in pulls <==> p in Zip(plan.producerRemote, plan.transportHost)
  }

  /** Positions that share a staging block ask for the same remote block. */
  ghost predicate Agree(host: seq<int>, remote: seq<int>) {
    |host| == |remote| && forall a, b | 0 <= a < |host| && 0 <= b < |host| && host[a] == host[b] ::
        remote[a] == remote[b]
  }

  lemma Staged(plan: CopyPlan, remote: seq<int>, local: seq<int>, host: seq<int>, pulls: seq<Pair>, remoteMem: Memory,
               hostMem: Memory, i: nat)
    requires PlanOk(plan, remote, local, host) && Agree(host, remote) && i < |local| && AnyOrder(plan, pulls)
    ensures Apply(hostMem, remoteMem, pulls)(host[i]) == remoteMem(remote[i])
  {
    var order :| StableOrder(order, remote, |remote|) && plan.producerRemote == Pick(remote, order)
        && plan.transportHost == Pick(host, order);
    forall p | p in pulls && p.dst == host[i] ensures remoteMem(p.src) == remoteMem(remote[i]) {
      PullPairs(remote, host, order, p);
      var k :| 0 <= k < |remote| && p == Pair(remote[k], host[k]);
    }
    PullPairs(remote, host, order, Pair(remote[i], host[i]));
    assert Pair(remote[i], host[i]) in pulls;
    ApplyExact(hostMem, remoteMem, pulls, host[i], remoteMem(remote[i]));
  }

  /** The device memory after the pulls in this order and then the upload. */
  ghost function Loaded(plan: CopyPlan, pulls: seq<Pair>, remoteMem: Memory, hostMem: Memory,
                        deviceMem: Memory): Memory {
    Apply(deviceMem, Apply(hostMem, remoteMem, pulls), Expand(plan.uploadCopy))
  }

  /** A requested device block ends with what its staging block holds, another one as it was. */
  lemma Uploaded(plan: CopyPlan, remote: seq<int>, local: seq<int>, host: seq<int>, deviceMem: Memory, staged: Memory,
                 x: int)
    requires PlanOk(plan, remote, local, host) && Consistent(local, host)
    ensures var device := Apply(deviceMem, staged, Expand(plan.uploadCopy));
            && (forall i | 0 <= i < |local| && local[i] == x :: device(x) == staged(host[i]))
            && (x !in local ==> device(x) == deviceMem(x))
  {
    var ups := Expand(plan.uploadCopy);
    if x in local {
      var i :| 0 <= i < |local| && local[i] == x;
      forall p | p in ups && p.dst == x ensures staged(p.src) == staged(host[i]) {
        UploadPairs(plan, remote, local, host, p);
        var k :| 0 <= k < |local| && p == Pair(host[k], local[k]);
      }
      UploadPairs(plan, remote, local, host, Pair(host[i], local[i]));
      ApplyExact(deviceMem, staged, ups, x, staged(host[i]));
    } else {
      forall p | p in ups ensures p.dst != x {
        UploadPairs(plan, remote, local, host, p);
      }
      ApplyExact(deviceMem, staged, ups, x, deviceMem(x));
    }
  }

  /** Each requested device block has the remote block requested for it, and no other device block changed. */
  ghost predicate Delivers(plan: CopyPlan, remote: seq<int>, local: seq<int>, pulls: seq<Pair>,
                           remoteMem: Memory, hostMem: Memory, deviceMem: Memory)
    requires |remote| == |local|
  {
    var device := Loaded(plan, pulls, remoteMem, hostMem, deviceMem);
    && (forall i | 0 <= i < |local| :: device(local[i]) == remoteMem(remote[i]))
    && (forall x | x !in local :: device(x) == deviceMem(x))
  }

  /** Whatever order the pulls arrive in, a load delivers if its shared staging blocks agree. */
  lemma LoadDelivers(plan: CopyPlan, remote: seq<int>, local: seq<int>, host: seq<int>, pulls: seq<Pair>,
                     remoteMem: Memory, hostMem: Memory, deviceMem: Memory)
    requires PlanOk(plan, remote, local, host) && Consistent(local, host) && Agree(host, remote)
             && AnyOrder(plan, pulls)
    ensures Delivers(plan, remote, local, pulls, remoteMem, hostMem, deviceMem)
  {
    var staged := Apply(hostMem, remoteMem, pulls);
    forall i | 0 <= i < |local|
        ensures Apply(deviceMem, staged, Expand(plan.uploadCopy))(local[i]) == remoteMem(remote[i]) {
      Uploaded(plan, remote, local, host, deviceMem, staged, local[i]);
      Staged(plan, remote, local, host, pulls, remoteMem, hostMem, i);
    }
    forall x | x !in local ensures Apply(deviceMem, staged, Expand(plan.uploadCopy))(x) == deviceMem(x) {
      Uploaded(plan, remote, local, host, deviceMem, staged, x);
    }
  }

  /**
    Every load of an accepted plan delivers, whatever is in the memories and whatever order the
    pulls arrive in, if and only if positions that share a staging block ask for the same remote
    block.  Where two do not, a load from distinct remote blocks already fails in plan order.
   */
  lemma LoadDeliversIff(plan: CopyPlan, remote: seq<int>, local: seq<int>, host: seq<int>)
    requires PlanOk(plan, remote, local, host) && Consistent(local, host)
    ensures Agree(host, remote)
       <==> (forall pulls, remoteMem, hostMem, deviceMem | AnyOrder(plan, pulls) ::
               Delivers(plan, remote, local, pulls, remoteMem, hostMem, deviceMem))
    ensures !Agree(host, remote)
            ==> !Delivers(plan, remote, local, Zip(plan.producerRemote, plan.transportHost), Named, Named, Named)
  {
    if Agree(host, remote) {
      forall pulls, remoteMem, hostMem, deviceMem | AnyOrder(plan, pulls)
        ensures Delivers(plan, remote, local, pulls, remoteMem, hostMem, deviceMem)
      {
        LoadDelivers(plan, remote, local, host, pulls, remoteMem, hostMem, deviceMem);
      }
    } else {
      DisagreeingLoses(plan, remote, local, host);
    }
  }

  /** Device blocks 0 and 1 staged through one block, for remote blocks 1 and 2: accepted, and not delivered. */
  method SharedStagingLoses() returns (plan: Option<CopyPlan>)
    ensures plan.Some? && PlanOk(plan.value, [1, 2], [0, 1], [5, 5])
    ensures !Delivers(plan.value, [1, 2], [0, 1], Zip(plan.value.producerRemote, plan.value.transportHost),
                      Named, Named, Named)
  {
    var remote, local, host := [1, 2], [0, 1], [5, 5];
    assert Consistent(local, host);
    plan := BuildLoadCopyPlan(remote, local, host);
    assert host[0] == host[1] && remote[0] != remote[1];
    LoadDeliversIff(plan.value, remote, local, host);
  }

  /** A memory whose blocks all differ. */
  ghost function Named(x: int): Content {
    [x]
  }

  lemma DisagreeingLoses(plan: CopyPlan, remote: seq<int>, local: seq<int>, host: seq<int>)
    requires PlanOk(plan, remote, local, host) && Consistent(local, host) && !Agree(host, remote)
    ensures var pulls := Zip(plan.producerRemote, plan.transportHost);
            AnyOrder(plan, pulls) && !Delivers(plan, remote, local, pulls, Named, Named, Named)
  {
    var pulls := Zip(plan.producerRemote, plan.transportHost);
    var a, b :| 0 <= a < |host| && 0 <= b < |host| && host[a] == host[b] && remote[a] != remote[b];
    var staged := Apply(Named, Named, pulls);
    Uploaded(plan, remote, local, host, Named, staged, local[a]);
    Uploaded(plan, remote, local, host, Named, staged, local[b]);
    assert Named(remote[a])[0] != Named(remote[b])[0];
  }
}
