/**
  The send side of a pool reshard
  (tpu_sync/core/kv_cache_manager_with_transfer.cc).  A send holds one
  completion slot per (pool, peer).  A pool with nothing to send gives its
  slots back at once; any other pool is staged and then pushed to the peers
  its group has entries for, and each push gives one slot back.
 */
module PoolReshardSend {
  import opened TransferTypes

  // ------------------------------------------------------ peers of a schedule

  function PeersOf(entries: seq<Entry>): set<string> {
    set i | 0 <= i < |entries| :: entries[i].dstPeer
  }

  predicate InGroup(e: Entry, group: int) {
    e.Group() == group
  }

  function GroupPeers(entries: seq<Entry>, group: int): set<string> {
    set i | 0 <= i < |entries| && InGroup(entries[i], group) :: entries[i].dstPeer
  }

  predicate Moves(e: Entry, group: int, peer: string, pair: (int, int)) {
    InGroup(e, group) && e.dstPeer == peer && (e.srcBlock as int, e.dstBlock as int) == pair
  }

  predicate Distinct<T(==)>(s: seq<T>) {
    forall i, j | 0 <= i < j < |s| :: s[i] != s[j]
  }

  /** The pairs a peer is pushed for one group, in order of first appearance. */
  function Pairs(entries: seq<Entry>, group: int, peer: string): seq<(int, int)> {
    if entries == [] then []
    else
      var e, before := entries[|entries| - 1], Pairs(entries[..|entries| - 1], group, peer);
      var pair := (e.srcBlock as int, e.dstBlock as int);
      if InGroup(e, group) && e.dstPeer == peer && pair !in before then before + [pair] else before
  }

  /** Each pair of the group's entries for the peer, exactly once. */
  lemma {:induction false} PairsExact(entries: seq<Entry>, group: int, peer: string)
    ensures Distinct(Pairs(entries, group, peer))
    ensures forall pair :: pair in Pairs(entries, group, peer) <==> exists i ::
            0 <= i < |entries| && Moves(entries[i], group, peer, pair)
    ensures Pairs(entries, group, peer) != [] <==> peer in GroupPeers(entries, group)
  {
    if entries != [] {
      var n := |entries| - 1;
      var front, e := entries[..n], entries[n];
      PairsExact(front, group, peer);
      forall pair ensures (exists i :: 0 <= i < |entries| && Moves(entries[i], group, peer, pair))
        <==> (exists i :: 0 <= i < n && Moves(front[i], group, peer, pair)) || Moves(e, group, peer, pair) {
        if exists i :: 0 <= i < n && Moves(front[i], group, peer, pair) {
          var i :| 0 <= i < n && Moves(front[i], group, peer, pair);
          assert Moves(entries[i], group, peer, pair);
        }
        if exists i :: 0 <= i < |entries| && Moves(entries[i], group, peer, pair) {
          var i :| 0 <= i < |entries| && Moves(entries[i], group, peer, pair);
          assert i < n ==> Moves(front[i], group, peer, pair);
        }
      }
      GroupPeersStep(entries, n, group);
      assert entries[..n + 1] == entries;
    }
  }

  /** The pairs each peer is pushed: those of the pool's own group. */
  method TransfersByPeer(entries: seq<Entry>, group: int) returns (transfers: map<string, seq<(int, int)>>)
    ensures transfers.Keys == GroupPeers(entries, group)
    ensures forall p | p in transfers :: transfers[p] == Pairs(entries, group, p)
  {
    transfers := map[];
    for i := 0 to |entries|
      invariant transfers.Keys == GroupPeers(entries[..i], group)
      invariant forall p | p in transfers :: transfers[p] == Pairs(entries[..i], group, p)
    {
      var e := entries[i];
      GroupPeersStep(entries, i, group);
      assert entries[..i + 1][..i] == entries[..i];
      if InGroup(e, group) {
        var pair := (e.srcBlock as int, e.dstBlock as int);
        PairsExact(entries[..i], group, e.dstPeer);
        var known := if e.dstPeer in transfers then transfers[e.dstPeer] else [];
        if pair !in known {
          known := known + [pair];
        }
        transfers := transfers[e.dstPeer := known];
      }
    }
    assert entries[..|entries|] == entries;
  }

  lemma GroupPeersStep(entries: seq<Entry>, i: nat, group: int)
    requires i < |entries|
    ensures GroupPeers(entries[..i + 1], group)
         == GroupPeers(entries[..i], group) + if InGroup(entries[i], group) then {entries[i].dstPeer} else {}
  {
    var l, r := GroupPeers(entries[..i + 1], group), GroupPeers(entries[..i], group);
    forall x | x in l ensures x in r || (InGroup(entries[i], group) && x == entries[i].dstPeer) {
      var k :| 0 <= k < i + 1 && InGroup(entries[..i + 1][k], group) && entries[..i + 1][k].dstPeer == x;
      assert k < i ==> entries[..i][k] == entries[k];
    }
    forall x | x in r ensures x in l {
      var k :| 0 <= k < i && InGroup(entries[..i][k], group) && entries[..i][k].dstPeer == x;
      assert entries[..i + 1][k] == entries[k];
    }
    if InGroup(entries[i], group) {
      assert entries[..i + 1][i] == entries[i];
    }
  }

  // ------------------------------------------------------- the shared state

  datatype SendEntry = SendEntry(reqId: string, remaining: int, failed: bool, finalizing: bool)

  /** `FinishPoolReshardSend`, first section: the entry, and whether this call finalises it. */
  function FinishFirst(e: SendEntry, ok: bool): (SendEntry, bool) {
    if e.finalizing then (e, false)
    else if !ok then (e.(failed := true, finalizing := true), true)
    else if e.remaining - 1 == 0 then (e.(remaining := 0, finalizing := true), true)
    else (e.(remaining := e.remaining - 1), false)
  }

  datatype Core = Core(entry: Option<SendEntry>, inDone: bool, inFailed: bool)

  /** Second section, after the plan was unregistered: the entry may have timed out meanwhile. */
  function FinishSecond(c: Core, unregistered: bool): Core {
    if c.entry.None? then c
    else if c.entry.value.failed || !unregistered then Core(None, c.inDone, true)
    else Core(None, true, c.inFailed)
  }

  /** The send part of `CompleteReadRaw`: an expired send fails. */
  function Expire(c: Core, expired: bool): Core {
    if c.entry.Some? && expired then Core(None, c.inDone, true) else c
  }

  class Manager {
    var active: map<nat, SendEntry>
    var doneSending: set<string>
    var failedRecving: set<string>

    constructor ()
      ensures active == map[] && doneSending == {} && failedRecving == {}
    {
      active, doneSending, failedRecving := map[], {}, {};
    }

    function View(uuid: nat, reqId: string): Core
      reads this
    {
      Core(if uuid in active then Some(active[uuid]) else None, reqId in doneSending, reqId in failedRecving)
    }

    method Start(uuid: nat, reqId: string, pools: nat, peers: nat) returns (ok: bool)
      modifies this`active
      ensures ok <==> uuid !in old(active)
      ensures active == if ok then old(active)[uuid := SendEntry(reqId, pools * peers, false, false)] else old(active)
    {
      if uuid in active {
        return false;
      }
      active := active[uuid := SendEntry(reqId, pools * peers, false, false)];
      ok := true;
    }

    method FinishPoolReshardSendFirst(uuid: nat, ok: bool) returns (finished: bool)
      modifies this`active
      ensures uuid !in old(active) ==> !finished && active == old(active)
      ensures uuid in old(active) ==>
                (active, finished) == (old(active)[uuid := FinishFirst(old(active[uuid]), ok).0],
                                       FinishFirst(old(active[uuid]), ok).1)
    {
      finished := false;
      if uuid !in active {
        return;
      }
      var entry := active[uuid];
      if !entry.finalizing {
        if !ok {
          entry := entry.(failed := true, finalizing := true);
          finished := true;
        } else {
          entry := entry.(remaining := entry.remaining - 1);
          if entry.remaining == 0 {
            entry := entry.(finalizing := true);
            finished := true;
          }
        }
      }
      active := active[uuid := entry];
    }

    method FinishPoolReshardSendSecond(uuid: nat, ghost reqId: string, unregistered: bool)
      requires uuid in active ==> active[uuid].reqId == reqId
      modifies this
      ensures View(uuid, reqId) == FinishSecond(old(View(uuid, reqId)), unregistered)
      ensures forall u, r | u != uuid && r != reqId :: View(u, r) == old(View(u, r))
    {
      if uuid !in active {
        return;
      }
      var entry := active[uuid];
      if entry.failed || !unregistered {
        failedRecving := failedRecving + {entry.reqId};
      } else {
        doneSending := doneSending + {entry.reqId};
      }
      active := active - {uuid};
    }

    /** Expires sends past their deadline and drains the result sets. */
    method CompleteReadRaw(expired: set<nat>) returns (done: set<string>, failed: set<string>)
      modifies this
      ensures active == map u | u in old(active) && u !in expired :: old(active)[u]
      ensures done == old(doneSending)
      ensures failed == old(failedRecving) + ExpiredReqs(old(active), expired)
      ensures doneSending == {} && failedRecving == {}
    {
      var m := active;
      var todo, seen: set<nat> := m.Keys, {};
      done, failed := doneSending, failedRecving;
      while todo != {}
        invariant failedRecving == old(failedRecving) && doneSending == old(doneSending)
        invariant todo !! seen && todo + seen == m.Keys
        invariant failed == failedRecving + ExpiredReqs(m, expired * seen)
        decreases todo
      {
        var u :| u in todo;
        ExpiredStep(m, expired * seen, u);
        if u in expired {
          failed := failed + {m[u].reqId};
          assert expired * (seen + {u}) == expired * seen + {u};
        } else {
          assert expired * (seen + {u}) == expired * seen;
        }
        todo, seen := todo - {u}, seen + {u};
      }
      assert expired * seen == expired * m.Keys;
      ExpiredOnly(m, expired);
      assert failed == failedRecving + ExpiredReqs(m, expired);
      active := map u | u in m && u !in expired :: m[u];
      doneSending, failedRecving := {}, {};
    }
  }

  function ExpiredReqs(m: map<nat, SendEntry>, expired: set<nat>): set<string> {
    set u | u in expired && u in m :: m[u].reqId
  }

  lemma ExpiredStep(m: map<nat, SendEntry>, expired: set<nat>, u: nat)
    requires u in m
    ensures ExpiredReqs(m, expired + {u}) == ExpiredReqs(m, expired) + {m[u].reqId}
  {
    var l, r := ExpiredReqs(m, expired + {u}), ExpiredReqs(m, expired);
    forall x ensures x in l <==> x in r || x == m[u].reqId {
    }
  }

  lemma ExpiredOnly(m: map<nat, SendEntry>, expired: set<nat>)
    ensures ExpiredReqs(m, expired * m.Keys) == ExpiredReqs(m, expired)
  {
    var l, r := ExpiredReqs(m, expired * m.Keys), ExpiredReqs(m, expired);
    forall x ensures x in l <==> x in r {
    }
  }

  // ------------------------------------------------ one send, interleaved

  /** Where one pool of the send is. */
  datatype PoolState =
    | Waiting                  // the issuing loop has not reached it
    | Releasing(slots: nat)    // nothing to send: giving its slots back one by one
    | Staging                  // device-to-host copy in flight
    | Pushing(left: set<string>)  // pushes in flight
    | Over

  /**
    One send: `peers` are all peers of its schedule, `pools[i]` the peers that
    pool `i`'s group has entries for.  `next` is the issuing loop's position;
    the loop stops for good when a copy cannot be issued.  `clean` and `pushed`
    are history: no failure so far, and the pushes that succeeded.
   */
  datatype Send = Send(
    core: Core, peers: set<string>, pools: seq<set<string>>, states: seq<PoolState>, next: nat, stopped: bool,
    finisher: bool, clean: bool, pushed: set<(nat, string)>, reportedDone: nat, reportedFailed: nat)

  datatype Event =
    | Issue                       // the loop reaches the next pool
    | IssueFailed
    | ReleaseSlot(i: nat)
    | StageDone(i: nat, ok: bool, serverUp: bool)
    | PushDone(i: nat, peer: string, ok: bool)
    | FinishSection(unregistered: bool)
    | Poll(expired: bool)

  function Begin(reqId: string, peers: set<string>, pools: seq<set<string>>): Send {
    Send(Core(Some(SendEntry(reqId, |pools| * |peers|, false, false)), false, false), peers, pools,
         seq(|pools|, _ => Waiting), 0, false, false, true, {}, 0, 0)
  }

  predicate Enabled(s: Send, e: Event) {
    match e
    case Issue => !s.stopped && s.next < |s.pools| == |s.states| && !ReleasingBefore(s)
    case IssueFailed => !s.stopped && s.next < |s.pools| == |s.states| && s.pools[s.next] != {} && !ReleasingBefore(s)
    case ReleaseSlot(i) => i < |s.states| && s.states[i].Releasing? && s.states[i].slots > 0
    case StageDone(i, _, _) => i < |s.pools| == |s.states| && s.states[i].Staging?
    case PushDone(i, peer, _) => i < |s.states| && s.states[i].Pushing? && peer in s.states[i].left
    case FinishSection(_) => s.finisher
    case Poll(_) => true
  }

  /** The issuing loop gives back an empty pool's slots before it moves on. */
  predicate ReleasingBefore(s: Send) {
    exists i :: 0 <= i < |s.states| && s.states[i].Releasing? && s.states[i].slots > 0
  }

  /** One call of `FinishPoolReshardSend`. */
  function Finish(s: Send, ok: bool): Send {
    if s.core.entry.None? then s
    else
      var r := FinishFirst(s.core.entry.value, ok);
      s.(core := s.core.(entry := Some(r.0)), finisher := s.finisher || r.1)
  }

  function Step(s: Send, e: Event): Send
    requires Enabled(s, e)
  {
    match e
    case Issue =>
      s.(states := s.states[s.next := if s.pools[s.next] == {} then Releasing(|s.peers|) else Staging],
         next := s.next + 1)
    case IssueFailed => Finish(s.(stopped := true, clean := false), false)
    case ReleaseSlot(i) =>
      Finish(s.(states := s.states[i := if s.states[i].slots == 1 then Over else Releasing(s.states[i].slots - 1)]),
             true)
    case StageDone(i, ok, serverUp) =>
      var over := s.(states := s.states[i := Over], clean := false);
      if !ok then Finish(over, false)
      else if s.core.entry.None? then over
      else if !serverUp then Finish(over, false)
      else s.(states := s.states[i := Pushing(s.pools[i])])
    case PushDone(i, peer, ok) =>
      var left := s.states[i].left - {peer};
      Finish(s.(states := s.states[i := if left == {} then Over else Pushing(left)],
                clean := s.clean && ok, pushed := if ok then s.pushed + {(i, peer)} else s.pushed), ok)
    case FinishSection(unregistered) =>
      s.(core := FinishSecond(s.core, unregistered), finisher := false)
    case Poll(expired) =>
      var c := Expire(s.core, expired);
      s.(core := Core(c.entry, false, false),
         reportedDone := s.reportedDone + if c.inDone then 1 else 0,
         reportedFailed := s.reportedFailed + if c.inFailed then 1 else 0)
  }

  function Run(s: Send, es: seq<Event>): Send
    requires Runs(s, es)
    decreases |es|
  {
    if es == [] then s else Run(Step(s, es[0]), es[1..])
  }

  predicate Runs(s: Send, es: seq<Event>)
    decreases |es|
  {
    es == [] || (Enabled(s, es[0]) && Runs(Step(s, es[0]), es[1..]))
  }

  // -------------------------------------------------------------- invariants

  /** Peers of the send that a pool with entries has none for: their slots are never given back. */
  function Missing(peers: set<string>, pool: set<string>): int {
    if pool == {} then 0 else |peers| - |pool|
  }

  /** Slots a pool still holds. */
  function Due(peers: set<string>, pool: set<string>, st: PoolState): int {
    match st
    case Waiting => |peers|
    case Releasing(k) => k
    case Staging => |peers|
    case Pushing(left) => |left| + Missing(peers, pool)
    case Over => Missing(peers, pool)
  }

  function Total(peers: set<string>, pools: seq<set<string>>, states: seq<PoolState>): int
    requires |pools| == |states|
  {
    if pools == [] then 0
    else Total(peers, pools[..|pools| - 1], states[..|pools| - 1]) + Due(peers, pools[|pools| - 1], states[|pools| - 1])
  }

  lemma {:induction false} TotalUpdate(peers: set<string>, pools: seq<set<string>>, states: seq<PoolState>, i: nat,
                                       st: PoolState)
    requires |pools| == |states| && i < |pools|
    ensures Total(peers, pools, states[i := st])
         == Total(peers, pools, states) - Due(peers, pools[i], states[i]) + Due(peers, pools[i], st)
  {
    var n := |pools| - 1;
    if i == n {
      assert states[i := st][..n] == states[..n];
    } else {
      TotalUpdate(peers, pools[..n], states[..n], i, st);
      assert states[i := st][..n] == states[..n][i := st];
    }
  }

  lemma {:induction false} TotalInitial(peers: set<string>, pools: seq<set<string>>, states: seq<PoolState>)
    requires |pools| == |states| && forall i | 0 <= i < |states| :: states[i].Waiting?
    ensures Total(peers, pools, states) == |pools| * |peers|
  {
    if pools != [] {
      var n := |pools| - 1;
      TotalInitial(peers, pools[..n], states[..n]);
      assert (n + 1) * |peers| == n * |peers| + |peers|;
    }
  }

  lemma {:induction false} TotalZero(peers: set<string>, pools: seq<set<string>>, states: seq<PoolState>)
    requires |pools| == |states| && forall i | 0 <= i < |states| :: Due(peers, pools[i], states[i]) >= 0
    ensures Total(peers, pools, states) >= 0
    ensures Total(peers, pools, states) == 0 <==> forall i | 0 <= i < |states| :: Due(peers, pools[i], states[i]) == 0
  {
    if pools != [] {
      var n := |pools| - 1;
      TotalZero(peers, pools[..n], states[..n]);
      if Total(peers, pools, states) == 0 {
        forall i | 0 <= i < |states| ensures Due(peers, pools[i], states[i]) == 0 {
          assert i < n ==> states[..n][i] == states[i] && pools[..n][i] == pools[i];
        }
      }
    }
  }

  /** Every pool with entries has entries for every peer of the send. */
  predicate Full(s: Send) {
    forall i | 0 <= i < |s.pools| :: s.pools[i] == {} || s.pools[i] == s.peers
  }

  predicate AllOver(s: Send) {
    forall i | 0 <= i < |s.states| :: s.states[i].Over?
  }

  /** Shapes and history of the pools. */
  ghost predicate Pools(s: Send) {
    && s.peers != {} && |s.pools| == |s.states| && s.next <= |s.pools|
    && (forall i | 0 <= i < |s.pools| :: s.pools[i] <= s.peers)
    && (forall i | s.next <= i < |s.states| :: s.states[i].Waiting?)
    && (forall i | 0 <= i < |s.states| && s.states[i].Releasing? :: s.pools[i] == {} && s.states[i].slots > 0)
    && (forall i | 0 <= i < |s.states| && s.states[i].Staging? :: s.pools[i] != {})
    && (forall i | 0 <= i < |s.states| && s.states[i].Pushing? ::
        s.states[i].left != {} && s.states[i].left <= s.pools[i])
    && (s.clean ==> forall i, p | 0 <= i < |s.states| && p in s.pools[i] ::
          (s.states[i].Over? || (s.states[i].Pushing? && p !in s.states[i].left)) ==> (i, p) in s.pushed)
  }

  /** The completion counter equals the slots still held. */
  ghost predicate Counted(s: Send) {
    && |s.pools| == |s.states|
    && (s.core.entry.Some? && !s.core.entry.value.finalizing ==>
          && s.clean && !s.core.entry.value.failed
          && s.core.entry.value.remaining == Total(s.peers, s.pools, s.states) && s.core.entry.value.remaining != 0)
    && (s.core.entry.Some? && s.core.entry.value.finalizing && !s.core.entry.value.failed ==> Finished(s))
    && (s.core.inDone || s.reportedDone > 0 ==> Finished(s))
  }

  ghost predicate Finished(s: Send) {
    s.clean && AllOver(s) && Full(s)
  }

  function Outcomes(s: Send): nat {
    s.reportedDone + s.reportedFailed + (if s.core.inDone then 1 else 0) + (if s.core.inFailed then 1 else 0)
  }

  ghost predicate Settled(s: Send) {
    && (s.core.entry.Some? ==> (s.finisher <==> s.core.entry.value.finalizing))
    && Outcomes(s) == if s.core.entry.Some? then 0 else 1
  }

  ghost predicate Inv(s: Send) {
    Pools(s) && Counted(s) && Settled(s)
  }

  lemma BeginInv(reqId: string, peers: set<string>, pools: seq<set<string>>)
    requires peers != {} && pools != [] && forall i | 0 <= i < |pools| :: pools[i] <= peers
    ensures Inv(Begin(reqId, peers, pools))
  {
    var s := Begin(reqId, peers, pools);
    TotalInitial(peers, pools, s.states);
    Positive(|pools|, |peers|);
  }

  lemma Positive(a: int, b: int)
    requires a > 0 && b > 0
    ensures a * b != 0
  {
  }

  lemma {:induction false} SubsetSize(a: set<string>, b: set<string>)
    requires a <= b
    ensures |a| <= |b| && (|a| == |b| ==> a == b)
  {
    if a != {} {
      var x :| x in a;
      SubsetSize(a - {x}, b - {x});
    } else if b != {} {
      assert |b| != 0;
    }
  }

  lemma DueBounds(s: Send, i: nat)
    requires Pools(s) && i < |s.pools|
    ensures Due(s.peers, s.pools[i], s.states[i]) >= 0
    ensures Due(s.peers, s.pools[i], s.states[i]) == 0 <==>
              s.states[i].Over? && (s.pools[i] == {} || s.pools[i] == s.peers)
  {
    SubsetSize(s.pools[i], s.peers);
    SubsetSize({}, s.peers);
    if s.states[i].Pushing? {
      SubsetSize({}, s.states[i].left);
    }
  }

  /** No slot is held exactly when every pool is over and none had a peer missing. */
  lemma NoneDue(s: Send)
    requires Pools(s)
    ensures Total(s.peers, s.pools, s.states) >= 0
    ensures Total(s.peers, s.pools, s.states) == 0 <==> AllOver(s) && Full(s)
  {
    forall i | 0 <= i < |s.states| ensures Due(s.peers, s.pools[i], s.states[i]) >= 0 {
      DueBounds(s, i);
    }
    TotalZero(s.peers, s.pools, s.states);
    forall i | 0 <= i < |s.states|
      ensures Due(s.peers, s.pools[i], s.states[i]) == 0 <==>
                s.states[i].Over? && (s.pools[i] == {} || s.pools[i] == s.peers) {
      DueBounds(s, i);
    }
    if AllOver(s) && Full(s) {
      assert forall i | 0 <= i < |s.states| :: s.states[i].Over?;
    }
  }

  /** The state just before a completion call, with its slot already taken off. */
  ghost predicate Owing(s: Send, ok: bool) {
    && |s.pools| == |s.states|
    && (s.core.entry.Some? && !s.core.entry.value.finalizing ==>
          && !s.core.entry.value.failed
          && (ok ==> s.clean && s.core.entry.value.remaining - 1 == Total(s.peers, s.pools, s.states)))
    && (s.core.entry.Some? && s.core.entry.value.finalizing && !s.core.entry.value.failed ==> Finished(s))
    && (s.core.inDone || s.reportedDone > 0 ==> Finished(s))
  }

  lemma FinishKeeps(s: Send, ok: bool)
    requires Pools(s) && Settled(s) && Owing(s, ok)
    ensures Inv(Finish(s, ok))
  {
    NoneDue(s);
    assert Pools(Finish(s, ok));
  }

  lemma IssueKeeps(s: Send)
    requires Inv(s) && Enabled(s, Issue)
    ensures Inv(Step(s, Issue))
  {
    var t := Step(s, Issue);
    TotalUpdate(s.peers, s.pools, s.states, s.next, t.states[s.next]);
    SubsetSize({}, s.peers);
    assert Pools(t);
    var here := s.states[s.next];
    assert AllOver(s) ==> here.Over?;
  }

  lemma IssueFailedKeeps(s: Send)
    requires Inv(s) && Enabled(s, IssueFailed)
    ensures Inv(Step(s, IssueFailed))
  {
    var t := s.(stopped := true, clean := false);
    var here := s.states[s.next];
    assert AllOver(s) ==> here.Over?;
    assert Pools(t);
    FinishKeeps(t, false);
  }

  lemma ReleaseKeeps(s: Send, i: nat)
    requires Inv(s) && Enabled(s, ReleaseSlot(i))
    ensures Inv(Step(s, ReleaseSlot(i)))
  {
    var st := if s.states[i].slots == 1 then Over else Releasing(s.states[i].slots - 1);
    var t := s.(states := s.states[i := st]);
    TotalUpdate(s.peers, s.pools, s.states, i, st);
    var here := s.states[i];
    assert AllOver(s) ==> here.Over?;
    assert Pools(t);
    FinishKeeps(t, true);
  }

  lemma StageKeeps(s: Send, i: nat, ok: bool, serverUp: bool)
    requires Inv(s) && Enabled(s, StageDone(i, ok, serverUp))
    ensures Inv(Step(s, StageDone(i, ok, serverUp)))
  {
    var here := s.states[i];
    assert AllOver(s) ==> here.Over?;
    if ok && s.core.entry.Some? && serverUp {
      var t := Step(s, StageDone(i, ok, serverUp));
      TotalUpdate(s.peers, s.pools, s.states, i, Pushing(s.pools[i]));
      assert Pools(t);
    } else {
      var t := s.(states := s.states[i := Over], clean := false);
      assert Pools(t);
      if !(ok && s.core.entry.None?) {
        FinishKeeps(t, false);
      }
    }
  }

  lemma PushKeeps(s: Send, i: nat, peer: string, ok: bool)
    requires Inv(s) && Enabled(s, PushDone(i, peer, ok))
    ensures Inv(Step(s, PushDone(i, peer, ok)))
  {
    var left := s.states[i].left - {peer};
    var st := if left == {} then Over else Pushing(left);
    var t := s.(states := s.states[i := st], clean := s.clean && ok,
                pushed := if ok then s.pushed + {(i, peer)} else s.pushed);
    TotalUpdate(s.peers, s.pools, s.states, i, st);
    assert |left| == |s.states[i].left| - 1;
    var here := s.states[i];
    assert AllOver(s) ==> here.Over?;
    assert Pools(t);
    FinishKeeps(t, ok);
  }

  lemma StepKeeps(s: Send, e: Event)
    requires Inv(s) && Enabled(s, e)
    ensures Inv(Step(s, e))
  {
    match e
    case Issue => IssueKeeps(s);
    case IssueFailed => IssueFailedKeeps(s);
    case ReleaseSlot(i) => ReleaseKeeps(s, i);
    case StageDone(i, ok, up) => StageKeeps(s, i, ok, up);
    case PushDone(i, peer, ok) => PushKeeps(s, i, peer, ok);
    case FinishSection(u) => assert Pools(Step(s, e));
    case Poll(x) => assert Pools(Step(s, e));
  }

  lemma {:induction false} RunKeeps(s: Send, es: seq<Event>)
    requires Inv(s) && Runs(s, es)
    ensures Inv(Run(s, es))
    decreases |es|
  {
    if es != [] {
      StepKeeps(s, es[0]);
      RunKeeps(Step(s, es[0]), es[1..]);
    }
  }

  /** The peers and the pools' groups never change. */
  lemma {:induction false} RunConstant(s: Send, es: seq<Event>)
    requires Runs(s, es)
    ensures Run(s, es).peers == s.peers && Run(s, es).pools == s.pools
    decreases |es|
  {
    if es != [] {
      RunConstant(Step(s, es[0]), es[1..]);
    }
  }

  // -------------------------------------------------------------- main results

  ghost predicate Reachable(s: Send, reqId: string, peers: set<string>, pools: seq<set<string>>) {
    exists es :: Runs(Begin(reqId, peers, pools), es) && Run(Begin(reqId, peers, pools), es) == s
  }

  predicate Sendable(peers: set<string>, pools: seq<set<string>>) {
    peers != {} && pools != [] && forall i | 0 <= i < |pools| :: pools[i] <= peers
  }

  lemma ReachableInv(s: Send, reqId: string, peers: set<string>, pools: seq<set<string>>)
    requires Sendable(peers, pools) && Reachable(s, reqId, peers, pools)
    ensures Inv(s) && s.peers == peers && s.pools == pools
  {
    var es :| Runs(Begin(reqId, peers, pools), es) && Run(Begin(reqId, peers, pools), es) == s;
    RunConstant(Begin(reqId, peers, pools), es);
    BeginInv(reqId, peers, pools);
    RunKeeps(Begin(reqId, peers, pools), es);
  }

  /** Pool/peer pushes (or released slots) still outstanding. */
  function Outstanding(peers: set<string>, pools: seq<set<string>>, states: seq<PoolState>): int
    requires |pools| == |states|
  {
    if pools == [] then 0
    else
      var st := states[|pools| - 1];
      Outstanding(peers, pools[..|pools| - 1], states[..|pools| - 1])
      + match st
        case Waiting => |peers|
        case Releasing(k) => k
        case Staging => |peers|
        case Pushing(left) => |left|
        case Over => 0
  }

  lemma {:induction false} FullTotal(peers: set<string>, pools: seq<set<string>>, states: seq<PoolState>)
    requires |pools| == |states| && forall i | 0 <= i < |pools| :: pools[i] == {} || pools[i] == peers
    ensures Total(peers, pools, states) == Outstanding(peers, pools, states)
  {
    if pools != [] {
      FullTotal(peers, pools[..|pools| - 1], states[..|pools| - 1]);
    }
  }

  /** The counter of an active send is exactly the number of outstanding pushes, when no pool misses a peer. */
  lemma CounterExact(s: Send, reqId: string, peers: set<string>, pools: seq<set<string>>)
    requires Sendable(peers, pools) && Reachable(s, reqId, peers, pools) && Full(s)
    requires s.core.entry.Some? && !s.core.entry.value.finalizing
    ensures |s.pools| == |s.states| && s.core.entry.value.remaining == Outstanding(s.peers, s.pools, s.states)
  {
    ReachableInv(s, reqId, peers, pools);
    FullTotal(s.peers, s.pools, s.states);
  }

  /** A send is done only after every scheduled push succeeded. */
  lemma DoneMeansPushed(s: Send, reqId: string, peers: set<string>, pools: seq<set<string>>)
    requires Sendable(peers, pools) && Reachable(s, reqId, peers, pools)
    requires s.core.inDone || s.reportedDone > 0
    ensures AllOver(s) && forall i, p | 0 <= i < |pools| && p in pools[i] :: (i, p) in s.pushed
  {
    ReachableInv(s, reqId, peers, pools);
    forall i, p | 0 <= i < |s.pools| && p in s.pools[i] ensures (i, p) in s.pushed {
      assert s.states[i].Over?;
    }
  }

  /** Exactly one outcome, whatever order callbacks, failures and the deadline come in. */
  lemma SingleOutcome(s: Send, reqId: string, peers: set<string>, pools: seq<set<string>>)
    requires Sendable(peers, pools) && Reachable(s, reqId, peers, pools)
    ensures s.reportedDone + s.reportedFailed <= 1
    ensures s.core.entry.None? ==> Outcomes(s) == 1
    ensures s.core.entry.Some? ==> Outcomes(s) == 0
  {
    ReachableInv(s, reqId, peers, pools);
  }

  /**
    When every pool is over without a failure, an active send is finalising if
    and only if every pool with entries has entries for every peer.  Otherwise
    its counter is stuck above zero; `StuckForever` says what can end it.
   */
  lemma DrainsIffFull(s: Send, reqId: string, peers: set<string>, pools: seq<set<string>>)
    requires Sendable(peers, pools) && Reachable(s, reqId, peers, pools)
    requires AllOver(s) && s.core.entry.Some? && !s.core.entry.value.failed
    ensures s.core.entry.value.finalizing <==> Full(s)
    ensures !Full(s) ==> s.core.entry.value.remaining > 0
  {
    ReachableInv(s, reqId, peers, pools);
    NoneDue(s);
  }

  /** Every push is over, none failed, and a peer is missing. */
  ghost predicate Stuck(s: Send) {
    Inv(s) && AllOver(s) && s.core.entry.Some? && !s.core.entry.value.failed && !Full(s)
  }

  /** A stuck send waits for polls only, and one before the deadline changes nothing. */
  lemma StuckStep(s: Send, e: Event)
    requires Stuck(s) && Enabled(s, e)
    ensures e.Poll? && !s.core.entry.value.finalizing
    ensures Step(s, e).core.entry == (if e.expired then None else s.core.entry)
    ensures !e.expired ==> Stuck(Step(s, e))
    ensures e.expired ==> Outcomes(Step(s, e)) == 1 && Step(s, e).reportedFailed == 1
  {
    NoneDue(s);
    assert s.next == |s.states|;
  }

  /** Only the deadline ends a stuck send: its entry and its counter survive every run without an expired poll. */
  lemma {:induction false} StuckForever(s: Send, es: seq<Event>)
    requires Stuck(s) && Runs(s, es) && forall i | 0 <= i < |es| :: es[i] != Poll(true)
    ensures Stuck(Run(s, es)) && Run(s, es).core.entry == s.core.entry && Outcomes(Run(s, es)) == 0
    decreases |es|
  {
    if es != [] {
      StuckStep(s, es[0]);
      StuckForever(Step(s, es[0]), es[1..]);
    }
  }

  /** A schedule whose first group has an entry for one of its two peers. */
  function Uneven(e: Entry): seq<Entry> {
    [e.(dstPeer := "a", poolGroup := Some(0)), e.(dstPeer := "a", poolGroup := Some(1)),
     e.(dstPeer := "b", poolGroup := Some(1))]
  }

  lemma UnevenPeers(e: Entry)
    ensures PeersOf(Uneven(e)) == {"a", "b"}
    ensures GroupPeers(Uneven(e), 0) == {"a"} && GroupPeers(Uneven(e), 1) == {"a", "b"}
  {
    var es := Uneven(e);
    assert es[0].dstPeer == "a" && es[1].dstPeer == "a" && es[2].dstPeer == "b";
    assert InGroup(es[0], 0) && InGroup(es[1], 1) && InGroup(es[2], 1);
    assert !InGroup(es[1], 0) && !InGroup(es[2], 0) && !InGroup(es[0], 1);
    assert "b" in GroupPeers(es, 1) && "a" in GroupPeers(es, 1) && "a" in GroupPeers(es, 0);
    assert "b" in PeersOf(es) && "a" in PeersOf(es);
  }

  const ISSUED: seq<Event> := [Issue, Issue, StageDone(0, true, true), StageDone(1, true, true)]
  const PUSHED: seq<Event> := [PushDone(0, "a", true), PushDone(1, "a", true), PushDone(1, "b", true)]

  /** A concrete stuck send: two pools, two peers, every push done, and one slot never given back. */
  lemma StuckExample(e: Entry)
    ensures var s0 := Begin("r", PeersOf(Uneven(e)), [GroupPeers(Uneven(e), 0), GroupPeers(Uneven(e), 1)]);
            && Runs(s0, ISSUED + PUSHED)
            && var s := Run(s0, ISSUED + PUSHED);
               Stuck(s) && s.core.entry.value.remaining == 1
  {
    UnevenPeers(e);
    var peers, pools := PeersOf(Uneven(e)), [GroupPeers(Uneven(e), 0), GroupPeers(Uneven(e), 1)];
    UnevenRun(peers, pools);
    UnevenStuck(peers, pools, ISSUED + PUSHED);
  }

  lemma UnevenStuck(peers: set<string>, pools: seq<set<string>>, es: seq<Event>)
    requires Sendable(peers, pools) && pools[0] != {} && pools[0] != peers
    requires Runs(Begin("r", peers, pools), es)
    requires var s := Run(Begin("r", peers, pools), es);
             && AllOver(s) && s.core.entry.Some? && !s.core.entry.value.failed && s.pools == pools && s.peers == peers
    ensures Stuck(Run(Begin("r", peers, pools), es))
  {
    BeginInv("r", peers, pools);
    RunKeeps(Begin("r", peers, pools), es);
  }

  lemma UnevenRun(peers: set<string>, pools: seq<set<string>>)
    requires peers == {"a", "b"} && pools == [{"a"}, {"a", "b"}]
    ensures var s0 := Begin("r", peers, pools);
            && Runs(s0, ISSUED + PUSHED)
            && var s := Run(s0, ISSUED + PUSHED);
               && s.states == [Over, Over] && s.core.entry == Some(SendEntry("r", 1, false, false))
               && s.pools == pools && s.peers == peers
  {
    var s0 := Begin("r", peers, pools);
    assert |peers| == 2;
    var s4 := s0.(states := [Pushing({"a"}), Pushing({"a", "b"})], next := 2);
    IssuedRun(s0, s4);
    PushedRun(s4);
    Joined(s0, ISSUED, PUSHED);
  }

  lemma {:induction false} Joined(s: Send, es: seq<Event>, fs: seq<Event>)
    requires Runs(s, es) && Runs(Run(s, es), fs)
    ensures Runs(s, es + fs) && Run(s, es + fs) == Run(Run(s, es), fs)
    decreases |es|
  {
    if es == [] {
      assert es + fs == fs;
    } else {
      Joined(Step(s, es[0]), es[1..], fs);
      assert (es + fs)[1..] == es[1..] + fs;
    }
  }

  lemma IssuedRun(s0: Send, s4: Send)
    requires s0 == Begin("r", {"a", "b"}, [{"a"}, {"a", "b"}])
    requires s4 == s0.(states := [Pushing({"a"}), Pushing({"a", "b"})], next := 2)
    ensures Runs(s0, ISSUED) && Run(s0, ISSUED) == s4
  {
    var s1 := s0.(states := [Staging, Waiting], next := 1);
    var s2 := s0.(states := [Staging, Staging], next := 2);
    var s3 := s0.(states := [Pushing({"a"}), Staging], next := 2);
    assert Step(s0, Issue) == s1;
    assert Step(s1, Issue) == s2;
    assert Step(s2, StageDone(0, true, true)) == s3;
    assert Step(s3, StageDone(1, true, true)) == s4;
    var e1, e2, e3 := ISSUED[1..], ISSUED[1..][1..], ISSUED[1..][1..][1..];
    assert e3 == [StageDone(1, true, true)] && e3[1..] == [] && e2[0] == StageDone(0, true, true) && e1[0] == Issue;
    assert Runs(s3, e3) && Run(s3, e3) == s4;
    assert Runs(s2, e2) && Run(s2, e2) == s4;
    assert Runs(s1, e1) && Run(s1, e1) == s4;
  }

  lemma PushedRun(s: Send)
    requires s.states == [Pushing({"a"}), Pushing({"a", "b"})] && s.clean
    requires s.core.entry.Some? && s.core.entry.value == SendEntry("r", 4, false, false)
    ensures Runs(s, PUSHED)
    ensures var t := Run(s, PUSHED);
            && t.states == [Over, Over] && t.core == s.core.(entry := Some(SendEntry("r", 1, false, false)))
            && t.pools == s.pools && t.peers == s.peers
  {
    assert "a"[0] != "b"[0];
    var s1, s2 := Step(s, PUSHED[0]), Step(Step(s, PUSHED[0]), PUSHED[1]);
    assert {"a"} - {"a"} == {} && {"a", "b"} - {"a"} == {"b"} && {"b"} - {"b"} == {};
    assert s1.states == [Over, Pushing({"a", "b"})] && s1.core.entry.value.remaining == 3;
    assert s2.states == [Over, Pushing({"b"})] && s2.core.entry.value.remaining == 2;
    var s3 := Step(s2, PUSHED[2]);
    assert s3.states == [Over, Over] && s3.core.entry.value.remaining == 1;
    var e1, e2 := PUSHED[1..], PUSHED[1..][1..];
    assert e2 == [PushDone(1, "b", true)] && e2[1..] == [] && e1[0] == PUSHED[1];
    assert Runs(s2, e2) && Run(s2, e2) == s3;
    assert Runs(s1, e1) && Run(s1, e1) == s3;
  }

  /** Any non-empty schedule and pool list starts a send the results above apply to. */
  lemma ScheduleSendable(entries: seq<Entry>, groups: seq<int>)
    requires entries != [] && groups != []
    ensures Sendable(PeersOf(entries), seq(|groups|, i requires 0 <= i < |groups| => GroupPeers(entries, groups[i])))
  {
    assert entries[0].dstPeer in PeersOf(entries);
    forall i | 0 <= i < |groups| ensures GroupPeers(entries, groups[i]) <= PeersOf(entries) {
      forall p | p in GroupPeers(entries, groups[i]) ensures p in PeersOf(entries) {
        var k :| 0 <= k < |entries| && InGroup(entries[k], groups[i]) && entries[k].dstPeer == p;
      }
    }
  }

  // ---------------------------------------------------------- which outcome

  /** A copy that cannot be issued or fails, a push that fails, no server to push from, or a failed unregistering. */
  predicate Failing(e: Event) {
    match e
    case IssueFailed => true
    case StageDone(_, ok, serverUp) => !ok || !serverUp
    case PushDone(_, _, ok) => !ok
    case FinishSection(unregistered) => !unregistered
    case _ => false
  }

  predicate Expiring(e: Event) {
    e.Poll? && e.expired
  }

  ghost predicate Done(s: Send) {
    s.core.inDone || s.reportedDone > 0
  }

  ghost predicate Failed(s: Send) {
    s.core.inFailed || s.reportedFailed > 0
  }

  /** Nothing has failed so far, and the issuing loop is where it should be. */
  ghost predicate Healthy(s: Send) {
    && !Failed(s) && !s.stopped && (s.core.entry.Some? ==> !s.core.entry.value.failed)
    && forall i | 0 <= i < |s.states| && i < s.next :: !s.states[i].Waiting?
  }

  /** Something has failed: the send is not done, and can only be reported failed. */
  ghost predicate Spoiled(s: Send) {
    !Done(s) && (s.core.entry.Some? ==> s.core.entry.value.failed && s.core.entry.value.finalizing)
  }

  /** No call is still finishing a done send. */
  ghost predicate DoneAlone(s: Send) {
    Done(s) ==> !s.finisher
  }

  lemma StepDoneAlone(s: Send, e: Event)
    requires Inv(s) && DoneAlone(s) && Enabled(s, e)
    ensures DoneAlone(Step(s, e))
  {
  }

  lemma StepHealthy(s: Send, e: Event)
    requires Inv(s) && Healthy(s) && Enabled(s, e) && !Failing(e) && !Expiring(e)
    ensures Healthy(Step(s, e))
  {
  }

  lemma StepSpoiled(s: Send, e: Event)
    requires Inv(s) && Spoiled(s) && Enabled(s, e)
    ensures Spoiled(Step(s, e))
  {
  }

  lemma FailureSpoils(s: Send, e: Event)
    requires Inv(s) && DoneAlone(s) && Enabled(s, e) && Failing(e)
    ensures Spoiled(Step(s, e))
  {
    if !e.FinishSection? {
      var i := if e.IssueFailed? then s.next else e.i;
      var here := s.states[i];
      assert !here.Over? && !AllOver(s);
    }
  }

  lemma {:induction false} RunHealthy(s: Send, es: seq<Event>)
    requires Inv(s) && Healthy(s) && Runs(s, es)
    requires forall i | 0 <= i < |es| :: !Failing(es[i]) && !Expiring(es[i])
    ensures Healthy(Run(s, es))
    decreases |es|
  {
    if es != [] {
      StepKeeps(s, es[0]);
      StepHealthy(s, es[0]);
      RunHealthy(Step(s, es[0]), es[1..]);
    }
  }

  lemma {:induction false} RunSpoiled(s: Send, es: seq<Event>)
    requires Inv(s) && Spoiled(s) && Runs(s, es)
    ensures Spoiled(Run(s, es))
    decreases |es|
  {
    if es != [] {
      StepKeeps(s, es[0]);
      StepSpoiled(s, es[0]);
      RunSpoiled(Step(s, es[0]), es[1..]);
    }
  }

  lemma {:induction false} RunFailing(s: Send, es: seq<Event>)
    requires Inv(s) && DoneAlone(s) && Runs(s, es) && exists i :: 0 <= i < |es| && Failing(es[i])
    ensures Spoiled(Run(s, es))
    decreases |es|
  {
    var i :| 0 <= i < |es| && Failing(es[i]);
    StepKeeps(s, es[0]);
    if i == 0 {
      FailureSpoils(s, es[0]);
      RunSpoiled(Step(s, es[0]), es[1..]);
    } else {
      StepDoneAlone(s, es[0]);
      assert Failing(es[1..][i - 1]);
      RunFailing(Step(s, es[0]), es[1..]);
    }
  }

  /**
    Which outcome, in terms of what happened: a send is done only if every scheduled push
    succeeded and nothing failed, and failed only if something did or a poll came after the
    deadline.  So a send that is over with no such event is done.
   */
  lemma OutcomeExact(es: seq<Event>, reqId: string, peers: set<string>, pools: seq<set<string>>)
    requires Sendable(peers, pools) && Runs(Begin(reqId, peers, pools), es)
    ensures var s := Run(Begin(reqId, peers, pools), es);
            && (Done(s) ==> forall i, p | 0 <= i < |pools| && p in pools[i] :: (i, p) in s.pushed)
            && (Done(s) ==> forall i | 0 <= i < |es| :: !Failing(es[i]))
            && (Failed(s) ==> exists i :: 0 <= i < |es| && (Failing(es[i]) || Expiring(es[i])))
            && (s.core.entry.None? ==> Done(s) || Failed(s))
  {
    var start := Begin(reqId, peers, pools);
    BeginInv(reqId, peers, pools);
    RunKeeps(start, es);
    var s := Run(start, es);
    if Done(s) {
      DoneMeansPushed(s, reqId, peers, pools);
    }
    if exists i :: 0 <= i < |es| && Failing(es[i]) {
      RunFailing(start, es);
    } else if forall i | 0 <= i < |es| :: !Expiring(es[i]) {
      RunHealthy(start, es);
    }
  }

  // --------------------------------------------------------- a send can finish

  function Copying(s: Send): set<nat> {
    set i: nat | i < |s.states| && s.states[i].Staging?
  }

  function Unreported(s: Send): nat {
    if s.reportedDone > 0 then 0 else 1
  }

  function Held(s: Send): nat {
    if |s.pools| != |s.states| then 0
    else
      var n := Total(s.peers, s.pools, s.states);
      if n < 0 then 0 else n
  }

  function ToIssue(s: Send): nat {
    if s.next < |s.pools| then |s.pools| - s.next else 0
  }

  /** What is left to happen is less, most distant things first. */
  ghost predicate Closer(t: Send, s: Send) {
    || Unreported(t) < Unreported(s)
    || (Unreported(t) == Unreported(s) && Held(t) < Held(s))
    || (Unreported(t) == Unreported(s) && Held(t) == Held(s) && CloserCopy(t, s))
  }

  ghost predicate CloserCopy(t: Send, s: Send) {
    || ToIssue(t) < ToIssue(s)
    || (ToIssue(t) == ToIssue(s) && |Copying(t)| < |Copying(s)|)
    || (ToIssue(t) == ToIssue(s) && |Copying(t)| == |Copying(s)| && !t.finisher && s.finisher)
  }

  ghost predicate Good(s: Send, e: Event) {
    Enabled(s, e) && !Failing(e) && !Expiring(e) && Closer(Step(s, e), s)
  }

  /** One slot less is held. */
  lemma SlotEvent(s: Send, e: Event, i: nat)
    requires Inv(s) && Enabled(s, e) && !Failing(e) && i < |s.states|
    requires (e == ReleaseSlot(i) && s.states[i].Releasing?) || (e.PushDone? && e.i == i)
    ensures Good(s, e)
  {
    var t := Step(s, e);
    assert t.states == s.states[i := t.states[i]];
    TotalUpdate(s.peers, s.pools, s.states, i, t.states[i]);
    StepKeeps(s, e);
    NoneDue(t);
    NoneDue(s);
    if e.PushDone? {
      assert |s.states[i].left - {e.peer}| == |s.states[i].left| - 1;
    }
  }

  lemma IssueEvent(s: Send)
    requires Inv(s) && Enabled(s, Issue)
    ensures Good(s, Issue)
  {
    var t := Step(s, Issue);
    TotalUpdate(s.peers, s.pools, s.states, s.next, t.states[s.next]);
  }

  lemma StageEvent(s: Send, i: nat)
    requires Inv(s) && Full(s) && s.core.entry.Some? && i < |s.states| && s.states[i].Staging?
    ensures Good(s, StageDone(i, true, true))
  {
    var t := Step(s, StageDone(i, true, true));
    TotalUpdate(s.peers, s.pools, s.states, i, t.states[i]);
    assert Copying(t) == Copying(s) - {i};
    assert i in Copying(s);
  }

  /** A pool that is not over has a next event. */
  lemma PoolEvent(s: Send, i: nat) returns (e: Event)
    requires Inv(s) && Healthy(s) && Full(s) && s.core.entry.Some? && i < |s.states| && !s.states[i].Over?
    ensures Good(s, e)
  {
    if s.states[i].Releasing? {
      e := ReleaseSlot(i);
      SlotEvent(s, e, i);
    } else if s.states[i].Pushing? {
      var p :| p in s.states[i].left;
      e := PushDone(i, p, true);
      SlotEvent(s, e, i);
    } else if s.states[i].Staging? {
      e := StageDone(i, true, true);
      StageEvent(s, i);
    } else if ReleasingBefore(s) {
      var j :| 0 <= j < |s.states| && s.states[j].Releasing? && s.states[j].slots > 0;
      e := ReleaseSlot(j);
      SlotEvent(s, e, j);
    } else {
      e := Issue;
      IssueEvent(s);
    }
  }

  lemma NextEvent(s: Send) returns (e: Event)
    requires Inv(s) && Healthy(s) && Full(s) && s.reportedDone == 0
    ensures Good(s, e)
  {
    if s.core.entry.None? {
      e := Poll(false);
    } else if s.core.entry.value.finalizing {
      e := FinishSection(true);
    } else {
      NoneDue(s);
      var i :| 0 <= i < |s.states| && !s.states[i].Over?;
      e := PoolEvent(s, i);
    }
  }

  lemma GoodStep(s: Send) returns (e: Event, t: Send)
    requires Inv(s) && Healthy(s) && Full(s) && s.reportedDone == 0
    ensures Enabled(s, e) && t == Step(s, e) && !Failing(e) && !Expiring(e)
    ensures Inv(t) && Healthy(t) && Full(t) && Closer(t, s)
  {
    e := NextEvent(s);
    t := Step(s, e);
    StepKeeps(s, e);
    StepHealthy(s, e);
  }

  /**
    From every state in which nothing has failed, and with no peer missing from a pool, some run
    without a failure and without the deadline reports the send done, once.
   */
  lemma {:induction false} CanFinish(s: Send) returns (es: seq<Event>)
    requires Inv(s) && Healthy(s) && Full(s)
    ensures Runs(s, es) && (forall i | 0 <= i < |es| :: !Failing(es[i]) && !Expiring(es[i]))
    ensures Run(s, es).reportedDone == 1 && Run(s, es).reportedFailed == 0
    decreases Unreported(s), Held(s), ToIssue(s), |Copying(s)|, if s.finisher then 1 else 0
  {
    if s.reportedDone > 0 {
      es := [];
    } else {
      var e, t := GoodStep(s);
      var rest := CanFinish(t);
      es := [e] + rest;
      assert es[1..] == rest;
    }
  }
}
