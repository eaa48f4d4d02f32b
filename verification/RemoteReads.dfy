/**
  Remote reads of the KV-cache store (tpu_sync/kv_cache/kv_cache_store.cc):
  reading marks and staging blocks, from allocation to the poller that settles
  the read, over every interleaving of calls and pollers.
 */
module RemoteReads {

  type Hash = string
  type Future = nat

  /** What the store keeps about an issued read; `call` is the `ReadRemote` call that issued it. */
  datatype ReadState = ReadState(call: nat, hashes: seq<Hash>, blocks: seq<nat>)

  function SetOf<T>(s: seq<T>): set<T> {
    set i | 0 <= i < |s| :: s[i]
  }

  // ------------------------------------------------------- the locked sections

  datatype Marked = Marked(reading: set<Hash>, mine: seq<Hash>, ok: bool)

  /** Marks in order, stopping at the first hash that is already being read. */
  function Mark(reading: set<Hash>, hs: seq<Hash>): Marked {
    if hs == [] then Marked(reading, [], true)
    else
      var m, h := Mark(reading, hs[..|hs| - 1]), hs[|hs| - 1];
      if !m.ok then m
      else if h in m.reading then m.(ok := false)
      else Marked(m.reading + {h}, m.mine + [h], true)
  }

  class Store {
    var reading: set<Hash>
    var active: map<Future, ReadState>
    var done: seq<Hash>
    var failed: seq<Hash>

    constructor ()
      ensures reading == {} && active == map[] && done == [] && failed == []
    {
      reading, active, done, failed := {}, map[], [], [];
    }

    method MarkReading(hs: seq<Hash>) returns (mine: seq<Hash>, ok: bool)
      modifies this`reading
      ensures Marked(reading, mine, ok) == Mark(old(reading), hs)
    {
      mine, ok := [], true;
      for i := 0 to |hs|
        invariant ok && Marked(reading, mine, ok) == Mark(old(reading), hs[..i])
      {
        assert hs[..i + 1][..i] == hs[..i];
        if hs[i] in reading {
          MarkStops(old(reading), hs, i);
          ok := false;
          return;
        }
        reading := reading + {hs[i]};
        mine := mine + [hs[i]];
      }
      assert hs[..|hs|] == hs;
    }

    /** `emplace`: a future that is already a key keeps its old entry. */
    method RecordRead(f: Future, r: ReadState)
      modifies this`active
      ensures active == if f in old(active) then old(active) else old(active)[f := r]
    {
      if f !in active {
        active := active[f := r];
      }
    }

    /** The poller's section for one finished read; the caller frees `r.blocks`. */
    method SettleRead(r: ReadState, ok: bool)
      modifies this`reading, this`done, this`failed
      ensures reading == old(reading) - SetOf(r.hashes)
      ensures done == (if ok then old(done) + r.hashes else old(done))
              && failed == (if ok then old(failed) else old(failed) + r.hashes)
    {
      if ok {
        done := done + r.hashes;
      } else {
        failed := failed + r.hashes;
      }
      reading := reading - SetOf(r.hashes);
    }
  }

  lemma {:induction false} MarkStops(reading: set<Hash>, hs: seq<Hash>, i: nat)
    requires i < |hs| && Mark(reading, hs[..i]).ok && hs[i] in Mark(reading, hs[..i]).reading
    ensures Mark(reading, hs) == Mark(reading, hs[..i]).(ok := false)
    decreases |hs|
  {
    var front := hs[..|hs| - 1];
    if i == |hs| - 1 {
      assert hs[..i] == front;
    } else {
      assert front[..i] == hs[..i];
      MarkStops(reading, front, i);
    }
  }

  lemma {:induction false} MarkShape(reading: set<Hash>, hs: seq<Hash>)
    ensures var m := Mark(reading, hs);
            m.reading == reading + SetOf(m.mine) && SetOf(m.mine) !! reading && (m.ok ==> m.mine == hs)
  {
    if hs != [] {
      var n := |hs| - 1;
      MarkShape(reading, hs[..n]);
      assert hs == hs[..n] + [hs[n]];
      var m := Mark(reading, hs[..n]);
      SetOfSnoc(m.mine, hs[n]);
    }
  }

  /** Marking succeeds iff the hashes are distinct and none is being read; otherwise it stops at the first that is. */
  lemma {:induction false} MarkExact(reading: set<Hash>, hs: seq<Hash>)
    ensures var m := Mark(reading, hs);
            && m.mine <= hs && m.reading == reading + SetOf(m.mine)
            && (m.ok <==> && (forall i, j | 0 <= i < j < |hs| :: hs[i] != hs[j])
                          && (forall i | 0 <= i < |hs| :: hs[i] !in reading))
            && (m.ok ==> m.mine == hs)
            && (!m.ok ==> |m.mine| < |hs| && (hs[|m.mine|] in reading || hs[|m.mine|] in m.mine))
  {
    MarkShape(reading, hs);
    if hs != [] {
      var n := |hs| - 1;
      var front, h := hs[..n], hs[n];
      MarkExact(reading, front);
      var m := Mark(reading, front);
      assert hs == front + [h];
      FreshSnoc(reading, front, h);
      if m.ok {
        assert h in m.reading <==> h in reading || h in front;
      }
    }
  }

  lemma FreshSnoc(reading: set<Hash>, hs: seq<Hash>, h: Hash)
    ensures (&& (forall i, j | 0 <= i < j < |hs + [h]| :: (hs + [h])[i] != (hs + [h])[j])
             && (forall i | 0 <= i < |hs + [h]| :: (hs + [h])[i] !in reading))
       <==> (&& (forall i, j | 0 <= i < j < |hs| :: hs[i] != hs[j])
             && (forall i | 0 <= i < |hs| :: hs[i] !in reading) && h !in hs && h !in reading)
  {
    var more := hs + [h];
    assert forall i | 0 <= i < |hs| :: more[i] == hs[i];
    assert more[|hs|] == h;
  }

  lemma SetOfSnoc<T>(s: seq<T>, x: T)
    ensures SetOf(s + [x]) == SetOf(s) + {x}
  {
    forall y ensures y in SetOf(s + [x]) <==> y in SetOf(s) || y == x {
      if y in SetOf(s) {
        var i :| 0 <= i < |s| && s[i] == y;
        assert (s + [x])[i] == y;
      }
      assert (s + [x])[|s|] == x;
    }
  }

  // -------------------------------------------------------------- partitions

  /** `pool` is the disjoint union of what each call owns. */
  ghost predicate Partition<T(!new)>(pool: set<T>, owned: map<nat, set<T>>) {
    && (forall x :: x in pool <==> exists c :: c in owned && x in owned[c])
    && (forall c, d | c in owned && d in owned && c != d :: owned[c] !! owned[d])
  }

  lemma PartitionGrows<T(!new)>(pool: set<T>, owned: map<nat, set<T>>, c: nat, more: set<T>)
    requires Partition(pool, owned) && (c in owned ==> owned[c] == {}) && more !! pool
    ensures Partition(pool + more, owned[c := more])
  {
    var after := owned[c := more];
    forall x ensures x in pool + more <==> exists d :: d in after && x in after[d] {
      if x in more {
        assert x in after[c];
      }
      if x in pool {
        var d :| d in owned && x in owned[d];
        assert x in after[d];
      }
    }
    assert forall d | d in owned :: owned[d] <= pool;
  }

  lemma PartitionShrinks<T(!new)>(pool: set<T>, owned: map<nat, set<T>>, c: nat)
    requires Partition(pool, owned) && c in owned
    ensures Partition(pool - owned[c], owned[c := {}])
  {
    var after := owned[c := {}];
    forall x ensures x in pool - owned[c] <==> exists d :: d in after && x in after[d] {
      if x in pool && x !in owned[c] {
        var d :| d in owned && x in owned[d];
        assert x in after[d];
      }
      if exists d :: d in after && x in after[d] {
        var d :| d in after && x in after[d];
        assert d != c && x in owned[d];
      }
    }
  }

  // -------------------------------------------------------------- whole runs

  datatype Pc =
    | Staged                       // blocks allocated, nothing marked
    | AllMarked
    | Promised(f: Future)          // the controller has returned its future
    | Freeing(mine: seq<Hash>)     // unwinding: blocks and these marks are still held
    | Unmarking(mine: seq<Hash>)   // unwinding: these marks are still held
    | Refused
    | Issued                       // settled when `freed` is 1

  /** A `ReadRemote` call; `freed` counts how often its staging blocks were handed back. */
  datatype Call = Call(hashes: seq<Hash>, blocks: seq<nat>, pc: Pc, freed: nat)

  function Marks(c: Call): set<Hash> {
    match c.pc
    case Staged => {}
    case AllMarked => SetOf(c.hashes)
    case Promised(_) => SetOf(c.hashes)
    case Freeing(mine) => SetOf(mine)
    case Unmarking(mine) => SetOf(mine)
    case Refused => {}
    case Issued => if c.freed == 0 then SetOf(c.hashes) else {}
  }

  function Blocks(c: Call): set<nat> {
    if c.freed == 0 && !c.pc.Unmarking? && !c.pc.Refused? then SetOf(c.blocks) else {}
  }

  /** `out` is the set of host blocks allocated to reads; a poller holds the reads it took, by position. */
  datatype World = World(
    reading: set<Hash>, out: set<nat>, active: map<Future, ReadState>, pollers: map<nat, seq<ReadState>>,
        calls: map<nat, Call>)

  const START := World({}, {}, map[], map[], map[])

  datatype Event =
    | Allocate(c: nat, hs: seq<Hash>, blocks: seq<nat>)  // the allocator grants blocks nobody holds
    | MarkAll(c: nat)
    | GiveUp(c: nat)                                     // no controller, no registry, or an unknown peer
    | FreeBlocks(c: nat)
    | DropMarks(c: nat)
    | Promise(c: nat, f: Future)                         // the controller makes a future
    | Record(c: nat)
    | TakeReady(p: nat, fs: seq<Future>)
    | SettleNext(p: nat)
    | EndPoll(p: nat)

  /** A future the store can still reach: a key of its map, or one a call was given and has not recorded. */
  predicate LiveFuture(w: World, f: Future) {
    f in w.active || exists c | c in w.calls :: w.calls[c].pc == Promised(f)
  }

  /** A future is identified by the address of its object, so a new one differs from every live one. */
  predicate Enabled(w: World, e: Event) {
    match e
    case Allocate(c, hs, blocks) => c !in w.calls && SetOf(blocks) !! w.out
    case MarkAll(c) => c in w.calls && w.calls[c].pc.Staged?
    case GiveUp(c) => c in w.calls && w.calls[c].pc.AllMarked?
    case FreeBlocks(c) => c in w.calls && w.calls[c].pc.Freeing?
    case DropMarks(c) => c in w.calls && w.calls[c].pc.Unmarking?
    case Promise(c, f) => c in w.calls && w.calls[c].pc.AllMarked? && !LiveFuture(w, f)
    case Record(c) => c in w.calls && w.calls[c].pc.Promised?
    case TakeReady(p, fs) => p !in w.pollers && (forall i | 0 <= i < |fs| :: fs[i] in w.active)
        && (forall i, j | 0 <= i < j < |fs| :: fs[i] != fs[j])
    case SettleNext(p) => p in w.pollers && w.pollers[p] != [] && w.pollers[p][0].call in w.calls
    case EndPoll(p) => p in w.pollers && w.pollers[p] == []
  }

  function Taken(active: map<Future, ReadState>, fs: seq<Future>): seq<ReadState>
    requires forall i | 0 <= i < |fs| :: fs[i] in active
  {
    seq(|fs|, i requires 0 <= i < |fs| => active[fs[i]])
  }

  function SetCall(w: World, c: nat, call: Call): World {
    w.(calls := w.calls[c := call])
  }

  function Step(w: World, e: Event): World
    requires Enabled(w, e)
  {
    match e
    case Allocate(c, hs, blocks) => SetCall(w.(out := w.out + SetOf(blocks)), c, Call(hs, blocks, Staged, 0))
    case MarkAll(c) =>
      var m := Mark(w.reading, w.calls[c].hashes);
      SetCall(w.(reading := m.reading), c, w.calls[c].(pc := if m.ok then AllMarked else Freeing(m.mine)))
    case GiveUp(c) => SetCall(w, c, w.calls[c].(pc := Freeing(w.calls[c].hashes)))
    case FreeBlocks(c) =>
      SetCall(w.(out := w.out - SetOf(w.calls[c].blocks)), c,
              w.calls[c].(pc := Unmarking(w.calls[c].pc.mine), freed := w.calls[c].freed + 1))
    case DropMarks(c) => SetCall(w.(reading := w.reading - SetOf(w.calls[c].pc.mine)), c, w.calls[c].(pc := Refused))
    case Promise(c, f) => SetCall(w, c, w.calls[c].(pc := Promised(f)))
    case Record(c) =>
      var f := w.calls[c].pc.f;
      var r := ReadState(c, w.calls[c].hashes, w.calls[c].blocks);
      SetCall(w.(active := if f in w.active then w.active else w.active[f := r]), c, w.calls[c].(pc := Issued))
    case TakeReady(p, fs) => w.(active := w.active - SetOf(fs), pollers := w.pollers[p := Taken(w.active, fs)])
    case SettleNext(p) =>
      var r := w.pollers[p][0];
      SetCall(w.(out := w.out - SetOf(r.blocks), reading := w.reading - SetOf(r.hashes),
                 pollers := w.pollers[p := w.pollers[p][1..]]),
              r.call, w.calls[r.call].(freed := w.calls[r.call].freed + 1))
    case EndPoll(p) => w.(pollers := w.pollers - {p})
  }

  // ----------------------------------------------------------------- invariant

  function AllMarks(calls: map<nat, Call>): map<nat, set<Hash>> {
    map c | c in calls :: Marks(calls[c])
  }

  function AllBlocks(calls: map<nat, Call>): map<nat, set<nat>> {
    map c | c in calls :: Blocks(calls[c])
  }

  predicate InFlight(calls: map<nat, Call>, c: nat) {
    c in calls && calls[c].pc.Issued? && calls[c].freed == 0
  }

  predicate IsRead(calls: map<nat, Call>, r: ReadState) {
    InFlight(calls, r.call) && r.hashes == calls[r.call].hashes && r.blocks == calls[r.call].blocks
  }

  /** Where a read is kept: under a future, or at a position of a poller's list. */
  datatype Place = Under(f: Future) | At(p: nat, i: nat)

  predicate Holds(active: map<Future, ReadState>, pollers: map<nat, seq<ReadState>>, at: Place) {
    match at
    case Under(f) => f in active
    case At(p, i) => p in pollers && i < |pollers[p]|
  }

  function Kept(active: map<Future, ReadState>, pollers: map<nat, seq<ReadState>>, at: Place): ReadState
    requires Holds(active, pollers, at)
  {
    match at
    case Under(f) => active[f]
    case At(p, i) => pollers[p][i]
  }

  /** Only reads in flight are kept, each in one place. */
  ghost predicate Sound(active: map<Future, ReadState>, pollers: map<nat, seq<ReadState>>, calls: map<nat, Call>) {
    && (forall at | Holds(active, pollers, at) :: IsRead(calls, Kept(active, pollers, at)))
    && (forall a, b | Holds(active, pollers, a) && Holds(active, pollers, b)
                      && Kept(active, pollers, a).call == Kept(active, pollers, b).call :: a == b)
  }

  /** Every read in flight is kept somewhere. */
  ghost predicate Tracked(active: map<Future, ReadState>, pollers: map<nat, seq<ReadState>>, calls: map<nat, Call>) {
    forall c | InFlight(calls, c) :: KeptSomewhere(active, pollers, c)
  }

  ghost predicate KeptSomewhere(active: map<Future, ReadState>, pollers: map<nat, seq<ReadState>>, c: nat) {
    exists at :: Holds(active, pollers, at) && Kept(active, pollers, at).call == c
  }

  predicate CallOk(c: Call) {
    c.freed <= 1 && (c.pc.Unmarking? || c.pc.Refused? ==> c.freed == 1)
        && (c.pc.Staged? || c.pc.AllMarked? || c.pc.Promised? || c.pc.Freeing? ==> c.freed == 0)
  }

  ghost predicate Inv(w: World) {
    && Partition(w.reading, AllMarks(w.calls))
    && Partition(w.out, AllBlocks(w.calls))
    && (forall c | c in w.calls :: CallOk(w.calls[c]))
    && Sound(w.active, w.pollers, w.calls)
  }

  lemma AllMarksUpdate(calls: map<nat, Call>, c: nat, call: Call)
    ensures AllMarks(calls[c := call]) == AllMarks(calls)[c := Marks(call)]
    ensures AllBlocks(calls[c := call]) == AllBlocks(calls)[c := Blocks(call)]
    ensures c in calls && Marks(call) == Marks(calls[c]) ==> AllMarks(calls[c := call]) == AllMarks(calls)
    ensures c in calls && Blocks(call) == Blocks(calls[c]) ==> AllBlocks(calls[c := call]) == AllBlocks(calls)
  {
  }

  // ------------------------------------------------- tracking, step by step

  lemma EarlyTracked(active: map<Future, ReadState>, pollers: map<nat, seq<ReadState>>, calls: map<nat, Call>, c: nat,
                     call: Call)
    requires Sound(active, pollers, calls) && !InFlight(calls, c)
    ensures Sound(active, pollers, calls[c := call])
    ensures Tracked(active, pollers, calls) && (call.pc.Issued? ==> call.freed > 0)
            ==> Tracked(active, pollers, calls[c := call])
  {
    var after := calls[c := call];
    forall at | Holds(active, pollers, at) ensures IsRead(after, Kept(active, pollers, at)) {
      assert IsRead(calls, Kept(active, pollers, at));
    }
  }

  lemma RecordTracked(active: map<Future, ReadState>, pollers: map<nat, seq<ReadState>>, calls: map<nat, Call>, c: nat,
                      f: Future)
    requires Sound(active, pollers, calls) && c in calls && calls[c].pc.Promised? && calls[c].freed == 0
             && f !in active
    ensures var r := ReadState(c, calls[c].hashes, calls[c].blocks);
            && Sound(active[f := r], pollers, calls[c := calls[c].(pc := Issued)])
            && (Tracked(active, pollers, calls)
                ==> Tracked(active[f := r], pollers, calls[c := calls[c].(pc := Issued)]))
  {
    var r := ReadState(c, calls[c].hashes, calls[c].blocks);
    var more, after := active[f := r], calls[c := calls[c].(pc := Issued)];
    forall at | Holds(more, pollers, at) && at != Under(f)
      ensures Holds(active, pollers, at) && Kept(more, pollers, at) == Kept(active, pollers, at)
              && Kept(active, pollers, at).call != c
    {
      assert Holds(active, pollers, at);
      assert IsRead(calls, Kept(active, pollers, at));
    }
    forall d | InFlight(after, d) && Tracked(active, pollers, calls) ensures KeptSomewhere(more, pollers, d) {
      if d == c {
        assert Holds(more, pollers, Under(f)) && Kept(more, pollers, Under(f)).call == c;
      } else {
        assert InFlight(calls, d) && KeptSomewhere(active, pollers, d);
        var at :| Holds(active, pollers, at) && Kept(active, pollers, at).call == d;
        assert Holds(more, pollers, at) && Kept(more, pollers, at).call == d;
      }
    }
  }

  function TakenFrom(p: nat, fs: seq<Future>, at: Place): Place {
    if at.At? && at.p == p && at.i < |fs| then Under(fs[at.i]) else at
  }

  lemma TakeTracked(active: map<Future, ReadState>, pollers: map<nat, seq<ReadState>>, calls: map<nat, Call>, p: nat,
                    fs: seq<Future>)
    requires Sound(active, pollers, calls) && p !in pollers
    requires (forall i | 0 <= i < |fs| :: fs[i] in active) && (forall i, j | 0 <= i < j < |fs| :: fs[i] != fs[j])
    ensures Sound(active - SetOf(fs), pollers[p := Taken(active, fs)], calls)
    ensures forall c | KeptSomewhere(active, pollers, c) ::
            KeptSomewhere(active - SetOf(fs), pollers[p := Taken(active, fs)], c)
  {
    var less, more := active - SetOf(fs), pollers[p := Taken(active, fs)];
    forall at | Holds(less, more, at)
      ensures Holds(active, pollers, TakenFrom(p, fs, at))
              && Kept(less, more, at) == Kept(active, pollers, TakenFrom(p, fs, at))
    {
    }
    forall a, b | Holds(less, more, a) && Holds(less, more, b) && Kept(less, more, a).call == Kept(less, more, b).call
        ensures a == b {
      assert TakenFrom(p, fs, a) == TakenFrom(p, fs, b);
      TakenOnce(active, p, fs, a, b);
    }
    forall c | KeptSomewhere(active, pollers, c) ensures KeptSomewhere(less, more, c) {
      var at :| Holds(active, pollers, at) && Kept(active, pollers, at).call == c;
      if at.Under? && at.f in SetOf(fs) {
        var i :| 0 <= i < |fs| && fs[i] == at.f;
        assert Holds(less, more, At(p, i)) && Kept(less, more, At(p, i)).call == c;
      } else {
        assert Holds(less, more, at) && Kept(less, more, at).call == c;
      }
    }
  }

  lemma TakenOnce(active: map<Future, ReadState>, p: nat, fs: seq<Future>, a: Place, b: Place)
    requires (forall i, j | 0 <= i < j < |fs| :: fs[i] != fs[j]) && TakenFrom(p, fs, a) == TakenFrom(p, fs, b)
    requires (a.Under? ==> a.f !in SetOf(fs)) && (b.Under? ==> b.f !in SetOf(fs))
    ensures a == b
  {
  }

  function SettledFrom(p: nat, at: Place): Place {
    if at.At? && at.p == p then At(p, at.i + 1) else at
  }

  lemma SettleTracked(active: map<Future, ReadState>, pollers: map<nat, seq<ReadState>>, calls: map<nat, Call>, p: nat,
                      call: Call)
    requires Sound(active, pollers, calls) && p in pollers && pollers[p] != [] && call.freed > 0
    ensures Sound(active, pollers[p := pollers[p][1..]], calls[pollers[p][0].call := call])
    ensures forall d | KeptSomewhere(active, pollers, d) && d != pollers[p][0].call ::
            KeptSomewhere(active, pollers[p := pollers[p][1..]], d)
  {
    var less, c := pollers[p := pollers[p][1..]], pollers[p][0].call;
    var after := calls[c := call];
    assert Holds(active, pollers, At(p, 0)) && Kept(active, pollers, At(p, 0)).call == c;
    forall at | Holds(active, less, at)
      ensures var was := SettledFrom(p, at);
              Holds(active, pollers, was) && Kept(active, less, at) == Kept(active, pollers, was)
                  && Kept(active, pollers, was).call != c
    {
      assert Holds(active, pollers, SettledFrom(p, at)) && SettledFrom(p, at) != At(p, 0);
    }
    forall at | Holds(active, less, at) ensures IsRead(after, Kept(active, less, at)) {
      assert IsRead(calls, Kept(active, pollers, SettledFrom(p, at)));
    }
    forall a, b | Holds(active, less, a) && Holds(active, less, b)
        && Kept(active, less, a).call == Kept(active, less, b).call ensures a == b {
      assert SettledFrom(p, a) == SettledFrom(p, b);
    }
    forall d | KeptSomewhere(active, pollers, d) && d != c ensures KeptSomewhere(active, less, d) {
      var at :| Holds(active, pollers, at) && Kept(active, pollers, at).call == d;
      var now := if at.At? && at.p == p then At(p, at.i - 1) else at;
      assert Holds(active, less, now) && Kept(active, less, now).call == d;
    }
  }

  lemma EndTracked(active: map<Future, ReadState>, pollers: map<nat, seq<ReadState>>, calls: map<nat, Call>, p: nat)
    requires Sound(active, pollers, calls) && p in pollers && pollers[p] == []
    ensures Sound(active, pollers - {p}, calls)
    ensures forall c | KeptSomewhere(active, pollers, c) :: KeptSomewhere(active, pollers - {p}, c)
  {
    var less := pollers - {p};
    forall at ensures Holds(active, less, at) == Holds(active, pollers, at) {
    }
    forall c | KeptSomewhere(active, pollers, c) ensures KeptSomewhere(active, less, c) {
      var at :| Holds(active, pollers, at) && Kept(active, pollers, at).call == c;
      assert Holds(active, less, at) && Kept(active, less, at).call == c;
    }
  }

  // ------------------------------------------------------- every step keeps Inv

  predicate OfCall(e: Event) {
    e.Allocate? || e.MarkAll? || e.GiveUp? || e.FreeBlocks? || e.DropMarks?
  }

  lemma CallMarks(w: World, e: Event)
    requires Partition(w.reading, AllMarks(w.calls)) && Enabled(w, e) && OfCall(e)
    requires e.c in w.calls ==> CallOk(w.calls[e.c])
    ensures Partition(Step(w, e).reading, AllMarks(Step(w, e).calls))
  {
    match e
    case Allocate(c, hs, blocks) => MovedMarks(w.reading, w.calls, c, Step(w, e).calls[c]);
    case MarkAll(c) => MarkAllMarks(w, c);
    case GiveUp(c) => MovedMarks(w.reading, w.calls, c, Step(w, e).calls[c]);
    case FreeBlocks(c) => MovedMarks(w.reading, w.calls, c, Step(w, e).calls[c]);
    case DropMarks(c) => DroppedMarks(w.reading, w.calls, c, Step(w, e).calls[c]);
  }

  lemma MovedMarks(reading: set<Hash>, calls: map<nat, Call>, c: nat, call: Call)
    requires Partition(reading, AllMarks(calls)) && Marks(call) == (if c in calls then Marks(calls[c]) else {})
    ensures Partition(reading, AllMarks(calls[c := call]))
  {
    AllMarksUpdate(calls, c, call);
    if c !in calls {
      NoneGrows(reading, AllMarks(calls), c);
    }
  }

  lemma DroppedMarks(reading: set<Hash>, calls: map<nat, Call>, c: nat, call: Call)
    requires Partition(reading, AllMarks(calls)) && c in calls && Marks(call) == {}
    ensures Partition(reading - Marks(calls[c]), AllMarks(calls[c := call]))
  {
    AllMarksUpdate(calls, c, call);
    PartitionShrinks(reading, AllMarks(calls), c);
  }

  lemma MarkAllMarks(w: World, c: nat)
    requires Partition(w.reading, AllMarks(w.calls)) && Enabled(w, MarkAll(c)) && CallOk(w.calls[c])
    ensures Partition(Step(w, MarkAll(c)).reading, AllMarks(Step(w, MarkAll(c)).calls))
  {
    var m := Mark(w.reading, w.calls[c].hashes);
    MarkShape(w.reading, w.calls[c].hashes);
    var call := w.calls[c].(pc := if m.ok then AllMarked else Freeing(m.mine));
    assert Marks(call) == SetOf(m.mine);
    AllMarksUpdate(w.calls, c, call);
    PartitionGrows(w.reading, AllMarks(w.calls), c, SetOf(m.mine));
  }

  lemma CallBlocks(w: World, e: Event)
    requires Partition(w.out, AllBlocks(w.calls)) && Enabled(w, e) && OfCall(e)
    requires e.c in w.calls ==> CallOk(w.calls[e.c])
    ensures Partition(Step(w, e).out, AllBlocks(Step(w, e).calls))
  {
    AllMarksUpdate(w.calls, e.c, Step(w, e).calls[e.c]);
    match e
    case Allocate(c, hs, blocks) => PartitionGrows(w.out, AllBlocks(w.calls), c, SetOf(blocks));
    case MarkAll(c) =>
    case GiveUp(c) =>
    case FreeBlocks(c) => PartitionShrinks(w.out, AllBlocks(w.calls), c);
    case DropMarks(c) =>
  }

  lemma CallStepKeeps(w: World, e: Event)
    requires Inv(w) && Enabled(w, e) && OfCall(e)
    ensures Inv(Step(w, e))
  {
    assert e.c in w.calls ==> CallOk(w.calls[e.c]);
    CallMarks(w, e);
    CallBlocks(w, e);
    EarlyTracked(w.active, w.pollers, w.calls, e.c, Step(w, e).calls[e.c]);
  }

  lemma NoneGrows<T(!new)>(pool: set<T>, owned: map<nat, set<T>>, c: nat)
    requires Partition(pool, owned) && c !in owned
    ensures Partition(pool, owned[c := {}])
  {
    PartitionGrows(pool, owned, c, {});
    assert pool + {} == pool;
  }

  /** Whatever future a call is given. */
  lemma GivenKeeps(w: World, c: nat, f: Future)
    requires Inv(w) && c in w.calls && w.calls[c].pc.AllMarked?
    ensures Inv(SetCall(w, c, w.calls[c].(pc := Promised(f))))
  {
    assert CallOk(w.calls[c]);
    AllMarksUpdate(w.calls, c, w.calls[c].(pc := Promised(f)));
    EarlyTracked(w.active, w.pollers, w.calls, c, w.calls[c].(pc := Promised(f)));
  }

  lemma RecordKeeps(w: World, c: nat)
    requires Inv(w) && Enabled(w, Record(c))
    ensures Inv(Step(w, Record(c)))
  {
    assert CallOk(w.calls[c]);
    AllMarksUpdate(w.calls, c, w.calls[c].(pc := Issued));
    if w.calls[c].pc.f in w.active {
      EarlyTracked(w.active, w.pollers, w.calls, c, w.calls[c].(pc := Issued));
    } else {
      RecordTracked(w.active, w.pollers, w.calls, c, w.calls[c].pc.f);
    }
  }

  lemma SettleFrees(w: World, r: ReadState, call: Call)
    requires Partition(w.reading, AllMarks(w.calls)) && Partition(w.out, AllBlocks(w.calls))
    requires IsRead(w.calls, r) && call == w.calls[r.call].(freed := 1)
    ensures Partition(w.reading - SetOf(r.hashes), AllMarks(w.calls[r.call := call]))
    ensures Partition(w.out - SetOf(r.blocks), AllBlocks(w.calls[r.call := call]))
  {
    AllMarksUpdate(w.calls, r.call, call);
    PartitionShrinks(w.reading, AllMarks(w.calls), r.call);
    PartitionShrinks(w.out, AllBlocks(w.calls), r.call);
  }

  lemma SettleKeeps(w: World, p: nat)
    requires Inv(w) && Enabled(w, SettleNext(p))
    ensures Inv(Step(w, SettleNext(p)))
  {
    var r := w.pollers[p][0];
    assert Holds(w.active, w.pollers, At(p, 0)) && Kept(w.active, w.pollers, At(p, 0)) == r;
    assert IsRead(w.calls, r) && CallOk(w.calls[r.call]);
    var call := w.calls[r.call].(freed := 1);
    SettleFrees(w, r, call);
    SettleTracked(w.active, w.pollers, w.calls, p, call);
  }

  lemma StepKeeps(w: World, e: Event)
    requires Inv(w) && Enabled(w, e)
    ensures Inv(Step(w, e))
  {
    match e
    case Promise(c, f) => GivenKeeps(w, c, f);
    case Record(c) => RecordKeeps(w, c);
    case TakeReady(p, fs) => TakeTracked(w.active, w.pollers, w.calls, p, fs);
    case SettleNext(p) => SettleKeeps(w, p);
    case EndPoll(p) => EndTracked(w.active, w.pollers, w.calls, p);
    case _ => CallStepKeeps(w, e);
  }

  // -------------------------------------------------------------- whole runs

  predicate Runs(w: World, es: seq<Event>)
    decreases |es|
  {
    es == [] || (Enabled(w, es[0]) && Runs(Step(w, es[0]), es[1..]))
  }

  function Run(w: World, es: seq<Event>): World
    requires Runs(w, es)
    decreases |es|
  {
    if es == [] then w else Run(Step(w, es[0]), es[1..])
  }

  lemma {:induction false} RunKeeps(w: World, es: seq<Event>)
    requires Inv(w) && Runs(w, es)
    ensures Inv(Run(w, es))
    decreases |es|
  {
    if es != [] {
      StepKeeps(w, es[0]);
      RunKeeps(Step(w, es[0]), es[1..]);
    }
  }

  ghost predicate Reachable(w: World) {
    exists es :: Runs(START, es) && Run(START, es) == w
  }

  lemma StartInv()
    ensures Inv(START) && Tracked(START.active, START.pollers, START.calls) && FuturesOk(START)
  {
    assert forall at :: !Holds(START.active, START.pollers, at);
  }

  lemma ReachableInv(w: World)
    requires Reachable(w)
    ensures Inv(w)
  {
    var es :| Runs(START, es) && Run(START, es) == w;
    StartInv();
    RunKeeps(START, es);
  }

  /** In every run, the reading marks are the disjoint union of the marks of the calls in flight. */
  lemma ReadingExact(w: World)
    requires Reachable(w)
    ensures Partition(w.reading, AllMarks(w.calls))
  {
    ReachableInv(w);
  }

  /**
    In every run, the blocks out for reads are the disjoint union of the blocks calls still
    hold: none is freed twice, and a refused or settled call has freed its own exactly once.
   */
  lemma StagingExact(w: World, c: nat)
    requires Reachable(w) && c in w.calls
    ensures Partition(w.out, AllBlocks(w.calls)) && w.calls[c].freed <= 1
    ensures w.calls[c].pc.Refused? || (w.calls[c].pc.Issued? && !InFlight(w.calls, c))
            ==> w.calls[c].freed == 1 && Marks(w.calls[c]) == {}
  {
    ReachableInv(w);
    assert CallOk(w.calls[c]);
  }

  // ------------------------------------------------- reads the pollers can see

  /** A future given to a call that has not recorded it is no key, and no other call's. */
  ghost predicate FuturesOk(w: World) {
    && (forall c | c in w.calls && w.calls[c].pc.Promised? :: w.calls[c].pc.f !in w.active)
    && (forall c, d | c in w.calls && d in w.calls && c != d && w.calls[c].pc.Promised? && w.calls[d].pc.Promised? ::
          w.calls[c].pc.f != w.calls[d].pc.f)
  }

  lemma StepFutures(w: World, e: Event)
    requires Inv(w) && FuturesOk(w) && Enabled(w, e)
    ensures FuturesOk(Step(w, e))
  {
    if e.SettleNext? {
      assert Holds(w.active, w.pollers, At(e.p, 0)) && IsRead(w.calls, Kept(w.active, w.pollers, At(e.p, 0)));
    }
  }

  lemma StepTracks(w: World, e: Event)
    requires Inv(w) && Tracked(w.active, w.pollers, w.calls) && FuturesOk(w) && Enabled(w, e)
    ensures var t := Step(w, e); Tracked(t.active, t.pollers, t.calls)
  {
    match e
    case Record(c) =>
      assert CallOk(w.calls[c]);
      RecordTracked(w.active, w.pollers, w.calls, c, w.calls[c].pc.f);
    case TakeReady(p, fs) => TakeTracked(w.active, w.pollers, w.calls, p, fs);
    case SettleNext(p) =>
      var r := w.pollers[p][0];
      SettleTracked(w.active, w.pollers, w.calls, p, w.calls[r.call].(freed := w.calls[r.call].freed + 1));
      var t := Step(w, e);
      forall c | InFlight(t.calls, c) ensures KeptSomewhere(t.active, t.pollers, c) {
        assert c != r.call && InFlight(w.calls, c);
      }
    case EndPoll(p) => EndTracked(w.active, w.pollers, w.calls, p);
    case _ => EarlyTracked(w.active, w.pollers, w.calls, e.c, Step(w, e).calls[e.c]);
  }

  lemma {:induction false} RunTracks(w: World, es: seq<Event>)
    requires Inv(w) && Tracked(w.active, w.pollers, w.calls) && FuturesOk(w) && Runs(w, es)
    ensures var t := Run(w, es); Tracked(t.active, t.pollers, t.calls) && FuturesOk(t)
    decreases |es|
  {
    if es != [] {
      StepKeeps(w, es[0]);
      StepTracks(w, es[0]);
      StepFutures(w, es[0]);
      RunTracks(Step(w, es[0]), es[1..]);
    }
  }

  /**
    In every run: a read in flight is kept where a poller will find it, because no call ever
    records its read under a future that is already a key.
   */
  lemma NeverLost(w: World, c: nat)
    requires Reachable(w) && c in w.calls
    ensures InFlight(w.calls, c) ==> KeptSomewhere(w.active, w.pollers, c)
    ensures w.calls[c].pc.Promised? ==> w.calls[c].pc.f !in w.active
  {
    var es :| Runs(START, es) && Run(START, es) == w;
    StartInv();
    RunTracks(START, es);
  }

  /** In flight, and kept nowhere. */
  ghost predicate Lost(w: World, c: nat) {
    InFlight(w.calls, c) && !KeptSomewhere(w.active, w.pollers, c)
  }

  lemma LostStep(w: World, e: Event, c: nat)
    requires Inv(w) && Lost(w, c) && Enabled(w, e)
    ensures var t := Step(w, e); Lost(t, c) && t.calls[c] == w.calls[c]
  {
    var t := Step(w, e);
    forall at | Holds(t.active, t.pollers, at) ensures Kept(t.active, t.pollers, at).call != c {
      var was := if e.TakeReady? then TakenFrom(e.p, e.fs, at) else if e.SettleNext? then SettledFrom(e.p, at) else at;
      if Holds(w.active, w.pollers, was) {
        assert Kept(w.active, w.pollers, was).call != c;
      }
    }
    if e.SettleNext? {
      assert Holds(w.active, w.pollers, At(e.p, 0)) && Kept(w.active, w.pollers, At(e.p, 0)).call != c;
    }
  }

  lemma {:induction false} LostRun(w: World, es: seq<Event>, c: nat)
    requires Inv(w) && Lost(w, c) && Runs(w, es)
    ensures Lost(Run(w, es), c) && Run(w, es).calls[c] == w.calls[c]
    decreases |es|
  {
    if es != [] {
      LostStep(w, es[0], c);
      StepKeeps(w, es[0]);
      LostRun(Step(w, es[0]), es[1..], c);
    }
  }

  /** A lost read is never settled: in every run its marks and its staging blocks stay taken. */
  lemma LostForever(w: World, es: seq<Event>, c: nat)
    requires Inv(w) && Lost(w, c) && Runs(w, es)
    ensures var t := Run(w, es);
            && Lost(t, c) && t.calls[c].freed == 0
            && (forall h | h in w.calls[c].hashes :: h in t.reading)
                && (forall b | b in w.calls[c].blocks :: b in t.out)
  {
    LostRun(w, es, c);
    RunKeeps(w, es);
    var t := Run(w, es);
    forall h | h in w.calls[c].hashes ensures h in t.reading {
      assert h in AllMarks(t.calls)[c];
    }
    forall b | b in w.calls[c].blocks ensures b in t.out {
      assert b in AllBlocks(t.calls)[c];
    }
  }

  /** Recording a read keeps it reachable for the pollers exactly when its future is not yet a key. */
  lemma RecordTracksIff(w: World, c: nat)
    requires Inv(w) && Enabled(w, Record(c))
    ensures var t := Step(w, Record(c));
            InFlight(t.calls, c) && (KeptSomewhere(t.active, t.pollers, c) <==> w.calls[c].pc.f !in w.active)
  {
    var t, f := Step(w, Record(c)), w.calls[c].pc.f;
    assert CallOk(w.calls[c]);
    if f !in w.active {
      assert Holds(t.active, t.pollers, Under(f)) && Kept(t.active, t.pollers, Under(f)).call == c;
    } else {
      forall at | Holds(t.active, t.pollers, at) ensures Kept(t.active, t.pollers, at).call != c {
        assert IsRead(w.calls, Kept(w.active, w.pollers, at));
      }
    }
  }

  /**
    Why the address matters: were a call given the future of a read still in the map, its own
    read would be in flight for good, and in no run would a poller see it.
   */
  lemma SharedFutureLoses(w: World, c: nat, f: Future, es: seq<Event>)
    requires Inv(w) && c in w.calls && w.calls[c].pc.AllMarked? && f in w.active
    ensures var given := SetCall(w, c, w.calls[c].(pc := Promised(f)));
            Enabled(given, Record(c)) && (Runs(Step(given, Record(c)), es) ==> Lost(Run(Step(given, Record(c)), es), c))
  {
    var given := SetCall(w, c, w.calls[c].(pc := Promised(f)));
    GivenKeeps(w, c, f);
    RecordTracksIff(given, c);
    RecordKeeps(given, c);
    if Runs(Step(given, Record(c)), es) {
      LostForever(Step(given, Record(c)), es, c);
    }
  }
}
