/**
  The receive side of a pool reshard
  (tpu_sync/core/kv_cache_manager_with_transfer.cc).  A pool arrives on the
  wire, its upload is launched once every pool of lower order rank has been
  uploaded, and the receive is finalised when all pools are uploaded, one
  fails, or the deadline passes.

  Each mutex section is one atomic step.  `Manager` holds the shared state and
  carries out the sections; `Session` is one receive together with the
  callbacks that are still on their way, and `Step` interleaves them freely.
 */
module PoolReshardRecv {
  import opened TransferTypes

  datatype RecvEntry = RecvEntry(
    reqId: string, expected: set<nat>, rank: map<nat, int>,
    started: set<nat>, launched: set<nat>, completed: set<nat>,
    finalizing: bool, networkCompleted: bool, futures: set<nat>)

  /** A pool without a recorded rank has rank zero. */
  function RankOf(rank: map<nat, int>, p: nat): int {
    if p in rank then rank[p] else 0
  }

  function Armed(reqId: string, expected: set<nat>, rank: map<nat, int>): RecvEntry {
    RecvEntry(reqId, expected, rank, {}, {}, {}, false, false, {})
  }

  // ------------------------------------------------- sections on one entry

  /** `OnPoolReceived`: undeclared or repeated pools are refused. */
  function Receive(e: RecvEntry, p: nat): Option<RecvEntry> {
    if p !in e.expected || p in e.started then None else Some(e.(started := e.started + {p}))
  }

  predicate PrerequisitesUploaded(e: RecvEntry, p: nat) {
    forall q | q in e.expected :: RankOf(e.rank, q) < RankOf(e.rank, p) ==> q in e.completed
  }

  function Eligible(e: RecvEntry): set<nat> {
    set p | p in e.started && p !in e.launched && PrerequisitesUploaded(e, p)
  }

  /**
    A pool has arrived, was not launched, and every expected pool whose entry in the armed map is
    lower has been uploaded; a pool without an entry counts as zero.
   */
  ghost predicate MayLaunch(e: RecvEntry, p: nat) {
    && p in e.started && p !in e.launched
    && (forall q | q in e.expected && q in e.rank && p in e.rank && e.rank[q] < e.rank[p] :: q in e.completed)
    && (forall q | q in e.expected && q in e.rank && p !in e.rank && e.rank[q] < 0 :: q in e.completed)
    && (forall q | q in e.expected && q !in e.rank && p in e.rank && 0 < e.rank[p] :: q in e.completed)
  }

  lemma EligibleExact(e: RecvEntry)
    ensures forall p :: p in Eligible(e) <==> MayLaunch(e, p)
  {
  }

  /** `LaunchEligiblePoolH2ds`, first section. */
  function Launch(e: RecvEntry): RecvEntry {
    if e.finalizing then e else e.(launched := e.launched + Eligible(e))
  }

  /** `FinishPoolReshardRecvPool`, first section: the entry, and whether this call finalises it. */
  function FinishFirst(e: RecvEntry, p: nat, ok: bool): (RecvEntry, bool) {
    if e.finalizing then (e, false)
    else if !ok then (e.(finalizing := true), true)
    else
      var c := e.completed + {p};
      if c == e.expected then (e.(completed := c, finalizing := true), true) else (e.(completed := c), false)
  }

  // ------------------------------------------------------- the shared state

  /** What the shared maps and sets say about one receive. */
  datatype Core = Core(entry: Option<RecvEntry>, inDone: bool, inFailed: bool)

  /** `FinishPoolReshardRecvPool`, second section, after the plan was unregistered. */
  function FinishSecond(c: Core, ok: bool): Core {
    if c.entry.None? then c
    else if !ok then Core(None, c.inDone, true)
    else Core(Some(c.entry.value.(networkCompleted := true)), true, c.inFailed)
  }

  /** The receive part of `CompleteReadRaw`, before the result sets are drained. */
  function Settle(c: Core, ready: set<nat>, expired: bool): Core {
    if c.entry.None? then c
    else if c.entry.value.networkCompleted && c.entry.value.futures <= ready then Core(None, true, c.inFailed)
    else if expired then Core(None, c.inDone, true)
    else c
  }

  class Manager {
    var active: map<nat, RecvEntry>
    var doneRecving: set<string>
    var failedRecving: set<string>

    constructor ()
      ensures active == map[] && doneRecving == {} && failedRecving == {}
    {
      active, doneRecving, failedRecving := map[], {}, {};
    }

    function View(uuid: nat, reqId: string): Core
      reads this
    {
      Core(if uuid in active then Some(active[uuid]) else None, reqId in doneRecving, reqId in failedRecving)
    }

    /** Arming is refused while the uuid is active. */
    method Arm(uuid: nat, reqId: string, expected: set<nat>, rank: map<nat, int>) returns (ok: bool)
      modifies this`active
      ensures ok <==> uuid !in old(active)
      ensures active == if ok then old(active)[uuid := Armed(reqId, expected, rank)] else old(active)
    {
      if uuid in active {
        return false;
      }
      active := active[uuid := Armed(reqId, expected, rank)];
      ok := true;
    }

    method OnPoolReceived(p: nat, uuid: nat) returns (ok: bool)
      modifies this`active
      ensures ok <==> uuid in old(active) && Receive(old(active[uuid]), p).Some?
      ensures active == if ok then old(active)[uuid := Receive(old(active[uuid]), p).value] else old(active)
    {
      if uuid !in active {
        return false;
      }
      var entry := active[uuid];
      if p !in entry.expected || p in entry.started {
        return false;
      }
      active := active[uuid := entry.(started := entry.started + {p})];
      ok := true;
    }

    /** Marks every eligible pool launched, and returns the newly launched ones. */
    method LaunchEligiblePoolH2ds(uuid: nat) returns (toLaunch: set<nat>)
      modifies this`active
      ensures uuid !in old(active) ==> active == old(active) && toLaunch == {}
      ensures uuid in old(active) ==>
                && active == old(active)[uuid := Launch(old(active[uuid]))]
                && toLaunch == (if old(active[uuid]).finalizing then {} else Eligible(old(active[uuid])))
                && (!old(active[uuid]).finalizing ==> forall p :: p in toLaunch <==> MayLaunch(old(active[uuid]), p))
    {
      toLaunch := {};
      if uuid !in active {
        return;
      }
      var entry := active[uuid];
      if entry.finalizing {
        active := active[uuid := entry];
        return;
      }
      var todo, launched := entry.started, entry.launched;
      while todo != {}
        invariant active == old(active)
        invariant todo <= entry.started
        invariant toLaunch == Eligible(entry) - todo
        invariant launched == entry.launched + toLaunch
        decreases todo
      {
        var p :| p in todo;
        todo := todo - {p};
        if p !in launched {
          var uploaded := Uploaded(entry, p);
          if uploaded {
            launched := launched + {p};
            toLaunch := toLaunch + {p};
          }
        }
      }
      assert toLaunch == Eligible(entry);
      EligibleExact(entry);
      assert entry.(launched := launched) == Launch(entry);
      active := active[uuid := entry.(launched := launched)];
    }

    /** The inner loop: whether every expected pool of lower rank has completed its upload. */
    method Uploaded(entry: RecvEntry, p: nat) returns (ok: bool)
      ensures ok <==> PrerequisitesUploaded(entry, p)
    {
      var others := entry.expected;
      while others != {}
        invariant others <= entry.expected
        invariant forall q | q in entry.expected - others ::
                    RankOf(entry.rank, q) < RankOf(entry.rank, p) ==> q in entry.completed
        decreases others
      {
        var q :| q in others;
        if RankOf(entry.rank, q) < RankOf(entry.rank, p) && q !in entry.completed {
          return false;
        }
        others := others - {q};
      }
      ok := true;
    }

    /** Remembers a dispatched upload's future, if the receive is still active. */
    method RecordFuture(uuid: nat, p: nat)
      modifies this`active
      ensures active == if uuid in old(active)
              then old(active)[uuid := old(active[uuid]).(futures := old(active[uuid].futures) + {p})]
                        else old(active)
    {
      if uuid in active {
        active := active[uuid := active[uuid].(futures := active[uuid].futures + {p})];
      }
    }

    method FinishPoolFirst(uuid: nat, p: nat, ok: bool) returns (finished: bool)
      modifies this`active
      ensures uuid !in old(active) ==> !finished && active == old(active)
      ensures uuid in old(active) ==>
                (active, finished) == (old(active)[uuid := FinishFirst(old(active[uuid]), p, ok).0],
                                       FinishFirst(old(active[uuid]), p, ok).1)
    {
      finished := false;
      if uuid !in active {
        return;
      }
      var entry := active[uuid];
      if !entry.finalizing {
        if !ok {
          entry := entry.(finalizing := true);
          finished := true;
        } else {
          entry := entry.(completed := entry.completed + {p});
          if entry.completed == entry.expected {
            entry := entry.(finalizing := true);
            finished := true;
          }
        }
      }
      active := active[uuid := entry];
    }

    /** The finalising call, back under the lock: the entry may have timed out meanwhile. */
    method FinishPoolSecond(uuid: nat, ghost reqId: string, ok: bool)
      requires uuid in active ==> active[uuid].reqId == reqId
      modifies this
      ensures View(uuid, reqId) == FinishSecond(old(View(uuid, reqId)), ok)
      ensures forall u, r | u != uuid && r != reqId :: View(u, r) == old(View(u, r))
    {
      if uuid !in active {
        return;
      }
      var entry := active[uuid];
      if !ok {
        failedRecving := failedRecving + {entry.reqId};
        active := active - {uuid};
      } else {
        active := active[uuid := entry.(networkCompleted := true)];
        doneRecving := doneRecving + {entry.reqId};
      }
    }

    /** Settles every active receive and drains the result sets. */
    method CompleteReadRaw(expired: set<nat>, ready: map<nat, set<nat>>)
        returns (done: set<string>, failed: set<string>)
      modifies this
      ensures active == Kept(old(active), old(active.Keys), ready, expired)
      ensures done == old(doneRecving) + DoneReqs(old(active), old(active.Keys), ready)
      ensures failed == old(failedRecving) + FailedReqs(old(active), old(active.Keys), ready, expired)
      ensures doneRecving == {} && failedRecving == {}
      // the same, outright
      ensures forall u | u in old(active) ::
                u in active <==> u !in expired && !Over(old(active)[u], ready, u)
      ensures forall u | u in old(active) && Over(old(active)[u], ready, u) ::
                old(active)[u].reqId in done
      ensures forall u | u in old(active) && u in expired && !Over(old(active)[u], ready, u) ::
                old(active)[u].reqId in failed
      // each receive alone: what the one-receive machine does at a poll
      ensures forall u, r | OnlyRequest(old(active), u, r) ::
                SettledLike(active, done, failed, u, r, Settle(old(View(u, r)), Ready(ready, u), u in expired))
    {
      var m := active;
      active, done, failed := SettleAll(m, doneRecving, failedRecving, ready, expired);
      forall u | u in m ensures Finishes(m[u], Ready(ready, u)) <==> Over(m[u], ready, u) {
      }
      forall u, r | OnlyRequest(m, u, r)
        ensures SettledLike(active, done, failed, u, r, Settle(old(View(u, r)), Ready(ready, u), u in expired))
      {
        SettlesEach(m, doneRecving, failedRecving, ready, expired, u, r);
      }
      doneRecving, failedRecving := {}, {};
    }
  }

  /** The sweep over the active receives inside `CompleteReadRaw`. */
  method SettleAll(m: map<nat, RecvEntry>, done0: set<string>, failed0: set<string>, ready: map<nat, set<nat>>,
                   expired: set<nat>)
    returns (kept: map<nat, RecvEntry>, done: set<string>, failed: set<string>)
    ensures kept == Kept(m, m.Keys, ready, expired)
    ensures done == done0 + DoneReqs(m, m.Keys, ready)
    ensures failed == failed0 + FailedReqs(m, m.Keys, ready, expired)
  {
    kept, done, failed := m, done0, failed0;
    var todo, seen: set<nat> := m.Keys, {};
    while todo != {}
      invariant todo !! seen && todo + seen == m.Keys
      invariant kept == Kept(m, seen, ready, expired)
      invariant done == done0 + DoneReqs(m, seen, ready)
      invariant failed == failed0 + FailedReqs(m, seen, ready, expired)
      decreases todo
    {
      var u :| u in todo;
      var entry := m[u];
      SettleDone(m, seen, u, ready);
      SettleFailed(m, seen, u, ready, expired);
      SettleKept(m, seen, u, ready, expired);
      if entry.networkCompleted && entry.futures <= Ready(ready, u) {
        done := done + {entry.reqId};
        kept := kept - {u};
      } else if u in expired {
        failed := failed + {entry.reqId};
        kept := kept - {u};
      }
      todo, seen := todo - {u}, seen + {u};
    }
  }

  /** The receive is completed, and every upload it remembers has finished. */
  ghost predicate Over(e: RecvEntry, ready: map<nat, set<nat>>, u: nat) {
    e.networkCompleted && forall p | p in e.futures :: u in ready && p in ready[u]
  }

  function Ready(ready: map<nat, set<nat>>, u: nat): set<nat> {
    if u in ready then ready[u] else {}
  }

  predicate Finishes(e: RecvEntry, ready: set<nat>) {
    e.networkCompleted && e.futures <= ready
  }

  function DoneReqs(m: map<nat, RecvEntry>, keys: set<nat>, ready: map<nat, set<nat>>): set<string> {
    set u | u in keys && u in m && Finishes(m[u], Ready(ready, u)) :: m[u].reqId
  }

  function FailedReqs(m: map<nat, RecvEntry>, keys: set<nat>, ready: map<nat, set<nat>>,
                      expired: set<nat>): set<string> {
    set u | u in keys && u in m && !Finishes(m[u], Ready(ready, u)) && u in expired :: m[u].reqId
  }

  function Kept(m: map<nat, RecvEntry>, keys: set<nat>, ready: map<nat, set<nat>>,
                expired: set<nat>): map<nat, RecvEntry> {
    map u | u in m && !(u in keys && (Finishes(m[u], Ready(ready, u)) || u in expired)) :: m[u]
  }

  lemma SettleDone(m: map<nat, RecvEntry>, keys: set<nat>, u: nat, ready: map<nat, set<nat>>)
    requires u in m && u !in keys
    ensures DoneReqs(m, keys + {u}, ready)
            == DoneReqs(m, keys, ready) + if Finishes(m[u], Ready(ready, u)) then {m[u].reqId} else {}
  {
    var l, r := DoneReqs(m, keys + {u}, ready), DoneReqs(m, keys, ready);
    forall x ensures x in l <==> x in r || (Finishes(m[u], Ready(ready, u)) && x == m[u].reqId) {
    }
  }

  lemma SettleFailed(m: map<nat, RecvEntry>, keys: set<nat>, u: nat, ready: map<nat, set<nat>>, expired: set<nat>)
    requires u in m && u !in keys
    ensures FailedReqs(m, keys + {u}, ready, expired)
         == FailedReqs(m, keys, ready, expired) + if !Finishes(m[u], Ready(ready, u)) && u in expired then {m[u].reqId}
             else {}
  {
    var l, r := FailedReqs(m, keys + {u}, ready, expired), FailedReqs(m, keys, ready, expired);
    forall x ensures x in l <==> x in r || (!Finishes(m[u], Ready(ready, u)) && u in expired && x == m[u].reqId) {
    }
  }

  lemma SettleKept(m: map<nat, RecvEntry>, keys: set<nat>, u: nat, ready: map<nat, set<nat>>, expired: set<nat>)
    requires u in m && u !in keys
    ensures Kept(m, keys + {u}, ready, expired)
         == if Finishes(m[u], Ready(ready, u)) || u in expired then Kept(m, keys, ready, expired) - {u}
             else Kept(m, keys, ready, expired)
  {
    if Finishes(m[u], Ready(ready, u)) || u in expired {
      assert Kept(m, keys + {u}, ready, expired) == Kept(m, keys, ready, expired) - {u};
    } else {
      assert Kept(m, keys + {u}, ready, expired) == Kept(m, keys, ready, expired);
    }
  }

  /** Among the active receives, request `r` is that of `u` and of no other. */
  ghost predicate OnlyRequest(m: map<nat, RecvEntry>, u: nat, r: string) {
    forall v | v in m :: m[v].reqId == r <==> v == u
  }

  /** The manager's map and result sets say of one receive what `c` says. */
  ghost predicate SettledLike(m: map<nat, RecvEntry>, done: set<string>, failed: set<string>, u: nat, r: string,
                              c: Core) {
    c == Core(if u in m then Some(m[u]) else None, r in done, r in failed)
  }

  /** Settling all receives at once settles each one, provided no two active receives share a request id. */
  lemma SettlesEach(m: map<nat, RecvEntry>, done: set<string>, failed: set<string>, ready: map<nat, set<nat>>,
                    expired: set<nat>,
                    u: nat, r: string)
    requires OnlyRequest(m, u, r)
    ensures SettledLike(Kept(m, m.Keys, ready, expired), done + DoneReqs(m, m.Keys, ready),
                        failed + FailedReqs(m, m.Keys, ready, expired), u, r,
                        Settle(Core(if u in m then Some(m[u]) else None, r in done, r in failed), Ready(ready, u),
                               u in expired))
  {
    if u in m {
      assert Finishes(m[u], Ready(ready, u)) ==> m[u].reqId in DoneReqs(m, m.Keys, ready);
      assert !Finishes(m[u], Ready(ready, u)) && u in expired ==> m[u].reqId in FailedReqs(m, m.Keys, ready, expired);
    }
  }

  // --------------------------------------------- one receive, interleaved

  /**
    One armed receive and everything in flight around it.
    `pending` counts callers about to run the launch section; `dispatching`
    are pools launched but not yet handed to the copy engine, `inFlight` those
    it is copying, `unrecorded` dispatched futures not yet remembered;
    `finisher` is the call between its two finalising sections.
    The remaining fields are history.
   */
  datatype Session = Session(
    core: Core, pending: nat, dispatching: set<nat>, inFlight: set<nat>, unrecorded: set<nat>, finisher: Option<bool>,
    expected: set<nat>, rank: map<nat, int>, footprint: map<nat, set<int>>,
    launches: multiset<nat>, uploaded: set<nat>, log: seq<Landing>, reportedDone: nat, reportedFailed: nat)

  /** A device byte written by a pool's upload. */
  datatype Landing = Landing(pool: nat, addr: int)

  datatype Event =
    | Received(p: nat)
    | LaunchSection
    | DispatchFailed(p: nat)
    | Dispatched(p: nat)
    | Recorded(p: nat)
    | Landed(p: nat, a: int)
    | Completed(p: nat, ok: bool)
    | FinishSection(unregistered: bool)
    | Poll(expired: bool, ready: set<nat>)

  function Begin(reqId: string, expected: set<nat>, rank: map<nat, int>, footprint: map<nat, set<int>>): Session {
    Session(Core(Some(Armed(reqId, expected, rank)), false, false), 0, {}, {}, {}, None,
            expected, rank, footprint, multiset{}, {}, [], 0, 0)
  }

  predicate AllLanded(s: Session, p: nat) {
    p in s.footprint ==> forall a | a in s.footprint[p] :: Landing(p, a) in s.log
  }

  /** When a step can happen: callbacks fire once, and an upload completes after its bytes have landed. */
  predicate Enabled(s: Session, e: Event) {
    match e
    case Received(p) => true
    case LaunchSection => s.pending > 0
    case DispatchFailed(p) => p in s.dispatching
    case Dispatched(p) => p in s.dispatching
    case Recorded(p) => p in s.unrecorded
    case Landed(p, a) => p in s.inFlight
    case Completed(p, ok) => p in s.inFlight && (ok ==> AllLanded(s, p))
    case FinishSection(_) => s.finisher.Some?
    case Poll(_, ready) => forall p | p in s.uploaded :: p in ready
  }

  /** A completion, seen by the first finishing section. */
  function Complete(s: Session, p: nat, ok: bool): Session {
    if s.core.entry.None? || s.core.entry.value.finalizing then s
    else
      var r := FinishFirst(s.core.entry.value, p, ok);
      var t := s.(core := s.core.(entry := Some(r.0)));
      if r.1 then t.(finisher := Some(ok)) else t.(pending := t.pending + 1)
  }

  function Step(s: Session, e: Event): Session
    requires Enabled(s, e)
  {
    match e
    case Received(p) =>
      if s.core.entry.None? || Receive(s.core.entry.value, p).None? then s
      else s.(core := s.core.(entry := Some(Receive(s.core.entry.value, p).value)), pending := s.pending + 1)
    case LaunchSection =>
      var t := s.(pending := s.pending - 1);
      if s.core.entry.None? || s.core.entry.value.finalizing then t
      else
        var newly := Eligible(s.core.entry.value);
        t.(core := s.core.(entry := Some(Launch(s.core.entry.value))),
           dispatching := s.dispatching + newly, launches := s.launches + multiset(newly))
    case DispatchFailed(p) => Complete(s.(dispatching := s.dispatching - {p}), p, false)
    case Dispatched(p) =>
      s.(dispatching := s.dispatching - {p}, inFlight := s.inFlight + {p}, unrecorded := s.unrecorded + {p})
    case Recorded(p) =>
      var t := s.(unrecorded := s.unrecorded - {p});
      if s.core.entry.None? then t
      else t.(core := s.core.(entry := Some(s.core.entry.value.(futures := s.core.entry.value.futures + {p}))))
    case Landed(p, a) => s.(log := s.log + [Landing(p, a)])
    case Completed(p, ok) =>
      Complete(s.(inFlight := s.inFlight - {p}, uploaded := if ok then s.uploaded + {p} else s.uploaded), p, ok)
    case FinishSection(unregistered) =>
      s.(core := FinishSecond(s.core, s.finisher.value && unregistered), finisher := None)
    case Poll(expired, ready) =>
      var c := Settle(s.core, ready, expired);
      s.(core := Core(c.entry, false, false),
         reportedDone := s.reportedDone + if c.inDone then 1 else 0,
         reportedFailed := s.reportedFailed + if c.inFailed then 1 else 0)
  }

  function Run(s: Session, es: seq<Event>): Session
    requires Runs(s, es)
    decreases |es|
  {
    if es == [] then s else Run(Step(s, es[0]), es[1..])
  }

  predicate Runs(s: Session, es: seq<Event>)
    decreases |es|
  {
    es == [] || (Enabled(s, es[0]) && Runs(Step(s, es[0]), es[1..]))
  }

  // -------------------------------------------------------------- invariants

  /** The four pool sets nest, and agree with what is launched, uploaded and in flight. */
  ghost predicate NestedEntry(e: RecvEntry, expected: set<nat>, rank: map<nat, int>, launches: multiset<nat>,
                              uploaded: set<nat>, busy: set<nat>) {
    && e.expected == expected && e.rank == rank
    && e.completed <= e.launched <= e.started <= e.expected
    && (forall p :: p in e.launched <==> p in launches)
    && e.completed <= uploaded
    && (!e.finalizing ==> e.launched - e.completed == busy)
    && (e.completed == e.expected ==> e.finalizing)
    && e.futures <= e.launched
    && (e.networkCompleted ==> e.finalizing && e.completed == e.expected)
  }

  ghost predicate Nested(s: Session) {
    s.core.entry.Some? ==>
      NestedEntry(s.core.entry.value, s.expected, s.rank, s.launches, s.uploaded, s.dispatching + s.inFlight)
  }

  /** History: each pool is launched once, only over uploaded lower ranks, and bytes land in rank order. */
  ghost predicate Ordered(s: Session) {
    OrderedSets(s) && OrderedLog(s)
  }

  /** Finalising is handed to one call, and leaves one outcome. */
  ghost predicate Settled(s: Session) {
    && (s.core.entry.Some? ==>
          && (s.finisher.Some? ==> s.core.entry.value.finalizing && !s.core.entry.value.networkCompleted)
          && (s.core.entry.value.finalizing && !s.core.entry.value.networkCompleted ==> s.finisher.Some?)
          && (s.finisher == Some(true) ==> s.core.entry.value.completed == s.expected))
    && Outcomes(s) == (if s.core.entry.Some? && !s.core.entry.value.networkCompleted then 0 else 1)
    && (s.core.entry.Some? && s.core.entry.value.networkCompleted ==> s.core.inDone)
  }

  function Outcomes(s: Session): nat {
    s.reportedDone + s.reportedFailed + (if s.core.inDone then 1 else 0) + (if s.core.inFailed then 1 else 0)
  }

  /** No lost wake-up: with no launch section outstanding, nothing eligible is left unlaunched. */
  ghost predicate Awake(s: Session) {
    s.core.entry.Some? && !s.core.entry.value.finalizing && s.pending == 0 ==> Eligible(s.core.entry.value) == {}
  }

  ghost predicate Inv(s: Session) {
    s.expected != {} && Nested(s) && Ordered(s) && Settled(s) && Awake(s)
  }

  lemma BeginInv(reqId: string, expected: set<nat>, rank: map<nat, int>, footprint: map<nat, set<int>>)
    requires expected != {}
    ensures Inv(Begin(reqId, expected, rank, footprint))
  {
  }

  /** The parts of the order invariant that do not mention the log. */
  ghost predicate OrderedSets(s: Session) {
    && (forall p :: s.launches[p] <= 1)
    && (forall p | p in s.launches :: p in s.expected)
    && s.dispatching !! s.inFlight && s.uploaded !! (s.dispatching + s.inFlight)
    && (forall p | p in s.dispatching + s.inFlight + s.unrecorded + s.uploaded :: p in s.launches)
    && (forall p, q | q in s.launches && p in s.expected && RankOf(s.rank, p) < RankOf(s.rank, q) :: p in s.uploaded)
  }

  /** The landed bytes, in rank order; an uploaded pool's bytes have all landed. */
  ghost predicate OrderedLog(s: Session) {
    && (forall i | 0 <= i < |s.log| :: s.log[i].pool in s.launches)
    && (forall i, j | 0 <= i < j < |s.log| :: RankOf(s.rank, s.log[i].pool) <= RankOf(s.rank, s.log[j].pool))
    && (forall p | p in s.uploaded :: AllLanded(s, p))
  }

  /** Steps that write no device byte keep the landed order as long as launches and uploads only grow suitably. */
  lemma SameLog(s: Session, t: Session)
    requires OrderedLog(s) && t.log == s.log && t.rank == s.rank && t.footprint == s.footprint
    requires forall p | p in s.launches :: p in t.launches
    requires forall p | p in t.uploaded :: p in s.uploaded || AllLanded(s, p)
    ensures OrderedLog(t)
  {
    forall p | p in t.uploaded ensures AllLanded(t, p) {
      assert AllLanded(s, p);
    }
  }

  lemma LandedKeeps(s: Session, p: nat, a: int)
    requires Inv(s) && Enabled(s, Landed(p, a))
    ensures Inv(Step(s, Landed(p, a)))
  {
    var t := Step(s, Landed(p, a));
    assert p in s.launches && p !in s.uploaded;
    forall i | 0 <= i < |s.log| ensures RankOf(s.rank, s.log[i].pool) <= RankOf(s.rank, p) {
      assert s.log[i].pool in s.launches && p in s.expected;
    }
    forall q | q in t.uploaded ensures AllLanded(t, q) {
      assert AllLanded(s, q);
    }
    assert OrderedLog(t);
  }

  /** Steps that only move a pool between the in-flight sets. */
  lemma MoveKeeps(s: Session, e: Event)
    requires Inv(s) && Enabled(s, e) && (e.Dispatched? || e.Recorded?)
    ensures Inv(Step(s, e))
  {
    var t := Step(s, e);
    SameLog(s, t);
    if e.Dispatched? {
      assert t.dispatching + t.inFlight == s.dispatching + s.inFlight;
    }
  }

  lemma ReceivedKeeps(s: Session, p: nat)
    requires Inv(s)
    ensures Inv(Step(s, Received(p)))
  {
    SameLog(s, Step(s, Received(p)));
  }

  /** Launching: exactly the eligible pools join, each for the first time, over uploaded lower ranks. */
  lemma LaunchOrdered(s: Session)
    requires Nested(s) && OrderedSets(s) && Enabled(s, LaunchSection)
    ensures OrderedSets(Step(s, LaunchSection))
  {
    if s.core.entry.Some? && !s.core.entry.value.finalizing {
      var t, entry := Step(s, LaunchSection), s.core.entry.value;
      var newly := Eligible(entry);
      forall p | p in newly ensures p in s.expected && p !in s.launches && p !in s.uploaded {
        assert p !in entry.launched;
      }
      assert forall p :: p in t.launches <==> p in s.launches || p in newly;
      forall p, q | q in t.launches && p in s.expected && RankOf(s.rank, p) < RankOf(s.rank, q)
          ensures p in s.uploaded {
        if q in newly {
          assert PrerequisitesUploaded(entry, q);
        }
      }
    }
  }

  lemma LaunchedNotEligible(e: RecvEntry)
    requires !e.finalizing
    ensures Eligible(Launch(e)) == {}
  {
    assert forall p :: PrerequisitesUploaded(e, p) <==> PrerequisitesUploaded(Launch(e), p);
  }

  lemma LaunchNested(e: RecvEntry, expected: set<nat>, rank: map<nat, int>, launches: multiset<nat>, uploaded: set<nat>,
                     busy: set<nat>)
    requires NestedEntry(e, expected, rank, launches, uploaded, busy) && !e.finalizing
    ensures NestedEntry(Launch(e), expected, rank, launches + multiset(Eligible(e)), uploaded, busy + Eligible(e))
  {
    var newly := Eligible(e);
    assert newly !! e.launched && newly <= e.started;
    assert Launch(e).launched - e.completed == (e.launched - e.completed) + newly;
  }

  lemma LaunchNestedSession(s: Session)
    requires Nested(s) && Enabled(s, LaunchSection)
    ensures Nested(Step(s, LaunchSection))
  {
    if s.core.entry.Some? && !s.core.entry.value.finalizing {
      var e, t := s.core.entry.value, Step(s, LaunchSection);
      LaunchNested(e, s.expected, s.rank, s.launches, s.uploaded, s.dispatching + s.inFlight);
      assert t.dispatching + t.inFlight == s.dispatching + s.inFlight + Eligible(e);
      assert t.core.entry.value == Launch(e) && t.launches == s.launches + multiset(Eligible(e));
    }
  }

  lemma LaunchSettledAwake(s: Session)
    requires Settled(s) && Awake(s) && Enabled(s, LaunchSection)
    ensures Settled(Step(s, LaunchSection)) && Awake(Step(s, LaunchSection))
  {
    if s.core.entry.Some? && !s.core.entry.value.finalizing {
      LaunchedNotEligible(s.core.entry.value);
    }
  }

  lemma LaunchKeeps(s: Session)
    requires Inv(s) && Enabled(s, LaunchSection)
    ensures Inv(Step(s, LaunchSection))
  {
    LaunchNestedSession(s);
    LaunchSettledAwake(s);
    LaunchOrdered(s);
    LaunchLog(s);
  }

  lemma LaunchLog(s: Session)
    requires OrderedLog(s) && Enabled(s, LaunchSection)
    ensures OrderedLog(Step(s, LaunchSection))
  {
    SameLog(s, Step(s, LaunchSection));
  }

  /** The first finishing section, given that the pool has left the copy engine. */
  lemma CompleteKeeps(s: Session, p: nat, ok: bool)
    requires s.expected != {} && Ordered(s) && Settled(s) && p in s.launches && (ok ==> p in s.uploaded)
    requires p !in s.dispatching + s.inFlight
    requires s.core.entry.Some? ==>
               var e := s.core.entry.value;
               && e.expected == s.expected && e.rank == s.rank
               && e.completed <= e.launched <= e.started <= e.expected
               && (forall q :: q in e.launched <==> q in s.launches)
               && e.completed <= s.uploaded
               && (!e.finalizing ==> p !in e.completed && e.launched - e.completed == s.dispatching + s.inFlight + {p})
               && (e.completed == e.expected ==> e.finalizing)
               && e.futures <= e.launched
               && (e.networkCompleted ==> e.finalizing && e.completed == e.expected)
    requires Awake(s)
    ensures Inv(Complete(s, p, ok))
  {
    var t := Complete(s, p, ok);
    SameLog(s, t);
    if s.core.entry.Some? && !s.core.entry.value.finalizing {
      var e, f := s.core.entry.value, t.core.entry.value;
      assert ok ==> f.launched - f.completed == s.dispatching + s.inFlight;
    }
  }

  lemma FailedDispatchKeeps(s: Session, p: nat)
    requires Inv(s) && Enabled(s, DispatchFailed(p))
    ensures Inv(Step(s, DispatchFailed(p)))
  {
    var t := s.(dispatching := s.dispatching - {p});
    assert s.dispatching + s.inFlight == t.dispatching + t.inFlight + {p};
    SameLog(s, t);
    CompleteKeeps(t, p, false);
  }

  lemma CompletedKeeps(s: Session, p: nat, ok: bool)
    requires Inv(s) && Enabled(s, Completed(p, ok))
    ensures Inv(Step(s, Completed(p, ok)))
  {
    var t := s.(inFlight := s.inFlight - {p}, uploaded := if ok then s.uploaded + {p} else s.uploaded);
    assert s.dispatching + s.inFlight == t.dispatching + t.inFlight + {p};
    SameLog(s, t);
    CompleteKeeps(t, p, ok);
  }

  lemma FinishKeeps(s: Session, unregistered: bool)
    requires Inv(s) && Enabled(s, FinishSection(unregistered))
    ensures Inv(Step(s, FinishSection(unregistered)))
  {
    SameLog(s, Step(s, FinishSection(unregistered)));
  }

  /** A poll may race with finalising; the completed receive's futures are all ready, so it cannot time out. */
  lemma PollKeeps(s: Session, expired: bool, ready: set<nat>)
    requires Inv(s) && Enabled(s, Poll(expired, ready))
    ensures Inv(Step(s, Poll(expired, ready)))
  {
    SameLog(s, Step(s, Poll(expired, ready)));
    if s.core.entry.Some? && s.core.entry.value.networkCompleted {
      var e := s.core.entry.value;
      assert e.futures <= e.launched <= e.completed <= ready;
    }
  }

  lemma StepKeeps(s: Session, e: Event)
    requires Inv(s) && Enabled(s, e)
    ensures Inv(Step(s, e))
  {
    match e
    case Received(p) => ReceivedKeeps(s, p);
    case LaunchSection => LaunchKeeps(s);
    case DispatchFailed(p) => FailedDispatchKeeps(s, p);
    case Dispatched(_) => MoveKeeps(s, e);
    case Recorded(_) => MoveKeeps(s, e);
    case Landed(p, a) => LandedKeeps(s, p, a);
    case Completed(p, ok) => CompletedKeeps(s, p, ok);
    case FinishSection(u) => FinishKeeps(s, u);
    case Poll(x, r) => PollKeeps(s, x, r);
  }

  /** Every reachable state of a receive satisfies the invariant. */
  lemma {:induction false} RunKeeps(s: Session, es: seq<Event>)
    requires Inv(s) && Runs(s, es)
    ensures Inv(Run(s, es))
    decreases |es|
  {
    if es != [] {
      StepKeeps(s, es[0]);
      RunKeeps(Step(s, es[0]), es[1..]);
    }
  }

  /** The armed pools, ranks and footprints never change. */
  lemma {:induction false} RunConstant(s: Session, es: seq<Event>)
    requires Runs(s, es)
    ensures Run(s, es).expected == s.expected && Run(s, es).rank == s.rank && Run(s, es).footprint == s.footprint
    decreases |es|
  {
    if es != [] {
      RunConstant(Step(s, es[0]), es[1..]);
    }
  }

  // -------------------------------------------------------------- main results

  ghost predicate Reachable(s: Session, reqId: string, expected: set<nat>, rank: map<nat, int>,
                            footprint: map<nat, set<int>>) {
    exists es :: Runs(Begin(reqId, expected, rank, footprint), es)
        && Run(Begin(reqId, expected, rank, footprint), es) == s
  }

  lemma ReachableInv(s: Session, reqId: string, expected: set<nat>, rank: map<nat, int>, footprint: map<nat, set<int>>)
    requires expected != {} && Reachable(s, reqId, expected, rank, footprint)
    ensures Inv(s) && s.expected == expected && s.rank == rank && s.footprint == footprint
  {
    var es :| Runs(Begin(reqId, expected, rank, footprint), es)
        && Run(Begin(reqId, expected, rank, footprint), es) == s;
    RunConstant(Begin(reqId, expected, rank, footprint), es);
    BeginInv(reqId, expected, rank, footprint);
    RunKeeps(Begin(reqId, expected, rank, footprint), es);
  }

  /** In the armed map, with an absent pool counting as zero, `p` is ranked below `q`. */
  ghost predicate Below(rank: map<nat, int>, p: nat, q: nat) {
    || (p in rank && q in rank && rank[p] < rank[q])
    || (p in rank && q !in rank && rank[p] < 0)
    || (p !in rank && q in rank && 0 < rank[q])
  }

  lemma BelowExact(rank: map<nat, int>, p: nat, q: nat)
    ensures Below(rank, p, q) <==> RankOf(rank, p) < RankOf(rank, q)
  {
  }

  /**
    Rank order over every run, in terms of the ranks that were armed: sets nest, launches are
    unique, lower ranks are uploaded before a pool is launched, and no byte of a lower rank lands
    after one of a higher rank.
   */
  lemma RankOrder(s: Session, reqId: string, expected: set<nat>, rank: map<nat, int>, footprint: map<nat, set<int>>)
    requires expected != {} && Reachable(s, reqId, expected, rank, footprint)
    ensures s.core.entry.Some? ==>
              var e := s.core.entry.value; e.completed <= e.launched <= e.started <= e.expected == expected
    ensures forall p :: s.launches[p] <= 1
    ensures forall p, q | q in s.launches && p in expected && Below(rank, p, q) :: p in s.uploaded
    ensures forall i, j | 0 <= i < j < |s.log| :: !Below(rank, s.log[j].pool, s.log[i].pool)
  {
    ReachableInv(s, reqId, expected, rank, footprint);
    forall p, q ensures Below(rank, p, q) <==> RankOf(rank, p) < RankOf(rank, q) {
      BelowExact(rank, p, q);
    }
  }

  /** The pool whose bytes a device address holds, if any landed there. */
  function LastWriter(log: seq<Landing>, a: int): Option<nat> {
    if log == [] then None
    else if log[|log| - 1].addr == a then Some(log[|log| - 1].pool)
    else LastWriter(log[..|log| - 1], a)
  }

  lemma {:induction false} LastWriterRank(log: seq<Landing>, rank: map<nat, int>, a: int, i: nat)
    requires i < |log| && log[i].addr == a
    requires forall i, j | 0 <= i < j < |log| :: RankOf(rank, log[i].pool) <= RankOf(rank, log[j].pool)
    ensures LastWriter(log, a).Some? && RankOf(rank, log[i].pool) <= RankOf(rank, LastWriter(log, a).value)
  {
    var n := |log| - 1;
    if log[n].addr != a {
      LastWriterRank(log[..n], rank, a, i);
    }
  }

  /** A device byte shared by several uploaded pools ends with a value from the highest rank among them. */
  lemma SharedByte(s: Session, reqId: string, expected: set<nat>, rank: map<nat, int>, footprint: map<nat, set<int>>,
                   a: int, p: nat)
    requires expected != {} && Reachable(s, reqId, expected, rank, footprint)
    requires p in s.uploaded && p in footprint && a in footprint[p]
    ensures LastWriter(s.log, a).Some? && !Below(rank, LastWriter(s.log, a).value, p)
  {
    ReachableInv(s, reqId, expected, rank, footprint);
    assert AllLanded(s, p) && Landing(p, a) in s.log;
    var i :| 0 <= i < |s.log| && s.log[i] == Landing(p, a);
    LastWriterRank(s.log, s.rank, a, i);
    BelowExact(rank, LastWriter(s.log, a).value, p);
  }

  lemma {:induction false} LowestRank(rank: map<nat, int>, ps: set<nat>) returns (p: nat)
    requires ps != {}
    ensures p in ps && forall q | q in ps :: RankOf(rank, p) <= RankOf(rank, q)
    decreases ps
  {
    p :| p in ps;
    if ps != {p} {
      var q := LowestRank(rank, ps - {p});
      assert forall x | x in ps :: x == p || x in ps - {p};
      if RankOf(rank, q) < RankOf(rank, p) {
        p := q;
      }
    }
  }

  /** With nothing in flight, every pool arrived and no failure: complete, or some pool can be launched. */
  lemma CanLaunch(e: RecvEntry)
    requires e.completed == e.launched && e.started == e.expected && e.completed <= e.expected
             && e.completed != e.expected
    ensures Eligible(e) != {}
  {
    assert e.expected - e.completed != {} by {
      assert e.expected == e.completed + (e.expected - e.completed);
    }
    var p := LowestRank(e.rank, e.expected - e.completed);
    assert PrerequisitesUploaded(e, p);
    assert p in Eligible(e);
  }

  /**
    Progress: once every expected pool has arrived, an active receive that is
    not finalising always has an upload in flight or a launch section pending.
    It cannot stall.
   */
  lemma NeverStalls(s: Session, reqId: string, expected: set<nat>, rank: map<nat, int>, footprint: map<nat, set<int>>)
    requires expected != {} && Reachable(s, reqId, expected, rank, footprint)
    requires s.core.entry.Some? && !s.core.entry.value.finalizing && s.core.entry.value.started == s.expected
    ensures s.pending > 0 || s.dispatching + s.inFlight != {}
  {
    ReachableInv(s, reqId, expected, rank, footprint);
    var e := s.core.entry.value;
    if s.pending == 0 && s.dispatching + s.inFlight == {} {
      assert e.launched == e.completed + (e.launched - e.completed);
      CanLaunch(e);
    }
  }

  /** A launch section over a non-empty eligible set strictly shrinks what remains to be launched. */
  lemma LaunchDecreases(e: RecvEntry)
    requires e.launched <= e.started <= e.expected && !e.finalizing && Eligible(e) != {}
    ensures |e.expected - Launch(e).launched| < |e.expected - e.launched|
  {
    var p :| p in Eligible(e);
    assert e.expected - Launch(e).launched <= e.expected - e.launched - {p};
    SubsetSize(e.expected - Launch(e).launched, e.expected - e.launched - {p});
  }

  lemma {:induction false} SubsetSize(a: set<nat>, b: set<nat>)
    requires a <= b
    ensures |a| <= |b|
  {
    if a != {} {
      var x :| x in a;
      SubsetSize(a - {x}, b - {x});
    }
  }

  /** Single outcome: never two reports; and once the receive is gone, exactly one is made or waiting in its set. */
  lemma SingleOutcome(s: Session, reqId: string, expected: set<nat>, rank: map<nat, int>, footprint: map<nat, set<int>>)
    requires expected != {} && Reachable(s, reqId, expected, rank, footprint)
    ensures s.reportedDone + s.reportedFailed <= 1
    ensures s.core.entry.None? ==> Outcomes(s) == 1
    ensures s.core.entry.Some? && !s.core.entry.value.networkCompleted ==> Outcomes(s) == 0
  {
    ReachableInv(s, reqId, expected, rank, footprint);
  }

  // ---------------------------------------------------------- which outcome

  /** A copy that fails, or a plan that cannot be unregistered. */
  predicate Failing(e: Event) {
    e.DispatchFailed? || (e.Completed? && !e.ok) || (e.FinishSection? && !e.unregistered)
  }

  predicate Expiring(e: Event) {
    e.Poll? && e.expired
  }

  ghost predicate Done(s: Session) {
    s.core.inDone || s.reportedDone > 0
  }

  ghost predicate Failed(s: Session) {
    s.core.inFailed || s.reportedFailed > 0
  }

  /** Nothing has failed so far. */
  ghost predicate Healthy(s: Session) {
    !Failed(s) && s.finisher != Some(false)
  }

  /** Something has failed: the receive is not done, and only a failing finish is left. */
  ghost predicate Spoiled(s: Session) {
    !Done(s) && (s.core.entry.Some? ==> s.core.entry.value.finalizing && !s.core.entry.value.networkCompleted
                                        && s.finisher == Some(false))
  }

  /** A done receive has uploaded every pool, and no call is still finishing it. */
  ghost predicate DoneUploaded(s: Session) {
    Done(s) ==> s.expected <= s.uploaded && s.finisher.None?
  }

  lemma StepDoneUploaded(s: Session, e: Event)
    requires Inv(s) && DoneUploaded(s) && Enabled(s, e)
    ensures DoneUploaded(Step(s, e))
  {
  }

  lemma StepHealthy(s: Session, e: Event)
    requires Inv(s) && Healthy(s) && Enabled(s, e) && !Failing(e) && !Expiring(e)
    ensures Healthy(Step(s, e))
  {
  }

  lemma StepSpoiled(s: Session, e: Event)
    requires Inv(s) && Spoiled(s) && Enabled(s, e)
    ensures Spoiled(Step(s, e))
  {
  }

  /** Nothing is in flight once every pool is uploaded. */
  lemma AllUploaded(s: Session)
    requires OrderedSets(s) && s.expected <= s.uploaded
    ensures s.dispatching == {} && s.inFlight == {}
  {
    assert forall p | p in s.launches :: p in s.uploaded;
  }

  lemma FailureSpoils(s: Session, e: Event)
    requires Inv(s) && DoneUploaded(s) && Enabled(s, e) && Failing(e)
    ensures Spoiled(Step(s, e))
  {
    assert s.core.entry.Some? && s.finisher == Some(true) ==> s.expected <= s.uploaded;
    if e.FinishSection? {
      return;
    }
    assert !(s.expected <= s.uploaded) by {
      if s.expected <= s.uploaded {
        AllUploaded(s);
      }
    }
    if s.core.entry.Some? && s.core.entry.value.finalizing {
      var ok := s.finisher.value;
      assert s.finisher == Some(ok) && ok != true;
    }
  }

  lemma {:induction false} RunHealthy(s: Session, es: seq<Event>)
    requires Inv(s) && Healthy(s) && Runs(s, es)
    requires forall i | 0 <= i < |es| :: !Failing(es[i]) && !Expiring(es[i])
    ensures Healthy(Run(s, es))
    decreases |es|
  {
    if es != [] {
      StepKeeps(s, es[0]);
      StepHealthy(s, es[0]);
      RunHealthy(Step(s, es[0]), es[1..]);
    }
  }

  lemma {:induction false} RunSpoiled(s: Session, es: seq<Event>)
    requires Inv(s) && Spoiled(s) && Runs(s, es)
    ensures Spoiled(Run(s, es))
    decreases |es|
  {
    if es != [] {
      StepKeeps(s, es[0]);
      StepSpoiled(s, es[0]);
      RunSpoiled(Step(s, es[0]), es[1..]);
    }
  }

  lemma {:induction false} RunDone(s: Session, es: seq<Event>)
    requires Inv(s) && DoneUploaded(s) && Runs(s, es)
    ensures DoneUploaded(Run(s, es))
    ensures (exists i :: 0 <= i < |es| && Failing(es[i])) ==> Spoiled(Run(s, es))
    decreases |es|
  {
    if es != [] {
      StepKeeps(s, es[0]);
      StepDoneUploaded(s, es[0]);
      RunDone(Step(s, es[0]), es[1..]);
      if Failing(es[0]) {
        FailureSpoils(s, es[0]);
        RunSpoiled(Step(s, es[0]), es[1..]);
      } else if exists i :: 0 <= i < |es| && Failing(es[i]) {
        var i :| 0 <= i < |es| && Failing(es[i]);
        assert Failing(es[1..][i - 1]);
      }
    }
  }

  /**
    Which outcome, in terms of what happened: a receive is done only if every expected pool was
    uploaded and nothing failed, and failed only if a copy or the unregistering failed or a poll
    came after the deadline.  So a receive that is over with no such event is done.
   */
  lemma OutcomeExact(es: seq<Event>, reqId: string, expected: set<nat>, rank: map<nat, int>,
                     footprint: map<nat, set<int>>)
    requires expected != {} && Runs(Begin(reqId, expected, rank, footprint), es)
    ensures var s := Run(Begin(reqId, expected, rank, footprint), es);
            && (Done(s) ==> expected <= s.uploaded && forall i | 0 <= i < |es| :: !Failing(es[i]))
            && (Failed(s) ==> exists i :: 0 <= i < |es| && (Failing(es[i]) || Expiring(es[i])))
            && (s.core.entry.None? ==> Done(s) || Failed(s))
  {
    var start := Begin(reqId, expected, rank, footprint);
    BeginInv(reqId, expected, rank, footprint);
    RunConstant(start, es);
    RunDone(start, es);
    RunKeeps(start, es);
    if forall i | 0 <= i < |es| :: !Failing(es[i]) && !Expiring(es[i]) {
      RunHealthy(start, es);
    }
  }

  // ------------------------------------------------------- a receive can finish

  /** The bytes of the uploads that have not landed. */
  function Missing(s: Session): set<Landing> {
    set p, a | p in s.footprint && a in s.footprint[p] && Landing(p, a) !in s.log :: Landing(p, a)
  }

  function NotArrived(s: Session): set<nat> {
    if s.core.entry.Some? then s.expected - s.core.entry.value.started else {}
  }

  function Unreported(s: Session): nat {
    if s.reportedDone > 0 then 0 else 1
  }

  function Finishing(s: Session): nat {
    if s.finisher.Some? then 1 else 0
  }

  /** What is left to happen is less, most distant things first. */
  ghost predicate Closer(t: Session, s: Session) {
    || Unreported(t) < Unreported(s)
    || (Unreported(t) == Unreported(s) && |NotArrived(t)| < |NotArrived(s)|)
    || (Unreported(t) == Unreported(s) && |NotArrived(t)| == |NotArrived(s)| && CloserUpload(t, s))
  }

  ghost predicate CloserUpload(t: Session, s: Session) {
    || |t.expected - t.uploaded| < |s.expected - s.uploaded|
    || (|t.expected - t.uploaded| == |s.expected - s.uploaded| && t.pending < s.pending)
    || (|t.expected - t.uploaded| == |s.expected - s.uploaded| && t.pending == s.pending && CloserCopy(t, s))
  }

  ghost predicate CloserCopy(t: Session, s: Session) {
    || |t.dispatching| < |s.dispatching|
    || (|t.dispatching| == |s.dispatching| && |Missing(t)| < |Missing(s)|)
    || (|t.dispatching| == |s.dispatching| && |Missing(t)| == |Missing(s)| && Finishing(t) < Finishing(s))
  }

  ghost predicate Good(s: Session, e: Event) {
    Enabled(s, e) && !Failing(e) && !Expiring(e) && Closer(Step(s, e), s)
  }

  /** The last steps: finish, and report. */
  lemma LastEvents(s: Session) returns (e: Event)
    requires Inv(s) && Healthy(s) && s.reportedDone == 0
    requires s.core.entry.None? || s.core.entry.value.finalizing
    ensures Good(s, e)
  {
    if s.core.entry.Some? && !s.core.entry.value.networkCompleted {
      var ok := s.finisher.value;
      assert s.finisher == Some(ok) && ok != false;
      e := FinishSection(true);
      assert Missing(Step(s, e)) == Missing(s);
    } else {
      e := Poll(false, s.uploaded);
    }
  }

  lemma ArrivalEvent(s: Session, p: nat)
    requires Inv(s) && s.core.entry.Some? && p in NotArrived(s)
    ensures Good(s, Received(p))
  {
    assert NotArrived(Step(s, Received(p))) == NotArrived(s) - {p};
  }

  lemma LaunchEvent(s: Session)
    requires Inv(s) && s.pending > 0
    ensures Good(s, LaunchSection)
  {
    assert NotArrived(Step(s, LaunchSection)) == NotArrived(s);
  }

  lemma DispatchEvent(s: Session, p: nat)
    requires Inv(s) && p in s.dispatching
    ensures Good(s, Dispatched(p))
  {
  }

  lemma CompleteEvent(s: Session, p: nat)
    requires Inv(s) && p in s.inFlight && AllLanded(s, p)
    ensures Good(s, Completed(p, true))
  {
    var t := Step(s, Completed(p, true));
    assert p in s.launches && p in s.expected && p !in s.uploaded;
    assert t.expected - t.uploaded == (s.expected - s.uploaded) - {p};
    assert NotArrived(t) == NotArrived(s);
  }

  lemma LandEvent(s: Session, p: nat, a: int)
    requires p in s.inFlight && p in s.footprint && a in s.footprint[p] && Landing(p, a) !in s.log
    ensures Good(s, Landed(p, a))
  {
    var t := Step(s, Landed(p, a));
    assert Landing(p, a) in Missing(s) && Missing(t) == Missing(s) - {Landing(p, a)};
  }

  /** A pool being copied: its next byte lands, or its upload completes. */
  lemma CopyEvent(s: Session, p: nat) returns (e: Event)
    requires Inv(s) && p in s.inFlight
    ensures Good(s, e)
  {
    if AllLanded(s, p) {
      e := Completed(p, true);
      CompleteEvent(s, p);
    } else {
      var a :| a in s.footprint[p] && Landing(p, a) !in s.log;
      e := Landed(p, a);
      LandEvent(s, p, a);
    }
  }

  lemma NextEvent(s: Session) returns (e: Event)
    requires Inv(s) && Healthy(s) && s.reportedDone == 0
    ensures Good(s, e)
  {
    if s.core.entry.None? || s.core.entry.value.finalizing {
      e := LastEvents(s);
    } else if p :| p in NotArrived(s) {
      e := Received(p);
      ArrivalEvent(s, p);
    } else if s.pending > 0 {
      e := LaunchSection;
      LaunchEvent(s);
    } else if p :| p in s.dispatching {
      e := Dispatched(p);
      DispatchEvent(s, p);
    } else {
      Stalled(s);
      var p :| p in s.inFlight;
      e := CopyEvent(s, p);
    }
  }

  /** With every pool here, no launch pending and none to dispatch, something is being copied. */
  lemma Stalled(s: Session)
    requires Inv(s) && s.core.entry.Some? && !s.core.entry.value.finalizing
    requires (forall p :: p !in NotArrived(s)) && s.pending == 0 && (forall p :: p !in s.dispatching)
    ensures s.inFlight != {}
  {
    var e := s.core.entry.value;
    forall p | p in s.expected ensures p in e.started {
      assert p !in NotArrived(s);
    }
    assert e.started == s.expected;
    if s.inFlight == {} {
      assert s.dispatching + s.inFlight == {};
      assert e.launched == e.completed + (e.launched - e.completed);
      CanLaunch(e);
    }
  }

  lemma GoodStep(s: Session) returns (e: Event, t: Session)
    requires Inv(s) && Healthy(s) && s.reportedDone == 0
    ensures Enabled(s, e) && t == Step(s, e) && !Failing(e) && !Expiring(e)
    ensures Inv(t) && Healthy(t) && Closer(t, s)
  {
    e := NextEvent(s);
    t := Step(s, e);
    StepKeeps(s, e);
    StepHealthy(s, e);
  }

  /**
    From every state in which nothing has failed, some run without a failure and without the
    deadline reports the receive done, once.
   */
  lemma {:induction false} CanFinish(s: Session) returns (es: seq<Event>)
    requires Inv(s) && Healthy(s)
    ensures Runs(s, es) && (forall i | 0 <= i < |es| :: !Failing(es[i]) && !Expiring(es[i]))
    ensures Run(s, es).reportedDone == 1 && Run(s, es).reportedFailed == 0
    decreases Unreported(s), |NotArrived(s)|, |s.expected - s.uploaded|, s.pending,
              |s.dispatching|, |Missing(s)|, Finishing(s)
  {
    if s.reportedDone > 0 {
      es := [];
    } else {
      var e, t := GoodStep(s);
      var rest := CanFinish(t);
      es := [e] + rest;
      assert es[1..] == rest;
    }
  }
}
