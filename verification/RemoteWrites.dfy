/**
  Remote saves of the KV-cache store (tpu_sync/kv_cache/kv_cache_store.cc) and
  the pin operations of its tier-0 backend
  (tpu_sync/kv_cache/host_offload_backend.cc): the mutex sections, as methods
  on the shared state and as functions on values.
 */
module RemoteWrites {

  type Hash = string

  datatype Owner = Application | Sweep

  /** An accepted offer.  `call` is the `SaveRemote` call that made it; a settled-at-once offer has operation 0. */
  datatype Write = Write(call: nat, op: nat, hashes: seq<Hash>, owner: Owner)

  datatype Verdicts = Verdicts(done: seq<Hash>, failed: seq<Hash>, existing: seq<Hash>, unregistered: seq<Hash>)

  const NO_VERDICTS := Verdicts([], [], [], [])

  // -------------------------------------------------------------- pin counts

  /** Pin counts of the entries the backend holds. */
  type Pins = map<Hash, nat>

  function Count(pins: Pins, h: Hash): nat {
    if h in pins then pins[h] else 0
  }

  function PinOne(pins: Pins, h: Hash): Pins {
    if h in pins then pins[h := pins[h] + 1] else pins
  }

  /** Clamped at zero, and a no-op for an absent entry. */
  function UnpinOne(pins: Pins, h: Hash): Pins {
    if h in pins && pins[h] > 0 then pins[h := pins[h] - 1] else pins
  }

  function PinAll(pins: Pins, hs: seq<Hash>): Pins {
    if hs == [] then pins else PinOne(PinAll(pins, hs[..|hs| - 1]), hs[|hs| - 1])
  }

  function UnpinAll(pins: Pins, hs: seq<Hash>): Pins {
    if hs == [] then pins else UnpinOne(UnpinAll(pins, hs[1..]), hs[0])
  }

  predicate Distinct(hs: seq<Hash>) {
    forall i, j | 0 <= i < j < |hs| :: hs[i] != hs[j]
  }

  lemma {:induction false} PinAllCounts(pins: Pins, hs: seq<Hash>, h: Hash)
    requires Distinct(hs)
    ensures PinAll(pins, hs).Keys == pins.Keys
    ensures Count(PinAll(pins, hs), h) == Count(pins, h) + if h in hs && h in pins then 1 else 0
  {
    if hs != [] {
      var n := |hs| - 1;
      PinAllCounts(pins, hs[..n], h);
      assert hs == hs[..n] + [hs[n]];
    }
  }

  lemma {:induction false} UnpinAllCounts(pins: Pins, hs: seq<Hash>, h: Hash)
    requires Distinct(hs)
    ensures UnpinAll(pins, hs).Keys == pins.Keys
    ensures Count(UnpinAll(pins, hs), h) == Count(pins, h) - if h in hs && Count(pins, h) > 0 then 1 else 0
  {
    if hs != [] {
      UnpinAllCounts(pins, hs[1..], h);
      assert hs == [hs[0]] + hs[1..];
    }
  }

  lemma PinsRestored(pins: Pins, hs: seq<Hash>)
    requires Distinct(hs) && forall i | 0 <= i < |hs| :: hs[i] in pins
    ensures UnpinAll(PinAll(pins, hs), hs) == pins
  {
    forall h ensures (h in UnpinAll(PinAll(pins, hs), hs) <==> h in pins)
        && Count(UnpinAll(PinAll(pins, hs), hs), h) == Count(pins, h) {
      PinAllCounts(pins, hs, h);
      UnpinAllCounts(PinAll(pins, hs), hs, h);
    }
    assert forall h | h in pins :: UnpinAll(PinAll(pins, hs), hs)[h] == Count(pins, h);
  }

  class Backend {
    var pins: Pins

    constructor ()
      ensures pins == map[]
    {
      pins := map[];
    }

    /** All or nothing: a missing entry undoes the pins already taken. */
    method Pin(hs: seq<Hash>) returns (ok: bool)
      modifies this
      ensures ok <==> forall i | 0 <= i < |hs| :: hs[i] in old(pins)
      ensures pins == if ok then PinAll(old(pins), hs) else old(pins)
    {
      for i := 0 to |hs|
        invariant forall k | 0 <= k < i :: hs[k] in old(pins)
        invariant pins == PinAll(old(pins), hs[..i]) && pins.Keys == old(pins).Keys
      {
        assert hs[..i + 1][..i] == hs[..i];
        if hs[i] !in pins {
          PinsSame(old(pins), hs[..i]);
          assert hs[0..i] == hs[..i];
          for j := 0 to i
            invariant SamePins(pins, old(pins), hs[j..i])
          {
            UndoOne(pins, old(pins), hs[j..i]);
            assert hs[j..i][1..] == hs[j + 1..i];
            pins := UnpinOne(pins, hs[j]);
          }
          assert hs[i..i] == [];
          return false;
        }
        pins := PinOne(pins, hs[i]);
        PinsSame(old(pins), hs[..i + 1]);
      }
      assert hs[..|hs|] == hs;
      ok := true;
    }

    /** Releases one pin per listed hash, last hash first. */
    method Release(hs: seq<Hash>)
      modifies this
      ensures pins == UnpinAll(old(pins), hs)
    {
      var i := |hs|;
      while i > 0
        invariant 0 <= i <= |hs|
        invariant pins == UnpinAll(old(pins), hs[i..])
      {
        i := i - 1;
        assert hs[i..][1..] == hs[i + 1..];
        pins := UnpinOne(pins, hs[i]);
      }
      assert hs[0..] == hs;
    }
  }

  /** How often `h` occurs. */
  function Occurrences(hs: seq<Hash>, h: Hash): nat {
    if hs == [] then 0 else (if hs[0] == h then 1 else 0) + Occurrences(hs[1..], h)
  }

  /** `pins` is `base` with one extra pin for each listed hash. */
  ghost predicate SamePins(pins: Pins, base: Pins, extra: seq<Hash>) {
    pins.Keys == base.Keys && forall h | h in base :: pins[h] == base[h] + Occurrences(extra, h)
  }

  lemma UndoOne(pins: Pins, base: Pins, extra: seq<Hash>)
    requires SamePins(pins, base, extra) && extra != [] && extra[0] in base
    ensures SamePins(UnpinOne(pins, extra[0]), base, extra[1..])
  {
  }

  lemma {:induction false} OccurrencesAppend(hs: seq<Hash>, x: Hash, h: Hash)
    ensures Occurrences(hs + [x], h) == Occurrences(hs, h) + if x == h then 1 else 0
  {
    if hs == [] {
      assert [x][1..] == [];
    } else {
      OccurrencesAppend(hs[1..], x, h);
      assert (hs + [x])[1..] == hs[1..] + [x];
    }
  }

  lemma {:induction false} PinsSame(base: Pins, hs: seq<Hash>)
    requires forall i | 0 <= i < |hs| :: hs[i] in base
    ensures SamePins(PinAll(base, hs), base, hs)
  {
    if hs != [] {
      var n := |hs| - 1;
      PinsSame(base, hs[..n]);
      assert hs == hs[..n] + [hs[n]];
      forall h | h in base ensures PinAll(base, hs)[h] == base[h] + Occurrences(hs, h) {
        OccurrencesAppend(hs[..n], hs[n], h);
      }
    }
  }

  // ---------------------------------------------------------- saving marks

  /** The outcome of the marking section: the marks, the hashes this call marked, and whether it succeeded. */
  datatype Marked = Marked(saving: set<Hash>, mine: seq<Hash>, ok: bool)

  predicate Offerable(saving: set<Hash>, pins: Pins, resident: set<Hash>, h: Hash) {
    h in resident && Count(pins, h) > 0 && h !in saving
  }

  /** Marks one by one, stopping at the first hash that is not resident, not pinned, or already saving. */
  function Mark(saving: set<Hash>, pins: Pins, resident: set<Hash>, hs: seq<Hash>): Marked {
    if hs == [] then Marked(saving, [], true)
    else
      var m := Mark(saving, pins, resident, hs[..|hs| - 1]);
      var h := hs[|hs| - 1];
      if !m.ok then m
      else if !Offerable(m.saving, pins, resident, h) then m.(ok := false)
      else Marked(m.saving + {h}, m.mine + [h], true)
  }

  lemma {:induction false} MarkShape(saving: set<Hash>, pins: Pins, resident: set<Hash>, hs: seq<Hash>)
    ensures var m := Mark(saving, pins, resident, hs);
            && Distinct(m.mine) && (m.ok ==> m.mine == hs)
            && (forall h :: h in m.saving <==> h in saving || h in m.mine)
            && (forall h | h in m.mine :: h !in saving && h in resident && Count(pins, h) > 0)
  {
    if hs != [] {
      var n := |hs| - 1;
      MarkShape(saving, pins, resident, hs[..n]);
      assert hs == hs[..n] + [hs[n]];
    }
  }

  predicate AllOfferable(saving: set<Hash>, pins: Pins, resident: set<Hash>, hs: seq<Hash>) {
    forall i | 0 <= i < |hs| :: Offerable(saving, pins, resident, hs[i])
  }

  lemma OfferableSnoc(saving: set<Hash>, pins: Pins, resident: set<Hash>, hs: seq<Hash>, h: Hash)
    ensures AllOfferable(saving, pins, resident, hs + [h])
            <==> AllOfferable(saving, pins, resident, hs) && Offerable(saving, pins, resident, h)
  {
    var more := hs + [h];
    assert forall i | 0 <= i < |hs| :: more[i] == hs[i];
    assert more[|hs|] == h;
  }

  lemma DistinctSnoc(hs: seq<Hash>, h: Hash)
    ensures Distinct(hs + [h]) <==> Distinct(hs) && h !in hs
  {
    var more := hs + [h];
    assert forall i | 0 <= i < |hs| :: more[i] == hs[i];
    assert more[|hs|] == h;
  }

  lemma {:induction false} MarkSucceeds(saving: set<Hash>, pins: Pins, resident: set<Hash>, hs: seq<Hash>)
    ensures Mark(saving, pins, resident, hs).ok <==> Distinct(hs) && AllOfferable(saving, pins, resident, hs)
  {
    if hs != [] {
      var front, h := hs[..|hs| - 1], hs[|hs| - 1];
      MarkSucceeds(saving, pins, resident, front);
      MarkShape(saving, pins, resident, front);
      assert hs == front + [h];
      OfferableSnoc(saving, pins, resident, front, h);
      DistinctSnoc(front, h);
      var m := Mark(saving, pins, resident, front);
      assert m.ok ==> (h in m.saving <==> h in saving || h in front);
    }
  }

  /** What marking did: the new marks are this call's, were free before, and are pinned and resident. */
  lemma {:induction false} MarkExact(saving: set<Hash>, pins: Pins, resident: set<Hash>, hs: seq<Hash>)
    ensures var m := Mark(saving, pins, resident, hs);
            && Distinct(m.mine) && (m.ok ==> m.mine == hs)
            && (forall h :: h in m.saving <==> h in saving || h in m.mine)
            && (forall h | h in m.mine :: h !in saving && h in resident && Count(pins, h) > 0)
    ensures Mark(saving, pins, resident, hs).ok <==>
              && (forall i, j | 0 <= i < j < |hs| :: hs[i] != hs[j])
              && (forall i | 0 <= i < |hs| :: hs[i] in resident && hs[i] in pins && pins[hs[i]] > 0 && hs[i] !in saving)
  {
    MarkShape(saving, pins, resident, hs);
    MarkSucceeds(saving, pins, resident, hs);
  }

  // ------------------------------------------------------ claims and verdicts

  datatype Claimed = Claimed(polling: set<nat>, mine: seq<Write>)

  /** A poller takes every active operation that no other poller is asking about. */
  function Claim(polling: set<nat>, active: seq<Write>): Claimed {
    if active == [] then Claimed(polling, [])
    else
      var c, w := Claim(polling, active[..|active| - 1]), active[|active| - 1];
      if w.op in c.polling then c else Claimed(c.polling + {w.op}, c.mine + [w])
  }

  function Ops(ws: seq<Write>): set<nat> {
    set i | 0 <= i < |ws| :: ws[i].op
  }

  /** `std::erase_if` on the operation id alone. */
  function EraseOp(active: seq<Write>, op: nat): seq<Write> {
    if active == [] then []
    else
      var w := active[|active| - 1];
      EraseOp(active[..|active| - 1], op) + if w.op == op then [] else [w]
  }

  function SetOf(hs: seq<Hash>): set<Hash> {
    set i | 0 <= i < |hs| :: hs[i]
  }

  function FileIn(v: Verdicts, hs: seq<Hash>, ok: bool, existing: seq<Hash>, unregistered: seq<Hash>): Verdicts {
    Verdicts(if ok then v.done + hs else v.done, if ok then v.failed else v.failed + hs,
             v.existing + existing, v.unregistered + unregistered)
  }

  class Store {
    var saving: set<Hash>
    var active: seq<Write>
    var polling: set<nat>
    var application: Verdicts
    var sweep: Verdicts

    constructor ()
      ensures saving == {} && active == [] && polling == {} && application == NO_VERDICTS && sweep == NO_VERDICTS
    {
      saving, active, polling, application, sweep := {}, [], {}, NO_VERDICTS, NO_VERDICTS;
    }

    /** First section of `SaveRemote`; `visible` is how many of the hashes the lookup answered. */
    method MarkSaving(pins: Pins, resident: set<Hash>, visible: nat, hs: seq<Hash>) returns (mine: seq<Hash>, ok: bool)
      modifies this`saving
      ensures visible < |hs| ==> saving == old(saving) && mine == [] && !ok
      ensures visible >= |hs| ==> Marked(saving, mine, ok) == Mark(old(saving), pins, resident, hs)
    {
      mine, ok := [], visible >= |hs|;
      if !ok {
        return;
      }
      for i := 0 to |hs|
        invariant ok && Marked(saving, mine, ok) == Mark(old(saving), pins, resident, hs[..i])
      {
        var h := hs[i];
        assert hs[..i + 1][..i] == hs[..i];
        if h !in resident || Count(pins, h) <= 0 || h in saving {
          MarkStops(old(saving), pins, resident, hs, i);
          ok := false;
          return;
        }
        saving := saving + {h};
        mine := mine + [h];
      }
      assert hs[..|hs|] == hs;
    }

    /** First section of `SaveLocal`: all hashes are checked before any is marked. */
    method MarkLocal(pins: Pins, eligible: set<Hash>, visible: nat, hs: seq<Hash>) returns (ok: bool)
      modifies this`saving
      ensures ok <==>
                && visible >= |hs|
                && forall i | 0 <= i < |hs| ::
                     hs[i] in eligible && hs[i] in pins && pins[hs[i]] > 0 && hs[i] !in old(saving)
      ensures saving == if ok then old(saving) + SetOf(hs) else old(saving)
    {
      if visible < |hs| {
        return false;
      }
      for i := 0 to |hs|
        invariant saving == old(saving) && forall k | 0 <= k < i :: Offerable(saving, pins, eligible, hs[k])
      {
        if hs[i] !in eligible || Count(pins, hs[i]) <= 0 || hs[i] in saving {
          return false;
        }
      }
      for i := 0 to |hs|
        invariant saving == old(saving) + SetOf(hs[..i])
      {
        SetOfStep(hs, i);
        saving := saving + {hs[i]};
      }
      assert hs[..|hs|] == hs;
      ok := true;
    }

    method Unmark(hs: seq<Hash>)
      modifies this`saving
      ensures saving == old(saving) - SetOf(hs)
    {
      for i := 0 to |hs|
        invariant saving == old(saving) - SetOf(hs[..i])
      {
        SetOfStep(hs, i);
        saving := saving - {hs[i]};
      }
      assert hs[..|hs|] == hs;
    }

    method Record(w: Write)
      modifies this`active
      ensures active == old(active) + [w]
    {
      active := active + [w];
    }

    method ClaimWrites() returns (toPoll: seq<Write>)
      modifies this`polling
      ensures Claimed(polling, toPoll) == Claim(old(polling), active)
    {
      toPoll := [];
      for i := 0 to |active|
        invariant Claimed(polling, toPoll) == Claim(old(polling), active[..i])
      {
        assert active[..i + 1][..i] == active[..i];
        if active[i].op !in polling {
          polling := polling + {active[i].op};
          toPoll := toPoll + [active[i]];
        }
      }
      assert active[..|active|] == active;
    }

    method ReleaseClaims(toPoll: seq<Write>)
      modifies this`polling
      ensures polling == old(polling) - Ops(toPoll)
    {
      for i := 0 to |toPoll|
        invariant polling == old(polling) - Ops(toPoll[..i])
      {
        assert toPoll[..i + 1] == toPoll[..i] + [toPoll[i]];
        assert Ops(toPoll[..i + 1]) == Ops(toPoll[..i]) + {toPoll[i].op};
        polling := polling - {toPoll[i].op};
      }
      assert toPoll[..|toPoll|] == toPoll;
    }

    /** The last section of `FinishRemoteWrite`: erase by operation id, clear the marks, file the verdict. */
    method FileVerdict(w: Write, ok: bool, existing: seq<Hash>, unregistered: seq<Hash>)
      modifies this
      ensures active == EraseOp(old(active), w.op)
      ensures saving == old(saving) - SetOf(w.hashes) && polling == old(polling)
      ensures application == if w.owner
              == Application then FileIn(old(application), w.hashes, ok, existing, unregistered) else old(application)
      ensures sweep == if w.owner == Sweep then FileIn(old(sweep), w.hashes, ok, existing, unregistered) else old(sweep)
    {
      var kept: seq<Write> := [];
      for i := 0 to |active|
        invariant active == old(active) && saving == old(saving) && polling == old(polling)
        invariant application == old(application) && sweep == old(sweep)
        invariant kept == EraseOp(active[..i], w.op)
      {
        assert active[..i + 1][..i] == active[..i];
        if active[i].op != w.op {
          kept := kept + [active[i]];
        }
      }
      assert active[..|active|] == active;
      active := kept;
      saving := saving - SetOf(w.hashes);
      if w.owner == Sweep {
        sweep := FileIn(sweep, w.hashes, ok, existing, unregistered);
      } else {
        application := FileIn(application, w.hashes, ok, existing, unregistered);
      }
    }

    /** `PollSaveStatus` takes the application's mail only. */
    method DrainApplication() returns (v: Verdicts)
      modifies this`application
      ensures v == old(application) && application == NO_VERDICTS
    {
      v := application;
      application := NO_VERDICTS;
    }

    /** `DrainSweepVerdicts` takes the sweep's mail only. */
    method DrainSweep() returns (v: Verdicts)
      modifies this`sweep
      ensures v == old(sweep) && sweep == NO_VERDICTS
    {
      v := sweep;
      sweep := NO_VERDICTS;
    }
  }

  lemma SetOfStep(hs: seq<Hash>, i: nat)
    requires i < |hs|
    ensures SetOf(hs[..i + 1]) == SetOf(hs[..i]) + {hs[i]}
  {
    assert hs[..i + 1] == hs[..i] + [hs[i]];
    forall h ensures h in SetOf(hs[..i + 1]) <==> h in SetOf(hs[..i]) || h == hs[i] {
      assert h in SetOf(hs[..i + 1]) <==> h in hs[..i + 1];
    }
  }

  lemma {:induction false} MarkStops(saving: set<Hash>, pins: Pins, resident: set<Hash>, hs: seq<Hash>, i: nat)
    requires i < |hs|
    requires Mark(saving, pins, resident, hs[..i]).ok
    requires !Offerable(Mark(saving, pins, resident, hs[..i]).saving, pins, resident, hs[i])
    ensures Mark(saving, pins, resident, hs) == Mark(saving, pins, resident, hs[..i]).(ok := false)
    decreases |hs|
  {
    if i == |hs| - 1 {
      assert hs[..i] == hs[..|hs| - 1];
    } else {
      var front := hs[..|hs| - 1];
      assert front[..i] == hs[..i];
      MarkStops(saving, pins, resident, front, i);
    }
  }
}
