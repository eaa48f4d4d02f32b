/**
  The watermark evict sweep (tpu_sync/kv_cache/kv_cache_store.cc): under memory
  pressure, cold blocks are offered to placement targets and dropped locally once
  a target holds them, or dropped outright when no target will take them.
 */
module EvictSweep {
  import opened TransferTypes
  import opened RemoteWrites
  import Runs = RemoteWriteRuns
  import SweepOffers

  const MAX_BATCH := 128

  // -------------------------------------------------------- waiting for verdicts

  datatype BatchResult = BatchResult(freeable: seq<Hash>, stillPinned: seq<Hash>, transferFailed: bool)

  /** What the first `n` drains of the sweep's mailbox add up to. */
  function Tally(rounds: seq<Verdicts>, n: nat): BatchResult
    requires n <= |rounds|
  {
    if n == 0 then BatchResult([], [], false)
    else
      var r, v := Tally(rounds, n - 1), rounds[n - 1];
      BatchResult(r.freeable + v.done + v.existing, r.stillPinned + v.failed,
                  r.transferFailed || |v.failed| > |v.existing|)
  }

  /** The hashes with a verdict in the first `n` drains. */
  function Heard(rounds: seq<Verdicts>, n: nat): set<Hash>
    requires n <= |rounds|
  {
    if n == 0 then {} else Heard(rounds, n - 1) + SetOf(rounds[n - 1].done) + SetOf(rounds[n - 1].failed)
  }

  /** Drains until every block of the batch has a verdict, which the hold deadline guarantees. */
  method WaitForBatchWriteResult(batch: seq<Hash>, rounds: seq<Verdicts>) returns (r: BatchResult, n: nat)
    requires SetOf(batch) <= Heard(rounds, |rounds|)
    ensures n <= |rounds| && r == Tally(rounds, n)
    ensures SetOf(batch) <= Heard(rounds, n) && (n > 0 ==> !(SetOf(batch) <= Heard(rounds, n - 1)))
  {
    var pending := SetOf(batch);
    r, n := BatchResult([], [], false), 0;
    while pending != {}
      invariant n <= |rounds|
      invariant r == Tally(rounds, n) && pending == SetOf(batch) - Heard(rounds, n)
      invariant n > 0 ==> !(SetOf(batch) <= Heard(rounds, n - 1))
      decreases |rounds| - n
    {
      var v := rounds[n];
      pending := pending - SetOf(v.done) - SetOf(v.failed);
      r := BatchResult(r.freeable + v.done + v.existing, r.stillPinned + v.failed,
                       r.transferFailed || |v.failed| > |v.existing|);
      n := n + 1;
    }
  }

  /** How the settlement of a `SaveRemote` call leaves it; `SettledInRun` derives this for every settled call. */
  predicate SettledOk(c: Runs.Call) {
    c.pc.Accepted? && c.filed == 1 && c.internal == 1 && c.caller == (if c.ok then 1 else 0)
  }

  type SettledCall = c: Runs.Call | SettledOk(c)
    witness Runs.Call([], Sweep, Runs.Accepted, 1, 0, 1, false)

  /** How an offer of a batch ended. */
  datatype Offer =
    | PinLost                                  // an entry vanished before it could be pinned
    | Refused                                  // `SaveRemote` returned an error
    | Settled(call: SettledCall, existing: seq<Hash>, unregistered: seq<Hash>, idlePolls: nat)

  /** A batch is one offer, so its mail is one filing, after some empty drains: `WaitInRun` derives this. */
  function Rounds(batch: seq<Hash>, o: Offer): seq<Verdicts>
    requires o.Settled?
  {
    seq(o.idlePolls, _ => NO_VERDICTS) + [FileIn(NO_VERDICTS, batch, o.call.ok, o.existing, o.unregistered)]
  }

  lemma {:induction false} IdleDrains(rounds: seq<Verdicts>, n: nat)
    requires n <= |rounds| && forall i | 0 <= i < n :: rounds[i] == NO_VERDICTS
    ensures Tally(rounds, n) == BatchResult([], [], false) && Heard(rounds, n) == {}
  {
    if n > 0 {
      IdleDrains(rounds, n - 1);
    }
  }

  /** The verdict of a settled offer. */
  function Verdict(batch: seq<Hash>, o: Offer): BatchResult
    requires o.Settled?
  {
    var ok := o.call.ok;
    BatchResult((if ok then batch else []) + o.existing, if ok then [] else batch,
                (if ok then 0 else |batch|) > |o.existing|)
  }

  lemma FilingHeard(batch: seq<Hash>, o: Offer)
    requires o.Settled?
    ensures var v := FileIn(NO_VERDICTS, batch, o.call.ok, o.existing, o.unregistered);
            SetOf(v.done) + SetOf(v.failed) == SetOf(batch)
            && BatchResult(v.done + v.existing, v.failed, |v.failed| > |v.existing|) == Verdict(batch, o)
  {
    var none: seq<Hash> := [];
    assert none + batch == batch && none + o.existing == o.existing;
    assert SetOf(none) == {};
  }

  lemma RoundsAt(batch: seq<Hash>, o: Offer)
    requires o.Settled?
    ensures var rounds := Rounds(batch, o);
            && |rounds| == o.idlePolls + 1 && (forall i | 0 <= i < o.idlePolls :: rounds[i] == NO_VERDICTS)
            && rounds[o.idlePolls] == FileIn(NO_VERDICTS, batch, o.call.ok, o.existing, o.unregistered)
  {
  }

  /**
    Waiting on mail that begins with an offer's rounds ends with the filing and not before, and
    returns its verdict.
   */
  lemma WaitExact(batch: seq<Hash>, o: Offer, mail: seq<Verdicts>)
    requires o.Settled? && batch != [] && o.idlePolls < |mail| && mail[..o.idlePolls + 1] == Rounds(batch, o)
    ensures forall n | 0 <= n <= |mail| :: SetOf(batch) <= Heard(mail, n) <==> n > o.idlePolls
    ensures var r := Tally(mail, o.idlePolls + 1);
            && r == Verdict(batch, o)
            && (forall h :: h in r.freeable <==> (o.call.ok && h in batch) || h in o.existing)
            && r.stillPinned == (if o.call.ok then [] else batch)
            && (r.transferFailed <==> !o.call.ok && |batch| > |o.existing|)
  {
    var k := o.idlePolls;
    RoundsAt(batch, o);
    assert forall i | 0 <= i <= k :: mail[i] == mail[..k + 1][i];
    IdleDrains(mail, k);
    FilingHeard(batch, o);
    LastDrain(mail, k);
    HeardAtOnce(batch, mail, k);
  }

  lemma HeardAtOnce(batch: seq<Hash>, mail: seq<Verdicts>, k: nat)
    requires batch != [] && k < |mail| && Heard(mail, k) == {} && Heard(mail, k + 1) == SetOf(batch)
    ensures forall n | 0 <= n <= |mail| :: SetOf(batch) <= Heard(mail, n) <==> n > k
  {
    assert batch[0] in SetOf(batch);
    forall n | 0 <= n <= |mail| ensures SetOf(batch) <= Heard(mail, n) <==> n > k {
      HeardGrows(mail, if n <= k then n else k + 1, if n <= k then k else n);
    }
  }

  lemma LastDrain(rounds: seq<Verdicts>, n: nat)
    requires n < |rounds| && Tally(rounds, n) == BatchResult([], [], false) && Heard(rounds, n) == {}
    ensures var v := rounds[n];
            Tally(rounds, n + 1) == BatchResult(v.done + v.existing, v.failed, |v.failed| > |v.existing|)
            && Heard(rounds, n + 1) == SetOf(v.done) + SetOf(v.failed)
  {
    var v := rounds[n];
    var none: seq<Hash> := [];
    assert none + v.done == v.done && none + v.failed == v.failed;
  }

  lemma {:induction false} HeardGrows(rounds: seq<Verdicts>, m: nat, n: nat)
    requires m <= n <= |rounds|
    ensures Heard(rounds, m) <= Heard(rounds, n)
    decreases n
  {
    if m < n {
      HeardGrows(rounds, m, n - 1);
    }
  }

  // -------------------------------------------------------------------- evicting

  predicate Evictable(pins: Pins, host: set<Hash>, busy: set<Hash>, h: Hash) {
    h in pins && pins[h] == 0 && h !in busy && h in host
  }

  function Evicted(pins: Pins, host: set<Hash>, busy: set<Hash>, hs: seq<Hash>): set<Hash> {
    set h | h in SetOf(hs) && Evictable(pins, host, busy, h)
  }

  lemma EvictedStep(pins: Pins, host: set<Hash>, busy: set<Hash>, hs: seq<Hash>, i: nat)
    requires i < |hs|
    ensures Evicted(pins, host, busy, hs[..i + 1])
         == if Evictable(pins, host, busy, hs[i]) then Evicted(pins, host, busy, hs[..i]) + {hs[i]}
             else Evicted(pins, host, busy, hs[..i])
  {
    SetOfStep(hs, i);
  }

  /** Looking at one more hash, after those in `gone` are erased. */
  lemma EvictOne(pins: Pins, host: set<Hash>, busy: set<Hash>, hs: seq<Hash>, i: nat, gone: set<Hash>)
    requires i < |hs| && gone == Evicted(pins, host, busy, hs[..i])
    ensures var h := hs[i];
            if Evictable(pins - gone, host - gone, busy, h) then
              h !in gone && h in host && Evicted(pins, host, busy, hs[..i + 1]) == gone + {h}
              && pins - gone - {h} == pins - (gone + {h}) && host - gone - {h} == host - (gone + {h})
            else Evicted(pins, host, busy, hs[..i + 1]) == gone
  {
    EvictedStep(pins, host, busy, hs, i);
    var h := hs[i];
    if h in gone {
      assert gone + {h} == gone;
    }
  }

  method EraseUnpinned(pins: Pins, host: set<Hash>, busy: set<Hash>, hs: seq<Hash>)
      returns (left: Pins, leftHost: set<Hash>, n: nat)
    ensures var gone := Evicted(pins, host, busy, hs);
            left == pins - gone && leftHost == host - gone && n == |gone| && |leftHost| + n == |host|
  {
    ghost var gone: set<Hash> := {};
    left, leftHost, n := pins, host, 0;
    for i := 0 to |hs|
      invariant gone == Evicted(pins, host, busy, hs[..i])
      invariant left == pins - gone && leftHost == host - gone
      invariant n == |gone| && |leftHost| + n == |host|
    {
      EvictOne(pins, host, busy, hs, i, gone);
      var h := hs[i];
      if Evictable(left, leftHost, busy, h) {
        left := left - {h};
        leftHost := leftHost - {h};
        gone := gone + {h};
        n := n + 1;
      }
    }
    assert hs[..|hs|] == hs;
  }

  // ------------------------------------------------------------- offering a batch

  /** Outcome of a step on the cache: what was listed for eviction, and whether the sweep goes on. */
  datatype Swept = Swept(pins: Pins, host: set<Hash>, targets: seq<RaidenId>, again: bool)

  ghost predicate BatchOk(pins: Pins, batch: seq<Hash>) {
    Distinct(batch) && batch != [] && forall i | 0 <= i < |batch| :: batch[i] in pins
  }

  method AwaitOffer(batch: seq<Hash>, o: Offer) returns (r: BatchResult)
    requires o.Settled? && batch != []
    ensures r == Verdict(batch, o)
  {
    var rounds := Rounds(batch, o);
    assert rounds[..|rounds|] == rounds;
    WaitExact(batch, o, rounds);
    var n;
    r, n := WaitForBatchWriteResult(batch, rounds);
  }

  function UnpinTimes(pins: Pins, hs: seq<Hash>, n: nat): Pins
    decreases n
  {
    if n == 0 then pins else UnpinTimes(UnpinAll(pins, hs), hs, n - 1)
  }

  /** One more pin on every block of the batch, then as many releases as there are pins to give back. */
  lemma ReleasesBalance(before: Pins, batch: seq<Hash>)
    requires BatchOk(before, batch)
    ensures var once := PinAll(before, batch);
            UnpinTimes(PinAll(once, batch), batch, 1) == once && UnpinTimes(once, batch, 1) == before
                && UnpinTimes(once, batch, 0) == once
  {
    var once := PinAll(before, batch);
    PinsRestored(before, batch);
    assert once.Keys == before.Keys by { PinAllCounts(before, batch, batch[0]); }
    PinsRestored(once, batch);
    assert forall p: Pins :: UnpinTimes(p, batch, 1) == UnpinTimes(UnpinAll(p, batch), batch, 0);
  }

  /**
    The sweep's pins around a settled offer.  The offer takes an internal pin and makes the
    releases its call has counted; the sweep then releases what is left of its own.
   */
  method ReleaseOffer(pins: Pins, ghost before: Pins, batch: seq<Hash>, o: Offer, r: BatchResult) returns (left: Pins)
    requires o.Settled? && r == Verdict(batch, o) && BatchOk(before, batch) && pins == PinAll(before, batch)
    ensures left == before
  {
    ReleasesBalance(before, batch);
    left := PinAll(pins, batch);
    left := UnpinTimes(left, batch, o.call.internal);
    left := UnpinTimes(left, batch, o.call.caller);
    if r.stillPinned != [] {
      left := UnpinAll(left, r.stillPinned);
    }
  }

  // ------------------------------------------------------------- offers in runs

  /**
    Every settled offer of the sweep, in any run of the save protocol, is one of the offers
    above: its call is a `SettledCall`, and of the pins on a block of the batch the sweep's
    own is given back exactly once, by the settlement or by the sweep's last release.
   */
  lemma SettledInRun(s: Runs.World, es: seq<Runs.Event>, c: nat, h: Hash, existing: seq<Hash>, unregistered: seq<Hash>,
                     idle: nat)
    requires Runs.Reachable(s) && c in s.calls && !s.calls[c].pc.Accepted? && h in s.calls[c].hashes
    requires Runs.Runs(s, es) && c in Runs.Run(s, es).calls && Runs.Run(s, es).calls[c].filed > 0
    ensures SettledOk(Runs.Run(s, es).calls[c])
    ensures var t := Runs.Run(s, es);
            var left := Verdict(s.calls[c].hashes, Settled(t.calls[c], existing, unregistered, idle)).stillPinned;
            Count(t.ext, h) - (if h in left then 1 else 0) == Count(s.ext, h) - 1 + SweepOffers.OthersNet(s, es, c, h)
  {
    SweepOffers.CallerPins(s, es, c, h);
  }

  /**
    In any run with one open offer of the sweep, settled and drained within the run, waiting on
    the sweep's actual drains ends at the drain that finds the filing and returns its verdict.
   */
  lemma WaitInRun(s: Runs.World, es: seq<Runs.Event>, c: nat) returns (o: Offer)
    requires SweepOffers.Offering(s, c) && Runs.Runs(s, es) && SweepOffers.OneOffer(es, c) && s.calls[c].hashes != []
    requires c in Runs.Run(s, es).calls && Runs.Run(s, es).calls[c].filed > 0
    requires Runs.Run(s, es).sweep == NO_VERDICTS
    ensures var t, batch, mail := Runs.Run(s, es), s.calls[c].hashes, SweepOffers.Drained(s, es);
            && o.Settled? && o.call == t.calls[c]
            && Runs.Filing(c, Sweep, batch, o.call.ok, o.existing, o.unregistered) in t.log
            && o.idlePolls < |mail| && mail[..o.idlePolls + 1] == Rounds(batch, o)
            && (forall n | 0 <= n <= |mail| :: SetOf(batch) <= Heard(mail, n) <==> n > o.idlePolls)
            && Tally(mail, o.idlePolls + 1) == Verdict(batch, o)
  {
    var t, batch, mail := Runs.Run(s, es), s.calls[c].hashes, SweepOffers.Drained(s, es);
    var k, f := SweepOffers.MailOfOffer(s, es, c);
    SweepOffers.RunReachable(s, es);
    SweepOffers.SettledRecord(t, c);
    o := Settled(t.calls[c], f.existing, f.unregistered, k);
    MailIsRounds(batch, o, mail, t.sweep, f);
    WaitExact(batch, o, mail);
  }

  lemma MailIsRounds(batch: seq<Hash>, o: Offer, mail: seq<Verdicts>, waiting: Verdicts, f: Runs.Filing)
    requires o.Settled? && batch != [] && f.hashes == batch && f.ok == o.call.ok
    requires f.existing == o.existing && f.unregistered == o.unregistered && waiting == NO_VERDICTS
    requires SweepOffers.OneFiling(mail, waiting, o.idlePolls, SweepOffers.Contents(f))
    ensures o.idlePolls < |mail| && mail[..o.idlePolls + 1] == Rounds(batch, o)
  {
    var k := o.idlePolls;
    assert SweepOffers.Contents(f) != NO_VERDICTS;
    assert mail[..k + 1] == mail[..k] + [mail[k]];
    assert mail[..k] == seq(k, _ => NO_VERDICTS);
  }

  /** What a settled offer leaves: pins as before, the freeable blocks evicted. */
  method FinishOffer(pins: Pins, ghost before: Pins, host: set<Hash>, targets: seq<RaidenId>, batch: seq<Hash>,
                     o: Offer, busy: set<Hash>)
    returns (s: Swept)
    requires BatchOk(before, batch) && pins == PinAll(before, batch) && targets != [] && o.Settled?
    ensures var gone := Evicted(before, host, busy, Verdict(batch, o).freeable);
            && s.pins == before - gone && s.host == host - gone
            && s.targets == (if Verdict(batch, o).transferFailed then targets[1..] else targets)
            && (s.again <==> Verdict(batch, o).transferFailed || gone != {})
  {
    var r := AwaitOffer(batch, o);
    var released := ReleaseOffer(pins, before, batch, o, r);
    var left, leftHost, evicted := EraseUnpinned(released, host, busy, r.freeable);
    s := Swept(left, leftHost, if r.transferFailed then targets[1..] else targets, r.transferFailed || evicted > 0);
  }

  /** The first target that does not refuse, or the number of targets. */
  ghost predicate FirstTaker(targets: seq<RaidenId>, answers: nat -> Offer, k: nat) {
    k <= |targets| && (forall i | 0 <= i < k :: answers(i).Refused?) && (k < |targets| ==> !answers(k).Refused?)
  }

  /** What a batch leads to when the first `k` targets refuse it. */
  function Outcome(pins: Pins, host: set<Hash>, targets: seq<RaidenId>, batch: seq<Hash>, answers: nat -> Offer,
                   busy: set<Hash>, k: nat): Swept
    requires k <= |targets|
  {
    var gone := Evicted(pins, host, busy, Listed(batch, targets, answers, k));
    if k == |targets| then Swept(pins - gone, host - gone, [], gone != {})
    else if !answers(k).Settled? then Swept(pins, host, targets[k..], false)
    else
      var failed := Verdict(batch, answers(k)).transferFailed;
      Swept(pins - gone, host - gone, if failed then targets[k + 1..] else targets[k..], failed || gone != {})
  }

  /** Offers the batch to one target after another, and drops it locally when none is left. */
  method OfferBatch(pins: Pins, host: set<Hash>, targets: seq<RaidenId>, batch: seq<Hash>, answers: nat -> Offer,
                    busy: set<Hash>)
    returns (s: Swept, k: nat)
    requires BatchOk(pins, batch)
    ensures FirstTaker(targets, answers, k) && s == Outcome(pins, host, targets, batch, answers, busy, k)
  {
    k := 0;
    var current := pins;
    while k < |targets|
      invariant 0 <= k <= |targets| && current == pins
      invariant forall i | 0 <= i < k :: answers(i).Refused?
    {
      var o := answers(k);
      if o.PinLost? {
        s := Swept(current, host, targets[k..], false);
        return;
      }
      current := PinAll(current, batch);
      if o.Settled? {
        s := FinishOffer(current, pins, host, targets[k..], batch, o, busy);
        assert targets[k..][1..] == targets[k + 1..];
        return;
      }
      PinsRestored(pins, batch);
      current := UnpinAll(current, batch);
      k := k + 1;
    }
    var left, leftHost, evicted := EraseUnpinned(current, host, busy, batch);
    s := Swept(left, leftHost, [], evicted > 0);
  }

  /**
    The hashes listed for eviction after `k` refusals: what the target holds, or the whole batch
    when no target is left.
   */
  function Listed(batch: seq<Hash>, targets: seq<RaidenId>, answers: nat -> Offer, k: nat): seq<Hash> {
    if k >= |targets| then batch
    else if answers(k).Settled? then (if answers(k).call.ok then batch else []) + answers(k).existing
    else []
  }

  // ------------------------------------------------------------------ watermarks

  function Ceil(x: real): int {
    -((-x).Floor)
  }

  function Deficit(high: real, free: int, total: int): int {
    Ceil(high * total as real) - free
  }

  lemma CeilExact(x: real, n: int)
    ensures Ceil(x) >= n + 1 <==> (n as real) < x
    ensures Ceil(x) as real >= x
  {
    var f := (-x).Floor;
    assert f as real <= -x < (f + 1) as real;
    assert Ceil(x) == -f && (-f) as real == -(f as real);
  }

  /** Below the high watermark there is at least one block to free, and freeing the deficit reaches it. */
  lemma DeficitExact(high: real, free: int, total: int)
    requires total > 0
    ensures (free as real) / (total as real) < high <==> Deficit(high, free, total) >= 1
    ensures ((free + Deficit(high, free, total)) as real) / (total as real) >= high
  {
    var t, x := total as real, high * total as real;
    CeilExact(x, free);
    RatioLess(free as real, t, high);
    RatioLess(Ceil(x) as real, t, high);
  }

  lemma RatioLess(a: real, t: real, high: real)
    requires t > 0.0
    ensures a / t < high <==> a < high * t
  {
    assert a == (a / t) * t;
  }

  /** The oldest unpinned keys, at most `count` of them. */
  function EvictableKeys(lru: seq<Hash>, pins: Pins, count: nat): seq<Hash> {
    if lru == [] || count == 0 then []
    else if lru[0] in pins && pins[lru[0]] == 0 then [lru[0]] + EvictableKeys(lru[1..], pins, count - 1)
    else EvictableKeys(lru[1..], pins, count)
  }

  lemma {:induction false} EvictableKeysExact(lru: seq<Hash>, pins: Pins, count: nat)
    requires Distinct(lru)
    ensures var keys := EvictableKeys(lru, pins, count);
            Distinct(keys) && |keys| <= count && forall h | h in keys :: h in lru && h in pins && pins[h] == 0
  {
    if lru != [] && count != 0 {
      assert lru == [lru[0]] + lru[1..];
      var keys := EvictableKeys(lru[1..], pins, if lru[0] in pins && pins[lru[0]] == 0 then count - 1 else count);
      EvictableKeysExact(lru[1..], pins, if lru[0] in pins && pins[lru[0]] == 0 then count - 1 else count);
      assert lru[0] !in lru[1..];
      assert lru[0] !in keys;
    }
  }

  /** The unpinned keys stand at these positions of the list, in its order. */
  ghost predicate Stand(lru: seq<Hash>, pins: Pins, keys: seq<Hash>, at: seq<nat>) {
    && |at| == |keys|
    && (forall i | 0 <= i < |at| :: at[i] < |lru| && lru[at[i]] == keys[i] && keys[i] in pins && pins[keys[i]] == 0)
    && (forall i, j | 0 <= i < j < |at| :: at[i] < at[j])
  }

  /** An unpinned key is left out only after all those taken, and only when they are `count`. */
  ghost predicate LeftOutLast(lru: seq<Hash>, pins: Pins, count: nat, at: seq<nat>) {
    forall a | 0 <= a < |lru| && lru[a] in pins && pins[lru[a]] == 0 && a !in at ::
      |at| == count && forall i | 0 <= i < |at| :: at[i] < a
  }

  ghost predicate OldestAt(lru: seq<Hash>, pins: Pins, count: nat, keys: seq<Hash>, at: seq<nat>) {
    |keys| <= count && Stand(lru, pins, keys, at) && LeftOutLast(lru, pins, count, at)
  }

  /** The first unpinned keys of the list, oldest first: all of them, or `count`. */
  ghost predicate Oldest(lru: seq<Hash>, pins: Pins, count: nat, keys: seq<Hash>) {
    exists at :: OldestAt(lru, pins, count, keys, at)
  }

  function Shifted(at: seq<nat>): seq<nat> {
    seq(|at|, i requires 0 <= i < |at| => at[i] + 1)
  }

  lemma {:induction false} EvictableKeysOldest(lru: seq<Hash>, pins: Pins, count: nat) returns (at: seq<nat>)
    ensures OldestAt(lru, pins, count, EvictableKeys(lru, pins, count), at)
  {
    at := [];
    if lru != [] && count != 0 {
      var rest := lru[1..];
      assert forall a | 0 < a < |lru| :: lru[a] == rest[a - 1];
      if lru[0] in pins && pins[lru[0]] == 0 {
        var later := EvictableKeysOldest(rest, pins, count - 1);
        OldestTaken(lru, pins, count, EvictableKeys(rest, pins, count - 1), later);
        at := [0] + Shifted(later);
      } else {
        var later := EvictableKeysOldest(rest, pins, count);
        OldestSkipped(lru, pins, count, EvictableKeys(rest, pins, count), later);
        at := Shifted(later);
      }
    }
  }

  lemma OldestTaken(lru: seq<Hash>, pins: Pins, count: nat, keys: seq<Hash>, later: seq<nat>)
    requires lru != [] && count > 0 && lru[0] in pins && pins[lru[0]] == 0
    requires OldestAt(lru[1..], pins, count - 1, keys, later)
    ensures OldestAt(lru, pins, count, [lru[0]] + keys, [0] + Shifted(later))
  {
    TakenStand(lru, pins, keys, later);
    TakenLast(lru, pins, count, later, [0] + Shifted(later));
  }

  lemma TakenStand(lru: seq<Hash>, pins: Pins, keys: seq<Hash>, later: seq<nat>)
    requires lru != [] && lru[0] in pins && pins[lru[0]] == 0 && Stand(lru[1..], pins, keys, later)
    ensures Stand(lru, pins, [lru[0]] + keys, [0] + Shifted(later))
  {
    var rest, all, at := lru[1..], [lru[0]] + keys, [0] + Shifted(later);
    assert forall i | 0 < i < |at| :: at[i] == later[i - 1] + 1 && all[i] == keys[i - 1];
    forall i | 0 < i < |at| ensures lru[at[i]] == all[i] {
      assert lru[at[i]] == rest[later[i - 1]];
    }
  }

  lemma TakenLast(lru: seq<Hash>, pins: Pins, count: nat, later: seq<nat>, at: seq<nat>)
    requires lru != [] && count > 0 && at == [0] + Shifted(later) && LeftOutLast(lru[1..], pins, count - 1, later)
    ensures LeftOutLast(lru, pins, count, at)
  {
    var rest := lru[1..];
    assert forall i | 0 < i < |at| :: at[i] == later[i - 1] + 1;
    forall a | 0 <= a < |lru| && lru[a] in pins && pins[lru[a]] == 0 && a !in at
      ensures |at| == count && forall i | 0 <= i < |at| :: at[i] < a
    {
      assert at[0] == 0 && a > 0;
      LeftOut(later, at, a, 1);
      assert rest[a - 1] == lru[a];
    }
  }

  lemma LeftOut(later: seq<nat>, at: seq<nat>, a: nat, from: nat)
    requires a > 0 && a !in at && from <= 1 && |at| == |later| + from
    requires forall i | 0 <= i < |later| :: at[i + from] == later[i] + 1
    ensures a - 1 !in later
  {
  }

  lemma OldestSkipped(lru: seq<Hash>, pins: Pins, count: nat, keys: seq<Hash>, later: seq<nat>)
    requires lru != [] && !(lru[0] in pins && pins[lru[0]] == 0) && OldestAt(lru[1..], pins, count, keys, later)
    ensures OldestAt(lru, pins, count, keys, Shifted(later))
  {
    var rest, at := lru[1..], Shifted(later);
    forall i | 0 <= i < |at| ensures at[i] < |lru| && lru[at[i]] == keys[i] {
      assert lru[at[i]] == rest[later[i]];
    }
    forall a | 0 <= a < |lru| && lru[a] in pins && pins[lru[a]] == 0 && a !in at
      ensures |keys| == count && forall i | 0 <= i < |at| :: at[i] < a
    {
      assert a > 0;
      LeftOut(later, at, a, 0);
      assert rest[a - 1] == lru[a];
    }
  }

  /** Going on means a target or a host-resident block fewer. */
  lemma OutcomeDecreases(pins: Pins, host: set<Hash>, targets: seq<RaidenId>, batch: seq<Hash>, answers: nat -> Offer,
                         busy: set<Hash>, k: nat)
    requires k <= |targets|
    ensures var s := Outcome(pins, host, targets, batch, answers, busy, k);
            s.again ==> |s.targets| + |s.host| < |targets| + |host|
  {
    var gone := Evicted(pins, host, busy, Listed(batch, targets, answers, k));
    assert gone <= host;
    assert host == (host - gone) + gone;
    assert |host| == |host - gone| + |gone|;
    assert gone != {} ==> |gone| > 0;
  }

  /**
    What a batch leads to when the first `k` targets refuse it, said outright: an unpinned block in
    host memory that no reader has is gone exactly if its target holds it, or no target was left.
   */
  lemma OutcomeExact(pins: Pins, host: set<Hash>, targets: seq<RaidenId>, batch: seq<Hash>, answers: nat -> Offer,
                     busy: set<Hash>, k: nat, h: Hash)
    requires k <= |targets| && h in pins
    ensures var s := Outcome(pins, host, targets, batch, answers, busy, k);
            h !in s.pins <==>
              && pins[h] == 0 && h in host && h !in busy
              && if k == |targets| then h in batch
                 else answers(k).Settled? && ((answers(k).call.ok && h in batch) || h in answers(k).existing)
  {
    EvictedExact(pins, host, busy, Listed(batch, targets, answers, k), h);
  }

  lemma EvictedExact(pins: Pins, host: set<Hash>, busy: set<Hash>, hs: seq<Hash>, h: Hash)
    requires h in pins
    ensures h !in pins - Evicted(pins, host, busy, hs) <==> pins[h] == 0 && h in host && h !in busy && h in hs
  {
    assert h in SetOf(hs) <==> h in hs;
  }

  /** Which targets are left, and whether the sweep goes on. */
  lemma TargetsExact(pins: Pins, host: set<Hash>, targets: seq<RaidenId>, batch: seq<Hash>, answers: nat -> Offer,
                     busy: set<Hash>, k: nat)
    requires k <= |targets|
    ensures var s := Outcome(pins, host, targets, batch, answers, busy, k);
            var failed := && k < |targets| && answers(k).Settled? && !answers(k).call.ok
                          && |batch| > |answers(k).existing|;
            && s.targets == (if k == |targets| then [] else if failed then targets[k + 1..] else targets[k..])
            && (s.again <==> failed || |s.host| < |host|)
  {
    var gone := Evicted(pins, host, busy, Listed(batch, targets, answers, k));
    assert gone <= host && host == (host - gone) + gone && |host| == |host - gone| + |gone|;
    assert gone != {} <==> |gone| > 0;
    var none: seq<Hash> := [];
    assert SetOf(none) == {};
  }

  /**
    A step's effect on the cache: pin counts unchanged, and only unpinned host-resident blocks that
    were listed are gone.
   */
  ghost predicate SweptOk(pins: Pins, host: set<Hash>, s: Swept, busy: set<Hash>, listed: seq<Hash>) {
    && (forall h | h in s.pins :: h in pins && s.pins[h] == pins[h])
    && (forall h | h in pins && h !in s.pins :: pins[h] == 0 && h in host && h !in busy && h in listed)
    && s.host == host * s.pins.Keys
  }

  /** A step is pin-neutral and evicts only unpinned, host-resident blocks that were listed. */
  lemma OutcomeNeutral(pins: Pins, host: set<Hash>, targets: seq<RaidenId>, batch: seq<Hash>, answers: nat -> Offer,
                       busy: set<Hash>, k: nat)
    requires k <= |targets| && host <= pins.Keys
    ensures SweptOk(pins, host, Outcome(pins, host, targets, batch, answers, busy, k), busy,
                    Listed(batch, targets, answers, k))
  {
    var listed := Listed(batch, targets, answers, k);
    var s := Outcome(pins, host, targets, batch, answers, busy, k);
    forall h | h in pins && h !in s.pins ensures pins[h] == 0 && h in host && h !in busy && h in listed {
      assert h in SetOf(listed);
    }
  }

  /** One batch of the oldest unpinned blocks; with nothing to offer the episode ends. */
  method SweepBatch(pins: Pins, host: set<Hash>, targets: seq<RaidenId>, lru: seq<Hash>, count: nat,
                    answers: nat -> Offer, busy: set<Hash>)
    returns (s: Swept, ghost k: nat)
    requires host <= pins.Keys && Distinct(lru)
    ensures FirstTaker(targets, answers, k)
    ensures var batch := EvictableKeys(lru, pins, count);
            && Oldest(lru, pins, count, batch)
            && s == if batch == [] then Swept(pins, host, [], false)
                    else Outcome(pins, host, targets, batch, answers, busy, k)
    ensures s.host <= s.pins.Keys
    ensures PinNeutral(pins, host, s.pins, busy) && (s.again ==> |s.targets| + |s.host| < |targets| + |host|)
  {
    var batch := EvictableKeys(lru, pins, count);
    EvictableKeysExact(lru, pins, count);
    ghost var at := EvictableKeysOldest(lru, pins, count);
    if batch == [] {
      s, k := Swept(pins, host, [], false), Taker(targets, answers, 0);
      TakerIsFirst(targets, answers, 0);
      return;
    }
    s, k := OfferBatch(pins, host, targets, batch, answers, busy);
    OutcomeNeutral(pins, host, targets, batch, answers, busy, k);
    OutcomeDecreases(pins, host, targets, batch, answers, busy, k);
  }

  /** Surviving entries keep their pin counts; the others were unpinned, in host memory and not being read. */
  ghost predicate PinNeutral(pins: Pins, host: set<Hash>, left: Pins, busy: set<Hash>) {
    && (forall h | h in left :: h in pins && left[h] == pins[h])
    && (forall h | h in pins && h !in left :: pins[h] == 0 && h in host && h !in busy)
  }

  ghost function Taker(targets: seq<RaidenId>, answers: nat -> Offer, k: nat): nat
    decreases |targets| - k
  {
    if k >= |targets| || !answers(k).Refused? then k else Taker(targets, answers, k + 1)
  }

  lemma {:induction false} TakerIsFirst(targets: seq<RaidenId>, answers: nat -> Offer, k: nat)
    requires k <= |targets| && forall i | 0 <= i < k :: answers(i).Refused?
    ensures FirstTaker(targets, answers, Taker(targets, answers, k))
    decreases |targets| - k
  {
    if k < |targets| && answers(k).Refused? {
      TakerIsFirst(targets, answers, k + 1);
    }
  }

  /** The batch a step takes: what the high watermark still needs, at most `MAX_BATCH`. */
  function BatchSize(high: real, free: int, total: int, available: nat): nat {
    var deficit := Deficit(high, free, total);
    if deficit < 0 then available else if deficit < MAX_BATCH then deficit else MAX_BATCH
  }

  /** The size of a batch: what is missing to the high watermark, rounded up, and never more than 128 blocks. */
  lemma BatchSizeExact(high: real, free: int, total: int, available: nat, need: int)
    requires (need - 1) as real < high * total as real <= need as real
    ensures need - free >= 0 ==>
              BatchSize(high, free, total, available) == (if need - free <= 128 then need - free else 128)
    ensures need - free < 0 ==> BatchSize(high, free, total, available) == available
  {
    CeilExact(high * total as real, need - 1);
    CeilExact(high * total as real, need);
  }

  class Store {
    var pins: Pins          // entries of the cache and the pins on them
    var host: set<Hash>     // entries with bytes in host memory
    var targets: seq<RaidenId>
    var active: bool

    ghost predicate Valid()
      reads this
    {
      host <= pins.Keys
    }

    constructor ()
      ensures Valid() && pins == map[] && host == {} && targets == [] && !active
    {
      pins, host, targets, active := map[], {}, [], false;
    }

    /** Erases the listed entries that are unpinned and in host memory; `busy` are those readers pinned meanwhile. */
    method Evict(hs: seq<Hash>, busy: set<Hash>) returns (n: nat)
      requires Valid()
      modifies this`pins, this`host
      ensures Valid()
      ensures var gone := Evicted(old(pins), old(host), busy, hs);
              pins == old(pins) - gone && host == old(host) - gone && n == |gone| && |host| + n == |old(host)|
      ensures forall h | h in old(pins) ::
                h in pins <==> !(h in hs && old(pins)[h] == 0 && h in old(host) && h !in busy)
    {
      forall h | h in pins
        ensures h !in pins - Evicted(pins, host, busy, hs) <==> pins[h] == 0 && h in host && h !in busy && h in hs
      {
        EvictedExact(pins, host, busy, hs, h);
      }
      pins, host, n := EraseUnpinned(pins, host, busy, hs);
    }

    /** The episode's placement targets: those at hand, or the ones the registry names when the episode begins. */
    function Targets(fetched: Option<seq<RaidenId>>): seq<RaidenId>
      reads this
    {
      if active then targets else if fetched.Some? then fetched.value else []
    }

    /**
      One step of the sweep.  `lru` is the eviction order of the cache, `answers` how successive
      offers end, `busy` the blocks readers pin before the eviction, `k` the first target that
      does not refuse.
     */
    method SweepOnce(free: int, total: int, low: real, high: real, fetched: Option<seq<RaidenId>>,
                     lru: seq<Hash>, answers: nat -> Offer, busy: set<Hash>) returns (again: bool, ghost k: nat)
      requires Valid() && Distinct(lru)
      modifies this
      ensures Valid()
      // nothing to do
      ensures total <= 0 || (!old(active) && free as real / total as real >= low) ==>
                !again && pins == old(pins) && host == old(host) && targets == old(targets) && active == old(active)
      // recovered: the episode is over
      ensures total > 0 && old(active) && free as real / total as real >= high ==>
                !again && pins == old(pins) && host == old(host) && targets == [] && !active
      // one batch
      ensures total > 0 && free as real / total as real < (if old(active) then high else low) ==>
                && FirstTaker(old(Targets(fetched)), answers, k)
                && old(Targets(fetched))
                   == (if old(active) then old(targets) else if fetched.Some? then fetched.value else [])
                && var batch := EvictableKeys(lru, old(pins), BatchSize(high, free, total, |lru|));
                   && Oldest(lru, old(pins), BatchSize(high, free, total, |lru|), batch)
                   && var s := if batch == [] then Swept(old(pins), old(host), [], false)
                               else Outcome(old(pins), old(host), old(Targets(fetched)), batch, answers, busy, k);
                      && pins == s.pins && host == s.host && again == s.again && active == again
                      && targets == if again then s.targets else []
      // pin-neutral, and it gets closer to the end
      ensures PinNeutral(old(pins), old(host), pins, busy)
      ensures again ==> |targets| + |host| < |old(Targets(fetched))| + |old(host)|
    {
      k := 0;
      if total <= 0 {
        return false, 0;
      }
      var ratio := free as real / total as real;
      if !active {
        if ratio >= low {
          return false, 0;
        }
        targets := Targets(fetched);
        active := true;
      } else if ratio >= high {
        targets, active := [], false;
        return false, 0;
      }
      var s;
      s, k := SweepBatch(pins, host, targets, lru, BatchSize(high, free, total, |lru|), answers, busy);
      pins, host, targets, again := s.pins, s.host, s.targets, s.again;
      if !again {
        targets, active := [], false;
      }
    }

    /**
      A whole episode: whatever the offers and the readers do, it ends after at most one step per
      target and host-resident block.
     */
    method DrainPressure(free: nat -> int, total: int, low: real, high: real, fetched: Option<seq<RaidenId>>,
                         lru: nat -> seq<Hash>, answers: nat -> nat -> Offer, busy: nat -> set<Hash>)
                             returns (steps: nat)
      requires Valid() && forall i :: Distinct(lru(i))
      modifies this
      ensures Valid() && steps <= |old(Targets(fetched))| + |old(host)|
      ensures forall h | h in pins :: h in old(pins) && pins[h] == old(pins)[h]
      ensures forall h | h in old(pins) && h !in pins :: old(pins)[h] == 0 && h in old(host)
      ensures total > 0 ==> !active
    {
      steps := 0;
      var again := true;
      while again
        invariant Valid() && (again ==> steps + |Targets(fetched)| + |host| <= |old(Targets(fetched))| + |old(host)|)
        invariant forall h | h in pins :: h in old(pins) && pins[h] == old(pins)[h]
        invariant forall h | h in old(pins) && h !in pins :: old(pins)[h] == 0 && h in old(host)
        invariant host <= old(host)
        invariant total > 0 && !again ==> !active
        invariant !again ==> steps <= |old(Targets(fetched))| + |old(host)|
        decreases again, |Targets(fetched)| + |host|
      {
        assert Distinct(lru(steps));
        ghost var k;
        again, k := SweepOnce(free(steps), total, low, high, fetched, lru(steps), answers(steps), busy(steps));
        if again {
          steps := steps + 1;
        }
      }
    }
  }
}
