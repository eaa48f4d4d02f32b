/**
  One offer of the evict sweep inside any run of the save protocol: what the sweep
  finds in its mailbox drain by drain, and what the offer does to the pins.

  The sweep is one thread that waits for its offer before it makes the next, so the
  results ask for one open offer of the sweep; everything else in the run is free.
 */
module SweepOffers {
  import opened RemoteWrites
  import opened RemoteWriteRuns

  /** The mail the sweep takes in the course of a run, drain by drain. */
  function Drained(s: World, es: seq<Event>): seq<Verdicts>
    requires Runs(s, es)
    decreases |es|
  {
    if es == [] then []
    else (if es[0] == DrainMail(Sweep) then [s.sweep] else []) + Drained(Step(s, es[0]), es[1..])
  }

  /** The call will file nothing more: it was settled, or it is being refused. */
  predicate Over(call: Call) {
    call.pc.Unmarking? || call.pc.Refused? || call.filed > 0
  }

  /** Every other offer of the sweep is over. */
  ghost predicate OthersOver(calls: map<nat, Call>, c: nat) {
    forall d | d in calls && d != c && calls[d].owner == Sweep :: Over(calls[d])
  }

  /** The sweep makes no other offer. */
  predicate OneOffer(es: seq<Event>, c: nat) {
    forall i | 0 <= i < |es| :: es[i].Begin? && es[i].owner == Sweep ==> es[i].c == c
  }

  /** The sweep has made the offer `c` and no verdict has reached it yet. */
  ghost predicate Offering(s: World, c: nat) {
    && Reachable(s) && OthersOver(s.calls, c) && s.sweep == NO_VERDICTS
    && c in s.calls && s.calls[c].owner == Sweep && s.calls[c].filed == 0
  }

  // ------------------------------------------------------------------- one step

  lemma {:induction false} RunReachable(s: World, es: seq<Event>)
    requires Reachable(s) && Runs(s, es)
    ensures Reachable(Run(s, es))
  {
    var fs :| Runs(START, fs) && Run(START, fs) == s;
    LeadsTwice(START, fs, s, es, Run(s, es));
  }

  lemma StepReachable(s: World, e: Event)
    requires Reachable(s) && Enabled(s, e)
    ensures Reachable(Step(s, e))
  {
    LeadsOne(s, e);
    RunReachable(s, [e]);
  }

  predicate FilesFor(s: World, e: Event, d: nat) {
    e.FileOutcome? && e.t in s.finishing && s.finishing[e.t].w.call == d
  }

  predicate DropsFor(s: World, e: Event, d: nat) {
    e.DropCaller? && e.t in s.finishing && s.finishing[e.t].w.call == d && s.finishing[e.t].ok
  }

  /** What a step may do to a call. */
  ghost predicate CallMoved(s: World, e: Event, d: nat, was: Call, now: Call) {
    && now.hashes == was.hashes && now.owner == was.owner
    && now.filed == was.filed + (if FilesFor(s, e, d) then 1 else 0)
    && now.caller == was.caller + (if DropsFor(s, e, d) then 1 else 0)
    && (FilesFor(s, e, d) ==> now.ok == s.finishing[e.t].ok)
    && (!FilesFor(s, e, d) ==> now.ok == was.ok)
    && (Over(was) ==> Over(now))
  }

  /** A step that leaves the mail, the log of filings and the clients' pins alone. */
  ghost predicate SameMail(s: World, t: World) {
    t.sweep == s.sweep && t.log == s.log && t.ext == s.ext
  }

  /** A step that at most moves call `c` along. */
  ghost predicate OnlyPc(s: World, t: World, c: nat) {
    c in s.calls && c in t.calls && t.calls == s.calls[c := s.calls[c].(pc := t.calls[c].pc)]
  }

  lemma BeginFrame(s: World, c: nat, hs: seq<Hash>, owner: Owner, resident: set<Hash>, visible: nat)
    requires c !in s.calls
    ensures var t := DoBegin(s, c, hs, owner, resident, visible);
            SameMail(s, t) && c in t.calls && t.calls == s.calls[c := t.calls[c]] && t.calls[c].owner == owner
  {
    var mine, call := BeginEffect(s, c, hs, owner, resident, visible);
    UpdateFrame(s, DoBegin(s, c, hs, owner, resident, visible), mine, c, call);
  }

  lemma UpdateFrame(s: World, t: World, mine: seq<Hash>, c: nat, call: Call)
    requires t == s.(saving := s.saving + SetOf(mine), holder := Hold(s.holder, mine, Remote(c)),
                     calls := s.calls[c := call])
    ensures SameMail(s, t) && c in t.calls && t.calls == s.calls[c := t.calls[c]]
  {
  }

  lemma PcFrame(s: World, pins: Pins, c: nat, pc: Pc)
    requires c in s.calls
    ensures var t := SetPc(s.(pins := pins), c, pc); SameMail(s, t) && OnlyPc(s, t, c)
  {
  }

  lemma PinFrame(s: World, c: nat)
    requires c in s.calls
    ensures SameMail(s, DoPin(s, c)) && OnlyPc(s, DoPin(s, c), c)
  {
    var hs := s.calls[c].hashes;
    PcFrame(s, PinAll(s.pins, hs), c, Pinned);
    PcFrame(s, s.pins, c, Unmarking(hs));
    assert s.(pins := s.pins) == s;
  }

  lemma RollBackPinsFrame(s: World, c: nat)
    requires c in s.calls
    ensures SameMail(s, DoRollBackPins(s, c)) && OnlyPc(s, DoRollBackPins(s, c), c)
  {
    PcFrame(s, UnpinAll(s.pins, s.calls[c].hashes), c, Unmarking(s.calls[c].hashes));
  }

  lemma RollBackMarksFrame(s: World, c: nat)
    requires c in s.calls && s.calls[c].pc.Unmarking?
    ensures var t := DoRollBackMarks(s, c); SameMail(s, t) && OnlyPc(s, t, c) && t.calls[c].pc.Refused?
  {
  }

  lemma AcceptFrame(s: World, c: nat, ok: bool, existing: seq<Hash>, op: nat)
    requires c in s.calls
    ensures SameMail(s, DoSettled(s, c, ok, existing)) && OnlyPc(s, DoSettled(s, c, ok, existing), c)
    ensures SameMail(s, DoRecord(s, c, op)) && OnlyPc(s, DoRecord(s, c, op), c)
  {
  }

  /** A call's own step: it begins, or moves along. */
  ghost predicate CallFrame(s: World, e: Event, t: World)
    requires OfCall(e)
  {
    && SameMail(s, t) && e.c in t.calls && t.calls == s.calls[e.c := t.calls[e.c]]
    && (e.Begin? ==> e.c !in s.calls && t.calls[e.c].owner == e.owner)
    && (!e.Begin? ==> OnlyPc(s, t, e.c) && (Over(s.calls[e.c]) ==> Over(t.calls[e.c])))
  }

  lemma CallStepFrame(s: World, e: Event)
    requires OfCall(e) && CallEnabled(s, e)
    ensures CallFrame(s, e, CallStep(s, e))
  {
    match e
    case Begin(c, hs, owner, resident, visible) => BeginFrame(s, c, hs, owner, resident, visible);
    case PinOffer(c) => PinFrame(s, c);
    case RollBackPins(c) => RollBackPinsFrame(s, c);
    case RollBackMarks(c) => RollBackMarksFrame(s, c);
    case SettledByAck(c, ok, existing) => AcceptFrame(s, c, ok, existing, 0);
    case RecordOffer(c, op) => AcceptFrame(s, c, true, [], op);
  }

  lemma PollerStepFrame(s: World, e: Event)
    requires OfPoller(e) && PollerEnabled(s, e)
    ensures SameMail(s, PollerStep(s, e)) && PollerStep(s, e).calls == s.calls
  {
  }

  lemma QuietStepFrame(s: World, e: Event)
    requires Enabled(s, e) && !OfCall(e) && !OfPoller(e) && !OfFinisher(e) && !OfClient(e)
    ensures Step(s, e).calls == s.calls && Step(s, e).log == s.log && Step(s, e).ext == s.ext
    ensures Step(s, e).sweep == if e == DrainMail(Sweep) then NO_VERDICTS else s.sweep
  {
    match e
    case DrainMail(reader) => DrainMailFrame(s, reader);
    case BeginLocal(l, hs, eligible) => LocalFrame(s, l, hs, eligible);
    case EndLocal(l) => EndLocalFrame(s, l);
  }

  lemma DrainMailFrame(s: World, reader: Owner)
    ensures var t := DoDrain(s, reader);
            && t.calls == s.calls && t.log == s.log && t.ext == s.ext
            && t.sweep == if reader == Sweep then NO_VERDICTS else s.sweep
  {
  }

  lemma LocalFrame(s: World, l: nat, hs: seq<Hash>, eligible: set<Hash>)
    ensures var t := DoBeginLocal(s, l, hs, eligible); SameMail(s, t) && t.calls == s.calls
  {
  }

  lemma EndLocalFrame(s: World, l: nat)
    requires l in s.locals
    ensures var t := DoEndLocal(s, l); SameMail(s, t) && t.calls == s.calls
  {
  }

  lemma ClientStepFrame(s: World, e: Event)
    requires OfClient(e) && ClientEnabled(s, e)
    ensures ClientStep(s, e).calls == s.calls && ClientStep(s, e).log == s.log && ClientStep(s, e).sweep == s.sweep
  {
  }

  lemma CallMoves(s: World, e: Event, d: nat)
    requires Enabled(s, e) && d in s.calls
    ensures d in Step(s, e).calls && CallMoved(s, e, d, s.calls[d], Step(s, e).calls[d])
  {
    if OfCall(e) {
      CallStepFrame(s, e);
    } else if OfPoller(e) {
      PollerStepFrame(s, e);
    } else if OfFinisher(e) {
      FinisherCallMoves(s, e, d);
    } else if OfClient(e) {
      ClientStepFrame(s, e);
    } else {
      QuietStepFrame(s, e);
    }
  }

  lemma FinisherCallMoves(s: World, e: Event, d: nat)
    requires OfFinisher(e) && FinisherEnabled(s, e) && d in s.calls
    ensures d in FinisherStep(s, e).calls && CallMoved(s, e, d, s.calls[d], FinisherStep(s, e).calls[d])
  {
    match e
    case DropInternal(t) => assert FinisherStep(s, e) == DoDropInternal(s, t);
    case DropCaller(t) => assert FinisherStep(s, e) == DoDropCaller(s, t);
    case FileOutcome(t) => assert FinisherStep(s, e) == DoFile(s, t);
  }

  lemma NewCall(s: World, e: Event, d: nat)
    requires Enabled(s, e) && d !in s.calls && d in Step(s, e).calls
    ensures e.Begin? && e.c == d && Step(s, e).calls[d].owner == e.owner
  {
    if OfCall(e) {
      CallStepFrame(s, e);
    } else if OfPoller(e) {
      PollerStepFrame(s, e);
    } else if OfFinisher(e) {
      FinisherKeys(s, e);
    } else if OfClient(e) {
      ClientStepFrame(s, e);
    } else {
      QuietStepFrame(s, e);
    }
  }

  lemma FinisherKeys(s: World, e: Event)
    requires OfFinisher(e) && FinisherEnabled(s, e)
    ensures FinisherStep(s, e).calls.Keys == s.calls.Keys
  {
  }

  lemma OthersStay(s: World, e: Event, c: nat)
    requires Enabled(s, e) && OthersOver(s.calls, c)
    requires e.Begin? && e.owner == Sweep ==> e.c == c
    ensures OthersOver(Step(s, e).calls, c)
  {
    var t := Step(s, e);
    forall d | d in t.calls && d != c && t.calls[d].owner == Sweep ensures Over(t.calls[d]) {
      if d in s.calls {
        CallMoves(s, e, d);
      } else {
        NewCall(s, e, d);
      }
    }
  }

  /** What a step does to the sweep's mailbox and the log of filings. */
  ghost predicate MailMoved(s: World, e: Event, t: World) {
    && (e == DrainMail(Sweep) ==> t.sweep == NO_VERDICTS && t.log == s.log)
    && (e != DrainMail(Sweep) && !e.FileOutcome? ==> t.sweep == s.sweep && t.log == s.log)
    && (e.FileOutcome? && e.t in s.finishing ==>
          var f := s.finishing[e.t];
          && t.log == s.log + [Filing(f.w.call, f.w.owner, f.w.hashes, f.ok, f.existing, f.unregistered)]
          && t.sweep == if f.w.owner == Sweep then FileIn(s.sweep, f.w.hashes, f.ok, f.existing, f.unregistered)
              else s.sweep)
  }

  lemma MailMoves(s: World, e: Event)
    requires Enabled(s, e)
    ensures MailMoved(s, e, Step(s, e))
  {
    if OfCall(e) {
      CallStepFrame(s, e);
    } else if OfPoller(e) {
      PollerStepFrame(s, e);
    } else if OfFinisher(e) {
      FinisherMail(s, e);
    } else if OfClient(e) {
      ClientStepFrame(s, e);
    } else {
      QuietStepFrame(s, e);
    }
  }

  lemma FinisherMail(s: World, e: Event)
    requires OfFinisher(e) && FinisherEnabled(s, e)
    ensures MailMoved(s, e, FinisherStep(s, e))
    ensures !e.DropCaller? ==> FinisherStep(s, e).ext == s.ext
  {
    match e
    case DropInternal(t) => assert FinisherStep(s, e) == DoDropInternal(s, t);
    case DropCaller(t) => assert FinisherStep(s, e) == DoDropCaller(s, t);
    case FileOutcome(t) => assert FinisherStep(s, e) == DoFile(s, t);
  }

  /** A filing for the sweep is of its one open offer. */
  lemma FilingIsOurs(s: World, e: Event, c: nat)
    requires Inv(s) && Enabled(s, e) && OthersOver(s.calls, c) && e.FileOutcome?
    requires s.finishing[e.t].w.owner == Sweep
    ensures s.finishing[e.t].w.call == c && InFlight(s.calls, c) && s.finishing[e.t].w.hashes == s.calls[c].hashes
  {
    assert IsWriteOf(s.calls, s.finishing[e.t].w);
  }

  // ---------------------------------------------------------------------- mail

  ghost predicate Silent(mail: seq<Verdicts>) {
    forall i | 0 <= i < |mail| :: mail[i] == NO_VERDICTS
  }

  /** The sweep's one offer is settled. */
  ghost predicate Settled(s: World, c: nat) {
    Reachable(s) && OthersOver(s.calls, c) && c in s.calls && s.calls[c].filed > 0
  }

  lemma SettledStep(s: World, e: Event, c: nat)
    requires Settled(s, c) && Enabled(s, e) && (e.Begin? && e.owner == Sweep ==> e.c == c)
    ensures Settled(Step(s, e), c)
    ensures var t := Step(s, e);
            && t.calls[c].hashes == s.calls[c].hashes && t.calls[c].owner == s.calls[c].owner
                && t.calls[c].ok == s.calls[c].ok
            && s.log <= t.log
            && t.sweep == if e == DrainMail(Sweep) then NO_VERDICTS else s.sweep
  {
    ReachableInv(s);
    StepReachable(s, e);
    OthersStay(s, e, c);
    CallMoves(s, e, c);
    MailMoves(s, e);
    SettledMoved(s, e, Step(s, e), c);
  }

  lemma SettledMoved(s: World, e: Event, t: World, c: nat)
    requires FinishingOk(s.finishing, s.pollers, s.calls) && OthersOver(s.calls, c)
    requires c in s.calls && s.calls[c].filed > 0 && c in t.calls && (e.FileOutcome? ==> e.t in s.finishing)
    requires CallMoved(s, e, c, s.calls[c], t.calls[c]) && MailMoved(s, e, t)
    ensures t.calls[c].filed > 0 && t.calls[c].ok == s.calls[c].ok && s.log <= t.log
    ensures t.sweep == if e == DrainMail(Sweep) then NO_VERDICTS else s.sweep
  {
    if e.FileOutcome? {
      assert IsWriteOf(s.calls, s.finishing[e.t].w);
    }
  }

  /** Once the offer is settled, at most the first drain finds something. */
  lemma {:induction false} MailAfter(s: World, es: seq<Event>, c: nat)
    requires Settled(s, c) && Runs(s, es) && OneOffer(es, c)
    ensures var t := Run(s, es);
            && c in t.calls && t.calls[c].filed > 0 && t.calls[c].hashes == s.calls[c].hashes
            && t.calls[c].owner == s.calls[c].owner && t.calls[c].ok == s.calls[c].ok
            && s.log <= t.log
    ensures OneFiling(Drained(s, es), Run(s, es).sweep, 0, s.sweep)
    decreases |es|
  {
    if es != [] {
      SettledStep(s, es[0], c);
      MailAfter(Step(s, es[0]), es[1..], c);
      if es[0] == DrainMail(Sweep) {
        FirstDrain(s.sweep, Drained(Step(s, es[0]), es[1..]), Run(s, es).sweep);
      }
    }
  }

  lemma FirstDrain(v: Verdicts, rest: seq<Verdicts>, waiting: Verdicts)
    requires OneFiling(rest, waiting, 0, NO_VERDICTS)
    ensures OneFiling([v] + rest, waiting, 0, v)
  {
    var mail := [v] + rest;
    assert mail[1..] == rest;
    assert forall i | 0 < i < |rest| :: rest[i] == rest[1..][i - 1];
  }

  lemma SilentDrain(rest: seq<Verdicts>, waiting: Verdicts, k: nat, v: Verdicts)
    requires OneFiling(rest, waiting, k, v)
    ensures OneFiling([NO_VERDICTS] + rest, waiting, k + 1, v)
  {
    var mail := [NO_VERDICTS] + rest;
    assert mail[..k + 1] == [NO_VERDICTS] + rest[..k];
    assert k < |rest| ==> mail[k + 2..] == rest[k + 1..];
  }

  /** The mail of a run: nothing before the offer is settled, then its one filing, then nothing. */
  ghost predicate OneFiling(mail: seq<Verdicts>, waiting: Verdicts, k: nat, v: Verdicts) {
    && k <= |mail| && Silent(mail[..k])
    && (k < |mail| ==> mail[k] == v && Silent(mail[k + 1..]) && waiting == NO_VERDICTS)
    && (k == |mail| ==> waiting == v)
  }

  function Contents(f: Filing): Verdicts {
    FileIn(NO_VERDICTS, f.hashes, f.ok, f.existing, f.unregistered)
  }

  /** The mail of a run with the offer `c`, which had the record `was` before the run and has `now` after it. */
  ghost predicate Delivered(c: nat, was: Call, now: Call, mail: seq<Verdicts>, waiting: Verdicts, log: seq<Filing>,
                            k: nat, f: Filing) {
    && now.hashes == was.hashes && now.owner == Sweep
    && (now.filed == 0 ==> Silent(mail) && waiting == NO_VERDICTS)
    && (now.filed > 0 ==>
          && f in log && f.call == c && f.owner == Sweep && f.hashes == now.hashes && f.ok == now.ok
          && OneFiling(mail, waiting, k, Contents(f)))
  }

  lemma DeliveredLater(c: nat, was: Call, now: Call, mail: seq<Verdicts>, waiting: Verdicts, log: seq<Filing>, k: nat,
                       f: Filing)
    requires Delivered(c, was, now, mail, waiting, log, k, f)
    ensures Delivered(c, was, now, [NO_VERDICTS] + mail, waiting, log, k + 1, f)
  {
    if now.filed > 0 {
      SilentDrain(mail, waiting, k, Contents(f));
    }
  }

  /**
    In any run with this one offer of the sweep, the sweep's drains find nothing until the offer
    is settled, then exactly its filing, whole and once, then nothing.
   */
  lemma {:induction false} MailOfOffer(s: World, es: seq<Event>, c: nat) returns (k: nat, f: Filing)
    requires Offering(s, c) && Runs(s, es) && OneOffer(es, c)
    ensures var t := Run(s, es);
            c in t.calls && Delivered(c, s.calls[c], t.calls[c], Drained(s, es), t.sweep, t.log, k, f)
    decreases |es|, 1
  {
    if es == [] {
      k, f := 0, Filing(c, Sweep, s.calls[c].hashes, false, [], []);
    } else if FilesFor(s, es[0], c) {
      k := 0;
      f := FiledNow(s, es[0], c);
      MailAfter(Step(s, es[0]), es[1..], c);
    } else {
      k, f := MailLater(s, es, c);
    }
  }

  lemma MailLater(s: World, es: seq<Event>, c: nat) returns (k: nat, f: Filing)
    requires Offering(s, c) && Runs(s, es) && OneOffer(es, c) && es != [] && !FilesFor(s, es[0], c)
    ensures var t := Run(s, es);
            c in t.calls && Delivered(c, s.calls[c], t.calls[c], Drained(s, es), t.sweep, t.log, k, f)
    decreases |es|, 0
  {
    var drains := es[0] == DrainMail(Sweep);
    NotFiledNow(s, es[0], c);
    var u, rest := Step(s, es[0]), es[1..];
    k, f := MailOfOffer(u, rest, c);
    DrainedHead(s, es);
    var t := Run(u, rest);
    if drains {
      DeliveredLater(c, s.calls[c], t.calls[c], Drained(u, rest), t.sweep, t.log, k, f);
      k := k + 1;
    }
  }

  lemma DrainedHead(s: World, es: seq<Event>)
    requires Runs(s, es) && es != []
    ensures var rest := Drained(Step(s, es[0]), es[1..]);
            Drained(s, es) == if es[0] == DrainMail(Sweep) then [s.sweep] + rest else rest
  {
    var rest := Drained(Step(s, es[0]), es[1..]);
    assert [] + rest == rest;
  }

  lemma NotFiledNow(s: World, e: Event, c: nat)
    requires Offering(s, c) && Enabled(s, e) && !FilesFor(s, e, c) && (e.Begin? && e.owner == Sweep ==> e.c == c)
    ensures Offering(Step(s, e), c) && Step(s, e).calls[c].hashes == s.calls[c].hashes
  {
    ReachableInv(s);
    StepReachable(s, e);
    OthersStay(s, e, c);
    CallMoves(s, e, c);
    MailMoves(s, e);
    if e.FileOutcome? && s.finishing[e.t].w.owner == Sweep {
      FilingIsOurs(s, e, c);
    }
  }

  lemma FiledNow(s: World, e: Event, c: nat) returns (f: Filing)
    requires Offering(s, c) && Enabled(s, e) && FilesFor(s, e, c)
    ensures Settled(Step(s, e), c) && Step(s, e).calls[c].hashes == s.calls[c].hashes
            && Step(s, e).calls[c].owner == Sweep
    ensures f in Step(s, e).log && f.call == c && f.owner == Sweep && f.hashes == s.calls[c].hashes
            && f.ok == Step(s, e).calls[c].ok
    ensures Step(s, e).sweep == Contents(f)
  {
    ReachableInv(s);
    StepReachable(s, e);
    OthersStay(s, e, c);
    MailMoves(s, e);
    CallMoves(s, e, c);
    var x := s.finishing[e.t];
    assert IsWriteOf(s.calls, x.w);
    f := Filing(x.w.call, x.w.owner, x.w.hashes, x.ok, x.existing, x.unregistered);
  }

  // ---------------------------------------------------------------------- pins

  /** What one event not of `c` does to the clients' pins on a block. */
  function Delta(s: World, e: Event, c: nat, h: Hash): int {
    match e
    case ClientPin(g) => if g == h then 1 else 0
    case ClientUnpin(g) => if g == h then -1 else 0
    case DropCaller(t) =>
      if t in s.finishing && s.finishing[t].ok && s.finishing[t].w.call != c && h in s.finishing[t].w.hashes then -1
          else 0
    case _ => 0
  }

  /** The pins everyone but `c` takes on a block in the course of a run, less those they release. */
  function OthersNet(s: World, es: seq<Event>, c: nat, h: Hash): int
    requires Runs(s, es)
    decreases |es|
  {
    if es == [] then 0 else Delta(s, es[0], c, h) + OthersNet(Step(s, es[0]), es[1..], c, h)
  }

  /** What a step does to the clients' pins on a block. */
  lemma ExtMoves(s: World, e: Event, c: nat, h: Hash)
    requires Inv(s) && Enabled(s, e)
    ensures Count(Step(s, e).ext, h)
         == Count(s.ext, h) + Delta(s, e, c, h) - if DropsFor(s, e, c) && h in s.finishing[e.t].w.hashes then 1 else 0
  {
    if OfCall(e) {
      CallStepFrame(s, e);
    } else if OfPoller(e) {
      PollerStepFrame(s, e);
    } else if OfFinisher(e) {
      FinisherExt(s, e, c, h);
    } else if OfClient(e) {
      ClientExt(s, e, c, h);
    } else {
      QuietStepFrame(s, e);
    }
  }

  lemma ClientExt(s: World, e: Event, c: nat, h: Hash)
    requires OfClient(e) && ClientEnabled(s, e)
    ensures Count(ClientStep(s, e).ext, h) == Count(s.ext, h) + Delta(s, e, c, h)
  {
  }

  lemma FinisherExt(s: World, e: Event, c: nat, h: Hash)
    requires Inv(s) && OfFinisher(e) && FinisherEnabled(s, e)
    ensures Count(FinisherStep(s, e).ext, h)
         == Count(s.ext, h) + Delta(s, e, c, h) - if DropsFor(s, e, c) && h in s.finishing[e.t].w.hashes then 1 else 0
  {
    if e.DropCaller? {
      DropCallerExt(s, e.t, h);
      assert FinisherStep(s, e) == DoDropCaller(s, e.t);
    } else {
      FinisherMail(s, e);
    }
  }

  lemma DropCallerExt(s: World, t: Thread, h: Hash)
    requires Inv(s) && FinisherEnabled(s, DropCaller(t))
    ensures Count(DoDropCaller(s, t).ext, h)
         == Count(s.ext, h) - if s.finishing[t].ok && h in s.finishing[t].w.hashes then 1 else 0
  {
    var f := s.finishing[t];
    var c := f.w.call;
    assert IsWriteOf(s.calls, f.w) && CallOk(s.calls[c]);
    assert s.calls[c].caller == 0;
    OwnsMarks(s.saving, s.holder, s.calls, s.locals, c);
    assert h in f.w.hashes ==> h in SetOf(f.w.hashes) && Reserved(s.holder, s.calls, h);
    UnpinAllCounts(s.ext, f.w.hashes, h);
  }

  /** The offer itself releases its caller's pins exactly as often as its counter says. */
  lemma {:induction false} ExtOfOffer(s: World, es: seq<Event>, c: nat, h: Hash)
    requires Inv(s) && Runs(s, es) && c in s.calls
    ensures c in Run(s, es).calls && Run(s, es).calls[c].hashes == s.calls[c].hashes
    ensures Count(Run(s, es).ext, h)
         == Count(s.ext, h) + OthersNet(s, es, c, h)
            - if h in s.calls[c].hashes then Run(s, es).calls[c].caller - s.calls[c].caller else 0
    decreases |es|
  {
    if es != [] {
      var e, t := es[0], Step(s, es[0]);
      StepKeeps(s, e);
      CallMoves(s, e, c);
      ExtMoves(s, e, c, h);
      assert DropsFor(s, e, c) ==> IsWriteOf(s.calls, s.finishing[e.t].w);
      ExtOfOffer(t, es[1..], c, h);
    }
  }

  lemma SettledRecord(t: World, c: nat)
    requires Reachable(t) && c in t.calls && t.calls[c].filed > 0
    ensures t.calls[c].pc.Accepted? && t.calls[c].filed == 1 && t.calls[c].internal == 1
    ensures t.calls[c].caller == (if t.calls[c].ok then 1 else 0)
  {
    ReachableInv(t);
    assert CallOk(t.calls[c]);
    SettledOnce(t, c);
  }

  /**
    The sweep's pin on a block of its offer is gone from the clients' pins exactly when the offer
    settled well; every other change is somebody else's.
   */
  lemma CallerPins(s: World, es: seq<Event>, c: nat, h: Hash)
    requires Reachable(s) && c in s.calls && !s.calls[c].pc.Accepted? && h in s.calls[c].hashes
    requires Runs(s, es) && c in Run(s, es).calls && Run(s, es).calls[c].filed > 0
    ensures var t := Run(s, es);
            && t.calls[c].pc.Accepted? && t.calls[c].filed == 1 && t.calls[c].internal == 1
            && t.calls[c].caller == (if t.calls[c].ok then 1 else 0)
            && Count(t.ext, h) == Count(s.ext, h) + OthersNet(s, es, c, h) - (if t.calls[c].ok then 1 else 0)
            && Count(t.pins, h) == Count(t.ext, h) + if InternalPin(t.holder, t.calls, h) then 1 else 0
  {
    var t := Run(s, es);
    RunReachable(s, es);
    SettledRecord(t, c);
    ReachableInv(s);
    assert CallOk(s.calls[c]);
    ExtOfOffer(s, es, c, h);
    PinsConserved(t, h);
  }
}
