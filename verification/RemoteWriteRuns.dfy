/**
  Whole runs of the store's save protocol (tpu_sync/kv_cache/kv_cache_store.cc):
  any number of `SaveRemote` calls, pollers, local saves and other clients of the
  backend, interleaved between the mutex sections of `RemoteWrites`.

  The theorems at the end say that every accepted offer is settled exactly once,
  that pins and saving marks are conserved, and when operation ids shared by two
  live offers break this.
 */
module RemoteWriteRuns {
  import opened RemoteWrites

  /** Who holds a saving mark. */
  datatype Holder = Remote(call: nat) | Local(id: nat)

  datatype Pc =
    | Unmarking(mine: seq<Hash>)  // rolling back; these marks are still set
    | MarkedAll
    | Pinned
    | Refused                     // returned an error
    | Accepted                    // offered; settled when `filed` is 1

  /** A `SaveRemote` call, with the number of releases and filings done on its behalf. */
  datatype Call = Call(hashes: seq<Hash>, owner: Owner, pc: Pc, internal: nat, caller: nat, filed: nat, ok: bool)

  /** The thread executing `FinishRemoteWrite`: the call itself, or a poller. */
  datatype Thread = SyncOf(call: nat) | PollOf(poller: nat)

  /** `stage` counts the sections of `FinishRemoteWrite` already executed, from 0 to 2. */
  datatype Finish = Finish(w: Write, stage: nat, ok: bool, existing: seq<Hash>, unregistered: seq<Hash>)

  /** A poller works through its own copy of the offers it claimed. */
  datatype Poller = Poller(toPoll: seq<Write>, next: nat)

  datatype Filing = Filing(call: nat, owner: Owner, hashes: seq<Hash>, ok: bool, existing: seq<Hash>,
                           unregistered: seq<Hash>)

  /**
    `ext` counts the pins held by clients, `holder` names the operation behind each
    mark, `applicationTaken` and `sweepTaken` accumulate drained mail and `log` lists
    the filings: they record the run and decide nothing in it.
   */
  datatype World = World(
    pins: Pins, ext: Pins,
    saving: set<Hash>, holder: map<Hash, Holder>,
    active: seq<Write>, polling: set<nat>,
    application: Verdicts, sweep: Verdicts, applicationTaken: Verdicts, sweepTaken: Verdicts,
    log: seq<Filing>,
    calls: map<nat, Call>, finishing: map<Thread, Finish>, pollers: map<nat, Poller>, locals: map<nat, seq<Hash>>)

  const START := World(map[], map[], {}, map[], [], {}, NO_VERDICTS, NO_VERDICTS, NO_VERDICTS, NO_VERDICTS, [],
                       map[], map[], map[], map[])

  datatype Event =
    | Begin(c: nat, hs: seq<Hash>, owner: Owner, resident: set<Hash>, visible: nat)
    | PinOffer(c: nat)
    | RollBackPins(c: nat)        // the hold is too short, or the offer failed
    | RollBackMarks(c: nat)
    | SettledByAck(c: nat, ok: bool, existing: seq<Hash>)
    | RecordOffer(c: nat, op: nat)
    | ClaimOffers(p: nat)
    | StillPending(p: nat)
    | Decided(p: nat, ok: bool, existing: seq<Hash>, unregistered: seq<Hash>)
    | DropInternal(t: Thread)
    | DropCaller(t: Thread)
    | FileOutcome(t: Thread)
    | EndPoll(p: nat)
    | DrainMail(reader: Owner)
    | ClientPin(h: Hash)
    | ClientUnpin(h: Hash)
    | ClientInsert(h: Hash)
    | ClientRemove(h: Hash)
    | BeginLocal(l: nat, hs: seq<Hash>, eligible: set<Hash>)
    | EndLocal(l: nat)

  function CallMarks(c: Call): set<Hash> {
    match c.pc
    case Unmarking(mine) => SetOf(mine)
    case MarkedAll => SetOf(c.hashes)
    case Pinned => SetOf(c.hashes)
    case Refused => {}
    case Accepted => if c.filed == 0 then SetOf(c.hashes) else {}
  }

  /** The offer's internal pin is in place. */
  predicate HoldsInternal(c: Call) {
    c.pc.Pinned? || (c.pc.Accepted? && c.internal == 0 && c.filed == 0)
  }

  /** The save relies on the caller's pin, which it consumes if it succeeds. */
  predicate ReliesOnCaller(c: Call) {
    c.pc.MarkedAll? || c.pc.Pinned? || (c.pc.Accepted? && c.caller == 0 && c.filed == 0)
  }

  predicate InternalPin(holder: map<Hash, Holder>, calls: map<nat, Call>, h: Hash) {
    h in holder && holder[h].Remote? && holder[h].call in calls && HoldsInternal(calls[holder[h].call])
  }

  predicate Reserved(holder: map<Hash, Holder>, calls: map<nat, Call>, h: Hash) {
    h in holder && holder[h].Remote? && holder[h].call in calls && ReliesOnCaller(calls[holder[h].call])
  }

  predicate AtPc(s: World, c: nat, pc: Pc) {
    c in s.calls && s.calls[c].pc == pc
  }

  predicate OfCall(e: Event) {
    e.Begin? || e.PinOffer? || e.RollBackPins? || e.RollBackMarks? || e.SettledByAck? || e.RecordOffer?
  }

  predicate OfPoller(e: Event) {
    e.ClaimOffers? || e.StillPending? || e.Decided? || e.EndPoll?
  }

  predicate OfFinisher(e: Event) {
    e.DropInternal? || e.DropCaller? || e.FileOutcome?
  }

  predicate OfClient(e: Event) {
    e.ClientPin? || e.ClientUnpin? || e.ClientInsert? || e.ClientRemove?
  }

  predicate CallEnabled(s: World, e: Event)
    requires OfCall(e)
  {
    match e
    case Begin(c, hs, owner, resident, visible) => c !in s.calls && hs != []
    case PinOffer(c) => AtPc(s, c, MarkedAll)
    case RollBackPins(c) => AtPc(s, c, Pinned)
    case RollBackMarks(c) => c in s.calls && s.calls[c].pc.Unmarking?
    case SettledByAck(c, ok, existing) => AtPc(s, c, Pinned) && SyncOf(c) !in s.finishing
    case RecordOffer(c, op) => AtPc(s, c, Pinned) && op != 0
  }

  predicate PollerEnabled(s: World, e: Event)
    requires OfPoller(e)
  {
    match e
    case ClaimOffers(p) => p !in s.pollers
    case StillPending(p) => Idle(s, p) && s.pollers[p].next < |s.pollers[p].toPoll|
    case Decided(p, ok, existing, unregistered) => Idle(s, p) && s.pollers[p].next < |s.pollers[p].toPoll|
    case EndPoll(p) => Idle(s, p) && s.pollers[p].next >= |s.pollers[p].toPoll|
  }

  predicate FinisherEnabled(s: World, e: Event)
    requires OfFinisher(e)
  {
    e.t in s.finishing && s.finishing[e.t].w.call in s.calls
    && match e
       case DropInternal(t) => s.finishing[t].stage == 0
       case DropCaller(t) => s.finishing[t].stage == 1
       case FileOutcome(t) => s.finishing[t].stage == 2 && (t.PollOf? ==> t.poller in s.pollers)
  }

  predicate ClientEnabled(s: World, e: Event)
    requires OfClient(e)
  {
    match e
    case ClientPin(h) => h in s.pins
    case ClientUnpin(h) => Count(s.ext, h) > (if Reserved(s.holder, s.calls, h) then 1 else 0)
    case ClientInsert(h) => h !in s.pins
    case ClientRemove(h) => h in s.pins && s.pins[h] == 0
  }

  predicate Enabled(s: World, e: Event) {
    if OfCall(e) then CallEnabled(s, e)
    else if OfPoller(e) then PollerEnabled(s, e)
    else if OfFinisher(e) then FinisherEnabled(s, e)
    else if OfClient(e) then ClientEnabled(s, e)
    else match e
      case DrainMail(reader) => true
      case BeginLocal(l, hs, eligible) => l !in s.locals
      case EndLocal(l) => l in s.locals
  }

  predicate Idle(s: World, p: nat) {
    p in s.pollers && PollOf(p) !in s.finishing
  }

  function SetPc(s: World, c: nat, pc: Pc): World
    requires c in s.calls
  {
    s.(calls := s.calls[c := s.calls[c].(pc := pc)])
  }

  function Hold(holder: map<Hash, Holder>, hs: seq<Hash>, who: Holder): map<Hash, Holder> {
    holder + map h | h in SetOf(hs) :: who
  }

  function DoBegin(s: World, c: nat, hs: seq<Hash>, owner: Owner, resident: set<Hash>, visible: nat): World {
    var m := Mark(s.saving, s.pins, resident, hs);
    if visible < |hs| then s.(calls := s.calls[c := Call(hs, owner, Refused, 0, 0, 0, false)])
    else
      var pc := if m.ok then MarkedAll else if m.mine == [] then Refused else Unmarking(m.mine);
      s.(saving := m.saving, holder := Hold(s.holder, m.mine, Remote(c)),
         calls := s.calls[c := Call(hs, owner, pc, 0, 0, 0, false)])
  }

  function DoPin(s: World, c: nat): World
    requires c in s.calls
  {
    var hs := s.calls[c].hashes;
    if forall i | 0 <= i < |hs| :: hs[i] in s.pins then SetPc(s.(pins := PinAll(s.pins, hs)), c, Pinned)
    else SetPc(s, c, Unmarking(hs))
  }

  function DoRollBackPins(s: World, c: nat): World
    requires c in s.calls
  {
    var hs := s.calls[c].hashes;
    SetPc(s.(pins := UnpinAll(s.pins, hs)), c, Unmarking(hs))
  }

  function DoRollBackMarks(s: World, c: nat): World
    requires c in s.calls && s.calls[c].pc.Unmarking?
  {
    var mine := SetOf(s.calls[c].pc.mine);
    SetPc(s.(saving := s.saving - mine, holder := s.holder - mine), c, Refused)
  }

  function DoSettled(s: World, c: nat, ok: bool, existing: seq<Hash>): World
    requires c in s.calls
  {
    var w := Write(c, 0, s.calls[c].hashes, s.calls[c].owner);
    SetPc(s.(finishing := s.finishing[SyncOf(c) := Finish(w, 0, ok, existing, [])]), c, Accepted)
  }

  function DoRecord(s: World, c: nat, op: nat): World
    requires c in s.calls
  {
    SetPc(s.(active := s.active + [Write(c, op, s.calls[c].hashes, s.calls[c].owner)]), c, Accepted)
  }

  function DoClaim(s: World, p: nat): World {
    var claimed := Claim(s.polling, s.active);
    s.(polling := claimed.polling, pollers := s.pollers[p := Poller(claimed.mine, 0)])
  }

  function Skip(pollers: map<nat, Poller>, p: nat): map<nat, Poller>
    requires p in pollers
  {
    pollers[p := pollers[p].(next := pollers[p].next + 1)]
  }

  function DoDecided(s: World, p: nat, ok: bool, existing: seq<Hash>, unregistered: seq<Hash>): World
    requires p in s.pollers && s.pollers[p].next < |s.pollers[p].toPoll|
  {
    var w := s.pollers[p].toPoll[s.pollers[p].next];
    s.(finishing := s.finishing[PollOf(p) := Finish(w, 0, ok, existing, unregistered)])
  }

  function DoDropInternal(s: World, t: Thread): World
    requires t in s.finishing && s.finishing[t].w.call in s.calls
  {
    var f := s.finishing[t];
    var c := s.calls[f.w.call];
    s.(pins := UnpinAll(s.pins, f.w.hashes), finishing := s.finishing[t := f.(stage := 1)],
       calls := s.calls[f.w.call := c.(internal := c.internal + 1)])
  }

  function DoDropCaller(s: World, t: Thread): World
    requires t in s.finishing && s.finishing[t].w.call in s.calls
  {
    var f := s.finishing[t];
    var c := s.calls[f.w.call];
    if !f.ok then s.(finishing := s.finishing[t := f.(stage := 2)])
    else s.(pins := UnpinAll(s.pins, f.w.hashes), ext := UnpinAll(s.ext, f.w.hashes),
            finishing := s.finishing[t := f.(stage := 2)],
            calls := s.calls[f.w.call := c.(caller := c.caller + 1)])
  }

  function DoFile(s: World, t: Thread): World
    requires t in s.finishing && s.finishing[t].w.call in s.calls
    requires t.PollOf? ==> t.poller in s.pollers
  {
    var f := s.finishing[t];
    var c := s.calls[f.w.call];
    s.(active := EraseOp(s.active, f.w.op),
       saving := s.saving - SetOf(f.w.hashes), holder := s.holder - SetOf(f.w.hashes),
       application := if f.w.owner
           == Application then FileIn(s.application, f.w.hashes, f.ok, f.existing, f.unregistered) else s.application,
       sweep := if f.w.owner == Sweep then FileIn(s.sweep, f.w.hashes, f.ok, f.existing, f.unregistered) else s.sweep,
       log := s.log + [Filing(f.w.call, f.w.owner, f.w.hashes, f.ok, f.existing, f.unregistered)],
       calls := s.calls[f.w.call := c.(filed := c.filed + 1, ok := f.ok)],
       finishing := s.finishing - {t},
       pollers := if t.PollOf? then Skip(s.pollers, t.poller) else s.pollers)
  }

  function DoEndPoll(s: World, p: nat): World
    requires p in s.pollers
  {
    s.(polling := s.polling - Ops(s.pollers[p].toPoll), pollers := s.pollers - {p})
  }

  function Cat(v: Verdicts, w: Verdicts): Verdicts {
    Verdicts(v.done + w.done, v.failed + w.failed, v.existing + w.existing, v.unregistered + w.unregistered)
  }

  function DoDrain(s: World, owner: Owner): World {
    match owner
    case Application => s.(application := NO_VERDICTS, applicationTaken := Cat(s.applicationTaken, s.application))
    case Sweep => s.(sweep := NO_VERDICTS, sweepTaken := Cat(s.sweepTaken, s.sweep))
  }

  function DoBeginLocal(s: World, l: nat, hs: seq<Hash>, eligible: set<Hash>): World {
    if AllOfferable(s.saving, s.pins, eligible, hs) then
      s.(saving := s.saving + SetOf(hs), holder := Hold(s.holder, hs, Local(l)), locals := s.locals[l := hs])
    else s
  }

  function DoEndLocal(s: World, l: nat): World
    requires l in s.locals
  {
    s.(saving := s.saving - SetOf(s.locals[l]), holder := s.holder - SetOf(s.locals[l]), locals := s.locals - {l})
  }

  function CallStep(s: World, e: Event): World
    requires OfCall(e) && CallEnabled(s, e)
  {
    match e
    case Begin(c, hs, owner, resident, visible) => DoBegin(s, c, hs, owner, resident, visible)
    case PinOffer(c) => DoPin(s, c)
    case RollBackPins(c) => DoRollBackPins(s, c)
    case RollBackMarks(c) => DoRollBackMarks(s, c)
    case SettledByAck(c, ok, existing) => DoSettled(s, c, ok, existing)
    case RecordOffer(c, op) => DoRecord(s, c, op)
  }

  function PollerStep(s: World, e: Event): World
    requires OfPoller(e) && PollerEnabled(s, e)
  {
    match e
    case ClaimOffers(p) => DoClaim(s, p)
    case StillPending(p) => s.(pollers := Skip(s.pollers, p))
    case Decided(p, ok, existing, unregistered) => DoDecided(s, p, ok, existing, unregistered)
    case EndPoll(p) => DoEndPoll(s, p)
  }

  function FinisherStep(s: World, e: Event): World
    requires OfFinisher(e) && FinisherEnabled(s, e)
  {
    match e
    case DropInternal(t) => DoDropInternal(s, t)
    case DropCaller(t) => DoDropCaller(s, t)
    case FileOutcome(t) => DoFile(s, t)
  }

  function ClientStep(s: World, e: Event): World
    requires OfClient(e) && ClientEnabled(s, e)
  {
    match e
    case ClientPin(h) => s.(pins := PinOne(s.pins, h), ext := s.ext[h := Count(s.ext, h) + 1])
    case ClientUnpin(h) => s.(pins := UnpinOne(s.pins, h), ext := UnpinOne(s.ext, h))
    case ClientInsert(h) => s.(pins := s.pins[h := 0])
    case ClientRemove(h) => s.(pins := s.pins - {h})
  }

  function Step(s: World, e: Event): World
    requires Enabled(s, e)
  {
    if OfCall(e) then CallStep(s, e)
    else if OfPoller(e) then PollerStep(s, e)
    else if OfFinisher(e) then FinisherStep(s, e)
    else if OfClient(e) then ClientStep(s, e)
    else match e
      case DrainMail(reader) => DoDrain(s, reader)
      case BeginLocal(l, hs, eligible) => DoBeginLocal(s, l, hs, eligible)
      case EndLocal(l) => DoEndLocal(s, l)
  }

  // ---------------------------------------------------------------- invariant

  predicate HeldBy(calls: map<nat, Call>, locals: map<nat, seq<Hash>>, h: Hash, who: Holder) {
    match who
    case Remote(c) => c in calls && h in CallMarks(calls[c])
    case Local(l) => l in locals && h in SetOf(locals[l])
  }

  /** The saving marks are the disjoint union of the marks of the operations in flight. */
  ghost predicate MarksOk(saving: set<Hash>, holder: map<Hash, Holder>, calls: map<nat, Call>,
                          locals: map<nat, seq<Hash>>) {
    && saving == holder.Keys
    && forall h, who :: HeldBy(calls, locals, h, who) <==> h in holder && holder[h] == who
  }

  predicate CallOk(c: Call) {
    && (c.pc.Accepted? || (c.internal == 0 && c.caller == 0 && c.filed == 0))
    && (c.pc.MarkedAll? || c.pc.Pinned? || c.pc.Accepted? ==> Distinct(c.hashes))
  }

  ghost predicate CallsOk(calls: map<nat, Call>) {
    forall c | c in calls :: CallOk(calls[c])
  }

  /** The offer is accepted and not yet settled. */
  predicate InFlight(calls: map<nat, Call>, c: nat) {
    c in calls && calls[c].pc.Accepted? && calls[c].filed == 0
  }

  predicate IsWriteOf(calls: map<nat, Call>, w: Write) {
    InFlight(calls, w.call) && w.hashes == calls[w.call].hashes && w.owner == calls[w.call].owner
  }

  ghost predicate Recorded(active: seq<Write>, c: nat) {
    exists i :: 0 <= i < |active| && active[i].call == c
  }

  ghost predicate DistinctOps(ws: seq<Write>) {
    forall i, j | 0 <= i < j < |ws| :: ws[i].op != ws[j].op
  }

  ghost predicate DistinctCalls(ws: seq<Write>) {
    forall i, j | 0 <= i < j < |ws| :: ws[i].call != ws[j].call
  }

  /** The list holds asynchronous offers in flight, each once. */
  ghost predicate ActiveOk(active: seq<Write>, calls: map<nat, Call>, finishing: map<Thread, Finish>) {
    && DistinctCalls(active)
    && (forall i | 0 <= i < |active| ::
          active[i].op != 0 && IsWriteOf(calls, active[i]) && SyncOf(active[i].call) !in finishing)
  }

  /** The list holds every asynchronous offer in flight, under distinct ids. */
  ghost predicate TrackedOk(active: seq<Write>, calls: map<nat, Call>, finishing: map<Thread, Finish>) {
    && DistinctOps(active)
    && (forall c | InFlight(calls, c) :: SyncOf(c) in finishing || Recorded(active, c))
  }

  /** No other poller holds the same claim, and what is left to poll is still active. */
  ghost predicate PollersOk(active: seq<Write>, pollers: map<nat, Poller>) {
    && (forall p | p in pollers :: pollers[p].next <= |pollers[p].toPoll| && DistinctOps(pollers[p].toPoll))
    && (forall p, k | p in pollers && pollers[p].next <= k < |pollers[p].toPoll| :: pollers[p].toPoll[k] in active)
    && (forall p, q, i, j | p in pollers && q in pollers && p != q && 0 <= i < |pollers[p].toPoll|
        && 0 <= j < |pollers[q].toPoll| ::
          pollers[p].toPoll[i].op != pollers[q].toPoll[j].op)
  }

  predicate Claims(pollers: map<nat, Poller>, p: nat, op: nat) {
    p in pollers && op in Ops(pollers[p].toPoll)
  }

  /** The claim set is the union of the pollers' claims: none is left behind. */
  ghost predicate ClaimsOk(polling: set<nat>, pollers: map<nat, Poller>) {
    && (forall p, op | Claims(pollers, p, op) :: op in polling)
    && (forall op | op in polling :: exists p :: Claims(pollers, p, op))
  }

  predicate FinishedBy(pollers: map<nat, Poller>, t: Thread, w: Write) {
    match t
    case SyncOf(c) => w.call == c && w.op == 0
    case PollOf(p) => p in pollers && pollers[p].next < |pollers[p].toPoll| && w == pollers[p].toPoll[pollers[p].next]
  }

  ghost predicate FinishingOk(finishing: map<Thread, Finish>, pollers: map<nat, Poller>, calls: map<nat, Call>) {
    forall t | t in finishing ::
      finishing[t].stage <= 2 && IsWriteOf(calls, finishing[t].w) && FinishedBy(pollers, t, finishing[t].w)
  }

  /** At most one thread settles an offer. */
  ghost predicate OneFinisher(finishing: map<Thread, Finish>) {
    forall t, u | t in finishing && u in finishing && t != u :: finishing[t].w.call != finishing[u].w.call
  }

  ghost predicate BeingFinished(finishing: map<Thread, Finish>, c: nat) {
    exists t :: t in finishing && finishing[t].w.call == c
  }

  /** The releases done for an offer agree with how far its finish has come. */
  ghost predicate CountersOk(calls: map<nat, Call>, finishing: map<Thread, Finish>) {
    && (forall t | t in finishing && finishing[t].w.call in calls ::
          && calls[finishing[t].w.call].internal == (if finishing[t].stage >= 1 then 1 else 0)
          && calls[finishing[t].w.call].caller == (if finishing[t].stage == 2 && finishing[t].ok then 1 else 0))
    && (forall c | InFlight(calls, c) && !BeingFinished(finishing, c) :: calls[c].internal == 0 && calls[c].caller == 0)
    && (forall c | c in calls && calls[c].filed > 0 ::
          calls[c].filed == 1 && calls[c].internal == 1 && calls[c].caller == if calls[c].ok then 1 else 0)
  }

  /** Every pin is a client's or the internal pin of one offer. */
  ghost predicate PinsOk(pins: Pins, ext: Pins, holder: map<Hash, Holder>, calls: map<nat, Call>) {
    && (forall h :: Count(pins, h) == Count(ext, h) + if InternalPin(holder, calls, h) then 1 else 0)
    && (forall h | Reserved(holder, calls, h) :: Count(ext, h) > 0)
  }

  /** What the filings so far have put in one owner's mailbox. */
  function Replay(log: seq<Filing>, owner: Owner): Verdicts {
    if log == [] then NO_VERDICTS
    else
      var v, f := Replay(log[..|log| - 1], owner), log[|log| - 1];
      if f.owner == owner then FileIn(v, f.hashes, f.ok, f.existing, f.unregistered) else v
  }

  function Filings(log: seq<Filing>, c: nat): nat {
    if log == [] then 0 else Filings(log[..|log| - 1], c) + if log[|log| - 1].call == c then 1 else 0
  }

  /** Mail taken plus mail waiting is what was filed for that owner. */
  ghost predicate MailOk(taken: Verdicts, waiting: Verdicts, log: seq<Filing>, owner: Owner) {
    Cat(taken, waiting) == Replay(log, owner)
  }

  predicate FilingOf(calls: map<nat, Call>, f: Filing) {
    f.call in calls && calls[f.call].pc.Accepted? && calls[f.call].filed > 0
    && f.hashes == calls[f.call].hashes && f.owner == calls[f.call].owner && f.ok == calls[f.call].ok
  }

  ghost predicate LogOk(log: seq<Filing>, calls: map<nat, Call>) {
    && (forall c | c in calls :: Filings(log, c) == calls[c].filed)
    && (forall i | 0 <= i < |log| :: FilingOf(calls, log[i]))
  }

  ghost predicate ResourcesOk(s: World) {
    && MarksOk(s.saving, s.holder, s.calls, s.locals)
    && CallsOk(s.calls)
    && PinsOk(s.pins, s.ext, s.holder, s.calls)
  }

  ghost predicate OffersOk(s: World) {
    && ActiveOk(s.active, s.calls, s.finishing)
    && PollersOk(s.active, s.pollers)
    && ClaimsOk(s.polling, s.pollers)
    && FinishingOk(s.finishing, s.pollers, s.calls)
    && OneFinisher(s.finishing)
    && CountersOk(s.calls, s.finishing)
  }

  ghost predicate FilingsOk(s: World) {
    && MailOk(s.applicationTaken, s.application, s.log, Application)
    && MailOk(s.sweepTaken, s.sweep, s.log, Sweep)
    && LogOk(s.log, s.calls)
  }

  ghost predicate Inv(s: World) {
    ResourcesOk(s) && OffersOk(s) && FilingsOk(s)
  }

  /** Operation ids are distinct among live operations. */
  ghost predicate FreshOp(s: World, e: Event) {
    e.RecordOffer? ==> e.op !in Ops(s.active)
  }

  // ---------------------------------------------------- marks, part by part

  lemma MarksAdded(saving: set<Hash>, holder: map<Hash, Holder>, calls: map<nat, Call>, locals: map<nat, seq<Hash>>,
                   c: nat, call: Call, mine: seq<Hash>)
    requires MarksOk(saving, holder, calls, locals) && c !in calls && CallMarks(call) == SetOf(mine)
    requires forall h | h in SetOf(mine) :: h !in saving
    ensures MarksOk(saving + SetOf(mine), Hold(holder, mine, Remote(c)), calls[c := call], locals)
  {
    var after := calls[c := call];
    forall h, who ensures HeldBy(after, locals, h, who)
                          <==> h in Hold(holder, mine, Remote(c)) && Hold(holder, mine, Remote(c))[h] == who {
      assert HeldBy(calls, locals, h, who) <==> h in holder && holder[h] == who;
    }
  }

  lemma MarksSame(saving: set<Hash>, holder: map<Hash, Holder>, calls: map<nat, Call>, locals: map<nat, seq<Hash>>,
                  c: nat, call: Call)
    requires MarksOk(saving, holder, calls, locals) && c in calls && CallMarks(call) == CallMarks(calls[c])
    ensures MarksOk(saving, holder, calls[c := call], locals)
  {
    var after := calls[c := call];
    forall h, who ensures HeldBy(after, locals, h, who) <==> h in holder && holder[h] == who {
      assert HeldBy(calls, locals, h, who) <==> h in holder && holder[h] == who;
    }
  }

  lemma MarksDropped(saving: set<Hash>, holder: map<Hash, Holder>, calls: map<nat, Call>, locals: map<nat, seq<Hash>>,
                     c: nat, call: Call, mine: set<Hash>)
    requires MarksOk(saving, holder, calls, locals) && c in calls && CallMarks(calls[c]) == mine
             && CallMarks(call) == {}
    ensures MarksOk(saving - mine, holder - mine, calls[c := call], locals)
  {
    var after := calls[c := call];
    forall h, who ensures HeldBy(after, locals, h, who) <==> h in holder - mine && (holder - mine)[h] == who {
      assert HeldBy(calls, locals, h, who) <==> h in holder && holder[h] == who;
      assert h in mine <==> HeldBy(calls, locals, h, Remote(c));
    }
  }

  lemma MarksAddedLocal(saving: set<Hash>, holder: map<Hash, Holder>, calls: map<nat, Call>,
                        locals: map<nat, seq<Hash>>, l: nat, hs: seq<Hash>)
    requires MarksOk(saving, holder, calls, locals) && l !in locals
    requires forall h | h in SetOf(hs) :: h !in saving
    ensures MarksOk(saving + SetOf(hs), Hold(holder, hs, Local(l)), calls, locals[l := hs])
  {
    var after := locals[l := hs];
    forall h, who ensures HeldBy(calls, after, h, who)
                          <==> h in Hold(holder, hs, Local(l)) && Hold(holder, hs, Local(l))[h] == who {
      assert HeldBy(calls, locals, h, who) <==> h in holder && holder[h] == who;
    }
  }

  lemma MarksDroppedLocal(saving: set<Hash>, holder: map<Hash, Holder>, calls: map<nat, Call>,
                          locals: map<nat, seq<Hash>>, l: nat)
    requires MarksOk(saving, holder, calls, locals) && l in locals
    ensures MarksOk(saving - SetOf(locals[l]), holder - SetOf(locals[l]), calls, locals - {l})
  {
    var mine := SetOf(locals[l]);
    forall h, who ensures HeldBy(calls, locals - {l}, h, who) <==> h in holder - mine && (holder - mine)[h] == who {
      assert HeldBy(calls, locals, h, who) <==> h in holder && holder[h] == who;
      assert h in mine <==> HeldBy(calls, locals, h, Local(l));
    }
  }

  // -------------------------------------------------------- claims and erasing

  lemma {:induction false} EraseOpExact(active: seq<Write>, op: nat)
    ensures forall w :: w in EraseOp(active, op) <==> w in active && w.op != op
  {
    if active != [] {
      var n := |active| - 1;
      assert active == active[..n] + [active[n]];
      EraseOpExact(active[..n], op);
    }
  }

  lemma {:induction false} EraseOpDistinct(active: seq<Write>, op: nat)
    ensures DistinctOps(active) ==> DistinctOps(EraseOp(active, op))
    ensures DistinctCalls(active) ==> DistinctCalls(EraseOp(active, op))
  {
    if active != [] {
      var n := |active| - 1;
      EraseOpDistinct(active[..n], op);
      var kept := EraseOp(active[..n], op);
      EraseOpExact(active[..n], op);
      forall i | 0 <= i < |kept|
        ensures DistinctOps(active) ==> kept[i].op != active[n].op
        ensures DistinctCalls(active) ==> kept[i].call != active[n].call
      {
        assert kept[i] in active[..n];
        var k :| 0 <= k < n && active[k] == kept[i];
      }
    }
  }

  /** A poller's claims: the active offers nobody was polling. */
  lemma {:induction false} ClaimExact(polling: set<nat>, active: seq<Write>)
    ensures Claim(polling, active).polling == polling + Ops(active)
    ensures Ops(Claim(polling, active).mine) == Ops(active) - polling
    ensures DistinctOps(Claim(polling, active).mine)
    ensures forall w | w in Claim(polling, active).mine :: w in active
  {
    if active != [] {
      var n := |active| - 1;
      var c := Claim(polling, active[..n]);
      ClaimExact(polling, active[..n]);
      OpsAppend(active[..n], active[n]);
      OpsAppend(c.mine, active[n]);
      assert active == active[..n] + [active[n]];
      forall i | 0 <= i < |c.mine| ensures c.mine[i].op in c.polling {
        assert c.mine[i].op in Ops(c.mine);
      }
    }
  }

  lemma OpsAppend(ws: seq<Write>, w: Write)
    ensures Ops(ws + [w]) == Ops(ws) + {w.op}
  {
    forall op ensures op in Ops(ws + [w]) <==> op in Ops(ws) || op == w.op {
      if op in Ops(ws) {
        var i :| 0 <= i < |ws| && ws[i].op == op;
        assert (ws + [w])[i].op == op;
      }
      if op == w.op {
        assert (ws + [w])[|ws|].op == op;
      }
    }
  }

  // ---------------------------------------------------------- pins, part by part

  ghost predicate Owns(holder: map<Hash, Holder>, c: nat, hs: set<Hash>) {
    forall h :: h in hs <==> h in holder && holder[h] == Remote(c)
  }

  lemma OwnsMarks(saving: set<Hash>, holder: map<Hash, Holder>, calls: map<nat, Call>, locals: map<nat, seq<Hash>>,
                  c: nat)
    requires MarksOk(saving, holder, calls, locals) && c in calls
    ensures Owns(holder, c, CallMarks(calls[c]))
  {
    forall h ensures h in CallMarks(calls[c]) <==> h in holder && holder[h] == Remote(c) {
      assert HeldBy(calls, locals, h, Remote(c)) <==> h in holder && holder[h] == Remote(c);
    }
  }

  function Held(c: Call): nat {
    if HoldsInternal(c) then 1 else 0
  }

  /** One call moves on: its hashes gain or lose the internal pin, all others are untouched. */
  lemma PinsMoved(pins: Pins, ext: Pins, pins': Pins, ext': Pins, holder: map<Hash, Holder>, calls: map<nat, Call>,
                  c: nat, call: Call, hs: set<Hash>)
    requires PinsOk(pins, ext, holder, calls) && c in calls && Owns(holder, c, hs)
    requires forall h | h in hs ::
               Count(pins', h) - Count(ext', h) - Held(call) == Count(pins, h) - Count(ext, h) - Held(calls[c])
    requires forall h | h in hs && ReliesOnCaller(call) :: Count(ext', h) > 0
    requires forall h | h !in hs :: Count(pins', h) == Count(pins, h) && Count(ext', h) == Count(ext, h)
    ensures PinsOk(pins', ext', holder, calls[c := call])
  {
    var after := calls[c := call];
    forall h ensures Count(pins', h) == Count(ext', h) + if InternalPin(holder, after, h) then 1 else 0 {
      assert Count(pins, h) == Count(ext, h) + if InternalPin(holder, calls, h) then 1 else 0;
    }
    forall h | Reserved(holder, after, h) ensures Count(ext', h) > 0 {
      assert h in hs || Reserved(holder, calls, h);
    }
  }

  /** Marks that protect no pin come and go. */
  lemma PinsUnheld(pins: Pins, ext: Pins, holder: map<Hash, Holder>, calls: map<nat, Call>, c: nat, call: Call,
                   hs: set<Hash>)
    requires PinsOk(pins, ext, holder, calls) && c in calls && Owns(holder, c, hs) && !HoldsInternal(calls[c])
    ensures PinsOk(pins, ext, holder - hs, calls[c := call])
  {
    var after, rest := calls[c := call], holder - hs;
    forall h ensures Count(pins, h) == Count(ext, h) + if InternalPin(rest, after, h) then 1 else 0 {
      assert Count(pins, h) == Count(ext, h) + if InternalPin(holder, calls, h) then 1 else 0;
    }
    forall h | Reserved(rest, after, h) ensures Count(ext, h) > 0 {
      assert Reserved(holder, calls, h);
    }
  }

  lemma PinsBegin(pins: Pins, ext: Pins, holder: map<Hash, Holder>, calls: map<nat, Call>, c: nat, call: Call,
                  mine: seq<Hash>)
    requires PinsOk(pins, ext, holder, calls) && c !in calls && !HoldsInternal(call)
    requires forall h | h in holder && holder[h].Remote? :: holder[h].call != c
    requires forall h | h in SetOf(mine) :: h !in holder && Count(pins, h) > 0
    ensures PinsOk(pins, ext, Hold(holder, mine, Remote(c)), calls[c := call])
  {
    var after, more := calls[c := call], Hold(holder, mine, Remote(c));
    forall h ensures Count(pins, h) == Count(ext, h) + if InternalPin(more, after, h) then 1 else 0 {
      assert Count(pins, h) == Count(ext, h) + if InternalPin(holder, calls, h) then 1 else 0;
    }
    forall h | Reserved(more, after, h) ensures Count(ext, h) > 0 {
      assert Count(pins, h) == Count(ext, h) + if InternalPin(holder, calls, h) then 1 else 0;
      assert h in SetOf(mine) || Reserved(holder, calls, h);
    }
  }

  lemma PinsLocal(pins: Pins, ext: Pins, holder: map<Hash, Holder>, calls: map<nat, Call>, l: nat, hs: seq<Hash>)
    requires PinsOk(pins, ext, holder, calls)
    requires forall h | h in SetOf(hs) :: h !in holder
    ensures PinsOk(pins, ext, Hold(holder, hs, Local(l)), calls)
  {
    var more := Hold(holder, hs, Local(l));
    forall h ensures InternalPin(more, calls, h) == InternalPin(holder, calls, h)
        && Reserved(more, calls, h) == Reserved(holder, calls, h) {
    }
  }

  lemma PinsLocalEnd(pins: Pins, ext: Pins, holder: map<Hash, Holder>, calls: map<nat, Call>, hs: set<Hash>)
    requires PinsOk(pins, ext, holder, calls)
    requires forall h | h in hs && h in holder :: holder[h].Local?
    ensures PinsOk(pins, ext, holder - hs, calls)
  {
    var rest := holder - hs;
    forall h ensures InternalPin(rest, calls, h) == InternalPin(holder, calls, h)
        && Reserved(rest, calls, h) == Reserved(holder, calls, h) {
    }
  }

  // --------------------------------------------- offers in flight, part by part

  lemma {:induction false} NoFilings(log: seq<Filing>, calls: map<nat, Call>, c: nat)
    requires forall i | 0 <= i < |log| :: FilingOf(calls, log[i])
    requires c in calls ==> calls[c].filed == 0
    ensures Filings(log, c) == 0
  {
    if log != [] {
      assert FilingOf(calls, log[|log| - 1]);
      NoFilings(log[..|log| - 1], calls, c);
    }
  }

  /** A call that is not accepted has no part in settling. */
  lemma EarlyCall(active: seq<Write>, calls: map<nat, Call>, finishing: map<Thread, Finish>, c: nat, call: Call)
    requires c in calls ==> !calls[c].pc.Accepted?
    requires !call.pc.Accepted? && call.filed == 0
    requires ActiveOk(active, calls, finishing) && CountersOk(calls, finishing)
    requires forall t | t in finishing :: finishing[t].w.call != c
    ensures ActiveOk(active, calls[c := call], finishing) && CountersOk(calls[c := call], finishing)
  {
    var after := calls[c := call];
    forall i | 0 <= i < |active| ensures IsWriteOf(after, active[i]) {
      assert IsWriteOf(calls, active[i]);
    }
    forall d ensures InFlight(after, d) == InFlight(calls, d) {
    }
  }

  lemma EarlyLog(calls: map<nat, Call>, log: seq<Filing>, c: nat, call: Call)
    requires c in calls ==> !calls[c].pc.Accepted? && calls[c].filed == 0
    requires call.filed == 0 && LogOk(log, calls)
    ensures LogOk(log, calls[c := call])
  {
    NoFilings(log, calls, c);
    var after := calls[c := call];
    forall i | 0 <= i < |log| ensures FilingOf(after, log[i]) {
      assert FilingOf(calls, log[i]);
    }
  }

  lemma EarlyFinishing(calls: map<nat, Call>, finishing: map<Thread, Finish>, pollers: map<nat, Poller>, c: nat,
                       call: Call)
    requires c in calls ==> !calls[c].pc.Accepted?
    requires FinishingOk(finishing, pollers, calls)
    ensures FinishingOk(finishing, pollers, calls[c := call])
    ensures forall t | t in finishing :: finishing[t].w.call != c
  {
    forall t | t in finishing ensures finishing[t].w.call != c {
      assert IsWriteOf(calls, finishing[t].w);
    }
  }

  lemma StillFinished(finishing: map<Thread, Finish>, t: Thread, f: Finish)
    requires t in finishing ==> f.w == finishing[t].w
    ensures forall d | BeingFinished(finishing, d) :: BeingFinished(finishing[t := f], d)
  {
    forall d | BeingFinished(finishing, d) ensures BeingFinished(finishing[t := f], d) {
      var u :| u in finishing && finishing[u].w.call == d;
      assert u in finishing[t := f] && finishing[t := f][u].w.call == d;
    }
  }

  lemma AcceptedSync(active: seq<Write>, calls: map<nat, Call>, finishing: map<Thread, Finish>, c: nat, f: Finish)
    requires ActiveOk(active, calls, finishing) && CountersOk(calls, finishing) && OneFinisher(finishing)
    requires c in calls && calls[c].pc.Pinned? && CallOk(calls[c]) && SyncOf(c) !in finishing
    requires f.w == Write(c, 0, calls[c].hashes, calls[c].owner) && f.stage == 0
    requires forall t | t in finishing :: finishing[t].w.call != c
    ensures var calls' := calls[c := calls[c].(pc := Accepted)];
            var finishing' := finishing[SyncOf(c) := f];
            ActiveOk(active, calls', finishing') && CountersOk(calls', finishing') && OneFinisher(finishing')
  {
    var calls' := calls[c := calls[c].(pc := Accepted)];
    var finishing' := finishing[SyncOf(c) := f];
    forall i | 0 <= i < |active| ensures IsWriteOf(calls', active[i]) && active[i].call != c {
      assert IsWriteOf(calls, active[i]);
    }
    assert finishing'[SyncOf(c)].w.call == c;
    StillFinished(finishing, SyncOf(c), f);
    assert forall d | InFlight(calls', d) && d != c :: InFlight(calls, d);
  }

  lemma AcceptedCounters(calls: map<nat, Call>, finishing: map<Thread, Finish>, c: nat)
    requires CountersOk(calls, finishing)
    requires c in calls && calls[c].pc.Pinned? && CallOk(calls[c])
    requires forall t | t in finishing :: finishing[t].w.call != c
    ensures CountersOk(calls[c := calls[c].(pc := Accepted)], finishing)
  {
    var calls' := calls[c := calls[c].(pc := Accepted)];
    assert forall d | InFlight(calls', d) && d != c :: InFlight(calls, d);
  }

  lemma AcceptedAsync(active: seq<Write>, calls: map<nat, Call>, finishing: map<Thread, Finish>, c: nat, w: Write)
    requires ActiveOk(active, calls, finishing)
    requires c in calls && calls[c].pc.Pinned? && CallOk(calls[c]) && SyncOf(c) !in finishing
    requires w.call == c && w.hashes == calls[c].hashes && w.owner == calls[c].owner && w.op != 0
    requires forall t | t in finishing :: finishing[t].w.call != c
    ensures var calls' := calls[c := calls[c].(pc := Accepted)];
            ActiveOk(active + [w], calls', finishing)
  {
    var calls' := calls[c := calls[c].(pc := Accepted)];
    forall i | 0 <= i < |active| ensures IsWriteOf(calls', active[i]) && active[i].call != c {
      assert IsWriteOf(calls, active[i]);
    }
  }

  /** An active offer is settled by a poller only, and only by one that still has it to poll. */
  lemma NotFinishedElsewhere(active: seq<Write>, calls: map<nat, Call>, finishing: map<Thread, Finish>,
                             pollers: map<nat, Poller>, p: nat)
    requires ActiveOk(active, calls, finishing) && PollersOk(active, pollers) && FinishingOk(finishing, pollers, calls)
    requires p in pollers && pollers[p].next < |pollers[p].toPoll|
    ensures var w := pollers[p].toPoll[pollers[p].next];
            w in active && IsWriteOf(calls, w) && SyncOf(w.call) !in finishing
            && forall t | t in finishing && t != PollOf(p) :: finishing[t].w.call != w.call
  {
    var w := pollers[p].toPoll[pollers[p].next];
    assert w in active;
    var k :| 0 <= k < |active| && active[k] == w;
    forall t | t in finishing && t != PollOf(p) ensures finishing[t].w.call != w.call {
      assert FinishedBy(pollers, t, finishing[t].w);
      if t.PollOf? {
        var v := pollers[t.poller].toPoll[pollers[t.poller].next];
        assert v in active && v.op != w.op;
        var j :| 0 <= j < |active| && active[j] == v;
      }
    }
  }

  lemma DecidedStep(active: seq<Write>, calls: map<nat, Call>, finishing: map<Thread, Finish>,
                    pollers: map<nat, Poller>, p: nat, f: Finish)
    requires ActiveOk(active, calls, finishing) && PollersOk(active, pollers) && FinishingOk(finishing, pollers, calls)
    requires OneFinisher(finishing) && CountersOk(calls, finishing)
    requires p in pollers && pollers[p].next < |pollers[p].toPoll| && PollOf(p) !in finishing
    requires f.w == pollers[p].toPoll[pollers[p].next] && f.stage == 0
    ensures var finishing' := finishing[PollOf(p) := f];
            ActiveOk(active, calls, finishing') && FinishingOk(finishing', pollers, calls)
            && OneFinisher(finishing') && CountersOk(calls, finishing')
  {
    NotFinishedElsewhere(active, calls, finishing, pollers, p);
    var finishing' := finishing[PollOf(p) := f];
    assert !BeingFinished(finishing, f.w.call);
    StillFinished(finishing, PollOf(p), f);
  }

  /** The list depends only on which offers are in flight and which settle synchronously. */
  lemma ActiveFrame(active: seq<Write>, calls: map<nat, Call>, calls': map<nat, Call>, finishing: map<Thread, Finish>,
                    finishing': map<Thread, Finish>)
    requires ActiveOk(active, calls, finishing) && finishing'.Keys == finishing.Keys
    requires forall d :: InFlight(calls', d) == InFlight(calls, d)
    requires forall d | d in calls ::
             d in calls' && calls'[d].hashes == calls[d].hashes && calls'[d].owner == calls[d].owner
    ensures ActiveOk(active, calls', finishing')
  {
    forall i | 0 <= i < |active| ensures IsWriteOf(calls', active[i]) {
      assert IsWriteOf(calls, active[i]);
    }
  }

  function Counted(c: Call, f: Finish): Call {
    if f.stage == 0 then c.(internal := c.internal + 1) else if f.ok then c.(caller := c.caller + 1) else c
  }

  /** A finisher moves to its next stage, counting the release it has done. */
  lemma StageFinishing(calls: map<nat, Call>, finishing: map<Thread, Finish>, pollers: map<nat, Poller>, t: Thread,
                       f': Finish, call: Call)
    requires FinishingOk(finishing, pollers, calls) && OneFinisher(finishing)
    requires t in finishing && f'.w == finishing[t].w && f'.stage <= 2
    requires call == calls[f'.w.call].(internal := call.internal, caller := call.caller)
    ensures FinishingOk(finishing[t := f'], pollers, calls[f'.w.call := call]) && OneFinisher(finishing[t := f'])
  {
    var calls', finishing' := calls[f'.w.call := call], finishing[t := f'];
    forall u | u in finishing' ensures FinishedBy(pollers, u, finishing'[u].w) && IsWriteOf(calls', finishing'[u].w) {
      assert FinishedBy(pollers, u, finishing[u].w) && IsWriteOf(calls, finishing[u].w);
    }
  }

  lemma StageCounters(calls: map<nat, Call>, finishing: map<Thread, Finish>, t: Thread, f': Finish, call: Call)
    requires OneFinisher(finishing) && CountersOk(calls, finishing)
    requires t in finishing && f' == finishing[t].(stage := finishing[t].stage + 1) && f'.stage <= 2
    requires InFlight(calls, f'.w.call) && call == Counted(calls[f'.w.call], finishing[t])
    ensures CountersOk(calls[f'.w.call := call], finishing[t := f'])
  {
    var calls', finishing' := calls[f'.w.call := call], finishing[t := f'];
    assert forall d | InFlight(calls', d) :: InFlight(calls, d);
    StillFinished(finishing, t, f');
    assert BeingFinished(finishing, f'.w.call);
    forall u | u in finishing' && u != t ensures finishing'[u] == finishing[u] && finishing[u].w.call != f'.w.call {
    }
  }

  lemma StageLog(calls: map<nat, Call>, log: seq<Filing>, c: nat, call: Call)
    requires c in calls && LogOk(log, calls)
    requires call == calls[c].(internal := call.internal, caller := call.caller)
    ensures LogOk(log, calls[c := call])
  {
    var after := calls[c := call];
    forall i | 0 <= i < |log| ensures FilingOf(after, log[i]) {
      assert FilingOf(calls, log[i]);
    }
  }

  lemma FiledWrites(active: seq<Write>, calls: map<nat, Call>, finishing: map<Thread, Finish>, t: Thread, call: Call,
                    x: Write)
    requires ActiveOk(active, calls, finishing) && t in finishing && finishing[t].w.call in calls
    requires if t.SyncOf? then t.call == finishing[t].w.call else finishing[t].w in active
    requires x in EraseOp(active, finishing[t].w.op)
    ensures x.op != 0 && IsWriteOf(calls[finishing[t].w.call := call], x) && SyncOf(x.call) !in finishing
  {
    var w := finishing[t].w;
    EraseOpExact(active, w.op);
    assert x in active && x.op != w.op;
    var k :| 0 <= k < |active| && active[k] == x;
    assert IsWriteOf(calls, active[k]);
    if t.PollOf? {
      var j :| 0 <= j < |active| && active[j] == w;
      assert j != k;
    }
  }

  /** Filing erases this offer from the list and ends its finish; what stays is still in flight. */
  lemma FiledActive(active: seq<Write>, calls: map<nat, Call>, finishing: map<Thread, Finish>,
                    pollers: map<nat, Poller>, t: Thread, call: Call)
    requires ActiveOk(active, calls, finishing) && PollersOk(active, pollers) && FinishingOk(finishing, pollers, calls)
    requires t in finishing && call == calls[finishing[t].w.call].(filed := 1, ok := finishing[t].ok)
    ensures var w := finishing[t].w;
            ActiveOk(EraseOp(active, w.op), calls[w.call := call], finishing - {t})
  {
    var w := finishing[t].w;
    EraseOpDistinct(active, w.op);
    assert IsWriteOf(calls, w) && FinishedBy(pollers, t, w);
    assert t.PollOf? ==> w in active;
    var rest, calls' := EraseOp(active, w.op), calls[w.call := call];
    forall i | 0 <= i < |rest|
        ensures rest[i].op != 0 && IsWriteOf(calls', rest[i]) && SyncOf(rest[i].call) !in finishing {
      FiledWrites(active, calls, finishing, t, call, rest[i]);
    }
  }

  lemma FiledPollers(active: seq<Write>, calls: map<nat, Call>, finishing: map<Thread, Finish>,
                     pollers: map<nat, Poller>, t: Thread)
    requires ActiveOk(active, calls, finishing) && PollersOk(active, pollers) && FinishingOk(finishing, pollers, calls)
    requires t in finishing
    ensures PollersOk(EraseOp(active, finishing[t].w.op), if t.PollOf? then Skip(pollers, t.poller) else pollers)
  {
    var w := finishing[t].w;
    var rest := EraseOp(active, w.op);
    EraseOpExact(active, w.op);
    assert FinishedBy(pollers, t, w);
    var pollers' := if t.PollOf? then Skip(pollers, t.poller) else pollers;
    forall p, k | p in pollers' && pollers'[p].next <= k < |pollers'[p].toPoll| ensures pollers'[p].toPoll[k] in rest {
      var v := pollers[p].toPoll[k];
      assert v in active;
      if t.SyncOf? {
        var i :| 0 <= i < |active| && active[i] == v;
      } else {
        assert v.op != w.op;
      }
    }
  }

  lemma FiledFinishing(active: seq<Write>, calls: map<nat, Call>, finishing: map<Thread, Finish>,
                       pollers: map<nat, Poller>, t: Thread, call: Call)
    requires FinishingOk(finishing, pollers, calls) && OneFinisher(finishing) && CountersOk(calls, finishing)
    requires t in finishing && finishing[t].stage == 2
    requires call == calls[finishing[t].w.call].(filed := 1, ok := finishing[t].ok)
    ensures var calls' := calls[finishing[t].w.call := call];
            FinishingOk(finishing - {t}, if t.PollOf? then Skip(pollers, t.poller) else pollers, calls')
            && OneFinisher(finishing - {t}) && CountersOk(calls', finishing - {t})
  {
    var calls', rest := calls[finishing[t].w.call := call], finishing - {t};
    var pollers' := if t.PollOf? then Skip(pollers, t.poller) else pollers;
    forall u | u in rest ensures IsWriteOf(calls', rest[u].w) && FinishedBy(pollers', u, rest[u].w) {
      assert FinishedBy(pollers, u, finishing[u].w);
    }
    forall d | BeingFinished(finishing, d) && d != finishing[t].w.call ensures BeingFinished(rest, d) {
      var u :| u in finishing && finishing[u].w.call == d;
      assert u in rest && rest[u].w.call == d;
    }
    assert forall d | InFlight(calls', d) :: d != finishing[t].w.call && InFlight(calls, d);
  }

  lemma FiledLog(calls: map<nat, Call>, log: seq<Filing>, c: nat, call: Call, f: Filing)
    requires c in calls && InFlight(calls, c) && LogOk(log, calls)
    requires call == calls[c].(filed := 1, ok := f.ok)
    requires f.call == c && f.hashes == call.hashes && f.owner == call.owner
    ensures LogOk(log + [f], calls[c := call])
  {
    var after, more := calls[c := call], log + [f];
    assert more[..|more| - 1] == log;
    forall i | 0 <= i < |more| ensures FilingOf(after, more[i]) {
      if i < |log| {
        assert FilingOf(calls, log[i]);
      }
    }
  }

  // ----------------------------------------------------------------- pollers

  lemma ClaimStep(active: seq<Write>, polling: set<nat>, pollers: map<nat, Poller>, p: nat)
    requires PollersOk(active, pollers) && ClaimsOk(polling, pollers) && p !in pollers
    ensures var c := Claim(polling, active);
            PollersOk(active, pollers[p := Poller(c.mine, 0)]) && ClaimsOk(c.polling, pollers[p := Poller(c.mine, 0)])
  {
    ClaimExact(polling, active);
    var c := Claim(polling, active);
    var after := pollers[p := Poller(c.mine, 0)];
    forall q, i, j | q in pollers && 0 <= i < |pollers[q].toPoll| && 0 <= j < |c.mine|
        ensures pollers[q].toPoll[i].op != c.mine[j].op {
      assert pollers[q].toPoll[i].op in Ops(pollers[q].toPoll);
      assert Claims(pollers, q, pollers[q].toPoll[i].op);
      assert c.mine[j].op in Ops(c.mine);
    }
    forall q, op | Claims(after, q, op) ensures op in c.polling {
      if q != p {
        assert Claims(pollers, q, op);
      }
    }
    forall op | op in c.polling ensures exists q :: Claims(after, q, op) {
      if op in polling {
        var q :| Claims(pollers, q, op);
        assert Claims(after, q, op);
      } else {
        assert Claims(after, p, op);
      }
    }
  }

  lemma SkipStep(active: seq<Write>, polling: set<nat>, pollers: map<nat, Poller>, p: nat)
    requires p in pollers && pollers[p].next < |pollers[p].toPoll|
    requires ClaimsOk(polling, pollers)
    ensures ClaimsOk(polling, Skip(pollers, p))
    ensures PollersOk(active, pollers) ==> PollersOk(active, Skip(pollers, p))
  {
    var after := Skip(pollers, p);
    assert forall q, op :: Claims(after, q, op) == Claims(pollers, q, op);
  }

  lemma EndPollStep(active: seq<Write>, polling: set<nat>, pollers: map<nat, Poller>, p: nat)
    requires PollersOk(active, pollers) && ClaimsOk(polling, pollers) && p in pollers
    ensures PollersOk(active, pollers - {p}) && ClaimsOk(polling - Ops(pollers[p].toPoll), pollers - {p})
  {
    var rest, mine := pollers - {p}, Ops(pollers[p].toPoll);
    forall q, op | Claims(rest, q, op) ensures op in polling - mine {
      assert Claims(pollers, q, op);
    }
    forall op | op in polling - mine ensures exists q :: Claims(rest, q, op) {
      var q :| Claims(pollers, q, op);
      assert Claims(rest, q, op);
    }
  }

  lemma MailFiled(taken: Verdicts, waiting: Verdicts, log: seq<Filing>, owner: Owner, f: Filing)
    requires MailOk(taken, waiting, log, owner)
    ensures var more := FileIn(waiting, f.hashes, f.ok, f.existing, f.unregistered);
            MailOk(taken, if f.owner == owner then more else waiting, log + [f], owner)
  {
    assert (log + [f])[..|log|] == log;
  }

  lemma MailDrained(taken: Verdicts, waiting: Verdicts, log: seq<Filing>, owner: Owner)
    requires MailOk(taken, waiting, log, owner)
    ensures MailOk(Cat(taken, waiting), NO_VERDICTS, log, owner)
  {
  }

  // ------------------------------------------------------- every step keeps Inv

  /** A call that stays short of acceptance touches only its own marks and pins. */
  lemma EarlyKeeps(s: World, c: nat, call: Call)
    requires Inv(s) && !call.pc.Accepted? && CallOk(call)
    requires c in s.calls ==> !s.calls[c].pc.Accepted?
    ensures var calls' := s.calls[c := call];
            && CallsOk(calls') && ActiveOk(s.active, calls', s.finishing) && FinishingOk(s.finishing, s.pollers, calls')
            && CountersOk(calls', s.finishing) && LogOk(s.log, calls')
  {
    EarlyFinishing(s.calls, s.finishing, s.pollers, c, call);
    EarlyCall(s.active, s.calls, s.finishing, c, call);
    assert c in s.calls ==> CallOk(s.calls[c]);
    EarlyLog(s.calls, s.log, c, call);
  }

  lemma BeginMarks(s: World, c: nat, call: Call, mine: seq<Hash>)
    requires MarksOk(s.saving, s.holder, s.calls, s.locals) && PinsOk(s.pins, s.ext, s.holder, s.calls)
    requires c !in s.calls && CallMarks(call) == SetOf(mine) && !HoldsInternal(call)
    requires forall h | h in mine :: h !in s.saving && Count(s.pins, h) > 0
    ensures MarksOk(s.saving + SetOf(mine), Hold(s.holder, mine, Remote(c)), s.calls[c := call], s.locals)
    ensures PinsOk(s.pins, s.ext, Hold(s.holder, mine, Remote(c)), s.calls[c := call])
  {
    MarksAdded(s.saving, s.holder, s.calls, s.locals, c, call, mine);
    forall h | h in s.holder && s.holder[h].Remote? ensures s.holder[h].call != c {
      assert HeldBy(s.calls, s.locals, h, s.holder[h]);
    }
    PinsBegin(s.pins, s.ext, s.holder, s.calls, c, call, mine);
  }

  function MarkedPc(m: RemoteWrites.Marked): Pc {
    if m.ok then MarkedAll else if m.mine == [] then Refused else Unmarking(m.mine)
  }

  lemma BeginInvisible(s: World, c: nat, hs: seq<Hash>, owner: Owner, resident: set<Hash>, visible: nat)
    requires visible < |hs|
    ensures DoBegin(s, c, hs, owner, resident, visible)
         == s.(saving := s.saving + SetOf([]), holder := Hold(s.holder, [], Remote(c)),
               calls := s.calls[c := Call(hs, owner, Refused, 0, 0, 0, false)])
  {
    assert Hold(s.holder, [], Remote(c)) == s.holder;
    assert s.saving + SetOf([]) == s.saving;
  }

  lemma BeginMarked(s: World, c: nat, hs: seq<Hash>, owner: Owner, resident: set<Hash>, visible: nat,
                    m: RemoteWrites.Marked)
    requires visible >= |hs| && m == Mark(s.saving, s.pins, resident, hs)
    ensures DoBegin(s, c, hs, owner, resident, visible)
         == s.(saving := s.saving + SetOf(m.mine), holder := Hold(s.holder, m.mine, Remote(c)),
               calls := s.calls[c := Call(hs, owner, MarkedPc(m), 0, 0, 0, false)])
  {
    MarkShape(s.saving, s.pins, resident, hs);
    assert m.saving == s.saving + SetOf(m.mine);
  }

  /** What the marking section does to the world, without its loop. */
  lemma BeginEffect(s: World, c: nat, hs: seq<Hash>, owner: Owner, resident: set<Hash>, visible: nat)
      returns (mine: seq<Hash>, call: Call)
    ensures DoBegin(s, c, hs, owner, resident, visible)
         == s.(saving := s.saving + SetOf(mine), holder := Hold(s.holder, mine, Remote(c)), calls := s.calls[c := call])
    ensures CallOk(call) && !call.pc.Accepted? && !HoldsInternal(call) && CallMarks(call) == SetOf(mine)
    ensures forall h | h in mine :: h !in s.saving && Count(s.pins, h) > 0
  {
    if visible < |hs| {
      mine, call := [], Call(hs, owner, Refused, 0, 0, 0, false);
      BeginInvisible(s, c, hs, owner, resident, visible);
    } else {
      var m := Mark(s.saving, s.pins, resident, hs);
      MarkShape(s.saving, s.pins, resident, hs);
      mine, call := m.mine, Call(hs, owner, MarkedPc(m), 0, 0, 0, false);
      BeginMarked(s, c, hs, owner, resident, visible, m);
    }
  }

  lemma BeginKeeps(s: World, c: nat, hs: seq<Hash>, owner: Owner, resident: set<Hash>, visible: nat)
    requires Inv(s) && c !in s.calls
    ensures Inv(DoBegin(s, c, hs, owner, resident, visible))
  {
    var mine, call := BeginEffect(s, c, hs, owner, resident, visible);
    EarlyKeeps(s, c, call);
    BeginMarks(s, c, call, mine);
  }

  /** The entries stay in the cache because the caller still pins them, so taking the internal pin cannot fail. */
  lemma PinSucceeds(s: World, c: nat)
    requires MarksOk(s.saving, s.holder, s.calls, s.locals) && PinsOk(s.pins, s.ext, s.holder, s.calls)
    requires AtPc(s, c, MarkedAll)
    ensures forall i | 0 <= i < |s.calls[c].hashes| ::
            s.calls[c].hashes[i] in s.pins && Count(s.ext, s.calls[c].hashes[i]) > 0
  {
    var hs := s.calls[c].hashes;
    OwnsMarks(s.saving, s.holder, s.calls, s.locals, c);
    forall i | 0 <= i < |hs| ensures hs[i] in s.pins && Count(s.ext, hs[i]) > 0 {
      assert hs[i] in SetOf(hs);
      assert Reserved(s.holder, s.calls, hs[i]);
      assert Count(s.pins, hs[i]) > 0;
    }
  }

  lemma PinMoves(s: World, c: nat, call: Call)
    requires MarksOk(s.saving, s.holder, s.calls, s.locals) && PinsOk(s.pins, s.ext, s.holder, s.calls)
    requires AtPc(s, c, MarkedAll) && CallOk(s.calls[c]) && call == s.calls[c].(pc := Pinned)
    ensures MarksOk(s.saving, s.holder, s.calls[c := call], s.locals)
    ensures PinsOk(PinAll(s.pins, call.hashes), s.ext, s.holder, s.calls[c := call])
  {
    var hs := s.calls[c].hashes;
    var pins' := PinAll(s.pins, hs);
    MarksSame(s.saving, s.holder, s.calls, s.locals, c, call);
    OwnsMarks(s.saving, s.holder, s.calls, s.locals, c);
    PinSucceeds(s, c);
    forall h ensures Count(pins', h) == Count(s.pins, h) + if h in SetOf(hs) then 1 else 0 {
      PinAllCounts(s.pins, hs, h);
    }
    PinsMoved(s.pins, s.ext, pins', s.ext, s.holder, s.calls, c, call, SetOf(hs));
  }

  lemma PinKeeps(s: World, c: nat)
    requires Inv(s) && AtPc(s, c, MarkedAll)
    ensures Inv(DoPin(s, c))
  {
    assert CallOk(s.calls[c]);
    var call := s.calls[c].(pc := Pinned);
    PinMoves(s, c, call);
    PinSucceeds(s, c);
    EarlyKeeps(s, c, call);
    assert DoPin(s, c) == s.(pins := PinAll(s.pins, call.hashes), calls := s.calls[c := call]);
  }

  lemma RollBackPinsKeeps(s: World, c: nat)
    requires Inv(s) && AtPc(s, c, Pinned)
    ensures Inv(DoRollBackPins(s, c))
  {
    var t := DoRollBackPins(s, c);
    var hs := s.calls[c].hashes;
    assert CallOk(s.calls[c]);
    EarlyKeeps(s, c, t.calls[c]);
    MarksSame(s.saving, s.holder, s.calls, s.locals, c, t.calls[c]);
    OwnsMarks(s.saving, s.holder, s.calls, s.locals, c);
    DropsHeld(s, c);
    PinsMoved(s.pins, s.ext, t.pins, s.ext, s.holder, s.calls, c, t.calls[c], SetOf(hs));
  }

  /** Releasing the pins of a call that holds its internal pin takes one from each of its hashes and no other. */
  lemma DropsHeld(s: World, c: nat)
    requires PinsOk(s.pins, s.ext, s.holder, s.calls) && c in s.calls && HoldsInternal(s.calls[c])
    requires Owns(s.holder, c, SetOf(s.calls[c].hashes)) && Distinct(s.calls[c].hashes)
    ensures var hs := s.calls[c].hashes;
            forall h :: Count(UnpinAll(s.pins, hs), h) == Count(s.pins, h) - if h in SetOf(hs) then 1 else 0
  {
    var hs := s.calls[c].hashes;
    forall h ensures Count(UnpinAll(s.pins, hs), h) == Count(s.pins, h) - if h in SetOf(hs) then 1 else 0 {
      UnpinAllCounts(s.pins, hs, h);
      assert h in SetOf(hs) <==> h in hs;
      assert h in SetOf(hs) ==> InternalPin(s.holder, s.calls, h);
    }
  }

  lemma RollBackMarksKeeps(s: World, c: nat)
    requires Inv(s) && c in s.calls && s.calls[c].pc.Unmarking?
    ensures Inv(DoRollBackMarks(s, c))
  {
    var t := DoRollBackMarks(s, c);
    var mine := SetOf(s.calls[c].pc.mine);
    assert CallOk(s.calls[c]);
    EarlyKeeps(s, c, t.calls[c]);
    MarksDropped(s.saving, s.holder, s.calls, s.locals, c, t.calls[c], mine);
    OwnsMarks(s.saving, s.holder, s.calls, s.locals, c);
    PinsUnheld(s.pins, s.ext, s.holder, s.calls, c, t.calls[c], mine);
  }

  /** Acceptance changes neither marks nor pins. */
  lemma AcceptFrame(s: World, c: nat)
    requires Inv(s) && AtPc(s, c, Pinned)
    ensures var calls' := s.calls[c := s.calls[c].(pc := Accepted)];
            MarksOk(s.saving, s.holder, calls', s.locals) && CallsOk(calls') && PinsOk(s.pins, s.ext, s.holder, calls')
            && LogOk(s.log, calls') && FinishingOk(s.finishing, s.pollers, calls')
            && forall t | t in s.finishing :: s.finishing[t].w.call != c
  {
    var call := s.calls[c].(pc := Accepted);
    assert CallOk(s.calls[c]);
    MarksSame(s.saving, s.holder, s.calls, s.locals, c, call);
    OwnsMarks(s.saving, s.holder, s.calls, s.locals, c);
    forall h | h in SetOf(call.hashes) ensures Count(s.ext, h) > 0 {
      assert Reserved(s.holder, s.calls, h);
    }
    PinsMoved(s.pins, s.ext, s.pins, s.ext, s.holder, s.calls, c, call, SetOf(call.hashes));
    EarlyLog(s.calls, s.log, c, call);
    EarlyFinishing(s.calls, s.finishing, s.pollers, c, call);
  }

  lemma SettledKeeps(s: World, c: nat, ok: bool, existing: seq<Hash>)
    requires Inv(s) && AtPc(s, c, Pinned) && SyncOf(c) !in s.finishing
    ensures Inv(DoSettled(s, c, ok, existing))
  {
    var t := DoSettled(s, c, ok, existing);
    assert CallOk(s.calls[c]);
    AcceptFrame(s, c);
    AcceptedSync(s.active, s.calls, s.finishing, c, t.finishing[SyncOf(c)]);
    assert FinishedBy(t.pollers, SyncOf(c), t.finishing[SyncOf(c)].w);
  }

  lemma RecordKeeps(s: World, c: nat, op: nat)
    requires Inv(s) && AtPc(s, c, Pinned) && op != 0
    ensures Inv(DoRecord(s, c, op))
  {
    var t := DoRecord(s, c, op);
    assert CallOk(s.calls[c]);
    AcceptFrame(s, c);
    var w := Write(c, op, s.calls[c].hashes, s.calls[c].owner);
    assert SyncOf(c) in s.finishing ==> FinishedBy(s.pollers, SyncOf(c), s.finishing[SyncOf(c)].w);
    AcceptedAsync(s.active, s.calls, s.finishing, c, w);
    AcceptedCounters(s.calls, s.finishing, c);
  }

  lemma DecidedKeeps(s: World, p: nat, ok: bool, existing: seq<Hash>, unregistered: seq<Hash>)
    requires Inv(s) && Idle(s, p) && s.pollers[p].next < |s.pollers[p].toPoll|
    ensures Inv(DoDecided(s, p, ok, existing, unregistered))
  {
    var t := DoDecided(s, p, ok, existing, unregistered);
    DecidedStep(s.active, s.calls, s.finishing, s.pollers, p, t.finishing[PollOf(p)]);
  }

  lemma ClaimKeeps(s: World, p: nat)
    requires Inv(s) && p !in s.pollers
    ensures Inv(DoClaim(s, p))
  {
    ClaimStep(s.active, s.polling, s.pollers, p);
    assert PollOf(p) in s.finishing ==> FinishedBy(s.pollers, PollOf(p), s.finishing[PollOf(p)].w);
    FinishingFrame(s.finishing, s.pollers, s.calls, p, DoClaim(s, p).pollers[p]);
  }

  lemma SkipKeeps(s: World, p: nat)
    requires Inv(s) && Idle(s, p) && s.pollers[p].next < |s.pollers[p].toPoll|
    ensures Inv(s.(pollers := Skip(s.pollers, p)))
  {
    SkipStep(s.active, s.polling, s.pollers, p);
    FinishingFrame(s.finishing, s.pollers, s.calls, p, Skip(s.pollers, p)[p]);
  }

  lemma EndPollKeeps(s: World, p: nat)
    requires Inv(s) && Idle(s, p)
    ensures Inv(DoEndPoll(s, p))
  {
    EndPollStep(s.active, s.polling, s.pollers, p);
    FinishingFrame(s.finishing, s.pollers, s.calls, p, s.pollers[p]);
  }

  lemma FinishingFrame(finishing: map<Thread, Finish>, pollers: map<nat, Poller>, calls: map<nat, Call>, p: nat,
                       x: Poller)
    requires FinishingOk(finishing, pollers, calls) && PollOf(p) !in finishing
    ensures FinishingOk(finishing, pollers[p := x], calls)
    ensures FinishingOk(finishing, pollers - {p}, calls)
  {
    var more, less := pollers[p := x], pollers - {p};
    forall t | t in finishing ensures FinishedBy(more, t, finishing[t].w) && FinishedBy(less, t, finishing[t].w) {
      assert FinishedBy(pollers, t, finishing[t].w);
    }
  }

  lemma DropInternalMoves(s: World, c: nat, call: Call)
    requires MarksOk(s.saving, s.holder, s.calls, s.locals) && PinsOk(s.pins, s.ext, s.holder, s.calls)
    requires InFlight(s.calls, c) && s.calls[c].internal == 0 && s.calls[c].caller == 0 && CallOk(s.calls[c])
    requires call == s.calls[c].(internal := 1)
    ensures MarksOk(s.saving, s.holder, s.calls[c := call], s.locals)
    ensures PinsOk(UnpinAll(s.pins, call.hashes), s.ext, s.holder, s.calls[c := call])
  {
    MarksSame(s.saving, s.holder, s.calls, s.locals, c, call);
    OwnsMarks(s.saving, s.holder, s.calls, s.locals, c);
    forall h | h in SetOf(call.hashes) ensures Count(s.ext, h) > 0 {
      assert Reserved(s.holder, s.calls, h);
    }
    DropsHeld(s, c);
    PinsMoved(s.pins, s.ext, UnpinAll(s.pins, call.hashes), s.ext, s.holder, s.calls, c, call, SetOf(call.hashes));
  }

  lemma DropCallerMoves(s: World, c: nat, call: Call)
    requires MarksOk(s.saving, s.holder, s.calls, s.locals) && PinsOk(s.pins, s.ext, s.holder, s.calls)
    requires InFlight(s.calls, c) && s.calls[c].internal == 1 && s.calls[c].caller == 0 && CallOk(s.calls[c])
    requires call == s.calls[c].(caller := 1)
    ensures MarksOk(s.saving, s.holder, s.calls[c := call], s.locals)
    ensures PinsOk(UnpinAll(s.pins, call.hashes), UnpinAll(s.ext, call.hashes), s.holder, s.calls[c := call])
  {
    MarksSame(s.saving, s.holder, s.calls, s.locals, c, call);
    OwnsMarks(s.saving, s.holder, s.calls, s.locals, c);
    forall h | h in SetOf(call.hashes) ensures Count(s.ext, h) > 0 {
      assert Reserved(s.holder, s.calls, h);
    }
    DropsExt(s, call.hashes);
    PinsMoved(s.pins, s.ext, UnpinAll(s.pins, call.hashes), UnpinAll(s.ext, call.hashes), s.holder, s.calls, c, call,
              SetOf(call.hashes));
  }

  /** Marks and pins when a finisher drops a pin for its offer. */
  lemma StageMoves(s: World, t: Thread, s': World)
    requires MarksOk(s.saving, s.holder, s.calls, s.locals) && PinsOk(s.pins, s.ext, s.holder, s.calls)
    requires t in s.finishing && s.finishing[t].stage < 2
    requires IsWriteOf(s.calls, s.finishing[t].w) && CallOk(s.calls[s.finishing[t].w.call])
    requires s.calls[s.finishing[t].w.call].internal == s.finishing[t].stage
             && s.calls[s.finishing[t].w.call].caller == 0
    requires s' == DoStage(s, t)
    ensures MarksOk(s.saving, s.holder, s'.calls, s.locals) && PinsOk(s'.pins, s'.ext, s.holder, s'.calls)
  {
    var f := s.finishing[t];
    var c := f.w.call;
    if f.stage == 0 {
      assert s' == DoDropInternal(s, t);
      DropInternalMoves(s, c, s.calls[c].(internal := 1));
    } else if f.ok {
      assert s' == DoDropCaller(s, t);
      DropCallerMoves(s, c, s.calls[c].(caller := 1));
    }
  }

  lemma DropsExt(s: World, hs: seq<Hash>)
    requires PinsOk(s.pins, s.ext, s.holder, s.calls) && Distinct(hs)
    requires forall h | h in SetOf(hs) :: Count(s.ext, h) > 0
    ensures forall h :: Count(UnpinAll(s.pins, hs), h) == Count(s.pins, h) - if h in SetOf(hs) then 1 else 0
    ensures forall h :: Count(UnpinAll(s.ext, hs), h) == Count(s.ext, h) - if h in SetOf(hs) then 1 else 0
  {
    forall h ensures Count(UnpinAll(s.pins, hs), h) == Count(s.pins, h) - (if h in SetOf(hs) then 1 else 0)
                     && Count(UnpinAll(s.ext, hs), h) == Count(s.ext, h) - (if h in SetOf(hs) then 1 else 0) {
      UnpinAllCounts(s.pins, hs, h);
      UnpinAllCounts(s.ext, hs, h);
      assert h in SetOf(hs) <==> h in hs;
    }
  }

  lemma StageActive(active: seq<Write>, calls: map<nat, Call>, finishing: map<Thread, Finish>, t: Thread, f': Finish,
                    c: nat, call: Call)
    requires ActiveOk(active, calls, finishing) && t in finishing && c in calls
    requires call == calls[c].(internal := call.internal, caller := call.caller)
    ensures ActiveOk(active, calls[c := call], finishing[t := f'])
  {
    assert finishing[t := f'].Keys == finishing.Keys;
    ActiveFrame(active, calls, calls[c := call], finishing, finishing[t := f']);
  }

  lemma StageOffers(s: World, t: Thread, f': Finish, call: Call)
    requires ActiveOk(s.active, s.calls, s.finishing) && FinishingOk(s.finishing, s.pollers, s.calls)
    requires OneFinisher(s.finishing) && CountersOk(s.calls, s.finishing)
    requires t in s.finishing && f' == s.finishing[t].(stage := s.finishing[t].stage + 1) && f'.stage <= 2
    requires f'.w.call in s.calls && call == Counted(s.calls[f'.w.call], s.finishing[t])
    ensures var calls', finishing' := s.calls[f'.w.call := call], s.finishing[t := f'];
            && ActiveOk(s.active, calls', finishing') && FinishingOk(finishing', s.pollers, calls')
            && OneFinisher(finishing') && CountersOk(calls', finishing')
  {
    assert IsWriteOf(s.calls, f'.w);
    StageFinishing(s.calls, s.finishing, s.pollers, t, f', call);
    StageCounters(s.calls, s.finishing, t, f', call);
    StageActive(s.active, s.calls, s.finishing, t, f', f'.w.call, call);
  }

  function DoStage(s: World, t: Thread): World
    requires t in s.finishing && s.finishing[t].w.call in s.calls
  {
    if s.finishing[t].stage == 0 then DoDropInternal(s, t) else DoDropCaller(s, t)
  }

  lemma StageEffect(s: World, t: Thread)
    requires t in s.finishing && s.finishing[t].w.call in s.calls && s.finishing[t].stage < 2
    ensures var f, s' := s.finishing[t], DoStage(s, t);
            s' == s.(pins := s'.pins, ext := s'.ext, calls := s.calls[f.w.call := Counted(s.calls[f.w.call], f)],
                     finishing := s.finishing[t := f.(stage := f.stage + 1)])
  {
  }

  lemma StageKeepsOffers(s: World, t: Thread)
    requires OffersOk(s) && t in s.finishing && s.finishing[t].w.call in s.calls && s.finishing[t].stage < 2
    ensures OffersOk(DoStage(s, t))
  {
    var f := s.finishing[t];
    StageEffect(s, t);
    StageOffers(s, t, f.(stage := f.stage + 1), Counted(s.calls[f.w.call], f));
  }

  lemma StageKeepsRest(s: World, t: Thread)
    requires ResourcesOk(s) && FilingsOk(s) && t in s.finishing && s.finishing[t].stage < 2
    requires FinishingOk(s.finishing, s.pollers, s.calls) && CountersOk(s.calls, s.finishing)
    ensures s.finishing[t].w.call in s.calls && ResourcesOk(DoStage(s, t)) && FilingsOk(DoStage(s, t))
  {
    var f := s.finishing[t];
    assert IsWriteOf(s.calls, f.w);
    StageEffect(s, t);
    StageMoves(s, t, DoStage(s, t));
    StageLog(s.calls, s.log, f.w.call, Counted(s.calls[f.w.call], f));
    StageCalls(s.calls, f.w.call, Counted(s.calls[f.w.call], f));
  }

  lemma StageKeeps(s: World, t: Thread)
    requires Inv(s) && t in s.finishing && s.finishing[t].stage < 2
    ensures s.finishing[t].w.call in s.calls && Inv(DoStage(s, t))
  {
    StageKeepsRest(s, t);
    StageKeepsOffers(s, t);
  }

  lemma StageCalls(calls: map<nat, Call>, c: nat, call: Call)
    requires CallsOk(calls) && InFlight(calls, c) && call == calls[c].(internal := call.internal, caller := call.caller)
    ensures CallsOk(calls[c := call])
  {
  }

  lemma FileMoves(s: World, t: Thread, call: Call)
    requires MarksOk(s.saving, s.holder, s.calls, s.locals) && PinsOk(s.pins, s.ext, s.holder, s.calls)
    requires t in s.finishing && IsWriteOf(s.calls, s.finishing[t].w)
    requires s.calls[s.finishing[t].w.call].internal == 1
    requires call == s.calls[s.finishing[t].w.call].(filed := 1, ok := s.finishing[t].ok)
    ensures var w := s.finishing[t].w;
            MarksOk(s.saving - SetOf(w.hashes), s.holder - SetOf(w.hashes), s.calls[w.call := call], s.locals)
            && PinsOk(s.pins, s.ext, s.holder - SetOf(w.hashes), s.calls[w.call := call])
  {
    var w := s.finishing[t].w;
    MarksDropped(s.saving, s.holder, s.calls, s.locals, w.call, call, SetOf(w.hashes));
    OwnsMarks(s.saving, s.holder, s.calls, s.locals, w.call);
    PinsUnheld(s.pins, s.ext, s.holder, s.calls, w.call, call, SetOf(w.hashes));
  }

  lemma FileOffers(s: World, t: Thread)
    requires OffersOk(s) && t in s.finishing && s.finishing[t].stage == 2
    ensures IsWriteOf(s.calls, s.finishing[t].w) && FinishedBy(s.pollers, t, s.finishing[t].w) && OffersOk(DoFile(s, t))
  {
    var f := s.finishing[t];
    assert IsWriteOf(s.calls, f.w) && FinishedBy(s.pollers, t, f.w);
    var s' := DoFile(s, t);
    var call := s.calls[f.w.call].(filed := 1, ok := f.ok);
    assert s'.calls == s.calls[f.w.call := call];
    FiledActive(s.active, s.calls, s.finishing, s.pollers, t, call);
    FiledPollers(s.active, s.calls, s.finishing, s.pollers, t);
    FiledFinishing(s.active, s.calls, s.finishing, s.pollers, t, call);
    FiledClaims(s.polling, s.pollers, t, f.w);
  }

  lemma FiledClaims(polling: set<nat>, pollers: map<nat, Poller>, t: Thread, w: Write)
    requires ClaimsOk(polling, pollers) && FinishedBy(pollers, t, w)
    ensures ClaimsOk(polling, if t.PollOf? then Skip(pollers, t.poller) else pollers)
  {
    if t.PollOf? {
      SkipStep([], polling, pollers, t.poller);
    }
  }

  lemma FileMail(s: World, t: Thread)
    requires FilingsOk(s) && t in s.finishing && IsWriteOf(s.calls, s.finishing[t].w)
             && FinishedBy(s.pollers, t, s.finishing[t].w)
    ensures FilingsOk(DoFile(s, t))
  {
    var f := s.finishing[t];
    FileLog(s, t);
    FileMailboxes(s, t, Filing(f.w.call, f.w.owner, f.w.hashes, f.ok, f.existing, f.unregistered));
  }

  lemma FileLog(s: World, t: Thread)
    requires LogOk(s.log, s.calls) && t in s.finishing && IsWriteOf(s.calls, s.finishing[t].w)
    requires t.PollOf? ==> t.poller in s.pollers
    ensures LogOk(DoFile(s, t).log, DoFile(s, t).calls)
  {
    var f := s.finishing[t];
    var c := f.w.call;
    var call := s.calls[c].(filed := 1, ok := f.ok);
    FiledLog(s.calls, s.log, c, call, Filing(c, f.w.owner, f.w.hashes, f.ok, f.existing, f.unregistered));
    assert DoFile(s, t).calls == s.calls[c := call];
  }

  lemma FileMailboxes(s: World, t: Thread, filing: Filing)
    requires MailOk(s.applicationTaken, s.application, s.log, Application)
    requires MailOk(s.sweepTaken, s.sweep, s.log, Sweep)
    requires t in s.finishing && s.finishing[t].w.call in s.calls && (t.PollOf? ==> t.poller in s.pollers)
    requires var f := s.finishing[t];
             filing == Filing(f.w.call, f.w.owner, f.w.hashes, f.ok, f.existing, f.unregistered)
    ensures var u := DoFile(s, t);
            && MailOk(u.applicationTaken, u.application, s.log + [filing], Application)
            && MailOk(u.sweepTaken, u.sweep, s.log + [filing], Sweep) && u.log == s.log + [filing]
  {
    MailFiled(s.applicationTaken, s.application, s.log, Application, filing);
    MailFiled(s.sweepTaken, s.sweep, s.log, Sweep, filing);
  }

  lemma FileResources(s: World, t: Thread)
    requires ResourcesOk(s) && t in s.finishing && IsWriteOf(s.calls, s.finishing[t].w)
             && FinishedBy(s.pollers, t, s.finishing[t].w)
    requires CountersOk(s.calls, s.finishing) && s.finishing[t].stage == 2
    ensures ResourcesOk(DoFile(s, t))
  {
    var w := s.finishing[t].w;
    assert CallOk(s.calls[w.call]);
    FileMoves(s, t, s.calls[w.call].(filed := 1, ok := s.finishing[t].ok));
  }

  lemma FileKeeps(s: World, t: Thread)
    requires Inv(s) && t in s.finishing && s.finishing[t].stage == 2
    ensures s.finishing[t].w.call in s.calls && (t.PollOf? ==> t.poller in s.pollers)
    ensures Inv(DoFile(s, t))
  {
    FileOffers(s, t);
    FileMail(s, t);
    FileResources(s, t);
  }

  lemma BeginLocalKeeps(s: World, l: nat, hs: seq<Hash>, eligible: set<Hash>)
    requires Inv(s) && l !in s.locals
    ensures Inv(DoBeginLocal(s, l, hs, eligible))
  {
    if AllOfferable(s.saving, s.pins, eligible, hs) {
      MarksAddedLocal(s.saving, s.holder, s.calls, s.locals, l, hs);
      PinsLocal(s.pins, s.ext, s.holder, s.calls, l, hs);
    }
  }

  lemma EndLocalKeeps(s: World, l: nat)
    requires Inv(s) && l in s.locals
    ensures Inv(DoEndLocal(s, l))
  {
    MarksDroppedLocal(s.saving, s.holder, s.calls, s.locals, l);
    forall h | h in SetOf(s.locals[l]) && h in s.holder ensures s.holder[h].Local? {
      assert HeldBy(s.calls, s.locals, h, Local(l));
    }
    PinsLocalEnd(s.pins, s.ext, s.holder, s.calls, SetOf(s.locals[l]));
  }

  /** Other clients of the backend: pinning, unpinning their own, inserting, and removing what nobody pins. */
  lemma ClientKeeps(s: World, e: Event)
    requires PinsOk(s.pins, s.ext, s.holder, s.calls) && OfClient(e) && ClientEnabled(s, e)
    ensures var t := ClientStep(s, e); t == s.(pins := t.pins, ext := t.ext) && PinsOk(t.pins, t.ext, s.holder, s.calls)
  {
    var t := ClientStep(s, e);
    assert Count(s.pins, e.h) == Count(s.ext, e.h) + if InternalPin(s.holder, s.calls, e.h) then 1 else 0;
    forall x ensures Count(t.pins, x) == Count(t.ext, x) + if InternalPin(s.holder, s.calls, x) then 1 else 0 {
      assert Count(s.pins, x) == Count(s.ext, x) + if InternalPin(s.holder, s.calls, x) then 1 else 0;
    }
  }

  lemma CallStepKeeps(s: World, e: Event)
    requires Inv(s) && OfCall(e) && CallEnabled(s, e)
    ensures Inv(CallStep(s, e))
  {
    match e
    case Begin(c, hs, owner, resident, visible) => BeginKeeps(s, c, hs, owner, resident, visible);
    case PinOffer(c) => PinKeeps(s, c);
    case RollBackPins(c) => RollBackPinsKeeps(s, c);
    case RollBackMarks(c) => RollBackMarksKeeps(s, c);
    case SettledByAck(c, ok, existing) => SettledKeeps(s, c, ok, existing);
    case RecordOffer(c, op) => RecordKeeps(s, c, op);
  }

  lemma PollerStepKeeps(s: World, e: Event)
    requires Inv(s) && OfPoller(e) && PollerEnabled(s, e)
    ensures Inv(PollerStep(s, e))
  {
    match e
    case ClaimOffers(p) => ClaimKeeps(s, p);
    case StillPending(p) => SkipKeeps(s, p);
    case Decided(p, ok, existing, unregistered) => DecidedKeeps(s, p, ok, existing, unregistered);
    case EndPoll(p) => EndPollKeeps(s, p);
  }

  lemma FinisherStepKeeps(s: World, e: Event)
    requires Inv(s) && OfFinisher(e) && FinisherEnabled(s, e)
    ensures Inv(FinisherStep(s, e))
  {
    match e
    case DropInternal(t) => StageKeeps(s, t);
    case DropCaller(t) => StageKeeps(s, t);
    case FileOutcome(t) => FileKeeps(s, t);
  }

  lemma OtherStepKeeps(s: World, e: Event)
    requires Inv(s) && Enabled(s, e) && !OfCall(e) && !OfPoller(e) && !OfFinisher(e) && !OfClient(e)
    ensures Inv(Step(s, e))
  {
    match e
    case DrainMail(reader) => DrainKeeps(s, reader);
    case BeginLocal(l, hs, eligible) => BeginLocalKeeps(s, l, hs, eligible);
    case EndLocal(l) => EndLocalKeeps(s, l);
  }

  lemma StepKeeps(s: World, e: Event)
    requires Inv(s) && Enabled(s, e)
    ensures Inv(Step(s, e))
  {
    if OfCall(e) {
      CallStepKeeps(s, e);
    } else if OfPoller(e) {
      PollerStepKeeps(s, e);
    } else if OfFinisher(e) {
      FinisherStepKeeps(s, e);
    } else if OfClient(e) {
      ClientStepKeeps(s, e);
    } else {
      OtherStepKeeps(s, e);
    }
  }

  lemma ClientStepKeeps(s: World, e: Event)
    requires Inv(s) && OfClient(e) && ClientEnabled(s, e)
    ensures Inv(ClientStep(s, e))
  {
    ClientKeeps(s, e);
  }

  lemma DrainKeeps(s: World, owner: Owner)
    requires Inv(s)
    ensures Inv(DoDrain(s, owner))
  {
    MailDrained(s.applicationTaken, s.application, s.log, Application);
    MailDrained(s.sweepTaken, s.sweep, s.log, Sweep);
  }

  // -------------------------------------------------------------- whole runs

  /** Every event is enabled when it happens. */
  predicate Runs(s: World, es: seq<Event>)
    decreases |es|
  {
    es == [] || (Enabled(s, es[0]) && Runs(Step(s, es[0]), es[1..]))
  }

  function Run(s: World, es: seq<Event>): World
    requires Runs(s, es)
    decreases |es|
  {
    if es == [] then s else Run(Step(s, es[0]), es[1..])
  }

  lemma {:induction false} RunKeeps(s: World, es: seq<Event>)
    requires Inv(s) && Runs(s, es)
    ensures Inv(Run(s, es))
    decreases |es|
  {
    if es != [] {
      StepKeeps(s, es[0]);
      RunKeeps(Step(s, es[0]), es[1..]);
    }
  }

  ghost predicate Reachable(s: World) {
    exists es :: Runs(START, es) && Run(START, es) == s
  }

  lemma ReachableInv(s: World)
    requires Reachable(s)
    ensures Inv(s)
  {
    var es :| Runs(START, es) && Run(START, es) == s;
    assert Inv(START);
    RunKeeps(START, es);
  }

  // ------------------------------------------------ offers that stay in the list

  /** The list is the same, and whoever came into flight settles synchronously. */
  lemma TrackedFrame(active: seq<Write>, calls: map<nat, Call>, calls': map<nat, Call>, finishing: map<Thread, Finish>,
                     finishing': map<Thread, Finish>)
    requires TrackedOk(active, calls, finishing)
    requires forall c | InFlight(calls', c) :: InFlight(calls, c) || SyncOf(c) in finishing'
    requires forall c | SyncOf(c) in finishing :: SyncOf(c) in finishing'
    ensures TrackedOk(active, calls', finishing')
  {
  }

  lemma TrackedRecord(active: seq<Write>, calls: map<nat, Call>, calls': map<nat, Call>, finishing: map<Thread, Finish>,
                      w: Write)
    requires TrackedOk(active, calls, finishing) && w.op !in Ops(active)
    requires forall c | InFlight(calls', c) :: InFlight(calls, c) || c == w.call
    ensures TrackedOk(active + [w], calls', finishing)
  {
    var active' := active + [w];
    forall i | 0 <= i < |active| ensures active[i].op != w.op {
      assert active[i].op in Ops(active);
    }
    forall d | InFlight(calls', d) ensures SyncOf(d) in finishing || Recorded(active', d) {
      if d == w.call {
        assert active'[|active|].call == d;
      } else if SyncOf(d) !in finishing {
        var i :| 0 <= i < |active| && active[i].call == d;
        assert active'[i].call == d;
      }
    }
  }

  /** With distinct ids, filing an offer erases it and no other. */
  lemma ErasedAlone(active: seq<Write>, calls: map<nat, Call>, finishing: map<Thread, Finish>,
                    pollers: map<nat, Poller>, t: Thread)
    requires ActiveOk(active, calls, finishing) && PollersOk(active, pollers) && FinishingOk(finishing, pollers, calls)
    requires DistinctOps(active) && t in finishing
    ensures forall i | 0 <= i < |active| :: active[i].op == finishing[t].w.op ==> active[i].call == finishing[t].w.call
  {
    var w := finishing[t].w;
    assert FinishedBy(pollers, t, w);
    if t.PollOf? {
      assert w in active;
      var k :| 0 <= k < |active| && active[k] == w;
    }
  }

  lemma StillRecorded(active: seq<Write>, op: nat, d: nat)
    requires Recorded(active, d) && forall i | 0 <= i < |active| && active[i].call == d :: active[i].op != op
    ensures Recorded(EraseOp(active, op), d)
  {
    EraseOpExact(active, op);
    var i :| 0 <= i < |active| && active[i].call == d;
    assert active[i] in EraseOp(active, op);
    var j :| 0 <= j < |EraseOp(active, op)| && EraseOp(active, op)[j] == active[i];
  }

  lemma TrackedFile(active: seq<Write>, calls: map<nat, Call>, finishing: map<Thread, Finish>, t: Thread, call: Call)
    requires TrackedOk(active, calls, finishing) && t in finishing && finishing[t].w.call in calls && call.filed > 0
    requires t.SyncOf? ==> t.call == finishing[t].w.call
    requires forall i | 0 <= i < |active| :: active[i].op == finishing[t].w.op ==> active[i].call == finishing[t].w.call
    ensures TrackedOk(EraseOp(active, finishing[t].w.op), calls[finishing[t].w.call := call], finishing - {t})
  {
    var w := finishing[t].w;
    var calls' := calls[w.call := call];
    EraseOpDistinct(active, w.op);
    forall d | InFlight(calls', d) ensures SyncOf(d) in finishing - {t} || Recorded(EraseOp(active, w.op), d) {
      assert d != w.call && InFlight(calls, d);
      if SyncOf(d) !in finishing {
        StillRecorded(active, w.op, d);
      }
    }
  }

  lemma EarlyTracks(s: World, c: nat, call: Call)
    requires TrackedOk(s.active, s.calls, s.finishing) && !call.pc.Accepted?
    ensures TrackedOk(s.active, s.calls[c := call], s.finishing)
  {
    TrackedFrame(s.active, s.calls, s.calls[c := call], s.finishing, s.finishing);
  }

  lemma AcceptTracks(s: World, e: Event)
    requires TrackedOk(s.active, s.calls, s.finishing) && (e.SettledByAck? || e.RecordOffer?) && CallEnabled(s, e)
             && FreshOp(s, e)
    ensures var t := CallStep(s, e); TrackedOk(t.active, t.calls, t.finishing)
  {
    var t := CallStep(s, e);
    if e.SettledByAck? {
      TrackedFrame(s.active, s.calls, t.calls, s.finishing, t.finishing);
    } else {
      TrackedRecord(s.active, s.calls, t.calls, s.finishing, Write(e.c, e.op, s.calls[e.c].hashes, s.calls[e.c].owner));
    }
  }

  lemma CallStepTracks(s: World, e: Event)
    requires TrackedOk(s.active, s.calls, s.finishing) && OfCall(e) && CallEnabled(s, e) && FreshOp(s, e)
    ensures var t := CallStep(s, e); TrackedOk(t.active, t.calls, t.finishing)
  {
    match e
    case Begin(c, hs, owner, resident, visible) =>
      var mine, call := BeginEffect(s, c, hs, owner, resident, visible);
      EarlyTracks(s, c, call);
    case PinOffer(c) => EarlyTracks(s, c, DoPin(s, c).calls[c]);
    case RollBackPins(c) => EarlyTracks(s, c, DoRollBackPins(s, c).calls[c]);
    case RollBackMarks(c) => EarlyTracks(s, c, DoRollBackMarks(s, c).calls[c]);
    case SettledByAck(c, ok, existing) => AcceptTracks(s, e);
    case RecordOffer(c, op) => AcceptTracks(s, e);
  }

  lemma FinisherStepTracks(s: World, e: Event)
    requires TrackedOk(s.active, s.calls, s.finishing) && OffersOk(s) && OfFinisher(e) && FinisherEnabled(s, e)
    ensures var t := FinisherStep(s, e); TrackedOk(t.active, t.calls, t.finishing)
  {
    if e.FileOutcome? {
      ErasedAlone(s.active, s.calls, s.finishing, s.pollers, e.t);
      assert FinishedBy(s.pollers, e.t, s.finishing[e.t].w);
      var c := s.calls[s.finishing[e.t].w.call];
      TrackedFile(s.active, s.calls, s.finishing, e.t, c.(filed := c.filed + 1, ok := s.finishing[e.t].ok));
    } else {
      StageEffect(s, e.t);
      assert FinisherStep(s, e) == DoStage(s, e.t);
      TrackedFrame(s.active, s.calls, DoStage(s, e.t).calls, s.finishing, DoStage(s, e.t).finishing);
    }
  }

  lemma PollerStepTracks(s: World, e: Event)
    requires TrackedOk(s.active, s.calls, s.finishing) && OfPoller(e) && PollerEnabled(s, e)
    ensures var t := PollerStep(s, e); TrackedOk(t.active, t.calls, t.finishing)
  {
    TrackedFrame(s.active, s.calls, s.calls, s.finishing, PollerStep(s, e).finishing);
  }

  lemma StepTracks(s: World, e: Event)
    requires Inv(s) && TrackedOk(s.active, s.calls, s.finishing) && Enabled(s, e) && FreshOp(s, e)
    ensures var t := Step(s, e); TrackedOk(t.active, t.calls, t.finishing)
  {
    if OfCall(e) {
      CallStepTracks(s, e);
    } else if OfPoller(e) {
      PollerStepTracks(s, e);
    } else if OfFinisher(e) {
      FinisherStepTracks(s, e);
    } else if e.DrainMail? {
      assert Step(s, e) == DoDrain(s, e.reader);
      DrainFrame(s, e.reader);
    } else {
      OtherStepFrame(s, e);
    }
  }

  /** No offer is recorded under the operation id of another live offer. */
  ghost predicate FreshOps(s: World, es: seq<Event>)
    requires Runs(s, es)
    decreases |es|
  {
    es == [] || (FreshOp(s, es[0]) && FreshOps(Step(s, es[0]), es[1..]))
  }

  lemma {:induction false} RunTracks(s: World, es: seq<Event>)
    requires Inv(s) && TrackedOk(s.active, s.calls, s.finishing) && Runs(s, es) && FreshOps(s, es)
    ensures var t := Run(s, es); TrackedOk(t.active, t.calls, t.finishing)
    decreases |es|
  {
    if es != [] {
      StepKeeps(s, es[0]);
      StepTracks(s, es[0]);
      RunTracks(Step(s, es[0]), es[1..]);
    }
  }

  /** Reached with operation ids distinct among live operations. */
  ghost predicate ReachableFresh(s: World) {
    exists es :: Runs(START, es) && FreshOps(START, es) && Run(START, es) == s
  }

  lemma ReachableTracked(s: World)
    requires ReachableFresh(s)
    ensures Reachable(s) && TrackedOk(s.active, s.calls, s.finishing)
  {
    var es :| Runs(START, es) && FreshOps(START, es) && Run(START, es) == s;
    assert Inv(START);
    RunTracks(START, es);
  }

  // ---------------------------------------------------------------- theorems

  /**
    In every run, whatever ids the destinations hand out: an accepted offer is settled at most
    once, and a settled one had each of its releases exactly once.
   */
  lemma SettledOnce(s: World, c: nat)
    requires Reachable(s) && c in s.calls && s.calls[c].pc.Accepted?
    ensures Filings(s.log, c) == s.calls[c].filed <= 1
    ensures s.calls[c].internal <= 1 && s.calls[c].caller <= 1
    ensures s.calls[c].filed == 1 ==> s.calls[c].internal == 1 && (s.calls[c].caller == 1 <==> s.calls[c].ok)
  {
    ReachableInv(s);
    if BeingFinished(s.finishing, c) {
      var t :| t in s.finishing && s.finishing[t].w.call == c;
      assert IsWriteOf(s.calls, s.finishing[t].w);
    }
    assert s.calls[c].filed == 0 ==> InFlight(s.calls, c);
  }

  /** With ids distinct among live operations, an accepted offer is settled or still on its way to being settled. */
  lemma NeverLost(s: World, c: nat)
    requires ReachableFresh(s) && c in s.calls && s.calls[c].pc.Accepted? && s.calls[c].filed == 0
    ensures SyncOf(c) in s.finishing || Recorded(s.active, c)
  {
    ReachableTracked(s);
    assert InFlight(s.calls, c);
  }

  /** A call that returned an error has released nothing, filed nothing, and holds no pin and no mark. */
  lemma RefusedLeavesNothing(s: World, c: nat)
    requires Reachable(s) && AtPc(s, c, Refused)
    ensures s.calls[c].internal == 0 && s.calls[c].caller == 0 && Filings(s.log, c) == 0
    ensures forall h :: !HeldBy(s.calls, s.locals, h, Remote(c))
    ensures !Recorded(s.active, c) && !BeingFinished(s.finishing, c)
  {
    ReachableInv(s);
    assert CallOk(s.calls[c]);
    forall t | t in s.finishing ensures s.finishing[t].w.call != c {
      assert IsWriteOf(s.calls, s.finishing[t].w);
    }
  }

  /** Marking touches no pin, and dropping the marks it set restores the marks. */
  lemma MarksRestored(s: World, c: nat, hs: seq<Hash>, owner: Owner, resident: set<Hash>, visible: nat)
    requires c !in s.calls
    ensures var t := DoBegin(s, c, hs, owner, resident, visible);
            t.pins == s.pins && t.saving - CallMarks(t.calls[c]) == s.saving
  {
    var mine, call := BeginEffect(s, c, hs, owner, resident, visible);
    assert forall h | h in SetOf(mine) :: h in mine;
  }

  /** A call refused after pinning is back where it was before pinning, every pin count included. */
  lemma PinRestored(s: World, c: nat)
    requires ResourcesOk(s) && AtPc(s, c, MarkedAll)
    ensures AtPc(DoPin(s, c), c, Pinned)
    ensures DoRollBackPins(DoPin(s, c), c) == SetPc(s, c, Unmarking(s.calls[c].hashes))
  {
    assert CallOk(s.calls[c]);
    PinSucceeds(s, c);
    var call := s.calls[c];
    var p := DoPin(s, c);
    assert p == s.(pins := PinAll(s.pins, call.hashes), calls := s.calls[c := call.(pc := Pinned)]);
    PinsRestored(s.pins, call.hashes);
    assert p.calls[c := p.calls[c].(pc := Unmarking(call.hashes))] == s.calls[c := call.(pc := Unmarking(call.hashes))];
  }

  /** A call's sections up to its refusal, run alone: marking, then pinning if all was marked, then the rollback. */
  function RefusedAlone(s: World, c: nat): World
    requires c in s.calls && (s.calls[c].pc.MarkedAll? || s.calls[c].pc.Unmarking? || s.calls[c].pc.Refused?)
  {
    if s.calls[c].pc.Refused? then s
    else if s.calls[c].pc.Unmarking? then DoRollBackMarks(s, c)
    else if AtPc(DoPin(s, c), c, Pinned) then DoRollBackMarks(DoRollBackPins(DoPin(s, c), c), c)
    else DoRollBackMarks(DoPin(s, c), c)
  }

  lemma BeginPc(s: World, c: nat, hs: seq<Hash>, owner: Owner, resident: set<Hash>, visible: nat)
    ensures var t := DoBegin(s, c, hs, owner, resident, visible);
            c in t.calls && (t.calls[c].pc.MarkedAll? || t.calls[c].pc.Unmarking? || t.calls[c].pc.Refused?)
  {
    if visible < |hs| {
      BeginInvisible(s, c, hs, owner, resident, visible);
    } else {
      BeginMarked(s, c, hs, owner, resident, visible, Mark(s.saving, s.pins, resident, hs));
    }
  }

  /** A refused call that ran alone puts back every pin and every mark, at whichever section it was refused. */
  lemma RefusalRestores(s: World, c: nat, hs: seq<Hash>, owner: Owner, resident: set<Hash>, visible: nat)
    requires Reachable(s) && c !in s.calls
    ensures c in DoBegin(s, c, hs, owner, resident, visible).calls
    ensures var t := DoBegin(s, c, hs, owner, resident, visible);
            && (t.calls[c].pc.MarkedAll? || t.calls[c].pc.Unmarking? || t.calls[c].pc.Refused?)
            && var u := RefusedAlone(t, c);
               AtPc(u, c, Refused) && u.pins == s.pins && u.saving == s.saving
  {
    ReachableInv(s);
    BeginPc(s, c, hs, owner, resident, visible);
    MarksRestored(s, c, hs, owner, resident, visible);
    BeginKeeps(s, c, hs, owner, resident, visible);
    RolledBack(DoBegin(s, c, hs, owner, resident, visible), c);
  }

  lemma RolledBack(t: World, c: nat)
    requires ResourcesOk(t)
    requires c in t.calls && (t.calls[c].pc.MarkedAll? || t.calls[c].pc.Unmarking? || t.calls[c].pc.Refused?)
    ensures var u := RefusedAlone(t, c);
            AtPc(u, c, Refused) && u.pins == t.pins && u.saving == t.saving - CallMarks(t.calls[c])
  {
    if t.calls[c].pc.MarkedAll? {
      PinRestored(t, c);
    }
  }

  /** Every pin is a client's or the one internal pin of the offer that marks the block. */
  lemma PinsConserved(s: World, h: Hash)
    requires Reachable(s)
    ensures Count(s.pins, h) == Count(s.ext, h) + if InternalPin(s.holder, s.calls, h) then 1 else 0
  {
    ReachableInv(s);
  }

  /** The saving marks are the disjoint union of the hashes of the operations in flight, local and remote. */
  lemma MarksExact(s: World, h: Hash)
    requires Reachable(s)
    ensures h in s.saving <==> exists who :: HeldBy(s.calls, s.locals, h, who)
    ensures forall a, b | HeldBy(s.calls, s.locals, h, a) && HeldBy(s.calls, s.locals, h, b) :: a == b
  {
    ReachableInv(s);
    if h in s.saving {
      assert HeldBy(s.calls, s.locals, h, s.holder[h]);
    }
  }

  // --------------------------------------------------------------------- mail

  lemma {:induction false} OccurrencesConcat(xs: seq<Hash>, ys: seq<Hash>, h: Hash)
    ensures Occurrences(xs + ys, h) == Occurrences(xs, h) + Occurrences(ys, h)
  {
    if ys == [] {
      assert xs + ys == xs;
    } else if xs == [] {
      assert xs + ys == ys;
    } else {
      OccurrencesConcat(xs[1..], ys, h);
      assert (xs + ys)[1..] == xs[1..] + ys;
    }
  }

  lemma {:induction false} OccurrencesDistinct(hs: seq<Hash>, h: Hash)
    requires Distinct(hs)
    ensures Occurrences(hs, h) == if h in hs then 1 else 0
  {
    if hs != [] {
      assert hs == [hs[0]] + hs[1..];
      OccurrencesDistinct(hs[1..], h);
    }
  }

  /** How many offers of this owner that settled this way included the hash. */
  function SettledOffers(log: seq<Filing>, owner: Owner, ok: bool, h: Hash): nat {
    if log == [] then 0
    else
      var f := log[|log| - 1];
      SettledOffers(log[..|log| - 1], owner, ok, h) + if f.owner == owner && f.ok == ok && h in f.hashes then 1 else 0
  }

  lemma {:induction false} ReplayExact(log: seq<Filing>, owner: Owner, h: Hash)
    requires forall i | 0 <= i < |log| :: Distinct(log[i].hashes)
    ensures Occurrences(Replay(log, owner).done, h) == SettledOffers(log, owner, true, h)
    ensures Occurrences(Replay(log, owner).failed, h) == SettledOffers(log, owner, false, h)
  {
    if log != [] {
      var n := |log| - 1;
      ReplayExact(log[..n], owner, h);
      var v := Replay(log[..n], owner);
      OccurrencesConcat(v.done, log[n].hashes, h);
      OccurrencesConcat(v.failed, log[n].hashes, h);
      OccurrencesDistinct(log[n].hashes, h);
    }
  }

  /**
    Each owner's mail, taken and waiting, reports a hash as done (or failed) once for
    every one of its own offers that included the hash and succeeded (or failed); no
    verdict reaches the other owner, and by `SettledOnce` no offer is filed twice.
   */
  lemma MailExact(s: World, h: Hash)
    requires Reachable(s)
    ensures var v := Cat(s.applicationTaken, s.application);
            && Occurrences(v.done, h) == SettledOffers(s.log, Application, true, h)
            && Occurrences(v.failed, h) == SettledOffers(s.log, Application, false, h)
    ensures var v := Cat(s.sweepTaken, s.sweep);
            && Occurrences(v.done, h) == SettledOffers(s.log, Sweep, true, h)
            && Occurrences(v.failed, h) == SettledOffers(s.log, Sweep, false, h)
    ensures forall i | 0 <= i < |s.log| :: FilingOf(s.calls, s.log[i])
  {
    ReachableInv(s);
    forall i | 0 <= i < |s.log| ensures Distinct(s.log[i].hashes) {
      assert FilingOf(s.calls, s.log[i]) && CallOk(s.calls[s.log[i].call]);
    }
    ReplayExact(s.log, Application, h);
    ReplayExact(s.log, Sweep, h);
  }

  /** The lists of one owner's filings, end to end. */
  function Gathered(log: seq<Filing>, owner: Owner, list: Filing -> seq<Hash>): seq<Hash> {
    if log == [] then []
    else
      var f := log[|log| - 1];
      Gathered(log[..|log| - 1], owner, list) + if f.owner == owner then list(f) else []
  }

  lemma {:induction false} ReplayLists(log: seq<Filing>, owner: Owner)
    ensures var v := Replay(log, owner);
            && v.done == Gathered(log, owner, (f: Filing) => if f.ok then f.hashes else [])
            && v.failed == Gathered(log, owner, (f: Filing) => if f.ok then [] else f.hashes)
            && v.existing == Gathered(log, owner, (f: Filing) => f.existing)
            && v.unregistered == Gathered(log, owner, (f: Filing) => f.unregistered)
  {
    if log != [] {
      ReplayLists(log[..|log| - 1], owner);
    }
  }

  /** Each owner's mail, taken and waiting, is the lists of its own filings end to end, in the order they were filed. */
  lemma MailLists(s: World)
    requires Reachable(s)
    ensures var v := Cat(s.applicationTaken, s.application);
            && v.done == Gathered(s.log, Application, (f: Filing) => if f.ok then f.hashes else [])
            && v.failed == Gathered(s.log, Application, (f: Filing) => if f.ok then [] else f.hashes)
            && v.existing == Gathered(s.log, Application, (f: Filing) => f.existing)
            && v.unregistered == Gathered(s.log, Application, (f: Filing) => f.unregistered)
    ensures var v := Cat(s.sweepTaken, s.sweep);
            && v.done == Gathered(s.log, Sweep, (f: Filing) => if f.ok then f.hashes else [])
            && v.failed == Gathered(s.log, Sweep, (f: Filing) => if f.ok then [] else f.hashes)
            && v.existing == Gathered(s.log, Sweep, (f: Filing) => f.existing)
            && v.unregistered == Gathered(s.log, Sweep, (f: Filing) => f.unregistered)
  {
    ReachableInv(s);
    ReplayLists(s.log, Application);
    ReplayLists(s.log, Sweep);
  }

  /** An offer in flight is never out of reach: the next poll takes it unless a running poller already has it. */
  lemma NextPollTakes(s: World, w: Write)
    requires ReachableFresh(s) && w in s.active
    ensures w in Claim(s.polling, s.active).mine || exists p :: Claims(s.pollers, p, w.op)
  {
    ReachableTracked(s);
    ReachableInv(s);
    ClaimExact(s.polling, s.active);
    if w.op !in s.polling {
      var mine := Claim(s.polling, s.active).mine;
      var k :| 0 <= k < |s.active| && s.active[k] == w;
      assert w.op in Ops(s.active);
      assert w.op in Ops(mine);
      var i :| 0 <= i < |mine| && mine[i].op == w.op;
      assert mine[i] in s.active;
      var j :| 0 <= j < |s.active| && s.active[j] == mine[i];
      assert j == k;
    }
  }

  // ------------------------------------------------- shared operation ids

  /** Filing one offer keeps every other active offer exactly when none shares its operation id. */
  lemma FileKeepsOthersIff(active: seq<Write>, w: Write)
    requires DistinctCalls(active)
    ensures (forall i | 0 <= i < |active| && active[i].call != w.call ::
             Recorded(EraseOp(active, w.op), active[i].call))
       <==> (forall i | 0 <= i < |active| && active[i].call != w.call :: active[i].op != w.op)
  {
    var rest := EraseOp(active, w.op);
    EraseOpExact(active, w.op);
    forall i | 0 <= i < |active| ensures Recorded(rest, active[i].call) <==> active[i].op != w.op {
      if active[i].op != w.op {
        assert active[i] in rest;
        var j :| 0 <= j < |rest| && rest[j] == active[i];
      }
      if Recorded(rest, active[i].call) {
        var j :| 0 <= j < |rest| && rest[j].call == active[i].call;
        assert rest[j] in active;
        var k :| 0 <= k < |active| && active[k] == rest[j];
        assert k == i;
      }
    }
  }

  ghost predicate Absent(ws: seq<Write>, c: nat) {
    forall w | w in ws :: w.call != c
  }

  /** An accepted, unsettled offer that no list, poller or finisher remembers. */
  ghost predicate Stranded(s: World, c: nat) {
    InFlight(s.calls, c) && Forgotten(s.active, s.pollers, s.finishing, c)
  }

  ghost predicate Forgotten(active: seq<Write>, pollers: map<nat, Poller>, finishing: map<Thread, Finish>, c: nat) {
    Absent(active, c)
    && (forall p | p in pollers :: Absent(pollers[p].toPoll, c))
    && (forall t | t in finishing :: finishing[t].w.call != c)
  }

  /** The offer is still stranded, with the same record. */
  ghost predicate Kept(s: World, t: World, c: nat)
    requires c in s.calls
  {
    Stranded(t, c) && t.calls[c] == s.calls[c]
  }

  lemma StrandedBegin(s: World, c: nat, d: nat, hs: seq<Hash>, owner: Owner, resident: set<Hash>, visible: nat)
    requires Stranded(s, c) && c != d
    ensures Kept(s, DoBegin(s, d, hs, owner, resident, visible), c)
  {
    var mine, call := BeginEffect(s, d, hs, owner, resident, visible);
  }

  lemma StrandedPin(s: World, c: nat, d: nat)
    requires Stranded(s, c) && c != d && d in s.calls
    ensures Kept(s, DoPin(s, d), c)
  {
  }

  lemma StrandedRollBack(s: World, c: nat, d: nat)
    requires Stranded(s, c) && c != d && d in s.calls
    ensures Kept(s, DoRollBackPins(s, d), c)
    ensures s.calls[d].pc.Unmarking? ==> Kept(s, DoRollBackMarks(s, d), c)
  {
  }

  lemma StrandedAccept(s: World, c: nat, d: nat, ok: bool, existing: seq<Hash>, op: nat)
    requires Stranded(s, c) && c != d && d in s.calls
    ensures Kept(s, DoSettled(s, d, ok, existing), c) && Kept(s, DoRecord(s, d, op), c)
  {
  }

  lemma StrandedCallStep(s: World, e: Event, c: nat)
    requires Stranded(s, c) && OfCall(e) && CallEnabled(s, e)
    ensures Kept(s, CallStep(s, e), c)
  {
    match e
    case Begin(d, hs, owner, resident, visible) => StrandedBegin(s, c, d, hs, owner, resident, visible);
    case PinOffer(d) => StrandedPin(s, c, d);
    case RollBackPins(d) => StrandedRollBack(s, c, d);
    case RollBackMarks(d) => StrandedRollBack(s, c, d);
    case SettledByAck(d, ok, existing) => StrandedAccept(s, c, d, ok, existing, 0);
    case RecordOffer(d, op) => StrandedAccept(s, c, d, false, [], op);
  }

  lemma StrandedPollerStep(s: World, e: Event, c: nat)
    requires Stranded(s, c) && OfPoller(e) && PollerEnabled(s, e)
    ensures Kept(s, PollerStep(s, e), c)
  {
    match e
    case ClaimOffers(p) => ClaimExact(s.polling, s.active);
    case StillPending(p) =>
    case Decided(p, ok, existing, unregistered) => assert s.pollers[p].toPoll[s.pollers[p].next] in s.pollers[p].toPoll;
    case EndPoll(p) =>
  }

  lemma StrandedFile(s: World, c: nat, t: Thread)
    requires Stranded(s, c) && t in s.finishing && s.finishing[t].w.call in s.calls
    requires t.PollOf? ==> t.poller in s.pollers
    ensures Kept(s, DoFile(s, t), c)
  {
    EraseOpExact(s.active, s.finishing[t].w.op);
    var s' := DoFile(s, t);
    forall p | p in s'.pollers ensures p in s.pollers && s'.pollers[p].toPoll == s.pollers[p].toPoll {
    }
  }

  lemma StrandedStage(s: World, c: nat, t: Thread)
    requires Stranded(s, c) && t in s.finishing && s.finishing[t].w.call in s.calls && s.finishing[t].stage < 2
    ensures Kept(s, DoStage(s, t), c)
  {
    StageEffect(s, t);
    assert s.finishing[t].w.call != c;
  }

  lemma StrandedFinisherStep(s: World, e: Event, c: nat)
    requires Stranded(s, c) && OfFinisher(e) && FinisherEnabled(s, e)
    ensures Kept(s, FinisherStep(s, e), c)
  {
    if e.FileOutcome? {
      StrandedFile(s, c, e.t);
    } else {
      StrandedStage(s, c, e.t);
      assert FinisherStep(s, e) == DoStage(s, e.t);
    }
  }

  lemma OtherStepFrame(s: World, e: Event)
    requires Enabled(s, e) && !OfCall(e) && !OfPoller(e) && !OfFinisher(e) && !e.DrainMail?
    ensures var t := Step(s, e);
            t.calls == s.calls && t.active == s.active && t.pollers == s.pollers && t.finishing == s.finishing
  {
  }

  lemma DrainFrame(s: World, owner: Owner)
    ensures var t := DoDrain(s, owner);
            t.calls == s.calls && t.active == s.active && t.pollers == s.pollers && t.finishing == s.finishing
  {
  }

  lemma StrandedStep(s: World, e: Event, c: nat)
    requires Stranded(s, c) && Enabled(s, e)
    ensures Kept(s, Step(s, e), c)
  {
    if OfCall(e) {
      StrandedCallStep(s, e, c);
    } else if OfPoller(e) {
      StrandedPollerStep(s, e, c);
    } else if OfFinisher(e) {
      StrandedFinisherStep(s, e, c);
    } else if e.DrainMail? {
      DrainFrame(s, e.reader);
      assert Step(s, e) == DoDrain(s, e.reader);
    } else {
      OtherStepFrame(s, e);
    }
  }

  lemma {:induction false} StrandedRun(s: World, es: seq<Event>, c: nat)
    requires Stranded(s, c) && Runs(s, es)
    ensures Stranded(Run(s, es), c) && Run(s, es).calls[c].hashes == s.calls[c].hashes
    decreases |es|
  {
    if es != [] {
      StrandedStep(s, es[0], c);
      StrandedRun(Step(s, es[0]), es[1..], c);
    }
  }

  /** Nothing ever settles a stranded offer: in every run its marks and its internal pins stay. */
  lemma StrandedForever(s: World, es: seq<Event>, c: nat)
    requires Reachable(s) && Stranded(s, c) && Runs(s, es)
    ensures var t := Run(s, es);
            && Stranded(t, c) && t.calls[c].filed == 0 && t.calls[c].internal == 0
                && t.calls[c].hashes == s.calls[c].hashes
            && forall h | h in s.calls[c].hashes :: h in t.saving && Count(t.pins, h) == Count(t.ext, h) + 1
  {
    ReachableInv(s);
    RunKeeps(s, es);
    StrandedRun(s, es, c);
    var t := Run(s, es);
    assert !BeingFinished(t.finishing, c);
    forall h | h in s.calls[c].hashes ensures h in t.saving && Count(t.pins, h) == Count(t.ext, h) + 1 {
      assert h in SetOf(t.calls[c].hashes);
      assert HeldBy(t.calls, t.locals, h, Remote(c));
      assert InternalPin(t.holder, t.calls, h);
    }
  }

  ghost predicate Leads(s: World, es: seq<Event>, t: World) {
    Runs(s, es) && Run(s, es) == t
  }

  lemma {:induction false} LeadsTwice(s: World, es: seq<Event>, t: World, fs: seq<Event>, u: World)
    requires Leads(s, es, t) && Leads(t, fs, u)
    ensures Leads(s, es + fs, u)
    decreases |es|
  {
    if es == [] {
      assert es + fs == fs;
    } else {
      LeadsTwice(Step(s, es[0]), es[1..], t, fs, u);
      assert (es + fs)[1..] == es[1..] + fs;
    }
  }

  lemma LeadsOne(s: World, e: Event)
    requires Enabled(s, e)
    ensures Leads(s, [e], Step(s, e))
  {
    assert [e][1..] == [];
  }

  function Offered(s: World, c: nat, h: Hash, pin: nat, pc: Pc): World {
    s.(pins := s.pins[h := pin], ext := s.ext[h := 1], saving := s.saving + {h}, holder := s.holder[h := Remote(c)],
       calls := s.calls[c := Call([h], Application, pc, 0, 0, 0, false)])
  }

  lemma OfferMarked(s: World, c: nat, h: Hash)
    requires h !in s.saving && c !in s.calls
    ensures var t := s.(pins := s.pins[h := 1], ext := s.ext[h := 1]);
            DoBegin(t, c, [h], Application, {h}, 1) == Offered(s, c, h, 1, MarkedAll)
  {
    var t := s.(pins := s.pins[h := 1], ext := s.ext[h := 1]);
    assert [h][..|[h]| - 1] == [];
    assert Mark(t.saving, t.pins, {h}, [h]) == RemoteWrites.Marked(t.saving + {h}, [h], true);
    assert [h][0] == h;
    assert SetOf([h]) == {h};
    assert Hold(s.holder, [h], Remote(c)) == s.holder[h := Remote(c)];
  }

  lemma OfferPinned(s: World, c: nat, h: Hash)
    ensures DoPin(Offered(s, c, h, 1, MarkedAll), c) == Offered(s, c, h, 2, Pinned)
  {
    var t := Offered(s, c, h, 1, MarkedAll);
    assert [h][..|[h]| - 1] == [];
    assert PinAll(t.pins, [h]) == s.pins[h := 2];
    assert t.calls[c := t.calls[c].(pc := Pinned)] == s.calls[c := Call([h], Application, Pinned, 0, 0, 0, false)];
  }

  lemma OfferRecorded(s: World, c: nat, h: Hash)
    ensures DoRecord(Offered(s, c, h, 2, Pinned), c, 7)
         == Offered(s, c, h, 2, Accepted).(active := s.active + [Write(c, 7, [h], Application)])
  {
    var t := Offered(s, c, h, 2, Pinned);
    assert t.calls[c := t.calls[c].(pc := Accepted)] == s.calls[c := Call([h], Application, Accepted, 0, 0, 0, false)];
  }

  /** One save of one block, up to the record under operation id 7. */
  lemma OfferRun(s: World, c: nat, h: Hash) returns (es: seq<Event>)
    requires h !in s.pins && h !in s.ext && h !in s.saving && c !in s.calls
    ensures Leads(s, es, Offered(s, c, h, 2, Accepted).(active := s.active + [Write(c, 7, [h], Application)]))
  {
    var s1 := s.(pins := s.pins[h := 0]);
    var s2 := s.(pins := s.pins[h := 1], ext := s.ext[h := 1]);
    LeadsOne(s, ClientInsert(h));
    assert Step(s, ClientInsert(h)) == s1;
    LeadsOne(s1, ClientPin(h));
    assert Step(s1, ClientPin(h)) == s2;
    OfferSteps(s, s2, c, h);
    es := [ClientInsert(h)] + ([ClientPin(h)] + OfferEvents(c, h));
    var t := Offered(s, c, h, 2, Accepted).(active := s.active + [Write(c, 7, [h], Application)]);
    LeadsTwice(s1, [ClientPin(h)], s2, OfferEvents(c, h), t);
    LeadsTwice(s, [ClientInsert(h)], s1, [ClientPin(h)] + OfferEvents(c, h), t);
  }

  function OfferEvents(c: nat, h: Hash): seq<Event> {
    [Begin(c, [h], Application, {h}, 1)] + ([PinOffer(c)] + [RecordOffer(c, 7)])
  }

  lemma OfferSteps(s: World, s2: World, c: nat, h: Hash)
    requires h !in s.saving && c !in s.calls && s2 == s.(pins := s.pins[h := 1], ext := s.ext[h := 1])
    ensures Leads(s2, OfferEvents(c, h),
                  Offered(s, c, h, 2, Accepted).(active := s.active + [Write(c, 7, [h], Application)]))
  {
    var s3, s4 := Offered(s, c, h, 1, MarkedAll), Offered(s, c, h, 2, Pinned);
    OfferMarked(s, c, h);
    OfferPinned(s, c, h);
    OfferRecorded(s, c, h);
    LeadsOne(s2, Begin(c, [h], Application, {h}, 1));
    LeadsOne(s3, PinOffer(c));
    LeadsOne(s4, RecordOffer(c, 7));
    var t := Offered(s, c, h, 2, Accepted).(active := s.active + [Write(c, 7, [h], Application)]);
    LeadsTwice(s3, [PinOffer(c)], s4, [RecordOffer(c, 7)], t);
    LeadsTwice(s2, [Begin(c, [h], Application, {h}, 1)], s3, [PinOffer(c)] + [RecordOffer(c, 7)], t);
  }

  /** Two active offers share an id; a poller has come `k` steps towards settling the first. */
  ghost predicate Colliding(s: World, v: Write, w: Write, k: nat) {
    && s.active == [v, w] && v.op == w.op && v.call != w.call
    && v.call in s.calls && InFlight(s.calls, w.call)
    && (k == 0 ==> s.polling == {})
    && s.pollers == (if k == 0 then map[] else map[0 := Poller([v], 0)])
    && s.finishing == (if k < 2 then map[] else map[PollOf(0) := Finish(v, k - 2, true, [], [])])
  }

  lemma ClaimsFirst(s: World, v: Write, w: Write)
    requires Colliding(s, v, w, 0)
    ensures Enabled(s, ClaimOffers(0)) && Colliding(Step(s, ClaimOffers(0)), v, w, 1)
  {
    assert s.active[..1] == [v] && [v][..0] == [];
    assert Claim({}, [v]) == Claimed({v.op}, [v]);
    assert Claim({}, s.active) == Claimed({v.op}, [v]);
  }

  lemma DecidesFirst(s: World, v: Write, w: Write)
    requires Colliding(s, v, w, 1)
    ensures Enabled(s, Decided(0, true, [], [])) && Colliding(Step(s, Decided(0, true, [], [])), v, w, 2)
  {
    assert Step(s, Decided(0, true, [], [])) == DoDecided(s, 0, true, [], []);
  }

  lemma DropsFirst(s: World, v: Write, w: Write, k: nat) returns (e: Event)
    requires Colliding(s, v, w, k) && 2 <= k <= 3
    ensures Enabled(s, e) && Colliding(Step(s, e), v, w, k + 1)
  {
    e := if k == 2 then DropInternal(PollOf(0)) else DropCaller(PollOf(0));
    assert Step(s, e) == DoStage(s, PollOf(0));
    DropsFirstState(s, v, w, k);
  }

  lemma DropsFirstState(s: World, v: Write, w: Write, k: nat)
    requires Colliding(s, v, w, k) && 2 <= k <= 3
    ensures Colliding(DoStage(s, PollOf(0)), v, w, k + 1)
  {
    StageEffect(s, PollOf(0));
    assert DoStage(s, PollOf(0)).finishing == map[PollOf(0) := Finish(v, k - 1, true, [], [])];
  }

  /** Filing the first offer forgets the second. */
  lemma FilesFirst(s: World, v: Write, w: Write)
    requires Colliding(s, v, w, 4)
    ensures Enabled(s, FileOutcome(PollOf(0))) && Stranded(Step(s, FileOutcome(PollOf(0))), w.call)
  {
    var th := PollOf(0);
    assert Step(s, FileOutcome(th)) == DoFile(s, th);
    EraseOpExact(s.active, v.op);
  }

  lemma {:induction false} CollidingPoll(s: World, v: Write, w: Write, k: nat) returns (es: seq<Event>, t: World)
    requires Colliding(s, v, w, k) && k <= 4
    ensures Leads(s, es, t) && Stranded(t, w.call)
    decreases 4 - k
  {
    var e;
    if k == 4 {
      e := FileOutcome(PollOf(0));
      FilesFirst(s, v, w);
      t := Step(s, e);
      es := [e];
      LeadsOne(s, e);
    } else {
      if k == 0 {
        e := ClaimOffers(0);
        ClaimsFirst(s, v, w);
      } else if k == 1 {
        e := Decided(0, true, [], []);
        DecidesFirst(s, v, w);
      } else {
        e := DropsFirst(s, v, w, k);
      }
      var fs;
      fs, t := CollidingPoll(Step(s, e), v, w, k + 1);
      LeadsOne(s, e);
      LeadsTwice(s, [e], Step(s, e), fs, t);
      es := [e] + fs;
    }
  }

  lemma SharedIdRun() returns (es: seq<Event>, t: World)
    ensures Leads(START, es, t) && Stranded(t, 1)
  {
    var v, w := Write(0, 7, ["a"], Application), Write(1, 7, ["b"], Application);
    var e1 := OfferRun(START, 0, "a");
    var s1 := Offered(START, 0, "a", 2, Accepted).(active := [] + [v]);
    assert "a"[0] != "b"[0];
    var e2 := OfferRun(s1, 1, "b");
    var s2 := Offered(s1, 1, "b", 2, Accepted).(active := s1.active + [w]);
    assert Colliding(s2, v, w, 0);
    var e3;
    e3, t := CollidingPoll(s2, v, w, 0);
    LeadsTwice(s1, e2, s2, e3, t);
    LeadsTwice(START, e1, s1, e2 + e3, t);
    es := e1 + (e2 + e3);
  }

  /** When two destinations hand out the same id, a run from the start strands an accepted offer for ever. */
  lemma SharedIdStrands() returns (es: seq<Event>)
    ensures Runs(START, es) && Stranded(Run(START, es), 1)
    ensures forall fs | Runs(Run(START, es), fs) :: InFlight(Run(Run(START, es), fs).calls, 1)
  {
    var t;
    es, t := SharedIdRun();
    forall fs | Runs(t, fs) ensures InFlight(Run(t, fs).calls, 1) {
      StrandedForever(t, fs, 1);
    }
  }
}
