/**
  The promise of a pipelined transfer (`TransferPipelinedState` in
  tpu_sync/kv_cache/kv_cache_manager_base.cc): chunks finish on any threads, in
  any interleaving of their atomic steps, and together fulfil one promise.
 */
module PipelinedPromise {
  import opened TransferTypes

  type Error = string

  /** What all chunks share.  `sets` lists the values the promise has been given; `None` is success. */
  datatype Shared = Shared(
    total: nat, completed: nat, hasFailed: bool, fulfilled: bool, firstError: Option<Error>, sets: seq<Option<Error>>)

  function RecordError(s: Shared, e: Error): Shared {
    if s.firstError.None? then s.(firstError := Some(e)) else s
  }

  /**
    What `SetError` does undisturbed: the error is recorded, and fulfils the promise unless it was
    fulfilled before.
   */
  function ErrorSet(s: Shared, e: Error): Shared {
    var r := RecordError(s, e).(hasFailed := true);
    if s.fulfilled then r else r.(fulfilled := true, sets := r.sets + [r.firstError])
  }

  /** What `MarkChunkComplete` does undisturbed: the last chunk fulfils the promise unless it was fulfilled before. */
  function ChunkMarked(s: Shared): Shared {
    var r := s.(completed := s.completed + 1);
    if r.completed != r.total || r.fulfilled then r
    else r.(fulfilled := true, sets := r.sets + [if r.hasFailed then r.firstError else None])
  }

  /** The operations of the state object; each body step is one atomic access. */
  class TransferPipelinedState {
    var state: Shared

    constructor (total: nat)
      ensures state == Shared(total, 0, false, false, None, [])
    {
      state := Shared(total, 0, false, false, None, []);
    }

    method SetError(e: Error)
      modifies this
      ensures state == ErrorSet(old(state), e)
    {
      state := RecordError(state, e);
      state := state.(hasFailed := true);
      if !state.fulfilled {
        state := state.(fulfilled := true);
        var err := state.firstError;
        state := state.(sets := state.sets + [err]);
      }
    }

    method MarkChunkComplete()
      modifies this
      ensures state == ChunkMarked(old(state))
    {
      var prev := state.completed;
      state := state.(completed := prev + 1);
      if prev + 1 == state.total && !state.fulfilled {
        state := state.(fulfilled := true);
        if state.hasFailed {
          var err := state.firstError;
          state := state.(sets := state.sets + [err]);
        } else {
          state := state.(sets := state.sets + [None]);
        }
      }
    }
  }

  // -------------------------------------------------------------- interleavings

  /** Where a chunk is: copying, inside `SetError`, inside `MarkChunkComplete`, or done. */
  datatype Pc =
    | Copying
    | Raising            // error recorded, `has_failed` not yet stored
    | Contending         // about to compare-and-exchange in `SetError`
    | ReadingError       // won; about to read the first error
    | SettingError(e: Option<Error>)
    | Marking            // about to add to `completed_chunks`
    | LastContending     // counted the last chunk; about to compare-and-exchange
    | CheckingFailed     // won; about to load `has_failed`
    | LastReading        // saw a failure; about to read the first error
    | LastSetting(e: Option<Error>)
    | Done

  /** `recorded` lists the errors in the order they were recorded. */
  datatype World = World(s: Shared, pcs: seq<Pc>, recorded: seq<Error>)

  datatype Event =
    | Fail(c: nat, e: Error)  // the chunk failed: record its error
    | Finish(c: nat)          // the chunk succeeded, or gave up because another failed
    | Advance(c: nat)         // the next atomic step of `SetError` or `MarkChunkComplete`

  function Start(n: nat): World {
    World(Shared(n, 0, false, false, None, []), seq(n, _ => Copying), [])
  }

  predicate Enabled(w: World, e: Event) {
    e.c < |w.pcs| && (if e.Advance? then !w.pcs[e.c].Copying? && !w.pcs[e.c].Done? else w.pcs[e.c].Copying?)
  }

  function Move(w: World, c: nat, s: Shared, pc: Pc): World
    requires c < |w.pcs|
  {
    w.(s := s, pcs := w.pcs[c := pc])
  }

  function Atomic(w: World, c: nat): World
    requires c < |w.pcs| && !w.pcs[c].Copying? && !w.pcs[c].Done?
  {
    var s := w.s;
    match w.pcs[c]
    case Raising => Move(w, c, s.(hasFailed := true), Contending)
    case Contending => if s.fulfilled then Move(w, c, s, Marking) else Move(w, c, s.(fulfilled := true), ReadingError)
    case ReadingError => Move(w, c, s, SettingError(s.firstError))
    case SettingError(e) => Move(w, c, s.(sets := s.sets + [e]), Marking)
    case Marking => Move(w, c, s.(completed := s.completed + 1),
                         if s.completed + 1 == s.total then LastContending else Done)
    case LastContending => if s.fulfilled then Move(w, c, s, Done)
        else Move(w, c, s.(fulfilled := true), CheckingFailed)
    case CheckingFailed => Move(w, c, s, if s.hasFailed then LastReading else LastSetting(None))
    case LastReading => Move(w, c, s, LastSetting(s.firstError))
    case LastSetting(e) => Move(w, c, s.(sets := s.sets + [e]), Done)
  }

  function Step(w: World, e: Event): World
    requires Enabled(w, e)
  {
    match e
    case Fail(c, err) => Move(w, c, RecordError(w.s, err), Raising).(recorded := w.recorded + [err])
    case Finish(c) => Move(w, c, w.s, Marking)
    case Advance(c) => Atomic(w, c)
  }

  // ------------------------------------------------------------------ counting

  function Count(pcs: seq<Pc>, f: Pc -> bool): nat {
    if pcs == [] then 0 else Count(pcs[..|pcs| - 1], f) + if f(pcs[|pcs| - 1]) then 1 else 0
  }

  lemma {:induction false} CountUpdate(pcs: seq<Pc>, c: nat, pc: Pc, f: Pc -> bool)
    requires c < |pcs|
    ensures Count(pcs[c := pc], f) == Count(pcs, f) - (if f(pcs[c]) then 1 else 0) + if f(pc) then 1 else 0
  {
    var n := |pcs| - 1;
    if c < n {
      CountUpdate(pcs[..n], c, pc, f);
      assert pcs[c := pc][..n] == pcs[..n][c := pc];
    } else {
      assert pcs[c := pc][..n] == pcs[..n];
    }
  }

  lemma {:induction false} CountBounds(pcs: seq<Pc>, f: Pc -> bool)
    ensures Count(pcs, f) <= |pcs|
    ensures Count(pcs, f) == |pcs| <==> forall c | 0 <= c < |pcs| :: f(pcs[c])
    ensures Count(pcs, f) == 0 <==> forall c | 0 <= c < |pcs| :: !f(pcs[c])
  {
    if pcs != [] {
      var n := |pcs| - 1;
      CountBounds(pcs[..n], f);
      assert forall c | 0 <= c < n :: pcs[..n][c] == pcs[c];
    }
  }

  /** The chunk has been counted as complete. */
  predicate Counted(pc: Pc) {
    pc.LastContending? || pc.CheckingFailed? || pc.LastReading? || pc.LastSetting? || pc.Done?
  }

  /** The chunk won the compare-and-exchange and has not set the promise yet. */
  predicate Winner(pc: Pc) {
    pc.ReadingError? || pc.SettingError? || pc.CheckingFailed? || pc.LastReading? || pc.LastSetting?
  }

  predicate Last(pc: Pc) {
    pc.LastContending?
  }

  predicate Failing(pc: Pc) {
    pc.Raising? || pc.Contending?
  }

  // ----------------------------------------------------------------- invariant

  /** What a chunk's position says about the shared state. */
  predicate PcOk(w: World, pc: Pc) {
    && (Failing(pc) || pc.ReadingError? ==> w.recorded != [])
    && (pc.SettingError? ==> w.recorded != [] && pc.e == Some(w.recorded[0]))
    && (pc.LastContending? || pc.CheckingFailed? || pc.LastSetting? ==> w.s.completed == w.s.total)
    && (pc.CheckingFailed? ==> w.recorded == [])
    && !pc.LastReading?
    && (pc.LastSetting? ==> w.recorded == [] && pc.e == None)
  }

  ghost predicate PcsOk(w: World) {
    forall c | 0 <= c < |w.pcs| :: PcOk(w, w.pcs[c])
  }

  predicate CountsOk(w: World) {
    && w.s.total == |w.pcs| && w.s.completed == Count(w.pcs, Counted)
    && Count(w.pcs, Winner) + |w.s.sets| == (if w.s.fulfilled then 1 else 0)
    && (w.recorded != [] && !w.s.fulfilled ==> Count(w.pcs, Failing) > 0)
    && (w.s.total > 0 && w.s.completed == w.s.total && !w.s.fulfilled ==> Count(w.pcs, Last) > 0)
  }

  predicate ErrorsOk(w: World) {
    && w.s.firstError == (if w.recorded == [] then None else Some(w.recorded[0]))
    && (w.s.hasFailed ==> w.recorded != [])
    && (w.s.sets != [] ==> w.s.sets[0] == w.s.firstError && (w.recorded == [] ==> w.s.completed == w.s.total))
  }

  ghost predicate Inv(w: World) {
    PcsOk(w) && CountsOk(w) && ErrorsOk(w)
  }

  lemma Recount(pcs: seq<Pc>, c: nat, pc: Pc)
    requires c < |pcs|
    ensures Count(pcs[c := pc], Counted)
            == Count(pcs, Counted) - (if Counted(pcs[c]) then 1 else 0) + (if Counted(pc) then 1 else 0)
    ensures Count(pcs[c := pc], Winner)
            == Count(pcs, Winner) - (if Winner(pcs[c]) then 1 else 0) + (if Winner(pc) then 1 else 0)
    ensures Count(pcs[c := pc], Failing)
            == Count(pcs, Failing) - (if Failing(pcs[c]) then 1 else 0) + (if Failing(pc) then 1 else 0)
    ensures Count(pcs[c := pc], Last)
            == Count(pcs, Last) - (if Last(pcs[c]) then 1 else 0) + (if Last(pc) then 1 else 0)
  {
    CountUpdate(pcs, c, pc, Counted);
    CountUpdate(pcs, c, pc, Winner);
    CountUpdate(pcs, c, pc, Failing);
    CountUpdate(pcs, c, pc, Last);
  }

  /** While a chunk is uncounted the count is short; once it is full, every error has fulfilled the promise. */
  lemma Bounds(w: World, c: nat)
    requires Inv(w) && c < |w.pcs|
    ensures w.s.completed <= w.s.total && (!Counted(w.pcs[c]) ==> w.s.completed < w.s.total)
    ensures w.s.completed == w.s.total && w.recorded != [] ==> w.s.fulfilled
    ensures Winner(w.pcs[c]) ==> Count(w.pcs, Winner) > 0
  {
    CountBounds(w.pcs, Counted);
    CountBounds(w.pcs, Winner);
    CountBounds(w.pcs, Failing);
    if w.s.completed == w.s.total {
      forall d | 0 <= d < |w.pcs| ensures !Failing(w.pcs[d]) {
        assert Counted(w.pcs[d]);
      }
    }
  }

  lemma FailKeeps(w: World, e: Event)
    requires Inv(w) && Enabled(w, e) && !e.Advance?
    ensures Inv(Step(w, e))
  {
    var v := Step(w, e);
    Recount(w.pcs, e.c, v.pcs[e.c]);
    Bounds(w, e.c);
    forall d | 0 <= d < |v.pcs| ensures PcOk(v, v.pcs[d]) {
      assert PcOk(w, w.pcs[d]);
    }
  }

  lemma AdvanceCounts(w: World, c: nat)
    requires Inv(w) && c < |w.pcs| && !w.pcs[c].Copying? && !w.pcs[c].Done?
    ensures CountsOk(Atomic(w, c))
  {
    var v := Atomic(w, c);
    assert PcOk(w, w.pcs[c]);
    Recount(w.pcs, c, v.pcs[c]);
    Bounds(w, c);
  }

  lemma AdvancePcs(w: World, c: nat)
    requires Inv(w) && c < |w.pcs| && !w.pcs[c].Copying? && !w.pcs[c].Done?
    ensures PcsOk(Atomic(w, c)) && ErrorsOk(Atomic(w, c))
  {
    var v := Atomic(w, c);
    assert PcOk(w, w.pcs[c]);
    Bounds(w, c);
    forall d | 0 <= d < |v.pcs| ensures PcOk(v, v.pcs[d]) {
      assert PcOk(w, w.pcs[d]);
      Bounds(w, d);
    }
  }

  lemma StepKeeps(w: World, e: Event)
    requires Inv(w) && Enabled(w, e)
    ensures Inv(Step(w, e))
  {
    if e.Advance? {
      AdvanceCounts(w, e.c);
      AdvancePcs(w, e.c);
    } else {
      FailKeeps(w, e);
    }
  }

  // -------------------------------------------------------------- whole runs

  predicate Runs(w: World, es: seq<Event>)
    decreases |es|
  {
    es == [] || (Enabled(w, es[0]) && Runs(Step(w, es[0]), es[1..]))
  }

  function Run(w: World, es: seq<Event>): World
    requires Runs(w, es)
    decreases |es|
  {
    if es == [] then w else Run(Step(w, es[0]), es[1..])
  }

  lemma {:induction false} RunKeeps(w: World, es: seq<Event>)
    requires Inv(w) && Runs(w, es)
    ensures Inv(Run(w, es))
    decreases |es|
  {
    if es != [] {
      StepKeeps(w, es[0]);
      RunKeeps(Step(w, es[0]), es[1..]);
    }
  }

  ghost predicate Reachable(w: World) {
    exists n, es :: Runs(Start(n), es) && Run(Start(n), es) == w
  }

  lemma ReachableInv(w: World)
    requires Reachable(w)
    ensures Inv(w)
  {
    var n, es :| Runs(Start(n), es) && Run(Start(n), es) == w;
    CountBounds(Start(n).pcs, Counted);
    CountBounds(Start(n).pcs, Winner);
    RunKeeps(Start(n), es);
  }

  // ------------------------------------------------------- a chunk on its own

  function Advances(c: nat, k: nat): seq<Event> {
    seq(k, _ => Advance(c))
  }

  lemma AdvanceOnce(w: World, c: nat, k: nat)
    requires k > 0 && Enabled(w, Advance(c))
    ensures Runs(w, Advances(c, k)) <==> Runs(Atomic(w, c), Advances(c, k - 1))
    ensures Runs(w, Advances(c, k)) ==> Run(w, Advances(c, k)) == Run(Atomic(w, c), Advances(c, k - 1))
  {
    assert Advances(c, k)[1..] == Advances(c, k - 1);
  }

  /** The chunk's own steps from here, up to where it leaves `SetError` or `MarkChunkComplete`. */
  function StepsLeft(s: Shared, pc: Pc): nat {
    match pc
    case Raising => if s.fulfilled then 2 else 4
    case Contending => if s.fulfilled then 1 else 3
    case ReadingError => 2
    case SettingError(_) => 1
    case Marking => if s.completed + 1 != s.total then 1 else if s.fulfilled then 2 else if s.hasFailed then 5 else 4
    case LastContending => if s.fulfilled then 1 else if s.hasFailed then 4 else 3
    case CheckingFailed => if s.hasFailed then 3 else 2
    case LastReading => 2
    case LastSetting(_) => 1
    case _ => 0
  }

  /** What the shared state is when the chunk gets there alone. */
  function Alone(s: Shared, pc: Pc): Shared {
    match pc
    case Raising => if s.fulfilled then s.(hasFailed := true)
        else s.(hasFailed := true, fulfilled := true, sets := s.sets + [s.firstError])
    case Contending => if s.fulfilled then s else s.(fulfilled := true, sets := s.sets + [s.firstError])
    case ReadingError => s.(sets := s.sets + [s.firstError])
    case SettingError(e) => s.(sets := s.sets + [e])
    case Marking => ChunkMarked(s)
    case LastContending =>
      if s.fulfilled then s else s.(fulfilled := true, sets := s.sets + [if s.hasFailed then s.firstError else None])
    case CheckingFailed => s.(sets := s.sets + [if s.hasFailed then s.firstError else None])
    case LastReading => s.(sets := s.sets + [s.firstError])
    case LastSetting(e) => s.(sets := s.sets + [e])
    case _ => s
  }

  predicate InSetError(pc: Pc) {
    pc.Raising? || pc.Contending? || pc.ReadingError? || pc.SettingError?
  }

  lemma {:induction false} RunsAlone(w: World, c: nat)
    requires c < |w.pcs| && !w.pcs[c].Copying? && !w.pcs[c].Done?
    ensures var es := Advances(c, StepsLeft(w.s, w.pcs[c]));
            Runs(w, es) && Run(w, es) == Move(w, c, Alone(w.s, w.pcs[c]),
                                              if InSetError(w.pcs[c]) then Marking else Done)
    decreases StepsLeft(w.s, w.pcs[c])
  {
    var k, v := StepsLeft(w.s, w.pcs[c]), Atomic(w, c);
    AdvanceOnce(w, c, k);
    if k > 1 {
      RunsAlone(v, c);
    }
    assert v.pcs[c := Done] == w.pcs[c := Done] && v.pcs[c := Marking] == w.pcs[c := Marking];
  }

  /** A failing chunk whose steps no other chunk interrupts does exactly what `SetError` promises. */
  lemma SetErrorAlone(w: World, c: nat, e: Error)
    requires Enabled(w, Fail(c, e))
    ensures var es := [Fail(c, e)] + Advances(c, if w.s.fulfilled then 2 else 4);
            && Runs(w, es)
            && Run(w, es) == Move(w, c, ErrorSet(w.s, e), Marking).(recorded := w.recorded + [e])
  {
    var v, k := Step(w, Fail(c, e)), if w.s.fulfilled then 2 else 4;
    RunsAlone(v, c);
    assert ([Fail(c, e)] + Advances(c, k))[1..] == Advances(c, k);
    assert v.pcs[c := Marking] == w.pcs[c := Marking];
  }

  /** A finishing chunk whose steps no other chunk interrupts does exactly what `MarkChunkComplete` promises. */
  lemma MarkChunkCompleteAlone(w: World, c: nat)
    requires Enabled(w, Finish(c))
    ensures var es := [Finish(c)] + Advances(c, StepsLeft(w.s, Marking));
            Runs(w, es) && Run(w, es) == Move(w, c, ChunkMarked(w.s), Done)
  {
    var v, k := Step(w, Finish(c)), StepsLeft(w.s, Marking);
    RunsAlone(v, c);
    assert ([Finish(c)] + Advances(c, k))[1..] == Advances(c, k);
    assert v.pcs[c := Done] == w.pcs[c := Done];
  }

  /**
    The promise is set at most once; an error value is the first error recorded; success is set only
    when nothing failed.
   */
  lemma SetOnce(w: World)
    requires Reachable(w)
    ensures |w.s.sets| <= 1
    ensures |w.s.sets| == 1 ==> w.s.sets[0] == if w.recorded == [] then None else Some(w.recorded[0])
    ensures |w.s.sets| == 1 && w.s.sets[0].None? ==> forall c | 0 <= c < |w.pcs| :: Counted(w.pcs[c])
  {
    ReachableInv(w);
    CountBounds(w.pcs, Counted);
  }

  /** Once every chunk has returned from `MarkChunkComplete`, the promise is set. */
  lemma SetWhenDone(w: World)
    requires Reachable(w) && w.pcs != [] && forall c | 0 <= c < |w.pcs| :: w.pcs[c].Done?
    ensures w.s.sets == [if w.recorded == [] then None else Some(w.recorded[0])]
  {
    ReachableInv(w);
    CountBounds(w.pcs, Counted);
    CountBounds(w.pcs, Last);
    CountBounds(w.pcs, Winner);
  }

  /**
    A chunk that fulfils the promise from `MarkChunkComplete` never sees a failure: the last chunk
    finds every error already reported.
   */
  lemma LastChunkNeverReportsError(w: World, c: nat)
    requires Reachable(w) && c < |w.pcs|
    ensures !w.pcs[c].LastReading? && (w.pcs[c].CheckingFailed? ==> !w.s.hasFailed)
            && (w.pcs[c].LastSetting? ==> w.pcs[c].e == None)
  {
    ReachableInv(w);
    assert PcOk(w, w.pcs[c]);
  }
}
