/**
  Transfer programs and their translation to and from the framed request
  (tpu_sync/core/transfer_program_reshard.cc, tpu_sync/proto/transfer_program.proto).
 */
module TransferProgram {
  import opened TransferTypes

  datatype Code = InvalidArgument | Unimplemented
  datatype Result<+T> = Ok(value: T) | Err(code: Code)

  datatype Kind = KindUnspecified | PrefixBlocks | PoolReshard | WeightSync
  datatype Role = RoleUnspecified | Sender | ReceiverArm | LocalCopy

  datatype Envelope = Envelope(uuid: uint64, reqId: string, kind: Kind, role: Role, fingerprint: string,
                               deadlineMs: int64)

  datatype Space = NoSpace | PoolIndex(pool: int32) | BufferHandle(handle: uint64) | VariableIndex(index: nat)
  datatype MemoryRef = MemoryRef(space: Space, memType: MemoryType, blockId: int64)
  datatype Extent = Extent(srcOffset: int64, dstOffset: int64, size: int64, srcStride: int64, dstStride: int64,
                           count: int32)

  datatype Move = Move(
    src: MemoryRef, dst: MemoryRef, extents: seq<Extent>, dstPeer: string, dstShard: int32,
    group: Option<int32>, rank: int32, layerIdx: Option<int32>)

  datatype FanInGroup = FanInGroup(
    pools: seq<int32>, blockIds: seq<int64>, pushes: int32, extentBytes: seq<int64>, uploadRank: int32)

  datatype Completion =
    | NoMode
    | AwaitInline
    | FanIn(groups: seq<FanInGroup>, expectedBlockCount: int64)
    | Barrier(round: int64, census: int64)

  datatype Policy = Policy(
    parallelism: int32, skipD2h: Option<bool>, skipTiling: map<int32, bool>, dstMemType: MemoryType,
        useBlockChunks: bool)

  datatype Reshard = Reshard(srcUnits: seq<RaidenId>, dstUnits: seq<RaidenId>, pools: seq<int32>,
                             dtypeTags: seq<string>)

  /** A transfer program request: envelope and program together. */
  datatype Program = Program(envelope: Envelope, moves: seq<Move>, completion: Completion, policy: Policy,
                             reshard: Reshard)

  // ------------------------------------------------------------ normal programs

  datatype Lowering = SenderClass | ArmClass

  predicate MoveOk(m: Move, groups: nat) {
    |m.extents| == 1 && m.src.space.NoSpace? && m.dst.space.NoSpace?
    && (m.group.Some? ==> 0 <= m.group.value < groups)
  }

  predicate Normal(p: Program) {
    && p.completion.FanIn? && (p.envelope.kind.PoolReshard? || p.envelope.kind.KindUnspecified?)
    && p.completion.groups != [] && p.reshard.pools != [] && p.moves != []
    && (forall i | 0 <= i < |p.moves| :: MoveOk(p.moves[i], |p.completion.groups|))
    && (p.envelope.role.Sender? || p.envelope.role.ReceiverArm?)
  }

  /** Which executor runs the program, or how it is refused: unsupported completion modes before anything else. */
  method NormalizeReshardProgram(p: Program) returns (r: Result<Lowering>)
    ensures r.Ok? <==>
              && p.completion.FanIn? && (p.envelope.kind.PoolReshard? || p.envelope.kind.KindUnspecified?)
              && p.completion.groups != [] && p.reshard.pools != [] && p.moves != []
              && (forall i | 0 <= i < |p.moves| ::
                    && |p.moves[i].extents| == 1 && p.moves[i].src.space.NoSpace? && p.moves[i].dst.space.NoSpace?
                    && (p.moves[i].group.Some? ==> 0 <= p.moves[i].group.value < |p.completion.groups|))
              && (p.envelope.role.Sender? || p.envelope.role.ReceiverArm?)
    ensures r.Ok? <==> Normal(p)
    ensures r.Ok? ==> r.value == if p.envelope.role.Sender? then SenderClass else ArmClass
    ensures p.completion.AwaitInline? || p.completion.Barrier? ==> r == Err(Unimplemented)
    ensures p.completion.NoMode? ==> r == Err(InvalidArgument)
    ensures p.completion.FanIn? && r.Err? ==>
              (r.code.Unimplemented?
               <==> (p.envelope.role.LocalCopy? && Normal(p.(envelope := p.envelope.(role := Sender)))))
  {
    match p.completion {
      case AwaitInline => return Err(Unimplemented);
      case Barrier(_, _) => return Err(Unimplemented);
      case NoMode => return Err(InvalidArgument);
      case FanIn(groups, _) =>
        if !p.envelope.kind.PoolReshard? && !p.envelope.kind.KindUnspecified? {
          return Err(InvalidArgument);
        }
        if groups == [] || p.reshard.pools == [] || p.moves == [] {
          return Err(InvalidArgument);
        }
        for i := 0 to |p.moves|
          invariant forall k | 0 <= k < i :: MoveOk(p.moves[k], |groups|)
        {
          var m := p.moves[i];
          if |m.extents| != 1 {
            return Err(InvalidArgument);
          }
          if !m.src.space.NoSpace? || !m.dst.space.NoSpace? {
            return Err(InvalidArgument);
          }
          if m.group.Some? && (m.group.value < 0 || m.group.value >= |groups|) {
            return Err(InvalidArgument);
          }
        }
        match p.envelope.role {
          case Sender => return Ok(SenderClass);
          case ReceiverArm => return Ok(ArmClass);
          case LocalCopy => return Err(Unimplemented);
          case RoleUnspecified => return Err(InvalidArgument);
        }
    }
  }

  // ----------------------------------------------------------- field by field

  /** Two's-complement casts between the signed and unsigned 64-bit ids. */
  function ToUnsigned(x: int64): uint64 {
    if x < 0 then x + 0x1_0000_0000_0000_0000 else x
  }

  function ToSigned(x: uint64): int64 {
    if x > 0x7FFF_FFFF_FFFF_FFFF then x - 0x1_0000_0000_0000_0000 else x
  }

  predicate FitsInt32(x: int) {
    -0x8000_0000 <= x <= 0x7FFF_FFFF
  }

  function ToFanIn(g: PoolGroup): FanInGroup {
    FanInGroup(g.poolIndices, g.dstBlockIds, g.expectedPushes, g.extents, g.orderRank)
  }

  function ToPoolGroup(g: FanInGroup): PoolGroup {
    PoolGroup(g.pools, g.blockIds, g.pushes, g.extentBytes, g.uploadRank)
  }

  function ToMove(rank: int32, e: Entry): Move {
    Move(MemoryRef(NoSpace, MemUnspecified, e.srcBlock), MemoryRef(NoSpace, MemUnspecified, e.dstBlock),
         [Extent(e.srcOffset, e.dstOffset, e.size, e.srcStride, e.dstStride, e.count)],
         e.dstPeer, e.dstShard, e.poolGroup, rank, e.layerIdx)
  }

  predicate Lowerable(m: Move) {
    |m.extents| == 1 && FitsInt32(m.src.blockId) && FitsInt32(m.dst.blockId)
  }

  function ToEntry(m: Move): Entry
    requires Lowerable(m)
  {
    var x := m.extents[0];
    Entry(m.dstPeer, m.dstShard, x.dstOffset, x.srcOffset, x.size, m.src.blockId, m.dst.blockId,
          x.srcStride, x.dstStride, x.count, m.layerIdx, m.group)
  }

  /** A move as compilation writes it: addressed by block id alone. */
  function Canonical(m: Move): Move {
    m.(src := MemoryRef(NoSpace, MemUnspecified, m.src.blockId),
       dst := MemoryRef(NoSpace, MemUnspecified, m.dst.blockId))
  }

  lemma MoveRoundTrip(rank: int32, e: Entry)
    ensures Lowerable(ToMove(rank, e)) && ToEntry(ToMove(rank, e)) == e
  {
  }

  lemma EntryRoundTrip(m: Move)
    requires Lowerable(m)
    ensures ToMove(m.rank, ToEntry(m)) == Canonical(m)
  {
    assert m.extents == [m.extents[0]];
  }

  lemma UuidRoundTrip(x: int64, y: uint64)
    ensures ToSigned(ToUnsigned(x)) == x && ToUnsigned(ToSigned(y)) == y
  {
  }

  // -------------------------------------------------------------- sorted ranks

  ghost predicate Ascending(s: seq<int32>) {
    forall i, j | 0 <= i < j < |s| :: s[i] < s[j]
  }

  ghost predicate Lists(s: seq<int32>, keys: set<int32>) {
    Ascending(s) && forall x :: x in s <==> x in keys
  }

  lemma {:induction false} ListsUnique(a: seq<int32>, b: seq<int32>, keys: set<int32>)
    requires Lists(a, keys) && Lists(b, keys)
    ensures a == b
    decreases |a|
  {
    assert b != [] ==> b[0] in b && b[0] in keys;
    if a != [] {
      assert a[0] in a && a[0] in b;
      assert b[0] in b && b[0] in a;
      assert a[0] == b[0];
      assert a == [a[0]] + a[1..] && b == [b[0]] + b[1..];
      ListsUnique(a[1..], b[1..], keys - {a[0]});
    }
  }

  lemma NonEmptyHas(s: set<int32>)
    requires s != {}
    ensures exists x :: x in s
  {
    if forall x :: x !in s {
      assert false;
    }
  }

  lemma Inserted(s: seq<int32>, i: nat, x: int32)
    requires Ascending(s) && i <= |s| && (i > 0 ==> s[i - 1] < x) && (i < |s| ==> x < s[i])
    ensures Ascending(s[..i] + [x] + s[i..])
  {
    var r := s[..i] + [x] + s[i..];
    forall a, b | 0 <= a < b < |r| ensures r[a] < r[b] {
      var u, v := if a < i then a else a - 1, if b <= i then b else b - 1;
      assert a == i || r[a] == s[u];
      assert b == i || r[b] == s[v];
    }
  }

  method InsertKey(s: seq<int32>, x: int32, ghost keys: set<int32>) returns (r: seq<int32>)
    requires Lists(s, keys) && x !in keys
    ensures Lists(r, keys + {x})
  {
    var i := |s|;
    while i > 0 && s[i - 1] > x
      invariant 0 <= i <= |s| && (i < |s| ==> s[i] > x)
    {
      i := i - 1;
    }
    assert s == s[..i] + s[i..];
    assert i > 0 ==> s[i - 1] in s;
    Inserted(s, i, x);
    r := s[..i] + [x] + s[i..];
    forall y ensures y in r <==> y in keys + {x} {
      assert y in s <==> y in s[..i] || y in s[i..];
    }
  }

  /** The keys in ascending order, collected in whatever order the map iterates. */
  method SortKeys(keys: set<int32>) returns (r: seq<int32>)
    ensures Lists(r, keys)
  {
    r := [];
    var todo := keys;
    while todo != {}
      invariant todo <= keys && Lists(r, keys - todo)
      decreases |todo|
    {
      NonEmptyHas(todo);
      var x :| x in todo;
      r := InsertKey(r, x, keys - todo);
      assert keys - todo + {x} == keys - (todo - {x});
      todo := todo - {x};
    }
  }

  // ------------------------------------------------------- compile and lower

  function MovesOf(rank: int32, entries: seq<Entry>): seq<Move> {
    if entries == [] then [] else MovesOf(rank, entries[..|entries| - 1]) + [ToMove(rank, entries[|entries| - 1])]
  }

  /** The schedules laid out rank by rank in the given order. */
  function Flatten(schedules: map<int32, seq<Entry>>, ranks: seq<int32>): seq<Move>
    requires forall k | k in ranks :: k in schedules
  {
    if ranks == [] then []
    else
      var k := ranks[|ranks| - 1];
      Flatten(schedules, ranks[..|ranks| - 1]) + MovesOf(k, schedules[k])
  }

  predicate HasPoolFields(r: StartTransferRequest) {
    r.transferPools != [] || r.poolGroups != []
  }

  function FanInGroups(groups: seq<PoolGroup>): seq<FanInGroup> {
    seq(|groups|, i requires 0 <= i < |groups| => ToFanIn(groups[i]))
  }

  function PoolGroups(groups: seq<FanInGroup>): seq<PoolGroup> {
    seq(|groups|, i requires 0 <= i < |groups| => ToPoolGroup(groups[i]))
  }

  /** The program of a request, given its moves. */
  function ProgramOf(r: StartTransferRequest, moves: seq<Move>): Program {
    Program(
      Envelope(ToUnsigned(r.uuid), r.reqId, PoolReshard, if r.isSender then Sender else ReceiverArm, "", 0),
      moves,
      FanIn(FanInGroups(r.poolGroups), r.expectedBlockCount),
      Policy(r.parallelism, r.skipD2h, r.skipTiling, r.dstMemType, r.useBlockChunks),
      Reshard(r.srcUnits, r.dstUnits, r.transferPools, r.poolDtypeTags))
  }

  /** The request compiles to this program. */
  ghost predicate Compiles(r: StartTransferRequest, p: Program) {
    HasPoolFields(r) && exists ranks :: Lists(ranks, r.schedules.Keys) && p == ProgramOf(r, Flatten(r.schedules, ranks))
  }

  /** What a request and its program say in common besides the moves, field by field. */
  ghost predicate FieldsCarried(r: StartTransferRequest, p: Program) {
    && p.completion.FanIn? && p.completion.expectedBlockCount == r.expectedBlockCount
    && (p.envelope.uuid - r.uuid) % 0x1_0000_0000_0000_0000 == 0 && p.envelope.reqId == r.reqId
    && (r.isSender <==> p.envelope.role.Sender?)
    && p.policy.parallelism == r.parallelism && p.policy.skipD2h == r.skipD2h && p.policy.skipTiling == r.skipTiling
    && p.policy.dstMemType == r.dstMemType && p.policy.useBlockChunks == r.useBlockChunks
    && p.reshard.srcUnits == r.srcUnits && p.reshard.dstUnits == r.dstUnits
    && p.reshard.pools == r.transferPools && p.reshard.dtypeTags == r.poolDtypeTags
    && |p.completion.groups| == |r.poolGroups|
    && forall i | 0 <= i < |r.poolGroups| ::
         var a, b := r.poolGroups[i], p.completion.groups[i];
         && b.pools == a.poolIndices && b.blockIds == a.dstBlockIds && b.pushes == a.expectedPushes
         && b.extentBytes == a.extents && b.uploadRank == a.orderRank
  }

  lemma CarriedByProgram(r: StartTransferRequest, moves: seq<Move>)
    ensures FieldsCarried(r, ProgramOf(r, moves))
  {
  }

  /** The two inner loops: rank by rank, entry by entry. */
  method FlattenSchedules(schedules: map<int32, seq<Entry>>, ranks: seq<int32>) returns (moves: seq<Move>)
    requires forall k | k in ranks :: k in schedules
    ensures moves == Flatten(schedules, ranks)
  {
    moves := [];
    for i := 0 to |ranks|
      invariant moves == Flatten(schedules, ranks[..i])
    {
      assert ranks[..i + 1][..i] == ranks[..i];
      var k := ranks[i];
      assert k in ranks;
      var entries := schedules[k];
      for j := 0 to |entries|
        invariant moves == Flatten(schedules, ranks[..i]) + MovesOf(k, entries[..j])
      {
        assert entries[..j + 1][..j] == entries[..j];
        moves := moves + [ToMove(k, entries[j])];
      }
      assert entries[..|entries|] == entries;
    }
    assert ranks[..|ranks|] == ranks;
  }

  method CompileStartTransfer(r: StartTransferRequest) returns (p: Result<Program>)
    ensures p.Ok? <==> HasPoolFields(r)
    ensures p.Err? ==> p.code == InvalidArgument
    ensures p.Ok? ==> Compiles(r, p.value) && FieldsCarried(r, p.value)
  {
    if !HasPoolFields(r) {
      return Err(InvalidArgument);
    }
    var groups: seq<FanInGroup> := [];
    for i := 0 to |r.poolGroups|
      invariant groups == FanInGroups(r.poolGroups)[..i]
    {
      var g := r.poolGroups[i];
      groups := groups + [FanInGroup(g.poolIndices, g.dstBlockIds, g.expectedPushes, g.extents, g.orderRank)];
    }
    var ranks := SortKeys(r.schedules.Keys);
    var moves := FlattenSchedules(r.schedules, ranks);
    assert groups == FanInGroups(r.poolGroups);
    CarriedByProgram(r, moves);
    p := Ok(ProgramOf(r, moves));
  }

  function AddMove(schedules: map<int32, seq<Entry>>, m: Move): map<int32, seq<Entry>>
    requires Lowerable(m)
  {
    schedules[m.rank := (if m.rank in schedules then schedules[m.rank] else []) + [ToEntry(m)]]
  }

  predicate AllLowerable(moves: seq<Move>) {
    forall i | 0 <= i < |moves| :: Lowerable(moves[i])
  }

  function Schedules(moves: seq<Move>): map<int32, seq<Entry>>
    requires AllLowerable(moves)
  {
    if moves == [] then map[] else AddMove(Schedules(moves[..|moves| - 1]), moves[|moves| - 1])
  }

  predicate CanLower(p: Program) {
    p.completion.FanIn? && AllLowerable(p.moves)
  }

  /** The request of a program, given its schedules. */
  function RequestOf(p: Program, schedules: map<int32, seq<Entry>>): StartTransferRequest
    requires p.completion.FanIn?
  {
    StartTransferRequest(
      p.reshard.srcUnits, p.reshard.dstUnits, schedules,
      ToSigned(p.envelope.uuid), p.envelope.role.Sender?, p.policy.dstMemType, p.policy.useBlockChunks,
      p.completion.expectedBlockCount, p.envelope.reqId, p.reshard.dtypeTags,
      p.reshard.pools, p.policy.parallelism, p.policy.skipD2h,
      PoolGroups(p.completion.groups), p.policy.skipTiling, map[])
  }

  function Lowered(p: Program): StartTransferRequest
    requires CanLower(p)
  {
    RequestOf(p, Schedules(p.moves))
  }

  lemma CarriedByRequest(p: Program, schedules: map<int32, seq<Entry>>)
    requires p.completion.FanIn?
    ensures FieldsCarried(RequestOf(p, schedules), p)
  {
  }

  method LowerToStartTransfer(p: Program) returns (r: Result<StartTransferRequest>)
    ensures r.Ok? <==> CanLower(p)
    ensures r.Err? ==> r.code == InvalidArgument
    ensures r.Ok? ==> r.value == Lowered(p) && FieldsCarried(r.value, p)
  {
    if !p.completion.FanIn? {
      return Err(InvalidArgument);
    }
    var groups: seq<PoolGroup> := [];
    for i := 0 to |p.completion.groups|
      invariant groups == PoolGroups(p.completion.groups)[..i]
    {
      var g := p.completion.groups[i];
      groups := groups + [PoolGroup(g.pools, g.blockIds, g.pushes, g.extentBytes, g.uploadRank)];
    }
    var schedules: map<int32, seq<Entry>> := map[];
    for i := 0 to |p.moves|
      invariant AllLowerable(p.moves[..i]) && schedules == Schedules(p.moves[..i])
    {
      assert p.moves[..i + 1][..i] == p.moves[..i];
      var m := p.moves[i];
      if |m.extents| != 1 || !FitsInt32(m.src.blockId) || !FitsInt32(m.dst.blockId) {
        return Err(InvalidArgument);
      }
      schedules := AddMove(schedules, m);
    }
    assert p.moves[..|p.moves|] == p.moves;
    assert groups == PoolGroups(p.completion.groups);
    CarriedByRequest(p, schedules);
    r := Ok(RequestOf(p, schedules));
  }

  // -------------------------------------------------------------- stable sorting

  /** The moves of one rank, in order. */
  function OfRank(moves: seq<Move>, k: int): seq<Move> {
    if moves == [] then []
    else
      var rest, last := OfRank(moves[..|moves| - 1], k), moves[|moves| - 1];
      if last.rank == k then rest + [last] else rest
  }

  ghost predicate RankSorted(moves: seq<Move>) {
    forall i, j | 0 <= i < j < |moves| :: moves[i].rank <= moves[j].rank
  }

  ghost predicate IsStableSort(out: seq<Move>, moves: seq<Move>) {
    RankSorted(out) && forall k :: OfRank(out, k) == OfRank(moves, k)
  }

  lemma OfRankSnoc(moves: seq<Move>, m: Move, k: int)
    ensures OfRank(moves + [m], k) == if m.rank == k then OfRank(moves, k) + [m] else OfRank(moves, k)
  {
    assert (moves + [m])[..|moves|] == moves;
  }

  lemma {:induction false} OfRankConcat(a: seq<Move>, b: seq<Move>, k: int)
    ensures OfRank(a + b, k) == OfRank(a, k) + OfRank(b, k)
  {
    if b == [] {
      assert a + b == a;
    } else {
      var n := |b| - 1;
      assert (a + b)[..|a + b| - 1] == a + b[..n];
      OfRankConcat(a, b[..n], k);
    }
  }

  lemma {:induction false} OfRankHas(moves: seq<Move>, k: int)
    ensures OfRank(moves, k) != [] <==> exists i :: 0 <= i < |moves| && moves[i].rank == k
  {
    if moves != [] {
      var n := |moves| - 1;
      OfRankHas(moves[..n], k);
      if OfRank(moves[..n], k) != [] {
        var i :| 0 <= i < n && moves[..n][i].rank == k;
        assert moves[i].rank == k;
      }
      assert forall i | 0 <= i < n :: moves[..n][i] == moves[i];
    }
  }

  lemma SameNonEmpty(a: seq<Move>, b: seq<Move>)
    requires a != [] && forall k :: OfRank(a, k) == OfRank(b, k)
    ensures b != []
  {
    OfRankHas(a, a[0].rank);
    assert OfRank(a, a[0].rank) == OfRank(b, a[0].rank);
  }

  lemma SameFront(a: seq<Move>, b: seq<Move>, k: int)
    requires a != [] && b != [] && a[|a| - 1] == b[|b| - 1] && OfRank(a, k) == OfRank(b, k)
    ensures OfRank(a[..|a| - 1], k) == OfRank(b[..|b| - 1], k)
  {
    if a[|a| - 1].rank == k {
      assert OfRank(a, k)[..|OfRank(a, k)| - 1] == OfRank(a[..|a| - 1], k);
      assert OfRank(b, k)[..|OfRank(b, k)| - 1] == OfRank(b[..|b| - 1], k);
    }
  }

  /** A stable sort is unique. */
  lemma {:induction false} StableSortUnique(a: seq<Move>, b: seq<Move>)
    requires RankSorted(a) && RankSorted(b) && forall k :: OfRank(a, k) == OfRank(b, k)
    ensures a == b
    decreases |a|
  {
    if b != [] {
      SameNonEmpty(b, a);
    }
    if a != [] {
      SameNonEmpty(a, b);
      var n, m := |a| - 1, |b| - 1;
      SameLast(a, b);
      forall c ensures OfRank(a[..n], c) == OfRank(b[..m], c) {
        SameFront(a, b, c);
      }
      StableSortUnique(a[..n], b[..m]);
      assert a == a[..n] + [a[n]] && b == b[..m] + [b[m]];
    }
  }

  lemma SameLast(a: seq<Move>, b: seq<Move>)
    requires RankSorted(a) && RankSorted(b) && a != [] && b != [] && forall k :: OfRank(a, k) == OfRank(b, k)
    ensures a[|a| - 1] == b[|b| - 1]
  {
    LastRank(a, b);
    LastRank(b, a);
    var n, m := |a| - 1, |b| - 1;
    var k := a[n].rank;
    var x, y := OfRank(a[..n], k), OfRank(b[..m], k);
    assert OfRank(a, k) == x + [a[n]];
    assert OfRank(b, k) == y + [b[m]];
    assert (x + [a[n]])[|x|] == (y + [b[m]])[|y|];
  }

  lemma LastRank(a: seq<Move>, b: seq<Move>)
    requires RankSorted(b) && a != [] && b != [] && forall k :: OfRank(a, k) == OfRank(b, k)
    ensures a[|a| - 1].rank <= b[|b| - 1].rank
  {
    var k := a[|a| - 1].rank;
    OfRankHas(a, k);
    OfRankHas(b, k);
    assert a[|a| - 1].rank == k;
    assert OfRank(b, k) != [] by {
      assert OfRank(a, k) == OfRank(b, k);
    }
    var i :| 0 <= i < |b| && b[i].rank == k;
  }

  /** Insertion keeps a move behind the equal ranks that came before it. */
  function InsertMove(sorted: seq<Move>, m: Move): seq<Move> {
    if sorted == [] || sorted[|sorted| - 1].rank <= m.rank then sorted + [m]
    else InsertMove(sorted[..|sorted| - 1], m) + [sorted[|sorted| - 1]]
  }

  function StableSort(moves: seq<Move>): seq<Move> {
    if moves == [] then [] else InsertMove(StableSort(moves[..|moves| - 1]), moves[|moves| - 1])
  }

  ghost predicate RanksUpTo(moves: seq<Move>, bound: int) {
    forall i | 0 <= i < |moves| :: moves[i].rank <= bound
  }

  lemma {:induction false} InsertMoveSorted(sorted: seq<Move>, m: Move, bound: int)
    requires RankSorted(sorted)
    ensures RankSorted(InsertMove(sorted, m))
    ensures RanksUpTo(sorted, bound) && m.rank <= bound ==> RanksUpTo(InsertMove(sorted, m), bound)
  {
    if sorted != [] && sorted[|sorted| - 1].rank > m.rank {
      var n := |sorted| - 1;
      InsertMoveSorted(sorted[..n], m, sorted[n].rank);
      InsertMoveSorted(sorted[..n], m, bound);
    }
  }

  lemma {:induction false} InsertMoveExact(sorted: seq<Move>, m: Move, k: int)
    requires RankSorted(sorted)
    ensures OfRank(InsertMove(sorted, m), k) == if m.rank == k then OfRank(sorted, k) + [m] else OfRank(sorted, k)
  {
    if sorted != [] && sorted[|sorted| - 1].rank > m.rank {
      var n := |sorted| - 1;
      var front, last := sorted[..n], sorted[n];
      var rest := InsertMove(front, m);
      InsertMoveExact(front, m, k);
      OfRankSnoc(rest, last, k);
      assert sorted == front + [last];
      OfRankSnoc(front, last, k);
      if k == m.rank {
        assert OfRank(rest + [last], k) == OfRank(front, k) + [m];
      } else {
        assert OfRank(rest, k) == OfRank(front, k);
      }
    } else {
      OfRankSnoc(sorted, m, k);
    }
  }

  lemma {:induction false} StableSortIs(moves: seq<Move>)
    ensures IsStableSort(StableSort(moves), moves)
  {
    if moves != [] {
      var n := |moves| - 1;
      StableSortIs(moves[..n]);
      InsertMoveSorted(StableSort(moves[..n]), moves[n], 0);
      forall k ensures OfRank(StableSort(moves), k) == OfRank(moves, k) {
        InsertMoveExact(StableSort(moves[..n]), moves[n], k);
      }
    }
  }

  // --------------------------------------------------------------- what lowering keeps

  /** Lowering groups the moves by rank, in order, and names no rank without a move. */
  lemma {:induction false} SchedulesExact(moves: seq<Move>, k: int32)
    requires AllLowerable(moves)
    ensures AllLowerable(OfRank(moves, k))
    ensures k in Schedules(moves) <==> OfRank(moves, k) != []
    ensures k in Schedules(moves) ==> MovesOf(k, Schedules(moves)[k]) == CanonicalAll(OfRank(moves, k))
  {
    if moves != [] {
      var n := |moves| - 1;
      SchedulesExact(moves[..n], k);
      if moves[n].rank == k {
        var before := if k in Schedules(moves[..n]) then Schedules(moves[..n])[k] else [];
        EntryRoundTrip(moves[n]);
        assert (before + [ToEntry(moves[n])])[..|before|] == before;
        CanonicalSnoc(OfRank(moves[..n], k), moves[n]);
      }
    }
  }

  function CanonicalAll(moves: seq<Move>): seq<Move> {
    if moves == [] then [] else CanonicalAll(moves[..|moves| - 1]) + [Canonical(moves[|moves| - 1])]
  }

  lemma CanonicalSnoc(moves: seq<Move>, m: Move)
    ensures CanonicalAll(moves + [m]) == CanonicalAll(moves) + [Canonical(m)]
  {
    assert (moves + [m])[..|moves|] == moves;
  }

  lemma {:induction false} CanonicalOfRank(moves: seq<Move>, k: int)
    ensures OfRank(CanonicalAll(moves), k) == CanonicalAll(OfRank(moves, k))
  {
    if moves != [] {
      var n := |moves| - 1;
      CanonicalOfRank(moves[..n], k);
      OfRankSnoc(CanonicalAll(moves[..n]), Canonical(moves[n]), k);
      CanonicalSnoc(OfRank(moves[..n], k), moves[n]);
    }
  }

  lemma {:induction false} MovesOfRank(rank: int32, entries: seq<Entry>, k: int)
    ensures OfRank(MovesOf(rank, entries), k) == if rank == k then MovesOf(rank, entries) else []
    ensures |MovesOf(rank, entries)| == |entries| && forall i | 0 <= i < |entries| ::
            MovesOf(rank, entries)[i] == ToMove(rank, entries[i])
  {
    if entries != [] {
      var n := |entries| - 1;
      MovesOfRank(rank, entries[..n], k);
      var before := MovesOf(rank, entries[..n]);
      assert (before + [ToMove(rank, entries[n])])[..n] == before;
    }
  }

  lemma {:induction false} FlattenSorted(schedules: map<int32, seq<Entry>>, ranks: seq<int32>)
    requires Ascending(ranks) && forall x | x in ranks :: x in schedules
    ensures RankSorted(Flatten(schedules, ranks))
    ensures forall i | 0 <= i < |Flatten(schedules, ranks)| :: Flatten(schedules, ranks)[i].rank in ranks
  {
    if ranks != [] {
      var n := |ranks| - 1;
      FlattenSorted(schedules, ranks[..n]);
      assert ranks == ranks[..n] + [ranks[n]];
      var before := Flatten(schedules, ranks[..n]);
      MovesOfRank(ranks[n], schedules[ranks[n]], 0);
      forall i | 0 <= i < |before| ensures before[i].rank < ranks[n] {
        assert before[i].rank in ranks[..n];
      }
    }
  }

  /** The laid-out moves of one rank are that rank's entries in order. */
  lemma {:induction false} FlattenOfRank(schedules: map<int32, seq<Entry>>, ranks: seq<int32>, k: int)
    requires Ascending(ranks) && forall x | x in ranks :: x in schedules
    ensures k in ranks ==> OfRank(Flatten(schedules, ranks), k) == MovesOf(k, schedules[k])
    ensures k !in ranks ==> OfRank(Flatten(schedules, ranks), k) == []
  {
    if ranks != [] {
      var n := |ranks| - 1;
      var last := ranks[n];
      var before, mine := Flatten(schedules, ranks[..n]), MovesOf(last, schedules[last]);
      FlattenOfRank(schedules, ranks[..n], k);
      assert ranks == ranks[..n] + [last];
      assert last !in ranks[..n];
      MovesOfRank(last, schedules[last], k);
      OfRankConcat(before, mine, k);
      if k == last {
        assert OfRank(before, k) == [] && [] + mine == mine;
      } else {
        assert OfRank(mine, k) == [] && OfRank(before, k) + [] == OfRank(before, k);
      }
    }
  }

  // ----------------------------------------------------------------- theorems

  /** The request with its empty schedules dropped. */
  function WithoutEmpty(schedules: map<int32, seq<Entry>>): map<int32, seq<Entry>> {
    map k | k in schedules && schedules[k] != [] :: schedules[k]
  }

  lemma {:induction false} FlattenLowerable(schedules: map<int32, seq<Entry>>, ranks: seq<int32>)
    requires forall x | x in ranks :: x in schedules
    ensures AllLowerable(Flatten(schedules, ranks))
  {
    if ranks != [] {
      var n := |ranks| - 1;
      FlattenLowerable(schedules, ranks[..n]);
      MovesOfRank(ranks[n], schedules[ranks[n]], 0);
    }
  }

  lemma {:induction false} CanonicalMoves(rank: int32, entries: seq<Entry>)
    ensures CanonicalAll(MovesOf(rank, entries)) == MovesOf(rank, entries)
  {
    if entries != [] {
      var n := |entries| - 1;
      CanonicalMoves(rank, entries[..n]);
      CanonicalSnoc(MovesOf(rank, entries[..n]), ToMove(rank, entries[n]));
    }
  }

  lemma MovesInjective(rank: int32, a: seq<Entry>, b: seq<Entry>)
    requires MovesOf(rank, a) == MovesOf(rank, b)
    ensures a == b
  {
    MovesOfRank(rank, a, 0);
    MovesOfRank(rank, b, 0);
    forall i | 0 <= i < |a| ensures a[i] == b[i] {
      MoveRoundTrip(rank, a[i]);
      MoveRoundTrip(rank, b[i]);
      assert MovesOf(rank, a)[i] == ToMove(rank, a[i]) && MovesOf(rank, b)[i] == ToMove(rank, b[i]);
    }
  }

  /** Grouping the laid-out moves by rank gives the schedules back, without the empty ones. */
  lemma SchedulesOfFlatten(schedules: map<int32, seq<Entry>>, ranks: seq<int32>)
    requires Lists(ranks, schedules.Keys)
    ensures AllLowerable(Flatten(schedules, ranks))
    ensures Schedules(Flatten(schedules, ranks)) == WithoutEmpty(schedules)
  {
    FlattenLowerable(schedules, ranks);
    var moves := Flatten(schedules, ranks);
    var s, w := Schedules(moves), WithoutEmpty(schedules);
    forall k: int32 ensures k in s <==> k in w {
      SchedulesExact(moves, k);
      FlattenOfRank(schedules, ranks, k);
      if k in schedules {
        MovesOfRank(k, schedules[k], 0);
      }
    }
    assert s.Keys == w.Keys;
    forall k | k in w ensures s[k] == w[k] {
      SchedulesExact(moves, k);
      FlattenOfRank(schedules, ranks, k);
      CanonicalMoves(k, schedules[k]);
      MovesInjective(k, s[k], schedules[k]);
    }
  }

  /** Lowering a compiled request returns it without its empty schedules and its layer chunk counts. */
  lemma LowerCompile(r: StartTransferRequest, p: Program)
    requires Compiles(r, p)
    ensures CanLower(p)
    ensures Lowered(p) == r.(schedules := WithoutEmpty(r.schedules), expectedLayerChunkCounts := map[])
  {
    var ranks :| Lists(ranks, r.schedules.Keys) && p == ProgramOf(r, Flatten(r.schedules, ranks));
    SchedulesOfFlatten(r.schedules, ranks);
    RequestOfProgram(r, Flatten(r.schedules, ranks), WithoutEmpty(r.schedules));
  }

  /** Every field of a request but its schedules, through the program and back. */
  lemma RequestOfProgram(r: StartTransferRequest, moves: seq<Move>, schedules: map<int32, seq<Entry>>)
    ensures RequestOf(ProgramOf(r, moves), schedules) == r.(schedules := schedules, expectedLayerChunkCounts := map[])
  {
    UuidRoundTrip(r.uuid, 0);
    assert PoolGroups(FanInGroups(r.poolGroups)) == r.poolGroups;
  }

  /** So the request comes back unchanged exactly when no schedule is empty and it carries no layer chunk counts. */
  lemma LowerCompileSame(r: StartTransferRequest, p: Program)
    requires Compiles(r, p)
    ensures CanLower(p)
    ensures Lowered(p) == r
       <==> (r.expectedLayerChunkCounts == map[] && forall k | k in r.schedules :: r.schedules[k] != [])
  {
    LowerCompile(r, p);
    if forall k | k in r.schedules :: r.schedules[k] != [] {
      assert WithoutEmpty(r.schedules) == r.schedules;
    } else {
      var k :| k in r.schedules && r.schedules[k] == [];
      assert k !in WithoutEmpty(r.schedules);
    }
  }

  /** A request that loses its layer chunk counts on the way, though it has no schedule at all. */
  lemma ChunkCountsLost() returns (r: StartTransferRequest, p: Program)
    ensures Compiles(r, p) && r.schedules == map[] && CanLower(p) && Lowered(p) != r
  {
    r := StartTransferRequest([], [], map[], 1, true, Dram, false, 0, "", [], [0], 1, None, [], map[], map[0 := 1]);
    p := ProgramOf(r, []);
    assert Lists([], r.schedules.Keys) && Flatten(r.schedules, []) == [];
    LowerCompileSame(r, p);
    assert 0 in r.expectedLayerChunkCounts;
  }

  /** A request compiles to one program only, whatever order its map iterates in. */
  lemma CompilesUnique(r: StartTransferRequest, p: Program, q: Program)
    requires Compiles(r, p) && Compiles(r, q)
    ensures p == q
  {
    var a :| Lists(a, r.schedules.Keys) && p == ProgramOf(r, Flatten(r.schedules, a));
    var b :| Lists(b, r.schedules.Keys) && q == ProgramOf(r, Flatten(r.schedules, b));
    ListsUnique(a, b, r.schedules.Keys);
  }

  /** What the round trip through a request makes of a program. */
  function Canonicalized(p: Program): Program {
    p.(envelope := p.envelope.(kind := PoolReshard, fingerprint := "", deadlineMs := 0,
                               role := if p.envelope.role.Sender? then Sender else ReceiverArm),
       moves := StableSort(CanonicalAll(p.moves)))
  }

  /** Laying out the grouped moves is a stable sort by rank. */
  lemma FlattenOfSchedules(moves: seq<Move>, ranks: seq<int32>)
    requires AllLowerable(moves) && Lists(ranks, Schedules(moves).Keys)
    ensures Flatten(Schedules(moves), ranks) == StableSort(CanonicalAll(moves))
  {
    var s, canon := Schedules(moves), CanonicalAll(moves);
    var out := Flatten(s, ranks);
    FlattenSorted(s, ranks);
    StableSortIs(canon);
    forall k ensures OfRank(out, k) == OfRank(StableSort(canon), k) {
      CanonicalOfRank(moves, k);
      FlattenOfRank(s, ranks, k);
      OfRankHas(moves, k);
      if exists i :: 0 <= i < |moves| && moves[i].rank == k {
        var i :| 0 <= i < |moves| && moves[i].rank == k;
        SchedulesExact(moves, moves[i].rank);
      } else {
        NotScheduled(moves, k);
      }
    }
    StableSortUnique(out, StableSort(canon));
  }

  lemma {:induction false} NotScheduled(moves: seq<Move>, k: int)
    requires AllLowerable(moves) && forall i | 0 <= i < |moves| :: moves[i].rank != k
    ensures forall c | c in Schedules(moves) :: c != k
  {
    if moves != [] {
      NotScheduled(moves[..|moves| - 1], k);
    }
  }

  /** Compiling a lowered program sorts its moves stably by source rank and resets what the request cannot carry. */
  lemma CompileLower(p: Program, q: Program)
    requires CanLower(p) && Compiles(Lowered(p), q)
    ensures q == Canonicalized(p)
  {
    var r := Lowered(p);
    var ranks :| Lists(ranks, r.schedules.Keys) && q == ProgramOf(r, Flatten(r.schedules, ranks));
    FlattenOfSchedules(p.moves, ranks);
    ProgramOfRequest(p, r.schedules, Flatten(r.schedules, ranks));
  }

  /** Every field of a program but its moves, through the request and back. */
  lemma ProgramOfRequest(p: Program, schedules: map<int32, seq<Entry>>, moves: seq<Move>)
    requires p.completion.FanIn?
    ensures ProgramOf(RequestOf(p, schedules), moves) == Canonicalized(p).(moves := moves)
  {
    UuidRoundTrip(0, p.envelope.uuid);
    assert FanInGroups(PoolGroups(p.completion.groups)) == p.completion.groups;
  }

  predicate MemTypesUnset(moves: seq<Move>) {
    forall i | 0 <= i < |moves| :: moves[i].src.memType.MemUnspecified? && moves[i].dst.memType.MemUnspecified?
  }

  lemma {:induction false} CanonicalSame(moves: seq<Move>)
    requires forall i | 0 <= i < |moves| :: moves[i].src.space.NoSpace? && moves[i].dst.space.NoSpace?
    ensures |CanonicalAll(moves)| == |moves|
    ensures CanonicalAll(moves) == moves <==> MemTypesUnset(moves)
  {
    if moves != [] {
      var n := |moves| - 1;
      CanonicalSame(moves[..n]);
      assert moves == moves[..n] + [moves[n]];
      var unset := moves[n].src.memType.MemUnspecified? && moves[n].dst.memType.MemUnspecified?;
      assert MemTypesUnset(moves) <==> MemTypesUnset(moves[..n]) && unset;
    }
  }

  lemma {:induction false} OfRankMember(moves: seq<Move>, i: nat)
    requires i < |moves|
    ensures moves[i] in OfRank(moves, moves[i].rank)
  {
    var n := |moves| - 1;
    if i < n {
      OfRankMember(moves[..n], i);
    }
  }

  lemma {:induction false} OfRankFrom(moves: seq<Move>, k: int)
    ensures forall m | m in OfRank(moves, k) :: m in moves
  {
    if moves != [] {
      OfRankFrom(moves[..|moves| - 1], k);
    }
  }

  lemma SortedSame(moves: seq<Move>)
    requires forall i | 0 <= i < |moves| :: moves[i].src.space.NoSpace? && moves[i].dst.space.NoSpace?
    ensures StableSort(CanonicalAll(moves)) == StableSort(moves) <==> MemTypesUnset(moves)
  {
    CanonicalSame(moves);
    StableSortIs(moves);
    StableSortIs(CanonicalAll(moves));
    if StableSort(CanonicalAll(moves)) == StableSort(moves) {
      forall i | 0 <= i < |moves| ensures moves[i].src.memType.MemUnspecified? && moves[i].dst.memType.MemUnspecified? {
        assert OfRank(CanonicalAll(moves), moves[i].rank) == OfRank(moves, moves[i].rank);
        UnsetAt(moves, i);
      }
    }
  }

  lemma UnsetAt(moves: seq<Move>, i: nat)
    requires forall j | 0 <= j < |moves| :: moves[j].src.space.NoSpace? && moves[j].dst.space.NoSpace?
    requires i < |moves| && OfRank(CanonicalAll(moves), moves[i].rank) == OfRank(moves, moves[i].rank)
    ensures moves[i].src.memType.MemUnspecified? && moves[i].dst.memType.MemUnspecified?
  {
    var k := moves[i].rank;
    var mine := OfRank(moves, k);
    OfRankMember(moves, i);
    OfRankFrom(moves, k);
    CanonicalOfRank(moves, k);
    assert forall j | 0 <= j < |mine| :: mine[j] in moves;
    CanonicalSame(mine);
  }

  /**
    A normal program comes back with its moves stably sorted by source rank and nothing else
    changed exactly when its kind is set and it carries no fingerprint, deadline or memory type.
   */
  lemma CompileLowerSame(p: Program, q: Program)
    requires Normal(p) && CanLower(p) && Compiles(Lowered(p), q)
    ensures q == p.(moves := StableSort(p.moves)) <==>
              p.envelope.kind.PoolReshard? && p.envelope.fingerprint == "" && p.envelope.deadlineMs == 0
                  && MemTypesUnset(p.moves)
  {
    CompileLower(p, q);
    assert forall i | 0 <= i < |p.moves| :: MoveOk(p.moves[i], |p.completion.groups|);
    SortedSame(p.moves);
  }

  /** A normal program whose block ids fit compiles back; one whose ids overflow is refused by lowering. */
  lemma NormalCompiles(p: Program)
    requires Normal(p)
    ensures CanLower(p) <==> forall i | 0 <= i < |p.moves| ::
            FitsInt32(p.moves[i].src.blockId) && FitsInt32(p.moves[i].dst.blockId)
    ensures CanLower(p) ==> HasPoolFields(Lowered(p))
  {
    assert forall i | 0 <= i < |p.moves| :: MoveOk(p.moves[i], |p.completion.groups|);
  }

  /** A normal program that comes back without its deadline. */
  lemma DeadlineLost() returns (p: Program, q: Program)
    ensures Normal(p) && p.envelope.kind.PoolReshard? && CanLower(p) && Compiles(Lowered(p), q)
    ensures q != p.(moves := StableSort(p.moves))
  {
    var at := MemoryRef(NoSpace, MemUnspecified, 0);
    var m := Move(at, at, [Extent(0, 0, 1, 0, 0, 1)], "peer", 0, None, 0, None);
    p := Program(Envelope(1, "", PoolReshard, Sender, "", 5), [m], FanIn([FanInGroup([0], [0], 1, [1], 0)], 1),
                 Policy(1, None, map[], Dram, false), Reshard([], [], [0], []));
    var r := Lowered(p);
    assert p.moves[..|p.moves| - 1] == [];
    assert Schedules(p.moves[..|p.moves| - 1]) == map[];
    var none: seq<Entry> := [];
    assert none + [ToEntry(m)] == [ToEntry(m)];
    assert AddMove(map[], m) == map[0 := [ToEntry(m)]];
    assert Schedules(p.moves) == map[0 := [ToEntry(m)]];
    assert Lists([0], r.schedules.Keys);
    q := ProgramOf(r, Flatten(r.schedules, [0]));
    CompileLowerSame(p, q);
  }

  /** The round trip is idempotent: a second one changes nothing. */
  lemma RoundTripIdempotent(p: Program, q: Program, q2: Program)
    requires CanLower(p) && Compiles(Lowered(p), q)
    requires CanLower(q) && Compiles(Lowered(q), q2)
    ensures q2 == q
  {
    var r := Lowered(p);
    NoEmptySchedule(p.moves);
    assert WithoutEmpty(r.schedules) == r.schedules;
    LowerCompile(r, q);
    assert Lowered(q) == r;
    CompilesUnique(r, q, q2);
  }

  lemma {:induction false} NoEmptySchedule(moves: seq<Move>)
    requires AllLowerable(moves)
    ensures forall k | k in Schedules(moves) :: Schedules(moves)[k] != []
  {
    if moves != [] {
      NoEmptySchedule(moves[..|moves| - 1]);
    }
  }

  // --------------------------------------------------------- derived block lists

  function SourceIds(entries: seq<Entry>): set<int32> {
    set i | 0 <= i < |entries| :: entries[i].srcBlock
  }

  lemma SourceIdsSnoc(entries: seq<Entry>, e: Entry)
    ensures SourceIds(entries + [e]) == SourceIds(entries) + {e.srcBlock}
  {
    forall x ensures x in SourceIds(entries + [e]) <==> x in SourceIds(entries) || x == e.srcBlock {
      if x in SourceIds(entries) {
        var i :| 0 <= i < |entries| && entries[i].srcBlock == x;
        assert (entries + [e])[i].srcBlock == x;
      }
      assert (entries + [e])[|entries|].srcBlock == e.srcBlock;
    }
  }

  function AllSourceIds(schedules: map<int32, seq<Entry>>): set<int32> {
    set k, i | k in schedules && 0 <= i < |schedules[k]| :: schedules[k][i].srcBlock
  }

  method DeriveSenderSourceBlockIds(r: StartTransferRequest) returns (ids: seq<int32>)
    ensures Lists(ids, AllSourceIds(r.schedules))
    ensures forall i, j | 0 <= i < j < |ids| :: ids[i] < ids[j]
    ensures forall x :: x in ids <==>
              exists k, i :: k in r.schedules && 0 <= i < |r.schedules[k]| && r.schedules[k][i].srcBlock == x
  {
    var found: set<int32> := {};
    var todo := r.schedules.Keys;
    while todo != {}
      invariant todo <= r.schedules.Keys
      invariant forall x :: x in found <==> exists k :: k in r.schedules.Keys - todo && x in SourceIds(r.schedules[k])
      decreases |todo|
    {
      NonEmptyHas(todo);
      var k :| k in todo;
      ghost var before := found;
      var entries := r.schedules[k];
      for i := 0 to |entries|
        invariant found == before + SourceIds(entries[..i])
      {
        assert entries[..i + 1] == entries[..i] + [entries[i]];
        SourceIdsSnoc(entries[..i], entries[i]);
        found := found + {entries[i].srcBlock};
      }
      assert entries[..|entries|] == entries;
      todo := todo - {k};
    }
    assert found == AllSourceIds(r.schedules);
    ids := SortKeys(found);
  }

  function ChipBlocks(groups: seq<PoolGroup>): seq<int64> {
    if groups == [] then [] else ChipBlocks(groups[..|groups| - 1]) + groups[|groups| - 1].dstBlockIds
  }

  method DeriveArmChipBlockIds(r: StartTransferRequest) returns (ids: seq<int64>)
    ensures ids == ChipBlocks(r.poolGroups)
  {
    ids := [];
    for i := 0 to |r.poolGroups|
      invariant ids == ChipBlocks(r.poolGroups[..i])
    {
      assert r.poolGroups[..i + 1][..i] == r.poolGroups[..i];
      ids := ids + r.poolGroups[i].dstBlockIds;
    }
    assert r.poolGroups[..|r.poolGroups|] == r.poolGroups;
  }

  /** The block lists derived from a request survive compiling and lowering it. */
  lemma DerivedInvariant(r: StartTransferRequest, p: Program, a: seq<int32>, b: seq<int32>)
    requires Compiles(r, p)
    ensures CanLower(p) && ChipBlocks(Lowered(p).poolGroups) == ChipBlocks(r.poolGroups)
    ensures Lists(a, AllSourceIds(r.schedules)) && Lists(b, AllSourceIds(Lowered(p).schedules)) ==> a == b
  {
    LowerCompile(r, p);
    var w := WithoutEmpty(r.schedules);
    assert AllSourceIds(w) == AllSourceIds(r.schedules) by {
      forall x ensures x in AllSourceIds(w) <==> x in AllSourceIds(r.schedules) {
        if x in AllSourceIds(r.schedules) {
          var k, i :| k in r.schedules && 0 <= i < |r.schedules[k]| && r.schedules[k][i].srcBlock == x;
          assert k in w && w[k] == r.schedules[k];
        }
      }
    }
    if Lists(a, AllSourceIds(r.schedules)) && Lists(b, AllSourceIds(Lowered(p).schedules)) {
      ListsUnique(a, b, AllSourceIds(w));
    }
  }

  // ------------------------------------------------------------ what is copied

  /** One byte sent from a block of a source rank to a block of a peer's shard. */
  datatype ByteCopy = ByteCopy(
    rank: int, peer: string, shard: int, group: Option<int32>, layer: Option<int32>,
    srcBlock: int, srcByte: int, dstBlock: int, dstByte: int)

  /** Byte `q` of repeat `c` of an entry. */
  ghost predicate EntryCopies(e: Entry, rank: int, b: ByteCopy, c: int, q: int) {
    && 0 <= c < e.count && 0 <= q < e.size
    && b.rank == rank && b.peer == e.dstPeer && b.shard == e.dstShard && b.group == e.poolGroup && b.layer == e.layerIdx
    && b.srcBlock == e.srcBlock && b.srcByte == e.srcOffset + c * e.srcStride + q
    && b.dstBlock == e.dstBlock && b.dstByte == e.dstOffset + c * e.dstStride + q
  }

  /** Byte `q` of repeat `c` of an extent of a move. */
  ghost predicate MoveCopies(m: Move, x: Extent, b: ByteCopy, c: int, q: int) {
    && 0 <= c < x.count && 0 <= q < x.size
    && b.rank == m.rank && b.peer == m.dstPeer && b.shard == m.dstShard && b.group == m.group && b.layer == m.layerIdx
    && b.srcBlock == m.src.blockId && b.srcByte == x.srcOffset + c * x.srcStride + q
    && b.dstBlock == m.dst.blockId && b.dstByte == x.dstOffset + c * x.dstStride + q
  }

  ghost predicate RequestCopies(schedules: map<int32, seq<Entry>>, b: ByteCopy) {
    exists k, i, c, q :: k in schedules && 0 <= i < |schedules[k]| && EntryCopies(schedules[k][i], k, b, c, q)
  }

  ghost predicate ProgramCopies(moves: seq<Move>, b: ByteCopy) {
    exists i, j, c, q ::
      0 <= i < |moves| && 0 <= j < |moves[i].extents| && MoveCopies(moves[i], moves[i].extents[j], b, c, q)
  }

  lemma MoveOfEntry(m: Move, b: ByteCopy, c: int, q: int)
    requires Lowerable(m)
    ensures MoveCopies(m, m.extents[0], b, c, q) <==> EntryCopies(ToEntry(m), m.rank, b, c, q)
  {
  }

  lemma {:induction false} ScheduledMoves(moves: seq<Move>, b: ByteCopy)
    requires AllLowerable(moves)
    ensures RequestCopies(Schedules(moves), b) <==> ProgramCopies(moves, b)
  {
    if moves != [] {
      var n := |moves| - 1;
      var front, m := moves[..n], moves[n];
      ScheduledMoves(front, b);
      AddedMove(Schedules(front), m, b);
      forall i, j, c, q
        | 0 <= i < |moves| && 0 <= j < |moves[i].extents| && MoveCopies(moves[i], moves[i].extents[j], b, c, q)
        ensures ProgramCopies(front, b) || MoveCopies(m, m.extents[0], b, c, q)
      {
        assert Lowerable(moves[i]);
        if i < n {
          assert MoveCopies(front[i], front[i].extents[j], b, c, q);
        }
      }
      if ProgramCopies(front, b) {
        var i, j, c, q :|
          0 <= i < |front| && 0 <= j < |front[i].extents| && MoveCopies(front[i], front[i].extents[j], b, c, q);
        assert MoveCopies(moves[i], moves[i].extents[j], b, c, q);
      }
      if exists c, q :: MoveCopies(m, m.extents[0], b, c, q) {
        var c, q :| MoveCopies(m, m.extents[0], b, c, q);
        assert MoveCopies(moves[n], moves[n].extents[0], b, c, q);
      }
    }
  }

  lemma AddedMove(schedules: map<int32, seq<Entry>>, m: Move, b: ByteCopy)
    requires Lowerable(m)
    ensures RequestCopies(AddMove(schedules, m), b)
       <==> RequestCopies(schedules, b) || exists c, q :: MoveCopies(m, m.extents[0], b, c, q)
  {
    var more, k := AddMove(schedules, m), m.rank;
    var before := if k in schedules then schedules[k] else [];
    assert more[k] == before + [ToEntry(m)];
    if RequestCopies(schedules, b) {
      var r, i, c, q :| r in schedules && 0 <= i < |schedules[r]| && EntryCopies(schedules[r][i], r, b, c, q);
      assert EntryCopies(more[r][i], r, b, c, q);
    }
    if exists c, q :: MoveCopies(m, m.extents[0], b, c, q) {
      var c, q :| MoveCopies(m, m.extents[0], b, c, q);
      MoveOfEntry(m, b, c, q);
      assert EntryCopies(more[k][|before|], k, b, c, q);
    }
    if RequestCopies(more, b) {
      var r, i, c, q :| r in more && 0 <= i < |more[r]| && EntryCopies(more[r][i], r, b, c, q);
      if r == k && i == |before| {
        MoveOfEntry(m, b, c, q);
      } else {
        assert EntryCopies(schedules[r][i], r, b, c, q);
      }
    }
  }

  /** Lowering keeps the meaning: the request copies exactly the bytes the program copies. */
  lemma LowerKeepsBytes(p: Program, b: ByteCopy)
    requires CanLower(p)
    ensures RequestCopies(Lowered(p).schedules, b) <==> ProgramCopies(p.moves, b)
  {
    ScheduledMoves(p.moves, b);
  }

  /** Compiling keeps the meaning: the program copies exactly the bytes the request copies. */
  lemma CompileKeepsBytes(r: StartTransferRequest, p: Program, b: ByteCopy)
    requires Compiles(r, p)
    ensures ProgramCopies(p.moves, b) <==> RequestCopies(r.schedules, b)
  {
    LowerCompile(r, p);
    LowerKeepsBytes(p, b);
    var kept := Lowered(p).schedules;
    if RequestCopies(r.schedules, b) {
      var k, i, c, q :| k in r.schedules && 0 <= i < |r.schedules[k]| && EntryCopies(r.schedules[k][i], k, b, c, q);
      assert k in kept && EntryCopies(kept[k][i], k, b, c, q);
    }
    if RequestCopies(kept, b) {
      var k, i, c, q :| k in kept && 0 <= i < |kept[k]| && EntryCopies(kept[k][i], k, b, c, q);
      assert k in r.schedules && EntryCopies(r.schedules[k][i], k, b, c, q);
    }
  }
}
