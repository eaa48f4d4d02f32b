/**
  The crash-persistent metadata table (tpu_sync/kv_cache/kv_cache_metadata.cc):
  one slot per host block, written store by store and committed by one byte, so
  that a crash between any two stores leaves every block's binding either whole
  or absent.
 */
module Metadata {
  import opened TransferTypes

  type Byte = b: int | 0 <= b < 256
  type Hash = seq<Byte>

  const MAX_HASH := 112
  const UID_BYTES := 64

  datatype Binding = Binding(hash: Hash, stamp: uint64)

  /** A slot; `hash` is a buffer of `MAX_HASH` bytes of which `hashLen` are in use. */
  datatype Slot = Slot(stamp: uint64, hashLen: nat, valid: Byte, hash: seq<Byte>)

  predicate SlotOk(s: Slot) {
    |s.hash| == MAX_HASH
  }

  ghost predicate SlotsOk(slots: seq<Slot>) {
    forall i | 0 <= i < |slots| :: SlotOk(slots[i])
  }

  /** What a reader of the slot sees. */
  function Seen(s: Slot): Option<Binding>
    requires SlotOk(s)
  {
    if s.valid == 0 || s.hashLen == 0 || s.hashLen > MAX_HASH then None
    else Some(Binding(s.hash[..s.hashLen], s.stamp))
  }

  function View(slots: seq<Slot>): (v: seq<Option<Binding>>)
    requires SlotsOk(slots)
  {
    seq(|slots|, i requires 0 <= i < |slots| => Seen(slots[i]))
  }

  // ------------------------------------------------------ individual stores

  datatype Store =
    | PutValid(value: Byte)
    | PutStamp(stamp: uint64)
    | PutLen(len: nat)
    | PutByte(at: nat, byte: Byte)

  datatype Op = Set(block: int, hash: Hash, stamp: uint64) | Clear(block: int)

  /** The argument checks of the operation. */
  predicate Accepted(op: Op, n: nat) {
    0 <= op.block < n && (op.Set? ==> 0 < |op.hash| <= MAX_HASH)
  }

  function ByteStores(hash: Hash, k: nat): seq<Store>
    requires k <= |hash|
  {
    seq(k, i requires 0 <= i < k => PutByte(i, hash[i]))
  }

  /** The stores of an accepted operation to its slot, in program order. */
  function Stores(op: Op): seq<Store> {
    match op
    case Set(_, hash, stamp) =>
      [PutValid(0), PutStamp(stamp), PutLen(|hash|)] + ByteStores(hash, |hash|) + [PutValid(1)]
    case Clear(_) => [PutValid(0)]
  }

  function Put(s: Slot, w: Store): Slot {
    match w
    case PutValid(v) => s.(valid := v)
    case PutStamp(stamp) => s.(stamp := stamp)
    case PutLen(len) => s.(hashLen := len)
    case PutByte(at, byte) => if at < |s.hash| then s.(hash := s.hash[at := byte]) else s
  }

  function PutAll(s: Slot, ws: seq<Store>): Slot {
    if ws == [] then s else Put(PutAll(s, ws[..|ws| - 1]), ws[|ws| - 1])
  }

  /** The table after the first `k` stores of a sequence of operations: a crash at that point. */
  function Crash(slots: seq<Slot>, ops: seq<Op>, k: nat): seq<Slot>
    decreases |ops|
  {
    if ops == [] then slots
    else if !Accepted(ops[0], |slots|) then Crash(slots, ops[1..], k)
    else
      var ws, b := Stores(ops[0]), ops[0].block;
      if k <= |ws| then slots[b := PutAll(slots[b], ws[..k])]
      else Crash(slots[b := PutAll(slots[b], ws)], ops[1..], k - |ws|)
  }

  // --------------------------------------------------- what a crash can leave

  function Outcome(op: Op): Option<Binding> {
    if op.Set? then Some(Binding(op.hash, op.stamp)) else None
  }

  /** An operation hides its block's binding with its first store and commits the new one with its last. */
  function Expected(v: seq<Option<Binding>>, ops: seq<Op>, k: nat): seq<Option<Binding>>
    decreases |ops|
  {
    if ops == [] || k == 0 then v
    else if !Accepted(ops[0], |v|) then Expected(v, ops[1..], k)
    else
      var n, b := |Stores(ops[0])|, ops[0].block;
      if k < n then v[b := None] else Expected(v[b := Outcome(ops[0])], ops[1..], k - n)
  }

  lemma {:induction false} PutAllSlotOk(s: Slot, ws: seq<Store>)
    requires SlotOk(s)
    ensures SlotOk(PutAll(s, ws))
  {
    if ws != [] {
      PutAllSlotOk(s, ws[..|ws| - 1]);
    }
  }

  lemma {:induction false} PutAllConcat(s: Slot, us: seq<Store>, ws: seq<Store>)
    ensures PutAll(s, us + ws) == PutAll(PutAll(s, us), ws)
  {
    if ws == [] {
      assert us + ws == us;
    } else {
      var n := |ws| - 1;
      assert (us + ws)[..|us + ws| - 1] == us + ws[..n];
      PutAllConcat(s, us, ws[..n]);
    }
  }

  /** While the commit byte is off and no store turns it on, a reader sees nothing. */
  lemma {:induction false} HiddenMidway(s: Slot, ws: seq<Store>)
    requires SlotOk(s) && ws != [] && ws[0] == PutValid(0)
    requires forall i | 1 <= i < |ws| :: !ws[i].PutValid?
    ensures SlotOk(PutAll(s, ws)) && PutAll(s, ws).valid == 0
  {
    PutAllSlotOk(s, ws);
    var n := |ws| - 1;
    if n > 0 {
      HiddenMidway(s, ws[..n]);
    } else {
      assert ws[..n] == [];
    }
  }

  lemma {:induction false} BytesWritten(s: Slot, hash: Hash, k: nat)
    requires SlotOk(s) && k <= |hash| <= MAX_HASH
    ensures var t := PutAll(s, ByteStores(hash, k));
            SlotOk(t) && t == s.(hash := t.hash) && t.hash[..k] == hash[..k]
  {
    if k > 0 {
      var ws := ByteStores(hash, k);
      assert ws[..k - 1] == ByteStores(hash, k - 1);
      BytesWritten(s, hash, k - 1);
      var u := PutAll(s, ByteStores(hash, k - 1));
      assert PutAll(s, ws) == Put(u, PutByte(k - 1, hash[k - 1]));
      assert u.hash[k - 1 := hash[k - 1]][..k] == u.hash[..k - 1] + [hash[k - 1]];
    }
  }

  lemma HeadWritten(s: Slot, stamp: uint64, len: nat)
    ensures PutAll(s, [PutValid(0), PutStamp(stamp), PutLen(len)]) == s.(valid := 0, stamp := stamp, hashLen := len)
  {
    var head := [PutValid(0), PutStamp(stamp), PutLen(len)];
    assert head[..2] == [PutValid(0), PutStamp(stamp)];
    assert [PutValid(0), PutStamp(stamp)][..1] == [PutValid(0)];
    assert [PutValid(0)][..0] == [];
    assert PutAll(s, [PutValid(0)]) == s.(valid := 0);
    assert PutAll(s, [PutValid(0), PutStamp(stamp)]) == s.(valid := 0, stamp := stamp);
  }

  /** A completed operation leaves exactly its outcome. */
  lemma Completed(s: Slot, op: Op, n: nat)
    requires SlotOk(s) && Accepted(op, n)
    ensures SlotOk(PutAll(s, Stores(op))) && Seen(PutAll(s, Stores(op))) == Outcome(op)
  {
    PutAllSlotOk(s, Stores(op));
    if op.Clear? {
      assert Stores(op)[..0] == [];
    } else {
      var head := [PutValid(0), PutStamp(op.stamp), PutLen(|op.hash|)];
      var bytes := ByteStores(op.hash, |op.hash|);
      HeadWritten(s, op.stamp, |op.hash|);
      var h := PutAll(s, head);
      assert h == s.(valid := 0, stamp := op.stamp, hashLen := |op.hash|);
      PutAllConcat(s, head, bytes);
      BytesWritten(h, op.hash, |op.hash|);
      PutAllConcat(s, head + bytes, [PutValid(1)]);
      var t := PutAll(h, bytes);
      assert [PutValid(1)][..0] == [];
      assert PutAll(t, [PutValid(1)]) == t.(valid := 1);
      assert op.hash[..|op.hash|] == op.hash;
    }
  }

  /** An operation cut short leaves nothing to see. */
  lemma CutShort(s: Slot, op: Op, k: nat)
    requires SlotOk(s) && 0 < k < |Stores(op)|
    ensures SlotOk(PutAll(s, Stores(op)[..k])) && Seen(PutAll(s, Stores(op)[..k])) == None
  {
    HiddenMidway(s, Stores(op)[..k]);
  }

  /** A crash after any number of stores: each operation took effect, did not, or left its block without a binding. */
  lemma {:induction false} CrashAtomic(slots: seq<Slot>, ops: seq<Op>, k: nat)
    requires SlotsOk(slots)
    ensures SlotsOk(Crash(slots, ops, k)) && |Crash(slots, ops, k)| == |slots|
    ensures View(Crash(slots, ops, k)) == Expected(View(slots), ops, k)
    decreases |ops|
  {
    if ops != [] {
      if !Accepted(ops[0], |slots|) {
        CrashAtomic(slots, ops[1..], k);
      } else {
        var ws, b := Stores(ops[0]), ops[0].block;
        assert ws[..0] == [] && ws[..|ws|] == ws;
        if 0 < k < |ws| {
          CutShort(slots[b], ops[0], k);
          ViewUpdate(slots, b, PutAll(slots[b], ws[..k]));
        } else if k >= |ws| {
          Completed(slots[b], ops[0], |slots|);
          ViewUpdate(slots, b, PutAll(slots[b], ws));
          if k > |ws| {
            CrashAtomic(slots[b := PutAll(slots[b], ws)], ops[1..], k - |ws|);
          }
        } else {
          assert slots[b := slots[b]] == slots;
        }
      }
    }
  }

  lemma ViewUpdate(slots: seq<Slot>, b: int, s: Slot)
    requires SlotsOk(slots) && 0 <= b < |slots| && SlotOk(s)
    ensures SlotsOk(slots[b := s]) && View(slots[b := s]) == View(slots)[b := Seen(s)]
  {
  }

  // ------------------------------------------- the same, operation by operation

  /** How many stores the operations before the `i`-th make. */
  function StoresBefore(ops: seq<Op>, n: nat, i: nat): nat
    requires i <= |ops|
    decreases i
  {
    if i == 0 then 0
    else StoresBefore(ops[1..], n, i - 1) + if Accepted(ops[0], n) then |Stores(ops[0])| else 0
  }

  /** The `i`-th operation made its first store before the crash. */
  predicate Begun(ops: seq<Op>, n: nat, k: nat, i: int) {
    0 <= i < |ops| && Accepted(ops[i], n) && StoresBefore(ops, n, i) < k
  }

  /** The `i`-th operation made its last store before the crash. */
  predicate Done(ops: seq<Op>, n: nat, k: nat, i: int)
    requires 0 <= i < |ops|
  {
    StoresBefore(ops, n, i) + |Stores(ops[i])| <= k
  }

  lemma BegunLater(ops: seq<Op>, n: nat, k: nat, i: int)
    requires ops != [] && i >= 1
    requires Accepted(ops[0], n) ==> k >= |Stores(ops[0])|
    ensures Begun(ops, n, k, i) == Begun(ops[1..], n, if Accepted(ops[0], n) then k - |Stores(ops[0])| else k, i - 1)
  {
    if i < |ops| {
      assert ops[1..][i - 1] == ops[i];
    }
  }

  /** A block no begun operation names keeps its binding. */
  lemma {:induction false} UntouchedKept(v: seq<Option<Binding>>, ops: seq<Op>, k: nat, b: int)
    requires 0 <= b < |v|
    requires forall j | Begun(ops, |v|, k, j) :: ops[j].block != b
    ensures |Expected(v, ops, k)| == |v| && Expected(v, ops, k)[b] == v[b]
    decreases |ops|
  {
    if ops != [] && k > 0 {
      var n := |v|;
      var accepted := Accepted(ops[0], n);
      var k' := if !accepted then k else k - |Stores(ops[0])|;
      if accepted {
        assert Begun(ops, n, k, 0);
      }
      if k' >= 0 {
        forall j | Begun(ops[1..], n, k', j) ensures ops[1..][j].block != b {
          BegunLater(ops, n, k, j + 1);
          assert Begun(ops, n, k, j + 1);
        }
        UntouchedKept(if accepted then v[ops[0].block := Outcome(ops[0])] else v, ops[1..], k', b);
      }
    }
  }

  /** The last operation begun on a block decides: its binding if it is a finished `Set`, nothing otherwise. */
  lemma {:induction false} LastBegunDecides(v: seq<Option<Binding>>, ops: seq<Op>, k: nat, i: int)
    requires Begun(ops, |v|, k, i)
    requires forall j | Begun(ops, |v|, k, j) && j > i :: ops[j].block != ops[i].block
    ensures |Expected(v, ops, k)| == |v|
    ensures Expected(v, ops, k)[ops[i].block] == if Done(ops, |v|, k, i) then Outcome(ops[i]) else None
    decreases |ops|
  {
    var n, b, rest := |v|, ops[i].block, ops[1..];
    var accepted := Accepted(ops[0], n);
    var k' := if !accepted then k else k - |Stores(ops[0])|;
    var v' := if accepted then v[ops[0].block := Outcome(ops[0])] else v;
    if k' >= 0 {
      forall j | Begun(rest, n, k', j) && j > i - 1 ensures rest[j].block != b {
        BegunLater(ops, n, k, j + 1);
        assert Begun(ops, n, k, j + 1);
      }
      if i == 0 {
        UntouchedKept(v', rest, k', b);
      } else {
        BegunLater(ops, n, k, i);
        LastBegunDecides(v', rest, k', i - 1);
      }
    }
  }

  /** Both at once, for a crash of a real table. */
  lemma NeverTorn(slots: seq<Slot>, ops: seq<Op>, k: nat, b: int)
    requires SlotsOk(slots) && 0 <= b < |slots|
    ensures SlotsOk(Crash(slots, ops, k)) && |Crash(slots, ops, k)| == |slots|
    ensures (forall j | Begun(ops, |slots|, k, j) :: ops[j].block != b)
            ==> View(Crash(slots, ops, k))[b] == View(slots)[b]
    ensures forall i | Begun(ops, |slots|, k, i) && ops[i].block == b
            && (forall j | Begun(ops, |slots|, k, j) && j > i :: ops[j].block != b) ::
              View(Crash(slots, ops, k))[b] == if Done(ops, |slots|, k, i) then Outcome(ops[i]) else None
  {
    CrashAtomic(slots, ops, k);
    if forall j | Begun(ops, |slots|, k, j) :: ops[j].block != b {
      UntouchedKept(View(slots), ops, k, b);
    }
    forall i | Begun(ops, |slots|, k, i) && ops[i].block == b
        && (forall j | Begun(ops, |slots|, k, j) && j > i :: ops[j].block != b)
      ensures View(Crash(slots, ops, k))[b] == if Done(ops, |slots|, k, i) then Outcome(ops[i]) else None
    {
      LastBegunDecides(View(slots), ops, k, i);
    }
  }

  // ------------------------------------------------------------------ the table

  datatype Record = Record(block: int, hash: Hash, stamp: uint64)

  /** The bindings of the first `n` blocks, in block order. */
  function RecordsOf(v: seq<Option<Binding>>, n: nat): seq<Record>
    requires n <= |v|
  {
    if n == 0 then []
    else RecordsOf(v, n - 1) + if v[n - 1].Some? then [Record(n - 1, v[n - 1].value.hash, v[n - 1].value.stamp)] else []
  }

  /** The slot of the record's block is committed, holds a hash of a legal length, and says what the record says. */
  ghost predicate Committed(slots: seq<Slot>, x: Record)
    requires SlotsOk(slots)
  {
    && 0 <= x.block < |slots| && slots[x.block].valid != 0 && 0 < slots[x.block].hashLen <= MAX_HASH
    && x.hash == slots[x.block].hash[..slots[x.block].hashLen] && x.stamp == slots[x.block].stamp
  }

  class Table {
    const slots: array<Slot>

    ghost predicate Valid()
      reads this, slots
    {
      SlotsOk(slots[..])
    }

    constructor (region: array<Slot>)
      requires SlotsOk(region[..])
      ensures Valid() && slots == region
    {
      slots := region;
    }

    /**
      Hides the slot, fills it byte by byte, and commits; refuses a bad block id or a hash that is
      empty or too long.
     */
    method Set(block: int, hash: Hash, stamp: uint64) returns (ok: bool)
      requires Valid()
      modifies slots
      ensures Valid() && ok == Accepted(Op.Set(block, hash, stamp), slots.Length)
      ensures ok <==> 0 <= block < slots.Length && 0 < |hash| <= 112
      ensures ok ==> Committed(slots[..], Record(block, hash, stamp))
      ensures slots[..] == if ok
                           then old(slots[..][block := PutAll(slots[block], Stores(Op.Set(block, hash, stamp)))])
                           else old(slots[..])
    {
      if block < 0 || block >= slots.Length || |hash| == 0 || |hash| > MAX_HASH {
        return false;
      }
      ghost var was := slots[..];
      slots[block] := slots[block].(valid := 0);
      slots[block] := slots[block].(stamp := stamp);
      slots[block] := slots[block].(hashLen := |hash|);
      ghost var head := [PutValid(0), PutStamp(stamp), PutLen(|hash|)];
      ghost var h := slots[block];
      HeadWritten(was[block], stamp, |hash|);
      for i := 0 to |hash|
        invariant Valid() && slots[..] == was[block := PutAll(h, ByteStores(hash, i))]
      {
        assert ByteStores(hash, i + 1)[..i] == ByteStores(hash, i);
        slots[block] := slots[block].(hash := slots[block].hash[i := hash[i]]);
      }
      PutAllConcat(was[block], head, ByteStores(hash, |hash|));
      slots[block] := slots[block].(valid := 1);
      assert Stores(Op.Set(block, hash, stamp))[..|hash| + 3] == head + ByteStores(hash, |hash|);
      Completed(was[block], Op.Set(block, hash, stamp), slots.Length);
      ok := true;
    }

    method Clear(block: int) returns (ok: bool)
      requires Valid()
      modifies slots
      ensures Valid() && ok == Accepted(Op.Clear(block), slots.Length)
      ensures (ok <==> 0 <= block < slots.Length) && (ok ==> slots[block].valid == 0)
      ensures slots[..] == if ok
                           then old(slots[..][block := PutAll(slots[block], Stores(Op.Clear(block)))])
                           else old(slots[..])
    {
      if block < 0 || block >= slots.Length {
        return false;
      }
      assert Stores(Op.Clear(block))[..0] == [];
      slots[block] := slots[block].(valid := 0);
      ok := true;
    }

    /** Every committed binding, in block order. */
    method ValidEntries() returns (r: seq<Record>)
      requires Valid()
      ensures r == RecordsOf(View(slots[..]), slots.Length)
      ensures forall j, k | 0 <= j < k < |r| :: r[j].block < r[k].block
      ensures forall x :: x in r <==> Committed(slots[..], x)
    {
      r := [];
      for i := 0 to slots.Length
        invariant forall x :: x in r <==> x.block < i && Committed(slots[..], x)
        invariant forall j, k | 0 <= j < k < |r| :: r[j].block < r[k].block
        invariant r == RecordsOf(View(slots[..]), i)
      {
        var s := slots[i];
        assert View(slots[..])[i] == Seen(s);
        if s.valid == 0 {
          continue;
        }
        if s.hashLen == 0 || s.hashLen > MAX_HASH {
          continue;
        }
        r := r + [Record(i, s.hash[..s.hashLen], s.stamp)];
      }
    }
  }

  // --------------------------------------------------------- format and attach

  const MAGIC := 0x5241_4944_454E_4B4D
  const VERSION := 1
  const HEADER_BYTES := 128
  const ENTRY_BYTES := 128

  datatype Header = Header(magic: nat, version: nat, numBlocks: nat, entrySize: nat, uid: seq<Byte>)

  function RequiredSize(n: nat): nat {
    HEADER_BYTES + n * ENTRY_BYTES
  }

  const EMPTY_SLOT := Slot(0, 0, 0, Zeros(MAX_HASH))

  function Zeros(n: nat): seq<Byte> {
    seq(n, _ => 0)
  }

  /** Up to the first NUL. */
  function UntilNul(s: seq<Byte>): seq<Byte> {
    if s == [] || s[0] == 0 then [] else [s[0]] + UntilNul(s[1..])
  }

  function Padded(uid: seq<Byte>): seq<Byte>
    requires |uid| <= UID_BYTES
  {
    uid + Zeros(UID_BYTES - |uid|)
  }

  predicate NoNul(s: seq<Byte>) {
    forall i | 0 <= i < |s| :: s[i] != 0
  }

  lemma {:induction false} UntilNulExact(uid: seq<Byte>, pad: nat)
    requires pad > 0
    ensures UntilNul(uid + Zeros(pad)) == uid <==> NoNul(uid)
    ensures UntilNul(uid + Zeros(pad)) == UntilNul(uid)
  {
    if uid == [] {
      assert uid + Zeros(pad) == Zeros(pad) && Zeros(pad)[0] == 0;
    } else {
      UntilNulExact(uid[1..], pad);
      assert (uid + Zeros(pad))[1..] == uid[1..] + Zeros(pad);
      assert uid == [uid[0]] + uid[1..];
      assert NoNul(uid) <==> uid[0] != 0 && NoNul(uid[1..]) by {
        assert forall i | 1 <= i < |uid| :: uid[i] == uid[1..][i - 1];
      }
    }
  }

  /** A caller's memory region, whatever it holds. */
  class Region {
    const size: nat
    const mapped: bool
    const aligned: bool
    var header: Header
    const slots: array<Slot>

    /** The region has room for the slots its size admits. */
    ghost predicate Valid()
      reads this, slots
    {
      |header.uid| == UID_BYTES && SlotsOk(slots[..])
          && (size >= HEADER_BYTES ==> slots.Length == (size - HEADER_BYTES) / ENTRY_BYTES)
    }

    predicate Usable(n: int, uid: seq<Byte>) {
      n > 0 && |uid| < UID_BYTES && mapped && aligned && size >= RequiredSize(n)
    }

    lemma Fits(n: int, uid: seq<Byte>)
      requires Valid() && Usable(n, uid)
      ensures n <= slots.Length
    {
    }

    constructor (size: nat, mapped: bool, aligned: bool, header: Header, slots: array<Slot>)
      requires |header.uid| == UID_BYTES && SlotsOk(slots[..])
      requires size >= HEADER_BYTES ==> slots.Length == (size - HEADER_BYTES) / ENTRY_BYTES
      ensures Valid() && this.size == size && this.mapped == mapped && this.aligned == aligned && this.header == header
              && this.slots == slots
    {
      this.size, this.mapped, this.aligned, this.header, this.slots := size, mapped, aligned, header, slots;
    }

    /** Makes an empty table of `n` blocks; slots past it are left alone. */
    method Format(n: int, uid: seq<Byte>) returns (ok: bool)
      requires Valid()
      modifies this, slots
      ensures Valid() && ok == Usable(n, uid)
      ensures ok <==> n > 0 && |uid| < 64 && mapped && aligned && size >= 128 + n * 128
      ensures !ok ==> header == old(header) && slots[..] == old(slots[..])
      ensures ok ==> n <= slots.Length && header == Header(MAGIC, VERSION, n, ENTRY_BYTES, Padded(uid))
      ensures ok ==> forall i | 0 <= i < slots.Length :: slots[i] == if i < n then EMPTY_SLOT else old(slots[i])
    {
      ok := Usable(n, uid);
      if !ok {
        return;
      }
      Fits(n, uid);
      for i := 0 to n
        invariant n <= slots.Length && header == old(header)
        invariant forall j | 0 <= j < slots.Length :: slots[j] == if j < i then EMPTY_SLOT else old(slots[j])
      {
        slots[i] := EMPTY_SLOT;
      }
      header := Header(MAGIC, VERSION, n, ENTRY_BYTES, Padded(uid));
    }

    /** Accepts a region formatted for the same number of blocks and the same model. */
    method Attach(n: int, uid: seq<Byte>) returns (ok: bool)
      requires Valid()
      ensures ok <==> Usable(n, uid) && Attachable(header, n, uid)
      ensures ok <==>
                && n > 0 && |uid| < 64 && mapped && aligned && size >= 128 + n * 128
                && header.magic == MAGIC && header.version == VERSION && header.entrySize == 128
                && header.numBlocks == n && UntilNul(header.uid) == uid
    {
      if !Usable(n, uid) {
        return false;
      }
      if header.magic != MAGIC {
        return false;
      }
      if header.version != VERSION {
        return false;
      }
      if header.entrySize != ENTRY_BYTES {
        return false;
      }
      if header.numBlocks != n {
        return false;
      }
      ok := UntilNul(header.uid) == uid;
    }
  }

  /** What `Attach` demands of the header and the caller. */
  predicate Attachable(h: Header, n: int, uid: seq<Byte>) {
    h.magic == MAGIC && h.version == VERSION && h.entrySize == ENTRY_BYTES && h.numBlocks == n && UntilNul(h.uid) == uid
  }

  /**
    A formatted region attaches again under its own id exactly when the id has no NUL, and under no
    other block count.
   */
  lemma FormatAttach(n: nat, uid: seq<Byte>, m: int, other: seq<Byte>)
    requires |uid| < UID_BYTES
    ensures var h := Header(MAGIC, VERSION, n, ENTRY_BYTES, Padded(uid));
            && (Attachable(h, n, uid) <==> NoNul(uid))
            && (Attachable(h, m, other) <==> m == n && other == UntilNul(uid))
  {
    UntilNulExact(uid, UID_BYTES - |uid|);
  }

  /** The one-byte id NUL is padded to nothing: its own region refuses it. */
  lemma NulIdRefused(n: nat)
    ensures !Attachable(Header(MAGIC, VERSION, n, ENTRY_BYTES, Padded([0])), n, [0])
    ensures Attachable(Header(MAGIC, VERSION, n, ENTRY_BYTES, Padded([0])), n, [])
  {
    var uid: seq<Byte> := [0];
    assert uid[0] == 0 && !NoNul(uid);
    FormatAttach(n, uid, n, []);
    assert UntilNul(uid) == [];
  }

  /** A fresh table has no binding. */
  lemma {:induction false} EmptyTable(slots: seq<Slot>, n: nat)
    requires n <= |slots| && forall i | 0 <= i < n :: slots[i] == EMPTY_SLOT
    ensures SlotsOk(slots[..n]) && RecordsOf(View(slots[..n]), n) == []
  {
    EmptyRecords(View(slots[..n]), n);
  }

  lemma {:induction false} EmptyRecords(v: seq<Option<Binding>>, n: nat)
    requires n <= |v| && forall i | 0 <= i < n :: v[i] == None
    ensures RecordsOf(v, n) == []
  {
    if n > 0 {
      EmptyRecords(v, n - 1);
    }
  }
}
