/**
  Crash recovery of the host offload backend
  (tpu_sync/kv_cache/host_offload_backend.cc): the cache is rebuilt from the
  metadata table, newest binding per hash, and stale bindings are cleared.
 */
module Recovery {
  import opened TransferTypes
  import opened Metadata

  // ------------------------------------------------------- records of a table

  predicate IsRecord(v: seq<Option<Binding>>, r: Record) {
    0 <= r.block < |v| && v[r.block] == Some(Binding(r.hash, r.stamp))
  }

  lemma {:induction false} RecordsExact(v: seq<Option<Binding>>, n: nat)
    requires n <= |v|
    ensures forall r :: r in RecordsOf(v, n) <==> IsRecord(v, r) && r.block < n
    ensures forall i, j | 0 <= i < j < |RecordsOf(v, n)| :: RecordsOf(v, n)[i].block < RecordsOf(v, n)[j].block
  {
    if n > 0 {
      RecordsExact(v, n - 1);
      var before := RecordsOf(v, n - 1);
      assert forall i | 0 <= i < |before| :: before[i] in before && before[i].block < n - 1;
    }
  }

  /** No other binding of the hash is newer; of equal stamps, the lower block wins. */
  ghost predicate IsNewest(v: seq<Option<Binding>>, r: Record) {
    IsRecord(v, r) && forall q | IsRecord(v, q) && q.hash == r.hash :: Beats(r, q)
  }

  /** `try_emplace`, replaced by a later record only if its stamp is greater. */
  function Newest(rs: seq<Record>): map<Hash, Record> {
    if rs == [] then map[]
    else
      var m, r := Newest(rs[..|rs| - 1]), rs[|rs| - 1];
      if r.hash in m && r.stamp <= m[r.hash].stamp then m else m[r.hash := r]
  }

  ghost predicate NewestIn(rs: seq<Record>, r: Record) {
    r in rs && forall q | q in rs && q.hash == r.hash :: Beats(r, q)
  }

  predicate Beats(r: Record, q: Record) {
    q.stamp < r.stamp || (q.stamp == r.stamp && r.block <= q.block)
  }

  lemma {:induction false} NewestExact(rs: seq<Record>)
    requires forall i, j | 0 <= i < j < |rs| :: rs[i].block < rs[j].block
    ensures forall h | h in Newest(rs) :: Newest(rs)[h].hash == h && NewestIn(rs, Newest(rs)[h])
    ensures forall r | r in rs :: r.hash in Newest(rs)
  {
    if rs != [] {
      var n := |rs| - 1;
      var front, last := rs[..n], rs[n];
      NewestExact(front);
      assert rs == front + [last];
      var m, m' := Newest(front), Newest(rs);
      forall h | h in m' ensures m'[h].hash == h && NewestIn(rs, m'[h]) {
        NewestStep(front, last, m, h);
      }
    }
  }

  lemma NewestStep(front: seq<Record>, last: Record, m: map<Hash, Record>, h: Hash)
    requires forall q | q in front :: q.block < last.block && q.hash in m
    requires h in m ==> m[h].hash == h && NewestIn(front, m[h])
    requires h in m || h == last.hash
    ensures var m' := if last.hash in m && last.stamp <= m[last.hash].stamp then m else m[last.hash := last];
            m'[h].hash == h && NewestIn(front + [last], m'[h])
  {
    var m' := if last.hash in m && last.stamp <= m[last.hash].stamp then m else m[last.hash := last];
    forall q | q in front + [last] && q.hash == m'[h].hash ensures Beats(m'[h], q) {
      assert q in front || q == last;
      if q in front {
        assert h in m && Beats(m[h], q);
      }
    }
  }

  predicate Binds(m: map<Hash, Record>, r: Record) {
    r.hash in m && m[r.hash] == r
  }

  /** The map binds each hash of the table to its newest binding, and nothing else. */
  lemma NewestOfTable(v: seq<Option<Binding>>)
    ensures forall r :: Binds(Newest(RecordsOf(v, |v|)), r) <==> IsNewest(v, r)
    ensures forall h | h in Newest(RecordsOf(v, |v|)) :: Newest(RecordsOf(v, |v|))[h].hash == h
  {
    var rs := RecordsOf(v, |v|);
    RecordsExact(v, |v|);
    NewestExact(rs);
    forall r ensures Binds(Newest(rs), r) <==> IsNewest(v, r) {
      if IsNewest(v, r) {
        assert r in rs;
        var q := Newest(rs)[r.hash];
        assert q in rs && NewestIn(rs, q) && IsRecord(v, q);
        assert q.block == r.block;
      }
      if Binds(Newest(rs), r) {
        assert NewestIn(rs, r);
        forall q | IsRecord(v, q) && q.hash == r.hash ensures Beats(r, q) {
          assert q in rs;
        }
      }
    }
  }

  // -------------------------------------------------------- clearing stale ones

  predicate Stale(newest: map<Hash, Record>, r: Record) {
    r.hash in newest && newest[r.hash].block != r.block
  }

  /** The table after the first `i` records have been looked at and the stale ones among them cleared. */
  function Cleaned(v: seq<Option<Binding>>, newest: map<Hash, Record>, rs: seq<Record>, i: nat): seq<Option<Binding>>
    requires i <= |rs|
  {
    if i == 0 then v
    else
      var w, r := Cleaned(v, newest, rs, i - 1), rs[i - 1];
      if Stale(newest, r) && 0 <= r.block < |w| then w[r.block := None] else w
  }

  lemma {:induction false} CleanedAt(v: seq<Option<Binding>>, newest: map<Hash, Record>, rs: seq<Record>, i: nat)
    requires i <= |rs| && forall j, k | 0 <= j < k < |rs| :: rs[j].block < rs[k].block
    ensures |Cleaned(v, newest, rs, i)| == |v|
    ensures forall j | 0 <= j < i && Stale(newest, rs[j]) && 0 <= rs[j].block < |v| ::
            Cleaned(v, newest, rs, i)[rs[j].block] == None
    ensures forall b | 0 <= b < |v| && (forall j | 0 <= j < i && rs[j].block == b :: !Stale(newest, rs[j])) ::
            Cleaned(v, newest, rs, i)[b] == v[b]
    ensures forall b | 0 <= b < |v| :: Cleaned(v, newest, rs, i)[b] == None || Cleaned(v, newest, rs, i)[b] == v[b]
  {
    if i > 0 {
      CleanedAt(v, newest, rs, i - 1);
    }
  }

  /** A table that lacks only bindings that are not newest has the same newest bindings. */
  lemma NewestKept(v: seq<Option<Binding>>, w: seq<Option<Binding>>, r: Record)
    requires |w| == |v|
    requires forall b | 0 <= b < |v| :: w[b] == v[b] || w[b] == None
    requires forall q | IsNewest(v, q) :: IsRecord(w, q)
    ensures IsNewest(w, r) <==> IsNewest(v, r)
  {
    forall q | IsRecord(w, q) ensures IsRecord(v, q) {
      assert w[q.block] == v[q.block];
    }
    if IsNewest(w, r) {
      var q := BestOf(v, r);
      assert IsRecord(w, q);
      assert Beats(r, q) && Beats(q, r);
      assert q.block == r.block;
    }
  }

  /** Every binding has a newest one of its hash. */
  lemma BestOf(v: seq<Option<Binding>>, r: Record) returns (q: Record)
    requires IsRecord(v, r)
    ensures IsNewest(v, q) && q.hash == r.hash
  {
    var rs := RecordsOf(v, |v|);
    RecordsExact(v, |v|);
    NewestExact(rs);
    assert r in rs;
    NewestOfTable(v);
    q := Newest(rs)[r.hash];
    assert Binds(Newest(rs), q);
  }

  lemma SameNewest(v: seq<Option<Binding>>, w: seq<Option<Binding>>)
    requires forall r :: IsNewest(w, r) <==> IsNewest(v, r)
    ensures Newest(RecordsOf(w, |w|)) == Newest(RecordsOf(v, |v|))
  {
    NewestOfTable(v);
    NewestOfTable(w);
    var mv, mw := Newest(RecordsOf(v, |v|)), Newest(RecordsOf(w, |w|));
    forall h | h in mw ensures h in mv && mv[h] == mw[h] {
      assert Binds(mw, mw[h]);
      assert Binds(mv, mw[h]);
    }
    forall h | h in mv ensures h in mw {
      assert Binds(mv, mv[h]);
      assert Binds(mw, mv[h]);
    }
  }

  /** Recovery started again after a crash anywhere in the clearing recovers the same bindings. */
  lemma RecoverAgain(v: seq<Option<Binding>>, i: nat)
    requires i <= |RecordsOf(v, |v|)|
    ensures var rs := RecordsOf(v, |v|);
            var w := Cleaned(v, Newest(rs), rs, i);
            && |w| == |v| && (forall r :: IsNewest(w, r) <==> IsNewest(v, r))
            && Newest(RecordsOf(w, |w|)) == Newest(rs)
  {
    var rs := RecordsOf(v, |v|);
    var newest := Newest(rs);
    RecordsExact(v, |v|);
    CleanedAt(v, newest, rs, i);
    NewestOfTable(v);
    var w := Cleaned(v, newest, rs, i);
    forall r | IsNewest(v, r) ensures IsRecord(w, r) {
      assert Binds(newest, r);
      forall j | 0 <= j < i && rs[j].block == r.block ensures !Stale(newest, rs[j]) {
        assert rs[j] in rs;
      }
      assert w[r.block] == v[r.block];
    }
    forall r ensures IsNewest(w, r) <==> IsNewest(v, r) {
      NewestKept(v, w, r);
    }
    SameNewest(v, w);
  }

  /** After the whole clearing, the table holds exactly the recovered bindings, one per hash. */
  lemma CleanedTable(v: seq<Option<Binding>>)
    ensures var rs := RecordsOf(v, |v|);
            var w := Cleaned(v, Newest(rs), rs, |rs|);
            && |w| == |v| && (forall r :: IsRecord(w, r) <==> IsNewest(v, r))
            && (forall q, r | IsRecord(w, q) && IsRecord(w, r) && q.hash == r.hash :: q == r)
  {
    var rs := RecordsOf(v, |v|);
    var newest := Newest(rs);
    RecordsExact(v, |v|);
    CleanedAt(v, newest, rs, |rs|);
    NewestOfTable(v);
    RecoverAgain(v, |rs|);
    var w := Cleaned(v, newest, rs, |rs|);
    forall r ensures IsRecord(w, r) <==> IsNewest(v, r) {
      if IsRecord(w, r) {
        assert w[r.block] == v[r.block];
        assert r in rs;
        var j :| 0 <= j < |rs| && rs[j] == r;
        assert !Stale(newest, rs[j]);
        NewestExact(rs);
        assert newest[r.hash].block == r.block;
        assert Binds(newest, newest[r.hash]);
        assert newest[r.hash] == r;
      }
      if IsNewest(v, r) {
        assert IsNewest(w, r);
      }
    }
  }

  // ------------------------------------------------------------- the procedure

  ghost predicate Ascending(rs: seq<Record>) {
    forall i, j | 0 <= i < j < |rs| :: rs[i].stamp <= rs[j].stamp
  }

  ghost predicate NoRepeats(rs: seq<Record>) {
    forall i, j | 0 <= i < j < |rs| :: rs[i] != rs[j]
  }

  /** The bindings to insert: each hash's newest once, oldest first. */
  ghost predicate Recovers(v: seq<Option<Binding>>, out: seq<Record>) {
    Ascending(out) && NoRepeats(out) && forall r :: r in out <==> IsNewest(v, r)
  }

  lemma InsertedAscending(rs: seq<Record>, i: nat, r: Record)
    requires Ascending(rs) && i <= |rs|
    requires i > 0 ==> rs[i - 1].stamp <= r.stamp
    requires i < |rs| ==> r.stamp <= rs[i].stamp
    ensures Ascending(rs[..i] + [r] + rs[i..])
  {
    var out := rs[..i] + [r] + rs[i..];
    forall a, b | 0 <= a < b < |out| ensures out[a].stamp <= out[b].stamp {
      var x, y := if a < i then a else a - 1, if b <= i then b else b - 1;
      assert a == i || out[a] == rs[x];
      assert b == i || out[b] == rs[y];
    }
  }

  method InsertByStamp(rs: seq<Record>, r: Record) returns (out: seq<Record>)
    requires Ascending(rs)
    ensures Ascending(out) && multiset(out) == multiset(rs) + multiset{r}
  {
    var i := |rs|;
    while i > 0 && rs[i - 1].stamp > r.stamp
      invariant 0 <= i <= |rs| && (i < |rs| ==> rs[i].stamp > r.stamp)
    {
      i := i - 1;
    }
    InsertedAscending(rs, i, r);
    assert rs == rs[..i] + rs[i..];
    out := rs[..i] + [r] + rs[i..];
  }

  /** The order of equal stamps is left open, as the map's iteration order is. */
  method SortByStamp(rs: seq<Record>) returns (out: seq<Record>)
    ensures Ascending(out) && multiset(out) == multiset(rs)
  {
    out := [];
    for i := 0 to |rs|
      invariant Ascending(out) && multiset(out) == multiset(rs[..i])
    {
      assert rs[..i + 1] == rs[..i] + [rs[i]];
      out := InsertByStamp(out, rs[i]);
    }
    assert rs[..|rs|] == rs;
  }

  method CollectNewest(rs: seq<Record>) returns (m: map<Hash, Record>)
    ensures m == Newest(rs)
  {
    m := map[];
    for i := 0 to |rs|
      invariant m == Newest(rs[..i])
    {
      assert rs[..i + 1][..i] == rs[..i];
      var r := rs[i];
      if r.hash !in m {
        m := m[r.hash := r];
      } else if r.stamp > m[r.hash].stamp {
        m := m[r.hash := r];
      }
    }
    assert rs[..|rs|] == rs;
  }

  ghost predicate ValuesOf(m: map<Hash, Record>, keys: set<Hash>, rs: seq<Record>) {
    NoRepeats(rs) && forall r :: r in rs <==> Binds(m, r) && r.hash in keys
  }

  /** Lists the map in whatever order it iterates. */
  method ListValues(m: map<Hash, Record>) returns (rs: seq<Record>)
    requires forall h | h in m :: m[h].hash == h
    ensures ValuesOf(m, m.Keys, rs)
  {
    rs := [];
    var todo := m.Keys;
    while todo != {}
      invariant todo <= m.Keys && ValuesOf(m, m.Keys - todo, rs)
      decreases |todo|
    {
      var h :| h in todo;
      assert !(Binds(m, m[h]) && m[h].hash in m.Keys - todo);
      rs := rs + [m[h]];
      todo := todo - {h};
    }
  }

  lemma SortedValues(v: seq<Option<Binding>>, values: seq<Record>, out: seq<Record>)
    requires ValuesOf(Newest(RecordsOf(v, |v|)), Newest(RecordsOf(v, |v|)).Keys, values)
    requires Ascending(out) && multiset(out) == multiset(values)
    ensures Recovers(v, out)
  {
    NewestOfTable(v);
    PermutedNoRepeats(values, out);
  }

  lemma PermutedNoRepeats(values: seq<Record>, out: seq<Record>)
    requires NoRepeats(values) && multiset(out) == multiset(values)
    ensures NoRepeats(out) && forall r :: r in out <==> r in values
  {
    forall r ensures r in out <==> r in values {
      assert r in out <==> r in multiset(out);
      assert r in values <==> r in multiset(values);
    }
    forall i, j | 0 <= i < j < |out| ensures out[i] != out[j] {
      var r := out[i];
      Repeats(values, r);
      assert out == out[..j] + out[j..];
      assert r in multiset(out[..j]) && out[j] in multiset(out[j..]);
    }
  }

  lemma {:induction false} Repeats(rs: seq<Record>, r: Record)
    requires NoRepeats(rs)
    ensures multiset(rs)[r] <= 1
  {
    if rs != [] {
      var n := |rs| - 1;
      assert rs == rs[..n] + [rs[n]];
      Repeats(rs[..n], r);
      if r == rs[n] {
        assert r !in rs[..n];
        assert multiset(rs[..n])[r] == 0;
      }
    }
  }

  method ChooseBindings(entries: seq<Record>, ghost v: seq<Option<Binding>>)
      returns (newest: map<Hash, Record>, out: seq<Record>)
    requires entries == RecordsOf(v, |v|)
    ensures newest == Newest(entries) && Recovers(v, out)
    ensures forall r | r in entries :: r.hash in newest && 0 <= r.block < |v|
  {
    newest := CollectNewest(entries);
    NewestOfTable(v);
    RecordsExact(v, |v|);
    NewestExact(entries);
    var values := ListValues(newest);
    out := SortByStamp(values);
    SortedValues(v, values, out);
  }

  const MAX_STAMP: uint64 := 0xFFFF_FFFF_FFFF_FFFF

  function Max(a: uint64, b: uint64): uint64 {
    if a >= b then a else b
  }

  function MaxStamp(rs: seq<Record>): uint64 {
    if rs == [] then 0 else Max(MaxStamp(rs[..|rs| - 1]), rs[|rs| - 1].stamp)
  }

  /** Unsigned 64-bit increment. */
  function Next(stamp: uint64): uint64 {
    if stamp == MAX_STAMP then 0 else stamp + 1
  }

  class Backend {
    const table: Table
    var cache: seq<Record>
    var next: uint64

    ghost predicate Valid()
      reads this, table, table.slots
    {
      table.Valid()
    }

    constructor (table: Table)
      requires table.Valid()
      ensures Valid() && this.table == table && cache == [] && next == 0
    {
      this.table, cache, next := table, [], 0;
    }

    /**
      `SetMetadataEntry` for a block resident in host memory: the stamp is spent even if the table
      refuses the entry.
     */
    method SetEntry(hash: Hash, block: int, onHost: bool)
      requires Valid()
      modifies this`next, table.slots
      ensures Valid()
      ensures !onHost ==> next == old(next) && table.slots[..] == old(table.slots[..])
      ensures onHost ==> next == Next(old(next))
      ensures onHost ==> View(table.slots[..]) == if Accepted(Set(block, hash, old(next)), table.slots.Length)
                                                  then old(View(table.slots[..])[block := Some(Binding(hash, next))])
                                                  else old(View(table.slots[..]))
    {
      if !onHost {
        return;
      }
      ghost var was := table.slots[..];
      var ok := table.Set(block, hash, next);
      if ok {
        Completed(was[block], Set(block, hash, next), |was|);
        ViewUpdate(was, block, PutAll(was[block], Stores(Set(block, hash, next))));
      }
      next := Next(next);
    }

    method ClearEntry(block: int, onHost: bool)
      requires Valid()
      modifies table.slots
      ensures Valid()
      ensures View(table.slots[..]) == if onHost && 0 <= block < table.slots.Length
                                       then old(View(table.slots[..]))[block := None] else old(View(table.slots[..]))
    {
      if !onHost {
        return;
      }
      ghost var was := table.slots[..];
      var ok := table.Clear(block);
      if ok {
        Completed(was[block], Clear(block), |was|);
        ViewUpdate(was, block, PutAll(was[block], Stores(Clear(block))));
      }
    }

    /** Rebuilds the cache; `granted` is whether the allocator granted the recovered blocks.  `None` is an error. */
    method Recover(granted: bool) returns (count: Option<nat>, out: seq<Record>)
      requires Valid()
      modifies this, table.slots
      ensures Valid()
      ensures var v := old(View(table.slots[..]));
              if RecordsOf(v, |v|) == [] || !granted then
                && count == (if RecordsOf(v, |v|) == [] then Some(0) else None)
                && cache == old(cache) && next == old(next) && table.slots[..] == old(table.slots[..])
              else
                && Recovers(v, out) && count == Some(|out|) && cache == old(cache) + out
                && next == Next(MaxStamp(out))
                && (forall i, j | 0 <= i < j < |out| :: out[i] != out[j] && out[i].stamp <= out[j].stamp)
                && (forall r :: r in out <==> IsRecord(v, r) && forall q | IsRecord(v, q) && q.hash == r.hash ::
                      q.stamp < r.stamp || (q.stamp == r.stamp && r.block <= q.block))
                && View(table.slots[..]) == Cleaned(v, Newest(RecordsOf(v, |v|)), RecordsOf(v, |v|),
                                                    |RecordsOf(v, |v|)|)
    {
      out := [];
      var entries := table.ValidEntries();
      if entries == [] {
        return Some(0), [];
      }
      var newest;
      newest, out := ChooseBindings(entries, View(table.slots[..]));
      if !granted {
        return None, out;
      }
      var max: uint64, rebuilt := 0, cache;
      for i := 0 to |out|
        invariant rebuilt == cache + out[..i] && max == MaxStamp(out[..i])
      {
        assert out[..i + 1][..i] == out[..i];
        rebuilt := rebuilt + [out[i]];
        max := Max(max, out[i].stamp);
      }
      assert out[..|out|] == out;
      cache := rebuilt;
      next := Next(max);
      ClearStale(entries, newest);
      count := Some(|out|);
    }

    method ClearStale(entries: seq<Record>, newest: map<Hash, Record>)
      requires Valid() && forall r | r in entries :: r.hash in newest && 0 <= r.block < table.slots.Length
      modifies table.slots
      ensures Valid() && View(table.slots[..]) == Cleaned(old(View(table.slots[..])), newest, entries, |entries|)
    {
      ghost var v := View(table.slots[..]);
      for i := 0 to |entries|
        invariant Valid() && View(table.slots[..]) == Cleaned(v, newest, entries, i)
      {
        assert entries[i] in entries;
        if newest[entries[i].hash].block != entries[i].block {
          ClearEntry(entries[i].block, true);
        }
      }
    }
  }

  // ------------------------------------------------------------------- counter

  lemma {:induction false} MaxStampExact(rs: seq<Record>)
    ensures forall r | r in rs :: r.stamp <= MaxStamp(rs)
    ensures rs != [] ==> exists r :: r in rs && r.stamp == MaxStamp(rs)
  {
    if rs != [] {
      var n := |rs| - 1;
      assert rs == rs[..n] + [rs[n]];
      MaxStampExact(rs[..n]);
      if MaxStamp(rs) != rs[n].stamp {
        var r :| r in rs[..n] && r.stamp == MaxStamp(rs[..n]);
        assert r in rs;
      } else {
        assert rs[n] in rs;
      }
    }
  }

  /** The counter resumes above every recorded stamp, stale ones included, unless a stamp has reached the last value. */
  lemma CounterResumes(v: seq<Option<Binding>>, out: seq<Record>)
    requires Recovers(v, out) && out != []
    ensures (forall r | IsRecord(v, r) :: r.stamp < Next(MaxStamp(out)))
            <==> (forall r | IsRecord(v, r) :: r.stamp != MAX_STAMP)
  {
    MaxStampExact(out);
    forall r | IsRecord(v, r) ensures r.stamp <= MaxStamp(out) {
      var q := BestOf(v, r);
      assert q in out && Beats(q, r);
    }
    var r :| r in out && r.stamp == MaxStamp(out);
    assert IsNewest(v, r);
    assert IsRecord(v, r);
  }

  /** A table whose one stamp is the last value: the counter starts again from zero, below that stamp. */
  lemma LastStampWraps(v: seq<Option<Binding>>, out: seq<Record>, hash: Hash)
    requires v == [Some(Binding(hash, MAX_STAMP))] && out == [Record(0, hash, MAX_STAMP)]
    ensures Recovers(v, out) && Next(MaxStamp(out)) == 0 && IsRecord(v, out[0]) && out[0].stamp > Next(MaxStamp(out))
  {
    forall r ensures IsNewest(v, r) <==> r == out[0] {
      assert IsRecord(v, r) <==> r == out[0];
    }
    assert out[..0] == [];
  }

  /** Stamps are distinct and below the counter, so "newest" is never a tie. */
  ghost predicate Stamped(v: seq<Option<Binding>>, next: int) {
    (forall r | IsRecord(v, r) :: r.stamp < next)
        && (forall q, r | IsRecord(v, q) && IsRecord(v, r) && q.stamp == r.stamp :: q == r)
  }

  lemma SetKeepsStamped(v: seq<Option<Binding>>, next: uint64, block: int, hash: Hash)
    requires Stamped(v, next) && 0 <= block < |v|
    ensures Stamped(v[block := Some(Binding(hash, next))], next + 1)
    ensures Stamped(v[block := None], next)
  {
    var w, c := v[block := Some(Binding(hash, next))], v[block := None];
    forall r | IsRecord(w, r) ensures IsRecord(v, r) || r == Record(block, hash, next) {
    }
    forall r | IsRecord(c, r) ensures IsRecord(v, r) {
    }
  }

  /** Recovery leaves distinct stamps below the resumed counter, unless the counter wrapped. */
  lemma RecoveryKeepsStamped(v: seq<Option<Binding>>, out: seq<Record>, bound: int)
    requires Recovers(v, out) && out != [] && Stamped(v, bound) && MaxStamp(out) != MAX_STAMP
    ensures var rs := RecordsOf(v, |v|); Stamped(Cleaned(v, Newest(rs), rs, |rs|), Next(MaxStamp(out)))
  {
    CleanedTable(v);
    MaxStampExact(out);
    var rs := RecordsOf(v, |v|);
    var w := Cleaned(v, Newest(rs), rs, |rs|);
    forall r | IsRecord(w, r) ensures r.stamp < Next(MaxStamp(out)) && IsRecord(v, r) {
      assert IsNewest(v, r);
      assert r in out;
    }
  }

  // ------------------------------------------------------- crash, then recovery

  ghost predicate StampsIncrease(ops: seq<Op>) {
    forall i, j | 0 <= i < j < |ops| && ops[i].Set? && ops[j].Set? :: ops[i].stamp < ops[j].stamp
  }

  /** A binding the run did not find in the table comes from a `Set` that finished before the crash. */
  lemma {:induction false} BindingFromSet(v: seq<Option<Binding>>, ops: seq<Op>, k: nat, r: Record) returns (i: int)
    requires IsRecord(Expected(v, ops, k), r) && !IsRecord(v, r)
    ensures 0 <= i < |ops| && Begun(ops, |v|, k, i) && Done(ops, |v|, k, i) && ops[i] == Set(r.block, r.hash, r.stamp)
    decreases |ops|
  {
    var n := |v|;
    if !Accepted(ops[0], n) {
      i := BindingFromSet(v, ops[1..], k, r);
      BegunLater(ops, n, k, i + 1);
      i := i + 1;
    } else {
      var m, b := |Stores(ops[0])|, ops[0].block;
      if k >= m {
        var w := v[b := Outcome(ops[0])];
        if IsRecord(w, r) {
          i := 0;
        } else {
          i := BindingFromSet(w, ops[1..], k - m, r);
          BegunLater(ops, n, k, i + 1);
          i := i + 1;
        }
      } else {
        i := 0;
      }
    }
  }

  /** Every `Set` is stamped `next` or later. */
  ghost predicate StampedFrom(ops: seq<Op>, next: int) {
    StampsIncrease(ops) && forall i | 0 <= i < |ops| && ops[i].Set? :: next <= ops[i].stamp
  }

  /**
    From any table whose stamps are below `next`, any run of `Set` and `Clear` with increasing
    stamps from `next` on, cut off after any store: of the bindings of a hash that survive, the
    one recovered was set last.  One set in this run was set after every one the run found.
   */
  lemma CrashRecoversLatest(v: seq<Option<Binding>>, next: int, ops: seq<Op>, k: nat, r: Record, q: Record)
      returns (i: int, j: int)
    requires Stamped(v, next) && StampedFrom(ops, next)
    requires var w := Expected(v, ops, k); IsNewest(w, r) && IsRecord(w, q) && q.hash == r.hash
    ensures IsRecord(v, r) ==> IsRecord(v, q) && (q == r || q.stamp < r.stamp)
    ensures !IsRecord(v, r) ==> WroteAt(ops, |v|, k, i, r)
    ensures !IsRecord(v, q) ==> WroteAt(ops, |v|, k, j, q) && !IsRecord(v, r) && j <= i && (j == i ==> q == r)
  {
    assert Beats(r, q);
    i, j := 0, 0;
    if !IsRecord(v, q) {
      j := BindingFromSet(v, ops, k, q);
    }
    if !IsRecord(v, r) {
      i := BindingFromSet(v, ops, k, r);
    }
  }

  /** The `i`-th operation set this binding and finished before the crash. */
  predicate WroteAt(ops: seq<Op>, n: nat, k: nat, i: int, r: Record) {
    0 <= i < |ops| && Done(ops, n, k, i) && ops[i] == Set(r.block, r.hash, r.stamp)
  }

  // ------------------------------------------- many crashes and recoveries

  /**
    The life of one process: it recovers the table it finds, looking at the first `cleared`
    records for stale ones, then performs `ops` until it is cut off after `stores` stores.
   */
  datatype Life = Life(cleared: nat, ops: seq<Op>, stores: nat)

  /** The table a process works on after its recovery. */
  function StartTable(v: seq<Option<Binding>>, life: Life): seq<Option<Binding>> {
    var rs := RecordsOf(v, |v|);
    Cleaned(v, Newest(rs), rs, if life.cleared < |rs| then life.cleared else |rs|)
  }

  /** The table the last of these processes leaves behind, the first having found it empty. */
  function TableAfter(n: nat, lives: seq<Life>): seq<Option<Binding>> {
    if lives == [] then seq(n, _ => None)
    else
      var m := |lives| - 1;
      Expected(StartTable(TableAfter(n, lives[..m]), lives[m]), lives[m].ops, lives[m].stores)
  }

  /** The counter a process resumes with. */
  function Resumed(v: seq<Option<Binding>>): uint64 {
    var rs := RecordsOf(v, |v|);
    if rs == [] then 0 else Next(MaxStamp(rs))
  }

  /** Each process stamps from its own resumed counter on, and none uses the last stamp. */
  ghost predicate LivesOk(n: nat, lives: seq<Life>) {
    lives == [] || (
      var m := |lives| - 1;
      && LivesOk(n, lives[..m])
      && StampedFrom(lives[m].ops, Resumed(TableAfter(n, lives[..m])))
      && forall i | 0 <= i < |lives[m].ops| && lives[m].ops[i].Set? :: lives[m].ops[i].stamp < MAX_STAMP)
  }

  /** The resumed counter is the one `Recover` computes from the bindings it chose. */
  lemma ResumedExact(v: seq<Option<Binding>>, out: seq<Record>)
    requires Recovers(v, out)
    ensures Resumed(v) == if out == [] then 0 else Next(MaxStamp(out))
  {
    var rs := RecordsOf(v, |v|);
    RecordsExact(v, |v|);
    MaxStampExact(rs);
    MaxStampExact(out);
    assert forall o | o in out :: IsNewest(v, o) && o in rs;
    assert rs == [] ==> forall o :: o !in out;
    if rs != [] {
      var r :| r in rs && r.stamp == MaxStamp(rs);
      var q := BestOf(v, r);
      assert q in out && Beats(q, r);
    }
  }

  lemma BelowResumed(v: seq<Option<Binding>>)
    requires forall r | IsRecord(v, r) :: r.stamp != MAX_STAMP
    ensures forall r | IsRecord(v, r) :: r.stamp < Resumed(v)
  {
    var rs := RecordsOf(v, |v|);
    RecordsExact(v, |v|);
    MaxStampExact(rs);
    if rs != [] {
      var r :| r in rs && r.stamp == MaxStamp(rs);
      assert IsRecord(v, r);
    }
    forall r | IsRecord(v, r) ensures r.stamp < Resumed(v) {
      assert r in rs;
    }
  }

  lemma StartIsPart(v: seq<Option<Binding>>, life: Life)
    ensures |StartTable(v, life)| == |v| && forall r | IsRecord(StartTable(v, life), r) :: IsRecord(v, r)
  {
    var rs := RecordsOf(v, |v|);
    RecordsExact(v, |v|);
    CleanedAt(v, Newest(rs), rs, if life.cleared < |rs| then life.cleared else |rs|);
  }

  lemma {:induction false} ExpectedLength(v: seq<Option<Binding>>, ops: seq<Op>, k: nat)
    ensures |Expected(v, ops, k)| == |v|
    decreases |ops|
  {
    if ops != [] && k != 0 {
      if !Accepted(ops[0], |v|) {
        ExpectedLength(v, ops[1..], k);
      } else if k >= |Stores(ops[0])| {
        ExpectedLength(v[ops[0].block := Outcome(ops[0])], ops[1..], k - |Stores(ops[0])|);
      }
    }
  }

  /** Stamps stay distinct through a run that is cut off anywhere. */
  lemma {:induction false} RunKeepsStamped(v: seq<Option<Binding>>, next: int, ops: seq<Op>, k: nat)
      returns (bound: int)
    requires Stamped(v, next) && StampedFrom(ops, next)
    ensures Stamped(Expected(v, ops, k), bound)
    decreases |ops|
  {
    bound := next;
    if ops != [] && k != 0 {
      var op, n := ops[0], |Stores(ops[0])|;
      if !Accepted(op, |v|) {
        bound := RunKeepsStamped(v, next, ops[1..], k);
      } else {
        OpKeepsStamped(v, next, op);
        if k >= n {
          bound := RunKeepsStamped(v[op.block := Outcome(op)], if op.Set? then op.stamp + 1 else next, ops[1..], k - n);
        }
      }
    }
  }

  lemma OpKeepsStamped(v: seq<Option<Binding>>, next: int, op: Op)
    requires Stamped(v, next) && 0 <= op.block < |v| && (op.Set? ==> next <= op.stamp)
    ensures Stamped(v[op.block := None], next)
    ensures Stamped(v[op.block := Outcome(op)], if op.Set? then op.stamp + 1 else next)
  {
    ClearKeepsStamped(v, next, op.block);
    if op.Set? {
      assert Stamped(v, op.stamp);
      SetKeepsStamped(v, op.stamp, op.block, op.hash);
    }
  }

  lemma ClearKeepsStamped(v: seq<Option<Binding>>, next: int, block: int)
    requires Stamped(v, next) && 0 <= block < |v|
    ensures Stamped(v[block := None], next)
  {
    forall r | IsRecord(v[block := None], r) ensures IsRecord(v, r) {
    }
  }

  /**
    After any number of crashes and recoveries: distinct stamps, all below the counter the next
    process resumes with.
   */
  lemma {:induction false} LivesKeepStamped(n: nat, lives: seq<Life>)
    requires LivesOk(n, lives)
    ensures var v := TableAfter(n, lives); |v| == n && Stamped(v, Resumed(v)) && forall r | IsRecord(v, r) ::
            r.stamp < MAX_STAMP
  {
    var v := TableAfter(n, lives);
    if lives != [] {
      var m := |lives| - 1;
      var w, life := TableAfter(n, lives[..m]), lives[m];
      LivesKeepStamped(n, lives[..m]);
      StartIsPart(w, life);
      var start := StartTable(w, life);
      ExpectedLength(start, life.ops, life.stores);
      var bound := RunKeepsStamped(start, Resumed(w), life.ops, life.stores);
      forall r | IsRecord(v, r) ensures r.stamp < MAX_STAMP {
        if !IsRecord(start, r) {
          var i := BindingFromSet(start, life.ops, life.stores, r);
        }
      }
    }
    BelowResumed(v);
  }

  /** Some process finished setting the binding. */
  predicate Wrote(n: nat, lives: seq<Life>, l: int, i: int, r: Record) {
    0 <= l < |lives| && WroteAt(lives[l].ops, n, lives[l].stores, i, r)
  }

  lemma {:induction false} InOrder(n: nat, lives: seq<Life>, r: Record, q: Record)
      returns (l: int, i: int, m: int, j: int)
    requires LivesOk(n, lives)
    requires var v := TableAfter(n, lives); IsRecord(v, r) && IsRecord(v, q) && q.stamp <= r.stamp
    ensures Wrote(n, lives, l, i, r) && Wrote(n, lives, m, j, q)
    ensures m < l || (m == l && j < i) || q == r
    decreases |lives|, 0
  {
    assert lives != [];
    var p := |lives| - 1;
    var start, next := LastLife(n, lives);
    if IsRecord(start, r) && IsRecord(start, q) {
      l, i, m, j := InOrder(n, lives[..p], r, q);
    } else {
      i, j := InLastLife(start, next, lives[p], r, q);
      l, m := p, p;
      if IsRecord(start, q) {
        m, j := WrittenBefore(n, lives[..p], q);
      }
    }
  }

  /** The table and the counter the last process starts with. */
  lemma LastLife(n: nat, lives: seq<Life>) returns (start: seq<Option<Binding>>, next: int)
    requires LivesOk(n, lives) && lives != []
    ensures var p := |lives| - 1;
            && |start| == n && TableAfter(n, lives) == Expected(start, lives[p].ops, lives[p].stores)
            && LivesOk(n, lives[..p]) && StampedFrom(lives[p].ops, next)
            && forall x | IsRecord(start, x) :: x.stamp < next && IsRecord(TableAfter(n, lives[..p]), x)
  {
    var p := |lives| - 1;
    var w := TableAfter(n, lives[..p]);
    LivesKeepStamped(n, lives[..p]);
    StartIsPart(w, lives[p]);
    start, next := StartTable(w, lives[p]), Resumed(w);
  }

  /** A binding set in the last process is newer than those it found and than those it set before. */
  lemma InLastLife(start: seq<Option<Binding>>, next: int, life: Life, r: Record, q: Record) returns (i: int, j: int)
    requires (forall x | IsRecord(start, x) :: x.stamp < next) && StampedFrom(life.ops, next)
    requires var v := Expected(start, life.ops, life.stores); IsRecord(v, r) && IsRecord(v, q)
    requires q.stamp <= r.stamp && !(IsRecord(start, r) && IsRecord(start, q))
    ensures WroteAt(life.ops, |start|, life.stores, i, r)
    ensures !IsRecord(start, q) ==> WroteAt(life.ops, |start|, life.stores, j, q) && (j < i || q == r)
  {
    j := 0;
    if !IsRecord(start, q) {
      j := BindingFromSet(start, life.ops, life.stores, q);
      assert next <= q.stamp;
    }
    i := BindingFromSet(start, life.ops, life.stores, r);
  }

  lemma WrittenBefore(n: nat, lives: seq<Life>, q: Record) returns (m: int, j: int)
    requires LivesOk(n, lives) && IsRecord(TableAfter(n, lives), q)
    ensures Wrote(n, lives, m, j, q)
    decreases |lives|, 1
  {
    var l, i;
    l, i, m, j := InOrder(n, lives, q, q);
  }

  /**
    Any number of processes, each cut off anywhere, in its recovery or after it: of the
    bindings of a hash in the table, the one recovered is the one set last, by the latest
    process that set one of them, and no two bindings tie.
   */
  lemma LivesRecoverLatest(n: nat, lives: seq<Life>, r: Record, q: Record) returns (l: int, i: int, m: int, j: int)
    requires LivesOk(n, lives)
    requires var v := TableAfter(n, lives); IsNewest(v, r) && IsRecord(v, q) && q.hash == r.hash
    ensures Wrote(n, lives, l, i, r) && Wrote(n, lives, m, j, q)
    ensures q == r || (q.stamp < r.stamp && (m < l || (m == l && j < i)))
  {
    assert Beats(r, q);
    LivesKeepStamped(n, lives);
    l, i, m, j := InOrder(n, lives, r, q);
  }
}
