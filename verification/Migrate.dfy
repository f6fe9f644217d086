/** service/migrate/migrate.go: moving the selected rows of one table into another, in
    batches, serially or by key range on several channels. */
module Migrate {
  import opened Arithmetic
  import opened Common
  import opened RangeSplit

  const DEFAULT_BATCH_SIZE: int := 2000

  /** A selected row under the target's single key. */
  datatype Row = Row(key: int, cells: Id)

  type Table = map<int, Row>

  datatype Mode = Insert | Replace | Upsert

  datatype MigrateError = Canceled | QueryFailed | ScanFailed | ReadFailed | WriteFailed | ProbeFailed

  // ---- writing rows ----

  /** Rows written one after the other; a later row replaces an earlier one of its key. */
  ghost function ApplyRows(t: Table, rows: seq<Row>): Table
    decreases |rows|
  {
    if rows == [] then t else
      var last := rows[|rows| - 1];
      ApplyRows(t, rows[..|rows| - 1])[last.key := last]
  }

  ghost function KeysOf(rows: seq<Row>): set<int> {
    set r | r in rows :: r.key
  }

  ghost predicate DistinctKeys(rows: seq<Row>) {
    forall i, j :: 0 <= i < j < |rows| ==> rows[i].key != rows[j].key
  }

  /** A plain INSERT of all rows meets no duplicate key. */
  ghost predicate NoClash(t: Table, rows: seq<Row>) {
    DistinctKeys(rows) && forall r :: r in rows ==> r.key !in t
  }

  lemma {:induction false} ApplyAppend(t: Table, a: seq<Row>, b: seq<Row>)
    ensures ApplyRows(t, a + b) == ApplyRows(ApplyRows(t, a), b)
    decreases |b|
  {
    if b == [] {
      assert a + b == a;
    } else {
      var n := |b| - 1;
      ApplyAppend(t, a, b[..n]);
      assert (a + b)[..|a + b| - 1] == a + b[..n];
    }
  }

  lemma {:induction false} ApplyElsewhere(t: Table, rows: seq<Row>)
    ensures ApplyRows(t, rows).Keys == t.Keys + KeysOf(rows)
    ensures forall k :: k in t && k !in KeysOf(rows) ==> ApplyRows(t, rows)[k] == t[k]
    decreases |rows|
  {
    if rows != [] {
      var n := |rows| - 1;
      ApplyElsewhere(t, rows[..n]);
      assert rows == rows[..n] + [rows[n]];
      assert forall r :: r in rows <==> r in rows[..n] || r == rows[n];
      assert KeysOf(rows) == KeysOf(rows[..n]) + {rows[n].key};
    }
  }

  /** Where the written keys are all overwritten, what was there before does not matter. */
  lemma {:induction false} ApplyForgets(t: Table, u: Table, rows: seq<Row>)
    requires t.Keys + KeysOf(rows) == u.Keys + KeysOf(rows)
    requires forall k :: k in t && k !in KeysOf(rows) ==> t[k] == u[k]
    ensures ApplyRows(t, rows) == ApplyRows(u, rows)
  {
    ApplyElsewhere(t, rows);
    ApplyElsewhere(u, rows);
    var a, b := ApplyRows(t, rows), ApplyRows(u, rows);
    assert a.Keys == b.Keys;
    forall k | k in a
      ensures k in b && a[k] == b[k]
    {
      if k in KeysOf(rows) {
        LastWins(t, u, rows, k);
      }
    }
  }

  lemma {:induction false} LastWins(t: Table, u: Table, rows: seq<Row>, k: int)
    requires k in KeysOf(rows)
    ensures k in ApplyRows(t, rows) && k in ApplyRows(u, rows) && ApplyRows(t, rows)[k] == ApplyRows(u, rows)[k]
    decreases |rows|
  {
    var n := |rows| - 1;
    if rows[n].key != k {
      var r :| r in rows && r.key == k;
      assert r in rows[..n];
      LastWins(t, u, rows[..n], k);
    }
  }

  /** Running an unchanged source again, after any partial run, ends in the same table as one
      clean run. */
  lemma RerunIsClean(t: Table, committed: seq<Row>, rows: seq<Row>)
    requires KeysOf(committed) <= KeysOf(rows)
    ensures ApplyRows(ApplyRows(t, committed), rows) == ApplyRows(t, rows)
  {
    ApplyElsewhere(t, committed);
    ApplyForgets(ApplyRows(t, committed), t, rows);
  }

  lemma {:induction false} ApplyHolds(t: Table, rows: seq<Row>, k: int)
    requires k in KeysOf(rows)
    ensures k in ApplyRows(t, rows) && ApplyRows(t, rows)[k] in rows && ApplyRows(t, rows)[k].key == k
    decreases |rows|
  {
    var n := |rows| - 1;
    if rows[n].key != k {
      var r :| r in rows && r.key == k;
      assert r in rows[..n];
      ApplyHolds(t, rows[..n], k);
    }
  }

  /** The last row of a key is the one that stays, and other keys stay as they were. */
  lemma LastRowStays(t: Table, rows: seq<Row>, i: nat, k: int)
    requires i < |rows| && forall j :: i < j < |rows| ==> rows[j].key != rows[i].key
    ensures rows[i].key in ApplyRows(t, rows) && ApplyRows(t, rows)[rows[i].key] == rows[i]
    ensures (forall j :: 0 <= j < |rows| ==> rows[j].key != k) ==>
              (k in ApplyRows(t, rows) <==> k in t) && (k in t ==> ApplyRows(t, rows)[k] == t[k])
  {
    hide ApplyRows;
    var before, after := rows[..i + 1], rows[i + 1..];
    assert rows == before + after;
    ApplyAppend(t, before, after);
    ApplyElsewhere(ApplyRows(t, before), after);
    OneMoreRow(t, rows, i);
    assert forall r :: r in after ==> r.key != rows[i].key;
    ApplyElsewhere(t, rows);
    assert (forall j :: 0 <= j < |rows| ==> rows[j].key != k) ==> k !in KeysOf(rows);
  }

  /** With distinct keys neither the order nor repetition of the writes matters. */
  lemma SameRowsSameTable(t: Table, written: seq<Row>, rows: seq<Row>)
    requires DistinctKeys(rows) && forall r :: r in written <==> r in rows
    ensures ApplyRows(t, written) == ApplyRows(t, rows)
  {
    hide ApplyRows;
    assert KeysOf(written) == KeysOf(rows);
    ApplyElsewhere(t, written);
    ApplyElsewhere(t, rows);
    var x, y := ApplyRows(t, written), ApplyRows(t, rows);
    assert x.Keys == y.Keys;
    forall k | k in x
      ensures x[k] == y[k]
    {
      if k in KeysOf(rows) {
        ApplyHolds(t, written, k);
        ApplyHolds(t, rows, k);
      }
    }
  }

  // ---- the serial run ----

  class Task {
    var rowsRead: nat
    var rowsWritten: nat
    var batches: nat

    constructor ()
      ensures rowsRead == 0 && rowsWritten == 0 && batches == 0
    {
      rowsRead, rowsWritten, batches := 0, 0, 0;
    }
  }

  class Target {
    const mode: Mode
    var table: Table
    /** Every row ever committed, in order. */
    ghost var log: seq<Row>

    constructor (mode: Mode, table: Table)
      ensures this.mode == mode && this.table == table && log == []
    {
      this.mode, this.table, log := mode, table, [];
    }

    /** The statement inside the transaction: an INSERT fails on a duplicate key. */
    method Exec(rows: seq<Row>) returns (done: Option<Table>)
      ensures done.None? <==> mode == Insert && !NoClash(table, rows)
      ensures done.Some? ==> done.value == ApplyRows(table, rows)
    {
      hide ApplyRows, NoClash;
      NoRows(table);
      assert rows[..0] == [];
      var t := table;
      for i := 0 to |rows|
        invariant t == ApplyRows(table, rows[..i])
        invariant mode == Insert ==> NoClash(table, rows[..i])
      {
        if mode == Insert && rows[i].key in t {
          KeyClashes(table, rows, i);
          return None;
        }
        OneMoreRow(table, rows, i);
        t := t[rows[i].key := rows[i]];
      }
      assert rows[..|rows|] == rows;
      return Some(t);
    }
  }

  lemma NoRows(t: Table)
    ensures ApplyRows(t, []) == t && NoClash(t, [])
  {
  }

  lemma NoClashAppend(t: Table, a: seq<Row>, b: seq<Row>)
    requires NoClash(t, a) && NoClash(ApplyRows(t, a), b)
    ensures NoClash(t, a + b)
  {
    hide ApplyRows;
    ApplyElsewhere(t, a);
    forall i, j | 0 <= i < |a| && 0 <= j < |b|
      ensures a[i].key != b[j].key
    {
      assert a[i] in a && b[j] in b;
    }
  }

  lemma OneMoreRow(t: Table, rows: seq<Row>, i: nat)
    requires i < |rows|
    ensures ApplyRows(t, rows[..i + 1]) == ApplyRows(t, rows[..i])[rows[i].key := rows[i]]
    ensures NoClash(t, rows[..i]) && rows[i].key !in ApplyRows(t, rows[..i]) ==> NoClash(t, rows[..i + 1])
  {
    assert rows[..i + 1][..i] == rows[..i];
    hide ApplyRows;
    var less := rows[..i];
    assert rows[..i + 1] == less + [rows[i]];
    if NoClash(t, less) && rows[i].key !in ApplyRows(t, less) {
      assert NoClash(ApplyRows(t, less), [rows[i]]);
      NoClashAppend(t, less, [rows[i]]);
    }
  }

  lemma KeyClashes(t: Table, rows: seq<Row>, i: nat)
    requires i < |rows| && rows[i].key in ApplyRows(t, rows[..i])
    ensures !NoClash(t, rows)
  {
    ApplyElsewhere(t, rows[..i]);
    assert rows[i] in rows;
    if rows[i].key in KeysOf(rows[..i]) {
      var r :| r in rows[..i] && r.key == rows[i].key;
      var j :| 0 <= j < i && rows[..i][j] == r;
      assert rows[j].key == rows[i].key;
    }
  }

  lemma NoClashSplits(t: Table, a: seq<Row>, b: seq<Row>)
    requires NoClash(t, a + b)
    ensures NoClash(t, a) && NoClash(ApplyRows(t, a), b)
  {
    hide ApplyRows;
    ApplyElsewhere(t, a);
    var all := a + b;
    assert forall i :: 0 <= i < |a| ==> all[i] == a[i];
    assert forall j :: 0 <= j < |b| ==> all[|a| + j] == b[j];
    forall r | r in b
      ensures r.key !in ApplyRows(t, a)
    {
      var j :| 0 <= j < |b| && b[j] == r;
      assert r in all;
      forall x | x in a
        ensures x.key != r.key
      {
        var i :| 0 <= i < |a| && a[i] == x;
        assert all[i].key != all[|a| + j].key;
      }
    }
  }

  /** The counters, the table and the history of its commits. */
  datatype Snapshot = Snapshot(mode: Mode, read: nat, written: nat, batches: nat, table: Table, log: seq<Row>)

  ghost function Shot(task: Task, tgt: Target): Snapshot
    reads task, tgt
  {
    Snapshot(tgt.mode, task.rowsRead, task.rowsWritten, task.batches, tgt.table, tgt.log)
  }

  /** An INSERT overwrites nothing. */
  ghost predicate Allowed(s: Snapshot, rows: seq<Row>) {
    s.mode == Insert ==> NoClash(s.table, rows)
  }

  ghost function Wrote(s: Snapshot, rows: seq<Row>): Snapshot {
    s.(written := s.written + |rows|, batches := s.batches + 1, table := ApplyRows(s.table, rows), log := s.log + rows)
  }

  /** One transaction: all rows of the batch, counted, or nothing. A failed commit counts as
      not applied. */
  method WriteBatch(task: Task, tgt: Target, rows: seq<Row>, fails: bool) returns (err: Option<MigrateError>)
    modifies task`rowsWritten, task`batches, tgt
    ensures err == None <==> !fails && Allowed(old(Shot(task, tgt)), rows)
    ensures Shot(task, tgt) == if err == None then Wrote(old(Shot(task, tgt)), rows) else old(Shot(task, tgt))
  {
    var done := tgt.Exec(rows);
    if done.None? || fails {
      return Some(WriteFailed);
    }
    tgt.table, tgt.log := done.value, tgt.log + rows;
    task.rowsWritten := task.rowsWritten + |rows|;
    task.batches := task.batches + 1;
    return None;
  }

  /** ceil(n / batch) */
  ghost function BatchesFor(n: nat, batch: int): nat
    requires batch > 0
  {
    (n + batch - 1) / batch
  }

  lemma {:induction false} WholeBatches(k: nat, batch: int, rest: nat)
    requires batch > 0 && rest <= batch
    ensures BatchesFor(k * batch + rest, batch) == k + if rest == 0 then 0 else 1
  {
    var n := k * batch + rest + batch - 1;
    if rest == 0 {
      DivisionUnique(n, batch, k, batch - 1);
    } else {
      assert (k + 1) * batch == k * batch + batch;
      DivisionUnique(n, batch, k + 1, rest - 1);
    }
  }

  /** From s to t: `read` rows read, and exactly the first `written` of them committed, in
      order, in `batches` transactions. */
  ghost predicate Moved(s: Snapshot, rows: seq<Row>, read: nat, written: nat, batches: nat, t: Snapshot) {
    && written <= |rows|
    && t.mode == s.mode && Allowed(s, rows[..written])
    && t.read == s.read + read && t.written == s.written + written && t.batches == s.batches + batches
    && t.log == s.log + rows[..written] && t.table == ApplyRows(s.table, rows[..written])
  }

  lemma MovedNothing(s: Snapshot, rows: seq<Row>)
    ensures Moved(s, rows, 0, 0, 0, s)
  {
  }

  lemma MovedMore(s: Snapshot, rows: seq<Row>, read: nat, written: nat, batches: nat, t: Snapshot, buf: seq<Row>)
    requires Moved(s, rows, read, written, batches, t)
    requires written + |buf| <= |rows| && buf == rows[written..written + |buf|]
    ensures Allowed(t, buf) ==> Moved(s, rows, read, written + |buf|, batches + 1, Wrote(t, buf))
  {
    hide NoClash, ApplyRows;
    ApplyAppend(s.table, rows[..written], buf);
    assert rows[..written] + buf == rows[..written + |buf|];
    if s.mode == Insert && Allowed(t, buf) {
      NoClashAppend(s.table, rows[..written], buf);
    }
  }

  lemma MovedRead(s: Snapshot, rows: seq<Row>, read: nat, written: nat, batches: nat, t: Snapshot)
    requires Moved(s, rows, read, written, batches, t)
    ensures Moved(s, rows, read + 1, written, batches, t.(read := t.read + 1))
  {
  }

  /** What goes wrong in a run: the query, the context or the scan at some row (counted from
      0), the end of the rows, or some transactions (also counted from 0). */
  datatype Faults = Faults(query: bool, cancelAt: Option<nat>, scanAt: Option<nat>, read: bool, writes: set<nat>)

  ghost predicate Reached(at: Option<nat>, n: nat) {
    at.Some? && at.value < n
  }

  /** Nothing goes wrong, and a plain INSERT meets no duplicate. */
  ghost predicate Healthy(f: Faults, s: Snapshot, rows: seq<Row>, batch: int)
    requires batch > 0
  {
    && !f.query && !Reached(f.cancelAt, |rows|) && !Reached(f.scanAt, |rows|) && !f.read
    && (forall b :: 0 <= b < BatchesFor(|rows|, batch) ==> b !in f.writes)
    && Allowed(s, rows)
  }

  /** A batch of a run in which no key clashes does not clash either; the run's own success
      says the rest. */
  lemma BatchAllowed(s: Snapshot, rows: seq<Row>, read: nat, written: nat, batches: nat, t: Snapshot, buf: seq<Row>)
    requires Moved(s, rows, read, written, batches, t)
    requires written + |buf| <= |rows| && buf == rows[written..written + |buf|]
    ensures Allowed(s, rows) ==> Allowed(t, buf)
  {
    hide NoClash, ApplyRows;
    if s.mode == Insert && Allowed(s, rows) {
      var upTo := rows[..written] + buf;
      assert rows == upTo + rows[written + |buf|..];
      NoClashSplits(s.table, upTo, rows[written + |buf|..]);
      NoClashSplits(s.table, rows[..written], buf);
    }
  }

  lemma BatchInRun(n: nat, batch: int, k: nat, more: nat)
    requires batch > 0 && more > 0 && k * batch + more <= n && more <= batch
    ensures k < BatchesFor(n, batch)
  {
    WholeBatches(k, batch, more);
    DivisionMonotone(k * batch + more + batch - 1, n + batch - 1, batch);
  }

  /** In the serial loop: i rows read, k whole batches written, the rest in the buffer. */
  ghost predicate Reading(f: Faults, s: Snapshot, rows: seq<Row>, batch: int, i: nat, k: nat, buf: seq<Row>,
                          t: Snapshot)
  {
    && 0 <= k * batch <= i <= |rows| && |buf| <= batch && buf == rows[k * batch..i]
    && Moved(s, rows, i, k * batch, k, t)
    && !f.query && !Reached(f.cancelAt, i) && !Reached(f.scanAt, i) && forall b :: 0 <= b < k ==> b !in f.writes
  }

  lemma ReadingStarts(f: Faults, s: Snapshot, rows: seq<Row>, batch: int)
    requires batch > 0
    ensures !f.query ==> Reading(f, s, rows, batch, 0, 0, [], s)
    ensures Moved(s, rows, 0, 0, BatchesFor(0, batch), s)
  {
    hide Moved;
    MovedNothing(s, rows);
    WholeBatches(0, batch, 0);
  }

  lemma ReadingStops(f: Faults, s: Snapshot, rows: seq<Row>, batch: int, i: nat, k: nat, buf: seq<Row>, t: Snapshot)
    requires batch > 0 && Reading(f, s, rows, batch, i, k, buf, t)
    ensures 0 <= k * batch <= i && k * batch + |buf| == i && k * batch % batch == 0
    ensures Moved(s, rows, i, k * batch, BatchesFor(k * batch, batch), t)
  {
    hide Moved;
    WholeBatches(k, batch, 0);
    MultipleOf(k, batch);
  }

  lemma MultipleOf(k: nat, batch: int)
    requires batch > 0
    ensures k * batch % batch == 0
  {
    DivisionUnique(k * batch, batch, k, 0);
  }

  lemma ReadingMore(f: Faults, s: Snapshot, rows: seq<Row>, batch: int, i: nat, k: nat, buf: seq<Row>, t: Snapshot)
    requires Reading(f, s, rows, batch, i, k, buf, t) && i < |rows| && |buf| < batch
    requires f.cancelAt != Some(i) && f.scanAt != Some(i)
    ensures Reading(f, s, rows, batch, i + 1, k, buf + [rows[i]], t.(read := t.read + 1))
  {
    hide Moved;
    MovedRead(s, rows, i, k * batch, k, t);
  }

  lemma BatchFull(f: Faults, s: Snapshot, rows: seq<Row>, batch: int, i: nat, k: nat, buf: seq<Row>, t: Snapshot,
                  u: Snapshot)
    requires Reading(f, s, rows, batch, i, k, buf, t) && |buf| == batch && k !in f.writes
    requires Moved(s, rows, i, k * batch + |buf|, k + 1, u)
    ensures Reading(f, s, rows, batch, i, k + 1, [], u)
  {
    hide Moved;
    assert (k + 1) * batch == k * batch + batch;
  }

  /** runSerial over the rows its query selects: however it stops, exactly the first
      `written` rows are committed, in order. It stops early exactly when something goes
      wrong or an INSERT clashes. */
  method RunSerial(task: Task, tgt: Target, rows: seq<Row>, batch: int, f: Faults)
    returns (err: Option<MigrateError>, ghost read: nat, ghost written: nat)
    requires batch > 0
    modifies task, tgt
    ensures written <= read <= |rows| && (err == None ==> written == |rows|)
    ensures written == |rows| || written % batch == 0
    ensures Moved(old(Shot(task, tgt)), rows, read, written, BatchesFor(written, batch), Shot(task, tgt))
    ensures err == None <==> Healthy(f, old(Shot(task, tgt)), rows, batch)
  {
    hide Moved, Wrote, BatchesFor, Allowed, Healthy, Reading, Reached;
    ghost var s0 := Shot(task, tgt);
    read, written := 0, 0;
    ReadingStarts(f, s0, rows, batch);
    Unhealthy(f, s0, rows, batch);
    if f.query {
      return Some(QueryFailed), read, written;
    }
    var buf: seq<Row> := [];
    var k: nat := 0;
    for i := 0 to |rows|
      invariant |buf| < batch && Reading(f, s0, rows, batch, i, k, buf, Shot(task, tgt))
    {
      ReadingStops(f, s0, rows, batch, i, k, buf, Shot(task, tgt));
      read, written := i, k * batch;
      if f.cancelAt == Some(i) {
        return Some(Canceled), read, written;
      }
      if f.scanAt == Some(i) {
        return Some(ScanFailed), read, written;
      }
      ReadingMore(f, s0, rows, batch, i, k, buf, Shot(task, tgt));
      buf := buf + [rows[i]];
      task.rowsRead := task.rowsRead + 1;
      if |buf| >= batch {
        ghost var t := Shot(task, tgt);
        err := WriteNext(task, tgt, rows, buf, batch, f, i + 1, k, s0);
        if err != None {
          ReadingStops(f, s0, rows, batch, i + 1, k, buf, t);
          read := i + 1;
          return;
        }
        BatchFull(f, s0, rows, batch, i + 1, k, buf, t, Shot(task, tgt));
        k, buf := k + 1, [];
      }
    }
    ReadingStops(f, s0, rows, batch, |rows|, k, buf, Shot(task, tgt));
    read, written := |rows|, k * batch;
    if f.read {
      return Some(ReadFailed), read, written;
    }
    ghost var t := Shot(task, tgt);
    if |buf| > 0 {
      err := WriteNext(task, tgt, rows, buf, batch, f, |rows|, k, s0);
      if err != None {
        return;
      }
    }
    RanWell(f, s0, rows, batch, k, buf, t, Shot(task, tgt));
    written := |rows|;
    err := None;
  }

  lemma Unhealthy(f: Faults, s: Snapshot, rows: seq<Row>, batch: int)
    requires batch > 0
    ensures f.query || f.read ==> !Healthy(f, s, rows, batch)
    ensures forall i :: 0 <= i < |rows| && (f.cancelAt == Some(i) || f.scanAt == Some(i)) ==>
                          !Healthy(f, s, rows, batch)
  {
  }

  lemma RanWell(f: Faults, s: Snapshot, rows: seq<Row>, batch: int, k: nat, buf: seq<Row>, t: Snapshot, u: Snapshot)
    requires batch > 0 && Reading(f, s, rows, batch, |rows|, k, buf, t) && !f.read
    requires if buf == [] then u == t else k !in f.writes && Moved(s, rows, |rows|, k * batch + |buf|, k + 1, u)
    ensures Healthy(f, s, rows, batch) && Moved(s, rows, |rows|, |rows|, BatchesFor(|rows|, batch), u)
  {
    hide Allowed;
    WholeBatches(k, batch, |buf|);
    assert rows[..|rows|] == rows;
  }

  /** Batch k of a run, after i rows. */
  method WriteNext(task: Task, tgt: Target, rows: seq<Row>, buf: seq<Row>, batch: int, f: Faults, i: nat, k: nat,
                   ghost s: Snapshot)
    returns (err: Option<MigrateError>)
    requires batch > 0 && |buf| > 0 && Reading(f, s, rows, batch, i, k, buf, Shot(task, tgt))
    modifies task`rowsWritten, task`batches, tgt
    ensures err == None ==> k !in f.writes && Moved(s, rows, i, k * batch + |buf|, k + 1, Shot(task, tgt))
    ensures err != None ==> !Healthy(f, s, rows, batch) && Shot(task, tgt) == old(Shot(task, tgt))
  {
    hide Moved, Wrote, Allowed, BatchesFor;
    BatchInRun(|rows|, batch, k, |buf|);
    MovedMore(s, rows, i, k * batch, k, Shot(task, tgt), buf);
    BatchAllowed(s, rows, i, k * batch, k, Shot(task, tgt), buf);
    err := WriteBatch(task, tgt, buf, k in f.writes);
  }

  // ---- the rows of each range ----

  ghost function InRange(rows: seq<Row>, r: PkRange): seq<Row>
    decreases |rows|
  {
    if rows == [] then [] else
      var last := rows[|rows| - 1];
      InRange(rows[..|rows| - 1], r) + if r.lo <= last.key <= r.hi then [last] else []
  }

  lemma {:induction false} InRangeCount(rows: seq<Row>, r: PkRange, x: Row)
    ensures multiset(InRange(rows, r))[x] == if r.lo <= x.key <= r.hi then multiset(rows)[x] else 0
    decreases |rows|
  {
    if rows != [] {
      var n := |rows| - 1;
      InRangeCount(rows[..n], r, x);
      assert rows == rows[..n] + [rows[n]];
    }
  }

  /** How many ranges hold a key. */
  ghost function Holders(rs: seq<PkRange>, k: int): nat
    decreases |rs|
  {
    if rs == [] then 0 else
      Holders(rs[..|rs| - 1], k) + if rs[|rs| - 1].lo <= k <= rs[|rs| - 1].hi then 1 else 0
  }

  lemma {:induction false} HoldersAppend(a: seq<PkRange>, b: seq<PkRange>, k: int)
    ensures Holders(a + b, k) == Holders(a, k) + Holders(b, k)
    decreases |b|
  {
    if b == [] {
      assert a + b == a;
    } else {
      HoldersAppend(a, b[..|b| - 1], k);
      assert (a + b)[..|a + b| - 1] == a + b[..|b| - 1];
    }
  }

  /** At most one holder among disjoint ranges. */
  lemma {:induction false} HoldersOfApart(rs: seq<PkRange>, k: int)
    requires forall i, j :: Holds(rs, i, k) && Holds(rs, j, k) ==> i == j
    ensures Holders(rs, k) == if exists i :: Holds(rs, i, k) then 1 else 0
    decreases |rs|
  {
    if rs != [] {
      var n := |rs| - 1;
      forall i
        ensures Holds(rs[..n], i, k) <==> Holds(rs, i, k) && i < n
      {
      }
      HoldersOfApart(rs[..n], k);
      if rs[n].lo <= k <= rs[n].hi {
        assert Holds(rs, n, k);
        assert forall i :: !Holds(rs[..n], i, k);
      } else if i :| Holds(rs, i, k) {
        assert i != n;
        assert Holds(rs[..n], i, k);
      } else {
        assert forall i :: !Holds(rs[..n], i, k);
      }
    }
  }

  lemma PartitionHolders(rs: seq<PkRange>, minV: int, maxV: int, k: int)
    requires IsPartition(rs, minV, maxV)
    ensures Holders(rs, k) == if minV <= k <= maxV then 1 else 0
  {
    PartitionCovers(rs, minV, maxV, k);
    HoldersOfApart(rs, k);
  }

  /** Every key of the table is read by one channel, or after an overrun by two. */
  lemma SplitHolders(minV: int, maxV: int, channels: int, k: int)
    requires IsInt64(minV) && IsInt64(maxV) && 1 < channels <= MAX_INT64 && minV <= k <= maxV
    ensures Holders(Split(minV, maxV, channels), k) == if Overruns(minV, maxV, channels) then 2 else 1
  {
    var rs := Split(minV, maxV, channels);
    if Overruns(minV, maxV, channels) {
      var span := Span(minV, maxV);
      var first, again := Pieces(minV, maxV, span, 1), Pieces(MIN_INT64, MAX_INT64, channels - span, 1);
      PiecesPartition(minV, maxV, span, 1);
      PiecesPartition(MIN_INT64, MAX_INT64, channels - span, 1);
      PartitionHolders(first, minV, maxV, k);
      PartitionHolders(again, MIN_INT64, MAX_INT64, k);
      HoldersAppend(first, again, k);
    } else {
      SplitPartitionsExactly(minV, maxV, channels);
      PartitionHolders(rs, minV, maxV, k);
    }
  }

  // ---- several channels at once ----

  datatype Status = Working | Finished | Failed

  /** One goroutine: the rows of its query, how many it has read and how many committed. */
  datatype Channel = Channel(rows: seq<Row>, read: nat, written: nat, status: Status) {
    ghost predicate Valid() {
      written <= read <= |rows| && (status == Finished ==> written == |rows|)
    }

    /** Only whole batches were committed, and then the rest; the buffer is at most one batch. */
    ghost predicate InBatches(batch: int)
      requires batch > 0
    {
      read - written <= batch && (written == |rows| || written % batch == 0)
    }

    ghost function Done(): multiset<Row> {
      if written <= |rows| then multiset(rows[..written]) else multiset{}
    }
  }

  ghost function Reads(cs: seq<Channel>): nat
    decreases |cs|
  {
    if cs == [] then 0 else Reads(cs[..|cs| - 1]) + cs[|cs| - 1].read
  }

  ghost function Writes(cs: seq<Channel>): nat
    decreases |cs|
  {
    if cs == [] then 0 else Writes(cs[..|cs| - 1]) + cs[|cs| - 1].written
  }

  /** How many transactions the channels have committed so far. */
  ghost function BatchCount(cs: seq<Channel>, batch: int): int
    requires batch > 0
    decreases |cs|
  {
    if cs == [] then 0 else BatchCount(cs[..|cs| - 1], batch) + BatchesFor(cs[|cs| - 1].written, batch)
  }

  /** The rows that the channels have committed so far. */
  ghost function Committed(cs: seq<Channel>): multiset<Row>
    decreases |cs|
  {
    if cs == [] then multiset{} else Committed(cs[..|cs| - 1]) + cs[|cs| - 1].Done()
  }

  lemma {:induction false} CountersUpdate(cs: seq<Channel>, i: nat, c: Channel)
    requires i < |cs|
    ensures Reads(cs[i := c]) + cs[i].read == Reads(cs) + c.read
    ensures Writes(cs[i := c]) + cs[i].written == Writes(cs) + c.written
    decreases |cs|
  {
    var n := |cs| - 1;
    if i < n {
      CountersUpdate(cs[..n], i, c);
      assert cs[i := c][..n] == cs[..n][i := c];
    } else {
      assert cs[i := c][..n] == cs[..n];
    }
  }

  lemma {:induction false} CommittedUpdate(cs: seq<Channel>, i: nat, c: Channel, x: Row)
    requires i < |cs|
    ensures Committed(cs[i := c])[x] + cs[i].Done()[x] == Committed(cs)[x] + c.Done()[x]
    decreases |cs|
  {
    hide Channel.Done;
    var n := |cs| - 1;
    if i < n {
      CommittedUpdate(cs[..n], i, c, x);
      assert cs[i := c][..n] == cs[..n][i := c];
    } else {
      assert cs[i := c][..n] == cs[..n];
    }
  }

  /** One atomic step of a goroutine: it gives up, reads a row, commits its buffer when that
      is full or the rows are out, or finishes. */
  ghost predicate ChannelStep(c: Channel, d: Channel, s: Snapshot, t: Snapshot, batch: int) {
    && c.Valid() && c.status == Working
    && match d.status
       case Failed => d == c.(status := Failed) && t == s
       case Finished => c.written == |c.rows| && d == c.(status := Finished) && t == s
       case Working =>
         if d.written == c.written then
           && c.read < |c.rows| && c.read - c.written < batch
           && d == c.(read := c.read + 1) && t == s.(read := s.read + 1)
         else
           && (c.read - c.written >= batch || c.read == |c.rows|)
           && d == c.(written := c.read) && t == Wrote(s, c.rows[c.written..c.read])
           && Allowed(s, c.rows[c.written..c.read])
  }

  ghost function Pending(c: Channel): int {
    (if c.status == Working then 1 else 0) + 2 * |c.rows| - c.read - c.written
  }

  /** `faulty`: something may go wrong in this step. */
  method StepChannel(task: Task, tgt: Target, c: Channel, batch: int, faulty: bool) returns (d: Channel)
    requires c.Valid() && c.status == Working && batch > 0
    modifies task, tgt
    ensures ChannelStep(c, d, old(Shot(task, tgt)), Shot(task, tgt), batch)
    ensures !faulty && Allowed(old(Shot(task, tgt)), c.rows[c.written..c.read]) ==> d.status != Failed
  {
    hide Wrote, NoClash;
    if faulty {
      var failed: bool := *;
      if failed {
        return c.(status := Failed);
      }
    }
    if c.read - c.written >= batch || (c.read == |c.rows| && c.written < c.read) {
      var err := WriteBatch(task, tgt, c.rows[c.written..c.read], false);
      d := if err == None then c.(written := c.read) else c.(status := Failed);
    } else if c.read < |c.rows| {
      task.rowsRead := task.rowsRead + 1;
      d := c.(read := c.read + 1);
    } else {
      d := c.(status := Finished);
    }
  }

  ghost function New(s: Snapshot, t: Snapshot): seq<Row>
    requires |s.log| <= |t.log|
  {
    t.log[|s.log|..]
  }

  /** What all interleavings keep: the counters are the channels' counters, and what was
      written is what the channels committed. */
  ghost predicate Together(s: Snapshot, cs: seq<Channel>, t: Snapshot) {
    && (forall i :: 0 <= i < |cs| ==> cs[i].Valid())
    && t.mode == s.mode && t.read == s.read + Reads(cs) && t.written == s.written + Writes(cs)
    && s.log <= t.log && |New(s, t)| == Writes(cs)
    && t.table == ApplyRows(s.table, New(s, t)) && Allowed(s, New(s, t))
    && forall x :: multiset(New(s, t))[x] == Committed(cs)[x]
  }

  lemma TogetherStep(s: Snapshot, cs: seq<Channel>, t: Snapshot, i: nat, d: Channel, u: Snapshot, batch: int)
    requires Together(s, cs, t) && i < |cs| && ChannelStep(cs[i], d, t, u, batch)
    ensures Together(s, cs[i := d], u)
  {
    hide Committed, Reads, Writes, ApplyRows, Channel.Done, NoClash;
    var c := cs[i];
    CountersUpdate(cs, i, d);
    forall x
      ensures multiset(New(s, u))[x] == Committed(cs[i := d])[x]
    {
      CommittedUpdate(cs, i, d, x);
      CommitCounts(s, t, u, c, d, batch, x);
    }
    if d.written != c.written {
      assert New(s, u) == New(s, t) + c.rows[c.written..c.read];
      ApplyAppend(s.table, New(s, t), c.rows[c.written..c.read]);
      if s.mode == Insert {
        NoClashAppend(s.table, New(s, t), c.rows[c.written..c.read]);
      }
    }
  }

  lemma CommitCounts(s: Snapshot, t: Snapshot, u: Snapshot, c: Channel, d: Channel, batch: int, x: Row)
    requires s.log <= t.log && ChannelStep(c, d, t, u, batch)
    ensures s.log <= u.log
    ensures multiset(New(s, u))[x] + c.Done()[x] == multiset(New(s, t))[x] + d.Done()[x]
  {
    if d.written != c.written {
      var more := c.rows[c.written..c.read];
      assert New(s, u) == New(s, t) + more;
      assert d.rows[..d.written] == c.rows[..c.written] + more;
    }
  }

  // ---- the transactions of all channels ----

  /** The counter of transactions is the channels' counters. */
  ghost predicate Counted(s: Snapshot, cs: seq<Channel>, t: Snapshot, batch: int)
    requires batch > 0
  {
    (forall i :: 0 <= i < |cs| ==> cs[i].InBatches(batch)) && t.batches == s.batches + BatchCount(cs, batch)
  }

  lemma {:induction false} BatchCountUpdate(cs: seq<Channel>, i: nat, c: Channel, batch: int)
    requires i < |cs| && batch > 0
    ensures BatchCount(cs[i := c], batch) + BatchesFor(cs[i].written, batch) ==
            BatchCount(cs, batch) + BatchesFor(c.written, batch)
    decreases |cs|
  {
    hide BatchesFor;
    var n := |cs| - 1;
    if i < n {
      BatchCountUpdate(cs[..n], i, c, batch);
      assert cs[i := c][..n] == cs[..n][i := c];
    } else {
      assert cs[i := c][..n] == cs[..n];
    }
  }

  /** Committing the buffer is one transaction more, and leaves the channel in batches. */
  lemma NextBatch(c: Channel, batch: int)
    requires batch > 0 && c.Valid() && c.InBatches(batch) && c.written < c.read
    requires c.read - c.written >= batch || c.read == |c.rows|
    ensures c.(written := c.read).InBatches(batch)
    ensures BatchesFor(c.read, batch) == BatchesFor(c.written, batch) + 1
  {
    hide BatchesFor;
    var k, rest := c.written / batch, c.read - c.written;
    assert c.written == k * batch;
    WholeBatches(k, batch, 0);
    WholeBatches(k, batch, rest);
    if rest == batch {
      assert (k + 1) * batch == k * batch + batch;
      MultipleOf(k + 1, batch);
    }
  }

  lemma CountedStep(s: Snapshot, cs: seq<Channel>, t: Snapshot, i: nat, d: Channel, u: Snapshot, batch: int)
    requires batch > 0 && Counted(s, cs, t, batch) && i < |cs| && ChannelStep(cs[i], d, t, u, batch)
    ensures Counted(s, cs[i := d], u, batch)
  {
    hide BatchCount, BatchesFor, ApplyRows, NoClash, Channel.InBatches;
    var c := cs[i];
    BatchCountUpdate(cs, i, d, batch);
    StepInBatches(c, d, t, u, batch);
  }

  lemma StepInBatches(c: Channel, d: Channel, t: Snapshot, u: Snapshot, batch: int)
    requires batch > 0 && c.InBatches(batch) && ChannelStep(c, d, t, u, batch)
    ensures d.InBatches(batch)
    ensures u.batches - t.batches == BatchesFor(d.written, batch) - BatchesFor(c.written, batch)
  {
    hide BatchesFor, ApplyRows, NoClash;
    if d.written != c.written {
      NextBatch(c, batch);
    }
  }

  /** How many transactions the rows of these ranges take. */
  ghost function BatchesOf(rows: seq<Row>, ranges: seq<PkRange>, batch: int): int
    requires batch > 0
    decreases |ranges|
  {
    if ranges == [] then 0 else
      var n := |ranges| - 1;
      BatchesOf(rows, ranges[..n], batch) + (|InRange(rows, ranges[n])| + batch - 1) / batch
  }

  lemma {:induction false} BatchTotal(cs: seq<Channel>, rows: seq<Row>, ranges: seq<PkRange>, batch: int)
    requires batch > 0 && Dealt(cs, rows, ranges)
    requires forall i :: 0 <= i < |cs| ==> cs[i].Valid() && cs[i].status == Finished
    ensures BatchCount(cs, batch) == BatchesOf(rows, ranges, batch) && Reads(cs) == Writes(cs)
    decreases |cs|
  {
    hide InRange, Dealt;
    DealtLength(cs, rows, ranges);
    if cs != [] {
      var n := |cs| - 1;
      DealtWithoutLast(cs, rows, ranges);
      BatchTotal(cs[..n], rows, ranges[..n], batch);
      assert |cs[n].rows| == |multiset(cs[n].rows)| == |InRange(rows, ranges[n])|;
    }
  }

  lemma DealtLength(cs: seq<Channel>, rows: seq<Row>, ranges: seq<PkRange>)
    requires Dealt(cs, rows, ranges)
    ensures |cs| == |ranges|
  {
  }

  // ---- all channels done ----

  ghost predicate Dealt(cs: seq<Channel>, rows: seq<Row>, ranges: seq<PkRange>) {
    |cs| == |ranges| && forall i :: 0 <= i < |cs| ==> multiset(cs[i].rows) == multiset(InRange(rows, ranges[i]))
  }

  /** k times m. */
  ghost function Times(m: nat, k: nat): (r: nat)
    ensures r > 0 <==> m > 0 && k > 0
    ensures k == 1 ==> r == m
    ensures k == 2 ==> r == m + m
  {
    if k == 0 then 0 else Times(m, k - 1) + m
  }

  /** How often the queries of the ranges return row x together. */
  ghost function Returned(rows: seq<Row>, ranges: seq<PkRange>, x: Row): nat
    decreases |ranges|
  {
    if ranges == [] then 0 else
      Returned(rows, ranges[..|ranges| - 1], x) + multiset(InRange(rows, ranges[|ranges| - 1]))[x]
  }

  lemma {:induction false} ReturnedIs(rows: seq<Row>, ranges: seq<PkRange>, x: Row)
    ensures Returned(rows, ranges, x) == Times(multiset(rows)[x], Holders(ranges, x.key))
    decreases |ranges|
  {
    if ranges != [] {
      var n := |ranges| - 1;
      hide InRange;
      ReturnedIs(rows, ranges[..n], x);
      InRangeCount(rows, ranges[n], x);
    }
  }

  /** Nothing is written more often than the queries return it, and once all channels have
      finished, exactly that often. */
  lemma {:induction false} CommittedTotal(cs: seq<Channel>, rows: seq<Row>, ranges: seq<PkRange>, x: Row)
    requires Dealt(cs, rows, ranges) && forall i :: 0 <= i < |cs| ==> cs[i].Valid()
    ensures Committed(cs)[x] <= Returned(rows, ranges, x)
    ensures (forall i :: 0 <= i < |cs| ==> cs[i].status == Finished) ==> Committed(cs)[x] == Returned(rows, ranges, x)
    decreases |cs|
  {
    if cs != [] {
      hide Channel.Done, InRange, Dealt;
      var n := |cs| - 1;
      DealtWithoutLast(cs, rows, ranges);
      CommittedTotal(cs[..n], rows, ranges[..n], x);
      DoneCount(cs[n], x);
    }
  }

  lemma DealtWithoutLast(cs: seq<Channel>, rows: seq<Row>, ranges: seq<PkRange>)
    requires Dealt(cs, rows, ranges) && cs != []
    ensures |cs| == |ranges| && Dealt(cs[..|cs| - 1], rows, ranges[..|cs| - 1])
    ensures multiset(cs[|cs| - 1].rows) == multiset(InRange(rows, ranges[|cs| - 1]))
  {
    hide InRange;
  }

  lemma DealtOneMore(cs: seq<Channel>, rows: seq<Row>, ranges: seq<PkRange>, i: nat, c: Channel)
    requires i < |ranges| && Dealt(cs, rows, ranges[..i]) && multiset(c.rows) == multiset(InRange(rows, ranges[i]))
    ensures Dealt(cs + [c], rows, ranges[..i + 1])
  {
    hide InRange;
  }

  lemma DoneCount(c: Channel, x: Row)
    requires c.Valid()
    ensures c.Done()[x] <= multiset(c.rows)[x]
    ensures c.status == Finished ==> c.Done()[x] == multiset(c.rows)[x]
  {
    assert c.rows == c.rows[..c.written] + c.rows[c.written..];
  }

  // ---- when plain inserts go through ----

  /** Plain inserts: no key clashes, and no row is read twice. */
  ghost predicate OnceEach(s: Snapshot, rows: seq<Row>, ranges: seq<PkRange>) {
    s.mode == Insert ==> NoClash(s.table, rows) && forall x :: Returned(rows, ranges, x) <= 1
  }

  lemma SameKeySameRow(rows: seq<Row>, x: Row, y: Row)
    requires DistinctKeys(rows) && x in rows && y in rows && x.key == y.key
    ensures x == y
  {
  }

  lemma TwiceCounts(w: seq<Row>, i: nat, j: nat)
    requires i < j < |w| && w[i] == w[j]
    ensures multiset(w)[w[i]] >= 2
  {
    assert w == w[..j] + w[j..];
    assert w[i] == w[..j][i] && w[j] == w[j..][0];
    assert w[i] in multiset(w[..j]) && w[j] in multiset(w[j..]);
  }

  /** Selected rows, none of them twice, do not clash either. */
  lemma FewerDoNotClash(t: Table, w: seq<Row>, rows: seq<Row>)
    requires NoClash(t, rows) && forall x :: multiset(w)[x] <= 1 && (x in w ==> x in rows)
    ensures NoClash(t, w)
  {
    forall i, j | 0 <= i < j < |w|
      ensures w[i].key != w[j].key
    {
      if w[i].key == w[j].key {
        SameKeySameRow(rows, w[i], w[j]);
        TwiceCounts(w, i, j);
      }
    }
  }

  /** The buffer of a channel can be inserted, whatever the others have committed. */
  lemma NextIsAllowed(s: Snapshot, cs: seq<Channel>, t: Snapshot, rows: seq<Row>, ranges: seq<PkRange>, i: nat)
    requires Together(s, cs, t) && Dealt(cs, rows, ranges) && OnceEach(s, rows, ranges) && i < |cs|
    ensures cs[i].Valid() && Allowed(t, cs[i].rows[cs[i].written..cs[i].read])
  {
    hide Committed, Reads, Writes, ApplyRows, NoClash, Returned, Dealt;
    var c := cs[i];
    var buf := c.rows[c.written..c.read];
    if s.mode == Insert {
      forall x
        ensures multiset(New(s, t) + buf)[x] <= 1 && (x in New(s, t) + buf ==> x in rows)
      {
        CommittedNext(s, cs, t, rows, ranges, i, x);
        ReturnedIs(rows, ranges, x);
        assert x in New(s, t) + buf ==> x in multiset(New(s, t) + buf);
      }
      FewerDoNotClash(s.table, New(s, t) + buf, rows);
      NoClashSplits(s.table, New(s, t), buf);
    }
  }

  /** Committing the buffer would still write no row more often than the queries return it. */
  lemma CommittedNext(s: Snapshot, cs: seq<Channel>, t: Snapshot, rows: seq<Row>, ranges: seq<PkRange>, i: nat, x: Row)
    requires Together(s, cs, t) && Dealt(cs, rows, ranges) && i < |cs| && cs[i].Valid()
    ensures multiset(New(s, t) + cs[i].rows[cs[i].written..cs[i].read])[x] <= Returned(rows, ranges, x)
  {
    hide Committed, Reads, Writes, ApplyRows, NoClash, Returned, InRange;
    var c := cs[i];
    var d := c.(written := c.read);
    CommittedUpdate(cs, i, d, x);
    CommittedTotal(cs[i := d], rows, ranges, x);
    assert c.rows[..c.read] == c.rows[..c.written] + c.rows[c.written..c.read];
  }

  // ---- the parallel run ----

  ghost predicate IsMinMax(rows: seq<Row>, minV: int, maxV: int) {
    && (exists r :: r in rows && r.key == minV) && (exists r :: r in rows && r.key == maxV)
    && forall r :: r in rows ==> minV <= r.key <= maxV
  }

  /** SELECT MIN, MAX: no row gives NULL. */
  method MinMax(rows: seq<Row>) returns (r: Option<(int, int)>)
    ensures r.None? <==> rows == []
    ensures r.Some? ==> IsMinMax(rows, r.value.0, r.value.1)
  {
    if |rows| == 0 {
      return None;
    }
    var minV, maxV := rows[0].key, rows[0].key;
    for i := 1 to |rows|
      invariant IsMinMax(rows[..i], minV, maxV)
    {
      assert rows[..i + 1] == rows[..i] + [rows[i]];
      assert rows[i] in rows[..i + 1] && forall r :: r in rows[..i] ==> r in rows[..i + 1];
      minV := if rows[i].key < minV then rows[i].key else minV;
      maxV := if rows[i].key > maxV then rows[i].key else maxV;
    }
    assert rows[..|rows|] == rows;
    return Some((minV, maxV));
  }

  /** The query of one channel: the selected rows in its range. */
  method QueryRange(rows: seq<Row>, r: PkRange) returns (found: seq<Row>)
    ensures multiset(found) == multiset(InRange(rows, r))
  {
    found := [];
    for i := 0 to |rows|
      invariant found == InRange(rows[..i], r)
    {
      assert rows[..i + 1][..i] == rows[..i];
      if r.lo <= rows[i].key <= r.hi {
        found := found + [rows[i]];
      }
    }
    assert rows[..|rows|] == rows;
  }

  method Deal(rows: seq<Row>, ranges: seq<PkRange>) returns (cs: seq<Channel>)
    ensures Dealt(cs, rows, ranges)
    ensures forall i :: 0 <= i < |cs| ==> cs[i] == Channel(cs[i].rows, 0, 0, Working)
  {
    hide Dealt, InRange;
    cs := [];
    NothingDealt(rows);
    assert ranges[..0] == [];
    for i := 0 to |ranges|
      invariant |cs| == i && Dealt(cs, rows, ranges[..i])
      invariant forall j :: 0 <= j < i ==> cs[j] == Channel(cs[j].rows, 0, 0, Working)
    {
      var found := QueryRange(rows, ranges[i]);
      DealtOneMore(cs, rows, ranges, i, Channel(found, 0, 0, Working));
      cs := cs + [Channel(found, 0, 0, Working)];
    }
    assert ranges[..|ranges|] == ranges;
  }

  lemma NothingDealt(rows: seq<Row>)
    ensures Dealt([], rows, [])
  {
  }

  ghost function Left(cs: seq<Channel>): int
    decreases |cs|
  {
    if cs == [] then 0 else Left(cs[..|cs| - 1]) + Pending(cs[|cs| - 1])
  }

  lemma {:induction false} LeftUpdate(cs: seq<Channel>, i: nat, c: Channel)
    requires i < |cs|
    ensures Left(cs[i := c]) + Pending(cs[i]) == Left(cs) + Pending(c)
    decreases |cs|
  {
    hide Pending;
    var n := |cs| - 1;
    if i < n {
      LeftUpdate(cs[..n], i, c);
      assert cs[i := c][..n] == cs[..n][i := c];
    } else {
      assert cs[i := c][..n] == cs[..n];
    }
  }

  lemma {:induction false} LeftAtLeast(cs: seq<Channel>)
    requires forall i :: 0 <= i < |cs| ==> cs[i].Valid()
    ensures Left(cs) >= 0
    decreases |cs|
  {
    if cs != [] {
      assert cs[|cs| - 1].Valid();
      LeftAtLeast(cs[..|cs| - 1]);
    }
  }

  /** All goroutines at once, in any interleaving, until each has finished or failed; a
      failure stops no other. */
  method RunChannels(task: Task, tgt: Target, dealt: seq<Channel>, rows: seq<Row>, ranges: seq<PkRange>, batch: int,
                     faulty: bool)
    returns (cs: seq<Channel>)
    requires batch > 0 && Dealt(dealt, rows, ranges)
    requires forall i :: 0 <= i < |dealt| ==> dealt[i] == Channel(dealt[i].rows, 0, 0, Working)
    modifies task, tgt
    ensures Together(old(Shot(task, tgt)), cs, Shot(task, tgt)) && Dealt(cs, rows, ranges)
    ensures Counted(old(Shot(task, tgt)), cs, Shot(task, tgt), batch)
    ensures forall i :: 0 <= i < |cs| ==> cs[i].status != Working
    ensures !faulty && OnceEach(old(Shot(task, tgt)), rows, ranges) ==>
              forall i :: 0 <= i < |cs| ==> cs[i].status != Failed
  {
    hide Together, Counted, Dealt, ChannelStep, Channel.Valid, Shot, OnceEach, Allowed;
    ghost var s := Shot(task, tgt);
    cs := dealt;
    NothingYet(s, cs);
    NoneCounted(s, cs, batch);
    while exists i :: 0 <= i < |cs| && cs[i].status == Working
      invariant Together(s, cs, Shot(task, tgt)) && Dealt(cs, rows, ranges)
      invariant Counted(s, cs, Shot(task, tgt), batch)
      invariant !faulty && OnceEach(s, rows, ranges) ==> forall i :: 0 <= i < |cs| ==> cs[i].status != Failed
      decreases Left(cs)
    {
      var i :| 0 <= i < |cs| && cs[i].status == Working;
      AllValid(s, cs, Shot(task, tgt));
      ghost var before := Shot(task, tgt);
      assert cs[i].written <= cs[i].read <= |cs[i].rows| by {
        BufferFits(cs[i]);
      }
      if OnceEach(s, rows, ranges) {
        NextIsAllowed(s, cs, before, rows, ranges, i);
      }
      var d := StepChannel(task, tgt, cs[i], batch, faulty);
      TogetherStep(s, cs, before, i, d, Shot(task, tgt), batch);
      CountedStep(s, cs, before, i, d, Shot(task, tgt), batch);
      StepGoesOn(cs, rows, ranges, i, d, before, Shot(task, tgt), batch);
      cs := cs[i := d];
    }
  }

  lemma BufferFits(c: Channel)
    requires c.Valid()
    ensures c.written <= c.read <= |c.rows|
  {
  }

  lemma AllValid(s: Snapshot, cs: seq<Channel>, t: Snapshot)
    requires Together(s, cs, t)
    ensures s.log <= t.log && forall i :: 0 <= i < |cs| ==> cs[i].Valid()
  {
  }

  lemma StepGoesOn(cs: seq<Channel>, rows: seq<Row>, ranges: seq<PkRange>, i: nat, d: Channel, t: Snapshot, u: Snapshot,
                   batch: int)
    requires i < |cs| && ChannelStep(cs[i], d, t, u, batch) && Dealt(cs, rows, ranges)
    requires forall j :: 0 <= j < |cs| ==> cs[j].Valid()
    ensures Dealt(cs[i := d], rows, ranges) && 0 <= Left(cs[i := d]) < Left(cs)
  {
    LeftUpdate(cs, i, d);
    LeftAtLeast(cs[i := d]);
  }

  lemma {:induction false} NothingYet(s: Snapshot, cs: seq<Channel>)
    requires forall i :: 0 <= i < |cs| ==> cs[i] == Channel(cs[i].rows, 0, 0, Working)
    ensures Together(s, cs, s)
  {
    NothingCounted(cs);
    assert New(s, s) == [];
  }

  lemma {:induction false} NoneCounted(s: Snapshot, cs: seq<Channel>, batch: int)
    requires batch > 0 && forall i :: 0 <= i < |cs| ==> cs[i] == Channel(cs[i].rows, 0, 0, Working)
    ensures Counted(s, cs, s, batch)
    decreases |cs|
  {
    WholeBatches(0, batch, 0);
    if cs != [] {
      NoneCounted(s, cs[..|cs| - 1], batch);
    }
  }

  lemma {:induction false} NothingCounted(cs: seq<Channel>)
    requires forall i :: 0 <= i < |cs| ==> cs[i] == Channel(cs[i].rows, 0, 0, Working)
    ensures Reads(cs) == Writes(cs) == 0 && Committed(cs) == multiset{}
    decreases |cs|
  {
    if cs != [] {
      NothingCounted(cs[..|cs| - 1]);
    }
  }

  lemma {:induction false} WritesAtMostReads(cs: seq<Channel>)
    requires forall i :: 0 <= i < |cs| ==> cs[i].Valid()
    ensures Writes(cs) <= Reads(cs)
    decreases |cs|
  {
    if cs != [] {
      assert cs[|cs| - 1].Valid();
      WritesAtMostReads(cs[..|cs| - 1]);
    }
  }

  /** What one run did to the target: it wrote `written`, in that order, and counted it. */
  ghost predicate Did(s: Snapshot, written: seq<Row>, t: Snapshot) {
    && t.log == s.log + written && t.table == ApplyRows(s.table, written)
    && t.written == s.written + |written| && t.read - s.read >= |written| && Allowed(s, written)
  }

  /** Each row `times` times, and none else. */
  ghost predicate EachRow(written: seq<Row>, rows: seq<Row>, times: nat) {
    forall x :: multiset(written)[x] == Times(multiset(rows)[x], times)
  }

  ghost function TimesRead(rows: seq<Row>, channels: int): nat {
    if exists minV, maxV :: IsMinMax(rows, minV, maxV) && Overruns(minV, maxV, channels) then 2 else 1
  }

  lemma TimesReadIs(rows: seq<Row>, minV: int, maxV: int, channels: int)
    requires IsMinMax(rows, minV, maxV)
    ensures TimesRead(rows, channels) == if Overruns(minV, maxV, channels) then 2 else 1
  {
  }

  /** runParallel: whatever the interleaving and the failures, only selected rows are written,
      and without an error every row is written once, or twice if the ranges overrun. */
  method RunParallel(task: Task, tgt: Target, rows: seq<Row>, batch: int, channels: int, faulty: bool)
    returns (err: Option<MigrateError>, ghost written: seq<Row>)
    requires batch > 0 && 1 < channels <= MAX_INT64 && forall r :: r in rows ==> IsInt64(r.key)
    modifies task, tgt
    ensures Did(old(Shot(task, tgt)), written, Shot(task, tgt)) && KeysOf(written) <= KeysOf(rows)
    ensures err == None ==> EachRow(written, rows, TimesRead(rows, channels))
    ensures err == None ==> TookBatches(old(Shot(task, tgt)), rows, channels, batch, |written|, Shot(task, tgt))
    ensures !faulty ==> (err == None <==> Inserts(old(Shot(task, tgt)), rows, channels))
  {
    hide TookBatches, Counted, Together, Dealt, Did, OnceEach, Inserts, EachRow, TimesRead, IsMinMax, Split;
    written := [];
    ghost var s := Shot(task, tgt);
    NothingSelected(s, rows, channels, batch);
    if faulty {
      var failed: bool := *;
      if failed {
        return Some(ProbeFailed), written;
      }
    }
    var bounds := MinMax(rows);
    if bounds.None? {
      return None, written;
    }
    var (minV, maxV) := bounds.value;
    var ranges := SplitPKRanges(minV, maxV, channels);
    var cs := Deal(rows, ranges);
    InsertsOnce(s, rows, ranges, minV, maxV, channels);
    cs := RunChannels(task, tgt, cs, rows, ranges, batch, faulty);
    AllValid(s, cs, Shot(task, tgt));
    written := New(s, Shot(task, tgt));
    RunDid(s, cs, Shot(task, tgt), rows, ranges, minV, maxV, channels);
    RunTook(s, cs, Shot(task, tgt), rows, ranges, minV, maxV, channels, batch);
    if i :| 0 <= i < |cs| && cs[i].status == Failed {
      return Some(WriteFailed), written;
    }
    OnlyWithoutClash(s, written, Shot(task, tgt), rows, channels);
    err := None;
  }

  /** A successful parallel run read what it wrote, in the transactions of its ranges. */
  ghost predicate TookBatches(s: Snapshot, rows: seq<Row>, channels: int, batch: int, written: nat, t: Snapshot)
    requires batch > 0
  {
    && t.read == s.read + written && (rows == [] ==> t.batches == s.batches)
    && forall minV, maxV :: IsMinMax(rows, minV, maxV) ==>
                              t.batches == s.batches + BatchesOf(rows, Split(minV, maxV, channels), batch)
  }

  lemma RunTook(s: Snapshot, cs: seq<Channel>, t: Snapshot, rows: seq<Row>, ranges: seq<PkRange>, minV: int, maxV: int,
                channels: int, batch: int)
    requires batch > 0 && Together(s, cs, t) && Counted(s, cs, t, batch) && Dealt(cs, rows, ranges)
    requires IsMinMax(rows, minV, maxV) && ranges == Split(minV, maxV, channels)
    requires forall i :: 0 <= i < |cs| ==> cs[i].status != Working
    ensures s.log <= t.log
    ensures (forall i :: 0 <= i < |cs| ==> cs[i].status != Failed) ==>
              TookBatches(s, rows, channels, batch, |New(s, t)|, t)
  {
    hide Split, BatchCount, BatchesOf, BatchesFor, ApplyRows, NoClash, IsInt64, Dealt, Committed, Reads, Writes,
         IsMinMax;
    if forall i :: 0 <= i < |cs| ==> cs[i].status != Failed {
      BatchTotal(cs, rows, ranges, batch);
      OneMinMax(rows, minV, maxV);
    }
  }

  lemma OneMinMax(rows: seq<Row>, minV: int, maxV: int)
    requires IsMinMax(rows, minV, maxV)
    ensures rows != []
    ensures forall a, b :: IsMinMax(rows, a, b) ==> a == minV && b == maxV
  {
  }

  /** What plain inserts need: the ranges do not overrun and no key clashes. */
  ghost predicate Inserts(s: Snapshot, rows: seq<Row>, channels: int) {
    s.mode == Insert ==> TimesRead(rows, channels) == 1 && NoClash(s.table, rows)
  }

  lemma NothingSelected(s: Snapshot, rows: seq<Row>, channels: int, batch: int)
    requires batch > 0
    ensures rows == [] ==> TookBatches(s, rows, channels, batch, 0, s)
    ensures rows == [] ==> Did(s, [], s) && KeysOf([]) <= KeysOf(rows)
                           && EachRow([], rows, TimesRead(rows, channels)) && Inserts(s, rows, channels)
    ensures Did(s, [], s) && KeysOf([]) == {}
  {
    if rows == [] {
      assert forall minV, maxV :: !IsMinMax(rows, minV, maxV);
    }
  }

  lemma InsertsOnce(s: Snapshot, rows: seq<Row>, ranges: seq<PkRange>, minV: int, maxV: int, channels: int)
    requires IsMinMax(rows, minV, maxV)
    requires IsInt64(minV) && IsInt64(maxV) && 1 < channels <= MAX_INT64 && ranges == Split(minV, maxV, channels)
    ensures Inserts(s, rows, channels) ==> OnceEach(s, rows, ranges)
  {
    hide Split, Overruns, IsInt64, Holders, TimesRead, Returned;
    if s.mode == Insert && Inserts(s, rows, channels) {
      TimesReadIs(rows, minV, maxV, channels);
      forall x
        ensures Returned(rows, ranges, x) <= 1
      {
        ReturnedIs(rows, ranges, x);
        DistinctCount(rows, x);
        if x in rows {
          SplitHolders(minV, maxV, channels, x.key);
        }
      }
    }
  }

  /** Inserts that wrote everything met no clash and no overrun. */
  lemma OnlyWithoutClash(s: Snapshot, written: seq<Row>, t: Snapshot, rows: seq<Row>, channels: int)
    requires Did(s, written, t) && EachRow(written, rows, TimesRead(rows, channels)) && rows != []
    ensures Inserts(s, rows, channels)
  {
    hide TimesRead, ApplyRows;
    if s.mode == Insert {
      TimesReadRange(rows, channels);
      OverrunFailsInserts(s, written, rows);
      forall x
        ensures multiset(rows)[x] <= 1 && (x in rows ==> x in written)
      {
        DistinctCount(written, x);
        EachRowMembers(written, rows, 1);
      }
      FewerDoNotClash(s.table, rows, written);
    }
  }

  lemma TimesReadRange(rows: seq<Row>, channels: int)
    ensures TimesRead(rows, channels) == 1 || TimesRead(rows, channels) == 2
  {
  }

  lemma RunDid(s: Snapshot, cs: seq<Channel>, t: Snapshot, rows: seq<Row>, ranges: seq<PkRange>, minV: int, maxV: int,
               channels: int)
    requires Together(s, cs, t) && Dealt(cs, rows, ranges) && IsMinMax(rows, minV, maxV)
    requires IsInt64(minV) && IsInt64(maxV) && 1 < channels <= MAX_INT64 && ranges == Split(minV, maxV, channels)
    requires forall i :: 0 <= i < |cs| ==> cs[i].status != Working
    ensures s.log <= t.log && Did(s, New(s, t), t) && KeysOf(New(s, t)) <= KeysOf(rows)
    ensures (forall i :: 0 <= i < |cs| ==> cs[i].status != Failed) ==>
              EachRow(New(s, t), rows, TimesRead(rows, channels))
  {
    hide Split, Overruns, ApplyRows, IsInt64, Dealt, Committed, Holders, TimesRead, EachRow, Times, NoClash, New;
    RunCounts(s, cs, t);
    forall x
      ensures multiset(New(s, t))[x] <= Times(multiset(rows)[x], Holders(ranges, x.key))
    {
      WroteAtMost(s, cs, t, rows, ranges, x);
    }
    OnlySelected(New(s, t), rows, ranges);
    if forall i :: 0 <= i < |cs| ==> cs[i].status != Failed {
      WroteEachRow(s, cs, t, rows, ranges, minV, maxV, channels);
    }
  }

  lemma RunCounts(s: Snapshot, cs: seq<Channel>, t: Snapshot)
    requires Together(s, cs, t)
    ensures s.log <= t.log && Did(s, New(s, t), t)
  {
    hide ApplyRows, Committed, NoClash;
    WritesAtMostReads(cs);
  }

  lemma WroteAtMost(s: Snapshot, cs: seq<Channel>, t: Snapshot, rows: seq<Row>, ranges: seq<PkRange>, x: Row)
    requires Together(s, cs, t) && Dealt(cs, rows, ranges)
    ensures s.log <= t.log && multiset(New(s, t))[x] <= Times(multiset(rows)[x], Holders(ranges, x.key))
    ensures (forall i :: 0 <= i < |cs| ==> cs[i].status == Finished) ==>
              multiset(New(s, t))[x] == Times(multiset(rows)[x], Holders(ranges, x.key))
  {
    hide ApplyRows, Committed, NoClash, Dealt, Times, Holders, Allowed;
    CommittedTotal(cs, rows, ranges, x);
    ReturnedIs(rows, ranges, x);
  }

  lemma WroteEachRow(s: Snapshot, cs: seq<Channel>, t: Snapshot, rows: seq<Row>, ranges: seq<PkRange>, minV: int,
                     maxV: int, channels: int)
    requires Together(s, cs, t) && Dealt(cs, rows, ranges) && IsMinMax(rows, minV, maxV)
    requires IsInt64(minV) && IsInt64(maxV) && 1 < channels <= MAX_INT64 && ranges == Split(minV, maxV, channels)
    requires forall i :: 0 <= i < |cs| ==> cs[i].status == Finished
    ensures s.log <= t.log && EachRow(New(s, t), rows, TimesRead(rows, channels))
  {
    hide Split, Overruns, Together, IsInt64, Dealt, Holders, TimesRead, New;
    RunCounts(s, cs, t);
    TimesReadIs(rows, minV, maxV, channels);
    forall x
      ensures multiset(New(s, t))[x] == Times(multiset(rows)[x], TimesRead(rows, channels))
    {
      WroteAtMost(s, cs, t, rows, ranges, x);
      if x in rows {
        SplitHolders(minV, maxV, channels, x.key);
      }
    }
  }

  lemma OnlySelected(written: seq<Row>, rows: seq<Row>, ranges: seq<PkRange>)
    requires forall x :: multiset(written)[x] <= Times(multiset(rows)[x], Holders(ranges, x.key))
    ensures KeysOf(written) <= KeysOf(rows)
  {
    forall x | x in written
      ensures x in rows
    {
      assert x in multiset(written);
    }
  }

  lemma EachRowMembers(written: seq<Row>, rows: seq<Row>, times: nat)
    requires EachRow(written, rows, times) && times > 0
    ensures forall r :: r in written <==> r in rows
  {
    forall r
      ensures r in written <==> r in rows
    {
      assert r in written <==> multiset(written)[r] > 0;
      assert r in rows <==> multiset(rows)[r] > 0;
    }
  }

  /** A successful parallel run writes the same multiset of rows as a serial one exactly
      when the ranges do not overrun. */
  lemma ParallelIsSerial(written: seq<Row>, rows: seq<Row>, channels: int)
    requires EachRow(written, rows, TimesRead(rows, channels)) && rows != []
    ensures multiset(written) == multiset(rows) <==> TimesRead(rows, channels) == 1
  {
    assert rows[0] in multiset(rows);
    if TimesRead(rows, channels) == 1 {
      assert forall x :: multiset(written)[x] == multiset(rows)[x];
    } else {
      assert multiset(written)[rows[0]] == Times(multiset(rows)[rows[0]], 2);
    }
  }

  lemma {:induction false} DistinctCount(rows: seq<Row>, r: Row)
    requires DistinctKeys(rows)
    ensures multiset(rows)[r] <= 1
    decreases |rows|
  {
    if rows != [] {
      var n := |rows| - 1;
      assert rows == rows[..n] + [rows[n]];
      DistinctCount(rows[..n], r);
      if r == rows[n] {
        assert r !in rows[..n];
        assert multiset(rows[..n])[r] == 0;
      }
    }
  }

  /** Plain inserts never survive an overrun: writing every row twice would clash. */
  lemma OverrunFailsInserts(s: Snapshot, written: seq<Row>, rows: seq<Row>)
    requires s.mode == Insert && Allowed(s, written) && rows != []
    ensures !EachRow(written, rows, 2)
  {
    DistinctCount(written, rows[0]);
    assert rows[0] in multiset(rows);
    assert multiset(written)[rows[0]] != Times(multiset(rows)[rows[0]], 2);
  }

  /** The configured size if it is positive, otherwise 2000. */
  function EffectiveBatch(batchSize: int): (b: int)
    ensures b > 0
    ensures batchSize > 0 ==> b == batchSize
    ensures batchSize <= 0 ==> b == 2000
  {
    if batchSize <= 0 then DEFAULT_BATCH_SIZE else batchSize
  }

  /** The first rows were written, in whole batches and then the rest, and every transaction
      was counted. */
  ghost predicate InOrder(s: Snapshot, written: seq<Row>, rows: seq<Row>, batch: int, t: Snapshot)
    requires batch > 0
  {
    && written <= rows && (written == rows || |written| % batch == 0)
    && t.batches == s.batches + (|written| + batch - 1) / batch
  }

  /** The whole task: by key range on several channels if the source has a numeric primary
      key, else serially. With distinct keys a success leaves the same table either way. Rows
      are committed by the configured number, or by 2000 without one. */
  method Run(task: Task, tgt: Target, rows: seq<Row>, batchSize: int, channels: int, numericKey: bool, f: Faults,
             faulty: bool)
    returns (err: Option<MigrateError>, ghost written: seq<Row>)
    requires IsInt64(channels) && forall r :: r in rows ==> IsInt64(r.key)
    modifies task, tgt
    ensures Did(old(Shot(task, tgt)), written, Shot(task, tgt)) && KeysOf(written) <= KeysOf(rows)
    ensures err == None ==> forall r :: r in written <==> r in rows
    ensures err == None && TimesRead(rows, channels) == 1 ==> multiset(written) == multiset(rows)
    ensures err == None && DistinctKeys(rows) ==> tgt.table == ApplyRows(old(tgt.table), rows)
    ensures !faulty ==>
              (err == None <==> if channels > 1 && numericKey then Inserts(old(Shot(task, tgt)), rows, channels)
                                else Healthy(f, old(Shot(task, tgt)), rows, if batchSize > 0 then batchSize else 2000))
    ensures !(channels > 1 && numericKey) ==>
              && (err == None ==> written == rows)
              && InOrder(old(Shot(task, tgt)), written, rows, if batchSize > 0 then batchSize else 2000,
                         Shot(task, tgt))
    ensures err == None ==> task.rowsRead == old(task.rowsRead) + |written|
    ensures err == None && channels > 1 && numericKey ==>
              TookBatches(old(Shot(task, tgt)), rows, channels, if batchSize > 0 then batchSize else 2000, |written|,
                          Shot(task, tgt))
  {
    hide Moved, EachRow, TimesRead, DistinctKeys, ApplyRows, Allowed, KeysOf, Healthy, Inserts, TookBatches, BatchesFor,
         Did, InRange, IsMinMax, InOrder;
    written := [];
    NothingDid(Shot(task, tgt), rows, EffectiveBatch(batchSize));
    if faulty {
      var failed: bool := *;
      if failed {
        return Some(QueryFailed), written;
      }
    }
    var batch := EffectiveBatch(batchSize);
    if channels > 1 {
      if numericKey {
        err, written := RunByRange(task, tgt, rows, batch, channels, faulty);
        return;
      }
    }
    err, written := RunWhole(task, tgt, rows, batch, f);
  }

  /** The serial run of all rows. */
  method RunWhole(task: Task, tgt: Target, rows: seq<Row>, batch: int, f: Faults)
    returns (err: Option<MigrateError>, ghost written: seq<Row>)
    requires batch > 0
    modifies task, tgt
    ensures Did(old(Shot(task, tgt)), written, Shot(task, tgt)) && KeysOf(written) <= KeysOf(rows)
    ensures InOrder(old(Shot(task, tgt)), written, rows, batch, Shot(task, tgt))
    ensures err == None ==> written == rows && task.rowsRead == old(task.rowsRead) + |written|
    ensures err == None ==> tgt.table == ApplyRows(old(tgt.table), rows)
    ensures err == None <==> Healthy(f, old(Shot(task, tgt)), rows, batch)
  {
    hide Moved, ApplyRows, Allowed, KeysOf, Healthy, BatchesFor;
    ghost var s := Shot(task, tgt);
    ghost var read, n;
    err, read, n := RunSerial(task, tgt, rows, batch, f);
    written := rows[..n];
    SerialDid(s, rows, read, n, BatchesFor(n, batch), Shot(task, tgt));
    SerialTook(s, rows, read, n, batch, Shot(task, tgt));
    assert n == |rows| ==> written == rows;
  }

  method RunByRange(task: Task, tgt: Target, rows: seq<Row>, batch: int, channels: int, faulty: bool)
    returns (err: Option<MigrateError>, ghost written: seq<Row>)
    requires batch > 0 && 1 < channels <= MAX_INT64 && forall r :: r in rows ==> IsInt64(r.key)
    modifies task, tgt
    ensures Did(old(Shot(task, tgt)), written, Shot(task, tgt)) && KeysOf(written) <= KeysOf(rows)
    ensures err == None ==> forall r :: r in written <==> r in rows
    ensures err == None && TimesRead(rows, channels) == 1 ==> multiset(written) == multiset(rows)
    ensures err == None && DistinctKeys(rows) ==> tgt.table == ApplyRows(old(tgt.table), rows)
    ensures err == None ==> task.rowsRead == old(task.rowsRead) + |written|
    ensures err == None ==> TookBatches(old(Shot(task, tgt)), rows, channels, batch, |written|, Shot(task, tgt))
    ensures !faulty ==> (err == None <==> Inserts(old(Shot(task, tgt)), rows, channels))
  {
    hide EachRow, TimesRead, DistinctKeys, ApplyRows, Allowed, KeysOf, Inserts, TookBatches;
    ghost var s := Shot(task, tgt);
    err, written := RunParallel(task, tgt, rows, batch, channels, faulty);
    if err == None {
      ParallelEnds(s.table, written, rows, channels);
      ParallelTook(s, rows, channels, batch, |written|, Shot(task, tgt));
    }
  }

  lemma NothingDid(s: Snapshot, rows: seq<Row>, batch: int)
    requires batch > 0
    ensures Did(s, [], s) && KeysOf([]) <= KeysOf(rows) && InOrder(s, [], rows, batch, s)
  {
    WholeBatches(0, batch, 0);
  }

  lemma SerialTook(s: Snapshot, rows: seq<Row>, read: nat, written: nat, batch: int, t: Snapshot)
    requires batch > 0 && Moved(s, rows, read, written, BatchesFor(written, batch), t)
    ensures t.batches == s.batches + (written + batch - 1) / batch && t.read == s.read + read
  {
    hide ApplyRows, Allowed;
  }

  lemma SerialDid(s: Snapshot, rows: seq<Row>, read: nat, written: nat, batches: nat, t: Snapshot)
    requires Moved(s, rows, read, written, batches, t) && written <= read
    ensures Did(s, rows[..written], t) && KeysOf(rows[..written]) <= KeysOf(rows)
  {
    assert forall r :: r in rows[..written] ==> r in rows;
  }

  lemma ParallelTook(s: Snapshot, rows: seq<Row>, channels: int, batch: int, written: nat, t: Snapshot)
    requires batch > 0 && TookBatches(s, rows, channels, batch, written, t)
    ensures t.read == s.read + written
  {
  }

  lemma ParallelEnds(t: Table, written: seq<Row>, rows: seq<Row>, channels: int)
    requires EachRow(written, rows, TimesRead(rows, channels))
    ensures forall r :: r in written <==> r in rows
    ensures TimesRead(rows, channels) == 1 ==> multiset(written) == multiset(rows)
    ensures DistinctKeys(rows) ==> ApplyRows(t, written) == ApplyRows(t, rows)
  {
    hide ApplyRows, DistinctKeys;
    EachRowMembers(written, rows, TimesRead(rows, channels));
    if DistinctKeys(rows) {
      SameRowsSameTable(t, written, rows);
    }
    if TimesRead(rows, channels) == 1 {
      assert forall x :: multiset(written)[x] == multiset(rows)[x];
    }
  }
}
