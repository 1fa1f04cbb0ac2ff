/**
 * The write worker and a rebuild as a machine that moves between their `await`s, in
 * any interleaving, and may crash anywhere. A crash forgets what was in flight and
 * keeps both tiers.
 */
module Recovery {
  import opened Prelude
  import opened Embedding
  import opened Store
  import opened Files
  import opened Rebuild
  import opened History

  /** A write in flight, after validation or matching. */
  datatype Job = CommitJob(recs: seq<Record>, ds: Day, now: Time) | MarkJob(keys: seq<Key>, ds: Day, now: Time)

  function JobLines(job: Job): seq<Line> {
    match job
    case CommitJob(recs, ds, now) => PutLines(recs, ds, now)
    case MarkJob(keys, _, now) => Tombstones(keys, now)
  }

  datatype Worker = Idle | Working(job: Job, written: nat)

  /** A rebuild in flight: the events it has read, and how far it has got. */
  datatype Replayer = Off | Replaying(puts: seq<Files.Event>, dels: seq<Files.Event>, loaded: nat, marked: nat)

  datatype Machine = Machine(table: Table, log: Log, worker: Worker, replayer: Replayer)

  datatype Move =
    | Take(job: Job)          // the worker has validated or matched an operation
    | WriteLine               // one flushed append
    | Settle                  // the transaction, or the update
    | Fail                    // the worker gives the operation up
    | Read(snapshot: Log)     // the rebuild has read the files, perhaps during an append
    | Clear
    | LoadOne
    | MarkOne
    | Finish                  // the rebuild ends, well or badly
    | Crash

  ghost function Apply(spec: TableSpec, emb: Option<Embedder>, m: Machine, move: Move): Option<Machine> {
    match move
    case Take(job) => if m.worker.Idle? then Some(m.(worker := Working(job, 0))) else None
    case WriteLine =>
      if m.worker.Working? && m.worker.written < |JobLines(m.worker.job)| then
        Some(m.(log := Append(m.log, m.worker.job.ds, JobLines(m.worker.job)[m.worker.written]),
                worker := m.worker.(written := m.worker.written + 1)))
      else None
    case Settle =>
      if m.worker.Working? && m.worker.written == |JobLines(m.worker.job)| then
        Some(m.(table := Settled(spec, emb, m.table, m.worker.job), worker := Idle))
      else None
    case Fail => Some(m.(worker := Idle))
    case Read(snapshot) =>
      if m.replayer.Off? && Extends(snapshot, m.log) then
        EventKinds(snapshot);
        Some(m.(replayer := Replaying(PutsOf(Events(snapshot)), DelsOf(Events(snapshot)), 0, 0)))
      else None
    case Clear => if m.replayer.Replaying? then Some(m.(table := map[])) else None
    case LoadOne =>
      if m.replayer.Replaying? && m.replayer.loaded < |m.replayer.puts| && m.replayer.puts[m.replayer.loaded].line.Put? then
        Some(m.(table := Loaded(spec, emb, m.table, m.replayer.puts[m.replayer.loaded].line),
                replayer := m.replayer.(loaded := m.replayer.loaded + 1)))
      else None
    case MarkOne =>
      if m.replayer.Replaying? && m.replayer.marked < |m.replayer.dels| && m.replayer.dels[m.replayer.marked].line.Tombstone? then
        var e := m.replayer.dels[m.replayer.marked];
        Some(m.(table := SoftDeleted(m.table, [e.line.key], e.day, e.line.deletedAt),
                replayer := m.replayer.(marked := m.replayer.marked + 1)))
      else None
    case Finish => Some(m.(replayer := Off))
    case Crash => Some(m.(worker := Idle, replayer := Off))
  }

  /** The worker's last step on the table; a failed transaction changes nothing. */
  function Settled(spec: TableSpec, emb: Option<Embedder>, table: Table, job: Job): Table {
    match job
    case MarkJob(keys, ds, now) => SoftDeleted(table, keys, ds, now)
    case CommitJob(recs, ds, now) =>
      match Commit(spec, table, recs, IndexAll(emb, spec, recs), ds, now) case None => table case Some(t) => t
  }

  /** One reloaded put; a failed one changes nothing. */
  function Loaded(spec: TableSpec, emb: Option<Embedder>, table: Table, line: Line): Table
    requires line.Put?
  {
    if NullLine(spec, line) || LineKey(spec, line) in table then table
    else table[LineKey(spec, line) := RowOf(spec, emb, "", line)]
  }

  ghost function Run(spec: TableSpec, emb: Option<Embedder>, m: Machine, moves: seq<Move>): Option<Machine>
    decreases |moves|
  {
    if moves == [] then Some(m)
    else match Apply(spec, emb, m, moves[0])
      case None => None
      case Some(next) => Run(spec, emb, next, moves[1..])
  }

  const START := Machine(map[], map[], Idle, Off)

  /** Jobs carry normalised records and a real time. */
  predicate ProperMove(spec: TableSpec, move: Move) {
    && (move.Take? ==> move.job.now != "")
    && (move.Take? && move.job.CommitJob? ==> forall i :: 0 <= i < |move.job.recs| ==> IsRecord(spec, move.job.recs[i]))
  }

  // ---------------------------------------------------- the file is ahead

  ghost predicate RowHasLine(spec: TableSpec, emb: Option<Embedder>, log: Log, k: Key, row: StoredRow) {
    exists i: nat :: PutAt(log, row.ds, i) && LineKey(spec, log[row.ds][i]) == k &&
      Unmarked(row) == RowOf(spec, emb, "", log[row.ds][i])
  }

  ghost predicate MarkHasTombstone(log: Log, k: Key, row: StoredRow) {
    match row.deletedDs
    case None => row.deletedAt == None
    case Some(d) => exists i: nat :: TombstoneAt(log, d, i, k) && row.deletedAt == Some(log[d][i].deletedAt)
  }

  /** Every row has a put line with the same values in the partition of its day, and
      every deletion mark a tombstone line in the partition of its day. */
  ghost predicate Ahead(spec: TableSpec, emb: Option<Embedder>, log: Log, table: Table) {
    forall k :: k in table ==> RowHasLine(spec, emb, log, k, table[k]) && MarkHasTombstone(log, k, table[k])
  }

  /** The line stands somewhere in the partition of day `d`. */
  ghost predicate Written(log: Log, d: Day, line: Line) {
    exists j: nat :: At(log, d, j) && log[d][j] == line
  }

  /** What the worker has in flight: proper records, and the lines it has written. */
  ghost predicate WorkerOk(spec: TableSpec, log: Log, worker: Worker) {
    worker.Working? ==>
      && ProperMove(spec, Take(worker.job)) && worker.written <= |JobLines(worker.job)|
      && forall h :: 0 <= h < worker.written ==> Written(log, worker.job.ds, JobLines(worker.job)[h])
  }

  /** What the rebuild has in flight: lines that the log has. */
  ghost predicate ReplayerOk(log: Log, replayer: Replayer) {
    replayer.Replaying? ==>
      && (forall e :: e in replayer.puts ==> At(log, e.day, e.pos) && log[e.day][e.pos] == e.line)
      && (forall e :: e in replayer.dels ==> At(log, e.day, e.pos) && log[e.day][e.pos] == e.line)
  }

  /** Put lines stand in the partition of their own day and carry a time. */
  ghost predicate LinesOk(log: Log) {
    forall d: Day, i: nat :: PutAt(log, d, i) ==> log[d][i].ds == d && log[d][i].createdAt != ""
  }

  ghost predicate Inv(spec: TableSpec, emb: Option<Embedder>, m: Machine) {
    LinesOk(m.log) && Ahead(spec, emb, m.log, m.table) && WorkerOk(spec, m.log, m.worker) && ReplayerOk(m.log, m.replayer)
  }

  lemma AppendExtends(log: Log, d: Day, line: Line)
    ensures Extends(log, Append(log, d, line)) && Written(Append(log, d, line), d, line)
  {
    AppendMeans(log, d, line);
    hide Append;
  }

  lemma AheadGrows(spec: TableSpec, emb: Option<Embedder>, log: Log, later: Log, table: Table)
    requires Ahead(spec, emb, log, table) && Extends(log, later)
    ensures Ahead(spec, emb, later, table)
  {
    hide LineKey;
    hide RowOf;
    hide Unmarked;
    forall k | k in table
      ensures RowHasLine(spec, emb, later, k, table[k]) && MarkHasTombstone(later, k, table[k])
    {
      var row := table[k];
      assert RowHasLine(spec, emb, log, k, row);
      var i: nat :| PutAt(log, row.ds, i) && LineKey(spec, log[row.ds][i]) == k &&
        Unmarked(row) == RowOf(spec, emb, "", log[row.ds][i]);
      assert PutAt(later, row.ds, i);
      if row.deletedDs.Some? {
        var d := row.deletedDs.value;
        var j: nat :| TombstoneAt(log, d, j, k) && row.deletedAt == Some(log[d][j].deletedAt);
        assert TombstoneAt(later, d, j, k);
      }
    }
  }

  lemma WrittenGrows(log: Log, later: Log, d: Day, line: Line)
    requires Written(log, d, line) && Extends(log, later)
    ensures Written(later, d, line)
  {
    var j: nat :| At(log, d, j) && log[d][j] == line;
    assert At(later, d, j);
  }

  lemma WriteLineKeeps(spec: TableSpec, emb: Option<Embedder>, m: Machine)
    requires Inv(spec, emb, m) && m.worker.Working? && m.worker.written < |JobLines(m.worker.job)|
    ensures Inv(spec, emb, Apply(spec, emb, m, WriteLine).value)
  {
    var job, w := m.worker.job, m.worker.written;
    var line := JobLines(job)[w];
    var later := Append(m.log, job.ds, line);
    AppendExtends(m.log, job.ds, line);
    AppendMeans(m.log, job.ds, line);
    hide Append;
    AheadGrows(spec, emb, m.log, later, m.table);
    hide Ahead;
    assert LinesOk(later) by {
      assert line.Put? ==> line.ds == job.ds && line.createdAt == job.now;
      forall d: Day, i: nat | PutAt(later, d, i)
        ensures later[d][i].ds == d && later[d][i].createdAt != ""
      {
        if At(m.log, d, i) {
          assert PutAt(m.log, d, i);
        }
      }
    }
    forall h | 0 <= h < w + 1
      ensures Written(later, job.ds, JobLines(job)[h])
    {
      if h < w {
        WrittenGrows(m.log, later, job.ds, JobLines(job)[h]);
      }
    }
  }

  lemma MarkKeepsAhead(
      spec: TableSpec, emb: Option<Embedder>, log: Log, table: Table, keys: seq<Key>, ds: Day, now: Time)
    requires Ahead(spec, emb, log, table)
    requires forall k :: k in keys ==> Written(log, ds, Tombstone(k, now))
    ensures Ahead(spec, emb, log, SoftDeleted(table, keys, ds, now))
  {
    var after := SoftDeleted(table, keys, ds, now);
    forall k | k in after
      ensures RowHasLine(spec, emb, log, k, after[k]) && MarkHasTombstone(log, k, after[k])
    {
      assert RowHasLine(spec, emb, log, k, table[k]) && MarkHasTombstone(log, k, table[k]);
      assert Unmarked(after[k]) == Unmarked(table[k]);
      if k in keys && Live(table[k]) {
        var j: nat :| At(log, ds, j) && log[ds][j] == Tombstone(k, now);
        assert TombstoneAt(log, ds, j, k);
      }
    }
  }

  lemma NewRowIsAhead(spec: TableSpec, emb: Option<Embedder>, log: Log, rec: Record, ds: Day, now: Time)
    requires Written(log, ds, Put(rec, ds, now)) && IsRecord(spec, rec) && now != ""
    ensures var row := FreshRow(rec, IndexOf(emb, spec, rec), ds, now);
            RowHasLine(spec, emb, log, KeyOf(spec, rec), row) && MarkHasTombstone(log, KeyOf(spec, rec), row)
  {
    RecordsAreNormal(spec, rec);
    var j: nat :| At(log, ds, j) && log[ds][j] == Put(rec, ds, now);
    assert PutAt(log, ds, j);
  }

  lemma CommitKeepsAhead(
      spec: TableSpec, emb: Option<Embedder>, log: Log, table: Table, recs: seq<Record>, ds: Day, now: Time)
    requires Ahead(spec, emb, log, table) && now != ""
    requires forall i :: 0 <= i < |recs| ==> IsRecord(spec, recs[i]) && Written(log, ds, Put(recs[i], ds, now))
    requires Commit(spec, table, recs, IndexAll(emb, spec, recs), ds, now).Some?
    ensures Ahead(spec, emb, log, Commit(spec, table, recs, IndexAll(emb, spec, recs), ds, now).value)
  {
    CommitMeans(spec, table, recs, IndexAll(emb, spec, recs), ds, now);
    var after := Commit(spec, table, recs, IndexAll(emb, spec, recs), ds, now).value;
    hide Commit;
    hide RowHasLine;
    hide MarkHasTombstone;
    hide KeyOf;
    hide Written;
    hide IsRecord;
    hide AllNew;
    hide FreshRow;
    forall k | k in after
      ensures RowHasLine(spec, emb, log, k, after[k]) && MarkHasTombstone(log, k, after[k])
    {
      if k !in table {
        assert k in Keys(spec, recs);
        var i :| 0 <= i < |recs| && KeyOf(spec, recs[i]) == k;
        NewRowIsAhead(spec, emb, log, recs[i], ds, now);
      }
    }
  }

  lemma SettleKeeps(spec: TableSpec, emb: Option<Embedder>, m: Machine)
    requires Inv(spec, emb, m) && m.worker.Working? && m.worker.written == |JobLines(m.worker.job)|
    ensures Ahead(spec, emb, m.log, Settled(spec, emb, m.table, m.worker.job))
  {
    var lines := JobLines(m.worker.job);
    assert forall h :: 0 <= h < |lines| ==> Written(m.log, m.worker.job.ds, lines[h]);
    hide Written;
    hide Ahead;
    match m.worker.job {
      case MarkJob(keys, ds, now) =>
        forall k | k in keys
          ensures Written(m.log, ds, Tombstone(k, now))
        {
          var h :| 0 <= h < |keys| && keys[h] == k;
          assert lines[h] == Tombstone(k, now);
        }
        MarkKeepsAhead(spec, emb, m.log, m.table, keys, ds, now);
      case CommitJob(recs, ds, now) =>
        assert forall i :: 0 <= i < |recs| ==> lines[i] == Put(recs[i], ds, now);
        if Commit(spec, m.table, recs, IndexAll(emb, spec, recs), ds, now).Some? {
          CommitKeepsAhead(spec, emb, m.log, m.table, recs, ds, now);
        }
    }
  }

  lemma LoadKeeps(spec: TableSpec, emb: Option<Embedder>, log: Log, table: Table, e: Files.Event)
    requires Ahead(spec, emb, log, table) && LinesOk(log)
    requires At(log, e.day, e.pos) && log[e.day][e.pos] == e.line && e.line.Put?
    ensures Ahead(spec, emb, log, Loaded(spec, emb, table, e.line))
  {
    var after, k, row := Loaded(spec, emb, table, e.line), LineKey(spec, e.line), RowOf(spec, emb, "", e.line);
    assert PutAt(log, e.day, e.pos);
    assert row.ds == e.day && Unmarked(row) == row;
    assert RowHasLine(spec, emb, log, k, row) && MarkHasTombstone(log, k, row);
    hide RowHasLine;
    hide MarkHasTombstone;
    hide LineKey;
    hide RowOf;
  }

  lemma MoveKeepsInv(spec: TableSpec, emb: Option<Embedder>, m: Machine, move: Move)
    requires Inv(spec, emb, m) && ProperMove(spec, move) && Apply(spec, emb, m, move).Some?
    ensures Inv(spec, emb, Apply(spec, emb, m, move).value)
  {
    match move {
      case Take(job) =>
      case WriteLine => WriteLineKeeps(spec, emb, m);
      case Settle => SettleKeeps(spec, emb, m);
      case Fail =>
      case Read(snapshot) =>
        PutsMean(snapshot);
        DelsMean(snapshot);
      case Clear =>
      case LoadOne =>
        assert m.replayer.puts[m.replayer.loaded] in m.replayer.puts;
        LoadKeeps(spec, emb, m.log, m.table, m.replayer.puts[m.replayer.loaded]);
      case MarkOne =>
        var e := m.replayer.dels[m.replayer.marked];
        assert e in m.replayer.dels;
        assert Written(m.log, e.day, Tombstone(e.line.key, e.line.deletedAt));
        MarkKeepsAhead(spec, emb, m.log, m.table, [e.line.key], e.day, e.line.deletedAt);
      case Finish =>
      case Crash =>
    }
  }

  lemma {:induction false} RunKeepsInv(spec: TableSpec, emb: Option<Embedder>, m: Machine, moves: seq<Move>)
    requires Inv(spec, emb, m) && Run(spec, emb, m, moves).Some?
    requires forall i :: 0 <= i < |moves| ==> ProperMove(spec, moves[i])
    ensures Inv(spec, emb, Run(spec, emb, m, moves).value)
    decreases |moves|
  {
    if moves != [] {
      MoveKeepsInv(spec, emb, m, moves[0]);
      hide Inv;
      hide Apply;
      hide ProperMove;
      RunKeepsInv(spec, emb, Apply(spec, emb, m, moves[0]).value, moves[1..]);
    }
  }

  /**
   * The file is ahead of the table in every reachable state of every interleaving of
   * the write worker, rebuilds and crashes.
   */
  lemma FileIsAhead(spec: TableSpec, emb: Option<Embedder>, moves: seq<Move>, m: Machine)
    requires Run(spec, emb, START, moves) == Some(m)
    requires forall i :: 0 <= i < |moves| ==> ProperMove(spec, moves[i])
    ensures Ahead(spec, emb, m.log, m.table)
  {
    RunKeepsInv(spec, emb, START, moves);
  }

  // ------------------------------------------------------ what a rebuild heals

  /** The row of the table survives a rebuild: same record, search columns, day and
      time, and a deletion stays a deletion, perhaps on an earlier day. */
  predicate Survives(row: StoredRow, rebuilt: StoredRow) {
    && Unmarked(rebuilt) == Unmarked(row)
    && (row.deletedDs.Some? ==> rebuilt.deletedDs.Some? && rebuilt.deletedDs.value <= row.deletedDs.value)
  }

  lemma RowSurvives(spec: TableSpec, emb: Option<Embedder>, clock: Time, log: Log, t: Table, k: Key, row: StoredRow)
    requires LinesOk(log) && Agree(spec, emb, clock, log, t)
    requires RowHasLine(spec, emb, log, k, row) && MarkHasTombstone(log, k, row)
    ensures k in t && Survives(row, t[k])
  {
    var i: nat :| PutAt(log, row.ds, i) && LineKey(spec, log[row.ds][i]) == k &&
      Unmarked(row) == RowOf(spec, emb, "", log[row.ds][i]);
    assert log[row.ds][i].createdAt != "";
    assert Unmarked(t[k]) == RowOf(spec, emb, clock, log[row.ds][i]);
    hide RowOf;
    hide LineKey;
    assert MarkAgrees(log, k, t[k]);
    if row.deletedDs.Some? {
      var j: nat :| TombstoneAt(log, row.deletedDs.value, j, k) && row.deletedAt == Some(log[row.deletedDs.value][j].deletedAt);
    }
  }

  /** Whatever crashed before, a rebuild that succeeds loses no row and revives none. */
  lemma RebuildLosesNothing(
      spec: TableSpec, emb: Option<Embedder>, moves: seq<Move>, m: Machine, clock: Time, rebuilt: Table)
    requires Run(spec, emb, START, moves) == Some(m)
    requires forall i :: 0 <= i < |moves| ==> ProperMove(spec, moves[i])
    requires Rebuilt(spec, emb, clock, m.log) == Some(rebuilt)
    ensures forall k :: k in m.table ==> k in rebuilt && Survives(m.table[k], rebuilt[k])
  {
    RunKeepsInv(spec, emb, START, moves);
    RebuildIffAgree(spec, emb, clock, m.log, rebuilt);
    hide Rebuilt;
    hide Run;
    hide Survives;
    hide Agree;
    forall k | k in m.table
      ensures k in rebuilt && Survives(m.table[k], rebuilt[k])
    {
      RowSurvives(spec, emb, clock, m.log, rebuilt, k, m.table[k]);
    }
  }

  /** Writing one more put line keeps a log loadable exactly when its key is not null
      and no earlier line has put that key. CrashViews shows the run that breaks this:
      an insert repeated after a crash between line and row. */
  lemma PutKeepsLoadableIff(spec: TableSpec, log: Log, rec: Record, ds: Day, now: Time)
    requires Loadable(spec, log) && IsRecord(spec, rec)
    ensures Loadable(spec, Append(log, ds, Put(rec, ds, now))) <==>
            && !NullKey(spec, rec)
            && forall d: Day, i: nat :: PutAt(log, d, i) ==> LineKey(spec, log[d][i]) != KeyOf(spec, rec)
  {
    var line := Put(rec, ds, now);
    var after, n := Append(log, ds, line), if ds in log then |log[ds]| else 0;
    AppendMeans(log, ds, line);
    RecordsAreNormal(spec, rec);
    assert NullLine(spec, line) == NullKey(spec, rec) && LineKey(spec, line) == KeyOf(spec, rec);
    hide Append;
    hide LineKey;
    hide NullLine;
    hide KeyOf;
    assert PutAt(after, ds, n);
    forall d: Day, i: nat
      ensures PutAt(after, d, i) <==> PutAt(log, d, i) || (d == ds && i == n)
      ensures PutAt(log, d, i) ==> after[d][i] == log[d][i] && !(d == ds && i == n)
    {
    }
    if Loadable(spec, after) {
      forall d: Day, i: nat | PutAt(log, d, i)
        ensures LineKey(spec, log[d][i]) != LineKey(spec, line)
      {
        assert PutAt(after, d, i);
      }
    }
  }

  /** A crash between line and row shows why immutable history needs crash-free runs:
      the next rebuild makes the row appear in a past that did not have it. */
  lemma CrashedInsertSurfacesInThePast(
      spec: TableSpec, emb: Option<Embedder>, rec: Record, ds: Day, now: Time, clock: Time)
    requires IsRecord(spec, rec) && !NullKey(spec, rec) && now != ""
    ensures var moves := [Take(CommitJob([rec], ds, now)), WriteLine, Crash];
            var log := Append(map[], ds, Put(rec, ds, now));
            && Run(spec, emb, START, moves) == Some(Machine(map[], log, Idle, Off))
            && Rebuilt(spec, emb, clock, log).Some?
            && View(map[], None, Some(ds)) == map[]
            && KeyOf(spec, rec) in View(Rebuilt(spec, emb, clock, log).value, None, Some(ds))
  {
    var job, log, k := CommitJob([rec], ds, now), Append(map[], ds, Put(rec, ds, now)), KeyOf(spec, rec);
    CrashedInsertRun(spec, emb, rec, ds, now);
    AppendMeans(map[], ds, Put(rec, ds, now));
    RecordsAreNormal(spec, rec);
    hide Run;
    hide Apply;
    assert forall d: Day, i: nat :: PutAt(log, d, i) <==> d == ds && i == 0;
    RebuildSucceedsIffLoadable(spec, emb, clock, log);
    var t := Rebuilt(spec, emb, clock, log).value;
    RebuildIffAgree(spec, emb, clock, log, t);
    hide Rebuilt;
    assert PutAt(log, ds, 0) && LineKey(spec, log[ds][0]) == k;
    assert MarkAgrees(log, k, t[k]);
    assert forall d: Day, i: nat :: !TombstoneAt(log, d, i, k);
  }

  lemma CrashedInsertRun(spec: TableSpec, emb: Option<Embedder>, rec: Record, ds: Day, now: Time)
    ensures Run(spec, emb, START, [Take(CommitJob([rec], ds, now)), WriteLine, Crash]) ==
            Some(Machine(map[], Append(map[], ds, Put(rec, ds, now)), Idle, Off))
  {
    var job := CommitJob([rec], ds, now);
    var moves := [Take(job), WriteLine, Crash];
    assert JobLines(job) == [Put(rec, ds, now)];
    var m1 := START.(worker := Working(job, 0));
    var m2 := m1.(log := Append(map[], ds, Put(rec, ds, now)), worker := Working(job, 1));
    assert Apply(spec, emb, START, moves[0]) == Some(m1);
    assert Apply(spec, emb, m1, moves[1]) == Some(m2);
    assert moves[1..] == [WriteLine, Crash] && moves[1..][1..] == [Crash] && [Crash][1..] == [];
    assert Run(spec, emb, m2, [Crash]) == Some(m2.(worker := Idle, replayer := Off));
  }
}
