/**
 * What crashes leave for the next rebuild: exactly when it changes what a past day
 * shows, and when it can never succeed again.
 */
module CrashViews {
  import opened Prelude
  import opened Embedding
  import opened Store
  import opened Files
  import opened Rebuild
  import opened History
  import opened Recovery

  // ------------------------------------------- what a rebuild does to a past day

  /** The key has a tombstone line on `day` or earlier. */
  ghost predicate BuriedBy(log: Log, k: Key, day: Day) {
    exists d: Day, i: nat :: d <= day && TombstoneAt(log, d, i, k)
  }

  predicate InWindow(d: Day, start: Option<Day>, day: Day) {
    d <= day && (start.Some? ==> d >= start.value)
  }

  /** Every put line of the window has reached the table, or is buried by `day`. */
  ghost predicate LinesLanded(spec: TableSpec, log: Log, table: Table, start: Option<Day>, day: Day) {
    forall d: Day, i: nat :: PutAt(log, d, i) && InWindow(d, start, day) ==>
      LineKey(spec, log[d][i]) in table || BuriedBy(log, LineKey(spec, log[d][i]), day)
  }

  /** No tombstone line by `day` is missing as a mark on a row that the window shows. */
  ghost predicate MarksLanded(log: Log, table: Table, start: Option<Day>, day: Day) {
    forall k :: k in table && VisibleAt(table[k], start, Some(day)) ==> !BuriedBy(log, k, day)
  }

  /** When a rebuilt row is shown. */
  lemma RebuiltShows(
      spec: TableSpec, emb: Option<Embedder>, clock: Time, log: Log, t: Table, d: Day, i: nat, start: Option<Day>, day: Day)
    requires LinesOk(log) && Agree(spec, emb, clock, log, t) && PutAt(log, d, i)
    ensures var k := LineKey(spec, log[d][i]);
            k in t && t[k].ds == d && (VisibleAt(t[k], start, Some(day)) <==> InWindow(d, start, day) && !BuriedBy(log, k, day))
  {
    var k := LineKey(spec, log[d][i]);
    assert Unmarked(t[k]) == RowOf(spec, emb, clock, log[d][i]);
    assert MarkAgrees(log, k, t[k]);
    hide LineKey;
    hide RowOf;
    hide Agree;
    BuriedIffMarked(log, k, t[k], day);
  }

  lemma BuriedIffMarked(log: Log, k: Key, row: StoredRow, day: Day)
    requires MarkAgrees(log, k, row)
    ensures BuriedBy(log, k, day) <==> row.deletedDs.Some? && row.deletedDs.value <= day
  {
    if BuriedBy(log, k, day) {
      var d: Day, i: nat :| d <= day && TombstoneAt(log, d, i, k);
    }
  }

  /** A row of the table, and its put line. */
  lemma RowLine(spec: TableSpec, emb: Option<Embedder>, log: Log, table: Table, k: Key) returns (i: nat)
    requires Ahead(spec, emb, log, table) && k in table
    ensures PutAt(log, table[k].ds, i) && LineKey(spec, log[table[k].ds][i]) == k
  {
    assert RowHasLine(spec, emb, log, k, table[k]);
    i :| PutAt(log, table[k].ds, i) && LineKey(spec, log[table[k].ds][i]) == k &&
      Unmarked(table[k]) == RowOf(spec, emb, "", log[table[k].ds][i]);
  }

  /** A row that the table hides on a day is hidden there after a rebuild too; and it
      shows the same. */
  lemma RowAfterRebuild(
      spec: TableSpec, emb: Option<Embedder>, clock: Time, log: Log, table: Table, t: Table, k: Key, start: Option<Day>, day: Day)
    requires LinesOk(log) && Ahead(spec, emb, log, table) && Agree(spec, emb, clock, log, t) && k in table
    ensures k in t && Unmarked(t[k]) == Unmarked(table[k])
    ensures VisibleAt(t[k], start, Some(day)) <==> InWindow(table[k].ds, start, day) && !BuriedBy(log, k, day)
    ensures VisibleAt(t[k], start, Some(day)) ==> VisibleAt(table[k], start, Some(day))
  {
    assert RowHasLine(spec, emb, log, k, table[k]) && MarkHasTombstone(log, k, table[k]);
    var i := RowLine(spec, emb, log, table, k);
    RebuiltShows(spec, emb, clock, log, t, table[k].ds, i, start, day);
    RowSurvives(spec, emb, clock, log, t, k, table[k]);
    hide LineKey;
    hide RowOf;
    hide Agree;
    hide Ahead;
    hide RowHasLine;
    if table[k].deletedDs.Some? && table[k].deletedDs.value <= day {
      var j: nat :| TombstoneAt(log, table[k].deletedDs.value, j, k);
      assert BuriedBy(log, k, day);
    }
  }

  /** What a rebuild shows that the table does not. */
  lemma NewlyShown(
      spec: TableSpec, emb: Option<Embedder>, clock: Time, log: Log, table: Table, t: Table, k: Key, start: Option<Day>, day: Day)
    requires LinesOk(log) && Ahead(spec, emb, log, table) && Agree(spec, emb, clock, log, t)
    requires k in t && VisibleAt(t[k], start, Some(day)) && k !in table
    ensures !LinesLanded(spec, log, table, start, day)
  {
    var d: Day, i: nat :| PutAt(log, d, i) && LineKey(spec, log[d][i]) == k;
    RebuiltShows(spec, emb, clock, log, t, d, i, start, day);
  }

  /**
   * A rebuild keeps what a past day shows if and only if every put line of the window
   * has landed or is buried by that day, and every tombstone by that day has landed on
   * the rows it shows. Both can be read off the two tiers before rebuilding.
   */
  lemma RebuildKeepsViewIff(
      spec: TableSpec, emb: Option<Embedder>, clock: Time, log: Log, table: Table, t: Table, start: Option<Day>, day: Day)
    requires LinesOk(log) && Ahead(spec, emb, log, table) && Rebuilt(spec, emb, clock, log) == Some(t)
    ensures View(t, start, Some(day)) == View(table, start, Some(day)) <==>
            LinesLanded(spec, log, table, start, day) && MarksLanded(log, table, start, day)
  {
    RebuildIffAgree(spec, emb, clock, log, t);
    hide Rebuilt;
    hide Agree;
    hide Ahead;
    hide LinesOk;
    hide BuriedBy;
    var shown, before := View(t, start, Some(day)), View(table, start, Some(day));
    forall k | k in table
      ensures k in t && Unmarked(t[k]) == Unmarked(table[k])
      ensures k in shown ==> k in before && shown[k] == before[k]
      ensures k in shown <==> InWindow(table[k].ds, start, day) && !BuriedBy(log, k, day)
    {
      RowAfterRebuild(spec, emb, clock, log, table, t, k, start, day);
    }
    if LinesLanded(spec, log, table, start, day) && MarksLanded(log, table, start, day) {
      forall k | k in shown
        ensures k in table
      {
        if k !in table {
          NewlyShown(spec, emb, clock, log, table, t, k, start, day);
        }
      }
      assert shown == before;
    }
    if shown == before {
      forall d: Day, i: nat | PutAt(log, d, i) && InWindow(d, start, day)
        ensures LineKey(spec, log[d][i]) in table || BuriedBy(log, LineKey(spec, log[d][i]), day)
      {
        RebuiltShows(spec, emb, clock, log, t, d, i, start, day);
        assert LineKey(spec, log[d][i]) in shown <==> LineKey(spec, log[d][i]) in before;
      }
      forall k | k in table && VisibleAt(table[k], start, Some(day))
        ensures !BuriedBy(log, k, day)
      {
        assert k in before;
      }
    }
  }

  /** For every state that the worker, rebuilds and crashes can reach. */
  lemma CrashesKeepViewIff(
      spec: TableSpec, emb: Option<Embedder>, moves: seq<Move>, m: Machine, clock: Time, t: Table, start: Option<Day>, day: Day)
    requires Run(spec, emb, START, moves) == Some(m)
    requires forall i :: 0 <= i < |moves| ==> ProperMove(spec, moves[i])
    requires Rebuilt(spec, emb, clock, m.log) == Some(t)
    ensures View(t, start, Some(day)) == View(m.table, start, Some(day)) <==>
            LinesLanded(spec, m.log, m.table, start, day) && MarksLanded(m.log, m.table, start, day)
  {
    RunKeepsInv(spec, emb, START, moves);
    hide Run;
    hide Rebuilt;
    hide View;
    hide LinesLanded;
    hide MarksLanded;
    RebuildKeepsViewIff(spec, emb, clock, m.log, m.table, t, start, day);
  }

  // ---------------------------------------------- a key that is put twice

  /** Two put lines of one key defeat every rebuild of every longer log. */
  lemma DuplicateIsForever(
      spec: TableSpec, emb: Option<Embedder>, clock: Time, log: Log, later: Log, d: Day, i: nat, e: Day, j: nat)
    requires PutAt(log, d, i) && PutAt(log, e, j) && (d != e || i != j)
    requires LineKey(spec, log[d][i]) == LineKey(spec, log[e][j]) && Extends(log, later)
    ensures Rebuilt(spec, emb, clock, later) == None
  {
    RebuildSucceedsIffLoadable(spec, emb, clock, later);
    hide Rebuilt;
    hide LineKey;
    assert PutAt(later, d, i) && PutAt(later, e, j);
  }

  /** Validation lets a record pass whose key is not in the table, whatever the log has. */
  lemma ValidatesAgain(spec: TableSpec, known: set<Key>, rec: Record, skipExisting: bool)
    requires IsRecord(spec, rec) && KeyOf(spec, rec) !in known
    ensures Validated(spec, known, [rec], skipExisting) == Ok([rec])
  {
    var rows := [rec];
    var recs := NormalizeAll(spec, rows);
    RecordsAreNormal(spec, rec);
    assert recs == rows;
    forall i | 0 <= i < |rows|
      ensures !HasUnknownColumn(spec, rows[i])
    {
    }
    hide HasUnknownColumn;
    hide KeyOf;
    hide IsRecord;
    assert AllNew(spec, known, rows);
    assert NewRecords(spec, known, rows) == [rec] by {
      assert rows[1..] == [];
      assert NewRecords(spec, known + {KeyOf(spec, rec)}, rows[1..]) == [];
    }
    assert Validated(spec, known, rows, skipExisting) == Ok(rows);
  }

  /**
   * The whole accident: an insert crashes between its line and its transaction, and is
   * repeated. Validation accepts it again, it commits, its row is live, and no rebuild
   * of this log, however it grows, ever succeeds again.
   */
  lemma RepeatedInsertBreaksRebuild(
      spec: TableSpec, emb: Option<Embedder>, rec: Record, ds: Day, now: Time, ds': Day, now': Time, skipExisting: bool)
    requires IsRecord(spec, rec) && !NullKey(spec, rec) && now != "" && now' != ""
    ensures var job, again := CommitJob([rec], ds, now), CommitJob([rec], ds', now');
            var k, moves := KeyOf(spec, rec), [Take(job), WriteLine, Crash, Take(again), WriteLine, Settle];
            var end := Run(spec, emb, START, moves);
            && (forall i :: 0 <= i < |moves| ==> ProperMove(spec, moves[i]))
            && Run(spec, emb, START, moves[..3]).Some?
            && Validated(spec, Run(spec, emb, START, moves[..3]).value.table.Keys, [rec], skipExisting) == Ok([rec])
            && end.Some? && k in end.value.table && Live(end.value.table[k]) && end.value.table[k].rec == rec
            && forall clock, later :: Extends(end.value.log, later) ==> Rebuilt(spec, emb, clock, later) == None
  {
    var k := KeyOf(spec, rec);
    var again := CommitJob([rec], ds', now');
    var moves := [Take(CommitJob([rec], ds, now)), WriteLine, Crash, Take(again), WriteLine, Settle];
    var log := Append(map[], ds, Put(rec, ds, now));
    var m := Machine(map[], log, Idle, Off);
    CrashedInsertRun(spec, emb, rec, ds, now);
    assert moves[..3] == [Take(CommitJob([rec], ds, now)), WriteLine, Crash];
    assert m.table.Keys == {};
    ValidatesAgain(spec, {}, rec, skipExisting);
    var end := CommittedRun(spec, emb, m, rec, ds', now');
    assert moves == moves[..3] + [Take(again), WriteLine, Settle];
    RunConcat(spec, emb, START, moves[..3], [Take(again), WriteLine, Settle]);
    hide Run;
    hide Apply;
    TwiceInLog(spec, emb, rec, ds, now, ds', now');
  }

  lemma {:induction false} RunConcat(spec: TableSpec, emb: Option<Embedder>, m: Machine, a: seq<Move>, b: seq<Move>)
    requires Run(spec, emb, m, a).Some?
    ensures Run(spec, emb, m, a + b) == Run(spec, emb, Run(spec, emb, m, a).value, b)
    decreases |a|
  {
    if a == [] {
      assert a + b == b;
    } else {
      assert (a + b)[1..] == a[1..] + b;
      hide Apply;
      RunConcat(spec, emb, Apply(spec, emb, m, a[0]).value, a[1..], b);
    }
  }

  lemma CommitOne(spec: TableSpec, table: Table, rec: Record, index: seq<Index>, ds: Day, now: Time)
    requires KeyOf(spec, rec) !in table && !NullKey(spec, rec) && |index| == 1
    ensures Commit(spec, table, [rec], index, ds, now) == Some(table[KeyOf(spec, rec) := FreshRow(rec, index[0], ds, now)])
  {
    var recs := [rec];
    assert recs[1..] == [] && index[1..] == [];
    assert Commit(spec, table[KeyOf(spec, rec) := FreshRow(rec, index[0], ds, now)], recs[1..], index[1..], ds, now) ==
      Some(table[KeyOf(spec, rec) := FreshRow(rec, index[0], ds, now)]);
  }

  lemma CommittedRun(spec: TableSpec, emb: Option<Embedder>, m: Machine, rec: Record, ds: Day, now: Time) returns (end: Machine)
    requires m.worker.Idle? && KeyOf(spec, rec) !in m.table && !NullKey(spec, rec)
    ensures Run(spec, emb, m, [Take(CommitJob([rec], ds, now)), WriteLine, Settle]) == Some(end)
    ensures end.table == m.table[KeyOf(spec, rec) := FreshRow(rec, IndexOf(emb, spec, rec), ds, now)]
    ensures end.log == Append(m.log, ds, Put(rec, ds, now)) && end.worker.Idle? && end.replayer == m.replayer
  {
    var job := CommitJob([rec], ds, now);
    var moves := [Take(job), WriteLine, Settle];
    assert JobLines(job) == [Put(rec, ds, now)];
    var m1 := m.(worker := Working(job, 0));
    var m2 := m1.(log := Append(m.log, ds, Put(rec, ds, now)), worker := Working(job, 1));
    var row := FreshRow(rec, IndexOf(emb, spec, rec), ds, now);
    CommitOne(spec, m.table, rec, IndexAll(emb, spec, [rec]), ds, now);
    assert Settled(spec, emb, m.table, job) == m.table[KeyOf(spec, rec) := row];
    end := m2.(table := m.table[KeyOf(spec, rec) := row], worker := Idle);
    assert Apply(spec, emb, m, moves[0]) == Some(m1);
    assert Apply(spec, emb, m1, moves[1]) == Some(m2);
    assert Apply(spec, emb, m2, moves[2]) == Some(end);
    hide Apply;
    assert moves[1..] == [WriteLine, Settle] && moves[1..][1..] == [Settle] && [Settle][1..] == [];
    assert Run(spec, emb, m2, [Settle]) == Some(end);
  }

  lemma TwiceInLog(spec: TableSpec, emb: Option<Embedder>, rec: Record, ds: Day, now: Time, ds': Day, now': Time)
    requires IsRecord(spec, rec)
    ensures var log := Append(Append(map[], ds, Put(rec, ds, now)), ds', Put(rec, ds', now'));
            forall clock, later :: Extends(log, later) ==> Rebuilt(spec, emb, clock, later) == None
  {
    var one := Append(map[], ds, Put(rec, ds, now));
    var two := Append(one, ds', Put(rec, ds', now'));
    AppendMeans(map[], ds, Put(rec, ds, now));
    AppendMeans(one, ds', Put(rec, ds', now'));
    RecordsAreNormal(spec, rec);
    var n := if ds' in one then |one[ds']| else 0;
    hide Append;
    assert PutAt(one, ds, 0) && PutAt(two, ds, 0) && PutAt(two, ds', n);
    assert LineKey(spec, two[ds][0]) == LineKey(spec, two[ds'][n]);
    hide LineKey;
    forall clock, later | Extends(two, later)
      ensures Rebuilt(spec, emb, clock, later) == None
    {
      DuplicateIsForever(spec, emb, clock, two, later, ds, 0, ds', n);
    }
  }

  /** A log of one put line rebuilds to its row. */
  lemma OneLineRebuilds(spec: TableSpec, emb: Option<Embedder>, rec: Record, ds: Day, now: Time, clock: Time)
    requires IsRecord(spec, rec) && !NullKey(spec, rec) && now != ""
    ensures var t := Rebuilt(spec, emb, clock, Append(map[], ds, Put(rec, ds, now))); t.Some? && KeyOf(spec, rec) in t.value
  {
    CrashedInsertSurfacesInThePast(spec, emb, rec, ds, now, clock);
    hide Rebuilt;
  }
}
