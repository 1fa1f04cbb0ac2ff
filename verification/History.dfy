/**
 * Histories of one table: what a write does to both tiers, and what holds after any
 * sequence of writes and rebuilds.
 */
module History {
  import opened Prelude
  import opened Embedding
  import opened Store
  import opened Files
  import opened Rebuild

  /** The derived table and the canonical log behind it. */
  datatype State = State(table: Table, log: Log)

  const EMPTY := State(map[], map[])

  datatype Op = Insert(rows: seq<Record>, skipExisting: bool) | Delete(where: Where)

  datatype Outcome = Inserted | Deleted(matched: nat) | Failed(reason: string)

  function IndexAll(emb: Option<Embedder>, spec: TableSpec, recs: seq<Record>): (index: seq<Index>)
    ensures |index| == |recs| && forall i :: 0 <= i < |recs| ==> index[i] == IndexOf(emb, spec, recs[i])
  {
    seq(|recs|, i requires 0 <= i < |recs| => IndexOf(emb, spec, recs[i]))
  }

  /** `_execute_one` for validated records: files first, then one transaction. */
  function Land(spec: TableSpec, emb: Option<Embedder>, st: State, recs: seq<Record>, ds: Day, now: Time): (Outcome, State) {
    if recs == [] then (Inserted, st)
    else if exists i :: 0 <= i < |recs| && !Embeddable(emb, spec, recs[i]) then (Failed("EmbedderInvalid"), st)
    else
      var log := AppendAll(st.log, ds, PutLines(recs, ds, now));
      match Commit(spec, st.table, recs, IndexAll(emb, spec, recs), ds, now)
      case None => (Failed("primary key"), State(st.table, log))
      case Some(table) => (Inserted, State(table, log))
  }

  function Bury(st: State, keys: seq<Key>, ds: Day, now: Time): State {
    State(SoftDeleted(st.table, keys, ds, now), AppendAll(st.log, ds, Tombstones(keys, now)))
  }

  ghost predicate Buries(st: State, where: Where, keys: seq<Key>, ds: Day, now: Time, out: Outcome, after: State) {
    && Distinct(keys) && ElementsOf(keys) == Matched(st.table, where)
    && out == Deleted(|keys|) && after == Bury(st, keys, ds, now)
  }

  /** One write, at the day and time the clock gives; a delete may match its rows in
      any order. */
  ghost predicate Executes(
      spec: TableSpec, emb: Option<Embedder>, st: State, op: Op, ds: Day, now: Time, out: Outcome, after: State)
  {
    match op
    case Insert(rows, skipExisting) =>
      (match Validated(spec, st.table.Keys, rows, skipExisting)
       case Err(reason) => out == Failed(reason) && after == st
       case Ok(recs) => (out, after) == Land(spec, emb, st, recs, ds, now))
    case Delete(where) =>
      if where.valid then exists keys :: Buries(st, where, keys, ds, now, out, after) else out.Failed? && after == st
  }

  // ------------------------------------------------- the two tiers in step

  /** Line and row of a landed record. */
  ghost predicate PutInStep(spec: TableSpec, emb: Option<Embedder>, table: Table, d: Day, line: Line)
    requires line.Put?
  {
    && line.ds == d && line.createdAt != "" && !NullLine(spec, line)
    && LineKey(spec, line) in table
    && Unmarked(table[LineKey(spec, line)]) == RowOf(spec, emb, "", line)
  }

  ghost predicate BuriedInStep(table: Table, d: Day, line: Line)
    requires line.Tombstone?
  {
    && line.key in table
    && table[line.key].deletedDs == Some(d) && table[line.key].deletedAt == Some(line.deletedAt)
  }

  /** Every row has one put line, and every put line its row. */
  ghost predicate PutsInStep(spec: TableSpec, emb: Option<Embedder>, st: State) {
    && (forall d: Day, i: nat :: PutAt(st.log, d, i) ==> PutInStep(spec, emb, st.table, d, st.log[d][i]))
    && (forall d: Day, i: nat, e: Day, j: nat :: SameKeyPuts(spec, st.log, d, i, e, j) ==> d == e && i == j)
    && (forall k :: k in st.table ==> exists d: Day, i: nat :: PutAt(st.log, d, i) && LineKey(spec, st.log[d][i]) == k)
  }

  ghost predicate SameKeyPuts(spec: TableSpec, log: Log, d: Day, i: nat, e: Day, j: nat) {
    PutAt(log, d, i) && PutAt(log, e, j) && LineKey(spec, log[d][i]) == LineKey(spec, log[e][j])
  }

  /** Every deletion mark has one tombstone line, and every tombstone line its mark. */
  ghost predicate DelsInStep(st: State) {
    && (forall d: Day, i: nat, k :: TombstoneAt(st.log, d, i, k) ==> BuriedInStep(st.table, d, st.log[d][i]))
    && (forall d: Day, i: nat, e: Day, j: nat, k :: TombstoneAt(st.log, d, i, k) && TombstoneAt(st.log, e, j, k)
          ==> d == e && i == j)
    && (forall k :: k in st.table ==> MarkHasLine(st, k))
  }

  /** The two tiers are in step. */
  ghost predicate InStep(spec: TableSpec, emb: Option<Embedder>, st: State) {
    PutsInStep(spec, emb, st) && DelsInStep(st)
  }

  ghost predicate MarkHasLine(st: State, k: Key)
    requires k in st.table
  {
    match st.table[k].deletedDs
    case None => st.table[k].deletedAt == None
    case Some(d) => exists i: nat :: TombstoneAt(st.log, d, i, k)
  }

  /** Two tiers in step agree, whatever the clock says. */
  lemma InStepAgrees(spec: TableSpec, emb: Option<Embedder>, clock: Time, st: State)
    requires InStep(spec, emb, st)
    ensures Agree(spec, emb, clock, st.log, st.table)
  {
    var log, table := st.log, st.table;
    forall d: Day, i: nat | PutAt(log, d, i)
      ensures !NullLine(spec, log[d][i]) && LineKey(spec, log[d][i]) in table
      ensures Unmarked(table[LineKey(spec, log[d][i])]) == RowOf(spec, emb, clock, log[d][i])
    {
      assert PutInStep(spec, emb, table, d, log[d][i]);
    }
    hide NullLine;
    hide LineKey;
    hide RowOf;
    hide PutInStep;
    forall d: Day, i: nat, e: Day, j: nat
      | PutAt(log, d, i) && PutAt(log, e, j) && LineKey(spec, log[d][i]) == LineKey(spec, log[e][j])
      ensures d == e && i == j
    {
      assert SameKeyPuts(spec, log, d, i, e, j);
    }
    forall k | k in table
      ensures MarkAgrees(log, k, table[k])
    {
      MarkInStep(st, k);
    }
  }

  lemma MarkInStep(st: State, k: Key)
    requires DelsInStep(st) && k in st.table
    ensures MarkAgrees(st.log, k, st.table[k])
  {
    assert MarkHasLine(st, k);
    if st.table[k].deletedDs.Some? {
      var day := st.table[k].deletedDs.value;
      var i: nat :| TombstoneAt(st.log, day, i, k);
      assert BuriedInStep(st.table, day, st.log[day][i]);
    } else {
      assert forall d: Day, i: nat :: !TombstoneAt(st.log, d, i, k);
    }
  }

  // --------------------------------------------------------- writes keep step

  /** A record as `validate` returns it. */
  predicate IsRecord(spec: TableSpec, rec: Record) {
    rec.Keys == spec.columns
  }

  lemma RecordsAreNormal(spec: TableSpec, rec: Record)
    requires IsRecord(spec, rec)
    ensures Normalize(spec, rec) == rec
  {
  }

  lemma ValidatedRecords(spec: TableSpec, known: set<Key>, rows: seq<Record>, skipExisting: bool)
    requires Validated(spec, known, rows, skipExisting).Ok?
    ensures var recs := Validated(spec, known, rows, skipExisting).value;
            && AllNew(spec, known, recs)
            && forall i :: 0 <= i < |recs| ==> IsRecord(spec, recs[i])
  {
    var all, recs := NormalizeAll(spec, rows), Validated(spec, known, rows, skipExisting).value;
    NewRecordsAreNew(spec, known, all);
    forall i | 0 <= i < |recs|
      ensures IsRecord(spec, recs[i])
    {
      assert recs[i] in recs;
      assert recs[i] in all;
    }
  }

  /** One record landed in both tiers. */
  function PutOne(spec: TableSpec, emb: Option<Embedder>, st: State, rec: Record, ds: Day, now: Time): State {
    State(st.table[KeyOf(spec, rec) := FreshRow(rec, IndexOf(emb, spec, rec), ds, now)],
          Append(st.log, ds, Put(rec, ds, now)))
  }

  lemma NewPutInStep(spec: TableSpec, emb: Option<Embedder>, st: State, rec: Record, ds: Day, now: Time)
    requires IsRecord(spec, rec) && !NullKey(spec, rec) && now != ""
    ensures PutInStep(spec, emb, PutOne(spec, emb, st, rec, ds, now).table, ds, Put(rec, ds, now))
    ensures LineKey(spec, Put(rec, ds, now)) == KeyOf(spec, rec)
  {
    RecordsAreNormal(spec, rec);
  }

  lemma PutSurvives(spec: TableSpec, emb: Option<Embedder>, table: Table, table': Table, d: Day, line: Line)
    requires line.Put? && PutInStep(spec, emb, table, d, line)
    requires forall x :: x in table ==> x in table' && Unmarked(table'[x]) == Unmarked(table[x])
    ensures PutInStep(spec, emb, table', d, line) && LineKey(spec, line) in table
  {
  }

  lemma PutOneKeepsPuts(spec: TableSpec, emb: Option<Embedder>, st: State, rec: Record, ds: Day, now: Time)
    requires PutsInStep(spec, emb, st) && now != ""
    requires IsRecord(spec, rec) && !NullKey(spec, rec) && KeyOf(spec, rec) !in st.table
    ensures PutsInStep(spec, emb, PutOne(spec, emb, st, rec, ds, now))
  {
    var st' := PutOne(spec, emb, st, rec, ds, now);
    AppendMeans(st.log, ds, Put(rec, ds, now));
    NewPutInStep(spec, emb, st, rec, ds, now);
    hide Append;
    hide FreshRow;
    NewLineKeepsPuts(spec, emb, st, st', ds, if ds in st.log then |st.log[ds]| else 0, KeyOf(spec, rec));
  }

  /** A new put line with a new key, and its row, keep the puts in step. */
  lemma NewLineKeepsPuts(spec: TableSpec, emb: Option<Embedder>, st: State, st': State, ds: Day, n: nat, k: Key)
    requires PutsInStep(spec, emb, st) && k !in st.table
    requires forall x :: x in st'.table <==> x in st.table || x == k
    requires forall x :: x in st.table ==> st'.table[x] == st.table[x]
    requires forall d: Day, i: nat :: At(st'.log, d, i) <==> At(st.log, d, i) || (d == ds && i == n)
    requires forall d: Day, i: nat :: At(st.log, d, i) ==> At(st'.log, d, i) && st'.log[d][i] == st.log[d][i]
    requires PutAt(st'.log, ds, n) && LineKey(spec, st'.log[ds][n]) == k
    requires PutInStep(spec, emb, st'.table, ds, st'.log[ds][n])
    ensures PutsInStep(spec, emb, st')
  {
    var log, log', table, table' := st.log, st'.log, st.table, st'.table;
    hide LineKey;
    hide PutInStep;
    hide Unmarked;
    forall d: Day, i: nat | PutAt(log', d, i)
      ensures PutInStep(spec, emb, table', d, log'[d][i])
      ensures LineKey(spec, log'[d][i]) == k <==> d == ds && i == n
      ensures PutAt(log, d, i) || (d == ds && i == n)
    {
      if At(log, d, i) {
        PutSurvives(spec, emb, table, table', d, log[d][i]);
      }
    }
    forall x | x in table'
      ensures exists d: Day, i: nat :: PutAt(log', d, i) && LineKey(spec, log'[d][i]) == x
    {
      if x != k {
        var d: Day, i: nat :| PutAt(log, d, i) && LineKey(spec, log[d][i]) == x;
        assert PutAt(log', d, i);
      }
    }
    forall d: Day, i: nat, e: Day, j: nat | SameKeyPuts(spec, log', d, i, e, j)
      ensures d == e && i == j
    {
      if LineKey(spec, log'[d][i]) != k {
        assert SameKeyPuts(spec, log, d, i, e, j);
      }
    }
  }

  lemma PutOneKeepsDels(spec: TableSpec, emb: Option<Embedder>, st: State, rec: Record, ds: Day, now: Time)
    requires DelsInStep(st) && KeyOf(spec, rec) !in st.table
    ensures DelsInStep(PutOne(spec, emb, st, rec, ds, now))
  {
    var k, st' := KeyOf(spec, rec), PutOne(spec, emb, st, rec, ds, now);
    AppendMeans(st.log, ds, Put(rec, ds, now));
    hide Append;
    hide KeyOf;
    forall d: Day, i: nat, x | TombstoneAt(st'.log, d, i, x)
      ensures TombstoneAt(st.log, d, i, x) && BuriedInStep(st'.table, d, st'.log[d][i])
    {
      assert TombstoneAt(st.log, d, i, x);
      assert BuriedInStep(st.table, d, st.log[d][i]);
    }
    forall x | x in st'.table
      ensures MarkHasLine(st', x)
    {
      if x != k {
        assert MarkHasLine(st, x);
        OldMarkHasLine(st, st', x);
      }
    }
  }

  lemma PutOneKeepsStep(spec: TableSpec, emb: Option<Embedder>, st: State, rec: Record, ds: Day, now: Time)
    requires InStep(spec, emb, st) && now != ""
    requires IsRecord(spec, rec) && !NullKey(spec, rec) && KeyOf(spec, rec) !in st.table
    ensures InStep(spec, emb, PutOne(spec, emb, st, rec, ds, now))
  {
    PutOneKeepsPuts(spec, emb, st, rec, ds, now);
    PutOneKeepsDels(spec, emb, st, rec, ds, now);
  }

  lemma OldMarkHasLine(st: State, st': State, k: Key)
    requires k in st.table && k in st'.table && st'.table[k] == st.table[k] && MarkHasLine(st, k)
    requires forall d: Day, i: nat :: At(st.log, d, i) ==> At(st'.log, d, i) && st'.log[d][i] == st.log[d][i]
    ensures MarkHasLine(st', k)
  {
    if !Live(st.table[k]) {
      var i: nat :| TombstoneAt(st.log, st.table[k].deletedDs.value, i, k);
      assert TombstoneAt(st'.log, st.table[k].deletedDs.value, i, k);
    }
  }

  /** Records that commit keep the tiers in step. */
  lemma {:induction false} InsertKeepsStep(
      spec: TableSpec, emb: Option<Embedder>, st: State, recs: seq<Record>, ds: Day, now: Time)
    requires InStep(spec, emb, st) && now != ""
    requires forall i :: 0 <= i < |recs| ==> IsRecord(spec, recs[i])
    requires Commit(spec, st.table, recs, IndexAll(emb, spec, recs), ds, now).Some?
    ensures InStep(spec, emb, State(Commit(spec, st.table, recs, IndexAll(emb, spec, recs), ds, now).value,
                                    AppendAll(st.log, ds, PutLines(recs, ds, now))))
    decreases |recs|
  {
    if recs != [] {
      hide InStep;
      var rest, next := recs[1..], PutOne(spec, emb, st, recs[0], ds, now);
      assert IndexAll(emb, spec, recs)[1..] == IndexAll(emb, spec, rest);
      assert PutLines(recs, ds, now)[1..] == PutLines(rest, ds, now);
      PutOneKeepsStep(spec, emb, st, recs[0], ds, now);
      InsertKeepsStep(spec, emb, next, rest, ds, now);
    }
  }

  function BuryOne(st: State, k: Key, ds: Day, now: Time): State {
    State(SoftDeleted(st.table, [k], ds, now), Append(st.log, ds, Tombstone(k, now)))
  }

  /** A soft delete changes nothing but deletion marks. */
  lemma MarksOnly(table: Table, keys: seq<Key>, ds: Day, now: Time)
    ensures var after := SoftDeleted(table, keys, ds, now);
            && (forall x :: x in after <==> x in table)
            && forall x :: x in table ==> Unmarked(after[x]) == Unmarked(table[x])
  {
  }

  lemma BuryOneKeepsPuts(spec: TableSpec, emb: Option<Embedder>, st: State, k: Key, ds: Day, now: Time)
    requires PutsInStep(spec, emb, st)
    ensures PutsInStep(spec, emb, BuryOne(st, k, ds, now))
  {
    var st' := BuryOne(st, k, ds, now);
    AppendMeans(st.log, ds, Tombstone(k, now));
    hide Append;
    MarksOnly(st.table, [k], ds, now);
    hide SoftDeleted;
    hide Unmarked;
    hide LineKey;
    hide PutInStep;
    hide PutsInStep;
    MarkKeepsPuts(spec, emb, st, st');
  }

  /** Marks and tombstone lines do not disturb the puts. */
  lemma MarkKeepsPuts(spec: TableSpec, emb: Option<Embedder>, st: State, st': State)
    requires PutsInStep(spec, emb, st)
    requires forall x :: x in st'.table <==> x in st.table
    requires forall x :: x in st.table ==> Unmarked(st'.table[x]) == Unmarked(st.table[x])
    requires forall d: Day, i: nat :: At(st.log, d, i) ==> At(st'.log, d, i) && st'.log[d][i] == st.log[d][i]
    requires forall d: Day, i: nat :: At(st'.log, d, i) && !At(st.log, d, i) ==> st'.log[d][i].Tombstone?
    ensures PutsInStep(spec, emb, st')
  {
    var log, log', table, table' := st.log, st'.log, st.table, st'.table;
    hide LineKey;
    hide PutInStep;
    hide Unmarked;
    forall d: Day, i: nat | PutAt(log', d, i)
      ensures PutAt(log, d, i) && log[d][i] == log'[d][i]
      ensures PutInStep(spec, emb, table', d, log'[d][i])
    {
      PutSurvives(spec, emb, table, table', d, log[d][i]);
    }
    forall x | x in table'
      ensures exists d: Day, i: nat :: PutAt(log', d, i) && LineKey(spec, log'[d][i]) == x
    {
      var d: Day, i: nat :| PutAt(log, d, i) && LineKey(spec, log[d][i]) == x;
      assert PutAt(log', d, i);
    }
    forall d: Day, i: nat, e: Day, j: nat | SameKeyPuts(spec, log', d, i, e, j)
      ensures d == e && i == j
    {
      assert SameKeyPuts(spec, log, d, i, e, j);
    }
  }

  lemma BuryOneKeepsDels(st: State, k: Key, ds: Day, now: Time)
    requires DelsInStep(st) && k in st.table && Live(st.table[k])
    ensures DelsInStep(BuryOne(st, k, ds, now))
  {
    var st' := BuryOne(st, k, ds, now);
    var log, log', table, table' := st.log, st'.log, st.table, st'.table;
    var n := if ds in log then |log[ds]| else 0;
    AppendMeans(log, ds, Tombstone(k, now));
    hide Append;
    forall d: Day, i: nat, x | TombstoneAt(log', d, i, x)
      ensures BuriedInStep(table', d, log'[d][i])
      ensures x == k <==> d == ds && i == n
    {
      if At(log, d, i) {
        assert TombstoneAt(log, d, i, x);
        assert BuriedInStep(table, d, log[d][i]);
      }
    }
    forall x | x in table'
      ensures MarkHasLine(st', x)
    {
      if x == k {
        assert TombstoneAt(log', ds, n, k);
      } else {
        assert MarkHasLine(st, x);
        OldMarkHasLine(st, st', x);
      }
    }
    forall d: Day, i: nat, e: Day, j: nat, x | TombstoneAt(log', d, i, x) && TombstoneAt(log', e, j, x)
      ensures d == e && i == j
    {
      if x != k {
        assert TombstoneAt(log, d, i, x) && TombstoneAt(log, e, j, x);
      }
    }
  }

  /** Marking live keys one after the other, or all at once, is the same. */
  lemma SoftDeletedSplit(table: Table, k: Key, rest: seq<Key>, ds: Day, now: Time)
    ensures SoftDeleted(SoftDeleted(table, [k], ds, now), rest, ds, now) == SoftDeleted(table, [k] + rest, ds, now)
  {
  }

  lemma BurySplit(st: State, keys: seq<Key>, ds: Day, now: Time)
    requires keys != []
    ensures Bury(st, keys, ds, now) == Bury(BuryOne(st, keys[0], ds, now), keys[1..], ds, now)
  {
    assert keys == [keys[0]] + keys[1..];
    SoftDeletedSplit(st.table, keys[0], keys[1..], ds, now);
    hide SoftDeleted;
    assert Tombstones(keys, now)[1..] == Tombstones(keys[1..], now);
  }

  lemma StillLive(st: State, keys: seq<Key>, ds: Day, now: Time)
    requires keys != [] && Distinct(keys) && forall k :: k in keys ==> k in st.table && Live(st.table[k])
    ensures Distinct(keys[1..])
    ensures forall k :: k in keys[1..] ==>
      k in BuryOne(st, keys[0], ds, now).table && Live(BuryOne(st, keys[0], ds, now).table[k])
  {
    var rest := keys[1..];
    forall k | k in rest
      ensures k in keys && k != keys[0]
    {
      var i :| 0 <= i < |rest| && rest[i] == k;
      assert keys[i + 1] == k;
    }
  }

  lemma {:induction false} BuryKeepsStep(
      spec: TableSpec, emb: Option<Embedder>, st: State, keys: seq<Key>, ds: Day, now: Time)
    requires InStep(spec, emb, st) && Distinct(keys)
    requires forall k :: k in keys ==> k in st.table && Live(st.table[k])
    ensures InStep(spec, emb, Bury(st, keys, ds, now))
    decreases |keys|
  {
    if keys == [] {
      assert SoftDeleted(st.table, keys, ds, now) == st.table;
    } else {
      hide PutsInStep;
      hide DelsInStep;
      hide Bury;
      hide BuryOne;
      BuryOneKeepsPuts(spec, emb, st, keys[0], ds, now);
      BuryOneKeepsDels(st, keys[0], ds, now);
      StillLive(st, keys, ds, now);
      BurySplit(st, keys, ds, now);
      BuryKeepsStep(spec, emb, BuryOne(st, keys[0], ds, now), keys[1..], ds, now);
    }
  }

  /** A write of rows that all have a key. */
  predicate Keyed(spec: TableSpec, op: Op) {
    op.Insert? ==> forall i :: 0 <= i < |op.rows| ==> !NullKey(spec, Normalize(spec, op.rows[i]))
  }

  lemma KeyedRecords(spec: TableSpec, known: set<Key>, op: Op)
    requires Keyed(spec, op) && op.Insert? && Validated(spec, known, op.rows, op.skipExisting).Ok?
    ensures var recs := Validated(spec, known, op.rows, op.skipExisting).value;
            forall i :: 0 <= i < |recs| ==> !NullKey(spec, recs[i])
  {
    var all := NormalizeAll(spec, op.rows);
    var recs := Validated(spec, known, op.rows, op.skipExisting).value;
    NewRecordsAreNew(spec, known, all);
    forall i | 0 <= i < |recs|
      ensures !NullKey(spec, recs[i])
    {
      assert recs[i] in recs;
      var h :| 0 <= h < |all| && all[h] == recs[i];
      assert all[h] == Normalize(spec, op.rows[h]);
    }
  }

  lemma LandKeepsStep(spec: TableSpec, emb: Option<Embedder>, st: State, recs: seq<Record>, ds: Day, now: Time)
    requires InStep(spec, emb, st) && now != "" && AllNew(spec, st.table.Keys, recs)
    requires forall i :: 0 <= i < |recs| ==> IsRecord(spec, recs[i]) && !NullKey(spec, recs[i])
    ensures InStep(spec, emb, Land(spec, emb, st, recs, ds, now).1)
  {
    hide InStep;
    CommitMeans(spec, st.table, recs, IndexAll(emb, spec, recs), ds, now);
    InsertKeepsStep(spec, emb, st, recs, ds, now);
  }

  /** Every write keeps the tiers in step, on whatever day the clock puts it. */
  lemma WriteKeepsStep(
      spec: TableSpec, emb: Option<Embedder>, st: State, op: Op, ds: Day, now: Time, out: Outcome, after: State)
    requires InStep(spec, emb, st) && now != "" && Keyed(spec, op)
    requires Executes(spec, emb, st, op, ds, now, out, after)
    ensures InStep(spec, emb, after)
  {
    hide InStep;
    match op {
      case Insert(rows, skipExisting) =>
        var recs := Validated(spec, st.table.Keys, rows, skipExisting);
        if recs.Ok? {
          ValidatedRecords(spec, st.table.Keys, rows, skipExisting);
          KeyedRecords(spec, st.table.Keys, op);
          hide Validated;
          LandKeepsStep(spec, emb, st, recs.value, ds, now);
        }
      case Delete(where) =>
        if where.valid {
          var keys :| Buries(st, where, keys, ds, now, out, after);
          forall k | k in keys
            ensures k in st.table && Live(st.table[k])
          {
            assert k in ElementsOf(keys);
          }
          BuryKeepsStep(spec, emb, st, keys, ds, now);
        }
    }
  }

  // --------------------------------------- null keys: the one write that breaks step

  /** `later` has every line that `log` has, where it was. */
  ghost predicate Extends(log: Log, later: Log) {
    forall d: Day, i: nat :: At(log, d, i) ==> At(later, d, i) && later[d][i] == log[d][i]
  }

  lemma AppendedLine(log: Log, d: Day, lines: seq<Line>, h: nat) returns (j: nat)
    requires h < |lines|
    ensures At(AppendAll(log, d, lines), d, j) && AppendAll(log, d, lines)[d][j] == lines[h]
  {
    AppendAllMeans(log, d, lines);
    hide AppendAll;
    j := (if d in log then |log[d]| else 0) + h;
  }

  /** A log with a null-key put line is never loadable again. */
  lemma NullLineIsForever(spec: TableSpec, emb: Option<Embedder>, clock: Time, log: Log, later: Log, d: Day, i: nat)
    requires PutAt(log, d, i) && NullLine(spec, log[d][i]) && Extends(log, later)
    ensures Rebuilt(spec, emb, clock, later) == None
  {
    RebuildSucceedsIffLoadable(spec, emb, clock, later);
    hide Rebuilt;
    hide NullLine;
    hide LineKey;
    assert PutAt(later, d, i);
  }

  /**
   * Landing validated records keeps the tiers in step exactly when each of them has a
   * key. Otherwise the transaction fails after the lines are written, and from then on
   * every rebuild fails, however the log grows.
   */
  lemma LandKeepsStepIffKeyed(
      spec: TableSpec, emb: Option<Embedder>, st: State, recs: seq<Record>, ds: Day, now: Time)
    requires InStep(spec, emb, st) && now != "" && AllNew(spec, st.table.Keys, recs)
    requires forall i :: 0 <= i < |recs| ==> IsRecord(spec, recs[i]) && Embeddable(emb, spec, recs[i])
    ensures var (out, after) := Land(spec, emb, st, recs, ds, now);
            && (InStep(spec, emb, after) <==> forall i :: 0 <= i < |recs| ==> !NullKey(spec, recs[i]))
            && (out == Inserted <==> forall i :: 0 <= i < |recs| ==> !NullKey(spec, recs[i]))
            && forall clock, later :: out.Failed? && Extends(after.log, later) ==> Rebuilt(spec, emb, clock, later) == None
  {
    LandCases(spec, emb, st, recs, ds, now);
    hide InStep;
    hide Rebuilt;
    hide Land;
    hide AppendAll;
    if forall i :: 0 <= i < |recs| ==> !NullKey(spec, recs[i]) {
      LandKeepsStep(spec, emb, st, recs, ds, now);
    } else {
      var h: nat :| h < |recs| && NullKey(spec, recs[h]);
      NullKeyLands(spec, emb, st, recs, ds, now, h);
      var log := AppendAll(st.log, ds, PutLines(recs, ds, now));
      assert !InStep(spec, emb, State(st.table, log));
    }
  }

  lemma LandCases(spec: TableSpec, emb: Option<Embedder>, st: State, recs: seq<Record>, ds: Day, now: Time)
    requires AllNew(spec, st.table.Keys, recs)
    requires forall i :: 0 <= i < |recs| ==> Embeddable(emb, spec, recs[i])
    ensures var landed := Land(spec, emb, st, recs, ds, now);
            if forall i :: 0 <= i < |recs| ==> !NullKey(spec, recs[i]) then landed.0 == Inserted
            else landed == (Failed("primary key"), State(st.table, AppendAll(st.log, ds, PutLines(recs, ds, now))))
  {
    CommitMeans(spec, st.table, recs, IndexAll(emb, spec, recs), ds, now);
  }

  lemma NullKeyLands(
      spec: TableSpec, emb: Option<Embedder>, st: State, recs: seq<Record>, ds: Day, now: Time, h: nat)
    requires h < |recs| && NullKey(spec, recs[h]) && IsRecord(spec, recs[h])
    ensures var log := AppendAll(st.log, ds, PutLines(recs, ds, now));
            && (forall table :: !InStep(spec, emb, State(table, log)))
            && forall clock, later :: Extends(log, later) ==> Rebuilt(spec, emb, clock, later) == None
  {
    var log := AppendAll(st.log, ds, PutLines(recs, ds, now));
    var j := AppendedLine(st.log, ds, PutLines(recs, ds, now), h);
    RecordsAreNormal(spec, recs[h]);
    assert PutAt(log, ds, j) && NullLine(spec, log[ds][j]);
    hide AppendAll;
    hide Rebuilt;
    hide NullLine;
    forall clock, later | Extends(log, later)
      ensures Rebuilt(spec, emb, clock, later) == None
    {
      NullLineIsForever(spec, emb, clock, log, later, ds, j);
    }
    forall table
      ensures !InStep(spec, emb, State(table, log))
    {
      assert !PutInStep(spec, emb, table, ds, log[ds][j]);
    }
  }

  // ------------------------------------------------------------ whole histories

  /** A write, or a rebuild, with the clock's reading. */
  datatype Event = Write(op: Op, ds: Day, now: Time) | Rebuild(ds: Day, now: Time)

  ghost predicate Happens(spec: TableSpec, emb: Option<Embedder>, st: State, e: Event, after: State) {
    match e
    case Write(op, ds, now) => exists out :: Executes(spec, emb, st, op, ds, now, out, after)
    case Rebuild(_, now) => after.log == st.log && Rebuilt(spec, emb, now, st.log) == Some(after.table)
  }

  /** `events` leads from `st` to `after`, without a crash. */
  ghost predicate Leads(spec: TableSpec, emb: Option<Embedder>, st: State, events: seq<Event>, after: State)
    decreases |events|
  {
    if events == [] then after == st
    else exists mid :: Happens(spec, emb, st, events[0], mid) && Leads(spec, emb, mid, events[1..], after)
  }

  predicate Proper(spec: TableSpec, events: seq<Event>) {
    forall i :: 0 <= i < |events| ==> events[i].now != "" && (events[i].Write? ==> Keyed(spec, events[i].op))
  }

  lemma EventKeepsStep(spec: TableSpec, emb: Option<Embedder>, st: State, e: Event, after: State)
    requires InStep(spec, emb, st) && Happens(spec, emb, st, e, after) && Proper(spec, [e])
    ensures InStep(spec, emb, after)
  {
    assert [e][0] == e;
    hide InStep;
    match e {
      case Write(op, ds, now) =>
        var out :| Executes(spec, emb, st, op, ds, now, out, after);
        WriteKeepsStep(spec, emb, st, op, ds, now, out, after);
      case Rebuild(_, now) =>
        RebuildInStep(spec, emb, now, st);
    }
  }

  lemma RebuildInStep(spec: TableSpec, emb: Option<Embedder>, clock: Time, st: State)
    requires InStep(spec, emb, st)
    ensures Rebuilt(spec, emb, clock, st.log) == Some(st.table)
  {
    InStepAgrees(spec, emb, clock, st);
    RebuildIffAgree(spec, emb, clock, st.log, st.table);
  }

  lemma {:induction false} HistoryKeepsStep(
      spec: TableSpec, emb: Option<Embedder>, st: State, events: seq<Event>, after: State)
    requires InStep(spec, emb, st) && Leads(spec, emb, st, events, after) && Proper(spec, events)
    ensures InStep(spec, emb, after)
    decreases |events|
  {
    if events != [] {
      hide InStep;
      hide Happens;
      hide Keyed;
      var mid :| Happens(spec, emb, st, events[0], mid) && Leads(spec, emb, mid, events[1..], after);
      assert [events[0]][0] == events[0];
      EventKeepsStep(spec, emb, st, events[0], mid);
      HistoryKeepsStep(spec, emb, mid, events[1..], after);
    }
  }

  lemma EmptyInStep(spec: TableSpec, emb: Option<Embedder>)
    ensures InStep(spec, emb, EMPTY)
  {
  }

  /**
   * Rebuild is the identity: after any crash-free history of inserts, skip-existing
   * inserts, deletes and rebuilds, under any clock, even one that runs backwards,
   * replaying the log succeeds and reproduces the exact table, search columns included.
   */
  lemma RebuildIsIdentity(spec: TableSpec, emb: Option<Embedder>, events: seq<Event>, st: State, clock: Time)
    requires Leads(spec, emb, EMPTY, events, st) && Proper(spec, events)
    ensures Rebuilt(spec, emb, clock, st.log) == Some(st.table)
  {
    hide InStep;
    hide Rebuilt;
    hide Leads;
    EmptyInStep(spec, emb);
    HistoryKeepsStep(spec, emb, EMPTY, events, st);
    RebuildInStep(spec, emb, clock, st);
  }

  // -------------------------------------------------------------- the counters

  function PutKeys(spec: TableSpec, puts: seq<Files.Event>): (keys: seq<Key>)
    requires forall e :: e in puts ==> e.line.Put?
    ensures |keys| == |puts|
    ensures forall i :: 0 <= i < |puts| ==> puts[i] in puts && keys[i] == LineKey(spec, puts[i].line)
  {
    seq(|puts|, i requires 0 <= i < |puts| => assert puts[i] in puts; LineKey(spec, puts[i].line))
  }

  function DelKeys(dels: seq<Files.Event>): (keys: seq<Key>)
    requires forall e :: e in dels ==> e.line.Tombstone?
    ensures |keys| == |dels|
    ensures forall i :: 0 <= i < |dels| ==> dels[i] in dels && keys[i] == dels[i].line.key
  {
    seq(|dels|, i requires 0 <= i < |dels| => assert dels[i] in dels; dels[i].line.key)
  }

  function Buried(table: Table): set<Key> {
    set k | k in table && !Live(table[k])
  }

  lemma PutsCountRows(spec: TableSpec, emb: Option<Embedder>, st: State)
    requires PutsInStep(spec, emb, st)
    ensures |PutsOf(Events(st.log))| == |st.table|
  {
    PutsMean(st.log);
    var puts := PutsOf(Events(st.log));
    hide PutsOf;
    hide Events;
    hide LineKey;
    hide PutInStep;
    var keys := PutKeys(spec, puts);
    forall i, j | 0 <= i < j < |keys|
      ensures keys[i] != keys[j]
    {
      assert !SameKeyPuts(spec, st.log, puts[i].day, puts[i].pos, puts[j].day, puts[j].pos);
    }
    forall k
      ensures k in keys <==> k in st.table
    {
      if k in keys {
        var i :| 0 <= i < |keys| && keys[i] == k;
        PutHasRow(spec, emb, st, puts[i].day, puts[i].pos);
      }
      if k in st.table {
        var d: Day, i: nat :| PutAt(st.log, d, i) && LineKey(spec, st.log[d][i]) == k;
        var h :| 0 <= h < |puts| && puts[h] == Files.Event(d, i, st.log[d][i]);
        assert keys[h] == k;
      }
    }
    CountDistinct(keys, st.table.Keys);
  }

  lemma PutHasRow(spec: TableSpec, emb: Option<Embedder>, st: State, d: Day, i: nat)
    requires PutsInStep(spec, emb, st) && PutAt(st.log, d, i)
    ensures LineKey(spec, st.log[d][i]) in st.table
  {
    assert PutInStep(spec, emb, st.table, d, st.log[d][i]);
  }

  lemma DelsCountBuried(st: State)
    requires DelsInStep(st)
    ensures |DelsOf(Events(st.log))| == |Buried(st.table)|
  {
    DelsMean(st.log);
    var dels := DelsOf(Events(st.log));
    hide DelsOf;
    hide Events;
    var keys := DelKeys(dels);
    assert forall i :: 0 <= i < |dels| ==> TombstoneAt(st.log, dels[i].day, dels[i].pos, keys[i]);
    forall i, j | 0 <= i < j < |keys|
      ensures keys[i] != keys[j]
    {
      assert Before(dels[i], dels[j]);
    }
    assert ElementsOf(keys) == Buried(st.table) by {
      forall k | k in keys
        ensures k in Buried(st.table)
      {
        var i :| 0 <= i < |keys| && keys[i] == k;
        assert BuriedInStep(st.table, dels[i].day, dels[i].line);
      }
      forall k | k in Buried(st.table)
        ensures k in keys
      {
        assert MarkHasLine(st, k);
        var d := st.table[k].deletedDs.value;
        var i: nat :| TombstoneAt(st.log, d, i, k);
        var h :| 0 <= h < |dels| && dels[h] == Files.Event(d, i, st.log[d][i]);
        assert keys[h] == k;
      }
    }
    CountDistinct(keys, Buried(st.table));
  }

  /** After a crash-free history, the counters of a rebuild are the number of rows of
      the table and the number of its deleted rows. */
  lemma StatsCountRowsAndMarks(spec: TableSpec, emb: Option<Embedder>, events: seq<Event>, st: State)
    requires Leads(spec, emb, EMPTY, events, st) && Proper(spec, events)
    ensures |PutsOf(Events(st.log))| == |st.table|
    ensures |DelsOf(Events(st.log))| == |Buried(st.table)|
  {
    EmptyInStep(spec, emb);
    HistoryKeepsStep(spec, emb, EMPTY, events, st);
    PutsCountRows(spec, emb, st);
    DelsCountBuried(st);
  }

  // ------------------------------------------------------- the time machine

  /** What a reader sees of a row. */
  datatype Fact = Fact(rec: Record, ds: Day, createdAt: Time)

  /** The view with window [dsStart, dsEnd] (`_visible`). */
  function View(table: Table, dsStart: Option<Day>, dsEnd: Option<Day>): map<Key, Fact> {
    map k | k in table && VisibleAt(table[k], dsStart, dsEnd) :: Fact(table[k].rec, table[k].ds, table[k].createdAt)
  }

  /** What a write on day `ds` does to a table: it adds live rows of that day, and marks
      live rows as deleted on that day. */
  ghost predicate Grows(table: Table, ds: Day, after: Table) {
    && (forall k :: k in table ==> k in after && (after[k] == table[k] || MarkedOn(table[k], ds, after[k])))
    && (forall k :: k in after && k !in table ==> after[k].ds == ds && Live(after[k]))
  }

  predicate MarkedOn(row: StoredRow, ds: Day, after: StoredRow) {
    Live(row) && after == row.(deletedDs := Some(ds), deletedAt := after.deletedAt)
  }

  lemma CommitGrows(spec: TableSpec, table: Table, recs: seq<Record>, index: seq<Index>, ds: Day, now: Time)
    requires |index| == |recs| && Commit(spec, table, recs, index, ds, now).Some?
    ensures Grows(table, ds, Commit(spec, table, recs, index, ds, now).value)
  {
    CommitMeans(spec, table, recs, index, ds, now);
    var after := Commit(spec, table, recs, index, ds, now).value;
    hide Commit;
    hide KeyOf;
    hide NullKey;
    hide AllNew;
    forall k | k in after && k !in table
      ensures after[k].ds == ds && Live(after[k])
    {
      assert k in Keys(spec, recs);
      var i :| 0 <= i < |recs| && KeyOf(spec, recs[i]) == k;
      assert after[k] == FreshRow(recs[i], index[i], ds, now);
    }
  }

  lemma LandGrows(spec: TableSpec, emb: Option<Embedder>, st: State, recs: seq<Record>, ds: Day, now: Time)
    ensures Grows(st.table, ds, Land(spec, emb, st, recs, ds, now).1.table)
  {
    hide Commit;
    hide AppendAll;
    hide Embeddable;
    if Commit(spec, st.table, recs, IndexAll(emb, spec, recs), ds, now).Some? {
      CommitGrows(spec, st.table, recs, IndexAll(emb, spec, recs), ds, now);
    }
  }

  lemma WriteGrows(
      spec: TableSpec, emb: Option<Embedder>, st: State, op: Op, ds: Day, now: Time, out: Outcome, after: State)
    requires Executes(spec, emb, st, op, ds, now, out, after)
    ensures Grows(st.table, ds, after.table)
  {
    hide Validated;
    hide Land;
    hide AppendAll;
    match op {
      case Insert(rows, skipExisting) =>
        var recs := Validated(spec, st.table.Keys, rows, skipExisting);
        if recs.Ok? {
          LandGrows(spec, emb, st, recs.value, ds, now);
        }
      case Delete(where) =>
    }
  }

  lemma GrowsKeepsPast(table: Table, ds: Day, after: Table, start: Option<Day>, day: Day)
    requires Grows(table, ds, after) && day < ds
    ensures View(after, start, Some(day)) == View(table, start, Some(day))
  {
    forall k
      ensures k in View(after, start, Some(day)) <==> k in View(table, start, Some(day))
      ensures k in View(table, start, Some(day)) ==> View(after, start, Some(day))[k] == View(table, start, Some(day))[k]
    {
    }
  }

  /** What happens later than day `day` does not change the view as of that day. */
  lemma EventKeepsPast(
      spec: TableSpec, emb: Option<Embedder>, st: State, e: Event, after: State, start: Option<Day>, day: Day)
    requires InStep(spec, emb, st) && Happens(spec, emb, st, e, after) && day < e.ds
    ensures View(after.table, start, Some(day)) == View(st.table, start, Some(day))
  {
    hide InStep;
    hide Executes;
    hide View;
    hide Rebuilt;
    hide Grows;
    match e {
      case Write(op, ds, now) =>
        var out :| Executes(spec, emb, st, op, ds, now, out, after);
        WriteGrows(spec, emb, st, op, ds, now, out, after);
        GrowsKeepsPast(st.table, ds, after.table, start, day);
      case Rebuild(_, now) =>
        RebuildInStep(spec, emb, now, st);
    }
  }

  lemma {:induction false} HistoryKeepsPast(
      spec: TableSpec, emb: Option<Embedder>, st: State, events: seq<Event>, after: State, start: Option<Day>, day: Day)
    requires InStep(spec, emb, st) && Leads(spec, emb, st, events, after) && Proper(spec, events)
    requires forall i :: 0 <= i < |events| ==> day < events[i].ds
    ensures View(after.table, start, Some(day)) == View(st.table, start, Some(day))
    decreases |events|
  {
    if events != [] {
      hide InStep;
      hide Happens;
      hide Keyed;
      hide View;
      var mid :| Happens(spec, emb, st, events[0], mid) && Leads(spec, emb, mid, events[1..], after);
      assert [events[0]][0] == events[0];
      EventKeepsStep(spec, emb, st, events[0], mid);
      EventKeepsPast(spec, emb, st, events[0], mid, start, day);
      HistoryKeepsPast(spec, emb, mid, events[1..], after, start, day);
    }
  }

  /** No row was created or deleted after `day`. */
  predicate UpTo(table: Table, day: Day) {
    forall k :: k in table ==> table[k].ds <= day && (table[k].deletedDs.Some? ==> table[k].deletedDs.value <= day)
  }

  lemma EventUpTo(spec: TableSpec, emb: Option<Embedder>, st: State, e: Event, after: State, day: Day)
    requires InStep(spec, emb, st) && Happens(spec, emb, st, e, after) && e.ds <= day && UpTo(st.table, day)
    ensures UpTo(after.table, day)
  {
    hide InStep;
    hide Executes;
    hide Rebuilt;
    match e {
      case Write(op, ds, now) =>
        var out :| Executes(spec, emb, st, op, ds, now, out, after);
        WriteGrows(spec, emb, st, op, ds, now, out, after);
      case Rebuild(_, now) =>
        RebuildInStep(spec, emb, now, st);
    }
  }

  lemma {:induction false} HistoryUpTo(
      spec: TableSpec, emb: Option<Embedder>, st: State, events: seq<Event>, after: State, day: Day)
    requires InStep(spec, emb, st) && Leads(spec, emb, st, events, after) && Proper(spec, events) && UpTo(st.table, day)
    requires forall i :: 0 <= i < |events| ==> events[i].ds <= day
    ensures UpTo(after.table, day)
    decreases |events|
  {
    if events != [] {
      hide InStep;
      hide Happens;
      hide Keyed;
      hide UpTo;
      var mid :| Happens(spec, emb, st, events[0], mid) && Leads(spec, emb, mid, events[1..], after);
      assert [events[0]][0] == events[0];
      EventKeepsStep(spec, emb, st, events[0], mid);
      EventUpTo(spec, emb, st, events[0], mid, day);
      HistoryUpTo(spec, emb, mid, events[1..], after, day);
    }
  }

  /** As of today, or any later day, the view is the live view. */
  lemma PresentIsLive(table: Table, start: Option<Day>, day: Day)
    requires UpTo(table, day)
    ensures View(table, start, Some(day)) == View(table, start, None)
  {
  }

  /**
   * History is immutable. Take a crash-free history up to the end of a day, and any
   * continuation on later days, rebuilds included: as of that day, the table reads
   * for ever as the live rows read when the day ended.
   */
  lemma HistoryIsImmutable(
      spec: TableSpec, emb: Option<Embedder>, past: seq<Event>, evening: State, future: seq<Event>, now: State,
      start: Option<Day>, day: Day)
    requires Leads(spec, emb, EMPTY, past, evening) && Proper(spec, past)
    requires Leads(spec, emb, evening, future, now) && Proper(spec, future)
    requires forall i :: 0 <= i < |past| ==> past[i].ds <= day
    requires forall i :: 0 <= i < |future| ==> day < future[i].ds
    ensures View(now.table, start, Some(day)) == View(evening.table, start, None)
  {
    EmptyInStep(spec, emb);
    hide InStep;
    hide Leads;
    hide Keyed;
    HistoryKeepsStep(spec, emb, EMPTY, past, evening);
    HistoryUpTo(spec, emb, EMPTY, past, evening, day);
    HistoryKeepsPast(spec, emb, evening, future, now, start, day);
    PresentIsLive(evening.table, start, day);
  }
}
