/**
 * The derived tier: one table of rows for each business table, its visibility
 * predicate and its row primitives.
 */
module Store {
  import opened Prelude
  import opened Embedding

  /** A `YYYYMMDD` string as a number: of equal length, they compare alike. */
  type Day = nat
  type Time = string

  datatype StoredRow = StoredRow(
    rec: Record, index: Index, ds: Day, createdAt: Time, deletedDs: Option<Day>, deletedAt: Option<Time>)

  /** The primary key is the key of the map: one row for each key. */
  type Table = map<Key, StoredRow>

  // ------------------------------------------------------------- visibility

  predicate Live(row: StoredRow) {
    row.deletedDs.None?
  }

  /** `_asof_conds`. */
  predicate VisibleAt(row: StoredRow, dsStart: Option<Day>, dsEnd: Option<Day>) {
    && (match dsEnd
        case None => row.deletedDs.None?
        case Some(d) => row.ds <= d && (row.deletedDs.None? || row.deletedDs.value > d))
    && (dsStart.Some? ==> row.ds >= dsStart.value)
  }

  // ------------------------------------------------------------- validation

  function Keys(spec: TableSpec, recs: seq<Record>): set<Key> {
    set i | 0 <= i < |recs| :: KeyOf(spec, recs[i])
  }

  predicate HasUnknownColumn(spec: TableSpec, row: Record) {
    exists c :: c in row && c !in spec.columns
  }

  function NormalizeAll(spec: TableSpec, rows: seq<Record>): (recs: seq<Record>)
    ensures |recs| == |rows|
    ensures forall i :: 0 <= i < |rows| ==> recs[i] == Normalize(spec, rows[i])
  {
    seq(|rows|, i requires 0 <= i < |rows| => Normalize(spec, rows[i]))
  }

  /** No key occurs twice, and none is known already. */
  predicate AllNew(spec: TableSpec, known: set<Key>, recs: seq<Record>) {
    && (forall i :: 0 <= i < |recs| ==> KeyOf(spec, recs[i]) !in known)
    && (forall i, j :: 0 <= i < j < |recs| ==> KeyOf(spec, recs[i]) != KeyOf(spec, recs[j]))
  }

  /** The first record of each key that is not known. */
  function NewRecords(spec: TableSpec, known: set<Key>, recs: seq<Record>): seq<Record>
    decreases |recs|
  {
    if recs == [] then []
    else if KeyOf(spec, recs[0]) in known then NewRecords(spec, known, recs[1..])
    else [recs[0]] + NewRecords(spec, known + {KeyOf(spec, recs[0])}, recs[1..])
  }

  /** Exactly the unknown keys are left, each once. */
  lemma {:induction false} NewRecordsAreNew(spec: TableSpec, known: set<Key>, recs: seq<Record>)
    ensures var out := NewRecords(spec, known, recs);
            && Keys(spec, out) == Keys(spec, recs) - known
            && AllNew(spec, known, out)
            && forall r :: r in out ==> r in recs
    decreases |recs|
  {
    if recs != [] {
      var k := KeyOf(spec, recs[0]);
      KeysHead(spec, recs);
      if k in known {
        NewRecordsAreNew(spec, known, recs[1..]);
      } else {
        var rest := NewRecords(spec, known + {k}, recs[1..]);
        NewRecordsAreNew(spec, known + {k}, recs[1..]);
        KeysHead(spec, [recs[0]] + rest);
        assert ([recs[0]] + rest)[1..] == rest;
        AllNewCons(spec, known, recs[0], rest);
      }
    }
  }

  lemma KeysHead(spec: TableSpec, recs: seq<Record>)
    requires recs != []
    ensures Keys(spec, recs) == {KeyOf(spec, recs[0])} + Keys(spec, recs[1..])
  {
    forall k | k in Keys(spec, recs)
      ensures k in {KeyOf(spec, recs[0])} + Keys(spec, recs[1..])
    {
      var i :| 0 <= i < |recs| && KeyOf(spec, recs[i]) == k;
      if i > 0 {
        assert recs[1..][i - 1] == recs[i];
      }
    }
  }

  lemma AllNewCons(spec: TableSpec, known: set<Key>, r: Record, rest: seq<Record>)
    requires KeyOf(spec, r) !in known && AllNew(spec, known + {KeyOf(spec, r)}, rest)
    ensures AllNew(spec, known, [r] + rest)
  {
    var out := [r] + rest;
    assert forall i :: 1 <= i < |out| ==> out[i] == rest[i - 1];
  }

  /** What `validate` returns: unknown columns and repeated keys are refused, or, in
      the skip-existing mode, repeated keys are dropped. */
  function Validated(spec: TableSpec, known: set<Key>, rows: seq<Record>, skipExisting: bool): Result<seq<Record>> {
    var recs := NormalizeAll(spec, rows);
    if exists i :: 0 <= i < |rows| && HasUnknownColumn(spec, rows[i]) then Err("unknown column(s)")
    else if skipExisting then Ok(NewRecords(spec, known, recs))
    else if AllNew(spec, known, recs) then Ok(recs)
    else Err("primary key already exists")
  }

  // --------------------------------------------------------- row primitives

  predicate NullKey(spec: TableSpec, rec: Record) {
    Get(rec, spec.primaryKey).Null?
  }

  function FreshRow(rec: Record, index: Index, ds: Day, now: Time): StoredRow {
    StoredRow(rec, index, ds, now, None, None)
  }

  /** One transaction of INSERTs; `None` when a constraint of the primary key fails. */
  function Commit(spec: TableSpec, table: Table, recs: seq<Record>, index: seq<Index>, ds: Day, now: Time): Option<Table>
    requires |index| == |recs|
    decreases |recs|
  {
    if recs == [] then Some(table)
    else if NullKey(spec, recs[0]) || KeyOf(spec, recs[0]) in table then None
    else Commit(spec, table[KeyOf(spec, recs[0]) := FreshRow(recs[0], index[0], ds, now)], recs[1..], index[1..], ds, now)
  }

  /** A commit succeeds exactly for new, non-null keys; it adds one live row for each
      record and touches no other row. */
  lemma {:induction false} CommitMeans(
      spec: TableSpec, table: Table, recs: seq<Record>, index: seq<Index>, ds: Day, now: Time)
    requires |index| == |recs|
    ensures var after := Commit(spec, table, recs, index, ds, now);
            && (after.Some? <==> AllNew(spec, table.Keys, recs) && forall i :: 0 <= i < |recs| ==> !NullKey(spec, recs[i]))
            && (after.Some? ==>
                  && after.value.Keys == table.Keys + Keys(spec, recs)
                  && (forall k :: k in table ==> after.value[k] == table[k])
                  && (forall i :: 0 <= i < |recs| ==>
                        KeyOf(spec, recs[i]) in after.value &&
                        after.value[KeyOf(spec, recs[i])] == FreshRow(recs[i], index[i], ds, now)))
    decreases |recs|
  {
    if recs == [] {
      assert Keys(spec, recs) == {};
    } else {
      var k := KeyOf(spec, recs[0]);
      KeysHead(spec, recs);
      if !NullKey(spec, recs[0]) && k !in table {
        var next := table[k := FreshRow(recs[0], index[0], ds, now)];
        CommitMeans(spec, next, recs[1..], index[1..], ds, now);
        AllNewHead(spec, table.Keys, recs);
        assert next.Keys == table.Keys + {k};
        assert forall i :: 1 <= i < |recs| ==> recs[i] == recs[1..][i - 1] && index[i] == index[1..][i - 1];
      }
    }
  }

  lemma AllNewHead(spec: TableSpec, known: set<Key>, recs: seq<Record>)
    requires recs != []
    ensures AllNew(spec, known, recs) <==>
            KeyOf(spec, recs[0]) !in known && AllNew(spec, known + {KeyOf(spec, recs[0])}, recs[1..])
  {
    assert forall i :: 1 <= i < |recs| ==> recs[i] == recs[1..][i - 1];
    if AllNew(spec, known + {KeyOf(spec, recs[0])}, recs[1..]) && KeyOf(spec, recs[0]) !in known {
      AllNewCons(spec, known, recs[0], recs[1..]);
      assert [recs[0]] + recs[1..] == recs;
    }
  }

  /** UPDATE … SET deleted … WHERE key IN keys AND not yet deleted: the first deletion
      of a row is final. */
  function SoftDeleted(table: Table, keys: seq<Key>, ds: Day, now: Time): Table {
    map k | k in table :: if k in keys && Live(table[k])
      then table[k].(deletedDs := Some(ds), deletedAt := Some(now)) else table[k]
  }

  /** A WHERE clause: a row predicate, or text that DuckDB rejects. */
  datatype Where = Where(valid: bool, pred: StoredRow -> bool)

  function Matched(table: Table, where: Where): set<Key> {
    set k | k in table && Live(table[k]) && where.pred(table[k])
  }

  predicate Distinct<T(==)>(s: seq<T>) {
    forall i, j :: 0 <= i < j < |s| ==> s[i] != s[j]
  }

  function ElementsOf<T>(s: seq<T>): set<T> {
    set x | x in s
  }

  /** A list without repetitions is as long as its set of elements is large. */
  lemma {:induction false} CountDistinct<T>(s: seq<T>, elements: set<T>)
    requires Distinct(s) && ElementsOf(s) == elements
    ensures |s| == |elements|
    decreases |s|
  {
    if s != [] {
      var front, last := s[..|s| - 1], s[|s| - 1];
      assert s == front + [last];
      assert forall x :: x in s <==> x in front || x == last;
      assert last !in front;
      assert ElementsOf(front) == elements - {last};
      CountDistinct(front, elements - {last});
    }
  }

  /** The tokens that the full-text index of a table has seen. */
  type FtsSnapshot = map<Key, map<Column, Option<string>>>

  function TokensOf(table: Table): FtsSnapshot {
    map k | k in table :: table[k].index.toks
  }

  // ------------------------------------------------------ the three loops of validate

  method CheckColumns(spec: TableSpec, rows: seq<Record>) returns (r: Result<seq<Record>>)
    ensures r == if exists i :: 0 <= i < |rows| && HasUnknownColumn(spec, rows[i])
                 then Err("unknown column(s)") else Ok(NormalizeAll(spec, rows))
  {
    var records: seq<Record> := [];
    for i := 0 to |rows|
      invariant records == NormalizeAll(spec, rows[..i])
      invariant forall j :: 0 <= j < i ==> !HasUnknownColumn(spec, rows[j])
    {
      if exists c :: c in rows[i] && c !in spec.columns {
        assert HasUnknownColumn(spec, rows[i]);
        return Err("unknown column(s)");
      }
      records := records + [Normalize(spec, rows[i])];
    }
    assert rows[..|rows|] == rows;
    return Ok(records);
  }

  /** The skip-existing mode: drop repeated keys first, keys of the table afterwards. */
  method DropExisting(spec: TableSpec, existing: set<Key>, records: seq<Record>) returns (out: seq<Record>)
    ensures out == NewRecords(spec, existing, records)
  {
    var seen: set<Key> := {};
    var dedup: seq<Record> := [];
    assert records[0..] == records;
    for i := 0 to |records|
      invariant dedup + NewRecords(spec, seen, records[i..]) == NewRecords(spec, {}, records)
    {
      assert records[i..][1..] == records[i + 1..];
      var k := KeyOf(spec, records[i]);
      if k !in seen {
        assert (dedup + [records[i]]) + NewRecords(spec, seen + {k}, records[i + 1..]) ==
               dedup + ([records[i]] + NewRecords(spec, seen + {k}, records[i + 1..]));
        seen := seen + {k};
        dedup := dedup + [records[i]];
      }
    }
    assert dedup == NewRecords(spec, {}, records);
    NewRecordsAreNew(spec, {}, records);
    out := FilterExisting(spec, existing, dedup);
    NewRecordsTwice(spec, {}, existing, records);
    assert {} + existing == existing;
  }

  method FilterExisting(spec: TableSpec, existing: set<Key>, records: seq<Record>) returns (out: seq<Record>)
    requires AllNew(spec, {}, records)
    ensures out == NewRecords(spec, existing, records)
  {
    out := [];
    assert records[0..] == records;
    for i := 0 to |records|
      invariant out + NewRecords(spec, existing, records[i..]) == NewRecords(spec, existing, records)
    {
      if KeyOf(spec, records[i]) !in existing {
        NewRecordsDistinctTail(spec, existing, records, i);
        assert (out + [records[i]]) + NewRecords(spec, existing, records[i + 1..]) ==
               out + ([records[i]] + NewRecords(spec, existing, records[i + 1..]));
        out := out + [records[i]];
      } else {
        assert records[i..][1..] == records[i + 1..];
      }
    }
  }

  method CheckNew(spec: TableSpec, existing: set<Key>, records: seq<Record>) returns (ok: bool)
    ensures ok == AllNew(spec, existing, records)
  {
    var seen: set<Key> := {};
    for i := 0 to |records|
      invariant seen == Keys(spec, records[..i])
      invariant forall h, j :: 0 <= h < j < i ==> KeyOf(spec, records[h]) != KeyOf(spec, records[j])
    {
      var k := KeyOf(spec, records[i]);
      if k in seen {
        var h :| 0 <= h < i && KeyOf(spec, records[..i][h]) == k;
        return false;
      }
      KeysSnoc(spec, records, i);
      seen := seen + {k};
    }
    for i := 0 to |records|
      invariant forall h :: 0 <= h < i ==> KeyOf(spec, records[h]) !in existing
    {
      if KeyOf(spec, records[i]) in existing {
        return false;
      }
    }
    return true;
  }

  lemma KeysSnoc(spec: TableSpec, records: seq<Record>, i: nat)
    requires i < |records|
    ensures Keys(spec, records[..i + 1]) == Keys(spec, records[..i]) + {KeyOf(spec, records[i])}
  {
    assert forall h :: 0 <= h < i ==> records[..i + 1][h] == records[..i][h];
    assert records[..i + 1][i] == records[i];
    forall k | k in Keys(spec, records[..i])
      ensures k in Keys(spec, records[..i + 1])
    {
      var h :| 0 <= h < i && KeyOf(spec, records[..i][h]) == k;
      assert KeyOf(spec, records[..i + 1][h]) == k;
    }
  }

  /** StoreService: the connection's tables and full-text snapshots. */
  class StoreService {
    var tables: map<string, Table>
    var fts: map<string, FtsSnapshot>

    constructor (names: set<string>)
      ensures tables == map t | t in names :: map[]
      ensures fts == map t | t in names :: map[]
    {
      tables := map t | t in names :: map[];
      fts := map t | t in names :: map[];
    }

    method Validate(spec: TableSpec, rows: seq<Record>, skipExisting: bool) returns (r: Result<seq<Record>>)
      requires spec.name in tables
      ensures r == Validated(spec, tables[spec.name].Keys, rows, skipExisting)
    {
      var records := CheckColumns(spec, rows);
      if records.Err? {
        return records;
      }
      var existing := tables[spec.name].Keys;
      if skipExisting {
        var dropped := DropExisting(spec, existing, records.value);
        return Ok(dropped);
      }
      var allNew := CheckNew(spec, existing, records.value);
      return if allNew then records else Err("primary key already exists");
    }

    method CommitRows(spec: TableSpec, records: seq<Record>, index: seq<Index>, ds: Day, now: Time) returns (ok: bool)
      requires spec.name in tables && |index| == |records|
      modifies this`tables
      ensures ok <==> Commit(spec, old(tables[spec.name]), records, index, ds, now).Some?
      ensures tables == if ok
        then old(tables)[spec.name := Commit(spec, old(tables[spec.name]), records, index, ds, now).value]
        else old(tables)
    {
      var table := tables[spec.name];
      for i := 0 to |records|
        invariant Commit(spec, table, records[i..], index[i..], ds, now) ==
                  Commit(spec, tables[spec.name], records, index, ds, now)
      {
        assert records[i..][1..] == records[i + 1..] && index[i..][1..] == index[i + 1..];
        if NullKey(spec, records[i]) || KeyOf(spec, records[i]) in table {
          return false;
        }
        table := table[KeyOf(spec, records[i]) := FreshRow(records[i], index[i], ds, now)];
      }
      tables := tables[spec.name := table];
      return true;
    }

    /** The keys of the live rows that match, in whatever order the engine scans. */
    method MatchLive(name: string, where: Where) returns (r: Result<seq<Key>>)
      requires name in tables
      ensures r.Ok? <==> where.valid
      ensures r.Ok? ==> Distinct(r.value) && ElementsOf(r.value) == Matched(tables[name], where)
    {
      if !where.valid {
        return Err("bad delete where");
      }
      var todo := Matched(tables[name], where);
      var keys: seq<Key> := [];
      while todo != {}
        invariant Distinct(keys) && ElementsOf(keys) !! todo
        invariant ElementsOf(keys) + todo == Matched(tables[name], where)
        decreases todo
      {
        var k :| k in todo;
        assert ElementsOf(keys + [k]) == ElementsOf(keys) + {k};
        keys, todo := keys + [k], todo - {k};
      }
      return Ok(keys);
    }

    method SoftDelete(name: string, keys: seq<Key>, ds: Day, now: Time)
      requires name in tables
      modifies this`tables
      ensures tables == old(tables)[name := SoftDeleted(old(tables[name]), keys, ds, now)]
    {
      if keys == [] {
        assert SoftDeleted(tables[name], keys, ds, now) == tables[name];
        return;
      }
      tables := tables[name := SoftDeleted(tables[name], keys, ds, now)];
    }

    method Clear(name: string)
      requires name in tables
      modifies this`tables
      ensures tables == old(tables)[name := map[]]
    {
      tables := tables[name := map[]];
    }

    method RebuildFts(name: string)
      requires name in tables
      modifies this`fts
      ensures fts == old(fts)[name := TokensOf(tables[name])]
    {
      fts := fts[name := TokensOf(tables[name])];
    }
  }

  /** Deduplicating first and filtering the known keys afterwards comes to the same. */
  lemma {:induction false} NewRecordsTwice(spec: TableSpec, seen: set<Key>, known: set<Key>, recs: seq<Record>)
    ensures NewRecords(spec, known, NewRecords(spec, seen, recs)) == NewRecords(spec, seen + known, recs)
    decreases |recs|
  {
    if recs != [] {
      var k, rest := KeyOf(spec, recs[0]), recs[1..];
      if k in seen {
        NewRecordsTwice(spec, seen, known, rest);
      } else {
        var inner := NewRecords(spec, seen + {k}, rest);
        assert NewRecords(spec, seen, recs)[1..] == inner;
        NewRecordsTwice(spec, seen + {k}, known, rest);
        if k in known {
          assert seen + {k} + known == seen + known;
        } else {
          NewRecordsAreNew(spec, seen + {k}, rest);
          NewRecordsIrrelevant(spec, known, k, inner);
          assert seen + {k} + known == seen + known + {k};
        }
      }
    }
  }

  lemma {:induction false} NewRecordsIrrelevant(spec: TableSpec, known: set<Key>, k: Key, recs: seq<Record>)
    requires k !in Keys(spec, recs)
    ensures NewRecords(spec, known + {k}, recs) == NewRecords(spec, known, recs)
    decreases |recs|
  {
    if recs != [] {
      var k', rest := KeyOf(spec, recs[0]), recs[1..];
      KeysHead(spec, recs);
      NewRecordsIrrelevant(spec, known, k, rest);
      NewRecordsIrrelevant(spec, known + {k'}, k, rest);
      assert known + {k} + {k'} == known + {k'} + {k};
    }
  }

  lemma NewRecordsDistinctTail(spec: TableSpec, known: set<Key>, recs: seq<Record>, i: nat)
    requires i < |recs| && AllNew(spec, {}, recs) && KeyOf(spec, recs[i]) !in known
    ensures NewRecords(spec, known, recs[i..]) == [recs[i]] + NewRecords(spec, known, recs[i + 1..])
  {
    var rest := recs[i + 1..];
    assert recs[i..][1..] == rest;
    assert KeyOf(spec, recs[i]) !in Keys(spec, rest) by {
      assert forall j :: 0 <= j < |rest| ==> rest[j] == recs[i + 1 + j];
    }
    NewRecordsIrrelevant(spec, known, KeyOf(spec, recs[i]), rest);
  }
}
