/**
 * The side dataset of the second search backend: what writes and rebuilds make of it,
 * and when a search over it is a search over the table.
 */
module SideIndex {
  import opened Prelude
  import opened Embedding
  import opened Store
  import opened Metric
  import opened SearchFusion
  import Files
  import Rebuild
  import H = History

  /** One row of the dataset: the key, and for each searchable column the normalised
      vector and the tokens. */
  datatype SideRow = SideRow(key: Key, vecs: seq<Option<Vec>>, toks: seq<Option<string>>)

  function NormalizedCell(v: Option<Vec>, norm: Vec -> real): Option<Vec> {
    match v
    case None => None
    case Some(x) => Some(Normalized(x, norm(x)))
  }

  function CellOf<V>(cells: map<Column, Option<V>>, c: Column): Option<V> {
    if c in cells then cells[c] else None
  }

  function SideVecs(spec: TableSpec, norm: Vec -> real, index: Index): (vecs: seq<Option<Vec>>)
    ensures |vecs| == |spec.searchable|
    ensures forall n :: 0 <= n < |vecs| ==> vecs[n] == NormalizedCell(CellOf(index.vecs, spec.searchable[n]), norm)
  {
    seq(|spec.searchable|, n requires 0 <= n < |spec.searchable| => NormalizedCell(CellOf(index.vecs, spec.searchable[n]), norm))
  }

  function SideToks(spec: TableSpec, index: Index): (toks: seq<Option<string>>)
    ensures |toks| == |spec.searchable|
    ensures forall n :: 0 <= n < |toks| ==> toks[n] == CellOf(index.toks, spec.searchable[n])
  {
    seq(|spec.searchable|, n requires 0 <= n < |spec.searchable| => CellOf(index.toks, spec.searchable[n]))
  }

  function SideRowOf(spec: TableSpec, norm: Vec -> real, rec: Record, index: Index): SideRow {
    SideRow(KeyOf(spec, rec), SideVecs(spec, norm, index), SideToks(spec, index))
  }

  function Payload(spec: TableSpec, norm: Vec -> real, recs: seq<Record>, index: seq<Index>): (out: seq<SideRow>)
    requires |index| == |recs|
    ensures |out| == |recs| && forall i :: 0 <= i < |recs| ==> out[i] == SideRowOf(spec, norm, recs[i], index[i])
  {
    seq(|recs|, i requires 0 <= i < |recs| => SideRowOf(spec, norm, recs[i], index[i]))
  }

  // ------------------------------------------------------ what the store does

  /** `_lance_payload`. */
  method SidePayload(spec: TableSpec, records: seq<Record>, index: seq<Index>, norm: Vec -> real) returns (out: seq<SideRow>)
    requires |index| == |records|
    ensures out == Payload(spec, norm, records, index)
  {
    out := [];
    for i := 0 to |records|
      invariant |out| == i
      invariant forall j :: 0 <= j < i ==> out[j] == SideRowOf(spec, norm, records[j], index[j])
    {
      var vecs: seq<Option<Vec>>, toks: seq<Option<string>> := [], [];
      for n := 0 to |spec.searchable|
        invariant |vecs| == n == |toks|
        invariant forall m :: 0 <= m < n ==>
          && vecs[m] == NormalizedCell(CellOf(index[i].vecs, spec.searchable[m]), norm)
          && toks[m] == CellOf(index[i].toks, spec.searchable[m])
      {
        var c := spec.searchable[n];
        vecs, toks := vecs + [NormalizedCell(CellOf(index[i].vecs, c), norm)], toks + [CellOf(index[i].toks, c)];
      }
      assert vecs == SideVecs(spec, norm, index[i]) && toks == SideToks(spec, index[i]);
      out := out + [SideRow(KeyOf(spec, records[i]), vecs, toks)];
    }
  }

  class SideService {
    const norm: Vec -> real
    var datasets: map<string, seq<SideRow>>

    constructor (norm: Vec -> real)
      ensures this.norm == norm && datasets == map[]
    {
      this.norm, this.datasets := norm, map[];
    }

    /** `index_search_rows`: append a batch to the dataset of its table. */
    method IndexSearchRows(spec: TableSpec, records: seq<Record>, index: seq<Index>)
      requires spec.name in datasets && |index| == |records|
      modifies this`datasets
      ensures datasets == if spec.searchable == [] then old(datasets)
        else old(datasets)[spec.name := old(datasets[spec.name]) + Payload(spec, norm, records, index)]
    {
      if spec.searchable == [] || records == [] {
        assert datasets[spec.name] + [] == datasets[spec.name];
        return;
      }
      var payload := SidePayload(spec, records, index, norm);
      datasets := datasets[spec.name := datasets[spec.name] + payload];
    }

    /** `rebuild_search_index`: overwrite the dataset of a table. */
    method RebuildSearchIndex(spec: TableSpec, records: seq<Record>, index: seq<Index>)
      requires spec.name in datasets && |index| == |records|
      modifies this`datasets
      ensures datasets == if spec.searchable == [] then old(datasets)
        else old(datasets)[spec.name := Payload(spec, norm, records, index)]
    {
      if spec.searchable == [] {
        return;
      }
      var payload := SidePayload(spec, records, index, norm);
      datasets := datasets[spec.name := payload];
    }
  }

  // ------------------------------------------------ the dataset and the table

  ghost predicate RowMirrors(spec: TableSpec, norm: Vec -> real, table: Table, row: SideRow) {
    row.key in table && row == SideRowOf(spec, norm, table[row.key].rec, table[row.key].index)
  }

  /** Every row of the dataset is that of a row of the table, and no key occurs twice. */
  ghost predicate Within(spec: TableSpec, norm: Vec -> real, table: Table, side: seq<SideRow>) {
    && (forall i :: 0 <= i < |side| ==> RowMirrors(spec, norm, table, side[i]))
    && (forall i, j :: 0 <= i < j < |side| ==> side[i].key != side[j].key)
  }

  function SideKeys(side: seq<SideRow>): set<Key> {
    set i | 0 <= i < |side| :: side[i].key
  }

  /** And no row of the table is missing, deleted ones included. */
  ghost predicate Mirrors(spec: TableSpec, norm: Vec -> real, table: Table, side: seq<SideRow>) {
    Within(spec, norm, table, side) && table.Keys <= SideKeys(side)
  }

  /** More rows of the table, under keys that the dataset does not have. */
  lemma WithinConcat(spec: TableSpec, norm: Vec -> real, table: Table, side: seq<SideRow>, more: seq<SideRow>)
    requires Within(spec, norm, table, side) && Within(spec, norm, table, more) && SideKeys(side) !! SideKeys(more)
    ensures Within(spec, norm, table, side + more) && SideKeys(side + more) == SideKeys(side) + SideKeys(more)
  {
    hide RowMirrors;
    var all := side + more;
    assert forall i :: 0 <= i < |side| ==> all[i] == side[i] && side[i].key in SideKeys(side);
    assert forall i :: 0 <= i < |more| ==> all[|side| + i] == more[i] && more[i].key in SideKeys(more);
    forall i, j | 0 <= i < j < |all|
      ensures all[i].key != all[j].key
    {
      if i < |side| <= j {
        assert all[j] == more[j - |side|];
      }
    }
    forall i | 0 <= i < |all|
      ensures RowMirrors(spec, norm, table, all[i])
      ensures all[i].key in SideKeys(side) + SideKeys(more)
    {
      assert all[i] == if i < |side| then side[i] else more[i - |side|];
    }
  }

  /** What a commit adds to the dataset. */
  lemma PayloadMirrors(
      spec: TableSpec, norm: Vec -> real, table: Table, recs: seq<Record>, index: seq<Index>, ds: Day, now: Time)
    requires |index| == |recs| && Commit(spec, table, recs, index, ds, now).Some?
    ensures var after, payload := Commit(spec, table, recs, index, ds, now).value, Payload(spec, norm, recs, index);
            Within(spec, norm, after, payload) && SideKeys(payload) == after.Keys - table.Keys
  {
    CommitMeans(spec, table, recs, index, ds, now);
    var after, payload := Commit(spec, table, recs, index, ds, now).value, Payload(spec, norm, recs, index);
    hide Commit;
    hide NullKey;
    hide SideVecs;
    hide SideToks;
    hide KeyOf;
    PayloadKeys(spec, table.Keys, recs, payload);
    hide AllNew;
    hide Keys;
  }

  lemma PayloadKeys(spec: TableSpec, known: set<Key>, recs: seq<Record>, payload: seq<SideRow>)
    requires |payload| == |recs| && forall i :: 0 <= i < |recs| ==> payload[i].key == KeyOf(spec, recs[i])
    requires AllNew(spec, known, recs)
    ensures SideKeys(payload) == Keys(spec, recs) && Keys(spec, recs) !! known
    ensures forall i, j :: 0 <= i < j < |payload| ==> payload[i].key != payload[j].key
  {
    hide KeyOf;
  }

  lemma CommitMirrors(
      spec: TableSpec, norm: Vec -> real, table: Table, side: seq<SideRow>, recs: seq<Record>, index: seq<Index>, ds: Day, now: Time)
    requires |index| == |recs| && Commit(spec, table, recs, index, ds, now).Some? && Within(spec, norm, table, side)
    ensures var after, more := Commit(spec, table, recs, index, ds, now).value, side + Payload(spec, norm, recs, index);
            && Within(spec, norm, after, side) && Within(spec, norm, after, more)
            && (Mirrors(spec, norm, table, side) ==> Mirrors(spec, norm, after, more))
  {
    CommitMeans(spec, table, recs, index, ds, now);
    var after, payload := Commit(spec, table, recs, index, ds, now).value, Payload(spec, norm, recs, index);
    PayloadMirrors(spec, norm, table, recs, index, ds, now);
    hide Commit;
    hide Payload;
    hide SideRowOf;
    hide KeyOf;
    forall i | 0 <= i < |side|
      ensures side[i].key in table && RowMirrors(spec, norm, after, side[i])
    {
      assert RowMirrors(spec, norm, table, side[i]);
    }
    assert Within(spec, norm, after, side);
    WithinConcat(spec, norm, after, side, payload);
    hide Within;
  }

  lemma DeleteMirrors(
      spec: TableSpec, norm: Vec -> real, table: Table, side: seq<SideRow>, keys: seq<Key>, ds: Day, now: Time)
    requires Within(spec, norm, table, side)
    ensures Within(spec, norm, SoftDeleted(table, keys, ds, now), side)
    ensures Mirrors(spec, norm, table, side) ==> Mirrors(spec, norm, SoftDeleted(table, keys, ds, now), side)
  {
    var after := SoftDeleted(table, keys, ds, now);
    forall i | 0 <= i < |side|
      ensures RowMirrors(spec, norm, after, side[i])
    {
      assert RowMirrors(spec, norm, table, side[i]);
    }
  }

  // ---------------------------------------------------------------- rebuilds

  function PutRecords(spec: TableSpec, puts: seq<Files.Event>): (recs: seq<Record>)
    requires forall e :: e in puts ==> e.line.Put?
    ensures |recs| == |puts|
    ensures forall i :: 0 <= i < |puts| ==> puts[i] in puts && recs[i] == Normalize(spec, puts[i].line.rec)
  {
    seq(|puts|, i requires 0 <= i < |puts| => assert puts[i] in puts; Normalize(spec, puts[i].line.rec))
  }

  /** What a rebuild overwrites the dataset with. */
  function Replayed(spec: TableSpec, emb: Option<Embedder>, norm: Vec -> real, puts: seq<Files.Event>): seq<SideRow>
    requires forall e :: e in puts ==> e.line.Put?
  {
    var recs := PutRecords(spec, puts);
    Payload(spec, norm, recs, H.IndexAll(emb, spec, recs))
  }

  lemma ReplayedSnoc(spec: TableSpec, emb: Option<Embedder>, norm: Vec -> real, puts: seq<Files.Event>)
    requires puts != [] && forall e :: e in puts ==> e.line.Put?
    ensures var last := Normalize(spec, puts[|puts| - 1].line.rec);
            Replayed(spec, emb, norm, puts) ==
            Replayed(spec, emb, norm, puts[..|puts| - 1]) + [SideRowOf(spec, norm, last, IndexOf(emb, spec, last))]
  {
    hide Normalize;
    hide IndexOf;
    hide SideRowOf;
  }

  lemma {:induction false} LoadedMirrors(
      spec: TableSpec, emb: Option<Embedder>, norm: Vec -> real, clock: Time, puts: seq<Files.Event>)
    requires forall e :: e in puts ==> e.line.Put?
    requires Rebuild.LoadPuts(spec, emb, clock, puts).Some?
    ensures Mirrors(spec, norm, Rebuild.LoadPuts(spec, emb, clock, puts).value, Replayed(spec, emb, norm, puts))
  {
    if puts != [] {
      var rest, line := puts[..|puts| - 1], puts[|puts| - 1].line;
      var rec := Normalize(spec, line.rec);
      var t, index := Rebuild.LoadPuts(spec, emb, clock, rest).value, IndexOf(emb, spec, rec);
      var now := if line.createdAt == "" then clock else line.createdAt;
      LoadedMirrors(spec, emb, norm, clock, rest);
      ReplayedSnoc(spec, emb, norm, puts);
      assert [rec][1..] == [] && [index][1..] == [];
      var after := t[KeyOf(spec, rec) := FreshRow(rec, index, line.ds, now)];
      assert Rebuild.LoadPuts(spec, emb, clock, puts) == Some(after);
      OneMore(spec, norm, t, Replayed(spec, emb, norm, rest), rec, index, line.ds, now);
    }
  }

  lemma OneMore(
      spec: TableSpec, norm: Vec -> real, table: Table, side: seq<SideRow>, rec: Record, index: Index, ds: Day, now: Time)
    requires Mirrors(spec, norm, table, side) && KeyOf(spec, rec) !in table && !NullKey(spec, rec)
    ensures Mirrors(spec, norm, table[KeyOf(spec, rec) := FreshRow(rec, index, ds, now)], side + [SideRowOf(spec, norm, rec, index)])
  {
    var recs, indexes := [rec], [index];
    var after := table[KeyOf(spec, rec) := FreshRow(rec, index, ds, now)];
    assert recs[1..] == [] && indexes[1..] == [];
    assert Commit(spec, after, recs[1..], indexes[1..], ds, now) == Some(after);
    assert Payload(spec, norm, recs, indexes) == [SideRowOf(spec, norm, rec, index)];
    CommitMirrors(spec, norm, table, side, recs, indexes, ds, now);
  }

  lemma {:induction false} MarkedMirrors(spec: TableSpec, norm: Vec -> real, table: Table, side: seq<SideRow>, dels: seq<Files.Event>)
    requires Mirrors(spec, norm, table, side) && forall e :: e in dels ==> e.line.Tombstone?
    ensures Mirrors(spec, norm, Rebuild.MarkDels(table, dels), side)
  {
    if dels != [] {
      var rest, last := dels[..|dels| - 1], dels[|dels| - 1];
      MarkedMirrors(spec, norm, table, side, rest);
      DeleteMirrors(spec, norm, Rebuild.MarkDels(table, rest), side, [last.line.key], last.day, last.line.deletedAt);
    }
  }

  ghost function ReplayedLog(spec: TableSpec, emb: Option<Embedder>, norm: Vec -> real, log: Files.Log): seq<SideRow> {
    Rebuild.EventKinds(log);
    Replayed(spec, emb, norm, Files.PutsOf(Files.Events(log)))
  }

  /** A rebuild heals the dataset, whatever it was. */
  lemma RebuildMirrors(spec: TableSpec, emb: Option<Embedder>, norm: Vec -> real, clock: Time, log: Files.Log)
    requires Rebuild.Rebuilt(spec, emb, clock, log).Some?
    ensures Mirrors(spec, norm, Rebuild.Rebuilt(spec, emb, clock, log).value, ReplayedLog(spec, emb, norm, log))
  {
    Rebuild.EventKinds(log);
    hide Mirrors;
    hide Replayed;
    var puts, dels := Files.PutsOf(Files.Events(log)), Files.DelsOf(Files.Events(log));
    LoadedMirrors(spec, emb, norm, clock, puts);
    MarkedMirrors(spec, norm, Rebuild.LoadPuts(spec, emb, clock, puts).value, ReplayedLog(spec, emb, norm, log), dels);
  }

  // -------------------------------------------------------- whole histories

  /** Both tiers and the dataset. */
  datatype Indexed = Indexed(st: H.State, side: seq<SideRow>)

  const START := Indexed(H.EMPTY, [])

  /** A write or a rebuild, and whether its append to the dataset succeeded. */
  datatype Step = Step(event: H.Event, appended: bool)

  /** The rows that a write has to append: those of the records it has committed. */
  function Added(spec: TableSpec, emb: Option<Embedder>, norm: Vec -> real, st: H.State, op: H.Op, ds: Day, now: Time): seq<SideRow> {
    match op
    case Delete(_) => []
    case Insert(rows, skipExisting) =>
      match Validated(spec, st.table.Keys, rows, skipExisting)
      case Err(_) => []
      case Ok(recs) =>
        if H.Land(spec, emb, st, recs, ds, now).0.Inserted? then Payload(spec, norm, recs, H.IndexAll(emb, spec, recs)) else []
  }

  ghost predicate Happens(spec: TableSpec, emb: Option<Embedder>, norm: Vec -> real, a: Indexed, s: Step, b: Indexed) {
    && H.Happens(spec, emb, a.st, s.event, b.st)
    && match s.event
       case Write(op, ds, now) => b.side == a.side + if s.appended then Added(spec, emb, norm, a.st, op, ds, now) else []
       case Rebuild(_, _) => b.side == ReplayedLog(spec, emb, norm, a.st.log)
  }

  ghost predicate Leads(spec: TableSpec, emb: Option<Embedder>, norm: Vec -> real, a: Indexed, steps: seq<Step>, b: Indexed)
    decreases |steps|
  {
    if steps == [] then a == b
    else exists mid :: Happens(spec, emb, norm, a, steps[0], mid) && Leads(spec, emb, norm, mid, steps[1..], b)
  }

  lemma InsertMirrors(
      spec: TableSpec, emb: Option<Embedder>, norm: Vec -> real, a: Indexed, rows: seq<Record>, skipExisting: bool, ds: Day,
      now: Time, out: H.Outcome, after: H.State)
    requires Within(spec, norm, a.st.table, a.side)
    requires H.Executes(spec, emb, a.st, H.Insert(rows, skipExisting), ds, now, out, after)
    ensures var more := a.side + Added(spec, emb, norm, a.st, H.Insert(rows, skipExisting), ds, now);
            && Within(spec, norm, after.table, a.side) && Within(spec, norm, after.table, more)
            && (Mirrors(spec, norm, a.st.table, a.side) ==> Mirrors(spec, norm, after.table, more))
  {
    var checked := Validated(spec, a.st.table.Keys, rows, skipExisting);
    hide Validated;
    assert a.side + [] == a.side;
    if checked.Ok? {
      var recs := checked.value;
      var index := H.IndexAll(emb, spec, recs);
      assert recs == [] ==> Payload(spec, norm, recs, index) == [];
      if recs != [] && out.Inserted? {
        LandedIsCommitted(spec, emb, a.st, recs, ds, now);
        CommitMirrors(spec, norm, a.st.table, a.side, recs, index, ds, now);
      } else {
        FailedChangesNothing(spec, emb, a.st, recs, ds, now);
      }
      hide H.Land;
    }
  }

  lemma LandedIsCommitted(spec: TableSpec, emb: Option<Embedder>, st: H.State, recs: seq<Record>, ds: Day, now: Time)
    requires recs != [] && H.Land(spec, emb, st, recs, ds, now).0.Inserted?
    ensures Commit(spec, st.table, recs, H.IndexAll(emb, spec, recs), ds, now) == Some(H.Land(spec, emb, st, recs, ds, now).1.table)
  {
    hide Commit;
    hide Embeddable;
  }

  lemma FailedChangesNothing(spec: TableSpec, emb: Option<Embedder>, st: H.State, recs: seq<Record>, ds: Day, now: Time)
    requires recs == [] || !H.Land(spec, emb, st, recs, ds, now).0.Inserted?
    ensures H.Land(spec, emb, st, recs, ds, now).1.table == st.table
  {
    hide Commit;
    hide Embeddable;
  }

  lemma StepMirrors(spec: TableSpec, emb: Option<Embedder>, norm: Vec -> real, a: Indexed, s: Step, b: Indexed)
    requires Within(spec, norm, a.st.table, a.side) && Happens(spec, emb, norm, a, s, b)
    ensures Within(spec, norm, b.st.table, b.side)
    ensures s.event.Rebuild? || (s.appended && Mirrors(spec, norm, a.st.table, a.side)) ==> Mirrors(spec, norm, b.st.table, b.side)
  {
    hide Within;
    assert a.side + [] == a.side;
    match s.event {
      case Write(op, ds, now) =>
        var out :| H.Executes(spec, emb, a.st, op, ds, now, out, b.st);
        match op {
          case Insert(rows, skipExisting) =>
            InsertMirrors(spec, emb, norm, a, rows, skipExisting, ds, now, out, b.st);
            hide H.Executes;
          case Delete(where) =>
            if where.valid {
              var keys :| H.Buries(a.st, where, keys, ds, now, out, b.st);
              DeleteMirrors(spec, norm, a.st.table, a.side, keys, ds, now);
            }
        }
      case Rebuild(_, now) =>
        RebuildMirrors(spec, emb, norm, now, a.st.log);
        assert Mirrors(spec, norm, b.st.table, b.side);
    }
  }

  /** Since the last rebuild, or the start, every append has succeeded. */
  ghost predicate Healed(steps: seq<Step>, from: nat) {
    && from <= |steps| && (from > 0 ==> steps[from - 1].event.Rebuild?)
    && forall i :: from <= i < |steps| ==> steps[i].appended
  }

  lemma {:induction false} HistoryMirrors(
      spec: TableSpec, emb: Option<Embedder>, norm: Vec -> real, a: Indexed, steps: seq<Step>, b: Indexed, from: nat)
    requires Leads(spec, emb, norm, a, steps, b) && Within(spec, norm, a.st.table, a.side)
    ensures Within(spec, norm, b.st.table, b.side)
    ensures Healed(steps, from) && (from == 0 ==> Mirrors(spec, norm, a.st.table, a.side)) ==> Mirrors(spec, norm, b.st.table, b.side)
    decreases |steps|
  {
    hide Within;
    hide Happens;
    if steps != [] {
      var mid :| Happens(spec, emb, norm, a, steps[0], mid) && Leads(spec, emb, norm, mid, steps[1..], b);
      StepMirrors(spec, emb, norm, a, steps[0], mid);
      hide Mirrors;
      HistoryMirrors(spec, emb, norm, mid, steps[1..], b, if from == 0 then 0 else from - 1);
    }
  }

  /**
   * After any crash-free history the dataset holds rows of the table only, each once;
   * and all of them, if no append has failed since the last rebuild.
   */
  lemma SideMirrorsTable(
      spec: TableSpec, emb: Option<Embedder>, norm: Vec -> real, steps: seq<Step>, b: Indexed, from: nat)
    requires Leads(spec, emb, norm, START, steps, b)
    ensures Within(spec, norm, b.st.table, b.side)
    ensures Healed(steps, from) ==> Mirrors(spec, norm, b.st.table, b.side)
  {
    HistoryMirrors(spec, emb, norm, START, steps, b, from);
  }

  // ----------------------------------------------------------------- search

  /** What the vector arm ranges over: the rows of the dataset with a vector in the
      column at position `n`. */
  function SideWithVector(side: seq<SideRow>, n: nat): set<Key> {
    set i | 0 <= i < |side| && n < |side[i].vecs| && side[i].vecs[n].Some? :: side[i].key
  }

  /** The rows of the dataset with a vector are the rows of the table with one. */
  lemma SameVectors(spec: TableSpec, norm: Vec -> real, table: Table, side: seq<SideRow>, n: nat)
    requires n < |spec.searchable| && Within(spec, norm, table, side)
    ensures SideWithVector(side, n) <= WithVector(table, spec.searchable[n])
    ensures Mirrors(spec, norm, table, side) ==> SideWithVector(side, n) == WithVector(table, spec.searchable[n])
  {
    var c := spec.searchable[n];
    forall i | 0 <= i < |side|
      ensures side[i].key in table && |side[i].vecs| == |spec.searchable|
      ensures side[i].vecs[n].Some? <==> side[i].key in WithVector(table, c)
    {
      assert RowMirrors(spec, norm, table, side[i]);
      assert side[i].vecs[n] == NormalizedCell(CellOf(table[side[i].key].index.vecs, c), norm);
    }
    if Mirrors(spec, norm, table, side) {
      forall k | k in WithVector(table, c)
        ensures k in SideWithVector(side, n)
      {
        assert k in SideKeys(side);
        var i :| 0 <= i < |side| && side[i].key == k;
        assert side[i].vecs[n].Some?;
      }
    }
  }

  /**
   * A search over the side dataset after any history whose last failed append, if any,
   * a rebuild has healed: at most `k` rows, all visible, each once; and at least
   * `min(k, visible rows with a vector)` whenever at most `3k` rows of the table with a
   * vector lie outside the window.
   */
  lemma SideSearchFillsUp(
      spec: TableSpec, emb: Option<Embedder>, norm: Vec -> real, steps: seq<Step>, b: Indexed, from: nat, n: nat, w: Window,
      k: nat, v: Arm, f: Arm, out: seq<Key>)
    requires Leads(spec, emb, norm, START, steps, b) && Healed(steps, from) && n < |spec.searchable|
    requires LanceSearch(b.st.table, SideWithVector(b.side, n), w, k, v, f, out)
    ensures |out| <= k && Distinct(out) && ElementsOf(out) <= VisibleKeys(b.st.table, w)
    ensures var vectors, visible := WithVector(b.st.table, spec.searchable[n]), VisibleKeys(b.st.table, w);
            |vectors - visible| <= 3 * k ==> |out| >= Least(k, |vectors * visible|)
  {
    SideMirrorsTable(spec, emb, norm, steps, b, from);
    SameVectors(spec, norm, b.st.table, b.side, n);
    LanceFillsUp(b.st.table, SideWithVector(b.side, n), w, k, v, f, out);
  }
}
