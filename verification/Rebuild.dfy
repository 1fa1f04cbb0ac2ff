/**
 * Rebuilding the derived tier from the canonical one: load every put line in the
 * order of the partitions, then re-apply every tombstone line.
 */
module Rebuild {
  import opened Prelude
  import opened Embedding
  import opened Store
  import opened Files

  // ---------------------------------------------------------- the two phases

  /** The row that a put line is reloaded as. */
  function RowOf(spec: TableSpec, emb: Option<Embedder>, clock: Time, line: Line): StoredRow
    requires line.Put?
  {
    var rec := Normalize(spec, line.rec);
    FreshRow(rec, IndexOf(emb, spec, rec), line.ds, if line.createdAt == "" then clock else line.createdAt)
  }

  function LineKey(spec: TableSpec, line: Line): Key
    requires line.Put?
  {
    KeyOf(spec, Normalize(spec, line.rec))
  }

  predicate NullLine(spec: TableSpec, line: Line)
    requires line.Put?
  {
    NullKey(spec, Normalize(spec, line.rec))
  }

  function LoadPuts(spec: TableSpec, emb: Option<Embedder>, clock: Time, puts: seq<Event>): Option<Table>
    requires forall e :: e in puts ==> e.line.Put?
  {
    if puts == [] then Some(map[])
    else
      var line := puts[|puts| - 1].line;
      match LoadPuts(spec, emb, clock, puts[..|puts| - 1])
      case None => None
      case Some(t) =>
        if NullLine(spec, line) || LineKey(spec, line) in t then None
        else Some(t[LineKey(spec, line) := RowOf(spec, emb, clock, line)])
  }

  function MarkDels(table: Table, dels: seq<Event>): Table
    requires forall e :: e in dels ==> e.line.Tombstone?
  {
    if dels == [] then table
    else
      var last := dels[|dels| - 1];
      SoftDeleted(MarkDels(table, dels[..|dels| - 1]), [last.line.key], last.day, last.line.deletedAt)
  }

  lemma EventKinds(log: Log)
    ensures forall e :: e in PutsOf(Events(log)) ==> e.line.Put?
    ensures forall e :: e in DelsOf(Events(log)) ==> e.line.Tombstone?
  {
    EventsMean(log);
    FilterMeans(Events(log), IsPut);
    FilterMeans(Events(log), IsTombstone);
  }

  /** What `rebuild` makes of a log; `None` when a put violates the primary key. */
  function Rebuilt(spec: TableSpec, emb: Option<Embedder>, clock: Time, log: Log): Option<Table> {
    EventKinds(log);
    match LoadPuts(spec, emb, clock, PutsOf(Events(log)))
    case None => None
    case Some(t) => Some(MarkDels(t, DelsOf(Events(log))))
  }

  // ---------------------------------------- what a log says, line by line

  predicate PutAt(log: Log, d: Day, i: nat) {
    At(log, d, i) && log[d][i].Put?
  }

  predicate TombstoneAt(log: Log, d: Day, i: nat, k: Key) {
    At(log, d, i) && log[d][i].Tombstone? && log[d][i].key == k
  }

  /** The put lines of the log satisfy the primary key. */
  ghost predicate Loadable(spec: TableSpec, log: Log) {
    && (forall d: Day, i: nat :: PutAt(log, d, i) ==> !NullLine(spec, log[d][i]))
    && (forall d: Day, i: nat, e: Day, j: nat :: PutAt(log, d, i) && PutAt(log, e, j) && LineKey(spec, log[d][i]) == LineKey(spec, log[e][j]) ==>
          d == e && i == j)
  }

  /** The row's deletion mark is the first tombstone of its key: the earliest
      partition that has one, and the first one within it. */
  ghost predicate MarkAgrees(log: Log, k: Key, row: StoredRow) {
    match row.deletedDs
    case None => row.deletedAt == None && forall d: Day, i: nat :: !TombstoneAt(log, d, i, k)
    case Some(day) =>
      exists i: nat :: TombstoneAt(log, day, i, k) && row.deletedAt == Some(log[day][i].deletedAt) &&
        forall e: Day, j: nat :: TombstoneAt(log, e, j, k) ==> day < e || (day == e && i <= j)
  }

  /** The row without its deletion mark. */
  function Unmarked(row: StoredRow): StoredRow {
    row.(deletedDs := None, deletedAt := None)
  }

  /** The table is the one that the log describes. */
  ghost predicate Agree(spec: TableSpec, emb: Option<Embedder>, clock: Time, log: Log, table: Table) {
    && Loadable(spec, log)
    && (forall d: Day, i: nat :: PutAt(log, d, i) ==>
          LineKey(spec, log[d][i]) in table && Unmarked(table[LineKey(spec, log[d][i])]) == RowOf(spec, emb, clock, log[d][i]))
    && (forall k :: k in table ==> exists d: Day, i: nat :: PutAt(log, d, i) && LineKey(spec, log[d][i]) == k)
    && (forall k :: k in table ==> MarkAgrees(log, k, table[k]))
  }

  // -------------------------------------------------- the phases, sequence by sequence

  /** The puts satisfy the primary key. */
  ghost predicate KeysOk(spec: TableSpec, puts: seq<Event>)
    requires forall e :: e in puts ==> e.line.Put?
  {
    && (forall i :: 0 <= i < |puts| ==> !NullLine(spec, puts[i].line))
    && (forall i, j :: 0 <= i < j < |puts| ==> LineKey(spec, puts[i].line) != LineKey(spec, puts[j].line))
  }

  lemma KeysOkSnoc(spec: TableSpec, front: seq<Event>, last: Event)
    requires forall e :: e in front + [last] ==> e.line.Put?
    requires forall e :: e in front ==> e.line.Put?
    ensures KeysOk(spec, front + [last]) <==>
            && KeysOk(spec, front) && !NullLine(spec, last.line)
            && forall e :: e in front ==> LineKey(spec, e.line) != LineKey(spec, last.line)
  {
    hide NullLine;
    hide LineKey;
    var puts := front + [last];
    assert forall i :: 0 <= i < |front| ==> puts[i] == front[i] && front[i] in front;
    assert puts[|front|] == last;
    if KeysOk(spec, puts) {
      forall e | e in front
        ensures LineKey(spec, e.line) != LineKey(spec, last.line)
      {
        var i :| 0 <= i < |front| && front[i] == e;
        assert LineKey(spec, puts[i].line) != LineKey(spec, puts[|front|].line);
      }
    }
  }

  lemma {:induction false} LoadMeans(spec: TableSpec, emb: Option<Embedder>, clock: Time, puts: seq<Event>)
    requires forall e :: e in puts ==> e.line.Put?
    ensures var t := LoadPuts(spec, emb, clock, puts);
            && (t.Some? <==> KeysOk(spec, puts))
            && (t.Some? ==> forall k :: k in t.value <==> exists e :: e in puts && LineKey(spec, e.line) == k)
            && (t.Some? ==> forall e :: e in puts ==>
                  LineKey(spec, e.line) in t.value && t.value[LineKey(spec, e.line)] == RowOf(spec, emb, clock, e.line))
    decreases |puts|
  {
    hide NullLine;
    hide LineKey;
    hide RowOf;
    if puts != [] {
      var front, last := puts[..|puts| - 1], puts[|puts| - 1];
      assert puts == front + [last];
      KeysOkSnoc(spec, front, last);
      hide KeysOk;
      LoadMeans(spec, emb, clock, front);
      assert forall e :: e in puts <==> e in front || e == last;
    }
  }

  function FirstDel(dels: seq<Event>, k: Key): (first: Option<Event>)
    requires forall e :: e in dels ==> e.line.Tombstone?
    ensures first.Some? ==> first.value.line.Tombstone?
  {
    if dels == [] then None
    else match FirstDel(dels[..|dels| - 1], k)
      case Some(e) => Some(e)
      case None => if dels[|dels| - 1].line.key == k then Some(dels[|dels| - 1]) else None
  }

  lemma {:induction false} FirstDelMeans(dels: seq<Event>, k: Key)
    requires forall e :: e in dels ==> e.line.Tombstone?
    requires forall i, j :: 0 <= i < j < |dels| ==> Before(dels[i], dels[j])
    ensures match FirstDel(dels, k)
            case None => forall e :: e in dels ==> e.line.key != k
            case Some(e) => e in dels && e.line.key == k && forall f :: f in dels && f.line.key == k ==> f == e || Before(e, f)
    decreases |dels|
  {
    if dels != [] {
      var front, last := dels[..|dels| - 1], dels[|dels| - 1];
      FirstDelMeans(front, k);
      assert forall e :: e in dels <==> e in front || e == last;
      assert forall i :: 0 <= i < |front| ==> Before(front[i], last);
    }
  }

  /** Of several tombstones of one key, only the first one counts. */
  lemma {:induction false} MarkMeans(table: Table, dels: seq<Event>)
    requires forall e :: e in dels ==> e.line.Tombstone?
    requires forall k :: k in table ==> Live(table[k])
    ensures MarkDels(table, dels).Keys == table.Keys
    ensures forall k :: k in table ==> MarkDels(table, dels)[k] == Marked(table[k], FirstDel(dels, k))
    decreases |dels|
  {
    if dels != [] {
      MarkMeans(table, dels[..|dels| - 1]);
    }
  }

  // --------------------------------------------------------- the main results

  /** The put lines of the log are the puts that are read back. */
  lemma PutsMean(log: Log)
    ensures var puts := PutsOf(Events(log));
            && (forall e :: e in puts ==> PutAt(log, e.day, e.pos) && e.line == log[e.day][e.pos])
            && (forall d: Day, i: nat :: PutAt(log, d, i) ==> Event(d, i, log[d][i]) in puts)
            && (forall i, j :: 0 <= i < j < |puts| ==> Before(puts[i], puts[j]))
  {
    hide Events;
    hide Filter;
    hide Before;
    EventsMean(log);
    FilterMeans(Events(log), IsPut);
  }

  /** `dels` lists the tombstone lines of the log, in order. */
  ghost predicate DelsOfLog(log: Log, dels: seq<Event>) {
    && (forall e :: e in dels ==> At(log, e.day, e.pos) && e.line == log[e.day][e.pos] && e.line.Tombstone?)
    && (forall d: Day, i: nat, k :: TombstoneAt(log, d, i, k) ==> Event(d, i, log[d][i]) in dels)
    && (forall i, j :: 0 <= i < j < |dels| ==> Before(dels[i], dels[j]))
  }

  lemma DelsMean(log: Log)
    ensures DelsOfLog(log, DelsOf(Events(log)))
  {
    hide Events;
    hide Filter;
    hide Before;
    EventsMean(log);
    FilterMeans(Events(log), IsTombstone);
  }

  lemma LoadableIffDistinct(spec: TableSpec, log: Log)
    ensures var puts := PutsOf(Events(log));
            && (forall e :: e in puts ==> e.line.Put?)
            && (Loadable(spec, log) <==> KeysOk(spec, puts))
  {
    hide NullLine;
    hide LineKey;
    PutsMean(log);
    hide PutsOf;
    hide Events;
    var puts := PutsOf(Events(log));
    assert forall h :: 0 <= h < |puts| ==> puts[h] in puts;
    if KeysOk(spec, puts) {
      forall d: Day, i: nat, e: Day, j: nat
        | PutAt(log, d, i) && PutAt(log, e, j) && LineKey(spec, log[d][i]) == LineKey(spec, log[e][j])
        ensures d == e && i == j
      {
        var a :| 0 <= a < |puts| && puts[a] == Event(d, i, log[d][i]);
        var b :| 0 <= b < |puts| && puts[b] == Event(e, j, log[e][j]);
        assert a == b;
      }
      forall d: Day, i: nat | PutAt(log, d, i)
        ensures !NullLine(spec, log[d][i])
      {
        var a :| 0 <= a < |puts| && puts[a] == Event(d, i, log[d][i]);
      }
    }
  }

  /** A rebuild succeeds exactly when no two put lines share a key and none has a null key. */
  lemma RebuildSucceedsIffLoadable(spec: TableSpec, emb: Option<Embedder>, clock: Time, log: Log)
    ensures Rebuilt(spec, emb, clock, log).Some? <==> Loadable(spec, log)
  {
    LoadableIffDistinct(spec, log);
    LoadMeans(spec, emb, clock, PutsOf(Events(log)));
  }

  lemma LoadedAgrees(spec: TableSpec, emb: Option<Embedder>, clock: Time, log: Log)
    requires Loadable(spec, log)
    ensures var puts := PutsOf(Events(log));
            && (forall e :: e in puts ==> e.line.Put?)
            && var loaded := LoadPuts(spec, emb, clock, puts);
            && loaded.Some?
            && (forall k :: k in loaded.value ==> Live(loaded.value[k]) && loaded.value[k].deletedAt == None)
            && (forall d: Day, i: nat :: PutAt(log, d, i) ==>
                  LineKey(spec, log[d][i]) in loaded.value &&
                  loaded.value[LineKey(spec, log[d][i])] == RowOf(spec, emb, clock, log[d][i]))
            && (forall k :: k in loaded.value ==> exists d: Day, i: nat :: PutAt(log, d, i) && LineKey(spec, log[d][i]) == k)
  {
    LoadableIffDistinct(spec, log);
    var puts := PutsOf(Events(log));
    LoadMeans(spec, emb, clock, puts);
    PutsMean(log);
    hide PutsOf;
    hide Events;
    hide LoadPuts;
    hide KeysOk;
    hide LineKey;
    hide Loadable;
    var loaded := LoadPuts(spec, emb, clock, puts).value;
    forall d: Day, i: nat | PutAt(log, d, i)
      ensures LineKey(spec, log[d][i]) in loaded && loaded[LineKey(spec, log[d][i])] == RowOf(spec, emb, clock, log[d][i])
    {
      assert Event(d, i, log[d][i]) in puts;
    }
    forall k | k in loaded
      ensures exists d: Day, i: nat :: PutAt(log, d, i) && LineKey(spec, log[d][i]) == k
      ensures Live(loaded[k]) && loaded[k].deletedAt == None
    {
      var e :| e in puts && LineKey(spec, e.line) == k;
      assert PutAt(log, e.day, e.pos);
    }
  }

  function Marked(row: StoredRow, first: Option<Event>): StoredRow
    requires first.Some? ==> first.value.line.Tombstone?
  {
    match first
    case None => row
    case Some(e) => row.(deletedDs := Some(e.day), deletedAt := Some(e.line.deletedAt))
  }

  lemma FirstDelAgrees(log: Log, dels: seq<Event>, k: Key, row: StoredRow)
    requires Live(row) && row.deletedAt == None && DelsOfLog(log, dels)
    ensures MarkAgrees(log, k, Marked(row, FirstDel(dels, k)))
  {
    FirstDelMeans(dels, k);
    var first := FirstDel(dels, k);
    hide FirstDel;
    if first.Some? {
      var f := first.value;
      assert TombstoneAt(log, f.day, f.pos, k);
      forall e: Day, j: nat | TombstoneAt(log, e, j, k)
        ensures f.day < e || (f.day == e && f.pos <= j)
      {
        var g := Event(e, j, log[e][j]);
        assert g == f || Before(f, g);
      }
    }
  }

  lemma MarksAgree(log: Log, loaded: Table, dels: seq<Event>)
    requires DelsOfLog(log, dels)
    requires forall k :: k in loaded ==> Live(loaded[k]) && loaded[k].deletedAt == None
    ensures var table := MarkDels(loaded, dels);
            && table.Keys == loaded.Keys
            && forall k :: k in loaded ==> MarkAgrees(log, k, table[k]) && Unmarked(table[k]) == loaded[k]
  {
    MarkMeans(loaded, dels);
    var table := MarkDels(loaded, dels);
    hide MarkAgrees;
    hide MarkDels;
    hide FirstDel;
    forall k | k in loaded
      ensures MarkAgrees(log, k, table[k]) && Unmarked(table[k]) == loaded[k]
    {
      FirstDelAgrees(log, dels, k, loaded[k]);
    }
  }

  lemma MarkedAgree(spec: TableSpec, emb: Option<Embedder>, clock: Time, log: Log, loaded: Table, table: Table)
    requires Loadable(spec, log) && table.Keys == loaded.Keys
    requires forall d: Day, i: nat :: PutAt(log, d, i) ==>
      LineKey(spec, log[d][i]) in loaded && loaded[LineKey(spec, log[d][i])] == RowOf(spec, emb, clock, log[d][i])
    requires forall k :: k in loaded ==> exists d: Day, i: nat :: PutAt(log, d, i) && LineKey(spec, log[d][i]) == k
    requires forall k :: k in loaded ==> MarkAgrees(log, k, table[k]) && Unmarked(table[k]) == loaded[k]
    ensures Agree(spec, emb, clock, log, table)
  {
    hide MarkAgrees;
    hide LineKey;
    hide RowOf;
    hide Loadable;
    hide Unmarked;
  }

  lemma RebuiltAgrees(spec: TableSpec, emb: Option<Embedder>, clock: Time, log: Log)
    requires Rebuilt(spec, emb, clock, log).Some?
    ensures Agree(spec, emb, clock, log, Rebuilt(spec, emb, clock, log).value)
  {
    RebuildSucceedsIffLoadable(spec, emb, clock, log);
    LoadedAgrees(spec, emb, clock, log);
    DelsMean(log);
    hide MarkAgrees;
    hide LoadPuts;
    hide MarkDels;
    hide LineKey;
    hide RowOf;
    hide Loadable;
    hide PutsOf;
    hide DelsOf;
    hide Events;
    hide DelsOfLog;
    hide Agree;
    hide Unmarked;
    var dels := DelsOf(Events(log));
    var loaded := LoadPuts(spec, emb, clock, PutsOf(Events(log))).value;
    MarksAgree(log, loaded, dels);
    MarkedAgree(spec, emb, clock, log, loaded, MarkDels(loaded, dels));
  }

  lemma AgreeIsUnique(spec: TableSpec, emb: Option<Embedder>, clock: Time, log: Log, t: Table, u: Table)
    requires Agree(spec, emb, clock, log, t) && Agree(spec, emb, clock, log, u)
    ensures t == u
  {
    hide MarkAgrees;
    hide LineKey;
    hide RowOf;
    hide Loadable;
    forall k
      ensures k in t <==> k in u
      ensures k in t ==> t[k] == u[k]
    {
      if k in t {
        var d: Day, i: nat :| PutAt(log, d, i) && LineKey(spec, log[d][i]) == k;
        assert Unmarked(t[k]) == Unmarked(u[k]);
        MarkIsUnique(log, k, t[k], u[k]);
      }
      if k in u {
        var d: Day, i: nat :| PutAt(log, d, i) && LineKey(spec, log[d][i]) == k;
        assert k in t;
      }
    }
  }

  lemma MarkIsUnique(log: Log, k: Key, a: StoredRow, b: StoredRow)
    requires MarkAgrees(log, k, a) && MarkAgrees(log, k, b) && Unmarked(a) == Unmarked(b)
    ensures a == b
  {
    if a.deletedDs.Some? {
      var d := a.deletedDs.value;
      var i: nat :| TombstoneAt(log, d, i, k) && a.deletedAt == Some(log[d][i].deletedAt) &&
        forall e: Day, j: nat :: TombstoneAt(log, e, j, k) ==> d < e || (d == e && i <= j);
      assert b.deletedDs.Some?;
      var x := b.deletedDs.value;
      var y: nat :| TombstoneAt(log, x, y, k) && b.deletedAt == Some(log[x][y].deletedAt) &&
        forall e: Day, j: nat :: TombstoneAt(log, e, j, k) ==> x < e || (x == e && y <= j);
      assert d == x && i == y;
    }
  }

  /**
   * A rebuild gives a table exactly when that table is the one the log describes. So
   * a rebuild leaves the derived tier as it is if and only if the two tiers agree.
   */
  lemma RebuildIffAgree(spec: TableSpec, emb: Option<Embedder>, clock: Time, log: Log, table: Table)
    ensures Rebuilt(spec, emb, clock, log) == Some(table) <==> Agree(spec, emb, clock, log, table)
  {
    RebuildSucceedsIffLoadable(spec, emb, clock, log);
    if Rebuilt(spec, emb, clock, log).Some? {
      var t := Rebuilt(spec, emb, clock, log).value;
      RebuiltAgrees(spec, emb, clock, log);
      if Agree(spec, emb, clock, log, table) {
        AgreeIsUnique(spec, emb, clock, log, t, table);
      }
    }
  }

  /** First tombstone wins: a rebuilt row carries the earliest partition that holds a
      tombstone of its key, and no mark when there is none. */
  lemma FirstTombstoneWins(spec: TableSpec, emb: Option<Embedder>, clock: Time, log: Log, k: Key)
    requires Rebuilt(spec, emb, clock, log).Some? && k in Rebuilt(spec, emb, clock, log).value
    ensures var row := Rebuilt(spec, emb, clock, log).value[k];
            match row.deletedDs
            case None => forall d: Day, i: nat :: !TombstoneAt(log, d, i, k)
            case Some(day) =>
              && (exists i: nat :: TombstoneAt(log, day, i, k))
              && (forall d: Day, i: nat :: TombstoneAt(log, d, i, k) ==> day <= d)
  {
    hide Rebuilt;
    RebuildIffAgree(spec, emb, clock, log, Rebuilt(spec, emb, clock, log).value);
    assert MarkAgrees(log, k, Rebuilt(spec, emb, clock, log).value[k]);
  }

  /** The lines of a log after one more line at the end of a partition. */
  lemma AppendMeans(log: Log, d: Day, line: Line)
    ensures var after := Append(log, d, line);
            var n := if d in log then |log[d]| else 0;
            && At(after, d, n) && after[d][n] == line
            && forall e: Day, i: nat :: At(after, e, i) <==> At(log, e, i) || (e == d && i == n)
    ensures var after := Append(log, d, line);
            forall e: Day, i: nat :: At(log, e, i) ==> after[e][i] == log[e][i]
  {
  }

  /** Some line has put the key. */
  ghost predicate HasPut(spec: TableSpec, log: Log, k: Key) {
    exists d: Day, i: nat :: PutAt(log, d, i) && LineKey(spec, log[d][i]) == k
  }

  /** What one appended line adds to the put keys. */
  lemma LineAdds(spec: TableSpec, log: Log, d: Day, line: Line, k: Key)
    ensures HasPut(spec, Append(log, d, line), k) <==> HasPut(spec, log, k) || (line.Put? && LineKey(spec, line) == k)
  {
    AppendMeans(log, d, line);
    hide LineKey;
    var after, n := Append(log, d, line), if d in log then |log[d]| else 0;
    hide Append;
    if HasPut(spec, log, k) {
      var e: Day, i: nat :| PutAt(log, e, i) && LineKey(spec, log[e][i]) == k;
      assert PutAt(after, e, i);
    }
    if line.Put? && LineKey(spec, line) == k {
      assert PutAt(after, d, n);
    }
    if HasPut(spec, after, k) {
      var e: Day, i: nat :| PutAt(after, e, i) && LineKey(spec, after[e][i]) == k;
      assert PutAt(log, e, i) || (e == d && i == n);
    }
  }

  /** Some line is a tombstone of the key. */
  ghost predicate HasTombstone(log: Log, k: Key) {
    exists d: Day, i: nat :: TombstoneAt(log, d, i, k)
  }

  lemma LineBuries(log: Log, d: Day, line: Line, k: Key)
    ensures HasTombstone(Append(log, d, line), k) <==> HasTombstone(log, k) || (line.Tombstone? && line.key == k)
  {
    AppendMeans(log, d, line);
    var after, n := Append(log, d, line), if d in log then |log[d]| else 0;
    hide Append;
    if HasTombstone(log, k) {
      var e: Day, i: nat :| TombstoneAt(log, e, i, k);
      assert TombstoneAt(after, e, i, k);
    }
    if line.Tombstone? && line.key == k {
      assert TombstoneAt(after, d, n, k);
    }
    if HasTombstone(after, k) {
      var e: Day, i: nat :| TombstoneAt(after, e, i, k);
      assert TombstoneAt(log, e, i, k) || (e == d && i == n);
    }
  }

  /** A tombstone for a key that an earlier line already buried changes nothing. */
  lemma LaterTombstoneChangesNothing(
      spec: TableSpec, emb: Option<Embedder>, clock: Time, log: Log, k: Key, d: Day, i: nat, e: Day, now: Time)
    requires TombstoneAt(log, d, i, k) && d <= e
    ensures Rebuilt(spec, emb, clock, Append(log, e, Tombstone(k, now))) == Rebuilt(spec, emb, clock, log)
  {
    var after := Append(log, e, Tombstone(k, now));
    AppendMeans(log, e, Tombstone(k, now));
    hide Append;
    hide Rebuilt;
    hide Agree;
    SamePuts(spec, emb, clock, log, after);
    RebuildSucceedsIffLoadable(spec, emb, clock, log);
    RebuildSucceedsIffLoadable(spec, emb, clock, after);
    if Rebuilt(spec, emb, clock, log).Some? {
      var t := Rebuilt(spec, emb, clock, log).value;
      RebuildIffAgree(spec, emb, clock, log, t);
      RebuildIffAgree(spec, emb, clock, after, t);
      AgreeAfterLater(spec, emb, clock, log, after, t, k, d, i, e);
    }
  }

  lemma SamePuts(spec: TableSpec, emb: Option<Embedder>, clock: Time, log: Log, after: Log)
    requires forall x: Day, y: nat :: At(log, x, y) ==> At(after, x, y) && after[x][y] == log[x][y]
    requires forall x: Day, y: nat :: At(after, x, y) && !At(log, x, y) ==> after[x][y].Tombstone?
    ensures forall x: Day, y: nat :: PutAt(after, x, y) <==> PutAt(log, x, y)
    ensures Loadable(spec, after) <==> Loadable(spec, log)
  {
    hide NullLine;
    hide LineKey;
  }

  lemma AgreeAfterLater(
      spec: TableSpec, emb: Option<Embedder>, clock: Time, log: Log, after: Log, t: Table, k: Key, d: Day, i: nat, e: Day)
    requires TombstoneAt(log, d, i, k) && d <= e
    requires forall x: Day, y: nat :: At(log, x, y) ==> At(after, x, y) && after[x][y] == log[x][y]
    requires forall x: Day, y: nat :: At(after, x, y) && !At(log, x, y) ==>
      x == e && TombstoneAt(after, x, y, k) && (d == e ==> i <= y)
    requires Agree(spec, emb, clock, log, t)
    ensures Agree(spec, emb, clock, after, t)
  {
    SamePuts(spec, emb, clock, log, after);
    hide Loadable;
    hide LineKey;
    hide RowOf;
    hide At;
    forall k' | k' in t
      ensures MarkAgrees(after, k', t[k'])
      ensures exists x: Day, y: nat :: PutAt(after, x, y) && LineKey(spec, after[x][y]) == k'
    {
      MarkAfterLater(log, after, k', t[k'], k, d, i, e);
      var x: Day, y: nat :| PutAt(log, x, y) && LineKey(spec, log[x][y]) == k';
      assert PutAt(after, x, y) && after[x][y] == log[x][y];
    }
    hide MarkAgrees;
  }

  lemma MarkAfterLater(log: Log, after: Log, k': Key, row: StoredRow, k: Key, d: Day, i: nat, e: Day)
    requires TombstoneAt(log, d, i, k) && d <= e
    requires forall x: Day, y: nat :: At(log, x, y) ==> At(after, x, y) && after[x][y] == log[x][y]
    requires forall x: Day, y: nat :: At(after, x, y) && !At(log, x, y) ==>
      x == e && TombstoneAt(after, x, y, k) && (d == e ==> i <= y)
    requires MarkAgrees(log, k', row)
    ensures MarkAgrees(after, k', row)
  {
    if row.deletedDs.Some? {
      var day := row.deletedDs.value;
      var p: nat :| TombstoneAt(log, day, p, k') && row.deletedAt == Some(log[day][p].deletedAt) &&
        forall x: Day, y: nat :: TombstoneAt(log, x, y, k') ==> day < x || (day == x && p <= y);
      assert TombstoneAt(after, day, p, k');
      forall x: Day, y: nat | TombstoneAt(after, x, y, k')
        ensures day < x || (day == x && p <= y)
      {
        if At(log, x, y) {
          assert TombstoneAt(log, x, y, k');
        } else {
          assert k' == k;
        }
      }
    } else {
      forall x: Day, y: nat
        ensures !TombstoneAt(after, x, y, k')
      {
        assert !TombstoneAt(log, x, y, k');
      }
    }
  }
}
