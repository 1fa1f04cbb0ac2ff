/** AdminService: the replay behind `rebuild`. */
module Admin {
  import opened Prelude
  import opened Embedding
  import opened Store
  import opened Files
  import opened Rebuild

  /** One table as read and embedded, before anything is cleared. */
  datatype TableReplay = TableReplay(puts: seq<Event>, recs: seq<Record>, index: seq<Index>, dels: seq<Event>)

  /** What the replay holds for a table with this log. */
  ghost predicate ReplayOf(spec: TableSpec, emb: Option<Embedder>, log: Log, r: TableReplay) {
    && r.puts == PutsOf(Events(log)) && r.dels == DelsOf(Events(log))
    && |r.recs| == |r.puts| == |r.index|
    && (forall e :: e in r.puts ==> e.line.Put?) && (forall e :: e in r.dels ==> e.line.Tombstone?)
    && forall i :: 0 <= i < |r.puts| ==>
      r.recs[i] == Normalize(spec, r.puts[i].line.rec) && r.index[i] == IndexOf(emb, spec, r.recs[i])
  }

  /** The embedder accepts every put line of the log. */
  ghost predicate AllEmbeddable(spec: TableSpec, emb: Option<Embedder>, log: Log) {
    forall d: Day, i: nat :: PutAt(log, d, i) ==> Embeddable(emb, spec, Normalize(spec, log[d][i].rec))
  }

  datatype Stats = Stats(tables: nat, rows: nat, tombstones: nat)

  class AdminService {
    const store: StoreService
    const files: FileService
    const specs: seq<TableSpec>

    constructor (store: StoreService, files: FileService, specs: seq<TableSpec>)
      ensures this.store == store && this.files == files && this.specs == specs
    {
      this.store, this.files, this.specs := store, files, specs;
    }

    ghost predicate Valid()
      reads store, files
    {
      && (forall i, j :: 0 <= i < j < |specs| ==> specs[i].name != specs[j].name)
      && (forall i :: 0 <= i < |specs| ==>
            specs[i].name in store.tables && specs[i].name in store.fts && specs[i].name in files.logs)
    }

    /** Reading one table: split its events, embed its puts. */
    method ReadTable(spec: TableSpec, emb: Option<Embedder>) returns (r: Result<TableReplay>)
      requires spec.name in files.logs
      ensures r.Ok? <==> AllEmbeddable(spec, emb, files.logs[spec.name])
      ensures r.Ok? ==> ReplayOf(spec, emb, files.logs[spec.name], r.value)
    {
      hide *;
      ghost var log := files.logs[spec.name];
      var events := files.IterEvents(spec.name);
      EventKinds(log);
      var puts, dels := SplitEvents(events);
      assert forall i :: 0 <= i < |puts| ==> puts[i] in puts;
      var recs := seq(|puts|, i requires 0 <= i < |puts| => Normalize(spec, puts[i].line.rec));
      PutsEmbeddable(spec, emb, log, puts, recs);
      var index := EmbedRecords(emb, spec, recs);
      if index.Err? {
        return Err(index.reason);
      }
      var replay := TableReplay(puts, recs, index.value, dels);
      IsReplay(spec, emb, log, replay);
      return Ok(replay);
    }

    /** Reloading one cleared table: commit every put on its own, mark every tombstone. */
    method ReloadTable(spec: TableSpec, emb: Option<Embedder>, clock: Time, r: TableReplay) returns (ok: bool)
      requires spec.name in store.tables && spec.name in store.fts && spec.name in files.logs
      requires ReplayOf(spec, emb, files.logs[spec.name], r)
      requires store.tables[spec.name] == map[]
      modifies store
      ensures ok <==> Loadable(spec, files.logs[spec.name])
      ensures store.tables.Keys == old(store.tables.Keys) && store.fts.Keys == old(store.fts.Keys)
      ensures forall t :: t in store.tables && t != spec.name ==> store.tables[t] == old(store.tables[t])
      ensures forall t :: t in store.fts && t != spec.name ==> store.fts[t] == old(store.fts[t])
      ensures ok ==> Rebuilt(spec, emb, clock, files.logs[spec.name]) == Some(store.tables[spec.name])
      ensures ok ==> store.fts[spec.name] == TokensOf(store.tables[spec.name])
      ensures !ok ==> Stopped(spec, emb, clock, files.logs[spec.name], store.tables[spec.name])
      ensures !ok ==> store.fts == old(store.fts)
    {
      hide *;
      RebuiltFromReplay(spec, emb, clock, files.logs[spec.name], r);
      ok := LoadAll(spec, emb, clock, r.puts, r.recs, r.index);
      if ok {
        MarkAll(spec.name, r.dels);
        store.RebuildFts(spec.name);
      } else {
        IsStopped(spec, emb, clock, files.logs[spec.name], r, store.tables[spec.name]);
      }
    }

    method LoadAll(
        spec: TableSpec, emb: Option<Embedder>, clock: Time, puts: seq<Event>, recs: seq<Record>, index: seq<Index>)
      returns (ok: bool)
      requires spec.name in store.tables && store.tables[spec.name] == map[]
      requires (forall e :: e in puts ==> e.line.Put?) && |recs| == |puts| == |index|
      requires forall i :: 0 <= i < |puts| ==>
        recs[i] == Normalize(spec, puts[i].line.rec) && index[i] == IndexOf(emb, spec, recs[i])
      modifies store`tables
      ensures ok <==> LoadPuts(spec, emb, clock, puts).Some?
      ensures store.tables.Keys == old(store.tables.Keys)
      ensures forall t :: t in store.tables && t != spec.name ==> store.tables[t] == old(store.tables[t])
      ensures ok ==> LoadPuts(spec, emb, clock, puts) == Some(store.tables[spec.name])
      ensures !ok ==> LongestPrefix(spec, emb, clock, puts, store.tables[spec.name])
    {
      var name := spec.name;
      for i := 0 to |puts|
        invariant store.tables.Keys == old(store.tables.Keys)
        invariant forall t :: t in store.tables && t != name ==> store.tables[t] == old(store.tables[t])
        invariant LoadPuts(spec, emb, clock, puts[..i]) == Some(store.tables[name])
      {
        hide LoadPuts;
        hide Commit;
        hide FreshRow;
        hide IndexOf;
        hide Normalize;
        assert puts[i] in puts;
        var line := puts[i].line;
        var ca := if line.createdAt == "" then clock else line.createdAt;
        LoadStep(spec, emb, clock, puts, i);
        CommitOne(spec, store.tables[name], recs[i], index[i], line.ds, ca);
        var committed := store.CommitRows(spec, [recs[i]], [index[i]], line.ds, ca);
        if !committed {
          LoadStops(spec, emb, clock, puts, i);
          assert PrefixLoads(spec, emb, clock, puts, i, store.tables[name]);
          return false;
        }
      }
      assert puts[..|puts|] == puts;
      return true;
    }

    method MarkAll(name: string, dels: seq<Event>)
      requires name in store.tables && forall e :: e in dels ==> e.line.Tombstone?
      modifies store`tables
      ensures store.tables == old(store.tables)[name := MarkDels(old(store.tables[name]), dels)]
    {
      ghost var start := store.tables[name];
      for i := 0 to |dels|
        invariant name in store.tables
        invariant store.tables == old(store.tables)[name := MarkDels(start, dels[..i])]
      {
        assert dels[..i + 1][..i] == dels[..i] && dels[i] in dels;
        store.SoftDelete(name, [dels[i].line.key], dels[i].day, dels[i].line.deletedAt);
      }
      assert dels[..|dels|] == dels;
    }

    /** The first half of `_replay`: read and embed every table. */
    method ReadAll(emb: Option<Embedder>) returns (r: Result<seq<TableReplay>>)
      requires Valid()
      ensures r.Ok? <==> forall i :: 0 <= i < |specs| ==> AllEmbeddable(specs[i], emb, files.logs[specs[i].name])
      ensures r.Ok? ==> |r.value| == |specs| && forall i :: 0 <= i < |specs| ==>
        ReplayOf(specs[i], emb, files.logs[specs[i].name], r.value[i])
    {
      hide ReplayOf;
      hide AllEmbeddable;
      var replay := [];
      for i := 0 to |specs|
        invariant |replay| == i
        invariant forall j :: 0 <= j < i ==> ReplayOf(specs[j], emb, files.logs[specs[j].name], replay[j])
        invariant forall j :: 0 <= j < i ==> AllEmbeddable(specs[j], emb, files.logs[specs[j].name])
      {
        var one := ReadTable(specs[i], emb);
        if one.Err? {
          return Err(one.reason);
        }
        replay := replay + [one.value];
      }
      return Ok(replay);
    }

    method ClearAll()
      requires Valid()
      modifies store`tables
      ensures Valid()
      ensures forall i :: 0 <= i < |specs| ==> store.tables[specs[i].name] == map[]
    {
      for i := 0 to |specs|
        invariant Valid()
        invariant forall j :: 0 <= j < i ==> store.tables[specs[j].name] == map[]
      {
        store.Clear(specs[i].name);
      }
    }

    /** Reload the cleared tables one after the other. */
    method ReloadAll(emb: Option<Embedder>, clock: Time, replay: seq<TableReplay>) returns (n: nat)
      requires Valid() && |replay| == |specs|
      requires forall i :: 0 <= i < |specs| ==> ReplayOf(specs[i], emb, files.logs[specs[i].name], replay[i])
      requires forall i :: 0 <= i < |specs| ==> store.tables[specs[i].name] == map[]
      modifies store
      ensures Valid() && n <= |specs|
      ensures forall i :: 0 <= i < n ==> Reloaded(specs[i], emb, clock, files.logs, store.tables, store.fts)
      ensures n < |specs| ==> !Loadable(specs[n], files.logs[specs[n].name])
      ensures n < |specs| ==> Stopped(specs[n], emb, clock, files.logs[specs[n].name], store.tables[specs[n].name])
      ensures forall i :: n < i < |specs| ==> store.tables[specs[i].name] == map[]
    {
      hide Loadable;
      hide ReplayOf;
      hide Rebuilt;
      hide TokensOf;
      hide Stopped;
      n := 0;
      while n < |specs|
        invariant Valid() && n <= |specs|
        invariant forall j :: n <= j < |specs| ==> store.tables[specs[j].name] == map[]
        invariant forall j :: 0 <= j < n ==> Reloaded(specs[j], emb, clock, files.logs, store.tables, store.fts)
      {
        var ok := ReloadTable(specs[n], emb, clock, replay[n]);
        if !ok {
          return;
        }
        assert Reloaded(specs[n], emb, clock, files.logs, store.tables, store.fts);
        n := n + 1;
      }
    }

    /** `_replay`. A failing embedder leaves the derived tier untouched. A table whose
        log is not loadable stops the replay: the tables before it are rebuilt, it has
        the longest prefix of its puts that loads, unmarked, and those after it stay
        empty. Tables that agree with their logs are left as they are. */
    method Replay(emb: Option<Embedder>, clock: Time) returns (r: Result<Stats>)
      requires Valid()
      modifies store
      ensures Valid()
      ensures r.Ok? ==> forall i :: 0 <= i < |specs| ==> Reloaded(specs[i], emb, clock, files.logs, store.tables, store.fts)
      ensures r.Ok? ==> r.value == TotalStats(specs, files.logs)
      ensures r.Err? ==>
        || (store.tables == old(store.tables) && store.fts == old(store.fts) &&
            exists i :: 0 <= i < |specs| && !AllEmbeddable(specs[i], emb, files.logs[specs[i].name]))
        || exists n :: 0 <= n < |specs| && !Loadable(specs[n], files.logs[specs[n].name]) &&
             Stopped(specs[n], emb, clock, files.logs[specs[n].name], store.tables[specs[n].name]) &&
             (forall i :: 0 <= i < n ==> Reloaded(specs[i], emb, clock, files.logs, store.tables, store.fts)) &&
             (forall i :: n < i < |specs| ==> store.tables[specs[i].name] == map[])
      ensures old(AllAgree(specs, emb, clock, store.tables, files.logs)) ==>
        forall i :: 0 <= i < |specs| ==> store.tables[specs[i].name] == old(store.tables[specs[i].name])
    {
      hide Loadable;
      hide Reloaded;
      hide Stopped;
      hide AllEmbeddable;
      hide AllAgree;
      hide ReplayOf;
      var replay := ReadAll(emb);
      if replay.Err? {
        return Err(replay.reason);
      }
      r := Reload(emb, clock, replay.value);
    }

    /** The second half of `_replay`, with its counters. */
    method Reload(emb: Option<Embedder>, clock: Time, replay: seq<TableReplay>) returns (r: Result<Stats>)
      requires Valid() && |replay| == |specs|
      requires forall i :: 0 <= i < |specs| ==> ReplayOf(specs[i], emb, files.logs[specs[i].name], replay[i])
      modifies store
      ensures Valid()
      ensures r.Ok? ==> forall i :: 0 <= i < |specs| ==> Reloaded(specs[i], emb, clock, files.logs, store.tables, store.fts)
      ensures r.Ok? ==> r.value == TotalStats(specs, files.logs)
      ensures r.Err? ==>
        exists n :: 0 <= n < |specs| && !Loadable(specs[n], files.logs[specs[n].name]) &&
          Stopped(specs[n], emb, clock, files.logs[specs[n].name], store.tables[specs[n].name]) &&
          (forall i :: 0 <= i < n ==> Reloaded(specs[i], emb, clock, files.logs, store.tables, store.fts)) &&
          (forall i :: n < i < |specs| ==> store.tables[specs[i].name] == map[])
      ensures old(AllAgree(specs, emb, clock, store.tables, files.logs)) ==>
        forall i :: 0 <= i < |specs| ==> store.tables[specs[i].name] == old(store.tables[specs[i].name])
    {
      hide Loadable;
      hide Reloaded;
      hide Stopped;
      hide AllAgree;
      hide ReplayOf;
      ghost var before := store.tables;
      ClearAll();
      var n := ReloadAll(emb, clock, replay);
      if n < |specs| {
        DisagreesAt(specs, emb, clock, before, files.logs, n);
        return Err("primary key");
      }
      if AllAgree(specs, emb, clock, before, files.logs) {
        KeptByReload(specs, emb, clock, before, files.logs, store.tables, store.fts);
      }
      var stats := CountAll(emb, replay);
      return Ok(stats);
    }

    /** The counters that the replay increments row by row and tombstone by tombstone. */
    method CountAll(emb: Option<Embedder>, replay: seq<TableReplay>) returns (stats: Stats)
      requires Valid() && |replay| == |specs|
      requires forall i :: 0 <= i < |specs| ==> ReplayOf(specs[i], emb, files.logs[specs[i].name], replay[i])
      ensures stats == TotalStats(specs, files.logs)
    {
      hide ReplayOf;
      stats := Stats(0, 0, 0);
      for i := 0 to |specs|
        invariant stats == TotalStats(specs[..i], files.logs)
      {
        StatsStep(specs, files.logs, i, emb, replay[i]);
        stats := Stats(stats.tables + 1, stats.rows + |replay[i].recs|, stats.tombstones + |replay[i].dels|);
      }
      assert specs[..|specs|] == specs;
    }
  }

  /** The first `n` puts load to this table, and the next one violates the primary key. */
  ghost predicate PrefixLoads(spec: TableSpec, emb: Option<Embedder>, clock: Time, puts: seq<Event>, n: nat, table: Table) {
    && n < |puts| && (forall e :: e in puts ==> e.line.Put?)
    && LoadPuts(spec, emb, clock, puts[..n]) == Some(table) && LoadPuts(spec, emb, clock, puts[..n + 1]).None?
  }

  ghost predicate LongestPrefix(spec: TableSpec, emb: Option<Embedder>, clock: Time, puts: seq<Event>, table: Table) {
    exists n: nat :: PrefixLoads(spec, emb, clock, puts, n, table)
  }

  /** What a table holds at which the replay stops. */
  ghost predicate Stopped(spec: TableSpec, emb: Option<Embedder>, clock: Time, log: Log, table: Table) {
    LongestPrefix(spec, emb, clock, PutsOf(Events(log)), table)
  }

  lemma IsStopped(spec: TableSpec, emb: Option<Embedder>, clock: Time, log: Log, r: TableReplay, table: Table)
    requires ReplayOf(spec, emb, log, r) && LongestPrefix(spec, emb, clock, r.puts, table)
    ensures Stopped(spec, emb, clock, log, table)
  {
    hide LongestPrefix;
    hide PutsOf;
    hide Events;
  }

  /** Every table is the one that its log rebuilds to. */
  ghost predicate AllAgree(
      listed: seq<TableSpec>, emb: Option<Embedder>, clock: Time, tables: map<string, Table>, logs: map<string, Log>)
  {
    forall i :: 0 <= i < |listed| ==>
      && listed[i].name in tables && listed[i].name in logs
      && Rebuilt(listed[i], emb, clock, logs[listed[i].name]) == Some(tables[listed[i].name])
  }

  lemma DisagreesAt(
      listed: seq<TableSpec>, emb: Option<Embedder>, clock: Time, tables: map<string, Table>, logs: map<string, Log>, n: nat)
    requires n < |listed| && listed[n].name in logs && !Loadable(listed[n], logs[listed[n].name])
    ensures !AllAgree(listed, emb, clock, tables, logs)
  {
    RebuildSucceedsIffLoadable(listed[n], emb, clock, logs[listed[n].name]);
    hide Rebuilt;
    hide Loadable;
  }

  lemma KeptByReload(
      listed: seq<TableSpec>, emb: Option<Embedder>, clock: Time, before: map<string, Table>, logs: map<string, Log>,
      after: map<string, Table>, fts: map<string, FtsSnapshot>)
    requires AllAgree(listed, emb, clock, before, logs)
    requires forall i :: 0 <= i < |listed| ==> Reloaded(listed[i], emb, clock, logs, after, fts)
    ensures forall i :: 0 <= i < |listed| ==>
      listed[i].name in before && listed[i].name in after && after[listed[i].name] == before[listed[i].name]
  {
    hide Rebuilt;
    hide TokensOf;
    forall i | 0 <= i < |listed|
      ensures listed[i].name in before && listed[i].name in after && after[listed[i].name] == before[listed[i].name]
    {
      assert Reloaded(listed[i], emb, clock, logs, after, fts);
    }
  }

  /** The table of `spec` is rebuilt from its log, and its full-text index is fresh. */
  ghost predicate Reloaded(
      spec: TableSpec, emb: Option<Embedder>, clock: Time, logs: map<string, Log>,
      tables: map<string, Table>, fts: map<string, FtsSnapshot>)
  {
    && spec.name in logs && spec.name in tables && spec.name in fts
    && Rebuilt(spec, emb, clock, logs[spec.name]) == Some(tables[spec.name])
    && fts[spec.name] == TokensOf(tables[spec.name])
  }

  lemma IsReplay(spec: TableSpec, emb: Option<Embedder>, log: Log, r: TableReplay)
    requires r.puts == PutsOf(Events(log)) && r.dels == DelsOf(Events(log))
    requires |r.recs| == |r.puts| == |r.index|
    requires (forall e :: e in r.puts ==> e.line.Put?) && (forall e :: e in r.dels ==> e.line.Tombstone?)
    requires forall i :: 0 <= i < |r.puts| ==> r.puts[i] in r.puts && r.recs[i] == Normalize(spec, r.puts[i].line.rec)
    requires forall i :: 0 <= i < |r.puts| ==> r.index[i] == IndexOf(emb, spec, r.recs[i])
    ensures ReplayOf(spec, emb, log, r)
  {
    hide PutsOf;
    hide DelsOf;
    hide Events;
    hide Normalize;
    hide IndexOf;
  }

  lemma RebuiltFromReplay(spec: TableSpec, emb: Option<Embedder>, clock: Time, log: Log, r: TableReplay)
    requires ReplayOf(spec, emb, log, r)
    ensures (forall e :: e in r.puts ==> e.line.Put?) && (forall e :: e in r.dels ==> e.line.Tombstone?)
    ensures |r.recs| == |r.puts| == |r.index|
    ensures forall i :: 0 <= i < |r.puts| ==>
      && r.puts[i].line.Put?
      && r.recs[i] == Normalize(spec, r.puts[i].line.rec) && r.index[i] == IndexOf(emb, spec, r.recs[i])
    ensures LoadPuts(spec, emb, clock, r.puts).Some? <==> Loadable(spec, log)
    ensures var loaded := LoadPuts(spec, emb, clock, r.puts);
            loaded.Some? ==> Rebuilt(spec, emb, clock, log) == Some(MarkDels(loaded.value, r.dels))
  {
    RebuildSucceedsIffLoadable(spec, emb, clock, log);
    hide PutsOf;
    hide DelsOf;
    hide Events;
    hide Normalize;
    hide IndexOf;
    hide LoadPuts;
    hide MarkDels;
    hide Loadable;
    assert forall i :: 0 <= i < |r.puts| ==> r.puts[i] in r.puts;
  }

  method SplitEvents(events: seq<Event>) returns (puts: seq<Event>, dels: seq<Event>)
    ensures puts == PutsOf(events) && dels == DelsOf(events)
  {
    puts, dels := [], [];
    for i := 0 to |events|
      invariant puts == Filter(events[..i], IsPut) && dels == Filter(events[..i], IsTombstone)
    {
      assert events[..i + 1][..i] == events[..i];
      if events[i].line.Tombstone? {
        dels := dels + [events[i]];
      } else {
        puts := puts + [events[i]];
      }
    }
    assert events[..|events|] == events;
  }

  lemma PutsEmbeddable(spec: TableSpec, emb: Option<Embedder>, log: Log, puts: seq<Event>, recs: seq<Record>)
    requires puts == PutsOf(Events(log)) && (forall e :: e in puts ==> e.line.Put?) && |recs| == |puts|
    requires forall i :: 0 <= i < |puts| ==> puts[i] in puts && recs[i] == Normalize(spec, puts[i].line.rec)
    ensures AllEmbeddable(spec, emb, log) <==> forall i :: 0 <= i < |recs| ==> Embeddable(emb, spec, recs[i])
  {
    PutsMean(log);
    hide PutsOf;
    hide Events;
    hide Embeddable;
    hide Normalize;
    if AllEmbeddable(spec, emb, log) {
      forall i | 0 <= i < |recs|
        ensures Embeddable(emb, spec, recs[i])
      {
        assert puts[i] in puts;
        assert PutAt(log, puts[i].day, puts[i].pos);
      }
    }
    if forall i :: 0 <= i < |recs| ==> Embeddable(emb, spec, recs[i]) {
      forall d: Day, i: nat | PutAt(log, d, i)
        ensures Embeddable(emb, spec, Normalize(spec, log[d][i].rec))
      {
        var h :| 0 <= h < |puts| && puts[h] == Event(d, i, log[d][i]);
        assert Embeddable(emb, spec, recs[h]);
      }
    }
  }

  lemma LoadStep(spec: TableSpec, emb: Option<Embedder>, clock: Time, puts: seq<Event>, i: nat)
    requires i < |puts| && forall e :: e in puts ==> e.line.Put?
    requires puts[i].line.Put?
    ensures forall e :: e in puts[..i] ==> e.line.Put?
    ensures forall e :: e in puts[..i + 1] ==> e.line.Put?
    ensures var line := puts[i].line;
            LoadPuts(spec, emb, clock, puts[..i + 1]) ==
              match LoadPuts(spec, emb, clock, puts[..i])
              case None => None
              case Some(t) => if NullLine(spec, line) || LineKey(spec, line) in t then None
                              else Some(t[LineKey(spec, line) := RowOf(spec, emb, clock, line)])
  {
    assert puts[..i + 1][..i] == puts[..i];
  }

  lemma CommitOne(spec: TableSpec, table: Table, rec: Record, index: Index, ds: Day, now: Time)
    ensures Commit(spec, table, [rec], [index], ds, now) ==
            if NullKey(spec, rec) || KeyOf(spec, rec) in table then None
            else Some(table[KeyOf(spec, rec) := FreshRow(rec, index, ds, now)])
  {
    assert [rec][1..] == [] && [index][1..] == [];
  }

  /** Once a put fails to load, no longer list of puts loads. */
  lemma LoadStops(spec: TableSpec, emb: Option<Embedder>, clock: Time, puts: seq<Event>, i: nat)
    requires i < |puts| && forall e :: e in puts ==> e.line.Put?
    requires LoadPuts(spec, emb, clock, puts[..i + 1]).None?
    ensures LoadPuts(spec, emb, clock, puts).None?
    decreases |puts|
  {
    if i + 1 == |puts| {
      assert puts[..i + 1] == puts;
    } else {
      var front := puts[..|puts| - 1];
      assert front[..i + 1] == puts[..i + 1];
      LoadStops(spec, emb, clock, front, i);
    }
  }

  /** The counters of a replay: one for each put line, one for each tombstone line. */
  function TotalStats(specs: seq<TableSpec>, logs: map<string, Log>): Stats {
    if specs == [] then Stats(0, 0, 0)
    else
      var rest, name := TotalStats(specs[..|specs| - 1], logs), specs[|specs| - 1].name;
      var log := if name in logs then logs[name] else map[];
      Stats(rest.tables + 1, rest.rows + |PutsOf(Events(log))|, rest.tombstones + |DelsOf(Events(log))|)
  }

  lemma StatsStep(specs: seq<TableSpec>, logs: map<string, Log>, i: nat, emb: Option<Embedder>, r: TableReplay)
    requires i < |specs| && specs[i].name in logs && ReplayOf(specs[i], emb, logs[specs[i].name], r)
    ensures var before := TotalStats(specs[..i], logs);
            TotalStats(specs[..i + 1], logs) ==
              Stats(before.tables + 1, before.rows + |r.recs|, before.tombstones + |r.dels|)
  {
    assert specs[..i + 1][..i] == specs[..i];
    hide Events;
    hide PutsOf;
    hide DelsOf;
  }
}
