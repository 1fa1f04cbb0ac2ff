/**
 * The write service and a rebuild together: whatever the worker has executed is a
 * crash-free history of every table, so a rebuild afterwards changes nothing.
 */
module EndToEnd {
  import opened Prelude
  import opened Embedding
  import opened Store
  import opened Files
  import opened Rebuild
  import opened WorkerQueue
  import opened WorkerAnswers
  import opened WriteWorker
  import Admin
  import H = History

  /** The writes of a chain that go to table `t`, in order. */
  function EventsOf(t: string, rs: seq<Request>, ss: seq<Stamp>): seq<H.Event>
    requires |rs| == |ss|
  {
    if rs == [] then []
    else
      var n := |rs| - 1;
      EventsOf(t, rs[..n], ss[..n]) + if rs[n].table == t then [H.Write(rs[n].op, ss[n].ds, ss[n].now)] else []
  }

  lemma {:induction false} LeadsSnoc(
      spec: TableSpec, emb: Option<Embedder>, st: H.State, events: seq<H.Event>, mid: H.State, e: H.Event, after: H.State)
    requires H.Leads(spec, emb, st, events, mid) && H.Happens(spec, emb, mid, e, after)
    ensures H.Leads(spec, emb, st, events + [e], after)
    decreases |events|
  {
    hide H.Happens;
    var all := events + [e];
    if events == [] {
      assert all == [e] && all[1..] == [];
      assert H.Leads(spec, emb, after, all[1..], after);
    } else {
      var next :| H.Happens(spec, emb, st, events[0], next) && H.Leads(spec, emb, next, events[1..], mid);
      LeadsSnoc(spec, emb, next, events[1..], mid, e, after);
      assert all[0] == events[0] && all[1..] == events[1..] + [e];
    }
  }

  function StateOf(w: World, t: string): H.State
    requires t in w.tables && t in w.logs
  {
    H.State(w.tables[t], w.logs[t])
  }

  /** A chain of writes is a crash-free history of each table. */
  lemma {:induction false} ChainIsHistory(
      specs: map<string, TableSpec>, emb: Option<Embedder>, w: World, rs: seq<Request>, ss: seq<Stamp>,
      outs: seq<H.Outcome>, after: World, t: string)
    requires |rs| == |ss| == |outs| && Chain(specs, emb, w, rs, ss, outs, after)
    requires t in specs && t in w.tables && t in w.logs
    ensures t in after.tables && t in after.logs
    ensures H.Leads(specs[t], emb, StateOf(w, t), EventsOf(t, rs, ss), StateOf(after, t))
    decreases |rs|
  {
    if rs != [] {
      var n := |rs| - 1;
      var mid :| Chain(specs, emb, w, rs[..n], ss[..n], outs[..n], mid) && Does(specs, emb, mid, rs[n], ss[n], outs[n], after);
      ChainIsHistory(specs, emb, w, rs[..n], ss[..n], outs[..n], mid, t);
      hide H.Executes;
      hide Chain;
      var events := EventsOf(t, rs[..n], ss[..n]);
      if rs[n].table == t {
        var e := H.Write(rs[n].op, ss[n].ds, ss[n].now);
        assert H.Happens(specs[t], emb, StateOf(mid, t), e, StateOf(after, t));
        hide H.Happens;
        LeadsSnoc(specs[t], emb, StateOf(w, t), events, StateOf(mid, t), e, StateOf(after, t));
      } else {
        assert events + [] == events;
      }
    }
  }

  /** Every write has a time, and no inserted row lacks its key. */
  predicate ProperWrites(specs: map<string, TableSpec>, rs: seq<Request>, ss: seq<Stamp>)
    requires |rs| == |ss|
  {
    forall i :: 0 <= i < |rs| ==> ss[i].now != "" && (rs[i].table in specs ==> H.Keyed(specs[rs[i].table], rs[i].op))
  }

  lemma {:induction false} ProperEvents(specs: map<string, TableSpec>, rs: seq<Request>, ss: seq<Stamp>, t: string)
    requires |rs| == |ss| && ProperWrites(specs, rs, ss) && t in specs
    ensures H.Proper(specs[t], EventsOf(t, rs, ss))
    decreases |rs|
  {
    if rs != [] {
      var n := |rs| - 1;
      hide H.Keyed;
      ProperEvents(specs, rs[..n], ss[..n], t);
    }
  }

  predicate EmptyWorld(specs: map<string, TableSpec>, w: World) {
    forall t :: t in specs ==> t in w.tables && t in w.logs && w.tables[t] == map[] && w.logs[t] == map[]
  }

  /** After any chain of writes from the empty store, each table is the one its log
      rebuilds to. */
  lemma ChainThenRebuild(
      specs: map<string, TableSpec>, emb: Option<Embedder>, w: World, rs: seq<Request>, ss: seq<Stamp>,
      outs: seq<H.Outcome>, after: World, t: string, clock: Time)
    requires |rs| == |ss| == |outs| && Chain(specs, emb, w, rs, ss, outs, after) && EmptyWorld(specs, w)
    requires ProperWrites(specs, rs, ss) && t in specs
    ensures t in after.tables && t in after.logs
    ensures Rebuilt(specs[t], emb, clock, after.logs[t]) == Some(after.tables[t])
  {
    ChainIsHistory(specs, emb, w, rs, ss, outs, after, t);
    ProperEvents(specs, rs, ss, t);
    hide Chain;
    hide EventsOf;
    hide Rebuilt;
    H.RebuildIsIdentity(specs[t], emb, EventsOf(t, rs, ss), StateOf(after, t), clock);
  }

  lemma {:induction false} EventDays(t: string, rs: seq<Request>, ss: seq<Stamp>, day: Day)
    requires |rs| == |ss|
    ensures (forall i :: 0 <= i < |ss| ==> ss[i].ds <= day) ==>
      forall j :: 0 <= j < |EventsOf(t, rs, ss)| ==> EventsOf(t, rs, ss)[j].ds <= day
    ensures (forall i :: 0 <= i < |ss| ==> day < ss[i].ds) ==>
      forall j :: 0 <= j < |EventsOf(t, rs, ss)| ==> day < EventsOf(t, rs, ss)[j].ds
    decreases |rs|
  {
    if rs != [] {
      EventDays(t, rs[..|rs| - 1], ss[..|rs| - 1], day);
    }
  }

  lemma EmptyTable(specs: map<string, TableSpec>, w: World, t: string)
    requires EmptyWorld(specs, w) && t in specs
    ensures t in w.tables && t in w.logs && StateOf(w, t) == H.EMPTY
  {
  }

  lemma StateTables(w: World, t: string)
    requires t in w.tables && t in w.logs
    ensures StateOf(w, t).table == w.tables[t] && StateOf(w, t).log == w.logs[t]
  {
  }

  /** The history of one table, with the days of its writes on one side of `day`. */
  lemma TableHistory(
      specs: map<string, TableSpec>, emb: Option<Embedder>, w: World, rs: seq<Request>, ss: seq<Stamp>,
      outs: seq<H.Outcome>, after: World, t: string, day: Day)
    returns (events: seq<H.Event>)
    requires |rs| == |ss| == |outs| && Chain(specs, emb, w, rs, ss, outs, after) && ProperWrites(specs, rs, ss)
    requires t in specs && t in w.tables && t in w.logs
    ensures t in after.tables && t in after.logs
    ensures H.Leads(specs[t], emb, StateOf(w, t), events, StateOf(after, t)) && H.Proper(specs[t], events)
    ensures (forall i :: 0 <= i < |ss| ==> ss[i].ds <= day) ==> forall j :: 0 <= j < |events| ==> events[j].ds <= day
    ensures (forall i :: 0 <= i < |ss| ==> day < ss[i].ds) ==> forall j :: 0 <= j < |events| ==> day < events[j].ds
  {
    events := EventsOf(t, rs, ss);
    ChainIsHistory(specs, emb, w, rs, ss, outs, after, t);
    ProperEvents(specs, rs, ss, t);
    EventDays(t, rs, ss, day);
  }

  /** What the worker writes after a day never changes what that day looked like, for
      any table and any start of the window. */
  lemma PastIsImmutable(
      specs: map<string, TableSpec>, emb: Option<Embedder>, w: World, t: string, start: Option<Day>, day: Day,
      rs: seq<Request>, ss: seq<Stamp>, outs: seq<H.Outcome>, evening: World,
      rs': seq<Request>, ss': seq<Stamp>, outs': seq<H.Outcome>, now: World)
    requires |rs| == |ss| == |outs| && Chain(specs, emb, w, rs, ss, outs, evening) && EmptyWorld(specs, w)
    requires |rs'| == |ss'| == |outs'| && Chain(specs, emb, evening, rs', ss', outs', now)
    requires ProperWrites(specs, rs, ss) && ProperWrites(specs, rs', ss') && t in specs
    requires forall i :: 0 <= i < |ss| ==> ss[i].ds <= day
    requires forall i :: 0 <= i < |ss'| ==> day < ss'[i].ds
    ensures t in evening.tables && t in now.tables
    ensures H.View(now.tables[t], start, Some(day)) == H.View(evening.tables[t], start, None)
  {
    hide *;
    EmptyTable(specs, w, t);
    var past := TableHistory(specs, emb, w, rs, ss, outs, evening, t, day);
    var future := TableHistory(specs, emb, evening, rs', ss', outs', now, t, day);
    var a, b := StateOf(evening, t), StateOf(now, t);
    H.HistoryIsImmutable(specs[t], emb, past, a, future, b, start, day);
    StateTables(evening, t);
    StateTables(now, t);
  }

  /** The same within one chain of a worker: cut it where the day ends, and what the
      day's view shows at the end of the chain is what was live at the cut. */
  lemma PastWithinChain(
      specs: map<string, TableSpec>, emb: Option<Embedder>, w: World, t: string, start: Option<Day>, day: Day,
      rs: seq<Request>, ss: seq<Stamp>, outs: seq<H.Outcome>, now: World, n: nat)
    returns (evening: World)
    requires |rs| == |ss| == |outs| && n <= |rs| && Chain(specs, emb, w, rs, ss, outs, now) && EmptyWorld(specs, w)
    requires ProperWrites(specs, rs, ss) && t in specs
    requires forall i :: 0 <= i < |ss| ==> if i < n then ss[i].ds <= day else day < ss[i].ds
    ensures Chain(specs, emb, w, rs[..n], ss[..n], outs[..n], evening)
    ensures Chain(specs, emb, evening, rs[n..], ss[n..], outs[n..], now)
    ensures t in evening.tables && t in now.tables
    ensures H.View(now.tables[t], start, Some(day)) == H.View(evening.tables[t], start, None)
  {
    hide Chain;
    hide EmptyWorld;
    hide H.View;
    hide H.Keyed;
    assert rs[..n] + rs[n..] == rs && ss[..n] + ss[n..] == ss && outs[..n] + outs[n..] == outs;
    BatchesCompose(specs, emb, w, now, rs[..n], ss[..n], outs[..n], rs[n..], ss[n..], outs[n..]);
    evening :| Chain(specs, emb, w, rs[..n], ss[..n], outs[..n], evening) &&
      Chain(specs, emb, evening, rs[n..], ss[n..], outs[n..], now);
    assert ProperWrites(specs, rs[..n], ss[..n]) && ProperWrites(specs, rs[n..], ss[n..]);
    hide ProperWrites;
    PastIsImmutable(specs, emb, w, t, start, day, rs[..n], ss[..n], outs[..n], evening, rs[n..], ss[n..], outs[n..], now);
  }

  // ------------------------------------------ a rebuild never fails to embed

  /** Put lines of embeddable records, appended. */
  lemma {:induction false} PutsStayEmbeddable(
      spec: TableSpec, emb: Option<Embedder>, log: Log, recs: seq<Record>, ds: Day, now: Time)
    requires Admin.AllEmbeddable(spec, emb, log)
    requires forall i :: 0 <= i < |recs| ==> H.IsRecord(spec, recs[i]) && Embeddable(emb, spec, recs[i])
    ensures Admin.AllEmbeddable(spec, emb, AppendAll(log, ds, PutLines(recs, ds, now)))
    decreases |recs|
  {
    if recs != [] {
      var lines := PutLines(recs, ds, now);
      H.RecordsAreNormal(spec, recs[0]);
      LineStaysEmbeddable(spec, emb, log, ds, lines[0]);
      assert lines[1..] == PutLines(recs[1..], ds, now);
      hide Embeddable;
      hide H.IsRecord;
      PutsStayEmbeddable(spec, emb, Append(log, ds, lines[0]), recs[1..], ds, now);
    }
  }

  lemma LineStaysEmbeddable(spec: TableSpec, emb: Option<Embedder>, log: Log, ds: Day, line: Line)
    requires Admin.AllEmbeddable(spec, emb, log) && (line.Put? ==> Embeddable(emb, spec, Normalize(spec, line.rec)))
    ensures Admin.AllEmbeddable(spec, emb, Append(log, ds, line))
  {
    AppendMeans(log, ds, line);
    hide Append;
    hide Embeddable;
    hide Normalize;
    var after := Append(log, ds, line);
    forall d: Day, i: nat | PutAt(after, d, i)
      ensures Embeddable(emb, spec, Normalize(spec, after[d][i].rec))
    {
      if At(log, d, i) {
        assert PutAt(log, d, i);
      }
    }
  }

  lemma {:induction false} TombstonesStayEmbeddable(
      spec: TableSpec, emb: Option<Embedder>, log: Log, keys: seq<Key>, ds: Day, now: Time)
    requires Admin.AllEmbeddable(spec, emb, log)
    ensures Admin.AllEmbeddable(spec, emb, AppendAll(log, ds, Tombstones(keys, now)))
    decreases |keys|
  {
    if keys != [] {
      var lines := Tombstones(keys, now);
      LineStaysEmbeddable(spec, emb, log, ds, lines[0]);
      assert lines[1..] == Tombstones(keys[1..], now);
      TombstonesStayEmbeddable(spec, emb, Append(log, ds, lines[0]), keys[1..], ds, now);
    }
  }

  lemma LandStaysEmbeddable(spec: TableSpec, emb: Option<Embedder>, st: H.State, recs: seq<Record>, ds: Day, now: Time)
    requires Admin.AllEmbeddable(spec, emb, st.log) && forall i :: 0 <= i < |recs| ==> H.IsRecord(spec, recs[i])
    ensures Admin.AllEmbeddable(spec, emb, H.Land(spec, emb, st, recs, ds, now).1.log)
  {
    if forall i :: 0 <= i < |recs| ==> Embeddable(emb, spec, recs[i]) {
      PutsStayEmbeddable(spec, emb, st.log, recs, ds, now);
    }
    hide Embeddable;
    hide Commit;
    hide AppendAll;
    hide H.IsRecord;
  }

  lemma EventStaysEmbeddable(spec: TableSpec, emb: Option<Embedder>, st: H.State, e: H.Event, after: H.State)
    requires Admin.AllEmbeddable(spec, emb, st.log) && H.Happens(spec, emb, st, e, after)
    ensures Admin.AllEmbeddable(spec, emb, after.log)
  {
    hide Admin.AllEmbeddable;
    match e {
      case Rebuild(_, _) =>
      case Write(op, ds, now) =>
        var out :| H.Executes(spec, emb, st, op, ds, now, out, after);
        match op {
          case Insert(rows, skipExisting) =>
            var recs := Validated(spec, st.table.Keys, rows, skipExisting);
            if recs.Ok? {
              H.ValidatedRecords(spec, st.table.Keys, rows, skipExisting);
              hide Validated;
              LandStaysEmbeddable(spec, emb, st, recs.value, ds, now);
            }
          case Delete(where) =>
            if where.valid {
              var keys :| H.Buries(st, where, keys, ds, now, out, after);
              TombstonesStayEmbeddable(spec, emb, st.log, keys, ds, now);
            }
        }
    }
  }

  /** A write embeds its records before it writes their lines; so after any history,
      with or without keys, a rebuild can embed every line. */
  lemma {:induction false} HistoryStaysEmbeddable(
      spec: TableSpec, emb: Option<Embedder>, st: H.State, events: seq<H.Event>, after: H.State)
    requires Admin.AllEmbeddable(spec, emb, st.log) && H.Leads(spec, emb, st, events, after)
    ensures Admin.AllEmbeddable(spec, emb, after.log)
    decreases |events|
  {
    hide Admin.AllEmbeddable;
    hide H.Happens;
    if events != [] {
      var mid :| H.Happens(spec, emb, st, events[0], mid) && H.Leads(spec, emb, mid, events[1..], after);
      EventStaysEmbeddable(spec, emb, st, events[0], mid);
      HistoryStaysEmbeddable(spec, emb, mid, events[1..], after);
    }
  }

  lemma ChainEmbeds(
      specs: map<string, TableSpec>, emb: Option<Embedder>, w: World, rs: seq<Request>, ss: seq<Stamp>,
      outs: seq<H.Outcome>, after: World, t: string)
    requires |rs| == |ss| == |outs| && Chain(specs, emb, w, rs, ss, outs, after) && EmptyWorld(specs, w) && t in specs
    ensures t in after.logs && Admin.AllEmbeddable(specs[t], emb, after.logs[t])
  {
    EmptyTable(specs, w, t);
    assert Admin.AllEmbeddable(specs[t], emb, H.EMPTY.log);
    hide *;
    ChainIsHistory(specs, emb, w, rs, ss, outs, after, t);
    HistoryStaysEmbeddable(specs[t], emb, H.EMPTY, EventsOf(t, rs, ss), StateOf(after, t));
    StateTables(after, t);
  }

  /** The rebuild serves exactly the tables that the worker writes. */
  predicate SameTables(specs: map<string, TableSpec>, listed: seq<TableSpec>) {
    && (forall i :: 0 <= i < |listed| ==> listed[i].name in specs && specs[listed[i].name] == listed[i])
    && (forall t :: t in specs ==> specs[t] in listed && specs[t].name == t)
  }

  lemma ChainAgrees(
      specs: map<string, TableSpec>, listed: seq<TableSpec>, emb: Option<Embedder>, w: World, rs: seq<Request>,
      ss: seq<Stamp>, outs: seq<H.Outcome>, after: World, clock: Time)
    requires |rs| == |ss| == |outs| && Chain(specs, emb, w, rs, ss, outs, after) && EmptyWorld(specs, w)
    requires ProperWrites(specs, rs, ss) && SameTables(specs, listed)
    ensures Admin.AllAgree(listed, emb, clock, after.tables, after.logs)
    ensures forall i :: 0 <= i < |listed| ==>
      && listed[i].name in after.logs && Admin.AllEmbeddable(listed[i], emb, after.logs[listed[i].name])
      && Loadable(listed[i], after.logs[listed[i].name])
  {
    hide Chain;
    hide EmptyWorld;
    hide ProperWrites;
    hide Rebuilt;
    hide Loadable;
    hide Admin.AllEmbeddable;
    forall i | 0 <= i < |listed|
      ensures listed[i].name in after.tables && listed[i].name in after.logs
      ensures Admin.AllEmbeddable(listed[i], emb, after.logs[listed[i].name])
      ensures Loadable(listed[i], after.logs[listed[i].name])
      ensures Rebuilt(listed[i], emb, clock, after.logs[listed[i].name]) == Some(after.tables[listed[i].name])
    {
      ChainThenRebuild(specs, emb, w, rs, ss, outs, after, listed[i].name, clock);
      ChainEmbeds(specs, emb, w, rs, ss, outs, after, listed[i].name);
      RebuildSucceedsIffLoadable(listed[i], emb, clock, after.logs[listed[i].name]);
    }
  }

  /**
   * Let the worker run from an empty store for any number of turns, then rebuild: the
   * rebuild succeeds, counts every line, leaves every table as the writes left it, and
   * every full-text snapshot fresh.
   */
  method WriteThenRebuild(worker: WriteService, admin: Admin.AdminService, rounds: seq<Round>, clock: Time)
    returns (
      r: Result<Admin.Stats>, ghost done: seq<Request>, ghost ss: seq<Stamp>, ghost outs: seq<H.Outcome>,
      ghost passes: seq<Pass>, ghost turns: seq<Turned>, ghost written: World)
    requires worker.Valid() && admin.Valid() && EmptyWorld(worker.specs, worker.Tiers())
    requires admin.store == worker.store && admin.files == worker.files && SameTables(worker.specs, admin.specs)
    requires forall i :: 0 <= i < |rounds| ==> RoundOk(rounds[i])
    modifies worker, worker.store, worker.files, worker.tasks
    ensures |done| == |ss| == |outs| && Chain(worker.specs, worker.emb, old(worker.Tiers()), done, ss, outs, written)
    ensures PassesOk(old(worker.queue), old(worker.stop), passes)
    ensures var end := Served(old(worker.queue), old(worker.stop), passes);
            done == end.done && worker.queue == end.queue && (|passes| < |rounds| ==> end.ended)
    ensures TurnsOk(rounds, turns, worker.futures) && done == DoneOf(turns) && outs == OutsOf(turns)
    ensures admin.Valid() && worker.files.logs == written.logs
    ensures ProperWrites(worker.specs, done, ss) ==>
      && r == Ok(Admin.TotalStats(admin.specs, written.logs))
      && forall i :: 0 <= i < |admin.specs| ==>
           && Admin.Reloaded(admin.specs[i], worker.emb, clock, written.logs, worker.store.tables, worker.store.fts)
           && admin.specs[i].name in written.tables
           && worker.store.tables[admin.specs[i].name] == written.tables[admin.specs[i].name]
  {
    ghost var w, ended := worker.Tiers(), false;
    done, ss, outs, passes, turns, ended := worker.WorkerLoop(rounds);
    written := worker.Tiers();
    AdminStillValid(worker, admin);
    hide Chain;
    hide EmptyWorld;
    hide QueueOk;
    hide SameTables;
    hide Admin.AllAgree;
    hide Admin.AllEmbeddable;
    hide Admin.Reloaded;
    hide Admin.Stopped;
    hide Loadable;
    hide ProperWrites;
    hide RoundOk;
    hide Served;
    hide PassesOk;
    hide TurnsOk;
    hide AllAnswered;
    hide AllTell;
    hide SameOrWritten;
    hide QueueAnswered;
    if ProperWrites(worker.specs, done, ss) {
      ChainAgrees(worker.specs, admin.specs, worker.emb, w, done, ss, outs, written, clock);
    }
    assert forall i :: 0 <= i < |admin.specs| ==> admin.specs[i].name in written.tables;
    r := admin.Replay(worker.emb, clock);
  }

  lemma AdminStillValid(worker: WriteService, admin: Admin.AdminService)
    requires worker.Valid() && admin.store == worker.store && admin.files == worker.files
    requires SameTables(worker.specs, admin.specs)
    requires forall i, j :: 0 <= i < j < |admin.specs| ==> admin.specs[i].name != admin.specs[j].name
    ensures admin.Valid()
  {
  }
}
