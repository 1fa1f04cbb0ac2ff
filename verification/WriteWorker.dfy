/**
 * WriteService: one worker drains the queue in batches, and settles the future of
 * each write once the whole write has completed.
 */
module WriteWorker {
  import opened Prelude
  import opened Embedding
  import opened Store
  import opened Files
  import opened WorkerQueue
  import opened WorkerAnswers
  import H = History
  import T = TaskLog
  import TaskService

  /** Both tiers of every table. */
  datatype World = World(tables: map<string, Table>, logs: map<string, Log>)

  // ------------------------------------------------------ one write, and many

  /** One write on its own. */
  ghost predicate Does(
      specs: map<string, TableSpec>, emb: Option<Embedder>, w: World, r: Request, s: Stamp, out: H.Outcome, after: World)
  {
    if r.table !in specs then out.Failed? && after == w
    else
      && r.table in w.tables && r.table in w.logs && r.table in after.tables && r.table in after.logs
      && after == World(w.tables[r.table := after.tables[r.table]], w.logs[r.table := after.logs[r.table]])
      && H.Executes(specs[r.table], emb, H.State(w.tables[r.table], w.logs[r.table]), r.op, s.ds, s.now, out,
                    H.State(after.tables[r.table], after.logs[r.table]))
  }

  /** Writes executed one at a time, in this order. */
  ghost predicate Chain(
      specs: map<string, TableSpec>, emb: Option<Embedder>, w: World, rs: seq<Request>, ss: seq<Stamp>,
      outs: seq<H.Outcome>, after: World)
    requires |rs| == |ss| == |outs|
    decreases |rs|
  {
    if rs == [] then after == w
    else
      var n := |rs| - 1;
      exists mid :: Chain(specs, emb, w, rs[..n], ss[..n], outs[..n], mid) && Does(specs, emb, mid, rs[n], ss[n], outs[n], after)
  }

  /* A chain is a fold of single writes. The next lemmas hold of any fold: ProcessBatch
     and the loop put chains together with them, and histories are cut with them. */

  /** A batch behind another one is one longer chain. */
  lemma {:induction false} ChainJoin(
      specs: map<string, TableSpec>, emb: Option<Embedder>, w: World, mid: World, after: World,
      rs: seq<Request>, ss: seq<Stamp>, outs: seq<H.Outcome>, rs': seq<Request>, ss': seq<Stamp>, outs': seq<H.Outcome>)
    requires |rs| == |ss| == |outs| && |rs'| == |ss'| == |outs'|
    requires Chain(specs, emb, w, rs, ss, outs, mid) && Chain(specs, emb, mid, rs', ss', outs', after)
    ensures Chain(specs, emb, w, rs + rs', ss + ss', outs + outs', after)
    decreases |rs'|
  {
    hide Does;
    if rs' == [] {
      assert rs + rs' == rs && ss + ss' == ss && outs + outs' == outs;
    } else {
      var n := |rs'| - 1;
      var before :| Chain(specs, emb, mid, rs'[..n], ss'[..n], outs'[..n], before) &&
        Does(specs, emb, before, rs'[n], ss'[n], outs'[n], after);
      ChainJoin(specs, emb, w, mid, before, rs, ss, outs, rs'[..n], ss'[..n], outs'[..n]);
      ChainSnoc(specs, emb, w, rs + rs'[..n], ss + ss'[..n], outs + outs'[..n], before, rs'[n], ss'[n], outs'[n], after);
      hide Chain;
      Regroup(rs, rs');
      Regroup(ss, ss');
      Regroup(outs, outs');
    }
  }

  lemma Regroup<X>(a: seq<X>, b: seq<X>)
    requires b != []
    ensures a + b[..|b| - 1] + [b[|b| - 1]] == a + b
    ensures (a + b)[..|a + b| - 1] == a + b[..|b| - 1] && (a + b)[|a + b| - 1] == b[|b| - 1]
  {
  }

  /** A chain can be cut into two batches anywhere. */
  lemma {:induction false} ChainSplit(
      specs: map<string, TableSpec>, emb: Option<Embedder>, w: World, after: World,
      rs: seq<Request>, ss: seq<Stamp>, outs: seq<H.Outcome>, rs': seq<Request>, ss': seq<Stamp>, outs': seq<H.Outcome>)
    returns (mid: World)
    requires |rs| == |ss| == |outs| && |rs'| == |ss'| == |outs'|
    requires Chain(specs, emb, w, rs + rs', ss + ss', outs + outs', after)
    ensures Chain(specs, emb, w, rs, ss, outs, mid) && Chain(specs, emb, mid, rs', ss', outs', after)
    decreases |rs'|
  {
    hide Does;
    if rs' == [] {
      assert rs + rs' == rs && ss + ss' == ss && outs + outs' == outs;
      mid := after;
    } else {
      var n := |rs'| - 1;
      Regroup(rs, rs');
      Regroup(ss, ss');
      Regroup(outs, outs');
      var before :| Chain(specs, emb, w, rs + rs'[..n], ss + ss'[..n], outs + outs'[..n], before) &&
        Does(specs, emb, before, rs'[n], ss'[n], outs'[n], after);
      mid := ChainSplit(specs, emb, w, before, rs, ss, outs, rs'[..n], ss'[..n], outs'[..n]);
    }
  }

  /** A chain is the same as its two parts, one after the other. */
  lemma BatchesCompose(
      specs: map<string, TableSpec>, emb: Option<Embedder>, w: World, after: World,
      rs: seq<Request>, ss: seq<Stamp>, outs: seq<H.Outcome>, rs': seq<Request>, ss': seq<Stamp>, outs': seq<H.Outcome>)
    requires |rs| == |ss| == |outs| && |rs'| == |ss'| == |outs'|
    ensures Chain(specs, emb, w, rs + rs', ss + ss', outs + outs', after) <==>
            exists mid :: Chain(specs, emb, w, rs, ss, outs, mid) && Chain(specs, emb, mid, rs', ss', outs', after)
  {
    hide Chain;
    if Chain(specs, emb, w, rs + rs', ss + ss', outs + outs', after) {
      var mid := ChainSplit(specs, emb, w, after, rs, ss, outs, rs', ss', outs');
    }
    if exists mid :: Chain(specs, emb, w, rs, ss, outs, mid) && Chain(specs, emb, mid, rs', ss', outs', after) {
      var mid :| Chain(specs, emb, w, rs, ss, outs, mid) && Chain(specs, emb, mid, rs', ss', outs', after);
      ChainJoin(specs, emb, w, mid, after, rs, ss, outs, rs', ss', outs');
    }
  }

  lemma ChainSnoc(
      specs: map<string, TableSpec>, emb: Option<Embedder>, w: World, rs: seq<Request>, ss: seq<Stamp>, outs: seq<H.Outcome>,
      mid: World, r: Request, s: Stamp, out: H.Outcome, after: World)
    requires |rs| == |ss| == |outs|
    requires Chain(specs, emb, w, rs, ss, outs, mid) && Does(specs, emb, mid, r, s, out, after)
    ensures Chain(specs, emb, w, rs + [r], ss + [s], outs + [out], after)
  {
    hide Does;
    var rs', ss', outs' := rs + [r], ss + [s], outs + [out];
    assert rs'[..|rs|] == rs && ss'[..|rs|] == ss && outs'[..|rs|] == outs;
  }

  // ------------------------------------------------------- full-text snapshots

  lemma BuryKeepsTokens(table: Table, keys: seq<Key>, ds: Day, now: Time)
    ensures TokensOf(SoftDeleted(table, keys, ds, now)) == TokensOf(table)
  {
  }

  /** The write service and the tiers that it writes. */
  class WriteService {
    const specs: map<string, TableSpec>
    const emb: Option<Embedder>
    const store: StoreService
    const files: FileService
    const tasks: TaskService.TaskService
    var queue: seq<Item>
    var stop: bool
    var futures: map<nat, Future>
    var nextFuture: nat
    ghost var withdrawn: set<nat>           // futures that their callers gave up

    constructor (
        specs: map<string, TableSpec>, emb: Option<Embedder>, store: StoreService, files: FileService,
        tasks: TaskService.TaskService)
      requires TablesOk(specs, store.tables, store.fts, files.logs) && tasks.Valid()
      ensures this.specs == specs && this.emb == emb && this.store == store && this.files == files && this.tasks == tasks
      ensures Valid() && queue == [] && !stop && futures == map[]
    {
      this.specs, this.emb, this.store, this.files, this.tasks := specs, emb, store, files, tasks;
      queue, stop, futures, nextFuture, withdrawn := [], false, map[], 0, {};
    }

    ghost predicate Valid()
      reads this, store, files, tasks
    {
      && TablesOk(specs, store.tables, store.fts, files.logs) && tasks.Valid()
      && QueueOk(queue, futures)
      && (forall f :: f in futures ==> f < nextFuture)
      && (forall f :: f in futures && futures[f].Cancelled? ==> f in withdrawn)
    }

    ghost function Tiers(): World
      reads store, files
    {
      World(store.tables, files.logs)
    }

    // ------------------------------------------------------------- the callers

    /** `insert` and `delete`: enqueue, with a future of one's own. */
    method Submit(table: string, op: H.Op) returns (future: nat)
      requires Valid()
      modifies this`queue, this`futures, this`nextFuture
      ensures Valid() && future !in old(futures)
      ensures futures == old(futures)[future := Pending]
      ensures queue == old(queue) + [Job(Request(future, table, op))]
    {
      future, nextFuture := nextFuture, nextFuture + 1;
      queue := queue + [Job(Request(future, table, op))];
      futures := futures[future := Pending];
    }

    method Close()
      requires Valid()
      modifies this`queue, this`stop
      ensures Valid() && stop && queue == old(queue) + [Sentinel]
    {
      stop := true;
      queue := queue + [Sentinel];
    }

    /** One thing that a caller may do while the worker awaits: submit, or close. */
    method CallerPuts()
      requires Valid()
      modifies this`queue, this`futures, this`nextFuture, this`stop
      ensures Valid() && Advances(old(futures), futures) && Grew(old(queue), old(stop), queue, stop)
      ensures forall f :: f in old(futures) ==> futures[f] == old(futures[f])
      ensures forall f :: f in old(futures) && NotQueued(f, old(queue)) ==> NotQueued(f, queue)
    {
      var table: string, op: H.Op := *, *;
      if * {
        GrewOne(queue, stop, Job(Request(nextFuture, table, op)));
        hide Grew;
        var _ := Submit(table, op);
      } else {
        GrewOne(queue, stop, Sentinel);
        hide Grew;
        Close();
      }
    }

    /** What callers may do at one await: give futures up, and put any number of items. */
    method Await()
      requires Valid()
      modifies this`queue, this`futures, this`nextFuture, this`stop, this`withdrawn
      ensures Valid() && Advances(old(futures), futures) && Grew(old(queue), old(stop), queue, stop)
      ensures forall f :: f in old(futures) && Waiting(old(futures[f])) ==> Waiting(futures[f])
      ensures forall f :: f in old(futures) && NotQueued(f, old(queue)) ==> NotQueued(f, queue)
    {
      hide TablesOk;
      hide NotQueued;
      var cancelled: set<nat> := *;
      futures := map f | f in futures :: if futures[f].Pending? && f in cancelled then Cancelled else futures[f];
      withdrawn := withdrawn + cancelled;
      GrewNot(queue, stop);
      hide Grew;
      assert Valid();
      hide QueueOk;
      hide Valid;
      var n: int := *;
      while n > 0
        invariant Valid() && Advances(old(futures), futures) && Grew(old(queue), old(stop), queue, stop)
        invariant forall f :: f in old(futures) && Waiting(old(futures[f])) ==> Waiting(futures[f])
        invariant forall f :: f in old(futures) && NotQueued(f, old(queue)) ==> NotQueued(f, queue)
      {
        ghost var queue1, stop1 := queue, stop;
        CallerPuts();
        GrewTrans(old(queue), old(stop), queue1, stop1, queue, stop);
        n := n - 1;
      }
    }

    /** `if not fut.done(): fut.set_…`. */
    method Settle(f: nat, value: Future)
      requires f in futures && !value.Pending? && !value.Cancelled?
      requires QueueOk(queue, futures) && NotQueued(f, queue)
      modifies this`futures
      ensures futures == if old(futures[f]).Pending? then old(futures)[f := value] else old(futures)
      ensures Advances(old(futures), futures) && !futures[f].Pending? && QueueOk(queue, futures)
    {
      if futures[f].Pending? {
        futures := futures[f := value];
      }
    }

    lemma ValidQueue()
      requires Valid()
      ensures QueueOk(queue, futures) && Unrepeated(queue)
    {
    }

    // -------------------------------------------------------------- the worker

    /** One write: validate, embed, files first, then the table. */
    method ExecuteOne(r: Request, s: Stamp) returns (out: H.Outcome, fts: Option<string>)
      requires Valid()
      modifies store`tables, files
      ensures Valid() && Does(specs, emb, old(Tiers()), r, s, out, Tiers())
      ensures fts.Some? ==> fts.value in specs
      ensures emb.Some? ==> TokensKept(specs, old(store.tables), store.tables, Touch(fts))
    {
      hide QueueOk;
      hide TokensKept;
      hide H.Executes;
      if r.table in specs {
        out, fts := ExecuteKnown(r, s);
      } else {
        TokensSame(specs, store.tables);
        out, fts := H.Failed("unknown table"), None;
      }
    }

    method ExecuteKnown(r: Request, s: Stamp) returns (out: H.Outcome, fts: Option<string>)
      requires TablesOk(specs, store.tables, store.fts, files.logs) && r.table in specs
      modifies store`tables, files
      ensures TablesOk(specs, store.tables, store.fts, files.logs)
      ensures store.tables == old(store.tables)[r.table := store.tables[r.table]]
      ensures files.logs == old(files.logs)[r.table := files.logs[r.table]]
      ensures H.Executes(specs[r.table], emb, H.State(old(store.tables[r.table]), old(files.logs[r.table])), r.op, s.ds,
                         s.now, out, H.State(store.tables[r.table], files.logs[r.table]))
      ensures fts.Some? ==> fts.value == r.table
      ensures emb.Some? ==> TokensKept(specs, old(store.tables), store.tables, Touch(fts))
    {
      hide H.Land;
      hide Validated;
      hide TokensOf;
      hide TokensKept;
      hide H.Buries;
      ghost var before := store.tables;
      match r.op {
        case Insert(rows, skipExisting) =>
          var indexed;
          out, indexed := ExecuteInsert(specs[r.table], rows, skipExisting, s);
          fts := if indexed && emb.Some? then Some(r.table) else None;
        case Delete(where) =>
          out := ExecuteDelete(r.table, where, s);
          fts := None;
      }
      hide H.Executes;
      if emb.Some? {
        OtherTokens(specs, before, store.tables, r.table, Touch(fts));
      }
    }

    method ExecuteInsert(spec: TableSpec, rows: seq<Record>, skipExisting: bool, s: Stamp)
      returns (out: H.Outcome, indexed: bool)
      requires spec.name in store.tables && spec.name in files.logs
      modifies store`tables, files
      ensures spec.name in store.tables && spec.name in files.logs
      ensures store.tables == old(store.tables)[spec.name := store.tables[spec.name]]
      ensures files.logs == old(files.logs)[spec.name := files.logs[spec.name]]
      ensures var st := H.State(old(store.tables[spec.name]), old(files.logs[spec.name]));
              var after := H.State(store.tables[spec.name], files.logs[spec.name]);
              match Validated(spec, st.table.Keys, rows, skipExisting)
              case Err(reason) => out == H.Failed(reason) && after == st
              case Ok(recs) => (out, after) == H.Land(spec, emb, st, recs, s.ds, s.now)
      ensures !indexed ==> store.tables[spec.name] == old(store.tables[spec.name])
    {
      ghost var st := H.State(store.tables[spec.name], files.logs[spec.name]);
      var records := store.Validate(spec, rows, skipExisting);
      hide Validated;
      if records.Err? {
        return H.Failed(records.reason), false;
      }
      hide H.Land;
      out, indexed := LandRecords(spec, records.value, s);
    }

    /** Files first, then one transaction. */
    method LandRecords(spec: TableSpec, records: seq<Record>, s: Stamp) returns (out: H.Outcome, indexed: bool)
      requires spec.name in store.tables && spec.name in files.logs
      modifies store`tables, files
      ensures spec.name in store.tables && spec.name in files.logs
      ensures store.tables == old(store.tables)[spec.name := store.tables[spec.name]]
      ensures files.logs == old(files.logs)[spec.name := files.logs[spec.name]]
      ensures (out, H.State(store.tables[spec.name], files.logs[spec.name])) ==
              H.Land(spec, emb, H.State(old(store.tables[spec.name]), old(files.logs[spec.name])), records, s.ds, s.now)
      ensures !indexed ==> store.tables[spec.name] == old(store.tables[spec.name])
    {
      hide *;
      ghost var st := H.State(store.tables[spec.name], files.logs[spec.name]);
      LandByCase(spec, emb, st, records, s.ds, s.now);
      if records == [] {
        return H.Inserted, false;
      }
      var index := EmbedRecords(emb, spec, records);
      if index.Err? {
        return H.Failed("EmbedderInvalid"), false;
      }
      assert index.value == H.IndexAll(emb, spec, records);
      files.WritePuts(spec.name, records, s.ds, s.now);
      var ok := store.CommitRows(spec, records, index.value, s.ds, s.now);
      if !ok {
        return H.Failed("primary key"), false;
      }
      return H.Inserted, true;
    }

    method ExecuteDelete(table: string, where: Where, s: Stamp) returns (out: H.Outcome)
      requires table in store.tables && table in files.logs
      modifies store`tables, files
      ensures table in store.tables && table in files.logs
      ensures store.tables == old(store.tables)[table := store.tables[table]]
      ensures files.logs == old(files.logs)[table := files.logs[table]]
      ensures var st := H.State(old(store.tables[table]), old(files.logs[table]));
              var after := H.State(store.tables[table], files.logs[table]);
              if where.valid then exists keys :: H.Buries(st, where, keys, s.ds, s.now, out, after) else out.Failed? && after == st
      ensures TokensOf(store.tables[table]) == TokensOf(old(store.tables[table]))
    {
      ghost var st := H.State(store.tables[table], files.logs[table]);
      var keys := store.MatchLive(table, where);
      if keys.Err? {
        return H.Failed(keys.reason);
      }
      BuryKeepsTokens(st.table, keys.value, s.ds, s.now);
      hide TokensOf;
      hide Matched;
      hide SoftDeleted;
      hide AppendAll;
      hide Tombstones;
      files.WriteDeletes(table, keys.value, s.ds, s.now);
      store.SoftDelete(table, keys.value, s.ds, s.now);
      out := H.Deleted(|keys.value|);
      assert H.Buries(st, where, keys.value, s.ds, s.now, out, H.State(store.tables[table], files.logs[table]));
    }

    /** One round of that loop: execute, let callers run, and fail the future of a write
        that raised. */
    method RunOne(r: Request, s: Stamp) returns (out: H.Outcome, fts: Option<string>)
      requires Valid() && r.future in futures && Waiting(futures[r.future]) && NotQueued(r.future, queue)
      modifies store`tables, files, this`queue, this`futures, this`nextFuture, this`stop, this`withdrawn
      ensures Valid() && Advances(old(futures), futures) && Grew(old(queue), old(stop), queue, stop)
      ensures Does(specs, emb, old(Tiers()), r, s, out, Tiers())
      ensures r.future in futures && Executes(futures[r.future], out)
      ensures forall f :: f in old(futures) && f != r.future && Waiting(old(futures[f])) ==> Waiting(futures[f])
      ensures forall f :: f in old(futures) && NotQueued(f, old(queue)) ==> NotQueued(f, queue)
      ensures fts.Some? ==> fts.value in specs
      ensures emb.Some? ==> TokensKept(specs, old(store.tables), store.tables, Touch(fts))
    {
      hide Does;
      hide TokensOf;
      hide QueueOk;
      hide NotQueued;
      hide TokensKept;
      hide TablesOk;
      hide Grew;
      out, fts := ExecuteOne(r, s);
      Await();
      assert QueueOk(queue, futures);
      if out.Failed? {
        Settle(r.future, Rejected(out.reason));
      }
    }

    /** The first loop of `_process_batch`: execute the writes in queue order. */
    method RunBatch(batch: seq<Request>, ss: seq<Stamp>)
      returns (outs: seq<H.Outcome>, executed: seq<Executed>, touched: set<string>)
      requires Valid() && BatchOk(batch, futures) && Apart(batch, queue) && |ss| == |batch|
      modifies store`tables, files, this`queue, this`futures, this`nextFuture, this`stop, this`withdrawn
      ensures Valid() && Advances(old(futures), futures) && Grew(old(queue), old(stop), queue, stop)
      ensures |outs| == |batch| && Chain(specs, emb, old(Tiers()), batch, ss, outs, Tiers())
      ensures executed == Successes(batch, outs) && RanTo(batch, futures, outs) && Apart(batch, queue)
      ensures touched <= specs.Keys
      ensures emb.Some? ==> TokensKept(specs, old(store.tables), store.tables, touched)
    {
      outs, executed, touched := [], [], {};
      ghost var w, tables0, futures0, queue0, stop0 := Tiers(), store.tables, futures, queue, stop;
      GrewNot(queue, stop);
      RanNothing(batch, futures);
      TokensSame(specs, store.tables);
      SoFarNothing(specs, emb, w, batch, ss);
      hide *;
      for i := 0 to |batch|
        invariant Valid() && Advances(futures0, futures) && Grew(queue0, stop0, queue, stop)
        invariant |outs| == i && SoFar(specs, emb, w, batch, ss, outs, executed, Tiers())
        invariant RanTo(batch, futures, outs) && touched <= specs.Keys && Apart(batch, queue)
        invariant emb.Some? ==> TokensKept(specs, tables0, store.tables, touched)
      {
        ghost var mid, tables1, futures1, queue1, stop1 := Tiers(), store.tables, futures, queue, stop;
        RanNext(batch, futures, outs);
        ApartAt(batch, queue, i);
        var out, fts := RunOne(batch[i], ss[i]);
        GrewTrans(queue0, stop0, queue1, stop1, queue, stop);
        AdvancesTrans(futures0, futures1, futures);
        RanOn(batch, futures1, futures, outs, out);
        StillApart(batch, queue1, queue, futures1);
        if emb.Some? {
          TokensStep(specs, tables0, tables1, store.tables, touched, fts);
        }
        SoFarStep(specs, emb, w, batch, ss, outs, executed, mid, out, Tiers());
        if !out.Failed? {
          executed := executed + [Executed(batch[i].future, out)];
        }
        if fts.Some? {
          touched := touched + {fts.value};
        }
        outs := outs + [out];
      }
      SoFarAll(specs, emb, w, batch, ss, outs, executed, Tiers());
    }

    /** Refresh each touched table once; a failure is suppressed. */
    method Refresh(touched: set<string>, broken: set<string>)
      requires Valid() && touched <= specs.Keys
      modifies store`fts
      ensures Valid()
      ensures forall t :: t in specs ==>
        store.fts[t] == if t in touched && t !in broken then TokensOf(store.tables[t]) else old(store.fts[t])
    {
      hide TokensOf;
      hide QueueOk;
      var todo := touched;
      while todo != {}
        invariant Valid() && todo <= touched
        invariant forall t :: t in specs ==>
          store.fts[t] == if t in touched - todo && t !in broken then TokensOf(store.tables[t]) else old(store.fts[t])
        decreases todo
      {
        var t :| t in todo;
        if t !in broken {
          store.RebuildFts(t);
        }
        todo := todo - {t};
      }
    }

    /** Append one record, and let callers run. */
    method LogTask(task: T.Task)
      requires Valid() && T.DayOf(task.id).Some?
      modifies tasks, this`queue, this`futures, this`nextFuture, this`stop, this`withdrawn
      ensures Valid() && Advances(old(futures), futures) && Grew(old(queue), old(stop), queue, stop)
      ensures CallersRan(old(queue), old(futures), queue, futures)
      ensures tasks.logs == T.Appended(old(tasks.logs), task)
    {
      tasks.Append(task);
      hide T.Appended;
      hide T.DayOf;
      hide T.StatusOf;
      hide QueueOk;
      hide NotQueued;
      hide TablesOk;
      Await();
    }

    /** The records come last; `ok` is false when an append fails. */
    method LogTasks(executed: seq<Executed>, r: Round) returns (records: seq<T.Task>, ok: bool)
      requires Valid() && RoundOk(r) && Succeeded(executed)
      modifies tasks, this`queue, this`futures, this`nextFuture, this`stop, this`withdrawn
      ensures Valid() && Advances(old(futures), futures) && Grew(old(queue), old(stop), queue, stop)
      ensures CallersRan(old(queue), old(futures), queue, futures)
      ensures records == Recorded(r, executed) && (ok <==> |executed| <= r.appends)
      ensures tasks.logs == T.Logged(old(tasks.logs), records)
    {
      records := [];
      ghost var futures0, queue0, stop0, logs0 := futures, queue, stop, tasks.logs;
      GrewNot(queue, stop);
      AdvancesNothing(futures);
      NoCallers(queue, futures);
      RecordedNothing(r, executed, logs0);
      hide *;
      for i := 0 to |executed|
        invariant Valid() && Advances(futures0, futures) && Grew(queue0, stop0, queue, stop)
        invariant CallersRan(queue0, futures0, queue, futures)
        invariant i <= r.appends && records == RecordedTo(r, executed, i)
        invariant tasks.logs == T.Logged(logs0, records)
      {
        RecordedStops(r, executed, i);
        if i == r.appends {
          return records, false;
        }
        SucceededAt(executed, i);
        var task := BornDone(r.ids(i), executed[i].out, r.at);
        RecordedSnoc(r, executed, i, logs0);
        ghost var futures1, queue1, stop1 := futures, queue, stop;
        LogTask(task);
        GrewTrans(queue0, stop0, queue1, stop1, queue, stop);
        AdvancesTrans(futures0, futures1, futures);
        CallersRanOn(queue0, futures0, queue1, futures1, queue, futures);
        records := records + [task];
      }
      RecordedStops(r, executed, |executed|);
      return records, true;
    }

    /** Hand every success its record. */
    method Resolve(executed: seq<Executed>, records: seq<T.Task>)
      requires Valid() && |records| == |executed|
      requires forall i :: 0 <= i < |executed| ==> executed[i].future in futures && Waiting(futures[executed[i].future])
      requires forall i :: 0 <= i < |executed| ==> NotQueued(executed[i].future, queue)
      requires forall i, j :: 0 <= i < j < |executed| ==> executed[i].future != executed[j].future
      modifies this`futures
      ensures Valid() && Advances(old(futures), futures) && futures.Keys == old(futures.Keys)
      ensures forall i :: 0 <= i < |executed| ==>
        futures[executed[i].future] == if old(futures[executed[i].future]).Pending? then Resolved(records[i]) else Cancelled
    {
      hide QueueOk;
      hide NotQueued;
      for i := 0 to |executed|
        invariant Valid() && Advances(old(futures), futures) && futures.Keys == old(futures.Keys)
        invariant forall j :: 0 <= j < i ==>
          futures[executed[j].future] == if old(futures[executed[j].future]).Pending? then Resolved(records[j]) else Cancelled
        invariant forall j :: i <= j < |executed| ==> futures[executed[j].future] == old(futures[executed[j].future])
      {
        assert QueueOk(queue, futures);
        Settle(executed[i].future, Resolved(records[i]));
      }
    }

    /** The handler of the worker loop: fail whatever is still pending. */
    method RejectPending(batch: seq<Request>, reason: string)
      requires Valid() && forall i :: 0 <= i < |batch| ==> batch[i].future in futures
      requires Apart(batch, queue)
      modifies this`futures
      ensures Valid() && Advances(old(futures), futures) && futures.Keys == old(futures.Keys)
      ensures forall i :: 0 <= i < |batch| ==>
        futures[batch[i].future] ==
          if old(futures[batch[i].future]).Pending? then Rejected(reason) else old(futures[batch[i].future])
    {
      hide QueueOk;
      hide NotQueued;
      for i := 0 to |batch|
        invariant Valid() && Advances(old(futures), futures) && futures.Keys == old(futures.Keys)
        invariant forall f :: f in futures ==> futures[f] == old(futures[f]) || (old(futures[f]).Pending? && futures[f] == Rejected(reason))
        invariant forall j :: 0 <= j < i ==> !futures[batch[j].future].Pending?
      {
        assert QueueOk(queue, futures) && NotQueued(batch[i].future, queue);
        Settle(batch[i].future, Rejected(reason));
      }
    }

    /** `_process_batch`, and, when it raises, the handler around it. */
    method ProcessBatch(batch: seq<Request>, r: Round) returns (outs: seq<H.Outcome>, ok: bool)
      requires Valid() && BatchOk(batch, futures) && Apart(batch, queue) && RoundOk(r)
      modifies store, files, tasks, this`queue, this`futures, this`nextFuture, this`stop, this`withdrawn
      ensures Valid() && Advances(old(futures), futures) && Grew(old(queue), old(stop), queue, stop)
      ensures |outs| == |batch| && Chain(specs, emb, old(Tiers()), batch, Stamps(r, |batch|), outs, Tiers())
      ensures Answered(batch, outs, r, futures)
      ensures tasks.logs == T.Logged(old(tasks.logs), Recorded(r, Successes(batch, outs)))
      ensures forall j :: 0 <= j < |batch| ==> batch[j].future in futures && Tells(futures[batch[j].future], outs[j], tasks.logs)
      ensures ok ==> forall j :: 0 <= j < |batch| && futures[batch[j].future].Rejected? ==> outs[j].Failed?
      ensures ok <==> |Successes(batch, outs)| <= r.appends
      ensures emb.Some? ==> FtsKept(specs, old(store.tables), old(store.fts), store.tables, store.fts, r.broken)
    {
      hide QueueOk;
      hide NotQueued;
      hide Apart;
      hide RoundOk;
      hide Does;
      hide Chain;
      hide Successes;
      hide RanTo;
      hide BatchOk;
      hide TokensKept;
      hide TokensOf;
      hide FtsKept;
      hide Tells;
      hide Executes;
      hide Answered;
      hide Recorded;
      hide T.Logged;
      hide T.StatusOf;
      hide T.DayOf;
      hide Grew;
      ghost var tables0, fts0, futures0, queue0, stop0 := store.tables, store.fts, futures, queue, stop;
      var executed, touched;
      outs, executed, touched := RunBatch(batch, Stamps(r, |batch|));
      ghost var futures1, queue1, stop1 := futures, queue, stop;
      Refresh(touched, r.broken);
      if emb.Some? {
        FtsStep(specs, tables0, fts0, store.tables, store.fts, touched, r.broken);
      }
      var records;
      records, ok := LogTasks(executed, r);
      ghost var futures2 := futures;
      GrewTrans(queue0, stop0, queue1, stop1, queue, stop);
      RanWaits(batch, futures1, futures2, outs);
      SuccessesWait(batch, futures1, outs, executed);
      StillApart(batch, queue1, queue, futures1);
      AdvancesTrans(futures0, futures1, futures2);
      SuccessesWait(batch, futures2, outs, executed);
      SuccessesApart(batch, queue, outs, executed);
      if ok {
        Resolve(executed, records);
        AllResolved(batch, futures2, futures, outs, r, executed, records);
      } else {
        RejectPending(batch, "append failed");
        AllRejected(batch, futures2, futures, outs, r);
      }
      AnsweredTells(batch, outs, r, futures, old(tasks.logs));
      AdvancesTrans(futures0, futures2, futures);
    }

    /** Take everything up to the first sentinel off the queue. */
    method Drain() returns (batch: seq<Request>)
      requires Valid() && queue != [] && queue[0].Job?
      modifies this`queue, this`stop
      ensures Valid() && batch == Jobs(old(queue))
      ensures queue == Rest(old(queue)) && stop == (old(stop) || |batch| < |old(queue)|)
    {
      ghost var all := queue;
      batch := [queue[0].request];
      queue := queue[1..];
      while queue != []
        invariant 1 <= |batch| <= |all| && queue == all[|batch|..] && stop == old(stop)
        invariant forall i :: 0 <= i < |batch| ==> all[i] == Job(batch[i])
        invariant Valid()
        decreases |queue|
      {
        hide TablesOk;
        var item := queue[0];
        queue := queue[1..];
        if item.Sentinel? {
          stop := true;
          assert all[|batch|].Sentinel?;
          break;
        }
        batch := batch + [item.request];
      }
      JobsUpTo(all, |batch|);
      JobsAre(all);
      assert batch == Jobs(all);
    }

    /** Drain a queue with a write in front, and process the batch. */
    method BatchTurn(r: Round) returns (batch: seq<Request>, outs: seq<H.Outcome>, ghost arrived: seq<Item>)
      requires Valid() && RoundOk(r) && queue != [] && queue[0].Job?
      modifies this, store, files, tasks
      ensures Valid() && Advances(old(futures), futures)
      ensures batch == Jobs(old(queue)) && queue == Rest(old(queue)) + arrived
      ensures stop == (old(stop) || |batch| < |old(queue)| || Closes(arrived))
      ensures Worked(specs, emb, r, batch, outs, old(Tiers()), Tiers(), futures, old(tasks.logs), tasks.logs)
      ensures emb.Some? ==> FtsKept(specs, old(store.tables), old(store.fts), store.tables, store.fts, r.broken)
    {
      ghost var queue0, futures0 := queue, futures;
      assert QueueOk(queue0, futures0);
      batch := Drain();
      BatchWaits(queue0, futures0, batch);
      hide *;
      ghost var queue1 := queue;
      var ok;
      ghost var w, logs0 := Tiers(), tasks.logs;
      outs, ok := ProcessBatch(batch, r);
      IsWorked(specs, emb, r, batch, outs, w, Tiers(), futures, logs0, tasks.logs);
      arrived := GrewBy(queue1, stop, queue);
    }

    /** `await self._q.get()` on an empty queue: callers run. */
    method Wait() returns (ghost waited: seq<Item>)
      requires Valid()
      modifies this`queue, this`futures, this`nextFuture, this`stop, this`withdrawn
      ensures Valid() && Advances(old(futures), futures)
      ensures (old(queue) != [] ==> waited == []) && queue == old(queue) + waited && stop == (old(stop) || Closes(waited))
    {
      NoneClose(queue);
      waited := [];
      if queue == [] {
        ghost var queue0, stop0 := queue, stop;
        Await();
        GrewFrom(queue0, stop0, queue, stop);
        waited := queue;
      }
    }

    /** Take the sentinel in front. */
    method TakeSentinel()
      requires Valid() && queue != [] && queue[0].Sentinel?
      modifies this`queue
      ensures Valid() && queue == old(queue)[1..]
    {
      SentinelTaken(queue, futures);
      queue := queue[1..];
    }

    /** One turn of the worker loop: wait for an item when the queue is empty, drain,
        process. `closed` when a sentinel comes first. */
    method Turn(r: Round) returns (batch: seq<Request>, outs: seq<H.Outcome>, closed: bool, ghost pass: Pass)
      requires Valid() && RoundOk(r)
      modifies this, store, files, tasks
      ensures Valid() && Advances(old(futures), futures) && PassOk(old(queue), pass)
      ensures Service(batch, queue, stop, closed || stop) == Take(old(queue), old(stop), pass)
      ensures Worked(specs, emb, r, batch, outs, old(Tiers()), Tiers(), futures, old(tasks.logs), tasks.logs)
      ensures emb.Some? ==> FtsKept(specs, old(store.tables), old(store.fts), store.tables, store.fts, r.broken)
    {
      hide *;
      ghost var queue0, stop0, futures0 := queue, stop, futures;
      FtsNothing(specs, store.tables, store.fts, r.broken);
      AdvancesNothing(futures);
      ghost var waited := Wait();
      WorkedNothing(specs, emb, r, Tiers(), futures, tasks.logs);
      ghost var q, s, futures1 := queue, stop, futures;
      TakeIs(queue0, stop0, waited, q, s, []);
      batch, outs, closed, pass := [], [], false, Pass(waited, []);
      if queue != [] {
        closed := queue[0].Sentinel?;
        if closed {
          TakeSentinel();
        } else {
          ghost var arrived;
          batch, outs, arrived := BatchTurn(r);
          TakeIs(queue0, stop0, waited, q, s, arrived);
          pass := Pass(waited, arrived);
          AdvancesTrans(futures0, futures1, futures);
        }
      }
    }

    /**
     * The worker loop, for as many turns as there are rounds. Over its life it executes
     * one chain of writes, settles every one of them, and takes and leaves exactly what
     * `Served` says for what the callers put, `passes`; it goes on as long as it is not
     * stopped.
     */
    method WorkerLoop(rounds: seq<Round>)
      returns (
        ghost done: seq<Request>, ghost ss: seq<Stamp>, ghost outs: seq<H.Outcome>, ghost passes: seq<Pass>,
        ghost turns: seq<Turned>, ghost ended: bool)
      requires Valid() && forall i :: 0 <= i < |rounds| ==> RoundOk(rounds[i])
      modifies this, store, files, tasks
      ensures Valid() && Advances(old(futures), futures)
      ensures |done| == |ss| == |outs| && Chain(specs, emb, old(Tiers()), done, ss, outs, Tiers())
      ensures |turns| == |passes| && Paired(rounds, turns) && TurnsOk(rounds, turns, futures) && done == DoneOf(turns) && outs == OutsOf(turns)
      ensures tasks.logs == T.Logged(old(tasks.logs), RecordsOf(rounds, turns))
      ensures AllAnswered(done, outs, futures) && (IdsApart(rounds) ==> AllTell(done, outs, futures, tasks.logs))
      ensures forall id :: SameOrWritten(T.StatusOf(old(tasks.logs), id), T.StatusOf(tasks.logs, id), done, outs)
      ensures PassesOk(old(queue), old(stop), passes)
      ensures Service(done, queue, stop, ended) == Served(old(queue), old(stop), passes)
      ensures |passes| <= |rounds| && (|passes| < |rounds| ==> ended)
      ensures (Closes(old(queue)) ==> old(stop)) ==> (|passes| < |rounds| ==> stop)
      ensures old(stop) ==>
        done == [] && ended && queue == old(queue) && futures == old(futures) && Tiers() == old(Tiers()) &&
        tasks.logs == old(tasks.logs)
      ensures !old(stop) && rounds != [] ==> QueueAnswered(old(queue), done, queue, futures)
    {
      hide *;
      done, ss, outs, passes, turns := [], [], [], [], [];
      ghost var w, futures0, queue0, stop0, logs0 := Tiers(), futures, queue, stop, tasks.logs;
      AdvancesNothing(futures);
      ChainNothing(specs, emb, w);
      TurnsNothing(rounds, futures, logs0);
      ServedNothing(queue, stop);
      ValidQueue();
      var i, over := 0, stop;
      while i < |rounds| && !over
        invariant Valid() && Advances(futures0, futures)
        invariant |done| == |ss| == |outs| && Chain(specs, emb, w, done, ss, outs, Tiers())
        invariant Paired(rounds, turns) && TurnsOk(rounds, turns, futures) && done == DoneOf(turns) && outs == OutsOf(turns)
        invariant tasks.logs == T.Logged(logs0, RecordsOf(rounds, turns))
        invariant PassesOk(queue0, stop0, passes) && |passes| == |turns| == i <= |rounds|
        invariant Service(done, queue, stop, over) == Served(queue0, stop0, passes)
        invariant stop0 ==>
          over && done == [] && queue == queue0 && futures == futures0 && Tiers() == w && tasks.logs == logs0
        decreases |rounds| - i
      {
        ghost var mid, futures1, queue1, stop1, logs1 := Tiers(), futures, queue, stop, tasks.logs;
        var batch, some, closed, pass := Turn(rounds[i]);
        WorkedMeans(specs, emb, rounds[i], batch, some, mid, Tiers(), futures, logs1, tasks.logs);
        ChainJoin(specs, emb, w, mid, Tiers(), done, ss, outs, batch, Stamps(rounds[i], |batch|), some);
        AdvancesTrans(futures0, futures1, futures);
        ServedSnoc(queue0, stop0, passes, pass);
        PassesSnoc(queue0, stop0, passes, pass);
        TurnsSnoc(rounds, turns, Turned(batch, some), futures1, futures, logs0);
        done, ss, outs := done + batch, ss + Stamps(rounds[i], |batch|), outs + some;
        passes, turns := passes + [pass], turns + [Turned(batch, some)];
        over := closed || stop;
        i := i + 1;
      }
      ended := over;
      WorkIsTold(rounds, turns, futures, logs0);
      if Closes(queue0) ==> stop0 {
        EndedIsStopped(queue0, stop0, passes);
      }
      if !stop0 && rounds != [] {
        ValidQueue();
        QueuedAnswered(queue0, passes, done, queue, stop, ended, futures);
      }
    }
  }

  lemma SuccessesApart(batch: seq<Request>, queue: seq<Item>, outs: seq<H.Outcome>, executed: seq<Executed>)
    requires |outs| == |batch| && executed == Successes(batch, outs) && Apart(batch, queue)
    ensures forall i :: 0 <= i < |executed| ==> NotQueued(executed[i].future, queue)
  {
    hide NotQueued;
    forall i | 0 <= i < |executed|
      ensures NotQueued(executed[i].future, queue)
    {
      var h := SuccessFrom(batch, outs, i);
    }
  }

  /** What a turn has done with its batch: executed it as a chain, answered every write,
      and logged exactly the records of its successes. */
  ghost predicate Worked(
      specs: map<string, TableSpec>, emb: Option<Embedder>, r: Round, batch: seq<Request>, outs: seq<H.Outcome>,
      before: World, after: World, futures: map<nat, Future>, logs: T.Partitions, logs': T.Partitions)
  {
    && RoundOk(r) && |outs| == |batch| && Chain(specs, emb, before, batch, Stamps(r, |batch|), outs, after)
    && Answered(batch, outs, r, futures) && logs' == T.Logged(logs, Recorded(r, Successes(batch, outs)))
    && forall j :: 0 <= j < |batch| ==> batch[j].future in futures && Tells(futures[batch[j].future], outs[j], logs')
  }

  lemma IsWorked(
      specs: map<string, TableSpec>, emb: Option<Embedder>, r: Round, batch: seq<Request>, outs: seq<H.Outcome>,
      before: World, after: World, futures: map<nat, Future>, logs: T.Partitions, logs': T.Partitions)
    requires RoundOk(r) && |outs| == |batch| && Chain(specs, emb, before, batch, Stamps(r, |batch|), outs, after)
    requires Answered(batch, outs, r, futures) && logs' == T.Logged(logs, Recorded(r, Successes(batch, outs)))
    requires forall j :: 0 <= j < |batch| ==> batch[j].future in futures && Tells(futures[batch[j].future], outs[j], logs')
    ensures Worked(specs, emb, r, batch, outs, before, after, futures, logs, logs')
  {
  }

  lemma WorkedMeans(
      specs: map<string, TableSpec>, emb: Option<Embedder>, r: Round, batch: seq<Request>, outs: seq<H.Outcome>,
      before: World, after: World, futures: map<nat, Future>, logs: T.Partitions, logs': T.Partitions)
    requires Worked(specs, emb, r, batch, outs, before, after, futures, logs, logs')
    ensures RoundOk(r) && |outs| == |batch| && Chain(specs, emb, before, batch, Stamps(r, |batch|), outs, after)
    ensures Answered(batch, outs, r, futures) && logs' == T.Logged(logs, Recorded(r, Successes(batch, outs)))
  {
  }

  lemma WorkedNothing(
      specs: map<string, TableSpec>, emb: Option<Embedder>, r: Round, w: World, futures: map<nat, Future>, logs: T.Partitions)
    requires RoundOk(r)
    ensures Worked(specs, emb, r, [], [], w, w, futures, logs, logs)
  {
    StampNothing(r);
    ChainNothing(specs, emb, w);
    AnsweredNothing(r, futures, logs);
    hide *;
    IsWorked(specs, emb, r, [], [], w, w, futures, logs, logs);
  }

  lemma NoneClose(queue: seq<Item>)
    ensures !Closes([]) && queue + [] == queue
  {
  }

  lemma GrewBy(queue: seq<Item>, stop: bool, queue': seq<Item>) returns (arrived: seq<Item>)
    requires queue <= queue'
    ensures queue' == queue + arrived && arrived == queue'[|queue|..]
  {
    arrived := queue'[|queue|..];
  }

  lemma SentinelTaken(queue: seq<Item>, futures: map<nat, Future>)
    requires QueueOk(queue, futures) && queue != []
    ensures QueueOk(queue[1..], futures)
  {
    assert forall i :: 0 <= i < |queue| - 1 ==> queue[1..][i] == queue[i + 1];
  }

  /** A write queued when the loop starts is settled if and only if no sentinel stands
      before it; otherwise it stays queued, and waits. */
  ghost predicate QueueAnswered(queue: seq<Item>, done: seq<Request>, queue': seq<Item>, futures: map<nat, Future>) {
    && (queue != [] ==> Jobs(queue) <= done)
    && forall i :: 0 <= i < |queue| && queue[i].Job? ==>
         var f := queue[i].request.future;
         if Closes(queue[..i]) then queue[i].request !in done && queue[i] in queue' && f in futures && Waiting(futures[f])
         else queue[i].request in done && f in futures && !futures[f].Pending?
  }

  lemma QueuedAnswered(
      queue: seq<Item>, passes: seq<Pass>, done: seq<Request>, queue': seq<Item>, stop': bool, ended: bool,
      futures: map<nat, Future>)
    requires passes != [] && PassesOk(queue, false, passes) && Unrepeated(queue)
    requires Service(done, queue', stop', ended) == Served(queue, false, passes) && QueueOk(queue', futures)
    requires forall j :: 0 <= j < |done| ==> done[j].future in futures && !futures[done[j].future].Pending?
    ensures QueueAnswered(queue, done, queue', futures)
  {
    hide Served;
    hide PassesOk;
    hide Closes;
    hide Jobs;
    if queue != [] {
      FirstPassOk(queue, false, passes);
      FirstTurn(queue, false, passes[0]);
      TakenStays(queue, false, [passes[0]], passes[1..]);
      assert passes == [passes[0]] + passes[1..];
    }
    forall i | 0 <= i < |queue| && queue[i].Job?
      ensures Closes(queue[..i]) ==>
        queue[i].request !in done && queue[i] in queue' && queue[i].request.future in futures &&
        Waiting(futures[queue[i].request.future])
      ensures !Closes(queue[..i]) ==>
        queue[i].request in done && queue[i].request.future in futures && !futures[queue[i].request.future].Pending?
    {
      QueuedServedIff(queue, false, passes, i);
      if Closes(queue[..i]) {
        var j :| 0 <= j < |queue'| && queue'[j] == queue[i];
      } else {
        var j :| 0 <= j < |done| && done[j] == queue[i].request;
      }
    }
  }

  lemma BatchWaits(queue: seq<Item>, futures: map<nat, Future>, batch: seq<Request>)
    requires QueueOk(queue, futures) && batch == Jobs(queue)
    ensures BatchOk(batch, futures)
    ensures Apart(batch, Rest(queue))
  {
    JobsAre(queue);
    hide Jobs;
    forall i | 0 <= i < |batch|
      ensures batch[i].future in futures && Waiting(futures[batch[i].future])
    {
      assert queue[i] == Job(batch[i]);
    }
    forall i, j | 0 <= i < j < |batch|
      ensures batch[i].future != batch[j].future
    {
      assert queue[i] == Job(batch[i]) && queue[j] == Job(batch[j]);
    }
    if |batch| < |queue| {
      var rest := queue[|batch| + 1..];
      forall j, i | 0 <= j < |batch| && 0 <= i < |rest| && rest[i].Job?
        ensures rest[i].request.future != batch[j].future
      {
        assert queue[j] == Job(batch[j]) && queue[|batch| + 1 + i] == rest[i];
      }
    }
  }

  predicate FreshOrChanged(tables: map<string, Table>, fts: map<string, FtsSnapshot>, tables': map<string, Table>, t: string) {
    && t in tables && t in fts && t in tables'
    && (fts[t] == TokensOf(tables[t]) || TokensOf(tables'[t]) != TokensOf(tables[t]))
  }

  /** Unless its refresh fails, a full-text snapshot is fresh when it was fresh before or
      when the batch has changed the tokens of its table, however stale it was. */
  ghost predicate FtsKept(
      specs: map<string, TableSpec>, tables: map<string, Table>, fts: map<string, FtsSnapshot>,
      tables': map<string, Table>, fts': map<string, FtsSnapshot>, broken: set<string>)
  {
    forall t :: t in specs && t !in broken && FreshOrChanged(tables, fts, tables', t) ==>
      t in fts' && fts'[t] == TokensOf(tables'[t])
  }

  lemma FtsNothing(
      specs: map<string, TableSpec>, tables: map<string, Table>, fts: map<string, FtsSnapshot>, broken: set<string>)
    ensures FtsKept(specs, tables, fts, tables, fts, broken)
  {
  }

  lemma FtsStep(
      specs: map<string, TableSpec>, tables: map<string, Table>, fts: map<string, FtsSnapshot>,
      tables': map<string, Table>, fts': map<string, FtsSnapshot>, touched: set<string>, broken: set<string>)
    requires TokensKept(specs, tables, tables', touched)
    requires forall t :: t in specs ==> t in tables' && t in fts' && t in fts
    requires forall t :: t in specs ==>
      fts'[t] == if t in touched && t !in broken then TokensOf(tables'[t]) else fts[t]
    ensures FtsKept(specs, tables, fts, tables', fts', broken)
  {
    hide TokensOf;
  }

  lemma ApartAt(batch: seq<Request>, queue: seq<Item>, i: nat)
    requires Apart(batch, queue) && i < |batch|
    ensures NotQueued(batch[i].future, queue)
  {
  }

  lemma StillApart(batch: seq<Request>, before: seq<Item>, after: seq<Item>, futures: map<nat, Future>)
    requires Apart(batch, before) && forall j :: 0 <= j < |batch| ==> batch[j].future in futures
    requires forall f :: f in futures && NotQueued(f, before) ==> NotQueued(f, after)
    ensures Apart(batch, after)
  {
    hide NotQueued;
  }

  lemma ChainNothing(specs: map<string, TableSpec>, emb: Option<Embedder>, w: World)
    ensures Chain(specs, emb, w, [], [], [], w)
    ensures Successes([], []) == []
  {
  }

  /** The first writes of the batch, one at a time, and the successes among them. */
  ghost predicate SoFar(
      specs: map<string, TableSpec>, emb: Option<Embedder>, w: World, batch: seq<Request>, ss: seq<Stamp>,
      outs: seq<H.Outcome>, executed: seq<Executed>, after: World)
  {
    && |outs| <= |batch| == |ss|
    && Chain(specs, emb, w, batch[..|outs|], ss[..|outs|], outs, after)
    && executed == Successes(batch[..|outs|], outs)
  }

  lemma SoFarNothing(specs: map<string, TableSpec>, emb: Option<Embedder>, w: World, batch: seq<Request>, ss: seq<Stamp>)
    requires |batch| == |ss|
    ensures SoFar(specs, emb, w, batch, ss, [], [], w)
  {
    assert batch[..0] == [] && ss[..0] == [];
    ChainNothing(specs, emb, w);
  }

  lemma SoFarStep(
      specs: map<string, TableSpec>, emb: Option<Embedder>, w: World, batch: seq<Request>, ss: seq<Stamp>,
      outs: seq<H.Outcome>, executed: seq<Executed>, mid: World, out: H.Outcome, after: World)
    requires SoFar(specs, emb, w, batch, ss, outs, executed, mid) && |outs| < |batch| == |ss|
    requires Does(specs, emb, mid, batch[|outs|], ss[|outs|], out, after)
    ensures SoFar(specs, emb, w, batch, ss, outs + [out],
                  if out.Failed? then executed else executed + [Executed(batch[|outs|].future, out)], after)
  {
    hide Does;
    var i := |outs|;
    assert batch[..i + 1] == batch[..i] + [batch[i]] && ss[..i + 1] == ss[..i] + [ss[i]];
    ChainSnoc(specs, emb, w, batch[..i], ss[..i], outs, mid, batch[i], ss[i], out, after);
    SuccessSnoc(batch[..i], outs, batch[i], out);
    hide Chain;
    hide Successes;
    assert executed + [] == executed;
  }

  lemma SoFarAll(
      specs: map<string, TableSpec>, emb: Option<Embedder>, w: World, batch: seq<Request>, ss: seq<Stamp>,
      outs: seq<H.Outcome>, executed: seq<Executed>, after: World)
    requires SoFar(specs, emb, w, batch, ss, outs, executed, after) && |outs| == |batch|
    ensures |ss| == |batch| && Chain(specs, emb, w, batch, ss, outs, after) && executed == Successes(batch, outs)
  {
    assert batch[..|batch|] == batch && ss[..|ss|] == ss;
  }

  /** Only touched tables have new tokens. */
  ghost predicate TokensKept(specs: map<string, TableSpec>, before: map<string, Table>, after: map<string, Table>, touched: set<string>) {
    forall t :: t in specs && t !in touched ==> t in before && t in after && TokensOf(after[t]) == TokensOf(before[t])
  }

  lemma TokensSame(specs: map<string, TableSpec>, tables: map<string, Table>)
    requires forall t :: t in specs ==> t in tables
    ensures TokensKept(specs, tables, tables, {})
  {
  }

  function Touch(fts: Option<string>): set<string> {
    if fts.Some? then {fts.value} else {}
  }

  lemma OtherTokens(
      specs: map<string, TableSpec>, before: map<string, Table>, after: map<string, Table>, table: string, touched: set<string>)
    requires table in before && table in after && after == before[table := after[table]]
    requires forall t :: t in specs ==> t in before
    requires table in touched || TokensOf(after[table]) == TokensOf(before[table])
    ensures TokensKept(specs, before, after, touched)
  {
    hide TokensOf;
  }

  lemma TokensStep(
      specs: map<string, TableSpec>, before: map<string, Table>, mid: map<string, Table>, after: map<string, Table>,
      touched: set<string>, fts: Option<string>)
    requires TokensKept(specs, before, mid, touched)
    requires TokensKept(specs, mid, after, Touch(fts))
    ensures TokensKept(specs, before, after, if fts.Some? then touched + {fts.value} else touched)
  {
    hide TokensOf;
  }

  /** `Land`, case by case. */
  lemma LandByCase(spec: TableSpec, emb: Option<Embedder>, st: H.State, recs: seq<Record>, ds: Day, now: Time)
    ensures var (out, after) := H.Land(spec, emb, st, recs, ds, now);
            var log := AppendAll(st.log, ds, PutLines(recs, ds, now));
            var committed := Commit(spec, st.table, recs, H.IndexAll(emb, spec, recs), ds, now);
            && (recs == [] ==> out == H.Inserted && after == st)
            && (recs != [] && !(forall i :: 0 <= i < |recs| ==> Embeddable(emb, spec, recs[i])) ==>
                  out == H.Failed("EmbedderInvalid") && after == st)
            && (recs != [] && (forall i :: 0 <= i < |recs| ==> Embeddable(emb, spec, recs[i])) ==>
                  if committed.None? then out == H.Failed("primary key") && after == H.State(st.table, log)
                  else out == H.Inserted && after == H.State(committed.value, log))
  {
    hide Embeddable;
    hide Commit;
    hide AppendAll;
  }

  /** What callers may have done to futures and queue: whatever waited still waits, and
      what was not queued still is not. */
  ghost predicate CallersRan(queue: seq<Item>, futures: map<nat, Future>, queue': seq<Item>, futures': map<nat, Future>) {
    && (forall f :: f in futures && Waiting(futures[f]) ==> f in futures' && Waiting(futures'[f]))
    && (forall f :: f in futures && NotQueued(f, queue) ==> f in futures' && NotQueued(f, queue'))
  }

  lemma NoCallers(queue: seq<Item>, futures: map<nat, Future>)
    ensures CallersRan(queue, futures, queue, futures)
  {
  }

  lemma CallersRanOn(
      queue: seq<Item>, futures: map<nat, Future>, queue': seq<Item>, futures': map<nat, Future>,
      queue'': seq<Item>, futures'': map<nat, Future>)
    requires CallersRan(queue, futures, queue', futures') && CallersRan(queue', futures', queue'', futures'')
    ensures CallersRan(queue, futures, queue'', futures'')
  {
    hide NotQueued;
  }

  /** The worker has taken the write with this future off the queue. */
  ghost predicate NotQueued(f: nat, queue: seq<Item>) {
    forall i :: 0 <= i < |queue| && queue[i].Job? ==> queue[i].request.future != f
  }

  ghost predicate Apart(batch: seq<Request>, queue: seq<Item>) {
    forall j :: 0 <= j < |batch| ==> NotQueued(batch[j].future, queue)
  }

  ghost predicate TablesOk(
      specs: map<string, TableSpec>, tables: map<string, Table>, fts: map<string, FtsSnapshot>, logs: map<string, Log>)
  {
    forall t :: t in specs ==> specs[t].name == t && t in tables && t in fts && t in logs
  }

  /** Every queued write has a future of its own, still unresolved by the worker. */
  ghost predicate QueueOk(queue: seq<Item>, futures: map<nat, Future>) {
    && (forall i :: 0 <= i < |queue| && queue[i].Job? ==>
          queue[i].request.future in futures && Waiting(futures[queue[i].request.future]))
    && (forall i, j :: 0 <= i < j < |queue| && queue[i].Job? && queue[j].Job? ==> queue[i].request.future != queue[j].request.future)
  }
}
