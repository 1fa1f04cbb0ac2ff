/**
 * What a stream leaves for a rebuild: exactly when the log of its sink can still be
 * rebuilt.
 */
module StreamRebuild {
  import opened Prelude
  import opened Embedding
  import opened Store
  import opened Rebuild
  import opened StreamReader
  import opened Stream
  import opened StreamMachine
  import Files
  import H = History
  import R = Recovery

  ghost predicate Keyed(spec: TableSpec, recs: seq<Record>) {
    forall i :: 0 <= i < |recs| ==> !NullKey(spec, recs[i])
  }

  /** Each record has a key, and no line of the log has put it. */
  ghost predicate Clean(spec: TableSpec, log: Files.Log, recs: seq<Record>) {
    Keyed(spec, recs) && forall i :: 0 <= i < |recs| ==> !HasPut(spec, log, KeyOf(spec, recs[i]))
  }

  ghost predicate AreRecords(spec: TableSpec, recs: seq<Record>) {
    forall i :: 0 <= i < |recs| ==> H.IsRecord(spec, recs[i])
  }

  // --------------------------------------------------- lines of one landing

  lemma LoadableShrinks(spec: TableSpec, log: Files.Log, later: Files.Log)
    requires H.Extends(log, later) && Loadable(spec, later)
    ensures Loadable(spec, log)
  {
    hide LineKey;
    hide NullLine;
    forall d: Day, i: nat | PutAt(log, d, i)
      ensures PutAt(later, d, i) && later[d][i] == log[d][i]
    {
      assert Files.At(log, d, i);
    }
  }

  lemma LinesExtend(log: Files.Log, d: Day, lines: seq<Files.Line>)
    ensures H.Extends(log, Files.AppendAll(log, d, lines))
  {
    Files.AppendAllMeans(log, d, lines);
    hide Files.AppendAll;
  }

  lemma {:induction false} PutsAdd(spec: TableSpec, log: Files.Log, recs: seq<Record>, ds: Day, now: Time, k: Key)
    requires AreRecords(spec, recs)
    ensures HasPut(spec, Files.AppendAll(log, ds, Files.PutLines(recs, ds, now)), k) <==> HasPut(spec, log, k) || k in Keys(spec, recs)
    decreases |recs|
  {
    if recs == [] {
      assert Keys(spec, recs) == {};
    } else {
      var lines := Files.PutLines(recs, ds, now);
      KeysHead(spec, recs);
      H.RecordsAreNormal(spec, recs[0]);
      LineAdds(spec, log, ds, lines[0], k);
      assert lines[1..] == Files.PutLines(recs[1..], ds, now);
      assert LineKey(spec, lines[0]) == KeyOf(spec, recs[0]);
      hide HasPut;
      hide LineKey;
      hide KeyOf;
      PutsAdd(spec, Files.Append(log, ds, lines[0]), recs[1..], ds, now, k);
    }
  }

  lemma {:induction false} TombstonesAdd(spec: TableSpec, log: Files.Log, keys: seq<Key>, ds: Day, now: Time, k: Key)
    ensures HasPut(spec, Files.AppendAll(log, ds, Files.Tombstones(keys, now)), k) <==> HasPut(spec, log, k)
    decreases |keys|
  {
    if keys != [] {
      var lines := Files.Tombstones(keys, now);
      LineAdds(spec, log, ds, lines[0], k);
      assert lines[1..] == Files.Tombstones(keys[1..], now);
      hide HasPut;
      TombstonesAdd(spec, Files.Append(log, ds, lines[0]), keys[1..], ds, now, k);
    }
  }

  lemma PutOneIff(spec: TableSpec, log: Files.Log, rec: Record, ds: Day, now: Time)
    requires Loadable(spec, log) && H.IsRecord(spec, rec)
    ensures Loadable(spec, Files.Append(log, ds, Files.Put(rec, ds, now))) <==> !NullKey(spec, rec) && !HasPut(spec, log, KeyOf(spec, rec))
  {
    R.PutKeepsLoadableIff(spec, log, rec, ds, now);
    hide Loadable;
    hide LineKey;
    hide Files.Append;
  }

  /** Writing the put lines of distinct records keeps a log loadable if and only if the
      records are clean. */
  lemma {:induction false} PutsKeepLoadableIff(spec: TableSpec, log: Files.Log, recs: seq<Record>, ds: Day, now: Time)
    requires Loadable(spec, log) && AreRecords(spec, recs) && AllNew(spec, {}, recs)
    ensures Loadable(spec, Files.AppendAll(log, ds, Files.PutLines(recs, ds, now))) <==> Clean(spec, log, recs)
    decreases |recs|
  {
    if recs != [] {
      var lines, rest := Files.PutLines(recs, ds, now), recs[1..];
      var next := Files.Append(log, ds, lines[0]);
      assert lines[1..] == Files.PutLines(rest, ds, now);
      PutOneIff(spec, log, recs[0], ds, now);
      LinesExtend(next, ds, lines[1..]);
      H.RecordsAreNormal(spec, recs[0]);
      forall k
        ensures HasPut(spec, next, k) <==> HasPut(spec, log, k) || KeyOf(spec, recs[0]) == k
      {
        LineAdds(spec, log, ds, lines[0], k);
      }
      hide Loadable;
      hide HasPut;
      hide NullKey;
      hide KeyOf;
      hide H.Extends;
      hide H.IsRecord;
      CleanHead(spec, log, next, recs);
      if Loadable(spec, next) {
        PutsKeepLoadableIff(spec, next, rest, ds, now);
      } else if Loadable(spec, Files.AppendAll(log, ds, lines)) {
        LoadableShrinks(spec, next, Files.AppendAll(log, ds, lines));
      }
    }
  }

  lemma CleanHead(spec: TableSpec, log: Files.Log, next: Files.Log, recs: seq<Record>)
    requires recs != [] && AllNew(spec, {}, recs)
    requires forall k :: HasPut(spec, next, k) <==> HasPut(spec, log, k) || KeyOf(spec, recs[0]) == k
    ensures AllNew(spec, {}, recs[1..])
    ensures Clean(spec, log, recs) <==>
            !NullKey(spec, recs[0]) && !HasPut(spec, log, KeyOf(spec, recs[0])) && Clean(spec, next, recs[1..])
  {
    hide HasPut;
    hide NullKey;
    hide KeyOf;
    var rest := recs[1..];
    assert forall i :: 0 <= i < |rest| ==> rest[i] == recs[i + 1];
    if Clean(spec, next, rest) && !NullKey(spec, recs[0]) && !HasPut(spec, log, KeyOf(spec, recs[0])) {
      forall i | 0 <= i < |recs|
        ensures !NullKey(spec, recs[i]) && !HasPut(spec, log, KeyOf(spec, recs[i]))
      {
        if i > 0 {
          assert recs[i] == rest[i - 1];
        }
      }
    }
  }

  // ------------------------------------------------- what a move writes

  /** The records whose put lines a move writes. */
  ghost function Written(spec: TableSpec, emb: Option<Embedder>, parse: Parser, m: Machine, move: Move): seq<Record> {
    if !m.phase.HasRead? then []
    else
      var recs := Landing(spec, emb, parse, m.sink, m.phase.batch.entries);
      match move
      case LandBatch(_, _) => recs
      case CrashInLanding(_, _, written) => if written <= |recs| then recs[..written] else []
      case _ => []
  }

  lemma {:induction false} RecordsOfAreRecords(spec: TableSpec, parse: Parser, entries: seq<Entry>)
    requires RecordsOf(spec, parse, entries).Ok?
    ensures AreRecords(spec, RecordsOf(spec, parse, entries).value)
    decreases |entries|
  {
    if entries != [] {
      RecordsOfAreRecords(spec, parse, entries[1..]);
    }
  }

  lemma LandingIsNew(spec: TableSpec, emb: Option<Embedder>, parse: Parser, sink: H.State, entries: seq<Entry>)
    ensures var recs := Landing(spec, emb, parse, sink, entries);
            AreRecords(spec, recs) && AllNew(spec, sink.table.Keys, recs)
  {
    if RecordsOf(spec, parse, entries).Ok? {
      var all := RecordsOf(spec, parse, entries).value;
      RecordsOfAreRecords(spec, parse, entries);
      NewRecordsAreNew(spec, sink.table.Keys, all);
      hide NewRecords;
      hide RecordsOf;
      hide H.IsRecord;
      var recs := NewRecords(spec, sink.table.Keys, all);
      forall i | 0 <= i < |recs|
        ensures H.IsRecord(spec, recs[i])
      {
        assert recs[i] in all;
      }
    }
  }

  lemma WrittenIsNew(spec: TableSpec, emb: Option<Embedder>, parse: Parser, m: Machine, move: Move)
    ensures var recs := Written(spec, emb, parse, m, move);
            AreRecords(spec, recs) && AllNew(spec, m.sink.table.Keys, recs) && AllNew(spec, {}, recs)
  {
    if m.phase.HasRead? {
      LandingIsNew(spec, emb, parse, m.sink, m.phase.batch.entries);
      hide Landing;
      hide H.IsRecord;
      hide KeyOf;
    }
  }

  /** What a move does to the log of the sink. */
  lemma MoveWrites(spec: TableSpec, emb: Option<Embedder>, parse: Parser, m: Machine, move: Move)
    requires Apply(spec, emb, parse, m, move).Some?
    ensures var log, recs := Apply(spec, emb, parse, m, move).value.sink.log, Written(spec, emb, parse, m, move);
            match move
            case LandBatch(ds, now) => log == Files.AppendAll(m.sink.log, ds, Files.PutLines(recs, ds, now))
            case CrashInLanding(ds, now, _) => log == Files.AppendAll(m.sink.log, ds, Files.PutLines(recs, ds, now))
            case Delete(keys, ds, now) => log == Files.AppendAll(m.sink.log, ds, Files.Tombstones(keys, now))
            case _ => log == m.sink.log
  {
    hide ReadAll;
    match move {
      case LandBatch(ds, now) => LandWrites(spec, emb, parse, m.sink, m.phase.batch.entries, ds, now);
      case _ =>
    }
  }

  lemma LandWrites(spec: TableSpec, emb: Option<Embedder>, parse: Parser, sink: H.State, entries: seq<Entry>, ds: Day, now: Time)
    ensures Sunk(spec, emb, parse, sink, entries, ds, now).1.log ==
            Files.AppendAll(sink.log, ds, Files.PutLines(Landing(spec, emb, parse, sink, entries), ds, now))
  {
    var none: seq<Record> := [];
    assert Files.PutLines(none, ds, now) == [];
    assert Files.AppendAll(sink.log, ds, []) == sink.log;
    hide NewRecords;
    hide RecordsOf;
    hide Commit;
    hide Embeddable;
  }

  lemma MoveExtends(spec: TableSpec, emb: Option<Embedder>, parse: Parser, m: Machine, move: Move)
    requires Apply(spec, emb, parse, m, move).Some?
    ensures H.Extends(m.sink.log, Apply(spec, emb, parse, m, move).value.sink.log)
  {
    MoveWrites(spec, emb, parse, m, move);
    hide Apply;
    hide Written;
    var recs := Written(spec, emb, parse, m, move);
    match move {
      case LandBatch(ds, now) => LinesExtend(m.sink.log, ds, Files.PutLines(recs, ds, now));
      case CrashInLanding(ds, now, _) => LinesExtend(m.sink.log, ds, Files.PutLines(recs, ds, now));
      case Delete(keys, ds, now) => LinesExtend(m.sink.log, ds, Files.Tombstones(keys, now));
      case _ =>
    }
  }

  lemma {:induction false} RunExtends(spec: TableSpec, emb: Option<Embedder>, parse: Parser, m: Machine, moves: seq<Move>)
    requires Run(spec, emb, parse, m, moves).Some?
    ensures H.Extends(m.sink.log, Run(spec, emb, parse, m, moves).value.sink.log)
    decreases |moves|
  {
    if moves != [] {
      MoveExtends(spec, emb, parse, m, moves[0]);
      hide Apply;
      RunExtends(spec, emb, parse, Apply(spec, emb, parse, m, moves[0]).value, moves[1..]);
    }
  }

  lemma {:induction false} DeleteKeepsLoadable(spec: TableSpec, log: Files.Log, keys: seq<Key>, ds: Day, now: Time)
    requires Loadable(spec, log)
    ensures Loadable(spec, Files.AppendAll(log, ds, Files.Tombstones(keys, now)))
    decreases |keys|
  {
    if keys != [] {
      var lines := Files.Tombstones(keys, now);
      AppendMeans(log, ds, lines[0]);
      hide LineKey;
      hide NullLine;
      assert lines[1..] == Files.Tombstones(keys[1..], now);
      var next := Files.Append(log, ds, lines[0]);
      hide Files.Append;
      assert forall d: Day, i: nat :: PutAt(next, d, i) <==> PutAt(log, d, i);
      DeleteKeepsLoadable(spec, next, keys[1..], ds, now);
    }
  }

  lemma MoveKeepsLoadableIff(spec: TableSpec, emb: Option<Embedder>, parse: Parser, m: Machine, move: Move)
    requires Apply(spec, emb, parse, m, move).Some? && Loadable(spec, m.sink.log)
    ensures Loadable(spec, Apply(spec, emb, parse, m, move).value.sink.log) <==>
            Clean(spec, m.sink.log, Written(spec, emb, parse, m, move))
  {
    var recs := Written(spec, emb, parse, m, move);
    MoveWrites(spec, emb, parse, m, move);
    WrittenIsNew(spec, emb, parse, m, move);
    assert move.Delete? ==> recs == [];
    hide Apply;
    hide Loadable;
    hide HasPut;
    match move {
      case LandBatch(ds, now) => PutsKeepLoadableIff(spec, m.sink.log, recs, ds, now);
      case CrashInLanding(ds, now, _) => PutsKeepLoadableIff(spec, m.sink.log, recs, ds, now);
      case Delete(keys, ds, now) => DeleteKeepsLoadable(spec, m.sink.log, keys, ds, now);
      case _ =>
    }
  }

  // ---------------------------------------------------------- over whole runs

  /** Every landing, finished or crashed, wrote clean records only. */
  ghost predicate CleanRun(spec: TableSpec, emb: Option<Embedder>, parse: Parser, m: Machine, moves: seq<Move>)
    requires Run(spec, emb, parse, m, moves).Some?
    decreases |moves|
  {
    moves == [] ||
    (Clean(spec, m.sink.log, Written(spec, emb, parse, m, moves[0])) &&
     CleanRun(spec, emb, parse, Apply(spec, emb, parse, m, moves[0]).value, moves[1..]))
  }

  /**
   * The log of the sink can be rebuilt after a run if and only if no landing of the
   * run, finished or crashed, wrote a record without a key, or one whose key had a put
   * line already. Once this fails, no later log can be rebuilt either.
   */
  lemma {:induction false} LoadableIffClean(
      spec: TableSpec, emb: Option<Embedder>, parse: Parser, m: Machine, moves: seq<Move>)
    requires Run(spec, emb, parse, m, moves).Some? && Loadable(spec, m.sink.log)
    ensures Loadable(spec, Run(spec, emb, parse, m, moves).value.sink.log) <==> CleanRun(spec, emb, parse, m, moves)
    decreases |moves|
  {
    if moves != [] {
      var next := Apply(spec, emb, parse, m, moves[0]).value;
      MoveKeepsLoadableIff(spec, emb, parse, m, moves[0]);
      hide Apply;
      hide Loadable;
      hide Clean;
      hide Written;
      if Loadable(spec, next.sink.log) {
        LoadableIffClean(spec, emb, parse, next, moves[1..]);
      } else if Loadable(spec, Run(spec, emb, parse, m, moves).value.sink.log) {
        RunExtends(spec, emb, parse, next, moves[1..]);
        LoadableShrinks(spec, next.sink.log, Run(spec, emb, parse, m, moves).value.sink.log);
      }
    }
  }

  // --------------------------------------------- only a crash inside a landing

  ghost predicate KeyedRun(spec: TableSpec, emb: Option<Embedder>, parse: Parser, m: Machine, moves: seq<Move>)
    requires Run(spec, emb, parse, m, moves).Some?
    decreases |moves|
  {
    moves == [] ||
    (Keyed(spec, Written(spec, emb, parse, m, moves[0])) &&
     KeyedRun(spec, emb, parse, Apply(spec, emb, parse, m, moves[0]).value, moves[1..]))
  }

  /** Every key that a line has put is in the table. */
  ghost predicate AllLanded(spec: TableSpec, sink: H.State) {
    forall k :: HasPut(spec, sink.log, k) ==> k in sink.table
  }

  lemma KeyedLandingLands(
      spec: TableSpec, emb: Option<Embedder>, parse: Parser, sink: H.State, entries: seq<Entry>, ds: Day, now: Time)
    requires Keyed(spec, Landing(spec, emb, parse, sink, entries))
    ensures Sunk(spec, emb, parse, sink, entries, ds, now).1.table.Keys ==
            sink.table.Keys + Keys(spec, Landing(spec, emb, parse, sink, entries))
  {
    LandingIsNew(spec, emb, parse, sink, entries);
    var recs := Landing(spec, emb, parse, sink, entries);
    assert recs == [] ==> Keys(spec, recs) == {};
    CommitMeans(spec, sink.table, recs, H.IndexAll(emb, spec, recs), ds, now);
    hide NewRecords;
    hide RecordsOf;
    hide Commit;
    hide NullKey;
    hide H.IsRecord;
  }

  lemma KeyedMoveLands(spec: TableSpec, emb: Option<Embedder>, parse: Parser, m: Machine, move: Move)
    requires Apply(spec, emb, parse, m, move).Some? && !move.CrashInLanding? && AllLanded(spec, m.sink)
    requires Keyed(spec, Written(spec, emb, parse, m, move))
    ensures AllLanded(spec, Apply(spec, emb, parse, m, move).value.sink)
  {
    var recs, after := Written(spec, emb, parse, m, move), Apply(spec, emb, parse, m, move).value.sink;
    MoveWrites(spec, emb, parse, m, move);
    WrittenIsNew(spec, emb, parse, m, move);
    hide HasPut;
    hide ReadAll;
    hide Keyed;
    match move {
      case LandBatch(ds, now) =>
        KeyedLandingLands(spec, emb, parse, m.sink, m.phase.batch.entries, ds, now);
        hide Sunk;
        hide Landing;
        forall k | HasPut(spec, after.log, k)
          ensures k in after.table
        {
          PutsAdd(spec, m.sink.log, recs, ds, now, k);
        }
      case Delete(keys, ds, now) =>
        forall k | HasPut(spec, after.log, k)
          ensures k in after.table
        {
          TombstonesAdd(spec, m.sink.log, keys, ds, now, k);
        }
      case _ =>
    }
  }

  lemma CleanIffKeyed(spec: TableSpec, sink: H.State, recs: seq<Record>)
    requires AllLanded(spec, sink) && AllNew(spec, sink.table.Keys, recs)
    ensures Clean(spec, sink.log, recs) <==> Keyed(spec, recs)
  {
    hide HasPut;
    hide Keyed;
    hide KeyOf;
  }

  lemma {:induction false} CleanRunIffKeyed(
      spec: TableSpec, emb: Option<Embedder>, parse: Parser, m: Machine, moves: seq<Move>)
    requires Run(spec, emb, parse, m, moves).Some? && AllLanded(spec, m.sink)
    requires forall i :: 0 <= i < |moves| ==> !moves[i].CrashInLanding?
    ensures CleanRun(spec, emb, parse, m, moves) <==> KeyedRun(spec, emb, parse, m, moves)
    decreases |moves|
  {
    if moves != [] {
      var recs := Written(spec, emb, parse, m, moves[0]);
      WrittenIsNew(spec, emb, parse, m, moves[0]);
      CleanIffKeyed(spec, m.sink, recs);
      if Keyed(spec, recs) {
        KeyedMoveLands(spec, emb, parse, m, moves[0]);
        hide Apply;
        hide AllLanded;
        hide Clean;
        CleanRunIffKeyed(spec, emb, parse, Apply(spec, emb, parse, m, moves[0]).value, moves[1..]);
      }
    }
  }

  lemma StartIsClean(spec: TableSpec)
    ensures Loadable(spec, START.sink.log) && AllLanded(spec, START.sink)
  {
  }

  /**
   * Crashes anywhere but inside a landing are harmless to a rebuild: without such a
   * crash the log stays loadable if and only if every landed record has a key.
   */
  lemma OnlyLandingCrashesMatter(
      spec: TableSpec, emb: Option<Embedder>, parse: Parser, moves: seq<Move>, m: Machine)
    requires Run(spec, emb, parse, START, moves) == Some(m)
    requires forall i :: 0 <= i < |moves| ==> !moves[i].CrashInLanding?
    ensures Loadable(spec, m.sink.log) <==> KeyedRun(spec, emb, parse, START, moves)
  {
    StartIsClean(spec);
    LoadableIffClean(spec, emb, parse, START, moves);
    CleanRunIffKeyed(spec, emb, parse, START, moves);
  }

  /**
   * A crash inside a landing heals the table and breaks the files: the restarted stream
   * reads the same batch again, writes a second put line for each key whose line it had
   * written, and no rebuild, however the log grows, ever succeeds again.
   */
  lemma ReplayBreaksRebuild(
      spec: TableSpec, emb: Option<Embedder>, parse: Parser, m: Machine, paths: seq<string>, readable: set<string>, room: nat,
      ds: Day, now: Time, written: nat, ds': Day, now': Time)
    requires m.phase.Idle?
    requires var batch := ReadAll(paths, map p | p in m.files && p in readable :: m.files[p], m.checkpoint, room);
             0 < written <= |Landing(spec, emb, parse, m.sink, batch.entries)|
    ensures var read: Move := ReadBatch(paths, readable, room);
            var end := Run(spec, emb, parse, m, [read, CrashInLanding(ds, now, written), read, LandBatch(ds', now')]);
            end.Some? && forall clock, later :: H.Extends(end.value.sink.log, later) ==> Rebuilt(spec, emb, clock, later) == None
  {
    var read: Move := ReadBatch(paths, readable, room);
    var moves := [read, CrashInLanding(ds, now, written), read, LandBatch(ds', now')];
    var batch := ReadAll(paths, map p | p in m.files && p in readable :: m.files[p], m.checkpoint, room);
    var recs := Landing(spec, emb, parse, m.sink, batch.entries);
    hide ReadAll;
    var m1 := m.(phase := HasRead(batch));
    var log := Files.AppendAll(m.sink.log, ds, Files.PutLines(recs[..written], ds, now));
    var m2 := m.(sink := H.State(m.sink.table, log));
    var m3 := m2.(phase := HasRead(batch));
    assert batch.entries != [];
    assert Apply(spec, emb, parse, m, moves[0]) == Some(m1);
    assert Apply(spec, emb, parse, m1, moves[1]) == Some(m2);
    assert Apply(spec, emb, parse, m2, moves[2]) == Some(m3);
    assert Apply(spec, emb, parse, m3, moves[3]).Some?;
    var m4 := Apply(spec, emb, parse, m3, moves[3]).value;
    FourMoves(spec, emb, parse, m, m1, m2, m3, m4, moves);
    assert Written(spec, emb, parse, m3, moves[3]) == recs;
    LandingIsNew(spec, emb, parse, m.sink, batch.entries);
    PutsAdd(spec, m.sink.log, recs[..written], ds, now, KeyOf(spec, recs[0]));
    assert recs[..written][0] == recs[0];
    assert KeyOf(spec, recs[0]) in Keys(spec, recs[..written]);
    assert !Clean(spec, log, recs);
    hide Landing;
    forall clock, later | H.Extends(m4.sink.log, later)
      ensures Rebuilt(spec, emb, clock, later) == None
    {
      UncleanIsForever(spec, emb, parse, m3, moves[3], clock, later);
    }
  }

  lemma UncleanIsForever(
      spec: TableSpec, emb: Option<Embedder>, parse: Parser, m: Machine, move: Move, clock: Time, later: Files.Log)
    requires Apply(spec, emb, parse, m, move).Some? && !Clean(spec, m.sink.log, Written(spec, emb, parse, m, move))
    requires H.Extends(Apply(spec, emb, parse, m, move).value.sink.log, later)
    ensures Rebuilt(spec, emb, clock, later) == None
  {
    RebuildSucceedsIffLoadable(spec, emb, clock, later);
    MoveExtends(spec, emb, parse, m, move);
    hide Apply;
    hide Rebuilt;
    hide Loadable;
    hide Clean;
    hide Written;
    if Loadable(spec, later) {
      LoadableShrinks(spec, Apply(spec, emb, parse, m, move).value.sink.log, later);
      LoadableShrinks(spec, m.sink.log, Apply(spec, emb, parse, m, move).value.sink.log);
      MoveKeepsLoadableIff(spec, emb, parse, m, move);
    }
  }

  lemma FourMoves(
      spec: TableSpec, emb: Option<Embedder>, parse: Parser, m0: Machine, m1: Machine, m2: Machine, m3: Machine, m4: Machine,
      moves: seq<Move>)
    requires |moves| == 4
    requires Apply(spec, emb, parse, m0, moves[0]) == Some(m1) && Apply(spec, emb, parse, m1, moves[1]) == Some(m2)
    requires Apply(spec, emb, parse, m2, moves[2]) == Some(m3) && Apply(spec, emb, parse, m3, moves[3]) == Some(m4)
    ensures Run(spec, emb, parse, m0, moves) == Some(m4)
  {
    hide Apply;
    assert moves[1..][0] == moves[1] && moves[1..][1..] == moves[2..];
    assert moves[2..][0] == moves[2] && moves[2..][1..] == moves[3..];
    assert moves[3..][0] == moves[3] && moves[3..][1..] == [];
    assert Run(spec, emb, parse, m4, []) == Some(m4);
    assert Run(spec, emb, parse, m3, moves[3..]) == Some(m4);
    assert Run(spec, emb, parse, m2, moves[2..]) == Some(m4);
  }
}
