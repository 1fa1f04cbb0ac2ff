/**
 * Delivery over whole runs: at-least-once reading and an idempotent sink make the
 * stream effectively exactly-once.
 */
module StreamMachine {
  import opened Prelude
  import opened Embedding
  import opened Store
  import opened StreamReader
  import opened Stream
  import Files
  import H = History

  datatype Phase = Idle | HasRead(batch: Batch) | HasLanded(batch: Batch)

  /** The followed files, the checkpoint file, the sink's tiers, and the batch in flight. */
  datatype Machine = Machine(files: map<string, Bytes>, checkpoint: map<string, nat>, sink: H.State, phase: Phase)

  datatype Move =
    | Append(path: string, more: Bytes)                                         // the outside world writes
    | ReadBatch(paths: seq<string>, readable: set<string>, room: nat)
    | LandBatch(ds: Day, now: Time)
    | CrashInLanding(ds: Day, now: Time, written: nat)                          // after `written` put lines
    | CommitCheckpoint
    | Delete(keys: seq<Key>, ds: Day, now: Time)                                // a client deletes rows
    | Crash                                                                     // or the stream dies, and restarts

  function Apply(spec: TableSpec, emb: Option<Embedder>, parse: Parser, m: Machine, move: Move): Option<Machine> {
    match move
    case Append(path, more) => Some(m.(files := m.files[path := File(m.files, path) + more]))
    case ReadBatch(paths, readable, room) =>
      if !m.phase.Idle? then None else
        var batch := ReadAll(paths, map p | p in m.files && p in readable :: m.files[p], m.checkpoint, room);
        Some(if batch.entries == [] then m else m.(phase := HasRead(batch)))
    case LandBatch(ds, now) =>
      if !m.phase.HasRead? then None else
        (match Sunk(spec, emb, parse, m.sink, m.phase.batch.entries, ds, now)
         case (false, sink) => Some(m.(sink := sink, phase := Idle))
         case (true, sink) => Some(m.(sink := sink, phase := HasLanded(m.phase.batch))))
    case CrashInLanding(ds, now, written) =>
      if !m.phase.HasRead? then None else
        var recs := Landing(spec, emb, parse, m.sink, m.phase.batch.entries);
        if written > |recs| then None
        else Some(m.(sink := H.State(m.sink.table, Files.AppendAll(m.sink.log, ds, Files.PutLines(recs[..written], ds, now))), phase := Idle))
    case CommitCheckpoint =>
      if !m.phase.HasLanded? then None
      else Some(m.(checkpoint := m.checkpoint + m.phase.batch.offsets, phase := Idle))
    case Delete(keys, ds, now) => Some(m.(sink := H.Bury(m.sink, keys, ds, now)))
    case Crash => Some(m.(phase := Idle))
  }

  /** `_land`: parse the lines, insert with skip-existing. `false` when an error ends
      the stream. */
  function Sunk(
      spec: TableSpec, emb: Option<Embedder>, parse: Parser, sink: H.State, entries: seq<Entry>, ds: Day, now: Time)
    : (bool, H.State)
  {
    match RecordsOf(spec, parse, entries)
    case Err(_) => (false, sink)
    case Ok(recs) =>
      var (out, after) := H.Land(spec, emb, sink, NewRecords(spec, sink.table.Keys, recs), ds, now);
      (out.Inserted?, after)
  }

  /** The records whose put lines the sink writes for these entries; none when parsing
      or embedding fails first. */
  function Landing(spec: TableSpec, emb: Option<Embedder>, parse: Parser, sink: H.State, entries: seq<Entry>): seq<Record> {
    match RecordsOf(spec, parse, entries)
    case Err(_) => []
    case Ok(all) =>
      var recs := NewRecords(spec, sink.table.Keys, all);
      if exists i :: 0 <= i < |recs| && !Embeddable(emb, spec, recs[i]) then [] else recs
  }

  function Run(spec: TableSpec, emb: Option<Embedder>, parse: Parser, m: Machine, moves: seq<Move>): Option<Machine>
    decreases |moves|
  {
    if moves == [] then Some(m)
    else match Apply(spec, emb, parse, m, moves[0])
      case None => None
      case Some(next) => Run(spec, emb, parse, next, moves[1..])
  }

  predicate Proper(moves: seq<Move>) {
    forall i :: 0 <= i < |moves| ==> moves[i].ReadBatch? ==> DistinctPaths(moves[i].paths)
  }

  const START := Machine(map[], map[], H.EMPTY, Idle)

  // ------------------------------------------------------- the invariant

  /** The table is the first row of each key of the history. */
  ghost predicate HoldsHistory(spec: TableSpec, parse: Parser, table: Table, history: seq<Entry>) {
    && RecordsOf(spec, parse, history).Ok?
    && Contents(table) == FirstPerKey(spec, RecordsOf(spec, parse, history).value)
  }

  /** The history has reached offset `offset` of the file. */
  predicate Reached(content: Bytes, offset: nat, history: seq<Entry>, p: string) {
    offset <= |content| && |Text(content[..offset])| <= |Project(history, p)|
  }

  ghost predicate PhaseOk(m: Machine, history: seq<Entry>) {
    match m.phase
    case Idle => true
    case HasRead(batch) => BatchOk(m.files, m.checkpoint, batch)
    case HasLanded(batch) =>
      BatchOk(m.files, m.checkpoint, batch) &&
      forall p :: Reached(File(m.files, p), NewOffset(m.checkpoint, batch, p), history, p)
  }

  ghost predicate Inv(spec: TableSpec, parse: Parser, m: Machine, history: seq<Entry>) {
    && OffsetsOk(m.files, m.checkpoint)
    && Interleaves(history, m.files)
    && (forall p :: Reached(File(m.files, p), Offset(m.checkpoint, p), history, p))
    && HoldsHistory(spec, parse, m.sink.table, history)
    && PhaseOk(m, history)
  }

  // ------------------------------------------------ each move keeps it

  lemma BoundaryGrows(content: Bytes, more: Bytes, offset: nat)
    requires Boundary(content, offset)
    ensures Boundary(content + more, offset) && (content + more)[..offset] == content[..offset]
  {
    assert (content + more)[..offset] == content[..offset];
  }

  lemma AppendKeepsAt(
      files: map<string, Bytes>, path: string, more: Bytes, offsets: map<string, nat>, history: seq<Entry>, p: string)
    requires OffsetsOk(files, offsets) && Interleaves(history, files)
    ensures var after := files[path := File(files, path) + more];
            && Boundary(File(after, p), Offset(offsets, p))
            && Project(history, p) <= Text(File(after, p))
            && (forall o: nat :: o <= |File(files, p)| ==> o <= |File(after, p)| && File(after, p)[..o] == File(files, p)[..o])
  {
    hide Text;
    assert Boundary(File(files, p), Offset(offsets, p));
    assert Project(history, p) <= Text(File(files, p));
    if p == path {
      BoundaryGrows(File(files, p), more, Offset(offsets, p));
      TextGrows(File(files, p), more);
      forall o: nat | o <= |File(files, p)|
        ensures (File(files, p) + more)[..o] == File(files, p)[..o]
      {
      }
    }
  }

  lemma AppendKeepsInv(spec: TableSpec, parse: Parser, m: Machine, history: seq<Entry>, path: string, more: Bytes)
    requires Inv(spec, parse, m, history)
    ensures Inv(spec, parse, m.(files := m.files[path := File(m.files, path) + more]), history)
  {
    hide Text;
    hide Project;
    hide HoldsHistory;
    hide Whole;
    var after := m.files[path := File(m.files, path) + more];
    forall p
      ensures Boundary(File(after, p), Offset(m.checkpoint, p)) && Project(history, p) <= Text(File(after, p))
      ensures Reached(File(after, p), Offset(m.checkpoint, p), history, p)
    {
      assert Reached(File(m.files, p), Offset(m.checkpoint, p), history, p);
      AppendKeepsAt(m.files, path, more, m.checkpoint, history, p);
    }
    if !m.phase.Idle? {
      var batch := m.phase.batch;
      forall p
        ensures BatchOkAt(File(after, p), Offset(m.checkpoint, p), NewOffset(m.checkpoint, batch, p), Project(batch.entries, p))
        ensures m.phase.HasLanded? ==> Reached(File(after, p), NewOffset(m.checkpoint, batch, p), history, p)
      {
        assert BatchOkAt(File(m.files, p), Offset(m.checkpoint, p), NewOffset(m.checkpoint, batch, p), Project(batch.entries, p));
        AppendKeepsAt(m.files, path, more, m.checkpoint, history, p);
        assert m.phase.HasLanded? ==> Reached(File(m.files, p), NewOffset(m.checkpoint, batch, p), history, p);
      }
    }
  }

  lemma ReadKeepsInv(
      spec: TableSpec, parse: Parser, m: Machine, history: seq<Entry>, paths: seq<string>, readable: set<string>, room: nat)
    requires Inv(spec, parse, m, history) && DistinctPaths(paths)
    ensures var files := map p | p in m.files && p in readable :: m.files[p];
            BatchOk(m.files, m.checkpoint, ReadAll(paths, files, m.checkpoint, room))
  {
    hide Text;
    hide Project;
    hide Whole;
    var files := map p | p in m.files && p in readable :: m.files[p];
    var batch := ReadAll(paths, files, m.checkpoint, room);
    hide ReadAll;
    forall p
      ensures BatchOkAt(File(m.files, p), Offset(m.checkpoint, p), NewOffset(m.checkpoint, batch, p), Project(batch.entries, p))
    {
      ReadAgain(m.files, readable, m.checkpoint, paths, room, p);
    }
  }

  /** What is read of a file does not depend on which other files are readable, and of
      an unreadable file nothing is read. */
  lemma ReadAgain(
      files: map<string, Bytes>, readable: set<string>, offsets: map<string, nat>, paths: seq<string>, room: nat, p: string)
    requires OffsetsOk(files, offsets) && DistinctPaths(paths)
    ensures var some := map q | q in files && q in readable :: files[q];
            var batch := ReadAll(paths, some, offsets, room);
            BatchOkAt(File(files, p), Offset(offsets, p), NewOffset(offsets, batch, p), Project(batch.entries, p))
  {
    hide Text;
    var some := map q | q in files && q in readable :: files[q];
    assert Boundary(File(files, p), Offset(offsets, p));
    if p in some {
      ReadSome(files, readable, offsets, paths, room, p);
    } else {
      UnreadableIsSkipped(paths, some, offsets, room, p);
      var text := Text(File(files, p)[..Offset(offsets, p)]);
      assert text + [] == text;
    }
  }

  lemma ReadFileTags(path: string, content: Bytes, start: nat, room: nat)
    ensures forall i :: 0 <= i < |ReadFile(path, content, start, room).entries| ==>
      ReadFile(path, content, start, room).entries[i].path == path
    ensures ReadFile(path, content, start, room).offsets.Keys <= {path}
  {
  }

  lemma UnreadableBehind(head: Batch, tail: Batch, path: string, p: string)
    requires p != path && head.offsets.Keys <= {path} && forall i :: 0 <= i < |head.entries| ==> head.entries[i].path == path
    requires p !in tail.offsets && Project(tail.entries, p) == []
    ensures p !in head.offsets + tail.offsets && Project(head.entries + tail.entries, p) == []
  {
    ProjectConcat(head.entries, tail.entries, p);
    ProjectSame(head.entries, path, p);
  }

  lemma ReadAllCases(paths: seq<string>, files: map<string, Bytes>, offsets: map<string, nat>, room: nat)
    returns (head: Batch, left: nat)
    ensures paths == [] || room == 0 ==> ReadAll(paths, files, offsets, room) == Batch([], map[])
    ensures paths != [] && room > 0 && paths[0] !in files ==>
      ReadAll(paths, files, offsets, room) == ReadAll(paths[1..], files, offsets, room)
    ensures paths != [] && room > 0 && paths[0] in files ==>
      && head.offsets.Keys <= {paths[0]} && (forall i :: 0 <= i < |head.entries| ==> head.entries[i].path == paths[0])
      && var tail := ReadAll(paths[1..], files, offsets, left);
         ReadAll(paths, files, offsets, room) == Batch(head.entries + tail.entries, head.offsets + tail.offsets)
  {
    head, left := Batch([], map[]), 0;
    if paths != [] && room > 0 && paths[0] in files {
      head := ReadFile(paths[0], files[paths[0]], Offset(offsets, paths[0]), room);
      ReadFileTags(paths[0], files[paths[0]], Offset(offsets, paths[0]), room);
      hide ReadFile;
      left := if |head.entries| <= room then room - |head.entries| else 0;
    }
  }

  lemma {:induction false} UnreadableIsSkipped(
      paths: seq<string>, files: map<string, Bytes>, offsets: map<string, nat>, room: nat, p: string)
    requires p !in files
    ensures var batch := ReadAll(paths, files, offsets, room); p !in batch.offsets && Project(batch.entries, p) == []
    decreases |paths|
  {
    var head, left := ReadAllCases(paths, files, offsets, room);
    assert Project([], p) == [];
    hide *;
    if paths != [] && room > 0 {
      if paths[0] in files {
        UnreadableIsSkipped(paths[1..], files, offsets, left, p);
        UnreadableBehind(head, ReadAll(paths[1..], files, offsets, left), paths[0], p);
      } else {
        UnreadableIsSkipped(paths[1..], files, offsets, room, p);
      }
    }
  }

  /** Offsets of unreadable files do not matter to a read. */
  lemma ReadSome(
      files: map<string, Bytes>, readable: set<string>, offsets: map<string, nat>, paths: seq<string>, room: nat, p: string)
    requires OffsetsOk(files, offsets) && DistinctPaths(paths) && p in files && p in readable
    ensures var some := map q | q in files && q in readable :: files[q];
            var batch := ReadAll(paths, some, offsets, room);
            BatchOkAt(File(files, p), Offset(offsets, p), NewOffset(offsets, batch, p), Project(batch.entries, p))
  {
    hide Text;
    hide Whole;
    var some := map q | q in files && q in readable :: files[q];
    var known := map q | q in offsets && q in some :: offsets[q];
    forall q
      ensures Boundary(File(some, q), Offset(known, q))
    {
      assert Boundary(File(files, q), Offset(offsets, q));
      EmptyIsWhole();
      var none: Bytes := []; assert none[..0] == [];
    }
    SameOffsets(paths, some, offsets, known, room);
    ReadAllMeans(paths, some, known, room, p);
  }

  lemma EmptyIsWhole()
    ensures Whole([])
  {
  }

  lemma {:induction false} SameOffsets(
      paths: seq<string>, files: map<string, Bytes>, a: map<string, nat>, b: map<string, nat>, room: nat)
    requires forall q :: q in files ==> Offset(a, q) == Offset(b, q)
    ensures ReadAll(paths, files, a, room) == ReadAll(paths, files, b, room)
    decreases |paths|
  {
    if paths != [] && room > 0 {
      var path := paths[0];
      if path in files {
        var head := ReadFile(path, files[path], Offset(a, path), room);
        SameOffsets(paths[1..], files, a, b, if |head.entries| <= room then room - |head.entries| else 0);
      } else {
        SameOffsets(paths[1..], files, a, b, room);
      }
    }
  }

  /** How many lines of each file stand before the offsets. */
  function LinesBefore(files: map<string, Bytes>, offsets: map<string, nat>): string -> nat {
    p => LinesUpTo(File(files, p), Offset(offsets, p))
  }

  function LinesUpTo(content: Bytes, offset: nat): nat {
    if offset <= |content| then |Text(content[..offset])| else 0
  }

  /** Landing a batch, whether it was landed before a crash or not. */
  lemma LandKeepsInv(
      spec: TableSpec, emb: Option<Embedder>, parse: Parser, m: Machine, history: seq<Entry>, ds: Day, now: Time)
    returns (after: seq<Entry>)
    requires Inv(spec, parse, m, history) && m.phase.HasRead?
    ensures Inv(spec, parse, Apply(spec, emb, parse, m, LandBatch(ds, now)).value, after)
  {
    hide LinesBefore;
    hide Text;
    hide Project;
    hide RecordsOf;
    hide Reached;
    hide Boundary;
    hide BatchOkAt;
    hide Interleaves;
    var entries := m.phase.batch.entries;
    var (ok, sink) := Sunk(spec, emb, parse, m.sink, entries, ds, now);
    if !ok {
      SinkRefuses(spec, emb, parse, m.sink, entries, ds, now);
      hide Sunk;
      after := history;
    } else {
      SinkAccepts(spec, emb, parse, m.sink, entries, ds, now);
      hide Sunk;
      BatchContinues(m.files, m.checkpoint, m.phase.batch, history);
      hide Continues;
      after := Absorb(spec, parse, m.files, history, entries, LinesBefore(m.files, m.checkpoint));
      hide FirstPerKey;
      hide AddAbsent;
      AllLanded(m, after);
      LandedInv(spec, parse, m, sink, history, after);
    }
  }

  lemma AllLanded(m: Machine, after: seq<Entry>)
    requires m.phase.HasRead? && OffsetsOk(m.files, m.checkpoint)
    requires forall p :: LinesBefore(m.files, m.checkpoint)(p) + |Project(m.phase.batch.entries, p)| <= |Project(after, p)|
    ensures forall p :: LandedAt(m, after, p)
  {
    hide Text;
    hide Project;
    hide Whole;
    forall p
      ensures LandedAt(m, after, p)
    {
      assert Boundary(File(m.files, p), Offset(m.checkpoint, p));
      assert LinesBefore(m.files, m.checkpoint)(p) + |Project(m.phase.batch.entries, p)| <= |Project(after, p)|;
    }
  }

  lemma LandedInv(
      spec: TableSpec, parse: Parser, m: Machine, sink: H.State, history: seq<Entry>, after: seq<Entry>)
    requires Inv(spec, parse, m, history) && m.phase.HasRead?
    requires Interleaves(after, m.files) && HoldsHistory(spec, parse, sink.table, after)
    requires forall p :: Project(history, p) <= Project(after, p)
    requires forall p :: LandedAt(m, after, p)
    ensures Inv(spec, parse, m.(sink := sink, phase := HasLanded(m.phase.batch)), after)
  {
    hide Text;
    hide Project;
    hide HoldsHistory;
    hide Interleaves;
    hide Whole;
    var batch := m.phase.batch;
    forall p
      ensures Reached(File(m.files, p), Offset(m.checkpoint, p), after, p)
      ensures Reached(File(m.files, p), NewOffset(m.checkpoint, batch, p), after, p)
    {
      assert Reached(File(m.files, p), Offset(m.checkpoint, p), history, p);
      assert BatchOkAt(File(m.files, p), Offset(m.checkpoint, p), NewOffset(m.checkpoint, batch, p), Project(batch.entries, p));
      assert Project(history, p) <= Project(after, p);
      assert LandedAt(m, after, p);
    }
  }

  ghost predicate LandedAt(m: Machine, after: seq<Entry>, p: string)
    requires m.phase.HasRead?
  {
    Offset(m.checkpoint, p) <= |File(m.files, p)| &&
    |Text(File(m.files, p)[..Offset(m.checkpoint, p)])| + |Project(m.phase.batch.entries, p)| <= |Project(after, p)|
  }

  /** A batch read from the checkpoint continues the history. */
  lemma BatchContinues(files: map<string, Bytes>, offsets: map<string, nat>, batch: Batch, history: seq<Entry>)
    requires BatchOk(files, offsets, batch) && Interleaves(history, files)
    requires forall p :: Reached(File(files, p), Offset(offsets, p), history, p)
    ensures Continues(batch.entries, LinesBefore(files, offsets), history, files)
  {
    var from := LinesBefore(files, offsets);
    hide Text;
    hide Project;
    forall p
      ensures from(p) <= |Project(history, p)|
      ensures Segment(Project(batch.entries, p), from(p), Text(File(files, p)))
    {
      assert Reached(File(files, p), Offset(offsets, p), history, p);
      assert BatchOkAt(File(files, p), Offset(offsets, p), NewOffset(offsets, batch, p), Project(batch.entries, p));
      SegmentOfText(File(files, p), Offset(offsets, p), NewOffset(offsets, batch, p), Project(batch.entries, p));
    }
  }

  lemma SegmentOfText(content: Bytes, start: nat, end: nat, lines: seq<Bytes>)
    requires BatchOkAt(content, start, end, lines)
    ensures Segment(lines, |Text(content[..start])|, Text(content))
  {
    assert content == content[..end] + content[end..];
    TextConcat(content[..end], content[end..]);
    hide Text;
    var a, b := Text(content[..start]), Text(content[end..]);
    assert Text(content) == a + lines + b;
  }

  lemma AllKnown<T>(s: set<T>, t: set<T>)
    requires s - t == {}
    ensures s <= t
  {
    forall x | x in s
      ensures x in t
    {
      assert x in s - t || x in t;
    }
  }

  lemma SinkAccepts(
      spec: TableSpec, emb: Option<Embedder>, parse: Parser, sink: H.State, entries: seq<Entry>, ds: Day, now: Time)
    requires Sunk(spec, emb, parse, sink, entries, ds, now).0
    ensures RecordsOf(spec, parse, entries).Ok?
    ensures Contents(Sunk(spec, emb, parse, sink, entries, ds, now).1.table) ==
            AddAbsent(spec, Contents(sink.table), RecordsOf(spec, parse, entries).value)
  {
    hide RecordsOf;
    var recs := RecordsOf(spec, parse, entries).value;
    var added := NewRecords(spec, sink.table.Keys, recs);
    NewRecordsAreNew(spec, sink.table.Keys, recs);
    assert Contents(sink.table).Keys == sink.table.Keys;
    if added == [] {
      assert Keys(spec, added) == {};
      AllKnown(Keys(spec, recs), sink.table.Keys);
      AddAbsentNothing(spec, Contents(sink.table), recs);
    } else {
      SinkAddsAbsent(spec, sink.table, recs, H.IndexAll(emb, spec, added), ds, now);
    }
  }

  lemma SinkRefuses(
      spec: TableSpec, emb: Option<Embedder>, parse: Parser, sink: H.State, entries: seq<Entry>, ds: Day, now: Time)
    requires !Sunk(spec, emb, parse, sink, entries, ds, now).0
    ensures Sunk(spec, emb, parse, sink, entries, ds, now).1.table == sink.table
  {
  }

  lemma CheckpointKeepsInv(spec: TableSpec, parse: Parser, m: Machine, history: seq<Entry>)
    requires Inv(spec, parse, m, history) && m.phase.HasLanded?
    ensures Inv(spec, parse, m.(checkpoint := m.checkpoint + m.phase.batch.offsets, phase := Idle), history)
  {
    hide Text;
    hide Project;
    hide HoldsHistory;
    hide Whole;
    var batch := m.phase.batch;
    forall p
      ensures Boundary(File(m.files, p), Offset(m.checkpoint + batch.offsets, p))
      ensures Reached(File(m.files, p), Offset(m.checkpoint + batch.offsets, p), history, p)
    {
      assert Offset(m.checkpoint + batch.offsets, p) == NewOffset(m.checkpoint, batch, p);
      assert BatchOkAt(File(m.files, p), Offset(m.checkpoint, p), NewOffset(m.checkpoint, batch, p), Project(batch.entries, p));
      assert Reached(File(m.files, p), NewOffset(m.checkpoint, batch, p), history, p);
    }
  }

  lemma MoveKeepsInv(
      spec: TableSpec, emb: Option<Embedder>, parse: Parser, m: Machine, history: seq<Entry>, move: Move)
    returns (after: seq<Entry>)
    requires Inv(spec, parse, m, history) && Proper([move]) && Apply(spec, emb, parse, m, move).Some?
    ensures Inv(spec, parse, Apply(spec, emb, parse, m, move).value, after)
  {
    after := history;
    assert [move][0] == move;
    match move {
      case Append(path, more) =>
        AppendKeepsInv(spec, parse, m, history, path, more);
      case ReadBatch(paths, readable, room) =>
        ReadKeepsInv(spec, parse, m, history, paths, readable, room);
        hide ReadAll;
        hide OffsetsOk;
        hide Interleaves;
        hide Reached;
        hide HoldsHistory;
        hide BatchOk;
      case LandBatch(ds, now) =>
        after := LandKeepsInv(spec, emb, parse, m, history, ds, now);
      case CommitCheckpoint =>
        CheckpointKeepsInv(spec, parse, m, history);
      case CrashInLanding(_, _, _) =>
        hide Landing;
        hide OffsetsOk;
        hide Interleaves;
        hide Reached;
        hide HoldsHistory;
        hide BatchOk;
      case Delete(keys, ds, now) =>
        assert Contents(H.Bury(m.sink, keys, ds, now).table) == Contents(m.sink.table);
      case Crash =>
    }
  }

  lemma {:induction false} RunKeepsInv(
      spec: TableSpec, emb: Option<Embedder>, parse: Parser, m: Machine, history: seq<Entry>, moves: seq<Move>)
    returns (after: seq<Entry>)
    requires Inv(spec, parse, m, history) && Proper(moves) && Run(spec, emb, parse, m, moves).Some?
    ensures Inv(spec, parse, Run(spec, emb, parse, m, moves).value, after)
    decreases |moves|
  {
    after := history;
    if moves != [] {
      assert [moves[0]][0] == moves[0];
      hide Inv;
      hide Apply;
      after := MoveKeepsInv(spec, emb, parse, m, history, moves[0]);
      after := RunKeepsInv(spec, emb, parse, Apply(spec, emb, parse, m, moves[0]).value, after, moves[1..]);
    }
  }

  lemma StartInv(spec: TableSpec, parse: Parser)
    ensures Inv(spec, parse, START, [])
  {
    EmptyIsWhole();
    var none: Bytes := []; assert none[..0] == [];
    assert Text([]) == [] by {
      assert Lines([]) == [];
    }
  }

  /**
   * Effectively exactly-once. Over any interleaving of appends to any number of files,
   * reads, landings, checkpoints, deletes and crashes, between the steps of a turn or
   * inside a landing, there is one history that
   * interleaves, for every file, a prefix of its lines reaching at least to the
   * checkpoint, and the table, deletion marks aside, is the first row of each key of
   * that history.
   */
  lemma EffectivelyExactlyOnce(
      spec: TableSpec, emb: Option<Embedder>, parse: Parser, moves: seq<Move>, m: Machine)
    requires Run(spec, emb, parse, START, moves) == Some(m) && Proper(moves)
    ensures exists history ::
      && Interleaves(history, m.files)
      && HoldsHistory(spec, parse, m.sink.table, history)
      && forall p :: Boundary(File(m.files, p), Offset(m.checkpoint, p)) &&
           Reached(File(m.files, p), Offset(m.checkpoint, p), history, p)
  {
    StartInv(spec, parse);
    var history := RunKeepsInv(spec, emb, parse, START, [], moves);
    hide Run;
    hide Interleaves;
    hide HoldsHistory;
    hide Boundary;
    hide Reached;
  }

  /** With one file, the history is a prefix of its lines. */
  lemma {:induction false} OneFileHistory(history: seq<Entry>, path: string)
    requires forall p :: p != path ==> Project(history, p) == []
    ensures history == Tag(path, Project(history, path))
  {
    if history != [] {
      var e := history[0];
      assert e.path == path by {
        assert Project(history, e.path) != [];
      }
      forall p | p != path
        ensures Project(history[1..], p) == []
      {
        assert Project(history, p) == [];
      }
      OneFileHistory(history[1..], path);
      assert history == [e] + history[1..];
    }
  }

  /** What the table of a stream over one file holds after `n` lines. */
  function AfterLines(spec: TableSpec, parse: Parser, path: string, lines: seq<Bytes>): Result<map<Key, Record>> {
    match RecordsOf(spec, parse, Tag(path, lines))
    case Err(reason) => Err(reason)
    case Ok(recs) => Ok(FirstPerKey(spec, recs))
  }

  /**
   * For one file: whatever crashed, the table is the first row of each key of the
   * first `n` lines, and `n` is at or past the checkpoint.
   */
  lemma OneFileExactlyOnce(
      spec: TableSpec, emb: Option<Embedder>, parse: Parser, moves: seq<Move>, m: Machine, path: string)
    returns (n: nat)
    requires Run(spec, emb, parse, START, moves) == Some(m) && Proper(moves) && m.files.Keys <= {path}
    ensures Boundary(File(m.files, path), Offset(m.checkpoint, path))
    ensures |Text(File(m.files, path)[..Offset(m.checkpoint, path)])| <= n <= |Text(File(m.files, path))|
    ensures AfterLines(spec, parse, path, Text(File(m.files, path))[..n]) == Ok(Contents(m.sink.table))
  {
    StartInv(spec, parse);
    var history := RunKeepsInv(spec, emb, parse, START, [], moves);
    hide Run;
    hide Project;
    hide RecordsOf;
    hide FirstPerKey;
    hide Contents;
    forall p | p != path
      ensures Project(history, p) == []
    {
      assert Project(history, p) <= Text(File(m.files, p));
      assert Text([]) == [] by {
        assert Lines([]) == [];
      }
    }
    hide Text;
    OneFileHistory(history, path);
    n := |Project(history, path)|;
    assert Project(history, path) <= Text(File(m.files, path));
    assert Project(history, path) == Text(File(m.files, path))[..n];
    assert Boundary(File(m.files, path), Offset(m.checkpoint, path));
    assert Reached(File(m.files, path), Offset(m.checkpoint, path), history, path);
  }

  /** Nothing but blank lines and a half-written tail stands past the checkpoint. */
  predicate CaughtUp(content: Bytes, offset: nat) {
    offset <= |content| && Text(content[offset..]) == []
  }

  lemma CaughtUpLines(content: Bytes, offset: nat)
    requires Boundary(content, offset) && CaughtUp(content, offset)
    ensures |Text(content[..offset])| == |Text(content)|
  {
    assert content == content[..offset] + content[offset..];
    TextConcat(content[..offset], content[offset..]);
  }

  /**
   * Crashes do not matter: two streams over the same file that have caught up with it
   * hold the same rows, whatever happened to either on the way.
   */
  lemma CrashesDoNotMatter(
      spec: TableSpec, emb: Option<Embedder>, parse: Parser, path: string,
      moves: seq<Move>, m: Machine, moves': seq<Move>, m': Machine)
    requires Run(spec, emb, parse, START, moves) == Some(m) && Proper(moves)
    requires Run(spec, emb, parse, START, moves') == Some(m') && Proper(moves')
    requires m.files == m'.files && m.files.Keys <= {path}
    requires CaughtUp(File(m.files, path), Offset(m.checkpoint, path))
    requires CaughtUp(File(m.files, path), Offset(m'.checkpoint, path))
    ensures Contents(m.sink.table) == Contents(m'.sink.table)
  {
    var n := OneFileExactlyOnce(spec, emb, parse, moves, m, path);
    var n' := OneFileExactlyOnce(spec, emb, parse, moves', m', path);
    CaughtUpLines(File(m.files, path), Offset(m.checkpoint, path));
    CaughtUpLines(File(m.files, path), Offset(m'.checkpoint, path));
    hide Run;
    hide Text;
    hide AfterLines;
    hide Contents;
  }

  // ------------------------------------------------- rows and marks are for ever

  /** The row is still there, and if it was deleted, it is as it was. */
  predicate Kept(row: StoredRow, after: Table, k: Key) {
    && k in after && after[k].rec == row.rec
    && (!Live(row) ==> after[k] == row)
  }

  lemma MoveGrows(spec: TableSpec, emb: Option<Embedder>, parse: Parser, m: Machine, move: Move)
    requires Apply(spec, emb, parse, m, move).Some?
    ensures var after := Apply(spec, emb, parse, m, move).value;
            forall k :: k in m.sink.table ==> Kept(m.sink.table[k], after.sink.table, k)
  {
    hide ReadAll;
    match move {
      case LandBatch(ds, now) =>
        if m.phase.HasRead? && RecordsOf(spec, parse, m.phase.batch.entries).Ok? {
          var recs := RecordsOf(spec, parse, m.phase.batch.entries).value;
          hide RecordsOf;
          H.LandGrows(spec, emb, m.sink, NewRecords(spec, m.sink.table.Keys, recs), ds, now);
          hide H.Land;
          hide NewRecords;
        }
      case CrashInLanding(_, _, _) =>
        hide Landing;
      case _ =>
    }
  }

  /** A replay never changes a row and never revives a deleted one. */
  lemma {:induction false} RowsAreForever(
      spec: TableSpec, emb: Option<Embedder>, parse: Parser, m: Machine, moves: seq<Move>, k: Key)
    requires Run(spec, emb, parse, m, moves).Some? && k in m.sink.table
    ensures Kept(m.sink.table[k], Run(spec, emb, parse, m, moves).value.sink.table, k)
    decreases |moves|
  {
    if moves != [] {
      MoveGrows(spec, emb, parse, m, moves[0]);
      hide Apply;
      RowsAreForever(spec, emb, parse, Apply(spec, emb, parse, m, moves[0]).value, moves[1..], k);
    }
  }

  // ------------------------------------------------------------- progress

  /** The bytes of complete lines that the checkpoint has not passed, over `paths`. */
  function Unread(paths: seq<string>, files: map<string, Bytes>, offsets: map<string, nat>): nat {
    if paths == [] then 0
    else
      var all, o := |Concat(Lines(File(files, paths[0])))|, Offset(offsets, paths[0]);
      (if o <= all then all - o else 0) + Unread(paths[1..], files, offsets)
  }

  lemma BoundaryWithinLines(content: Bytes, offset: nat)
    requires Boundary(content, offset)
    ensures offset <= |Concat(Lines(content))|
  {
    assert content == content[..offset] + content[offset..];
    LinesConcat(content[..offset], content[offset..]);
    hide Lines;
    ConcatConcat(Lines(content[..offset]), Lines(content[offset..]));
  }

  lemma {:induction false} UnreadShrinks(
      paths: seq<string>, files: map<string, Bytes>, offsets: map<string, nat>, later: map<string, nat>)
    requires forall p :: Offset(offsets, p) <= Offset(later, p) && Boundary(File(files, p), Offset(later, p))
    ensures Unread(paths, files, later) <= Unread(paths, files, offsets)
    ensures (exists p :: p in paths && Offset(offsets, p) < Offset(later, p)) ==>
      Unread(paths, files, later) < Unread(paths, files, offsets)
  {
    if paths != [] {
      UnreadShrinks(paths[1..], files, offsets, later);
      assert Boundary(File(files, paths[0]), Offset(later, paths[0]));
      BoundaryWithinLines(File(files, paths[0]), Offset(later, paths[0]));
    }
  }

  lemma LinesMoveOn(content: Bytes, start: nat, end: nat, lines: seq<Bytes>)
    requires BatchOkAt(content, start, end, lines) && lines != []
    ensures start < end
  {
    hide Text;
    var text := Text(content[..start]);
    assert |text + lines| == |text| + |lines|;
  }

  lemma ProjectOfSome(entries: seq<Entry>)
    requires entries != []
    ensures Project(entries, entries[0].path) != []
  {
  }

  /**
   * Progress. As long as nothing is appended, a read that finds lines moves the
   * checkpoint on, over complete lines only, so the unread bytes strictly shrink; a
   * read that finds none, with every file readable, leaves no non-blank complete line
   * unread.
   */
  lemma ReadsMakeProgress(paths: seq<string>, files: map<string, Bytes>, offsets: map<string, nat>, room: nat)
    requires DistinctPaths(paths) && OffsetsOk(files, offsets) && room > 0
    ensures var batch := ReadAll(paths, files, offsets, room);
            var later := offsets + batch.offsets;
            && OffsetsOk(files, later)
            && (forall p :: Offset(offsets, p) <= Offset(later, p))
            && (batch.entries != [] ==> Unread(paths, files, later) < Unread(paths, files, offsets))
            && (batch.entries == [] ==> forall p :: p in paths && p in files ==>
                  Text(File(files, p)[Offset(later, p)..]) == [])
  {
    hide Text;
    hide Project;
    hide Whole;
    var batch := ReadAll(paths, files, offsets, room);
    var later := offsets + batch.offsets;
    forall p
      ensures ReadOkAt(paths, files, offsets, room, batch, p)
      ensures Offset(later, p) == NewOffset(offsets, batch, p)
      ensures Offset(offsets, p) <= Offset(later, p) && Boundary(File(files, p), Offset(later, p))
    {
      ReadAllMeans(paths, files, offsets, room, p);
    }
    hide ReadAll;
    UnreadShrinks(paths, files, offsets, later);
    if batch.entries != [] {
      var p := batch.entries[0].path;
      ProjectOfSome(batch.entries);
      assert ReadOkAt(paths, files, offsets, room, batch, p);
      assert BatchOkAt(File(files, p), Offset(offsets, p), NewOffset(offsets, batch, p), Project(batch.entries, p));
      LinesMoveOn(File(files, p), Offset(offsets, p), NewOffset(offsets, batch, p), Project(batch.entries, p));
      assert Offset(offsets, p) < Offset(later, p) && p in paths;
    }
  }
}
