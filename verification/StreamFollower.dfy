/**
 * The loop of a running stream, step by step, and the proof that whatever it does is
 * a run of the machine.
 */
module StreamFollower {
  import opened Prelude
  import opened Embedding
  import opened Store
  import opened StreamReader
  import opened Stream
  import opened StreamMachine
  import H = History

  // ------------------------------------------------ joined lines parse line by line

  /** Lines as the reader yields them: complete, each with its LF. */
  predicate AreLines(lines: seq<Bytes>) {
    forall i :: 0 <= i < |lines| ==> IsLine(lines[i])
  }

  /** Joining a batch and splitting it again gives back its lines. */
  lemma {:induction false} JoinedLinesSplit(lines: seq<Bytes>)
    requires AreLines(lines)
    ensures SplitLines(Concat(lines)) == lines
  {
    if lines != [] {
      var line, rest := lines[0], Concat(lines[1..]);
      JoinedLinesSplit(lines[1..]);
      FirstLineStable(line, rest);
      assert (line + rest)[..|line|] == line && (line + rest)[|line|..] == rest;
    }
  }

  lemma {:induction false} LinesAreLines(s: Bytes)
    ensures AreLines(Lines(s))
    decreases |s|
  {
    var more, line, rest := LinesCases(s);
    if more {
      LinesAreLines(rest);
    }
  }

  lemma {:induction false} NonBlankLines(raws: seq<Bytes>)
    requires AreLines(raws)
    ensures AreLines(NonBlank(raws))
  {
    if raws != [] {
      NonBlankLines(raws[..|raws| - 1]);
    }
  }

  lemma ReadFileLines(path: string, content: Bytes, start: nat, room: nat)
    ensures AreLines(LinesOf(ReadFile(path, content, start, room).entries))
  {
    var chunk := Chunk(content, start);
    var raws := SplitLines(chunk);
    LinesAreComplete(chunk);
    LinesAreLines(chunk);
    forall i | 0 <= i < TakeCount(raws, room)
      ensures IsLine(raws[i])
    {
      assert Lines(chunk)[i] == raws[i];
    }
    NonBlankLines(raws[..TakeCount(raws, room)]);
  }

  lemma {:induction false} ReadAllLines(paths: seq<string>, files: map<string, Bytes>, offsets: map<string, nat>, room: nat)
    ensures AreLines(LinesOf(ReadAll(paths, files, offsets, room).entries))
    decreases |paths|
  {
    if paths != [] && room > 0 {
      var rest := paths[1..];
      if paths[0] in files {
        ReadFileLines(paths[0], files[paths[0]], Offset(offsets, paths[0]), room);
        var head := ReadFile(paths[0], files[paths[0]], Offset(offsets, paths[0]), room);
        hide ReadFile;
        hide IsLine;
        var left := if |head.entries| <= room then room - |head.entries| else 0;
        ReadAllLines(rest, files, offsets, left);
        LinesOfConcat(head.entries, ReadAll(rest, files, offsets, left).entries);
      } else {
        ReadAllLines(rest, files, offsets, room);
      }
    }
  }

  /** Once a line fails to parse, no longer batch parses. */
  lemma {:induction false} RecordsOfStops(spec: TableSpec, parse: Parser, entries: seq<Entry>, i: nat)
    requires i < |entries| && parse(entries[i].line).Err?
    ensures RecordsOf(spec, parse, entries).Err?
    decreases |entries|
  {
    if i > 0 {
      RecordsOfStops(spec, parse, entries[1..], i - 1);
    }
  }

  lemma RecordsOfSnoc(spec: TableSpec, parse: Parser, entries: seq<Entry>, i: nat)
    requires i < |entries| && RecordsOf(spec, parse, entries[..i]).Ok? && parse(entries[i].line).Ok?
    ensures RecordsOf(spec, parse, entries[..i + 1]) ==
            Ok(RecordsOf(spec, parse, entries[..i]).value + NormalizeAll(spec, parse(entries[i].line).value))
  {
    var one := [entries[i]];
    assert one[1..] == [] && entries[..i + 1] == entries[..i] + one;
    var head := NormalizeAll(spec, parse(entries[i].line).value);
    assert RecordsOf(spec, parse, one) == Ok(head + []) && head + [] == head;
    RecordsOfConcat(spec, parse, entries[..i], one);
  }

  /** `_jsonl_to_rows` on the joined lines of a batch, with `validate`'s normalisation. */
  method ParseRows(spec: TableSpec, parse: Parser, data: Bytes, ghost entries: seq<Entry>) returns (r: Result<seq<Record>>)
    requires AreLines(LinesOf(entries)) && data == Concat(LinesOf(entries))
    ensures r.Ok? <==> RecordsOf(spec, parse, entries).Ok?
    ensures r.Ok? ==> r == RecordsOf(spec, parse, entries)
  {
    JoinedLinesSplit(LinesOf(entries));
    var lines := SplitLines(data);
    hide SplitLines;
    hide Concat;
    hide IsLine;
    var rows: seq<Record> := [];
    for i := 0 to |lines|
      invariant RecordsOf(spec, parse, entries[..i]) == Ok(rows)
    {
      var parsed := parse(lines[i]);
      if parsed.Err? {
        RecordsOfStops(spec, parse, entries, i);
        return Err(parsed.reason);
      }
      RecordsOfSnoc(spec, parse, entries, i);
      rows := rows + NormalizeAll(spec, parsed.value);
    }
    assert entries[..|entries|] == entries;
    return Ok(rows);
  }

  /** One turn of the loop over a machine at rest; `false` when the sink fails. */
  function Turned(
      spec: TableSpec, emb: Option<Embedder>, parse: Parser, m: Machine, paths: seq<string>, readable: set<string>,
      room: nat, ds: Day, now: Time)
    : (bool, Machine)
  {
    var batch := ReadAll(paths, map p | p in m.files && p in readable :: m.files[p], m.checkpoint, room);
    if batch.entries == [] then (true, m) else
      var (ok, sink) := Sunk(spec, emb, parse, m.sink, batch.entries, ds, now);
      (ok, m.(sink := sink, checkpoint := if ok then m.checkpoint + batch.offsets else m.checkpoint))
  }

  /** What the outside world does before one turn of the loop, and what the turn sees. */
  datatype Round = Round(path: string, more: Bytes, paths: seq<string>, readable: set<string>, ds: Day, now: Time)

  /** The files after what was appended before a turn, perhaps nothing. */
  function Grown(files: map<string, Bytes>, r: Round): map<string, Bytes> {
    if r.more == [] then files else files[r.path := File(files, r.path) + r.more]
  }

  function Followed(
      spec: TableSpec, emb: Option<Embedder>, parse: Parser, m: Machine, room: nat, rounds: seq<Round>): (bool, Machine)
    decreases |rounds|
  {
    if rounds == [] then (true, m) else
      var r := rounds[0];
      var (ok, next) := Turned(spec, emb, parse, m.(files := Grown(m.files, r)), r.paths, r.readable, room, r.ds, r.now);
      if ok then Followed(spec, emb, parse, next, room, rounds[1..]) else (false, next)
  }

  class StreamService {
    const spec: TableSpec
    const emb: Option<Embedder>
    const parse: Parser
    const room: nat
    var files: map<string, Bytes>
    var offsets: map<string, nat>
    var checkpoint: map<string, nat>
    var sink: H.State

    /** A start, or a restart from whatever the checkpoint file and the sink hold. */
    constructor (
        spec: TableSpec, emb: Option<Embedder>, parse: Parser, room: nat, files: map<string, Bytes>,
        checkpoint: map<string, nat>, sink: H.State)
      ensures this.spec == spec && this.emb == emb && this.parse == parse && this.room == room
      ensures State() == Machine(files, checkpoint, sink, Idle) && Valid()
    {
      this.spec, this.emb, this.parse, this.room := spec, emb, parse, room;
      this.files, this.offsets, this.checkpoint, this.sink := files, checkpoint, checkpoint, sink;
    }

    /** Between turns, the offsets in memory are the ones in the checkpoint file. */
    ghost predicate Valid()
      reads this
    {
      offsets == checkpoint
    }

    ghost function State(): Machine
      reads this
    {
      Machine(files, checkpoint, sink, Idle)
    }

    /** `_land`. */
    method Land(lines: seq<Bytes>, ghost entries: seq<Entry>, ds: Day, now: Time) returns (ok: bool)
      requires AreLines(lines) && lines == LinesOf(entries)
      modifies this`sink
      ensures (ok, sink) == Sunk(spec, emb, parse, old(sink), entries, ds, now)
    {
      var rows := ParseRows(spec, parse, Concat(lines), entries);
      if rows.Err? {
        return false;
      }
      var recs := DropExisting(spec, sink.table.Keys, rows.value);
      var (out, after) := H.Land(spec, emb, sink, recs, ds, now);
      sink := after;
      return out.Inserted?;
    }

    /** One turn of the loop: read, land, and only then move the checkpoint. */
    method Turn(paths: seq<string>, readable: set<string>, ds: Day, now: Time) returns (ok: bool, ghost moves: seq<Move>)
      requires Valid() && DistinctPaths(paths)
      modifies this`offsets, this`checkpoint, this`sink
      ensures Valid() && Proper(moves)
      ensures (ok, State()) == Turned(spec, emb, parse, old(State()), paths, readable, room, ds, now)
      ensures Run(spec, emb, parse, old(State()), moves) == Some(State())
    {
      var seen := map p | p in files && p in readable :: files[p];
      ghost var m0, batch := State(), ReadAll(paths, seen, checkpoint, room);
      var lines, batchOffsets := ReadNewLines(paths, seen, offsets, room);
      var read: Move := ReadBatch(paths, readable, room);
      RunOne(spec, emb, parse, m0, read);
      if lines == [] {
        moves := [read];
        return true, moves;
      }
      ReadAllLines(paths, seen, checkpoint, room);
      ghost var (landed, after) := Sunk(spec, emb, parse, sink, batch.entries, ds, now);
      assert Turned(spec, emb, parse, m0, paths, readable, room, ds, now) ==
             (landed, m0.(sink := after, checkpoint := if landed then m0.checkpoint + batch.offsets else m0.checkpoint));
      hide *;
      ok := Land(lines, batch.entries, ds, now);
      ghost var landing: Move := LandBatch(ds, now);
      if ok {
        offsets := offsets + batchOffsets;
        checkpoint := offsets;
      }
      moves := TurnIsRun(spec, emb, parse, m0, paths, readable, room, ds, now, ok, sink);
    }

    /** The loop of `_run`, one turn for each round, until the sink fails. The last round
        is the sweep after `stop`. */
    method Follow(rounds: seq<Round>) returns (ok: bool, ghost moves: seq<Move>)
      requires Valid() && forall i :: 0 <= i < |rounds| ==> DistinctPaths(rounds[i].paths)
      modifies this
      ensures Valid() && Proper(moves)
      ensures (ok, State()) == Followed(spec, emb, parse, old(State()), room, rounds)
      ensures Run(spec, emb, parse, old(State()), moves) == Some(State())
    {
      ok, moves := true, [];
      assert rounds[0..] == rounds;
      for i := 0 to |rounds|
        invariant Valid() && Proper(moves)
        invariant ok && Run(spec, emb, parse, old(State()), moves) == Some(State())
        invariant Followed(spec, emb, parse, old(State()), room, rounds) == Followed(spec, emb, parse, State(), room, rounds[i..])
      {
        hide Run;
        hide Apply;
        hide Turned;
        assert rounds[i..][1..] == rounds[i + 1..];
        hide DistinctPaths;
        var round := rounds[i];
        ghost var m := State();
        ghost var writes := GrownIsRun(spec, emb, parse, m, round);
        files := Grown(files, round);
        RunConcat(spec, emb, parse, old(State()), moves, writes);
        ghost var more;
        ok, more := Turn(round.paths, round.readable, round.ds, round.now);
        RunConcat(spec, emb, parse, old(State()), moves + writes, more);
        moves := moves + writes + more;
        if !ok {
          return;
        }
      }
    }
  }

  lemma RunOne(spec: TableSpec, emb: Option<Embedder>, parse: Parser, m: Machine, move: Move)
    ensures Run(spec, emb, parse, m, [move]) == Apply(spec, emb, parse, m, move)
  {
    assert [move][1..] == [];
    hide Apply;
    match Apply(spec, emb, parse, m, move) {
      case None =>
      case Some(next) => assert Run(spec, emb, parse, next, []) == Some(next);
    }
  }

  lemma GrownIsRun(spec: TableSpec, emb: Option<Embedder>, parse: Parser, m: Machine, r: Round) returns (moves: seq<Move>)
    ensures Proper(moves) && Run(spec, emb, parse, m, moves) == Some(m.(files := Grown(m.files, r)))
  {
    if r.more == [] {
      moves := [];
    } else {
      moves := [StreamMachine.Append(r.path, r.more)];
      RunOne(spec, emb, parse, m, StreamMachine.Append(r.path, r.more));
    }
  }

  lemma {:induction false} RunConcat(
      spec: TableSpec, emb: Option<Embedder>, parse: Parser, m: Machine, a: seq<Move>, b: seq<Move>)
    requires Run(spec, emb, parse, m, a).Some?
    ensures Run(spec, emb, parse, m, a + b) == Run(spec, emb, parse, Run(spec, emb, parse, m, a).value, b)
    decreases |a|
  {
    if a == [] {
      assert a + b == b;
    } else {
      assert (a + b)[1..] == a[1..] + b;
      hide Apply;
      RunConcat(spec, emb, parse, Apply(spec, emb, parse, m, a[0]).value, a[1..], b);
    }
  }

  /** A turn that has read something is a read, a landing and, if it landed, a checkpoint. */
  lemma TurnIsRun(
      spec: TableSpec, emb: Option<Embedder>, parse: Parser, m: Machine, paths: seq<string>, readable: set<string>,
      room: nat, ds: Day, now: Time, ok: bool, sink: H.State)
    returns (moves: seq<Move>)
    requires m.phase.Idle? && DistinctPaths(paths)
    requires var batch := ReadAll(paths, map p | p in m.files && p in readable :: m.files[p], m.checkpoint, room);
             batch.entries != [] && (ok, sink) == Sunk(spec, emb, parse, m.sink, batch.entries, ds, now)
    ensures Proper(moves)
    ensures var batch := ReadAll(paths, map p | p in m.files && p in readable :: m.files[p], m.checkpoint, room);
            Run(spec, emb, parse, m, moves) ==
              Some(m.(sink := sink, checkpoint := if ok then m.checkpoint + batch.offsets else m.checkpoint))
  {
    hide Sunk;
    hide ReadAll;
    var batch := ReadAll(paths, map p | p in m.files && p in readable :: m.files[p], m.checkpoint, room);
    var read: Move, land: Move := ReadBatch(paths, readable, room), LandBatch(ds, now);
    var m1, m2 := m.(phase := HasRead(batch)), m.(sink := sink, phase := if ok then HasLanded(batch) else Idle);
    moves := [read, land];
    RunOne(spec, emb, parse, m, read);
    RunOne(spec, emb, parse, m1, land);
    RunConcat(spec, emb, parse, m, [read], [land]);
    assert [read] + [land] == moves;
    if ok {
      RunOne(spec, emb, parse, m2, CommitCheckpoint);
      RunConcat(spec, emb, parse, m, moves, [CommitCheckpoint]);
      moves := moves + [CommitCheckpoint];
    }
  }
}
