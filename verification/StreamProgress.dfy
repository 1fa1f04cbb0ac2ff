/**
 * How far a stream gets: it catches up with files that stop growing, and never gets
 * past a lone CR.
 */
module StreamProgress {
  import opened Prelude
  import opened Embedding
  import opened Store
  import opened StreamReader
  import opened Stream
  import opened StreamMachine
  import opened StreamFollower

  // ---------------------------------------------------------- catching up

  /** A round without an append, over the same paths, with every file readable. */
  predicate Quiet(files: map<string, Bytes>, paths: seq<string>, r: Round) {
    r.more == [] && r.paths == paths && files.Keys <= r.readable
  }

  ghost predicate AllCaughtUp(paths: seq<string>, files: map<string, Bytes>, offsets: map<string, nat>) {
    forall p :: p in paths && p in files ==> CaughtUp(files[p], Offset(offsets, p))
  }

  lemma TextSplits(content: Bytes, offset: nat)
    requires Boundary(content, offset)
    ensures |Text(content)| == |Text(content[..offset])| + |Text(content[offset..])|
  {
    assert content == content[..offset] + content[offset..];
    TextConcat(content[..offset], content[offset..]);
  }

  lemma NoneBetween(content: Bytes, start: nat, end: nat)
    requires BatchOkAt(content, start, end, []) && Text(content[end..]) == []
    ensures CaughtUp(content, start)
  {
    TextSplits(content, start);
    TextSplits(content, end);
    hide Text;
    assert |Text(content[..end])| == |Text(content[..start])|;
  }

  /** A read that finds no line leaves none behind, blank lines aside. */
  lemma NothingLeft(paths: seq<string>, files: map<string, Bytes>, offsets: map<string, nat>, room: nat, p: string)
    requires DistinctPaths(paths) && OffsetsOk(files, offsets) && room > 0
    requires ReadAll(paths, files, offsets, room).entries == [] && p in paths && p in files
    ensures CaughtUp(files[p], Offset(offsets, p))
  {
    ReadAllMeans(paths, files, offsets, room, p);
    assert Project([], p) == [];
    hide ReadAll;
    NoneBetween(files[p], Offset(offsets, p), NewOffset(offsets, ReadAll(paths, files, offsets, room), p));
  }

  /** One turn without an append: caught up and at rest, or fewer bytes unread. */
  lemma QuietTurn(
      spec: TableSpec, emb: Option<Embedder>, parse: Parser, m: Machine, paths: seq<string>, readable: set<string>,
      room: nat, ds: Day, now: Time)
    requires DistinctPaths(paths) && OffsetsOk(m.files, m.checkpoint) && room > 0 && m.files.Keys <= readable
    ensures var none := ReadAll(paths, m.files, m.checkpoint, room).entries == [];
            var (ok, next) := Turned(spec, emb, parse, m, paths, readable, room, ds, now);
            && next.files == m.files && OffsetsOk(next.files, next.checkpoint)
            && (none ==> ok && next == m && AllCaughtUp(paths, m.files, m.checkpoint))
            && (!none && ok ==> Unread(paths, next.files, next.checkpoint) < Unread(paths, m.files, m.checkpoint))
  {
    assert (map p | p in m.files && p in readable :: m.files[p]) == m.files;
    ReadsMakeProgress(paths, m.files, m.checkpoint, room);
    hide Sunk;
    hide OffsetsOk;
    hide Unread;
    hide CaughtUp;
    if ReadAll(paths, m.files, m.checkpoint, room).entries == [] {
      forall p | p in paths && p in m.files
        ensures CaughtUp(m.files[p], Offset(m.checkpoint, p))
      {
        NothingLeft(paths, m.files, m.checkpoint, room, p);
      }
    }
  }

  /** A stream that finds nothing to read stays as it is. */
  lemma {:induction false} StaysAtRest(
      spec: TableSpec, emb: Option<Embedder>, parse: Parser, m: Machine, paths: seq<string>, room: nat, rounds: seq<Round>)
    requires DistinctPaths(paths) && OffsetsOk(m.files, m.checkpoint) && room > 0
    requires ReadAll(paths, m.files, m.checkpoint, room).entries == []
    requires forall i :: 0 <= i < |rounds| ==> Quiet(m.files, paths, rounds[i])
    ensures Followed(spec, emb, parse, m, room, rounds) == (true, m)
    decreases |rounds|
  {
    if rounds != [] {
      var r := rounds[0];
      QuietTurn(spec, emb, parse, m, paths, r.readable, room, r.ds, r.now);
      assert m.(files := m.files) == m;
      hide Turned;
      hide ReadAll;
      hide OffsetsOk;
      StaysAtRest(spec, emb, parse, m, paths, room, rounds[1..]);
    }
  }

  /**
   * Liveness. When the files stop growing, a stream that keeps reading them has, after
   * one round more than there are unread bytes, either been ended by its sink, or
   * passed every complete line that is not blank.
   */
  lemma {:induction false} CatchesUp(
      spec: TableSpec, emb: Option<Embedder>, parse: Parser, m: Machine, paths: seq<string>, room: nat, rounds: seq<Round>)
    requires DistinctPaths(paths) && OffsetsOk(m.files, m.checkpoint) && room > 0
    requires forall i :: 0 <= i < |rounds| ==> Quiet(m.files, paths, rounds[i])
    requires |rounds| > Unread(paths, m.files, m.checkpoint)
    ensures var (ok, end) := Followed(spec, emb, parse, m, room, rounds);
            end.files == m.files && (ok ==> AllCaughtUp(paths, end.files, end.checkpoint))
    decreases |rounds|
  {
    var r := rounds[0];
    var (ok, next) := Turned(spec, emb, parse, m, paths, r.readable, room, r.ds, r.now);
    QuietTurn(spec, emb, parse, m, paths, r.readable, room, r.ds, r.now);
    assert m.(files := m.files) == m;
    hide Turned;
    hide OffsetsOk;
    hide Unread;
    hide AllCaughtUp;
    if ReadAll(paths, m.files, m.checkpoint, room).entries == [] {
      hide ReadAll;
      StaysAtRest(spec, emb, parse, m, paths, room, rounds);
    } else if ok {
      hide ReadAll;
      CatchesUp(spec, emb, parse, next, paths, room, rounds[1..]);
    }
  }

  lemma TurnedIsRun(spec: TableSpec, emb: Option<Embedder>, parse: Parser, m: Machine, r: Round, room: nat)
    returns (moves: seq<Move>)
    requires m.phase.Idle? && DistinctPaths(r.paths)
    ensures Proper(moves)
    ensures Run(spec, emb, parse, m, moves) == Some(Turned(spec, emb, parse, m, r.paths, r.readable, room, r.ds, r.now).1)
  {
    var batch := ReadAll(r.paths, map p | p in m.files && p in r.readable :: m.files[p], m.checkpoint, room);
    if batch.entries == [] {
      moves := [ReadBatch(r.paths, r.readable, room)];
      RunOne(spec, emb, parse, m, moves[0]);
    } else {
      var (ok, sink) := Sunk(spec, emb, parse, m.sink, batch.entries, r.ds, r.now);
      hide Sunk;
      hide ReadAll;
      hide Run;
      moves := TurnIsRun(spec, emb, parse, m, r.paths, r.readable, room, r.ds, r.now, ok, sink);
    }
  }

  lemma TurnedIsIdle(
      spec: TableSpec, emb: Option<Embedder>, parse: Parser, m: Machine, paths: seq<string>, readable: set<string>,
      room: nat, ds: Day, now: Time)
    ensures Turned(spec, emb, parse, m, paths, readable, room, ds, now).1.phase == m.phase
  {
    hide Sunk;
    hide ReadAll;
  }

  /** Whatever the loop does is a run of the machine. */
  lemma {:induction false} FollowedIsRun(
      spec: TableSpec, emb: Option<Embedder>, parse: Parser, m: Machine, room: nat, rounds: seq<Round>)
    returns (moves: seq<Move>)
    requires m.phase.Idle? && forall i :: 0 <= i < |rounds| ==> DistinctPaths(rounds[i].paths)
    ensures Proper(moves) && Run(spec, emb, parse, m, moves) == Some(Followed(spec, emb, parse, m, room, rounds).1)
    decreases |rounds|
  {
    moves := [];
    if rounds != [] {
      var r := rounds[0];
      var m1 := m.(files := Grown(m.files, r));
      var m2 := Turned(spec, emb, parse, m1, r.paths, r.readable, room, r.ds, r.now).1;
      TurnedIsIdle(spec, emb, parse, m1, r.paths, r.readable, room, r.ds, r.now);
      hide Run;
      hide Turned;
      hide DistinctPaths;
      var a := GrownIsRun(spec, emb, parse, m, r);
      var b := TurnedIsRun(spec, emb, parse, m1, r, room);
      RunConcat(spec, emb, parse, m, a, b);
      moves := a + b;
      if Turned(spec, emb, parse, m1, r.paths, r.readable, room, r.ds, r.now).0 {
        var c := FollowedIsRun(spec, emb, parse, m2, room, rounds[1..]);
        RunConcat(spec, emb, parse, m, moves, c);
        moves := moves + c;
      }
    }
  }

  /**
   * A whole stream over one file. Whatever happened before, crashes included: once the
   * file stops growing and the sink refuses nothing, more rounds than unread bytes leave
   * the table with exactly the first row of each key of all the lines of the file.
   */
  lemma StreamDelivers(
      spec: TableSpec, emb: Option<Embedder>, parse: Parser, moves: seq<Move>, m: Machine, path: string, room: nat,
      rounds: seq<Round>)
    requires Run(spec, emb, parse, START, moves) == Some(m) && Proper(moves) && m.phase.Idle?
    requires m.files.Keys == {path} && room > 0
    requires forall i :: 0 <= i < |rounds| ==> Quiet(m.files, [path], rounds[i])
    requires |rounds| > Unread([path], m.files, m.checkpoint)
    ensures var (ok, end) := Followed(spec, emb, parse, m, room, rounds);
            ok ==> AfterLines(spec, parse, path, Text(m.files[path])) == Ok(Contents(end.sink.table))
  {
    StartInv(spec, parse);
    var history := RunKeepsInv(spec, emb, parse, START, [], moves);
    hide Run;
    hide Unread;
    hide Text;
    hide AfterLines;
    hide Contents;
    hide HoldsHistory;
    hide Reached;
    CatchesUp(spec, emb, parse, m, [path], room, rounds);
    var more := FollowedIsRun(spec, emb, parse, m, room, rounds);
    var (ok, end) := Followed(spec, emb, parse, m, room, rounds);
    RunConcat(spec, emb, parse, START, moves, more);
    hide Followed;
    if ok {
      var n := OneFileExactlyOnce(spec, emb, parse, moves + more, end, path);
      assert path in [path];
      CaughtUpLines(m.files[path], Offset(end.checkpoint, path));
      assert Text(m.files[path])[..n] == Text(m.files[path]);
    }
  }

  // ------------------------------------------------------------ the lone CR

  lemma {:induction false} FilesGrow(
      spec: TableSpec, emb: Option<Embedder>, parse: Parser, m: Machine, moves: seq<Move>, p: string)
    requires Run(spec, emb, parse, m, moves).Some?
    ensures File(m.files, p) <= File(Run(spec, emb, parse, m, moves).value.files, p)
    decreases |moves|
  {
    if moves != [] {
      var next := Apply(spec, emb, parse, m, moves[0]).value;
      assert File(m.files, p) <= File(next.files, p) by {
        hide ReadAll;
        hide Sunk;
        hide Landing;
      }
      hide Apply;
      FilesGrow(spec, emb, parse, next, moves[1..], p);
    }
  }

  /**
   * The stream stops for ever at a lone CR. Whatever is appended, read, landed or
   * crashed from then on, its checkpoint never passes that CR, and of the history it
   * has delivered, the lines of that file are among those before it.
   */
  lemma LoneCrStallsStream(
      spec: TableSpec, emb: Option<Embedder>, parse: Parser, moves: seq<Move>, m: Machine, more: seq<Move>, end: Machine,
      path: string, i: nat)
    requires Run(spec, emb, parse, START, moves) == Some(m) && Proper(moves)
    requires Run(spec, emb, parse, m, more) == Some(end) && Proper(more)
    requires FirstLoneCr(File(m.files, path), i)
    ensures Offset(end.checkpoint, path) <= i
    ensures exists history ::
      && Interleaves(history, end.files) && HoldsHistory(spec, parse, end.sink.table, history)
      && Project(history, path) <= Text(File(m.files, path)[..i])
  {
    StartInv(spec, parse);
    RunConcat(spec, emb, parse, START, moves, more);
    FilesGrow(spec, emb, parse, m, more, path);
    var history := RunKeepsInv(spec, emb, parse, START, [], moves + more);
    hide Run;
    var content, later := File(m.files, path), File(end.files, path);
    var tail := later[|content|..];
    assert later == content + tail;
    LoneCrStopsReader(content, i, tail);
    assert Boundary(later, Offset(end.checkpoint, path));
    BoundaryWithinLines(later, Offset(end.checkpoint, path));
    hide HoldsHistory;
    assert Project(history, path) <= Text(later);
  }
}
