/**
 * Streaming ingest as a machine: read complete lines past the checkpoint, land them
 * through the skip-existing sink, commit the checkpoint; with appends, deletes and
 * crashes anywhere between.
 */
module Stream {
  import opened Prelude
  import opened Embedding
  import opened Store
  import opened StreamReader

  // ----------------------------------------------- first row of each key

  /** Add the records whose keys are absent. */
  function AddAbsent(spec: TableSpec, m: map<Key, Record>, recs: seq<Record>): map<Key, Record>
    decreases |recs|
  {
    if recs == [] then m
    else
      var k := KeyOf(spec, recs[0]);
      AddAbsent(spec, if k in m then m else m[k := recs[0]], recs[1..])
  }

  function FirstPerKey(spec: TableSpec, recs: seq<Record>): map<Key, Record> {
    AddAbsent(spec, map[], recs)
  }

  lemma {:induction false} AddAbsentConcat(spec: TableSpec, m: map<Key, Record>, a: seq<Record>, b: seq<Record>)
    ensures AddAbsent(spec, m, a + b) == AddAbsent(spec, AddAbsent(spec, m, a), b)
    decreases |a|
  {
    if a == [] {
      assert a + b == b;
    } else {
      assert (a + b)[1..] == a[1..] + b;
      var k := KeyOf(spec, a[0]);
      AddAbsentConcat(spec, if k in m then m else m[k := a[0]], a[1..], b);
    }
  }

  lemma {:induction false} AddAbsentKeys(spec: TableSpec, m: map<Key, Record>, recs: seq<Record>)
    ensures AddAbsent(spec, m, recs).Keys == m.Keys + Keys(spec, recs)
    ensures forall k :: k in m ==> AddAbsent(spec, m, recs)[k] == m[k]
    decreases |recs|
  {
    if recs == [] {
      assert Keys(spec, recs) == {};
    } else {
      var k := KeyOf(spec, recs[0]);
      KeysHead(spec, recs);
      AddAbsentKeys(spec, if k in m then m else m[k := recs[0]], recs[1..]);
    }
  }

  /** Adding records whose keys are all there changes nothing. */
  lemma {:induction false} AddAbsentNothing(spec: TableSpec, m: map<Key, Record>, recs: seq<Record>)
    requires Keys(spec, recs) <= m.Keys
    ensures AddAbsent(spec, m, recs) == m
    decreases |recs|
  {
    if recs != [] {
      KeysHead(spec, recs);
      AddAbsentNothing(spec, m, recs[1..]);
    }
  }

  // ----------------------------------------------------------- the sink

  /** The table without its engine columns and deletion marks. */
  function Contents(table: Table): map<Key, Record> {
    map k | k in table :: table[k].rec
  }

  /** `insert(skip_existing=True)` adds exactly the absent keys, first record first,
      whether the rows it finds are deleted or not. */
  lemma {:induction false} SinkAddsAbsent(
      spec: TableSpec, table: Table, recs: seq<Record>, index: seq<Index>, ds: Day, now: Time)
    requires |index| == |NewRecords(spec, table.Keys, recs)|
    requires Commit(spec, table, NewRecords(spec, table.Keys, recs), index, ds, now).Some?
    ensures Contents(Commit(spec, table, NewRecords(spec, table.Keys, recs), index, ds, now).value) ==
            AddAbsent(spec, Contents(table), recs)
    decreases |recs|
  {
    if recs != [] {
      var k, added := KeyOf(spec, recs[0]), NewRecords(spec, table.Keys, recs);
      if k in table {
        SinkAddsAbsent(spec, table, recs[1..], index, ds, now);
      } else {
        var next := table[k := FreshRow(recs[0], index[0], ds, now)];
        assert next.Keys == table.Keys + {k} && added[1..] == NewRecords(spec, next.Keys, recs[1..]);
        SinkAddsAbsent(spec, next, recs[1..], index[1..], ds, now);
        assert Contents(next) == Contents(table)[k := recs[0]];
      }
    }
  }

  // -------------------------------------------------- from lines to records

  /** What a line, after the line-wise middles, lands as; `Err` stops the stream. */
  type Parser = Bytes -> Result<seq<Record>>

  function RecordsOf(spec: TableSpec, parse: Parser, entries: seq<Entry>): Result<seq<Record>> {
    if entries == [] then Ok([]) else
      var head :- parse(entries[0].line);
      var rest :- RecordsOf(spec, parse, entries[1..]);
      Ok(NormalizeAll(spec, head) + rest)
  }

  lemma {:induction false} RecordsOfConcat(spec: TableSpec, parse: Parser, a: seq<Entry>, b: seq<Entry>)
    requires RecordsOf(spec, parse, a).Ok? && RecordsOf(spec, parse, b).Ok?
    ensures RecordsOf(spec, parse, a + b) == Ok(RecordsOf(spec, parse, a).value + RecordsOf(spec, parse, b).value)
    decreases |a|
  {
    if a == [] {
      assert a + b == b && [] + RecordsOf(spec, parse, b).value == RecordsOf(spec, parse, b).value;
    } else {
      assert (a + b)[1..] == a[1..] + b;
      RecordsOfConcat(spec, parse, a[1..], b);
      var head := NormalizeAll(spec, parse(a[0].line).value);
      assert head + (RecordsOf(spec, parse, a[1..]).value + RecordsOf(spec, parse, b).value) ==
             (head + RecordsOf(spec, parse, a[1..]).value) + RecordsOf(spec, parse, b).value;
    }
  }

  lemma {:induction false} RecordsOfMember(spec: TableSpec, parse: Parser, entries: seq<Entry>, e: Entry)
    requires RecordsOf(spec, parse, entries).Ok? && exists i :: 0 <= i < |entries| && entries[i].line == e.line
    ensures parse(e.line).Ok?
    ensures Keys(spec, NormalizeAll(spec, parse(e.line).value)) <= Keys(spec, RecordsOf(spec, parse, entries).value)
    decreases |entries|
  {
    var head := NormalizeAll(spec, parse(entries[0].line).value);
    var rest := RecordsOf(spec, parse, entries[1..]).value;
    KeysConcat(spec, head, rest);
    if entries[0].line != e.line {
      var i :| 0 <= i < |entries| && entries[i].line == e.line;
      assert entries[1..][i - 1] == entries[i];
      RecordsOfMember(spec, parse, entries[1..], e);
    }
  }

  lemma KeysConcat(spec: TableSpec, a: seq<Record>, b: seq<Record>)
    ensures Keys(spec, a + b) == Keys(spec, a) + Keys(spec, b)
  {
    var s := a + b;
    forall k | k in Keys(spec, a)
      ensures k in Keys(spec, s)
    {
      var i :| 0 <= i < |a| && KeyOf(spec, a[i]) == k;
      assert s[i] == a[i];
    }
    forall k | k in Keys(spec, b)
      ensures k in Keys(spec, s)
    {
      var i :| 0 <= i < |b| && KeyOf(spec, b[i]) == k;
      assert s[|a| + i] == b[i];
    }
  }

  // ---------------------------------------------------- absorbing a replay

  /** The lines of one file in a list of entries. */
  function Project(entries: seq<Entry>, path: string): seq<Bytes> {
    if entries == [] then []
    else (if entries[0].path == path then [entries[0].line] else []) + Project(entries[1..], path)
  }

  lemma {:induction false} ProjectConcat(a: seq<Entry>, b: seq<Entry>, path: string)
    ensures Project(a + b, path) == Project(a, path) + Project(b, path)
  {
    if a == [] {
      assert a + b == b;
    } else {
      assert (a + b)[1..] == a[1..] + b;
      ProjectConcat(a[1..], b, path);
    }
  }

  lemma {:induction false} ProjectMember(entries: seq<Entry>, path: string, i: nat)
    requires i < |Project(entries, path)|
    ensures exists j :: 0 <= j < |entries| && entries[j].line == Project(entries, path)[i]
    decreases |entries|
  {
    if entries[0].path == path {
      if i == 0 {
        assert entries[0].line == Project(entries, path)[i];
      } else {
        ProjectMember(entries[1..], path, i - 1);
        var j :| 0 <= j < |entries[1..]| && entries[1..][j].line == Project(entries[1..], path)[i - 1];
        assert entries[j + 1].line == Project(entries, path)[i];
      }
    } else {
      ProjectMember(entries[1..], path, i);
      var j :| 0 <= j < |entries[1..]| && entries[1..][j].line == Project(entries[1..], path)[i];
      assert entries[j + 1].line == Project(entries, path)[i];
    }
  }

  /** All non-blank complete lines of a file so far. */
  function Text(content: Bytes): seq<Bytes> {
    NonBlank(Lines(content))
  }

  function File(files: map<string, Bytes>, path: string): Bytes {
    if path in files then files[path] else []
  }

  /** `history` interleaves, over all files, a prefix of the lines of each. */
  ghost predicate Interleaves(history: seq<Entry>, files: map<string, Bytes>) {
    forall p :: Project(history, p) <= Text(File(files, p))
  }

  /** From line `from(p)` on, `entries` has consecutive lines of every file `p`, and
      `from(p)` is not past what `history` has of that file. */
  ghost predicate Continues(entries: seq<Entry>, from: string -> nat, history: seq<Entry>, files: map<string, Bytes>) {
    forall p :: from(p) <= |Project(history, p)| && Segment(Project(entries, p), from(p), Text(File(files, p)))
  }

  predicate Segment(lines: seq<Bytes>, at: nat, text: seq<Bytes>) {
    at + |lines| <= |text| && lines == text[at..at + |lines|]
  }

  function Advance(from: string -> nat, path: string): string -> nat {
    p => if p == path then from(p) + 1 else from(p)
  }

  /**
   * Landing a batch that may repeat lines: the repeated ones change nothing, and the
   * others extend the history in order.
   */
  lemma {:induction false} Absorb(
      spec: TableSpec, parse: Parser, files: map<string, Bytes>, history: seq<Entry>, entries: seq<Entry>,
      from: string -> nat)
    returns (after: seq<Entry>)
    requires Interleaves(history, files) && Continues(entries, from, history, files)
    requires RecordsOf(spec, parse, history).Ok? && RecordsOf(spec, parse, entries).Ok?
    ensures Interleaves(after, files) && RecordsOf(spec, parse, after).Ok?
    ensures FirstPerKey(spec, RecordsOf(spec, parse, after).value) ==
            AddAbsent(spec, FirstPerKey(spec, RecordsOf(spec, parse, history).value), RecordsOf(spec, parse, entries).value)
    ensures forall p :: Project(history, p) <= Project(after, p)
    ensures forall p :: from(p) + |Project(entries, p)| <= |Project(after, p)|
    decreases |entries|
  {
    if entries == [] {
      after := history;
    } else {
      var e, rest := entries[0], entries[1..];
      var head := NormalizeAll(spec, parse(e.line).value);
      var before := FirstPerKey(spec, RecordsOf(spec, parse, history).value);
      AddAbsentConcat(spec, before, head, RecordsOf(spec, parse, rest).value);
      var next := AbsorbOne(spec, parse, files, history, entries, from);
      after := Absorb(spec, parse, files, next, rest, Advance(from, e.path));
      forall p
        ensures Project(history, p) <= Project(after, p)
        ensures from(p) + |Project(entries, p)| <= |Project(after, p)|
      {
        assert Project(history, p) <= Project(next, p) <= Project(after, p);
      }
    }
  }

  /** A line that the history has already lands as nothing new. */
  lemma RepeatedLine(spec: TableSpec, parse: Parser, history: seq<Entry>, e: Entry, i: nat)
    requires RecordsOf(spec, parse, history).Ok? && parse(e.line).Ok?
    requires i < |Project(history, e.path)| && Project(history, e.path)[i] == e.line
    ensures var had := FirstPerKey(spec, RecordsOf(spec, parse, history).value);
            AddAbsent(spec, had, NormalizeAll(spec, parse(e.line).value)) == had
  {
    ProjectMember(history, e.path, i);
    RecordsOfMember(spec, parse, history, e);
    var recs := RecordsOf(spec, parse, history).value;
    AddAbsentKeys(spec, map[], recs);
    AddAbsentNothing(spec, FirstPerKey(spec, recs), NormalizeAll(spec, parse(e.line).value));
  }

  /** A new line extends the history. */
  lemma NewLine(spec: TableSpec, parse: Parser, history: seq<Entry>, e: Entry)
    requires RecordsOf(spec, parse, history).Ok? && parse(e.line).Ok?
    ensures RecordsOf(spec, parse, history + [e]).Ok?
    ensures FirstPerKey(spec, RecordsOf(spec, parse, history + [e]).value) ==
            AddAbsent(spec, FirstPerKey(spec, RecordsOf(spec, parse, history).value), NormalizeAll(spec, parse(e.line).value))
  {
    var head := NormalizeAll(spec, parse(e.line).value);
    assert [e][1..] == [] && RecordsOf(spec, parse, [e]) == Ok(head + []) && head + [] == head;
    RecordsOfConcat(spec, parse, history, [e]);
    AddAbsentConcat(spec, map[], RecordsOf(spec, parse, history).value, head);
  }

  lemma ProjectSnoc(history: seq<Entry>, e: Entry, p: string)
    ensures Project(history + [e], p) == Project(history, p) + if p == e.path then [e.line] else []
  {
    ProjectConcat(history, [e], p);
    assert [e][1..] == [] && Project([], p) == [];
  }

  /** Taking the first entry off a batch that continues the history. */
  lemma StepProjection(
      files: map<string, Bytes>, history: seq<Entry>, entries: seq<Entry>, from: string -> nat, next: seq<Entry>, p: string)
    requires entries != [] && Interleaves(history, files) && Continues(entries, from, history, files)
    requires var e := entries[0];
             next == if from(e.path) < |Project(history, e.path)| then history else history + [e]
    ensures Project(history, p) <= Project(next, p) <= Text(File(files, p))
    ensures Segment(Project(entries[1..], p), Advance(from, entries[0].path)(p), Text(File(files, p)))
    ensures Advance(from, entries[0].path)(p) <= |Project(next, p)|
  {
    hide Text;
    hide Project;
    hide Segment;
    hide File;
    var e, text := entries[0], Text(File(files, p));
    var had, lines := Project(history, p), Project(entries, p);
    assert had <= text;
    assert Segment(lines, from(p), text) && from(p) <= |had|;
    ProjectSnoc(history, e, p);
    ProjectCons(entries, p);
    assert had + [] == had;
    hide Interleaves;
    hide Continues;
    SegmentStep(had, lines, Project(entries[1..], p), from(p), text, p == e.path, e.line, Project(next, p));
  }

  lemma ProjectCons(entries: seq<Entry>, p: string)
    requires entries != []
    ensures Project(entries, p) == (if p == entries[0].path then [entries[0].line] else []) + Project(entries[1..], p)
  {
  }

  lemma SegmentStep(
      had: seq<Bytes>, lines: seq<Bytes>, rest: seq<Bytes>, at: nat, text: seq<Bytes>, here: bool, line: Bytes, has: seq<Bytes>)
    requires had <= text && Segment(lines, at, text) && at <= |had|
    requires lines == (if here then [line] else []) + rest
    requires has == if here && at >= |had| then had + [line] else had
    ensures had <= has <= text
    ensures Segment(rest, if here then at + 1 else at, text) && (if here then at + 1 else at) <= |has|
  {
    if here {
      assert lines[0] == line && lines[1..] == rest;
    } else {
      assert lines == rest;
    }
  }

  lemma AbsorbOne(
      spec: TableSpec, parse: Parser, files: map<string, Bytes>, history: seq<Entry>, entries: seq<Entry>,
      from: string -> nat)
    returns (next: seq<Entry>)
    requires entries != [] && Interleaves(history, files) && Continues(entries, from, history, files)
    requires RecordsOf(spec, parse, history).Ok? && parse(entries[0].line).Ok?
    ensures Interleaves(next, files) && RecordsOf(spec, parse, next).Ok?
    ensures FirstPerKey(spec, RecordsOf(spec, parse, next).value) ==
            AddAbsent(spec, FirstPerKey(spec, RecordsOf(spec, parse, history).value),
                      NormalizeAll(spec, parse(entries[0].line).value))
    ensures forall p :: Project(history, p) <= Project(next, p)
    ensures Continues(entries[1..], Advance(from, entries[0].path), next, files)
  {
    var e := entries[0];
    var repeated := from(e.path) < |Project(history, e.path)|;
    next := if repeated then history else history + [e];
    hide RecordsOf;
    hide AddAbsent;
    hide FirstPerKey;
    hide Text;
    if repeated {
      assert Segment(Project(entries, e.path), from(e.path), Text(File(files, e.path)));
      assert Project(entries, e.path)[0] == e.line == Text(File(files, e.path))[from(e.path)];
      assert Project(history, e.path) <= Text(File(files, e.path));
      RepeatedLine(spec, parse, history, e, from(e.path));
    } else {
      NewLine(spec, parse, history, e);
    }
    hide Segment;
    hide Project;
    hide Advance;
    forall p
      ensures Project(history, p) <= Project(next, p) <= Text(File(files, p))
      ensures Segment(Project(entries[1..], p), Advance(from, e.path)(p), Text(File(files, p)))
      ensures Advance(from, e.path)(p) <= |Project(next, p)|
    {
      StepProjection(files, history, entries, from, next, p);
    }
  }

  // ------------------------------------------------------------- offsets

  /** An offset on a line boundary: what stands before it is complete lines only. */
  predicate Boundary(content: Bytes, offset: nat) {
    offset <= |content| && Whole(content[..offset])
  }

  lemma TextConcat(a: Bytes, b: Bytes)
    requires Whole(a)
    ensures Text(a + b) == Text(a) + Text(b)
  {
    LinesConcat(a, b);
    hide Lines;
    NonBlankConcat(Lines(a), Lines(b));
  }

  /** Appending keeps the lines that were complete. */
  lemma TextGrows(content: Bytes, more: Bytes)
    ensures Text(content) <= Text(content + more)
  {
    var t, u := LinesTake(content, |Lines(content)|);
    assert Lines(content)[..|Lines(content)|] == Lines(content);
    assert content + more == t + (u + more);
    TextConcat(t, u + more);
    assert Text(t) == Text(content);
  }

  /** What one read takes from a chunk that follows complete lines. */
  lemma ChunkMeans(before: Bytes, chunk: Bytes, room: nat) returns (t: Bytes, u: Bytes)
    requires Whole(before)
    ensures var taken := SplitLines(chunk)[..TakeCount(SplitLines(chunk), room)];
            && chunk == t + u && t == Concat(taken) && Whole(before + t)
            && Text(before + t) == Text(before) + NonBlank(taken)
            && (|NonBlank(taken)| < room ==> Text(u) == [])
            && (t == [] ==> NonBlank(taken) == [])
  {
    var raws := SplitLines(chunk);
    var j := TakeCount(raws, room);
    LinesAreComplete(chunk);
    TakeCountMeans(raws, room);
    TakeNothing(room);
    hide SplitLines;
    hide TakeCount;
    hide Lines;
    hide Concat;
    hide NonBlank;
    hide Complete;
    assert Lines(chunk)[..j] == raws[..j];
    t, u := LinesTake(chunk, j);
    WholeConcat(before, t);
    TextConcat(before, t);
    if j == |Lines(chunk)| {
      assert Lines(chunk)[j..] == [];
    }
    if t == [] {
      assert before + t == before;
      assert Text(before) == Text(before) + NonBlank(raws[..j]);
    }
  }

  /** What one read takes from one file: consecutive lines from the offset on, up to a
      new boundary. */
  ghost predicate HeadOk(path: string, content: Bytes, start: nat, room: nat, head: Batch) {
    var end := if path in head.offsets then head.offsets[path] else start;
    && BatchOkAt(content, start, end, LinesOf(head.entries))
    && head.offsets.Keys <= {path} && (path in head.offsets ==> end > start)
    && (forall i :: 0 <= i < |head.entries| ==> head.entries[i].path == path)
    && (|head.entries| < room ==> Text(content[end..]) == [])
    && (head.entries != [] ==> path in head.offsets)
  }

  lemma HeadIsOk(path: string, before: Bytes, t: Bytes, u: Bytes, room: nat, lines: seq<Bytes>)
    requires Whole(before) && Whole(before + t) && Text(before + t) == Text(before) + lines
    requires (|lines| < room ==> Text(u) == []) && (t == [] ==> lines == [])
    ensures HeadOk(path, before + t + u, |before|, room,
                   Batch(Tag(path, lines), if t == [] then map[] else map[path := |before| + |t|]))
  {
    hide Text;
    hide Whole;
    var content, end := before + t + u, |before| + |t|;
    assert content[..|before|] == before && content[..end] == before + t && content[end..] == u;
    assert LinesOf(Tag(path, lines)) == lines;
  }

  lemma ReadFileMeans(path: string, content: Bytes, start: nat, room: nat)
    requires Boundary(content, start)
    ensures HeadOk(path, content, start, room, ReadFile(path, content, start, room))
  {
    hide HeadOk;
    hide Whole;
    hide SplitLines;
    hide TakeCount;
    hide Text;
    hide Concat;
    hide NonBlank;
    var before, chunk := content[..start], Chunk(content, start);
    assert content == before + chunk;
    var t, u := ChunkMeans(before, chunk, room);
    AddAssoc(before, t, u);
    HeadIsOk(path, before, t, u, room, NonBlank(SplitLines(chunk)[..TakeCount(SplitLines(chunk), room)]));
  }

  predicate DistinctPaths(paths: seq<string>) {
    forall i, j :: 0 <= i < j < |paths| ==> paths[i] != paths[j]
  }

  /** Where the reader will stand in file `p` once the batch is checkpointed. */
  function NewOffset(offsets: map<string, nat>, batch: Batch, p: string): nat {
    if p in batch.offsets then batch.offsets[p] else Offset(offsets, p)
  }

  ghost predicate OffsetsOk(files: map<string, Bytes>, offsets: map<string, nat>) {
    forall p :: Boundary(File(files, p), Offset(offsets, p))
  }

  /** The batch has consecutive lines of every file, from the offsets to new ones. */
  ghost predicate BatchOk(files: map<string, Bytes>, offsets: map<string, nat>, batch: Batch) {
    forall p :: BatchOkAt(File(files, p), Offset(offsets, p), NewOffset(offsets, batch, p), Project(batch.entries, p))
  }

  predicate BatchOkAt(content: Bytes, start: nat, end: nat, lines: seq<Bytes>) {
    && start <= end && Boundary(content, start) && Boundary(content, end)
    && Text(content[..end]) == Text(content[..start]) + lines
  }

  lemma {:induction false} ProjectSame(entries: seq<Entry>, path: string, p: string)
    requires forall i :: 0 <= i < |entries| ==> entries[i].path == path
    ensures Project(entries, p) == if p == path then LinesOf(entries) else []
  {
    if entries != [] {
      ProjectSame(entries[1..], path, p);
      assert LinesOf(entries) == [entries[0].line] + LinesOf(entries[1..]);
    }
  }

  /** What one read yields of file `p`. */
  ghost predicate ReadOkAt(
      paths: seq<string>, files: map<string, Bytes>, offsets: map<string, nat>, room: nat, batch: Batch, p: string)
  {
    && BatchOkAt(File(files, p), Offset(offsets, p), NewOffset(offsets, batch, p), Project(batch.entries, p))
    && (p in batch.offsets ==> p in paths && p in files && batch.offsets[p] > Offset(offsets, p))
    && (p !in paths ==> Project(batch.entries, p) == [])
    && (p in paths && p in files && |batch.entries| < room ==> Text(File(files, p)[NewOffset(offsets, batch, p)..]) == [])
  }

  lemma NothingRead(paths: seq<string>, files: map<string, Bytes>, offsets: map<string, nat>, room: nat, p: string)
    requires Boundary(File(files, p), Offset(offsets, p)) && (paths == [] || room == 0)
    ensures ReadOkAt(paths, files, offsets, room, Batch([], map[]), p)
  {
    hide Text;
    var text := Text(File(files, p)[..Offset(offsets, p)]);
    assert text + [] == text;
  }

  /** One file in front of the others: what is read of file `p`. */
  lemma ReadInFront(
      path: string, rest: seq<string>, files: map<string, Bytes>, offsets: map<string, nat>, room: nat, head: Batch,
      tail: Batch, p: string)
    requires path in files && path !in rest && |head.entries| <= room
    requires HeadOk(path, files[path], Offset(offsets, path), room, head)
    requires ReadOkAt(rest, files, offsets, room - |head.entries|, tail, p)
    ensures ReadOkAt([path] + rest, files, offsets, room, Batch(head.entries + tail.entries, head.offsets + tail.offsets), p)
  {
    hide Text;
    hide Boundary;
    ProjectConcat(head.entries, tail.entries, p);
    ProjectSame(head.entries, path, p);
    assert p in [path] + rest <==> p == path || p in rest;
    var batch := Batch(head.entries + tail.entries, head.offsets + tail.offsets);
    if p == path {
      assert LinesOf(head.entries) + [] == LinesOf(head.entries);
      assert NewOffset(offsets, batch, p) == if path in head.offsets then head.offsets[path] else Offset(offsets, path);
    } else {
      assert [] + Project(tail.entries, p) == Project(tail.entries, p);
      assert NewOffset(offsets, batch, p) == NewOffset(offsets, tail, p);
    }
  }

  /** What one read yields, file by file. */
  lemma {:induction false} ReadAllMeans(
      paths: seq<string>, files: map<string, Bytes>, offsets: map<string, nat>, room: nat, p: string)
    requires DistinctPaths(paths) && OffsetsOk(files, offsets)
    ensures ReadOkAt(paths, files, offsets, room, ReadAll(paths, files, offsets, room), p)
    decreases |paths|
  {
    assert Boundary(File(files, p), Offset(offsets, p));
    if paths == [] || room == 0 {
      NothingRead(paths, files, offsets, room, p);
    } else {
      var path, rest := paths[0], paths[1..];
      assert paths == [path] + rest && path !in rest;
      assert Boundary(File(files, path), Offset(offsets, path));
      hide ReadFile;
      hide Boundary;
      hide HeadOk;
      if path in files {
        ReadFileMeans(path, files[path], Offset(offsets, path), room);
        ReadFits(path, files[path], Offset(offsets, path), room);
        var head := ReadFile(path, files[path], Offset(offsets, path), room);
        var tail := ReadAll(rest, files, offsets, room - |head.entries|);
        ReadAllMeans(rest, files, offsets, room - |head.entries|, p);
        hide ReadOkAt;
        ReadInFront(path, rest, files, offsets, room, head, tail, p);
      } else {
        ReadAllMeans(rest, files, offsets, room, p);
      }
    }
  }
}
