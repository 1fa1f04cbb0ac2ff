/**
 * The checkpointed reader of a stream: `bytes.splitlines`, and `_read_new_lines` on
 * top of it.
 */
module StreamReader {
  import opened Prelude

  const LF: Byte := 10
  const CR: Byte := 13

  /** ASCII whitespace, as `bytes.strip` sees it. */
  predicate IsBlankByte(b: Byte) {
    b == 32 || 9 <= b <= 13
  }

  predicate IsBlank(line: Bytes) {
    forall i :: 0 <= i < |line| ==> IsBlankByte(line[i])
  }

  predicate EndsLf(line: Bytes) {
    line != [] && line[|line| - 1] == LF
  }

  // -------------------------------------------------------------- splitlines

  /** The length of the first line, its line break (LF, CR LF or a lone CR) included. */
  function FirstLine(s: Bytes): (n: nat)
    requires s != []
    ensures 1 <= n <= |s|
  {
    if s[0] == LF then 1
    else if s[0] == CR then (if |s| > 1 && s[1] == LF then 2 else 1)
    else if |s| == 1 then 1
    else 1 + FirstLine(s[1..])
  }

  /** `s.splitlines(keepends=True)`. */
  function SplitLines(s: Bytes): seq<Bytes>
    decreases |s|
  {
    if s == [] then [] else [s[..FirstLine(s)]] + SplitLines(s[FirstLine(s)..])
  }

  function Concat(lines: seq<Bytes>): Bytes {
    if lines == [] then [] else lines[0] + Concat(lines[1..])
  }

  lemma {:induction false} SplitJoins(s: Bytes)
    ensures Concat(SplitLines(s)) == s
    decreases |s|
  {
    if s != [] {
      SplitJoins(s[FirstLine(s)..]);
      assert SplitLines(s)[1..] == SplitLines(s[FirstLine(s)..]);
    }
  }

  /** A first line that is over does not change when more bytes follow. */
  lemma {:induction false} FirstLineStable(s: Bytes, t: Bytes)
    requires s != [] && s[FirstLine(s) - 1] == LF
    ensures FirstLine(s + t) == FirstLine(s)
    decreases |s|
  {
    assert (s + t)[0] == s[0];
    if s[0] != LF && s[0] != CR && |s| > 1 {
      assert (s + t)[1..] == s[1..] + t;
      assert s[1..][FirstLine(s[1..]) - 1] == s[FirstLine(s) - 1];
      FirstLineStable(s[1..], t);
    } else if s[0] == CR && |s| > 1 {
      assert (s + t)[1] == s[1];
    }
  }

  /** The complete lines that a reader may take: up to the first one that does not end
      in LF. */
  function Lines(s: Bytes): seq<Bytes>
    decreases |s|
  {
    if s == [] then []
    else
      var n := FirstLine(s);
      if s[n - 1] != LF then [] else [s[..n]] + Lines(s[n..])
  }

  /** One line with its LF, and nothing more. */
  predicate IsLine(line: Bytes) {
    line != [] && FirstLine(line) == |line| && line[|line| - 1] == LF
  }

  lemma {:induction false} FirstLineOfPrefix(s: Bytes)
    requires s != []
    ensures FirstLine(s[..FirstLine(s)]) == FirstLine(s)
    decreases |s|
  {
    if s[0] != LF && s[0] != CR && |s| > 1 {
      FirstLineOfPrefix(s[1..]);
      assert s[..FirstLine(s)][1..] == s[1..][..FirstLine(s[1..])];
    }
  }

  /** One unfolding of `Lines`: no complete line, or a first one and the rest. */
  lemma LinesCases(s: Bytes) returns (more: bool, line: Bytes, rest: Bytes)
    ensures !more ==> Lines(s) == []
    ensures more ==> s == line + rest && IsLine(line) && Lines(s) == [line] + Lines(rest) && |rest| < |s|
  {
    more, line, rest := s != [] && s[FirstLine(s) - 1] == LF, s, [];
    if more {
      var n := FirstLine(s);
      line, rest := s[..n], s[n..];
      FirstLineOfPrefix(s);
    }
  }

  lemma LinesCons(line: Bytes, rest: Bytes)
    requires IsLine(line)
    ensures Lines(line + rest) == [line] + Lines(rest)
  {
    FirstLineStable(line, rest);
    assert (line + rest)[..|line|] == line && (line + rest)[|line|..] == rest;
  }

  /** A text of complete lines only. */
  predicate Whole(s: Bytes) {
    Concat(Lines(s)) == s
  }

  lemma ConcatCons(line: Bytes, rest: seq<Bytes>)
    ensures Concat([line] + rest) == line + Concat(rest)
  {
    assert ([line] + rest)[1..] == rest;
  }

  /** The bytes of the complete lines are a prefix of the text. */
  lemma {:induction false} LinesPrefix(s: Bytes)
    ensures Concat(Lines(s)) <= s
    decreases |s|
  {
    hide Lines;
    hide Concat;
    hide FirstLine;
    var more, line, rest := LinesCases(s);
    if more {
      LinesPrefix(rest);
      ConcatCons(line, Lines(rest));
    } else {
      ConcatNothing();
    }
  }

  lemma ConcatNothing()
    ensures Concat([]) == []
  {
  }

  lemma WholeCases(line: Bytes, rest: Bytes)
    requires IsLine(line)
    ensures Whole(line + rest) <==> Whole(rest)
  {
    LinesCons(line, rest);
    ConcatCons(line, Lines(rest));
    hide Lines;
    hide Concat;
    if line + Concat(Lines(rest)) == line + rest {
      assert (line + Concat(Lines(rest)))[|line|..] == (line + rest)[|line|..];
    }
  }

  /** After complete lines, the rest is read as if it stood alone. */
  lemma {:induction false} LinesConcat(a: Bytes, b: Bytes)
    requires Whole(a)
    ensures Lines(a + b) == Lines(a) + Lines(b)
    decreases |a|
  {
    hide Lines;
    hide Concat;
    hide FirstLine;
    var more, line, rest := LinesCases(a);
    if more {
      WholeCases(line, rest);
      LinesConcat(rest, b);
      LinesCons(line, rest + b);
      assert line + (rest + b) == a + b;
    } else {
      ConcatNothing();
      assert a == [] && a + b == b;
    }
  }

  lemma {:induction false} ConcatConcat(a: seq<Bytes>, b: seq<Bytes>)
    ensures Concat(a + b) == Concat(a) + Concat(b)
  {
    if a == [] {
      assert a + b == b;
    } else {
      assert (a + b)[1..] == a[1..] + b;
      ConcatConcat(a[1..], b);
    }
  }

  lemma WholeConcat(a: Bytes, b: Bytes)
    requires Whole(a) && Whole(b)
    ensures Whole(a + b)
  {
    LinesConcat(a, b);
    hide Lines;
    ConcatConcat(Lines(a), Lines(b));
  }

  /** The first `j` complete lines are the complete lines of their own bytes, and the
      others are those of the rest. */
  lemma {:induction false} LinesTake(s: Bytes, j: nat) returns (t: Bytes, u: Bytes)
    requires j <= |Lines(s)|
    ensures s == t + u && t == Concat(Lines(s)[..j]) && Whole(t)
    ensures Lines(t) == Lines(s)[..j] && Lines(u) == Lines(s)[j..]
    decreases |s|
  {
    if j == 0 {
      t, u := [], s;
      assert Lines(s)[..0] == [];
    } else {
      hide *;
      var more, line, rest := LinesCases(s);
      var t', u' := LinesTake(rest, j - 1);
      t, u := line + t', u';
      TakeOfCons(line, Lines(rest), j);
      ConcatCons(line, Lines(rest)[..j - 1]);
      LinesCons(line, t');
      WholeCases(line, t');
      AddAssoc(line, t', u');
    }
  }

  lemma TakeOfCons(line: Bytes, rest: seq<Bytes>, j: nat)
    requires 1 <= j <= 1 + |rest|
    ensures ([line] + rest)[..j] == [line] + rest[..j - 1]
    ensures ([line] + rest)[j..] == rest[j - 1..]
  {
  }

  lemma AddAssoc<T>(a: seq<T>, b: seq<T>, c: seq<T>)
    ensures a + (b + c) == (a + b) + c
  {
  }

  /** How many lines at the start end in LF. */
  function Complete(raws: seq<Bytes>): (n: nat)
    ensures n <= |raws| && forall i :: 0 <= i < n ==> EndsLf(raws[i])
    ensures n < |raws| ==> !EndsLf(raws[n])
  {
    if raws == [] || !EndsLf(raws[0]) then 0 else 1 + Complete(raws[1..])
  }

  /** The complete lines are the lines of `splitlines` up to the first without LF. */
  lemma {:induction false} LinesAreComplete(s: Bytes)
    ensures Lines(s) == SplitLines(s)[..Complete(SplitLines(s))]
    decreases |s|
  {
    if s != [] {
      var n := FirstLine(s);
      var rest := SplitLines(s[n..]);
      assert SplitLines(s)[1..] == rest && s[..n][n - 1] == s[n - 1];
      if s[n - 1] == LF {
        LinesAreComplete(s[n..]);
        assert SplitLines(s)[..1 + Complete(rest)] == [s[..n]] + rest[..Complete(rest)];
      }
    }
  }

  // --------------------------------------------------------- the lone CR

  /** Every CR is followed by LF. */
  predicate NoLoneCr(t: Bytes) {
    forall i :: 0 <= i < |t| - 1 && t[i] == CR ==> t[i + 1] == LF
  }

  lemma {:induction false} FirstLineShape(s: Bytes)
    requires s != []
    ensures var n := FirstLine(s);
            && (forall i :: 0 <= i < n - 1 && s[i] == CR ==> s[i + 1] == LF)
            && (forall i :: 0 <= i < n - 1 ==> s[i] != LF)
            && (s[n - 1] != LF ==> n == |s| || (s[n - 1] == CR && s[n] != LF))
    decreases |s|
  {
    if s[0] != LF && s[0] != CR && |s| > 1 {
      FirstLineShape(s[1..]);
      var n := FirstLine(s);
      forall i | 0 <= i < n - 1 && s[i] == CR
        ensures s[i + 1] == LF
      {
        assert s[1..][i - 1] == s[i] && s[1..][i] == s[i + 1];
      }
      forall i | 0 <= i < n - 1
        ensures s[i] != LF
      {
        assert i > 0 ==> s[1..][i - 1] == s[i];
      }
    }
  }

  lemma NoLoneCrAfterLine(line: Bytes, rest: Bytes)
    requires line != [] && line[|line| - 1] == LF
    requires forall i :: 0 <= i < |line| - 1 && line[i] == CR ==> line[i + 1] == LF
    ensures NoLoneCr(line + rest) <==> NoLoneCr(rest)
  {
    var t, n := line + rest, |line|;
    if NoLoneCr(t) {
      assert forall i :: 0 <= i < |rest| ==> rest[i] == t[n + i];
    }
    if NoLoneCr(rest) {
      forall i | 0 <= i < |t| - 1 && t[i] == CR
        ensures t[i + 1] == LF
      {
        if i >= n {
          assert rest[i - n] == t[i] && rest[i - n + 1] == t[i + 1];
        }
      }
    }
  }

  /** A text that ends in LF is read to its end exactly when it has no lone CR. */
  lemma {:induction false} WholeIffNoLoneCr(t: Bytes)
    requires t == [] || t[|t| - 1] == LF
    ensures Whole(t) <==> NoLoneCr(t)
    decreases |t|
  {
    if t != [] {
      var n := FirstLine(t);
      FirstLineShape(t);
      if t[n - 1] == LF {
        var line, rest := t[..n], t[n..];
        FirstLineOfPrefix(t);
        assert t == line + rest;
        WholeCases(line, rest);
        WholeIffNoLoneCr(rest);
        NoLoneCrAfterLine(line, rest);
      } else {
        assert Lines(t) == [];
        ConcatNothing();
      }
    }
  }

  /** The first CR that something else than LF follows. */
  predicate FirstLoneCr(t: Bytes, i: nat) {
    && i + 1 < |t| && t[i] == CR && t[i + 1] != LF
    && forall k :: 0 <= k < i && t[k] == CR ==> t[k + 1] == LF
  }

  /** The first line of a text with a lone CR ends before that CR, or there is none. */
  lemma LineAndLoneCr(t: Bytes, i: nat) returns (more: bool, line: Bytes, rest: Bytes)
    requires FirstLoneCr(t, i)
    ensures i < |t| && (!more ==> Lines(t) == [] && Lines(t[..i]) == [])
    ensures more ==> t == line + rest && IsLine(line) && 1 <= |line| <= i
    ensures more ==> FirstLoneCr(rest, i - |line|) && t[..i] == line + rest[..i - |line|]
  {
    FirstLineShape(t);
    FirstLineOfPrefix(t);
    var n := FirstLine(t);
    more, line, rest := t[n - 1] == LF, t[..n], t[n..];
    if more {
      forall k | 0 <= k < i - n && rest[k] == CR
        ensures rest[k + 1] == LF
      {
        assert rest[k] == t[n + k] && rest[k + 1] == t[n + k + 1];
      }
    }
  }

  /** The lines of a text with a lone CR are those before the first one. */
  lemma {:induction false} LinesBeforeLoneCr(t: Bytes, i: nat)
    requires FirstLoneCr(t, i)
    ensures i <= |t| && Lines(t) == Lines(t[..i])
    decreases |t|
  {
    hide *;
    var more, line, rest := LineAndLoneCr(t, i);
    if more {
      LinesBeforeLoneCr(rest, i - |line|);
      LinesCons(line, rest);
      LinesCons(line, rest[..i - |line|]);
    }
  }

  /** The reader stops for ever at the first lone CR: whatever is appended, the lines it
      may take are those before that CR, and they end there or earlier. */
  lemma LoneCrStopsReader(t: Bytes, i: nat, more: Bytes)
    requires FirstLoneCr(t, i)
    ensures FirstLoneCr(t + more, i) && Lines(t + more) == Lines(t[..i]) && |Concat(Lines(t + more))| <= i
  {
    LinesBeforeLoneCr(t + more, i);
    assert (t + more)[..i] == t[..i];
    LinesPrefix(t[..i]);
  }

  // ------------------------------------------------------ one read of all files

  function NonBlank(raws: seq<Bytes>): seq<Bytes> {
    if raws == [] then [] else NonBlank(raws[..|raws| - 1]) + if IsBlank(raws[|raws| - 1]) then [] else [raws[|raws| - 1]]
  }

  lemma {:induction false} NonBlankConcat(a: seq<Bytes>, b: seq<Bytes>)
    ensures NonBlank(a + b) == NonBlank(a) + NonBlank(b)
    decreases |b|
  {
    if b == [] {
      assert a + b == a;
    } else {
      assert (a + b)[..|a + b| - 1] == a + b[..|b| - 1];
      NonBlankConcat(a, b[..|b| - 1]);
    }
  }

  /** How many of the lines one read takes, with room for `room` non-blank ones. */
  function TakeCount(raws: seq<Bytes>, room: nat): (j: nat)
    ensures j <= Complete(raws)
  {
    if raws == [] || !EndsLf(raws[0]) || room == 0 then 0
    else 1 + TakeCount(raws[1..], if IsBlank(raws[0]) then room else room - 1)
  }

  /** A read takes complete lines until they run out or the room is used up. */
  lemma {:induction false} TakeCountMeans(raws: seq<Bytes>, room: nat)
    ensures var j := TakeCount(raws, room);
            && |NonBlank(raws[..j])| <= room
            && (j < Complete(raws) ==> |NonBlank(raws[..j])| == room)
  {
    if raws == [] || !EndsLf(raws[0]) || room == 0 {
      assert raws[..0] == [];
    } else {
      var less := if IsBlank(raws[0]) then room else room - 1;
      TakeCountMeans(raws[1..], less);
      var j := TakeCount(raws[1..], less);
      assert raws[..j + 1] == [raws[0]] + raws[1..][..j];
      NonBlankConcat([raws[0]], raws[1..][..j]);
      assert [raws[0]][..0] == [];
    }
  }

  datatype Entry = Entry(path: string, line: Bytes)

  /** What one read yields: the lines, with the file each came from, and the new
      offsets of the files that moved on. */
  datatype Batch = Batch(entries: seq<Entry>, offsets: map<string, nat>)

  function Offset(offsets: map<string, nat>, path: string): nat {
    if path in offsets then offsets[path] else 0
  }

  function Chunk(content: Bytes, start: nat): Bytes {
    if start <= |content| then content[start..] else []
  }

  function Tag(path: string, lines: seq<Bytes>): (out: seq<Entry>)
    ensures |out| == |lines| && forall i :: 0 <= i < |lines| ==> out[i] == Entry(path, lines[i])
  {
    seq(|lines|, i requires 0 <= i < |lines| => Entry(path, lines[i]))
  }

  /** One file of a read. */
  function ReadFile(path: string, content: Bytes, start: nat, room: nat): Batch {
    var raws := SplitLines(Chunk(content, start));
    var taken := raws[..TakeCount(raws, room)];
    Batch(Tag(path, NonBlank(taken)), if Concat(taken) == [] then map[] else map[path := start + |Concat(taken)|])
  }

  /** The files of a read in order, until the room is used up; an unreadable one is skipped. */
  function ReadAll(paths: seq<string>, files: map<string, Bytes>, offsets: map<string, nat>, room: nat): Batch {
    if paths == [] || room == 0 then Batch([], map[])
    else if paths[0] !in files then ReadAll(paths[1..], files, offsets, room)
    else
      var head := ReadFile(paths[0], files[paths[0]], Offset(offsets, paths[0]), room);
      var rest := ReadAll(paths[1..], files, offsets, if |head.entries| <= room then room - |head.entries| else 0);
      Batch(head.entries + rest.entries, head.offsets + rest.offsets)
  }

  function LinesOf(entries: seq<Entry>): (lines: seq<Bytes>)
    ensures |lines| == |entries| && forall i :: 0 <= i < |entries| ==> lines[i] == entries[i].line
  {
    seq(|entries|, i requires 0 <= i < |entries| => entries[i].line)
  }

  lemma TakeStep(raws: seq<Bytes>, i: nat, room: nat)
    requires i < |raws|
    ensures TakeCount(raws[i..], room) ==
            if !EndsLf(raws[i]) || room == 0 then 0
            else 1 + TakeCount(raws[i + 1..], if IsBlank(raws[i]) then room else room - 1)
    ensures NonBlank(raws[..i + 1]) == NonBlank(raws[..i]) + if IsBlank(raws[i]) then [] else [raws[i]]
    ensures Concat(raws[..i + 1]) == Concat(raws[..i]) + raws[i]
  {
    assert raws[i..][0] == raws[i] && raws[i..][1..] == raws[i + 1..];
    assert raws[..i + 1] == raws[..i] + [raws[i]] && raws[..i + 1][..i] == raws[..i];
    ConcatConcat(raws[..i], [raws[i]]);
    assert [raws[i]][1..] == [];
  }

  /** The inner loop of `_read_new_lines`: one file. */
  method ReadOne(content: Bytes, start: nat, room: nat) returns (lines: seq<Bytes>, pos: nat)
    ensures var raws := SplitLines(Chunk(content, start));
            var taken := raws[..TakeCount(raws, room)];
            lines == NonBlank(taken) && pos == start + |Concat(taken)|
  {
    var raws := SplitLines(Chunk(content, start));
    TakeNothing(room);
    hide *;
    lines, pos := [], start;
    ghost var left: nat := room;
    var i := 0;
    assert raws[0..] == raws && raws[..0] == [];
    assert raws[..|raws|] == raws && raws[|raws|..] == [];
    while i < |raws|
      invariant 0 <= i <= |raws| && |lines| + left == room
      invariant lines == NonBlank(raws[..i]) && pos == start + |Concat(raws[..i])|
      invariant TakeCount(raws, room) == i + TakeCount(raws[i..], left)
    {
      TakeStep(raws, i, left);
      if !EndsLf(raws[i]) || |lines| >= room {
        return;
      }
      if !IsBlank(raws[i]) {
        lines := lines + [raws[i]];
        left := left - 1;
      }
      pos := pos + |raws[i]|;
      i := i + 1;
    }
    TakeNothing(left);
  }

  lemma TakeNothing(room: nat)
    ensures NonBlank([]) == [] && Concat([]) == [] && TakeCount([], room) == 0
  {
  }

  /** What a read has done so far, followed by what it will do. */
  function Resume(entries: seq<Entry>, offsets: map<string, nat>, rest: Batch): Batch {
    Batch(entries + rest.entries, offsets + rest.offsets)
  }

  lemma ReadSkip(paths: seq<string>, i: nat, files: map<string, Bytes>, offsets: map<string, nat>, room: nat)
    requires i < |paths| && room > 0 && paths[i] !in files
    ensures ReadAll(paths[i..], files, offsets, room) == ReadAll(paths[i + 1..], files, offsets, room)
  {
    assert paths[i..][0] == paths[i] && paths[i..][1..] == paths[i + 1..];
  }

  lemma ReadFits(path: string, content: Bytes, start: nat, room: nat)
    ensures |ReadFile(path, content, start, room).entries| <= room
  {
    TakeCountMeans(SplitLines(Chunk(content, start)), room);
  }

  lemma ReadHead(paths: seq<string>, i: nat, files: map<string, Bytes>, offsets: map<string, nat>, room: nat)
    requires i < |paths| && room > 0 && paths[i] in files
    ensures var head := ReadFile(paths[i], files[paths[i]], Offset(offsets, paths[i]), room);
            && |head.entries| <= room
            && ReadAll(paths[i..], files, offsets, room) ==
               Resume(head.entries, head.offsets, ReadAll(paths[i + 1..], files, offsets, room - |head.entries|))
  {
    assert paths[i..][0] == paths[i] && paths[i..][1..] == paths[i + 1..];
    ReadFits(paths[i], files[paths[i]], Offset(offsets, paths[i]), room);
    hide ReadFile;
  }

  lemma ResumeResume(entries: seq<Entry>, done: map<string, nat>, more: seq<Entry>, moved: map<string, nat>, rest: Batch)
    ensures Resume(entries, done, Resume(more, moved, rest)) == Resume(entries + more, done + moved, rest)
  {
    AddAssoc(entries, more, rest.entries);
    assert done + (moved + rest.offsets) == (done + moved) + rest.offsets;
  }

  lemma ReadEnd(entries: seq<Entry>, done: map<string, nat>, paths: seq<string>, files: map<string, Bytes>, offsets: map<string, nat>, room: nat)
    requires paths == [] || room == 0
    ensures Resume(entries, done, ReadAll(paths, files, offsets, room)) == Batch(entries, done)
  {
    assert entries + [] == entries && done + map[] == done;
  }

  lemma ReadBegin(b: Batch)
    ensures Resume([], map[], b) == b
  {
    assert [] + b.entries == b.entries && map[] + b.offsets == b.offsets;
  }

  lemma LinesOfConcat(a: seq<Entry>, b: seq<Entry>)
    ensures LinesOf(a + b) == LinesOf(a) + LinesOf(b)
  {
  }

  /** What the loop over one file computes is what that file contributes. */
  lemma ReadFileIs(path: string, content: Bytes, start: nat, room: nat, lines: seq<Bytes>, pos: nat)
    requires var taken := SplitLines(Chunk(content, start))[..TakeCount(SplitLines(Chunk(content, start)), room)];
             lines == NonBlank(taken) && pos == start + |Concat(taken)|
    ensures var head := ReadFile(path, content, start, room);
            LinesOf(head.entries) == lines && forall done: map<string, nat> ::
              done + head.offsets == if pos > start then done[path := pos] else done
  {
    hide SplitLines;
    hide Chunk;
    hide NonBlank;
    hide TakeCount;
    hide Concat;
  }

  /** One readable file: what was read, extended by it. */
  lemma ReadStep(
      paths: seq<string>, i: nat, files: map<string, Bytes>, offsets: map<string, nat>, room: nat,
      entries: seq<Entry>, done: map<string, nat>, lines: seq<Bytes>, pos: nat)
    returns (entries': seq<Entry>)
    requires i < |paths| && room > 0 && paths[i] in files
    requires var raws := SplitLines(Chunk(files[paths[i]], Offset(offsets, paths[i])));
             var taken := raws[..TakeCount(raws, room)];
             lines == NonBlank(taken) && pos == Offset(offsets, paths[i]) + |Concat(taken)|
    ensures |lines| <= room && LinesOf(entries') == LinesOf(entries) + lines
    ensures var done' := if pos > Offset(offsets, paths[i]) then done[paths[i] := pos] else done;
            Resume(entries, done, ReadAll(paths[i..], files, offsets, room)) ==
            Resume(entries', done', ReadAll(paths[i + 1..], files, offsets, room - |lines|))
  {
    hide *;
    var start := Offset(offsets, paths[i]);
    var head := ReadFile(paths[i], files[paths[i]], start, room);
    ReadHead(paths, i, files, offsets, room);
    ReadFileIs(paths[i], files[paths[i]], start, room, lines, pos);
    assert |lines| == |head.entries|;
    entries' := entries + head.entries;
    LinesOfConcat(entries, head.entries);
    ResumeResume(entries, done, head.entries, head.offsets, ReadAll(paths[i + 1..], files, offsets, room - |lines|));
  }

  /** One turn of the outer loop of `_read_new_lines`. */
  method ReadPath(
      paths: seq<string>, i: nat, files: map<string, Bytes>, offsets: map<string, nat>, room: nat,
      lines: seq<Bytes>, newOffsets: map<string, nat>, ghost entries: seq<Entry>)
    returns (lines': seq<Bytes>, newOffsets': map<string, nat>, room': nat, ghost entries': seq<Entry>)
    requires i < |paths| && room > 0 && lines == LinesOf(entries)
    ensures lines' == LinesOf(entries') && |lines'| + room' == |lines| + room
    ensures Resume(entries, newOffsets, ReadAll(paths[i..], files, offsets, room)) ==
            Resume(entries', newOffsets', ReadAll(paths[i + 1..], files, offsets, room'))
  {
    hide *;
    lines', newOffsets', room', entries' := lines, newOffsets, room, entries;
    if paths[i] in files {
      var start := Offset(offsets, paths[i]);
      var more, pos := ReadOne(files[paths[i]], start, room);
      entries' := ReadStep(paths, i, files, offsets, room, entries, newOffsets, more, pos);
      if pos > start {
        newOffsets' := newOffsets[paths[i] := pos];
      }
      lines', room' := lines + more, room - |more|;
    } else {
      ReadSkip(paths, i, files, offsets, room);
    }
  }

  /** `_read_new_lines` over the matched paths in sorted order. */
  method ReadNewLines(paths: seq<string>, files: map<string, Bytes>, offsets: map<string, nat>, maxLines: nat)
    returns (lines: seq<Bytes>, newOffsets: map<string, nat>)
    ensures var batch := ReadAll(paths, files, offsets, maxLines);
            lines == LinesOf(batch.entries) && newOffsets == batch.offsets
  {
    ghost var batch := ReadAll(paths, files, offsets, maxLines);
    ghost var entries: seq<Entry> := [];
    lines, newOffsets := [], map[];
    assert paths[0..] == paths;
    ReadBegin(batch);
    hide *;
    var room: nat := maxLines;
    var i := 0;
    while i < |paths| && room > 0
      invariant 0 <= i <= |paths| && |lines| + room == maxLines && lines == LinesOf(entries)
      invariant batch == Resume(entries, newOffsets, ReadAll(paths[i..], files, offsets, room))
    {
      lines, newOffsets, room, entries := ReadPath(paths, i, files, offsets, room, lines, newOffsets, entries);
      i := i + 1;
    }
    ReadEnd(entries, newOffsets, paths[i..], files, offsets, room);
  }
}
