/**
 * The two character scanners of the pipeline compiler: `split_pipeline` and
 * `_count_placeholders`.
 *
 * The scanners walk the text with an index, a quote register and a special
 * branch for a doubled character. Their references below know nothing of that
 * walk: quoting is plain toggling, and a cut is described by what stands around
 * it in the text.
 */
module PipelineText {
  import opened Prelude

  // ---------------------------------------------------------------- quoting

  datatype Quote = Outside | Inside(mark: char)

  predicate IsQuoteMark(c: char) {
    c == '\'' || c == '"'
  }

  /** Plain toggling: no special case for a doubled mark. */
  function Toggle(q: Quote, c: char): Quote {
    match q
    case Outside => if IsQuoteMark(c) then Inside(c) else Outside
    case Inside(mark) => if c == mark then Outside else q
  }

  /** The quote state after reading `s` from state `q`. */
  function QuoteAfter(q: Quote, s: string): Quote {
    if s == [] then q else Toggle(QuoteAfter(q, s[..|s| - 1]), s[|s| - 1])
  }

  predicate Balanced(s: string) {
    QuoteAfter(Outside, s) == Outside
  }

  lemma {:induction false} QuoteAfterConcat(q: Quote, a: string, b: string)
    ensures QuoteAfter(q, a + b) == QuoteAfter(QuoteAfter(q, a), b)
    decreases |b|
  {
    if b == [] {
      assert a + b == a;
    } else {
      var front := b[..|b| - 1];
      assert (a + b)[..|a + b| - 1] == a + front;
      QuoteAfterConcat(q, a, front);
    }
  }

  // ------------------------------------------------------------ placeholders

  /** The number of `?` in `s` that stand outside quotes, reading from state `q`. */
  function Placeholders(q: Quote, s: string): nat {
    if s == [] then 0 else
      var front := s[..|s| - 1];
      Placeholders(q, front) + if s[|s| - 1] == '?' && QuoteAfter(q, front) == Outside then 1 else 0
  }

  lemma {:induction false} PlaceholdersConcat(q: Quote, a: string, b: string)
    ensures Placeholders(q, a + b) == Placeholders(q, a) + Placeholders(QuoteAfter(q, a), b)
    decreases |b|
  {
    if b == [] {
      assert a + b == a;
    } else {
      var front := b[..|b| - 1];
      assert (a + b)[..|a + b| - 1] == a + front;
      PlaceholdersConcat(q, a, front);
      QuoteAfterConcat(q, a, front);
    }
  }

  /** `_count_placeholders`. The doubled-mark branch skips two characters at once;
      the contract says it might as well have toggled twice. */
  method CountPlaceholders(sql: string) returns (count: nat)
    ensures count == Placeholders(Outside, sql)
  {
    count := 0;
    var quote, i, n := Outside, 0, |sql|;
    while i < n
      invariant 0 <= i <= n
      invariant quote == QuoteAfter(Outside, sql[..i])
      invariant quote.Inside? ==> IsQuoteMark(quote.mark)
      invariant count == Placeholders(Outside, sql[..i])
    {
      var c := sql[i];
      assert sql[..i + 1][..i] == sql[..i];
      assert QuoteAfter(Outside, sql[..i + 1]) == Toggle(quote, c);
      if quote.Inside? {
        if c == quote.mark {
          if i + 1 < n && sql[i + 1] == quote.mark {
            assert sql[..i + 2][..i + 1] == sql[..i + 1];
            assert QuoteAfter(Outside, sql[..i + 2]) == Toggle(Outside, sql[i + 1]);
            i := i + 2;
            continue;
          }
          quote := Outside;
        }
      } else if IsQuoteMark(c) {
        quote := Inside(c);
      } else if c == '?' {
        count := count + 1;
      }
      i := i + 1;
    }
    assert sql[..n] == sql;
  }

  // -------------------------------------------------------------------- cuts

  /** How many pipes stand directly before position `i`. */
  function PipesBefore(s: string, i: nat): nat
    requires i <= |s|
  {
    if i == 0 || s[i - 1] != '|' then 0 else 1 + PipesBefore(s, i - 1)
  }

  /** A cut: a pipe outside quotes that is left over when the pipes of its run are
      paired off from the left, `||` being SQL's concatenation operator. */
  predicate IsCut(s: string, i: nat) {
    && i < |s|
    && s[i] == '|'
    && QuoteAfter(Outside, s[..i]) == Outside
    && PipesBefore(s, i) % 2 == 0
    && (i + 1 < |s| ==> s[i + 1] != '|')
  }

  predicate Solid(s: string) {
    forall i :: 0 <= i < |s| ==> !IsCut(s, i)
  }

  /** The first cut of `s` at or after `from`, or `|s|` when there is none. */
  function FirstCut(s: string, from: nat): (c: nat)
    requires from <= |s|
    ensures from <= c <= |s|
    ensures c < |s| ==> IsCut(s, c)
    ensures forall i :: from <= i < c ==> !IsCut(s, i)
    decreases |s| - from
  {
    if from == |s| || IsCut(s, from) then from else FirstCut(s, from + 1)
  }

  /** The raw segments: the text taken apart at its cuts, first cut first. */
  function Raw(s: string): (segs: seq<string>)
    ensures |segs| >= 1
    decreases |s|
  {
    var c := FirstCut(s, 0);
    if c == |s| then [s] else [s[..c]] + Raw(s[c + 1..])
  }

  function Join(segs: seq<string>, sep: string): string
    requires |segs| >= 1
  {
    if |segs| == 1 then segs[0] else segs[0] + sep + Join(segs[1..], sep)
  }

  // ------------------------------------------------- how cuts see their text

  /** The seam between `a` and `b` does not run through a run of pipes. */
  predicate CleanSeam(a: string, b: string) {
    a == [] || b == [] || a[|a| - 1] != '|' || b[0] != '|'
  }

  lemma {:induction false} PipesBeforePrefix(a: string, b: string, i: nat)
    requires i <= |a|
    ensures PipesBefore(a + b, i) == PipesBefore(a, i)
  {
    if i > 0 && a[i - 1] == '|' {
      PipesBeforePrefix(a, b, i - 1);
    }
  }

  lemma {:induction false} PipesBeforeSuffix(a: string, b: string, i: nat)
    requires i <= |b|
    requires i == 0 ==> a == [] || a[|a| - 1] != '|'
    requires i > 0 ==> CleanSeam(a, b)
    ensures PipesBefore(a + b, |a| + i) == PipesBefore(b, i)
  {
    if i == 0 || b[i - 1] != '|' {
    } else if i == 1 {
      assert b[0] == '|';
      PipesBeforeSuffix(a, b, 0);
    } else {
      PipesBeforeSuffix(a, b, i - 1);
    }
  }

  /** Cuts are local: across a clean seam that is outside quotes, the cuts of the
      whole are the cuts of the two parts. */
  lemma CutsAcrossSeam(a: string, b: string, i: nat)
    requires Balanced(a) && CleanSeam(a, b)
    ensures i < |a| ==> (IsCut(a + b, i) <==> IsCut(a, i))
    ensures IsCut(a + b, |a| + i) <==> IsCut(b, i)
  {
    var s := a + b;
    if i < |a| {
      assert s[..i] == a[..i];
      PipesBeforePrefix(a, b, i);
    }
    if i < |b| {
      assert s[..|a| + i] == a + b[..i];
      QuoteAfterConcat(Outside, a, b[..i]);
      if b[i] == '|' {
        PipesBeforeSuffix(a, b, i);
      }
    }
  }

  /** A cut of `a` is a cut of `a + b`, unless it is a last pipe that `b` pairs up. */
  lemma CutOfPrefix(a: string, b: string, i: nat)
    requires i < |a| && IsCut(a, i)
    ensures IsCut(a + b, i) || (i + 1 == |a| && EndsInOddPipes(a))
  {
    PipesBeforePrefix(a, b, i);
    assert (a + b)[..i] == a[..i];
  }

  lemma CutsOfPrefix(a: string, b: string, i: nat)
    requires i < |a| && IsCut(a + b, i)
    ensures IsCut(a, i)
  {
    PipesBeforePrefix(a, b, i);
    assert (a + b)[..i] == a[..i];
  }

  /** What stands before the first cut is balanced and has no cut of its own. */
  lemma FirstSegmentSolid(a: string, b: string)
    requires IsCut(a + b, |a|)
    requires forall i :: 0 <= i < |a| ==> !IsCut(a + b, i)
    ensures Solid(a) && Balanced(a) && !EndsInOddPipes(a)
  {
    PipesBeforePrefix(a, b, |a|);
    assert (a + b)[..|a|] == a;
    forall i | 0 <= i < |a|
      ensures !IsCut(a, i)
    {
      if IsCut(a, i) {
        CutOfPrefix(a, b, i);
      }
    }
  }

  /** What follows a cut is cut as if it stood alone. */
  lemma CutsAfterCut(a: string, rest: string, i: nat)
    requires IsCut(a + ("|" + rest), |a|) && Balanced(a)
    ensures !StartsWithPipe(rest)
    ensures IsCut(a + ("|" + rest), |a| + 1 + i) <==> IsCut(rest, i)
  {
    var s, upTo := a + ("|" + rest), a + "|";
    assert s == upTo + rest && (rest != [] ==> s[|a| + 1] == rest[0]);
    assert upTo[..|a|] == a;
    assert Toggle(Outside, '|') == Outside;
    CutsAcrossSeam(upTo, rest, i);
  }

  // -------------------------------------------------------------- split laws

  /** One unfolding of `Raw`: no cut at all, or a first segment, a pipe and the rest. */
  lemma RawCases(s: string) returns (cut: bool, a: string, rest: string)
    ensures !cut ==> Raw(s) == [s] && Solid(s)
    ensures cut ==> s == a + ("|" + rest) && Raw(s) == [a] + Raw(rest) && |rest| < |s|
    ensures cut ==> IsCut(s, |a|) && Balanced(a) && forall i :: 0 <= i < |a| ==> !IsCut(s, i)
  {
    var c := FirstCut(s, 0);
    cut, a, rest := c < |s|, s, [];
    if cut {
      a, rest := s[..c], s[c + 1..];
    }
  }

  /** Raw segments joined by `|` give back the text. */
  lemma {:induction false} RawJoins(s: string)
    ensures Join(Raw(s), "|") == s
    decreases |s|
  {
    hide IsCut;
    hide FirstCut;
    hide Raw;
    var cut, a, rest := RawCases(s);
    if cut {
      RawJoins(rest);
      assert Raw(s)[1..] == Raw(rest);
    }
  }

  /** Where the joint after segment `j` lies in the joined text. */
  function JointAt(segs: seq<string>, j: nat): nat
    requires j < |segs|
  {
    |segs[0]| + if j == 0 then 0 else 1 + JointAt(segs[1..], j - 1)
  }

  predicate IsJoint(segs: seq<string>, i: nat) {
    exists j :: 0 <= j < |segs| - 1 && JointAt(segs, j) == i
  }

  lemma JointsShift(segs: seq<string>, i: nat)
    requires |segs| >= 2
    ensures IsJoint(segs, i) <==>
            i == |segs[0]| || (i > |segs[0]| && IsJoint(segs[1..], i - |segs[0]| - 1))
  {
    if i == |segs[0]| {
      assert JointAt(segs, 0) == i;
    }
    if i > |segs[0]| && IsJoint(segs[1..], i - |segs[0]| - 1) {
      var j :| 0 <= j < |segs[1..]| - 1 && JointAt(segs[1..], j) == i - |segs[0]| - 1;
      assert JointAt(segs, j + 1) == i;
    }
    if IsJoint(segs, i) {
      var j :| 0 <= j < |segs| - 1 && JointAt(segs, j) == i;
      if j > 0 {
        assert JointAt(segs[1..], j - 1) == i - |segs[0]| - 1;
      }
    }
  }

  /** The joints of the raw segments are exactly the cuts of the whole text. */
  lemma {:induction false} JointsAreCuts(s: string, i: nat)
    ensures IsJoint(Raw(s), i) <==> IsCut(s, i)
    decreases |s|
  {
    hide IsCut;
    hide FirstCut;
    hide Raw;
    hide QuoteAfter;
    hide IsJoint;
    var cut, a, rest := RawCases(s);
    if cut {
      assert Raw(s)[1..] == Raw(rest);
      JointsShift(Raw(s), i);
      if i > |a| {
        JointsAreCuts(rest, i - |a| - 1);
        CutsAfterCut(a, rest, i - |a| - 1);
      } else if i < |a| {
        assert !IsCut(s, i);
      }
    } else {
      NoJoints(s, i);
      if IsCut(s, i) {
        CutInRange(s, i);
      }
    }
  }

  lemma NoJoints(s: string, i: nat)
    ensures !IsJoint([s], i)
  {
  }

  lemma CutInRange(s: string, i: nat)
    requires IsCut(s, i)
    ensures i < |s|
  {
  }

  /** The segment lists that survive being joined by `|` and split again. */
  predicate Splittable(segs: seq<string>) {
    && (forall j :: 0 <= j < |segs| ==> Solid(segs[j]))
    && (forall j :: 0 <= j < |segs| - 1 ==> Balanced(segs[j]) && !EndsInOddPipes(segs[j]))
    && (forall j :: 1 <= j < |segs| ==> !StartsWithPipe(segs[j]))
    && (forall j :: 1 <= j < |segs| - 1 ==> segs[j] != [])
  }

  predicate EndsInOddPipes(s: string) {
    PipesBefore(s, |s|) % 2 == 1
  }

  predicate StartsWithPipe(s: string) {
    s != [] && s[0] == '|'
  }

  lemma {:induction false} RawIsSplittable(s: string)
    ensures Splittable(Raw(s))
    ensures |Raw(s)| > 1 && Raw(s)[0] == [] ==> StartsWithPipe(s)
    ensures StartsWithPipe(Raw(s)[0]) ==> StartsWithPipe(s)
    decreases |s|
  {
    hide IsCut;
    hide FirstCut;
    hide Raw;
    hide QuoteAfter;
    hide PipesBefore;
    var cut, a, rest := RawCases(s);
    if cut {
      RawIsSplittable(rest);
      FirstSegmentSolid(a, "|" + rest);
      CutsAfterCut(a, rest, 0);
      hide Solid;
      hide Balanced;
      hide EndsInOddPipes;
      assert Raw(s)[1..] == Raw(rest);
      assert forall j :: 1 <= j < |Raw(s)| ==> Raw(s)[j] == Raw(rest)[j - 1];
    }
  }

  /** Joining a splittable list and splitting it again is the identity: with
      RawIsSplittable and RawJoins, `Raw` and `Join` are inverse bijections. */
  lemma {:induction false} JoinThenRaw(segs: seq<string>)
    requires |segs| >= 1 && Splittable(segs)
    ensures Raw(Join(segs, "|")) == segs
    decreases |segs|
  {
    hide IsCut;
    hide Raw;
    hide QuoteAfter;
    hide PipesBefore;
    var s := Join(segs, "|");
    if |segs| == 1 {
      SolidIsOneSegment(s);
    } else {
      var rest := Join(segs[1..], "|");
      assert forall j :: 0 <= j < |segs[1..]| ==> segs[1..][j] == segs[j + 1];
      JoinThenRaw(segs[1..]);
      assert segs[1..][0] == segs[1] && (|segs| > 2 ==> segs[1] != []);
      RawOfJoin(segs[0], rest);
      assert s == segs[0] + ("|" + rest);
    }
  }

  lemma SolidIsOneSegment(s: string)
    requires Solid(s)
    ensures Raw(s) == [s]
  {
    assert FirstCut(s, 0) == |s|;
  }

  lemma RawAtFirstCut(s: string, c: nat)
    requires IsCut(s, c) && forall i :: 0 <= i < c ==> !IsCut(s, i)
    ensures Raw(s) == [s[..c]] + Raw(s[c + 1..])
  {
    assert FirstCut(s, 0) == c;
  }

  lemma RawOfJoin(a: string, rest: string)
    requires Solid(a) && Balanced(a) && !EndsInOddPipes(a) && !StartsWithPipe(rest)
    ensures Raw(a + ("|" + rest)) == [a] + Raw(rest)
  {
    var s := a + ("|" + rest);
    PipesBeforePrefix(a, "|" + rest, |a|);
    assert s[..|a|] == a && s[|a| + 1..] == rest;
    assert IsCut(s, |a|);
    forall i | 0 <= i < |a|
      ensures !IsCut(s, i)
    {
      if IsCut(s, i) {
        CutsOfPrefix(a, "|" + rest, i);
      }
    }
    RawAtFirstCut(s, |a|);
  }

  // ------------------------------------------------------------------- strip

  /** Python's `str.isspace` for one character. */
  predicate IsSpace(c: char) {
    || '\U{9}' <= c <= '\U{D}' || '\U{1C}' <= c <= '\U{20}'
    || c in {'\U{85}', '\U{A0}', '\U{1680}', '\U{2028}', '\U{2029}', '\U{202F}', '\U{205F}', '\U{3000}'}
    || '\U{2000}' <= c <= '\U{200A}'
  }

  predicate Spaces(s: string) {
    forall i :: 0 <= i < |s| ==> IsSpace(s[i])
  }

  /** No space at either end. */
  predicate Trimmed(s: string) {
    s != [] ==> !IsSpace(s[0]) && !IsSpace(s[|s| - 1])
  }

  function Strip(s: string): (t: string)
    ensures Trimmed(t)
    decreases |s|
  {
    if s == [] then s
    else if IsSpace(s[0]) then Strip(s[1..])
    else if IsSpace(s[|s| - 1]) then Strip(s[..|s| - 1])
    else s
  }

  /** Stripping takes away spaces, and only spaces, at the two ends. */
  lemma {:induction false} StripParts(s: string) returns (before: string, after: string)
    ensures s == before + Strip(s) + after && Spaces(before) && Spaces(after)
    decreases |s|
  {
    before, after := [], [];
    if s != [] {
      if IsSpace(s[0]) {
        before, after := StripParts(s[1..]);
        before := [s[0]] + before;
      } else if IsSpace(s[|s| - 1]) {
        before, after := StripParts(s[..|s| - 1]);
        after := after + [s[|s| - 1]];
      }
    }
  }

  lemma {:induction false} StripPadded(before: string, t: string, after: string)
    requires Spaces(before) && Spaces(after) && Trimmed(t) && t != []
    ensures Strip(before + t + after) == t
    decreases |before| + |after|
  {
    var s := before + t + after;
    if before != [] {
      assert s[1..] == before[1..] + t + after;
      StripPadded(before[1..], t, after);
    } else if after != [] {
      assert s[..|s| - 1] == before + t + after[..|after| - 1];
      StripPadded(before, t, after[..|after| - 1]);
    } else {
      assert s == t;
    }
  }

  lemma {:induction false} SpacesAreQuiet(q: Quote, w: string)
    requires Spaces(w) && (q.Inside? ==> IsQuoteMark(q.mark))
    ensures QuoteAfter(q, w) == q && Placeholders(q, w) == 0
    decreases |w|
  {
    if w != [] {
      SpacesAreQuiet(q, w[..|w| - 1]);
    }
  }

  lemma {:induction false} QuoteMarks(s: string)
    ensures var q := QuoteAfter(Outside, s); q.Inside? ==> IsQuoteMark(q.mark)
    decreases |s|
  {
    if s != [] {
      QuoteMarks(s[..|s| - 1]);
    }
  }

  lemma CutsBeforeSpaces(t: string, after: string, i: nat)
    requires Spaces(after)
    ensures IsCut(t + after, i) <==> IsCut(t, i)
  {
    if i < |t| {
      assert (t + after)[..i] == t[..i];
      PipesBeforePrefix(t, after, i);
    }
  }

  /** Padding with spaces changes neither cuts, nor quoting, nor placeholders. */
  lemma PaddingIsNeutral(before: string, t: string, after: string)
    requires Spaces(before) && Spaces(after)
    ensures Solid(before + t + after) <==> Solid(t)
    ensures Balanced(before + t + after) <==> Balanced(t)
    ensures Placeholders(Outside, before + t + after) == Placeholders(Outside, t)
  {
    var s := before + t + after;
    assert s == before + (t + after);
    QuoteAfterConcat(Outside, before, t + after);
    QuoteAfterConcat(Outside, t, after);
    PlaceholdersConcat(Outside, before, t + after);
    PlaceholdersConcat(Outside, t, after);
    SpacesAreQuiet(Outside, before);
    QuoteMarks(t);
    SpacesAreQuiet(QuoteAfter(Outside, t), after);
    forall i: nat
      ensures IsCut(s, |before| + i) <==> IsCut(t, i)
    {
      CutsAcrossSeam(before, t + after, i);
      CutsBeforeSpaces(t, after, i);
    }
    if Solid(t) {
      forall i | 0 <= i < |s|
        ensures !IsCut(s, i)
      {
        if i >= |before| {
          assert IsCut(s, |before| + (i - |before|)) <==> IsCut(t, i - |before|);
        }
      }
    }
    if Solid(s) {
      forall i | 0 <= i < |t|
        ensures !IsCut(t, i)
      {
        assert IsCut(s, |before| + i) <==> IsCut(t, i);
      }
    }
  }

  // ---------------------------------------------------------- split_pipeline

  function StripAll(segs: seq<string>): (out: seq<string>)
    ensures |out| == |segs|
    ensures forall j :: 0 <= j < |segs| ==> out[j] == Strip(segs[j])
  {
    if segs == [] then [] else [Strip(segs[0])] + StripAll(segs[1..])
  }

  function Split(text: string): Result<seq<string>> {
    var out := StripAll(Raw(text));
    if [] in out then Err("empty pipeline segment") else Ok(out)
  }

  /** The scanner has read `buf` of `rest`, the text after the last cut. */
  ghost predicate Scanned(rest: string, buf: string, quote: Quote) {
    && buf <= rest
    && (forall k :: 0 <= k < |buf| ==> !IsCut(rest, k))
    && quote == QuoteAfter(Outside, buf)
    && (quote.Inside? ==> IsQuoteMark(quote.mark))
    && (quote == Outside && |buf| < |rest| && rest[|buf|] == '|' ==> PipesBefore(rest, |buf|) % 2 == 0)
  }

  lemma ScanOne(rest: string, buf: string, quote: Quote)
    requires Scanned(rest, buf, quote) && |buf| < |rest|
    requires quote == Outside ==> rest[|buf|] != '|'
    ensures Scanned(rest, buf + [rest[|buf|]], Toggle(quote, rest[|buf|]))
  {
    var b, c := |buf|, rest[|buf|];
    assert (buf + [c])[..b] == buf && rest[..b] == buf && rest[..b + 1] == buf + [c];
    assert !IsCut(rest, b);
  }

  lemma ScanPair(rest: string, buf: string)
    requires Scanned(rest, buf, Outside) && |buf| + 1 < |rest|
    requires rest[|buf|] == '|' && rest[|buf| + 1] == '|'
    ensures Scanned(rest, buf + "||", Outside)
  {
    var b := |buf|;
    assert rest[..b + 2] == buf + "||" && (buf + "||")[..b + 1] == buf + "|" && (buf + "|")[..b] == buf;
    assert Toggle(Toggle(Outside, '|'), '|') == Outside;
    assert PipesBefore(rest, b + 1) == 1 + PipesBefore(rest, b);
    assert PipesBefore(rest, b + 2) == 1 + PipesBefore(rest, b + 1);
    assert !IsCut(rest, b) && !IsCut(rest, b + 1);
  }

  lemma ScanCut(rest: string, buf: string)
    requires Scanned(rest, buf, Outside) && |buf| < |rest| && rest[|buf|] == '|'
    requires |buf| + 1 < |rest| ==> rest[|buf| + 1] != '|'
    ensures Raw(rest) == [buf] + Raw(rest[|buf| + 1..])
    ensures Scanned(rest[|buf| + 1..], [], Outside)
  {
    assert rest[..|buf|] == buf;
    RawAtFirstCut(rest, |buf|);
  }

  /** At the end of the text, what is left is one last segment. */
  lemma ScanEnd(rest: string, buf: string, quote: Quote)
    requires Scanned(rest, buf, quote) && |buf| == |rest|
    ensures Raw(rest) == [buf]
  {
    assert rest == buf;
    assert FirstCut(rest, 0) == |rest|;
  }

  method SplitPipeline(text: string) returns (r: Result<seq<string>>)
    ensures r == Split(text)
  {
    var segs: seq<string>, buf: string := [], [];
    var quote, i, n := Outside, 0, |text|;
    ghost var rest := text;
    hide Raw;
    while i < n
      invariant |buf| <= i <= n && rest == text[i - |buf|..]
      invariant segs + Raw(rest) == Raw(text)
      invariant Scanned(rest, buf, quote)
      invariant quote.Inside? ==> IsQuoteMark(quote.mark)
    {
      var c := text[i];
      assert c == rest[|buf|];
      if quote.Inside? {
        ScanOne(rest, buf, quote);
        buf := buf + [c];
        if c == quote.mark {
          if i + 1 < n && text[i + 1] == quote.mark {
            ScanOne(rest, buf, Outside);
            buf := buf + [text[i + 1]];
            i := i + 2;
            continue;
          }
          quote := Outside;
        }
      } else if IsQuoteMark(c) {
        ScanOne(rest, buf, quote);
        quote := Inside(c);
        buf := buf + [c];
      } else if c == '|' {
        if i + 1 < n && text[i + 1] == '|' {
          ScanPair(rest, buf);
          buf := buf + "||";
          i := i + 2;
          continue;
        }
        ScanCut(rest, buf);
        assert segs + ([buf] + Raw(rest[|buf| + 1..])) == (segs + [buf]) + Raw(rest[|buf| + 1..]);
        segs := segs + [buf];
        rest := rest[|buf| + 1..];
        buf := [];
      } else {
        ScanOne(rest, buf, quote);
        buf := buf + [c];
      }
      i := i + 1;
    }
    ScanEnd(rest, buf, quote);
    segs := segs + [buf];
    var out := StripAll(segs);
    r := if [] in out then Err("empty pipeline segment") else Ok(out);
  }

  // ------------------------------------------------------- laws of the split

  function SumPlaceholders(segs: seq<string>): nat {
    if segs == [] then 0 else Placeholders(Outside, segs[0]) + SumPlaceholders(segs[1..])
  }

  lemma {:induction false} RawPlaceholders(text: string)
    ensures SumPlaceholders(Raw(text)) == Placeholders(Outside, text)
    decreases |text|
  {
    hide IsCut;
    hide FirstCut;
    hide Raw;
    var cut, a, rest := RawCases(text);
    if cut {
      PlaceholdersConcat(Outside, a, "|" + rest);
      PlaceholdersConcat(Outside, "|", rest);
      assert ("|")[..0] == [];
      assert QuoteAfter(Outside, "|") == Outside && Placeholders(Outside, "|") == 0;
      RawPlaceholders(rest);
      assert Raw(text)[1..] == Raw(rest);
    } else {
      assert [text][1..] == [];
    }
  }

  lemma {:induction false} StripPlaceholders(segs: seq<string>)
    ensures SumPlaceholders(StripAll(segs)) == SumPlaceholders(segs)
  {
    if segs != [] {
      StripPlaceholders(segs[1..]);
      var before, after := StripParts(segs[0]);
      PaddingIsNeutral(before, Strip(segs[0]), after);
    }
  }

  /** Counting a whole text is counting its segments: no placeholder is lost to, or
      gained from, the cutting and stripping. */
  lemma SegmentsKeepPlaceholders(text: string)
    requires Split(text).Ok?
    ensures SumPlaceholders(Split(text).value) == Placeholders(Outside, text)
  {
    StripPlaceholders(Raw(text));
    RawPlaceholders(text);
  }

  /** What a split promises of its segments. */
  lemma SegmentsAreWellFormed(text: string)
    requires Split(text).Ok?
    ensures var segs := Split(text).value;
            && |segs| >= 1
            && (forall j :: 0 <= j < |segs| ==> segs[j] != [] && Trimmed(segs[j]) && Solid(segs[j]))
            && (forall j :: 0 <= j < |segs| - 1 ==> Balanced(segs[j]))
  {
    RawIsSplittable(text);
    var raw := Raw(text);
    forall j | 0 <= j < |raw|
      ensures Solid(Strip(raw[j])) && (Balanced(raw[j]) ==> Balanced(Strip(raw[j])))
    {
      var before, after := StripParts(raw[j]);
      PaddingIsNeutral(before, Strip(raw[j]), after);
    }
  }

  /** The segments with the spaces that a " | " separator leaves around them. */
  function Respaced(segs: seq<string>, first: bool): (out: seq<string>)
    ensures |out| == |segs|
    ensures forall j :: 0 <= j < |segs| ==>
      out[j] == (if j == 0 && first then "" else " ") + segs[j] + (if j == |segs| - 1 then "" else " ")
  {
    if segs == [] then []
    else [(if first then "" else " ") + segs[0] + (if |segs| == 1 then "" else " ")] + Respaced(segs[1..], false)
  }

  lemma {:induction false} JoinRespaced(segs: seq<string>, first: bool)
    requires |segs| >= 1
    ensures Join(Respaced(segs, first), "|") == (if first then "" else " ") + Join(segs, " | ")
  {
    if |segs| > 1 {
      JoinRespaced(segs[1..], false);
      var out := Respaced(segs, first);
      assert out[1..] == Respaced(segs[1..], false);
      assert " " + ("|" + " ") == " | ";
    }
  }

  lemma NoPipesAtEnd(a: string, after: string)
    ensures after == " " ==> !EndsInOddPipes(a + after)
  {
    if after == " " {
      assert (a + after)[|a|] == ' ';
    }
  }

  /** Segment `j` of `spaced` is segment `j` of `segs` within spaces at the joints. */
  ghost predicate Spacing(segs: seq<string>, spaced: seq<string>, j: nat)
    requires j < |segs| == |spaced|
  {
    && Strip(spaced[j]) == segs[j]
    && Solid(spaced[j])
    && (Balanced(segs[j]) ==> Balanced(spaced[j]))
    && (j < |segs| - 1 ==> !EndsInOddPipes(spaced[j]))
    && (j > 0 ==> spaced[j] != [] && !StartsWithPipe(spaced[j]))
  }

  lemma SpacingIsSplittable(segs: seq<string>, spaced: seq<string>)
    requires |segs| == |spaced| && forall j :: 0 <= j < |segs| ==> Spacing(segs, spaced, j)
    requires forall j :: 0 <= j < |segs| - 1 ==> Balanced(segs[j])
    ensures Splittable(spaced) && StripAll(spaced) == segs
  {
    hide IsCut;
    hide Strip;
    hide PipesBefore;
    hide QuoteAfter;
    hide Solid;
    forall j | 0 <= j < |segs|
      ensures Strip(spaced[j]) == segs[j] && Solid(spaced[j])
      ensures j < |segs| - 1 ==> Balanced(spaced[j]) && !EndsInOddPipes(spaced[j])
      ensures j > 0 ==> spaced[j] != [] && !StartsWithPipe(spaced[j])
    {
      assert Spacing(segs, spaced, j);
    }
  }

  lemma RespacedAt(segs: seq<string>, j: nat)
    requires j < |segs|
    requires segs[j] != [] && Trimmed(segs[j]) && Solid(segs[j])
    ensures Spacing(segs, Respaced(segs, true), j)
  {
    hide IsCut;
    hide Strip;
    hide EndsInOddPipes;
    hide Respaced;
    var before: string, after: string := if j == 0 then "" else " ", if j == |segs| - 1 then "" else " ";
    var t := segs[j];
    PaddingIsNeutral(before, t, after);
    StripPadded(before, t, after);
    NoPipesAtEnd(before + t, after);
  }

  /** Splitting the stripped segments joined by " | " gives the same segments. */
  lemma ResplitIsIdentity(text: string)
    requires Split(text).Ok?
    ensures Split(Join(Split(text).value, " | ")) == Split(text)
  {
    var segs := Split(text).value;
    SegmentsAreWellFormed(text);
    JoinRespaced(segs, true);
    assert "" + Join(segs, " | ") == Join(segs, " | ");
    hide Respaced;
    var spaced := Respaced(segs, true);
    forall j | 0 <= j < |segs|
      ensures Spacing(segs, spaced, j)
    {
      RespacedAt(segs, j);
    }
    SpacingIsSplittable(segs, spaced);
    JoinThenRaw(spaced);
  }
}
