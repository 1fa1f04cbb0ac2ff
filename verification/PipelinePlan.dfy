/**
 * The plan compiler: segments become stages, contiguous stages of one runtime are
 * fused, and user parameters are routed to the placeholders they belong to.
 *
 * SQL and shell commands keep their text; what they mean is left open (see
 * PlanSemantics).
 */
module PipelinePlan {
  import opened Prelude
  import T = PipelineText

  datatype Value = Null | Number(n: int) | Text(s: string)

  type Argv = seq<string>

  // ----------------------------------------------------------------- staging

  /** A resolved operator after argument parsing and `prepare`. */
  datatype Operator = Operator(
    name: string, allowed: bool, bounded: bool, isSource: bool,
    duck: Option<(string, seq<Value>)>, bash: Option<Argv>)

  /** What the registry says of a segment: `None` means plain SQL; an argument error is `Err`. */
  type Classifier = string -> Result<Option<Operator>>

  datatype Stage =
    | DuckSql(seg: string)
    | DuckSource(body: string, params: seq<Value>)
    | DuckMiddle(body: string, params: seq<Value>)
    | Bash(argv: Argv)

  function StageOf(classify: Classifier, seg: string): Result<Stage> {
    match classify(seg)
    case Err(reason) => Err(reason)
    case Ok(None) => if ';' in seg then Err("single statement") else Ok(DuckSql(seg))
    case Ok(Some(op)) =>
      if !op.allowed then Err("policy")
      else if !op.bounded then Err("unbounded source")
      else if op.name == "ingest" then Err("streaming sink")
      else match op.duck {
        case Some((body, params)) => Ok(if op.isSource then DuckSource(body, params) else DuckMiddle(body, params))
        case None =>
          match op.bash
          case Some(argv) => if op.isSource then Err("cannot start a bounded query") else Ok(Bash(argv))
          case None => Err("no runtime implementation")
      }
  }

  /** Every segment stages, each to its stage. */
  ghost predicate StagesTo(classify: Classifier, segments: seq<string>, staged: seq<Stage>) {
    && |staged| == |segments|
    && forall i :: 0 <= i < |segments| ==> StageOf(classify, segments[i]) == Ok(staged[i])
  }

  // ------------------------------------------------------- binding parameters

  /** A stage with the parameters that its own placeholders take. */
  datatype Bound = Select(body: string, params: seq<Value>) | Pipe(argv: Argv)

  /** How many user parameters a stage takes: one for each placeholder of a SQL segment. */
  function Takes(s: Stage): nat {
    if s.DuckSql? then T.Placeholders(T.Outside, s.seg) else 0
  }

  function Need(staged: seq<Stage>): nat {
    if staged == [] then 0 else Takes(staged[0]) + Need(staged[1..])
  }

  function BindStage(s: Stage, taken: seq<Value>): (b: Bound)
    ensures b.Pipe? == s.Bash?
  {
    match s
    case DuckSql(seg) => Select(seg, taken)
    case DuckSource(body, params) => Select(body, params)
    case DuckMiddle(body, params) => Select(body, params)
    case Bash(argv) => Pipe(argv)
  }

  function Bind(staged: seq<Stage>, userParams: seq<Value>): (bounds: seq<Bound>)
    requires Need(staged) <= |userParams|
    ensures |bounds| == |staged|
    ensures forall i :: 0 <= i < |staged| ==> bounds[i].Pipe? == staged[i].Bash?
  {
    if staged == [] then [] else
      var n := Takes(staged[0]);
      [BindStage(staged[0], userParams[..n])] + Bind(staged[1..], userParams[n..])
  }

  /** A source cannot follow anything; a middle or a shell command cannot come first. */
  predicate Misplaced(s: Stage, first: bool) {
    if first then s.DuckMiddle? || s.Bash? else s.DuckSource?
  }

  /** The parameters that the compiler leaves after `staged`; `None` when it refuses. */
  function Consume(staged: seq<Stage>, userParams: seq<Value>, first: bool): (rest: Option<seq<Value>>)
    ensures rest.Some? ==> Need(staged) <= |userParams| && rest.value == userParams[Need(staged)..]
  {
    if staged == [] then Some(userParams)
    else if Misplaced(staged[0], first) || Takes(staged[0]) > |userParams| then None
    else Consume(staged[1..], userParams[Takes(staged[0])..], false)
  }

  /** The queries that compile, in terms of the stages alone. */
  predicate Compilable(staged: seq<Stage>, userParams: seq<Value>) {
    && (staged != [] ==> staged[0].DuckSql? || staged[0].DuckSource?)
    && (forall i :: 1 <= i < |staged| ==> !staged[i].DuckSource?)
    && Need(staged) == |userParams|
  }

  lemma {:induction false} ConsumeIsAcceptance(staged: seq<Stage>, userParams: seq<Value>, first: bool)
    ensures Consume(staged, userParams, first).Some? <==>
            && (first && staged != [] ==> staged[0].DuckSql? || staged[0].DuckSource?)
            && (forall i :: 0 <= i < |staged| && (i == 0 ==> !first) ==> !staged[i].DuckSource?)
            && Need(staged) <= |userParams|
  {
    if staged != [] {
      var rest, n := staged[1..], Takes(staged[0]);
      assert forall i :: 1 <= i < |staged| ==> staged[i] == rest[i - 1];
      if n <= |userParams| {
        ConsumeIsAcceptance(rest, userParams[n..], false);
      }
    }
  }

  /** The compiler accepts exactly the compilable queries. */
  lemma AcceptedIffCompilable(staged: seq<Stage>, userParams: seq<Value>)
    ensures Consume(staged, userParams, true) == Some([]) <==> Compilable(staged, userParams)
  {
    ConsumeIsAcceptance(staged, userParams, true);
  }

  /** What the SQL segments consume, in order. */
  function SqlParams(staged: seq<Stage>, bounds: seq<Bound>): seq<Value>
    requires |staged| == |bounds|
    requires forall i :: 0 <= i < |staged| ==> bounds[i].Pipe? == staged[i].Bash?
  {
    if staged == [] then []
    else (if staged[0].DuckSql? then bounds[0].params else []) + SqlParams(staged[1..], bounds[1..])
  }

  /** The user parameters are the concatenation, in order, of what the SQL segments
      consume: none is skipped, duplicated or left over. */
  lemma {:induction false} UserParamsAreRouted(staged: seq<Stage>, userParams: seq<Value>)
    requires Need(staged) == |userParams|
    ensures SqlParams(staged, Bind(staged, userParams)) == userParams
  {
    if staged != [] {
      var n := Takes(staged[0]);
      UserParamsAreRouted(staged[1..], userParams[n..]);
      assert Bind(staged, userParams)[1..] == Bind(staged[1..], userParams[n..]);
    }
  }

  // ------------------------------------------------------------------ phases

  /** One CTE; `input` is the relation its `_in` is bound to. */
  datatype Cte = Cte(name: string, input: Option<string>, body: string)

  datatype Phase = DuckPhase(ctes: seq<Cte>, params: seq<Value>) | BashPhase(argvs: seq<Argv>)

  const BRIDGE := "_bridge"

  function Digits(n: nat): (s: string)
    ensures s != [] && forall i :: 0 <= i < |s| ==> '0' <= s[i] <= '9'
  {
    if n < 10 then [('0' as int + n) as char] else Digits(n / 10) + [('0' as int + n % 10) as char]
  }

  function CteName(k: nat): string {
    "_s" + Digits(k)
  }

  lemma {:induction false} DigitsInjective(m: nat, n: nat)
    requires Digits(m) == Digits(n)
    ensures m == n
    decreases m
  {
    var s, t := Digits(m), Digits(n);
    if m >= 10 {
      assert s[|s| - 1] == ('0' as int + m % 10) as char;
      assert |Digits(m / 10)| >= 1;
    }
    if n >= 10 {
      assert t[|t| - 1] == ('0' as int + n % 10) as char;
      assert |Digits(n / 10)| >= 1;
    }
    if m >= 10 && n >= 10 {
      assert s[..|s| - 1] == Digits(m / 10) && t[..|t| - 1] == Digits(n / 10);
      DigitsInjective(m / 10, n / 10);
    }
  }

  function Ctes(run: seq<Bound>, k: nat, prev: Option<string>): (ctes: seq<Cte>)
    requires forall i :: 0 <= i < |run| ==> run[i].Select?
    ensures |ctes| == |run|
    ensures forall i :: 0 <= i < |run| ==>
      ctes[i] == Cte(CteName(k + i), if i == 0 then prev else Some(CteName(k + i - 1)), run[i].body)
  {
    if run == [] then [] else [Cte(CteName(k), prev, run[0].body)] + Ctes(run[1..], k + 1, Some(CteName(k)))
  }

  /** No WITH chain names two of its relations alike. */
  lemma CteNamesDistinct(run: seq<Bound>, prev: Option<string>, i: nat, j: nat)
    requires forall h :: 0 <= h < |run| ==> run[h].Select?
    requires i < j < |run|
    ensures Ctes(run, 0, prev)[i].name != Ctes(run, 0, prev)[j].name
  {
    if CteName(i) == CteName(j) {
      assert CteName(i)[2..] == Digits(i) && CteName(j)[2..] == Digits(j);
      DigitsInjective(i, j);
    }
  }

  function Params(run: seq<Bound>): seq<Value>
    requires forall i :: 0 <= i < |run| ==> run[i].Select?
  {
    if run == [] then [] else run[0].params + Params(run[1..])
  }

  function Argvs(run: seq<Bound>): (argvs: seq<Argv>)
    requires forall i :: 0 <= i < |run| ==> run[i].Pipe?
    ensures |argvs| == |run|
  {
    if run == [] then [] else [run[0].argv] + Argvs(run[1..])
  }

  /** The length of the first maximal run of stages of one runtime. */
  function RunLength(bounds: seq<Bound>): (n: nat)
    requires bounds != []
    ensures 1 <= n <= |bounds|
    ensures forall i :: 0 <= i < n ==> bounds[i].Pipe? == bounds[0].Pipe?
    ensures n < |bounds| ==> bounds[n].Pipe? != bounds[0].Pipe?
  {
    if |bounds| > 1 && bounds[1].Pipe? == bounds[0].Pipe? then 1 + RunLength(bounds[1..]) else 1
  }

  function FuseRun(run: seq<Bound>, first: bool): Phase
    requires run != [] && forall i :: 0 <= i < |run| ==> run[i].Pipe? == run[0].Pipe?
  {
    if run[0].Pipe? then BashPhase(Argvs(run))
    else DuckPhase(Ctes(run, 0, if first then None else Some(BRIDGE)), Params(run))
  }

  /** The fused plan: one phase for each maximal run. */
  function Plan(bounds: seq<Bound>, first: bool): seq<Phase>
    decreases |bounds|
  {
    if bounds == [] then [] else
      var n := RunLength(bounds);
      [FuseRun(bounds[..n], first)] + Plan(bounds[n..], false)
  }

  /** Phases alternate between the runtimes, beginning with the runtime of the first
      stage; so the only phase without an upstream is the first one. */
  lemma {:induction false} PhasesAlternate(bounds: seq<Bound>, first: bool)
    ensures var p := Plan(bounds, first);
            && (bounds != [] ==> p != [] && p[0].BashPhase? == bounds[0].Pipe?)
            && (forall i :: 0 <= i < |p| - 1 ==> p[i].BashPhase? != p[i + 1].BashPhase?)
    decreases |bounds|
  {
    if bounds != [] {
      var n := RunLength(bounds);
      PhasesAlternate(bounds[n..], false);
      var p, q := Plan(bounds, first), Plan(bounds[n..], false);
      assert p[1..] == q;
      forall i | 0 <= i < |p| - 1
        ensures p[i].BashPhase? != p[i + 1].BashPhase?
      {
        assert p[i + 1] == q[i] && (i > 0 ==> p[i] == q[i - 1]);
      }
    }
  }

  // ---------------------------------------------------------------- SQL text

  function CteText(c: Cte): string {
    c.name + " AS (" +
    (if c.input.Some? then "WITH _in AS (SELECT * FROM " + c.input.value + ") " else "") + c.body + ")"
  }

  function CteTexts(ctes: seq<Cte>): string {
    if ctes == [] then ""
    else if |ctes| == 1 then CteText(ctes[0])
    else CteText(ctes[0]) + ", " + CteTexts(ctes[1..])
  }

  /** The statement a duck phase executes. */
  function Sql(ctes: seq<Cte>): string
    requires ctes != []
  {
    "WITH " + CteTexts(ctes) + " SELECT * FROM " + ctes[|ctes| - 1].name
  }

  // ---------------------------------------------------------- the compiler

  /** A compiled duck run, and the user parameters it leaves. */
  datatype Fused = Fused(ctes: seq<Cte>, params: seq<Value>, left: seq<Value>)

  /** What a duck run compiles to; `None` when it is refused. */
  function FusedRun(run: seq<Stage>, params: seq<Value>, k: nat, prev: Option<string>): Option<Fused>
    requires forall j :: 0 <= j < |run| ==> !run[j].Bash?
  {
    match Consume(run, params, prev == None)
    case None => None
    case Some(left) => var bounds := Bind(run, params); Some(Fused(Ctes(bounds, k, prev), Params(bounds), left))
  }

  function Extend(ctes: seq<Cte>, params: seq<Value>, rest: Option<Fused>): Option<Fused> {
    match rest case None => None case Some(f) => Some(Fused(ctes + f.ctes, params + f.params, f.left))
  }

  lemma ExtendExtend(ctes: seq<Cte>, params: seq<Value>, c: Cte, ps: seq<Value>, rest: Option<Fused>)
    ensures Extend(ctes, params, Extend([c], ps, rest)) == Extend(ctes + [c], params + ps, rest)
    ensures Extend([], [], rest) == rest && Extend(ctes, params, None) == None
  {
    if rest.Some? {
      var f := rest.value;
      assert ctes + ([c] + f.ctes) == (ctes + [c]) + f.ctes && params + (ps + f.params) == (params + ps) + f.params;
      assert [] + f.ctes == f.ctes && [] + f.params == f.params;
    }
  }

  /** A refused stage refuses the run; an accepted one contributes its CTE and its parameters. */
  lemma FusedRunStep(run: seq<Stage>, params: seq<Value>, k: nat, prev: Option<string>)
    requires run != [] && forall j :: 0 <= j < |run| ==> !run[j].Bash?
    ensures Misplaced(run[0], prev == None) || Takes(run[0]) > |params| ==> FusedRun(run, params, k, prev) == None
    ensures !Misplaced(run[0], prev == None) && Takes(run[0]) <= |params| ==>
      var b := BindStage(run[0], params[..Takes(run[0])]);
      FusedRun(run, params, k, prev) ==
        Extend([Cte(CteName(k), prev, b.body)], b.params,
               FusedRun(run[1..], params[Takes(run[0])..], k + 1, Some(CteName(k))))
  {
    if !Misplaced(run[0], prev == None) && Takes(run[0]) <= |params| && Consume(run, params, prev == None).Some? {
      assert Bind(run, params)[1..] == Bind(run[1..], params[Takes(run[0])..]);
    }
  }

  lemma FusedAtEnd(ctes: seq<Cte>, params: seq<Value>, left: seq<Value>, k: nat, prev: Option<string>)
    ensures Extend(ctes, params, FusedRun([], left, k, prev)) == Some(Fused(ctes, params, left))
  {
    assert ctes + [] == ctes && params + [] == params;
  }

  /** `_fuse_duck_run`. */
  method FuseDuckRun(run: seq<Stage>, params: seq<Value>, fromBridge: bool) returns (r: Result<Fused>)
    requires forall j :: 0 <= j < |run| ==> !run[j].Bash?
    ensures var fused := FusedRun(run, params, 0, if fromBridge then Some(BRIDGE) else None);
            (r.Ok? <==> fused.Some?) && (r.Ok? ==> fused == Some(r.value))
  {
    var ctes: seq<Cte>, allParams: seq<Value>, userParams := [], [], params;
    var prev := if fromBridge then Some(BRIDGE) else None;
    hide FusedRun;
    hide Extend;
    hide Digits;
    ghost var whole := FusedRun(run, params, 0, prev);
    var j := 0;
    assert run[0..] == run;
    ExtendExtend([], [], Cte("", None, ""), [], whole);
    while j < |run|
      invariant 0 <= j <= |run| && |ctes| == j
      invariant prev == None <==> j == 0 && !fromBridge
      invariant whole == Extend(ctes, allParams, FusedRun(run[j..], userParams, j, prev))
    {
      ExtendExtend(ctes, allParams, Cte("", None, ""), [], None);
      var name := CteName(|ctes|);
      ghost var rest := run[j + 1..];
      assert run[j..][0] == run[j] && run[j..][1..] == rest;
      FusedRunStep(run[j..], userParams, j, prev);
      ghost var c := Cte(name, prev, if run[j].DuckSql? then run[j].seg else run[j].body);
      match run[j] {
        case DuckSource(body, opParams) =>
          if prev != None {
            return Err("a source must start the pipeline");
          }
          assert userParams[0..] == userParams;
          ExtendExtend(ctes, allParams, c, opParams, FusedRun(rest, userParams, j + 1, Some(name)));
          ctes := ctes + [Cte(name, prev, body)];
          allParams := allParams + opParams;
        case DuckMiddle(body, opParams) =>
          if prev == None {
            return Err("needs an upstream");
          }
          assert userParams[0..] == userParams;
          ExtendExtend(ctes, allParams, c, opParams, FusedRun(rest, userParams, j + 1, Some(name)));
          ctes := ctes + [Cte(name, prev, body)];
          allParams := allParams + opParams;
        case DuckSql(seg) =>
          var need := T.CountPlaceholders(seg);
          if need > |userParams| {
            return Err("too few params");
          }
          ExtendExtend(ctes, allParams, c, userParams[..need], FusedRun(rest, userParams[need..], j + 1, Some(name)));
          ctes := ctes + [Cte(name, prev, seg)];
          allParams := allParams + userParams[..need];
          userParams := userParams[need..];
      }
      prev := Some(name);
      j := j + 1;
    }
    assert run[j..] == [];
    FusedAtEnd(ctes, allParams, userParams, j, prev);
    return Ok(Fused(ctes, allParams, userParams));
  }

  lemma {:induction false} BindConcat(a: seq<Stage>, b: seq<Stage>, userParams: seq<Value>)
    ensures Need(a + b) == Need(a) + Need(b)
    ensures Need(a + b) <= |userParams| ==>
      Bind(a + b, userParams) == Bind(a, userParams) + Bind(b, userParams[Need(a)..])
  {
    if a == [] {
      assert a + b == b && userParams[0..] == userParams;
    } else {
      assert (a + b)[1..] == a[1..] + b;
      var n := Takes(a[0]);
      if n <= |userParams| {
        BindConcat(a[1..], b, userParams[n..]);
        if Need(a + b) <= |userParams| {
          assert userParams[n..][Need(a[1..])..] == userParams[Need(a)..];
          assert Bind(a, userParams)[1..] == Bind(a[1..], userParams[n..]);
        }
      } else {
        BindConcat(a[1..], b, userParams);
      }
    }
  }

  lemma {:induction false} ConsumeConcat(a: seq<Stage>, b: seq<Stage>, userParams: seq<Value>, first: bool)
    requires a != []
    ensures Consume(a + b, userParams, first) ==
            match Consume(a, userParams, first) case None => None case Some(rest) => Consume(b, rest, false)
  {
    assert (a + b)[1..] == a[1..] + b;
    if |a| == 1 {
      assert a[1..] + b == b;
    } else if Takes(a[0]) <= |userParams| {
      ConsumeConcat(a[1..], b, userParams[Takes(a[0])..], false);
    }
  }

  lemma {:induction false} RunLengthOf(run: seq<Bound>, rest: seq<Bound>)
    requires run != [] && forall i :: 0 <= i < |run| ==> run[i].Pipe? == run[0].Pipe?
    requires rest != [] ==> rest[0].Pipe? != run[0].Pipe?
    ensures RunLength(run + rest) == |run|
  {
    if |run| > 1 {
      assert (run + rest)[1..] == run[1..] + rest;
      RunLengthOf(run[1..], rest);
    }
  }

  /** One turn of the fusing loop peels the first maximal run off the plan. */
  lemma PlanPeelsRun(run: seq<Stage>, rest: seq<Stage>, userParams: seq<Value>, first: bool)
    requires run != [] && forall i :: 0 <= i < |run| ==> run[i].Bash? == run[0].Bash?
    requires rest != [] ==> rest[0].Bash? != run[0].Bash?
    requires Need(run + rest) <= |userParams|
    ensures Need(run) <= |userParams| && Need(rest) <= |userParams[Need(run)..]|
    ensures Plan(Bind(run + rest, userParams), first) ==
            [FuseRun(Bind(run, userParams), first)] + Plan(Bind(rest, userParams[Need(run)..]), false)
  {
    BindConcat(run, rest, userParams);
    var a, b := Bind(run, userParams), Bind(rest, userParams[Need(run)..]);
    RunLengthOf(a, b);
    assert (a + b)[..|a|] == a && (a + b)[|a|..] == b;
  }

  lemma {:induction false} BindBash(run: seq<Stage>, userParams: seq<Value>)
    requires forall i :: 0 <= i < |run| ==> run[i].Bash?
    ensures Need(run) == 0
    ensures Argvs(Bind(run, userParams)) == BashArgvs(run)
    ensures forall first :: Consume(run, userParams, first) == if first && run != [] then None else Some(userParams)
  {
    if run != [] {
      BindBash(run[1..], userParams);
      assert Bind(run, userParams)[1..] == Bind(run[1..], userParams);
    }
  }

  function BashArgvs(run: seq<Stage>): seq<Argv>
    requires forall i :: 0 <= i < |run| ==> run[i].Bash?
  {
    if run == [] then [] else [run[0].argv] + BashArgvs(run[1..])
  }

  lemma {:induction false} BashArgvsSnoc(run: seq<Stage>, s: Stage)
    requires s.Bash? && forall i :: 0 <= i < |run| ==> run[i].Bash?
    ensures BashArgvs(run + [s]) == BashArgvs(run) + [s.argv]
  {
    if run != [] {
      assert (run + [s])[1..] == run[1..] + [s];
      BashArgvsSnoc(run[1..], s);
    }
  }

  /** What the rest of a query compiles to; `None` when it is refused. */
  function Compiled(staged: seq<Stage>, params: seq<Value>, first: bool): Option<(seq<Phase>, seq<Value>)> {
    match Consume(staged, params, first)
    case None => None
    case Some(rest) => Some((Plan(Bind(staged, params), first), rest))
  }

  function Prepend(phase: Phase, rest: Option<(seq<Phase>, seq<Value>)>): Option<(seq<Phase>, seq<Value>)> {
    match rest case None => None case Some((phases, left)) => Some(([phase] + phases, left))
  }

  function Resume(done: seq<Phase>, rest: Option<(seq<Phase>, seq<Value>)>): Option<(seq<Phase>, seq<Value>)> {
    match rest case None => None case Some((phases, left)) => Some((done + phases, left))
  }

  lemma ResumePrepend(done: seq<Phase>, phase: Phase, rest: Option<(seq<Phase>, seq<Value>)>)
    ensures Resume(done, Prepend(phase, rest)) == Resume(done + [phase], rest)
    ensures Resume([], rest) == rest && Resume(done, None) == None
  {
    if rest.Some? {
      assert done + ([phase] + rest.value.0) == (done + [phase]) + rest.value.0 && [] + rest.value.0 == rest.value.0;
    }
  }

  lemma PeelBash(run: seq<Stage>, rest: seq<Stage>, params: seq<Value>, first: bool)
    requires run != [] && forall j :: 0 <= j < |run| ==> run[j].Bash?
    requires rest != [] ==> !rest[0].Bash?
    ensures Compiled(run + rest, params, first) ==
            if first then None else Prepend(BashPhase(BashArgvs(run)), Compiled(rest, params, false))
  {
    ConsumeConcat(run, rest, params, first);
    BindBash(run, params);
    assert params[0..] == params;
    if Compiled(run + rest, params, first).Some? {
      PlanPeelsRun(run, rest, params, first);
    }
  }

  lemma PeelDuck(run: seq<Stage>, rest: seq<Stage>, params: seq<Value>, first: bool)
    requires run != [] && forall j :: 0 <= j < |run| ==> !run[j].Bash?
    requires rest != [] ==> rest[0].Bash?
    ensures Compiled(run + rest, params, first) ==
            match FusedRun(run, params, 0, if first then None else Some(BRIDGE))
            case None => None
            case Some(f) => Prepend(DuckPhase(f.ctes, f.params), Compiled(rest, f.left, false))
  {
    ConsumeConcat(run, rest, params, first);
    if Compiled(run + rest, params, first).Some? {
      PlanPeelsRun(run, rest, params, first);
    }
  }

  lemma CompiledMeans(staged: seq<Stage>, params: seq<Value>)
    ensures var whole := Compiled(staged, params, true);
            && (Compilable(staged, params) <==> whole.Some? && whole.value.1 == [])
            && (Compilable(staged, params) ==> whole.value.0 == Plan(Bind(staged, params), true))
  {
    AcceptedIffCompilable(staged, params);
  }

  lemma CompiledAtEnd(done: seq<Phase>, params: seq<Value>, first: bool)
    ensures Resume(done, Compiled([], params, first)) == Some((done, params))
  {
    assert done + [] == done;
  }

  /** The inner loop of the fusing half over a maximal shell run. */
  method TakeBashRun(staged: seq<Stage>, start: nat) returns (argvs: seq<Argv>, i: nat)
    requires start < |staged| && staged[start].Bash?
    ensures start < i <= |staged| && (i < |staged| ==> !staged[i].Bash?)
    ensures forall j :: start <= j < i ==> staged[j].Bash?
    ensures argvs == BashArgvs(staged[start..i])
  {
    argvs, i := [], start;
    while i < |staged| && staged[i].Bash?
      invariant start <= i <= |staged|
      invariant forall j :: start <= j < i ==> staged[j].Bash?
      invariant argvs == BashArgvs(staged[start..i])
    {
      assert staged[start..i + 1] == staged[start..i] + [staged[i]];
      BashArgvsSnoc(staged[start..i], staged[i]);
      argvs := argvs + [staged[i].argv];
      i := i + 1;
    }
  }

  /** The inner loop of the fusing half over a maximal duck run. */
  method TakeDuckRun(staged: seq<Stage>, start: nat) returns (run: seq<Stage>, i: nat)
    requires start < |staged| && !staged[start].Bash?
    ensures start < i <= |staged| && (i < |staged| ==> staged[i].Bash?)
    ensures forall j :: 0 <= j < |run| ==> !run[j].Bash?
    ensures run == staged[start..i]
  {
    run, i := [], start;
    while i < |staged| && !staged[i].Bash?
      invariant start <= i <= |staged|
      invariant run == staged[start..i]
      invariant forall j :: 0 <= j < |run| ==> !run[j].Bash?
    {
      run := run + [staged[i]];
      i := i + 1;
    }
  }

  /** The fusing half of `_compile`: exactly the compilable queries compile, and they
      compile to the fused plan of their bound stages. */
  method Fuse(staged: seq<Stage>, params: seq<Value>) returns (r: Result<seq<Phase>>)
    ensures r.Ok? <==> Compilable(staged, params)
    ensures r.Ok? ==> r.value == Plan(Bind(staged, params), true)
  {
    CompiledMeans(staged, params);
    hide *;
    var phases: seq<Phase>, userParams := [], params;
    var i := 0;
    ghost var whole := Compiled(staged, params, true);
    assert staged[0..] == staged;
    ResumePrepend([], BashPhase([]), whole);
    while i < |staged|
      invariant 0 <= i <= |staged|
      invariant phases == [] <==> i == 0
      invariant 0 < i < |staged| ==> staged[i].Bash? != staged[i - 1].Bash?
      invariant whole == Resume(phases, Compiled(staged[i..], userParams, i == 0))
    {
      ghost var i0 := i;
      if staged[i].Bash? {
        var argvs;
        argvs, i := TakeBashRun(staged, i);
        assert staged[i0..] == staged[i0..i] + staged[i..];
        PeelBash(staged[i0..i], staged[i..], userParams, i0 == 0);
        if phases == [] {
          return Err("a bash segment cannot start a bounded query");
        }
        ResumePrepend(phases, BashPhase(argvs), Compiled(staged[i..], userParams, false));
        phases := phases + [BashPhase(argvs)];
      } else {
        var run;
        run, i := TakeDuckRun(staged, i);
        assert staged[i0..] == run + staged[i..];
        PeelDuck(run, staged[i..], userParams, i0 == 0);
        var fused := FuseDuckRun(run, userParams, phases != []);
        if fused.Err? {
          ResumePrepend(phases, BashPhase([]), None);
          return Err(fused.reason);
        }
        var f := fused.value;
        ResumePrepend(phases, DuckPhase(f.ctes, f.params), Compiled(staged[i..], f.left, false));
        phases := phases + [DuckPhase(f.ctes, f.params)];
        userParams := f.left;
      }
    }
    assert staged[i..] == [];
    CompiledAtEnd(phases, userParams, i == 0);
    if userParams != [] {
      return Err("unused query params");
    }
    return Ok(phases);
  }

  /** `_compile`: stage every segment, then fuse. A query is refused exactly when some
      segment does not stage or the stages are not compilable. */
  method Compile(classify: Classifier, segments: seq<string>, params: seq<Value>) returns (r: Result<seq<Phase>>)
    ensures r.Ok? <==> exists staged :: StagesTo(classify, segments, staged) && Compilable(staged, params)
    ensures forall staged :: r.Ok? && StagesTo(classify, segments, staged) ==>
      Compilable(staged, params) && r.value == Plan(Bind(staged, params), true)
  {
    var staged: seq<Stage> := [];
    for i := 0 to |segments|
      invariant StagesTo(classify, segments[..i], staged)
    {
      var s := StageOf(classify, segments[i]);
      if s.Err? {
        return Err(s.reason);
      }
      staged := staged + [s.value];
    }
    assert segments[..|segments|] == segments;
    forall other | StagesTo(classify, segments, other)
      ensures other == staged
    {
      assert forall i :: 0 <= i < |segments| ==> Ok(other[i]) == StageOf(classify, segments[i]) == Ok(staged[i]);
    }
    r := Fuse(staged, params);
  }
}
