/**
 * What a plan means, and the main theorem of the compiler: running the fused
 * phases gives the same result as running the stages one by one.
 *
 * The engines are uninterpreted: a SQL body denotes a relation in an environment
 * of named relations, a command maps bytes to bytes and an exit code.
 */
module PlanSemantics {
  import opened Prelude
  import opened PipelinePlan
  import T = PipelineText

  type Row = map<string, Value>
  type Env = map<string, Relation>

  datatype Relation = Relation(names: seq<string>, tuples: seq<seq<Value>>)

  datatype Exit = NotFound | Exited(out: Bytes, code: int)

  datatype Engine = Engine(
    select: (string, seq<Value>, Env) -> Result<Relation>,   // a SELECT body, its parameters, the relations in scope
    run: (Argv, Bytes) -> Exit,                              // a command on its standard input
    toJsonl: seq<Row> -> Bytes,
    fromJsonl: Bytes -> Result<seq<Row>>,                    // `_jsonl_to_rows`
    readJson: Bytes -> Result<Relation>)                     // `_load_bridge`

  /** `dict(zip(names, tuple))`: of equally named columns the last one wins. */
  function ZipRow(names: seq<string>, tuple: seq<Value>): Row {
    if names == [] || tuple == [] then map[] else map[names[0] := tuple[0]] + ZipRow(names[1..], tuple[1..])
  }

  function ZipRows(names: seq<string>, tuples: seq<seq<Value>>): seq<Row> {
    if tuples == [] then [] else [ZipRow(names, tuples[0])] + ZipRows(names, tuples[1..])
  }

  function Fetch(r: Relation): seq<Row> {
    ZipRows(r.names, r.tuples)
  }

  // ------------------------------------------------------- running a plan

  /** A CTE sees the relations before it; its `_in` is local to its own nested WITH. */
  function CteScope(env: Env, c: Cte): Result<Env> {
    if c.input == None then Ok(env)
    else if c.input.value in env then Ok(env["_in" := env[c.input.value]])
    else Err("no such table")
  }

  /** A WITH chain, each body taking its placeholders' parameters in textual order. */
  function EvalCtes(e: Engine, env: Env, ctes: seq<Cte>, params: seq<Value>): Result<Relation>
    requires ctes != []
    decreases |ctes|
  {
    var n := T.Placeholders(T.Outside, ctes[0].body);
    if n > |params| then Err("parameters") else
      var scope :- CteScope(env, ctes[0]);
      var r :- e.select(ctes[0].body, params[..n], scope);
      if |ctes| == 1 then Ok(r) else EvalCtes(e, env[ctes[0].name := r], ctes[1..], params[n..])
  }

  /** Executing a duck phase: the statement's placeholders and the parameters must
      be equally many. */
  function ExecDuck(e: Engine, env: Env, ctes: seq<Cte>, params: seq<Value>): Result<Relation>
    requires ctes != []
  {
    if T.Placeholders(T.Outside, Sql(ctes)) != |params| then Err("parameters") else EvalCtes(e, env, ctes, params)
  }

  /** `_run_bash_chain`: the commands piped together; only the last exit code counts. */
  function RunChain(e: Engine, argvs: seq<Argv>, input: Bytes): Result<Bytes>
    requires argvs != []
  {
    match e.run(argvs[0], input)
    case NotFound => Err("command not found")
    case Exited(out, code) =>
      if |argvs| > 1 then RunChain(e, argvs[1..], out)
      else if code != 0 then Err("bash stage failed") else Ok(out)
  }

  predicate WellFormedPlan(phases: seq<Phase>) {
    forall i :: 0 <= i < |phases| ==>
      match phases[i] case DuckPhase(ctes, _) => ctes != [] case BashPhase(argvs) => argvs != []
  }

  function ExecPlan(e: Engine, env: Env, phases: seq<Phase>, rows: seq<Row>): Result<seq<Row>>
    requires WellFormedPlan(phases)
    decreases |phases|
  {
    if phases == [] then Ok(rows) else
      match phases[0]
      case DuckPhase(ctes, params) =>
        var r :- ExecDuck(e, env, ctes, params);
        ExecPlan(e, env, phases[1..], Fetch(r))
      case BashPhase(argvs) =>
        var out :- RunChain(e, argvs, e.toJsonl(rows));
        if |phases| == 1 then e.fromJsonl(out) else
          var bridge :- e.readJson(out);
          ExecPlan(e, env[BRIDGE := bridge], phases[1..], rows)
  }

  /** The relations that a plan leaves on its cursor: of them, `_bridge` alone may be new. */
  function Leaves(e: Engine, env: Env, phases: seq<Phase>, rows: seq<Row>): Env
    requires WellFormedPlan(phases)
    decreases |phases|
  {
    if phases == [] then env else
      match phases[0]
      case DuckPhase(ctes, params) =>
        (match ExecDuck(e, env, ctes, params)
         case Err(_) => env
         case Ok(r) => Leaves(e, env, phases[1..], Fetch(r)))
      case BashPhase(argvs) =>
        match RunChain(e, argvs, e.toJsonl(rows))
        case Err(_) => env
        case Ok(out) =>
          if |phases| == 1 then env else
            match e.readJson(out)
            case Err(_) => env
            case Ok(bridge) => Leaves(e, env[BRIDGE := bridge], phases[1..], rows)
  }

  /** A borrowed read cursor with its temporary relations. Earlier queries may have
      left a `_bridge` behind. */
  class ReadCursor {
    var tables: Env

    constructor (tables: Env)
      ensures this.tables == tables
    {
      this.tables := tables;
    }
  }

  /** `run_plan` on a borrowed cursor. */
  method RunPlan(e: Engine, views: Env, cursor: ReadCursor, phases: seq<Phase>) returns (r: Result<seq<Row>>)
    requires WellFormedPlan(phases)
    modifies cursor
    ensures r == ExecPlan(e, old(cursor.tables) + views, phases, [])
    ensures cursor.tables == Leaves(e, old(cursor.tables) + views, phases, [])
  {
    cursor.tables := cursor.tables + views;
    ghost var whole, left := ExecPlan(e, cursor.tables, phases, []), Leaves(e, cursor.tables, phases, []);
    var rows: seq<Row> := [];
    for idx := 0 to |phases|
      invariant whole == ExecPlan(e, cursor.tables, phases[idx..], rows)
      invariant left == Leaves(e, cursor.tables, phases[idx..], rows)
    {
      assert phases[idx..][0] == phases[idx] && phases[idx..][1..] == phases[idx + 1..];
      match phases[idx] {
        case DuckPhase(ctes, params) =>
          var rel := ExecDuck(e, cursor.tables, ctes, params);
          if rel.Err? {
            return Err(rel.reason);
          }
          rows := Fetch(rel.value);
        case BashPhase(argvs) =>
          var out := RunChain(e, argvs, e.toJsonl(rows));
          if out.Err? {
            return Err(out.reason);
          }
          if idx == |phases| - 1 {
            var last := e.fromJsonl(out.value);
            if last.Err? {
              return Err(last.reason);
            }
            rows := last.value;
            assert phases[idx + 1..] == [];
          } else {
            var bridge := e.readJson(out.value);
            if bridge.Err? {
              return Err(bridge.reason);
            }
            cursor.tables := cursor.tables[BRIDGE := bridge.value];
          }
      }
    }
    return Ok(rows);
  }

  // --------------------------------------- the reference: one stage at a time

  /** What flows between two stages. A stream carries the exit code of the command
      that wrote it, which is looked at when the stream leaves the shell. */
  datatype Flow = Start | Rel(rel: Relation) | Stream(out: Bytes, code: int)

  function Leave(flow: Flow): Result<Bytes>
    requires flow.Stream?
  {
    if flow.code != 0 then Err("bash stage failed") else Ok(flow.out)
  }

  function Step(e: Engine, views: Env, b: Bound, flow: Flow): Result<Flow> {
    match b
    case Select(body, params) =>
      (match flow
       case Start =>
         var r :- e.select(body, params, views);
         Ok(Rel(r))
       case Rel(rel) =>
         var r :- e.select(body, params, views["_in" := rel]);
         Ok(Rel(r))
       case Stream(_, _) =>
         var out :- Leave(flow);
         var rel :- e.readJson(out);
         var r :- e.select(body, params, views["_in" := rel]);
         Ok(Rel(r)))
    case Pipe(argv) =>
      var input := match flow case Start => e.toJsonl([]) case Rel(rel) => e.toJsonl(Fetch(rel)) case Stream(out, _) => out;
      match e.run(argv, input)
      case NotFound => Err("command not found")
      case Exited(out, code) => Ok(Stream(out, code))
  }

  function Steps(e: Engine, views: Env, bounds: seq<Bound>, flow: Flow): Result<Flow> {
    if bounds == [] then Ok(flow) else
      var next :- Step(e, views, bounds[0], flow);
      Steps(e, views, bounds[1..], next)
  }

  function Finish(e: Engine, flow: Flow): Result<seq<Row>> {
    match flow
    case Start => Ok([])
    case Rel(rel) => Ok(Fetch(rel))
    case Stream(_, _) =>
      var out :- Leave(flow);
      e.fromJsonl(out)
  }

  /** The reference meaning of a query: its stages, one by one. */
  function RunStages(e: Engine, views: Env, bounds: seq<Bound>, flow: Flow): Result<seq<Row>> {
    var last :- Steps(e, views, bounds, flow);
    Finish(e, last)
  }

  // -------------------------------------------------------- side conditions

  /** The names that the compiler may have bound when the stage at position `j` of its
      duck run is evaluated: `_bridge`, and the CTEs before it. */
  ghost predicate Introduced(name: string, j: nat) {
    name == BRIDGE || exists k: nat :: k < j && name == CteName(k)
  }

  ghost predicate SameBut(env: Env, views: Env, j: nat) {
    forall name :: !Introduced(name, j) ==>
      (name in env <==> name in views) && (name in env ==> env[name] == views[name])
  }

  /** At most `_bridge` is different. */
  ghost predicate SameWorld(env: Env, views: Env) {
    SameBut(env, views, 0)
  }

  /** A body that does not look at the names bound by the compiler where it stands. */
  ghost predicate Hygienic(e: Engine, body: string, j: nat) {
    forall params, env, views ::
      SameBut(env, views, j) ==> e.select(body, params, env) == e.select(body, params, views)
  }

  /** The position of a stage in its duck run. */
  function Place(bounds: seq<Bound>, i: nat): nat
    requires i < |bounds|
  {
    if i == 0 || bounds[i - 1].Pipe? then 0 else Place(bounds, i - 1) + 1
  }

  /** Each stage has its own placeholders' parameters; only the very last stage may
      leave a quote open. */
  predicate WellQuoted(bounds: seq<Bound>) {
    forall i :: 0 <= i < |bounds| && bounds[i].Select? ==>
      && T.Placeholders(T.Outside, bounds[i].body) == |bounds[i].params|
      && (i < |bounds| - 1 ==> T.Balanced(bounds[i].body))
  }

  ghost predicate AllHygienic(e: Engine, bounds: seq<Bound>) {
    forall i :: 0 <= i < |bounds| && bounds[i].Select? ==> Hygienic(e, bounds[i].body, Place(bounds, i))
  }

  // ------------------------------------------- placeholders of the fused text

  predicate Quiet(s: string) {
    forall i :: 0 <= i < |s| ==> s[i] != '?' && !T.IsQuoteMark(s[i])
  }

  lemma {:induction false} QuietText(q: T.Quote, s: string)
    requires Quiet(s)
    ensures q == T.Outside ==> T.QuoteAfter(q, s) == q
    ensures T.Placeholders(q, s) == 0
    decreases |s|
  {
    if s != [] {
      QuietText(q, s[..|s| - 1]);
    }
  }

  function BodyPlaceholders(ctes: seq<Cte>): nat {
    if ctes == [] then 0 else T.Placeholders(T.Outside, ctes[0].body) + BodyPlaceholders(ctes[1..])
  }

  lemma Surround(before: string, body: string, after: string)
    requires Quiet(before) && Quiet(after)
    ensures T.Placeholders(T.Outside, before + body + after) == T.Placeholders(T.Outside, body)
    ensures T.Balanced(body) ==> T.Balanced(before + body + after)
  {
    QuietText(T.Outside, before);
    QuietText(T.QuoteAfter(T.Outside, body), after);
    T.PlaceholdersConcat(T.Outside, before + body, after);
    T.PlaceholdersConcat(T.Outside, before, body);
    T.QuoteAfterConcat(T.Outside, before, body);
    T.QuoteAfterConcat(T.Outside, before + body, after);
  }

  predicate QuietNames(ctes: seq<Cte>) {
    forall i :: 0 <= i < |ctes| ==> Quiet(ctes[i].name) && (ctes[i].input.Some? ==> Quiet(ctes[i].input.value))
  }

  lemma CteTextPlaceholders(c: Cte)
    requires QuietNames([c])
    ensures T.Placeholders(T.Outside, CteText(c)) == T.Placeholders(T.Outside, c.body)
    ensures T.Balanced(c.body) ==> T.Balanced(CteText(c))
  {
    assert [c][0] == c;
    var link := if c.input.Some? then "WITH _in AS (SELECT * FROM " + c.input.value + ") " else "";
    var before := c.name + " AS (" + link;
    assert CteText(c) == before + c.body + ")";
    Surround(before, c.body, ")");
  }

  lemma {:induction false} CteTextsPlaceholders(ctes: seq<Cte>)
    requires QuietNames(ctes)
    requires forall i :: 0 <= i < |ctes| - 1 ==> T.Balanced(ctes[i].body)
    ensures T.Placeholders(T.Outside, CteTexts(ctes)) == BodyPlaceholders(ctes)
  {
    if ctes != [] {
      hide T.Placeholders;
      hide T.QuoteAfter;
      hide CteText;
      assert QuietNames([ctes[0]]);
      CteTextPlaceholders(ctes[0]);
      var rest := ctes[1..];
      if |ctes| > 1 {
        assert forall i :: 0 <= i < |rest| ==> rest[i] == ctes[i + 1];
        CteTextsPlaceholders(rest);
        JoinedTexts(CteText(ctes[0]), CteTexts(rest));
      }
    } else {
      assert T.Placeholders(T.Outside, "") == 0;
    }
  }

  lemma JoinedTexts(head: string, tail: string)
    requires T.Balanced(head)
    ensures T.Placeholders(T.Outside, head + ", " + tail) ==
            T.Placeholders(T.Outside, head) + T.Placeholders(T.Outside, tail)
  {
    T.PlaceholdersConcat(T.Outside, head + ", ", tail);
    T.PlaceholdersConcat(T.Outside, head, ", ");
    T.QuoteAfterConcat(T.Outside, head, ", ");
    QuietText(T.Outside, ", ");
  }

  lemma QuietCteNames(run: seq<Bound>, prev: Option<string>)
    requires forall i :: 0 <= i < |run| ==> run[i].Select?
    requires prev.Some? ==> Quiet(prev.value)
    ensures QuietNames(Ctes(run, 0, prev))
  {
    var ctes := Ctes(run, 0, prev);
    forall i | 0 <= i < |ctes|
      ensures Quiet(ctes[i].name) && (ctes[i].input.Some? ==> Quiet(ctes[i].input.value))
    {
      hide CteName;
      QuietCteName(i);
      if i > 0 {
        QuietCteName(i - 1);
      }
    }
  }

  lemma QuietCteName(k: nat)
    ensures Quiet(CteName(k))
  {
    hide Digits;
    var d := Digits(k);
    assert forall i :: 0 <= i < |d| ==> ("_s" + d)[i + 2] == d[i];
  }

  lemma {:induction false} BodiesAndParams(run: seq<Bound>, k: nat, prev: Option<string>)
    requires forall i :: 0 <= i < |run| ==> run[i].Select?
    requires forall i :: 0 <= i < |run| ==> T.Placeholders(T.Outside, run[i].body) == |run[i].params|
    ensures BodyPlaceholders(Ctes(run, k, prev)) == |Params(run)|
  {
    if run != [] {
      var rest := run[1..];
      BodiesAndParams(rest, k + 1, Some(CteName(k)));
      assert Ctes(run, k, prev)[1..] == Ctes(rest, k + 1, Some(CteName(k)));
    }
  }

  /** Every fused statement has exactly as many placeholders outside quotes as it is
      given parameters. */
  lemma FusedTextMatchesParams(run: seq<Bound>, prev: Option<string>)
    requires run != [] && forall i :: 0 <= i < |run| ==> run[i].Select?
    requires prev.Some? ==> prev.value == BRIDGE
    requires WellQuoted(run)
    ensures T.Placeholders(T.Outside, Sql(Ctes(run, 0, prev))) == |Params(run)|
  {
    var ctes := Ctes(run, 0, prev);
    QuietCteNames(run, prev);
    BodiesAndParams(run, 0, prev);
    SqlPlaceholders(ctes);
  }

  lemma Framed(before: string, body: string, mid: string, name: string)
    requires Quiet(before) && Quiet(mid) && Quiet(name)
    ensures T.Placeholders(T.Outside, before + body + mid + name) == T.Placeholders(T.Outside, body)
  {
    assert before + body + mid + name == before + body + (mid + name);
    Surround(before, body, mid + name);
  }

  lemma QuietWords()
    ensures Quiet("WITH ") && Quiet(" SELECT * FROM ") && Quiet(", ")
  {
  }

  lemma SqlPlaceholders(ctes: seq<Cte>)
    requires ctes != [] && QuietNames(ctes)
    requires forall i :: 0 <= i < |ctes| - 1 ==> T.Balanced(ctes[i].body)
    ensures T.Placeholders(T.Outside, Sql(ctes)) == BodyPlaceholders(ctes)
  {
    CteTextsPlaceholders(ctes);
    hide CteTexts;
    hide BodyPlaceholders;
    hide T.Placeholders;
    hide T.QuoteAfter;
    QuietWords();
    Framed("WITH ", CteTexts(ctes), " SELECT * FROM ", ctes[|ctes| - 1].name);
  }

  // -------------------------------------------------------- the fusion theorem

  lemma InIsNotIntroduced(j: nat)
    ensures !Introduced("_in", j)
  {
    forall k: nat
      ensures CteName(k) != "_in"
    {
      assert CteName(k)[1] == 's' && "_in"[1] == 'i';
    }
  }

  lemma ScopeSameBut(env: Env, views: Env, j: nat, rel: Relation)
    requires SameBut(env, views, j)
    ensures SameBut(env["_in" := rel], views["_in" := rel], j)
  {
    InIsNotIntroduced(j);
  }

  /** The relation that a stage's `_in` is bound to is the one that flows into it. */
  predicate FlowsFrom(env: Env, prev: Option<string>, flow: Flow) {
    match prev
    case None => flow == Start
    case Some(name) => name in env && flow == Rel(env[name])
  }

  /** A CTE of a hygienic body computes what its stage computes. */
  lemma CteIsStep(e: Engine, env: Env, views: Env, j: nat, b: Bound, c: Cte, flow: Flow)
    requires b.Select? && c.body == b.body && FlowsFrom(env, c.input, flow)
    requires Hygienic(e, b.body, j) && SameBut(env, views, j)
    ensures CteScope(env, c).Ok?
    ensures Step(e, views, b, flow) ==
            match e.select(c.body, b.params, CteScope(env, c).value) case Ok(rel) => Ok(Rel(rel)) case Err(x) => Err(x)
  {
    if c.input.Some? {
      var rel := env[c.input.value];
      ScopeSameBut(env, views, j, rel);
      assert e.select(b.body, b.params, env["_in" := rel]) == e.select(b.body, b.params, views["_in" := rel]);
    } else {
      assert e.select(b.body, b.params, env) == e.select(b.body, b.params, views);
    }
  }

  lemma BindSameBut(env: Env, views: Env, k: nat, rel: Relation)
    requires SameBut(env, views, k)
    ensures SameBut(env[CteName(k) := rel], views, k + 1)
  {
    hide CteName;
    assert Introduced(CteName(k), k + 1);
    forall name | !Introduced(name, k + 1)
      ensures !Introduced(name, k)
    {
    }
  }

  /** The bodies of a duck run from position `k` on. */
  ghost predicate HygienicFrom(e: Engine, run: seq<Bound>, k: nat)
    requires forall i :: 0 <= i < |run| ==> run[i].Select?
  {
    forall i :: 0 <= i < |run| ==> Hygienic(e, run[i].body, k + i)
  }

  lemma HygienicSplit(e: Engine, run: seq<Bound>, k: nat)
    requires run != [] && (forall i :: 0 <= i < |run| ==> run[i].Select?) && HygienicFrom(e, run, k)
    ensures Hygienic(e, run[0].body, k) && HygienicFrom(e, run[1..], k + 1)
  {
    hide Hygienic;
    assert Hygienic(e, run[0].body, k + 0);
    var rest := run[1..];
    forall i | 0 <= i < |rest|
      ensures Hygienic(e, rest[i].body, k + 1 + i)
    {
      assert Hygienic(e, run[i + 1].body, k + (i + 1));
    }
  }

  /** A WITH chain computes what its stages compute one after the other. */
  lemma {:induction false} ChainIsSteps(
      e: Engine, env: Env, views: Env, run: seq<Bound>, k: nat, prev: Option<string>, flow: Flow)
    requires run != [] && forall i :: 0 <= i < |run| ==> run[i].Select?
    requires forall i :: 0 <= i < |run| ==> T.Placeholders(T.Outside, run[i].body) == |run[i].params|
    requires HygienicFrom(e, run, k) && SameBut(env, views, k) && FlowsFrom(env, prev, flow)
    ensures Steps(e, views, run, flow) ==
            match EvalCtes(e, env, Ctes(run, k, prev), Params(run)) case Ok(r) => Ok(Rel(r)) case Err(x) => Err(x)
    decreases |run|
  {
    hide T.Placeholders;
    hide CteName;
    hide SameBut;
    hide Hygienic;
    HygienicSplit(e, run, k);
    hide HygienicFrom;
    hide Step;
    hide CteScope;
    var ctes, ps, rest := Ctes(run, k, prev), run[0].params, run[1..];
    assert Params(run)[..|ps|] == ps && Params(run)[|ps|..] == Params(rest);
    CteIsStep(e, env, views, k, run[0], ctes[0], flow);
    var r := e.select(ctes[0].body, ps, CteScope(env, ctes[0]).value);
    if r.Ok? {
      if |run| == 1 {
        assert rest == [];
      } else {
        var name := CteName(k);
        BindSameBut(env, views, k, r.value);
        assert forall i :: 0 <= i < |rest| ==> rest[i] == run[i + 1];
        ChainIsSteps(e, env[name := r.value], views, rest, k + 1, Some(name), Rel(r.value));
        assert ctes[1..] == Ctes(rest, k + 1, Some(name));
      }
    }
  }

  /** A process pipeline computes what its commands compute one after the other, and
      fails just when the stream cannot leave the shell. */
  lemma {:induction false} PipelineIsSteps(e: Engine, views: Env, run: seq<Bound>, flow: Flow, input: Bytes)
    requires run != [] && forall i :: 0 <= i < |run| ==> run[i].Pipe?
    requires match flow case Start => false case Rel(rel) => input == e.toJsonl(Fetch(rel)) case Stream(out, _) => input == out
    ensures RunChain(e, Argvs(run), input) ==
            match Steps(e, views, run, flow) case Err(x) => Err(x) case Ok(last) => if last.Stream? then Leave(last) else Err("")
    ensures Steps(e, views, run, flow).Ok? ==> Steps(e, views, run, flow).value.Stream?
    decreases |run|
  {
    var argvs := Argvs(run);
    assert argvs[0] == run[0].argv && argvs[1..] == Argvs(run[1..]);
    match e.run(run[0].argv, input) {
      case NotFound =>
      case Exited(out, code) =>
        assert Step(e, views, run[0], flow) == Ok(Stream(out, code));
        if |run| == 1 {
          assert run[1..] == [];
        } else {
          PipelineIsSteps(e, views, run[1..], Stream(out, code), out);
        }
    }
  }

  lemma {:induction false} StepsConcat(e: Engine, views: Env, a: seq<Bound>, b: seq<Bound>, flow: Flow)
    ensures Steps(e, views, a + b, flow) ==
            match Steps(e, views, a, flow) case Err(x) => Err(x) case Ok(mid) => Steps(e, views, b, mid)
    decreases |a|
  {
    if a == [] {
      assert a + b == b;
    } else {
      assert (a + b)[1..] == a[1..] + b;
      var next := Step(e, views, a[0], flow);
      if next.Ok? {
        StepsConcat(e, views, a[1..], b, next.value);
      }
    }
  }

  /** A stream that leaves the shell continues as the relation it is read into. */
  lemma LeavingTheShell(e: Engine, views: Env, bounds: seq<Bound>, flow: Flow)
    requires flow.Stream? && bounds != [] && bounds[0].Select?
    ensures RunStages(e, views, bounds, flow) ==
            match Leave(flow) case Err(x) => Err(x)
            case Ok(out) => match e.readJson(out) case Err(x) => Err(x)
                            case Ok(rel) => RunStages(e, views, bounds, Rel(rel))
  {
  }

  lemma {:induction false} PlanIsWellFormed(bounds: seq<Bound>, first: bool)
    ensures WellFormedPlan(Plan(bounds, first))
    decreases |bounds|
  {
    if bounds != [] {
      var n := RunLength(bounds);
      PlanIsWellFormed(bounds[n..], false);
      assert Plan(bounds, first)[1..] == Plan(bounds[n..], false);
    }
  }

  lemma {:induction false} PlaceInRun(run: seq<Bound>, i: nat)
    requires i < |run| && forall j :: 0 <= j < |run| ==> run[j].Select?
    ensures Place(run, i) == i
  {
    if i > 0 {
      PlaceInRun(run, i - 1);
    }
  }

  /** Positions start anew where the runtime switches. */
  lemma {:induction false} PlaceInRest(run: seq<Bound>, rest: seq<Bound>, i: nat)
    requires run != [] && i < |rest| && rest[i].Select? && rest[0].Pipe? != run[|run| - 1].Pipe?
    ensures Place(run + rest, |run| + i) == Place(rest, i)
    decreases i
  {
    var bounds := run + rest;
    assert bounds[|run| + i - 1] == if i == 0 then run[|run| - 1] else rest[i - 1];
    if i > 0 && rest[i - 1].Select? {
      PlaceInRest(run, rest, i - 1);
    }
  }

  lemma {:induction false} PlaceInFront(run: seq<Bound>, rest: seq<Bound>, i: nat)
    requires i < |run|
    ensures Place(run + rest, i) == Place(run, i)
  {
    if i > 0 && run[i - 1].Select? {
      PlaceInFront(run, rest, i - 1);
    }
  }

  /** A duck phase computes what its stages compute. */
  lemma DuckPhaseIsSteps(e: Engine, env: Env, views: Env, run: seq<Bound>, prev: Option<string>, flow: Flow)
    requires run != [] && forall i :: 0 <= i < |run| ==> run[i].Select?
    requires WellQuoted(run) && AllHygienic(e, run) && SameWorld(env, views)
    requires FlowsFrom(env, prev, flow) && (prev.Some? ==> prev.value == BRIDGE)
    ensures Steps(e, views, run, flow) ==
            match ExecDuck(e, env, Ctes(run, 0, prev), Params(run)) case Ok(r) => Ok(Rel(r)) case Err(x) => Err(x)
  {
    FusedTextMatchesParams(run, prev);
    hide Hygienic;
    forall i | 0 <= i < |run|
      ensures Hygienic(e, run[i].body, 0 + i)
    {
      PlaceInRun(run, i);
    }
    ChainIsSteps(e, env, views, run, 0, prev, flow);
  }

  /** One unfolding of a plan. */
  lemma PlanCases(bounds: seq<Bound>, first: bool) returns (run: seq<Bound>, rest: seq<Bound>)
    requires bounds != []
    ensures bounds == run + rest && run != []
    ensures forall i :: 0 <= i < |run| ==> run[i].Pipe? == bounds[0].Pipe?
    ensures rest != [] ==> rest[0].Pipe? != bounds[0].Pipe?
    ensures Plan(bounds, first) == [FuseRun(run, first)] + Plan(rest, false)
    ensures WellFormedPlan(Plan(bounds, first)) && WellFormedPlan(Plan(rest, false))
    ensures rest == [] ==> Plan(rest, false) == []
    ensures rest != [] ==> Plan(rest, false) != []
  {
    var n := RunLength(bounds);
    run, rest := bounds[..n], bounds[n..];
    PlanIsWellFormed(bounds, first);
    PlanIsWellFormed(rest, false);
  }

  lemma ExecDuckFirst(e: Engine, env: Env, ctes: seq<Cte>, params: seq<Value>, rest: seq<Phase>, rows: seq<Row>)
    requires WellFormedPlan([DuckPhase(ctes, params)] + rest) && ctes != [] && WellFormedPlan(rest)
    ensures ExecPlan(e, env, [DuckPhase(ctes, params)] + rest, rows) ==
            match ExecDuck(e, env, ctes, params) case Err(x) => Err(x) case Ok(r) => ExecPlan(e, env, rest, Fetch(r))
  {
    assert ([DuckPhase(ctes, params)] + rest)[1..] == rest;
  }

  lemma ExecBashFirst(e: Engine, env: Env, argvs: seq<Argv>, rest: seq<Phase>, rows: seq<Row>)
    requires WellFormedPlan([BashPhase(argvs)] + rest) && argvs != [] && WellFormedPlan(rest)
    ensures ExecPlan(e, env, [BashPhase(argvs)] + rest, rows) ==
            match RunChain(e, argvs, e.toJsonl(rows)) case Err(x) => Err(x) case Ok(out) =>
              if rest == [] then e.fromJsonl(out) else
                match e.readJson(out) case Err(x) => Err(x)
                case Ok(bridge) => ExecPlan(e, env[BRIDGE := bridge], rest, rows)
  {
    assert ([BashPhase(argvs)] + rest)[1..] == rest;
  }

  lemma SideConditionsSplit(e: Engine, run: seq<Bound>, rest: seq<Bound>)
    requires WellQuoted(run + rest) && AllHygienic(e, run + rest)
    requires run != [] && (rest != [] ==> rest[0].Pipe? != run[|run| - 1].Pipe?)
    ensures WellQuoted(run) && AllHygienic(e, run)
    ensures WellQuoted(rest) && AllHygienic(e, rest)
  {
    hide Hygienic;
    hide T.Placeholders;
    hide T.QuoteAfter;
    var bounds := run + rest;
    forall i | 0 <= i < |run| && run[i].Select?
      ensures run[i] == bounds[i] && Hygienic(e, run[i].body, Place(run, i))
    {
      PlaceInFront(run, rest, i);
    }
    forall i | 0 <= i < |rest| && rest[i].Select?
      ensures rest[i] == bounds[|run| + i] && Hygienic(e, rest[i].body, Place(rest, i))
    {
      PlaceInRest(run, rest, i);
    }
  }

  /** The plan of the stages from a duck run on, given the relation they start from. */
  lemma {:induction false} PlanFromDuck(
      e: Engine, env: Env, views: Env, bounds: seq<Bound>, first: bool, flow: Flow, rows: seq<Row>)
    requires bounds != [] && bounds[0].Select?
    requires WellQuoted(bounds) && AllHygienic(e, bounds) && SameWorld(env, views)
    requires if first then flow == Start else BRIDGE in env && flow == Rel(env[BRIDGE])
    ensures WellFormedPlan(Plan(bounds, first))
    ensures ExecPlan(e, env, Plan(bounds, first), rows) == RunStages(e, views, bounds, flow)
    decreases |bounds|, 1
  {
    hide Plan;
    hide WellFormedPlan;
    hide WellQuoted;
    hide AllHygienic;
    hide SameWorld;
    hide Steps;
    hide ExecDuck;
    hide ExecPlan;
    hide RunChain;
    hide Ctes;
    hide Params;
    hide Argvs;
    var run, rest := PlanCases(bounds, first);
    SideConditionsSplit(e, run, rest);
    var prev := if first then None else Some(BRIDGE);
    var ctes, params := Ctes(run, 0, prev), Params(run);
    DuckPhaseIsSteps(e, env, views, run, prev, flow);
    StepsConcat(e, views, run, rest, flow);
    ExecDuckFirst(e, env, ctes, params, Plan(rest, false), rows);
    var r := ExecDuck(e, env, ctes, params);
    if r.Ok? {
      if rest == [] {
        NothingLeft(e, env, views, Rel(r.value), Fetch(r.value));
      } else {
        PlanFromBash(e, env, views, rest, r.value);
      }
    }
  }

  lemma NothingLeft(e: Engine, env: Env, views: Env, flow: Flow, rows: seq<Row>)
    ensures Steps(e, views, [], flow) == Ok(flow) && ExecPlan(e, env, [], rows) == Ok(rows)
  {
  }

  lemma BridgeSameWorld(env: Env, views: Env, rel: Relation)
    requires SameWorld(env, views)
    ensures SameWorld(env[BRIDGE := rel], views)
  {
    assert Introduced(BRIDGE, 0);
  }

  /** The plan of the stages from a shell run on, given the rows piped into it. */
  lemma {:induction false} PlanFromBash(e: Engine, env: Env, views: Env, bounds: seq<Bound>, rel: Relation)
    requires bounds != [] && bounds[0].Pipe?
    requires WellQuoted(bounds) && AllHygienic(e, bounds) && SameWorld(env, views)
    ensures WellFormedPlan(Plan(bounds, false))
    ensures ExecPlan(e, env, Plan(bounds, false), Fetch(rel)) == RunStages(e, views, bounds, Rel(rel))
    decreases |bounds|, 0
  {
    hide Plan;
    hide WellFormedPlan;
    hide WellQuoted;
    hide AllHygienic;
    hide SameWorld;
    hide Steps;
    hide ExecDuck;
    hide ExecPlan;
    hide RunChain;
    hide Ctes;
    hide Params;
    hide Argvs;
    var run, rest := PlanCases(bounds, false);
    SideConditionsSplit(e, run, rest);
    PipelineIsSteps(e, views, run, Rel(rel), e.toJsonl(Fetch(rel)));
    StepsConcat(e, views, run, rest, Rel(rel));
    ExecBashFirst(e, env, Argvs(run), Plan(rest, false), Fetch(rel));
    var mid := Steps(e, views, run, Rel(rel));
    if mid.Ok? {
      if rest == [] {
        NothingLeft(e, env, views, mid.value, []);
      } else {
        LeavingTheShell(e, views, rest, mid.value);
        var out := Leave(mid.value);
        if out.Ok? && e.readJson(out.value).Ok? {
          var env' := env[BRIDGE := e.readJson(out.value).value];
          BridgeSameWorld(env, views, env'[BRIDGE]);
          PlanFromDuck(e, env', views, rest, false, Rel(env'[BRIDGE]), Fetch(rel));
        }
      }
    }
  }

  /**
   * Fusion preserves meaning. Whatever compiles runs to the same rows, or the same
   * error, as its stages one by one, on any cursor: what earlier queries left in
   * `_bridge` plays no part. No body may look at `_bridge`, or at the CTEs that stand
   * before it in its own statement; other names of that form are business tables.
   */
  lemma FusionPreservesMeaning(
      e: Engine, env: Env, views: Env, staged: seq<Stage>, params: seq<Value>)
    requires staged != [] && Compilable(staged, params)
    requires var bounds := Bind(staged, params); WellQuoted(bounds) && AllHygienic(e, bounds)
    requires SameWorld(env, views)
    ensures var bounds := Bind(staged, params);
            && WellFormedPlan(Plan(bounds, true))
            && ExecPlan(e, env, Plan(bounds, true), []) == RunStages(e, views, bounds, Start)
  {
    PlanFromDuck(e, env, views, Bind(staged, params), true, Start, []);
  }

  // ------------------------------------------------- from the text of a query

  /** What the compiler relies on from an operator's lowering. */
  predicate SoundOperators(staged: seq<Stage>) {
    forall i :: 0 <= i < |staged| && (staged[i].DuckSource? || staged[i].DuckMiddle?) ==>
      T.Balanced(staged[i].body) && T.Placeholders(T.Outside, staged[i].body) == |staged[i].params|
  }

  lemma {:induction false} BindAt(staged: seq<Stage>, params: seq<Value>, i: nat) returns (taken: seq<Value>)
    requires Need(staged) <= |params| && i < |staged|
    ensures |taken| == Takes(staged[i]) && Bind(staged, params)[i] == BindStage(staged[i], taken)
  {
    hide T.Placeholders;
    var n := Takes(staged[0]);
    if i == 0 {
      taken := params[..n];
    } else {
      taken := BindAt(staged[1..], params[n..], i - 1);
    }
  }

  lemma BoundStage(classify: Classifier, seg: string, s: Stage, taken: seq<Value>)
    requires StageOf(classify, seg) == Ok(s) && |taken| == Takes(s) && SoundOperators([s])
    requires !s.Bash?
    ensures var b := BindStage(s, taken);
            && T.Placeholders(T.Outside, b.body) == |b.params|
            && (T.Balanced(seg) ==> T.Balanced(b.body))
  {
    assert [s][0] == s;
  }

  /** Whatever a split text stages and binds to is well quoted: a quote left open can
      only be in the last segment. */
  lemma SplitTextIsWellQuoted(text: string, classify: Classifier, staged: seq<Stage>, params: seq<Value>)
    requires T.Split(text).Ok? && StagesTo(classify, T.Split(text).value, staged)
    requires SoundOperators(staged) && Need(staged) <= |params|
    ensures WellQuoted(Bind(staged, params))
  {
    var segs, bounds := T.Split(text).value, Bind(staged, params);
    T.SegmentsAreWellFormed(text);
    hide T.Split;
    hide T.Placeholders;
    hide T.QuoteAfter;
    hide T.Solid;
    hide StageOf;
    hide Bind;
    forall i | 0 <= i < |bounds| && bounds[i].Select?
      ensures T.Placeholders(T.Outside, bounds[i].body) == |bounds[i].params|
      ensures i < |bounds| - 1 ==> T.Balanced(bounds[i].body)
    {
      var taken := BindAt(staged, params, i);
      assert SoundOperators([staged[i]]);
      assert StageOf(classify, segs[i]) == Ok(staged[i]);
      BoundStage(classify, segs[i], staged[i], taken);
    }
  }

  /**
   * The whole read path: a query text that splits and compiles runs to what its
   * segments mean one by one, provided the operators lower soundly and no body names
   * a relation that the compiler has bound where it stands.
   */
  lemma QueryMeansItsSegments(
      e: Engine, env: Env, views: Env, text: string, classify: Classifier, staged: seq<Stage>, params: seq<Value>)
    requires T.Split(text).Ok? && StagesTo(classify, T.Split(text).value, staged)
    requires SoundOperators(staged) && Compilable(staged, params)
    requires AllHygienic(e, Bind(staged, params)) && SameWorld(env, views)
    ensures var bounds := Bind(staged, params);
            && WellFormedPlan(Plan(bounds, true))
            && ExecPlan(e, env, Plan(bounds, true), []) == RunStages(e, views, bounds, Start)
  {
    SplitTextIsWellQuoted(text, classify, staged, params);
    T.SegmentsAreWellFormed(text);
    FusionPreservesMeaning(e, env, views, staged, params);
  }

  /** The bypass for a single SQL segment gives what the compiled plan would give on the
      same cursor, and leaves the same behind. */
  lemma BypassAgrees(e: Engine, env: Env, seg: string, params: seq<Value>)
    requires T.Placeholders(T.Outside, seg) == |params|
    ensures var plan := Plan(Bind([DuckSql(seg)], params), true);
            && WellFormedPlan(plan)
            && ExecPlan(e, env, plan, []) ==
               (match e.select(seg, params, env) case Err(x) => Err(x) case Ok(r) => Ok(Fetch(r)))
            && Leaves(e, env, plan, []) == env
  {
    var staged, bounds := [DuckSql(seg)], [Select(seg, params)];
    assert Need(staged) == |params| && params[..|params|] == params && params[|params|..] == [];
    assert Bind(staged, params) == bounds;
    hide T.Placeholders;
    hide CteName;
    assert T.Placeholders(T.Outside, bounds[0].body) == |bounds[0].params|;
    var run, rest := PlanCases(bounds, true);
    assert run == bounds && rest == [];
    var ctes := Ctes(bounds, 0, None);
    assert Plan(bounds, true) == [DuckPhase(ctes, Params(bounds))];
    FusedTextMatchesParams(bounds, None);
    hide Plan;
    assert ctes == [Cte(CteName(0), None, seg)] && Params(bounds) == params;
    hide Sql;
    assert EvalCtes(e, env, ctes, params) == e.select(seg, params, env);
    assert [DuckPhase(ctes, params)][1..] == [];
  }

  // ------------------------------------------------ one cursor, many queries

  /** Whatever a plan does, it changes no name but `_bridge`. */
  lemma {:induction false} LeavesSameWorld(e: Engine, env: Env, phases: seq<Phase>, rows: seq<Row>, views: Env)
    requires WellFormedPlan(phases) && SameWorld(env, views)
    ensures SameWorld(Leaves(e, env, phases, rows), views)
    decreases |phases|
  {
    hide ExecDuck;
    hide RunChain;
    hide SameWorld;
    if phases != [] {
      match phases[0] {
        case DuckPhase(ctes, params) =>
          var r := ExecDuck(e, env, ctes, params);
          if r.Ok? {
            LeavesSameWorld(e, env, phases[1..], Fetch(r.value), views);
          }
        case BashPhase(argvs) =>
          var out := RunChain(e, argvs, e.toJsonl(rows));
          if out.Ok? && |phases| > 1 && e.readJson(out.value).Ok? {
            var bridge := e.readJson(out.value).value;
            BridgeSameWorld(env, views, bridge);
            LeavesSameWorld(e, env[BRIDGE := bridge], phases[1..], rows, views);
          }
      }
    }
  }

  /** A compiled query, and the views of its window. */
  datatype Query = Query(views: Env, staged: seq<Stage>, params: seq<Value>)

  /** Every query compiles, is well quoted and hygienic, and brings a view for each of
      the tables. */
  ghost predicate Servable(e: Engine, tables: set<string>, q: Query) {
    && q.staged != [] && Compilable(q.staged, q.params) && q.views.Keys == tables
    && WellQuoted(Bind(q.staged, q.params)) && AllHygienic(e, Bind(q.staged, q.params))
  }

  /** What a cursor answers to one query after the other. */
  ghost function Answers(e: Engine, tables: set<string>, env: Env, queries: seq<Query>): (answers: seq<Result<seq<Row>>>)
    requires forall i :: 0 <= i < |queries| ==> Servable(e, tables, queries[i])
    ensures |answers| == |queries|
    decreases |queries|
  {
    if queries == [] then []
    else
      var q := queries[0];
      assert Servable(e, tables, q);
      PlanIsWellFormed(Bind(q.staged, q.params), true);
      var plan, scope := Plan(Bind(q.staged, q.params), true), env + q.views;
      [ExecPlan(e, scope, plan, [])] + Answers(e, tables, Leaves(e, scope, plan, []), queries[1..])
  }

  /** Installing the views of a query hides those of the one before. */
  lemma InstallViews(env: Env, base: Env, before: Env, views: Env)
    requires SameWorld(env, base + before) && before.Keys == views.Keys
    ensures SameWorld(env + views, base + views)
  {
  }

  /**
   * A cursor may be lent again and again: every query on it means its stages one by one,
   * over its own views, whatever was run on the cursor before.
   */
  lemma {:induction false} EveryQueryMeansItsStages(
      e: Engine, tables: set<string>, base: Env, before: Env, env: Env, queries: seq<Query>, i: nat)
    requires forall j :: 0 <= j < |queries| ==> Servable(e, tables, queries[j])
    requires SameWorld(env, base + before) && before.Keys == tables && i < |queries|
    ensures Answers(e, tables, env, queries)[i] ==
            RunStages(e, base + queries[i].views, Bind(queries[i].staged, queries[i].params), Start)
    decreases i
  {
    hide SameWorld;
    hide Plan;
    hide ExecPlan;
    hide Leaves;
    hide RunStages;
    hide WellQuoted;
    hide AllHygienic;
    hide Bind;
    var q := queries[0];
    assert Servable(e, tables, q);
    PlanIsWellFormed(Bind(q.staged, q.params), true);
    var scope, plan := env + q.views, Plan(Bind(q.staged, q.params), true);
    InstallViews(env, base, before, q.views);
    if i == 0 {
      FusionPreservesMeaning(e, scope, base + q.views, q.staged, q.params);
    } else {
      LeavesSameWorld(e, scope, plan, [], base + q.views);
      EveryQueryMeansItsStages(e, tables, base, q.views, Leaves(e, scope, plan, []), queries[1..], i - 1);
    }
  }

  // ------------------------------------------- where the reference is lenient

  /** One stage at a time, looking at every command's exit code. */
  function StrictStages(e: Engine, views: Env, bounds: seq<Bound>, flow: Flow): Result<seq<Row>> {
    if bounds == [] then Finish(e, flow) else
      var next :- Step(e, views, bounds[0], flow);
      if next.Stream? && next.code != 0 then Err("bash stage failed") else StrictStages(e, views, bounds[1..], next)
  }

  /** Some command that feeds another command exits with an error. */
  predicate SwallowsExit(e: Engine, views: Env, bounds: seq<Bound>, flow: Flow) {
    && bounds != []
    && Step(e, views, bounds[0], flow).Ok?
    && var next := Step(e, views, bounds[0], flow).value;
      if next.Stream? && next.code != 0 then |bounds| > 1 && bounds[1].Pipe?
      else SwallowsExit(e, views, bounds[1..], next)
  }

  /** Fused pipelines ignore the exit code of every command but the last of a run, as
      a shell does. They agree with checking every command exactly when no interior
      command fails, or the run fails anyway with that error. */
  lemma {:induction false} StrictUnlessSwallowed(e: Engine, views: Env, bounds: seq<Bound>, flow: Flow)
    requires flow.Stream? ==> flow.code == 0
    ensures SwallowsExit(e, views, bounds, flow) ==> StrictStages(e, views, bounds, flow) == Err("bash stage failed")
    ensures !SwallowsExit(e, views, bounds, flow) ==>
      StrictStages(e, views, bounds, flow) == RunStages(e, views, bounds, flow)
    decreases |bounds|
  {
    if bounds != [] {
      var next := Step(e, views, bounds[0], flow);
      if next.Ok? {
        assert RunStages(e, views, bounds, flow) == RunStages(e, views, bounds[1..], next.value);
        if !(next.value.Stream? && next.value.code != 0) {
          StrictUnlessSwallowed(e, views, bounds[1..], next.value);
        } else if |bounds| > 1 && bounds[1].Select? {
          LeavingTheShell(e, views, bounds[1..], next.value);
        }
      }
    }
  }

  /** A failing command in the middle of a shell run goes unnoticed. */
  lemma SwallowedExitExample(table: Relation)
    ensures var e := Engine(
              (body, params, env) => Ok(table),
              (argv, input) => Exited(input, if argv == ["false"] then 1 else 0),
              rows => [], bytes => Ok([]), bytes => Ok(table));
            var bounds := [Select("q", []), Pipe(["false"]), Pipe(["cat"])];
            && RunStages(e, map[], bounds, Start) == Ok([])
            && StrictStages(e, map[], bounds, Start) == Err("bash stage failed")
  {
    var e := Engine(
      (body, params, env) => Ok(table),
      (argv, input) => Exited(input, if argv == ["false"] then 1 else 0),
      rows => [], bytes => Ok([]), bytes => Ok(table));
    var bounds := [Select("q", []), Pipe(["false"]), Pipe(["cat"])];
    assert bounds[1..] == [Pipe(["false"]), Pipe(["cat"])];
    assert bounds[1..][1..] == [Pipe(["cat"])] && bounds[1..][1..][1..] == [];
    assert Step(e, map[], bounds[0], Start) == Ok(Rel(table));
    assert Step(e, map[], bounds[1], Rel(table)) == Ok(Stream([], 1));
    assert ["false"][0] == "false" && ["cat"][0] == "cat" && |"cat"| != |"false"|;
    assert Step(e, map[], bounds[2], Stream([], 1)) == Ok(Stream([], 0));
    assert Steps(e, map[], [Pipe(["cat"])], Stream([], 1)) == Ok(Stream([], 0));
    assert Steps(e, map[], bounds[1..], Rel(table)) == Ok(Stream([], 0));
  }

  /** Without hygiene fusion may change the meaning: a second segment that reads a
      business table named `_s0` reads the first segment's CTE instead. */
  lemma HygieneIsNeeded(mine: Relation, other: Relation)
    requires mine != other
    ensures var e := Engine(
              (body, params, env) => if body == "a" then Ok(other) else if "_s0" in env then Ok(env["_s0"]) else Err(""),
              (argv, input) => NotFound, rows => [], bytes => Ok([]), bytes => Ok(other));
            var views: Env := map["_s0" := mine];
            var bounds := [Select("a", []), Select("b", [])];
            && EvalCtes(e, views, Ctes(bounds, 0, None), []) == Ok(other)
            && Steps(e, views, bounds, Start) == Ok(Rel(mine))
  {
    var e := Engine(
      (body, params, env) => if body == "a" then Ok(other) else if "_s0" in env then Ok(env["_s0"]) else Err(""),
      (argv, input) => NotFound, rows => [], bytes => Ok([]), bytes => Ok(other));
    var views: Env := map["_s0" := mine];
    var bounds := [Select("a", []), Select("b", [])];
    var ctes := Ctes(bounds, 0, None);
    assert CteName(0) == "_s0";
    assert T.Placeholders(T.Outside, "a") == 0 && T.Placeholders(T.Outside, "b") == 0 by {
      assert Quiet("a") && Quiet("b");
      QuietText(T.Outside, "a");
      QuietText(T.Outside, "b");
    }
    assert "a"[0] != "b"[0];
    var env := views["_s0" := other];
    assert EvalCtes(e, env, ctes[1..], []) == Ok(other);
    assert bounds[1..] == [Select("b", [])];
    assert Step(e, views, bounds[0], Start) == Ok(Rel(other));
    assert Step(e, views, bounds[1], Rel(other)) == Ok(Rel(mine));
    assert Steps(e, views, bounds[1..], Rel(other)) == Ok(Rel(mine)) by {
      assert bounds[1..][1..] == [];
    }
  }
}
