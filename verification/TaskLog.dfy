/**
 * TaskService: the append-only task log, in which the last line of an id wins, and
 * the wire form of its lines.
 */
module TaskLog {
  import opened Prelude
  import opened Store

  // ------------------------------------------------------------ the wire form

  datatype Json = Null | Str(s: string) | Num(n: int) | Obj(fields: map<string, int>)

  type Wire = map<string, Json>

  datatype Task = Task(
    id: string, op: string, state: string, error: Option<string>, matched: Option<int>, stats: Option<map<string, int>>,
    query: Option<string>, rows: Option<int>, submittedAt: Option<string>, finishedAt: Option<string>)

  const OPTIONAL := ["matched", "stats", "query", "rows", "submitted_at", "finished_at"]

  function OfStr(v: Option<string>): Json {
    match v
    case None => Null
    case Some(s) => Str(s)
  }

  function OfNum(v: Option<int>): Json {
    match v
    case None => Null
    case Some(n) => Num(n)
  }

  function OfObj(v: Option<map<string, int>>): Json {
    match v
    case None => Null
    case Some(fields) => Obj(fields)
  }

  /** `getattr` for the optional fields. */
  function Attr(t: Task, name: string): Json {
    match name
    case "matched" => OfNum(t.matched)
    case "stats" => OfObj(t.stats)
    case "query" => OfStr(t.query)
    case "rows" => OfNum(t.rows)
    case "submitted_at" => OfStr(t.submittedAt)
    case "finished_at" => OfStr(t.finishedAt)
    case _ => Null
  }

  function Required(t: Task): Wire {
    map["task" := Str(t.id), "op" := Str(t.op), "state" := Str(t.state), "error" := OfStr(t.error)]
  }

  function WithAttrs(t: Task, names: seq<string>): Wire {
    if names == [] then Required(t)
    else
      var last := names[|names| - 1];
      var d := WithAttrs(t, names[..|names| - 1]);
      if Attr(t, last) == Null then d else d[last := Attr(t, last)]
  }

  function WireOf(t: Task): Wire {
    WithAttrs(t, OPTIONAL)
  }

  method ToWire(t: Task) returns (d: Wire)
    ensures d == WireOf(t)
  {
    d := Required(t);
    for i := 0 to |OPTIONAL|
      invariant d == WithAttrs(t, OPTIONAL[..i])
    {
      assert OPTIONAL[..i + 1][..i] == OPTIONAL[..i];
      if Attr(t, OPTIONAL[i]) != Null {
        d := d[OPTIONAL[i] := Attr(t, OPTIONAL[i])];
      }
    }
    assert OPTIONAL[..|OPTIONAL|] == OPTIONAL;
  }

  /** `d.get(name)`. */
  function Field(d: Wire, name: string): Json {
    if name in d then d[name] else Null
  }

  function AsStr(v: Json): Option<string> {
    if v.Str? then Some(v.s) else None
  }

  function AsNum(v: Json): Option<int> {
    if v.Num? then Some(v.n) else None
  }

  function AsObj(v: Json): Option<map<string, int>> {
    if v.Obj? then Some(v.fields) else None
  }

  /** `d.get("task") or d["ticket"]`. */
  function IdOf(d: Wire): Result<string> {
    if AsStr(Field(d, "task")).Some? && Field(d, "task").s != "" then Ok(Field(d, "task").s)
    else if "ticket" in d && d["ticket"].Str? then Ok(d["ticket"].s)
    else Err("KeyError")
  }

  function Default(v: Option<string>, other: string): string {
    match v
    case None => other
    case Some(s) => s
  }

  function FromWire(d: Wire): Result<Task> {
    var id :- IdOf(d);
    Ok(Task(id, Default(AsStr(Field(d, "op")), ""), Default(AsStr(Field(d, "state")), "done"), AsStr(Field(d, "error")),
            AsNum(Field(d, "matched")), AsObj(Field(d, "stats")), AsStr(Field(d, "query")), AsNum(Field(d, "rows")),
            AsStr(Field(d, "submitted_at")), AsStr(Field(d, "finished_at"))))
  }

  /** What each optional name holds after the loop. */
  lemma {:induction false} AttrsMean(t: Task, names: seq<string>, name: string)
    requires forall i :: 0 <= i < |names| ==> names[i] in OPTIONAL
    ensures Field(WithAttrs(t, names), name) ==
            if name in names then Attr(t, name) else Field(Required(t), name)
    ensures "ticket" !in WithAttrs(t, names)
    decreases |names|
  {
    if names != [] {
      var front, last := names[..|names| - 1], names[|names| - 1];
      AttrsMean(t, front, name);
      assert name in names <==> name in front || name == last;
      assert last in OPTIONAL;
    }
  }

  /** The fields of a wire form. */
  ghost predicate Carries(d: Wire, t: Task) {
    && Field(d, "task") == Str(t.id) && Field(d, "op") == Str(t.op)
    && Field(d, "state") == Str(t.state) && Field(d, "error") == OfStr(t.error)
    && Field(d, "matched") == OfNum(t.matched) && Field(d, "stats") == OfObj(t.stats)
    && Field(d, "query") == OfStr(t.query) && Field(d, "rows") == OfNum(t.rows)
    && Field(d, "submitted_at") == OfStr(t.submittedAt) && Field(d, "finished_at") == OfStr(t.finishedAt)
    && "ticket" !in d
  }

  lemma RequiredField(t: Task, name: string)
    requires name !in OPTIONAL
    ensures Field(WireOf(t), name) == Field(Required(t), name)
  {
    hide Field;
    AttrsMean(t, OPTIONAL, name);
  }

  lemma OptionalField(t: Task, name: string)
    requires name in OPTIONAL
    ensures Field(WireOf(t), name) == Attr(t, name)
  {
    hide Field;
    AttrsMean(t, OPTIONAL, name);
  }

  lemma OptionalNames()
    ensures forall name :: name in OPTIONAL <==>
      name == "matched" || name == "stats" || name == "query" || name == "rows" || name == "submitted_at" || name == "finished_at"
  {
    assert OPTIONAL[0] == "matched" && OPTIONAL[1] == "stats" && OPTIONAL[2] == "query";
    assert OPTIONAL[3] == "rows" && OPTIONAL[4] == "submitted_at" && OPTIONAL[5] == "finished_at";
  }

  lemma NoOptional(name: string)
    requires name == "task" || name == "op" || name == "state" || name == "error"
    ensures name !in OPTIONAL
  {
    OptionalNames();
  }

  lemma WireCarries(t: Task)
    ensures Carries(WireOf(t), t)
  {
    hide WireOf;
    OptionalNames();
    OptionalField(t, "matched");
    OptionalField(t, "stats");
    OptionalField(t, "query");
    OptionalField(t, "rows");
    OptionalField(t, "submitted_at");
    OptionalField(t, "finished_at");
    RequiredCarried(t);
  }

  lemma RequiredCarried(t: Task)
    ensures Field(WireOf(t), "task") == Str(t.id) && Field(WireOf(t), "op") == Str(t.op)
    ensures Field(WireOf(t), "state") == Str(t.state) && Field(WireOf(t), "error") == OfStr(t.error)
    ensures "ticket" !in WireOf(t)
  {
    NoOptional("task");
    NoOptional("op");
    NoOptional("state");
    NoOptional("error");
    RequiredField(t, "task");
    RequiredField(t, "op");
    RequiredField(t, "state");
    RequiredField(t, "error");
    AttrsMean(t, OPTIONAL, "task");
    hide WithAttrs;
  }

  lemma CarriedRoundTrip(d: Wire, t: Task)
    requires Carries(d, t)
    ensures FromWire(d) == if t.id == "" then Err("KeyError") else Ok(t)
  {
    hide Field;
    assert IdOf(d) == if t.id == "" then Err("KeyError") else Ok(t.id) by {
      var field := Field(d, "task");
    }
    hide IdOf;
  }

  /** The round trip is the identity exactly for tasks with a non-empty id. */
  lemma WireRoundTrip(t: Task)
    ensures FromWire(WireOf(t)) == Ok(t) <==> t.id != ""
    ensures t.id == "" ==> FromWire(WireOf(t)) == Err("KeyError")
  {
    hide *;
    WireCarries(t);
    CarriedRoundTrip(WireOf(t), t);
  }

  // ------------------------------------------------- ids that name their partition

  function Find(s: string, c: char): (i: nat)
    ensures i <= |s| && (i < |s| ==> s[i] == c) && forall j :: 0 <= j < i ==> s[j] != c
  {
    if s == [] || s[0] == c then 0 else 1 + Find(s[1..], c)
  }

  predicate IsDigits(s: string) {
    s != [] && forall i :: 0 <= i < |s| ==> '0' <= s[i] <= '9'
  }

  function Number(s: string): nat
    requires forall i :: 0 <= i < |s| ==> '0' <= s[i] <= '9'
  {
    if s == [] then 0 else 10 * Number(s[..|s| - 1]) + (s[|s| - 1] - '0') as nat
  }

  /** `_ds_of`: the part between the first two underscores, when it is a number. */
  function DayOf(id: string): Option<Day> {
    var a := Find(id, '_');
    if a == |id| then None else
      var rest := id[a + 1..];
      var b := Find(rest, '_');
      if b == |rest| || !IsDigits(rest[..b]) then None else Some(Number(rest[..b]))
  }

  /** `_new_task_id`, with the random part as a parameter. */
  function NewId(ds: string, hex: string): string {
    "tk_" + ds + "_" + hex
  }

  lemma FindAfter(s: string, c: char, t: string)
    requires forall j :: 0 <= j < |s| ==> s[j] != c
    ensures Find(s + [c] + t, c) == |s|
  {
    var whole := s + [c] + t;
    assert whole[|s|] == c;
    assert forall j :: 0 <= j < |s| ==> whole[j] == s[j];
  }

  /** A new id finds its own partition, whatever its random part. */
  lemma NewIdIsSelfLocating(ds: string, hex: string)
    requires IsDigits(ds)
    ensures DayOf(NewId(ds, hex)) == Some(Number(ds))
  {
    var id := NewId(ds, hex);
    assert id == "tk" + ['_'] + (ds + ['_'] + hex);
    FindAfter("tk", '_', ds + ['_'] + hex);
    assert id[3..] == ds + ['_'] + hex;
    FindAfter(ds, '_', hex);
    assert (ds + ['_'] + hex)[..|ds|] == ds;
  }

  // -------------------------------------------------------------- last line wins

  /** The partition files of the task log. */
  type Partitions = map<Day, seq<Wire>>

  function Partition(logs: Partitions, d: Day): seq<Wire> {
    if d in logs then logs[d] else []
  }

  function Appended(logs: Partitions, t: Task): Partitions
    requires DayOf(t.id).Some?
  {
    var d := DayOf(t.id).value;
    logs[d := Partition(logs, d) + [WireOf(t)]]
  }

  predicate Names(d: Wire, id: string) {
    Field(d, "task") == Str(id) || Field(d, "ticket") == Str(id)
  }

  /** The last line of a partition that names the id. */
  function LastLine(lines: seq<Wire>, id: string): Option<Wire> {
    if lines == [] then None
    else if Names(lines[|lines| - 1], id) then Some(lines[|lines| - 1])
    else LastLine(lines[..|lines| - 1], id)
  }

  function StatusOf(logs: Partitions, id: string): Result<Task> {
    match DayOf(id)
    case None => Err("unknown task")
    case Some(d) =>
      match LastLine(Partition(logs, d), id)
      case None => Err("unknown task")
      case Some(line) => FromWire(line)
  }

  /** An id in a partition is not empty, so its line reads back. */
  lemma WireFields(t: Task)
    ensures Field(WireOf(t), "task") == Str(t.id) && "ticket" !in WireOf(t)
    ensures DayOf(t.id).Some? ==> FromWire(WireOf(t)) == Ok(t)
  {
    RequiredCarried(t);
    WireRoundTrip(t);
    hide FromWire;
    hide WireOf;
  }

  /** Appending a line settles the status of its id, and of no other. */
  lemma LastLineWins(logs: Partitions, t: Task, id: string)
    requires DayOf(t.id).Some?
    ensures StatusOf(Appended(logs, t), id) == if id == t.id then Ok(t) else StatusOf(logs, id)
  {
    WireFields(t);
    hide WireOf;
    hide FromWire;
    if DayOf(id) == DayOf(t.id) {
      var before := Partition(logs, DayOf(id).value);
      var after := before + [WireOf(t)];
      assert after[..|after| - 1] == before;
    }
  }

  // ------------------------------------------------------- many records

  /** Records whose ids name a partition. */
  predicate Filed(records: seq<Task>) {
    forall i :: 0 <= i < |records| ==> DayOf(records[i].id).Some?
  }

  /** The log after these records, in this order. */
  function Logged(logs: Partitions, records: seq<Task>): Partitions
    requires Filed(records)
  {
    if records == [] then logs else Appended(Logged(logs, records[..|records| - 1]), records[|records| - 1])
  }

  lemma LoggedSnoc(logs: Partitions, records: seq<Task>, t: Task)
    requires Filed(records) && DayOf(t.id).Some?
    ensures Filed(records + [t]) && Logged(logs, records + [t]) == Appended(Logged(logs, records), t)
  {
    hide DayOf;
    assert (records + [t])[..|records|] == records;
  }

  lemma {:induction false} LoggedConcat(logs: Partitions, a: seq<Task>, b: seq<Task>)
    requires Filed(a) && Filed(b)
    ensures Filed(a + b) && Logged(logs, a + b) == Logged(Logged(logs, a), b)
    decreases |b|
  {
    hide DayOf;
    hide Appended;
    if b == [] {
      assert a + b == a;
    } else {
      var front, last := b[..|b| - 1], b[|b| - 1];
      LoggedConcat(logs, a, front);
      assert a + b == (a + front) + [last] && b == front + [last];
      LoggedSnoc(logs, a + front, last);
    }
  }

  /** The last of these records with the id. */
  function LastRecord(records: seq<Task>, id: string): Option<Task> {
    if records == [] then None
    else if records[|records| - 1].id == id then Some(records[|records| - 1])
    else LastRecord(records[..|records| - 1], id)
  }

  /** Records settle the status of their own ids, and of no other. */
  lemma {:induction false} LoggedStatus(logs: Partitions, records: seq<Task>, id: string)
    requires Filed(records)
    ensures var last := LastRecord(records, id);
            StatusOf(Logged(logs, records), id) == if last.Some? then Ok(last.value) else StatusOf(logs, id)
    decreases |records|
  {
    hide StatusOf;
    hide DayOf;
    hide Appended;
    if records != [] {
      var front, last := records[..|records| - 1], records[|records| - 1];
      LoggedStatus(logs, front, id);
      LastLineWins(Logged(logs, front), last, id);
    }
  }

  predicate DistinctRecords(records: seq<Task>) {
    forall i, j :: 0 <= i < j < |records| ==> records[i].id != records[j].id
  }

  lemma {:induction false} LastOfDistinct(records: seq<Task>, k: nat)
    requires DistinctRecords(records) && k < |records|
    ensures LastRecord(records, records[k].id) == Some(records[k])
    decreases |records|
  {
    if k < |records| - 1 {
      LastOfDistinct(records[..|records| - 1], k);
    }
  }

  lemma {:induction false} LastRecordIn(records: seq<Task>, id: string) returns (k: nat)
    requires LastRecord(records, id).Some?
    ensures k < |records| && records[k] == LastRecord(records, id).value && records[k].id == id
    decreases |records|
  {
    if records[|records| - 1].id == id {
      k := |records| - 1;
    } else {
      k := LastRecordIn(records[..|records| - 1], id);
    }
  }

  // ------------------------------------------------------------- newest first

  /** The order of Python strings. */
  predicate Leq(a: string, b: string) {
    a == [] || (b != [] && (a[0] < b[0] || (a[0] == b[0] && Leq(a[1..], b[1..]))))
  }

  lemma {:induction false} LeqTotal(a: string, b: string)
    ensures Leq(a, b) || Leq(b, a)
  {
    if a != [] && b != [] {
      LeqTotal(a[1..], b[1..]);
    }
  }

  lemma {:induction false} LeqTrans(a: string, b: string, c: string)
    requires Leq(a, b) && Leq(b, c)
    ensures Leq(a, c)
  {
    if a != [] && a[0] == b[0] && b[0] == c[0] {
      LeqTrans(a[1..], b[1..], c[1..]);
    }
  }

  function SortKey(t: Task): string {
    Default(t.submittedAt, "")
  }

  /** Put a task behind every one that is not older: `sort(reverse=True)` is stable. */
  function InsertTask(t: Task, sorted: seq<Task>): seq<Task> {
    if sorted == [] then [t]
    else if Leq(SortKey(sorted[0]), SortKey(t)) && SortKey(sorted[0]) != SortKey(t) then [t] + sorted
    else [sorted[0]] + InsertTask(t, sorted[1..])
  }

  function NewestFirst(tasks: seq<Task>): seq<Task> {
    if tasks == [] then [] else InsertTask(tasks[|tasks| - 1], NewestFirst(tasks[..|tasks| - 1]))
  }

  predicate NotOlder(a: Task, b: Task) {
    Leq(SortKey(b), SortKey(a))
  }

  predicate Descending(tasks: seq<Task>) {
    forall i, j :: 0 <= i < j < |tasks| ==> NotOlder(tasks[i], tasks[j])
  }

  lemma DescendingCons(head: Task, rest: seq<Task>)
    requires Descending(rest) && forall j :: 0 <= j < |rest| ==> NotOlder(head, rest[j])
    ensures Descending([head] + rest)
  {
    hide NotOlder;
  }

  lemma DescendingTail(sorted: seq<Task>)
    requires sorted != [] && Descending(sorted)
    ensures Descending(sorted[1..]) && forall j :: 0 <= j < |sorted| - 1 ==> NotOlder(sorted[0], sorted[1..][j])
    ensures multiset(sorted) == multiset{sorted[0]} + multiset(sorted[1..])
  {
    hide NotOlder;
    assert sorted == [sorted[0]] + sorted[1..];
  }

  lemma {:induction false} InsertSorts(t: Task, sorted: seq<Task>)
    requires Descending(sorted)
    ensures Descending(InsertTask(t, sorted)) && multiset(InsertTask(t, sorted)) == multiset(sorted) + multiset{t}
  {
    if sorted != [] {
      var head, rest := sorted[0], sorted[1..];
      DescendingTail(sorted);
      LeqTotal(SortKey(head), SortKey(t));
      hide Leq;
      if Leq(SortKey(head), SortKey(t)) && SortKey(head) != SortKey(t) {
        forall j | 0 <= j < |sorted|
          ensures NotOlder(t, sorted[j])
        {
          if j > 0 {
            assert NotOlder(sorted[0], sorted[j]);
            LeqTrans(SortKey(sorted[j]), SortKey(head), SortKey(t));
          }
        }
        DescendingCons(t, sorted);
      } else {
        assert NotOlder(head, t) by {
          if SortKey(head) == SortKey(t) {
            LeqTotal(SortKey(head), SortKey(t));
          }
        }
        InsertSorts(t, rest);
        assert InsertTask(t, sorted) == [head] + InsertTask(t, rest);
        hide InsertTask;
        hide NotOlder;
        InsertedNotOlder(head, t, rest, InsertTask(t, rest));
        DescendingCons(head, InsertTask(t, rest));
      }
    }
  }

  lemma InsertedNotOlder(head: Task, t: Task, rest: seq<Task>, tail: seq<Task>)
    requires multiset(tail) == multiset(rest) + multiset{t} && NotOlder(head, t)
    requires forall j :: 0 <= j < |rest| ==> NotOlder(head, rest[j])
    ensures forall j :: 0 <= j < |tail| ==> NotOlder(head, tail[j])
  {
    hide NotOlder;
    forall j | 0 <= j < |tail|
      ensures NotOlder(head, tail[j])
    {
      assert tail[j] in multiset(tail);
      if tail[j] != t {
        assert tail[j] in multiset(rest);
        var h :| 0 <= h < |rest| && rest[h] == tail[j];
      }
    }
  }

  lemma {:induction false} NewestFirstSorts(tasks: seq<Task>)
    ensures Descending(NewestFirst(tasks)) && multiset(NewestFirst(tasks)) == multiset(tasks)
  {
    if tasks != [] {
      var front, last := tasks[..|tasks| - 1], tasks[|tasks| - 1];
      assert tasks == front + [last];
      NewestFirstSorts(front);
      InsertSorts(last, NewestFirst(front));
    }
  }

  /** A task that is not newer than any of `front` is inserted somewhere behind it. */
  lemma {:induction false} InsertBehind(t: Task, front: seq<Task>, back: seq<Task>)
    requires forall i :: 0 <= i < |front| ==> NotOlder(front[i], t)
    ensures InsertTask(t, front + back) == front + InsertTask(t, back)
  {
    if front == [] {
      assert front + back == back;
    } else {
      var all := front + back;
      assert all[0] == front[0] && all[1..] == front[1..] + back;
      InsertBehind(t, front[1..], back);
      if Leq(SortKey(front[0]), SortKey(t)) {
        LeqAntisym(SortKey(front[0]), SortKey(t));
      }
    }
  }

  lemma {:induction false} LeqAntisym(a: string, b: string)
    requires Leq(a, b) && Leq(b, a)
    ensures a == b
  {
    if a != [] {
      LeqAntisym(a[1..], b[1..]);
      assert a == [a[0]] + a[1..] && b == [b[0]] + b[1..];
    }
  }

  lemma NewestStep(front: seq<Task>, last: Task)
    ensures NewestFirst(front + [last]) == InsertTask(last, NewestFirst(front))
  {
    assert (front + [last])[..|front|] == front;
  }

  /** Older tasks that are scanned later do not disturb the newer ones. */
  lemma {:induction false} OlderStayBehind(newer: seq<Task>, older: seq<Task>)
    requires forall i, j :: 0 <= i < |newer| && 0 <= j < |older| ==> NotOlder(newer[i], older[j])
    ensures NewestFirst(newer + older) == NewestFirst(newer) + NewestFirst(older)
    decreases |older|
  {
    hide NotOlder;
    hide InsertTask;
    if older == [] {
      assert newer + older == newer && NewestFirst(newer) + [] == NewestFirst(newer);
    } else {
      hide NewestFirst;
      var front, last := older[..|older| - 1], older[|older| - 1];
      OlderStayBehind(newer, front);
      assert newer + older == (newer + front) + [last] && older == front + [last];
      NewestStep(newer + front, last);
      NewestStep(front, last);
      NewestFirstSorts(newer);
      SortedNotOlder(newer, NewestFirst(newer), last);
      InsertBehind(last, NewestFirst(newer), NewestFirst(front));
    }
  }

  lemma SortedNotOlder(tasks: seq<Task>, sorted: seq<Task>, t: Task)
    requires multiset(sorted) == multiset(tasks) && forall i :: 0 <= i < |tasks| ==> NotOlder(tasks[i], t)
    ensures forall i :: 0 <= i < |sorted| ==> NotOlder(sorted[i], t)
  {
    hide NotOlder;
    forall i | 0 <= i < |sorted|
      ensures NotOlder(sorted[i], t)
    {
      assert sorted[i] in multiset(sorted);
      assert sorted[i] in multiset(tasks);
      var h :| 0 <= h < |tasks| && tasks[h] == sorted[i];
    }
  }
}
