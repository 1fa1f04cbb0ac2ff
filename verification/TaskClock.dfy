/**
 * The task log under a clock that does not run back: submission times follow the
 * partitions, so that reading the newest partitions first is enough.
 */
module TaskClock {
  import opened Prelude
  import opened Store
  import opened TaskLog
  import opened TaskService
  import R = TaskRun
  import W = WorkerAnswers

  // ------------------------------------------------------ what the clock reads

  /** A reading of the UTC clock. */
  datatype Moment = Moment(year: nat, month: nat, day: nat, hour: nat, minute: nat, second: nat, micro: nat)

  predicate MomentOk(m: Moment) {
    && 1000 <= m.year < 10000 && 1 <= m.month <= 12 && 1 <= m.day <= 31
    && m.hour < 24 && m.minute < 60 && m.second < 60 && m.micro < 1_000_000
  }

  function Fields(m: Moment): seq<nat> {
    [m.year, m.month, m.day, m.hour, m.minute, m.second]
  }

  const WIDTHS: seq<nat> := [4, 2, 2, 2, 2, 2]
  const BREAKS := ["-", "-", "T", ":", ":", ""]

  /** The order of equally long lists, first difference first. */
  predicate Before(a: seq<nat>, b: seq<nat>)
    requires |a| == |b|
  {
    a != [] && (a[0] < b[0] || (a[0] == b[0] && Before(a[1..], b[1..])))
  }

  /** The order of readings. */
  predicate NotAfter(a: Moment, b: Moment) {
    Before(Fields(a), Fields(b)) || (Fields(a) == Fields(b) && a.micro <= b.micro)
  }

  /** `n` with leading zeros. */
  function Pad(n: nat, width: nat): (s: string)
    ensures |s| == width && forall i :: 0 <= i < width ==> '0' <= s[i] <= '9'
  {
    if width == 0 then "" else Pad(n / 10, width - 1) + [DigitOf(n % 10)]
  }

  function DigitOf(n: nat): (c: char)
    requires n < 10
    ensures '0' <= c <= '9' && (c - '0') as nat == n
  {
    '0' + n as char
  }

  function Rendered(fields: seq<nat>, widths: seq<nat>, breaks: seq<string>): string
    requires |fields| == |widths| == |breaks|
  {
    if fields == [] then "" else Pad(fields[0], widths[0]) + (breaks[0] + Rendered(fields[1..], widths[1..], breaks[1..]))
  }

  /** `isoformat` leaves the microseconds out when there are none. */
  function Fraction(micro: nat): string {
    if micro == 0 then "+00:00" else "." + (Pad(micro, 6) + "+00:00")
  }

  /** `now()`. */
  function Iso(m: Moment): string {
    Rendered(Fields(m), WIDTHS, BREAKS) + Fraction(m.micro)
  }

  /** `today()`. */
  function Ds(m: Moment): string {
    Pad(m.year, 4) + Pad(m.month, 2) + Pad(m.day, 2)
  }

  // -------------------------------------------- later readings compare higher

  /** Different at some place, and lower there. */
  predicate Less(a: string, b: string) {
    a != [] && b != [] && (a[0] < b[0] || (a[0] == b[0] && Less(a[1..], b[1..])))
  }

  lemma {:induction false} LessMeansLeq(a: string, b: string)
    requires Less(a, b)
    ensures Leq(a, b)
  {
    if a[0] == b[0] {
      LessMeansLeq(a[1..], b[1..]);
    }
  }

  lemma {:induction false} LessStays(a: string, x: string, b: string, y: string)
    requires Less(a, b)
    ensures Less(a + x, b + y)
  {
    assert (a + x)[0] == a[0] && (b + y)[0] == b[0];
    if a[0] == b[0] {
      LessStays(a[1..], x, b[1..], y);
      assert (a + x)[1..] == a[1..] + x && (b + y)[1..] == b[1..] + y;
    }
  }

  lemma {:induction false} LessBehind(p: string, a: string, b: string)
    requires Less(a, b)
    ensures Less(p + a, p + b)
  {
    if p == [] {
      assert p + a == a && p + b == b;
    } else {
      LessBehind(p[1..], a, b);
      assert (p + a)[1..] == p[1..] + a && (p + b)[1..] == p[1..] + b;
    }
  }

  lemma {:induction false} LeqBehind(p: string, a: string, b: string)
    requires Leq(a, b)
    ensures Leq(p + a, p + b)
  {
    if p == [] {
      assert p + a == a && p + b == b;
    } else {
      LeqBehind(p[1..], a, b);
      assert (p + a)[1..] == p[1..] + a && (p + b)[1..] == p[1..] + b;
    }
  }

  /** Numbers of up to `width` digits. */
  predicate Fits(n: nat, width: nat) {
    if width == 0 then n == 0 else Fits(n / 10, width - 1)
  }

  lemma {:induction false} PadOrder(a: nat, b: nat, width: nat)
    requires a < b && Fits(b, width)
    ensures Less(Pad(a, width), Pad(b, width))
    decreases width
  {
    assert width > 0;
    var p, q := Pad(a / 10, width - 1), Pad(b / 10, width - 1);
    var x, y := [DigitOf(a % 10)], [DigitOf(b % 10)];
    if a / 10 < b / 10 {
      PadOrder(a / 10, b / 10, width - 1);
      LessStays(p, x, q, y);
    } else {
      assert a / 10 == b / 10 && a % 10 < b % 10;
      assert Less(x, y);
      LessBehind(p, x, y);
    }
  }

  predicate AllFit(fields: seq<nat>, widths: seq<nat>)
    requires |fields| == |widths|
  {
    forall i :: 0 <= i < |fields| ==> Fits(fields[i], widths[i])
  }

  lemma {:induction false} RenderedOrder(a: seq<nat>, b: seq<nat>, widths: seq<nat>, breaks: seq<string>)
    requires |a| == |b| == |widths| == |breaks| && AllFit(b, widths) && Before(a, b)
    ensures Less(Rendered(a, widths, breaks), Rendered(b, widths, breaks))
  {
    var p, q := Pad(a[0], widths[0]), Pad(b[0], widths[0]);
    var x := breaks[0] + Rendered(a[1..], widths[1..], breaks[1..]);
    var y := breaks[0] + Rendered(b[1..], widths[1..], breaks[1..]);
    if a[0] < b[0] {
      PadOrder(a[0], b[0], widths[0]);
      LessStays(p, x, q, y);
    } else {
      RenderedOrder(a[1..], b[1..], widths[1..], breaks[1..]);
      LessBehind(breaks[0], Rendered(a[1..], widths[1..], breaks[1..]), Rendered(b[1..], widths[1..], breaks[1..]));
      LessBehind(p, x, y);
    }
  }

  lemma FractionOrder(a: nat, b: nat)
    requires a <= b < 1_000_000
    ensures Leq(Fraction(a), Fraction(b))
  {
    MicrosFit(b);
    if a == b {
      LeqTotal(Fraction(a), Fraction(b));
    } else if a == 0 {
      assert "+00:00"[0] < Fraction(b)[0];
    } else {
      PadOrder(a, b, 6);
      LessStays(Pad(a, 6), "+00:00", Pad(b, 6), "+00:00");
      LessBehind(".", Pad(a, 6) + "+00:00", Pad(b, 6) + "+00:00");
      LessMeansLeq(Fraction(a), Fraction(b));
    }
  }

  lemma MicrosFit(n: nat)
    requires n < 1_000_000
    ensures Fits(n, 6)
  {
    assert Fits(n / 10 / 10 / 10 / 10 / 10 / 10, 0);
    assert Fits(n / 10 / 10 / 10 / 10 / 10, 1) && Fits(n / 10 / 10 / 10 / 10, 2);
    assert Fits(n / 10 / 10 / 10, 3) && Fits(n / 10 / 10, 4);
  }

  lemma YearFits(n: nat)
    requires n < 10000
    ensures Fits(n, 4)
  {
    assert Fits(n / 10 / 10 / 10 / 10, 0) && Fits(n / 10 / 10 / 10, 1) && Fits(n / 10 / 10, 2);
  }

  lemma TwoFit(n: nat)
    requires n < 100
    ensures Fits(n, 2)
  {
    assert Fits(n / 10 / 10, 0) && Fits(n / 10, 1);
  }

  lemma FieldsFit(m: Moment)
    requires MomentOk(m)
    ensures AllFit(Fields(m), WIDTHS)
  {
    YearFits(m.year);
    TwoFit(m.month);
    TwoFit(m.day);
    TwoFit(m.hour);
    TwoFit(m.minute);
    TwoFit(m.second);
    hide Fits;
  }

  /** Later readings give later strings, with or without microseconds. */
  lemma IsoOrder(a: Moment, b: Moment)
    requires MomentOk(b) && NotAfter(a, b)
    ensures Leq(Iso(a), Iso(b))
  {
    FieldsFit(b);
    var p, q := Rendered(Fields(a), WIDTHS, BREAKS), Rendered(Fields(b), WIDTHS, BREAKS);
    if Before(Fields(a), Fields(b)) {
      RenderedOrder(Fields(a), Fields(b), WIDTHS, BREAKS);
      hide Rendered;
      LessStays(p, Fraction(a.micro), q, Fraction(b.micro));
      LessMeansLeq(Iso(a), Iso(b));
    } else {
      hide Rendered;
      FractionOrder(a.micro, b.micro);
      LeqBehind(p, Fraction(a.micro), Fraction(b.micro));
    }
  }

  /** Ten times as much for each further digit. */
  function Shift(n: nat, width: nat): nat {
    if width == 0 then n else 10 * Shift(n, width - 1)
  }

  lemma {:induction false} NumberOfPad(front: string, n: nat, width: nat)
    requires (forall i :: 0 <= i < |front| ==> '0' <= front[i] <= '9') && Fits(n, width)
    ensures Number(front + Pad(n, width)) == Shift(Number(front), width) + n
    decreases width
  {
    var s := front + Pad(n, width);
    if width == 0 {
      assert s == front;
    } else {
      NumberOfPad(front, n / 10, width - 1);
      assert s[..|s| - 1] == front + Pad(n / 10, width - 1);
      assert s[|s| - 1] == DigitOf(n % 10);
    }
  }

  function DayNumber(m: Moment): Day {
    10000 * m.year + 100 * m.month + m.day
  }

  lemma DsNumber(m: Moment)
    requires MomentOk(m)
    ensures IsDigits(Ds(m)) && Number(Ds(m)) == DayNumber(m)
  {
    YearFits(m.year);
    TwoFit(m.month);
    TwoFit(m.day);
    hide Fits;
    hide Shift;
    hide Number;
    YearNumber(m.year);
    var y, mo := Pad(m.year, 4), Pad(m.month, 2);
    NumberOfPad(y, m.month, 2);
    NumberOfPad(y + mo, m.day, 2);
    hide Pad;
    Shifts(m.year);
    Shifts(100 * m.year + m.month);
  }

  lemma YearNumber(n: nat)
    requires Fits(n, 4)
    ensures Number(Pad(n, 4)) == n
  {
    NumberOfPad("", n, 4);
    ShiftZero(4);
    hide Pad;
    hide Shift;
    hide Fits;
    assert "" + Pad(n, 4) == Pad(n, 4);
  }

  lemma Shifts(n: nat)
    ensures Shift(n, 2) == 100 * n
  {
    assert Shift(n, 1) == 10 * n;
  }

  lemma {:induction false} ShiftZero(width: nat)
    ensures Shift(0, width) == 0
  {
    if width > 0 {
      ShiftZero(width - 1);
    }
  }

  /** Later readings give no earlier day. */
  lemma DayOrder(a: Moment, b: Moment)
    requires MomentOk(a) && MomentOk(b) && NotAfter(a, b)
    ensures DayNumber(a) <= DayNumber(b)
  {
    var x, y := Fields(a), Fields(b);
    if Before(x, y) {
      assert Before(x, y) <==> x[0] < y[0] || (x[0] == y[0] && Before(x[1..], y[1..]));
      assert Before(x[1..], y[1..]) <==> x[1] < y[1] || (x[1] == y[1] && Before(x[1..][1..], y[1..][1..]));
      assert Before(x[1..][1..], y[1..][1..]) ==> x[2] <= y[2];
    } else {
      assert x[0] == y[0] && x[1] == y[1] && x[2] == y[2];
    }
  }

  // ---------------------------------------------------- how tasks are born

  /** The clock readings behind new tasks: a batch of writes takes its time and then
      its ids, a background task its id and then its time. No other task is born in
      between, since there is no `await`. */
  datatype Birth = Batch(ts: Moment, ids: seq<Moment>) | Background(id: Moment, ts: Moment)

  function IdMoments(b: Birth): seq<Moment> {
    match b
    case Batch(_, ids) => ids
    case Background(id, _) => [id]
  }

  /** What one birth reads, in order. */
  function Readings(b: Birth): seq<Moment> {
    match b
    case Batch(ts, ids) => [ts] + ids
    case Background(id, ts) => [id, ts]
  }

  /** The clock reads sensible moments and never runs back. */
  ghost predicate Steady(births: seq<Birth>) {
    && (forall i, x :: 0 <= i < |births| && x in Readings(births[i]) ==> MomentOk(x))
    && forall i, j, x, y :: 0 <= i < j < |births| && x in Readings(births[i]) && y in Readings(births[j]) ==> NotAfter(x, y)
  }

  /** The id and the submission time of a task come from this birth. */
  ghost predicate BornOf(t: Task, b: Birth) {
    t.submittedAt == Some(Iso(b.ts)) && exists m, hex :: m in IdMoments(b) && t.id == NewId(Ds(m), hex)
  }

  ghost predicate Born(births: seq<Birth>, t: Task) {
    exists i :: 0 <= i < |births| && BornOf(t, births[i])
  }

  ghost predicate AllBorn(births: seq<Birth>, records: seq<Task>) {
    forall i :: 0 <= i < |records| ==> Born(births, records[i])
  }

  lemma BornReadings(births: seq<Birth>, i: nat, t: Task) returns (m: Moment)
    requires Steady(births) && i < |births| && BornOf(t, births[i])
    ensures m in Readings(births[i]) && births[i].ts in Readings(births[i])
    ensures MomentOk(m) && MomentOk(births[i].ts) && DayOf(t.id) == Some(DayNumber(m))
  {
    var hex: string;
    m, hex :| m in IdMoments(births[i]) && t.id == NewId(Ds(m), hex);
    assert m in Readings(births[i]);
    DsNumber(m);
    NewIdIsSelfLocating(Ds(m), hex);
  }

  /** Of two tasks, the one in the earlier partition was not submitted later. */
  lemma BirthsInOrder(births: seq<Birth>, t: Task, u: Task)
    requires Steady(births) && Born(births, t) && Born(births, u)
    ensures DayOf(t.id).Some? && DayOf(u.id).Some?
    ensures DayOf(t.id).value < DayOf(u.id).value ==> NotOlder(u, t)
  {
    var i :| 0 <= i < |births| && BornOf(t, births[i]);
    var j :| 0 <= j < |births| && BornOf(u, births[j]);
    var x := BornReadings(births, i, t);
    var y := BornReadings(births, j, u);
    hide Iso;
    hide Ds;
    hide DayOf;
    hide MomentOk;
    if i == j {
      LeqTotal(SortKey(t), SortKey(u));
    } else if i < j {
      IsoOrder(births[i].ts, births[j].ts);
    } else {
      DayOrder(y, x);
    }
  }

  // ------------------------------------------------------- whole task logs

  /** Where a line of the log comes from. */
  lemma {:induction false} LineFrom(records: seq<Task>, d: Day, i: nat) returns (k: nat)
    requires Filed(records) && d in Logged(map[], records) && i < |Logged(map[], records)[d]|
    ensures k < |records| && Logged(map[], records)[d][i] == WireOf(records[k]) && DayOf(records[k].id) == Some(d)
    decreases |records|
  {
    hide DayOf;
    hide WireOf;
    var front, last := records[..|records| - 1], records[|records| - 1];
    var before := Logged(map[], front);
    if d in before && i < |before[d]| {
      k := LineFrom(front, d, i);
    } else {
      k := |records| - 1;
    }
  }

  lemma {:induction false} LoggedIsOk(records: seq<Task>)
    requires Filed(records)
    ensures LogOk(Logged(map[], records))
    decreases |records|
  {
    if records != [] {
      LoggedIsOk(records[..|records| - 1]);
      hide DayOf;
      hide LogOk;
      AppendKeepsLog(Logged(map[], records[..|records| - 1]), records[|records| - 1]);
    }
  }

  lemma BornAreFiled(births: seq<Birth>, records: seq<Task>)
    requires Steady(births) && AllBorn(births, records)
    ensures Filed(records)
  {
    hide Steady;
    hide Born;
    forall i | 0 <= i < |records|
      ensures DayOf(records[i].id).Some?
    {
      BirthsInOrder(births, records[i], records[i]);
    }
  }

  /**
   * Whatever tasks are born under a clock that does not run back, and however many
   * lines each of them logs, submission times follow the partitions.
   */
  lemma WrittenInOrder(births: seq<Birth>, records: seq<Task>)
    requires Steady(births) && AllBorn(births, records)
    ensures Filed(records) && LogOk(Logged(map[], records)) && SubmittedInOrder(Logged(map[], records))
  {
    BornAreFiled(births, records);
    LoggedIsOk(records);
    hide Steady;
    hide Born;
    hide LogOk;
    hide NotOlder;
    hide FromWire;
    var logs := Logged(map[], records);
    hide Logged;
    forall d: Day, e: Day, i: nat, j: nat |
      d in logs && e in logs && d < e && i < |logs[d]| && j < |logs[e]| &&
      FromWire(logs[d][i]).Ok? && FromWire(logs[e][j]).Ok?
      ensures NotOlder(FromWire(logs[e][j]).value, FromWire(logs[d][i]).value)
    {
      var a := LineFrom(records, d, i);
      var b := LineFrom(records, e, j);
      WireFields(records[a]);
      WireFields(records[b]);
      BirthsInOrder(births, records[a], records[b]);
    }
  }

  /** So a listing that stops early is the listing of the newest tasks, outright. */
  lemma ListIsOutright(births: seq<Birth>, records: seq<Task>, limit: nat, tasks: seq<Task>)
    requires Steady(births) && AllBorn(births, records) && Filed(records)
    requires ListsNewest(Logged(map[], records), limit, tasks)
    ensures var all := ScanAll([], DaysDescending(Logged(map[], records)), Logged(map[], records));
            AllReadable(all) && tasks == Take(NewestFirst(TasksOf(all)), limit)
  {
    hide *;
    WrittenInOrder(births, records);
    ListedInOrder(Logged(map[], records), limit, tasks);
  }

  lemma ListedInOrder(logs: Partitions, limit: nat, tasks: seq<Task>)
    requires SubmittedInOrder(logs) && ListsNewest(logs, limit, tasks)
    ensures var all := ScanAll([], DaysDescending(logs), logs);
            AllReadable(all) && tasks == Take(NewestFirst(TasksOf(all)), limit)
  {
    hide SubmittedInOrder;
    hide ScanAll;
    hide DaysDescending;
    hide AllReadable;
    hide TasksOf;
    hide NewestFirst;
  }

  // ------------------------------------------------ who writes the records

  /** The ids and the time of a round of the write worker come from one birth. */
  ghost predicate RoundBorn(births: seq<Birth>, r: W.Round) {
    exists i :: 0 <= i < |births| &&
      r.at == Iso(births[i].ts) && forall n: nat :: exists m, hex :: m in IdMoments(births[i]) && r.ids(n) == NewId(Ds(m), hex)
  }

  /** Every record of the write worker is born so. */
  lemma WorkerRecordsAreBorn(births: seq<Birth>, rounds: seq<W.Round>, turns: seq<W.Turned>)
    requires W.Paired(rounds, turns) && forall i :: 0 <= i < |rounds| ==> RoundBorn(births, rounds[i])
    ensures AllBorn(births, W.RecordsOf(rounds, turns))
  {
    hide W.RecordsOf;
    hide W.Successes;
    hide W.RoundOk;
    hide Iso;
    hide Ds;
    var records := W.RecordsOf(rounds, turns);
    forall k | 0 <= k < |records|
      ensures Born(births, records[k])
    {
      var i, h := W.RecordFrom(rounds, turns, k);
      assert RoundBorn(births, rounds[i]);
      var b :| 0 <= b < |births| && rounds[i].at == Iso(births[b].ts) &&
        forall n: nat :: exists m, hex :: m in IdMoments(births[b]) && rounds[i].ids(n) == NewId(Ds(m), hex);
      assert records[k].id == rounds[i].ids(h) && records[k].submittedAt == Some(rounds[i].at);
      assert BornOf(records[k], births[b]);
    }
  }

  /** A new background task comes from a birth. */
  ghost predicate MoveBorn(births: seq<Birth>, move: R.Move) {
    && (move.Submit? ==> Born(births, move.task))
    && (move.Adopt? ==> Born(births, move.task))
  }

  lemma {:induction false} LastIsIn(log: seq<Task>, id: string)
    requires R.Last(log, id).Some?
    ensures R.Last(log, id).value in log
  {
    if log[|log| - 1].id != id {
      LastIsIn(log[..|log| - 1], id);
      assert forall t :: t in log[..|log| - 1] ==> t in log;
    }
  }

  lemma SameBirth(births: seq<Birth>, t: Task, u: Task)
    requires Born(births, t) && u.id == t.id && u.submittedAt == t.submittedAt
    ensures Born(births, u)
  {
    hide Iso;
    hide Ds;
    var i :| 0 <= i < |births| && BornOf(t, births[i]);
    assert BornOf(u, births[i]);
  }

  /** A move logs nothing, a new task, or a line with the birth of the last line of its id. */
  lemma MoveLogs(m: R.Machine, move: R.Move) returns (t: Task)
    requires R.Apply(m, move).Some?
    ensures var after := R.Apply(m, move).value.log;
            after == m.log || (after == m.log + [t] && if move.Submit? || move.Adopt? then t == move.task else
              exists u :: u in m.log && u.id == t.id && u.submittedAt == t.submittedAt)
  {
    var after := R.Apply(m, move).value.log;
    t := if |after| > |m.log| then after[|m.log|] else Task("", "", "", None, None, None, None, None, None, None);
    if after != m.log && !move.Submit? && !move.Adopt? {
      LastIsIn(m.log, move.id);
      hide R.Last;
      var u := R.Last(m.log, move.id).value;
      assert u in m.log && u.id == t.id && u.submittedAt == t.submittedAt;
    }
  }

  lemma BirthsSnoc(births: seq<Birth>, log: seq<Task>, t: Task)
    requires AllBorn(births, log) && Born(births, t)
    ensures AllBorn(births, log + [t])
  {
    hide Born;
  }

  lemma MemberIsBorn(births: seq<Birth>, log: seq<Task>, u: Task)
    requires AllBorn(births, log) && u in log
    ensures Born(births, u)
  {
    var k :| 0 <= k < |log| && log[k] == u;
    hide Born;
  }

  lemma MoveKeepsBirths(births: seq<Birth>, m: R.Machine, move: R.Move)
    requires AllBorn(births, m.log) && MoveBorn(births, move) && R.Apply(m, move).Some?
    ensures AllBorn(births, R.Apply(m, move).value.log)
  {
    assert move.Submit? || move.Adopt? ==> Born(births, move.task);
    hide *;
    var after := R.Apply(m, move).value.log;
    var t := MoveLogs(m, move);
    if after != m.log {
      if !move.Submit? && !move.Adopt? {
        var u :| u in m.log && u.id == t.id && u.submittedAt == t.submittedAt;
        MemberIsBorn(births, m.log, u);
        SameBirth(births, u, t);
      }
      BirthsSnoc(births, m.log, t);
    }
  }

  /** Every line that a driver of a background task logs keeps the id and the submission
      time that the task was born with. */
  lemma {:induction false} RunKeepsBirths(births: seq<Birth>, m: R.Machine, moves: seq<R.Move>)
    requires AllBorn(births, m.log) && R.Run(m, moves).Some?
    requires forall i :: 0 <= i < |moves| ==> MoveBorn(births, moves[i])
    ensures AllBorn(births, R.Run(m, moves).value.log)
    decreases |moves|
  {
    if moves != [] {
      MoveKeepsBirths(births, m, moves[0]);
      hide R.Apply;
      hide AllBorn;
      hide MoveBorn;
      RunKeepsBirths(births, R.Apply(m, moves[0]).value, moves[1..]);
    }
  }
}
