/**
 * TaskService over its partitions: append, `status`, and `list`, which stops reading
 * partitions early.
 */
module TaskService {
  import opened Prelude
  import opened Store
  import opened Files
  import opened TaskLog

  /** An entry of the insertion-ordered dictionary that `list` fills. */
  datatype Slot = Slot(id: string, line: Wire)

  function Key(line: Wire): string {
    match IdOf(line)
    case Ok(id) => id
    case Err(_) => ""
  }

  /** `out[id] = line`: a known id keeps its place. */
  function Upsert(out: seq<Slot>, id: string, line: Wire): seq<Slot> {
    if out == [] then [Slot(id, line)]
    else if out[0].id == id then [Slot(id, line)] + out[1..]
    else [out[0]] + Upsert(out[1..], id, line)
  }

  function ScanLines(out: seq<Slot>, lines: seq<Wire>): seq<Slot> {
    if lines == [] then out
    else Upsert(ScanLines(out, lines[..|lines| - 1]), Key(lines[|lines| - 1]), lines[|lines| - 1])
  }

  /** Every partition. */
  function ScanAll(out: seq<Slot>, days: seq<Day>, logs: Partitions): seq<Slot>
    decreases |days|
  {
    if days == [] then out else ScanAll(ScanLines(out, Partition(logs, days[0])), days[1..], logs)
  }

  /** Partitions until there are `enough` ids. */
  function ScanUntil(out: seq<Slot>, days: seq<Day>, logs: Partitions, enough: nat): seq<Slot>
    decreases |days|
  {
    if days == [] || |out| >= enough then out
    else ScanUntil(ScanLines(out, Partition(logs, days[0])), days[1..], logs, enough)
  }

  function Reversed<T>(s: seq<T>): (r: seq<T>)
    ensures |r| == |s| && forall i :: 0 <= i < |s| ==> r[i] == s[|s| - 1 - i]
  {
    seq(|s|, i requires 0 <= i < |s| => s[|s| - 1 - i])
  }

  function DaysDescending(logs: Partitions): (days: seq<Day>)
    ensures forall d :: d in days <==> d in logs
    ensures forall i, j :: 0 <= i < j < |days| ==> days[i] > days[j]
  {
    ReversedElements(SortedDays(logs.Keys));
    Reversed(SortedDays(logs.Keys))
  }

  lemma ReversedElements<T>(s: seq<T>)
    ensures forall x :: x in Reversed(s) <==> x in s
  {
    forall x | x in s
      ensures x in Reversed(s)
    {
      var i :| 0 <= i < |s| && s[i] == x;
      assert Reversed(s)[|s| - 1 - i] == x;
    }
  }

  /** A line of the partition of day `d`: it carries one id, under `task` as `append`
      writes it, or under `ticket` as older lines have it, and the id names the day. */
  predicate LineOk(d: Day, line: Wire) {
    && IdOf(line).Ok? && DayOf(IdOf(line).value) == Some(d)
    && (Field(line, "ticket").Str? ==> Field(line, "ticket").s == IdOf(line).value)
  }

  ghost predicate LogOk(logs: Partitions) {
    forall d: Day, i: nat :: d in logs && i < |logs[d]| ==> LineOk(d, logs[d][i])
  }

  predicate LinesOk(d: Day, lines: seq<Wire>) {
    forall i :: 0 <= i < |lines| ==> LineOk(d, lines[i])
  }

  lemma PartitionOk(logs: Partitions, d: Day)
    requires LogOk(logs)
    ensures LinesOk(d, Partition(logs, d))
  {
    hide LineOk;
    if d in logs {
      forall i: nat | i < |logs[d]|
        ensures LineOk(d, logs[d][i])
      {
      }
    }
  }

  lemma AppendKeepsLog(logs: Partitions, t: Task)
    requires LogOk(logs) && DayOf(t.id).Some?
    ensures LogOk(Appended(logs, t))
  {
    WireFields(t);
    var d := DayOf(t.id).value;
    hide WireOf;
    assert IdOf(WireOf(t)) == Ok(t.id);
    hide DayOf;
    assert LineOk(d, WireOf(t));
    hide LineOk;
  }

  /** A line names exactly the id that it is filed under. */
  lemma LineNames(d: Day, line: Wire, id: string)
    requires LineOk(d, line)
    ensures id != "" ==> (Names(line, id) <==> Key(line) == id)
    ensures FromWire(line).Ok? && Key(line) == FromWire(line).value.id && DayOf(Key(line)) == Some(d)
  {
    hide DayOf;
  }

  // ----------------------------------------------- what a scan collects

  function Lookup(out: seq<Slot>, id: string): Option<Wire> {
    if out == [] then None
    else if out[0].id == id then Some(out[0].line)
    else Lookup(out[1..], id)
  }

  predicate DistinctIds(out: seq<Slot>) {
    forall i, j :: 0 <= i < j < |out| ==> out[i].id != out[j].id
  }

  lemma {:induction false} UpsertMeans(out: seq<Slot>, id: string, line: Wire, other: string)
    ensures Lookup(Upsert(out, id, line), other) == if other == id then Some(line) else Lookup(out, other)
    ensures forall s :: s in Upsert(out, id, line) ==> s in out || s == Slot(id, line)
    ensures DistinctIds(out) ==> DistinctIds(Upsert(out, id, line))
  {
    if out != [] && out[0].id != id {
      var rest, more := out[1..], Upsert(out[1..], id, line);
      UpsertMeans(rest, id, line, other);
      assert ([out[0]] + more)[1..] == more && out == [out[0]] + rest;
      if DistinctIds(out) {
        forall j | 0 <= j < |more|
          ensures more[j].id != out[0].id
        {
          assert more[j] in more;
          if more[j] in rest {
            var h :| 0 <= h < |rest| && rest[h] == more[j];
            assert out[h + 1] == more[j];
          }
        }
        assert DistinctIds(rest) by {
          assert forall i :: 0 <= i < |rest| ==> rest[i] == out[i + 1];
        }
        DistinctCons(out[0], more);
      }
    } else if out != [] {
      assert ([Slot(id, line)] + out[1..])[1..] == out[1..];
    } else {
      assert [Slot(id, line)][1..] == [];
    }
  }

  lemma DistinctCons(head: Slot, rest: seq<Slot>)
    requires DistinctIds(rest) && forall j :: 0 <= j < |rest| ==> rest[j].id != head.id
    ensures DistinctIds([head] + rest)
  {
  }

  /** A scanned partition leaves, for each id it names, its last line. */
  lemma {:induction false} ScanLinesMeans(out: seq<Slot>, d: Day, lines: seq<Wire>, id: string)
    requires LinesOk(d, lines) && id != ""
    ensures var found := LastLine(lines, id);
            Lookup(ScanLines(out, lines), id) == if found.Some? then found else Lookup(out, id)
    ensures DistinctIds(out) ==> DistinctIds(ScanLines(out, lines))
    decreases |lines|
  {
    if lines != [] {
      var front, last := lines[..|lines| - 1], lines[|lines| - 1];
      assert LineOk(d, last);
      assert LinesOk(d, front);
      LineNames(d, last, id);
      hide LineOk;
      hide Upsert;
      hide Lookup;
      hide Names;
      hide Key;
      hide DistinctIds;
      ScanLinesMeans(out, d, front, id);
      UpsertMeans(ScanLines(out, front), Key(last), last, id);
    }
  }

  /** A slot filled from one of these partitions. */
  predicate SlotOk(s: Slot, days: seq<Day>, logs: Partitions) {
    var d := DayOf(s.id);
    && d.Some? && d.value in days && d.value in logs && s.line in logs[d.value]
    && LineOk(d.value, s.line) && FromWire(s.line).value.id == s.id
  }

  predicate SlotsOk(out: seq<Slot>, days: seq<Day>, logs: Partitions) {
    forall i :: 0 <= i < |out| ==> SlotOk(out[i], days, logs)
  }

  lemma UpsertSlots(out: seq<Slot>, id: string, line: Wire, days: seq<Day>, logs: Partitions)
    requires SlotsOk(out, days, logs) && SlotOk(Slot(id, line), days, logs)
    ensures SlotsOk(Upsert(out, id, line), days, logs)
  {
    hide SlotOk;
    UpsertMeans(out, id, line, "");
    var after := Upsert(out, id, line);
    hide Upsert;
    forall i | 0 <= i < |after|
      ensures SlotOk(after[i], days, logs)
    {
      assert after[i] in after;
      if after[i] in out {
        var h :| 0 <= h < |out| && out[h] == after[i];
      }
    }
  }

  lemma {:induction false} ScanLinesSlots(out: seq<Slot>, d: Day, lines: seq<Wire>, days: seq<Day>, logs: Partitions)
    requires SlotsOk(out, days, logs) && d in days && d in logs && LinesOk(d, lines)
    requires forall i :: 0 <= i < |lines| ==> lines[i] in logs[d]
    ensures SlotsOk(ScanLines(out, lines), days, logs)
    decreases |lines|
  {
    if lines != [] {
      hide SlotsOk;
      hide Upsert;
      hide FromWire;
      hide WireOf;
      hide DayOf;
      var front, last := lines[..|lines| - 1], lines[|lines| - 1];
      assert LineOk(d, last);
      LineNames(d, last, "");
      assert SlotOk(Slot(Key(last), last), days, logs);
      hide SlotOk;
      hide Key;
      hide LineOk;
      ScanLinesSlots(out, d, front, days, logs);
      UpsertSlots(ScanLines(out, front), Key(last), last, days, logs);
    }
  }

  lemma SlotsWiden(out: seq<Slot>, days: seq<Day>, more: seq<Day>, logs: Partitions)
    requires SlotsOk(out, days, logs) && forall d :: d in days ==> d in more
    ensures SlotsOk(out, more, logs)
  {
  }

  lemma ScanDaySlots(out: seq<Slot>, d: Day, days: seq<Day>, logs: Partitions)
    requires SlotsOk(out, days, logs) && d in logs && LogOk(logs)
    ensures SlotsOk(ScanLines(out, Partition(logs, d)), days + [d], logs)
  {
    PartitionOk(logs, d);
    SlotsWiden(out, days, days + [d], logs);
    ScanLinesSlots(out, d, Partition(logs, d), days + [d], logs);
  }

  lemma ScanAllCases(out: seq<Slot>, days: seq<Day>, logs: Partitions)
    ensures ScanAll(out, days, logs) ==
            if days == [] then out else ScanAll(ScanLines(out, Partition(logs, days[0])), days[1..], logs)
  {
  }

  lemma {:induction false} ScanAllSlots(out: seq<Slot>, read: seq<Day>, days: seq<Day>, logs: Partitions)
    requires SlotsOk(out, read, logs) && LogOk(logs) && forall d :: d in days ==> d in logs
    ensures SlotsOk(ScanAll(out, days, logs), read + days, logs)
    decreases |days|
  {
    hide *;
    ScanAllCases(out, days, logs);
    if days == [] {
      assert read + days == read;
    } else {
      ScanDaySlots(out, days[0], read, logs);
      ScanAllSlots(ScanLines(out, Partition(logs, days[0])), read + [days[0]], days[1..], logs);
      assert read + [days[0]] + days[1..] == read + days;
    }
  }

  // ------------------------------------------ `list` agrees with `status`

  lemma {:induction false} ScanAllMeans(out: seq<Slot>, days: seq<Day>, logs: Partitions, id: string, d: Day)
    requires LogOk(logs) && DayOf(id) == Some(d) && DistinctIds(out)
    requires forall i, j :: 0 <= i < j < |days| ==> days[i] > days[j]
    ensures DistinctIds(ScanAll(out, days, logs))
    ensures var found := LastLine(Partition(logs, d), id);
            Lookup(ScanAll(out, days, logs), id) == if d in days && found.Some? then found else Lookup(out, id)
    decreases |days|
  {
    if days != [] {
      var head, rest := days[0], days[1..];
      assert d in days <==> d == head || d in rest;
      PartitionOk(logs, head);
      ScanLinesMeans(out, head, Partition(logs, head), id);
      if head != d {
        OtherPartition(head, Partition(logs, head), id);
      }
      hide ScanLines;
      hide LastLine;
      hide Lookup;
      hide DistinctIds;
      hide LogOk;
      ScanAllMeans(ScanLines(out, Partition(logs, head)), rest, logs, id, d);
      assert forall j :: 0 <= j < |rest| ==> rest[j] == days[j + 1];
    }
  }

  /** An id occurs only in its own partition. */
  lemma {:induction false} OtherPartition(d: Day, lines: seq<Wire>, id: string)
    requires LinesOk(d, lines) && DayOf(id) != Some(d) && id != ""
    ensures LastLine(lines, id) == None
    decreases |lines|
  {
    if lines != [] {
      assert LineOk(d, lines[|lines| - 1]);
      LineNames(d, lines[|lines| - 1], id);
      OtherPartition(d, lines[..|lines| - 1], id);
    }
  }

  lemma {:induction false} LookupIn(out: seq<Slot>, s: Slot)
    requires DistinctIds(out)
    ensures s in out <==> Lookup(out, s.id) == Some(s.line)
  {
    if out != [] {
      assert DistinctIds(out[1..]) by {
        assert forall i :: 0 <= i < |out| - 1 ==> out[1..][i] == out[i + 1];
      }
      LookupIn(out[1..], s);
      assert out == [out[0]] + out[1..];
      if s in out[1..] {
        var i :| 0 <= i < |out[1..]| && out[1..][i] == s;
        assert out[i + 1] == s;
      }
    }
  }

  /** Whole-log `list` shows each id once, with the line that `status` reports. */
  lemma ListAgreesWithStatus(logs: Partitions, id: string, line: Wire)
    requires LogOk(logs) && DayOf(id).Some?
    ensures DistinctIds(ScanAll([], DaysDescending(logs), logs))
    ensures Slot(id, line) in ScanAll([], DaysDescending(logs), logs) <==>
            LastLine(Partition(logs, DayOf(id).value), id) == Some(line)
  {
    var d, days := DayOf(id).value, DaysDescending(logs);
    ScanAllMeans([], days, logs, id, d);
    LookupIn(ScanAll([], days, logs), Slot(id, line));
    if d !in days {
      assert Partition(logs, d) == [];
    }
  }

  /** A line with two different ids, which the service never writes, shows why each line
      must carry one: `status` finds it under both, `list` shows it under one. */
  lemma TwoIdsDisagree(task: string, ticket: string, d: Day)
    requires DayOf(task) == Some(d) && DayOf(ticket) == Some(d) && task != ticket && task != ""
    ensures var line: Wire := map["task" := Str(task), "ticket" := Str(ticket)];
            var logs: Partitions := map[d := [line]];
            && StatusOf(logs, ticket).Ok? && StatusOf(logs, task).Ok?
            && ScanAll([], DaysDescending(logs), logs) == [Slot(task, line)]
  {
    var line: Wire := map["task" := Str(task), "ticket" := Str(ticket)];
    var logs: Partitions := map[d := [line]];
    var lines, days := [line], DaysDescending(logs);
    hide DayOf;
    assert Field(line, "task") == Str(task) && Field(line, "ticket") == Str(ticket);
    assert IdOf(line) == Ok(task);
    hide Field;
    assert lines[..0] == [] && LastLine(lines, task) == Some(line) && LastLine(lines, ticket) == Some(line);
    hide FromWire;
    assert FromWire(line).Ok? by {
      ReadsBack(line);
    }
    OneDay(days, d);
    assert ScanLines([], lines) == [Slot(task, line)];
    assert days[1..] == [];
    assert ScanAll([Slot(task, line)], days[1..], logs) == [Slot(task, line)];
  }

  lemma ReadsBack(line: Wire)
    requires IdOf(line).Ok?
    ensures FromWire(line).Ok?
  {
  }

  lemma OneDay(days: seq<Day>, d: Day)
    requires (forall e :: e in days <==> e == d) && forall i, j :: 0 <= i < j < |days| ==> days[i] > days[j]
    ensures days == [d]
  {
    assert d in days && Distinct(days);
    assert ElementsOf(days) == {d};
    CountDistinct(days, {d});
  }

  // -------------------------------------------------- stopping early is enough

  predicate Readable(s: Slot) {
    FromWire(s.line).Ok?
  }

  predicate AllReadable(out: seq<Slot>) {
    forall i :: 0 <= i < |out| ==> Readable(out[i])
  }

  function Read(s: Slot): Task
    requires Readable(s)
  {
    FromWire(s.line).value
  }

  function TasksOf(out: seq<Slot>): (tasks: seq<Task>)
    requires AllReadable(out)
    ensures |tasks| == |out| && forall i :: 0 <= i < |out| ==> tasks[i] == Read(out[i])
  {
    seq(|out|, i requires 0 <= i < |out| => Read(out[i]))
  }

  lemma SlotsRead(out: seq<Slot>, days: seq<Day>, logs: Partitions)
    requires SlotsOk(out, days, logs)
    ensures AllReadable(out)
  {
    forall i | 0 <= i < |out|
      ensures Readable(out[i])
    {
      assert SlotOk(out[i], days, logs);
    }
  }

  function Take<T>(s: seq<T>, n: nat): seq<T> {
    if n <= |s| then s[..n] else s
  }

  lemma {:induction false} UpsertBehind(a: seq<Slot>, b: seq<Slot>, id: string, line: Wire)
    requires forall i :: 0 <= i < |a| ==> a[i].id != id
    ensures Upsert(a + b, id, line) == a + Upsert(b, id, line)
  {
    if a == [] {
      assert a + b == b;
    } else {
      assert (a + b)[1..] == a[1..] + b;
      UpsertBehind(a[1..], b, id, line);
      assert a == [a[0]] + a[1..];
    }
  }

  lemma {:induction false} ScanLinesBehind(a: seq<Slot>, b: seq<Slot>, d: Day, lines: seq<Wire>)
    requires LinesOk(d, lines) && forall i :: 0 <= i < |a| ==> DayOf(a[i].id) != Some(d)
    ensures ScanLines(a + b, lines) == a + ScanLines(b, lines)
    decreases |lines|
  {
    if lines != [] {
      var front, last := lines[..|lines| - 1], lines[|lines| - 1];
      assert LineOk(d, last);
      LineNames(d, last, "");
      hide LineOk;
      hide Key;
      hide Upsert;
      ScanLinesBehind(a, b, d, front);
      UpsertBehind(a, ScanLines(b, front), Key(last), last);
    }
  }

  lemma {:induction false} ScanAllBehind(a: seq<Slot>, b: seq<Slot>, days: seq<Day>, logs: Partitions)
    requires LogOk(logs)
    requires forall i, d :: 0 <= i < |a| && d in days ==> DayOf(a[i].id) != Some(d)
    ensures ScanAll(a + b, days, logs) == a + ScanAll(b, days, logs)
    decreases |days|
  {
    if days != [] {
      PartitionOk(logs, days[0]);
      ScanLinesBehind(a, b, days[0], Partition(logs, days[0]));
      hide ScanLines;
      hide LogOk;
      hide DayOf;
      hide LinesOk;
      ScanAllBehind(a, ScanLines(b, Partition(logs, days[0])), days[1..], logs);
    }
  }

  lemma ScanUntilStep(out: seq<Slot>, days: seq<Day>, logs: Partitions, enough: nat)
    requires days != [] && |out| < enough
    ensures ScanUntil(out, days, logs, enough) ==
            ScanUntil(ScanLines(out, Partition(logs, days[0])), days[1..], logs, enough)
    ensures ScanAll(out, days, logs) == ScanAll(ScanLines(out, Partition(logs, days[0])), days[1..], logs)
  {
  }

  lemma ScanUntilEnd(out: seq<Slot>, days: seq<Day>, logs: Partitions, enough: nat)
    requires days == [] || |out| >= enough
    ensures ScanUntil(out, days, logs, enough) == out
  {
  }

  lemma Regroup<T>(read: seq<T>, days: seq<T>, k: nat)
    requires k < |days|
    ensures (read + [days[0]]) + days[1..][..k] == read + days[..k + 1]
    ensures days[1..][k..] == days[k + 1..]
  {
  }

  /** Where an early stop stands: what it has, and what it leaves unread. */
  lemma {:induction false} ScanUntilStops(out: seq<Slot>, read: seq<Day>, days: seq<Day>, logs: Partitions, enough: nat)
    returns (k: nat)
    requires LogOk(logs) && SlotsOk(out, read, logs) && forall d :: d in days ==> d in logs
    ensures k <= |days| && (k < |days| ==> |ScanUntil(out, days, logs, enough)| >= enough)
    ensures SlotsOk(ScanUntil(out, days, logs, enough), read + days[..k], logs)
    ensures ScanAll(out, days, logs) == ScanAll(ScanUntil(out, days, logs, enough), days[k..], logs)
    decreases |days|
  {
    hide *;
    if days == [] || |out| >= enough {
      k := 0;
      ScanUntilEnd(out, days, logs, enough);
      assert read + days[..0] == read && days[0..] == days;
    } else {
      ScanDaySlots(out, days[0], read, logs);
      ScanUntilStep(out, days, logs, enough);
      var k' := ScanUntilStops(ScanLines(out, Partition(logs, days[0])), read + [days[0]], days[1..], logs, enough);
      k := k' + 1;
      Regroup(read, days, k');
    }
  }

  /** No task in a partition was submitted before one in an earlier partition. */
  ghost predicate SubmittedInOrder(logs: Partitions) {
    forall d: Day, e: Day, i: nat, j: nat ::
      d in logs && e in logs && d < e && i < |logs[d]| && j < |logs[e]| &&
      FromWire(logs[d][i]).Ok? && FromWire(logs[e][j]).Ok? ==>
        NotOlder(FromWire(logs[e][j]).value, FromWire(logs[d][i]).value)
  }

  predicate AllBefore(read: seq<Day>, unread: seq<Day>) {
    forall i, j :: 0 <= i < |read| && 0 <= j < |unread| ==> read[i] > unread[j]
  }

  lemma DaysApart(read: seq<Day>, unread: seq<Day>, e: Day, d: Day)
    requires AllBefore(read, unread) && e in read && d in unread
    ensures e > d
  {
  }

  /** Where the line of a slot stands. */
  lemma SlotPlace(s: Slot, days: seq<Day>, logs: Partitions) returns (d: Day, i: nat)
    requires SlotOk(s, days, logs)
    ensures DayOf(s.id) == Some(d) && d in days && d in logs && i < |logs[d]| && logs[d][i] == s.line && Readable(s)
  {
    d := DayOf(s.id).value;
    i :| i < |logs[d]| && logs[d][i] == s.line;
  }

  lemma ReadIsNotOlder(a: Slot, read: seq<Day>, b: Slot, unread: seq<Day>, logs: Partitions)
    requires SlotOk(a, read, logs) && SlotOk(b, unread, logs) && SubmittedInOrder(logs) && AllBefore(read, unread)
    ensures Readable(a) && Readable(b) && NotOlder(Read(a), Read(b))
  {
    hide FromWire;
    hide NotOlder;
    var e, j := SlotPlace(a, read, logs);
    var d, i := SlotPlace(b, unread, logs);
    DaysApart(read, unread, e, d);
    hide SlotOk;
    hide AllBefore;
  }

  lemma NotReadAgain(out: seq<Slot>, read: seq<Day>, unread: seq<Day>, logs: Partitions)
    requires SlotsOk(out, read, logs) && AllBefore(read, unread)
    ensures forall i, d :: 0 <= i < |out| && d in unread ==> DayOf(out[i].id) != Some(d)
  {
    hide DayOf;
    hide SlotOk;
    hide AllBefore;
    forall i, d | 0 <= i < |out| && d in unread
      ensures DayOf(out[i].id) != Some(d)
    {
      var e, h := SlotPlace(out[i], read, logs);
      DaysApart(read, unread, e, d);
    }
  }

  /** Every task of `newer` is at least as new as every task of `older`. */
  ghost predicate NewerThan(newer: seq<Slot>, older: seq<Slot>) {
    && AllReadable(newer) && AllReadable(older)
    && forall i, j :: 0 <= i < |newer| && 0 <= j < |older| ==> NotOlder(Read(newer[i]), Read(older[j]))
  }

  lemma SlotsNewer(newer: seq<Slot>, read: seq<Day>, older: seq<Slot>, unread: seq<Day>, logs: Partitions)
    requires SlotsOk(newer, read, logs) && SlotsOk(older, unread, logs)
    requires SubmittedInOrder(logs) && AllBefore(read, unread)
    ensures NewerThan(newer, older)
  {
    SlotsRead(newer, read, logs);
    SlotsRead(older, unread, logs);
    hide SlotOk;
    hide Readable;
    hide Read;
    hide NotOlder;
    hide SubmittedInOrder;
    hide AllBefore;
    forall i, j | 0 <= i < |newer| && 0 <= j < |older|
      ensures NotOlder(Read(newer[i]), Read(older[j]))
    {
      ReadIsNotOlder(newer[i], read, older[j], unread, logs);
    }
  }

  /** The part that an early stop leaves unread only adds slots of older tasks behind. */
  lemma UnreadComesBehind(out: seq<Slot>, read: seq<Day>, unread: seq<Day>, logs: Partitions)
    requires LogOk(logs) && SubmittedInOrder(logs) && SlotsOk(out, read, logs)
    requires AllBefore(read, unread) && forall d :: d in unread ==> d in logs
    ensures ScanAll(out, unread, logs) == out + ScanAll([], unread, logs)
    ensures NewerThan(out, ScanAll([], unread, logs))
  {
    hide *;
    var none: seq<Slot> := [];
    var noDays: seq<Day> := [];
    assert SlotsOk(none, noDays, logs) by {
      NoSlots(logs);
    }
    ScanAllSlots(none, noDays, unread, logs);
    assert noDays + unread == unread && out + none == out;
    NotReadAgain(out, read, unread, logs);
    ScanAllBehind(out, none, unread, logs);
    SlotsNewer(out, read, ScanAll(none, unread, logs), unread, logs);
  }

  lemma NoSlots(logs: Partitions)
    ensures SlotsOk([], [], logs)
  {
  }

  lemma NewerFirst(newer: seq<Slot>, older: seq<Slot>)
    requires NewerThan(newer, older)
    ensures AllReadable(newer + older)
    ensures NewestFirst(TasksOf(newer + older)) == NewestFirst(TasksOf(newer)) + NewestFirst(TasksOf(older))
    ensures |NewestFirst(TasksOf(newer))| == |newer|
  {
    hide Readable;
    hide Read;
    hide NotOlder;
    hide NewestFirst;
    assert AllReadable(newer + older);
    assert TasksOf(newer + older) == TasksOf(newer) + TasksOf(older);
    OlderStayBehind(TasksOf(newer), TasksOf(older));
    NewestFirstSorts(TasksOf(newer));
    SameSize(NewestFirst(TasksOf(newer)), TasksOf(newer));
  }

  /**
   * Stopping once there are `enough` ids, for any `enough` of at least `limit`, gives
   * the same `limit` newest tasks, in the same order, as reading the whole log, when
   * submission times follow the order of the partitions.
   */
  lemma StoppingEarlyIsEnough(logs: Partitions, limit: nat, enough: nat)
    requires LogOk(logs) && SubmittedInOrder(logs) && limit <= enough
    ensures var some, all := ScanUntil([], DaysDescending(logs), logs, enough), ScanAll([], DaysDescending(logs), logs);
            && AllReadable(some) && AllReadable(all)
            && Take(NewestFirst(TasksOf(some)), limit) == Take(NewestFirst(TasksOf(all)), limit)
  {
    var days := DaysDescending(logs);
    hide *;
    var none: seq<Slot> := [];
    var noDays: seq<Day> := [];
    NoSlots(logs);
    var some, all := ScanUntil(none, days, logs, enough), ScanAll(none, days, logs);
    var k := ScanUntilStops(none, noDays, days, logs, enough);
    assert noDays + days[..k] == days[..k];
    DaysSplit(days, k);
    UnreadComesBehind(some, days[..k], days[k..], logs);
    var rest := ScanAll(none, days[k..], logs);
    NewerFirst(some, rest);
    BothReadable(some, rest);
    if k == |days| {
      NothingUnread(days[k..], logs);
      assert some + rest == some;
    } else {
      TakeFront(NewestFirst(TasksOf(some)), NewestFirst(TasksOf(rest)), limit);
    }
  }

  lemma BothReadable(newer: seq<Slot>, older: seq<Slot>)
    requires NewerThan(newer, older)
    ensures AllReadable(newer) && AllReadable(older)
  {
  }

  lemma NothingUnread(days: seq<Day>, logs: Partitions)
    requires days == []
    ensures ScanAll([], days, logs) == []
  {
  }

  lemma DaysSplit(days: seq<Day>, k: nat)
    requires k <= |days| && forall i, j :: 0 <= i < j < |days| ==> days[i] > days[j]
    ensures AllBefore(days[..k], days[k..])
  {
  }

  lemma UntilReadable(logs: Partitions, enough: nat)
    requires LogOk(logs)
    ensures AllReadable(ScanUntil([], DaysDescending(logs), logs, enough))
  {
    var days := DaysDescending(logs);
    hide *;
    NoSlots(logs);
    var k := ScanUntilStops([], [], days, logs, enough);
    SlotsRead(ScanUntil([], days, logs, enough), [] + days[..k], logs);
  }

  /** The `limit` newest tasks of the whole log, each with its last line. */
  ghost predicate ListsNewest(logs: Partitions, limit: nat, tasks: seq<Task>) {
    var all := ScanAll([], DaysDescending(logs), logs);
    SubmittedInOrder(logs) ==> AllReadable(all) && tasks == Take(NewestFirst(TasksOf(all)), limit)
  }

  lemma ListIsRight(logs: Partitions, limit: nat)
    requires LogOk(logs)
    ensures var some := ScanUntil([], DaysDescending(logs), logs, limit * 3);
            AllReadable(some) && ListsNewest(logs, limit, Take(NewestFirst(TasksOf(some)), limit))
  {
    hide DaysDescending;
    hide ScanUntil;
    hide ScanAll;
    hide LogOk;
    hide NewestFirst;
    hide AllReadable;
    hide Take;
    UntilReadable(logs, limit * 3);
    if SubmittedInOrder(logs) {
      StoppingEarlyIsEnough(logs, limit, limit * 3);
      hide SubmittedInOrder;
    }
  }

  lemma SameSize<T>(a: seq<T>, b: seq<T>)
    requires multiset(a) == multiset(b)
    ensures |a| == |b|
  {
    assert |multiset(a)| == |a| && |multiset(b)| == |b|;
  }

  lemma TakeFront<T>(a: seq<T>, b: seq<T>, n: nat)
    ensures n <= |a| ==> Take(a + b, n) == Take(a, n)
  {
  }

  // ------------------------------------------------------------------ the class

  class TaskService {
    var logs: Partitions

    constructor ()
      ensures Valid() && logs == map[]
    {
      logs := map[];
    }

    ghost predicate Valid()
      reads this
    {
      LogOk(logs)
    }

    /** One line at the end of the partition that the id names. */
    method Append(t: Task)
      requires Valid() && DayOf(t.id).Some?
      modifies this
      ensures Valid() && logs == Appended(old(logs), t)
      ensures forall id :: StatusOf(logs, id) == if id == t.id then Ok(t) else StatusOf(old(logs), id)
    {
      AppendKeepsLog(logs, t);
      forall id
        ensures StatusOf(Appended(logs, t), id) == if id == t.id then Ok(t) else StatusOf(logs, id)
      {
        LastLineWins(logs, t, id);
      }
      hide StatusOf;
      hide DayOf;
      var d := DayOf(t.id).value;
      var line := ToWire(t);
      logs := logs[d := Partition(logs, d) + [line]];
    }

    /** Scan the partition of the id to its end: the last line that names it wins. */
    method Status(id: string) returns (r: Result<Task>)
      ensures r == StatusOf(logs, id)
    {
      if DayOf(id).None? {
        return Err("unknown task");
      }
      var lines := Partition(logs, DayOf(id).value);
      var found: Option<Wire> := None;
      for i := 0 to |lines|
        invariant found == LastLine(lines[..i], id)
      {
        assert lines[..i + 1][..i] == lines[..i];
        if Names(lines[i], id) {
          found := Some(lines[i]);
        }
      }
      assert lines[..|lines|] == lines;
      if found.None? {
        return Err("unknown task");
      }
      return FromWire(found.value);
    }

    /** `list`: newest partitions first, until three times `limit` ids are collected. */
    method List(limit: nat) returns (tasks: seq<Task>)
      requires Valid()
      ensures ListsNewest(logs, limit, tasks)
    {
      assert LogOk(logs);
      hide *;
      ListIsRight(logs, limit);
      var out := Scan(DaysDescending(logs), limit * 3);
      return Take(NewestFirst(TasksOf(out)), limit);
    }

    method Scan(days: seq<Day>, enough: nat) returns (out: seq<Slot>)
      ensures out == ScanUntil([], days, logs, enough)
    {
      hide *;
      out := [];
      assert days[0..] == days;
      var i := 0;
      while i < |days|
        invariant 0 <= i <= |days|
        invariant ScanUntil(out, days[i..], logs, enough) == ScanUntil([], days, logs, enough)
      {
        if |out| >= enough {
          break;
        }
        assert days[i..][1..] == days[i + 1..];
        ScanUntilStep(out, days[i..], logs, enough);
        out := ScanPartition(out, Partition(logs, days[i]));
        i := i + 1;
      }
      ScanUntilEnd(out, days[i..], logs, enough);
    }

    method ScanPartition(before: seq<Slot>, lines: seq<Wire>) returns (out: seq<Slot>)
      ensures out == ScanLines(before, lines)
    {
      out := before;
      for i := 0 to |lines|
        invariant out == ScanLines(before, lines[..i])
      {
        assert lines[..i + 1][..i] == lines[..i];
        out := Upsert(out, Key(lines[i]), lines[i]);
      }
      assert lines[..|lines|] == lines;
    }
  }
}
