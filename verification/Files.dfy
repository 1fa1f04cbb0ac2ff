/**
 * The canonical tier: append-only partition files, one for each day and table, and
 * the order in which they are read back.
 */
module Files {
  import opened Embedding
  import opened Store

  datatype Line =
    | Put(rec: Record, ds: Day, createdAt: Time)
    | Tombstone(key: Key, deletedAt: Time)

  /** The partition files of one table. */
  type Log = map<Day, seq<Line>>

  function Append(log: Log, d: Day, line: Line): Log {
    log[d := (if d in log then log[d] else []) + [line]]
  }

  function AppendAll(log: Log, d: Day, lines: seq<Line>): Log
    decreases |lines|
  {
    if lines == [] then log else AppendAll(Append(log, d, lines[0]), d, lines[1..])
  }

  function PutLines(recs: seq<Record>, ds: Day, now: Time): (lines: seq<Line>)
    ensures |lines| == |recs|
    ensures forall i :: 0 <= i < |recs| ==> lines[i] == Put(recs[i], ds, now)
  {
    seq(|recs|, i requires 0 <= i < |recs| => Put(recs[i], ds, now))
  }

  function Tombstones(keys: seq<Key>, now: Time): (lines: seq<Line>)
    ensures |lines| == |keys|
    ensures forall i :: 0 <= i < |keys| ==> lines[i] == Tombstone(keys[i], now)
  {
    seq(|keys|, i requires 0 <= i < |keys| => Tombstone(keys[i], now))
  }

  /** Line `i` of the partition of day `d` exists. */
  predicate At(log: Log, d: Day, i: nat) {
    d in log && i < |log[d]|
  }

  /** Appending keeps every line in place and adds the new ones at the end of `d`. */
  lemma {:induction false} AppendAllMeans(log: Log, d: Day, lines: seq<Line>)
    ensures var after := AppendAll(log, d, lines);
            && (lines != [] ==> d in after)
            && (d in after ==> after[d] == (if d in log then log[d] else []) + lines)
            && (forall e :: e != d ==> (e in after <==> e in log) && (e in log ==> after[e] == log[e]))
            && (d in log ==> d in after)
    decreases |lines|
  {
    if lines == [] {
      if d in log {
        assert log[d] + [] == log[d];
      }
    } else {
      var next := Append(log, d, lines[0]);
      AppendAllMeans(next, d, lines[1..]);
      assert (if d in log then log[d] else []) + lines ==
             ((if d in log then log[d] else []) + [lines[0]]) + lines[1..];
    }
  }

  // ------------------------------------------------------------ reading back

  /** A line with the place it was read from. */
  datatype Event = Event(day: Day, pos: nat, line: Line)

  predicate Before(a: Event, b: Event) {
    a.day < b.day || (a.day == b.day && a.pos < b.pos)
  }

  lemma {:induction false} MinDay(days: set<Day>) returns (d: Day)
    requires days != {}
    ensures d in days && forall e :: e in days ==> d <= e
    decreases |days|
  {
    d :| d in days;
    var rest := days - {d};
    assert forall e :: e in days ==> e == d || e in rest;
    if rest != {} {
      var m := MinDay(rest);
      if m < d {
        d := m;
      }
    }
  }

  lemma MinExists(days: set<Day>)
    requires days != {}
    ensures exists d :: d in days && forall e :: e in days ==> d <= e
  {
    var d := MinDay(days);
  }

  function FirstDay(days: set<Day>): (d: Day)
    requires days != {}
    ensures d in days && forall e :: e in days ==> d <= e
  {
    MinExists(days);
    var d :| d in days && forall e :: e in days ==> d <= e;
    d
  }

  function SortedDays(days: set<Day>): (out: seq<Day>)
    ensures forall d :: d in out <==> d in days
    ensures forall i, j :: 0 <= i < j < |out| ==> out[i] < out[j]
    decreases days
  {
    if days == {} then [] else
      var d := FirstDay(days);
      var rest := SortedDays(days - {d});
      assert forall i :: 0 <= i < |rest| ==> rest[i] in days - {d};
      [d] + rest
  }

  function PartitionEvents(d: Day, lines: seq<Line>): (out: seq<Event>)
    ensures |out| == |lines|
    ensures forall i :: 0 <= i < |lines| ==> out[i] == Event(d, i, lines[i])
  {
    seq(|lines|, i requires 0 <= i < |lines| => Event(d, i, lines[i]))
  }

  function Flatten(days: seq<Day>, log: Log): seq<Event>
    requires forall d :: d in days ==> d in log
  {
    if days == [] then [] else PartitionEvents(days[0], log[days[0]]) + Flatten(days[1..], log)
  }

  /** `iter_events`: partitions in day order, lines in file order. */
  function Events(log: Log): seq<Event> {
    Flatten(SortedDays(log.Keys), log)
  }

  ghost predicate EventsOf(events: seq<Event>, days: seq<Day>, log: Log)
    requires forall d :: d in days ==> d in log
  {
    && (forall e :: e in events <==> e.day in days && e.pos < |log[e.day]| && e.line == log[e.day][e.pos])
    && (forall i, j :: 0 <= i < j < |events| ==> Before(events[i], events[j]))
  }

  lemma {:induction false} FlattenMeans(days: seq<Day>, log: Log)
    requires forall d :: d in days ==> d in log
    requires forall i, j :: 0 <= i < j < |days| ==> days[i] < days[j]
    ensures EventsOf(Flatten(days, log), days, log)
    decreases |days|
  {
    if days != [] {
      var head, rest := PartitionEvents(days[0], log[days[0]]), Flatten(days[1..], log);
      FlattenMeans(days[1..], log);
      var all := Flatten(days, log);
      assert all == head + rest;
      forall e
        ensures e in all <==> e.day in days && e.pos < |log[e.day]| && e.line == log[e.day][e.pos]
      {
        assert e in all <==> e in head || e in rest;
        assert e.day in days <==> e.day == days[0] || e.day in days[1..];
        if e.day == days[0] && e.pos < |log[e.day]| && e.line == log[e.day][e.pos] {
          assert head[e.pos] == e;
        }
      }
      forall i, j | 0 <= i < j < |all|
        ensures Before(all[i], all[j])
      {
        if j < |head| {
        } else if i >= |head| {
          assert all[i] == rest[i - |head|] && all[j] == rest[j - |head|];
        } else {
          assert all[j] in rest && all[i].day == days[0];
        }
      }
    }
  }

  /** The events of a log are its lines, each once, in strictly increasing place. */
  lemma EventsMean(log: Log)
    ensures forall e :: e in Events(log) <==> At(log, e.day, e.pos) && e.line == log[e.day][e.pos]
    ensures forall i, j :: 0 <= i < j < |Events(log)| ==> Before(Events(log)[i], Events(log)[j])
  {
    FlattenMeans(SortedDays(log.Keys), log);
  }

  predicate IsPut(line: Line) {
    line.Put?
  }

  predicate IsTombstone(line: Line) {
    line.Tombstone?
  }

  function Filter(events: seq<Event>, keep: Line -> bool): seq<Event> {
    if events == [] then []
    else
      var last := events[|events| - 1];
      Filter(events[..|events| - 1], keep) + if keep(last.line) then [last] else []
  }

  lemma {:induction false} FilterMeans(events: seq<Event>, keep: Line -> bool)
    requires forall i, j :: 0 <= i < j < |events| ==> Before(events[i], events[j])
    ensures forall e :: e in Filter(events, keep) <==> e in events && keep(e.line)
    ensures forall i, j :: 0 <= i < j < |Filter(events, keep)| ==> Before(Filter(events, keep)[i], Filter(events, keep)[j])
    decreases |events|
  {
    if events != [] {
      var front, last := events[..|events| - 1], events[|events| - 1];
      FilterMeans(front, keep);
      hide Before;
      var kept := Filter(front, keep);
      assert events == front + [last];
      forall i | 0 <= i < |kept|
        ensures Before(kept[i], last)
      {
        assert kept[i] in front;
        var j :| 0 <= j < |front| && front[j] == kept[i];
        assert events[j] == front[j];
      }
    }
  }

  function PutsOf(events: seq<Event>): seq<Event> {
    Filter(events, IsPut)
  }

  function DelsOf(events: seq<Event>): seq<Event> {
    Filter(events, IsTombstone)
  }

  method ReadPartition(d: Day, lines: seq<Line>) returns (events: seq<Event>)
    ensures events == PartitionEvents(d, lines)
  {
    events := [];
    for j := 0 to |lines|
      invariant |events| == j && forall i :: 0 <= i < j ==> events[i] == Event(d, i, lines[i])
    {
      events := events + [Event(d, j, lines[j])];
    }
  }

  /** FileService: the files of every table. */
  class FileService {
    var logs: map<string, Log>

    constructor (names: set<string>)
      ensures logs == map t | t in names :: map[]
    {
      logs := map t | t in names :: map[];
    }

    method WritePuts(name: string, records: seq<Record>, ds: Day, now: Time)
      requires name in logs
      modifies this
      ensures logs == old(logs)[name := AppendAll(old(logs[name]), ds, PutLines(records, ds, now))]
    {
      WriteLines(name, ds, PutLines(records, ds, now));
    }

    method WriteDeletes(name: string, keys: seq<Key>, ds: Day, now: Time)
      requires name in logs
      modifies this
      ensures logs == old(logs)[name := AppendAll(old(logs[name]), ds, Tombstones(keys, now))]
    {
      WriteLines(name, ds, Tombstones(keys, now));
    }

    /** One flushed append for each line. */
    method WriteLines(name: string, ds: Day, lines: seq<Line>)
      requires name in logs
      modifies this
      ensures logs == old(logs)[name := AppendAll(old(logs[name]), ds, lines)]
    {
      ghost var start := logs[name];
      assert lines[0..] == lines;
      for i := 0 to |lines|
        invariant name in logs && logs == old(logs)[name := logs[name]]
        invariant AppendAll(logs[name], ds, lines[i..]) == AppendAll(start, ds, lines)
      {
        assert lines[i..][1..] == lines[i + 1..];
        logs := logs[name := Append(logs[name], ds, lines[i])];
      }
    }

    /** `iter_events`. */
    method IterEvents(name: string) returns (events: seq<Event>)
      requires name in logs
      ensures events == Events(logs[name])
    {
      var log := logs[name];
      var days := SortedDays(log.Keys);
      FlattenBegin(days, log);
      hide SortedDays;
      hide Flatten;
      hide PartitionEvents;
      events := [];
      for i := 0 to |days|
        invariant events + Flatten(days[i..], log) == Flatten(days, log)
      {
        FlattenStep(days, i, log, events);
        var partition := ReadPartition(days[i], log[days[i]]);
        events := events + partition;
      }
      FlattenEnd(days, log, events);
    }
  }

  lemma FlattenBegin(days: seq<Day>, log: Log)
    requires forall d :: d in days ==> d in log
    ensures days[0..] == days && [] + Flatten(days, log) == Flatten(days, log)
  {
  }

  lemma FlattenStep(days: seq<Day>, i: nat, log: Log, events: seq<Event>)
    requires i < |days| && forall d :: d in days ==> d in log
    ensures days[i] in log
    ensures events + Flatten(days[i..], log) ==
            (events + PartitionEvents(days[i], log[days[i]])) + Flatten(days[i + 1..], log)
  {
    assert days[i..][0] == days[i] && days[i..][1..] == days[i + 1..];
    hide PartitionEvents;
    var head, rest := PartitionEvents(days[i], log[days[i]]), Flatten(days[i + 1..], log);
    assert Flatten(days[i..], log) == head + rest;
    hide Flatten;
    assert events + (head + rest) == (events + head) + rest;
  }

  lemma FlattenEnd(days: seq<Day>, log: Log, events: seq<Event>)
    requires forall d :: d in days ==> d in log
    ensures events + Flatten(days[|days|..], log) == events
  {
    assert days[|days|..] == [];
  }
}
