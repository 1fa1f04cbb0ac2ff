/**
 * What the write worker tells its callers, and what it leaves in the task log: the
 * answer of each write of a batch, and its record.
 */
module WorkerAnswers {
  import opened Prelude
  import opened Store
  import opened WorkerQueue
  import H = History
  import T = TaskLog

  /** What the clock gives while one write executes. */
  datatype Stamp = Stamp(ds: Day, now: Time)

  datatype Future = Pending | Resolved(task: T.Task) | Rejected(reason: string) | Cancelled

  // ---------------------------------------------------------------- futures

  /** A settled future never changes again. */
  ghost predicate Advances(before: map<nat, Future>, after: map<nat, Future>) {
    forall f :: f in before ==> f in after && (!before[f].Pending? ==> after[f] == before[f])
  }

  /** The record of a write, born done. */
  function BornDone(id: string, out: H.Outcome, at: Time): T.Task
    requires !out.Failed?
  {
    T.Task(id, if out.Inserted? then "insert" else "delete", "done", None,
           if out.Deleted? then Some(out.matched) else None, None, None, None, Some(at), Some(at))
  }

  /** A write that went through, waiting for its record. */
  datatype Executed = Executed(future: nat, out: H.Outcome)

  function Successes(rs: seq<Request>, outs: seq<H.Outcome>): (done: seq<Executed>)
    requires |rs| == |outs|
    ensures Succeeded(done)
  {
    if rs == [] then []
    else
      var n := |rs| - 1;
      Successes(rs[..n], outs[..n]) + if outs[n].Failed? then [] else [Executed(rs[n].future, outs[n])]
  }

  lemma {:induction false} SuccessIn(rs: seq<Request>, outs: seq<H.Outcome>, i: nat) returns (j: nat)
    requires |rs| == |outs| && i < |rs| && !outs[i].Failed?
    ensures j < |Successes(rs, outs)| && Successes(rs, outs)[j] == Executed(rs[i].future, outs[i])
    ensures j == |Successes(rs[..i], outs[..i])|
    decreases |rs|
  {
    var n := |rs| - 1;
    if i == n {
      j := |Successes(rs[..n], outs[..n])|;
    } else {
      j := SuccessIn(rs[..n], outs[..n], i);
      assert rs[..n][..i] == rs[..i] && outs[..n][..i] == outs[..i];
    }
  }

  lemma {:induction false} SuccessFrom(rs: seq<Request>, outs: seq<H.Outcome>, j: nat) returns (i: nat)
    requires |rs| == |outs| && j < |Successes(rs, outs)|
    ensures i < |rs| && !outs[i].Failed? && Successes(rs, outs)[j] == Executed(rs[i].future, outs[i])
    decreases |rs|
  {
    var n := |rs| - 1;
    if j == |Successes(rs[..n], outs[..n])| {
      i := n;
    } else {
      i := SuccessFrom(rs[..n], outs[..n], j);
    }
  }

  // ---------------------------------------------------------------- answers

  /** Not yet answered by the worker. */
  predicate Waiting(f: Future) {
    f.Pending? || f.Cancelled?
  }

  /** After a write has executed: its failure is its answer; a success still waits for
      its record. */
  predicate Executes(f: Future, out: H.Outcome) {
    if out.Failed? then f.Cancelled? || f == Rejected(out.reason) else Waiting(f)
  }

  /** What a settled future tells its caller: a result means that the write went
      through and that its record is in the task log. */
  ghost predicate Tells(f: Future, out: H.Outcome, logs: T.Partitions) {
    match f
    case Pending => false
    case Cancelled => true
    case Rejected(reason) => out.Failed? ==> reason == out.reason
    case Resolved(task) =>
      && !out.Failed? && task == BornDone(task.id, out, Default(task.finishedAt)) && T.StatusOf(logs, task.id) == Ok(task)
  }

  function Default(at: Option<Time>): Time {
    if at.Some? then at.value else ""
  }

  /** Requests with futures of their own that wait for an answer. */
  ghost predicate BatchOk(batch: seq<Request>, futures: map<nat, Future>) {
    && (forall i :: 0 <= i < |batch| ==> batch[i].future in futures && Waiting(futures[batch[i].future]))
    && (forall i, j :: 0 <= i < j < |batch| ==> batch[i].future != batch[j].future)
  }

  /** What happens during one turn of the worker that it does not decide: the clock,
      the tables whose refresh fails, the new task ids, how many appends succeed. */
  datatype Round = Round(clock: nat -> Stamp, broken: set<string>, ids: nat -> string, at: Time, appends: nat)

  ghost predicate RoundOk(r: Round) {
    && (forall i: nat :: T.DayOf(r.ids(i)).Some?)
    && (forall i: nat, j: nat :: r.ids(i) == r.ids(j) ==> i == j)
  }

  function Stamps(r: Round, n: nat): (ss: seq<Stamp>)
    ensures |ss| == n
  {
    seq(n, i requires 0 <= i < n => r.clock(i))
  }

  function Least(a: nat, b: nat): nat {
    if a <= b then a else b
  }

  predicate Succeeded(executed: seq<Executed>) {
    forall i :: 0 <= i < |executed| ==> !executed[i].out.Failed?
  }

  lemma SucceededAt(executed: seq<Executed>, i: nat)
    requires Succeeded(executed) && i < |executed|
    ensures !executed[i].out.Failed?
  {
  }

  /** The records of the first `n` successes. */
  ghost function RecordedTo(r: Round, executed: seq<Executed>, n: nat): (records: seq<T.Task>)
    requires RoundOk(r) && Succeeded(executed) && n <= |executed|
    ensures |records| == n && T.Filed(records) && T.DistinctRecords(records)
    ensures forall j :: 0 <= j < n ==> records[j] == BornDone(r.ids(j), executed[j].out, r.at)
  {
    hide T.DayOf;
    seq(n, j requires 0 <= j < n => BornDone(r.ids(j), executed[j].out, r.at))
  }

  /** The records of a batch, in the order of its successes, until an append fails. */
  ghost function Recorded(r: Round, executed: seq<Executed>): (records: seq<T.Task>)
    requires RoundOk(r) && Succeeded(executed)
    ensures |records| == Least(|executed|, r.appends) && T.Filed(records) && T.DistinctRecords(records)
    ensures forall j :: 0 <= j < |records| ==> records[j] == BornDone(r.ids(j), executed[j].out, r.at)
  {
    RecordedTo(r, executed, Least(|executed|, r.appends))
  }

  lemma RecordedNothing(r: Round, executed: seq<Executed>, logs: T.Partitions)
    requires RoundOk(r) && Succeeded(executed)
    ensures RecordedTo(r, executed, 0) == [] && T.Logged(logs, RecordedTo(r, executed, 0)) == logs
  {
  }

  /** One record more. */
  lemma RecordedSnoc(r: Round, executed: seq<Executed>, i: nat, logs: T.Partitions)
    requires RoundOk(r) && Succeeded(executed) && i < |executed|
    ensures var records, task := RecordedTo(r, executed, i), BornDone(r.ids(i), executed[i].out, r.at);
            && T.DayOf(task.id).Some? && RecordedTo(r, executed, i + 1) == records + [task]
            && T.Logged(logs, records + [task]) == T.Appended(T.Logged(logs, records), task)
  {
    var records, task := RecordedTo(r, executed, i), BornDone(r.ids(i), executed[i].out, r.at);
    assert T.DayOf(task.id).Some?;
    hide RoundOk;
    hide T.DayOf;
    hide BornDone;
    hide RecordedTo;
    hide T.DistinctRecords;
    T.LoggedSnoc(logs, records, task);
    hide T.Logged;
    hide T.Appended;
    hide T.Filed;
    assert RecordedTo(r, executed, i + 1) == records + [task];
  }

  /** When an append fails, the records of the successes before it stay. */
  lemma RecordedStops(r: Round, executed: seq<Executed>, i: nat)
    requires RoundOk(r) && Succeeded(executed) && i <= |executed| && i <= r.appends
    ensures i == |executed| || i == r.appends ==> RecordedTo(r, executed, i) == Recorded(r, executed)
  {
    hide RoundOk;
    hide BornDone;
    hide RecordedTo;
  }

  /** The answer to write `j` of a batch: its own failure, the failure of an append, or
      its record. */
  function AnswerTo(batch: seq<Request>, outs: seq<H.Outcome>, r: Round, j: nat): Future
    requires |outs| == |batch| && j < |batch|
  {
    if outs[j].Failed? then Rejected(outs[j].reason)
    else if |Successes(batch, outs)| > r.appends then Rejected("append failed")
    else Resolved(BornDone(r.ids(|Successes(batch[..j], outs[..j])|), outs[j], r.at))
  }

  /** Every write of the batch has its answer, unless its caller has given it up. */
  ghost predicate Answered(batch: seq<Request>, outs: seq<H.Outcome>, r: Round, futures: map<nat, Future>) {
    && |outs| == |batch|
    && forall j :: 0 <= j < |batch| ==>
         batch[j].future in futures &&
         (futures[batch[j].future].Cancelled? || futures[batch[j].future] == AnswerTo(batch, outs, r, j))
  }

  /** The first `|outs|` writes of the batch have executed, the others wait. */
  ghost predicate RanTo(batch: seq<Request>, futures: map<nat, Future>, outs: seq<H.Outcome>) {
    && |outs| <= |batch|
    && (forall j :: 0 <= j < |batch| ==> batch[j].future in futures)
    && (forall j :: 0 <= j < |outs| ==> Executes(futures[batch[j].future], outs[j]))
    && (forall j :: |outs| <= j < |batch| ==> Waiting(futures[batch[j].future]))
    && (forall i, j :: 0 <= i < j < |batch| ==> batch[i].future != batch[j].future)
  }

  /** Futures that advance without being settled by the worker. */
  lemma RanWaits(batch: seq<Request>, before: map<nat, Future>, after: map<nat, Future>, outs: seq<H.Outcome>)
    requires RanTo(batch, before, outs) && Advances(before, after)
    requires forall f :: f in before && Waiting(before[f]) ==> f in after && Waiting(after[f])
    ensures RanTo(batch, after, outs)
  {
    forall j | 0 <= j < |outs|
      ensures batch[j].future in after && Executes(after[batch[j].future], outs[j])
    {
      assert Executes(before[batch[j].future], outs[j]);
    }
  }

  /** All records written: hand each success its own. */
  lemma AllResolved(
      batch: seq<Request>, before: map<nat, Future>, after: map<nat, Future>, outs: seq<H.Outcome>, r: Round,
      executed: seq<Executed>, records: seq<T.Task>)
    requires RanTo(batch, before, outs) && |outs| == |batch| && Advances(before, after) && RoundOk(r)
    requires executed == Successes(batch, outs) && |executed| <= r.appends && records == Recorded(r, executed)
    requires forall i :: 0 <= i < |executed| ==> executed[i].future in after
    requires forall i :: 0 <= i < |executed| ==>
      after[executed[i].future].Cancelled? || after[executed[i].future] == Resolved(records[i])
    ensures Answered(batch, outs, r, after)
  {
    hide Successes;
    hide RoundOk;
    forall j | 0 <= j < |batch|
      ensures batch[j].future in after
      ensures after[batch[j].future].Cancelled? || after[batch[j].future] == AnswerTo(batch, outs, r, j)
    {
      assert Executes(before[batch[j].future], outs[j]);
      if !outs[j].Failed? {
        var h := SuccessIn(batch, outs, j);
        assert executed[h] == Executed(batch[j].future, outs[j]);
      }
    }
  }

  lemma AllRejected(
      batch: seq<Request>, before: map<nat, Future>, after: map<nat, Future>, outs: seq<H.Outcome>, r: Round)
    requires RanTo(batch, before, outs) && |outs| == |batch| && |Successes(batch, outs)| > r.appends
    requires forall j :: 0 <= j < |batch| ==> batch[j].future in after
    requires forall j :: 0 <= j < |batch| ==>
      after[batch[j].future] == if before[batch[j].future].Pending? then Rejected("append failed") else before[batch[j].future]
    ensures Answered(batch, outs, r, after)
  {
    hide Successes;
    forall j | 0 <= j < |batch|
      ensures after[batch[j].future].Cancelled? || after[batch[j].future] == AnswerTo(batch, outs, r, j)
    {
      assert Executes(before[batch[j].future], outs[j]);
    }
  }

  /** The answers of a batch tell the truth as soon as its records are logged. */
  lemma AnsweredTells(batch: seq<Request>, outs: seq<H.Outcome>, r: Round, futures: map<nat, Future>, logs: T.Partitions)
    requires Answered(batch, outs, r, futures) && RoundOk(r)
    ensures var after := T.Logged(logs, Recorded(r, Successes(batch, outs)));
            forall j :: 0 <= j < |batch| ==> batch[j].future in futures && Tells(futures[batch[j].future], outs[j], after)
    ensures |Successes(batch, outs)| <= r.appends ==>
      forall j :: 0 <= j < |batch| && futures[batch[j].future].Rejected? ==> outs[j].Failed?
  {
    hide T.StatusOf;
    hide T.Logged;
    hide Successes;
    hide RoundOk;
    var records := Recorded(r, Successes(batch, outs));
    forall j | 0 <= j < |batch|
      ensures Tells(futures[batch[j].future], outs[j], T.Logged(logs, records))
    {
      if futures[batch[j].future].Resolved? {
        var h := SuccessIn(batch, outs, j);
        assert futures[batch[j].future].task == records[h];
        T.LastOfDistinct(records, h);
        T.LoggedStatus(logs, records, records[h].id);
      }
    }
  }

  lemma AnsweredNothing(r: Round, futures: map<nat, Future>, logs: T.Partitions)
    requires RoundOk(r)
    ensures Answered([], [], r, futures) && Successes([], []) == [] && T.Logged(logs, Recorded(r, [])) == logs
  {
    assert Recorded(r, []) == [];
  }

  /** Answers are for ever. */
  lemma AnsweredStays(batch: seq<Request>, outs: seq<H.Outcome>, r: Round, before: map<nat, Future>, after: map<nat, Future>)
    requires Answered(batch, outs, r, before) && Advances(before, after)
    ensures Answered(batch, outs, r, after)
  {
    hide AnswerTo;
    forall j | 0 <= j < |batch|
      ensures batch[j].future in after && after[batch[j].future] == before[batch[j].future]
    {
      AnswersAreSettled(batch, outs, r, j);
    }
  }

  lemma AnswersAreSettled(batch: seq<Request>, outs: seq<H.Outcome>, r: Round, j: nat)
    requires |outs| == |batch| && j < |batch|
    ensures !AnswerTo(batch, outs, r, j).Pending?
  {
  }

  predicate DistinctFutures(executed: seq<Executed>) {
    forall i, j :: 0 <= i < j < |executed| ==> executed[i].future != executed[j].future
  }

  /** Successes of distinct requests have distinct futures. */
  lemma {:induction false} SuccessesDistinct(batch: seq<Request>, outs: seq<H.Outcome>)
    requires |outs| == |batch| && forall i, j :: 0 <= i < j < |batch| ==> batch[i].future != batch[j].future
    ensures DistinctFutures(Successes(batch, outs))
    decreases |batch|
  {
    if batch != [] {
      var n := |batch| - 1;
      SuccessesDistinct(batch[..n], outs[..n]);
      var front := Successes(batch[..n], outs[..n]);
      forall i | 0 <= i < |front|
        ensures front[i].future != batch[n].future
      {
        var h := SuccessFrom(batch[..n], outs[..n], i);
        assert batch[h] == batch[..n][h];
      }
      var done := Successes(batch, outs);
      hide Successes;
      if outs[n].Failed? {
        assert done == front + [] == front;
      } else {
        assert done == front + [Executed(batch[n].future, outs[n])];
        FutureSnoc(front, Executed(batch[n].future, outs[n]));
      }
    }
  }

  lemma FutureSnoc(front: seq<Executed>, last: Executed)
    requires DistinctFutures(front) && forall i :: 0 <= i < |front| ==> front[i].future != last.future
    ensures DistinctFutures(front + [last])
  {
  }

  lemma SuccessesWait(batch: seq<Request>, futures: map<nat, Future>, outs: seq<H.Outcome>, executed: seq<Executed>)
    requires RanTo(batch, futures, outs) && |outs| == |batch| && executed == Successes(batch, outs)
    ensures forall i :: 0 <= i < |executed| ==> executed[i].future in futures && Waiting(futures[executed[i].future])
    ensures forall i, j :: 0 <= i < j < |executed| ==> executed[i].future != executed[j].future
    ensures forall i :: 0 <= i < |executed| ==> !executed[i].out.Failed?
    ensures forall j :: 0 <= j < |batch| ==> batch[j].future in futures
  {
    SuccessesDistinct(batch, outs);
    forall i | 0 <= i < |executed|
      ensures executed[i].future in futures && Waiting(futures[executed[i].future])
    {
      var h := SuccessFrom(batch, outs, i);
      assert Executes(futures[batch[h].future], outs[h]);
    }
  }

  lemma StampNothing(r: Round)
    ensures Stamps(r, 0) == []
  {
  }

  lemma RanNothing(batch: seq<Request>, futures: map<nat, Future>)
    requires BatchOk(batch, futures)
    ensures RanTo(batch, futures, [])
  {
  }

  lemma RanNext(batch: seq<Request>, futures: map<nat, Future>, outs: seq<H.Outcome>)
    requires RanTo(batch, futures, outs) && |outs| < |batch|
    ensures batch[|outs|].future in futures && Waiting(futures[batch[|outs|].future])
    ensures forall j :: 0 <= j < |batch| ==> batch[j].future in futures
  {
  }

  lemma RanOn(batch: seq<Request>, before: map<nat, Future>, after: map<nat, Future>, outs: seq<H.Outcome>, out: H.Outcome)
    requires RanTo(batch, before, outs) && |outs| < |batch| && Advances(before, after)
    requires batch[|outs|].future in after && Executes(after[batch[|outs|].future], out)
    requires forall f :: f in before && f != batch[|outs|].future && Waiting(before[f]) ==> f in after && Waiting(after[f])
    ensures RanTo(batch, after, outs + [out])
  {
    var outs' := outs + [out];
    forall j | 0 <= j < |outs'|
      ensures batch[j].future in after && Executes(after[batch[j].future], outs'[j])
    {
      if j < |outs| {
        assert Executes(before[batch[j].future], outs[j]);
        assert batch[j].future != batch[|outs|].future;
      }
    }
  }

  lemma AdvancesNothing(a: map<nat, Future>)
    ensures Advances(a, a)
  {
  }

  lemma AdvancesTrans(a: map<nat, Future>, b: map<nat, Future>, c: map<nat, Future>)
    requires Advances(a, b) && Advances(b, c)
    ensures Advances(a, c)
  {
  }

  lemma SuccessSnoc(rs: seq<Request>, outs: seq<H.Outcome>, r: Request, out: H.Outcome)
    requires |rs| == |outs|
    ensures Successes(rs + [r], outs + [out]) ==
            Successes(rs, outs) + if out.Failed? then [] else [Executed(r.future, out)]
  {
    assert (rs + [r])[..|rs|] == rs && (outs + [out])[..|rs|] == outs;
  }

  // ------------------------------------------------------- turn after turn

  /** What one turn of the worker has executed. */
  datatype Turned = Turned(batch: seq<Request>, outs: seq<H.Outcome>)

  /** One outcome for each write, and a round for each turn. */
  ghost predicate Paired(rounds: seq<Round>, turns: seq<Turned>) {
    && |turns| <= |rounds| && (forall i :: 0 <= i < |rounds| ==> RoundOk(rounds[i]))
    && forall i :: 0 <= i < |turns| ==> |turns[i].outs| == |turns[i].batch|
  }

  ghost predicate TurnsOk(rounds: seq<Round>, turns: seq<Turned>, futures: map<nat, Future>) {
    && Paired(rounds, turns)
    && forall i :: 0 <= i < |turns| ==> Answered(turns[i].batch, turns[i].outs, rounds[i], futures)
  }

  function DoneOf(turns: seq<Turned>): seq<Request> {
    if turns == [] then [] else DoneOf(turns[..|turns| - 1]) + turns[|turns| - 1].batch
  }

  function OutsOf(turns: seq<Turned>): seq<H.Outcome> {
    if turns == [] then [] else OutsOf(turns[..|turns| - 1]) + turns[|turns| - 1].outs
  }

  /** The records of all turns. */
  ghost function RecordsOf(rounds: seq<Round>, turns: seq<Turned>): (records: seq<T.Task>)
    requires Paired(rounds, turns)
    ensures T.Filed(records)
  {
    hide T.DayOf;
    if turns == [] then []
    else
      var n := |turns| - 1;
      RecordsOf(rounds, turns[..n]) + Recorded(rounds[n], Successes(turns[n].batch, turns[n].outs))
  }

  lemma TurnsNothing(rounds: seq<Round>, futures: map<nat, Future>, logs: T.Partitions)
    requires forall i :: 0 <= i < |rounds| ==> RoundOk(rounds[i])
    ensures Paired(rounds, []) && TurnsOk(rounds, [], futures) && DoneOf([]) == [] && OutsOf([]) == [] && T.Logged(logs, RecordsOf(rounds, [])) == logs
  {
    assert RecordsOf(rounds, []) == [];
  }

  lemma TurnsSnoc(
      rounds: seq<Round>, turns: seq<Turned>, turn: Turned, before: map<nat, Future>, after: map<nat, Future>, logs: T.Partitions)
    requires TurnsOk(rounds, turns, before) && Advances(before, after) && |turns| < |rounds|
    requires Answered(turn.batch, turn.outs, rounds[|turns|], after)
    ensures Paired(rounds, turns + [turn]) && TurnsOk(rounds, turns + [turn], after)
    ensures DoneOf(turns + [turn]) == DoneOf(turns) + turn.batch && OutsOf(turns + [turn]) == OutsOf(turns) + turn.outs
    ensures T.Logged(logs, RecordsOf(rounds, turns + [turn])) ==
            T.Logged(T.Logged(logs, RecordsOf(rounds, turns)), Recorded(rounds[|turns|], Successes(turn.batch, turn.outs)))
  {
    var more := turns + [turn];
    assert more[..|turns|] == turns;
    hide RoundOk;
    hide Advances;
    forall i | 0 <= i < |more|
      ensures Answered(more[i].batch, more[i].outs, rounds[i], after)
    {
      if i < |turns| {
        AnsweredStays(turns[i].batch, turns[i].outs, rounds[i], before, after);
      }
    }
    hide Answered;
    hide Successes;
    hide Recorded;
    T.LoggedConcat(logs, RecordsOf(rounds, turns), Recorded(rounds[|turns|], Successes(turn.batch, turn.outs)));
  }

  // --------------------------------------------- records, writes and answers

  lemma {:induction false} DoneIsEven(turns: seq<Turned>)
    requires forall i :: 0 <= i < |turns| ==> |turns[i].outs| == |turns[i].batch|
    ensures |DoneOf(turns)| == |OutsOf(turns)|
    decreases |turns|
  {
    if turns != [] {
      DoneIsEven(turns[..|turns| - 1]);
    }
  }

  /** Where a write of the whole run was executed. */
  lemma {:induction false} DoneFrom(turns: seq<Turned>, j: nat) returns (i: nat, a: nat)
    requires forall i :: 0 <= i < |turns| ==> |turns[i].outs| == |turns[i].batch|
    requires j < |DoneOf(turns)|
    ensures i < |turns| && a < |turns[i].batch| && |OutsOf(turns)| == |DoneOf(turns)|
    ensures DoneOf(turns)[j] == turns[i].batch[a] && OutsOf(turns)[j] == turns[i].outs[a]
    decreases |turns|
  {
    var n := |turns| - 1;
    var front := DoneOf(turns[..n]);
    DoneIsEven(turns[..n]);
    if j < |front| {
      i, a := DoneFrom(turns[..n], j);
    } else {
      i, a := n, j - |front|;
    }
  }

  /** Where a write of one turn stands in the whole run. */
  lemma {:induction false} DoneAt(turns: seq<Turned>, i: nat, a: nat) returns (j: nat)
    requires forall i :: 0 <= i < |turns| ==> |turns[i].outs| == |turns[i].batch|
    requires i < |turns| && a < |turns[i].batch|
    ensures j < |DoneOf(turns)| == |OutsOf(turns)|
    ensures DoneOf(turns)[j] == turns[i].batch[a] && OutsOf(turns)[j] == turns[i].outs[a]
    decreases |turns|
  {
    var n := |turns| - 1;
    DoneIsEven(turns[..n]);
    if i == n {
      j := |DoneOf(turns[..n])| + a;
    } else {
      j := DoneAt(turns[..n], i, a);
    }
  }

  ghost predicate RecordAt(rounds: seq<Round>, turns: seq<Turned>, i: nat, h: nat, t: T.Task)
    requires Paired(rounds, turns)
  {
    i < |turns| &&
    var records := Recorded(rounds[i], Successes(turns[i].batch, turns[i].outs));
    h < |records| && records[h] == t
  }

  lemma {:induction false} RecordFrom(rounds: seq<Round>, turns: seq<Turned>, k: nat) returns (i: nat, h: nat)
    requires Paired(rounds, turns) && k < |RecordsOf(rounds, turns)|
    ensures RecordAt(rounds, turns, i, h, RecordsOf(rounds, turns)[k])
    decreases |turns|
  {
    hide RoundOk;
    hide Recorded;
    hide Successes;
    var n := |turns| - 1;
    var front := RecordsOf(rounds, turns[..n]);
    if k < |front| {
      i, h := RecordFrom(rounds, turns[..n], k);
    } else {
      i, h := n, k - |front|;
    }
  }

  lemma {:induction false} RecordIn(rounds: seq<Round>, turns: seq<Turned>, i: nat, h: nat, t: T.Task) returns (k: nat)
    requires Paired(rounds, turns) && RecordAt(rounds, turns, i, h, t)
    ensures k < |RecordsOf(rounds, turns)| && RecordsOf(rounds, turns)[k] == t
    decreases |turns|
  {
    hide RoundOk;
    hide Recorded;
    hide Successes;
    var n := |turns| - 1;
    if i == n {
      k := |RecordsOf(rounds, turns[..n])| + h;
    } else {
      k := RecordIn(rounds, turns[..n], i, h, t);
    }
  }

  /** No id is drawn twice, in whatever turns. */
  ghost predicate IdsApart(rounds: seq<Round>) {
    forall i, j, a: nat, b: nat :: 0 <= i < j < |rounds| ==> rounds[i].ids(a) != rounds[j].ids(b)
  }

  lemma {:induction false} RecordsDistinct(rounds: seq<Round>, turns: seq<Turned>)
    requires Paired(rounds, turns) && IdsApart(rounds)
    ensures T.DistinctRecords(RecordsOf(rounds, turns))
    decreases |turns|
  {
    if turns != [] {
      hide RoundOk;
      hide Successes;
      var n := |turns| - 1;
      RecordsDistinct(rounds, turns[..n]);
      var front, last := RecordsOf(rounds, turns[..n]), Recorded(rounds[n], Successes(turns[n].batch, turns[n].outs));
      forall a, b | 0 <= a < |front| && 0 <= b < |last|
        ensures front[a].id != last[b].id
      {
        var i, h := RecordFrom(rounds, turns[..n], a);
        assert front[a].id == rounds[i].ids(h) && last[b].id == rounds[n].ids(b);
      }
    }
  }

  /** The record of a write that went through. */
  ghost predicate WentThrough(done: seq<Request>, outs: seq<H.Outcome>, t: T.Task) {
    exists j :: 0 <= j < |done| == |outs| && !outs[j].Failed? && t == BornDone(t.id, outs[j], Default(t.submittedAt))
  }

  /** A status is as it was, or the record of such a write. */
  ghost predicate SameOrWritten(before: Result<T.Task>, after: Result<T.Task>, done: seq<Request>, outs: seq<H.Outcome>) {
    after == before || (after.Ok? && WentThrough(done, outs, after.value))
  }

  /**
   * A done task means that the whole write completed: whatever status the worker's run
   * has changed is now the record of a write that went through.
   */
  lemma DoneMeansWritten(rounds: seq<Round>, turns: seq<Turned>, futures: map<nat, Future>, logs: T.Partitions, id: string)
    requires TurnsOk(rounds, turns, futures)
    ensures var after := T.Logged(logs, RecordsOf(rounds, turns));
            SameOrWritten(T.StatusOf(logs, id), T.StatusOf(after, id), DoneOf(turns), OutsOf(turns))
  {
    hide T.StatusOf;
    hide RoundOk;
    hide AnswerTo;
    hide RecordsOf;
    hide T.Logged;
    hide Successes;
    var records := RecordsOf(rounds, turns);
    T.LoggedStatus(logs, records, id);
    if T.LastRecord(records, id).Some? {
      var k := T.LastRecordIn(records, id);
      var i, h := RecordFrom(rounds, turns, k);
      var a := SuccessFrom(turns[i].batch, turns[i].outs, h);
      var j := DoneAt(turns, i, a);
      assert records[k] == BornDone(records[k].id, OutsOf(turns)[j], Default(records[k].submittedAt));
    }
  }

  /**
   * Every answer still tells the truth when the worker stops: a result means that the
   * write went through, and its record is in the task log then.
   */
  lemma AnswersTellAtTheEnd(rounds: seq<Round>, turns: seq<Turned>, futures: map<nat, Future>, logs: T.Partitions, j: nat)
    requires TurnsOk(rounds, turns, futures) && IdsApart(rounds) && j < |DoneOf(turns)|
    ensures |OutsOf(turns)| == |DoneOf(turns)| && DoneOf(turns)[j].future in futures
    ensures Tells(futures[DoneOf(turns)[j].future], OutsOf(turns)[j], T.Logged(logs, RecordsOf(rounds, turns)))
  {
    hide T.StatusOf;
    hide RoundOk;
    hide RecordsOf;
    hide IdsApart;
    hide T.Logged;
    hide Successes;
    var i, a := DoneFrom(turns, j);
    var f, out := futures[turns[i].batch[a].future], turns[i].outs[a];
    assert f.Cancelled? || f == AnswerTo(turns[i].batch, turns[i].outs, rounds[i], a);
    if f.Resolved? {
      var h := SuccessIn(turns[i].batch, turns[i].outs, a);
      assert RecordAt(rounds, turns, i, h, f.task);
      var k := RecordIn(rounds, turns, i, h, f.task);
      RecordsDistinct(rounds, turns);
      T.LastOfDistinct(RecordsOf(rounds, turns), k);
      T.LoggedStatus(logs, RecordsOf(rounds, turns), f.task.id);
    }
  }

  /** What a settled future tells of its write, the log aside. */
  predicate Answers(f: Future, out: H.Outcome) {
    match f
    case Pending => false
    case Cancelled => true
    case Rejected(reason) => if out.Failed? then reason == out.reason else reason == "append failed"
    case Resolved(task) => !out.Failed? && task == BornDone(task.id, out, Default(task.finishedAt))
  }

  lemma DoneAnswered(rounds: seq<Round>, turns: seq<Turned>, futures: map<nat, Future>, j: nat)
    requires TurnsOk(rounds, turns, futures) && j < |DoneOf(turns)|
    ensures |OutsOf(turns)| == |DoneOf(turns)| && DoneOf(turns)[j].future in futures
    ensures Answers(futures[DoneOf(turns)[j].future], OutsOf(turns)[j])
  {
    hide RoundOk;
    hide Successes;
    var i, a := DoneFrom(turns, j);
    var f := futures[turns[i].batch[a].future];
    assert f.Cancelled? || f == AnswerTo(turns[i].batch, turns[i].outs, rounds[i], a);
  }

  /** Every write has an answer that fits its outcome. */
  ghost predicate AllAnswered(done: seq<Request>, outs: seq<H.Outcome>, futures: map<nat, Future>) {
    |outs| == |done| &&
    forall j :: 0 <= j < |done| ==> done[j].future in futures && Answers(futures[done[j].future], outs[j])
  }

  /** Every answer tells the truth by this log. */
  ghost predicate AllTell(done: seq<Request>, outs: seq<H.Outcome>, futures: map<nat, Future>, logs: T.Partitions) {
    |outs| == |done| &&
    forall j :: 0 <= j < |done| ==> done[j].future in futures && Tells(futures[done[j].future], outs[j], logs)
  }

  /** All of it together, for the writes of a whole run. */
  lemma WorkIsTold(rounds: seq<Round>, turns: seq<Turned>, futures: map<nat, Future>, logs: T.Partitions)
    requires TurnsOk(rounds, turns, futures)
    ensures var done, outs, after := DoneOf(turns), OutsOf(turns), T.Logged(logs, RecordsOf(rounds, turns));
            && AllAnswered(done, outs, futures) && (IdsApart(rounds) ==> AllTell(done, outs, futures, after))
            && (forall j :: 0 <= j < |done| ==> done[j].future in futures && !futures[done[j].future].Pending?)
            && forall id :: SameOrWritten(T.StatusOf(logs, id), T.StatusOf(after, id), done, outs)
  {
    var done, outs, after := DoneOf(turns), OutsOf(turns), T.Logged(logs, RecordsOf(rounds, turns));
    DoneIsEven(turns);
    hide RoundOk;
    hide RecordsOf;
    hide T.Logged;
    hide T.StatusOf;
    hide WentThrough;
    hide Tells;
    hide DoneOf;
    hide OutsOf;
    forall j | 0 <= j < |done|
      ensures done[j].future in futures && !futures[done[j].future].Pending? && Answers(futures[done[j].future], outs[j])
      ensures IdsApart(rounds) ==> Tells(futures[done[j].future], outs[j], after)
    {
      DoneAnswered(rounds, turns, futures, j);
      if IdsApart(rounds) {
        AnswersTellAtTheEnd(rounds, turns, futures, logs, j);
      }
    }
    forall id
      ensures SameOrWritten(T.StatusOf(logs, id), T.StatusOf(after, id), done, outs)
    {
      DoneMeansWritten(rounds, turns, futures, logs, id);
    }
  }
}
