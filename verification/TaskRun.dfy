/**
 * Background tasks over whole runs: `submit`, `adopt`, `_drive` and `_persist_result`
 * as a machine that may stop at any line it writes.
 */
module TaskRun {
  import opened Prelude
  import opened TaskLog

  type Row = Wire

  /** How far the driver of one task is. */
  datatype Drive =
    | Submitted                                    // `pending` is logged
    | Running                                      // `running` is logged
    | Writing(rows: seq<Row>, written: nat)        // the temporary file has the first `written` rows
    | Persisted(rows: seq<Row>)                    // the temporary file has replaced the result file

  /** The log in the order it is written, the two kinds of result files, the drivers
      alive in this process, and, for the record, what each query returned. */
  datatype Machine = Machine(
    log: seq<Task>, results: map<string, seq<Row>>, partial: map<string, seq<Row>>,
    live: map<string, Drive>, returned: map<string, seq<Row>>)

  const START := Machine([], map[], map[], map[], map[])

  datatype Move =
    | Submit(task: Task)                           // `submit`
    | Adopt(task: Task)                            // `adopt`: born running
    | Start(id: string)
    | Return(id: string, rows: seq<Row>)           // the coroutine of a query returns
    | WriteRow(id: string)
    | Replace(id: string)                          // the atomic rename
    | Finish(id: string, at: string)               // `done` with the number of rows
    | FinishStats(id: string, stats: map<string, int>, at: string)
    | Settle(id: string, state: string, error: Option<string>, at: string)   // cancelled, timed out or failed
    | Crash

  /** The last line of an id. */
  function Last(log: seq<Task>, id: string): Option<Task> {
    if log == [] then None
    else if log[|log| - 1].id == id then Some(log[|log| - 1])
    else Last(log[..|log| - 1], id)
  }

  function Drop<T>(m: map<string, T>, id: string): map<string, T> {
    map k | k in m && k != id :: m[k]
  }

  function Apply(m: Machine, move: Move): Option<Machine> {
    match move
    case Submit(task) =>
      if Last(m.log, task.id).Some? || task.state != "pending" then None
      else Some(m.(log := m.log + [task], live := m.live[task.id := Submitted]))
    case Adopt(task) =>
      if Last(m.log, task.id).Some? || task.state != "running" then None
      else Some(m.(log := m.log + [task], live := m.live[task.id := Running]))
    case Start(id) =>
      if id !in m.live || !m.live[id].Submitted? || Last(m.log, id).None? then None
      else Some(m.(log := m.log + [Last(m.log, id).value.(state := "running")], live := m.live[id := Running]))
    case Return(id, rows) =>
      if id !in m.live || !m.live[id].Running? || Last(m.log, id).None? || Last(m.log, id).value.op != "query" then None
      else Some(m.(partial := m.partial[id := []], live := m.live[id := Writing(rows, 0)], returned := m.returned[id := rows]))
    case WriteRow(id) =>
      if id !in m.live || !m.live[id].Writing? || m.live[id].written >= |m.live[id].rows| || id !in m.partial then None
      else
        var Writing(rows, n) := m.live[id];
        Some(m.(partial := m.partial[id := m.partial[id] + [rows[n]]], live := m.live[id := Writing(rows, n + 1)]))
    case Replace(id) =>
      if id !in m.live || !m.live[id].Writing? || m.live[id].written < |m.live[id].rows| || id !in m.partial then None
      else Some(m.(results := m.results[id := m.partial[id]], partial := Drop(m.partial, id), live := m.live[id := Persisted(m.live[id].rows)]))
    case Finish(id, at) =>
      if id !in m.live || !m.live[id].Persisted? || Last(m.log, id).None? then None
      else
        var task := Last(m.log, id).value.(state := "done", rows := Some(|m.live[id].rows|), finishedAt := Some(at));
        Some(m.(log := m.log + [task], live := Drop(m.live, id)))
    case FinishStats(id, stats, at) =>
      if id !in m.live || !m.live[id].Running? || Last(m.log, id).None? || Last(m.log, id).value.op == "query" then None
      else
        var task := Last(m.log, id).value.(state := "done", stats := Some(stats), finishedAt := Some(at));
        Some(m.(log := m.log + [task], live := Drop(m.live, id)))
    case Settle(id, state, error, at) =>
      if id !in m.live || Last(m.log, id).None? || (state != "cancelled" && state != "failed") then None
      else
        var task := Last(m.log, id).value.(state := state, error := error, finishedAt := Some(at));
        Some(m.(log := m.log + [task], live := Drop(m.live, id)))
    case Crash => Some(m.(live := map[]))
  }

  function Run(m: Machine, moves: seq<Move>): Option<Machine>
    decreases |moves|
  {
    if moves == [] then Some(m)
    else match Apply(m, moves[0])
      case None => None
      case Some(next) => Run(next, moves[1..])
  }

  /** `result`. */
  function ResultOf(m: Machine, id: string): Result<seq<Row>> {
    match Last(m.log, id)
    case None => Err("unknown task")
    case Some(task) =>
      if task.state == "pending" || task.state == "running" then Err("still " + task.state)
      else if task.state == "cancelled" then Err("was cancelled")
      else if task.state == "failed" then Err("failed")
      else if task.op != "query" then Err("no result rows")
      else if id !in m.results then Err("expired")
      else Ok(m.results[id])
  }

  // ------------------------------------------------------------ the invariant

  /** A finished query has its complete result. */
  predicate Complete(m: Machine, id: string) {
    && id in m.returned && id in m.results && m.results[id] == m.returned[id]
    && Last(m.log, id).Some? && Last(m.log, id).value.rows == Some(|m.returned[id]|)
  }

  predicate DriveOk(m: Machine, id: string, drive: Drive) {
    && Last(m.log, id).Some? && Last(m.log, id).value.state != "done"
    && (drive.Writing? ==>
          drive.written <= |drive.rows| && id in m.partial && m.partial[id] == drive.rows[..drive.written] &&
          id in m.returned && m.returned[id] == drive.rows && Last(m.log, id).value.op == "query")
    && (drive.Persisted? ==>
          id in m.results && m.results[id] == drive.rows && id in m.returned && m.returned[id] == drive.rows)
  }

  ghost predicate IdOk(m: Machine, id: string) {
    && (id in m.live ==> DriveOk(m, id, m.live[id]))
    && (Last(m.log, id).Some? && Last(m.log, id).value.state == "done" && Last(m.log, id).value.op == "query" ==> Complete(m, id))
  }

  ghost predicate Inv(m: Machine) {
    forall id :: IdOk(m, id)
  }

  lemma LastSnoc(log: seq<Task>, task: Task, id: string)
    ensures Last(log + [task], id) == if task.id == id then Some(task) else Last(log, id)
    ensures Last(log, id).Some? ==> Last(log, id).value.id == id
  {
    assert (log + [task])[..|log|] == log;
    LastHasId(log, id);
  }

  lemma {:induction false} LastHasId(log: seq<Task>, id: string)
    ensures Last(log, id).Some? ==> Last(log, id).value.id == id
    decreases |log|
  {
    if log != [] {
      LastHasId(log[..|log| - 1], id);
    }
  }

  /** A move touches one id only. */
  function Subject(move: Move): Option<string> {
    match move
    case Submit(task) => Some(task.id)
    case Adopt(task) => Some(task.id)
    case Crash => None
    case _ => Some(move.id)
  }

  lemma OthersKeep(m: Machine, move: Move, id: string)
    requires Apply(m, move).Some? && IdOk(m, id) && Subject(move) != Some(id)
    ensures IdOk(Apply(m, move).value, id)
  {
    if Subject(move).Some? {
      var subject := Subject(move).value;
      LastHasId(m.log, subject);
      var after := Apply(m, move).value;
      if |after.log| > |m.log| {
        LastSnoc(m.log, after.log[|m.log|], id);
      }
    }
  }

  lemma SubjectKeeps(m: Machine, move: Move, id: string)
    requires Apply(m, move).Some? && IdOk(m, id) && Subject(move) == Some(id)
    ensures IdOk(Apply(m, move).value, id)
  {
    var after := Apply(m, move).value;
    LastHasId(m.log, id);
    if |after.log| > |m.log| {
      LastSnoc(m.log, after.log[|m.log|], id);
    }
  }

  lemma {:induction false} RunKeepsInv(m: Machine, moves: seq<Move>)
    requires Inv(m) && Run(m, moves).Some?
    ensures Inv(Run(m, moves).value)
    decreases |moves|
  {
    if moves != [] {
      var next := Apply(m, moves[0]).value;
      forall id
        ensures IdOk(next, id)
      {
        assert IdOk(m, id);
        hide IdOk;
        hide Apply;
        if Subject(moves[0]) == Some(id) {
          SubjectKeeps(m, moves[0], id);
        } else {
          OthersKeep(m, moves[0], id);
        }
      }
      hide Apply;
      hide IdOk;
      RunKeepsInv(next, moves[1..]);
    }
  }

  /**
   * In every reachable state, a query whose last line is `done` has a result file of
   * exactly `rows` lines, which are the rows that it returned. A half-written result
   * is never seen, wherever a process stopped.
   */
  lemma DoneMeansComplete(moves: seq<Move>, m: Machine, id: string)
    requires Run(START, moves) == Some(m)
    requires Last(m.log, id).Some? && Last(m.log, id).value.state == "done" && Last(m.log, id).value.op == "query"
    ensures id in m.returned && ResultOf(m, id) == Ok(m.returned[id])
    ensures Last(m.log, id).value.rows == Some(|m.returned[id]|)
  {
    assert Inv(START);
    RunKeepsInv(START, moves);
    assert IdOk(m, id);
    hide Run;
  }

  // ----------------------------------------------------- a settled task stays settled

  ghost predicate Settled(m: Machine, id: string, task: Task) {
    Last(m.log, id) == Some(task) && id !in m.live
  }

  lemma MoveKeepsSettled(m: Machine, move: Move, id: string, task: Task)
    requires Apply(m, move).Some? && Settled(m, id, task)
    ensures Settled(Apply(m, move).value, id, task)
    ensures id in m.results ==> id in Apply(m, move).value.results && Apply(m, move).value.results[id] == m.results[id]
  {
    var after := Apply(m, move).value;
    if Subject(move).Some? {
      LastHasId(m.log, Subject(move).value);
      if |after.log| > |m.log| {
        LastSnoc(m.log, after.log[|m.log|], id);
      }
    }
    hide Last;
  }

  /** Whatever happens later, a task whose driver has ended keeps its last line and its
      result: in particular a crash leaves a `running` task running for ever. */
  lemma {:induction false} SettledIsForever(m: Machine, moves: seq<Move>, id: string, task: Task)
    requires Run(m, moves).Some? && Settled(m, id, task)
    ensures Settled(Run(m, moves).value, id, task)
    ensures id in m.results ==>
      id in Run(m, moves).value.results && Run(m, moves).value.results[id] == m.results[id]
    decreases |moves|
  {
    if moves != [] {
      MoveKeepsSettled(m, moves[0], id, task);
      hide Apply;
      hide Settled;
      SettledIsForever(Apply(m, moves[0]).value, moves[1..], id, task);
    }
  }

  /** A task that is done stays done, with the same record and result. */
  lemma DoneIsForever(moves: seq<Move>, m: Machine, more: seq<Move>, later: Machine, id: string)
    requires Run(START, moves) == Some(m) && Run(m, more) == Some(later)
    requires Last(m.log, id).Some? && Last(m.log, id).value.state == "done"
    ensures Last(later.log, id) == Last(m.log, id)
    ensures Last(m.log, id).value.op == "query" ==> ResultOf(later, id) == ResultOf(m, id)
  {
    assert Inv(START);
    RunKeepsInv(START, moves);
    assert IdOk(m, id);
    hide Run;
    SettledIsForever(m, more, id, Last(m.log, id).value);
  }
}
