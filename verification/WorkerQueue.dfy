/**
 * The write queue between the callers and the worker: what a worker loop takes off it,
 * what it leaves, and when it stops.
 */
module WorkerQueue {
  import H = History

  /** A queued write with its future. */
  datatype Request = Request(future: nat, table: string, op: H.Op)

  /** What the queue holds: writes, and the sentinel that `close` puts. */
  datatype Item = Job(request: Request) | Sentinel

  predicate Closes(items: seq<Item>) {
    exists i :: 0 <= i < |items| && items[i].Sentinel?
  }

  /** Callers have put items behind the others, and `stop` is set exactly by closing. */
  ghost predicate Grew(queue: seq<Item>, stop: bool, queue': seq<Item>, stop': bool) {
    queue <= queue' && stop' == (stop || Closes(queue'[|queue|..]))
  }

  lemma {:induction false} GrewNot(queue: seq<Item>, stop: bool)
    ensures Grew(queue, stop, queue, stop)
  {
  }

  lemma {:induction false} GrewTrans(q0: seq<Item>, s0: bool, q1: seq<Item>, s1: bool, q2: seq<Item>, s2: bool)
    requires Grew(q0, s0, q1, s1) && Grew(q1, s1, q2, s2)
    ensures Grew(q0, s0, q2, s2)
  {
    assert q2[|q0|..] == q1[|q0|..] + q2[|q1|..];
    ClosesConcat(q1[|q0|..], q2[|q1|..]);
  }

  lemma {:induction false} ClosesConcat(a: seq<Item>, b: seq<Item>)
    ensures Closes(a + b) <==> Closes(a) || Closes(b)
  {
    var s := a + b;
    if Closes(a) {
      var i :| 0 <= i < |a| && a[i].Sentinel?;
      assert s[i].Sentinel?;
    }
    if Closes(b) {
      var i :| 0 <= i < |b| && b[i].Sentinel?;
      assert s[|a| + i].Sentinel?;
    }
  }

  lemma {:induction false} GrewOne(queue: seq<Item>, stop: bool, item: Item)
    ensures Grew(queue, stop, queue + [item], stop || item.Sentinel?)
  {
    assert (queue + [item])[|queue|..] == [item];
    if item.Sentinel? {
      assert [item][0].Sentinel?;
    }
  }

  // ------------------------------------------------------------- one batch

  /** The jobs at the head of a queue, before the first sentinel. */
  function Jobs(queue: seq<Item>): seq<Request> {
    if queue == [] || queue[0].Sentinel? then [] else [queue[0].request] + Jobs(queue[1..])
  }

  /** What stands behind the first sentinel. */
  function Rest(queue: seq<Item>): seq<Item> {
    if queue == [] then [] else if queue[0].Sentinel? then queue[1..] else Rest(queue[1..])
  }

  lemma {:induction false} JobsAre(queue: seq<Item>)
    ensures |Jobs(queue)| <= |queue|
    ensures forall i :: 0 <= i < |Jobs(queue)| ==> queue[i] == Job(Jobs(queue)[i])
    ensures |Jobs(queue)| < |queue| ==> queue[|Jobs(queue)|].Sentinel? && Rest(queue) == queue[|Jobs(queue)| + 1..]
    ensures |Jobs(queue)| == |queue| ==> Rest(queue) == []
  {
    if queue != [] && queue[0].Job? {
      JobsAre(queue[1..]);
    }
  }

  lemma {:induction false} JobsUpTo(queue: seq<Item>, n: nat)
    requires n <= |queue| && (forall i :: 0 <= i < n ==> queue[i].Job?) && (n < |queue| ==> queue[n].Sentinel?)
    ensures |Jobs(queue)| == n && forall i :: 0 <= i < n ==> queue[i] == Job(Jobs(queue)[i])
  {
    if n > 0 {
      JobsUpTo(queue[1..], n - 1);
    }
  }

  /** A queue without a sentinel is one batch. */
  lemma {:induction false} AllJobs(queue: seq<Item>)
    ensures |Jobs(queue)| == |queue| <==> !Closes(queue)
  {
    JobsAre(queue);
    if |Jobs(queue)| < |queue| {
      assert queue[|Jobs(queue)|].Sentinel?;
    }
  }

  // ------------------------------------------------------------ a whole loop

  /** What callers put during one turn: while the worker waits for an empty queue, and
      while it processes its batch. */
  datatype Pass = Pass(waited: seq<Item>, arrived: seq<Item>)

  /** How far a loop has come: what it has taken, the queue, the stop flag, and whether
      it is over. */
  datatype Service = Service(done: seq<Request>, queue: seq<Item>, stop: bool, ended: bool)

  predicate PassOk(queue: seq<Item>, p: Pass) {
    && (queue != [] ==> p.waited == [])
    && (Jobs(queue + p.waited) == [] ==> p.arrived == [])
  }

  /** One turn of a loop that is not over: get an item, drain up to the first sentinel. */
  function Take(queue: seq<Item>, stop: bool, p: Pass): Service {
    var q, s := queue + p.waited, stop || Closes(p.waited);
    if q == [] then Service([], q, s, s)
    else if q[0].Sentinel? then Service([], q[1..], s, true)
    else
      var s' := s || |Jobs(q)| < |q| || Closes(p.arrived);
      Service(Jobs(q), Rest(q) + p.arrived, s', s')
  }

  /** A turn, seen from the queue `q` that it finds after waiting. */
  lemma {:induction false} TakeIs(queue: seq<Item>, stop: bool, waited: seq<Item>, q: seq<Item>, s: bool, arrived: seq<Item>)
    requires queue != [] ==> waited == []
    requires q == queue + waited && s == (stop || Closes(waited))
    ensures q == [] ==> Take(queue, stop, Pass(waited, [])) == Service([], q, s, s) && PassOk(queue, Pass(waited, []))
    ensures q != [] && q[0].Sentinel? ==>
      Take(queue, stop, Pass(waited, [])) == Service([], q[1..], s, true) && PassOk(queue, Pass(waited, []))
    ensures q != [] && q[0].Job? ==>
      var s' := s || |Jobs(q)| < |q| || Closes(arrived);
      Take(queue, stop, Pass(waited, arrived)) == Service(Jobs(q), Rest(q) + arrived, s', s') &&
      PassOk(queue, Pass(waited, arrived))
  {
  }

  lemma {:induction false} GrewFrom(queue: seq<Item>, stop: bool, q: seq<Item>, s: bool)
    requires Grew(queue, stop, q, s) && queue == []
    ensures q == queue + q && s == (stop || Closes(q))
  {
    assert q[|queue|..] == q;
  }

  /** The loop runs while `stop` is not set. */
  function Served(queue: seq<Item>, stop: bool, passes: seq<Pass>): Service {
    if passes == [] then Service([], queue, stop, stop)
    else
      var before := Served(queue, stop, passes[..|passes| - 1]);
      if before.ended then before
      else
        var turn := Take(before.queue, before.stop, passes[|passes| - 1]);
        turn.(done := before.done + turn.done)
  }

  predicate PassesOk(queue: seq<Item>, stop: bool, passes: seq<Pass>) {
    passes != [] ==>
      && PassesOk(queue, stop, passes[..|passes| - 1])
      && var before := Served(queue, stop, passes[..|passes| - 1]);
         !before.ended && PassOk(before.queue, passes[|passes| - 1])
  }

  lemma {:induction false} ServedNothing(queue: seq<Item>, stop: bool)
    ensures PassesOk(queue, stop, []) && Served(queue, stop, []) == Service([], queue, stop, stop)
  {
  }

  lemma {:induction false} ServedSnoc(queue: seq<Item>, stop: bool, passes: seq<Pass>, p: Pass)
    requires !Served(queue, stop, passes).ended
    ensures var before := Served(queue, stop, passes);
            var turn := Take(before.queue, before.stop, p);
            Served(queue, stop, passes + [p]) == turn.(done := before.done + turn.done)
  {
    assert (passes + [p])[..|passes|] == passes;
  }

  lemma {:induction false} PassesSnoc(queue: seq<Item>, stop: bool, passes: seq<Pass>, p: Pass)
    requires PassesOk(queue, stop, passes) && !Served(queue, stop, passes).ended
    requires PassOk(Served(queue, stop, passes).queue, p)
    ensures PassesOk(queue, stop, passes + [p])
  {
    assert (passes + [p])[..|passes|] == passes;
  }

  lemma {:induction false} TakeKeepsStop(queue: seq<Item>, stop: bool, p: Pass)
    requires Closes(queue) ==> stop
    ensures var turn := Take(queue, stop, p); (turn.ended ==> turn.stop) && (Closes(turn.queue) ==> turn.stop)
  {
    var q := queue + p.waited;
    ClosesConcat(queue, p.waited);
    if q != [] {
      if q[0].Sentinel? {
        assert Closes(q);
      } else {
        JobsAre(q);
        ClosesConcat(Rest(q), p.arrived);
      }
    }
  }

  /** `close` sets `stop` before it puts its sentinel; so a loop ends only once it is
      stopped. */
  lemma {:induction false} EndedIsStopped(queue: seq<Item>, stop: bool, passes: seq<Pass>)
    requires Closes(queue) ==> stop
    ensures var end := Served(queue, stop, passes); (end.ended ==> end.stop) && (Closes(end.queue) ==> end.stop)
  {
    if passes != [] {
      EndedIsStopped(queue, stop, passes[..|passes| - 1]);
      var before := Served(queue, stop, passes[..|passes| - 1]);
      TakeKeepsStop(before.queue, before.stop, passes[|passes| - 1]);
      hide Take;
    }
  }

  /** A loop that is over takes nothing any more, whatever callers do. */
  lemma {:induction false} EndedIsForever(queue: seq<Item>, stop: bool, passes: seq<Pass>, more: seq<Pass>)
    requires Served(queue, stop, passes).ended
    ensures Served(queue, stop, passes + more) == Served(queue, stop, passes)
    decreases |more|
  {
    if more == [] {
      assert passes + more == passes;
    } else {
      var n := |more| - 1;
      assert (passes + more)[..|passes + more| - 1] == passes + more[..n];
      EndedIsForever(queue, stop, passes, more[..n]);
    }
  }

  /** What has been taken stays taken. */
  lemma {:induction false} TakenStays(queue: seq<Item>, stop: bool, passes: seq<Pass>, more: seq<Pass>)
    ensures Served(queue, stop, passes).done <= Served(queue, stop, passes + more).done
    decreases |more|
  {
    if more == [] {
      assert passes + more == passes;
    } else {
      var n := |more| - 1;
      assert (passes + more)[..|passes + more| - 1] == passes + more[..n];
      TakenStays(queue, stop, passes, more[..n]);
    }
  }

  /** The first turn on a queue that has something. */
  lemma {:induction false} FirstTurn(queue: seq<Item>, stop: bool, p: Pass)
    requires !stop && queue != [] && PassOk(queue, p)
    ensures var first := Served(queue, stop, [p]);
            && first.done == Jobs(queue) && first.queue == Rest(queue) + p.arrived
            && first.ended == (Closes(queue) || Closes(p.arrived))
  {
    assert [p][..0] == [] && queue + p.waited == queue;
    JobsAre(queue);
    AllJobs(queue);
    if queue[0].Sentinel? {
      assert Rest(queue) + p.arrived == queue[1..];
    }
  }

  /** No write is queued twice. */
  ghost predicate Unrepeated(queue: seq<Item>) {
    forall i, j :: 0 <= i < j < |queue| && queue[i].Job? && queue[j].Job? ==> queue[i].request.future != queue[j].request.future
  }

  /**
   * A write that is queued when the loop starts is taken if and only if no sentinel
   * stands before it; otherwise it stays in the queue for ever.
   */
  lemma {:induction false} QueuedServedIff(queue: seq<Item>, stop: bool, passes: seq<Pass>, i: nat)
    requires !stop && passes != [] && PassesOk(queue, stop, passes) && Unrepeated(queue)
    requires i < |queue| && queue[i].Job?
    ensures var end := Served(queue, stop, passes);
            && (!Closes(queue[..i]) ==> queue[i].request in end.done)
            && (Closes(queue[..i]) ==> queue[i].request !in end.done && queue[i] in end.queue && end.ended)
  {
    FirstPassOk(queue, stop, passes);
    FirstTurn(queue, stop, passes[0]);
    assert passes == [passes[0]] + passes[1..];
    if Closes(queue[..i]) {
      BehindSentinel(queue, i);
      EndedIsForever(queue, stop, [passes[0]], passes[1..]);
    } else {
      NoSentinelBefore(queue, i);
      JobsAre(queue);
      assert Jobs(queue)[i] == queue[i].request;
      TakenStays(queue, stop, [passes[0]], passes[1..]);
      assert Served(queue, stop, passes).done[i] == queue[i].request;
    }
  }

  lemma {:induction false} BehindSentinel(queue: seq<Item>, i: nat)
    requires i < |queue| && queue[i].Job? && Closes(queue[..i]) && Unrepeated(queue)
    ensures Closes(queue) && queue[i] in Rest(queue) && queue[i].request !in Jobs(queue)
  {
    var j :| 0 <= j < i && queue[..i][j].Sentinel?;
    assert queue[j].Sentinel?;
    JobsAre(queue);
    var n := |Jobs(queue)|;
    assert n <= j;
    assert Rest(queue)[i - n - 1] == queue[i];
  }

  lemma {:induction false} NoSentinelBefore(queue: seq<Item>, i: nat)
    requires i < |queue| && queue[i].Job? && !Closes(queue[..i])
    ensures i < |Jobs(queue)|
  {
    JobsAre(queue);
    forall j | 0 <= j < i
      ensures queue[j].Job?
    {
      assert !queue[..i][j].Sentinel?;
    }
  }

  lemma {:induction false} FirstPassOk(queue: seq<Item>, stop: bool, passes: seq<Pass>)
    requires passes != [] && PassesOk(queue, stop, passes)
    ensures PassOk(queue, passes[0]) && PassesOk(queue, stop, [passes[0]])
    decreases |passes|
  {
    if |passes| == 1 {
      assert passes[..0] == [] && passes == [passes[0]];
    } else {
      FirstPassOk(queue, stop, passes[..|passes| - 1]);
    }
  }

  /**
   * A write that arrives during a batch is taken, given another turn, if and only if
   * `stop` is not set when that batch ends; otherwise it stays in the queue for ever.
   */
  lemma {:induction false} ArrivedServedIff(queue: seq<Item>, stop: bool, passes: seq<Pass>, p: Pass, more: seq<Pass>, a: nat)
    requires more != [] && PassesOk(queue, stop, passes + [p])
    requires a < |p.arrived| && p.arrived[a].Job? && p.arrived[a].request !in Served(queue, stop, passes + [p]).done
    requires var after := Served(queue, stop, passes + [p]); !after.stop ==> PassOk(after.queue, more[0])
    ensures var after, end := Served(queue, stop, passes + [p]), Served(queue, stop, passes + [p] + more);
            && (p.arrived[a].request in end.done <==> !after.stop)
            && (after.stop ==> p.arrived[a] in end.queue && end == after)
  {
    var before, after := Served(queue, stop, passes), Served(queue, stop, passes + [p]);
    assert (passes + [p])[..|passes|] == passes && (passes + [p])[|passes|] == p;
    ServedSnoc(queue, stop, passes, p);
    var q := before.queue + p.waited;
    JobsAre(q);
    assert after.queue == Rest(q) + p.arrived && after.ended == after.stop;
    var at := |Rest(q)| + a;
    assert after.queue[at] == p.arrived[a];
    if after.stop {
      EndedIsForever(queue, stop, passes + [p], more);
    } else {
      assert after.queue == p.arrived;
      NextTurnTakes(queue, stop, passes + [p], more, a);
    }
  }

  /** A loop that goes on takes all of a queue without a sentinel. */
  lemma {:induction false} NextTurnTakes(queue: seq<Item>, stop: bool, passes: seq<Pass>, more: seq<Pass>, a: nat)
    requires var after := Served(queue, stop, passes);
             && !after.ended && more != [] && PassOk(after.queue, more[0])
             && a < |after.queue| && !Closes(after.queue) && after.queue[a].Job?
    ensures Served(queue, stop, passes).queue[a].request in Served(queue, stop, passes + more).done
  {
    var after := Served(queue, stop, passes);
    var q := after.queue;
    ServedSnoc(queue, stop, passes, more[0]);
    assert q + more[0].waited == q;
    assert q[0].Job? by {
      assert !q[0].Sentinel?;
    }
    JobsAre(q);
    AllJobs(q);
    var next := Served(queue, stop, passes + [more[0]]);
    assert next.done == after.done + Jobs(q);
    assert next.done[|after.done| + a] == q[a].request;
    assert passes + [more[0]] + more[1..] == passes + more;
    TakenStays(queue, stop, passes + [more[0]], more[1..]);
  }

  /** A write submitted during a batch, and `close` behind it before the batch ends:
      it is never taken, for however long the loop might go on. */
  lemma {:induction false} CloseDuringBatch(first: Request, late: Request, more: seq<Pass>)
    ensures Served([Job(first)], false, [Pass([], [Job(late), Sentinel])] + more) ==
            Service([first], [Job(late), Sentinel], true, true)
  {
    var queue, p := [Job(first)], Pass([], [Job(late), Sentinel]);
    assert queue[1..] == [] && Jobs(queue) == [first] && Rest(queue) == [];
    assert p.arrived[1].Sentinel?;
    FirstTurn(queue, false, p);
    assert [] + p.arrived == p.arrived;
    assert Served(queue, false, [p]) == Service([first], [Job(late), Sentinel], true, true) by {
      assert [p][..0] == [] && queue + p.waited == queue;
    }
    EndedIsForever(queue, false, [p], more);
  }
}
