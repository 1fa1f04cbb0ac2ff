/**
 * ReadPool: reads on a fixed number of threads, each borrowing a cursor from a queue
 * while it runs.
 */
module ReadPool {
  import opened Prelude

  type Cursor = nat

  /** What a pool thread is doing; a read is known by a number. */
  datatype Thread = Free | Asking(read: nat) | Holding(read: nat, cursor: Cursor)

  /** The queue of free cursors, the threads, and the reads that wait for a thread. */
  datatype Pool = Pool(free: seq<Cursor>, threads: seq<Thread>, waiting: seq<nat>, closed: bool)

  datatype Move =
    | Submit(read: nat)          // `run`: hand the read to the executor
    | Begin(t: nat)              // an idle thread takes the next read
    | Get(t: nat)                // the read takes a cursor
    | Put(t: nat)                // it returns or raises, and gives the cursor back
    | Close                      // `close`: interrupt all, join the threads

  /** `None` when the move cannot happen now; for `Get`, that the thread blocks. */
  function Apply(p: Pool, move: Move): Option<Pool> {
    match move
    case Submit(read) => if p.closed then None else Some(p.(waiting := p.waiting + [read]))
    case Begin(t) =>
      if t >= |p.threads| || !p.threads[t].Free? || p.waiting == [] then None
      else Some(p.(threads := p.threads[t := Asking(p.waiting[0])], waiting := p.waiting[1..]))
    case Get(t) =>
      if t >= |p.threads| || !p.threads[t].Asking? || p.free == [] then None
      else Some(p.(free := p.free[1..], threads := p.threads[t := Holding(p.threads[t].read, p.free[0])]))
    case Put(t) =>
      if t >= |p.threads| || !p.threads[t].Holding? then None
      else Some(p.(free := p.free + [p.threads[t].cursor], threads := p.threads[t := Free]))
    case Close => Some(p.(closed := true))
  }

  function Run(p: Pool, moves: seq<Move>): Option<Pool>
    decreases |moves|
  {
    if moves == [] then Some(p)
    else match Apply(p, moves[0])
      case None => None
      case Some(next) => Run(next, moves[1..])
  }

  /** `create`: one thread for each cursor, all free. */
  function Create(cursors: seq<Cursor>): Pool {
    Pool(cursors, AllFree(|cursors|), [], false)
  }

  function AllFree(n: nat): (threads: seq<Thread>)
    ensures |threads| == n
  {
    if n == 0 then [] else [Free] + AllFree(n - 1)
  }

  predicate HoldsCursor(thread: Thread, c: Cursor) {
    thread.Holding? && thread.cursor == c
  }

  /** How many threads hold a cursor. */
  function Holders(threads: seq<Thread>, c: Cursor): nat {
    if threads == [] then 0 else (if HoldsCursor(threads[0], c) then 1 else 0) + Holders(threads[1..], c)
  }

  /** How many threads hold any cursor. */
  function Busy(threads: seq<Thread>): (n: nat)
    ensures n <= |threads|
  {
    if threads == [] then 0 else (if threads[0].Holding? then 1 else 0) + Busy(threads[1..])
  }

  lemma {:induction false} HoldersUpdate(threads: seq<Thread>, t: nat, thread: Thread, c: Cursor)
    requires t < |threads|
    ensures Holders(threads[t := thread], c) ==
            Holders(threads, c) - (if HoldsCursor(threads[t], c) then 1 else 0) + if HoldsCursor(thread, c) then 1 else 0
    ensures HoldsCursor(threads[t], c) ==> Holders(threads, c) >= 1
  {
    if t == 0 {
      assert threads[0 := thread][1..] == threads[1..];
    } else {
      assert threads[t := thread][1..] == threads[1..][t - 1 := thread];
      HoldersUpdate(threads[1..], t - 1, thread, c);
    }
  }

  lemma {:induction false} BusyUpdate(threads: seq<Thread>, t: nat, thread: Thread)
    requires t < |threads|
    ensures Busy(threads[t := thread]) ==
            Busy(threads) - (if threads[t].Holding? then 1 else 0) + if thread.Holding? then 1 else 0
    ensures !threads[t].Holding? ==> Busy(threads) < |threads|
  {
    if t == 0 {
      assert threads[0 := thread][1..] == threads[1..];
    } else {
      assert threads[t := thread][1..] == threads[1..][t - 1 := thread];
      BusyUpdate(threads[1..], t - 1, thread);
    }
  }

  lemma {:induction false} NoneHeld(n: nat, c: Cursor)
    ensures Holders(AllFree(n), c) == 0 && Busy(AllFree(n)) == 0
  {
    if n > 0 {
      NoneHeld(n - 1, c);
    }
  }

  lemma {:induction false} TwoHolders(threads: seq<Thread>, t: nat, u: nat, c: Cursor)
    requires t < u < |threads| && HoldsCursor(threads[t], c) && HoldsCursor(threads[u], c)
    ensures Holders(threads, c) >= 2
  {
    if t == 0 {
      HoldersUpdate(threads[1..], u - 1, Free, c);
    } else {
      TwoHolders(threads[1..], t - 1, u - 1, c);
    }
  }

  lemma {:induction false} HolderExists(threads: seq<Thread>, c: Cursor) returns (t: nat)
    requires Holders(threads, c) > 0
    ensures t < |threads| && HoldsCursor(threads[t], c)
  {
    if HoldsCursor(threads[0], c) {
      t := 0;
    } else {
      t := HolderExists(threads[1..], c);
      t := t + 1;
    }
  }

  /** Every cursor is free or held as often as it was created. */
  ghost predicate Inv(p: Pool, cursors: seq<Cursor>) {
    && |p.threads| == |cursors| && |p.free| + Busy(p.threads) == |cursors|
    && forall c :: multiset(p.free)[c] + Holders(p.threads, c) == multiset(cursors)[c]
  }

  lemma MoveKeepsInv(p: Pool, cursors: seq<Cursor>, move: Move)
    requires Inv(p, cursors) && Apply(p, move).Some?
    ensures Inv(Apply(p, move).value, cursors)
  {
    var after := Apply(p, move).value;
    if move.Get? {
      assert p.free == [p.free[0]] + p.free[1..];
    }
    if move.Begin? || move.Get? || move.Put? {
      BusyUpdate(p.threads, move.t, after.threads[move.t]);
      forall c
        ensures multiset(after.free)[c] + Holders(after.threads, c) == multiset(cursors)[c]
      {
        assert multiset(p.free)[c] + Holders(p.threads, c) == multiset(cursors)[c];
        HoldersUpdate(p.threads, move.t, after.threads[move.t], c);
      }
    }
  }

  lemma CreateInv(cursors: seq<Cursor>)
    ensures Inv(Create(cursors), cursors)
  {
    NoneHeld(|cursors|, 0);
    forall c
      ensures Holders(Create(cursors).threads, c) == 0
    {
      NoneHeld(|cursors|, c);
    }
  }

  lemma {:induction false} RunKeepsInv(p: Pool, cursors: seq<Cursor>, moves: seq<Move>)
    requires Inv(p, cursors) && Run(p, moves).Some?
    ensures Inv(Run(p, moves).value, cursors)
    decreases |moves|
  {
    if moves != [] {
      MoveKeepsInv(p, cursors, moves[0]);
      hide Apply;
      hide Inv;
      RunKeepsInv(Apply(p, moves[0]).value, cursors, moves[1..]);
    }
  }

  predicate DistinctCursors(cursors: seq<Cursor>) {
    forall i, j :: 0 <= i < j < |cursors| ==> cursors[i] != cursors[j]
  }

  lemma {:induction false} DistinctCount(cursors: seq<Cursor>, c: Cursor)
    requires DistinctCursors(cursors)
    ensures multiset(cursors)[c] == if c in cursors then 1 else 0
  {
    if cursors != [] {
      assert cursors == [cursors[0]] + cursors[1..];
      DistinctCount(cursors[1..], c);
    }
  }

  predicate Holds(p: Pool, t: nat, c: Cursor) {
    t < |p.threads| && HoldsCursor(p.threads[t], c)
  }

  /**
   * In every reachable state each cursor is either free or held by exactly one read,
   * none is lost, and a read that asks for a cursor always finds one.
   */
  lemma CursorsAreExclusive(cursors: seq<Cursor>, moves: seq<Move>, p: Pool, c: Cursor)
    requires DistinctCursors(cursors) && Run(Create(cursors), moves) == Some(p)
    ensures c in cursors <==> c in p.free || exists t: nat :: Holds(p, t, c)
    ensures c in p.free ==> forall t: nat :: !Holds(p, t, c)
    ensures forall t: nat, u: nat :: Holds(p, t, c) && Holds(p, u, c) ==> t == u
    ensures multiset(p.free)[c] <= 1
  {
    CreateInv(cursors);
    RunKeepsInv(Create(cursors), cursors, moves);
    hide Run;
    DistinctCount(cursors, c);
    assert multiset(p.free)[c] + Holders(p.threads, c) == multiset(cursors)[c];
    forall t: nat | Holds(p, t, c)
      ensures Holders(p.threads, c) >= 1
    {
      HoldersUpdate(p.threads, t, Free, c);
    }
    if Holders(p.threads, c) > 0 {
      var t := HolderExists(p.threads, c);
      assert Holds(p, t, c);
    }
    assert c in p.free <==> multiset(p.free)[c] > 0;
    forall t: nat, u: nat | t < u && Holds(p, t, c) && Holds(p, u, c)
      ensures false
    {
      TwoHolders(p.threads, t, u, c);
    }
  }

  /** The pool has as many threads as cursors, so checking out never blocks; and while
      any read is unfinished, some thread can go on. */
  lemma CheckoutNeverBlocks(cursors: seq<Cursor>, moves: seq<Move>, p: Pool, t: nat)
    requires Run(Create(cursors), moves) == Some(p) && t < |p.threads|
    ensures p.threads[t].Asking? ==> Apply(p, Get(t)).Some?
    ensures p.threads[t].Holding? ==> Apply(p, Put(t)).Some?
    ensures p.threads[t].Free? && p.waiting != [] ==> Apply(p, Begin(t)).Some?
  {
    CreateInv(cursors);
    RunKeepsInv(Create(cursors), cursors, moves);
    BusyUpdate(p.threads, t, Free);
  }
}
