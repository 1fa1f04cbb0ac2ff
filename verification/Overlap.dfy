/**
 * A rebuild that overlaps writes: exactly when the table it ends with is the one that
 * the files describe.
 */
module Overlap {
  import opened Prelude
  import opened Embedding
  import opened Store
  import opened Files
  import opened Rebuild
  import opened Recovery
  import C = CrashViews
  import H = History

  // ----------------------------------------------- what a state still has to do

  /** The rebuild has still to load a put line of the key. */
  ghost predicate ToLoad(spec: TableSpec, r: Replayer, k: Key) {
    r.Replaying? && exists h: nat :: r.loaded <= h < |r.puts| && r.puts[h].line.Put? && LineKey(spec, r.puts[h].line) == k
  }

  /** The worker has written a put line of the key, and has still to commit it. */
  ghost predicate ToCommit(spec: TableSpec, w: Worker, k: Key) {
    w.Working? && w.job.CommitJob? && exists h: nat :: h < w.written && h < |w.job.recs| && KeyOf(spec, w.job.recs[h]) == k
  }

  /** The rebuild has still to apply a tombstone of the key. */
  ghost predicate ToMark(r: Replayer, k: Key) {
    r.Replaying? && exists h: nat :: r.marked <= h < |r.dels| && r.dels[h].line.Tombstone? && r.dels[h].line.key == k
  }

  /** The worker has written a tombstone of the key, and has still to set its mark. */
  ghost predicate ToBury(w: Worker, k: Key) {
    w.Working? && w.job.MarkJob? && exists h: nat :: h < w.written && h < |w.job.keys| && w.job.keys[h] == k
  }

  predicate Dead(table: Table, k: Key) {
    k in table && !Live(table[k])
  }

  /** A key with a put line has its row, or is still to get it; and if it has a tombstone
      as well, its row is dead, or is still to be marked. */
  ghost predicate Fine(spec: TableSpec, m: Machine, k: Key) {
    HasPut(spec, m.log, k) ==>
      && (k in m.table || ToLoad(spec, m.replayer, k) || ToCommit(spec, m.worker, k))
      && (HasTombstone(m.log, k) ==> Dead(m.table, k) || ToMark(m.replayer, k) || ToBury(m.worker, k))
  }

  ghost predicate Accounted(spec: TableSpec, m: Machine) {
    forall k :: Fine(spec, m, k)
  }

  // -------------------------------------------------------- harmless moves

  /**
   * What must hold when a move is made, for it to lose nothing. Clearing: everything
   * that the files have is still to be loaded, or settled, so each write with a line
   * that the rebuild has not read settles afterwards. Setting marks: the rows are there.
   * Giving up, or ending: nothing is left to do.
   */
  ghost predicate Harmless(spec: TableSpec, emb: Option<Embedder>, m: Machine, move: Move) {
    match move
    case WriteLine =>
      m.worker.Working? && m.worker.job.CommitJob? && m.worker.written < |m.worker.job.recs| ==>
        var k := KeyOf(spec, m.worker.job.recs[m.worker.written]);
        HasTombstone(m.log, k) ==> Dead(m.table, k) || ToMark(m.replayer, k)
    case Settle =>
      m.worker.Working? ==>
        (match m.worker.job
         case CommitJob(recs, ds, now) =>
           || Commit(spec, m.table, recs, H.IndexAll(emb, spec, recs), ds, now).Some?
           || forall h :: 0 <= h < |recs| ==> KeyOf(spec, recs[h]) in m.table || ToLoad(spec, m.replayer, KeyOf(spec, recs[h]))
         case MarkJob(keys, _, _) =>
           forall h :: 0 <= h < |keys| && HasPut(spec, m.log, keys[h]) ==> keys[h] in m.table || ToMark(m.replayer, keys[h]))
    case Fail => DoneWithout(spec, m, m.replayer, Idle)
    case Clear =>
      forall k :: HasPut(spec, m.log, k) ==>
        && (ToLoad(spec, m.replayer, k) || ToCommit(spec, m.worker, k))
        && (HasTombstone(m.log, k) ==> ToMark(m.replayer, k) || ToBury(m.worker, k))
    case LoadOne =>
      m.replayer.Replaying? && m.replayer.loaded < |m.replayer.puts| && m.replayer.puts[m.replayer.loaded].line.Put? ==>
        !NullLine(spec, m.replayer.puts[m.replayer.loaded].line)
    case MarkOne =>
      m.replayer.Replaying? && m.replayer.marked < |m.replayer.dels| && m.replayer.dels[m.replayer.marked].line.Tombstone? ==>
        var k := m.replayer.dels[m.replayer.marked].line.key;
        HasPut(spec, m.log, k) ==>
          k in m.table || ToBury(m.worker, k) || ToMark(m.replayer.(marked := m.replayer.marked + 1), k)
    case Finish => DoneWithout(spec, m, Off, m.worker)
    case Crash => DoneWithout(spec, m, Off, Idle)
    case _ => true
  }

  /** Whatever was in flight is in the table, or `r` and `w` still have it in flight. */
  ghost predicate DoneWithout(spec: TableSpec, m: Machine, r: Replayer, w: Worker) {
    forall k :: HasPut(spec, m.log, k) ==>
      && (ToLoad(spec, m.replayer, k) || ToCommit(spec, m.worker, k) ==> k in m.table || ToLoad(spec, r, k) || ToCommit(spec, w, k))
      && (HasTombstone(m.log, k) && (ToMark(m.replayer, k) || ToBury(m.worker, k)) ==>
            Dead(m.table, k) || ToMark(r, k) || ToBury(w, k))
  }

  lemma LeavingIff(spec: TableSpec, m: Machine, r: Replayer, w: Worker)
    requires Accounted(spec, m)
    requires (r == m.replayer || r.Off?) && (w == m.worker || w.Idle?)
    ensures Accounted(spec, m.(replayer := r, worker := w)) <==> DoneWithout(spec, m, r, w)
  {
    hide HasPut;
    hide HasTombstone;
    var next := m.(replayer := r, worker := w);
    if Accounted(spec, next) {
      forall k | HasPut(spec, m.log, k)
        ensures ToLoad(spec, m.replayer, k) || ToCommit(spec, m.worker, k) ==> k in m.table || ToLoad(spec, r, k) || ToCommit(spec, w, k)
        ensures HasTombstone(m.log, k) && (ToMark(m.replayer, k) || ToBury(m.worker, k)) ==>
          Dead(m.table, k) || ToMark(r, k) || ToBury(w, k)
      {
        assert Fine(spec, next, k);
      }
    }
    if DoneWithout(spec, m, r, w) {
      forall k
        ensures Fine(spec, next, k)
      {
        assert Fine(spec, m, k);
      }
    }
  }

  /** Nothing is in flight in a worker or a rebuild that has just begun, or is not there. */
  lemma JustBegun(spec: TableSpec, job: Job, k: Key)
    ensures !ToCommit(spec, Working(job, 0), k) && !ToBury(Working(job, 0), k)
    ensures !ToCommit(spec, Idle, k) && !ToBury(Idle, k) && !ToLoad(spec, Off, k) && !ToMark(Off, k)
  {
  }

  // ----------------------------------------------------------- move by move

  lemma TakeKeeps(spec: TableSpec, m: Machine, job: Job)
    requires Accounted(spec, m) && m.worker.Idle?
    ensures Accounted(spec, m.(worker := Working(job, 0)))
  {
    hide HasPut;
    hide HasTombstone;
    hide ToLoad;
    hide ToMark;
    hide Dead;
    forall k
      ensures Fine(spec, m.(worker := Working(job, 0)), k)
    {
      assert Fine(spec, m, k);
      JustBegun(spec, job, k);
    }
  }

  lemma ReadKeeps(spec: TableSpec, m: Machine, puts: seq<Files.Event>, dels: seq<Files.Event>)
    requires Accounted(spec, m) && m.replayer.Off?
    ensures Accounted(spec, m.(replayer := Replaying(puts, dels, 0, 0)))
  {
    hide HasPut;
    hide HasTombstone;
    hide ToCommit;
    hide ToBury;
    hide Dead;
    forall k
      ensures Fine(spec, m.(replayer := Replaying(puts, dels, 0, 0)), k)
    {
      assert Fine(spec, m, k);
    }
  }

  /** What one written line adds to what is in flight. */
  lemma WrittenInFlight(spec: TableSpec, w: Worker, k: Key)
    requires w.Working? && w.written < |JobLines(w.job)|
    ensures var next := w.(written := w.written + 1);
            && (ToCommit(spec, next, k) <==> ToCommit(spec, w, k) || (w.job.CommitJob? && KeyOf(spec, w.job.recs[w.written]) == k))
            && (ToBury(next, k) <==> ToBury(w, k) || (w.job.MarkJob? && w.job.keys[w.written] == k))
  {
    hide KeyOf;
    var next := w.(written := w.written + 1);
    if w.job.CommitJob? && KeyOf(spec, w.job.recs[w.written]) == k {
      assert ToCommit(spec, next, k);
    }
    if w.job.MarkJob? && w.job.keys[w.written] == k {
      assert ToBury(next, k);
    }
  }

  lemma WriteIff(spec: TableSpec, emb: Option<Embedder>, m: Machine)
    requires Inv(spec, emb, m) && Accounted(spec, m) && Apply(spec, emb, m, WriteLine).Some?
    ensures Accounted(spec, Apply(spec, emb, m, WriteLine).value) <==> Harmless(spec, emb, m, WriteLine)
  {
    var w := m.worker;
    var line, next := JobLines(w.job)[w.written], Apply(spec, emb, m, WriteLine).value;
    var put := if w.job.CommitJob? then Some(KeyOf(spec, w.job.recs[w.written])) else None;
    var tombstone := if w.job.MarkJob? then Some(w.job.keys[w.written]) else None;
    if w.job.CommitJob? {
      H.RecordsAreNormal(spec, w.job.recs[w.written]);
    }
    hide Inv;
    hide KeyOf;
    hide Append;
    forall k
      ensures HasPut(spec, next.log, k) <==> HasPut(spec, m.log, k) || put == Some(k)
      ensures HasTombstone(next.log, k) <==> HasTombstone(m.log, k) || tombstone == Some(k)
      ensures ToCommit(spec, next.worker, k) <==> ToCommit(spec, w, k) || put == Some(k)
      ensures ToBury(next.worker, k) <==> ToBury(w, k) || tombstone == Some(k)
    {
      LineAdds(spec, m.log, w.job.ds, line, k);
      LineBuries(m.log, w.job.ds, line, k);
      WrittenInFlight(spec, w, k);
    }
    hide HasPut;
    hide HasTombstone;
    hide ToLoad;
    hide ToMark;
    hide Dead;
    assert put.Some? ==> !ToBury(next.worker, put.value);
    hide ToCommit;
    hide ToBury;
    if Accounted(spec, next) && put.Some? {
      assert Fine(spec, next, put.value);
    }
    if Harmless(spec, emb, m, WriteLine) {
      forall k
        ensures Fine(spec, next, k)
      {
        assert Fine(spec, m, k);
      }
    }
  }

  lemma ClearIff(spec: TableSpec, emb: Option<Embedder>, m: Machine)
    requires Accounted(spec, m) && Apply(spec, emb, m, Clear).Some?
    ensures Accounted(spec, Apply(spec, emb, m, Clear).value) <==> Harmless(spec, emb, m, Clear)
  {
    var next := Apply(spec, emb, m, Clear).value;
    hide HasPut;
    hide HasTombstone;
    hide ToLoad;
    hide ToMark;
    hide ToCommit;
    hide ToBury;
    if Accounted(spec, next) {
      forall k | HasPut(spec, m.log, k)
        ensures ToLoad(spec, m.replayer, k) || ToCommit(spec, m.worker, k)
        ensures HasTombstone(m.log, k) ==> ToMark(m.replayer, k) || ToBury(m.worker, k)
      {
        assert Fine(spec, next, k);
      }
    }
  }

  /** One loaded put is no longer in flight, and its row is there. */
  lemma LoadIff(spec: TableSpec, emb: Option<Embedder>, m: Machine)
    requires Accounted(spec, m) && Apply(spec, emb, m, LoadOne).Some? && Harmless(spec, emb, m, LoadOne)
    ensures Accounted(spec, Apply(spec, emb, m, LoadOne).value)
  {
    var next, line := Apply(spec, emb, m, LoadOne).value, m.replayer.puts[m.replayer.loaded].line;
    hide HasPut;
    hide HasTombstone;
    hide ToCommit;
    hide ToBury;
    hide LineKey;
    hide NullLine;
    hide RowOf;
    forall k
      ensures Fine(spec, next, k)
    {
      assert Fine(spec, m, k);
      assert ToMark(next.replayer, k) <==> ToMark(m.replayer, k);
      hide ToMark;
      if k in m.table {
        assert k in next.table && next.table[k] == m.table[k];
      } else if ToLoad(spec, m.replayer, k) && LineKey(spec, line) != k {
        var h: nat :| m.replayer.loaded <= h < |m.replayer.puts| && m.replayer.puts[h].line.Put? &&
          LineKey(spec, m.replayer.puts[h].line) == k;
        assert h > m.replayer.loaded;
      }
    }
  }

  lemma SoftDeletedDead(table: Table, keys: seq<Key>, ds: Day, now: Time, k: Key)
    ensures k in SoftDeleted(table, keys, ds, now) <==> k in table
    ensures Dead(SoftDeleted(table, keys, ds, now), k) <==> Dead(table, k) || (k in table && k in keys)
  {
  }

  lemma MarkIff(spec: TableSpec, emb: Option<Embedder>, m: Machine)
    requires ReplayerOk(m.log, m.replayer) && Accounted(spec, m) && Apply(spec, emb, m, MarkOne).Some?
    ensures Accounted(spec, Apply(spec, emb, m, MarkOne).value) <==> Harmless(spec, emb, m, MarkOne)
  {
    var next, line := Apply(spec, emb, m, MarkOne).value, m.replayer.dels[m.replayer.marked].line;
    var e := m.replayer.dels[m.replayer.marked];
    assert e in m.replayer.dels && TombstoneAt(m.log, e.day, e.pos, line.key);
    assert HasTombstone(m.log, line.key);
    forall k
      ensures k in next.table <==> k in m.table
      ensures Dead(next.table, k) <==> Dead(m.table, k) || (k in m.table && k == line.key)
      ensures ToLoad(spec, next.replayer, k) <==> ToLoad(spec, m.replayer, k)
      ensures ToMark(m.replayer, k) <==> ToMark(next.replayer, k) || k == line.key
    {
      SoftDeletedDead(m.table, [line.key], m.replayer.dels[m.replayer.marked].day, line.deletedAt, k);
      if k == line.key {
        assert ToMark(m.replayer, k);
      }
    }
    hide HasPut;
    hide HasTombstone;
    hide ToLoad;
    hide ToMark;
    hide ToCommit;
    hide ToBury;
    hide Dead;
    hide SoftDeleted;
    if Accounted(spec, next) {
      assert Fine(spec, next, line.key);
    }
    if Harmless(spec, emb, m, MarkOne) {
      forall k
        ensures Fine(spec, next, k)
      {
        assert Fine(spec, m, k);
      }
    }
  }

  /** The transaction that the worker is about to make succeeds. */
  ghost predicate Landed(spec: TableSpec, emb: Option<Embedder>, m: Machine) {
    m.worker.Working? && m.worker.job.CommitJob? &&
    Commit(spec, m.table, m.worker.job.recs, H.IndexAll(emb, spec, m.worker.job.recs), m.worker.job.ds, m.worker.job.now).Some?
  }

  /** What a transaction does to one key. */
  lemma CommitEffect(spec: TableSpec, emb: Option<Embedder>, m: Machine, k: Key)
    requires Apply(spec, emb, m, Settle).Some? && m.worker.job.CommitJob?
    ensures var next := Apply(spec, emb, m, Settle).value;
            && next == m.(table := next.table, worker := Idle)
            && (k in next.table ==> k in m.table || ToCommit(spec, m.worker, k)) && (Dead(next.table, k) ==> Dead(m.table, k))
            && !ToBury(next.worker, k) && !ToCommit(spec, next.worker, k)
            && (k in m.table ==> k in next.table && next.table[k] == m.table[k]) && !ToBury(m.worker, k)
            && (ToCommit(spec, m.worker, k) ==> k in Keys(spec, m.worker.job.recs))
            && (Landed(spec, emb, m) && ToCommit(spec, m.worker, k) ==> k in next.table) && (!Landed(spec, emb, m) ==> next.table == m.table)
  {
    var recs, ds, now := m.worker.job.recs, m.worker.job.ds, m.worker.job.now;
    var index := H.IndexAll(emb, spec, recs);
    CommitMeans(spec, m.table, recs, index, ds, now);
    hide Commit;
    hide AllNew;
    hide NullKey;
    hide KeyOf;
    if Commit(spec, m.table, recs, index, ds, now).Some? && k in Keys(spec, recs) {
      var h :| 0 <= h < |recs| && KeyOf(spec, recs[h]) == k;
      assert ToCommit(spec, m.worker, k);
    }
  }

  lemma CommitIff(spec: TableSpec, emb: Option<Embedder>, m: Machine)
    requires Inv(spec, emb, m) && Accounted(spec, m) && Apply(spec, emb, m, Settle).Some? && m.worker.job.CommitJob?
    ensures Accounted(spec, Apply(spec, emb, m, Settle).value) <==> Harmless(spec, emb, m, Settle)
  {
    var next := Apply(spec, emb, m, Settle).value;
    PutsAreWritten(spec, emb, m);
    HarmlessCommit(spec, emb, m);
    hide *;
    if Landed(spec, emb, m) {
      forall k
        ensures Fine(spec, next, k)
      {
        FineAt(spec, m, k);
        CommitEffect(spec, emb, m, k);
        SameRowSameMark(m.table, next.table, k);
        IsFine(spec, next, k);
      }
      AllFine(spec, next);
    } else {
      CommitEffect(spec, emb, m, "");
      LostCommitIff(spec, emb, m, next);
    }
  }

  lemma HarmlessCommit(spec: TableSpec, emb: Option<Embedder>, m: Machine)
    requires Apply(spec, emb, m, Settle).Some? && m.worker.job.CommitJob?
    ensures m.worker.written == |m.worker.job.recs|
    ensures Harmless(spec, emb, m, Settle) <==> Landed(spec, emb, m) || forall h :: 0 <= h < |m.worker.job.recs| ==>
      KeyOf(spec, m.worker.job.recs[h]) in m.table || ToLoad(spec, m.replayer, KeyOf(spec, m.worker.job.recs[h]))
  {
    hide Commit;
    hide ToLoad;
    hide KeyOf;
  }

  lemma SameRowSameMark(before: Table, after: Table, k: Key)
    requires k in before ==> k in after && after[k] == before[k]
    ensures Dead(before, k) ==> Dead(after, k)
  {
  }

  /** A failed transaction is harmless exactly when each of its rows is there or coming. */
  lemma LostCommitIff(spec: TableSpec, emb: Option<Embedder>, m: Machine, next: Machine)
    requires Accounted(spec, m) && m.worker.Working? && m.worker.job.CommitJob? && next == m.(worker := Idle)
    requires forall h :: 0 <= h < |m.worker.job.recs| ==> HasPut(spec, m.log, KeyOf(spec, m.worker.job.recs[h]))
    ensures Accounted(spec, next) <==> forall h :: 0 <= h < |m.worker.job.recs| ==>
      KeyOf(spec, m.worker.job.recs[h]) in m.table || ToLoad(spec, m.replayer, KeyOf(spec, m.worker.job.recs[h]))
  {
    var recs := m.worker.job.recs;
    forall k | ToCommit(spec, m.worker, k)
      ensures k in Keys(spec, recs)
    {
    }
    assert forall k :: !ToBury(m.worker, k) && !ToBury(next.worker, k) && !ToCommit(spec, next.worker, k);
    hide HasPut;
    hide HasTombstone;
    hide ToLoad;
    hide ToMark;
    hide ToCommit;
    hide ToBury;
    hide Dead;
    hide KeyOf;
    if Accounted(spec, next) {
      forall h | 0 <= h < |recs|
        ensures KeyOf(spec, recs[h]) in m.table || ToLoad(spec, m.replayer, KeyOf(spec, recs[h]))
      {
        assert Fine(spec, next, KeyOf(spec, recs[h]));
      }
    }
    if forall h :: 0 <= h < |recs| ==> KeyOf(spec, recs[h]) in m.table || ToLoad(spec, m.replayer, KeyOf(spec, recs[h])) {
      forall k
        ensures Fine(spec, next, k)
      {
        assert Fine(spec, m, k);
        if k in Keys(spec, recs) {
          var h :| 0 <= h < |recs| && KeyOf(spec, recs[h]) == k;
        }
      }
    }
  }

  /** The lines of a job that is about to settle are all in the log. */
  lemma PutsAreWritten(spec: TableSpec, emb: Option<Embedder>, m: Machine)
    requires Inv(spec, emb, m) && m.worker.Working? && m.worker.job.CommitJob? && m.worker.written == |m.worker.job.recs|
    ensures forall h :: 0 <= h < |m.worker.job.recs| ==> HasPut(spec, m.log, KeyOf(spec, m.worker.job.recs[h]))
  {
    var recs, ds := m.worker.job.recs, m.worker.job.ds;
    forall h | 0 <= h < |recs|
      ensures HasPut(spec, m.log, KeyOf(spec, recs[h]))
    {
      var line := JobLines(m.worker.job)[h];
      assert Written(m.log, ds, line);
      var j: nat :| At(m.log, ds, j) && m.log[ds][j] == line;
      H.RecordsAreNormal(spec, recs[h]);
      assert PutAt(m.log, ds, j);
    }
  }

  lemma TombstonesAreWritten(spec: TableSpec, emb: Option<Embedder>, m: Machine)
    requires Inv(spec, emb, m) && m.worker.Working? && m.worker.job.MarkJob? && m.worker.written == |m.worker.job.keys|
    ensures forall h :: 0 <= h < |m.worker.job.keys| ==> HasTombstone(m.log, m.worker.job.keys[h])
  {
    var keys, ds := m.worker.job.keys, m.worker.job.ds;
    forall h | 0 <= h < |keys|
      ensures HasTombstone(m.log, keys[h])
    {
      var line := JobLines(m.worker.job)[h];
      assert Written(m.log, ds, line);
      var j: nat :| At(m.log, ds, j) && m.log[ds][j] == line;
      assert TombstoneAt(m.log, ds, j, keys[h]);
    }
  }

  /** What setting its marks does for the worker. */
  lemma BuryEffect(spec: TableSpec, emb: Option<Embedder>, m: Machine, k: Key)
    requires Apply(spec, emb, m, Settle).Some? && m.worker.job.MarkJob?
    ensures var next, keys := Apply(spec, emb, m, Settle).value, m.worker.job.keys;
            && next == m.(table := next.table, worker := Idle)
            && (k in next.table <==> k in m.table) && (Dead(next.table, k) <==> Dead(m.table, k) || (k in m.table && k in keys))
            && (ToBury(m.worker, k) <==> k in keys)
            && !ToBury(next.worker, k) && !ToCommit(spec, m.worker, k) && !ToCommit(spec, next.worker, k)
  {
    var keys := m.worker.job.keys;
    SoftDeletedDead(m.table, keys, m.worker.job.ds, m.worker.job.now, k);
    if k in keys {
      var h :| 0 <= h < |keys| && keys[h] == k;
      assert ToBury(m.worker, k);
    }
  }

  lemma BuryIff(spec: TableSpec, emb: Option<Embedder>, m: Machine)
    requires Inv(spec, emb, m) && Accounted(spec, m) && Apply(spec, emb, m, Settle).Some? && m.worker.job.MarkJob?
    ensures Accounted(spec, Apply(spec, emb, m, Settle).value) <==> Harmless(spec, emb, m, Settle)
  {
    var keys, next := m.worker.job.keys, Apply(spec, emb, m, Settle).value;
    TombstonesAreWritten(spec, emb, m);
    BuryEffect(spec, emb, m, "");
    assert m.worker.Working?;
    hide *;
    if Accounted(spec, next) {
      forall h | 0 <= h < |keys| && HasPut(spec, m.log, keys[h])
        ensures keys[h] in m.table || ToMark(m.replayer, keys[h])
      {
        BuryEffect(spec, emb, m, keys[h]);
        FineAt(spec, next, keys[h]);
        DeadIsThere(next.table, keys[h]);
      }
    }
    if forall h :: 0 <= h < |keys| && HasPut(spec, m.log, keys[h]) ==> keys[h] in m.table || ToMark(m.replayer, keys[h]) {
      forall k
        ensures Fine(spec, next, k)
      {
        FineAt(spec, m, k);
        BuryEffect(spec, emb, m, k);
        if k in keys {
          var h :| 0 <= h < |keys| && keys[h] == k;
        }
        IsFine(spec, next, k);
      }
      AllFine(spec, next);
    }
    HarmlessBury(spec, emb, m);
  }

  lemma HarmlessBury(spec: TableSpec, emb: Option<Embedder>, m: Machine)
    requires m.worker.Working? && m.worker.job.MarkJob?
    ensures Harmless(spec, emb, m, Settle) <==>
            forall h :: 0 <= h < |m.worker.job.keys| && HasPut(spec, m.log, m.worker.job.keys[h]) ==>
              m.worker.job.keys[h] in m.table || ToMark(m.replayer, m.worker.job.keys[h])
  {
    hide HasPut;
    hide ToMark;
  }

  lemma FineAt(spec: TableSpec, m: Machine, k: Key)
    requires Accounted(spec, m)
    ensures HasPut(spec, m.log, k) ==> k in m.table || ToLoad(spec, m.replayer, k) || ToCommit(spec, m.worker, k)
    ensures HasPut(spec, m.log, k) && HasTombstone(m.log, k) ==> Dead(m.table, k) || ToMark(m.replayer, k) || ToBury(m.worker, k)
  {
    assert Fine(spec, m, k);
  }

  lemma IsFine(spec: TableSpec, m: Machine, k: Key)
    requires HasPut(spec, m.log, k) ==> k in m.table || ToLoad(spec, m.replayer, k) || ToCommit(spec, m.worker, k)
    requires HasPut(spec, m.log, k) && HasTombstone(m.log, k) ==> Dead(m.table, k) || ToMark(m.replayer, k) || ToBury(m.worker, k)
    ensures Fine(spec, m, k)
  {
  }

  lemma AllFine(spec: TableSpec, m: Machine)
    requires forall k :: Fine(spec, m, k)
    ensures Accounted(spec, m)
  {
  }

  lemma DeadIsThere(table: Table, k: Key)
    ensures Dead(table, k) ==> k in table
  {
  }

  /** A move loses nothing if and only if it is harmless when it is made; a put line
      without a key aside, with which no rebuild succeeds anyway. */
  lemma MoveIff(spec: TableSpec, emb: Option<Embedder>, m: Machine, move: Move)
    requires Inv(spec, emb, m) && Accounted(spec, m) && Apply(spec, emb, m, move).Some?
    ensures Harmless(spec, emb, m, move) ==> Accounted(spec, Apply(spec, emb, m, move).value)
    ensures !move.LoadOne? && Accounted(spec, Apply(spec, emb, m, move).value) ==> Harmless(spec, emb, m, move)
  {
    match move {
      case Take(job) => TakeKeeps(spec, m, job);
      case WriteLine => WriteIff(spec, emb, m);
      case Settle =>
        if m.worker.job.CommitJob? {
          CommitIff(spec, emb, m);
        } else {
          BuryIff(spec, emb, m);
        }
      case Fail => LeavingIff(spec, m, m.replayer, Idle);
      case Read(snapshot) => ReadKeeps(spec, m, PutsOf(Events(snapshot)), DelsOf(Events(snapshot)));
      case Clear => ClearIff(spec, emb, m);
      case LoadOne =>
        if Harmless(spec, emb, m, LoadOne) {
          LoadIff(spec, emb, m);
        }
      case MarkOne => MarkIff(spec, emb, m);
      case Finish => LeavingIff(spec, m, Off, m.worker);
      case Crash => LeavingIff(spec, m, Off, Idle);
    }
  }

  // ------------------------------------------------------- what is lost stays lost

  ghost predicate PutTwice(spec: TableSpec, log: Log, k: Key) {
    exists d: Day, i: nat, e: Day, j: nat :: H.SameKeyPuts(spec, log, d, i, e, j) && LineKey(spec, log[d][i]) == k && (d != e || i != j)
  }

  ghost predicate BuriedTwice(log: Log, k: Key) {
    exists d: Day, i: nat, e: Day, j: nat :: TombstoneAt(log, d, i, k) && TombstoneAt(log, e, j, k) && (d != e || i != j)
  }

  ghost predicate Lost(spec: TableSpec, m: Machine, k: Key) {
    !Fine(spec, m, k) || PutTwice(spec, m.log, k) || BuriedTwice(m.log, k)
  }

  lemma TwiceStays(spec: TableSpec, log: Log, later: Log, k: Key)
    requires H.Extends(log, later)
    ensures PutTwice(spec, log, k) ==> PutTwice(spec, later, k)
    ensures BuriedTwice(log, k) ==> BuriedTwice(later, k)
  {
    hide LineKey;
    if PutTwice(spec, log, k) {
      var d: Day, i: nat, e: Day, j: nat :|
        H.SameKeyPuts(spec, log, d, i, e, j) && LineKey(spec, log[d][i]) == k && (d != e || i != j);
      assert H.SameKeyPuts(spec, later, d, i, e, j);
    }
    if BuriedTwice(log, k) {
      var d: Day, i: nat, e: Day, j: nat :| TombstoneAt(log, d, i, k) && TombstoneAt(log, e, j, k) && (d != e || i != j);
      assert TombstoneAt(later, d, i, k) && TombstoneAt(later, e, j, k);
    }
  }

  /** A second line of a key. */
  lemma AnotherLine(spec: TableSpec, log: Log, d: Day, line: Line, k: Key)
    ensures HasPut(spec, log, k) && line.Put? && LineKey(spec, line) == k ==> PutTwice(spec, Append(log, d, line), k)
    ensures HasTombstone(log, k) && line.Tombstone? && line.key == k ==> BuriedTwice(Append(log, d, line), k)
  {
    AppendMeans(log, d, line);
    var after, n := Append(log, d, line), if d in log then |log[d]| else 0;
    hide Append;
    hide LineKey;
    if HasPut(spec, log, k) && line.Put? && LineKey(spec, line) == k {
      var e: Day, j: nat :| PutAt(log, e, j) && LineKey(spec, log[e][j]) == k;
      assert H.SameKeyPuts(spec, after, d, n, e, j);
    }
    if HasTombstone(log, k) && line.Tombstone? && line.key == k {
      var e: Day, j: nat :| TombstoneAt(log, e, j, k);
      assert TombstoneAt(after, d, n, k) && TombstoneAt(after, e, j, k);
    }
  }

  lemma WriteStaysLost(spec: TableSpec, emb: Option<Embedder>, m: Machine, k: Key)
    requires Inv(spec, emb, m) && Lost(spec, m, k) && Apply(spec, emb, m, WriteLine).Some?
    ensures Lost(spec, Apply(spec, emb, m, WriteLine).value, k)
  {
    var w, next := m.worker, Apply(spec, emb, m, WriteLine).value;
    var line := JobLines(w.job)[w.written];
    AppendExtends(m.log, w.job.ds, line);
    TwiceStays(spec, m.log, next.log, k);
    AnotherLine(spec, m.log, w.job.ds, line, k);
    LineAdds(spec, m.log, w.job.ds, line, k);
    LineBuries(m.log, w.job.ds, line, k);
    WrittenInFlight(spec, w, k);
    if w.job.CommitJob? {
      H.RecordsAreNormal(spec, w.job.recs[w.written]);
    }
    hide Inv;
    hide Append;
    hide KeyOf;
    hide HasPut;
    hide HasTombstone;
    hide ToLoad;
    hide ToMark;
    hide ToCommit;
    hide ToBury;
    hide PutTwice;
    hide BuriedTwice;
  }

  /** A key that is not fine does not become so by any other move than reading again. */
  lemma MoveStaysLost(spec: TableSpec, emb: Option<Embedder>, m: Machine, move: Move, k: Key)
    requires Inv(spec, emb, m) && Lost(spec, m, k) && Apply(spec, emb, m, move).Some? && !move.Read?
    ensures Lost(spec, Apply(spec, emb, m, move).value, k)
  {
    var next := Apply(spec, emb, m, move).value;
    hide PutTwice;
    hide BuriedTwice;
    hide HasPut;
    hide HasTombstone;
    if move.WriteLine? {
      WriteStaysLost(spec, emb, m, k);
    } else if !Fine(spec, m, k) {
      OtherStaysLost(spec, emb, m, move, k);
    }
  }

  lemma OtherStaysLost(spec: TableSpec, emb: Option<Embedder>, m: Machine, move: Move, k: Key)
    requires !Fine(spec, m, k) && Apply(spec, emb, m, move).Some? && !move.Read? && !move.WriteLine?
    ensures !Fine(spec, Apply(spec, emb, m, move).value, k)
  {
    var next := Apply(spec, emb, m, move).value;
    hide HasPut;
    hide HasTombstone;
    match move {
      case Take(job) => JustBegun(spec, job, k);
      case Settle => SettleStaysLost(spec, emb, m, k);
      case LoadOne =>
        hide LineKey;
        hide NullLine;
        hide RowOf;
        if LineKey(spec, m.replayer.puts[m.replayer.loaded].line) == k {
          assert ToLoad(spec, m.replayer, k);
        }
      case MarkOne =>
        var line := m.replayer.dels[m.replayer.marked].line;
        SoftDeletedDead(m.table, [line.key], m.replayer.dels[m.replayer.marked].day, line.deletedAt, k);
        if line.key == k {
          assert ToMark(m.replayer, k);
        }
      case _ =>
    }
  }

  lemma SettleStaysLost(spec: TableSpec, emb: Option<Embedder>, m: Machine, k: Key)
    requires !Fine(spec, m, k) && Apply(spec, emb, m, Settle).Some?
    ensures !Fine(spec, Apply(spec, emb, m, Settle).value, k)
  {
    hide HasPut;
    hide HasTombstone;
    hide ToLoad;
    hide ToMark;
    if m.worker.job.MarkJob? {
      BuryEffect(spec, emb, m, k);
    } else {
      CommitEffect(spec, emb, m, k);
    }
    hide Apply;
    hide ToCommit;
    hide ToBury;
    hide Dead;
  }

  // ------------------------------------------------------------ whole runs

  lemma MoveExtends(spec: TableSpec, emb: Option<Embedder>, m: Machine, move: Move)
    requires Apply(spec, emb, m, move).Some?
    ensures H.Extends(m.log, Apply(spec, emb, m, move).value.log)
  {
    if move.WriteLine? {
      AppendExtends(m.log, m.worker.job.ds, JobLines(m.worker.job)[m.worker.written]);
    }
  }

  lemma {:induction false} RunExtends(spec: TableSpec, emb: Option<Embedder>, m: Machine, moves: seq<Move>)
    requires Run(spec, emb, m, moves).Some?
    ensures H.Extends(m.log, Run(spec, emb, m, moves).value.log)
    decreases |moves|
  {
    if moves != [] {
      MoveExtends(spec, emb, m, moves[0]);
      hide Apply;
      RunExtends(spec, emb, Apply(spec, emb, m, moves[0]).value, moves[1..]);
    }
  }

  lemma {:induction false} RunStaysLost(spec: TableSpec, emb: Option<Embedder>, m: Machine, moves: seq<Move>, k: Key)
    requires Inv(spec, emb, m) && Lost(spec, m, k) && Run(spec, emb, m, moves).Some?
    requires forall i :: 0 <= i < |moves| ==> ProperMove(spec, moves[i]) && !moves[i].Read?
    ensures Lost(spec, Run(spec, emb, m, moves).value, k)
    decreases |moves|
  {
    if moves != [] {
      hide Inv;
      hide Apply;
      hide Lost;
      hide ProperMove;
      assert ProperMove(spec, moves[0]) && !moves[0].Read?;
      MoveKeepsInv(spec, emb, m, moves[0]);
      MoveStaysLost(spec, emb, m, moves[0], k);
      RunStaysLost(spec, emb, Apply(spec, emb, m, moves[0]).value, moves[1..], k);
    }
  }

  ghost predicate HarmlessRun(spec: TableSpec, emb: Option<Embedder>, m: Machine, moves: seq<Move>)
    requires Run(spec, emb, m, moves).Some?
    decreases |moves|
  {
    moves == [] ||
    (Harmless(spec, emb, m, moves[0]) && HarmlessRun(spec, emb, Apply(spec, emb, m, moves[0]).value, moves[1..]))
  }

  /** No key is buried twice, and the put lines satisfy the primary key. */
  ghost predicate Proper(spec: TableSpec, log: Log) {
    Loadable(spec, log) && forall k :: !BuriedTwice(log, k)
  }

  lemma ProperIsNotLost(spec: TableSpec, m: Machine, k: Key)
    requires Proper(spec, m.log) && Lost(spec, m, k)
    ensures !Fine(spec, m, k)
  {
    hide Fine;
    hide LineKey;
    hide NullLine;
    assert !PutTwice(spec, m.log, k) && !BuriedTwice(m.log, k);
  }

  /** The one harmful move that loses nothing by itself: a put line without a key. */
  lemma NullLoadIsImproper(spec: TableSpec, emb: Option<Embedder>, m: Machine, later: Log)
    requires Inv(spec, emb, m) && Apply(spec, emb, m, LoadOne).Some? && !Harmless(spec, emb, m, LoadOne)
    requires H.Extends(m.log, later)
    ensures !Proper(spec, later)
  {
    var e := m.replayer.puts[m.replayer.loaded];
    assert e in m.replayer.puts;
    assert PutAt(later, e.day, e.pos) && later[e.day][e.pos] == e.line;
    hide NullLine;
    hide LineKey;
  }

  lemma {:induction false} HarmlessIff(spec: TableSpec, emb: Option<Embedder>, m: Machine, moves: seq<Move>)
    requires Inv(spec, emb, m) && Accounted(spec, m) && Run(spec, emb, m, moves).Some?
    requires forall i :: 0 <= i < |moves| ==> ProperMove(spec, moves[i]) && (i > 0 ==> !moves[i].Read?)
    requires Proper(spec, Run(spec, emb, m, moves).value.log)
    ensures Accounted(spec, Run(spec, emb, m, moves).value) <==> HarmlessRun(spec, emb, m, moves)
    decreases |moves|
  {
    if moves != [] {
      hide Inv;
      hide Apply;
      hide Fine;
      hide Proper;
      hide ProperMove;
      hide Harmless;
      var move, rest, end := moves[0], moves[1..], Run(spec, emb, m, moves).value;
      assert ProperMove(spec, move);
      var next := Apply(spec, emb, m, move).value;
      MoveKeepsInv(spec, emb, m, move);
      MoveIff(spec, emb, m, move);
      if Harmless(spec, emb, m, move) {
        HarmlessIff(spec, emb, next, rest);
      } else if move.LoadOne? {
        RunExtends(spec, emb, m, moves);
        NullLoadIsImproper(spec, emb, m, end.log);
      } else {
        var k :| !Fine(spec, next, k);
        RunStaysLost(spec, emb, next, rest, k);
        ProperIsNotLost(spec, end, k);
      }
    }
  }

  /** In a quiet state with a proper log, accounted for means equal to the rebuilt table. */
  lemma QuietIff(spec: TableSpec, emb: Option<Embedder>, clock: Time, m: Machine)
    requires Inv(spec, emb, m) && m.worker.Idle? && m.replayer.Off? && Proper(spec, m.log)
    ensures Accounted(spec, m) <==> Rebuilt(spec, emb, clock, m.log) == Some(m.table)
  {
    RebuildIffAgree(spec, emb, clock, m.log, m.table);
    hide Rebuilt;
    if Agree(spec, emb, clock, m.log, m.table) {
      AgreeIsFine(spec, emb, clock, m);
    }
    if Accounted(spec, m) {
      FineAgrees(spec, emb, clock, m);
    }
  }

  /** A quiet state that equals its rebuild is accounted for, whatever its log. */
  lemma AgreeIsFine(spec: TableSpec, emb: Option<Embedder>, clock: Time, m: Machine)
    requires Agree(spec, emb, clock, m.log, m.table)
    ensures Accounted(spec, m)
  {
    forall k
      ensures Fine(spec, m, k)
    {
      if HasPut(spec, m.log, k) {
        var d: Day, i: nat :| PutAt(m.log, d, i) && LineKey(spec, m.log[d][i]) == k;
        assert k in m.table && MarkAgrees(m.log, k, m.table[k]);
        if HasTombstone(m.log, k) {
          var e: Day, j: nat :| TombstoneAt(m.log, e, j, k);
        }
      }
    }
  }

  lemma FineAgrees(spec: TableSpec, emb: Option<Embedder>, clock: Time, m: Machine)
    requires Inv(spec, emb, m) && m.worker.Idle? && m.replayer.Off? && Proper(spec, m.log) && Accounted(spec, m)
    ensures Agree(spec, emb, clock, m.log, m.table)
  {
    var log, table := m.log, m.table;
    hide LineKey;
    hide RowOf;
    hide MarkAgrees;
    hide NullLine;
    hide Fine;
    hide Inv;
    hide BuriedTwice;
    forall d: Day, i: nat | PutAt(log, d, i)
      ensures LineKey(spec, log[d][i]) in table && Unmarked(table[LineKey(spec, log[d][i])]) == RowOf(spec, emb, clock, log[d][i])
    {
      RowAgrees(spec, emb, clock, m, d, i);
    }
    forall k | k in table
      ensures MarkAgrees(log, k, table[k]) && exists d: Day, i: nat :: PutAt(log, d, i) && LineKey(spec, log[d][i]) == k
    {
      MarkIsFirst(spec, emb, m, k);
    }
  }

  lemma RowAgrees(spec: TableSpec, emb: Option<Embedder>, clock: Time, m: Machine, d: Day, i: nat)
    requires Inv(spec, emb, m) && m.worker.Idle? && m.replayer.Off? && Proper(spec, m.log) && Accounted(spec, m)
    requires PutAt(m.log, d, i)
    ensures var k := LineKey(spec, m.log[d][i]);
            k in m.table && Unmarked(m.table[k]) == RowOf(spec, emb, clock, m.log[d][i])
  {
    var k := LineKey(spec, m.log[d][i]);
    assert HasPut(spec, m.log, k) && Fine(spec, m, k);
    assert RowHasLine(spec, emb, m.log, k, m.table[k]);
    var row := m.table[k];
    var j: nat :| PutAt(m.log, row.ds, j) && LineKey(spec, m.log[row.ds][j]) == k &&
      Unmarked(row) == RowOf(spec, emb, "", m.log[row.ds][j]);
    assert d == row.ds && i == j;
    assert m.log[d][i].createdAt != "";
  }

  lemma MarkIsFirst(spec: TableSpec, emb: Option<Embedder>, m: Machine, k: Key)
    requires Inv(spec, emb, m) && m.worker.Idle? && m.replayer.Off? && Proper(spec, m.log) && Accounted(spec, m)
    requires k in m.table
    ensures MarkAgrees(m.log, k, m.table[k]) && exists d: Day, i: nat :: PutAt(m.log, d, i) && LineKey(spec, m.log[d][i]) == k
  {
    var row := m.table[k];
    assert RowHasLine(spec, emb, m.log, k, row) && MarkHasTombstone(m.log, k, row);
    assert !BuriedTwice(m.log, k);
    hide LineKey;
    hide RowOf;
    hide NullLine;
    hide Inv;
    hide Proper;
    hide ToLoad;
    hide ToMark;
    var j: nat :| PutAt(m.log, row.ds, j) && LineKey(spec, m.log[row.ds][j]) == k;
    assert HasPut(spec, m.log, k) && Fine(spec, m, k);
    if row.deletedDs.Some? {
      var i: nat :| TombstoneAt(m.log, row.deletedDs.value, i, k) && row.deletedAt == Some(m.log[row.deletedDs.value][i].deletedAt);
      forall e: Day, h: nat | TombstoneAt(m.log, e, h, k)
        ensures e == row.deletedDs.value && h == i
      {
      }
    } else {
      assert !HasTombstone(m.log, k);
      assert forall d: Day, i: nat :: !TombstoneAt(m.log, d, i, k);
    }
  }

  /**
   * A rebuild that overlaps writes. Begin in any state that the worker, rebuilds and
   * crashes can reach and in which nothing is lost, read the files, and let the rebuild
   * and the worker interleave in any way. When both are done, and no key has been
   * buried twice, the table is the one that the files describe if and only if no key was
   * put twice, none is null, and every move was harmless when it was made.
   */
  lemma OverlapIff(
      spec: TableSpec, emb: Option<Embedder>, clock: Time, before: seq<Move>, m: Machine, snapshot: Log, moves: seq<Move>,
      end: Machine)
    requires Run(spec, emb, START, before) == Some(m) && Accounted(spec, m)
    requires Run(spec, emb, m, [Read(snapshot)] + moves) == Some(end)
    requires forall i :: 0 <= i < |before| ==> ProperMove(spec, before[i])
    requires forall i :: 0 <= i < |moves| ==> ProperMove(spec, moves[i]) && !moves[i].Read?
    requires end.worker.Idle? && end.replayer.Off? && forall k :: !BuriedTwice(end.log, k)
    ensures Rebuilt(spec, emb, clock, end.log) == Some(end.table) <==>
            Loadable(spec, end.log) && HarmlessRun(spec, emb, m, [Read(snapshot)] + moves)
  {
    assert Proper(spec, end.log) <==> Loadable(spec, end.log);
    hide *;
    RebuildSucceedsIffLoadable(spec, emb, clock, end.log);
    ReadAndThen(spec, snapshot, moves);
    StartHolds(spec, emb);
    RunKeepsInv(spec, emb, START, before);
    RunKeepsInv(spec, emb, m, [Read(snapshot)] + moves);
    if Loadable(spec, end.log) {
      HarmlessIff(spec, emb, m, [Read(snapshot)] + moves);
      QuietIff(spec, emb, clock, end);
    }
  }

  lemma ReadAndThen(spec: TableSpec, snapshot: Log, moves: seq<Move>)
    requires forall i :: 0 <= i < |moves| ==> ProperMove(spec, moves[i]) && !moves[i].Read?
    ensures var all := [Read(snapshot)] + moves;
            forall i :: 0 <= i < |all| ==> ProperMove(spec, all[i]) && (i > 0 ==> !all[i].Read?)
  {
    var all: seq<Move> := [Read(snapshot)] + moves;
    assert ProperMove(spec, Read(snapshot));
    hide ProperMove;
    forall i | 0 <= i < |all|
      ensures ProperMove(spec, all[i]) && (i > 0 ==> !all[i].Read?)
    {
      assert all[i] == if i == 0 then Read(snapshot) else moves[i - 1];
    }
  }

  lemma StartHolds(spec: TableSpec, emb: Option<Embedder>)
    ensures Inv(spec, emb, START)
  {
  }

  /** Where it may begin: at rest, with the table that the files describe. */
  lemma AtRestNothingIsLost(spec: TableSpec, emb: Option<Embedder>, clock: Time, m: Machine)
    requires Rebuilt(spec, emb, clock, m.log) == Some(m.table)
    ensures Accounted(spec, m)
  {
    RebuildIffAgree(spec, emb, clock, m.log, m.table);
    hide Rebuilt;
    hide Agree;
    AgreeIsFine(spec, emb, clock, m);
  }

  /**
   * A write that settles between the reading and the clearing of a rebuild disappears:
   * its caller has its result, its row was live, its line is in the files, and the
   * table that the rebuild leaves does not have it until the next rebuild.
   */
  lemma OverlappedWriteDisappears(spec: TableSpec, emb: Option<Embedder>, rec: Record, ds: Day, now: Time, clock: Time)
    requires H.IsRecord(spec, rec) && !NullKey(spec, rec) && now != ""
    ensures var k, moves := KeyOf(spec, rec), [Read(map[]), Take(CommitJob([rec], ds, now)), WriteLine, Settle, Clear, Finish];
            var settled, end := Run(spec, emb, START, moves[..4]), Run(spec, emb, START, moves);
            && (forall i :: 0 <= i < |moves| ==> ProperMove(spec, moves[i]))
            && settled.Some? && k in settled.value.table && Live(settled.value.table[k])
            && end.Some? && end.value.table == map[] && Rebuilt(spec, emb, clock, end.value.log).Some?
            && k in Rebuilt(spec, emb, clock, end.value.log).value
  {
    hide Rebuilt;
    var k, job := KeyOf(spec, rec), CommitJob([rec], ds, now);
    var write: seq<Move> := [Take(job), WriteLine, Settle];
    var moves: seq<Move> := [Read(map[]), Take(job), WriteLine, Settle, Clear, Finish];
    var reading := NothingToReplay(spec, emb);
    var settled := C.CommittedRun(spec, emb, reading, rec, ds, now);
    OneMove(spec, emb, START, Read(map[]));
    C.RunConcat(spec, emb, START, [Read(map[])], write);
    assert moves[..4] == [Read(map[])] + write;
    var cleared := settled.(table := map[]);
    TwoMoves(spec, emb, settled, cleared, cleared.(replayer := Off), Clear, Finish);
    C.RunConcat(spec, emb, START, moves[..4], [Clear, Finish]);
    assert moves == moves[..4] + [Clear, Finish];
    hide Run;
    hide Apply;
    C.OneLineRebuilds(spec, emb, rec, ds, now, clock);
  }

  lemma NothingToReplay(spec: TableSpec, emb: Option<Embedder>) returns (m: Machine)
    ensures Apply(spec, emb, START, Read(map[])) == Some(m)
    ensures m.table == map[] && m.log == map[] && m.worker.Idle? && m.replayer.Replaying?
  {
    m := Apply(spec, emb, START, Read(map[])).value;
  }

  lemma OneMove(spec: TableSpec, emb: Option<Embedder>, m: Machine, move: Move)
    ensures Run(spec, emb, m, [move]) == Apply(spec, emb, m, move)
  {
    assert [move][1..] == [];
    hide Apply;
    match Apply(spec, emb, m, move) {
      case None =>
      case Some(next) => assert Run(spec, emb, next, []) == Some(next);
    }
  }

  lemma TwoMoves(spec: TableSpec, emb: Option<Embedder>, m: Machine, mid: Machine, end: Machine, a: Move, b: Move)
    requires Apply(spec, emb, m, a) == Some(mid) && Apply(spec, emb, mid, b) == Some(end)
    ensures Run(spec, emb, m, [a, b]) == Some(end)
  {
    assert [a, b][1..] == [b];
    hide Apply;
    OneMove(spec, emb, mid, b);
  }
}
