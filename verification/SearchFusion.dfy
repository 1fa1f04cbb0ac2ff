/**
 * Hybrid search: two ranked candidate arms, fused by reciprocal rank, and joined with
 * the rows visible in a window. An arm is the list of keys that the engine returns;
 * ties may fall either way.
 */
module SearchFusion {
  import opened Prelude
  import opened Embedding
  import opened Store

  const K0 := 60
  const OVERFETCH := 4

  type Arm = seq<Key>

  /** A window of the time machine. */
  datatype Window = Window(dsStart: Option<Day>, dsEnd: Option<Day>)

  function VisibleKeys(table: Table, w: Window): set<Key> {
    set k | k in table && VisibleAt(table[k], w.dsStart, w.dsEnd)
  }

  function WithVector(table: Table, c: Column): set<Key> {
    set k | k in table && c in table[k].index.vecs && table[k].index.vecs[c].Some?
  }

  function Least(a: nat, b: nat): nat {
    if a <= b then a else b
  }

  /** An arm has as many of the eligible keys as fit, each once. */
  predicate ArmOf(arm: Arm, eligible: set<Key>, limit: nat) {
    Distinct(arm) && ElementsOf(arm) <= eligible && |arm| == Least(limit, |eligible|)
  }

  // ------------------------------------------------------- reciprocal rank fusion

  /** `row_number`, when the arm has the key. */
  function Rank(arm: Arm, k: Key): (rank: Option<nat>)
    ensures rank.Some? <==> k in arm
    ensures rank.Some? ==> 1 <= rank.value <= |arm| && arm[rank.value - 1] == k
  {
    if arm == [] then None
    else if arm[0] == k then Some(1)
    else match Rank(arm[1..], k)
      case None => None
      case Some(r) => Some(r + 1)
  }

  function Part(rank: Option<nat>): real {
    match rank
    case None => 0.0
    case Some(r) => 1.0 / ((K0 + r) as real)
  }

  function Score(v: Arm, f: Arm, k: Key): real {
    Part(Rank(v, k)) + Part(Rank(f, k))
  }

  /** The full outer join of the arms. */
  function Fused(v: Arm, f: Arm): set<Key> {
    ElementsOf(v) + ElementsOf(f)
  }

  /** ORDER BY score DESC LIMIT n: the best `n` keys, best first. */
  ghost predicate IsTop(out: seq<Key>, keys: set<Key>, v: Arm, f: Arm, n: nat) {
    && Distinct(out) && ElementsOf(out) <= keys && |out| == Least(n, |keys|)
    && (forall i, j :: 0 <= i < j < |out| ==> Score(v, f, out[i]) >= Score(v, f, out[j]))
    && (forall x, i :: x in keys && x !in out && 0 <= i < |out| ==> Score(v, f, out[i]) >= Score(v, f, x))
  }

  /** The candidates that each arm of the in-table backend may return. */
  function VssLimit(w: Window, n: nat): nat {
    if w.dsEnd.Some? then n * OVERFETCH else n
  }

  /** The in-table backend: both arms filter by the window, the fusion is cut to `n`,
      and the join with the visible rows comes last. */
  ghost predicate VssSearch(table: Table, c: Column, w: Window, n: nat, v: Arm, f: Arm, hits: seq<Key>, out: set<Key>) {
    && ArmOf(v, WithVector(table, c) * VisibleKeys(table, w), VssLimit(w, n))
    && Distinct(f) && ElementsOf(f) <= VisibleKeys(table, w) && |f| <= VssLimit(w, n)
    && IsTop(hits, Fused(v, f), v, f, n)
    && out == ElementsOf(hits) * VisibleKeys(table, w)
  }

  /** The side-dataset backend: the arms know nothing of the window, so the join comes
      first and the cut last. */
  ghost predicate LanceSearch(table: Table, dataset: set<Key>, w: Window, n: nat, v: Arm, f: Arm, out: seq<Key>) {
    && ArmOf(v, dataset, n * OVERFETCH)
    && Distinct(f) && |f| <= n * OVERFETCH
    && IsTop(out, Fused(v, f) * VisibleKeys(table, w), v, f, n)
  }

  // --------------------------------------------------------------------- scores

  lemma PartBounds(rank: Option<nat>)
    requires rank.Some? ==> rank.value >= 1
    ensures 0.0 <= Part(rank) <= 1.0 / 61.0
    ensures rank.Some? ==> Part(rank) > 0.0
  {
    if rank.Some? {
      Reciprocal(61.0, (K0 + rank.value) as real);
    }
  }

  lemma Reciprocal(x: real, y: real)
    requires 0.0 < x <= y
    ensures 0.0 < 1.0 / y <= 1.0 / x
  {
  }

  /** The score of every fused key lies in (0, 2/61]. */
  lemma ScoreBounds(v: Arm, f: Arm, k: Key)
    requires k in Fused(v, f)
    ensures 0.0 < Score(v, f, k) <= 2.0 / 61.0
  {
    PartBounds(Rank(v, k));
    PartBounds(Rank(f, k));
  }

  /** Ranked no worse: the arm that has `b` has `a` too, at least as high. */
  predicate NoWorse(a: Option<nat>, b: Option<nat>) {
    b.Some? ==> a.Some? && a.value <= b.value
  }

  lemma PartMonotone(a: Option<nat>, b: Option<nat>)
    requires NoWorse(a, b)
    ensures Part(a) >= Part(b)
  {
    if b.Some? {
      Reciprocal((K0 + a.value) as real, (K0 + b.value) as real);
    } else if a.Some? {
      Reciprocal(1.0, (K0 + a.value) as real);
    }
  }

  /** A row ranked no worse in both arms never scores lower. */
  lemma ScoreMonotone(v: Arm, f: Arm, a: Key, b: Key)
    requires NoWorse(Rank(v, a), Rank(v, b)) && NoWorse(Rank(f, a), Rank(f, b))
    ensures Score(v, f, a) >= Score(v, f, b)
  {
    PartMonotone(Rank(v, a), Rank(v, b));
    PartMonotone(Rank(f, a), Rank(f, b));
  }

  // --------------------------------------------------------------------- counts

  lemma SubsetCount(a: set<Key>, b: set<Key>)
    requires a <= b
    ensures |a| <= |b|
  {
    assert b == a + (b - a);
  }

  /** The in-table backend: at most `n` rows, all visible; the join drops no fused hit,
      and with exact arms the result is as full as the visible vectors allow. */
  lemma VssDropsNothing(table: Table, c: Column, w: Window, n: nat, v: Arm, f: Arm, hits: seq<Key>, out: set<Key>)
    requires VssSearch(table, c, w, n, v, f, hits, out)
    ensures out == ElementsOf(hits) && out <= VisibleKeys(table, w)
    ensures |out| == |hits| <= n
    ensures |out| >= Least(n, |WithVector(table, c) * VisibleKeys(table, w)|)
  {
    assert ElementsOf(hits) <= Fused(v, f) <= VisibleKeys(table, w);
    CountDistinct(hits, ElementsOf(hits));
    CountDistinct(v, ElementsOf(v));
    SubsetCount(ElementsOf(v), Fused(v, f));
  }

  /** The side-dataset backend: at most `n` rows, all visible, each once; and at least
      `min(n, visible rows with a vector)` whenever at most `3n` rows of the dataset lie
      outside the window. */
  lemma LanceFillsUp(table: Table, dataset: set<Key>, w: Window, n: nat, v: Arm, f: Arm, out: seq<Key>)
    requires LanceSearch(table, dataset, w, n, v, f, out)
    ensures |out| <= n && Distinct(out) && ElementsOf(out) <= VisibleKeys(table, w)
    ensures |dataset - VisibleKeys(table, w)| <= 3 * n ==> |out| >= Least(n, |dataset * VisibleKeys(table, w)|)
  {
    var visible := VisibleKeys(table, w);
    hide VisibleKeys;
    CountDistinct(v, ElementsOf(v));
    VisibleShare(ElementsOf(v), dataset, visible, n);
    SubsetCount(ElementsOf(v) * visible, Fused(v, f) * visible);
  }

  lemma VisibleShare(arm: set<Key>, dataset: set<Key>, visible: set<Key>, n: nat)
    requires arm <= dataset && |arm| == Least(n * OVERFETCH, |dataset|)
    ensures |dataset - visible| <= 3 * n ==> |arm * visible| >= Least(n, |dataset * visible|)
  {
    if |dataset| <= n * OVERFETCH {
      SameSet(arm, dataset);
    } else {
      SubsetCount(arm - visible, dataset - visible);
      assert arm == arm * visible + (arm - visible);
    }
  }

  lemma SameSet(a: set<Key>, b: set<Key>)
    requires a <= b && |a| == |b|
    ensures a == b
  {
    assert b == a + (b - a);
  }

  // --------------------------------------------- the over-fetch is exactly enough

  lemma {:induction false} SomeOf(s: set<Key>, n: nat) returns (some: seq<Key>)
    requires n <= |s|
    ensures Distinct(some) && ElementsOf(some) <= s && |some| == n
    decreases n
  {
    if n == 0 {
      some := [];
      assert ElementsOf(some) == {};
    } else {
      var x :| x in s;
      var rest := SomeOf(s - {x}, n - 1);
      assert x !in ElementsOf(rest);
      some := [x] + rest;
      assert forall i :: 0 <= i < |rest| ==> rest[i] in ElementsOf(rest);
      assert ElementsOf(some) == {x} + ElementsOf(rest);
    }
  }

  /** One hidden row more is too many: with `3n + 1` rows of the dataset outside the
      window, and however many inside, the nearest `4n` may leave fewer than `n`. */
  lemma OneMoreIsTooMany(table: Table, dataset: set<Key>, w: Window, n: nat) returns (v: Arm)
    requires |dataset - VisibleKeys(table, w)| > 3 * n && |dataset * VisibleKeys(table, w)| >= n > 0
    ensures ArmOf(v, dataset, n * OVERFETCH)
    ensures forall out :: LanceSearch(table, dataset, w, n, v, [], out) ==>
      |out| < Least(n, |dataset * VisibleKeys(table, w)|)
  {
    var visible := VisibleKeys(table, w);
    var hidden := SomeOf(dataset - visible, 3 * n + 1);
    var seen := SomeOf(dataset * visible, n - 1);
    v := hidden + seen;
    assert ElementsOf(v) == ElementsOf(hidden) + ElementsOf(seen);
    assert Distinct(v) by {
      forall i, j | 0 <= i < j < |v|
        ensures v[i] != v[j]
      {
        if i < |hidden| <= j {
          assert hidden[i] in ElementsOf(hidden) && seen[j - |hidden|] in ElementsOf(seen);
        }
      }
    }
    assert dataset == (dataset - visible) + dataset * visible;
    assert Fused(v, []) * visible == ElementsOf(seen) by {
      assert ElementsOf<Key>([]) == {};
    }
    CountDistinct(seen, ElementsOf(seen));
  }
}
