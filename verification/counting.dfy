/**
 * Insertion-ordered counting, the shape of a JavaScript `Map<K, number>` filled
 * one element at a time with `counts.set(k, (counts.get(k) || 0) + 1)`.
 * A JavaScript `Map` iterates its keys in insertion order, so the tally is an
 * association list whose keys appear in order of first occurrence.
 */
module Counting {

  datatype Entry<K> = Entry(key: K, count: nat)

  /** Number of occurrences of `x` in `xs`: the reference the tallies are measured against. */
  function Occurrences<K(==)>(xs: seq<K>, x: K): nat
  {
    if |xs| == 0 then 0
    else Occurrences(xs[..|xs| - 1], x) + (if xs[|xs| - 1] == x then 1 else 0)
  }

  /** Position of the first occurrence of `x` in `xs`. */
  function FirstIndex<K(==)>(xs: seq<K>, x: K): (i: nat)
    requires x in xs
    ensures i < |xs| && xs[i] == x && x !in xs[..i]
  {
    var init := xs[..|xs| - 1];
    if x in init then
      assert xs[..FirstIndex(init, x)] == init[..FirstIndex(init, x)];
      FirstIndex(init, x)
    else
      assert xs[..|xs| - 1] == init;
      |xs| - 1
  }

  predicate KeyIn<K(==)>(t: seq<Entry<K>>, k: K)
  {
    exists i :: 0 <= i < |t| && t[i].key == k
  }

  /** The invariant of a `Map`: no key is stored twice. */
  predicate DistinctKeys<K(==)>(t: seq<Entry<K>>)
  {
    forall i, j :: 0 <= i < j < |t| ==> t[i].key != t[j].key
  }

  /** The count stored for `k`, or 0 when `k` is absent (`counts.get(k) || 0`). */
  function CountOf<K(==)>(t: seq<Entry<K>>, k: K): nat
  {
    if |t| == 0 then 0
    else if t[0].key == k then t[0].count
    else CountOf(t[1..], k)
  }

  /** `counts.set(k, (counts.get(k) || 0) + 1)`: increment in place, or append a new key. */
  function Bump<K(==)>(t: seq<Entry<K>>, k: K): (r: seq<Entry<K>>)
    requires DistinctKeys(t)
    ensures DistinctKeys(r)
    ensures KeyIn(t, k) ==> |r| == |t|
    ensures KeyIn(t, k) ==> forall i :: 0 <= i < |t| ==>
      r[i] == Entry(t[i].key, t[i].count + (if t[i].key == k then 1 else 0))
    ensures !KeyIn(t, k) ==> r == t + [Entry(k, 1)]
  {
    if |t| == 0 then [Entry(k, 1)]
    else if t[0].key == k then
      assert forall i :: 0 < i < |t| ==> t[i].key != k;
      [Entry(k, t[0].count + 1)] + t[1..]
    else
      var rest := Bump(t[1..], k);
      KeyInTail(t, k);
      assert forall i :: 0 < i < |t| ==> ([t[0]] + rest)[i] == rest[i - 1] && t[i] == t[1..][i - 1];
      [t[0]] + rest
  }

  lemma KeyInTail<K>(t: seq<Entry<K>>, k: K)
    requires |t| > 0 && t[0].key != k
    ensures KeyIn(t, k) <==> KeyIn(t[1..], k)
  {
    if KeyIn(t, k) {
      var i :| 0 <= i < |t| && t[i].key == k;
      assert t[1..][i - 1].key == k;
    }
    if KeyIn(t[1..], k) {
      var i :| 0 <= i < |t[1..]| && t[1..][i].key == k;
      assert t[i + 1].key == k;
    }
  }

  /** The tally of `xs`, built by one left-to-right pass as the source's `forEach` does. */
  function Tally<K(==)>(xs: seq<K>): (t: seq<Entry<K>>)
    ensures DistinctKeys(t)
    ensures forall i :: 0 <= i < |t| ==> t[i].count == Occurrences(xs, t[i].key) && t[i].count > 0
    ensures forall i :: 0 <= i < |t| ==> t[i].key in xs
    ensures forall j :: 0 <= j < |xs| ==> KeyIn(t, xs[j])
  {
    if |xs| == 0 then []
    else
      var init := xs[..|xs| - 1];
      assert xs == init + [xs[|xs| - 1]];
      BumpKeeps(Tally(init), init, xs[|xs| - 1]);
      Bump(Tally(init), xs[|xs| - 1])
  }

  /** The three tally invariants besides distinct keys. */
  predicate Tallies<K(==)>(t: seq<Entry<K>>, xs: seq<K>)
  {
    && (forall i :: 0 <= i < |t| ==> t[i].count == Occurrences(xs, t[i].key) && t[i].count > 0)
    && (forall i :: 0 <= i < |t| ==> t[i].key in xs)
    && (forall j :: 0 <= j < |xs| ==> KeyIn(t, xs[j]))
  }

  /** One step of the tally: bumping the last element keeps the three tally invariants. */
  lemma BumpKeeps<K>(t0: seq<Entry<K>>, init: seq<K>, x: K)
    requires DistinctKeys(t0)
    requires forall i :: 0 <= i < |t0| ==> t0[i].count == Occurrences(init, t0[i].key) && t0[i].count > 0
    requires forall i :: 0 <= i < |t0| ==> t0[i].key in init
    requires forall j :: 0 <= j < |init| ==> KeyIn(t0, init[j])
    ensures var t, xs := Bump(t0, x), init + [x];
      && (forall i :: 0 <= i < |t| ==> t[i].count == Occurrences(xs, t[i].key) && t[i].count > 0)
      && (forall i :: 0 <= i < |t| ==> t[i].key in xs)
      && (forall j :: 0 <= j < |xs| ==> KeyIn(t, xs[j]))
  {
    assert Tallies(t0, init);
    if KeyIn(t0, x) {
      BumpKeepsPresent(t0, init, x);
    } else {
      BumpKeepsAbsent(t0, init, x);
    }
    assert Tallies(Bump(t0, x), init + [x]);
  }

  lemma BumpKeepsPresent<K>(t0: seq<Entry<K>>, init: seq<K>, x: K)
    requires DistinctKeys(t0) && Tallies(t0, init) && KeyIn(t0, x)
    ensures Tallies(Bump(t0, x), init + [x])
  {
    var t, xs := Bump(t0, x), init + [x];
    assert xs[..|xs| - 1] == init;
    forall i | 0 <= i < |t| ensures t[i].count == Occurrences(xs, t[i].key) && t[i].count > 0 {
      assert t[i] == Entry(t0[i].key, t0[i].count + (if t0[i].key == x then 1 else 0));
      assert Occurrences(xs, t0[i].key) == Occurrences(init, t0[i].key) + (if x == t0[i].key then 1 else 0);
    }
    forall i | 0 <= i < |t| ensures t[i].key in xs {
      assert t[i].key == t0[i].key && t0[i].key in init;
    }
    forall j | 0 <= j < |xs| ensures KeyIn(t, xs[j]) {
      if j < |init| {
        assert xs[j] == init[j];
        var i :| 0 <= i < |t0| && t0[i].key == xs[j];
        assert t[i].key == xs[j];
      } else {
        var i :| 0 <= i < |t0| && t0[i].key == x;
        assert t[i].key == x;
      }
    }
  }

  lemma BumpKeepsAbsent<K>(t0: seq<Entry<K>>, init: seq<K>, x: K)
    requires DistinctKeys(t0) && Tallies(t0, init) && !KeyIn(t0, x)
    ensures Tallies(Bump(t0, x), init + [x])
  {
    var t, xs := Bump(t0, x), init + [x];
    assert xs[..|xs| - 1] == init;
    forall i | 0 <= i < |t| ensures t[i].key in xs {
      if i < |t0| { assert t[i].key == t0[i].key && t0[i].key in init; }
    }
    forall j | 0 <= j < |xs| ensures KeyIn(t, xs[j]) {
      if j < |init| {
        assert xs[j] == init[j];
        var i :| 0 <= i < |t0| && t0[i].key == xs[j];
        assert t[i].key == xs[j];
      } else {
        assert t[|t0|].key == x;
      }
    }
    forall j | 0 <= j < |init| ensures init[j] != x {
      assert KeyIn(t0, init[j]);
    }
    assert x !in init;
    OccurrencesPositive(init, x);
    assert t[|t0|] == Entry(x, 1);
  }

  /** Sum of the counts of an association list. */
  function SumCounts<K>(t: seq<Entry<K>>): nat
  {
    if |t| == 0 then 0 else t[0].count + SumCounts(t[1..])
  }

  lemma {:induction false} BumpAddsOne<K>(t: seq<Entry<K>>, k: K)
    requires DistinctKeys(t)
    ensures SumCounts(Bump(t, k)) == SumCounts(t) + 1
    decreases |t|
  {
    if |t| == 0 {
    } else if t[0].key == k {
      assert Bump(t, k)[1..] == t[1..];
    } else {
      BumpAddsOne(t[1..], k);
      assert Bump(t, k)[1..] == Bump(t[1..], k);
    }
  }

  /** Every element is counted exactly once: the counts of a tally add up to the length. */
  lemma {:induction false} TallyTotal<K>(xs: seq<K>)
    ensures SumCounts(Tally(xs)) == |xs|
    decreases |xs|
  {
    if |xs| > 0 {
      TallyTotal(xs[..|xs| - 1]);
      BumpAddsOne(Tally(xs[..|xs| - 1]), xs[|xs| - 1]);
    }
  }

  /** The keys of a tally appear in order of their first occurrence in the input. */
  lemma {:induction false} TallyFollowsFirstOccurrence<K>(xs: seq<K>)
    ensures forall i, j :: 0 <= i < j < |Tally(xs)| ==>
      FirstIndex(xs, Tally(xs)[i].key) < FirstIndex(xs, Tally(xs)[j].key)
    decreases |xs|
  {
    if |xs| > 0 {
      var init, x := xs[..|xs| - 1], xs[|xs| - 1];
      assert xs == init + [x];
      var t0 := Tally(init);
      assert Tally(xs) == Bump(t0, x);
      TallyFollowsFirstOccurrence(init);
      forall i, j | 0 <= i < j < |Tally(xs)|
        ensures FirstIndex(xs, Tally(xs)[i].key) < FirstIndex(xs, Tally(xs)[j].key)
      {
        OrderStep(init, x, t0, i, j);
      }
    }
  }

  /** Bumping the next element keeps the keys in order of first occurrence. */
  lemma OrderStep<K>(init: seq<K>, x: K, t0: seq<Entry<K>>, i: nat, j: nat)
    requires DistinctKeys(t0)
    requires forall k :: 0 <= k < |t0| ==> t0[k].key in init
    requires forall k :: 0 <= k < |init| ==> KeyIn(t0, init[k])
    requires forall k, l :: 0 <= k < l < |t0| ==> FirstIndex(init, t0[k].key) < FirstIndex(init, t0[l].key)
    requires i < j < |Bump(t0, x)|
    ensures Bump(t0, x)[i].key in init + [x] && Bump(t0, x)[j].key in init + [x]
    ensures FirstIndex(init + [x], Bump(t0, x)[i].key) < FirstIndex(init + [x], Bump(t0, x)[j].key)
  {
    var t := Bump(t0, x);
    assert t[i].key == t0[i].key;
    FirstIndexSnoc(init, x, t0[i].key);
    if KeyIn(t0, x) || j < |t0| {
      assert t[j].key == t0[j].key;
      FirstIndexSnoc(init, x, t0[j].key);
    } else {
      assert t[j].key == x;
      assert x !in init;
      assert (init + [x])[|init|] == x && x !in (init + [x])[..|init|];
    }
  }

  lemma FirstIndexSnoc<K>(init: seq<K>, x: K, y: K)
    requires y in init
    ensures FirstIndex(init + [x], y) == FirstIndex(init, y)
  {
    assert (init + [x])[..|init|] == init;
  }

  /** Occurrences distribute over concatenation. */
  lemma {:induction false} OccurrencesAppend<K>(xs: seq<K>, ys: seq<K>, x: K)
    ensures Occurrences(xs + ys, x) == Occurrences(xs, x) + Occurrences(ys, x)
    decreases |ys|
  {
    if |ys| > 0 {
      assert (xs + ys)[..|xs + ys| - 1] == xs + ys[..|ys| - 1];
      OccurrencesAppend(xs, ys[..|ys| - 1], x);
    } else {
      assert xs + ys == xs;
    }
  }

  /** A count is positive exactly when the element occurs. */
  lemma {:induction false} OccurrencesPositive<K>(xs: seq<K>, x: K)
    ensures Occurrences(xs, x) > 0 <==> x in xs
    decreases |xs|
  {
    if |xs| > 0 {
      OccurrencesPositive(xs[..|xs| - 1], x);
      assert xs == xs[..|xs| - 1] + [xs[|xs| - 1]];
    }
  }

  /** Looking a key up in a tally yields its number of occurrences, and 0 for absent keys. */
  lemma {:induction false} CountOfTally<K>(xs: seq<K>, x: K)
    ensures CountOf(Tally(xs), x) == Occurrences(xs, x)
  {
    var t := Tally(xs);
    if x in xs {
      var i :| 0 <= i < |t| && t[i].key == x;
      CountOfAt(t, i);
    } else {
      OccurrencesPositive(xs, x);
      CountOfAbsent(t, x);
    }
  }

  lemma {:induction false} CountOfAt<K>(t: seq<Entry<K>>, i: nat)
    requires DistinctKeys(t) && i < |t|
    ensures CountOf(t, t[i].key) == t[i].count
    decreases i
  {
    if i > 0 {
      CountOfAt(t[1..], i - 1);
    }
  }

  lemma {:induction false} CountOfAbsent<K>(t: seq<Entry<K>>, k: K)
    requires !KeyIn(t, k)
    ensures CountOf(t, k) == 0
    decreases |t|
  {
    if |t| > 0 {
      assert t[0].key != k;
      forall i | 0 <= i < |t[1..]| ensures t[1..][i].key != k {
        assert t[1..][i] == t[i + 1];
      }
      CountOfAbsent(t[1..], k);
    }
  }

  /** Nothing occurs more often than the sequence is long. */
  lemma {:induction false} OccurrencesAtMostLength<K>(xs: seq<K>, x: K)
    ensures Occurrences(xs, x) <= |xs|
    decreases |xs|
  {
    if |xs| > 0 {
      OccurrencesAtMostLength(xs[..|xs| - 1], x);
    }
  }

  /** Tallying one more item bumps its count. */
  lemma TallySnoc<K>(xs: seq<K>, x: K)
    ensures Tally(xs + [x]) == Bump(Tally(xs), x)
  {
    assert (xs + [x])[..|xs|] == xs;
  }

  /** An item has an entry in the tally exactly when it occurs. */
  lemma KeyInTallyIff<K>(xs: seq<K>, a: K)
    ensures KeyIn(Tally(xs), a) <==> a in xs
  {
    if a in xs {
      var j :| 0 <= j < |xs| && xs[j] == a;
    }
    if KeyIn(Tally(xs), a) {
      var i :| 0 <= i < |Tally(xs)| && Tally(xs)[i].key == a;
    }
  }

  /** Bumping leaves every existing entry at its place. */
  lemma BumpKeepsKey<K>(t: seq<Entry<K>>, k: K, i: nat)
    requires DistinctKeys(t) && i < |t|
    ensures i < |Bump(t, k)| && Bump(t, k)[i].key == t[i].key
  {
  }

  /** Bumping adds at most one entry, at the end, for the bumped key. */
  lemma BumpAppends<K>(t: seq<Entry<K>>, k: K)
    requires DistinctKeys(t)
    ensures |Bump(t, k)| <= |t| + 1
    ensures |Bump(t, k)| == |t| + 1 ==> Bump(t, k)[|t|].key == k
  {
  }
}
