/**
 * The split search of src/ai/ml/random-forest-model.ts (`findBestSplit`):
 * a random 3-of-7 feature subset, midpoint thresholds between consecutive
 * distinct values, and the first candidate of least weighted Gini score.
 */
module Splitting {
  import opened Wrappers
  import opened Features
  import opened Impurity

  datatype Split = Split(feature: Feature, threshold: real)

  /** `Math.ceil(Math.sqrt(numericFeatures.length))` for seven features. */
  const SubsetSize: nat := 3

  /** 3 is the ceiling of the square root of 7: 2 * 2 < 7 <= 3 * 3. */
  lemma SubsetSizeIsCeilSqrt()
    ensures (SubsetSize - 1) * (SubsetSize - 1) < |NumericFeatures| <= SubsetSize * SubsetSize
  {
  }

  /** `order` lists each of the seven numeric features exactly once. */
  predicate IsOrdering(order: seq<Feature>)
  {
    && |order| == |NumericFeatures|
    && (forall i, j :: 0 <= i < j < |order| ==> order[i] != order[j])
  }

  /**
   * `numericFeatures.sort(random).slice(0, 3)`: the first three features of the
   * shuffled order. The shuffle itself is the caller's `order`.
   */
  function SelectFeatures(order: seq<Feature>): (sel: seq<Feature>)
    ensures |sel| <= SubsetSize
    ensures |order| >= SubsetSize ==> sel == order[..SubsetSize]
    ensures |order| < SubsetSize ==> sel == order
  {
    if |order| <= SubsetSize then order else order[..SubsetSize]
  }

  /** From a shuffle of the seven features, three distinct features are chosen. */
  lemma SelectionIsThreeDistinct(order: seq<Feature>)
    requires IsOrdering(order)
    ensures |SelectFeatures(order)| == SubsetSize
    ensures forall i, j :: 0 <= i < j < SubsetSize ==> SelectFeatures(order)[i] != SelectFeatures(order)[j]
  {
  }

  // ---- sorted distinct values (`[...new Set(values.sort((a, b) => a - b))]`) ----

  predicate StrictlyIncreasing(u: seq<real>)
  {
    forall i, j :: 0 <= i < j < |u| ==> u[i] < u[j]
  }

  function InsertSorted(u: seq<real>, x: real): (r: seq<real>)
    requires StrictlyIncreasing(u)
    ensures StrictlyIncreasing(r)
    ensures forall v :: v in r <==> v in u || v == x
  {
    if |u| == 0 then [x]
    else if x < u[0] then [x] + u
    else if x == u[0] then u
    else
      var rest := InsertSorted(u[1..], x);
      assert forall v :: v in u <==> v == u[0] || v in u[1..] by {
        assert u == [u[0]] + u[1..];
      }
      assert forall i :: 0 <= i < |rest| ==> u[0] < rest[i] by {
        forall i | 0 <= i < |rest| ensures u[0] < rest[i] {
          assert rest[i] in rest;
        }
      }
      [u[0]] + rest
  }

  /** The distinct values of `xs` in increasing order. */
  function SortedDistinct(xs: seq<real>): (u: seq<real>)
    ensures StrictlyIncreasing(u)
    ensures forall v :: v in u <==> v in xs
  {
    if |xs| == 0 then []
    else
      var init := xs[..|xs| - 1];
      assert xs == init + [xs[|xs| - 1]];
      InsertSorted(SortedDistinct(init), xs[|xs| - 1])
  }

  /** The midpoints of consecutive elements. */
  function Midpoints(u: seq<real>): (m: seq<real>)
    ensures |m| == if |u| == 0 then 0 else |u| - 1
    ensures forall i :: 0 <= i < |m| ==> m[i] == (u[i] + u[i + 1]) / 2.0
  {
    if |u| == 0 then [] else seq(|u| - 1, i requires 0 <= i < |u| - 1 => (u[i] + u[i + 1]) / 2.0)
  }

  /** The thresholds tried for one feature, in increasing order. */
  function Thresholds(data: seq<Sample>, f: Feature): (ts: seq<real>)
  {
    Midpoints(SortedDistinct(Values(data, f)))
  }

  /** No observed value of `f` lies strictly between `a` and `b`. */
  predicate NothingBetween(data: seq<Sample>, f: Feature, a: real, b: real)
  {
    forall i :: 0 <= i < |data| ==> Value(data[i].features, f) <= a || b <= Value(data[i].features, f)
  }

  /** No element of an increasing sequence falls strictly between two neighbours. */
  lemma SortedGap(u: seq<real>, i: nat, v: real)
    requires StrictlyIncreasing(u) && i + 1 < |u| && v in u
    ensures v <= u[i] || u[i + 1] <= v
  {
    var j :| 0 <= j < |u| && u[j] == v;
    if j > i {
      assert u[i + 1] <= u[j];
    }
  }

  /** Every threshold is the midpoint of two observed values with nothing observed between them. */
  lemma ThresholdIsGapMidpoint(data: seq<Sample>, f: Feature, t: real)
    requires t in Thresholds(data, f)
    ensures exists a, b ::
      (a in Values(data, f) && b in Values(data, f) && a < b && t == (a + b) / 2.0
       && NothingBetween(data, f, a, b))
  {
    var vs := Values(data, f);
    var u := SortedDistinct(vs);
    var ts := Thresholds(data, f);
    var i :| 0 <= i < |ts| && ts[i] == t;
    var a, b := u[i], u[i + 1];
    assert a in vs && b in vs;
    forall k | 0 <= k < |data|
      ensures Value(data[k].features, f) <= a || b <= Value(data[k].features, f)
    {
      assert vs[k] in u;
      SortedGap(u, i, vs[k]);
    }
    assert NothingBetween(data, f, a, b);
  }

  /** Conversely, every midpoint of two observed values with nothing observed between them is a threshold. */
  lemma GapMidpointIsThreshold(data: seq<Sample>, f: Feature, a: real, b: real)
    requires a in Values(data, f) && b in Values(data, f) && a < b
    requires NothingBetween(data, f, a, b)
    ensures (a + b) / 2.0 in Thresholds(data, f)
  {
    var vs := Values(data, f);
    var u := SortedDistinct(vs);
    var i :| 0 <= i < |u| && u[i] == a;
    var j :| 0 <= j < |u| && u[j] == b;
    assert i < j;
    var w := u[i + 1];
    assert w in vs;
    var k :| 0 <= k < |vs| && vs[k] == w;
    assert Value(data[k].features, f) == w && a < w;
    assert b <= w;
    assert j == i + 1;
    assert Thresholds(data, f)[i] == (a + b) / 2.0;
  }

  /** All samples share one value of `f`. */
  predicate Constant(data: seq<Sample>, f: Feature)
  {
    forall i, j :: 0 <= i < |data| && 0 <= j < |data| ==>
      Value(data[i].features, f) == Value(data[j].features, f)
  }

  /** A feature offers no threshold exactly when it is constant on the data. */
  lemma NoThresholdIffConstant(data: seq<Sample>, f: Feature)
    ensures |Thresholds(data, f)| == 0 <==> Constant(data, f)
  {
    var vs := Values(data, f);
    var u := SortedDistinct(vs);
    if |u| >= 2 {
      assert u[0] in vs && u[1] in vs;
      var i :| 0 <= i < |vs| && vs[i] == u[0];
      var j :| 0 <= j < |vs| && vs[j] == u[1];
      assert Value(data[i].features, f) != Value(data[j].features, f);
    } else {
      forall i, j | 0 <= i < |data| && 0 <= j < |data|
        ensures Value(data[i].features, f) == Value(data[j].features, f)
      {
        assert vs[i] in u && vs[j] in u;
      }
    }
  }

  // ---- candidates and the best split ----

  function FeatureCandidates(data: seq<Sample>, f: Feature): (cs: seq<Split>)
    ensures |cs| == |Thresholds(data, f)|
    ensures forall i :: 0 <= i < |cs| ==> cs[i] == Split(f, Thresholds(data, f)[i])
  {
    var ts := Thresholds(data, f);
    seq(|ts|, i requires 0 <= i < |ts| => Split(f, ts[i]))
  }

  /** Every (feature, threshold) pair examined, feature-major in selection order. */
  function Candidates(data: seq<Sample>, sel: seq<Feature>): (cs: seq<Split>)
    ensures forall i :: 0 <= i < |cs| ==>
      cs[i].feature in sel && cs[i].threshold in Thresholds(data, cs[i].feature)
    ensures |cs| == 0 <==> forall i :: 0 <= i < |sel| ==> |Thresholds(data, sel[i])| == 0
  {
    if |sel| == 0 then []
    else
      var head, rest := FeatureCandidates(data, sel[0]), Candidates(data, sel[1..]);
      assert forall i :: 0 <= i < |rest| ==> rest[i] == (head + rest)[|head| + i];
      assert forall i :: 1 <= i < |sel| ==> sel[i] == sel[1..][i - 1];
      head + rest
  }

  /** `calculateGini(data, c.feature, c.threshold)`. */
  function Score(data: seq<Sample>, c: Split): real
    requires |data| > 0
  {
    SplitScore(data, c.feature, c.threshold)
  }

  /** `xs[k]` is least, and every earlier element is strictly greater. */
  predicate FirstMinimalAt(xs: seq<real>, k: nat)
  {
    && k < |xs|
    && (forall j :: 0 <= j < |xs| ==> xs[k] <= xs[j])
    && (forall j :: 0 <= j < k ==> xs[k] < xs[j])
  }

  /** Where a left-to-right scan that replaces its best only on `<` ends. */
  function FirstArgMin(xs: seq<real>): (k: nat)
    requires |xs| > 0
    ensures FirstMinimalAt(xs, k)
  {
    if |xs| == 1 then 0
    else
      var prev := FirstArgMin(xs[..|xs| - 1]);
      if xs[|xs| - 1] < xs[prev] then |xs| - 1 else prev
  }

  /** The score of each candidate, in candidate order. */
  function Scores(data: seq<Sample>, cs: seq<Split>): (sc: seq<real>)
    requires |data| > 0
    ensures |sc| == |cs|
    ensures forall i :: 0 <= i < |cs| ==> sc[i] == Score(data, cs[i])
  {
    seq(|cs|, i requires 0 <= i < |cs| => Score(data, cs[i]))
  }

  /** `s` is a candidate of least score, and no earlier candidate scores as little. */
  predicate FirstBest(data: seq<Sample>, cs: seq<Split>, s: Split)
    requires |data| > 0
  {
    exists k: nat | k < |cs| :: FirstMinimalAt(Scores(data, cs), k) && cs[k] == s
  }

  /**
   * The loop over the candidates: the first candidate of least score, or none
   * when there are no candidates.
   */
  function BestSplit(data: seq<Sample>, cs: seq<Split>): (best: Option<Split>)
    requires |data| > 0
    ensures best.None? <==> |cs| == 0
    ensures best.Some? ==> best.value in cs && FirstBest(data, cs, best.value)
  {
    if |cs| == 0 then None
    else
      var k := FirstArgMin(Scores(data, cs));
      Some(cs[k])
  }

  /** Every feature of `sel` takes a single value on the data. */
  predicate AllConstant(data: seq<Sample>, sel: seq<Feature>)
  {
    forall f :: f in sel ==> Constant(data, f)
  }

  /**
   * `findBestSplit`: the best candidate among the thresholds of the three
   * features selected from `order`. None is found exactly when every selected
   * feature is constant on the data; a split found uses a selected feature and
   * one of its midpoint thresholds, and is the first candidate of least score.
   */
  function FindBestSplit(data: seq<Sample>, order: seq<Feature>): (best: Option<Split>)
    ensures best.None? <==> AllConstant(data, SelectFeatures(order))
    ensures best.Some? ==>
      && |data| > 0
      && best.value.feature in SelectFeatures(order)
      && best.value.threshold in Thresholds(data, best.value.feature)
      && FirstBest(data, Candidates(data, SelectFeatures(order)), best.value)
  {
    var sel := SelectFeatures(order);
    var cs := Candidates(data, sel);
    ConstantIffNoThresholds(data, sel);
    if |cs| == 0 then None
    else
      assert |data| > 0 by {
        assert |Thresholds(data, cs[0].feature)| > 0;
      }
      CandidateFacts(data, sel, BestSplit(data, cs).value);
      BestSplit(data, cs)
  }

  lemma ConstantIffNoThresholds(data: seq<Sample>, sel: seq<Feature>)
    ensures AllConstant(data, sel) <==> forall f :: f in sel ==> |Thresholds(data, f)| == 0
  {
    forall f | f in sel ensures |Thresholds(data, f)| == 0 <==> Constant(data, f) {
      NoThresholdIffConstant(data, f);
    }
  }

  lemma CandidateFacts(data: seq<Sample>, sel: seq<Feature>, c: Split)
    requires c in Candidates(data, sel)
    ensures c.feature in sel && c.threshold in Thresholds(data, c.feature)
  {
    var cs := Candidates(data, sel);
    var i :| 0 <= i < |cs| && cs[i] == c;
  }

  /** A threshold leaves at least one sample on each side. */
  lemma ThresholdSeparates(data: seq<Sample>, f: Feature, t: real)
    requires t in Thresholds(data, f)
    ensures |Side(data, f, t, true)| > 0 && |Side(data, f, t, false)| > 0
  {
    ThresholdIsGapMidpoint(data, f, t);
    var a, b :| a in Values(data, f) && b in Values(data, f) && a < b && t == (a + b) / 2.0
      && NothingBetween(data, f, a, b);
    var i :| 0 <= i < |data| && Values(data, f)[i] == a;
    var j :| 0 <= j < |data| && Values(data, f)[j] == b;
    SideContains(data, f, t, i);
    SideContains(data, f, t, j);
  }

  /**
   * The chosen split separates the data: both sides are non-empty, so the
   * `leftData.length === 0 || rightData.length === 0` fallback never fires.
   */
  lemma SplitSeparates(data: seq<Sample>, order: seq<Feature>)
    requires FindBestSplit(data, order).Some?
    ensures var s := FindBestSplit(data, order).value;
      |Side(data, s.feature, s.threshold, true)| > 0 && |Side(data, s.feature, s.threshold, false)| > 0
  {
    var s := FindBestSplit(data, order).value;
    ThresholdSeparates(data, s.feature, s.threshold);
  }
}
