/**
 * Partitioning a data set at a threshold (`evaluateSplit`) and the Gini
 * impurity measures (`giniImpurity`, `calculateGini`) of
 * src/ai/ml/random-forest-model.ts.
 */
module Impurity {
  import opened Features
  import opened Counting
  import opened Arith

  /** `evaluateSplit(..., isLeft = true)`: a sample goes left when its value is at most the threshold. */
  predicate GoesLeft(x: CropFeatures, f: Feature, t: real)
  {
    Value(x, f) <= t
  }

  /**
   * `data.filter(d => evaluateSplit(d.features, f, t, left))`: the left side
   * (`value <= t`) when `left`, the right side (`value > t`) otherwise.
   */
  function Side(data: seq<Sample>, f: Feature, t: real, left: bool): (r: seq<Sample>)
    ensures |r| <= |data|
    ensures forall i :: 0 <= i < |r| ==> r[i] in data && GoesLeft(r[i].features, f, t) == left
  {
    if |data| == 0 then []
    else
      var d := data[|data| - 1];
      var rest := Side(data[..|data| - 1], f, t, left);
      if GoesLeft(d.features, f, t) == left then rest + [d] else rest
  }

  /** Every sample lands on exactly one side: the two sides partition the data. */
  lemma {:induction false} PartitionExact(data: seq<Sample>, f: Feature, t: real)
    ensures multiset(Side(data, f, t, true)) + multiset(Side(data, f, t, false)) == multiset(data)
    ensures |Side(data, f, t, true)| + |Side(data, f, t, false)| == |data|
  {
    if |data| > 0 {
      var init, d := data[..|data| - 1], data[|data| - 1];
      PartitionExact(init, f, t);
      assert data == init + [d];
      assert multiset(data) == multiset(init) + multiset{d};
      var l0, r0 := Side(init, f, t, true), Side(init, f, t, false);
      if GoesLeft(d.features, f, t) {
        assert Side(data, f, t, true) == l0 + [d];
        assert multiset(l0 + [d]) == multiset(l0) + multiset{d};
        assert Side(data, f, t, false) == r0;
      } else {
        assert Side(data, f, t, true) == l0;
        assert Side(data, f, t, false) == r0 + [d];
        assert multiset(r0 + [d]) == multiset(r0) + multiset{d};
      }
    }
    assert |multiset(Side(data, f, t, true))| == |Side(data, f, t, true)|;
    assert |multiset(Side(data, f, t, false))| == |Side(data, f, t, false)|;
  }

  lemma PartitionSizes(data: seq<Sample>, f: Feature, t: real)
    ensures |Side(data, f, t, true)| + |Side(data, f, t, false)| == |data|
  {
    PartitionExact(data, f, t);
  }

  /** A sample whose value is at most the threshold is on the left side. */
  lemma {:induction false} SideContains(data: seq<Sample>, f: Feature, t: real, i: nat)
    requires i < |data|
    ensures data[i] in Side(data, f, t, GoesLeft(data[i].features, f, t))
  {
    var left := GoesLeft(data[i].features, f, t);
    if i < |data| - 1 {
      SideContains(data[..|data| - 1], f, t, i);
    }
  }

  /** All samples carry one label (vacuously true of the empty set). */
  predicate SingleLabel(data: seq<Sample>)
  {
    forall i, j :: 0 <= i < |data| && 0 <= j < |data| ==> data[i].crop == data[j].crop
  }

  /** Sum of the squared counts. */
  function SumSquares(t: seq<Entry<string>>): nat
  {
    if |t| == 0 then 0 else t[0].count * t[0].count + SumSquares(t[1..])
  }

  /** The sum of `prob * prob` over the label counts, `prob = count / n`. */
  function SharesSquared(t: seq<Entry<string>>, n: real): real
    requires n > 0.0
  {
    if |t| == 0 then 0.0 else (t[0].count as real / n) * (t[0].count as real / n) + SharesSquared(t[1..], n)
  }

  /**
   * `giniImpurity`: one minus the sum of the squared label shares, 0 for the
   * empty set. It lies in [0, 1) and is 0 exactly when one label is present.
   */
  function GiniImpurity(data: seq<Sample>): (g: real)
    ensures 0.0 <= g < 1.0
    ensures g == 0.0 <==> SingleLabel(data)
  {
    if |data| == 0 then 0.0
    else
      GiniBounds(data);
      1.0 - SharesSquared(Tally(Labels(data)), |data| as real)
  }

  lemma {:induction false} SharesSquaredIsRatio(t: seq<Entry<string>>, n: nat)
    requires n > 0
    ensures SharesSquared(t, n as real) == SumSquares(t) as real / (n * n) as real
  {
    if |t| > 0 {
      SharesSquaredIsRatio(t[1..], n);
      var c := t[0].count;
      DivProd(c as real, c as real, n as real, n as real);
      IntMulReal(c, c);
      IntMulReal(n, n);
      AddRatios((c * c) as real, SumSquares(t[1..]) as real, (n * n) as real);
    }
  }

  predicate PositiveCounts(t: seq<Entry<string>>)
  {
    forall i :: 0 <= i < |t| ==> t[i].count > 0
  }

  /** The squares never exceed the square of the sum; with two or more positive counts they fall short. */
  lemma {:induction false} SquaresVersusSum(t: seq<Entry<string>>)
    requires PositiveCounts(t)
    ensures SumSquares(t) <= SumCounts(t) * SumCounts(t)
    ensures |t| >= 2 ==> SumSquares(t) < SumCounts(t) * SumCounts(t)
    ensures |t| >= 1 ==> SumSquares(t) >= 1
    ensures |t| >= 1 ==> SumCounts(t) >= 1
  {
    if |t| > 0 {
      var a, rest := t[0].count, t[1..];
      SquaresVersusSum(rest);
      var r := SumCounts(rest);
      assert (a + r) * (a + r) == a * a + 2 * a * r + r * r;
      assert a * a >= 1;
      if |t| >= 2 {
        assert r >= 1;
        assert a * r >= 1;
      }
    }
  }

  lemma GiniBounds(data: seq<Sample>)
    requires |data| > 0
    ensures var g := 1.0 - SharesSquared(Tally(Labels(data)), |data| as real);
      0.0 <= g < 1.0 && (g == 0.0 <==> SingleLabel(data))
  {
    var ls := Labels(data);
    var t := Tally(ls);
    var n := |data|;
    TallyTotal(ls);
    assert PositiveCounts(t);
    SquaresVersusSum(t);
    SharesSquaredIsRatio(t, n);
    assert |t| >= 1 by {
      assert KeyIn(t, ls[0]);
    }
    Ratio(SumSquares(t), n * n);
    SingleLabelIffOneKey(data);
    if |t| == 1 {
      assert t[1..] == [];
      assert SumCounts(t) == t[0].count;
      assert SumSquares(t) == n * n;
    }
  }

  /** A non-empty data set has a single label exactly when its label tally has one key. */
  lemma SingleLabelIffOneKey(data: seq<Sample>)
    requires |data| > 0
    ensures SingleLabel(data) <==> |Tally(Labels(data))| == 1
  {
    var ls := Labels(data);
    var t := Tally(ls);
    assert KeyIn(t, ls[0]);
    if |t| == 1 {
      OneKeyIsSingleLabel(data);
    } else {
      TwoKeysAreTwoLabels(data);
    }
  }

  lemma OneKeyIsSingleLabel(data: seq<Sample>)
    requires |Tally(Labels(data))| == 1
    ensures SingleLabel(data)
  {
    var t := Tally(Labels(data));
    forall i | 0 <= i < |data| ensures data[i].crop == t[0].key {
      assert KeyIn(t, Labels(data)[i]);
    }
  }

  lemma TwoKeysAreTwoLabels(data: seq<Sample>)
    requires |Tally(Labels(data))| >= 2
    ensures !SingleLabel(data)
  {
    var ls := Labels(data);
    var t := Tally(ls);
    var a, b := t[0].key, t[1].key;
    assert a != b;
    assert a in ls && b in ls;
    var i :| 0 <= i < |ls| && ls[i] == a;
    var j :| 0 <= j < |ls| && ls[j] == b;
    assert data[i].crop == a && data[j].crop == b;
  }

  /**
   * `calculateGini`: the impurities of the two sides weighted by their share
   * of the samples. Like each side's impurity, the score lies in [0, 1).
   */
  function SplitScore(data: seq<Sample>, f: Feature, t: real): (score: real)
    requires |data| > 0
    ensures 0.0 <= score < 1.0
  {
    SplitScoreBounds(data, f, t);
    Weighted(|Side(data, f, t, true)|, |Side(data, f, t, false)|, |data|,
      GiniImpurity(Side(data, f, t, true)), GiniImpurity(Side(data, f, t, false)))
  }

  /** `(nl / n) * gl + (nr / n) * gr`. */
  function Weighted(nl: nat, nr: nat, n: nat, gl: real, gr: real): real
    requires n > 0
  {
    (nl as real / n as real) * gl + (nr as real / n as real) * gr
  }

  lemma SplitScoreBounds(data: seq<Sample>, f: Feature, t: real)
    requires |data| > 0
    ensures var l, r := Side(data, f, t, true), Side(data, f, t, false);
      0.0 <= Weighted(|l|, |r|, |data|, GiniImpurity(l), GiniImpurity(r)) < 1.0
  {
    var l, r := Side(data, f, t, true), Side(data, f, t, false);
    PartitionSizes(data, f, t);
    WeightedScoreBounds(|l|, |r|, |data|, GiniImpurity(l), GiniImpurity(r));
  }

  lemma WeightedScoreBounds(nl: nat, nr: nat, n: nat, gl: real, gr: real)
    requires nl + nr == n > 0
    requires 0.0 <= gl < 1.0 && 0.0 <= gr < 1.0
    ensures 0.0 <= Weighted(nl, nr, n, gl, gr) < 1.0
  {
    AddRatios(nl as real, nr as real, n as real);
    Ratio(n, n);
    Ratio(nl, n);
    Ratio(nr, n);
    WeightedBelowOne(nl as real / n as real, nr as real / n as real, gl, gr);
  }
}
