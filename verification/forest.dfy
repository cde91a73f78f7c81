/**
 * `RandomForestClassifier` of src/ai/ml/random-forest-model.ts: bootstrap
 * resampling, training, and prediction by tree votes.
 */
module Forest {
  import opened Features
  import opened Counting
  import opened Arith
  import opened DecisionTree
  import opened Votes

  /** The classifier: its trees so far and its constructor arguments. */
  datatype Classifier = Classifier(trees: seq<Tree>, numTrees: int, maxDepth: int, minSamples: int)

  function TreeParams(c: Classifier): Params
  {
    Params(c.maxDepth, c.minSamples)
  }

  /** How many times the `train` loop `for (i = 0; i < numTrees; i++)` runs. */
  function TreeCount(c: Classifier): nat
  {
    if c.numTrees > 0 then c.numTrees else 0
  }

  /** The random choices made while growing one tree: one draw per resampled slot, and the feature order at each node. */
  datatype TreeDraws = TreeDraws(resample: seq<real>, orders: FeatureOrders)

  predicate DrawsFor(d: TreeDraws, n: nat)
  {
    |d.resample| == n && AllDraws(d.resample)
  }

  // ---- bootstrapSample ----

  /** `bootstrapSample`: `|data|` picks, with replacement, of `data[floor(u * |data|)]`. */
  function BootstrapSample(data: seq<Sample>, us: seq<real>): (sample: seq<Sample>)
    requires |us| == |data| && AllDraws(us)
    ensures |sample| == |data|
    ensures forall i :: 0 <= i < |sample| ==> sample[i] in data
  {
    seq(|data|, i requires 0 <= i < |data| => data[DrawIndex(us[i], |data|)])
  }

  /** The draw `k / n` picks index `k`. */
  lemma DrawOfIndex(k: nat, n: nat)
    requires k < n
    ensures IsDraw(k as real / n as real)
    ensures DrawIndex(k as real / n as real, n) == k
  {
    Ratio(k, n);
    DivMul(k as real, n as real);
  }

  /** Every resample with replacement is produced by some draws. */
  lemma BootstrapReachesEveryResample(data: seq<Sample>, picks: seq<nat>)
    requires |picks| == |data|
    requires forall i :: 0 <= i < |picks| ==> picks[i] < |data|
    ensures var us := seq(|picks|, i requires 0 <= i < |picks| => picks[i] as real / |data| as real);
      && AllDraws(us)
      && BootstrapSample(data, us) == seq(|data|, i requires 0 <= i < |data| => data[picks[i]])
  {
    var us := seq(|picks|, i requires 0 <= i < |picks| => picks[i] as real / |data| as real);
    forall i | 0 <= i < |picks| ensures IsDraw(us[i]) && DrawIndex(us[i], |data|) == picks[i] {
      DrawOfIndex(picks[i], |data|);
    }
  }

  // ---- train ----

  /**
   * One iteration of the `train` loop: a tree built from a bootstrap sample of
   * the data. It is well formed, no deeper than `maxDepth`, and from non-empty
   * data predicts only labels the data carries.
   */
  function GrowTree(c: Classifier, data: seq<Sample>, d: TreeDraws): (t: Tree)
    requires DrawsFor(d, |data|)
    ensures t.samples == |data|
    ensures WellFormed(t)
    ensures Height(t) <= if c.maxDepth > 0 then c.maxDepth else 0
    ensures |data| > 0 ==> forall x :: PredictTree(t, x) in Labels(data)
  {
    var sample := BootstrapSample(data, d.resample);
    BuildTreeWellFormed(TreeParams(c), d.orders, sample, []);
    BuildTreeHeight(TreeParams(c), d.orders, sample, []);
    var t := BuildTree(TreeParams(c), d.orders, sample, []);
    assert |data| > 0 ==> forall x :: PredictTree(t, x) in Labels(data) by {
      if |data| > 0 {
        forall x ensures PredictTree(t, x) in Labels(data) {
          BootstrapTreePredictsLabels(c, data, d, x);
        }
      }
    }
    t
  }

  /** A tree built from a bootstrap sample of non-empty data predicts a label of that data. */
  lemma BootstrapTreePredictsLabels(c: Classifier, data: seq<Sample>, d: TreeDraws, x: CropFeatures)
    requires DrawsFor(d, |data|) && |data| > 0
    ensures PredictTree(BuildTree(TreeParams(c), d.orders, BootstrapSample(data, d.resample), []), x) in Labels(data)
  {
    var sample := BootstrapSample(data, d.resample);
    PredictionsComeFromData(TreeParams(c), d.orders, sample, [], x);
    var crop := PredictTree(BuildTree(TreeParams(c), d.orders, sample, []), x);
    var k :| 0 <= k < |sample| && Labels(sample)[k] == crop;
    var j :| 0 <= j < |data| && data[j] == sample[k];
    assert Labels(data)[j] == crop;
  }

  /**
   * `train`: grow `numTrees` trees, each from its own bootstrap sample, and
   * append them to the trees already there.
   */
  function Train(c: Classifier, data: seq<Sample>, draws: seq<TreeDraws>): (trained: Classifier)
    requires |draws| == TreeCount(c)
    requires forall i :: 0 <= i < |draws| ==> DrawsFor(draws[i], |data|)
    ensures trained.numTrees == c.numTrees && trained.maxDepth == c.maxDepth && trained.minSamples == c.minSamples
    ensures |trained.trees| == |c.trees| + TreeCount(c)
    ensures trained.trees[..|c.trees|] == c.trees
    ensures forall i :: |c.trees| <= i < |trained.trees| ==> trained.trees[i].samples == |data|
  {
    var grown := Grown(c, data, draws);
    assert (c.trees + grown)[..|c.trees|] == c.trees;
    c.(trees := c.trees + grown)
  }

  /** The trees of one `train` call, in the order they are pushed. */
  function Grown(c: Classifier, data: seq<Sample>, draws: seq<TreeDraws>): (grown: seq<Tree>)
    requires forall i :: 0 <= i < |draws| ==> DrawsFor(draws[i], |data|)
    ensures |grown| == |draws|
    ensures forall i :: 0 <= i < |draws| ==> grown[i] == GrowTree(c, data, draws[i])
  {
    seq(|draws|, i requires 0 <= i < |draws| => GrowTree(c, data, draws[i]))
  }

  /** The `i`-th tree after training is the one grown from the matching draws. */
  lemma TrainedTree(c: Classifier, data: seq<Sample>, draws: seq<TreeDraws>, i: nat)
    requires |draws| == TreeCount(c)
    requires forall i :: 0 <= i < |draws| ==> DrawsFor(draws[i], |data|)
    requires |c.trees| <= i < |c.trees| + TreeCount(c)
    ensures Train(c, data, draws).trees[i] == GrowTree(c, data, draws[i - |c.trees|])
  {
    var grown := Grown(c, data, draws);
    assert Train(c, data, draws).trees == c.trees + grown;
    assert (c.trees + grown)[i] == grown[i - |c.trees|];
  }

  /** Each tree `train` adds is well formed and no deeper than `maxDepth`. */
  lemma TrainedTreesAreWellFormed(c: Classifier, data: seq<Sample>, draws: seq<TreeDraws>, i: nat)
    requires |draws| == TreeCount(c)
    requires forall i :: 0 <= i < |draws| ==> DrawsFor(draws[i], |data|)
    requires |c.trees| <= i < |c.trees| + TreeCount(c)
    ensures WellFormed(Train(c, data, draws).trees[i])
    ensures Height(Train(c, data, draws).trees[i]) <= if c.maxDepth > 0 then c.maxDepth else 0
  {
    TrainedTree(c, data, draws, i);
  }

  /** Each tree `train` adds predicts only labels of its training data. */
  lemma TrainedTreesPredictLabels(c: Classifier, data: seq<Sample>, draws: seq<TreeDraws>, i: nat, x: CropFeatures)
    requires |draws| == TreeCount(c)
    requires forall i :: 0 <= i < |draws| ==> DrawsFor(draws[i], |data|)
    requires |c.trees| <= i < |c.trees| + TreeCount(c) && |data| > 0
    ensures PredictTree(Train(c, data, draws).trees[i], x) in Labels(data)
  {
    TrainedTree(c, data, draws, i);
  }

  // ---- predict ----

  /** `this.trees.map(tree => this.predictTree(tree, features))`. */
  function TreeVotes(trees: seq<Tree>, x: CropFeatures): (ps: seq<string>)
    ensures |ps| == |trees|
    ensures forall i :: 0 <= i < |trees| ==> ps[i] == PredictTree(trees[i], x)
  {
    seq(|trees|, i requires 0 <= i < |trees| => PredictTree(trees[i], x))
  }

  /** Each tally entry as a vote with its share `count / n`. */
  function Shares(t: seq<Entry<string>>, n: nat): (vs: seq<Vote>)
    requires n > 0
    ensures |vs| == |t|
    ensures forall i :: 0 <= i < |t| ==> vs[i] == Vote(t[i].key, t[i].count as real / n as real)
  {
    seq(|t|, i requires 0 <= i < |t| => Vote(t[i].key, t[i].count as real / n as real))
  }

  /**
   * `predict`: tally the tree votes, turn each count into its share of the
   * trees, and sort by non-increasing share; no trees give no votes.
   */
  function Predict(c: Classifier, x: CropFeatures): (votes: seq<Vote>)
    ensures |c.trees| == 0 ==> votes == []
    ensures Descending(votes)
  {
    if |c.trees| == 0 then []
    else SortByConfidence(Shares(Tally(TreeVotes(c.trees, x)), |c.trees|))
  }

  /** `v` names `crop`. */
  predicate Lists(votes: seq<Vote>, crop: string)
  {
    exists i :: 0 <= i < |votes| && votes[i].crop == crop
  }

  /**
   * Each crop some tree voted for is listed exactly once, with confidence its
   * number of votes over the number of trees, and nothing else is listed.
   */
  lemma PredictCountsVotes(c: Classifier, x: CropFeatures)
    ensures var votes, ps := Predict(c, x), TreeVotes(c.trees, x);
      && DistinctCrops(votes)
      && (forall i :: 0 <= i < |votes| ==>
            votes[i].crop in ps
            && votes[i].confidence == Occurrences(ps, votes[i].crop) as real / |c.trees| as real)
      && (forall j :: 0 <= j < |ps| ==> Lists(votes, ps[j]))
  {
    var ps := TreeVotes(c.trees, x);
    if |c.trees| > 0 {
      SortedSharesCountVotes(ps, |c.trees|);
      assert Predict(c, x) == SortByConfidence(Shares(Tally(ps), |c.trees|));
    }
  }

  /** The sorted shares of a list of votes: distinct crops, each with its share of the votes, and every voted crop listed. */
  lemma SortedSharesCountVotes(ps: seq<string>, n: nat)
    requires n > 0
    ensures var votes := SortByConfidence(Shares(Tally(ps), n));
      && DistinctCrops(votes)
      && (forall i :: 0 <= i < |votes| ==>
            votes[i].crop in ps && votes[i].confidence == Occurrences(ps, votes[i].crop) as real / n as real)
      && (forall j :: 0 <= j < |ps| ==> Lists(votes, ps[j]))
  {
    SharesFollowFirstVote(ps, n);
    SortKeepsTies(Shares(Tally(ps), n), ps);
    SortedSharesCounted(ps, n);
    SortedSharesListAll(ps, n);
  }

  lemma SortedSharesCounted(ps: seq<string>, n: nat)
    requires n > 0
    ensures var votes := SortByConfidence(Shares(Tally(ps), n));
      forall i :: 0 <= i < |votes| ==>
        votes[i].crop in ps && votes[i].confidence == Occurrences(ps, votes[i].crop) as real / n as real
  {
    var vs := Shares(Tally(ps), n);
    var votes := SortByConfidence(vs);
    forall i | 0 <= i < |votes|
      ensures votes[i].crop in ps
      ensures votes[i].confidence == Occurrences(ps, votes[i].crop) as real / n as real
    {
      assert votes[i] in votes;
      ShareCounted(ps, n, votes[i]);
    }
  }

  lemma ShareCounted(ps: seq<string>, n: nat, v: Vote)
    requires n > 0 && v in Shares(Tally(ps), n)
    ensures v.crop in ps && v.confidence == Occurrences(ps, v.crop) as real / n as real
  {
    var t := Tally(ps);
    var k :| 0 <= k < |t| && Shares(t, n)[k] == v;
    assert v == Vote(t[k].key, t[k].count as real / n as real);
  }

  lemma SortedSharesListAll(ps: seq<string>, n: nat)
    requires n > 0
    ensures var votes := SortByConfidence(Shares(Tally(ps), n));
      forall j :: 0 <= j < |ps| ==> Lists(votes, ps[j])
  {
    var t := Tally(ps);
    var vs := Shares(t, n);
    var votes := SortByConfidence(vs);
    forall j | 0 <= j < |ps| ensures Lists(votes, ps[j]) {
      assert KeyIn(t, ps[j]);
      var k :| 0 <= k < |t| && t[k].key == ps[j];
      assert vs[k] in vs;
      var i :| 0 <= i < |votes| && votes[i] == vs[k];
    }
  }

  lemma SharesFollowFirstVote(ps: seq<string>, n: nat)
    requires n > 0
    ensures InFirstVoteOrder(Shares(Tally(ps), n), ps)
  {
    TallyFollowsFirstOccurrence(ps);
    var t := Tally(ps);
    var vs := Shares(t, n);
    forall i | 0 <= i < |vs| ensures vs[i].crop in ps {
      assert vs[i].crop == t[i].key;
    }
    forall i, j | 0 <= i < j < |vs| ensures FirstIndex(ps, vs[i].crop) < FirstIndex(ps, vs[j].crop) {
      assert vs[i].crop == t[i].key && vs[j].crop == t[j].key;
    }
  }

  /** Every confidence lies in (0, 1]. */
  lemma PredictConfidenceBounds(c: Classifier, x: CropFeatures)
    ensures forall i :: 0 <= i < |Predict(c, x)| ==>
      0.0 < Predict(c, x)[i].confidence <= 1.0
  {
    var votes, ps := Predict(c, x), TreeVotes(c.trees, x);
    PredictCountsVotes(c, x);
    forall i | 0 <= i < |votes| ensures 0.0 < votes[i].confidence <= 1.0 {
      OccurrencesPositive(ps, votes[i].crop);
      OccurrencesAtMostLength(ps, votes[i].crop);
      Ratio(Occurrences(ps, votes[i].crop), |c.trees|);
    }
  }

  /** Over a non-empty forest the confidences add up to 1. */
  lemma PredictTotalIsOne(c: Classifier, x: CropFeatures)
    requires |c.trees| > 0
    ensures Total(Predict(c, x)) == 1.0
  {
    var ps := TreeVotes(c.trees, x);
    var t := Tally(ps);
    SortTotal(Shares(t, |c.trees|));
    SharesTotal(t, |c.trees|);
    TallyTotal(ps);
    Ratio(|c.trees|, |c.trees|);
  }

  lemma {:induction false} SharesTotal(t: seq<Entry<string>>, n: nat)
    requires n > 0
    ensures Total(Shares(t, n)) == SumCounts(t) as real / n as real
    decreases |t|
  {
    if |t| > 0 {
      SharesTotal(t[1..], n);
      assert Shares(t, n)[1..] == Shares(t[1..], n);
      AddRatios(t[0].count as real, SumCounts(t[1..]) as real, n as real);
    }
  }

  /** Crops of equal confidence are listed in the order of their first vote. */
  lemma PredictTiesByFirstVote(c: Classifier, x: CropFeatures)
    ensures TiesByFirstVote(Predict(c, x), TreeVotes(c.trees, x))
  {
    if |c.trees| > 0 {
      var ps := TreeVotes(c.trees, x);
      SharesFollowFirstVote(ps, |c.trees|);
      SortKeepsTies(Shares(Tally(ps), |c.trees|), ps);
    }
  }

  /** A non-empty forest always yields a top vote, so `predictions[0]` exists. */
  lemma PredictNonEmpty(c: Classifier, x: CropFeatures)
    requires |c.trees| > 0
    ensures |Predict(c, x)| > 0
  {
    PredictCountsVotes(c, x);
    assert Lists(Predict(c, x), TreeVotes(c.trees, x)[0]);
  }

  /** The top vote names a crop that no other crop outvotes. */
  lemma PredictTopIsMostVoted(c: Classifier, x: CropFeatures)
    requires |c.trees| > 0
    ensures |Predict(c, x)| > 0
    ensures forall j :: 0 <= j < |c.trees| ==>
      Occurrences(TreeVotes(c.trees, x), TreeVotes(c.trees, x)[j])
      <= Occurrences(TreeVotes(c.trees, x), Predict(c, x)[0].crop)
  {
    PredictNonEmpty(c, x);
    PredictCountsVotes(c, x);
    var votes, ps, n := Predict(c, x), TreeVotes(c.trees, x), |c.trees|;
    forall j | 0 <= j < n
      ensures Occurrences(ps, ps[j]) <= Occurrences(ps, votes[0].crop)
    {
      assert Lists(votes, ps[j]);
      var i :| 0 <= i < |votes| && votes[i].crop == ps[j];
      assert votes[0].confidence >= votes[i].confidence by {
        if i > 0 {
          assert 0 < i < |votes|;
        }
      }
      RatioOrder(Occurrences(ps, ps[j]), Occurrences(ps, votes[0].crop), n);
    }
  }

  /** Among crops tied with the top vote, the top one was voted for first. */
  lemma PredictTopIsFirstAmongTies(c: Classifier, x: CropFeatures)
    requires |c.trees| > 0
    ensures |Predict(c, x)| > 0 && Predict(c, x)[0].crop in TreeVotes(c.trees, x)
    ensures var ps, top := TreeVotes(c.trees, x), Predict(c, x)[0].crop;
      forall j :: 0 <= j < |c.trees| && Occurrences(ps, ps[j]) == Occurrences(ps, top) ==>
        FirstIndex(ps, top) <= FirstIndex(ps, ps[j])
  {
    PredictNonEmpty(c, x);
    PredictCountsVotes(c, x);
    PredictTiesByFirstVote(c, x);
    TopIsFirstAmongTies(TreeVotes(c.trees, x), Predict(c, x), |c.trees|);
  }

  lemma TopIsFirstAmongTies(ps: seq<string>, votes: seq<Vote>, n: nat)
    requires n > 0 && |votes| > 0 && TiesByFirstVote(votes, ps)
    requires forall j :: 0 <= j < |ps| ==> Lists(votes, ps[j])
    requires forall i :: 0 <= i < |votes| ==> votes[i].confidence == Occurrences(ps, votes[i].crop) as real / n as real
    ensures forall j :: 0 <= j < |ps| && Occurrences(ps, ps[j]) == Occurrences(ps, votes[0].crop) ==>
      FirstIndex(ps, votes[0].crop) <= FirstIndex(ps, ps[j])
  {
    forall j | 0 <= j < |ps| && Occurrences(ps, ps[j]) == Occurrences(ps, votes[0].crop)
      ensures FirstIndex(ps, votes[0].crop) <= FirstIndex(ps, ps[j])
    {
      TieAtTop(ps, votes, n, j);
    }
  }

  lemma TieAtTop(ps: seq<string>, votes: seq<Vote>, n: nat, j: nat)
    requires n > 0 && j < |ps| && |votes| > 0
    requires TiesByFirstVote(votes, ps) && Lists(votes, ps[j])
    requires forall i :: 0 <= i < |votes| ==> votes[i].confidence == Occurrences(ps, votes[i].crop) as real / n as real
    requires Occurrences(ps, ps[j]) == Occurrences(ps, votes[0].crop)
    ensures FirstIndex(ps, votes[0].crop) <= FirstIndex(ps, ps[j])
  {
    var i :| 0 <= i < |votes| && votes[i].crop == ps[j];
    if i > 0 {
      assert votes[0].confidence == votes[i].confidence;
    }
  }
}
