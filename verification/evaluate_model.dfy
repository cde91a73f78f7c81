/**
 * `evaluateModel` of src/ai/ml/utils.ts: generate the corpus, shuffle it,
 * train a fresh 15-tree forest on the first 80%, classify the remaining 20%
 * by each prediction list's top crop, and report overall accuracy, the
 * confusion matrix and per-crop accuracies.
 */
module ModelEvaluation {
  import opened Features
  import opened Counting
  import opened Corpus
  import opened Votes
  import opened Forest
  import opened Evaluation
  import opened Lifecycle

  /**
   * `Math.floor(n * 0.8)`, taken as the exact floor. For the 400-sample
   * corpus the floating-point product is exactly 320.
   */
  function TrainSize(n: nat): (k: nat)
    ensures k <= n
    ensures k as real <= n as real * 0.8 < k as real + 1.0
  {
    n * 4 / 5
  }

  datatype Split = Split(train: seq<Sample>, test: seq<Sample>)

  /** `shuffled.slice(0, trainSize)` and `shuffled.slice(trainSize)`. */
  function SplitData(shuffled: seq<Sample>): (s: Split)
    ensures s.train + s.test == shuffled
    ensures |s.train| == TrainSize(|shuffled|)
    ensures multiset(s.train) + multiset(s.test) == multiset(shuffled)
  {
    var k := TrainSize(|shuffled|);
    assert shuffled[..k] + shuffled[k..] == shuffled;
    Split(shuffled[..k], shuffled[k..])
  }

  /**
   * `predictions[0].crop`: the top crop, which exists because the forest is
   * not empty. It is a crop some tree voted for, no crop has more votes, and
   * among crops with as many votes it was voted for first.
   */
  function TopCrop(c: Classifier, x: CropFeatures): (crop: string)
    requires |c.trees| > 0
    ensures exists i :: 0 <= i < |c.trees| && crop == TreeVotes(c.trees, x)[i]
    ensures forall j :: 0 <= j < |c.trees| ==>
      Occurrences(TreeVotes(c.trees, x), TreeVotes(c.trees, x)[j]) <= Occurrences(TreeVotes(c.trees, x), crop)
    ensures var ps := TreeVotes(c.trees, x);
      forall j :: 0 <= j < |c.trees| && Occurrences(ps, ps[j]) == Occurrences(ps, crop) ==>
        FirstIndex(ps, crop) <= FirstIndex(ps, ps[j])
  {
    PredictNonEmpty(c, x);
    PredictCountsVotes(c, x);
    PredictTopIsMostVoted(c, x);
    PredictTopIsFirstAmongTies(c, x);
    var crop := Predict(c, x)[0].crop;
    assert crop in TreeVotes(c.trees, x);
    crop
  }

  /** The outcome of each test sample, in test order. */
  function Outcomes(c: Classifier, test: seq<Sample>): (os: seq<Outcome>)
    requires |c.trees| > 0
    ensures |os| == |test|
    ensures forall i :: 0 <= i < |test| ==>
      os[i].actual == test[i].crop && os[i].predicted == TopCrop(c, test[i].features)
  {
    seq(|test|, i requires 0 <= i < |test| => Outcome(test[i].crop, TopCrop(c, test[i].features)))
  }

  /** The tallies over the classified test set. */
  function Assess(c: Classifier, test: seq<Sample>): (r: Report)
    requires |c.trees| > 0 && |test| > 0
    ensures 0.0 <= r.accuracy <= 1.0
    ensures MatrixTotal(r.confusion) == |test|
  {
    Summarise(Outcomes(c, test))
  }

  /** The corpus shuffle is a rearrangement of the generated corpus. */
  predicate ShuffleOf(noise: seq<real>, shuffled: seq<Sample>)
    requires |noise| == CorpusSize * DrawsPerSample && AllDraws(noise)
  {
    multiset(shuffled) == multiset(GenerateTrainingData(noise))
  }

  /** `evaluateModel`: 320 training samples, 80 test samples, a 15-tree forest. */
  function EvaluateModel(noise: seq<real>, shuffled: seq<Sample>, draws: seq<TreeDraws>): (r: Report)
    requires |noise| == CorpusSize * DrawsPerSample && AllDraws(noise)
    requires ShuffleOf(noise, shuffled)
    requires |draws| == ModelTrees && forall i :: 0 <= i < |draws| ==> DrawsFor(draws[i], TrainSize(CorpusSize))
    ensures 0.0 <= r.accuracy <= 1.0
    ensures MatrixTotal(r.confusion) == CorpusSize - TrainSize(CorpusSize) == 80
  {
    assert |shuffled| == |multiset(shuffled)| == CorpusSize;
    var split := SplitData(shuffled);
    var model := Train(NewClassifier(ModelTrees, ModelDepth, ModelMinSamples), split.train, draws);
    Assess(model, split.test)
  }

}
