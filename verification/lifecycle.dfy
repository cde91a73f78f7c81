/**
 * The module-level singleton of src/ai/ml/random-forest-model.ts:
 * `initializeModel` trains a classifier on the generated corpus the first
 * time it is called and returns the same classifier ever after, and
 * `getMLPredictions` asks it for votes. The mutable `rfModel` variable is an
 * explicit slot passed in and returned.
 */
module Lifecycle {
  import opened Features
  import opened Counting
  import opened Corpus
  import opened DecisionTree
  import opened Votes
  import opened Forest
  import opened MlConfig

  /** The value of `rfModel`: `null` until the first call. */
  datatype Slot = Empty | Ready(model: Classifier)

  /** The randomness the first call consumes: corpus noise, then one set of draws per tree. */
  datatype Seeds = Seeds(noise: seq<real>, trees: seq<TreeDraws>)

  /** `new RandomForestClassifier(numTrees, maxDepth, minSamples)`: no trees yet. */
  function NewClassifier(numTrees: int, maxDepth: int, minSamples: int): (c: Classifier)
    ensures c.trees == [] && c.numTrees == numTrees && c.maxDepth == maxDepth && c.minSamples == minSamples
  {
    Classifier([], numTrees, maxDepth, minSamples)
  }

  /** The constructor's defaults, `(10, 10, 5)`. */
  const DefaultClassifier: Classifier := NewClassifier(10, 10, 5)

  /** The arguments `initializeModel` passes. */
  const ModelTrees: int := 15
  const ModelDepth: int := 12
  const ModelMinSamples: int := 5

  predicate ValidSeeds(s: Seeds)
  {
    && |s.noise| == CorpusSize * DrawsPerSample && AllDraws(s.noise)
    && |s.trees| == ModelTrees
    && forall i :: 0 <= i < |s.trees| ==> DrawsFor(s.trees[i], CorpusSize)
  }

  /** The classifier the first call trains. */
  function FreshModel(s: Seeds): (c: Classifier)
    requires ValidSeeds(s)
    ensures |c.trees| == ModelTrees
    ensures c.numTrees == ModelTrees && c.maxDepth == ModelDepth && c.minSamples == ModelMinSamples
    ensures forall i :: 0 <= i < |c.trees| ==> c.trees[i].samples == CorpusSize
  {
    Train(NewClassifier(ModelTrees, ModelDepth, ModelMinSamples), GenerateTrainingData(s.noise), s.trees)
  }

  datatype Initialised = Initialised(slot: Slot, model: Classifier)

  /** `initializeModel`: train on first use, then keep returning the stored classifier. */
  function InitializeModel(slot: Slot, s: Seeds): (r: Initialised)
    requires slot.Empty? ==> ValidSeeds(s)
    ensures r.slot == Ready(r.model)
    ensures slot.Ready? ==> r.model == slot.model
    ensures slot.Empty? ==>
      |r.model.trees| == ModelTrees && r.model.maxDepth == ModelDepth && r.model.minSamples == ModelMinSamples
  {
    match slot
    case Ready(m) => Initialised(slot, m)
    case Empty => var m := FreshModel(s); Initialised(Ready(m), m)
  }

  /** Later calls return the first call's classifier whatever randomness they would have used. */
  lemma InitializeOnce(slot: Slot, s1: Seeds, s2: Seeds)
    requires slot.Empty? ==> ValidSeeds(s1)
    ensures var first := InitializeModel(slot, s1);
      InitializeModel(first.slot, s2) == first
  {
  }

  datatype Answer = Answer(slot: Slot, votes: seq<Vote>)

  /** `getMLPredictions`: initialise if needed, then ask the classifier. */
  function GetMLPredictions(slot: Slot, s: Seeds, x: CropFeatures): (r: Answer)
    requires slot.Empty? ==> ValidSeeds(s)
    ensures r.slot.Ready? && (slot.Ready? ==> r.slot == slot)
    ensures Descending(r.votes)
  {
    var init := InitializeModel(slot, s);
    Answer(init.slot, Predict(init.model, x))
  }

  /**
   * The first answer lists at least one crop; every listed crop is one of the
   * eight corpus crops; the confidences add up to 1.
   */
  lemma FirstAnswerIsADistribution(s: Seeds, x: CropFeatures)
    requires ValidSeeds(s)
    ensures var votes := GetMLPredictions(Empty, s, x).votes;
      && |votes| > 0
      && Total(votes) == 1.0
      && forall i :: 0 <= i < |votes| ==> votes[i].crop in CropNames()
  {
    var c := FreshModel(s);
    PredictNonEmpty(c, x);
    PredictTotalIsOne(c, x);
    PredictCountsVotes(c, x);
    var ps := TreeVotes(c.trees, x);
    forall j | 0 <= j < |ps| ensures ps[j] in CropNames() {
      FreshTreeVotesForACrop(s, x, j);
    }
  }

  /** Each tree of the fresh classifier votes for a crop of the corpus. */
  lemma FreshTreeVotesForACrop(s: Seeds, x: CropFeatures, j: nat)
    requires ValidSeeds(s) && j < ModelTrees
    ensures j < |FreshModel(s).trees| && PredictTree(FreshModel(s).trees[j], x) in CropNames()
  {
    var data := GenerateTrainingData(s.noise);
    var base := NewClassifier(ModelTrees, ModelDepth, ModelMinSamples);
    TrainedTreesPredictLabels(base, data, s.trees, j, x);
    CorpusIsBalanced(s.noise);
  }

  /** Asking twice gives the same votes, and the second call does not retrain. */
  lemma PredictionsAreStable(slot: Slot, s1: Seeds, s2: Seeds, x: CropFeatures)
    requires slot.Empty? ==> ValidSeeds(s1)
    ensures var first := GetMLPredictions(slot, s1, x);
      GetMLPredictions(first.slot, s2, x) == first
  {
  }

  /** The arguments `initializeModel` passes are the shipped configuration's model section. */
  lemma ModelFollowsShippedConfig()
    ensures Shipped.model == ModelConfig(ModelTrees, ModelDepth, ModelMinSamples)
  {
  }

  /**
   * Any configuration `validateConfig` accepts yields a classifier whose
   * predictions are never empty once trained on non-empty data. This states
   * what the `numTrees` check guards against; no path of the program hands a
   * validated configuration to the classifier, since `initializeModel` passes
   * fixed arguments.
   */
  lemma ValidConfigPredicts(cfg: Config, data: seq<Sample>, draws: seq<TreeDraws>, x: CropFeatures)
    requires ValidateConfig(cfg) && |data| > 0
    requires |draws| == cfg.model.numTrees
    requires forall i :: 0 <= i < |draws| ==> DrawsFor(draws[i], |data|)
    ensures |Predict(Train(NewClassifier(cfg.model.numTrees, cfg.model.maxDepth, cfg.model.minSamples), data, draws), x)| > 0
  {
    var c := Train(NewClassifier(cfg.model.numTrees, cfg.model.maxDepth, cfg.model.minSamples), data, draws);
    PredictNonEmpty(c, x);
  }
}
