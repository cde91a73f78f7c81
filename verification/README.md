# Crop recommendation core, modelled in Dafny

This project models the machine-learning core of project-apple, a farming
assistant. The core is a small random-forest classifier written in
TypeScript. It is trained on a synthetic corpus of soil and climate readings
for eight crops, and it recommends crops by tree votes. Around it sit an
evaluator, a corpus summary, the configuration check, a rule-based yield
estimate, and the inventory card's quantity updates. All of them are stated
here as pure functions with contracts and lemmas.

Module layout, following the source:

- `Counting` is the insertion-ordered tally that every `Map<string, number>` counter in the source builds.
- `Features` holds samples, feature values, labels and random draws.
- `Text` models `toLowerCase` and `includes`.
- `Corpus` models `generateTrainingData` and `extractFeaturesFromDescription`.
- `Impurity` models `evaluateSplit`, `giniImpurity` and `calculateGini`.
- `Splitting` models `findBestSplit`: the feature subset, the midpoint thresholds and the first minimal score.
- `DecisionTree` models `buildTree`, `createLeafNode` and `predictTree`.
- `Votes` models the stable descending sort of the vote list.
- `Forest` models `bootstrapSample`, `train` and `predict`.
- `Lifecycle` models the `initializeModel` / `getMLPredictions` singleton.
- `Evaluation` and `ModelEvaluation` model `evaluateModel`.
- `TrainingSummary` models `exportTrainingDataSummary`.
- `MlConfig` models `ML_CONFIG` and `validateConfig`.
- `YieldPrediction` models `getRealisticPrediction`.
- `Inventory` models `handleUpdate` and `handleModalUpdate`.
- `Arith` and `Wrappers` are shared helpers.

Randomness is explicit:

- Every `Math.random()` whose value is used arithmetically becomes a caller-supplied draw in [0, 1).
- Comparator-based shuffles become caller-supplied orders:
  - the feature order `findBestSplit` draws at each node is a function of that node's path from the root;
  - the corpus shuffle in `evaluateModel` is any rearrangement of the corpus.
- The module-level `rfModel` variable is an explicit slot, passed in and returned.

Three behaviours of the code worth noting:

- A value equal to a node's threshold goes to the left child, because `evaluateSplit` and `predictTree` compare with `<=`.
- Predicting with an untrained forest returns an empty list rather than raising an error.
- Training a trained forest again appends a new batch of trees.

## Model

| member | source | states |
|---|---|---|
| Counting.Tally | src/ai/ml/random-forest-model.ts:168-169 | one entry per distinct label with no key repeated, each count equal to the label's number of occurrences and positive, every key drawn from the input and every input element present |
| Counting.TallyTotal | src/ai/ml/random-forest-model.ts:168-175 | the counts of a tally add up to the number of elements tallied |
| Counting.TallyFollowsFirstOccurrence | src/ai/ml/random-forest-model.ts:219-222 | tally keys come in order of first occurrence, which is `Map` iteration order |
| Counting.Bump | src/ai/ml/random-forest-model.ts:169 | incrementing a `Map` count with a missing count read as 0: an existing key keeps its place and gains one, every other entry is unchanged, and a missing key is appended with count 1; keys stay distinct |
| Corpus.MakeSample | src/ai/ml/random-forest-model.ts:52-65 | a generated sample carries its crop's label and every feature lies within half the noise width of the crop's base value |
| Corpus.GenerateTrainingData | src/ai/ml/random-forest-model.ts:34-70 | 400 samples, grouped by crop in the order the crops are declared, each numeric feature within half the noise width of its crop's base value |
| Corpus.CorpusBalanced | src/ai/ml/random-forest-model.ts:50-51 | each of the eight crops labels exactly 50 samples and no other label occurs |
| Corpus.CorpusIsBalanced | src/ai/ml/random-forest-model.ts:50-64 | every corpus label is one of the eight crops and labels exactly 50 samples |
| Corpus.SoilTypeFromDescription | src/ai/ml/random-forest-model.ts:244-251 | a non-default soil's keyword occurs in the lower-cased text and no keyword tried earlier does; Loamy exactly when no keyword occurs |
| Corpus.SoilTypeIgnoresCase | src/ai/ml/random-forest-model.ts:244 | the soil class depends on the description only up to letter case |
| Corpus.ExtractFeaturesFromDescription | src/ai/ml/random-forest-model.ts:243-263 | the soil class comes from the text and each numeric feature lies in its jitter interval around the fixed base value |
| Impurity.Side | src/ai/ml/random-forest-model.ts:180-186 | a side holds only samples of the input that fall on that side of the threshold |
| Impurity.PartitionExact | src/ai/ml/random-forest-model.ts:112-113 | the two sides together are the input as a multiset, so their sizes add up to it |
| Impurity.SideContains | src/ai/ml/random-forest-model.ts:112-113 | every sample lands on the side its value selects |
| Impurity.GiniImpurity | src/ai/ml/random-forest-model.ts:165-178 | the impurity lies in [0, 1) and is 0 exactly when all samples share one label |
| Impurity.SingleLabelIffOneKey | src/ai/ml/random-forest-model.ts:168-175 | non-empty data has one label exactly when its label tally has one entry |
| Impurity.SplitScore | src/ai/ml/random-forest-model.ts:154-163 | the weighted split score of non-empty data lies in [0, 1) |
| Impurity.WeightedScoreBounds | src/ai/ml/random-forest-model.ts:162 | a size-weighted average of two impurities in [0, 1) stays in [0, 1) |
| Splitting.SelectFeatures | src/ai/ml/random-forest-model.ts:131 | the selection is the first three features of the drawn order, or all of a shorter order |
| Splitting.SelectionIsThreeDistinct | src/ai/ml/random-forest-model.ts:131 | from an ordering of the seven features the selection is three distinct features |
| Splitting.SortedDistinct | src/ai/ml/random-forest-model.ts:137-138 | the sorted de-duplicated values are strictly increasing and are exactly the input's values |
| Splitting.Midpoints | src/ai/ml/random-forest-model.ts:140-141 | one threshold per adjacent pair of distinct values, at their midpoint |
| Splitting.ThresholdIsGapMidpoint | src/ai/ml/random-forest-model.ts:137-141 | every threshold is the midpoint of two observed values with no observed value strictly between them |
| Splitting.GapMidpointIsThreshold | src/ai/ml/random-forest-model.ts:137-141 | conversely, the midpoint of every such gap is a threshold |
| Splitting.NoThresholdIffConstant | src/ai/ml/random-forest-model.ts:138-140 | a feature yields no threshold exactly when it takes one value across the data |
| Splitting.Candidates | src/ai/ml/random-forest-model.ts:136-141 | every candidate uses a selected feature and one of its thresholds; there are none exactly when no selected feature has a threshold |
| Splitting.FirstArgMin | src/ai/ml/random-forest-model.ts:144-147 | the scan with strict `<` stops at the first minimal score |
| Splitting.BestSplit | src/ai/ml/random-forest-model.ts:133-151 | no split exactly when there is no candidate; otherwise a candidate whose score is the first minimal one |
| Splitting.FindBestSplit | src/ai/ml/random-forest-model.ts:128-151 | `findBestSplit` returns null exactly when every selected feature is constant on the data; a returned split uses a selected feature and one of its midpoint thresholds, and is the first candidate of least score |
| Splitting.ThresholdSeparates | src/ai/ml/random-forest-model.ts:112-117 | any threshold leaves samples on both sides |
| Splitting.SplitSeparates | src/ai/ml/random-forest-model.ts:112-117 | the chosen split leaves samples on both sides, so that guard never fires |
| DecisionTree.FirstArgMax | src/ai/ml/random-forest-model.ts:192-199 | the scan with strict `>` ends at a maximal count with every earlier count smaller |
| DecisionTree.Plurality | src/ai/ml/random-forest-model.ts:192-199 | '' for no labels; otherwise a label no other outnumbers, and among the tied the one seen first |
| DecisionTree.CreateLeafNode | src/ai/ml/random-forest-model.ts:188-202 | a leaf recording the number of samples whose prediction is the plurality label under that tie rule |
| DecisionTree.BuildTree | src/ai/ml/random-forest-model.ts:104-126 | every built node records the number of samples it was built from, and every leaf, whichever rule stopped the descent, is the plurality leaf `createLeafNode` makes from the node's data |
| DecisionTree.StopsAtLimits | src/ai/ml/random-forest-model.ts:105-107 | at the depth limit or below the sample minimum the result is the leaf of the data |
| DecisionTree.NodeChildren | src/ai/ml/random-forest-model.ts:109-125 | an internal node lies within the limits, uses the best split, and its children are built from the two non-empty sides, whose sizes add up |
| DecisionTree.BuildTreeWellFormed | src/ai/ml/random-forest-model.ts:112-125 | in every built tree each node's children are non-empty and their sample counts add up to the node's |
| DecisionTree.BuildTreeHeight | src/ai/ml/random-forest-model.ts:105-123 | a tree started at depth d is at most maxDepth - d deep |
| DecisionTree.SplitsWhenPossible | src/ai/ml/random-forest-model.ts:109-117 | within the limits, the result is a leaf exactly when every selected feature is constant |
| DecisionTree.PredictTree | src/ai/ml/random-forest-model.ts:204-215 | the prediction is the label of the leaf at the end of the input's route, turning left exactly where the value is at most the threshold |
| DecisionTree.RouteIsUnique | src/ai/ml/random-forest-model.ts:209-211 | an input has exactly one route, and it ends at a leaf |
| DecisionTree.ThresholdGoesLeft | src/ai/ml/random-forest-model.ts:209 | a value equal to the threshold descends into the left child |
| DecisionTree.PredictionsComeFromData | src/ai/ml/random-forest-model.ts:104-126 | a tree built from non-empty data only ever predicts one of that data's labels |
| DecisionTree.PureDataPredictsItsLabel | src/ai/ml/random-forest-model.ts:188-202 | a tree built from single-label data predicts that label for every input |
| Votes.SortByConfidence | src/ai/ml/random-forest-model.ts:224 | the result is a permutation of the votes in non-increasing confidence |
| Votes.SortKeepsTies | src/ai/ml/random-forest-model.ts:222-224 | the sort is stable: equal confidences stay in first-vote order and no crop appears twice |
| Forest.BootstrapSample | src/ai/ml/random-forest-model.ts:95-102 | the resample has the input's length and draws only elements of the input |
| Forest.BootstrapReachesEveryResample | src/ai/ml/random-forest-model.ts:95-102 | every choice of indices with replacement is produced by some draws |
| Forest.GrowTree | src/ai/ml/random-forest-model.ts:88-90 | a tree grown from a bootstrap sample records the data size, is well formed, is no deeper than maxDepth, and from non-empty data predicts only labels of the data |
| Forest.Train | src/ai/ml/random-forest-model.ts:85-93 | training appends `numTrees` trees (none when it is below 1), keeps the existing ones and the parameters, and each new tree records the data size |
| Forest.TrainedTree | src/ai/ml/random-forest-model.ts:87-91 | the i-th new tree is the tree grown from the i-th resample |
| Forest.TrainedTreesAreWellFormed | src/ai/ml/random-forest-model.ts:104-126 | every new tree is well formed and no deeper than maxDepth |
| Forest.TrainedTreesPredictLabels | src/ai/ml/random-forest-model.ts:204-215 | every new tree votes for a label of the training data |
| Forest.TreeVotes | src/ai/ml/random-forest-model.ts:218 | one vote per tree, in tree order, each the tree's own prediction |
| Forest.Predict | src/ai/ml/random-forest-model.ts:217-225 | no trees give no votes; the votes are in non-increasing confidence |
| Forest.PredictCountsVotes | src/ai/ml/random-forest-model.ts:218-223 | each voted crop is listed once with confidence equal to its number of votes over the number of trees, and nothing else is listed |
| Forest.PredictConfidenceBounds | src/ai/ml/random-forest-model.ts:223 | every confidence lies in (0, 1] |
| Forest.PredictTotalIsOne | src/ai/ml/random-forest-model.ts:223 | over a non-empty forest the confidences add up to 1 |
| Forest.PredictTiesByFirstVote | src/ai/ml/random-forest-model.ts:222-224 | crops of equal confidence appear in the order of their first vote |
| Forest.PredictNonEmpty | src/ai/ml/random-forest-model.ts:217-225 | a non-empty forest always yields a top vote |
| Forest.PredictTopIsMostVoted | src/ai/ml/random-forest-model.ts:217-225 | the top vote names a crop that no other crop outvotes |
| Forest.PredictTopIsFirstAmongTies | src/ai/ml/random-forest-model.ts:219-224 | among crops with as many votes as the top one, the top one was voted for first |
| Lifecycle.NewClassifier | src/ai/ml/random-forest-model.ts:79-83 | a new classifier has no trees and keeps its constructor arguments |
| Lifecycle.FreshModel | src/ai/ml/random-forest-model.ts:234-237 | the first training yields 15 trees of depth limit 12 and sample minimum 5, each built from 400 samples |
| Lifecycle.InitializeModel | src/ai/ml/random-forest-model.ts:229-240 | the slot ends up holding the returned model; a stored model is returned unchanged; an empty slot gets a fresh 15-tree model |
| Lifecycle.InitializeOnce | src/ai/ml/random-forest-model.ts:233-239 | a second call returns the first call's model whatever randomness it would have used |
| Lifecycle.GetMLPredictions | src/ai/ml/random-forest-model.ts:266-269 | the slot is filled and kept, and the votes are in non-increasing confidence |
| Lifecycle.FirstAnswerIsADistribution | src/ai/ml/random-forest-model.ts:266-269 | the first answer is non-empty, its confidences add up to 1, and every listed crop is a corpus crop |
| Lifecycle.FreshTreeVotesForACrop | src/ai/ml/random-forest-model.ts:234-237 | each tree of the fresh model votes for one of the eight crops |
| Lifecycle.PredictionsAreStable | src/ai/ml/random-forest-model.ts:266-269 | asking twice gives the same answer and does not retrain |
| Lifecycle.ValidConfigPredicts | src/ai/ml/config.ts:189-191 | what the `numTrees` check guards: any configuration that passes validation would yield a forest whose predictions are never empty (no program path passes a validated configuration to the classifier) |
| MlConfig.FirstViolation | src/ai/ml/config.ts:187-205 | no violation exactly when numTrees ≥ 1, maxDepth ≥ 1 and 0 < trainTestSplit < 1; any reported message is one of the three |
| MlConfig.ValidateConfig | src/ai/ml/config.ts:187-205 | `true` exactly when all three checks pass |
| MlConfig.ViolationsInCheckOrder | src/ai/ml/config.ts:189-197 | a configuration failing several checks is reported by the first in check order |
| MlConfig.ShippedIsValid | src/ai/ml/config.ts:5-19 | the shipped configuration passes validation and its split is four fifths |
| ModelEvaluation.TrainSize | src/ai/ml/utils.ts:22 | the training size is the floor of 0.8 times the corpus size |
| ModelEvaluation.SplitData | src/ai/ml/utils.ts:22-26 | the two slices concatenate to the shuffled corpus, the first has the training size, and together they hold every sample once |
| ModelEvaluation.TopCrop | src/ai/ml/utils.ts:36-37 | `predictions[0]` exists for a non-empty forest and names a crop some tree voted for, that no crop outvotes, and that was voted for first among the crops tied with it |
| ModelEvaluation.Outcomes | src/ai/ml/utils.ts:35-38 | one outcome per test sample: its label and the forest's top crop |
| ModelEvaluation.Assess | src/ai/ml/utils.ts:31-63 | accuracy lies in [0, 1] and the confusion matrix counts every test sample once |
| ModelEvaluation.EvaluateModel | src/ai/ml/utils.ts:14-76 | on the 400-sample corpus: accuracy in [0, 1] and exactly 80 test samples in the confusion matrix |
| Evaluation.Record | src/ai/ml/utils.ts:40-44 | the actual crop's row gets its predicted cell incremented, or a new row with that one cell is appended; other rows are untouched |
| Evaluation.Confusion | src/ai/ml/utils.ts:35-45 | one row per distinct actual crop in first-seen order, each the tally of the predictions made for that crop |
| Evaluation.ConfusionCells | src/ai/ml/utils.ts:40-44 | a cell counts the samples of its actual and predicted crop; a row adds up to the samples of its crop |
| Evaluation.ConfusionTotal | src/ai/ml/utils.ts:35-45 | the cells of the whole matrix add up to the number of test samples |
| Evaluation.RecordClass | src/ai/ml/utils.ts:46-55 | the actual crop's counter gets one more total and one more correct on a hit, or is created; others are untouched |
| Evaluation.Classes | src/ai/ml/utils.ts:46-55 | one counter per distinct actual crop in first-seen order, its total that crop's samples, its correct those predicted right |
| Evaluation.ClassesSumToHits | src/ai/ml/utils.ts:52-55 | the per-crop correct counts add up to the overall `correct` |
| Evaluation.ClassCountsBounded | src/ai/ml/utils.ts:46-55 | no crop has more correct than total predictions, and every total is positive |
| Evaluation.Accuracy | src/ai/ml/utils.ts:58 | accuracy lies in [0, 1] and is 1 exactly when every test sample is predicted right |
| Evaluation.CropAccuracies | src/ai/ml/utils.ts:60-63 | one accuracy per counter, in the same order, in [0, 1], and 1 exactly when the crop was always right |
| Evaluation.Summarise | src/ai/ml/utils.ts:58-63 | accuracy in [0, 1], a matrix counting every sample once, and per-crop accuracies in [0, 1] aligned with the matrix rows |
| Evaluation.SummaryAgreesWithOutcomes | src/ai/ml/utils.ts:35-63 | the report's accuracy is the hit rate, its cells and row sums count the outcomes, each crop's accuracy is the share of that crop's samples predicted as that crop, and per-crop hits add up to all hits |
| Evaluation.CropAccuracyIsHitRate | src/ai/ml/utils.ts:46-63 | a crop's reported accuracy is the number of its samples predicted as that crop over its number of samples, which is never zero |
| TrainingSummary.MeanStep | src/ai/ml/utils.ts:175-176 | the updated mean times the new count is the old mean times the old count plus the new value, so it averages one more value; the first value is its own mean |
| TrainingSummary.RunningMeanIsMean | src/ai/ml/utils.ts:175-176 | the running-mean update over k values gives their arithmetic mean |
| TrainingSummary.Add | src/ai/ml/utils.ts:160-178 | the sample's label entry is created if missing, its count grows by one and every feature mean takes one running-mean step; other entries are untouched |
| TrainingSummary.Summary | src/ai/ml/utils.ts:153-179 | one entry per distinct label in first-seen order, with its sample count and the running means of its samples' features |
| TrainingSummary.SummaryHoldsMeans | src/ai/ml/utils.ts:160-178 | each entry's count is its label's sample count and each mean is the arithmetic mean of that feature over those samples |
| TrainingSummary.ExportTrainingDataSummary | src/ai/ml/utils.ts:153-179 | over the generated corpus each of the eight crops has an entry, and every entry is one of the eight crops with 50 samples |
| YieldPrediction.Lookup | src/ai/flows/yield-prediction.ts:45 | a value is found exactly when the table has the key, and it is that key's value |
| YieldPrediction.BaseYield | src/ai/flows/yield-prediction.ts:41-45 | the table value for the lower-cased crop, otherwise 1.8; always within [0.5, 32] |
| YieldPrediction.StateModifier | src/ai/flows/yield-prediction.ts:47-50 | the table value for the state as written, otherwise 1.0; always within [1.0, 1.25] |
| YieldPrediction.SoilModifier | src/ai/flows/yield-prediction.ts:52-56 | the table value for the lower-cased soil, otherwise 1.0; always within [0.85, 1.1] |
| YieldPrediction.SowingFactor | src/ai/flows/yield-prediction.ts:58-68 | rice, jute, maize and groundnut: 1.1 for months 6-8, 0.9 for 9-10, else 0.75; wheat and pulses: 1.05 for 10-12, else 0.8; otherwise 1.0 |
| YieldPrediction.RandomFactor | src/ai/flows/yield-prediction.ts:70 | the random factor lies in [0.925, 1.075) |
| YieldPrediction.Expected | src/ai/flows/yield-prediction.ts:71 | the product of the four deterministic factors is positive |
| YieldPrediction.GetRealisticPrediction | src/ai/flows/yield-prediction.ts:40-75 | the prediction lies within 7.5% below and strictly less than 7.5% above the deterministic estimate |
| YieldPrediction.LookupsCaseHandling | src/ai/flows/yield-prediction.ts:45-61 | crop and soil lookups ignore case, the state lookup does not |
| YieldPrediction.UnknownCrop | src/ai/flows/yield-prediction.ts:41-68 | a crop missing from the table gets base yield 1.8 and sowing factor 1.0 |
| YieldPrediction.InvalidDateIsOffSeason | src/ai/flows/yield-prediction.ts:58-68 | an unparsable sowing date takes the off-season factor, 0.75 or 0.8 |
| Inventory.Clamp | src/components/dashboard/inventory-card.tsx:48 | the clamped quantity is never negative, never above a non-negative capacity, and equal to the requested value when that fits |
| Inventory.HandleUpdate | src/components/dashboard/inventory-card.tsx:44-52 | same length and order; every item of that name gets its quantity plus the amount clamped to [0, capacity], with name, capacity and unit kept; other items unchanged |
| Inventory.OpenEditor | src/components/dashboard/inventory-card.tsx:98-101 | the editor opens on the item, preloaded with its quantity |
| Inventory.HandleModalUpdate | src/components/dashboard/inventory-card.tsx:54-66 | the selected item's name gets the clamped edited value, nothing changes without a selection, and the editor is reset |
| Inventory.UpdatesKeepQuantitiesInRange | src/components/dashboard/inventory-card.tsx:44-66 | both updates keep every in-range quantity within [0, capacity] |
| Inventory.UpdateUndo | src/components/dashboard/inventory-card.tsx:44-52 | adding and then removing an amount that fits restores the inventory |
| Inventory.SaveUneditedIsNoOp | src/components/dashboard/inventory-card.tsx:54-101 | opening the editor on an in-range item and saving without edits changes nothing |
| Inventory.ModalUpdateIdempotent | src/components/dashboard/inventory-card.tsx:54-66 | saving the same value twice is the same as saving it once |

## Left out

- Floating point is left out. Numbers are exact reals, so rounding, `NaN` and `Infinity` are not modelled. Division by zero is excluded by preconditions that the source's callers always meet.
- Randomness is left out. Each `Math.random()` value is a parameter, and the random-comparator sorts are parameters too. Their bias towards particular orders is not modelled.
- Console logging, the 1.5-second delay and the genkit flow wrapper around `getRealisticPrediction` are left out. So is `testModelPredictions` in src/ai/ml/utils.ts:79-150, which only logs.
- The feature ranges, crop profiles, soil list and `getCropProfile` of src/ai/ml/config.ts are left out. They are descriptive data that no modelled code reads.
- `ML_CONFIG.model.featureSubset` and `training.samplesPerCrop`/`randomSeed` are left out. No modelled code reads them: the source hard-codes the subset size, the 50 samples and the 0.8 split.
- React rendering, the progress bar and dialog open/close events of the inventory card are left out. The card's state is an explicit value.
- Lookups keyed by JavaScript's built-in property names (`constructor`, `toString`) are left out. They would reach the object prototype.
- `toLowerCase` is modelled on the ASCII letters only.
- YieldPrediction.GetRealisticPrediction: returns the unrounded product. The `parseFloat(toFixed(2))` rounding to two decimals is not modelled.
- YieldPrediction.YieldInput: the sowing date is given as its month, or as `None` when it does not parse. `new Date` parsing and time zones are not modelled.
- ModelEvaluation.EvaluateModel: the shuffle is any rearrangement of the corpus that the caller supplies.
- Evaluation.Accuracy: requires at least one test sample. With none the source divides by zero and yields `NaN`. The 400-sample corpus always leaves 80.
- Inventory.HandleModalUpdate: the edited value is a real. A non-numeric entry, which `Number` turns into `NaN`, is not modelled.
- TrainingSummary.Add: a fresh entry's means start at 0. This is what the source computes, since a missing average reads as `0` (`|| 0`). The non-numeric `soilType` key is skipped, as the `typeof` check skips it.
- Impurity.SplitScore: its contract states the range only. The size-weighted combination of the two sides' impurities is its definition, through `Weighted`.
- DecisionTree.BuildTree: its own contract states the recorded sample count and that every leaf is `createLeafNode` of its data; which rule makes a leaf, and the children of a node, are stated by StopsAtLimits, SplitsWhenPossible and NodeChildren rather than by the function itself.
