/**
 * `ML_CONFIG` and `validateConfig` of src/ai/ml/config.ts: the model and
 * training parameters and the three sanity checks made on them. The feature
 * ranges and crop profiles of the same file are descriptive data the
 * classifier never reads.
 */
module MlConfig {
  import opened Wrappers

  datatype ModelConfig = ModelConfig(numTrees: int, maxDepth: int, minSamples: int)
  datatype TrainingConfig = TrainingConfig(samplesPerCrop: int, trainTestSplit: real, randomSeed: int)
  datatype Config = Config(model: ModelConfig, training: TrainingConfig)

  /** The shipped configuration. */
  const Shipped: Config := Config(ModelConfig(15, 12, 5), TrainingConfig(50, 0.8, 42))

  const NumTreesMessage: string := "numTrees must be at least 1"
  const MaxDepthMessage: string := "maxDepth must be at least 1"
  const SplitMessage: string := "trainTestSplit must be between 0 and 1"

  /** The message of the error `validateConfig` throws first, if any; the checks run in this order. */
  function FirstViolation(cfg: Config): (v: Option<string>)
    ensures v == None <==>
      cfg.model.numTrees >= 1 && cfg.model.maxDepth >= 1 && 0.0 < cfg.training.trainTestSplit < 1.0
    ensures v.Some? ==> v.value in {NumTreesMessage, MaxDepthMessage, SplitMessage}
  {
    if cfg.model.numTrees < 1 then Some(NumTreesMessage)
    else if cfg.model.maxDepth < 1 then Some(MaxDepthMessage)
    else if cfg.training.trainTestSplit <= 0.0 || cfg.training.trainTestSplit >= 1.0 then Some(SplitMessage)
    else None
  }

  /** `validateConfig`: `true` exactly when nothing was thrown. */
  function ValidateConfig(cfg: Config): (ok: bool)
    ensures ok <==>
      cfg.model.numTrees >= 1 && cfg.model.maxDepth >= 1 && 0.0 < cfg.training.trainTestSplit < 1.0
  {
    FirstViolation(cfg).None?
  }

  /** A configuration failing several checks is reported by the first one in check order. */
  lemma ViolationsInCheckOrder(cfg: Config)
    ensures cfg.model.numTrees < 1 ==> FirstViolation(cfg) == Some(NumTreesMessage)
    ensures cfg.model.numTrees >= 1 && cfg.model.maxDepth < 1 ==> FirstViolation(cfg) == Some(MaxDepthMessage)
    ensures cfg.model.numTrees >= 1 && cfg.model.maxDepth >= 1 && !(0.0 < cfg.training.trainTestSplit < 1.0) ==>
      FirstViolation(cfg) == Some(SplitMessage)
  {
  }

  /** The shipped configuration passes validation; the split it names is four fifths. */
  lemma ShippedIsValid()
    ensures ValidateConfig(Shipped)
    ensures Shipped.training.trainTestSplit == 4.0 / 5.0
  {
  }
}
