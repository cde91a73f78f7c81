/**
 * The data model of the crop classifier (src/ai/ml/random-forest-model.ts):
 * the seven numeric features, the soil class, one labelled sample, and the
 * model of a `Math.random()` draw.
 */
module Features {

  /** The seven numeric fields a tree may split on (`numericFeatures`). */
  datatype Feature = SoilPH | Nitrogen | Phosphorus | Potassium | Temperature | Humidity | Rainfall

  datatype SoilType = Sandy | Loamy | Clay | Red | Black | Alluvial

  /** `CropFeatures`: one sample's soil and climate attributes. */
  datatype CropFeatures = CropFeatures(
    soilPH: real,
    nitrogen: real,
    phosphorus: real,
    potassium: real,
    temperature: real,
    humidity: real,
    rainfall: real,
    soilType: SoilType)

  /** `TrainingData`: a feature vector with its crop label (`label` in the source). */
  datatype Sample = Sample(features: CropFeatures, crop: string)

  /** The split candidates, in the order the source lists them. */
  const NumericFeatures: seq<Feature> :=
    [SoilPH, Nitrogen, Phosphorus, Potassium, Temperature, Humidity, Rainfall]

  /** The soil classes, in the order the corpus generator indexes them. */
  const SoilTypes: seq<SoilType> := [Sandy, Loamy, Clay, Red, Black, Alluvial]

  /** `features[feature]`: the value of one numeric field. */
  function Value(x: CropFeatures, f: Feature): real
  {
    match f
    case SoilPH => x.soilPH
    case Nitrogen => x.nitrogen
    case Phosphorus => x.phosphorus
    case Potassium => x.potassium
    case Temperature => x.temperature
    case Humidity => x.humidity
    case Rainfall => x.rainfall
  }

  function Labels(data: seq<Sample>): (ls: seq<string>)
    ensures |ls| == |data|
    ensures forall i :: 0 <= i < |data| ==> ls[i] == data[i].crop
  {
    seq(|data|, i requires 0 <= i < |data| => data[i].crop)
  }

  /** The values of one feature across a data set (`data.map(d => d.features[feature])`). */
  function Values(data: seq<Sample>, f: Feature): (vs: seq<real>)
    ensures |vs| == |data|
    ensures forall i :: 0 <= i < |data| ==> vs[i] == Value(data[i].features, f)
  {
    seq(|data|, i requires 0 <= i < |data| => Value(data[i].features, f))
  }

  /** A value `Math.random()` can return. */
  predicate IsDraw(u: real)
  {
    0.0 <= u < 1.0
  }

  predicate AllDraws(us: seq<real>)
  {
    forall i :: 0 <= i < |us| ==> IsDraw(us[i])
  }

  /** `Math.floor(Math.random() * n)`: a uniform index below `n`. */
  function DrawIndex(u: real, n: nat): (i: nat)
    requires IsDraw(u) && n > 0
    ensures i < n
  {
    var x := u * n as real;
    assert 0.0 <= x < n as real;
    x.Floor
  }
}
