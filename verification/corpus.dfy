/**
 * Synthetic training corpus (`generateTrainingData`) and the keyword-based
 * feature extraction (`extractFeaturesFromDescription`) of
 * src/ai/ml/random-forest-model.ts. Every `Math.random()` call is an explicit
 * draw in [0, 1), consumed in the order the source makes the calls.
 */
module Corpus {
  import opened Features
  import opened Counting
  import opened Text

  /** One entry of `cropCharacteristics`: the centre of a crop's cluster. */
  datatype Centroid = Centroid(
    crop: string,
    soilPH: real,
    nitrogen: real,
    phosphorus: real,
    potassium: real,
    temperature: real,
    humidity: real,
    rainfall: real)

  /** The eight crop classes, in the order `Object.entries` visits them. */
  const Centroids: seq<Centroid> := [
    Centroid("rice", 6.5, 80.0, 40.0, 40.0, 25.0, 80.0, 150.0),
    Centroid("wheat", 6.8, 100.0, 50.0, 30.0, 22.0, 60.0, 80.0),
    Centroid("cotton", 6.5, 120.0, 60.0, 50.0, 28.0, 65.0, 100.0),
    Centroid("sugarcane", 6.5, 110.0, 55.0, 60.0, 30.0, 75.0, 140.0),
    Centroid("maize", 6.5, 90.0, 45.0, 45.0, 26.0, 70.0, 90.0),
    Centroid("pulses", 7.0, 40.0, 50.0, 40.0, 24.0, 65.0, 70.0),
    Centroid("vegetables", 6.5, 100.0, 70.0, 80.0, 25.0, 75.0, 110.0),
    Centroid("oilseeds", 6.8, 70.0, 60.0, 50.0, 27.0, 60.0, 85.0)
  ]

  const SamplesPerCrop: nat := 50

  /** One draw for the soil class, then one per numeric feature. */
  const DrawsPerSample: nat := 8

  const CorpusSize: nat := 400

  function CropNames(): (names: seq<string>)
    ensures |names| == |Centroids|
    ensures forall j :: 0 <= j < |Centroids| ==> names[j] == Centroids[j].crop
  {
    seq(|Centroids|, j requires 0 <= j < |Centroids| => Centroids[j].crop)
  }

  function CentroidValue(c: Centroid, f: Feature): real
  {
    match f
    case SoilPH => c.soilPH
    case Nitrogen => c.nitrogen
    case Phosphorus => c.phosphorus
    case Potassium => c.potassium
    case Temperature => c.temperature
    case Humidity => c.humidity
    case Rainfall => c.rainfall
  }

  /** Full width of the uniform noise added to each feature. */
  function NoiseWidth(f: Feature): (w: real)
    ensures w > 0.0
  {
    match f
    case SoilPH => 1.5
    case Nitrogen => 40.0
    case Phosphorus => 30.0
    case Potassium => 30.0
    case Temperature => 8.0
    case Humidity => 25.0
    case Rainfall => 60.0
  }

  /** `center + (Math.random() - 0.5) * width`: a value within half the width of the centre. */
  function Jitter(center: real, width: real, u: real): (v: real)
    requires IsDraw(u) && width > 0.0
    ensures center - width / 2.0 <= v < center + width / 2.0
  {
    center + (u - 0.5) * width
  }

  /** One generated sample of crop `c`, consuming the eight draws `u` in call order. */
  function MakeSample(c: Centroid, u: seq<real>): (s: Sample)
    requires |u| == DrawsPerSample && AllDraws(u)
    ensures s.crop == c.crop
    ensures forall f: Feature :: CentroidValue(c, f) - NoiseWidth(f) / 2.0 <= Value(s.features, f)
    ensures forall f: Feature :: Value(s.features, f) < CentroidValue(c, f) + NoiseWidth(f) / 2.0
  {
    Sample(
      CropFeatures(
        Jitter(c.soilPH, NoiseWidth(SoilPH), u[1]),
        Jitter(c.nitrogen, NoiseWidth(Nitrogen), u[2]),
        Jitter(c.phosphorus, NoiseWidth(Phosphorus), u[3]),
        Jitter(c.potassium, NoiseWidth(Potassium), u[4]),
        Jitter(c.temperature, NoiseWidth(Temperature), u[5]),
        Jitter(c.humidity, NoiseWidth(Humidity), u[6]),
        Jitter(c.rainfall, NoiseWidth(Rainfall), u[7]),
        SoilTypes[DrawIndex(u[0], |SoilTypes|)]),
      c.crop)
  }

  /** The draws of sample `k`. */
  function SampleDraws(noise: seq<real>, k: nat): (u: seq<real>)
    requires |noise| == CorpusSize * DrawsPerSample && AllDraws(noise) && k < CorpusSize
    ensures |u| == DrawsPerSample && AllDraws(u)
  {
    noise[DrawsPerSample * k .. DrawsPerSample * k + DrawsPerSample]
  }

  /**
   * `generateTrainingData`: 50 samples per crop, class-major and unshuffled,
   * each feature within half its noise width of the crop's centroid.
   */
  function GenerateTrainingData(noise: seq<real>): (data: seq<Sample>)
    requires |noise| == CorpusSize * DrawsPerSample && AllDraws(noise)
    ensures |data| == CorpusSize == |Centroids| * SamplesPerCrop
    ensures forall k :: 0 <= k < |data| ==> data[k].crop == Centroids[k / SamplesPerCrop].crop
    ensures forall k, f: Feature :: 0 <= k < |data| ==>
      CentroidValue(Centroids[k / SamplesPerCrop], f) - NoiseWidth(f) / 2.0 <= Value(data[k].features, f)
    ensures forall k, f: Feature :: 0 <= k < |data| ==>
      Value(data[k].features, f) < CentroidValue(Centroids[k / SamplesPerCrop], f) + NoiseWidth(f) / 2.0
  {
    seq(CorpusSize, k requires 0 <= k < CorpusSize =>
      MakeSample(Centroids[k / SamplesPerCrop], SampleDraws(noise, k)))
  }

  function Repeat(x: string, n: nat): (r: seq<string>)
    ensures |r| == n && forall i :: 0 <= i < n ==> r[i] == x
  {
    seq(n, _ => x)
  }

  /** The class-major label layout: each name repeated `SamplesPerCrop` times, in order. */
  function ClassMajor(names: seq<string>): (r: seq<string>)
    ensures |r| == |names| * SamplesPerCrop
    ensures forall k :: 0 <= k < |r| ==> r[k] == names[k / SamplesPerCrop]
  {
    if |names| == 0 then []
    else
      var rest := ClassMajor(names[1..]);
      assert forall k :: SamplesPerCrop <= k < |names| * SamplesPerCrop ==>
        (k - SamplesPerCrop) / SamplesPerCrop + 1 == k / SamplesPerCrop;
      Repeat(names[0], SamplesPerCrop) + rest
  }

  lemma {:induction false} OccurrencesRepeat(x: string, n: nat, y: string)
    ensures Occurrences(Repeat(x, n), y) == if x == y then n else 0
  {
    if n > 0 {
      OccurrencesRepeat(x, n - 1, y);
      assert Repeat(x, n)[..n - 1] == Repeat(x, n - 1);
    }
  }

  lemma {:induction false} OccurrencesClassMajor(names: seq<string>, y: string)
    ensures Occurrences(ClassMajor(names), y) == SamplesPerCrop * Occurrences(names, y)
  {
    if |names| > 0 {
      OccurrencesClassMajor(names[1..], y);
      OccurrencesAppend(Repeat(names[0], SamplesPerCrop), ClassMajor(names[1..]), y);
      OccurrencesRepeat(names[0], SamplesPerCrop, y);
      OccurrencesAppend([names[0]], names[1..], y);
      assert [names[0]] + names[1..] == names;
      assert Occurrences([names[0]], y) == if names[0] == y then 1 else 0 by {
        assert [names[0]][..0] == [];
      }
    }
  }

  /** In a list without repetitions every element occurs once. */
  lemma {:induction false} OccurrencesDistinct(xs: seq<string>, j: nat)
    requires forall a, b :: 0 <= a < b < |xs| ==> xs[a] != xs[b]
    requires j < |xs|
    ensures Occurrences(xs, xs[j]) == 1
  {
    var init := xs[..|xs| - 1];
    if j == |xs| - 1 {
      assert xs[j] !in init;
      OccurrencesPositive(init, xs[j]);
    } else {
      OccurrencesDistinct(init, j);
    }
  }

  lemma CropNamesDistinct()
    ensures forall a, b :: 0 <= a < b < |CropNames()| ==> CropNames()[a] != CropNames()[b]
  {
    var names := CropNames();
    assert names == ["rice", "wheat", "cotton", "sugarcane", "maize", "pulses", "vegetables", "oilseeds"];
  }

  lemma LabelsAreClassMajor(noise: seq<real>)
    requires |noise| == CorpusSize * DrawsPerSample && AllDraws(noise)
    ensures Labels(GenerateTrainingData(noise)) == ClassMajor(CropNames())
  {
    var data := GenerateTrainingData(noise);
    var ls, cm := Labels(data), ClassMajor(CropNames());
    assert |ls| == |cm|;
    forall k | 0 <= k < |ls| ensures ls[k] == cm[k] {
      assert ls[k] == data[k].crop;
    }
  }

  lemma {:induction false} ClassMajorBalanced(j: nat)
    requires j < |Centroids|
    ensures Occurrences(ClassMajor(CropNames()), Centroids[j].crop) == SamplesPerCrop
  {
    var names := CropNames();
    CropNamesDistinct();
    OccurrencesClassMajor(names, names[j]);
    OccurrencesDistinct(names, j);
  }

  lemma {:induction false} ClassMajorOnlyCrops(x: string)
    requires x !in CropNames()
    ensures Occurrences(ClassMajor(CropNames()), x) == 0
  {
    OccurrencesClassMajor(CropNames(), x);
    OccurrencesPositive(CropNames(), x);
  }

  /** Each of the eight crops labels exactly 50 samples, and no other label occurs. */
  lemma CorpusBalanced(noise: seq<real>)
    requires |noise| == CorpusSize * DrawsPerSample && AllDraws(noise)
    ensures forall j :: 0 <= j < |Centroids| ==>
      Occurrences(Labels(GenerateTrainingData(noise)), Centroids[j].crop) == SamplesPerCrop
    ensures forall x :: x !in CropNames() ==>
      Occurrences(Labels(GenerateTrainingData(noise)), x) == 0
  {
    LabelsAreClassMajor(noise);
    forall j | 0 <= j < |Centroids| ensures Occurrences(ClassMajor(CropNames()), Centroids[j].crop) == SamplesPerCrop {
      ClassMajorBalanced(j);
    }
    forall x | x !in CropNames() ensures Occurrences(ClassMajor(CropNames()), x) == 0 {
      ClassMajorOnlyCrops(x);
    }
  }

  /** Every label is one of the eight crops and labels exactly 50 samples. */
  predicate Balanced(data: seq<Sample>)
  {
    forall l :: l in Labels(data) ==> l in CropNames() && Occurrences(Labels(data), l) == SamplesPerCrop
  }

  lemma CorpusIsBalanced(noise: seq<real>)
    requires |noise| == CorpusSize * DrawsPerSample && AllDraws(noise)
    ensures Balanced(GenerateTrainingData(noise))
  {
    var data := GenerateTrainingData(noise);
    CorpusBalanced(noise);
    forall l | l in Labels(data) ensures l in CropNames() && Occurrences(Labels(data), l) == SamplesPerCrop {
      var k :| 0 <= k < |data| && Labels(data)[k] == l;
      var j := k / SamplesPerCrop;
      assert l == Centroids[j].crop == CropNames()[j];
    }
  }

  // ---- extractFeaturesFromDescription ----

  /** The keyword that selects each soil class; Loamy is the default and has none. */
  function Keyword(s: SoilType): string
  {
    match s
    case Sandy => "sandy"
    case Clay => "clay"
    case Red => "red"
    case Black => "black"
    case Alluvial => "alluvial"
    case Loamy => ""
  }

  /** The order in which the keywords are tried; the default comes last. */
  function Priority(s: SoilType): nat
  {
    match s
    case Sandy => 0
    case Clay => 1
    case Red => 2
    case Black => 3
    case Alluvial => 4
    case Loamy => 5
  }

  /**
   * The soil class named by a free-text land description: the first keyword,
   * in priority order, that occurs in the lower-cased text; Loamy when none does.
   */
  function SoilTypeFromDescription(description: string): (s: SoilType)
    ensures s != Loamy ==> Contains(Lower(description), Keyword(s))
    ensures forall t: SoilType :: t != Loamy && Priority(t) < Priority(s) ==>
      !Contains(Lower(description), Keyword(t))
  {
    var desc := Lower(description);
    if Contains(desc, "sandy") then Sandy
    else if Contains(desc, "clay") then Clay
    else if Contains(desc, "red") then Red
    else if Contains(desc, "black") then Black
    else if Contains(desc, "alluvial") then Alluvial
    else Loamy
  }

  /** Only the letters of the description matter, not their case. */
  lemma SoilTypeIgnoresCase(description: string)
    ensures SoilTypeFromDescription(Lower(description)) == SoilTypeFromDescription(description)
  {
    LowerIdempotent(description);
  }

  /**
   * `extractFeaturesFromDescription`: the soil class from the text and seven
   * jittered base values from the draws `u`; the region argument is unused.
   */
  function ExtractFeaturesFromDescription(description: string, region: string, u: seq<real>): (x: CropFeatures)
    requires |u| == 7 && AllDraws(u)
    ensures x.soilType == SoilTypeFromDescription(description)
    ensures 6.25 <= x.soilPH < 6.75
    ensures 70.0 <= x.nitrogen < 100.0
    ensures 45.0 <= x.phosphorus < 65.0
    ensures 40.0 <= x.potassium < 60.0
    ensures 24.0 <= x.temperature < 28.0
    ensures 62.5 <= x.humidity < 77.5
    ensures 100.0 <= x.rainfall < 140.0
  {
    CropFeatures(
      Jitter(6.5, 0.5, u[0]),
      70.0 + u[1] * 30.0,
      45.0 + u[2] * 20.0,
      40.0 + u[3] * 20.0,
      Jitter(26.0, 4.0, u[4]),
      Jitter(70.0, 15.0, u[5]),
      Jitter(120.0, 40.0, u[6]),
      SoilTypeFromDescription(description))
  }
}
