/**
 * `exportTrainingDataSummary` of src/ai/ml/utils.ts: per crop label, the
 * number of samples and the running mean of each numeric feature, kept in a
 * `Map` in first-seen order.
 */
module TrainingSummary {
  import opened Features
  import opened Counting
  import opened Arith
  import opened Corpus

  /** One map entry; `means[k]` is the average of `NumericFeatures[k]`. */
  datatype Stats = Stats(crop: string, count: nat, means: seq<real>)

  // ---- the running mean ----

  /**
   * `avg' = (avg * (count - 1) + value) / count` with the new count: if `avg`
   * averages `count - 1` values, the result averages those and `v`.
   */
  function MeanStep(avg: real, count: nat, v: real): (m: real)
    requires count > 0
    ensures m * count as real == avg * (count - 1) as real + v
    ensures count == 1 ==> m == v
  {
    (avg * (count - 1) as real + v) / count as real
  }

  /** The running mean over `vs`, one step per value; 0 for no values (`avg || 0`). */
  function RunningMean(vs: seq<real>): real
  {
    if |vs| == 0 then 0.0 else MeanStep(RunningMean(vs[..|vs| - 1]), |vs|, vs[|vs| - 1])
  }

  function Sum(vs: seq<real>): real
  {
    if |vs| == 0 then 0.0 else Sum(vs[..|vs| - 1]) + vs[|vs| - 1]
  }

  /** After `k` values the running mean is their arithmetic mean. */
  lemma {:induction false} RunningMeanIsMean(vs: seq<real>)
    requires |vs| > 0
    ensures RunningMean(vs) == Sum(vs) / |vs| as real
    decreases |vs|
  {
    var init, v, n := vs[..|vs| - 1], vs[|vs| - 1], |vs|;
    if |init| > 0 {
      RunningMeanIsMean(init);
      DivMul(Sum(init), (n - 1) as real);
    }
  }

  // ---- the per-label map ----

  /** The values of feature `f` over the samples labelled `crop`, in order. */
  function ValuesOf(data: seq<Sample>, crop: string, f: Feature): seq<real>
  {
    if |data| == 0 then []
    else
      var x := data[|data| - 1];
      ValuesOf(data[..|data| - 1], crop, f) + (if x.crop == crop then [Value(x.features, f)] else [])
  }

  /** The running means of every numeric feature over the samples labelled `crop`. */
  function MeansOf(data: seq<Sample>, crop: string): (ms: seq<real>)
    ensures |ms| == |NumericFeatures|
  {
    seq(|NumericFeatures|, k requires 0 <= k < |NumericFeatures| => RunningMean(ValuesOf(data, crop, NumericFeatures[k])))
  }

  predicate HasStats(s: seq<Stats>, crop: string)
  {
    exists i :: 0 <= i < |s| && s[i].crop == crop
  }

  predicate DistinctStats(s: seq<Stats>)
  {
    forall i, j :: 0 <= i < j < |s| ==> s[i].crop != s[j].crop
  }

  /** Fold one sample's features into an entry whose count has just been incremented. */
  function Fold(means: seq<real>, count: nat, x: CropFeatures): (r: seq<real>)
    requires count > 0 && |means| == |NumericFeatures|
    ensures |r| == |NumericFeatures|
  {
    seq(|NumericFeatures|, k requires 0 <= k < |NumericFeatures| =>
      MeanStep(means[k], count, Value(x, NumericFeatures[k])))
  }

  const NoMeans: seq<real> := [0.0, 0.0, 0.0, 0.0, 0.0, 0.0, 0.0]

  /** An entry after one more sample of its label: the count goes up and every mean takes a step. */
  function Counted(e: Stats, x: CropFeatures): Stats
    requires |e.means| == |NumericFeatures|
  {
    Stats(e.crop, e.count + 1, Fold(e.means, e.count + 1, x))
  }

  /** The entry a label's first sample creates. */
  function Fresh(x: Sample): Stats
  {
    Stats(x.crop, 1, Fold(NoMeans, 1, x.features))
  }

  /** One `forEach` step: create the label's entry if missing, count the sample, fold its features in. */
  function Add(s: seq<Stats>, x: Sample): (r: seq<Stats>)
    requires DistinctStats(s) && forall i :: 0 <= i < |s| ==> |s[i].means| == |NumericFeatures|
    ensures |s| <= |r| && (HasStats(s, x.crop) ==> |r| == |s|)
    ensures forall i :: 0 <= i < |s| && s[i].crop == x.crop ==>
      r[i] == Counted(s[i], x.features)
    ensures forall i :: 0 <= i < |s| && s[i].crop != x.crop ==> r[i] == s[i]
    ensures !HasStats(s, x.crop) ==> r == s + [Fresh(x)]
  {
    if |s| == 0 then [Fresh(x)]
    else if s[0].crop == x.crop then
      assert forall i :: 0 < i < |s| ==> s[i].crop != x.crop;
      [Counted(s[0], x.features)] + s[1..]
    else
      var rest := Add(s[1..], x);
      HasStatsTail(s, x.crop);
      assert forall i :: 0 < i < |s| ==> ([s[0]] + rest)[i] == rest[i - 1] && s[i] == s[1..][i - 1];
      [s[0]] + rest
  }

  lemma HasStatsTail(s: seq<Stats>, a: string)
    requires |s| > 0 && s[0].crop != a
    ensures HasStats(s, a) <==> HasStats(s[1..], a)
  {
    if HasStats(s, a) {
      var i :| 0 <= i < |s| && s[i].crop == a;
      assert s[1..][i - 1].crop == a;
    }
    if HasStats(s[1..], a) {
      var i :| 0 <= i < |s[1..]| && s[1..][i].crop == a;
      assert s[i + 1].crop == a;
    }
  }

  /**
   * `s` is the summary of `data` in closed form: one entry per distinct label
   * in first-seen order, with its number of samples and the running means of
   * its samples' features.
   */
  predicate SummaryOf(data: seq<Sample>, s: seq<Stats>)
  {
    && |s| == |Tally(Labels(data))|
    && forall i :: 0 <= i < |s| ==>
         && s[i].crop == Tally(Labels(data))[i].key
         && s[i].count == Occurrences(Labels(data), s[i].crop)
         && s[i].means == MeansOf(data, s[i].crop)
  }

  /** The summary after the samples of `data`, one `forEach` step at a time. */
  function Summary(data: seq<Sample>): (s: seq<Stats>)
    ensures SummaryOf(data, s)
  {
    if |data| == 0 then []
    else
      var init, x := data[..|data| - 1], data[|data| - 1];
      assert init + [x] == data;
      var s0 := Summary(init);
      SummaryStep(init, x, s0);
      Add(s0, x)
  }

  lemma EntriesWellShaped(data: seq<Sample>, s: seq<Stats>)
    requires SummaryOf(data, s)
    ensures DistinctStats(s) && forall i :: 0 <= i < |s| ==> |s[i].means| == |NumericFeatures|
  {
  }

  lemma HasStatsIffKey(data: seq<Sample>, s: seq<Stats>, a: string)
    requires SummaryOf(data, s)
    ensures HasStats(s, a) <==> KeyIn(Tally(Labels(data)), a)
  {
    var t := Tally(Labels(data));
    if KeyIn(t, a) {
      var i :| 0 <= i < |t| && t[i].key == a;
      assert s[i].crop == a;
    }
    if HasStats(s, a) {
      var i :| 0 <= i < |s| && s[i].crop == a;
      assert t[i].key == a;
    }
  }

  lemma LabelsSnoc(init: seq<Sample>, x: Sample)
    ensures Labels(init + [x]) == Labels(init) + [x.crop]
  {
  }

  lemma SummaryStep(init: seq<Sample>, x: Sample, s0: seq<Stats>)
    requires SummaryOf(init, s0)
    ensures DistinctStats(s0) && forall i :: 0 <= i < |s0| ==> |s0[i].means| == |NumericFeatures|
    ensures SummaryOf(init + [x], Add(s0, x))
  {
    EntriesWellShaped(init, s0);
    var data := init + [x];
    var s := Add(s0, x);
    SummaryLength(init, x, s0);
    forall i | 0 <= i < |s|
      ensures s[i].crop == Tally(Labels(data))[i].key
      ensures s[i].count == Occurrences(Labels(data), s[i].crop)
      ensures s[i].means == MeansOf(data, s[i].crop)
    {
      EntryKeyStep(init, x, s0, i);
      EntryCountStep(init, x, s0, i);
      EntryMeansStep(init, x, s0, i);
    }
  }

  lemma SummaryLength(init: seq<Sample>, x: Sample, s0: seq<Stats>)
    requires SummaryOf(init, s0)
    requires DistinctStats(s0) && forall i :: 0 <= i < |s0| ==> |s0[i].means| == |NumericFeatures|
    ensures |Add(s0, x)| == |Tally(Labels(init + [x]))|
  {
    LabelsSnoc(init, x);
    TallySnoc(Labels(init), x.crop);
    HasStatsIffKey(init, s0, x.crop);
  }

  /** Entry `i` keeps its place in first-seen order. */
  lemma EntryKeyStep(init: seq<Sample>, x: Sample, s0: seq<Stats>, i: nat)
    requires SummaryOf(init, s0)
    requires DistinctStats(s0) && forall i :: 0 <= i < |s0| ==> |s0[i].means| == |NumericFeatures|
    requires i < |Add(s0, x)|
    ensures i < |Tally(Labels(init + [x]))|
    ensures Add(s0, x)[i].crop == Tally(Labels(init + [x]))[i].key
  {
    SummaryLength(init, x, s0);
    LabelsSnoc(init, x);
    TallySnoc(Labels(init), x.crop);
    HasStatsIffKey(init, s0, x.crop);
    var t0 := Tally(Labels(init));
    var s := Add(s0, x);
    if i < |s0| {
      assert s[i].crop == s0[i].crop == t0[i].key;
      BumpKeepsKey(t0, x.crop, i);
    } else {
      BumpAppends(t0, x.crop);
    }
  }

  /** Entry `i` counts its label's samples. */
  lemma EntryCountStep(init: seq<Sample>, x: Sample, s0: seq<Stats>, i: nat)
    requires SummaryOf(init, s0)
    requires DistinctStats(s0) && forall i :: 0 <= i < |s0| ==> |s0[i].means| == |NumericFeatures|
    requires i < |Add(s0, x)|
    ensures Add(s0, x)[i].count == Occurrences(Labels(init + [x]), Add(s0, x)[i].crop)
  {
    var s := Add(s0, x);
    var a := s[i].crop;
    LabelsSnoc(init, x);
    OccurrencesAppend(Labels(init), [x.crop], a);
    if i >= |s0| {
      HasStatsIffKey(init, s0, x.crop);
      KeyInTallyIff(Labels(init), a);
      OccurrencesPositive(Labels(init), a);
    }
  }

  lemma ValuesOfSnoc(init: seq<Sample>, x: Sample, a: string, f: Feature)
    ensures ValuesOf(init + [x], a, f) == ValuesOf(init, a, f) + (if x.crop == a then [Value(x.features, f)] else [])
  {
    assert (init + [x])[..|init|] == init;
  }

  lemma {:induction false} NoLabelNoValues(data: seq<Sample>, a: string, f: Feature)
    requires a !in Labels(data)
    ensures ValuesOf(data, a, f) == []
    decreases |data|
  {
    if |data| > 0 {
      assert Labels(data)[..|data| - 1] == Labels(data[..|data| - 1]);
      assert Labels(data)[|data| - 1] == data[|data| - 1].crop;
      NoLabelNoValues(data[..|data| - 1], a, f);
    }
  }

  lemma {:induction false} ValuesOfCount(data: seq<Sample>, a: string, f: Feature)
    ensures |ValuesOf(data, a, f)| == Occurrences(Labels(data), a)
    decreases |data|
  {
    if |data| > 0 {
      ValuesOfCount(data[..|data| - 1], a, f);
      assert Labels(data)[..|data| - 1] == Labels(data[..|data| - 1]);
    }
  }

  /** Entry `i` holds the running means of its label's samples. */
  lemma EntryMeansStep(init: seq<Sample>, x: Sample, s0: seq<Stats>, i: nat)
    requires SummaryOf(init, s0)
    requires DistinctStats(s0) && forall i :: 0 <= i < |s0| ==> |s0[i].means| == |NumericFeatures|
    requires i < |Add(s0, x)|
    ensures Add(s0, x)[i].means == MeansOf(init + [x], Add(s0, x)[i].crop)
  {
    var s := Add(s0, x);
    if i < |s0| {
      MeansKept(init, x, s0[i], s[i]);
    } else {
      HasStatsIffKey(init, s0, x.crop);
      KeyInTallyIff(Labels(init), x.crop);
      MeansCreated(init, x);
    }
  }

  /** An existing entry's means take one running-mean step when its label comes round. */
  lemma MeansKept(init: seq<Sample>, x: Sample, e0: Stats, e: Stats)
    requires e0.count == Occurrences(Labels(init), e0.crop) && e0.means == MeansOf(init, e0.crop)
    requires e == if e0.crop == x.crop
      then Counted(e0, x.features)
      else e0
    ensures e.crop == e0.crop && e.means == MeansOf(init + [x], e.crop)
  {
    var a := e0.crop;
    forall k | 0 <= k < |NumericFeatures|
      ensures e.means[k] == RunningMean(ValuesOf(init + [x], a, NumericFeatures[k]))
    {
      var f := NumericFeatures[k];
      ValuesOfSnoc(init, x, a, f);
      var vs := ValuesOf(init, a, f);
      if a == x.crop {
        ValuesOfCount(init, a, f);
        MeanAppend(vs, Value(x.features, f));
      } else {
        assert vs + [] == vs;
      }
    }
  }

  lemma MeanAppend(vs: seq<real>, v: real)
    ensures RunningMean(vs + [v]) == MeanStep(RunningMean(vs), |vs| + 1, v)
  {
    assert (vs + [v])[..|vs|] == vs;
  }

  /** A label's first sample creates an entry whose means are that sample's features. */
  lemma MeansCreated(init: seq<Sample>, x: Sample)
    requires x.crop !in Labels(init)
    ensures Fresh(x).means == MeansOf(init + [x], x.crop)
  {
    forall k | 0 <= k < |NumericFeatures|
      ensures Fold(NoMeans, 1, x.features)[k] == RunningMean(ValuesOf(init + [x], x.crop, NumericFeatures[k]))
    {
      var f := NumericFeatures[k];
      ValuesOfSnoc(init, x, x.crop, f);
      NoLabelNoValues(init, x.crop, f);
      MeanAppend([], Value(x.features, f));
      assert [] + [Value(x.features, f)] == [Value(x.features, f)];
    }
  }

  /**
   * Each entry counts its label's samples and holds, for each numeric
   * feature, the arithmetic mean of that feature over those samples.
   */
  lemma SummaryHoldsMeans(data: seq<Sample>, i: nat, k: nat)
    requires i < |Summary(data)| && k < |NumericFeatures|
    ensures var e, f := Summary(data)[i], NumericFeatures[k];
      && e.count == |ValuesOf(data, e.crop, f)| > 0
      && e.means[k] == Sum(ValuesOf(data, e.crop, f)) / e.count as real
  {
    var e, f := Summary(data)[i], NumericFeatures[k];
    ValuesOfCount(data, e.crop, f);
    OccurrencesPositive(Labels(data), e.crop);
    RunningMeanIsMean(ValuesOf(data, e.crop, f));
  }

  /** Every entry belongs to one of the eight crops and counts 50 samples. */
  predicate FiftyPerCrop(s: seq<Stats>)
  {
    forall i :: 0 <= i < |s| ==> s[i].crop in CropNames() && s[i].count == SamplesPerCrop
  }

  /**
   * `exportTrainingDataSummary` over the generated corpus: each of the eight
   * crops has an entry, and every entry is a crop with 50 samples.
   */
  function ExportTrainingDataSummary(noise: seq<real>): (s: seq<Stats>)
    requires |noise| == CorpusSize * DrawsPerSample && AllDraws(noise)
    ensures FiftyPerCrop(s)
    ensures forall j :: 0 <= j < |Centroids| ==> HasStats(s, Centroids[j].crop)
  {
    CorpusEntries(noise);
    CorpusCovered(noise);
    Summary(GenerateTrainingData(noise))
  }

  lemma CorpusCovered(noise: seq<real>)
    requires |noise| == CorpusSize * DrawsPerSample && AllDraws(noise)
    ensures forall j :: 0 <= j < |Centroids| ==> HasStats(Summary(GenerateTrainingData(noise)), Centroids[j].crop)
  {
    var data := GenerateTrainingData(noise);
    CorpusBalanced(noise);
    forall j | 0 <= j < |Centroids| ensures HasStats(Summary(data), Centroids[j].crop) {
      var a := Centroids[j].crop;
      OccurrencesPositive(Labels(data), a);
      KeyInTallyIff(Labels(data), a);
      HasStatsIffKey(data, Summary(data), a);
    }
  }

  lemma CorpusEntries(noise: seq<real>)
    requires |noise| == CorpusSize * DrawsPerSample && AllDraws(noise)
    ensures FiftyPerCrop(Summary(GenerateTrainingData(noise)))
  {
    CorpusIsBalanced(noise);
    BalancedEntries(GenerateTrainingData(noise));
  }

  lemma BalancedEntries(data: seq<Sample>)
    requires Balanced(data)
    ensures FiftyPerCrop(Summary(data))
  {
    var s := Summary(data);
    forall i | 0 <= i < |s| ensures s[i].crop in CropNames() && s[i].count == SamplesPerCrop {
      assert s[i].crop in Labels(data);
    }
  }
}
