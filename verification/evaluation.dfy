/**
 * The bookkeeping of `evaluateModel` in src/ai/ml/utils.ts: the 80/20 split of
 * a shuffled corpus, and the tallies kept while the test samples are
 * classified. These are the overall hit count, the confusion matrix (a `Map`
 * from actual crop to a `Map` from predicted crop to count) and the per-crop
 * correct/total counters.
 */
module Evaluation {
  import opened Counting
  import opened Arith

  /** One classified test sample. */
  datatype Outcome = Outcome(actual: string, predicted: string)

  /** A confusion-matrix row: the predictions made for one actual crop, in first-seen order. */
  datatype Row = Row(actual: string, cells: seq<Entry<string>>)

  /** The `{ correct, total }` counter kept for one actual crop. */
  datatype ClassCount = ClassCount(crop: string, correct: nat, total: nat)

  // ---- reference definitions ----

  function Actuals(os: seq<Outcome>): (xs: seq<string>)
    ensures |xs| == |os|
    ensures forall i :: 0 <= i < |os| ==> xs[i] == os[i].actual
  {
    seq(|os|, i requires 0 <= i < |os| => os[i].actual)
  }

  /** The predictions made for samples whose actual crop is `a`, in order. */
  function PredictedFor(os: seq<Outcome>, a: string): seq<string>
  {
    if |os| == 0 then []
    else
      var o := os[|os| - 1];
      PredictedFor(os[..|os| - 1], a) + (if o.actual == a then [o.predicted] else [])
  }

  /** The number of samples classified correctly. */
  function Hits(os: seq<Outcome>): nat
  {
    if |os| == 0 then 0
    else Hits(os[..|os| - 1]) + (if os[|os| - 1].predicted == os[|os| - 1].actual then 1 else 0)
  }

  lemma {:induction false} PredictedForCount(os: seq<Outcome>, a: string)
    ensures |PredictedFor(os, a)| == Occurrences(Actuals(os), a)
    decreases |os|
  {
    if |os| > 0 {
      PredictedForCount(os[..|os| - 1], a);
      assert Actuals(os)[..|os| - 1] == Actuals(os[..|os| - 1]);
    }
  }

  lemma {:induction false} HitsAtMostLength(os: seq<Outcome>)
    ensures Hits(os) <= |os|
    decreases |os|
  {
    if |os| > 0 {
      HitsAtMostLength(os[..|os| - 1]);
    }
  }

  // ---- the confusion matrix ----

  predicate DistinctActuals(m: seq<Row>)
  {
    forall i, j :: 0 <= i < j < |m| ==> m[i].actual != m[j].actual
  }

  predicate HasRow(m: seq<Row>, a: string)
  {
    exists i :: 0 <= i < |m| && m[i].actual == a
  }

  /**
   * `if (!confusionMatrix.has(actual)) confusionMatrix.set(actual, new Map())`
   * followed by `row.set(predicted, (row.get(predicted) || 0) + 1)`.
   */
  function Record(m: seq<Row>, a: string, p: string): (r: seq<Row>)
    requires DistinctActuals(m)
    requires forall i :: 0 <= i < |m| ==> DistinctKeys(m[i].cells)
    ensures |m| <= |r| && (HasRow(m, a) ==> |r| == |m|)
    ensures forall i :: 0 <= i < |m| ==>
      r[i] == if m[i].actual == a then Row(a, Bump(m[i].cells, p)) else m[i]
    ensures !HasRow(m, a) ==> r == m + [Row(a, Bump([], p))]
  {
    if |m| == 0 then [Row(a, Bump([], p))]
    else if m[0].actual == a then
      assert forall i :: 0 < i < |m| ==> m[i].actual != a;
      [Row(a, Bump(m[0].cells, p))] + m[1..]
    else
      var rest := Record(m[1..], a, p);
      HasRowTail(m, a);
      assert forall i :: 0 < i < |m| ==> ([m[0]] + rest)[i] == rest[i - 1] && m[i] == m[1..][i - 1];
      [m[0]] + rest
  }

  lemma HasRowTail(m: seq<Row>, a: string)
    requires |m| > 0 && m[0].actual != a
    ensures HasRow(m, a) <==> HasRow(m[1..], a)
  {
    if HasRow(m, a) {
      var i :| 0 <= i < |m| && m[i].actual == a;
      assert m[1..][i - 1].actual == a;
    }
    if HasRow(m[1..], a) {
      var i :| 0 <= i < |m[1..]| && m[1..][i].actual == a;
      assert m[i + 1].actual == a;
    }
  }

  /**
   * `m` is the matrix of `os` in closed form: one row per distinct actual
   * crop in first-seen order, each row the tally of that crop's predictions.
   */
  predicate MatrixOf(os: seq<Outcome>, m: seq<Row>)
  {
    && |m| == |Tally(Actuals(os))|
    && forall i :: 0 <= i < |m| ==>
         m[i].actual == Tally(Actuals(os))[i].key && m[i].cells == Tally(PredictedFor(os, m[i].actual))
  }

  /** The confusion matrix after the samples of `os`, one `forEach` step at a time. */
  function Confusion(os: seq<Outcome>): (m: seq<Row>)
    ensures MatrixOf(os, m)
  {
    if |os| == 0 then []
    else
      var init, o := os[..|os| - 1], os[|os| - 1];
      assert init + [o] == os;
      var m0 := Confusion(init);
      ConfusionStep(init, o, m0);
      Record(m0, o.actual, o.predicted)
  }

  lemma RowsHaveDistinctCells(os: seq<Outcome>, m: seq<Row>)
    requires MatrixOf(os, m)
    ensures DistinctActuals(m)
    ensures forall i :: 0 <= i < |m| ==> DistinctKeys(m[i].cells)
  {
  }

  lemma ConfusionStep(init: seq<Outcome>, o: Outcome, m0: seq<Row>)
    requires MatrixOf(init, m0)
    ensures DistinctActuals(m0)
    ensures forall i :: 0 <= i < |m0| ==> DistinctKeys(m0[i].cells)
    ensures MatrixOf(init + [o], Record(m0, o.actual, o.predicted))
  {
    RowsHaveDistinctCells(init, m0);
    var os := init + [o];
    var t := Tally(Actuals(os));
    var m := Record(m0, o.actual, o.predicted);
    RowsLength(init, o, m0);
    forall i | 0 <= i < |m|
      ensures m[i].actual == t[i].key && m[i].cells == Tally(PredictedFor(os, m[i].actual))
    {
      RowKeyStep(init, o, m0, i);
      RowStep(init, o, m0, i);
    }
  }

  lemma RowsLength(init: seq<Outcome>, o: Outcome, m0: seq<Row>)
    requires MatrixOf(init, m0)
    requires DistinctActuals(m0) && forall k :: 0 <= k < |m0| ==> DistinctKeys(m0[k].cells)
    ensures |Record(m0, o.actual, o.predicted)| == |Tally(Actuals(init + [o]))|
  {
    ActualsSnoc(init, o);
    TallySnoc(Actuals(init), o.actual);
    HasRowIffKey(init, m0, o.actual);
  }

  /** Row `i` after one more sample keeps its place in first-seen order. */
  lemma RowKeyStep(init: seq<Outcome>, o: Outcome, m0: seq<Row>, i: nat)
    requires MatrixOf(init, m0)
    requires DistinctActuals(m0) && forall k :: 0 <= k < |m0| ==> DistinctKeys(m0[k].cells)
    requires i < |Record(m0, o.actual, o.predicted)|
    ensures i < |Tally(Actuals(init + [o]))|
    ensures Record(m0, o.actual, o.predicted)[i].actual == Tally(Actuals(init + [o]))[i].key
  {
    RowsLength(init, o, m0);
    ActualsSnoc(init, o);
    TallySnoc(Actuals(init), o.actual);
    HasRowIffKey(init, m0, o.actual);
    var t0 := Tally(Actuals(init));
    var m := Record(m0, o.actual, o.predicted);
    if i < |m0| {
      assert m[i].actual == m0[i].actual == t0[i].key;
      BumpKeepsKey(t0, o.actual, i);
    } else {
      BumpAppends(t0, o.actual);
    }
  }

  lemma PredictedForSnoc(init: seq<Outcome>, o: Outcome, a: string)
    ensures PredictedFor(init + [o], a) == PredictedFor(init, a) + (if o.actual == a then [o.predicted] else [])
  {
    assert (init + [o])[..|init|] == init;
  }

  /** Row `i` of the matrix after one more sample is the tally of its crop's predictions. */
  lemma RowStep(init: seq<Outcome>, o: Outcome, m0: seq<Row>, i: nat)
    requires MatrixOf(init, m0)
    requires DistinctActuals(m0) && forall k :: 0 <= k < |m0| ==> DistinctKeys(m0[k].cells)
    requires i < |Record(m0, o.actual, o.predicted)|
    ensures var m := Record(m0, o.actual, o.predicted);
      m[i].cells == Tally(PredictedFor(init + [o], m[i].actual))
  {
    var m := Record(m0, o.actual, o.predicted);
    var a := m[i].actual;
    PredictedForSnoc(init, o, a);
    if i < |m0| {
      assert m0[i].actual == a;
      var pf := PredictedFor(init, a);
      assert m0[i].cells == Tally(pf);
      if a == o.actual {
        assert m[i].cells == Bump(Tally(pf), o.predicted);
        TallySnoc(pf, o.predicted);
      } else {
        assert m[i] == m0[i];
        assert pf + [] == pf;
        assert PredictedFor(init + [o], a) == pf;
      }
    } else {
      assert !HasRow(m0, o.actual);
      assert m[i] == Row(o.actual, Bump([], o.predicted));
      HasRowIffKey(init, m0, a);
      KeyInTallyIff(Actuals(init), a);
      NoRowNoPredictions(init, a);
      TallySnoc([], o.predicted);
      assert PredictedFor(init + [o], a) == [] + [o.predicted];
    }
  }

  lemma HasRowIffKey(os: seq<Outcome>, m: seq<Row>, a: string)
    requires MatrixOf(os, m)
    ensures HasRow(m, a) <==> KeyIn(Tally(Actuals(os)), a)
  {
    var t := Tally(Actuals(os));
    if KeyIn(t, a) {
      var i :| 0 <= i < |t| && t[i].key == a;
      assert m[i].actual == a;
    }
    if HasRow(m, a) {
      var i :| 0 <= i < |m| && m[i].actual == a;
      assert t[i].key == a;
    }
  }

  /** A crop that never occurs as actual has no predictions recorded for it. */
  lemma {:induction false} NoRowNoPredictions(os: seq<Outcome>, a: string)
    requires a !in Actuals(os)
    ensures PredictedFor(os, a) == []
    decreases |os|
  {
    if |os| > 0 {
      assert Actuals(os)[..|os| - 1] == Actuals(os[..|os| - 1]);
      assert Actuals(os)[|os| - 1] == os[|os| - 1].actual;
      NoRowNoPredictions(os[..|os| - 1], a);
    }
  }

  /** The sum of a row's cells. */
  function RowTotal(r: Row): nat
  {
    SumCounts(r.cells)
  }

  function MatrixTotal(m: seq<Row>): nat
  {
    if |m| == 0 then 0 else RowTotal(m[0]) + MatrixTotal(m[1..])
  }

  /**
   * Each test sample increments exactly one cell: the cell (a, p) counts the
   * samples of actual crop `a` predicted as `p`, a row adds up to the number
   * of samples of its crop, and a crop gets a row exactly when it occurs.
   */
  lemma ConfusionCells(os: seq<Outcome>, i: nat, p: string)
    requires i < |Confusion(os)|
    ensures var r := Confusion(os)[i];
      && CountOf(r.cells, p) == Occurrences(PredictedFor(os, r.actual), p)
      && RowTotal(r) == Occurrences(Actuals(os), r.actual)
      && r.actual in Actuals(os)
  {
    var r := Confusion(os)[i];
    CountOfTally(PredictedFor(os, r.actual), p);
    TallyTotal(PredictedFor(os, r.actual));
    PredictedForCount(os, r.actual);
  }

  /** The whole matrix counts every test sample once. */
  lemma {:induction false} ConfusionTotal(os: seq<Outcome>)
    ensures MatrixTotal(Confusion(os)) == |os|
    decreases |os|
  {
    if |os| > 0 {
      var init, o := os[..|os| - 1], os[|os| - 1];
      assert init + [o] == os;
      var m0 := Confusion(init);
      assert Confusion(os) == Record(m0, o.actual, o.predicted);
      ConfusionTotal(init);
      RowsHaveDistinctCells(init, m0);
      RecordAddsOne(m0, o.actual, o.predicted);
    }
  }

  lemma {:induction false} RecordAddsOne(m: seq<Row>, a: string, p: string)
    requires DistinctActuals(m)
    requires forall i :: 0 <= i < |m| ==> DistinctKeys(m[i].cells)
    ensures MatrixTotal(Record(m, a, p)) == MatrixTotal(m) + 1
    decreases |m|
  {
    var r := Record(m, a, p);
    if |m| == 0 {
      assert r == [Row(a, Bump([], p))];
      BumpAddsOne([], p);
      assert MatrixTotal(r) == RowTotal(r[0]) + MatrixTotal(r[1..]);
      assert r[1..] == [];
    } else if m[0].actual == a {
      BumpAddsOne(m[0].cells, p);
      assert r[1..] == m[1..];
    } else {
      RecordAddsOne(m[1..], a, p);
      assert r[1..] == Record(m[1..], a, p);
    }
  }

  // ---- the per-crop counters ----

  predicate DistinctCrops(cs: seq<ClassCount>)
  {
    forall i, j :: 0 <= i < j < |cs| ==> cs[i].crop != cs[j].crop
  }

  predicate HasClass(cs: seq<ClassCount>, a: string)
  {
    exists i :: 0 <= i < |cs| && cs[i].crop == a
  }

  /** A counter after one more sample of its crop: one more total, and one more correct on a hit. */
  function Tick(c: ClassCount, hit: bool): ClassCount
  {
    ClassCount(c.crop, c.correct + (if hit then 1 else 0), c.total + 1)
  }

  /** `cropCount.total++`, and `cropCount.correct++` on a hit, creating the counter on first sight. */
  function RecordClass(cs: seq<ClassCount>, a: string, hit: bool): (r: seq<ClassCount>)
    requires DistinctCrops(cs)
    ensures |cs| <= |r| && (HasClass(cs, a) ==> |r| == |cs|)
    ensures forall i :: 0 <= i < |cs| ==> r[i] == if cs[i].crop == a then Tick(cs[i], hit) else cs[i]
    ensures !HasClass(cs, a) ==> r == cs + [Tick(ClassCount(a, 0, 0), hit)]
  {
    if |cs| == 0 then [Tick(ClassCount(a, 0, 0), hit)]
    else if cs[0].crop == a then
      assert forall i :: 0 < i < |cs| ==> cs[i].crop != a;
      [Tick(cs[0], hit)] + cs[1..]
    else
      DistinctCropsTail(cs);
      var rest := RecordClass(cs[1..], a, hit);
      HasClassTail(cs, a);
      assert forall i :: 0 < i < |cs| ==> ([cs[0]] + rest)[i] == rest[i - 1] && cs[i] == cs[1..][i - 1];
      [cs[0]] + rest
  }

  lemma DistinctCropsTail(cs: seq<ClassCount>)
    requires |cs| > 0 && DistinctCrops(cs)
    ensures DistinctCrops(cs[1..])
  {
    forall i, j | 0 <= i < j < |cs| - 1 ensures cs[1..][i].crop != cs[1..][j].crop {
      assert cs[1..][i] == cs[i + 1] && cs[1..][j] == cs[j + 1];
    }
  }

  lemma HasClassTail(cs: seq<ClassCount>, a: string)
    requires |cs| > 0 && cs[0].crop != a
    ensures HasClass(cs, a) <==> HasClass(cs[1..], a)
  {
    if HasClass(cs, a) {
      var i :| 0 <= i < |cs| && cs[i].crop == a;
      assert cs[1..][i - 1].crop == a;
    }
    if HasClass(cs[1..], a) {
      var i :| 0 <= i < |cs[1..]| && cs[1..][i].crop == a;
      assert cs[i + 1].crop == a;
    }
  }

  /**
   * `cs` holds the counters of `os` in closed form: one per distinct actual
   * crop in first-seen order, `total` its samples, `correct` those predicted right.
   */
  predicate CountersOf(os: seq<Outcome>, cs: seq<ClassCount>)
  {
    && |cs| == |Tally(Actuals(os))|
    && forall i :: 0 <= i < |cs| ==>
         && cs[i].crop == Tally(Actuals(os))[i].key
         && cs[i].total == |PredictedFor(os, cs[i].crop)|
         && cs[i].correct == Occurrences(PredictedFor(os, cs[i].crop), cs[i].crop)
  }

  /** The per-crop counters after the samples of `os`, one `forEach` step at a time. */
  function Classes(os: seq<Outcome>): (cs: seq<ClassCount>)
    ensures CountersOf(os, cs)
  {
    if |os| == 0 then []
    else
      var init, o := os[..|os| - 1], os[|os| - 1];
      assert init + [o] == os;
      var c0 := Classes(init);
      ClassesStep(init, o, c0);
      RecordClass(c0, o.actual, o.predicted == o.actual)
  }

  lemma HasClassIffKey(os: seq<Outcome>, cs: seq<ClassCount>, a: string)
    requires CountersOf(os, cs)
    ensures DistinctCrops(cs)
    ensures HasClass(cs, a) <==> KeyIn(Tally(Actuals(os)), a)
  {
    var t := Tally(Actuals(os));
    if KeyIn(t, a) {
      var i :| 0 <= i < |t| && t[i].key == a;
      assert cs[i].crop == a;
    }
    if HasClass(cs, a) {
      var i :| 0 <= i < |cs| && cs[i].crop == a;
      assert t[i].key == a;
    }
  }

  lemma ClassesStep(init: seq<Outcome>, o: Outcome, c0: seq<ClassCount>)
    requires CountersOf(init, c0)
    ensures DistinctCrops(c0)
    ensures CountersOf(init + [o], RecordClass(c0, o.actual, o.predicted == o.actual))
  {
    var os := init + [o];
    HasClassIffKey(init, c0, o.actual);
    assert Actuals(os) == Actuals(init) + [o.actual];
    TallySnoc(Actuals(init), o.actual);
    var t0 := Tally(Actuals(init));
    var t := Tally(Actuals(os));
    var cs := RecordClass(c0, o.actual, o.predicted == o.actual);
    CountersLength(init, o, c0);
    forall i | 0 <= i < |cs|
      ensures cs[i].crop == t[i].key
      ensures cs[i].total == |PredictedFor(os, cs[i].crop)|
      ensures cs[i].correct == Occurrences(PredictedFor(os, cs[i].crop), cs[i].crop)
    {
      CounterKeyStep(init, o, c0, i);
      CounterStep(init, o, c0, i);
    }
  }

  lemma CountersLength(init: seq<Outcome>, o: Outcome, c0: seq<ClassCount>)
    requires CountersOf(init, c0) && DistinctCrops(c0)
    ensures |RecordClass(c0, o.actual, o.predicted == o.actual)| == |Tally(Actuals(init + [o]))|
  {
    assert Actuals(init + [o]) == Actuals(init) + [o.actual];
    TallySnoc(Actuals(init), o.actual);
    HasClassIffKey(init, c0, o.actual);
  }

  lemma ActualsSnoc(init: seq<Outcome>, o: Outcome)
    ensures Actuals(init + [o]) == Actuals(init) + [o.actual]
  {
  }

  /** Counter `i` after one more sample keeps its place in first-seen order. */
  lemma CounterKeyStep(init: seq<Outcome>, o: Outcome, c0: seq<ClassCount>, i: nat)
    requires CountersOf(init, c0) && DistinctCrops(c0)
    requires i < |RecordClass(c0, o.actual, o.predicted == o.actual)|
    ensures i < |Tally(Actuals(init + [o]))|
    ensures RecordClass(c0, o.actual, o.predicted == o.actual)[i].crop == Tally(Actuals(init + [o]))[i].key
  {
    CountersLength(init, o, c0);
    ActualsSnoc(init, o);
    TallySnoc(Actuals(init), o.actual);
    HasClassIffKey(init, c0, o.actual);
    var t0 := Tally(Actuals(init));
    var cs := RecordClass(c0, o.actual, o.predicted == o.actual);
    if i < |c0| {
      assert cs[i].crop == c0[i].crop == t0[i].key;
      BumpKeepsKey(t0, o.actual, i);
    } else {
      BumpAppends(t0, o.actual);
    }
  }

  /** Counter `i` after one more sample still counts its crop's samples and hits. */
  lemma CounterStep(init: seq<Outcome>, o: Outcome, c0: seq<ClassCount>, i: nat)
    requires CountersOf(init, c0) && DistinctCrops(c0)
    requires i < |RecordClass(c0, o.actual, o.predicted == o.actual)|
    ensures var c := RecordClass(c0, o.actual, o.predicted == o.actual)[i];
      && c.total == |PredictedFor(init + [o], c.crop)|
      && c.correct == Occurrences(PredictedFor(init + [o], c.crop), c.crop)
  {
    var cs := RecordClass(c0, o.actual, o.predicted == o.actual);
    if i < |c0| {
      CounterKept(init, o, c0[i], cs[i]);
    } else {
      assert cs[i] == ClassCount(o.actual, if o.predicted == o.actual then 1 else 0, 1);
      HasClassIffKey(init, c0, o.actual);
      KeyInTallyIff(Actuals(init), o.actual);
      CounterCreated(init, o);
    }
  }

  /** An existing counter takes one `forEach` step. */
  lemma CounterKept(init: seq<Outcome>, o: Outcome, c0: ClassCount, c: ClassCount)
    requires c0.total == |PredictedFor(init, c0.crop)|
    requires c0.correct == Occurrences(PredictedFor(init, c0.crop), c0.crop)
    requires c == if c0.crop == o.actual
      then ClassCount(o.actual, c0.correct + (if o.predicted == o.actual then 1 else 0), c0.total + 1)
      else c0
    ensures c.crop == c0.crop
    ensures c.total == |PredictedFor(init + [o], c.crop)|
    ensures c.correct == Occurrences(PredictedFor(init + [o], c.crop), c.crop)
  {
    var a := c0.crop;
    var pf := PredictedFor(init, a);
    PredictedForSnoc(init, o, a);
    if a == o.actual {
      OccurrencesAppend(pf, [o.predicted], a);
    } else {
      assert pf + [] == pf;
    }
  }

  /** The counter a crop's first sample creates. */
  lemma CounterCreated(init: seq<Outcome>, o: Outcome)
    requires o.actual !in Actuals(init)
    ensures var c := ClassCount(o.actual, if o.predicted == o.actual then 1 else 0, 1);
      && c.total == |PredictedFor(init + [o], c.crop)|
      && c.correct == Occurrences(PredictedFor(init + [o], c.crop), c.crop)
  {
    PredictedForSnoc(init, o, o.actual);
    NoRowNoPredictions(init, o.actual);
    assert PredictedFor(init + [o], o.actual) == [] + [o.predicted];
  }

  function SumCorrect(cs: seq<ClassCount>): nat
  {
    if |cs| == 0 then 0 else cs[0].correct + SumCorrect(cs[1..])
  }

  lemma {:induction false} RecordClassAddsHit(cs: seq<ClassCount>, a: string, hit: bool)
    requires DistinctCrops(cs)
    ensures SumCorrect(RecordClass(cs, a, hit)) == SumCorrect(cs) + (if hit then 1 else 0)
    decreases |cs|
  {
    var r := RecordClass(cs, a, hit);
    if |cs| == 0 {
      assert r[1..] == [];
    } else if cs[0].crop == a {
      assert r[1..] == cs[1..];
    } else {
      RecordClassAddsHit(cs[1..], a, hit);
      assert r[1..] == RecordClass(cs[1..], a, hit);
    }
  }

  /** The per-crop correct counts add up to the overall number of hits. */
  lemma {:induction false} ClassesSumToHits(os: seq<Outcome>)
    ensures SumCorrect(Classes(os)) == Hits(os)
    decreases |os|
  {
    if |os| > 0 {
      var init, o := os[..|os| - 1], os[|os| - 1];
      ClassesSumToHits(init);
      RecordClassAddsHit(Classes(init), o.actual, o.predicted == o.actual);
    }
  }

  /** No crop has more correct than total predictions, and every counter saw its crop. */
  lemma ClassCountsBounded(os: seq<Outcome>, i: nat)
    requires i < |Classes(os)|
    ensures Classes(os)[i].correct <= Classes(os)[i].total
    ensures Classes(os)[i].total == Occurrences(Actuals(os), Classes(os)[i].crop) > 0
  {
    var c := Classes(os)[i];
    OccurrencesAtMostLength(PredictedFor(os, c.crop), c.crop);
    PredictedForCount(os, c.crop);
  }

  // ---- accuracies ----

  /** `accuracy = correct / testData.length`. */
  function Accuracy(os: seq<Outcome>): (acc: real)
    requires |os| > 0
    ensures 0.0 <= acc <= 1.0
    ensures acc == 1.0 <==> forall i :: 0 <= i < |os| ==> os[i].predicted == os[i].actual
  {
    HitsAtMostLength(os);
    Ratio(Hits(os), |os|);
    AllHitIff(os);
    Hits(os) as real / |os| as real
  }

  lemma {:induction false} AllHitIff(os: seq<Outcome>)
    ensures Hits(os) == |os| <==> forall i :: 0 <= i < |os| ==> os[i].predicted == os[i].actual
    decreases |os|
  {
    if |os| > 0 {
      var init := os[..|os| - 1];
      AllHitIff(init);
      HitsAtMostLength(init);
      if Hits(os) == |os| {
        forall i | 0 <= i < |os| ensures os[i].predicted == os[i].actual {
          if i < |os| - 1 {
            assert os[i] == init[i];
          }
        }
      }
      if forall i :: 0 <= i < |os| ==> os[i].predicted == os[i].actual {
        assert forall i :: 0 <= i < |init| ==> init[i] == os[i];
      }
    }
  }

  /** Every counter saw its crop and was right at most every time. */
  predicate Bounded(cs: seq<ClassCount>)
  {
    forall i :: 0 <= i < |cs| ==> 0 < cs[i].total && cs[i].correct <= cs[i].total
  }

  datatype CropAccuracy = CropAccuracy(crop: string, accuracy: real)

  /** `cropAccuracies`: `correct / total` per crop, in first-seen order, each in [0, 1]. */
  function CropAccuracies(cs: seq<ClassCount>): (accs: seq<CropAccuracy>)
    requires Bounded(cs)
    ensures |accs| == |cs|
    ensures forall i :: 0 <= i < |cs| ==> accs[i].crop == cs[i].crop && 0.0 <= accs[i].accuracy <= 1.0
    ensures forall i :: 0 <= i < |cs| ==> (accs[i].accuracy == 1.0 <==> cs[i].correct == cs[i].total)
  {
    seq(|cs|, i requires 0 <= i < |cs| => AccuracyOf(cs[i]))
  }

  function AccuracyOf(c: ClassCount): (a: CropAccuracy)
    requires 0 < c.total && c.correct <= c.total
    ensures a.crop == c.crop && 0.0 <= a.accuracy <= 1.0
    ensures a.accuracy == 1.0 <==> c.correct == c.total
  {
    Ratio(c.correct, c.total);
    CropAccuracy(c.crop, c.correct as real / c.total as real)
  }

  datatype Report = Report(accuracy: real, confusion: seq<Row>, cropAccuracies: seq<CropAccuracy>)

  /** The three results `evaluateModel` returns, from the classified test samples. */
  function Summarise(os: seq<Outcome>): (r: Report)
    requires |os| > 0
    ensures 0.0 <= r.accuracy <= 1.0
    ensures MatrixTotal(r.confusion) == |os|
    ensures |r.cropAccuracies| == |r.confusion|
    ensures forall i :: 0 <= i < |r.confusion| ==>
      && r.cropAccuracies[i].crop == r.confusion[i].actual
      && 0.0 <= r.cropAccuracies[i].accuracy <= 1.0
  {
    CountersMatchRows(os);
    ConfusionTotal(os);
    Assemble(Accuracy(os), Confusion(os), Classes(os))
  }

  /** Pair the matrix with the per-crop accuracies of counters that follow the same crops. */
  function Assemble(accuracy: real, m: seq<Row>, cs: seq<ClassCount>): (r: Report)
    requires |cs| == |m| && Bounded(cs)
    requires forall i :: 0 <= i < |cs| ==> cs[i].crop == m[i].actual
    ensures r.accuracy == accuracy && r.confusion == m
    ensures |r.cropAccuracies| == |r.confusion|
    ensures forall i :: 0 <= i < |r.confusion| ==>
      && r.cropAccuracies[i].crop == r.confusion[i].actual
      && 0.0 <= r.cropAccuracies[i].accuracy <= 1.0
  {
    Report(accuracy, m, CropAccuracies(cs))
  }

  /** The counters and the matrix rows follow the same crops, and every counter is bounded. */
  lemma CountersMatchRows(os: seq<Outcome>)
    ensures |Classes(os)| == |Confusion(os)|
    ensures forall i :: 0 <= i < |Classes(os)| ==> Classes(os)[i].crop == Confusion(os)[i].actual
    ensures Bounded(Classes(os))
  {
    var cs := Classes(os);
    forall i | 0 <= i < |cs|
      ensures 0 < cs[i].total && cs[i].correct <= cs[i].total
    {
      ClassCountsBounded(os, i);
    }
  }

  /**
   * The report agrees with the outcomes: accuracy is the hit rate, every
   * cell counts the samples of its actual and predicted crop, each row adds
   * up to its crop's samples, each crop's accuracy is the share of its
   * samples predicted right, and the per-crop hits add up to all hits.
   */
  lemma SummaryAgreesWithOutcomes(os: seq<Outcome>, i: nat, p: string)
    requires |os| > 0 && i < |Summarise(os).confusion|
    ensures var r := Summarise(os);
      && r.accuracy == Hits(os) as real / |os| as real
      && CountOf(r.confusion[i].cells, p) == Occurrences(PredictedFor(os, r.confusion[i].actual), p)
      && RowTotal(r.confusion[i]) == Occurrences(Actuals(os), r.confusion[i].actual)
      && |PredictedFor(os, r.confusion[i].actual)| > 0
      && r.cropAccuracies[i].accuracy
        == Occurrences(PredictedFor(os, r.confusion[i].actual), r.confusion[i].actual) as real
          / |PredictedFor(os, r.confusion[i].actual)| as real
      && SumCorrect(Classes(os)) == Hits(os)
  {
    ConfusionCells(os, i, p);
    CropAccuracyIsHitRate(os, i);
    ClassesSumToHits(os);
  }

  /** A crop's accuracy in the report is the share of its samples predicted as that crop. */
  lemma CropAccuracyIsHitRate(os: seq<Outcome>, i: nat)
    requires |os| > 0 && i < |Summarise(os).confusion|
    ensures var r := Summarise(os);
      && |PredictedFor(os, r.confusion[i].actual)| > 0
      && r.cropAccuracies[i].accuracy
        == Occurrences(PredictedFor(os, r.confusion[i].actual), r.confusion[i].actual) as real
          / |PredictedFor(os, r.confusion[i].actual)| as real
  {
    CountersMatchRows(os);
    var cs := Classes(os);
    assert Summarise(os).confusion == Confusion(os);
    assert Summarise(os).cropAccuracies == CropAccuracies(cs);
    CounterAccuracy(os, cs, i);
  }

  lemma CounterAccuracy(os: seq<Outcome>, cs: seq<ClassCount>, i: nat)
    requires CountersOf(os, cs) && Bounded(cs) && i < |cs|
    ensures |PredictedFor(os, cs[i].crop)| > 0
    ensures CropAccuracies(cs)[i].accuracy
      == Occurrences(PredictedFor(os, cs[i].crop), cs[i].crop) as real / |PredictedFor(os, cs[i].crop)| as real
  {
    assert CropAccuracies(cs)[i] == AccuracyOf(cs[i]);
  }
}
