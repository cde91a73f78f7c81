/**
 * `getRealisticPrediction` of src/ai/flows/yield-prediction.ts: a yield
 * estimate in tonnes per acre, the product of a base yield for the crop, a
 * state modifier, a soil modifier, a sowing-month factor and a random factor.
 */
module YieldPrediction {
  import opened Wrappers
  import opened Text

  /** The flow's input; the sowing date is reduced to its month (1-12), `None` when the date is invalid. */
  datatype YieldInput = YieldInput(cropType: string, state: string, soilType: string, sowingMonth: Option<int>)

  type Table = seq<(string, real)>

  /** Look `key` up in a string-keyed object literal; `None` when it has no such property. */
  function Lookup(table: Table, key: string): (v: Option<real>)
    ensures v.Some? <==> exists i :: 0 <= i < |table| && table[i].0 == key
    ensures v.Some? ==> exists i :: 0 <= i < |table| && table[i] == (key, v.value)
  {
    if |table| == 0 then None
    else if table[0].0 == key then Some(table[0].1)
    else
      var v := Lookup(table[1..], key);
      assert forall i :: 1 <= i < |table| ==> table[i] == table[1..][i - 1];
      v
  }

  /** `table[key] || table['default']`: every listed value is non-zero, so only a missing key falls back. */
  function LookupOr(table: Table, key: string, default: real): real
  {
    match Lookup(table, key)
    case Some(v) => if v != 0.0 then v else default
    case None => default
  }

  const BaseYields: Table := [
    ("rice", 2.4), ("wheat", 3.0), ("maize", 2.5), ("sugarcane", 32.0), ("cotton", 0.5),
    ("jute", 1.5), ("groundnut", 1.2), ("pulses", 0.8), ("default", 1.8)]

  const StateModifiers: Table := [
    ("Odisha", 1.0), ("Punjab", 1.25), ("Haryana", 1.2), ("Uttar Pradesh", 1.1), ("default", 1.0)]

  const SoilModifiers: Table := [
    ("alluvial", 1.1), ("red", 1.0), ("laterite", 0.9), ("black", 1.05),
    ("coastal saline", 0.85), ("loamy", 1.05), ("sandy", 0.95), ("clay", 1.0), ("default", 1.0)]

  /** Every value of `table` lies in [lo, hi]. */
  predicate Within(table: Table, lo: real, hi: real)
  {
    forall i :: 0 <= i < |table| ==> lo <= table[i].1 <= hi
  }

  function BaseYield(cropType: string): (y: real)
    ensures Lookup(BaseYields, Lower(cropType)).Some? ==> y == Lookup(BaseYields, Lower(cropType)).value
    ensures Lookup(BaseYields, Lower(cropType)).None? ==> y == 1.8
    ensures 0.5 <= y <= 32.0
  {
    LookupOr(BaseYields, Lower(cropType), 1.8)
  }

  function StateModifier(state: string): (m: real)
    ensures Lookup(StateModifiers, state).Some? ==> m == Lookup(StateModifiers, state).value
    ensures Lookup(StateModifiers, state).None? ==> m == 1.0
    ensures 1.0 <= m <= 1.25
  {
    LookupOr(StateModifiers, state, 1.0)
  }

  function SoilModifier(soilType: string): (m: real)
    ensures Lookup(SoilModifiers, Lower(soilType)).Some? ==> m == Lookup(SoilModifiers, Lower(soilType)).value
    ensures Lookup(SoilModifiers, Lower(soilType)).None? ==> m == 1.0
    ensures 0.85 <= m <= 1.1
  {
    LookupOr(SoilModifiers, Lower(soilType), 1.0)
  }

  /** Monsoon-sown crops. */
  const KharifCrops: seq<string> := ["rice", "jute", "maize", "groundnut"]
  /** Winter-sown crops. */
  const RabiCrops: seq<string> := ["wheat", "pulses"]

  /** `sowingMonth >= lo && sowingMonth <= hi`; an invalid date compares false with everything. */
  predicate MonthIn(month: Option<int>, lo: int, hi: int)
  {
    month.Some? && lo <= month.value <= hi
  }

  function SowingFactor(cropType: string, month: Option<int>): (f: real)
    ensures Lower(cropType) in KharifCrops ==>
      f == if MonthIn(month, 6, 8) then 1.1 else if MonthIn(month, 9, 10) then 0.9 else 0.75
    ensures Lower(cropType) in RabiCrops ==>
      f == if MonthIn(month, 10, 12) then 1.05 else 0.8
    ensures Lower(cropType) !in KharifCrops && Lower(cropType) !in RabiCrops ==> f == 1.0
    ensures 0.75 <= f <= 1.1
  {
    var crop := Lower(cropType);
    if crop in KharifCrops then
      if MonthIn(month, 6, 8) then 1.1 else if MonthIn(month, 9, 10) then 0.9 else 0.75
    else if crop in RabiCrops then
      if MonthIn(month, 10, 12) then 1.05 else 0.8
    else 1.0
  }

  /** `1 + (Math.random() - 0.5) * 0.15` for the draw `u`. */
  function RandomFactor(u: real): (f: real)
    requires 0.0 <= u < 1.0
    ensures 0.925 <= f < 1.075
  {
    1.0 + (u - 0.5) * 0.15
  }

  /** The estimate before the random factor. */
  function Expected(input: YieldInput): (e: real)
    ensures 0.0 < e
  {
    Product(BaseYield(input.cropType), StateModifier(input.state),
      SoilModifier(input.soilType), SowingFactor(input.cropType, input.sowingMonth))
  }

  function Product(b: real, s: real, o: real, w: real): (p: real)
    requires 0.0 < b && 0.0 < s && 0.0 < o && 0.0 < w
    ensures 0.0 < p
  {
    assert 0.0 < b * s;
    assert 0.0 < b * s * o;
    b * s * o * w
  }

  /** The prediction lies within 7.5% of the deterministic estimate, which is positive. */
  function GetRealisticPrediction(input: YieldInput, u: real): (y: real)
    requires 0.0 <= u < 1.0
    ensures Expected(input) * 0.925 <= y < Expected(input) * 1.075
  {
    Scaled(Expected(input), RandomFactor(u))
  }

  /** `e * r` for a factor `r` in [0.925, 1.075). */
  function Scaled(e: real, r: real): (y: real)
    requires 0.0 < e && 0.925 <= r < 1.075
    ensures e * 0.925 <= y < e * 1.075
  {
    ScaleRange(e, r, 0.925, 1.075);
    e * r
  }

  lemma ScaleRange(e: real, x: real, lo: real, hi: real)
    requires 0.0 < e && lo <= x < hi
    ensures e * lo <= e * x < e * hi
  {
  }

  /** The crop and soil lookups ignore case; the state lookup does not. */
  lemma LookupsCaseHandling(input: YieldInput)
    ensures BaseYield(input.cropType) == BaseYield(Lower(input.cropType))
    ensures SoilModifier(input.soilType) == SoilModifier(Lower(input.soilType))
    ensures SowingFactor(input.cropType, input.sowingMonth) == SowingFactor(Lower(input.cropType), input.sowingMonth)
    ensures StateModifier("Punjab") == 1.25 && StateModifier("punjab") == 1.0
  {
    LowerIdempotent(input.cropType);
    LowerIdempotent(input.soilType);
    assert Lookup(StateModifiers, "punjab").None?;
  }

  /** An unknown crop gets the default base yield and a neutral sowing factor. */
  lemma UnknownCrop(cropType: string, month: Option<int>)
    requires forall i :: 0 <= i < |BaseYields| ==> BaseYields[i].0 != Lower(cropType)
    ensures BaseYield(cropType) == 1.8
    ensures SowingFactor(cropType, month) == 1.0
  {
    assert Lower(cropType) !in KharifCrops && Lower(cropType) !in RabiCrops by {
      assert forall k :: 0 <= k < |KharifCrops| ==> KharifCrops[k] == BaseYields[[0, 5, 2, 6][k]].0;
      assert forall k :: 0 <= k < |RabiCrops| ==> RabiCrops[k] == BaseYields[[1, 7][k]].0;
    }
  }

  /** An unparsable sowing date takes the off-season factor. */
  lemma InvalidDateIsOffSeason(cropType: string)
    ensures Lower(cropType) in KharifCrops ==> SowingFactor(cropType, None) == 0.75
    ensures Lower(cropType) in RabiCrops ==> SowingFactor(cropType, None) == 0.8
  {
  }
}
