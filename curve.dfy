/** The five compiled-in hysteresis curves and the level-selection rule
    (src/curve.c, src/curve.h). A curve is nine half-open temperature bands,
    one per fan level 0..8; neighbouring bands overlap on purpose so that a
    temperature hovering near a boundary does not make the fan flap. */
module Curve {
  import opened Wrappers
  import Fan

  /** One band per level, 0..8; level 8 is the internal "disengaged" level. */
  const MaxRanges := Fan.FanMax + 1

  /** Both ends of every literal table: absolute zero below, 255 above. */
  const TableFloor := -273
  const TableCeiling := 255

  /** A band `[min, max)` in whole degrees Celsius. */
  datatype FanRange = FanRange(min: int, max: int) {
    predicate Contains(temp: int) {
      min <= temp < max
    }
  }

  /** The curve identifiers of src/curve.h. */
  datatype CurveNum = Cold | Cool | Medium | Warm | Hot {
    /** The enumerator's value in the C header. */
    function Number(): (n: int)
      ensures 0 <= n <= 4
    {
      match this
      case Cold => 0
      case Cool => 1
      case Medium => 2
      case Warm => 3
      case Hot => 4
    }
  }

  const HotCurve: seq<FanRange> := [
    FanRange(-273, 56), FanRange(55, 60), FanRange(58, 63),
    FanRange(61, 66), FanRange(64, 69), FanRange(66, 71),
    FanRange(71, 76), FanRange(73, 77), FanRange(75, 255)]

  const WarmCurve: seq<FanRange> := [
    FanRange(-273, 51), FanRange(50, 55), FanRange(53, 58),
    FanRange(56, 61), FanRange(59, 64), FanRange(62, 67),
    FanRange(66, 72), FanRange(70, 77), FanRange(75, 255)]

  const MediumCurve: seq<FanRange> := [
    FanRange(-273, 45), FanRange(43, 50), FanRange(48, 55),
    FanRange(53, 60), FanRange(58, 65), FanRange(63, 70),
    FanRange(68, 75), FanRange(73, 77), FanRange(75, 255)]

  const CoolCurve: seq<FanRange> := [
    FanRange(-273, 45), FanRange(42, 47), FanRange(46, 51),
    FanRange(50, 55), FanRange(54, 59), FanRange(58, 63),
    FanRange(62, 67), FanRange(64, 71), FanRange(68, 255)]

  const ColdCurve: seq<FanRange> := [
    FanRange(-273, 45), FanRange(42, 47), FanRange(44, 49),
    FanRange(46, 51), FanRange(48, 53), FanRange(51, 56),
    FanRange(54, 59), FanRange(57, 62), FanRange(60, 255)]

  /** Some band of `t` contains `temp`. */
  predicate InSomeBand(t: seq<FanRange>, temp: int) {
    exists i :: 0 <= i < |t| && t[i].Contains(temp)
  }

  /** Each band starts no higher than the previous one ends, so together the
      bands leave no gap between the first band's floor and the last band's
      ceiling. */
  predicate Chained(t: seq<FanRange>) {
    forall i :: 0 < i < |t| ==> t[i].min <= t[i - 1].max
  }

  /** Every band lies inside `[lo, hi)`. */
  predicate Bounded(t: seq<FanRange>, lo: int, hi: int) {
    forall i :: 0 <= i < |t| ==> lo <= t[i].min && t[i].max <= hi
  }

  /** A chained table covers every temperature from its first band's floor
      up to (excluding) its last band's ceiling. */
  lemma {:induction false} ChainedCovers(t: seq<FanRange>, temp: int)
    requires |t| > 0 && Chained(t)
    requires t[0].min <= temp < t[|t| - 1].max
    ensures InSomeBand(t, temp)
    decreases |t|
  {
    var n := |t|;
    if temp >= t[n - 1].min {
      assert t[n - 1].Contains(temp);
    } else {
      var p := t[..n - 1];
      assert p[n - 2] == t[n - 2];
      ChainedCovers(p, temp);
      var i :| 0 <= i < |p| && p[i].Contains(temp);
      assert t[i].Contains(temp);
    }
  }

  /** The shape every literal table has: nine chained bands from -273 up to
      255, each inside that span. */
  predicate WellFormed(t: seq<FanRange>) {
    && |t| == MaxRanges
    && t[0].min == TableFloor && t[Fan.FanMax].max == TableCeiling
    && Chained(t) && Bounded(t, TableFloor, TableCeiling)
  }

  lemma HotWellFormed() ensures WellFormed(HotCurve) {}
  lemma WarmWellFormed() ensures WellFormed(WarmCurve) {}
  lemma MediumWellFormed() ensures WellFormed(MediumCurve) {}
  lemma CoolWellFormed() ensures WellFormed(CoolCurve) {}
  lemma ColdWellFormed() ensures WellFormed(ColdCurve) {}

  /** `curve_from_number`: the table of a curve. Every literal table has nine
      chained bands from -273 to 255, so it covers every temperature the
      sensors can report below 255 and nothing outside that span. */
  function Table(c: CurveNum): (t: seq<FanRange>)
    ensures |t| == MaxRanges
    ensures t[0].min == TableFloor && t[Fan.FanMax].max == TableCeiling
    ensures Chained(t) && Bounded(t, TableFloor, TableCeiling)
  {
    match c
    case Cold => ColdWellFormed(); ColdCurve
    case Cool => CoolWellFormed(); CoolCurve
    case Medium => MediumWellFormed(); MediumCurve
    case Warm => WarmWellFormed(); WarmCurve
    case Hot => HotWellFormed(); HotCurve
  }

  /** Coverage: for every curve and every temperature in [-273, 255) some
      band matches, so the "not in any range" error path is unreachable. */
  lemma TableCovers(c: CurveNum, temp: int)
    requires TableFloor <= temp < TableCeiling
    ensures InSomeBand(Table(c), temp)
  {
    ChainedCovers(Table(c), temp);
  }

  /** Outside [-273, 255) no band matches. */
  lemma TableExcludes(c: CurveNum, temp: int)
    requires temp < TableFloor || TableCeiling <= temp
    ensures !InSomeBand(Table(c), temp)
  {
  }

  /** `curve_get_name`. */
  function Name(c: CurveNum): (name: string)
    ensures name in CurveNames
  {
    match c
    case Cold => "cold"
    case Cool => "cool"
    case Medium => "medium"
    case Warm => "warm"
    case Hot => "hot"
  }

  const CurveNames: seq<string> := ["cold", "cool", "medium", "warm", "hot"]

  /** The five names are distinct, and are listed in enumerator order. */
  lemma NamesDistinct(c1: CurveNum, c2: CurveNum)
    ensures Name(c1) == Name(c2) <==> c1 == c2
    ensures Name(c1) == CurveNames[c1.Number()]
  {
  }

  /** The downward scan: the highest level below `n` whose band contains
      `temp`, or nothing when none does. */
  function HighestMatch(t: seq<FanRange>, temp: int, n: nat): (r: Option<nat>)
    requires n <= |t|
    ensures r.Some? ==> r.value < n && t[r.value].Contains(temp)
    ensures r.Some? ==> forall j :: r.value < j < n ==> !t[j].Contains(temp)
    ensures r.None? ==> forall j :: 0 <= j < n ==> !t[j].Contains(temp)
  {
    if n == 0 then None
    else if t[n - 1].Contains(temp) then Some(n - 1)
    else HighestMatch(t, temp, n - 1)
  }

  /** `curve_get_level` as a function of its inputs. An out-of-range old
      level is returned unchanged; a temperature inside the old level's band
      keeps the old level (sticky); otherwise the highest level whose band
      matches wins; when no band matches the old level is kept. */
  function SelectLevel(c: CurveNum, oldLevel: int, temp: int): (level: int)
    ensures !(0 <= oldLevel <= Fan.FanMax) ==> level == oldLevel
    ensures 0 <= oldLevel <= Fan.FanMax ==> 0 <= level <= Fan.FanMax
    ensures 0 <= oldLevel <= Fan.FanMax && Table(c)[oldLevel].Contains(temp) ==> level == oldLevel
    ensures 0 <= oldLevel <= Fan.FanMax && !Table(c)[oldLevel].Contains(temp) && InSomeBand(Table(c), temp) ==>
      Table(c)[level].Contains(temp) && forall j :: level < j <= Fan.FanMax ==> !Table(c)[j].Contains(temp)
    ensures !InSomeBand(Table(c), temp) ==> level == oldLevel
  {
    if oldLevel < 0 || oldLevel >= MaxRanges then oldLevel
    else if Table(c)[oldLevel].Contains(temp) then oldLevel
    else
      match HighestMatch(Table(c), temp, MaxRanges)
      case Some(i) => i
      case None => oldLevel
  }

  /** `curve_get_level`: the sticky test, then a descending `for` loop with
      early returns. */
  method GetLevel(c: CurveNum, oldLevel: int, temp: int) returns (level: int)
    ensures level == SelectLevel(c, oldLevel, temp)
  {
    if oldLevel < 0 || oldLevel >= MaxRanges {
      return oldLevel;
    }
    var curve := Table(c);
    if curve[oldLevel].Contains(temp) {
      return oldLevel;
    }
    for i := MaxRanges downto 0
      invariant forall j :: i <= j < MaxRanges ==> !curve[j].Contains(temp)
    {
      if curve[i].Contains(temp) {
        return i;
      }
    }
    return oldLevel;
  }

  /** Tie-break: when the temperature lies in two overlapping bands and the
      old level's band does not contain it, the higher of the two is never
      passed over for the lower. */
  lemma TieBreakFavoursHigher(c: CurveNum, oldLevel: int, low: int, high: int, temp: int)
    requires 0 <= oldLevel <= Fan.FanMax && !Table(c)[oldLevel].Contains(temp)
    requires 0 <= low < high <= Fan.FanMax
    requires Table(c)[low].Contains(temp) && Table(c)[high].Contains(temp)
    ensures SelectLevel(c, oldLevel, temp) >= high
  {
    assert InSomeBand(Table(c), temp);
  }

  /** Sticky at the floor: level 0 stays 0 for any temperature in its band. */
  lemma SelectLevelFromFloor(c: CurveNum, temp: int)
    requires Table(c)[0].Contains(temp)
    ensures SelectLevel(c, 0, temp) == 0
  {
  }

  /** Worked cases on the medium curve. */
  lemma MediumScenarios()
    ensures SelectLevel(Medium, 3, 58) == 3
    ensures SelectLevel(Medium, 3, 80) == 8
    ensures SelectLevel(Medium, 8, -10) == 0
    ensures forall prev :: 0 <= prev <= Fan.FanMax && prev != 6 && prev != 7 ==> SelectLevel(Medium, prev, 74) == 7
  {
    assert Table(Medium)[8].Contains(80);
    assert Table(Medium)[0].Contains(-10);
    assert Table(Medium)[7].Contains(74);
  }

  /** Temperatures of 255 and above reach the error path: the old level is kept. */
  lemma HotSensorKeepsLevel(c: CurveNum, oldLevel: int, temp: int)
    requires temp >= TableCeiling
    ensures SelectLevel(c, oldLevel, temp) == oldLevel
  {
    TableExcludes(c, temp);
  }
}
