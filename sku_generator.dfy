/**
 * The size-and-SKU engine of js/skuGenerator.js (class SKUGenerator). Measurements are exact
 * reals in centimetres; the options (stocking length, colour, toe, compression class) are the
 * strings the form submits. Every thrown Error becomes an `Err` carrying the kind of failure.
 */
module SkuGenerator {
  import opened Wrappers
  import opened Numerals
  import opened SizeLookup

  /** One constructor per error message the generator throws. */
  datatype SkuError =
    | InvalidLength         // "Invalid length specified."
    | InvalidColor          // "Invalid color specified."
    | InvalidToe            // "Invalid toe type specified."
    | InvalidClass          // "Invalid class specified."
    | AnkleOutOfRange       // "Ankle circumference out of range."
    | LegLengthOutOfRange   // "Leg length out of range."
    | InvalidLegLengthType  // "Invalid leg length type."
    | NoAppropriateSize     // "No appropriate size found for these measurements."

  datatype Result<+T> = Ok(value: T) | Err(error: SkuError)

  // ---------------------------------------------------------------------------
  // Classification of single measurements
  // ---------------------------------------------------------------------------

  /**
   * The ankle bands, tried in order; the first band that holds wins. Size 8's band starts at 30,
   * inside size 7's band, so 30 < ankle <= 31 is size 7.
   */
  function DetermineInitialSize(ankle: real): (r: Result<int>)
    ensures r.Ok? <==> 17.0 <= ankle <= 33.0
    ensures r.Ok? ==> 1 <= r.value <= 8
    ensures r.Err? ==> r.error == AnkleOutOfRange
    ensures 30.0 < ankle <= 31.0 ==> r == Ok(7)
  {
    if 17.0 <= ankle <= 19.0 then Ok(1)
    else if 19.0 < ankle <= 21.0 then Ok(2)
    else if 21.0 < ankle <= 23.0 then Ok(3)
    else if 23.0 < ankle <= 25.0 then Ok(4)
    else if 25.0 < ankle <= 27.0 then Ok(5)
    else if 27.0 < ankle <= 29.0 then Ok(6)
    else if 29.0 < ankle <= 31.0 then Ok(7)
    else if 30.0 < ankle <= 33.0 then Ok(8)
    else Err(AnkleOutOfRange)
  }

  /** Petite for 62-71 cm, Normal for 72-83 cm, whatever the stocking length; the gap (71, 72) fails. */
  function DetermineLengthType(legLength: real): (r: Result<string>)
    ensures r == Ok("Petite") <==> 62.0 <= legLength <= 71.0
    ensures r == Ok("Normal") <==> 72.0 <= legLength <= 83.0
    ensures r.Ok? || r == Err(LegLengthOutOfRange)
    ensures r.Ok? ==> r.value == "Petite" || r.value == "Normal"
  {
    if 62.0 <= legLength <= 71.0 then Ok("Petite")
    else if 72.0 <= legLength <= 83.0 then Ok("Normal")
    else Err(LegLengthOutOfRange)
  }

  // ---------------------------------------------------------------------------
  // Style code
  // ---------------------------------------------------------------------------

  /** What a two-digit style code says: stocking length, petite or not, and the G+ cut. */
  datatype Style = Style(length: string, petite: bool, gPlus: bool)

  /** The style a request denotes: G+ exists only for thigh stockings; any class but Petite counts as Normal. */
  function StyleOf(length: string, legLengthType: string, isGPlus: bool): Style {
    Style(length, legLengthType == "Petite", length == "thigh_length" && isGPlus)
  }

  /** The style-code legend of the SKU format (69/68, 59/58, 40, 47); G+ only on thigh codes. */
  function DecodeStyle(code: string): (r: Option<Style>)
    ensures r.Some? ==> |code| == 2 && (r.value.length == "thigh_length" || r.value.length == "knee_length")
    ensures r.Some? && r.value.gPlus ==> r.value.length == "thigh_length"
  {
    if code == "69" then Some(Style("thigh_length", false, false))
    else if code == "68" then Some(Style("thigh_length", false, true))
    else if code == "59" then Some(Style("thigh_length", true, false))
    else if code == "58" then Some(Style("thigh_length", true, true))
    else if code == "40" then Some(Style("knee_length", false, false))
    else if code == "47" then Some(Style("knee_length", true, false))
    else None
  }

  /** The two-digit code; it decodes back to the requested style, so no two styles share a code. */
  function DetermineStockingCode(length: string, legLengthType: string, isGPlus: bool): (r: Result<string>)
    ensures r.Ok? <==> length == "thigh_length" || length == "knee_length"
    ensures r.Err? ==> r.error == InvalidLength
    ensures r.Ok? ==> |r.value| == 2 && DecodeStyle(r.value) == Some(StyleOf(length, legLengthType, isGPlus))
  {
    if length == "thigh_length" then
      if legLengthType == "Petite" then Ok(if isGPlus then "58" else "59")
      else Ok(if isGPlus then "68" else "69")
    else if length == "knee_length" then
      Ok(if legLengthType == "Petite" then "47" else "40")
    else Err(InvalidLength)
  }

  /** Every code of the legend is the one determineStockingCode writes for the style it stands for. */
  lemma StyleCodeRoundTrip(code: string)
    requires DecodeStyle(code).Some?
    ensures var st := DecodeStyle(code).value;
      DetermineStockingCode(st.length, if st.petite then "Petite" else "Normal", st.gPlus) == Ok(code)
  {
  }

  // ---------------------------------------------------------------------------
  // Deviation and fit score
  // ---------------------------------------------------------------------------

  function Abs(x: real): real { if x < 0.0 then -x else x }

  predicate Within(value: real, r: Range) { r.min <= value <= r.max }

  /** How many range widths a value lies outside [min, max]; zero inside. */
  function CalculateDeviation(value: real, min: real, max: real): (r: real)
    requires min < max
    ensures r >= 0.0
    ensures r == 0.0 <==> min <= value <= max
  {
    if value < min then DividePositive(min - value, max - min); (min - value) / (max - min)
    else if value > max then DividePositive(value - max, max - min); (value - max) / (max - min)
    else 0.0
  }

  lemma DividePositive(x: real, w: real)
    requires x > 0.0 && w > 0.0
    ensures x / w > 0.0
  {
    assert x / w * w == x;
  }

  /** A value k range widths below min, or k range widths above max, deviates by exactly k. */
  lemma DeviationCountsRangeWidths(min: real, max: real, k: real)
    requires min < max && k > 0.0
    ensures CalculateDeviation(min - k * (max - min), min, max) == k
    ensures CalculateDeviation(max + k * (max - min), min, max) == k
  {
    var w := max - min;
    assert (min - (min - k * w)) / w == (k * w) / w == k;
    assert ((max + k * w) - max) / w == (k * w) / w == k;
  }

  /** The further outside the range, the larger the deviation, on either side. */
  lemma DeviationGrowsWithDistance(v1: real, v2: real, min: real, max: real)
    requires min < max
    ensures v1 < v2 <= min ==> CalculateDeviation(v1, min, max) > CalculateDeviation(v2, min, max)
    ensures max <= v1 < v2 ==> CalculateDeviation(v1, min, max) < CalculateDeviation(v2, min, max)
  {
    var w := max - min;
    if v1 < v2 <= min {
      assert (min - v1) / w > (min - v2) / w by { DivideMonotone(min - v2, min - v1, w); }
    }
    if max <= v1 < v2 {
      assert (v1 - max) / w < (v2 - max) / w by { DivideMonotone(v1 - max, v2 - max, w); }
    }
  }

  lemma DivideMonotone(x: real, y: real, w: real)
    requires x < y && w > 0.0
    ensures x / w < y / w
  {
    assert y / w - x / w == (y - x) / w;
  }

  /**
   * 2..3 strictly inside (min, max), peaking at 3 at the midpoint; 1 on either bound;
   * 0 outside.
   */
  function CalculateFitScore(value: real, min: real, max: real): (r: real)
    ensures 0.0 <= r <= 3.0
    ensures min < value < max ==> 2.0 < r <= 3.0
    ensures min < value < max ==> (r == 3.0 <==> value == (min + max) / 2.0)
    ensures value == min || value == max ==> r == 1.0
    ensures min < max && (value < min || value > max) ==> r == 0.0
    ensures !(min < value < max) ==> r <= 1.0
  {
    if min < value < max then
      var range := max - min;
      var middle := min + range / 2.0;
      var distanceFromMiddle := Abs(value - middle);
      assert distanceFromMiddle < range / 2.0;
      var normalizedDistance := 1.0 - distanceFromMiddle / (range / 2.0);
      assert 0.0 < normalizedDistance <= 1.0 by { DistanceBounds(distanceFromMiddle, range / 2.0); }
      2.0 + normalizedDistance
    else if value == min || value == max then 1.0
    else 0.0
  }

  lemma DistanceBounds(d: real, h: real)
    requires 0.0 <= d < h
    ensures 0.0 < 1.0 - d / h <= 1.0
    ensures 1.0 - d / h == 1.0 <==> d == 0.0
  {
    assert d / h < 1.0 by { assert d / h * h == d; }
  }

  /** The score is symmetric about the midpoint of the range. */
  lemma FitScoreSymmetric(min: real, max: real, d: real)
    requires min < max
    ensures CalculateFitScore((min + max) / 2.0 + d, min, max) == CalculateFitScore((min + max) / 2.0 - d, min, max)
  {
  }

  /** Between min and the midpoint the score strictly rises towards the midpoint. */
  lemma FitScoreRisesTowardMidpoint(v1: real, v2: real, min: real, max: real)
    requires min < v1 < v2 <= (min + max) / 2.0
    ensures CalculateFitScore(v1, min, max) < CalculateFitScore(v2, min, max)
  {
    var h := (max - min) / 2.0;
    var m := min + h;
    assert Abs(v1 - m) == m - v1 && Abs(v2 - m) == m - v2;
    DivideMonotone(m - v2, m - v1, h);
  }

  /** A fit score against a range a knee row may lack: JavaScript's comparisons with undefined all fail. */
  function FitScoreOpt(value: real, range: Option<Range>): (r: real)
    ensures 0.0 <= r <= 3.0
    ensures range.None? ==> r == 0.0
  {
    match range
    case None => 0.0
    case Some(g) => CalculateFitScore(value, g.min, g.max)
  }

  /** A deviation against a range a knee row may lack: zero when the range is absent. */
  function DeviationOpt(value: real, range: Option<Range>): (r: real)
    requires range.Some? ==> RangeValid(range.value)
    ensures r >= 0.0
    ensures r == 0.0 <==> range.None? || Within(value, range.value)
  {
    match range
    case None => 0.0
    case Some(g) => CalculateDeviation(value, g.min, g.max)
  }

  // ---------------------------------------------------------------------------
  // Candidate sizes and best fit
  // ---------------------------------------------------------------------------

  /**
   * The sizes determineSize evaluates: an ankle that is a whole number of centimetres also probes
   * the two neighbouring sizes (kept within 1..8), in ascending order.
   */
  function Candidates(ankle: real, ankleSize: int): (r: seq<int>)
    ensures ankle != ankle.Floor as real ==> r == [ankleSize]
    ensures ankle == ankle.Floor as real ==> forall c :: c in r <==>
      (c == ankleSize || (c == ankleSize - 1 && ankleSize > 1) || (c == ankleSize + 1 && ankleSize < 8))
    ensures forall i, j | 0 <= i < j < |r| :: r[i] < r[j]
  {
    if ankle == ankle.Floor as real then
      (if ankleSize > 1 then [ankleSize - 1] else []) + [ankleSize] + (if ankleSize < 8 then [ankleSize + 1] else [])
    else [ankleSize]
  }

  /** A candidate whose row exists in the list (`if (!sizeData) continue;` skips the others). */
  predicate Present(rows: seq<SizeRow>, c: int) { 1 <= c <= |rows| }

  /** The value lies strictly inside the range, exactly at its midpoint. */
  predicate AtMidpoint(value: real, g: Range) { g.min < value < g.max && value == (g.min + g.max) / 2.0 }

  /**
   * The unweighted total used to rank candidates: calf + thigh + length; the ankle is not scored.
   * It lies in [0, 9], and reaches 9 only on a row with a thigh range, with all three measurements
   * at the midpoints of their ranges.
   */
  function TotalFit(row: SizeRow, calf: real, thigh: real, legLength: real): (r: real)
    ensures 0.0 <= r <= 9.0
    ensures r == 9.0 <==> row.C.Some? && AtMidpoint(calf, row.B) && AtMidpoint(thigh, row.C.value) && AtMidpoint(legLength, row.D)
  {
    CalculateFitScore(calf, row.B.min, row.B.max) + FitScoreOpt(thigh, row.C)
      + CalculateFitScore(legLength, row.D.min, row.D.max)
  }

  function Score(rows: seq<SizeRow>, c: int, calf: real, thigh: real, legLength: real): real
    requires Present(rows, c)
  {
    TotalFit(rows[c - 1], calf, thigh, legLength)
  }

  /**
   * The size the evaluation loop settles on after the given candidates: a present candidate
   * replaces the best so far when there is none yet (the score starts at -Infinity) or when it
   * scores strictly higher.
   */
  function BestFit(rows: seq<SizeRow>, cands: seq<int>, calf: real, thigh: real, legLength: real): (r: Option<int>)
    ensures r.Some? ==> r.value in cands && Present(rows, r.value)
    decreases |cands|
  {
    if cands == [] then None
    else
      var prev := BestFit(rows, cands[..|cands| - 1], calf, thigh, legLength);
      var c := cands[|cands| - 1];
      if Present(rows, c) && (prev.None? || Score(rows, c, calf, thigh, legLength) > Score(rows, prev.value, calf, thigh, legLength))
      then Some(c)
      else prev
  }

  /** One more candidate: BestFit over a prefix extended by one element. */
  lemma BestFitStep(rows: seq<SizeRow>, cands: seq<int>, i: int, calf: real, thigh: real, legLength: real)
    requires 0 <= i < |cands|
    ensures var prev := BestFit(rows, cands[..i], calf, thigh, legLength);
      BestFit(rows, cands[..i + 1], calf, thigh, legLength) ==
        if Present(rows, cands[i]) && (prev.None? || Score(rows, cands[i], calf, thigh, legLength) > Score(rows, prev.value, calf, thigh, legLength))
        then Some(cands[i]) else prev
  {
    assert cands[..i + 1][..i] == cands[..i];
  }

  /** Candidate k is present, beats every earlier present candidate strictly and is not beaten later. */
  predicate FirstMaxAt(rows: seq<SizeRow>, cands: seq<int>, k: int, calf: real, thigh: real, legLength: real)
    requires 0 <= k < |cands|
  {
    && Present(rows, cands[k])
    && (forall j | 0 <= j < k && Present(rows, cands[j]) ::
          Score(rows, cands[j], calf, thigh, legLength) < Score(rows, cands[k], calf, thigh, legLength))
    && (forall j | k < j < |cands| && Present(rows, cands[j]) ::
          Score(rows, cands[j], calf, thigh, legLength) <= Score(rows, cands[k], calf, thigh, legLength))
  }

  predicate IsFirstMax(rows: seq<SizeRow>, cands: seq<int>, s: int, calf: real, thigh: real, legLength: real) {
    exists k | 0 <= k < |cands| :: cands[k] == s && FirstMaxAt(rows, cands, k, calf, thigh, legLength)
  }

  /** BestFit fails exactly when no candidate has a row in the list. */
  lemma {:induction false} BestFitNoneIffNonePresent(rows: seq<SizeRow>, cands: seq<int>, calf: real, thigh: real, legLength: real)
    ensures BestFit(rows, cands, calf, thigh, legLength).None? <==> forall j | 0 <= j < |cands| :: !Present(rows, cands[j])
    decreases |cands|
  {
    if cands != [] {
      var n := |cands| - 1;
      BestFitNoneIffNonePresent(rows, cands[..n], calf, thigh, legLength);
      assert forall j | 0 <= j < n :: cands[..n][j] == cands[j];
    }
  }

  /** The chosen size is the first candidate of strictly maximal total score. */
  lemma {:induction false} BestFitIsFirstMaximum(rows: seq<SizeRow>, cands: seq<int>, calf: real, thigh: real, legLength: real)
    ensures BestFit(rows, cands, calf, thigh, legLength).Some? ==>
      IsFirstMax(rows, cands, BestFit(rows, cands, calf, thigh, legLength).value, calf, thigh, legLength)
    decreases |cands|
  {
    if cands != [] {
      var n := |cands| - 1;
      var init := cands[..n];
      var c := cands[n];
      assert cands == init + [c];
      BestFitIsFirstMaximum(rows, init, calf, thigh, legLength);
      var prev := BestFit(rows, init, calf, thigh, legLength);
      if Present(rows, c) && (prev.None? || Score(rows, c, calf, thigh, legLength) > Score(rows, prev.value, calf, thigh, legLength)) {
        if prev.None? {
          BestFitNoneIffNonePresent(rows, init, calf, thigh, legLength);
        } else {
          var k :| 0 <= k < |init| && init[k] == prev.value && FirstMaxAt(rows, init, k, calf, thigh, legLength);
          FirstMaxBelow(rows, init, k, Score(rows, c, calf, thigh, legLength), calf, thigh, legLength);
        }
        FirstMaxAppendNew(rows, init, c, calf, thigh, legLength);
      } else if prev.Some? {
        var k :| 0 <= k < |init| && init[k] == prev.value && FirstMaxAt(rows, init, k, calf, thigh, legLength);
        FirstMaxAppendOld(rows, init, c, k, calf, thigh, legLength);
      }
    }
  }

  /** Every candidate with a row scores below a value that beats the first maximum. */
  lemma FirstMaxBelow(rows: seq<SizeRow>, cands: seq<int>, k: int, bound: real, calf: real, thigh: real, legLength: real)
    requires 0 <= k < |cands| && FirstMaxAt(rows, cands, k, calf, thigh, legLength)
    requires Score(rows, cands[k], calf, thigh, legLength) < bound
    ensures forall j | 0 <= j < |cands| && Present(rows, cands[j]) :: Score(rows, cands[j], calf, thigh, legLength) < bound
  {
  }

  /** A new candidate that beats every earlier one becomes the first maximum. */
  lemma FirstMaxAppendNew(rows: seq<SizeRow>, init: seq<int>, c: int, calf: real, thigh: real, legLength: real)
    requires Present(rows, c)
    requires forall j | 0 <= j < |init| && Present(rows, init[j]) ::
      Score(rows, init[j], calf, thigh, legLength) < Score(rows, c, calf, thigh, legLength)
    ensures FirstMaxAt(rows, init + [c], |init|, calf, thigh, legLength)
  {
    assert forall j | 0 <= j < |init| :: (init + [c])[j] == init[j];
  }

  /** A new candidate that does not beat the first maximum leaves it in place. */
  lemma FirstMaxAppendOld(rows: seq<SizeRow>, init: seq<int>, c: int, k: int, calf: real, thigh: real, legLength: real)
    requires 0 <= k < |init| && FirstMaxAt(rows, init, k, calf, thigh, legLength)
    requires Present(rows, c) ==> Score(rows, c, calf, thigh, legLength) <= Score(rows, init[k], calf, thigh, legLength)
    ensures FirstMaxAt(rows, init + [c], k, calf, thigh, legLength)
  {
    assert forall j | 0 <= j < |init| :: (init + [c])[j] == init[j];
  }

  /** Conversely, whenever some candidate is the first strict maximum, BestFit returns it. */
  lemma BestFitFindsFirstMaximum(rows: seq<SizeRow>, cands: seq<int>, k: int, calf: real, thigh: real, legLength: real)
    requires 0 <= k < |cands| && FirstMaxAt(rows, cands, k, calf, thigh, legLength)
    ensures BestFit(rows, cands, calf, thigh, legLength) == Some(cands[k])
  {
    var r := BestFit(rows, cands, calf, thigh, legLength);
    BestFitNoneIffNonePresent(rows, cands, calf, thigh, legLength);
    BestFitIsFirstMaximum(rows, cands, calf, thigh, legLength);
    var k' :| 0 <= k' < |cands| && cands[k'] == r.value && FirstMaxAt(rows, cands, k', calf, thigh, legLength);
    // two first strict maxima at different positions would each beat the other
    assert k' == k;
  }

  /**
   * G+ is due when the thigh passes the row's C range and lies in its G range (thigh stockings
   * only); such a thigh is outside C, so it adds nothing to the candidate's total.
   */
  predicate IsGPlus(stockingLength: string, thigh: real, row: SizeRow)
    ensures IsGPlus(stockingLength, thigh, row) ==>
      stockingLength == "thigh_length" && row.C.Some? && !Within(thigh, row.C.value)
    ensures IsGPlus(stockingLength, thigh, row) && RowRangesValid(row) ==> FitScoreOpt(thigh, row.C) == 0.0
  {
    && stockingLength == "thigh_length"
    && row.C.Some? && thigh > row.C.value.max
    && row.G.Some? && row.G.value.min <= thigh <= row.G.value.max
  }

  // ---------------------------------------------------------------------------
  // Table lookup
  // ---------------------------------------------------------------------------

  /**
   * The size list for a stocking length and a sub-length class, looked up through both levels of
   * the table (the corrected form of the lookup; see SizeListFoundAsWritten).
   */
  function SizeList(table: Table, stockingLength: string, lengthType: string): (r: Option<seq<SizeRow>>)
    ensures r.Some? <==> stockingLength in table && lengthType in table[stockingLength]
    ensures r.Some? ==> r.value == table[stockingLength][lengthType]
    ensures r.Some? && TableRangesValid(table) ==> ListRangesValid(r.value)
  {
    if stockingLength in table && lengthType in table[stockingLength]
    then Some(table[stockingLength][lengthType])
    else None
  }

  /**
   * The lookup as skuGenerator.js writes it: `this.sizeLookupTable[lengthType]`, the sub-length
   * class used as a key of the top level of the table, whose keys are stocking lengths.
   */
  predicate SizeListFoundAsWritten(table: Table, lengthType: string)
    ensures ((forall k | k in table :: k == "thigh_length" || k == "knee_length")
             && (lengthType == "Petite" || lengthType == "Normal")) ==> !SizeListFoundAsWritten(table, lengthType)
  {
    lengthType in table
  }

  // ---------------------------------------------------------------------------
  // Confidence score
  // ---------------------------------------------------------------------------

  /** One entry of the deviations object: key, display name, value, the row's range (a knee row has no thigh range) and the deviation. */
  datatype DeviationEntry = DeviationEntry(key: string, name: string, value: real, range: Option<Range>, deviation: real)

  /** The content of one message "<name> (<value>cm) is below|above the recommended range (<min>-<max>cm)". */
  datatype Improvement = Improvement(name: string, value: real, below: bool, range: Range)

  datatype Confidence = Confidence(score: int, message: string, deviations: seq<DeviationEntry>, improvements: seq<Improvement>)

  /** The entry's deviation is the one calculateDeviation gives for its value and range. */
  predicate Consistent(e: DeviationEntry) {
    (e.range.Some? ==> RangeValid(e.range.value)) && e.deviation == DeviationOpt(e.value, e.range)
  }

  function Entry(key: string, name: string, value: real, range: Option<Range>): (e: DeviationEntry)
    requires range.Some? ==> RangeValid(range.value)
    ensures Consistent(e)
  {
    DeviationEntry(key, name, value, range, DeviationOpt(value, range))
  }

  /** The deviations object in its insertion order: ankle, calf, thigh, length. */
  function Entries(row: SizeRow, ankle: real, calf: real, thigh: real, legLength: real): (s: seq<DeviationEntry>)
    requires RowRangesValid(row)
    ensures |s| == 4 && forall i | 0 <= i < |s| :: Consistent(s[i])
  {
    [ Entry("ankle", "Ankle", ankle, Some(row.A)), Entry("calf", "Calf", calf, Some(row.B)),
      Entry("thigh", "Thigh", thigh, row.C), Entry("length", "Length", legLength, Some(row.D)) ]
  }

  predicate SortedDescending(s: seq<DeviationEntry>) {
    forall i, j | 0 <= i < j < |s| :: s[i].deviation >= s[j].deviation
  }

  /** Puts e after every entry that deviates at least as much, before the first that deviates less. */
  function InsertByDeviation(e: DeviationEntry, s: seq<DeviationEntry>): (r: seq<DeviationEntry>)
    ensures multiset(r) == multiset(s) + multiset{e}
  {
    if s == [] then [e]
    else if s[0].deviation < e.deviation then [e] + s
    else
      assert s == [s[0]] + s[1..];
      [s[0]] + InsertByDeviation(e, s[1..])
  }

  /** `sort((a, b) => b.deviation - a.deviation)`: a stable sort, largest deviation first. */
  function SortByDeviation(s: seq<DeviationEntry>): (r: seq<DeviationEntry>)
    ensures multiset(r) == multiset(s)
  {
    if s == [] then []
    else
      assert s == s[..|s| - 1] + [s[|s| - 1]];
      InsertByDeviation(s[|s| - 1], SortByDeviation(s[..|s| - 1]))
  }

  lemma {:induction false} InsertKeepsSorted(e: DeviationEntry, s: seq<DeviationEntry>)
    requires SortedDescending(s)
    ensures SortedDescending(InsertByDeviation(e, s))
    decreases |s|
  {
    if s != [] && s[0].deviation >= e.deviation {
      var rest := InsertByDeviation(e, s[1..]);
      InsertKeepsSorted(e, s[1..]);
      forall j | 0 <= j < |rest| ensures rest[j].deviation <= s[0].deviation {
        assert rest[j] in multiset(rest);
        if rest[j] != e {
          assert rest[j] in multiset(s[1..]);
        }
      }
    }
  }

  /** The sorted deviations come largest first. */
  lemma {:induction false} SortIsSorted(s: seq<DeviationEntry>)
    ensures SortedDescending(SortByDeviation(s))
    decreases |s|
  {
    if s != [] {
      SortIsSorted(s[..|s| - 1]);
      InsertKeepsSorted(s[|s| - 1], SortByDeviation(s[..|s| - 1]));
    }
  }

  /** The entries whose deviation is exactly d, in their order. */
  function WithDeviation(s: seq<DeviationEntry>, d: real): seq<DeviationEntry> {
    if s == [] then [] else (if s[0].deviation == d then [s[0]] else []) + WithDeviation(s[1..], d)
  }

  lemma {:induction false} WithDeviationAppend(a: seq<DeviationEntry>, b: seq<DeviationEntry>, d: real)
    ensures WithDeviation(a + b, d) == WithDeviation(a, d) + WithDeviation(b, d)
    decreases |a|
  {
    if a != [] {
      var head := if a[0].deviation == d then [a[0]] else [];
      assert (a + b)[0] == a[0];
      assert (a + b)[1..] == a[1..] + b;
      WithDeviationAppend(a[1..], b, d);
      calc {
        WithDeviation(a + b, d);
        head + WithDeviation(a[1..] + b, d);
        head + (WithDeviation(a[1..], d) + WithDeviation(b, d));
        (head + WithDeviation(a[1..], d)) + WithDeviation(b, d);
        WithDeviation(a, d) + WithDeviation(b, d);
      }
    } else {
      assert a + b == b;
    }
  }

  lemma {:induction false} WithDeviationNone(s: seq<DeviationEntry>, d: real)
    requires forall i | 0 <= i < |s| :: s[i].deviation < d
    ensures WithDeviation(s, d) == []
    decreases |s|
  {
    if s != [] {
      WithDeviationNone(s[1..], d);
    }
  }

  lemma {:induction false} InsertIsStable(e: DeviationEntry, s: seq<DeviationEntry>, d: real)
    requires SortedDescending(s)
    ensures WithDeviation(InsertByDeviation(e, s), d) == WithDeviation(s, d) + (if e.deviation == d then [e] else [])
    decreases |s|
  {
    if s == [] {
    } else if s[0].deviation < e.deviation {
      InsertAtHeadIsStable(e, s, d);
    } else {
      var rest := InsertByDeviation(e, s[1..]);
      var head := if s[0].deviation == d then [s[0]] else [];
      var last := if e.deviation == d then [e] else [];
      calc {
        WithDeviation(InsertByDeviation(e, s), d);
        WithDeviation([s[0]] + rest, d);
      == { WithDeviationAppend([s[0]], rest, d); WithDeviationSingle(s[0], d); }
        head + WithDeviation(rest, d);
      == { SortedTail(s); InsertIsStable(e, s[1..], d); }
        head + (WithDeviation(s[1..], d) + last);
      == { AppendAssociative(head, WithDeviation(s[1..], d), last); }
        (head + WithDeviation(s[1..], d)) + last;
      == { assert s == [s[0]] + s[1..]; WithDeviationAppend([s[0]], s[1..], d); WithDeviationSingle(s[0], d); }
        WithDeviation(s, d) + last;
      }
    }
  }

  lemma AppendAssociative(a: seq<DeviationEntry>, b: seq<DeviationEntry>, c: seq<DeviationEntry>)
    ensures a + (b + c) == (a + b) + c
  {
  }

  lemma SortedTail(s: seq<DeviationEntry>)
    requires s != [] && SortedDescending(s)
    ensures SortedDescending(s[1..])
  {
    assert forall i | 0 <= i < |s| - 1 :: s[1..][i] == s[i + 1];
  }

  /** An entry that deviates more than the head goes first, and its deviation class gains only it. */
  lemma InsertAtHeadIsStable(e: DeviationEntry, s: seq<DeviationEntry>, d: real)
    requires s != [] && SortedDescending(s) && s[0].deviation < e.deviation
    ensures WithDeviation(InsertByDeviation(e, s), d) == WithDeviation(s, d) + (if e.deviation == d then [e] else [])
  {
    assert InsertByDeviation(e, s) == [e] + s;
    assert ([e] + s)[1..] == s;
    if e.deviation == d {
      WithDeviationNone(s, d);
      assert WithDeviation([e] + s, d) == [e] + WithDeviation(s, d);
    } else {
      assert WithDeviation([e] + s, d) == WithDeviation(s, d);
    }
  }

  lemma WithDeviationSingle(e: DeviationEntry, d: real)
    ensures WithDeviation([e], d) == if e.deviation == d then [e] else []
  {
    assert [e][1..] == [];
  }

  /** Stability: the entries with any one deviation keep their input order (ankle, calf, thigh, length). */
  lemma {:induction false} SortIsStable(s: seq<DeviationEntry>, d: real)
    ensures WithDeviation(SortByDeviation(s), d) == WithDeviation(s, d)
    decreases |s|
  {
    if s != [] {
      var n := |s| - 1;
      var init, last := s[..n], s[n];
      var sortedInit := SortByDeviation(init);
      calc {
        WithDeviation(SortByDeviation(s), d);
        WithDeviation(InsertByDeviation(last, sortedInit), d);
        { SortIsSorted(init); InsertIsStable(last, sortedInit, d); }
        WithDeviation(sortedInit, d) + (if last.deviation == d then [last] else []);
        { SortIsStable(init, d); WithDeviationSingle(last, d); }
        WithDeviation(init, d) + WithDeviation([last], d);
        { WithDeviationAppend(init, [last], d); }
        WithDeviation(init + [last], d);
        { assert init + [last] == s; }
        WithDeviation(s, d);
      }
    }
  }

  /** `filter(d => d.deviation > 0)`: the entries outside their range, in order. */
  function Positive(s: seq<DeviationEntry>): (r: seq<DeviationEntry>)
    ensures forall e :: e in r <==> e in s && e.deviation > 0.0
    ensures SortedDescending(s) ==> SortedDescending(r)
  {
    if s == [] then []
    else
      assert forall e :: e in s <==> e == s[0] || e in s[1..];
      if s[0].deviation > 0.0 then [s[0]] + Positive(s[1..]) else Positive(s[1..])
  }

  /**
   * The improvement messages: one per entry with a positive deviation, "below" when the value is
   * under min and "above" when it is over max (`.filter(Boolean)` drops an entry that is neither).
   */
  function Improvements(s: seq<DeviationEntry>): (r: seq<Improvement>)
    ensures |r| <= |s|
    ensures (forall i | 0 <= i < |s| :: s[i].deviation <= 0.0) ==> r == []
  {
    if s == [] then []
    else
      var e := s[0];
      var rest := Improvements(s[1..]);
      if e.deviation > 0.0 && e.range.Some? && e.value < e.range.value.min then
        [Improvement(e.name, e.value, true, e.range.value)] + rest
      else if e.deviation > 0.0 && e.range.Some? && e.value > e.range.value.max then
        [Improvement(e.name, e.value, false, e.range.value)] + rest
      else rest
  }

  /** The message describes the entry: same name, value and range, "below" iff under min, "above" iff over max. */
  predicate Describes(imp: Improvement, e: DeviationEntry) {
    && e.range.Some? && imp.name == e.name && imp.value == e.value && imp.range == e.range.value
    && (imp.below <==> e.value < e.range.value.min)
    && (!imp.below <==> e.value > e.range.value.max)
  }

  /** Exactly one message per out-of-range entry, in the entries' order, saying on which side it lies. */
  lemma {:induction false} ImprovementsDescribePositive(s: seq<DeviationEntry>)
    requires forall i | 0 <= i < |s| :: Consistent(s[i])
    ensures |Improvements(s)| == |Positive(s)|
    ensures forall i | 0 <= i < |Positive(s)| :: Describes(Improvements(s)[i], Positive(s)[i])
    decreases |s|
  {
    if s != [] {
      assert forall i | 0 <= i < |s[1..]| :: s[1..][i] == s[i + 1];
      ImprovementsDescribePositive(s[1..]);
      DescribesCons(s);
    }
  }

  /** One inductive step of ImprovementsDescribePositive: the head entry adds a message iff it deviates. */
  lemma DescribesCons(s: seq<DeviationEntry>)
    requires s != [] && Consistent(s[0])
    requires |Improvements(s[1..])| == |Positive(s[1..])|
    requires forall i | 0 <= i < |Positive(s[1..])| :: Describes(Improvements(s[1..])[i], Positive(s[1..])[i])
    ensures |Improvements(s)| == |Positive(s)|
    ensures forall i | 0 <= i < |Positive(s)| :: Describes(Improvements(s)[i], Positive(s)[i])
  {
    if s[0].deviation > 0.0 {
      var imp := DescribedHead(s[0]);
      var imps, pos := Improvements(s[1..]), Positive(s[1..]);
      calc {
        Improvements(s);
        [imp] + imps;
      }
      calc {
        Positive(s);
        [s[0]] + pos;
      }
    } else {
      assert Improvements(s) == Improvements(s[1..]);
      assert Positive(s) == Positive(s[1..]);
    }
  }

  /** An entry that deviates has a range it lies outside of, and its message describes it. */
  lemma DescribedHead(e: DeviationEntry) returns (imp: Improvement)
    requires Consistent(e) && e.deviation > 0.0
    ensures e.range.Some? && !Within(e.value, e.range.value)
    ensures imp == Improvement(e.name, e.value, e.value < e.range.value.min, e.range.value)
    ensures Improvements([e]) == [imp]
    ensures Describes(imp, e)
  {
    imp := Improvement(e.name, e.value, e.value < e.range.value.min, e.range.value);
  }

  /** `Math.max(...)` of the deviations. */
  function MaxDeviation(s: seq<DeviationEntry>): (m: real)
    requires |s| > 0
    ensures forall i | 0 <= i < |s| :: s[i].deviation <= m
    ensures exists i | 0 <= i < |s| :: s[i].deviation == m
  {
    if |s| == 1 then s[0].deviation
    else
      var m := MaxDeviation(s[1..]);
      assert forall i | 1 <= i < |s| :: s[i] == s[1..][i - 1];
      if s[0].deviation > m then s[0].deviation else m
  }

  lemma MaxDeviationOfPermutation(s: seq<DeviationEntry>, t: seq<DeviationEntry>)
    requires |s| > 0 && multiset(s) == multiset(t)
    ensures |t| > 0 && MaxDeviation(s) == MaxDeviation(t)
  {
    assert s[0] in multiset(t);
    var i :| 0 <= i < |s| && s[i].deviation == MaxDeviation(s);
    var j :| 0 <= j < |t| && t[j].deviation == MaxDeviation(t);
    assert s[i] in multiset(t) && t[j] in multiset(s);
  }

  datatype Band = Band(score: int, message: string)

  /** The bands of maxDeviation, first match wins. */
  function ScoreBand(maxDeviation: real): (b: Band)
    ensures b.score == 100 <==> maxDeviation == 0.0
    ensures b.score >= 90 <==> maxDeviation <= 0.1
    ensures b.score >= 75 <==> maxDeviation <= 0.2
    ensures b.score >= 60 <==> maxDeviation <= 0.3
    ensures b.score >= 40 <==> maxDeviation <= 0.5
    ensures b.score >= 20
    ensures b.score in {100, 90, 75, 60, 40, 20}
  {
    if maxDeviation == 0.0 then Band(100, "Perfect fit - all measurements fall exactly within ranges")
    else if maxDeviation <= 0.1 then Band(90, "Excellent fit - measurements within 10% deviation")
    else if maxDeviation <= 0.2 then Band(75, "Good fit - measurements within 20% deviation")
    else if maxDeviation <= 0.3 then Band(60, "Moderate fit - measurements within 30% deviation")
    else if maxDeviation <= 0.5 then Band(40, "Fair fit - measurements within 50% deviation")
    else Band(20, "Poor fit - measurements significantly outside ranges")
  }

  /** The row calculateConfidenceScore scores against; None where it returns score 0. */
  function ConfidenceRow(table: Table, stockingLength: string, lengthType: string, size: int): (r: Option<SizeRow>)
    ensures r.Some? <==>
      && size != 0 && lengthType != "" && SizeList(table, stockingLength, lengthType).Some?
      && 1 <= size <= |SizeList(table, stockingLength, lengthType).value|
    ensures r.Some? ==> r.value == table[stockingLength][lengthType][size - 1]
    ensures r.Some? && TableRangesValid(table) ==> RowRangesValid(r.value)
  {
    if size == 0 || lengthType == "" then None
    else match SizeList(table, stockingLength, lengthType)
      case None => None
      case Some(rows) => if 1 <= size <= |rows| then Some(rows[size - 1]) else None
  }

  /** Every measurement lies within its range on the row (the thigh only where the row has one). */
  predicate AllWithin(row: SizeRow, ankle: real, calf: real, thigh: real, legLength: real) {
    && Within(ankle, row.A) && Within(calf, row.B)
    && (row.C.Some? ==> Within(thigh, row.C.value)) && Within(legLength, row.D)
  }

  /** The largest deviation is 0 exactly when every measurement is within its range. */
  lemma PerfectIffAllWithin(row: SizeRow, ankle: real, calf: real, thigh: real, legLength: real)
    requires RowRangesValid(row)
    ensures MaxDeviation(Entries(row, ankle, calf, thigh, legLength)) == 0.0 <==> AllWithin(row, ankle, calf, thigh, legLength)
  {
    var s := Entries(row, ankle, calf, thigh, legLength);
    var m := MaxDeviation(s);
    assert s[0].deviation >= 0.0 && s[1].deviation >= 0.0 && s[2].deviation >= 0.0 && s[3].deviation >= 0.0;
    assert m == 0.0 <==> s[0].deviation == 0.0 && s[1].deviation == 0.0 && s[2].deviation == 0.0 && s[3].deviation == 0.0;
  }

  /**
   * The pipeline over one row: sort the four deviations (stably, largest first), describe the
   * out-of-range ones, and band the largest deviation.
   */
  function ScoreRow(row: SizeRow, ankle: real, calf: real, thigh: real, legLength: real): (r: Confidence)
    requires RowRangesValid(row)
    ensures
      var entries := Entries(row, ankle, calf, thigh, legLength);
      && 20 <= r.score <= 100
      && r.score == ScoreBand(MaxDeviation(entries)).score
      && r.message == ScoreBand(MaxDeviation(entries)).message
      && (r.score == 100 <==> AllWithin(row, ankle, calf, thigh, legLength))
      && multiset(r.deviations) == multiset(entries)
      && SortedDescending(r.deviations)
      && (forall d :: WithDeviation(r.deviations, d) == WithDeviation(entries, d))
      && |r.improvements| == |Positive(r.deviations)|
      && (forall i | 0 <= i < |r.improvements| :: Describes(r.improvements[i], Positive(r.deviations)[i]))
  {
    var entries := Entries(row, ankle, calf, thigh, legLength);
    var sorted := SortByDeviation(entries);
    SortIsSorted(entries);
    assert forall d :: WithDeviation(sorted, d) == WithDeviation(entries, d) by {
      forall d { SortIsStable(entries, d); }
    }
    MaxDeviationOfPermutation(entries, sorted);
    PerfectIffAllWithin(row, ankle, calf, thigh, legLength);
    assert forall i | 0 <= i < |sorted| :: Consistent(sorted[i]) by {
      forall i | 0 <= i < |sorted| ensures Consistent(sorted[i]) {
        assert sorted[i] in multiset(entries);
      }
    }
    ImprovementsDescribePositive(sorted);
    var band := ScoreBand(MaxDeviation(sorted));
    Confidence(band.score, band.message, sorted, Improvements(sorted))
  }

  /**
   * calculateConfidenceScore, with the size list found through the stocking length: score 0 and
   * no entries when the size, the class or the row is missing, otherwise the pipeline over the row.
   */
  function CalculateConfidence(table: Table, stockingLength: string, ankle: real, calf: real, thigh: real,
                               legLength: real, size: int, lengthType: string): (r: Confidence)
    requires TableRangesValid(table)
    ensures ConfidenceRow(table, stockingLength, lengthType, size).None? ==>
      r.score == 0 && r.deviations == [] && r.improvements == []
    ensures ConfidenceRow(table, stockingLength, lengthType, size).Some? ==>
      var row := ConfidenceRow(table, stockingLength, lengthType, size).value;
      RowRangesValid(row) && r == ScoreRow(row, ankle, calf, thigh, legLength)
  {
    if size == 0 || lengthType == "" || SizeList(table, stockingLength, lengthType).None? then
      Confidence(0, "Unable to calculate confidence - invalid size or length type", [], [])
    else
      var rows := SizeList(table, stockingLength, lengthType).value;
      if !(1 <= size <= |rows|) then
        Confidence(0, "Unable to calculate confidence - size data not found", [], [])
      else
        ScoreRow(rows[size - 1], ankle, calf, thigh, legLength)
  }

  /**
   * The text of an improvement message; `toFixed1` stands for `value.toFixed(1)` and `numberText`
   * for the default number-to-string conversion of the range bounds.
   */
  function ImprovementText(imp: Improvement, toFixed1: real -> string, numberText: real -> string): (t: string)
    ensures |t| > |imp.name| + |toFixed1(imp.value)| + 9
    ensures t[..|imp.name|] == imp.name
    ensures t[|imp.name| + |toFixed1(imp.value)| + 9] == if imp.below then 'b' else 'a'
  {
    imp.name + " (" + toFixed1(imp.value) + "cm) is " + (if imp.below then "below" else "above")
      + " the recommended range (" + numberText(imp.range.min) + "-" + numberText(imp.range.max) + "cm)"
  }

  // ---------------------------------------------------------------------------
  // Size determination
  // ---------------------------------------------------------------------------

  datatype SizeResult = SizeResult(size: int, confidence: int, isGPlus: bool, message: string, improvements: seq<Improvement>)

  /** The size the walk over the candidates settles on, with the G+ flag of that size's row. */
  datatype Choice = Choice(size: int, isGPlus: bool)

  /**
   * The first candidate of strictly maximal total fit and its G+ flag; None when no candidate has
   * a row in the list.
   */
  function ChooseSize(rows: seq<SizeRow>, cands: seq<int>, stockingLength: string,
                      calf: real, thigh: real, legLength: real): (r: Option<Choice>)
    ensures r.None? <==> forall j | 0 <= j < |cands| :: !Present(rows, cands[j])
    ensures r.Some? ==>
      && r.value.size in cands && Present(rows, r.value.size)
      && IsFirstMax(rows, cands, r.value.size, calf, thigh, legLength)
      && r.value.isGPlus == IsGPlus(stockingLength, thigh, rows[r.value.size - 1])
  {
    BestFitNoneIffNonePresent(rows, cands, calf, thigh, legLength);
    BestFitIsFirstMaximum(rows, cands, calf, thigh, legLength);
    match BestFit(rows, cands, calf, thigh, legLength)
    case None => None
    case Some(best) => Some(Choice(best, IsGPlus(stockingLength, thigh, rows[best - 1])))
  }

  /**
   * What determineSize computes: the size list, the ankle's initial size, the candidates, the
   * chosen size with its G+ flag, and the confidence of that size.
   */
  function SizeDetermination(table: Table, ankle: real, calf: real, thigh: real, legLength: real,
                             lengthType: string, stockingLength: string): (r: Result<SizeResult>)
    requires TableRangesValid(table)
    ensures r == Err(InvalidLegLengthType) <==> SizeList(table, stockingLength, lengthType).None?
    ensures r == Err(AnkleOutOfRange) <==> SizeList(table, stockingLength, lengthType).Some? && !(17.0 <= ankle <= 33.0)
    ensures r.Err? ==> r.error in {InvalidLegLengthType, AnkleOutOfRange, NoAppropriateSize}
    ensures SizeList(table, stockingLength, lengthType).Some? && 17.0 <= ankle <= 33.0 ==>
      var choice := ChooseSize(SizeList(table, stockingLength, lengthType).value,
                               Candidates(ankle, DetermineInitialSize(ankle).value), stockingLength, calf, thigh, legLength);
      && (r == Err(NoAppropriateSize) <==> choice.None?)
      && (r.Ok? <==> choice.Some?)
    ensures r.Ok? ==>
      && SizeList(table, stockingLength, lengthType).Some? && 17.0 <= ankle <= 33.0
      && var rows := SizeList(table, stockingLength, lengthType).value;
         var cands := Candidates(ankle, DetermineInitialSize(ankle).value);
         && 1 <= r.value.size <= 8
         && ChooseSize(rows, cands, stockingLength, calf, thigh, legLength) == Some(Choice(r.value.size, r.value.isGPlus))
    ensures r.Ok? ==>
      var c := CalculateConfidence(table, stockingLength, ankle, calf, thigh, legLength, r.value.size, lengthType);
      r.value.confidence == c.score && r.value.message == c.message && r.value.improvements == c.improvements
  {
    match SizeList(table, stockingLength, lengthType)
    case None => Err(InvalidLegLengthType)
    case Some(rows) =>
      match DetermineInitialSize(ankle)
      case Err(e) => Err(e)
      case Ok(ankleSize) =>
        match ChooseSize(rows, Candidates(ankle, ankleSize), stockingLength, calf, thigh, legLength)
        case None => Err(NoAppropriateSize)
        case Some(choice) =>
          var conf := CalculateConfidence(table, stockingLength, ankle, calf, thigh, legLength, choice.size, lengthType);
          Ok(SizeResult(choice.size, conf.score, choice.isGPlus, conf.message, conf.improvements))
  }

  /** The candidate list of determineSize, built with successive pushes. */
  method PotentialSizes(ankle: real, ankleSize: int) returns (potentialSizes: seq<int>)
    ensures potentialSizes == Candidates(ankle, ankleSize)
  {
    potentialSizes := [];
    var isAnkleBorderline := ankle == ankle.Floor as real;
    if isAnkleBorderline {
      if ankleSize > 1 { potentialSizes := potentialSizes + [ankleSize - 1]; }
      potentialSizes := potentialSizes + [ankleSize];
      if ankleSize < 8 { potentialSizes := potentialSizes + [ankleSize + 1]; }
    } else {
      potentialSizes := potentialSizes + [ankleSize];
    }
  }

  /**
   * The evaluation loop of determineSize: walks the candidates keeping the best size so far, its
   * score and its G+ flag.
   */
  method EvaluateCandidates(rows: seq<SizeRow>, potentialSizes: seq<int>, stockingLength: string,
                            calf: real, thigh: real, legLength: real) returns (bestFit: Option<int>, isGPlus: bool)
    ensures ChooseSize(rows, potentialSizes, stockingLength, calf, thigh, legLength) ==
      if bestFit.Some? then Some(Choice(bestFit.value, isGPlus)) else None
  {
    // bestScore stands for -Infinity while bestFit is None
    bestFit := None;
    var bestScore: real := 0.0;
    isGPlus := false;
    var i := 0;
    while i < |potentialSizes|
      invariant 0 <= i <= |potentialSizes|
      invariant bestFit == BestFit(rows, potentialSizes[..i], calf, thigh, legLength)
      invariant bestFit.Some? ==> bestScore == Score(rows, bestFit.value, calf, thigh, legLength)
      invariant bestFit.Some? ==> isGPlus == IsGPlus(stockingLength, thigh, rows[bestFit.value - 1])
    {
      BestFitStep(rows, potentialSizes, i, calf, thigh, legLength);
      var sizeToCheck := potentialSizes[i];
      if 1 <= sizeToCheck <= |rows| {
        var sizeData := rows[sizeToCheck - 1];
        var calfFit := CalculateFitScore(calf, sizeData.B.min, sizeData.B.max);
        var thighFit := FitScoreOpt(thigh, sizeData.C);
        var lengthFit := CalculateFitScore(legLength, sizeData.D.min, sizeData.D.max);
        var totalFitScore := calfFit + thighFit + lengthFit;
        if bestFit.None? || totalFitScore > bestScore {
          bestScore := totalFitScore;
          bestFit := Some(sizeToCheck);
          isGPlus := stockingLength == "thigh_length"
            && sizeData.C.Some? && thigh > sizeData.C.value.max
            && sizeData.G.Some? && sizeData.G.value.min <= thigh && thigh <= sizeData.G.value.max;
        }
      }
      i := i + 1;
    }
    assert potentialSizes[..i] == potentialSizes;
  }

  /**
   * determineSize: collects the candidate sizes with successive pushes, then walks them keeping the
   * best size, its score and its G+ flag.
   */
  method DetermineSize(table: Table, ankle: real, calf: real, thigh: real, legLength: real,
                       lengthType: string, stockingLength: string) returns (r: Result<SizeResult>)
    requires TableRangesValid(table)
    ensures r == SizeDetermination(table, ankle, calf, thigh, legLength, lengthType, stockingLength)
  {
    var sizeList := SizeList(table, stockingLength, lengthType);
    if sizeList.None? {
      return Err(InvalidLegLengthType);
    }
    var rows := sizeList.value;

    var initial := DetermineInitialSize(ankle);
    if initial.Err? {
      return Err(initial.error);
    }
    var potentialSizes := PotentialSizes(ankle, initial.value);

    var bestFit, isGPlus := EvaluateCandidates(rows, potentialSizes, stockingLength, calf, thigh, legLength);

    if bestFit.Some? {
      var confidenceResult := CalculateConfidence(table, stockingLength, ankle, calf, thigh, legLength, bestFit.value, lengthType);
      return Ok(SizeResult(bestFit.value, confidenceResult.score, isGPlus, confidenceResult.message, confidenceResult.improvements));
    }
    return Err(NoAppropriateSize);
  }

  // ---------------------------------------------------------------------------
  // SKU assembly
  // ---------------------------------------------------------------------------

  /** The class a SKU prefix stands for. */
  function DecodeClass(prefix: string): Option<string> {
    if prefix == "XA" then Some("Class 1") else if prefix == "XB" then Some("Class 2") else None
  }

  /** The colour a SKU colour digit stands for. */
  function DecodeColor(digit: char): Option<string> {
    if digit == '6' then Some("bronze") else if digit == '5' then Some("black") else None
  }

  /** The toe a SKU toe digit stands for. */
  function DecodeToe(digit: char): Option<string> {
    if digit == '0' then Some("open") else if digit == '1' then Some("closed") else None
  }

  /** The class prefix; it decodes back to either class the form offers. */
  function ClassPrefix(classType: string): (p: string)
    ensures |p| == 2
    ensures classType == "Class 1" || classType == "Class 2" ==> DecodeClass(p) == Some(classType)
  {
    if classType == "Class 1" then "XA" else "XB"
  }

  /** The colour digit; it decodes back to either colour the form offers. */
  function ColorDigit(color: string): (d: string)
    ensures |d| == 1
    ensures color == "bronze" || color == "black" ==> DecodeColor(d[0]) == Some(color)
  {
    if color == "bronze" then "6" else "5"
  }

  /** The toe digit; it decodes back to either toe the form offers. */
  function ToeDigit(toe: string): (d: string)
    ensures |d| == 1
    ensures toe == "open" || toe == "closed" ==> DecodeToe(d[0]) == Some(toe)
  {
    if toe == "open" then "0" else "1"
  }

  /**
   * The four option checks of generateSKU. The accepted options are exactly those the SKU format
   * can write down: a style code exists for the length, and the class prefix, the colour digit and
   * the toe digit decode back to the option they were written for.
   */
  predicate ValidOptions(length: string, color: string, toe: string, classType: string)
    ensures ValidOptions(length, color, toe, classType) <==>
      && DetermineStockingCode(length, "Normal", false).Ok?
      && DecodeClass(ClassPrefix(classType)) == Some(classType)
      && DecodeColor(ColorDigit(color)[0]) == Some(color)
      && DecodeToe(ToeDigit(toe)[0]) == Some(toe)
  {
    && (length == "knee_length" || length == "thigh_length")
    && (color == "bronze" || color == "black")
    && (toe == "open" || toe == "closed")
    && (classType == "Class 1" || classType == "Class 2")
  }

  /** The fields a SKU encodes. */
  datatype SkuFields = SkuFields(classType: string, style: Style, color: string, toe: string, size: int)

  /**
   * Reads a SKU XXYYZWV back into class, style, colour, toe and size; None for anything else.
   * Whatever it reads, writing those fields out again gives back the same SKU.
   */
  function DecodeSku(sku: string): (r: Option<SkuFields>)
    ensures r.Some? ==>
      && |sku| == 7 && 1 <= r.value.size <= 8
      && DecodeStyle(sku[2..4]) == Some(r.value.style)
      && sku == ClassPrefix(r.value.classType) + sku[2..4] + ColorDigit(r.value.color) + ToeDigit(r.value.toe)
           + NatToString(r.value.size)
  {
    if |sku| != 7 then None
    else
      var cls := DecodeClass(sku[..2]);
      var style := DecodeStyle(sku[2..4]);
      var color := DecodeColor(sku[4]);
      var toe := DecodeToe(sku[5]);
      var size := if '1' <= sku[6] <= '8' then Some(sku[6] as int - '0' as int) else None;
      if cls.Some? && style.Some? && color.Some? && toe.Some? && size.Some? then
        var f := SkuFields(cls.value, style.value, color.value, toe.value, size.value);
        assert NatToString(f.size) == [sku[6]];
        assert sku == sku[..2] + sku[2..4] + [sku[4]] + [sku[5]] + [sku[6]];
        Some(f)
      else None
  }

  /** An assembled SKU has seven characters and decodes back to the options it was built from. */
  lemma DecodeAssembledSku(classType: string, code: string, color: string, toe: string, size: int)
    requires classType == "Class 1" || classType == "Class 2"
    requires color == "bronze" || color == "black"
    requires toe == "open" || toe == "closed"
    requires 1 <= size <= 8 && |code| == 2 && DecodeStyle(code).Some?
    ensures var sku := ClassPrefix(classType) + code + ColorDigit(color) + ToeDigit(toe) + NatToString(size);
      |sku| == 7 && DecodeSku(sku) == Some(SkuFields(classType, DecodeStyle(code).value, color, toe, size))
  {
    var p, c, t, n := ClassPrefix(classType), ColorDigit(color), ToeDigit(toe), NatToString(size);
    var sku := p + code + c + t + n;
    assert sku[..2] == p by { assert forall j | 0 <= j < 2 :: sku[j] == p[j]; }
    assert sku[2..4] == code by { assert forall j | 0 <= j < 2 :: sku[2 + j] == code[j]; }
    assert sku[4] == c[0] && sku[5] == t[0] && sku[6] == n[0];
  }

  datatype SkuResult = SkuResult(sku: string, size: int, isGPlus: bool, legLengthType: string,
                                 confidence: int, message: string, improvements: seq<Improvement>)

  /**
   * What generateSKU computes: the options are checked in order (length, colour, toe, class), then
   * the leg-length class and the size are determined and the SKU is assembled.
   */
  function SkuGeneration(table: Table, length: string, color: string, toe: string, classType: string,
                         ankle: real, calf: real, thigh: real, legLength: real): (r: Result<SkuResult>)
    requires TableRangesValid(table)
    ensures length != "knee_length" && length != "thigh_length" ==> r == Err(InvalidLength)
    ensures (length == "knee_length" || length == "thigh_length") && color != "bronze" && color != "black"
      ==> r == Err(InvalidColor)
    ensures ((length == "knee_length" || length == "thigh_length") && (color == "bronze" || color == "black")
             && toe != "open" && toe != "closed") ==> r == Err(InvalidToe)
    ensures ((length == "knee_length" || length == "thigh_length") && (color == "bronze" || color == "black")
             && (toe == "open" || toe == "closed") && classType != "Class 1" && classType != "Class 2")
      ==> r == Err(InvalidClass)
    ensures ValidOptions(length, color, toe, classType) && DetermineLengthType(legLength).Err? ==> r == Err(LegLengthOutOfRange)
    ensures ValidOptions(length, color, toe, classType) && DetermineLengthType(legLength).Ok? ==>
      var sd := SizeDetermination(table, ankle, calf, thigh, legLength, DetermineLengthType(legLength).value, length);
      && (sd.Err? ==> r == Err(sd.error))
      && (sd.Ok? ==>
            && r.Ok? && r.value.size == sd.value.size && r.value.isGPlus == sd.value.isGPlus
            && r.value.confidence == sd.value.confidence && r.value.message == sd.value.message
            && r.value.improvements == sd.value.improvements)
    ensures r.Ok? ==>
      && ValidOptions(length, color, toe, classType)
      && DetermineLengthType(legLength) == Ok(r.value.legLengthType)
      && 1 <= r.value.size <= 8
      && |r.value.sku| == 7
      && DecodeSku(r.value.sku) == Some(SkuFields(classType, StyleOf(length, r.value.legLengthType, r.value.isGPlus), color, toe, r.value.size))
  {
    if length != "knee_length" && length != "thigh_length" then Err(InvalidLength)
    else if color != "bronze" && color != "black" then Err(InvalidColor)
    else if toe != "open" && toe != "closed" then Err(InvalidToe)
    else if classType != "Class 1" && classType != "Class 2" then Err(InvalidClass)
    else match DetermineLengthType(legLength)
      case Err(e) => Err(e)
      case Ok(legLengthType) =>
        match SizeDetermination(table, ankle, calf, thigh, legLength, legLengthType, length)
        case Err(e) => Err(e)
        case Ok(sizeData) =>
          var code := DetermineStockingCode(length, legLengthType, sizeData.isGPlus).value;
          DecodeAssembledSku(classType, code, color, toe, sizeData.size);
          var sku := ClassPrefix(classType) + code + ColorDigit(color) + ToeDigit(toe) + NatToString(sizeData.size);
          Ok(SkuResult(sku, sizeData.size, sizeData.isGPlus, legLengthType, sizeData.confidence, sizeData.message, sizeData.improvements))
  }

  /**
   * A valid request whose size list and candidate walk are known: the SKU is the concatenation of
   * the class prefix, the style code, the colour and toe digits and the size, and the confidence is
   * that of the chosen size's row.
   */
  lemma SkuGenerationFromChoice(table: Table, length: string, color: string, toe: string, classType: string,
                                ankle: real, calf: real, thigh: real, legLength: real,
                                lengthType: string, rows: seq<SizeRow>, choice: Choice)
    requires TableRangesValid(table)
    requires ValidOptions(length, color, toe, classType)
    requires DetermineLengthType(legLength) == Ok(lengthType)
    requires SizeList(table, length, lengthType) == Some(rows)
    requires DetermineInitialSize(ankle).Ok?
    requires ChooseSize(rows, Candidates(ankle, DetermineInitialSize(ankle).value), length, calf, thigh, legLength) == Some(choice)
    ensures var c := CalculateConfidence(table, length, ankle, calf, thigh, legLength, choice.size, lengthType);
      SkuGeneration(table, length, color, toe, classType, ankle, calf, thigh, legLength)
        == Ok(SkuResult(ClassPrefix(classType) + DetermineStockingCode(length, lengthType, choice.isGPlus).value
                          + ColorDigit(color) + ToeDigit(toe) + NatToString(choice.size),
                        choice.size, choice.isGPlus, lengthType, c.score, c.message, c.improvements))
  {
    var c := CalculateConfidence(table, length, ankle, calf, thigh, legLength, choice.size, lengthType);
    SizeDeterminationFromChoice(table, ankle, calf, thigh, legLength, lengthType, length, rows, choice);
    SkuGenerationFromSizeResult(table, length, color, toe, classType, ankle, calf, thigh, legLength, lengthType,
                                SizeResult(choice.size, c.score, choice.isGPlus, c.message, c.improvements));
  }

  /** The confidence of a size that has a row in a list found by the lookup is the score of that row. */
  lemma ConfidenceOfChoice(table: Table, stockingLength: string, ankle: real, calf: real, thigh: real, legLength: real,
                           size: int, lengthType: string, rows: seq<SizeRow>)
    requires TableRangesValid(table) && lengthType != ""
    requires SizeList(table, stockingLength, lengthType) == Some(rows) && Present(rows, size)
    ensures RowRangesValid(rows[size - 1])
    ensures CalculateConfidence(table, stockingLength, ankle, calf, thigh, legLength, size, lengthType)
      == ScoreRow(rows[size - 1], ankle, calf, thigh, legLength)
  {
    assert ConfidenceRow(table, stockingLength, lengthType, size) == Some(rows[size - 1]);
  }

  /** When the lookup, the ankle and the candidate walk succeed, the size result carries the walk's choice and its confidence. */
  lemma SizeDeterminationFromChoice(table: Table, ankle: real, calf: real, thigh: real, legLength: real,
                                    lengthType: string, stockingLength: string, rows: seq<SizeRow>, choice: Choice)
    requires TableRangesValid(table)
    requires SizeList(table, stockingLength, lengthType) == Some(rows)
    requires DetermineInitialSize(ankle).Ok?
    requires ChooseSize(rows, Candidates(ankle, DetermineInitialSize(ankle).value), stockingLength, calf, thigh, legLength) == Some(choice)
    ensures var c := CalculateConfidence(table, stockingLength, ankle, calf, thigh, legLength, choice.size, lengthType);
      SizeDetermination(table, ankle, calf, thigh, legLength, lengthType, stockingLength)
        == Ok(SizeResult(choice.size, c.score, choice.isGPlus, c.message, c.improvements))
  {
  }

  /** Once the options are valid and the size is determined, generateSKU assembles its SKU from them. */
  lemma SkuGenerationFromSizeResult(table: Table, length: string, color: string, toe: string, classType: string,
                                    ankle: real, calf: real, thigh: real, legLength: real,
                                    lengthType: string, sd: SizeResult)
    requires TableRangesValid(table)
    requires ValidOptions(length, color, toe, classType)
    requires DetermineLengthType(legLength) == Ok(lengthType)
    requires SizeDetermination(table, ankle, calf, thigh, legLength, lengthType, length) == Ok(sd)
    ensures SkuGeneration(table, length, color, toe, classType, ankle, calf, thigh, legLength)
      == Ok(SkuResult(ClassPrefix(classType) + DetermineStockingCode(length, lengthType, sd.isGPlus).value
                        + ColorDigit(color) + ToeDigit(toe) + NatToString(sd.size),
                      sd.size, sd.isGPlus, lengthType, sd.confidence, sd.message, sd.improvements))
  {
  }

  /** generateSKU: validates the options, determines class and size, and builds the SKU with successive appends. */
  method GenerateSku(table: Table, length: string, color: string, toe: string, classType: string,
                     ankle: real, calf: real, thigh: real, legLength: real) returns (r: Result<SkuResult>)
    requires TableRangesValid(table)
    ensures r == SkuGeneration(table, length, color, toe, classType, ankle, calf, thigh, legLength)
  {
    if length != "knee_length" && length != "thigh_length" { return Err(InvalidLength); }
    if color != "bronze" && color != "black" { return Err(InvalidColor); }
    if toe != "open" && toe != "closed" { return Err(InvalidToe); }
    if classType != "Class 1" && classType != "Class 2" { return Err(InvalidClass); }

    var legLengthType := DetermineLengthType(legLength);
    if legLengthType.Err? { return Err(legLengthType.error); }
    var sizeData := DetermineSize(table, ankle, calf, thigh, legLength, legLengthType.value, length);
    if sizeData.Err? { return Err(sizeData.error); }
    var stockingCode := DetermineStockingCode(length, legLengthType.value, sizeData.value.isGPlus);

    var sku := if classType == "Class 1" then "XA" else "XB";
    sku := sku + stockingCode.value;
    sku := sku + (if color == "bronze" then "6" else "5");
    sku := sku + (if toe == "open" then "0" else "1");
    sku := sku + NatToString(sizeData.value.size);

    var s := sizeData.value;
    r := Ok(SkuResult(sku, s.size, s.isGPlus, legLengthType.value, s.confidence, s.message, s.improvements));
  }
}
