/**
 * What the SKU engine does on the shipped catalog `SizeLookupTable`: the ankle bands of the
 * rows, knee requests, the thigh gap between C and G, the lost thigh Petite list, and worked
 * requests end to end.
 */
module SkuOnCatalog {
  import opened Wrappers
  import opened Numerals
  import opened SizeLookup
  import opened SkuGenerator

  /** The three lists that survive in the catalog. */
  predicate CatalogList(rows: seq<SizeRow>) {
    rows == ThighNormal || rows == KneePetite || rows == KneeNormal
  }

  /** Every list of the catalog is one of the three, and every one of the three is reachable. */
  lemma CatalogListsAreTheSurvivors()
    ensures forall length, kind | length in SizeLookupTable && kind in SizeLookupTable[length] ::
      CatalogList(SizeLookupTable[length][kind])
    ensures SizeList(SizeLookupTable, "thigh_length", "Normal") == Some(ThighNormal)
    ensures SizeList(SizeLookupTable, "knee_length", "Petite") == Some(KneePetite)
    ensures SizeList(SizeLookupTable, "knee_length", "Normal") == Some(KneeNormal)
    ensures SizeList(SizeLookupTable, "thigh_length", "Petite") == None
  {
    CatalogKeys();
  }

  /**
   * The ankle band the if-chain of determineInitialSize gives size s, read off row s - 1: size 1
   * includes its lower bound, the others exclude it (it belongs to the size below).
   */
  predicate InAnkleBand(rows: seq<SizeRow>, s: int, ankle: real)
    requires 1 <= s <= |rows|
  {
    (if s == 1 then rows[0].A.min <= ankle else rows[s - 1].A.min < ankle) && ankle <= rows[s - 1].A.max
  }

  /** All three lists share the ankle column. */
  lemma AnkleColumnsAgree(rows: seq<SizeRow>)
    requires CatalogList(rows)
    ensures |rows| == 8
    ensures forall i | 0 <= i < 8 :: rows[i].A == ThighNormal[i].A
  {
  }

  /** The eight bands written out. */
  lemma AnkleBands(rows: seq<SizeRow>, ankle: real)
    requires CatalogList(rows)
    ensures |rows| == 8
    ensures InAnkleBand(rows, 1, ankle) <==> 17.0 <= ankle <= 19.0
    ensures InAnkleBand(rows, 2, ankle) <==> 19.0 < ankle <= 21.0
    ensures InAnkleBand(rows, 3, ankle) <==> 21.0 < ankle <= 23.0
    ensures InAnkleBand(rows, 4, ankle) <==> 23.0 < ankle <= 25.0
    ensures InAnkleBand(rows, 5, ankle) <==> 25.0 < ankle <= 27.0
    ensures InAnkleBand(rows, 6, ankle) <==> 27.0 < ankle <= 29.0
    ensures InAnkleBand(rows, 7, ankle) <==> 29.0 < ankle <= 31.0
    ensures InAnkleBand(rows, 8, ankle) <==> 30.0 < ankle <= 33.0
  {
    AnkleColumnsAgree(rows);
  }

  /**
   * determineInitialSize is the first-match reading of the catalog's A bands, including the
   * overlapping 29-31 and 30-33 bands of sizes 7 and 8.
   */
  lemma InitialSizeIsFirstMatchingBand(rows: seq<SizeRow>, ankle: real, s: int)
    requires CatalogList(rows) && 1 <= s <= 8
    ensures |rows| == 8
    ensures DetermineInitialSize(ankle) == Ok(s) <==>
      InAnkleBand(rows, s, ankle) && forall t | 1 <= t < s :: !InAnkleBand(rows, t, ankle)
  {
    AnkleBands(rows, ankle);
    if DetermineInitialSize(ankle) == Ok(s) {
      forall t | 1 <= t < s ensures !InAnkleBand(rows, t, ankle) {
        assert t == 1 || t == 2 || t == 3 || t == 4 || t == 5 || t == 6 || t == 7;
      }
    }
  }

  /** No row's A band contains an ankle that determineInitialSize rejects. */
  lemma RejectedAnkleInNoBand(rows: seq<SizeRow>, ankle: real)
    requires CatalogList(rows)
    ensures |rows| == 8
    ensures DetermineInitialSize(ankle).Err? <==> forall s | 1 <= s <= 8 :: !InAnkleBand(rows, s, ankle)
  {
    AnkleColumnsAgree(rows);
    var t := ThighNormal;
    assert t[0].A == Range(17.0, 19.0) && t[7].A == Range(30.0, 33.0);
    if DetermineInitialSize(ankle).Ok? {
      var s := DetermineInitialSize(ankle).value;
      InitialSizeIsFirstMatchingBand(rows, ankle, s);
    }
  }

  /**
   * Knee leg-length ranges (20-38, 39-50) never meet the 62-83 lengths determineLengthType accepts:
   * on a knee row the length never fits and always deviates by more than half a range width.
   */
  lemma KneeLengthNeverFits(legLength: real, lengthType: string, size: int)
    requires DetermineLengthType(legLength) == Ok(lengthType) && 1 <= size <= 8
    ensures SizeList(SizeLookupTable, "knee_length", lengthType).Some?
    ensures var row := SizeList(SizeLookupTable, "knee_length", lengthType).value[size - 1];
      && CalculateFitScore(legLength, row.D.min, row.D.max) == 0.0
      && CalculateDeviation(legLength, row.D.min, row.D.max) > 0.5
  {
    CatalogListsAreTheSurvivors();
    CatalogKneeLengths();
    var row := SizeList(SizeLookupTable, "knee_length", lengthType).value[size - 1];
    assert row.D == Range(20.0, 38.0) || row.D == Range(39.0, 50.0);
    assert 62.0 <= legLength;
    if row.D == Range(20.0, 38.0) {
      assert (legLength - 38.0) / 18.0 >= 24.0 / 18.0 by { DivideAtLeast(legLength - 38.0, 24.0, 18.0); }
    } else {
      assert (legLength - 50.0) / 11.0 >= 12.0 / 11.0 by { DivideAtLeast(legLength - 50.0, 12.0, 11.0); }
    }
  }

  lemma DivideAtLeast(x: real, y: real, w: real)
    requires x >= y && w > 0.0
    ensures x / w >= y / w
  {
    assert x / w - y / w == (x - y) / w;
    assert (x - y) / w * w == x - y;
  }

  /** Every knee confidence score the engine can produce is the lowest band, 20. */
  lemma KneeConfidenceIsPoor(ankle: real, calf: real, thigh: real, legLength: real, lengthType: string, size: int)
    requires DetermineLengthType(legLength) == Ok(lengthType) && 1 <= size <= 8
    ensures TableRangesValid(SizeLookupTable)
      && CalculateConfidence(SizeLookupTable, "knee_length", ankle, calf, thigh, legLength, size, lengthType).score == 20
  {
    CatalogRangesValid();
    CatalogListsAreTheSurvivors();
    KneeLengthNeverFits(legLength, lengthType, size);
    var row := SizeList(SizeLookupTable, "knee_length", lengthType).value[size - 1];
    assert ConfidenceRow(SizeLookupTable, "knee_length", lengthType, size) == Some(row);
    LengthFarOffIsPoor(row, ankle, calf, thigh, legLength);
  }

  /** A leg length more than half a range width outside its range puts any row in the lowest band. */
  lemma LengthFarOffIsPoor(row: SizeRow, ankle: real, calf: real, thigh: real, legLength: real)
    requires RowRangesValid(row) && CalculateDeviation(legLength, row.D.min, row.D.max) > 0.5
    ensures ScoreRow(row, ankle, calf, thigh, legLength).score == 20
  {
    var entries := Entries(row, ankle, calf, thigh, legLength);
    assert entries[3].deviation > 0.5;
    assert MaxDeviation(entries) >= entries[3].deviation;
  }

  /** A thigh measurement strictly between C_max and G_min of a thigh row neither fits C nor earns G+. */
  lemma ThighGapNeitherFitsNorGPlus(i: int, thigh: real)
    requires 0 <= i < |ThighNormal|
    requires ThighNormal[i].C.Some? && ThighNormal[i].G.Some?
    requires ThighNormal[i].C.value.max < thigh < ThighNormal[i].G.value.min
    ensures FitScoreOpt(thigh, ThighNormal[i].C) == 0.0
    ensures DeviationOpt(thigh, ThighNormal[i].C) > 0.0
    ensures !IsGPlus("thigh_length", thigh, ThighNormal[i])
  {
    CatalogRangesValid();
    CatalogListsAreTheSurvivors();
    assert RowRangesValid(ThighNormal[i]);
  }

  /** On the catalog, a G+ thigh is always outside the row's C range, so its thigh fit is 0. */
  lemma GPlusThighScoresNoThighFit(rows: seq<SizeRow>, i: int, stockingLength: string, thigh: real)
    requires CatalogList(rows) && 0 <= i < |rows|
    requires IsGPlus(stockingLength, thigh, rows[i])
    ensures rows == ThighNormal && stockingLength == "thigh_length"
    ensures FitScoreOpt(thigh, rows[i].C) == 0.0
  {
    CatalogThighColumns();
    CatalogRangesValid();
    CatalogListsAreTheSurvivors();
    assert RowRangesValid(rows[i]);
  }

  /** Without a thigh Petite list, every thigh request with a 62-71 leg length is refused. */
  lemma ThighPetiteRejected(color: string, toe: string, classType: string,
                            ankle: real, calf: real, thigh: real, legLength: real)
    requires ValidOptions("thigh_length", color, toe, classType) && 62.0 <= legLength <= 71.0
    ensures TableRangesValid(SizeLookupTable)
      && SkuGeneration(SizeLookupTable, "thigh_length", color, toe, classType, ankle, calf, thigh, legLength)
         == Err(InvalidLegLengthType)
  {
    CatalogRangesValid();
    CatalogListsAreTheSurvivors();
  }

  /**
   * On the catalog the walk over the candidates always finds a size: every candidate lies in 1..8
   * and every list has eight rows, so "No appropriate size found" never happens.
   */
  lemma CatalogAlwaysFindsASize(ankle: real, calf: real, thigh: real, legLength: real,
                                lengthType: string, stockingLength: string)
    ensures TableRangesValid(SizeLookupTable)
      && SizeDetermination(SizeLookupTable, ankle, calf, thigh, legLength, lengthType, stockingLength) != Err(NoAppropriateSize)
  {
    CatalogRangesValid();
    CatalogIndexedBySize();
    var r := SizeDetermination(SizeLookupTable, ankle, calf, thigh, legLength, lengthType, stockingLength);
    if SizeList(SizeLookupTable, stockingLength, lengthType).Some? && DetermineInitialSize(ankle).Ok? {
      var rows := SizeList(SizeLookupTable, stockingLength, lengthType).value;
      var s := DetermineInitialSize(ankle).value;
      var cands := Candidates(ankle, s);
      assert s in cands;
      var j :| 0 <= j < |cands| && cands[j] == s;
      assert Present(rows, cands[j]);
      assert ChooseSize(rows, cands, stockingLength, calf, thigh, legLength).Some?;
    }
  }

  /** A knee SKU always reports the lowest confidence band and never the G+ cut. */
  lemma KneeSkuIsPoorFit(color: string, toe: string, classType: string,
                         ankle: real, calf: real, thigh: real, legLength: real)
    ensures TableRangesValid(SizeLookupTable)
    ensures var r := SkuGeneration(SizeLookupTable, "knee_length", color, toe, classType, ankle, calf, thigh, legLength);
      r.Ok? ==> r.value.confidence == 20 && !r.value.isGPlus
  {
    CatalogRangesValid();
    var r := SkuGeneration(SizeLookupTable, "knee_length", color, toe, classType, ankle, calf, thigh, legLength);
    if r.Ok? {
      var lt := r.value.legLengthType;
      KneeConfidenceIsPoor(ankle, calf, thigh, legLength, lt, r.value.size);
    }
  }

  /**
   * As written, determineSize and calculateConfidenceScore look the class up at the top of the
   * table; the catalog's top-level keys are stocking lengths, so the lookup misses for every class
   * determineLengthType produces, while the two-level lookup finds a knee list for each.
   */
  lemma AsWrittenLookupAlwaysMisses(legLength: real)
    requires DetermineLengthType(legLength).Ok?
    ensures !SizeListFoundAsWritten(SizeLookupTable, DetermineLengthType(legLength).value)
    ensures SizeList(SizeLookupTable, "knee_length", DetermineLengthType(legLength).value).Some?
  {
    CatalogKeys();
  }

  // ---------------------------------------------------------------------------
  // Worked requests on the catalog
  // ---------------------------------------------------------------------------

  /**
   * Thigh, bronze, open toe, Class 1, ankle 21, calf 36, thigh 51, leg length 80: the whole-number
   * ankle probes sizes 1, 2 and 3, size 3 fits best, every measurement is inside its range.
   */
  lemma ScenarioWholeAnkle()
    ensures TableRangesValid(SizeLookupTable)
    ensures var r := SkuGeneration(SizeLookupTable, "thigh_length", "bronze", "open", "Class 1", 21.0, 36.0, 51.0, 80.0);
      && r.Ok? && r.value.sku == "XA69603" && r.value.size == 3 && !r.value.isGPlus
      && r.value.legLengthType == "Normal" && r.value.confidence == 100 && r.value.improvements == []
  {
    assert NatToString(3) == "3";
    assert ClassPrefix("Class 1") + DetermineStockingCode("thigh_length", "Normal", false).value
      + ColorDigit("bronze") + ToeDigit("open") + NatToString(3) == "XA69603";
    var rows := ThighNormal;
    assert AllWithin(rows[2], 21.0, 36.0, 51.0, 80.0);
    CatalogListsAreTheSurvivors();
    var cands := Candidates(21.0, 2);
    assert cands == [1, 2, 3];
    assert FirstMaxAt(rows, cands, 2, 36.0, 51.0, 80.0);
    BestFitFindsFirstMaximum(rows, cands, 2, 36.0, 51.0, 80.0);
    assert ChooseSize(rows, cands, "thigh_length", 36.0, 51.0, 80.0) == Some(Choice(3, false));
    CatalogRangesValid();
    SkuGenerationFromChoice(SizeLookupTable, "thigh_length", "bronze", "open", "Class 1", 21.0, 36.0, 51.0, 80.0, "Normal", rows, Choice(3, false));
    ConfidenceOfChoice(SizeLookupTable, "thigh_length", 21.0, 36.0, 51.0, 80.0, 3, "Normal", rows);
    PerfectConfidenceHasNoImprovements(rows[2], 21.0, 36.0, 51.0, 80.0);
  }

  /**
   * Every measurement at the midpoint of size 3's ranges: size 3 scores the maximal 9 and the
   * confidence is a perfect 100 with nothing to improve.
   */
  lemma ScenarioMidpoints()
    ensures TableRangesValid(SizeLookupTable)
    ensures var r := SkuGeneration(SizeLookupTable, "thigh_length", "black", "closed", "Class 2", 22.0, 35.5, 51.5, 77.5);
      && r.Ok? && r.value.sku == "XB69513" && r.value.size == 3
      && r.value.confidence == 100 && r.value.improvements == []
  {
    assert NatToString(3) == "3";
    assert ClassPrefix("Class 2") + DetermineStockingCode("thigh_length", "Normal", false).value
      + ColorDigit("black") + ToeDigit("closed") + NatToString(3) == "XB69513";
    var rows := ThighNormal;
    assert AllWithin(rows[2], 22.0, 35.5, 51.5, 77.5);
    CatalogListsAreTheSurvivors();
    var cands := Candidates(22.0, 3);
    assert cands == [2, 3, 4];
    assert Score(rows, 3, 35.5, 51.5, 77.5) == 9.0;
    assert FirstMaxAt(rows, cands, 1, 35.5, 51.5, 77.5);
    BestFitFindsFirstMaximum(rows, cands, 1, 35.5, 51.5, 77.5);
    assert ChooseSize(rows, cands, "thigh_length", 35.5, 51.5, 77.5) == Some(Choice(3, false));
    CatalogRangesValid();
    SkuGenerationFromChoice(SizeLookupTable, "thigh_length", "black", "closed", "Class 2", 22.0, 35.5, 51.5, 77.5, "Normal", rows, Choice(3, false));
    ConfidenceOfChoice(SizeLookupTable, "thigh_length", 22.0, 35.5, 51.5, 77.5, 3, "Normal", rows);
    PerfectConfidenceHasNoImprovements(rows[2], 22.0, 35.5, 51.5, 77.5);
  }

  /**
   * A thigh of 55 on size 2 is above C (44-51) and inside G (52-61): the SKU takes the G+ code 68,
   * and the thigh, 4/7 of a range width out, puts the confidence in the lowest band.
   */
  lemma ScenarioGPlus()
    ensures TableRangesValid(SizeLookupTable)
    ensures var r := SkuGeneration(SizeLookupTable, "thigh_length", "bronze", "open", "Class 1", 20.5, 33.0, 55.0, 80.0);
      && r.Ok? && r.value.sku == "XA68602" && r.value.size == 2 && r.value.isGPlus && r.value.confidence == 20
  {
    assert NatToString(2) == "2";
    assert ClassPrefix("Class 1") + DetermineStockingCode("thigh_length", "Normal", true).value
      + ColorDigit("bronze") + ToeDigit("open") + NatToString(2) == "XA68602";
    var rows := ThighNormal;
    var entries := Entries(rows[1], 20.5, 33.0, 55.0, 80.0);
    assert entries[2].deviation == 4.0 / 7.0;
    CatalogListsAreTheSurvivors();
    var cands := Candidates(20.5, 2);
    assert cands == [2];
    assert FirstMaxAt(rows, cands, 0, 33.0, 55.0, 80.0);
    BestFitFindsFirstMaximum(rows, cands, 0, 33.0, 55.0, 80.0);
    assert ChooseSize(rows, cands, "thigh_length", 33.0, 55.0, 80.0) == Some(Choice(2, true));
    CatalogRangesValid();
    SkuGenerationFromChoice(SizeLookupTable, "thigh_length", "bronze", "open", "Class 1", 20.5, 33.0, 55.0, 80.0, "Normal", rows, Choice(2, true));
    ConfidenceOfChoice(SizeLookupTable, "thigh_length", 20.5, 33.0, 55.0, 80.0, 2, "Normal", rows);
    assert MaxDeviation(entries) >= entries[2].deviation;
  }

  /** An ankle of 16.9 is below the first band. */
  lemma ScenarioAnkleTooSmall(calf: real, thigh: real)
    ensures TableRangesValid(SizeLookupTable)
      && SkuGeneration(SizeLookupTable, "thigh_length", "bronze", "open", "Class 1", 16.9, calf, thigh, 80.0) == Err(AnkleOutOfRange)
  {
    CatalogRangesValid();
    CatalogListsAreTheSurvivors();
  }

  /** A leg length of 55 is refused before any size list is consulted, for either stocking length. */
  lemma ScenarioLegTooShort(length: string, ankle: real, calf: real, thigh: real)
    requires length == "knee_length" || length == "thigh_length"
    ensures TableRangesValid(SizeLookupTable)
      && SkuGeneration(SizeLookupTable, length, "black", "closed", "Class 2", ankle, calf, thigh, 55.0) == Err(LegLengthOutOfRange)
  {
    CatalogRangesValid();
  }

  /** A perfect score leaves nothing to improve. */
  lemma PerfectConfidenceHasNoImprovements(row: SizeRow, ankle: real, calf: real, thigh: real, legLength: real)
    requires RowRangesValid(row) && AllWithin(row, ankle, calf, thigh, legLength)
    ensures ScoreRow(row, ankle, calf, thigh, legLength).score == 100
    ensures ScoreRow(row, ankle, calf, thigh, legLength).improvements == []
  {
    var c := ScoreRow(row, ankle, calf, thigh, legLength);
    var entries := Entries(row, ankle, calf, thigh, legLength);
    PerfectIffAllWithin(row, ankle, calf, thigh, legLength);
    NoPositiveWhenNothingDeviates(entries, c.deviations);
  }

  /** When the largest deviation is 0, no rearrangement of the entries has a positive one. */
  lemma NoPositiveWhenNothingDeviates(s: seq<DeviationEntry>, t: seq<DeviationEntry>)
    requires |s| > 0 && MaxDeviation(s) == 0.0 && multiset(s) == multiset(t)
    ensures Positive(t) == []
  {
    forall i | 0 <= i < |t| ensures t[i].deviation <= 0.0 {
      assert t[i] in multiset(s);
    }
    NoPositiveAmongNonPositive(t);
  }

  lemma {:induction false} NoPositiveAmongNonPositive(t: seq<DeviationEntry>)
    requires forall i | 0 <= i < |t| :: t[i].deviation <= 0.0
    ensures Positive(t) == []
  {
    if t != [] {
      assert forall i | 0 <= i < |t[1..]| :: t[1..][i] == t[i + 1];
      NoPositiveAmongNonPositive(t[1..]);
    }
  }
}
