/**
 * The in-memory part of the size-table editor of js/maintenance.js (class SizeTableEditor): the
 * "min-max" range text of one table cell, its validation and parsing, the in-place update of one
 * row's range, and the snapshot transitions of cancel and save. The table is the one the SKU
 * engine reads.
 */
module Maintenance {
  import opened Wrappers
  import opened Numerals
  import opened SizeLookup

  // ---------------------------------------------------------------------------
  // Range text: /^\d+(\.\d+)?-\d+(\.\d+)?$/ and split('-').map(Number)
  // ---------------------------------------------------------------------------

  /** The first position of `c` in `s`. */
  function IndexOf(s: string, c: char): (r: Option<nat>)
    ensures r.Some? ==> r.value < |s| && s[r.value] == c && forall j | 0 <= j < r.value :: s[j] != c
    ensures r.None? ==> forall j | 0 <= j < |s| :: s[j] != c
  {
    if s == [] then None
    else if s[0] == c then Some(0)
    else match IndexOf(s[1..], c)
      case None => None
      case Some(k) => Some(k + 1)
  }

  /** `\d+(\.\d+)?`: digits, optionally followed by a point and more digits; so it starts and ends with a digit. */
  predicate IsDecimal(s: string)
    ensures IsDecimal(s) ==> |s| > 0 && IsDigit(s[0]) && IsDigit(s[|s| - 1])
  {
    match IndexOf(s, '.')
    case None => IsDigits(s)
    case Some(k) =>
      var whole, fraction := s[..k], s[k + 1..];
      if IsDigits(whole) && IsDigits(fraction) then
        assert s[0] == whole[0] && s[|s| - 1] == fraction[|fraction| - 1];
        true
      else false
  }

  /** JavaScript's Number on a decimal numeral: integer part plus fraction digits over a power of ten. */
  function DecimalValue(s: string): (r: real)
    requires IsDecimal(s)
    ensures r >= 0.0
    ensures IndexOf(s, '.').Some? ==>
      var whole := DigitsValue(s[..IndexOf(s, '.').value]) as real;
      whole <= r < whole + 1.0
  {
    match IndexOf(s, '.')
    case None => DigitsValue(s) as real
    case Some(k) => DigitsValue(s[..k]) as real + FractionValue(s[k + 1..])
  }

  /** The digits after the point, as a fraction: their value over ten to the number of digits. */
  function FractionValue(digits: string): (r: real)
    requires forall i | 0 <= i < |digits| :: IsDigit(digits[i])
    ensures 0.0 <= r < 1.0
  {
    DigitsBelowPow10(digits);
    FractionBelowOne(DigitsValue(digits), Pow10(|digits|));
    DigitsValue(digits) as real / Pow10(|digits|) as real
  }

  /** A run of k digits is worth less than ten to the k. */
  lemma {:induction false} DigitsBelowPow10(digits: string)
    requires forall i | 0 <= i < |digits| :: IsDigit(digits[i])
    ensures DigitsValue(digits) < Pow10(|digits|)
  {
    if digits != [] {
      DigitsBelowPow10(digits[..|digits| - 1]);
    }
  }

  lemma FractionBelowOne(v: nat, p: nat)
    requires v < p
    ensures 0.0 <= v as real / p as real < 1.0
  {
    assert v as real / p as real * p as real == v as real;
  }

  /** The whole text is decimal, '-', decimal; decimals hold no '-', so the first '-' is the separator. */
  predicate MatchesRangePattern(text: string)
    ensures MatchesRangePattern(text) ==> |text| >= 3 && IsDigit(text[0]) && IsDigit(text[|text| - 1])
  {
    match IndexOf(text, '-')
    case None => false
    case Some(i) =>
      var left, right := text[..i], text[i + 1..];
      if IsDecimal(left) && IsDecimal(right) then
        assert text[0] == left[0] && text[|text| - 1] == right[|right| - 1];
        true
      else false
  }

  /** The two numbers of a text that matches the pattern, `min` before the '-' and `max` after it. */
  function ParseRange(text: string): (r: Option<Range>)
    ensures r.Some? <==> MatchesRangePattern(text)
    ensures r.Some? ==> 0.0 <= r.value.min && 0.0 <= r.value.max
  {
    match IndexOf(text, '-')
    case None => None
    case Some(i) =>
      if IsDecimal(text[..i]) && IsDecimal(text[i + 1..])
      then Some(Range(DecimalValue(text[..i]), DecimalValue(text[i + 1..])))
      else None
  }

  /** validateInput: the text matches the pattern and its min is below its max. */
  predicate ValidateInput(text: string)
    ensures ValidateInput(text) <==> MatchesRangePattern(text) && ParseRange(text).value.min < ParseRange(text).value.max
    ensures ValidateInput(text) ==> 0.0 <= ParseRange(text).value.min
  {
    ParseRange(text).Some? && ParseRange(text).value.min < ParseRange(text).value.max
  }

  /** The pattern and the parser agree: a text parses exactly when it matches. */
  lemma ParseRangeIffPattern(text: string)
    ensures ParseRange(text).Some? <==> MatchesRangePattern(text)
    ensures ValidateInput(text) ==> MatchesRangePattern(text) && RangeValid(ParseRange(text).value)
  {
  }

  lemma DecimalHasNoDash(s: string)
    requires IsDecimal(s)
    ensures forall j | 0 <= j < |s| :: s[j] != '-'
  {
    match IndexOf(s, '.')
    case None =>
    case Some(k) =>
      assert s == s[..k] + "." + s[k + 1..];
      forall j | 0 <= j < |s| ensures s[j] != '-' {
        if j < k { assert s[j] == s[..k][j]; }
        else if j > k { assert s[j] == s[k + 1..][j - k - 1]; }
      }
  }

  /**
   * Every text of the form decimal-decimal matches the pattern and splits back into the same two
   * numerals, whatever they are: the regular expression's language is exactly these texts.
   */
  lemma RangePatternAccepts(left: string, right: string)
    requires IsDecimal(left) && IsDecimal(right)
    ensures MatchesRangePattern(left + "-" + right)
    ensures ParseRange(left + "-" + right) == Some(Range(DecimalValue(left), DecimalValue(right)))
  {
    var text := left + "-" + right;
    DecimalHasNoDash(left);
    assert forall j | 0 <= j < |left| :: text[j] == left[j];
    assert text[|left|] == '-';
    assert IndexOf(text, '-') == Some(|left|);
    assert text[..|left|] == left;
    assert text[|left| + 1..] == right;
  }

  /** Every text that matches the pattern is such a pair of numerals. */
  lemma RangePatternSplits(text: string)
    requires MatchesRangePattern(text)
    ensures exists i | 0 <= i < |text| :: text == text[..i] + "-" + text[i + 1..] && IsDecimal(text[..i]) && IsDecimal(text[i + 1..])
  {
    var i := IndexOf(text, '-').value;
    assert text == text[..i] + "-" + text[i + 1..];
  }

  /** A whole number's decimal spelling is a numeral of that value. */
  lemma DecimalOfNatToString(n: nat)
    ensures IsDecimal(NatToString(n)) && DecimalValue(NatToString(n)) == n as real
  {
    var s := NatToString(n);
    assert forall j | 0 <= j < |s| :: s[j] != '.';
    DigitsValueOfNatToString(n);
  }

  /**
   * The cell text renderTable writes for whole-number bounds, "min-max", parses back to those
   * bounds, and passes validation exactly when min < max.
   */
  lemma RenderedRangeRoundTrip(min: nat, max: nat)
    ensures ParseRange(NatToString(min) + "-" + NatToString(max)) == Some(Range(min as real, max as real))
    ensures ValidateInput(NatToString(min) + "-" + NatToString(max)) <==> min < max
  {
    DecimalOfNatToString(min);
    DecimalOfNatToString(max);
    RangePatternAccepts(NatToString(min), NatToString(max));
  }

  lemma DigitsValueAppend(s: string, c: char)
    requires forall i | 0 <= i < |s| :: IsDigit(s[i])
    requires IsDigit(c)
    ensures DigitsValue(s + [c]) == DigitsValue(s) * 10 + (c as int - '0' as int)
  {
    assert (s + [c])[..|s|] == s;
  }

  /** The value of a two-digit numeral. */
  lemma TwoDigits(c0: char, c1: char)
    requires IsDigit(c0) && IsDigit(c1)
    ensures IsDecimal([c0, c1])
    ensures DecimalValue([c0, c1]) == ((c0 as int - '0' as int) * 10 + (c1 as int - '0' as int)) as real
  {
    assert IndexOf([c0, c1], '.') == None;
    DigitsValueAppend([], c0);
    assert [] + [c0] == [c0];
    DigitsValueAppend([c0], c1);
    assert [c0] + [c1] == [c0, c1];
  }

  /** A numeral with a fraction part reads as its integer part plus its fraction digits over a power of ten. */
  lemma DecimalWithFraction(whole: string, fraction: string)
    requires IsDigits(whole) && IsDigits(fraction)
    ensures IsDecimal(whole + "." + fraction)
    ensures DecimalValue(whole + "." + fraction) == DigitsValue(whole) as real + FractionValue(fraction)
  {
    IndexOfFirst(whole, '.', fraction);
    SplitAround(whole, '.', fraction);
    DecimalValueAt(whole + "." + fraction, |whole|);
  }

  /** Cutting `a + [c] + b` around position |a| gives back `a` and `b`. */
  lemma SplitAround(a: string, c: char, b: string)
    ensures (a + [c] + b)[..|a|] == a && (a + [c] + b)[|a| + 1..] == b
  {
  }

  /** A character that `a` lacks is found right after `a`. */
  lemma IndexOfFirst(a: string, c: char, b: string)
    requires forall j | 0 <= j < |a| :: a[j] != c
    ensures IndexOf(a + [c] + b, c) == Some(|a|)
  {
    var s := a + [c] + b;
    assert s[|a|] == c;
    assert forall j | 0 <= j < |a| :: s[j] == a[j];
  }

  /** Unfolds DecimalValue at the position of its point. */
  lemma DecimalValueAt(s: string, k: nat)
    requires IsDecimal(s) && IndexOf(s, '.') == Some(k)
    ensures DecimalValue(s) == DigitsValue(s[..k]) as real + FractionValue(s[k + 1..])
  {
  }

  /** "12.5" reads as twelve and a half. */
  lemma TwelveAndAHalf()
    ensures IsDecimal("12.5") && DecimalValue("12.5") == 12.5
  {
    TwoDigits('1', '2');
    DigitsValueAppend([], '5');
    assert [] + ['5'] == ['5'];
    assert Pow10(1) == 10;
    DecimalWithFraction(['1', '2'], ['5']);
    assert ['1', '2'] + "." + ['5'] == "12.5";
  }

  /** A range with a fractional bound is accepted and read exactly. */
  lemma ValidateInputAcceptsFraction()
    ensures ValidateInput("12.5-20") && ParseRange("12.5-20") == Some(Range(12.5, 20.0))
  {
    TwelveAndAHalf();
    TwoDigits('2', '0');
    RangePatternAccepts("12.5", ['2', '0']);
    assert "12.5" + "-" + ['2', '0'] == "12.5-20";
  }

  /** A whole-number range accepted as written in the catalog. */
  lemma ValidateInputAcceptsWhole()
    ensures ValidateInput("17-19") && ParseRange("17-19") == Some(Range(17.0, 19.0))
  {
    assert ['1', '7'] + "-" + ['1', '9'] == "17-19";
    TwoDigits('1', '7');
    TwoDigits('1', '9');
    RangePatternAccepts(['1', '7'], ['1', '9']);
  }

  /** Well-formed texts whose min is not below their max. */
  lemma ValidateInputRejectsOrder()
    ensures !ValidateInput("20-12") && !ValidateInput("19-19")
  {
    TwoDigits('2', '0');
    TwoDigits('1', '2');
    TwoDigits('1', '9');
    RangePatternAccepts(['2', '0'], ['1', '2']);
    assert ['2', '0'] + "-" + ['1', '2'] == "20-12";
    RangePatternAccepts(['1', '9'], ['1', '9']);
    assert ['1', '9'] + "-" + ['1', '9'] == "19-19";
  }

  /** Texts outside the pattern: a second dash, a missing digit, a missing dash, a sign, a space. */
  lemma ValidateInputRejectsPattern()
    ensures !ValidateInput("1-2-3") && !ValidateInput(".5-1") && !ValidateInput("5") && !ValidateInput("1.-2")
    ensures !ValidateInput("-5-3") && !ValidateInput(" 1-2")
  {
    assert IndexOf("1-2-3", '-') == Some(1) && "1-2-3"[2..] == "2-3";
    assert IndexOf("2-3", '.') == None && !IsDigits("2-3");
    assert IndexOf(".5-1", '-') == Some(2) && ".5-1"[..2] == ".5" && IndexOf(".5", '.') == Some(0);
    assert IndexOf("5", '-') == None;
    assert IndexOf("1.-2", '-') == Some(2) && "1.-2"[..2] == "1." && IndexOf("1.", '.') == Some(1);
    assert "1."[2..] == "";
    assert IndexOf("-5-3", '-') == Some(0) && "-5-3"[..0] == "";
    assert IndexOf(" 1-2", '-') == Some(2) && " 1-2"[..2] == " 1" && IndexOf(" 1", '.') == None;
  }

  // ---------------------------------------------------------------------------
  // One row's range, addressed by column letter
  // ---------------------------------------------------------------------------

  /** The `data-field` letters of the table's input cells. */
  datatype Field = A | B | C | D | G

  /** The `<field>_min` / `<field>_max` pair of a row; None where a knee row has no such field. */
  function GetField(row: SizeRow, f: Field): Option<Range> {
    match f
    case A => Some(row.A)
    case B => Some(row.B)
    case C => row.C
    case D => Some(row.D)
    case G => row.G
  }

  /**
   * The row with `<field>_min` and `<field>_max` set; on a knee row, assigning C or G creates the
   * field, as assigning a property of a JavaScript object does.
   */
  function SetField(row: SizeRow, f: Field, r: Range): (res: SizeRow)
    ensures GetField(res, f) == Some(r)
    ensures forall g | g != f :: GetField(res, g) == GetField(row, g)
    ensures res.Size == row.Size
  {
    match f
    case A => row.(A := r)
    case B => row.(B := r)
    case C => row.(C := Some(r))
    case D => row.(D := r)
    case G => row.(G := Some(r))
  }

  /** A row is unchanged by writing back a column's own, present value. */
  lemma SetFieldOwnValue(row: SizeRow, f: Field)
    requires GetField(row, f).Some?
    ensures SetField(row, f, GetField(row, f).value) == row
  {
  }

  /** Setting a valid range keeps every range of the row valid. */
  lemma SetFieldKeepsRangesValid(row: SizeRow, f: Field, r: Range)
    requires RowRangesValid(row) && RangeValid(r)
    ensures RowRangesValid(SetField(row, f, r))
  {
  }

  /** Same stocking lengths, same classes under each, same number of rows in each list. */
  predicate SameShape(t: Table, u: Table) {
    && t.Keys == u.Keys
    && (forall l | l in t :: t[l].Keys == u[l].Keys)
    && (forall l, k | l in t && k in t[l] :: |t[l][k]| == |u[l][k]|)
  }

  /**
   * `currentData[length][kind][index]` with one range replaced; None where the path does not exist
   * (there the assignment throws a TypeError and nothing is written).
   */
  function UpdateRow(t: Table, length: string, kind: string, index: int, f: Field, r: Range): (res: Option<Table>)
    ensures res.Some? <==> length in t && kind in t[length] && 0 <= index < |t[length][kind]|
    ensures res.Some? ==>
      && SameShape(res.value, t)
      && res.value[length][kind][index] == SetField(t[length][kind][index], f, r)
      && (forall l, k, i | l in t && k in t[l] && 0 <= i < |t[l][k]| && (l, k, i) != (length, kind, index) ::
            res.value[l][k][i] == t[l][k][i])
  {
    if length in t && kind in t[length] && 0 <= index < |t[length][kind]| then
      var rows := t[length][kind];
      Some(t[length := t[length][kind := rows[index := SetField(rows[index], f, r)]]])
    else None
  }

  /** Writing a non-empty range keeps every range of the table non-empty. */
  lemma UpdateRowKeepsRangesValid(t: Table, length: string, kind: string, index: int, f: Field, r: Range)
    requires TableRangesValid(t) && RangeValid(r)
    requires UpdateRow(t, length, kind, index, f, r).Some?
    ensures TableRangesValid(UpdateRow(t, length, kind, index, f, r).value)
  {
    var rows := t[length][kind];
    var res := UpdateRow(t, length, kind, index, f, r).value;
    SetFieldKeepsRangesValid(rows[index], f, r);
    assert ListRangesValid(rows);
    assert res[length][kind] == rows[index := SetField(rows[index], f, r)];
    assert ListRangesValid(res[length][kind]);
  }

  /** Two edits of the same cell: the second one wins. */
  lemma UpdateRowTwice(t: Table, length: string, kind: string, index: int, f: Field, r1: Range, r2: Range)
    requires UpdateRow(t, length, kind, index, f, r1).Some?
    ensures UpdateRow(UpdateRow(t, length, kind, index, f, r1).value, length, kind, index, f, r2)
      == UpdateRow(t, length, kind, index, f, r2)
  {
    var rows := t[length][kind];
    var rows1 := rows[index := SetField(rows[index], f, r1)];
    var rows2 := rows[index := SetField(rows[index], f, r2)];
    var t1 := UpdateRow(t, length, kind, index, f, r1).value;
    assert t1 == t[length := t[length][kind := rows1]];
    assert t1[length] == t[length][kind := rows1];
    assert SetField(SetField(rows[index], f, r1), f, r2) == SetField(rows[index], f, r2);
    assert rows1[index := SetField(rows1[index], f, r2)] == rows2;
    assert t1[length][kind := rows2] == t[length][kind := rows2];
    assert UpdateRow(t1, length, kind, index, f, r2).value == t1[length := t1[length][kind := rows2]];
    assert t1[length := t[length][kind := rows2]] == t[length := t[length][kind := rows2]];
  }

  // ---------------------------------------------------------------------------
  // The editor
  // ---------------------------------------------------------------------------

  class SizeTableEditor {
    /** The stocking length shown ('thigh_length' or 'knee_length'). */
    var currentTable: string
    /** The class shown ('Normal' or 'Petite'). */
    var currentType: string
    /** The table as loaded or last saved. */
    var originalData: Table
    /** The table with the edits made since. */
    var currentData: Table
    var hasChanges: bool

    /**
     * Without pending changes the working copy is the saved table; the two always have the same
     * shape, and every range in both is non-empty, so the engine can score against either.
     */
    predicate Valid()
      reads this
    {
      && (!hasChanges ==> currentData == originalData)
      && SameShape(currentData, originalData)
      && TableRangesValid(originalData)
      && TableRangesValid(currentData)
    }

    /** The editor once initializeEditor has loaded `loaded` and taken its working copy. */
    constructor (loaded: Table)
      requires TableRangesValid(loaded)
      ensures Valid()
      ensures currentTable == "thigh_length" && currentType == "Normal" && !hasChanges
      ensures originalData == loaded && currentData == loaded
    {
      currentTable := "thigh_length";
      currentType := "Normal";
      originalData := loaded;
      currentData := loaded;
      hasChanges := false;
    }

    /**
     * handleInputChange: a valid "min-max" text for column `field` of row `sizeIndex` of the shown
     * list replaces that range in the working copy and marks the editor changed; invalid text, or
     * a row that does not exist, changes nothing.
     */
    method HandleInputChange(text: string, field: Field, sizeIndex: int)
      requires Valid()
      modifies this
      ensures Valid()
      ensures currentTable == old(currentTable) && currentType == old(currentType)
      ensures originalData == old(originalData)
      ensures !ValidateInput(text) ==> currentData == old(currentData) && hasChanges == old(hasChanges)
      ensures ValidateInput(text) ==>
        match UpdateRow(old(currentData), currentTable, currentType, sizeIndex, field, ParseRange(text).value)
        case None => currentData == old(currentData) && hasChanges == old(hasChanges)
        case Some(edited) => currentData == edited && hasChanges
    {
      if !ValidateInput(text) {
        return;
      }
      var range := ParseRange(text).value;
      if currentTable in currentData && currentType in currentData[currentTable]
         && 0 <= sizeIndex < |currentData[currentTable][currentType]|
      {
        var rows := currentData[currentTable][currentType];
        var row := SetField(rows[sizeIndex], field, range);
        var edited := UpdateRow(currentData, currentTable, currentType, sizeIndex, field, range).value;
        currentData := currentData[currentTable := currentData[currentTable][currentType := rows[sizeIndex := row]]];
        assert currentData == edited;
        UpdateRowKeepsRangesValid(old(currentData), currentTable, currentType, sizeIndex, field, range);
        hasChanges := true;
      }
    }

    /**
     * cancelChanges: with pending changes and the user's confirmation, the working copy becomes
     * the saved table again; otherwise nothing happens.
     */
    method CancelChanges(confirmed: bool)
      requires Valid()
      modifies this
      ensures Valid()
      ensures currentTable == old(currentTable) && currentType == old(currentType)
      ensures originalData == old(originalData)
      ensures old(hasChanges) && confirmed ==> currentData == originalData && !hasChanges
      ensures !(old(hasChanges) && confirmed) ==> currentData == old(currentData) && hasChanges == old(hasChanges)
    {
      if hasChanges {
        if confirmed {
          currentData := originalData;
          hasChanges := false;
        }
      }
    }

    /** validateAllInputs: every rendered input passes validateInput. */
    method ValidateAllInputs(inputs: seq<string>) returns (isValid: bool)
      ensures isValid <==> forall i | 0 <= i < |inputs| :: ValidateInput(inputs[i])
    {
      isValid := true;
      var n := 0;
      while n < |inputs|
        invariant 0 <= n <= |inputs|
        invariant isValid <==> forall i | 0 <= i < n :: ValidateInput(inputs[i])
      {
        if !ValidateInput(inputs[n]) {
          isValid := false;
        }
        n := n + 1;
      }
    }

    /**
     * The state update of saveChanges: nothing happens unless every input is valid; then, if the
     * server reports success, the working copy becomes the saved table.
     */
    method SaveChanges(inputs: seq<string>, serverSuccess: bool)
      requires Valid()
      modifies this
      ensures Valid()
      ensures currentTable == old(currentTable) && currentType == old(currentType)
      ensures currentData == old(currentData)
      ensures TableRangesValid(originalData)
      ensures (forall i | 0 <= i < |inputs| :: ValidateInput(inputs[i])) && serverSuccess ==>
        originalData == currentData && !hasChanges
      ensures !((forall i | 0 <= i < |inputs| :: ValidateInput(inputs[i])) && serverSuccess) ==>
        originalData == old(originalData) && hasChanges == old(hasChanges)
    {
      var allValid := ValidateAllInputs(inputs);
      if !allValid {
        return;
      }
      if serverSuccess {
        originalData := currentData;
        hasChanges := false;
      }
    }
  }
}
