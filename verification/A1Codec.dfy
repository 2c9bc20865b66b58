/**
 A1 cell addresses. The repository holds two printers (spreadsheet reader and
 table detection) and two parsers (formula evaluator and domain findings);
 each is a method here, tied to one specification, so that their agreement is
 a theorem about the specification.
 */
module A1Codec {
  import opened Wrappers
  import opened Text

  const MAX_ROWS: nat := 1_048_576
  const MAX_COLUMNS: nat := 16_384

  type u32 = n: nat | n <= U32_MAX

  // ---------------------------------------------------------------------
  // Bijective base-26 numerals
  // ---------------------------------------------------------------------

  function LetterOf(d: nat): (c: char)
    requires d < 26
    ensures IsUpper(c)
  {
    ('A' as int + d) as char
  }

  function LetterValue(c: char): (v: nat)
    requires IsUpper(c)
    ensures 1 <= v <= 26
    ensures LetterOf(v - 1) == c
  {
    c as int - 'A' as int + 1
  }

  // Column letters of a one-based column number.
  function Letters(value: nat): (s: string)
    ensures AllUpper(s)
    ensures value > 0 ==> s != []
  {
    if value == 0 then []
    else Letters((value - 1) / 26) + [LetterOf((value - 1) % 26)]
  }

  function LettersValue(s: string): nat
    requires AllUpper(s)
  {
    if s == [] then 0
    else LettersValue(s[..|s| - 1]) * 26 + LetterValue(s[|s| - 1])
  }

  lemma {:induction false} LettersRoundTrip(value: nat)
    ensures LettersValue(Letters(value)) == value
  {
    if value > 0 {
      LettersRoundTrip((value - 1) / 26);
      var s := Letters(value);
      assert s[..|s| - 1] == Letters((value - 1) / 26);
    }
  }

  lemma {:induction false} LettersOfValue(s: string)
    requires AllUpper(s)
    ensures Letters(LettersValue(s)) == s
  {
    if s != [] {
      var front, last := s[..|s| - 1], s[|s| - 1];
      LettersOfValue(front);
      var value := LettersValue(s);
      assert (value - 1) / 26 == LettersValue(front);
      assert (value - 1) % 26 == LetterValue(last) - 1;
      assert s == front + [last];
    }
  }

  lemma ShortLetters(value: nat)
    ensures |Letters(value)| <= 3 <==> value <= 18_278
  {
    if value > 0 {
      var v1 := (value - 1) / 26;
      assert |Letters(value)| == 1 + |Letters(v1)|;
      if v1 > 0 {
        var v2 := (v1 - 1) / 26;
        assert |Letters(v1)| == 1 + |Letters(v2)|;
        if v2 > 0 {
          var v3 := (v2 - 1) / 26;
          assert |Letters(v2)| == 1 + |Letters(v3)|;
          assert v3 == 0 <==> value <= 18_278;
        }
      }
    }
  }

  // The column accumulator with its two overflow checks.
  function ColumnValue(letters: string): (r: Option<nat>)
    requires AllUpper(letters)
  {
    if letters == [] then Some(0)
    else
      match ColumnValue(letters[..|letters| - 1])
      case None => None
      case Some(v) => AddLetter(v, letters[|letters| - 1])
  }

  function AddLetter(column: nat, letter: char): Option<nat>
    requires IsUpper(letter)
  {
    if column * 26 > U32_MAX then None
    else if column * 26 + LetterValue(letter) > U32_MAX then None
    else Some(column * 26 + LetterValue(letter))
  }

  // Six letters never overflow, so within a three-letter name the checks pass.
  lemma {:induction false} ColumnValueIsLettersValue(letters: string)
    requires AllUpper(letters)
    ensures ColumnValue(letters) ==
            if LettersValue(letters) <= U32_MAX then Some(LettersValue(letters)) else None
  {
    if letters != [] {
      ColumnValueIsLettersValue(letters[..|letters| - 1]);
    }
  }

  // ---------------------------------------------------------------------
  // Printers
  // ---------------------------------------------------------------------

  function CellName(row: nat, column: nat): string {
    Letters(column + 1) + Numeral(row + 1)
  }

  function Reversed<T>(s: seq<T>): seq<T> {
    if s == [] then [] else Reversed(s[1..]) + [s[0]]
  }

  lemma {:induction false} ReversedSnoc<T>(s: seq<T>, x: T)
    ensures Reversed(s + [x]) == [x] + Reversed(s)
  {
    if s == [] {
      assert s + [x] == [x];
    } else {
      ReversedSnoc(s[1..], x);
      assert (s + [x])[1..] == s[1..] + [x];
    }
  }

  // The spreadsheet reader's printer.
  method CellAddress(row: u32, column: u32) returns (address: string)
    ensures address == CellName(row, column)
  {
    var value: nat := column + 1;
    var letters: string := [];
    while value > 0
      invariant Letters(column + 1) == Letters(value) + Reversed(letters)
    {
      var remainder := (value - 1) % 26;
      ReversedSnoc(letters, LetterOf(remainder));
      letters := letters + [LetterOf(remainder)];
      value := (value - 1) / 26;
    }
    letters := Reversed(letters);
    address := letters + Numeral(row + 1);
  }

  // Table detection's printer, which prints the column only.
  method ColumnLetter(column: u32) returns (name: string)
    ensures name == Letters(column + 1)
  {
    var value: nat := column + 1;
    var letters: string := [];
    while value > 0
      invariant Letters(column + 1) == Letters(value) + Reversed(letters)
    {
      var remainder := (value - 1) % 26;
      ReversedSnoc(letters, LetterOf(remainder));
      letters := letters + [LetterOf(remainder)];
      value := (value - 1) / 26;
    }
    name := Reversed(letters);
  }

  // ---------------------------------------------------------------------
  // The formula evaluator's parser: zero-based (row, column)
  // ---------------------------------------------------------------------

  function Normalized(raw: string): string {
    UpperCase(Without(Trim(raw), '$'))
  }

  function Coordinates(raw: string): Option<(nat, nat)> {
    CoordinatesOf(Normalized(raw))
  }

  function CoordinatesOf(normalized: string): Option<(nat, nat)> {
    var split := FirstDigit(normalized);
    var letters, digits := normalized[..split], normalized[split..];
    if letters == [] || |letters| > 3 || !AllUpper(letters) || digits == [] || !AllDigits(digits) then None
    else
      match ColumnValue(letters)
      case None => None
      case Some(column) =>
        var row := NumeralValue(digits);
        if !(1 <= row <= MAX_ROWS) || !(1 <= column <= MAX_COLUMNS) then None
        else Some((row - 1, column - 1))
  }

  method ParseCellRef(raw: string) returns (r: Option<(nat, nat)>)
    ensures r == Coordinates(raw)
  {
    var normalized := Normalized(raw);
    var split := FirstDigit(normalized);
    if split == |normalized| {
      return None;
    }
    var letters, digits := normalized[..split], normalized[split..];
    if letters == [] || |letters| > 3 || !AllUpper(letters) || !AllDigits(digits) {
      return None;
    }
    var column: nat := 0;
    for i := 0 to |letters|
      invariant ColumnValue(letters[..i]) == Some(column)
    {
      assert letters[..i + 1][..i] == letters[..i];
      match AddLetter(column, letters[i])
      case None =>
        OverflowIsFinal(letters, i + 1);
        return None;
      case Some(next) => column := next;
    }
    assert letters[..|letters|] == letters;
    // `parse::<u32>` fails above the u32 range, which the row bound also excludes.
    var row := NumeralValue(digits);
    if row > U32_MAX || !(1 <= row <= MAX_ROWS) || !(1 <= column <= MAX_COLUMNS) {
      return None;
    }
    return Some((row - 1, column - 1));
  }

  lemma {:induction false} OverflowIsFinal(letters: string, i: nat)
    requires AllUpper(letters) && i <= |letters|
    requires ColumnValue(letters[..i]) == None
    ensures ColumnValue(letters) == None
    decreases |letters| - i
  {
    if i < |letters| {
      assert letters[..i + 1][..i] == letters[..i];
      OverflowIsFinal(letters, i + 1);
    } else {
      assert letters[..i] == letters;
    }
  }

  // ---------------------------------------------------------------------
  // The findings' parser: one-based (column, row)
  // ---------------------------------------------------------------------

  function ExcelCoordinatesOf(letters: string, digits: string): Option<(nat, nat)>
    requires AllUpper(letters) && AllDigits(digits)
  {
    match ColumnValue(letters)
    case None => None
    case Some(column) =>
      var row := NumeralValue(digits);
      if row <= U32_MAX && 1 <= column <= MAX_COLUMNS && 1 <= row <= MAX_ROWS
      then Some((column, row)) else None
  }

  method ExcelCoordinates(letters: string, digits: string) returns (r: Option<(nat, nat)>)
    requires AllUpper(letters) && AllDigits(digits)
    ensures r == ExcelCoordinatesOf(letters, digits)
  {
    var column: nat := 0;
    for i := 0 to |letters|
      invariant ColumnValue(letters[..i]) == Some(column)
    {
      assert letters[..i + 1][..i] == letters[..i];
      match AddLetter(column, letters[i])
      case None =>
        OverflowIsFinal(letters, i + 1);
        return None;
      case Some(next) => column := next;
    }
    assert letters[..|letters|] == letters;
    var row := NumeralValue(digits);
    if row <= U32_MAX && 1 <= column <= MAX_COLUMNS && 1 <= row <= MAX_ROWS {
      return Some((column, row));
    }
    return None;
  }

  // A checked reference: `None` is the source's InvalidCellRef.
  datatype CellRef = CellRef(text: string)

  function NewCellRef(raw: string): (r: Option<CellRef>)
    ensures r.Some? ==> r.value.text == UpperCase(raw) && IsCellRef(r.value)
  {
    var normalized := UpperCase(raw);
    if IsCellRef(CellRef(normalized)) then Some(CellRef(normalized)) else None
  }

  predicate IsCellRef(ref: CellRef) {
    var split := FirstDigit(ref.text);
    var letters, digits := ref.text[..split], ref.text[split..];
    && split < |ref.text|
    && 1 <= |letters| <= 3 && AllUpper(letters)
    && 1 <= |digits| <= 7 && AllDigits(digits)
    && ExcelCoordinatesOf(letters, digits).Some?
  }

  function RefCoordinates(ref: CellRef): (nat, nat)
    requires IsCellRef(ref)
  {
    var split := FirstDigit(ref.text);
    ExcelCoordinatesOf(ref.text[..split], ref.text[split..]).value
  }

  // ---------------------------------------------------------------------
  // The codec's laws
  // ---------------------------------------------------------------------

  predicate InBounds(row: int, column: int) { 0 <= row < MAX_ROWS && 0 <= column < MAX_COLUMNS }

  lemma {:induction false} FirstDigitOfJoin(letters: string, digits: string)
    requires forall i | 0 <= i < |letters| :: !IsDigit(letters[i])
    requires digits != [] && IsDigit(digits[0])
    ensures FirstDigit(letters + digits) == |letters|
  {
    if letters == [] {
      assert letters + digits == digits;
    } else {
      FirstDigitOfJoin(letters[1..], digits);
      assert (letters + digits)[1..] == letters[1..] + digits;
    }
  }

  lemma FirstDigitOfName(row: nat, column: nat)
    ensures FirstDigit(CellName(row, column)) == |Letters(column + 1)|
    ensures CellName(row, column)[..|Letters(column + 1)|] == Letters(column + 1)
    ensures CellName(row, column)[|Letters(column + 1)|..] == Numeral(row + 1)
  {
    FirstDigitOfJoin(Letters(column + 1), Numeral(row + 1));
  }

  // A printed name determines its coordinates.
  lemma {:induction false} NameDetermines(row: nat, column: nat)
    ensures var name := CellName(row, column);
            var split := FirstDigit(name);
            && AllUpper(name[..split]) && LettersValue(name[..split]) == column + 1
            && AllDigits(name[split..]) && NumeralValue(name[split..]) == row + 1
  {
    FirstDigitOfName(row, column);
    LettersRoundTrip(column + 1);
    NumeralRoundTrip(row + 1);
  }

  // Printing is injective on all coordinates, in bounds or not.
  lemma {:induction false} PrintingIsInjective(r1: nat, c1: nat, r2: nat, c2: nat)
    requires CellName(r1, c1) == CellName(r2, c2)
    ensures r1 == r2 && c1 == c2
  {
    NameDetermines(r1, c1);
    NameDetermines(r2, c2);
  }

  // A column shown in any mixture of cases, and dollar signs placed at will.
  function Decorated(row: nat, shown: string, dollarColumn: bool, dollarRow: bool): string {
    (if dollarColumn then "$" else "") + shown + (if dollarRow then "$" else "") + Numeral(row + 1)
  }

  predicate Shows(shown: string, column: nat) { UpperCase(shown) == Letters(column + 1) }

  lemma {:induction false} NormalizedDecorated(row: nat, column: nat, shown: string, dollarColumn: bool,
                                               dollarRow: bool)
    requires Shows(shown, column)
    ensures Normalized(Decorated(row, shown, dollarColumn, dollarRow)) == CellName(row, column)
  {
    var letters, digits := Letters(column + 1), Numeral(row + 1);
    var d1 := if dollarColumn then "$" else "";
    var d2 := if dollarRow then "$" else "";
    forall i | 0 <= i < |shown|
      ensures IsAlphabetic(shown[i])
    {
      assert ToUpper(shown[i]) == letters[i] && IsUpper(letters[i]);
    }
    UndecoratedText(d1, shown, d2, digits);
    assert UpperCase(shown + digits) == letters + digits;
  }

  lemma {:induction false} UndecoratedText(d1: string, shown: string, d2: string, digits: string)
    requires d1 in ["", "$"] && d2 in ["", "$"]
    requires shown != [] && digits != [] && AllDigits(digits)
    requires forall i | 0 <= i < |shown| :: IsAlphabetic(shown[i])
    ensures Without(Trim(d1 + shown + d2 + digits), '$') == shown + digits
  {
    var text := d1 + shown + d2 + digits;
    assert text[|text| - 1] == digits[|digits| - 1];
    assert text[0] == '$' || text[0] == shown[0];
    TrimIdentity(text);
    assert '$' !in shown && '$' !in digits;
    WithoutDollars(d1, shown, d2, digits);
  }

  lemma {:induction false} WithoutDollars(d1: string, shown: string, d2: string, digits: string)
    requires d1 in ["", "$"] && d2 in ["", "$"]
    requires '$' !in shown && '$' !in digits
    ensures Without(d1 + shown + d2 + digits, '$') == shown + digits
  {
    var front := d1 + shown;
    assert Without(front, '$') == shown by {
      WithoutConcat(d1, shown, '$');
      OnlyDollars(d1);
      WithoutAbsent(shown, '$');
    }
    assert Without(front + d2, '$') == shown by {
      WithoutConcat(front, d2, '$');
      OnlyDollars(d2);
    }
    assert Without(front + d2 + digits, '$') == shown + digits by {
      WithoutConcat(front + d2, digits, '$');
      WithoutAbsent(digits, '$');
    }
  }

  lemma OnlyDollars(d: string)
    requires d in ["", "$"]
    ensures Without(d, '$') == []
  {
  }

  // Parsing any spelling of a printed address gives the coordinates back
  // exactly when they are within Excel's bounds, and nothing otherwise.
  lemma {:induction false} ParseUndoesPrint(row: nat, column: nat, shown: string, dollarColumn: bool, dollarRow: bool)
    requires Shows(shown, column)
    ensures Coordinates(Decorated(row, shown, dollarColumn, dollarRow)) ==
            if row < 1_048_576 && column < 16_384 then Some((row, column)) else None
  {
    NormalizedDecorated(row, column, shown, dollarColumn, dollarRow);
    CoordinatesOfName(row, column);
  }

  lemma {:induction false} CoordinatesOfName(row: nat, column: nat)
    ensures CoordinatesOf(CellName(row, column)) == if InBounds(row, column) then Some((row, column)) else None
  {
    var letters, digits := Letters(column + 1), Numeral(row + 1);
    FirstDigitOfName(row, column);
    assert NumeralValue(digits) == row + 1 by {
      NumeralRoundTrip(row + 1);
    }
    assert LettersValue(letters) == column + 1 by {
      LettersRoundTrip(column + 1);
    }
    ColumnValueIsLettersValue(letters);
    ShortLetters(column + 1);
    CoordinatesOfParts(CellName(row, column), letters, digits);
  }

  lemma {:induction false} CoordinatesOfParts(text: string, letters: string, digits: string)
    requires letters == text[..FirstDigit(text)] && digits == text[FirstDigit(text)..]
    requires letters != [] && AllUpper(letters) && digits != [] && AllDigits(digits)
    ensures CoordinatesOf(text) ==
            if |letters| <= 3 && ColumnValue(letters).Some?
              && InBounds(NumeralValue(digits) - 1, ColumnValue(letters).value - 1)
            then Some((NumeralValue(digits) - 1, ColumnValue(letters).value - 1))
            else None
  {
  }

  lemma ParseUndoesPlainPrint(row: nat, column: nat)
    ensures Coordinates(CellName(row, column)) == if InBounds(row, column) then Some((row, column)) else None
  {
    var letters := Letters(column + 1);
    assert UpperCase(letters) == letters;
    ParseUndoesPrint(row, column, letters, false, false);
    assert Decorated(row, letters, false, false) == CellName(row, column);
  }

  // Conversely, whatever the parser accepts is, up to blanks, dollar signs,
  // case and leading zeros of the row, the printed address of its result.
  lemma {:induction false} PrintUndoesParse(raw: string)
    requires Coordinates(raw).Some?
    ensures var normalized := Normalized(raw);
            var split := FirstDigit(normalized);
            && InBounds(Coordinates(raw).value.0, Coordinates(raw).value.1)
            && AllDigits(normalized[split..])
            && CellName(Coordinates(raw).value.0, Coordinates(raw).value.1) ==
               normalized[..split] + WithoutLeadingZeros(normalized[split..])
  {
    var normalized := Normalized(raw);
    var split := FirstDigit(normalized);
    PrintUndoesParts(normalized, normalized[..split], normalized[split..]);
  }

  lemma {:induction false} PrintUndoesParts(text: string, letters: string, digits: string)
    requires letters == text[..FirstDigit(text)] && digits == text[FirstDigit(text)..]
    requires CoordinatesOf(text).Some?
    ensures AllDigits(digits)
    ensures var cell := CoordinatesOf(text).value;
            InBounds(cell.0, cell.1) && CellName(cell.0, cell.1) == letters + WithoutLeadingZeros(digits)
  {
    CoordinatesOfParts(text, letters, digits);
    NameOfParts(letters, digits);
    assert CoordinatesOf(text) == Some((NumeralValue(digits) - 1, ColumnValue(letters).value - 1));
  }

  lemma {:induction false} NameOfParts(letters: string, digits: string)
    requires AllUpper(letters) && AllDigits(digits) && NumeralValue(digits) > 0
    requires ColumnValue(letters).Some?
    ensures Letters(ColumnValue(letters).value) == letters
    ensures Numeral(NumeralValue(digits)) == WithoutLeadingZeros(digits)
  {
    ColumnValueIsLettersValue(letters);
    LettersOfValue(letters);
    LeadingZerosAreWorthless(digits);
    StrippedHead(digits);
    NumeralOfValue(WithoutLeadingZeros(digits));
  }

  lemma {:induction false} StrippedHead(digits: string)
    requires AllDigits(digits) && NumeralValue(digits) > 0
    ensures var stripped := WithoutLeadingZeros(digits); stripped != [] && stripped[0] != '0'
  {
    if |digits| > 1 && digits[0] == '0' {
      DropZero(digits);
      StrippedHead(digits[1..]);
    }
  }

  // The two parsers agree: the findings' parser accepts exactly the texts the
  // formula parser accepts that carry no blanks or dollar signs and at most
  // seven row digits, with the same cell, one-based and column first.
  lemma {:induction false} ParsersAgree(raw: string)
    requires '$' !in raw && Trim(raw) == raw
    ensures NewCellRef(raw).Some? <==>
            Coordinates(raw).Some? && |raw| - FirstDigit(UpperCase(raw)) <= 7
    ensures NewCellRef(raw).Some? ==>
              && RefCoordinates(NewCellRef(raw).value).0 == Coordinates(raw).value.1 + 1
              && RefCoordinates(NewCellRef(raw).value).1 == Coordinates(raw).value.0 + 1
  {
    var upper := UpperCase(raw);
    assert Normalized(raw) == upper by {
      WithoutAbsent(raw, '$');
    }
    ParsersAgreeOn(upper);
    assert NewCellRef(raw).Some? <==> IsCellRef(CellRef(upper));
    assert Coordinates(raw) == CoordinatesOf(upper);
  }

  lemma {:induction false} ParsersAgreeOn(text: string)
    ensures IsCellRef(CellRef(text)) <==> CoordinatesOf(text).Some? && |text| - FirstDigit(text) <= 7
    ensures IsCellRef(CellRef(text)) ==>
              && CoordinatesOf(text).Some?
              && RefCoordinates(CellRef(text)).0 == CoordinatesOf(text).value.1 + 1
              && RefCoordinates(CellRef(text)).1 == CoordinatesOf(text).value.0 + 1
  {
    var split := FirstDigit(text);
    var letters, digits := text[..split], text[split..];
    if letters == [] || |letters| > 3 || !AllUpper(letters) || digits == [] || !AllDigits(digits) {
      assert CoordinatesOf(text) == None;
    } else {
      CoordinatesOfParts(text, letters, digits);
      assert IsCellRef(CellRef(text)) <==> |digits| <= 7 && ExcelCoordinatesOf(letters, digits).Some?;
    }
  }

  // A text with dollar signs or surrounding blanks is never a findings reference.
  lemma {:induction false} FindingRefsArePlain(raw: string)
    requires NewCellRef(raw).Some?
    ensures '$' !in raw && Trim(raw) == raw
  {
    var upper := UpperCase(raw);
    var split := FirstDigit(upper);
    assert forall i | 0 <= i < |raw| :: upper[i] == ToUpper(raw[i]);
    forall i | 0 <= i < |raw|
      ensures IsUpper(upper[i]) || IsDigit(upper[i])
    {
      if i < split {
        assert upper[i] == upper[..split][i];
      } else {
        assert upper[i] == upper[split..][i - split];
      }
    }
    TrimIdentity(raw);
  }

  // Within Excel's columns three letters are enough, and the last column needs all three.
  lemma {:induction false} ThreeLettersSuffice(column: nat)
    requires column < MAX_COLUMNS
    ensures 1 <= |Letters(column + 1)| <= 3
  {
    ShortLetters(column + 1);
  }
}
