/**
 The findings' cell ranges, and their agreement with the formula reader's.
 */
module CellRanges {
  import opened Wrappers
  import opened Text
  import opened A1Codec
  import opened FormulaEvaluator

  datatype CellRange = CellRange(start: CellRef, end: CellRef)

  // Ordered by column and by row.
  predicate IsCellRange(range: CellRange) {
    && IsCellRef(range.start)
    && IsCellRef(range.end)
    && RefCoordinates(range.start).0 <= RefCoordinates(range.end).0
    && RefCoordinates(range.start).1 <= RefCoordinates(range.end).1
  }

  function ParseCellRange(raw: string): Option<CellRange> {
    var colon := IndexOf(raw, ':');
    if colon == |raw| || ':' in raw[colon + 1..] then None
    else
      var start, end := NewCellRef(raw[..colon]), NewCellRef(raw[colon + 1..]);
      if start.None? || end.None? || !IsCellRange(CellRange(start.value, end.value)) then None
      else Some(CellRange(start.value, end.value))
  }

  function Display(range: CellRange): string { range.start.text + ":" + range.end.text }

  lemma {:induction false} FirstIndex(s: string, c: char, t: string)
    requires c !in s
    ensures IndexOf(s + [c] + t, c) == |s|
  {
    if s == [] {
      assert s + [c] + t == [c] + t;
    } else {
      FirstIndex(s[1..], c, t);
      assert (s + [c] + t)[1..] == s[1..] + [c] + t;
    }
  }

  // References consist of capital letters and digits.
  lemma RefsArePlain(ref: CellRef)
    requires IsCellRef(ref)
    ensures forall i | 0 <= i < |ref.text| :: IsUpper(ref.text[i]) || IsDigit(ref.text[i])
    ensures UpperCase(ref.text) == ref.text
  {
  }

  // Printing a range and parsing it back gives the range, and parsing only
  // changes the case of the text.
  lemma {:induction false} RangesReadBack(range: CellRange)
    requires IsCellRange(range)
    ensures ParseCellRange(Display(range)) == Some(range)
  {
    hide IsCellRef, IndexOf;
    RefsArePlain(range.start);
    RefsArePlain(range.end);
    var raw := Display(range);
    assert raw == range.start.text + [':'] + range.end.text;
    FirstIndex(range.start.text, ':', range.end.text);
    assert raw[..|range.start.text|] == range.start.text && raw[|range.start.text| + 1..] == range.end.text;
  }

  lemma UpperJoin(s: string, c: char, t: string)
    ensures UpperCase(s + [c] + t) == UpperCase(s) + [ToUpper(c)] + UpperCase(t)
  {
  }

  // A parsed range consists of the parsed texts around its colon.
  lemma {:induction false} ParsedParts(raw: string) returns (start: string, end: string)
    requires ParseCellRange(raw).Some?
    ensures raw == start + [':'] + end && ':' !in start
    ensures NewCellRef(start).Some? && NewCellRef(end).Some?
    ensures ParseCellRange(raw).value == CellRange(NewCellRef(start).value, NewCellRef(end).value)
    ensures IsCellRange(ParseCellRange(raw).value)
  {
    hide NewCellRef, IsCellRange;
    var colon := IndexOf(raw, ':');
    start, end := raw[..colon], raw[colon + 1..];
    BeforeIndex(raw, ':');
  }

  lemma {:induction false} BeforeIndex(s: string, c: char)
    ensures c !in s[..IndexOf(s, c)]
  {
    if s != [] && s[0] != c {
      BeforeIndex(s[1..], c);
      assert s[..IndexOf(s, c)] == [s[0]] + s[1..][..IndexOf(s[1..], c)];
    }
  }

  lemma {:induction false} ParsingNormalises(raw: string)
    requires ParseCellRange(raw).Some?
    ensures Display(ParseCellRange(raw).value) == UpperCase(raw) && IsCellRange(ParseCellRange(raw).value)
  {
    hide ParseCellRange, IsCellRange, UpperCase;
    var start, end := ParsedParts(raw);
    UpperJoin(start, ':', end);
  }

  // SUM reads two plain references around a colon as their rectangle.
  lemma {:induction false} SumReadsParts(start: string, end: string)
    requires ':' !in start && ',' !in start && ';' !in start && ',' !in end && ';' !in end
    requires Coordinates(start).Some? && Coordinates(end).Some?
    ensures var (a, b) := (Coordinates(start).value, Coordinates(end).value);
            a.0 <= b.0 && a.1 <= b.1 ==> SumRange(start + [':'] + end) == Ok(Region(a.0, a.1, b.0, b.1))
  {
    hide IndexOf, Coordinates;
    FirstIndex(start, ':', end);
    var raw := start + [':'] + end;
    assert raw[..|start|] == start && raw[|start| + 1..] == end;
  }

  // A text the findings accept as a range is the same rectangle to SUM,
  // counted from zero with the row first.
  lemma {:induction false} RangeParsersAgree(raw: string)
    requires ParseCellRange(raw).Some?
    ensures var range := ParseCellRange(raw).value;
            && SumRange(raw).Ok?
            && var region := SumRange(raw).value;
               && RefCoordinates(range.start) == (region.startColumn + 1, region.startRow + 1)
               && RefCoordinates(range.end) == (region.endColumn + 1, region.endRow + 1)
  {
    hide ParseCellRange, SumRange, Coordinates, RefCoordinates, IsCellRef, NewCellRef, IndexOf;
    var start, end := ParsedParts(raw);
    FindingRefsArePlain(start);
    FindingRefsArePlain(end);
    ParsersAgree(start);
    ParsersAgree(end);
    NoOtherSeparators(start);
    NoOtherSeparators(end);
    SumReadsParts(start, end);
  }

  lemma NoOtherSeparators(raw: string)
    requires NewCellRef(raw).Some?
    ensures ',' !in raw && ';' !in raw
  {
    hide IsCellRef;
    RefsArePlain(NewCellRef(raw).value);
    assert forall i | 0 <= i < |raw| :: UpperCase(raw)[i] == ToUpper(raw[i]);
  }
}
