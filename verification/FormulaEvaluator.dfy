/**
 The formula evaluator: the parser object, the rectangular SUM and the entry
 point, with the theorems about whole formula texts.
 */
module FormulaEvaluator {
  import opened Wrappers
  import opened Text
  import opened A1Codec
  import opened FormulaGrammar
  import opened FormulaLexer

  // ---------------------------------------------------------------------
  // The parser object
  // ---------------------------------------------------------------------

  class Parser<D> {
    const env: Env<D>
    const tokens: seq<Token<D>>
    var position: nat

    constructor (a: Arithmetic<D>, formula: string, cells: map<(nat, nat), D>)
      ensures position == 0
      ensures env == Env(a, cells, Lex(a, formula).error) && tokens == Lex(a, formula).tokens
    {
      var lexed, error := Tokenize(a, formula);
      env := Env(a, cells, error);
      tokens := lexed;
      position := 0;
    }

    // The outcome and the new position are those of a step on the unread tokens.
    ghost predicate Follows(s: Step<D>, r: Result<D, Failure>, before: nat)
      reads this`position
    {
      && position <= |tokens|
      && match s
         case Done(value, rest) => r == Ok(value) && before < position && rest == tokens[position..]
         case Stop(failure) => r == Err(failure)
    }

    method ParseExpression() returns (r: Result<D, Failure>)
      requires position <= |tokens|
      modifies this`position
      ensures Follows(Expression(env, tokens[old(position)..]), r, old(position))
      decreases |tokens| - position, 2
    {
      if env.lexError.Some? {
        return Err(Unverifiable(env.lexError.value));
      }
      ghost var start := tokens[position..];
      var first := ParseTerm();
      if first.Err? {
        return first;
      }
      var value := first.value;
      while NextOperator(tokens[position..], 0).Some?
        invariant old(position) < position <= |tokens|
        invariant Expression(env, start) == ExpressionTail(env, value, tokens[position..])
        decreases |tokens| - position
      {
        var op := NextOperator(tokens[position..], 0).value;
        assert tokens[position..][1..] == tokens[position + 1..];
        position := position + 1;
        var operand := ParseTerm();
        if operand.Err? {
          return operand;
        }
        var next := Apply(env, op, value, operand.value);
        if next.Err? {
          return next;
        }
        value := next.value;
      }
      return Ok(value);
    }

    method ParseTerm() returns (r: Result<D, Failure>)
      requires position <= |tokens|
      modifies this`position
      ensures Follows(Term(env, tokens[old(position)..]), r, old(position))
      decreases |tokens| - position, 1
    {
      ghost var start := tokens[position..];
      var first := ParseFactor();
      if first.Err? {
        return first;
      }
      var value := first.value;
      while NextOperator(tokens[position..], 1).Some?
        invariant old(position) < position <= |tokens|
        invariant Term(env, start) == TermTail(env, value, tokens[position..])
        decreases |tokens| - position
      {
        var op := NextOperator(tokens[position..], 1).value;
        assert tokens[position..][1..] == tokens[position + 1..];
        position := position + 1;
        var operand := ParseFactor();
        if operand.Err? {
          return operand;
        }
        var next := Apply(env, op, value, operand.value);
        if next.Err? {
          return next;
        }
        value := next.value;
      }
      return Ok(value);
    }

    method ParseFactor() returns (r: Result<D, Failure>)
      requires position <= |tokens|
      modifies this`position
      ensures Follows(Factor(env, tokens[old(position)..]), r, old(position))
      decreases |tokens| - position, 0
    {
      if position == |tokens| {
        return Err(Unverifiable(ExpectedOperand));
      }
      var token := tokens[position];
      assert tokens[position..][0] == token && tokens[position..][1..] == tokens[position + 1..];
      position := position + 1;
      match token
      case Number(value) => return Ok(value);
      case Cell(row, column) => return LookUp(env, row, column);
      case Minus =>
        var operand := ParseFactor();
        if operand.Err? {
          return operand;
        }
        return Negated(env, operand.value);
      case Plus =>
        r := ParseFactor();
      case Open =>
        var inner := ParseExpression();
        if inner.Err? {
          return inner;
        }
        if position == |tokens| || !tokens[position].Close? {
          return Err(Unverifiable(UnclosedParenthesis));
        }
        assert tokens[position..][0] == tokens[position] && tokens[position..][1..] == tokens[position + 1..];
        position := position + 1;
        return inner;
      case _ => return Err(Unverifiable(ExpectedOperand));
    }
  }

  // ---------------------------------------------------------------------
  // SUM over a rectangle
  // ---------------------------------------------------------------------

  datatype Region = Region(startRow: nat, startColumn: nat, endRow: nat, endColumn: nat)

  predicate Ordered(region: Region) {
    region.startRow <= region.endRow && region.startColumn <= region.endColumn
  }

  predicate Inside(region: Region, cell: (nat, nat)) {
    region.startRow <= cell.0 <= region.endRow && region.startColumn <= cell.1 <= region.endColumn
  }

  // The dense scan from one position on, row by row.
  function SumFrom<D>(a: Arithmetic<D>, cells: map<(nat, nat), D>, region: Region,
                      row: nat, column: nat, total: D): Result<D, Failure>
    requires row <= region.endRow + 1 && column <= region.endColumn + 1
    requires Ordered(region)
    decreases region.endRow + 1 - row, region.endColumn + 1 - column
  {
    if row > region.endRow then Ok(total)
    else if column > region.endColumn then SumFrom(a, cells, region, row + 1, region.startColumn, total)
    else if (row, column) !in cells then SumFrom(a, cells, region, row, column + 1, total)
    else
      match a.add(total, cells[(row, column)])
      case None => Err(Panic)
      case Some(next) => SumFrom(a, cells, region, row, column + 1, next)
  }

  method SumRegion<D>(a: Arithmetic<D>, cells: map<(nat, nat), D>, region: Region) returns (r: Result<D, Failure>)
    requires Ordered(region)
    ensures r == SumFrom(a, cells, region, region.startRow, region.startColumn, a.zero)
  {
    var total := a.zero;
    for row := region.startRow to region.endRow + 1
      invariant SumFrom(a, cells, region, region.startRow, region.startColumn, a.zero) ==
                SumFrom(a, cells, region, row, region.startColumn, total)
    {
      for column := region.startColumn to region.endColumn + 1
        invariant SumFrom(a, cells, region, region.startRow, region.startColumn, a.zero) ==
                  SumFrom(a, cells, region, row, column, total)
      {
        if (row, column) in cells {
          match a.add(total, cells[(row, column)])
          case None => return Err(Panic);
          case Some(next) => total := next;
        }
      }
    }
    return Ok(total);
  }

  // Row-major order, which is the order of the source's sorted cell map.
  predicate Precedes(p: (nat, nat), q: (nat, nat)) {
    p.0 < q.0 || (p.0 == q.0 && p.1 < q.1)
  }

  // The numeric cells of the rectangle at or after a position, each once, in order.
  ghost predicate Lists<D>(cells: map<(nat, nat), D>, region: Region, from: (nat, nat), keys: seq<(nat, nat)>) {
    && (forall i, j | 0 <= i < j < |keys| :: Precedes(keys[i], keys[j]))
    && (forall k :: k in keys <==> k in cells && Inside(region, k) && !Precedes(k, from))
  }

  function SumKeys<D>(a: Arithmetic<D>, cells: map<(nat, nat), D>, keys: seq<(nat, nat)>, total: D): Result<D, Failure>
    requires forall k | k in keys :: k in cells
  {
    if keys == [] then Ok(total)
    else
      match a.add(total, cells[keys[0]])
      case None => Err(Panic)
      case Some(next) => SumKeys(a, cells, keys[1..], next)
  }

  // The dense loop adds exactly the sparse numeric cells inside the rectangle.
  lemma {:induction false} DenseSumIsSparseSum<D>(a: Arithmetic<D>, cells: map<(nat, nat), D>, region: Region,
                                                  row: nat, column: nat, total: D, keys: seq<(nat, nat)>)
    requires region.startRow <= row <= region.endRow + 1 && region.startColumn <= column <= region.endColumn + 1
    requires Ordered(region)
    requires Lists(cells, region, (row, column), keys)
    ensures forall k | k in keys :: k in cells
    ensures SumFrom(a, cells, region, row, column, total) == SumKeys(a, cells, keys, total)
    decreases region.endRow + 1 - row, region.endColumn + 1 - column
  {
    hide Lists;
    var here := (row, column);
    ListedAreCells(cells, region, here, keys);
    if row > region.endRow {
      NothingBelow(cells, region, row, column, keys);
    } else if column > region.endColumn {
      NextRow(cells, region, row, column, keys);
      DenseSumIsSparseSum(a, cells, region, row + 1, region.startColumn, total, keys);
    } else if here !in cells {
      NextColumn(cells, region, row, column, keys);
      DenseSumIsSparseSum(a, cells, region, row, column + 1, total, keys);
    } else {
      HeadOfListing(cells, region, here, keys);
      if a.add(total, cells[here]).Some? {
        DenseSumIsSparseSum(a, cells, region, row, column + 1, a.add(total, cells[here]).value, keys[1..]);
      }
    }
  }

  lemma NothingBelow<D>(cells: map<(nat, nat), D>, region: Region, row: nat, column: nat, keys: seq<(nat, nat)>)
    requires Lists(cells, region, (row, column), keys) && row > region.endRow
    ensures keys == []
  {
    if keys != [] {
      SomeKey(keys);
      assert false;
    }
  }

  lemma SomeKey(keys: seq<(nat, nat)>)
    requires keys != []
    ensures exists k :: k in keys
  {
    assert keys[0] in keys;
  }

  lemma ListedAreCells<D>(cells: map<(nat, nat), D>, region: Region, from: (nat, nat), keys: seq<(nat, nat)>)
    requires Lists(cells, region, from, keys)
    ensures forall k | k in keys :: k in cells
  {
  }

  lemma NextRow<D>(cells: map<(nat, nat), D>, region: Region, row: nat, column: nat, keys: seq<(nat, nat)>)
    requires Lists(cells, region, (row, column), keys) && column > region.endColumn
    ensures Lists(cells, region, (row + 1, region.startColumn), keys)
  {
  }

  lemma NextColumn<D>(cells: map<(nat, nat), D>, region: Region, row: nat, column: nat, keys: seq<(nat, nat)>)
    requires Lists(cells, region, (row, column), keys) && (row, column) !in cells
    ensures Lists(cells, region, (row, column + 1), keys)
  {
  }

  lemma HeadOfListing<D>(cells: map<(nat, nat), D>, region: Region, here: (nat, nat), keys: seq<(nat, nat)>)
    requires Lists(cells, region, here, keys)
    requires here in cells && Inside(region, here)
    ensures keys != [] && keys[0] == here
    ensures Lists(cells, region, (here.0, here.1 + 1), keys[1..])
  {
  }

  // ---------------------------------------------------------------------
  // The SUM argument
  // ---------------------------------------------------------------------

  function IndexOf(s: string, c: char): (n: nat)
    ensures n <= |s|
    ensures n < |s| ==> s[n] == c
  {
    if s == [] || s[0] == c then 0 else 1 + IndexOf(s[1..], c)
  }

  function SumRange(argument: string): Result<Region, Failure> {
    if ',' in argument || ';' in argument then Err(Unverifiable(MultipleSumArguments))
    else
      var colon := IndexOf(argument, ':');
      if colon == |argument| then Err(Unverifiable(SumRequiresRange))
      else
        match Coordinates(argument[..colon])
        case None => Err(Unverifiable(InvalidSumStart))
        case Some(start) =>
          match Coordinates(argument[colon + 1..])
          case None => Err(Unverifiable(InvalidSumEnd))
          case Some(end) =>
            if start.0 > end.0 || start.1 > end.1 then Err(Unverifiable(ReversedSumRange))
            else Ok(Region(start.0, start.1, end.0, end.1))
  }

  function SumOf<D>(a: Arithmetic<D>, cells: map<(nat, nat), D>, argument: string,
                    formulaCell: (nat, nat)): Result<D, Failure> {
    match SumRange(argument)
    case Err(failure) => Err(failure)
    case Ok(region) =>
      if Inside(region, formulaCell) then Err(Unverifiable(SelfReference))
      else SumFrom(a, cells, region, region.startRow, region.startColumn, a.zero)
  }

  method EvaluateSum<D>(a: Arithmetic<D>, cells: map<(nat, nat), D>, argument: string,
                        formulaCell: (nat, nat)) returns (r: Result<D, Failure>)
    ensures r == SumOf(a, cells, argument, formulaCell)
  {
    if ',' in argument || ';' in argument {
      return Err(Unverifiable(MultipleSumArguments));
    }
    var colon := IndexOf(argument, ':');
    if colon == |argument| {
      return Err(Unverifiable(SumRequiresRange));
    }
    var start := ParseCellRef(argument[..colon]);
    if start.None? {
      return Err(Unverifiable(InvalidSumStart));
    }
    var end := ParseCellRef(argument[colon + 1..]);
    if end.None? {
      return Err(Unverifiable(InvalidSumEnd));
    }
    if start.value.0 > end.value.0 || start.value.1 > end.value.1 {
      return Err(Unverifiable(ReversedSumRange));
    }
    var region := Region(start.value.0, start.value.1, end.value.0, end.value.1);
    if Inside(region, formulaCell) {
      return Err(Unverifiable(SelfReference));
    }
    r := SumRegion(a, cells, region);
  }

  // ---------------------------------------------------------------------
  // The entry point
  // ---------------------------------------------------------------------

  datatype CellValue = Integer(value: int) | NumberText(text: string) | Other

  datatype SheetCell = SheetCell(row: nat, column: nat, value: CellValue)

  function CellDecimal<D>(a: Arithmetic<D>, cell: SheetCell): Option<D> {
    match cell.value
    case Integer(value) => Some(a.fromInt(value))
    case NumberText(text) => a.read(text)
    case Other => None
  }

  // The numeric cells other than the formula's own; later entries win.
  function NumericCells<D>(a: Arithmetic<D>, sheet: seq<SheetCell>, formulaCell: (nat, nat)): map<(nat, nat), D> {
    if sheet == [] then map[]
    else
      var cell := sheet[|sheet| - 1];
      var before := NumericCells(a, sheet[..|sheet| - 1], formulaCell);
      if (cell.row, cell.column) == formulaCell || CellDecimal(a, cell).None? then before
      else before[(cell.row, cell.column) := CellDecimal(a, cell).value]
  }

  function FormulaText(raw: string): string {
    var trimmed := Trim(raw);
    if trimmed != [] && trimmed[0] == '=' then trimmed[1..] else trimmed
  }

  predicate IsSum(formula: string) {
    |formula| >= 4 && UpperCase(formula[..4]) == "SUM(" && formula[|formula| - 1] == ')'
  }

  function EvaluateFormula<D>(a: Arithmetic<D>, sheet: seq<SheetCell>, raw: string,
                              formulaCell: (nat, nat)): Result<D, Failure> {
    var formula := FormulaText(raw);
    var cells := NumericCells(a, sheet, formulaCell);
    if formula == [] then Err(Unverifiable(EmptyFormula))
    else if IsSum(formula) then
      SumIsClosed(formula);
      SumOf(a, cells, formula[4..|formula| - 1], formulaCell)
    else
      EvaluateTokens(Env(a, cells, Lex(a, formula).error), Lex(a, formula).tokens)
  }

  lemma SumIsClosed(formula: string)
    requires IsSum(formula)
    ensures |formula| > 4
  {
  }

  method Evaluate<D>(a: Arithmetic<D>, sheet: seq<SheetCell>, raw: string,
                     formulaCell: (nat, nat)) returns (r: Result<D, Failure>)
    ensures r == EvaluateFormula(a, sheet, raw, formulaCell)
  {
    var formula := FormulaText(raw);
    if formula == [] {
      return Err(Unverifiable(EmptyFormula));
    }
    var cells := NumericCells(a, sheet, formulaCell);
    if IsSum(formula) {
      SumIsClosed(formula);
      r := EvaluateSum(a, cells, formula[4..|formula| - 1], formulaCell);
      return;
    }
    var parser := new Parser(a, formula, cells);
    assert parser.tokens[0..] == parser.tokens;
    r := parser.ParseExpression();
    if r.Ok? && parser.position != |parser.tokens| {
      return Err(Unverifiable(UnsupportedTrailingSyntax));
    }
  }

  // ---------------------------------------------------------------------
  // Theorems about whole formulas
  // ---------------------------------------------------------------------

  lemma {:induction false} PrintEnds<D>(a: Arithmetic<D>, t: Tree<D>)
    requires Printable(a, t)
    ensures Print(t) != [] && !IsWhitespace(Print(t)[|Print(t)| - 1])
    decreases t
  {
    match t
    case Literal(raw, _) => SpanIsAll(raw);
    case Reference(row, column) => NameIsName(row, column);
    case Negate(operand) => PrintEnds(a, operand);
    case Posit(operand) => PrintEnds(a, operand);
    case Group(_) =>
    case Binary(_, _, right) => PrintEnds(a, right);
  }

  // A text that reads as SUM( is never a well-formed arithmetic formula.
  lemma {:induction false} SumIsNotArithmetic<D>(a: Arithmetic<D>, formula: string)
    requires |formula| >= 4 && UpperCase(formula[..4]) == "SUM("
    ensures Lex(a, formula) == Lexed([], Some(UnsupportedIdentifier))
  {
    var upper := UpperCase(formula[..4]);
    assert forall i | 0 <= i < 4 :: upper[i] == ToUpper(formula[i]);
    assert upper[0] == 'S' && upper[1] == 'U' && upper[2] == 'M' && upper[3] == '(';
    assert forall i | 0 <= i < 3 :: IsAlphabetic(formula[i]);
    NameSpanSplit(formula, 3);
    NameWithoutDigits(formula[..3]);
    assert ScanOne(a, formula) == NameScan<D>(formula[..3]);
  }

  lemma NameWithoutDigits(name: string)
    requires forall i | 0 <= i < |name| :: IsAlphabetic(name[i])
    ensures Coordinates(name) == None
  {
    TrimIdentity(name);
    WithoutAbsent(name, '$');
    var normalized := Normalized(name);
    assert forall i | 0 <= i < |normalized| :: normalized[i] == ToUpper(name[i]);
    assert FirstDigit(normalized) == |normalized|;
  }

  // Writing any arithmetic tree down with minimal parentheses and evaluating
  // the text gives the tree's value, or its first failure from left to right.
  lemma {:induction false} PrintedFormulaKeepsMeaning<D>(a: Arithmetic<D>, sheet: seq<SheetCell>,
                                                         formulaCell: (nat, nat), t: Tree<D>)
    requires Printable(a, t)
    ensures EvaluateFormula(a, sheet, "=" + Print(Bracket(t, 0)), formulaCell) ==
            Eval(Env(a, NumericCells(a, sheet, formulaCell), None), t)
  {
    var text := Print(Bracket(t, 0));
    BracketPrintable(a, t, 0);
    PrintEnds(a, Bracket(t, 0));
    var raw := "=" + text;
    assert raw[|raw| - 1] == text[|text| - 1];
    TrimIdentity(raw);
    assert FormulaText(raw) == text;
    LexOfPrint(a, Bracket(t, 0));
    if IsSum(text) {
      SumIsNotArithmetic(a, text);
      assert false;
    }
    MinimalFormKeepsMeaning(Env(a, NumericCells(a, sheet, formulaCell), None), t);
  }

  // Conversely an arithmetic formula has a value exactly when its text lexes
  // to the tokens of a derivable tree with that value.
  lemma {:induction false} FormulaValueIffDerivable<D(!new)>(a: Arithmetic<D>, sheet: seq<SheetCell>, raw: string,
                                          formulaCell: (nat, nat), value: D)
    requires !IsSum(FormulaText(raw))
    ensures EvaluateFormula(a, sheet, raw, formulaCell) == Ok(value) <==>
            && Lex(a, FormulaText(raw)).error == None
            && Derives(Env(a, NumericCells(a, sheet, formulaCell), None), Lex(a, FormulaText(raw)).tokens, value)
  {
    var formula := FormulaText(raw);
    var env := Env(a, NumericCells(a, sheet, formulaCell), None);
    if Lex(a, formula).error == None {
      AcceptedIffDerivable(env, Lex(a, formula).tokens, value);
      assert forall t: Tree<D> :: Yield(t) != [];
    }
  }

  // Sheets that differ only in the formula's own cell.
  predicate SameElsewhere(s1: seq<SheetCell>, s2: seq<SheetCell>, own: (nat, nat)) {
    && |s1| == |s2|
    && forall i | 0 <= i < |s1| ::
         || s1[i] == s2[i]
         || ((s1[i].row, s1[i].column) == own && (s2[i].row, s2[i].column) == own)
  }

  lemma {:induction false} OwnCellIsFiltered<D>(a: Arithmetic<D>, s1: seq<SheetCell>, s2: seq<SheetCell>,
                                                own: (nat, nat))
    requires SameElsewhere(s1, s2, own)
    ensures NumericCells(a, s1, own) == NumericCells(a, s2, own) && own !in NumericCells(a, s1, own)
  {
    if s1 != [] {
      OwnCellIsFiltered(a, s1[..|s1| - 1], s2[..|s2| - 1], own);
    }
  }

  // No formula's result depends on the cached value of its own cell, and an
  // arithmetic formula that mentions its own cell has no value.
  lemma {:induction false} OwnCellIsIrrelevant<D>(a: Arithmetic<D>, s1: seq<SheetCell>, s2: seq<SheetCell>, raw: string,
                                                  own: (nat, nat))
    requires SameElsewhere(s1, s2, own)
    ensures EvaluateFormula(a, s1, raw, own) == EvaluateFormula(a, s2, raw, own)
    ensures LookUp(Env(a, NumericCells(a, s1, own), None), own.0, own.1) == Err(Unverifiable(ReferencedCellNotNumeric))
  {
    OwnCellIsFiltered(a, s1, s2, own);
  }

  // SUM in any case over a rectangle written with printed corners: rejected
  // exactly when the formula's own cell is inside, otherwise the sum of the
  // numeric cells inside, each once, in row order.
  lemma {:induction false} PrintedSum<D>(a: Arithmetic<D>, sheet: seq<SheetCell>, formulaCell: (nat, nat),
                                         region: Region, sum: string)
    requires Ordered(region) && InBounds(region.endRow, region.endColumn)
    requires |sum| == 4 && UpperCase(sum) == "SUM("
    ensures var cells := NumericCells(a, sheet, formulaCell);
            var keys := Listing(cells, region, region.startRow, region.startColumn);
            && (forall i, j | 0 <= i < j < |keys| :: Precedes(keys[i], keys[j]))
            && (forall k :: k in keys <==> k in cells && Inside(region, k))
            && EvaluateFormula(a, sheet, "=" + (sum + RangeText(region) + ")"), formulaCell) ==
               if Inside(region, formulaCell) then Err(Unverifiable(SelfReference))
               else SumKeys(a, cells, keys, a.zero)
  {
    hide NumericCells, SumFrom, RangeText, SumRange;
    var cells := NumericCells(a, sheet, formulaCell);
    var keys := Listing(cells, region, region.startRow, region.startColumn);
    ListingLists(cells, region, region.startRow, region.startColumn);
    RangeRoundTrip(region);
    DenseSumIsSparseSum(a, cells, region, region.startRow, region.startColumn, a.zero, keys);
    SumText(sum, RangeText(region));
  }

  // What is left of the text of a SUM formula.
  lemma SumText(sum: string, argument: string)
    requires |sum| == 4 && UpperCase(sum) == "SUM("
    ensures var formula := sum + argument + ")";
            && FormulaText("=" + formula) == formula && IsSum(formula)
            && |formula| > 4 && formula[4..|formula| - 1] == argument
  {
    var formula := sum + argument + ")";
    var raw := "=" + formula;
    assert raw[|raw| - 1] == ')';
    TrimIdentity(raw);
    assert raw[1..] == formula && formula[..4] == sum;
  }

  // The numeric cells of the rectangle from a position on, by the dense scan.
  function Listing<D>(cells: map<(nat, nat), D>, region: Region, row: nat, column: nat): (keys: seq<(nat, nat)>)
    requires row <= region.endRow + 1 && column <= region.endColumn + 1
    requires Ordered(region)
    ensures forall k | k in keys :: k in cells
    decreases region.endRow + 1 - row, region.endColumn + 1 - column
  {
    if row > region.endRow then []
    else if column > region.endColumn then Listing(cells, region, row + 1, region.startColumn)
    else if (row, column) !in cells then Listing(cells, region, row, column + 1)
    else [(row, column)] + Listing(cells, region, row, column + 1)
  }

  lemma {:induction false} ListingLists<D>(cells: map<(nat, nat), D>, region: Region, row: nat, column: nat)
    requires region.startRow <= row <= region.endRow + 1 && region.startColumn <= column <= region.endColumn + 1
    requires Ordered(region)
    ensures Lists(cells, region, (row, column), Listing(cells, region, row, column))
    decreases region.endRow + 1 - row, region.endColumn + 1 - column
  {
    if row > region.endRow {
    } else if column > region.endColumn {
      ListingLists(cells, region, row + 1, region.startColumn);
    } else {
      ListingLists(cells, region, row, column + 1);
      if (row, column) in cells {
        HeadMakesListing(cells, region, (row, column), Listing(cells, region, row, column + 1));
      }
    }
  }

  lemma HeadMakesListing<D>(cells: map<(nat, nat), D>, region: Region, here: (nat, nat), rest: seq<(nat, nat)>)
    requires Lists(cells, region, (here.0, here.1 + 1), rest)
    requires here in cells && Inside(region, here)
    ensures Lists(cells, region, here, [here] + rest)
  {
    assert forall i | 0 <= i < |rest| :: rest[i] in rest;
  }

  function RangeText(region: Region): string {
    CellName(region.startRow, region.startColumn) + ":" + CellName(region.endRow, region.endColumn)
  }

  lemma {:induction false} RangeRoundTrip(region: Region)
    requires Ordered(region) && InBounds(region.endRow, region.endColumn)
    ensures SumRange(RangeText(region)) == Ok(region)
  {
    hide CellName, Coordinates, IndexOf;
    var start, end := CellName(region.startRow, region.startColumn), CellName(region.endRow, region.endColumn);
    NameIsName(region.startRow, region.startColumn);
    NameIsName(region.endRow, region.endColumn);
    IndexOfJoin(start, end);
    ParseUndoesPlainPrint(region.startRow, region.startColumn);
    ParseUndoesPlainPrint(region.endRow, region.endColumn);
    JoinedParts(start, end);
  }

  lemma JoinedParts(start: string, end: string)
    requires forall i | 0 <= i < |start| :: ContinuesName(start[i])
    requires forall i | 0 <= i < |end| :: ContinuesName(end[i])
    ensures var text := start + ":" + end;
            && text[..|start|] == start && text[|start| + 1..] == end && |start| < |text|
            && ',' !in text && ';' !in text
  {
  }

  lemma {:induction false} IndexOfJoin(s: string, t: string)
    requires forall i | 0 <= i < |s| :: ContinuesName(s[i])
    ensures IndexOf(s + ":" + t, ':') == |s|
  {
    if s == [] {
      assert s + ":" + t == ":" + t;
    } else {
      IndexOfJoin(s[1..], t);
      assert (s + ":" + t)[1..] == s[1..] + ":" + t;
    }
  }
}
