/**
 What formula texts compute on a sheet, said of the texts and the sheet alone:
 single cells, the four operations, and any spelling of a formula.
 */
module FormulaTexts {
  import opened Wrappers
  import opened Text
  import opened A1Codec
  import opened FormulaGrammar
  import opened FormulaLexer
  import opened FormulaEvaluator

  // ---------------------------------------------------------------------
  // The value of a cell
  // ---------------------------------------------------------------------

  predicate IsAt(cell: SheetCell, row: nat, column: nat) { cell.row == row && cell.column == column }

  // The cell can be read as this number.
  predicate Reads<D(==)>(a: Arithmetic<D>, cell: SheetCell, value: D) {
    match cell.value
    case Integer(n) => value == a.fromInt(n)
    case NumberText(text) => a.read(text) == Some(value)
    case Other => false
  }

  ghost predicate Readable<D>(a: Arithmetic<D>, cell: SheetCell) {
    cell.value.Integer? || (cell.value.NumberText? && a.read(cell.value.text).Some?)
  }

  // The last readable cell at a position has this value.
  ghost predicate LastReads<D>(a: Arithmetic<D>, sheet: seq<SheetCell>, row: nat, column: nat, value: D) {
    exists i ::
      && 0 <= i < |sheet| && IsAt(sheet[i], row, column) && Reads(a, sheet[i], value)
      && forall j | i < j < |sheet| && IsAt(sheet[j], row, column) :: !Readable(a, sheet[j])
  }

  ghost predicate NoneReads<D>(a: Arithmetic<D>, sheet: seq<SheetCell>, row: nat, column: nat) {
    forall i | 0 <= i < |sheet| && IsAt(sheet[i], row, column) :: !Readable(a, sheet[i])
  }

  lemma {:induction false} CellsMean<D>(a: Arithmetic<D>, sheet: seq<SheetCell>, own: (nat, nat), row: nat, column: nat)
    ensures var cells := NumericCells(a, sheet, own);
            && ((row, column) in cells <==> (row, column) != own && !NoneReads(a, sheet, row, column))
            && ((row, column) in cells ==> LastReads(a, sheet, row, column, cells[(row, column)]))
  {
    if sheet != [] {
      hide LastReads, NoneReads, Reads;
      var front, last := sheet[..|sheet| - 1], sheet[|sheet| - 1];
      CellsMean(a, front, own, row, column);
      var before := NumericCells(a, front, own);
      assert sheet == front + [last];
      if (row, column) in before {
        OneMoreCell(a, front, last, row, column, before[(row, column)]);
      }
      OneMoreCell(a, front, last, row, column, a.zero);
    }
  }

  lemma OneMoreCell<D>(a: Arithmetic<D>, front: seq<SheetCell>, last: SheetCell, row: nat, column: nat, value: D)
    ensures var sheet := front + [last];
            if IsAt(last, row, column) && Readable(a, last) then
              && !NoneReads(a, sheet, row, column)
              && LastReads(a, sheet, row, column,
                           if last.value.Integer? then a.fromInt(last.value.value) else a.read(last.value.text).value)
            else
              && (NoneReads(a, sheet, row, column) <==> NoneReads(a, front, row, column))
              && (LastReads(a, front, row, column, value) ==> LastReads(a, sheet, row, column, value))
  {
    var sheet, n := front + [last], |front|;
    assert sheet[n] == last && forall j | 0 <= j < n :: sheet[j] == front[j];
    if IsAt(last, row, column) && Readable(a, last) {
      var v := if last.value.Integer? then a.fromInt(last.value.value) else a.read(last.value.text).value;
      assert Reads(a, sheet[n], v);
    } else if LastReads(a, front, row, column, value) {
      var i :| 0 <= i < n && IsAt(front[i], row, column) && Reads(a, front[i], value)
               && forall j | i < j < n && IsAt(front[j], row, column) :: !Readable(a, front[j]);
      assert IsAt(sheet[i], row, column) && Reads(a, sheet[i], value);
    }
  }

  lemma LastReadsOnce<D>(a: Arithmetic<D>, sheet: seq<SheetCell>, row: nat, column: nat, v: D, w: D)
    requires LastReads(a, sheet, row, column, v) && LastReads(a, sheet, row, column, w)
    ensures v == w
  {
  }

  // The formula that names one cell.
  function NameFormula(row: nat, column: nat): string { "=" + CellName(row, column) }

  lemma NameFormulaLooksUp<D>(a: Arithmetic<D>, sheet: seq<SheetCell>, own: (nat, nat), row: nat, column: nat)
    requires InBounds(row, column)
    ensures EvaluateFormula(a, sheet, NameFormula(row, column), own) ==
            LookUp(Env(a, NumericCells(a, sheet, own), None), row, column)
  {
    var t: Tree<D> := Reference(row, column);
    PrintedFormulaKeepsMeaning(a, sheet, own, t);
    assert Bracket(t, 0) == t && Print(t) == CellName(row, column);
  }

  // A formula that names a cell has the value of the last readable cell there,
  // and none if and only if there is none or the cell is the formula's own.
  lemma {:induction false} NamedCellHasItsValue<D>(a: Arithmetic<D>, sheet: seq<SheetCell>, own: (nat, nat),
                                                   row: nat, column: nat, value: D)
    requires InBounds(row, column)
    ensures var result := EvaluateFormula(a, sheet, NameFormula(row, column), own);
            && (result == Ok(value) <==> (row, column) != own && LastReads(a, sheet, row, column, value))
            && (result == Err(Unverifiable(ReferencedCellNotNumeric)) <==>
                  (row, column) == own || NoneReads(a, sheet, row, column))
            && (result.Ok? || result == Err(Unverifiable(ReferencedCellNotNumeric)))
  {
    hide EvaluateFormula;
    NameFormulaLooksUp(a, sheet, own, row, column);
    CellsMean(a, sheet, own, row, column);
    var cells := NumericCells(a, sheet, own);
    if (row, column) in cells && LastReads(a, sheet, row, column, value) {
      LastReadsOnce(a, sheet, row, column, value, cells[(row, column)]);
    }
  }

  // On a sheet without repeated positions that is the cell's own number.
  lemma {:induction false} NamedCellOnce<D>(a: Arithmetic<D>, sheet: seq<SheetCell>, own: (nat, nat), i: nat)
    requires i < |sheet| && InBounds(sheet[i].row, sheet[i].column) && (sheet[i].row, sheet[i].column) != own
    requires forall j | 0 <= j < |sheet| && j != i :: !IsAt(sheet[j], sheet[i].row, sheet[i].column)
    ensures EvaluateFormula(a, sheet, NameFormula(sheet[i].row, sheet[i].column), own) ==
            match sheet[i].value
            case Integer(n) => Ok(a.fromInt(n))
            case NumberText(text) =>
              if a.read(text).Some? then Ok(a.read(text).value) else Err(Unverifiable(ReferencedCellNotNumeric))
            case Other => Err(Unverifiable(ReferencedCellNotNumeric))
  {
    hide EvaluateFormula;
    var cell := sheet[i];
    if Readable(a, cell) {
      var value := if cell.value.Integer? then a.fromInt(cell.value.value) else a.read(cell.value.text).value;
      assert IsAt(cell, cell.row, cell.column) && Reads(a, cell, value);
      NamedCellHasItsValue(a, sheet, own, cell.row, cell.column, value);
    } else {
      NamedCellHasItsValue(a, sheet, own, cell.row, cell.column, a.zero);
    }
  }

  // ---------------------------------------------------------------------
  // The operations
  // ---------------------------------------------------------------------

  function Name(cell: (nat, nat)): string { CellName(cell.0, cell.1) }

  predicate IsCell(cell: (nat, nat)) { InBounds(cell.0, cell.1) }

  function ValueAt<D>(a: Arithmetic<D>, sheet: seq<SheetCell>, own: (nat, nat), cell: (nat, nat)): Result<D, Failure> {
    EvaluateFormula(a, sheet, "=" + Name(cell), own)
  }

  lemma TwoCells<D>(a: Arithmetic<D>, sheet: seq<SheetCell>, own: (nat, nat), x: (nat, nat), y: (nat, nat),
                    op: Operator)
    requires IsCell(x) && IsCell(y)
    requires ValueAt(a, sheet, own, x).Ok? && ValueAt(a, sheet, own, y).Ok?
    ensures EvaluateFormula(a, sheet, "=" + (Name(x) + OperatorText(op) + Name(y)), own) ==
            Apply(Env(a, NumericCells(a, sheet, own), None), op,
                  ValueAt(a, sheet, own, x).value, ValueAt(a, sheet, own, y).value)
  {
    hide EvaluateFormula, CellName;
    NameFormulaLooksUp(a, sheet, own, x.0, x.1);
    NameFormulaLooksUp(a, sheet, own, y.0, y.1);
    var t: Tree<D> := Binary(op, Reference(x.0, x.1), Reference(y.0, y.1));
    PrintedFormulaKeepsMeaning(a, sheet, own, t);
    TwoReferences<D>(op, x, y, 0);
  }

  // The four operations on two cells with numbers, with their ways to fail.
  lemma {:induction false} OperationsCompute<D>(a: Arithmetic<D>, sheet: seq<SheetCell>, own: (nat, nat),
                                                x: (nat, nat), y: (nat, nat))
    requires IsCell(x) && IsCell(y)
    requires ValueAt(a, sheet, own, x).Ok? && ValueAt(a, sheet, own, y).Ok?
    ensures var p, q := ValueAt(a, sheet, own, x).value, ValueAt(a, sheet, own, y).value;
            var overflow := Unverifiable(ArithmeticOverflow);
            && EvaluateFormula(a, sheet, "=" + (Name(x) + "+" + Name(y)), own) == Outcome(a.add(p, q), Panic)
            && EvaluateFormula(a, sheet, "=" + (Name(x) + "-" + Name(y)), own) == Outcome(a.subtract(p, q), Panic)
            && EvaluateFormula(a, sheet, "=" + (Name(x) + "*" + Name(y)), own) == Outcome(a.multiply(p, q), overflow)
            && EvaluateFormula(a, sheet, "=" + (Name(x) + "/" + Name(y)), own) ==
               (if a.isZero(q) then Err(Unverifiable(DivisionByZero)) else Outcome(a.divide(p, q), overflow))
  {
    hide EvaluateFormula;
    TwoCells(a, sheet, own, x, y, Add);
    TwoCells(a, sheet, own, x, y, Subtract);
    TwoCells(a, sheet, own, x, y, Times);
    TwoCells(a, sheet, own, x, y, Over);
  }

  function Outcome<D>(value: Option<D>, failure: Failure): Result<D, Failure> {
    if value.None? then Err(failure) else Ok(value.value)
  }

  // A leading minus subtracts from zero, and binds tighter than a product.
  lemma {:induction false} MinusSubtractsFromZero<D>(a: Arithmetic<D>, sheet: seq<SheetCell>, own: (nat, nat),
                                                     x: (nat, nat))
    requires IsCell(x) && ValueAt(a, sheet, own, x).Ok?
    ensures EvaluateFormula(a, sheet, "=" + ("-" + Name(x)), own) ==
            Outcome(a.subtract(a.zero, ValueAt(a, sheet, own, x).value), Unverifiable(ArithmeticOverflow))
  {
    hide EvaluateFormula, CellName;
    NameFormulaLooksUp(a, sheet, own, x.0, x.1);
    var t: Tree<D> := Negate(Reference(x.0, x.1));
    PrintedFormulaKeepsMeaning(a, sheet, own, t);
    assert Bracket(t, 0) == t && Print(t) == "-" + Name(x);
  }

  // Products come before sums, and equal operations go from left to right.
  lemma {:induction false} ThreeCells<D>(a: Arithmetic<D>, sheet: seq<SheetCell>, own: (nat, nat),
                                         x: (nat, nat), y: (nat, nat), z: (nat, nat))
    requires IsCell(x) && IsCell(y) && IsCell(z)
    requires ValueAt(a, sheet, own, x).Ok? && ValueAt(a, sheet, own, y).Ok? && ValueAt(a, sheet, own, z).Ok?
    ensures var p, q := ValueAt(a, sheet, own, x).value, ValueAt(a, sheet, own, y).value;
            var r := ValueAt(a, sheet, own, z).value;
            && (a.multiply(q, r).Some? ==>
                  EvaluateFormula(a, sheet, "=" + (Name(x) + "+" + (Name(y) + "*" + Name(z))), own) ==
                  Outcome(a.add(p, a.multiply(q, r).value), Panic))
            && (a.subtract(p, q).Some? ==>
                  EvaluateFormula(a, sheet, "=" + ((Name(x) + "-" + Name(y)) + "-" + Name(z)), own) ==
                  Outcome(a.subtract(a.subtract(p, q).value, r), Panic))
  {
    hide EvaluateFormula, CellName;
    NameFormulaLooksUp(a, sheet, own, x.0, x.1);
    NameFormulaLooksUp(a, sheet, own, y.0, y.1);
    NameFormulaLooksUp(a, sheet, own, z.0, z.1);
    SumOfProduct(a, sheet, own, x, y, z);
    ChainOfDifferences(a, sheet, own, x, y, z);
    var env := Env(a, NumericCells(a, sheet, own), None);
    var rx: Tree<D>, ry: Tree<D>, rz: Tree<D> := Reference(x.0, x.1), Reference(y.0, y.1), Reference(z.0, z.1);
    var product, difference := Binary(Times, ry, rz), Binary(Subtract, rx, ry);
    assert Eval(env, rx).Ok? && Eval(env, ry).Ok? && Eval(env, rz).Ok?;
    assert Eval(env, product) == Apply(env, Times, Eval(env, ry).value, Eval(env, rz).value);
    assert Eval(env, difference) == Apply(env, Subtract, Eval(env, rx).value, Eval(env, ry).value);
  }

  // Two cells under an operator need no parentheses at its level.
  lemma TwoReferences<D>(op: Operator, x: (nat, nat), y: (nat, nat), level: nat)
    requires level <= OperatorLevel(op)
    ensures var t: Tree<D> := Binary(op, Reference(x.0, x.1), Reference(y.0, y.1));
            Bracket(t, level) == t && Print(t) == Name(x) + OperatorText(op) + Name(y)
  {
    hide CellName;
  }

  lemma BinaryPrints<D>(op: Operator, left: Tree<D>, right: Tree<D>, level: nat)
    requires level <= OperatorLevel(op)
    requires Bracket(left, OperatorLevel(op)) == left && Bracket(right, OperatorLevel(op) + 1) == right
    ensures var t := Binary(op, left, right);
            Bracket(t, level) == t && Print(t) == Print(left) + OperatorText(op) + Print(right)
  {
  }

  lemma SumOfProduct<D>(a: Arithmetic<D>, sheet: seq<SheetCell>, own: (nat, nat), x: (nat, nat), y: (nat, nat),
                        z: (nat, nat))
    requires IsCell(x) && IsCell(y) && IsCell(z)
    ensures var t: Tree<D> := Binary(Add, Reference(x.0, x.1), Binary(Times, Reference(y.0, y.1), Reference(z.0, z.1)));
            EvaluateFormula(a, sheet, "=" + (Name(x) + "+" + (Name(y) + "*" + Name(z))), own) ==
            Eval(Env(a, NumericCells(a, sheet, own), None), t)
  {
    hide EvaluateFormula, CellName, Eval;
    var right: Tree<D> := Binary(Times, Reference(y.0, y.1), Reference(z.0, z.1));
    var t: Tree<D> := Binary(Add, Reference(x.0, x.1), right);
    PrintedFormulaKeepsMeaning(a, sheet, own, t);
    TwoReferences<D>(Times, y, z, 1);
    BinaryPrints(Add, Reference(x.0, x.1), right, 0);
  }

  lemma ChainOfDifferences<D>(a: Arithmetic<D>, sheet: seq<SheetCell>, own: (nat, nat), x: (nat, nat), y: (nat, nat),
                              z: (nat, nat))
    requires IsCell(x) && IsCell(y) && IsCell(z)
    ensures var t: Tree<D> :=
              Binary(Subtract, Binary(Subtract, Reference(x.0, x.1), Reference(y.0, y.1)), Reference(z.0, z.1));
            EvaluateFormula(a, sheet, "=" + ((Name(x) + "-" + Name(y)) + "-" + Name(z)), own) ==
            Eval(Env(a, NumericCells(a, sheet, own), None), t)
  {
    hide EvaluateFormula, CellName, Eval;
    var left: Tree<D> := Binary(Subtract, Reference(x.0, x.1), Reference(y.0, y.1));
    var t: Tree<D> := Binary(Subtract, left, Reference(z.0, z.1));
    PrintedFormulaKeepsMeaning(a, sheet, own, t);
    TwoReferences<D>(Subtract, x, y, 0);
    BinaryPrints(Subtract, left, Reference(z.0, z.1), 0);
  }

  // A formula of digits and points has the value its reader gives it.
  lemma {:induction false} LiteralIsRead<D>(a: Arithmetic<D>, sheet: seq<SheetCell>, own: (nat, nat), raw: string)
    requires raw != [] && forall i | 0 <= i < |raw| :: IsDigit(raw[i]) || raw[i] == '.'
    ensures EvaluateFormula(a, sheet, "=" + raw, own) ==
            Outcome(a.read(raw), Unverifiable(InvalidNumericLiteral))
  {
    hide NumericCells;
    NumberSpanSplit(raw, |raw|);
    assert raw[|raw|..] == [] && raw[..|raw|] == raw;
    TrimIdentity("=" + raw);
    assert FormulaText("=" + raw) == raw;
    assert !IsSum(raw) by {
      assert |raw| >= 4 ==> UpperCase(raw[..4])[0] == ToUpper(raw[0]);
    }
    LiteralTokens(a, raw);
    if a.read(raw).Some? {
      var t := Literal(raw, a.read(raw).value);
      DerivationsGiveTheOutcome(Env(a, NumericCells(a, sheet, own), None), t);
    }
  }

  lemma LiteralTokens<D>(a: Arithmetic<D>, raw: string)
    requires raw != [] && NumberSpan(raw) == |raw| && StartsNumber(raw[0])
    ensures Lex(a, raw) ==
            if a.read(raw).Some? then Lexed([Number(a.read(raw).value)], None)
            else Lexed([], Some(InvalidNumericLiteral))
  {
    assert raw[..|raw|] == raw && raw[|raw|..] == [];
    assert ScanOne(a, raw) == NumberScan(a, raw);
  }

  // Adding up the values of cells, from zero on.
  function AddUp<D>(a: Arithmetic<D>, sheet: seq<SheetCell>, own: (nat, nat), keys: seq<(nat, nat)>,
                    total: D): Result<D, Failure>
    requires forall k | k in keys :: ValueAt(a, sheet, own, k).Ok?
  {
    if keys == [] then Ok(total)
    else
      match a.add(total, ValueAt(a, sheet, own, keys[0]).value)
      case None => Err(Panic)
      case Some(next) => AddUp(a, sheet, own, keys[1..], next)
  }

  // SUM over a rectangle adds up, row by row, the values of exactly those cells
  // whose names have one.
  lemma {:induction false} SumAddsNamedCells<D>(a: Arithmetic<D>, sheet: seq<SheetCell>, own: (nat, nat),
                                                region: Region)
    returns (keys: seq<(nat, nat)>)
    requires Ordered(region) && InBounds(region.endRow, region.endColumn) && !Inside(region, own)
    ensures forall i, j | 0 <= i < j < |keys| :: Precedes(keys[i], keys[j])
    ensures forall k :: k in keys <==> Inside(region, k) && ValueAt(a, sheet, own, k).Ok?
    ensures EvaluateFormula(a, sheet, "=" + ("SUM(" + RangeText(region) + ")"), own) ==
            AddUp(a, sheet, own, keys, a.zero)
  {
    hide EvaluateFormula, NumericCells, RangeText, SumKeys;
    var cells := NumericCells(a, sheet, own);
    keys := Listing(cells, region, region.startRow, region.startColumn);
    PrintedSum(a, sheet, own, region, "SUM(");
    forall k | Inside(region, k)
      ensures k in cells <==> ValueAt(a, sheet, own, k).Ok?
    {
      NameFormulaLooksUp(a, sheet, own, k.0, k.1);
    }
    SumIsAddUp(a, sheet, own, keys, a.zero);
  }

  lemma {:induction false} SumIsAddUp<D>(a: Arithmetic<D>, sheet: seq<SheetCell>, own: (nat, nat),
                                         keys: seq<(nat, nat)>, total: D)
    requires forall k | k in keys ::
               InBounds(k.0, k.1) && k in NumericCells(a, sheet, own) && ValueAt(a, sheet, own, k).Ok?
    ensures SumKeys(a, NumericCells(a, sheet, own), keys, total) == AddUp(a, sheet, own, keys, total)
  {
    hide EvaluateFormula, NumericCells;
    if keys != [] {
      NameFormulaLooksUp(a, sheet, own, keys[0].0, keys[0].1);
      var sum := a.add(total, ValueAt(a, sheet, own, keys[0]).value);
      if sum.Some? {
        SumIsAddUp(a, sheet, own, keys[1..], sum.value);
      }
    }
  }

  // ---------------------------------------------------------------------
  // Refusals
  // ---------------------------------------------------------------------

  // A parenthesis left open, an operand left out, something after the end, and a
  // character of no token.
  lemma {:induction false} MalformedTextsAreRefused<D>(a: Arithmetic<D>, sheet: seq<SheetCell>, own: (nat, nat),
                                                       x: (nat, nat), c: char)
    requires IsCell(x) && ValueAt(a, sheet, own, x).Ok?
    requires !IsWhitespace(c) && !ContinuesName(c) && c !in ".+-*/()"
    ensures EvaluateFormula(a, sheet, "=" + ("(" + Name(x)), own) == Err(Unverifiable(UnclosedParenthesis))
    ensures EvaluateFormula(a, sheet, "=" + (Name(x) + "+"), own) == Err(Unverifiable(ExpectedOperand))
    ensures EvaluateFormula(a, sheet, "=" + (Name(x) + ")"), own) == Err(Unverifiable(UnsupportedTrailingSyntax))
    ensures EvaluateFormula(a, sheet, "=" + (Name(x) + [c]), own) == Err(Unverifiable(UnsupportedFormulaSyntax))
  {
    hide EvaluateFormula, CellName, Lex;
    NameFormulaLooksUp(a, sheet, own, x.0, x.1);
    FourLexings(a, x, c);
    NameIsName(x.0, x.1);
    var env := Env(a, NumericCells(a, sheet, own), None);
    FourOutcomes(env, x);
    NotSum(a, sheet, own, "(" + Name(x));
    NotSum(a, sheet, own, Name(x) + "+");
    NotSum(a, sheet, own, Name(x) + ")");
    NotSum(a, sheet, own, Name(x) + [c]);
  }

  lemma NotSum<D>(a: Arithmetic<D>, sheet: seq<SheetCell>, own: (nat, nat), text: string)
    requires text != [] && !IsWhitespace(text[|text| - 1])
    requires Lex(a, text).error != Some(UnsupportedIdentifier)
    ensures EvaluateFormula(a, sheet, "=" + text, own) ==
            EvaluateTokens(Env(a, NumericCells(a, sheet, own), Lex(a, text).error), Lex(a, text).tokens)
  {
    hide Lex, NumericCells;
    var raw := "=" + text;
    assert raw[|raw| - 1] == text[|text| - 1];
    TrimIdentity(raw);
    assert raw[1..] == text;
    if IsSum(text) {
      SumIsNotArithmetic(a, text);
      assert false;
    }
  }

  lemma FourLexings<D>(a: Arithmetic<D>, x: (nat, nat), c: char)
    requires IsCell(x) && !IsWhitespace(c) && !ContinuesName(c) && c !in ".+-*/()"
    ensures Lex(a, "(" + Name(x)) == Lexed([Open, Cell(x.0, x.1)], None)
    ensures Lex(a, Name(x) + "+") == Lexed([Cell(x.0, x.1), Plus], None)
    ensures Lex(a, Name(x) + ")") == Lexed([Cell(x.0, x.1), Close], None)
    ensures Lex(a, Name(x) + [c]) == Lexed([Cell(x.0, x.1)], Some(UnsupportedFormulaSyntax))
  {
    hide CellName;
    var name := Name(x);
    assert name + [] == name && "+" + [] == "+" && ")" + [] == ")";
    assert Lex(a, []) == Lexed([], None);
    LexName(a, x.0, x.1, []);
    LexPunctuation(a, '(', name);
    LexPunctuation(a, '+', []);
    LexPunctuation(a, ')', []);
    assert ['+'] == "+" && [')'] == ")" && ['('] == "(";
    hide Lex;
    LexName(a, x.0, x.1, "+");
    LexName(a, x.0, x.1, ")");
    StrangeIsRejected(a, c);
    LexName(a, x.0, x.1, [c]);
  }

  lemma StrangeIsRejected<D>(a: Arithmetic<D>, c: char)
    requires !IsWhitespace(c) && !ContinuesName(c) && c !in ".+-*/()"
    ensures Lex(a, [c]) == Lexed([], Some(UnsupportedFormulaSyntax)) && Separates([c])
  {
  }

  lemma FourOutcomes<D>(env: Env<D>, x: (nat, nat))
    requires env.lexError == None && LookUp(env, x.0, x.1).Ok?
    ensures EvaluateTokens(env, [Open, Cell(x.0, x.1)]) == Err(Unverifiable(UnclosedParenthesis))
    ensures EvaluateTokens(env, [Cell(x.0, x.1), Plus]) == Err(Unverifiable(ExpectedOperand))
    ensures EvaluateTokens(env, [Cell(x.0, x.1), Close]) == Err(Unverifiable(UnsupportedTrailingSyntax))
    ensures forall reason ::
              EvaluateTokens(env.(lexError := Some(reason)), [Cell(x.0, x.1)]) == Err(Unverifiable(reason))
  {
    var cell: Token<D> := Cell(x.0, x.1);
    var value := LookUp(env, x.0, x.1).value;
    CellThen(env, cell, []);
    CellThen(env, cell, [Plus]);
    CellThen(env, cell, [Close]);
    assert [cell, Plus] == [cell] + [Plus] && [cell, Close] == [cell] + [Close];
    var unclosed: seq<Token<D>> := [Open, cell];
    assert unclosed[1..] == [cell] + [];
    assert Factor(env, unclosed) == Stop(Unverifiable(UnclosedParenthesis));
    assert Term(env, unclosed) == Stop(Unverifiable(UnclosedParenthesis));
    var plus: seq<Token<D>> := [Plus];
    assert plus[1..] == [];
  }

  lemma CellThen<D>(env: Env<D>, cell: Token<D>, rest: seq<Token<D>>)
    requires env.lexError == None && cell.Cell? && LookUp(env, cell.row, cell.column).Ok?
    requires rest == [] || rest[0].Plus? || rest[0].Close?
    ensures Factor(env, [cell] + rest) == Done(LookUp(env, cell.row, cell.column).value, rest)
    ensures Term(env, [cell] + rest) == Done(LookUp(env, cell.row, cell.column).value, rest)
    ensures Expression(env, [cell] + rest) == ExpressionTail(env, LookUp(env, cell.row, cell.column).value, rest)
  {
    assert ([cell] + rest)[1..] == rest;
  }

  // SUM takes one argument, a range; and an empty formula is none.
  lemma {:induction false} SumNeedsOneRange<D>(a: Arithmetic<D>, sheet: seq<SheetCell>, own: (nat, nat),
                                               argument: string)
    ensures ',' in argument || ';' in argument ==>
              EvaluateFormula(a, sheet, "=" + ("SUM(" + argument + ")"), own) == Err(Unverifiable(MultipleSumArguments))
    ensures ',' !in argument && ';' !in argument && ':' !in argument ==>
              EvaluateFormula(a, sheet, "=" + ("SUM(" + argument + ")"), own) == Err(Unverifiable(SumRequiresRange))
    ensures EvaluateFormula(a, sheet, "=", own) == Err(Unverifiable(EmptyFormula))
  {
    hide NumericCells;
    SumText("SUM(", argument);
    TrimIdentity("=");
    if ':' !in argument {
      assert IndexOf(argument, ':') == |argument|;
    }
  }

  // ---------------------------------------------------------------------
  // Any spelling
  // ---------------------------------------------------------------------

  predicate IsOperand<D>(token: Token<D>) { token.Number? || token.Cell? }

  predicate OperandsApart<D>(tokens: seq<Token<D>>) {
    forall i | 0 < i < |tokens| :: !(IsOperand(tokens[i - 1]) && IsOperand(tokens[i]))
  }

  lemma {:induction false} YieldOperandsApart<D>(t: Tree<D>)
    ensures OperandsApart(Yield(t))
  {
    match t
    case Literal(_, _) =>
    case Reference(_, _) =>
    case Negate(operand) => YieldOperandsApart(operand);
    case Posit(operand) => YieldOperandsApart(operand);
    case Group(inner) => YieldOperandsApart(inner);
    case Binary(op, left, right) =>
      YieldOperandsApart(left);
      YieldOperandsApart(right);
  }

  // What begins with a blank, an operator or a parenthesis extends no operand.
  lemma NextSeparates<D>(a: Arithmetic<D>, lexemes: seq<Lexeme<D>>)
    requires WellFormed(a, lexemes)
    requires lexemes != [] && lexemes[0].Spelling? ==> !IsOperand(lexemes[0].token)
    ensures Separates(LexemeText(lexemes))
  {
  }

  lemma LexAnyName<D>(a: Arithmetic<D>, raw: string, token: Token<D>, rest: string)
    requires token.Cell? && Spells(a, raw, token) && Separates(rest)
    ensures Lex(a, raw + rest) == Prefixed([token], Lex(a, rest))
  {
    var text := raw + rest;
    NameSpanIsAll(raw);
    NameSpanSplit(text, |raw|);
    assert text[|raw|..] == rest && text[..|raw|] == raw && text[0] == raw[0];
    assert ScanOne(a, text) == NameScan(raw);
  }

  lemma {:induction false} NameSpanIsAll(raw: string)
    requires NameSpan(raw) == |raw|
    ensures forall i | 0 <= i < |raw| :: ContinuesName(raw[i])
  {
    if raw != [] {
      NameSpanIsAll(raw[1..]);
      assert forall i | 0 < i < |raw| :: raw[i] == raw[1..][i - 1];
    }
  }

  // A text made of spellings, with blanks anywhere between them, lexes to its tokens.
  lemma {:induction false} SpelledTextLexes<D>(a: Arithmetic<D>, lexemes: seq<Lexeme<D>>)
    requires WellFormed(a, lexemes) && OperandsApart(LexemeTokens(lexemes))
    ensures Lex(a, LexemeText(lexemes)) == Lexed(LexemeTokens(lexemes), None)
  {
    if lexemes != [] {
      var first, rest := lexemes[0], lexemes[1..];
      var text, tokens := LexemeText(rest), LexemeTokens(rest);
      assert forall i | 0 <= i < |rest| :: rest[i] == lexemes[i + 1];
      match first
      case Blank(c) =>
        assert [] + tokens == tokens;
        SpelledTextLexes(a, rest);
        assert ([c] + text)[1..] == text;
      case Spelling(raw, token) =>
        assert LexemeTokens(lexemes) == [token] + tokens;
        assert forall i | 0 <= i < |tokens| :: tokens[i] == ([token] + tokens)[i + 1];
        SpelledTextLexes(a, rest);
        LexOneSpelling(a, raw, token, rest);
    }
  }

  lemma LexOneSpelling<D>(a: Arithmetic<D>, raw: string, token: Token<D>, rest: seq<Lexeme<D>>)
    requires Spells(a, raw, token) && WellFormed(a, rest) && OperandsApart([token] + LexemeTokens(rest))
    ensures Lex(a, raw + LexemeText(rest)) == Prefixed([token], Lex(a, LexemeText(rest)))
  {
    hide Lex, Spells, Separates, LexemeText;
    var text := LexemeText(rest);
    if IsOperand(token) {
      if rest != [] && rest[0].Spelling? {
        var tokens := [token] + LexemeTokens(rest);
        assert LexemeTokens(rest) == [rest[0].token] + LexemeTokens(rest[1..]);
        assert tokens[1] == rest[0].token && tokens[1 - 1] == token;
      }
      NextSeparates(a, rest);
    }
    if token.Number? {
      LexNumber(a, raw, token.value, text);
    } else if token.Cell? {
      LexAnyName(a, raw, token, text);
    } else {
      LexOneSign(a, raw, token, text);
    }
  }

  lemma LexOneSign<D>(a: Arithmetic<D>, raw: string, token: Token<D>, rest: string)
    requires Spells(a, raw, token) && !IsOperand(token)
    ensures Lex(a, raw + rest) == Prefixed([token], Lex(a, rest))
  {
    assert raw == [raw[0]];
    LexPunctuation(a, raw[0], rest);
  }

  // A name in any case and with dollar signs spells its cell.
  lemma {:induction false} DecoratedNameSpells<D>(a: Arithmetic<D>, row: nat, column: nat, shown: string,
                                                  dollarColumn: bool, dollarRow: bool)
    requires InBounds(row, column) && Shows(shown, column)
    ensures Spells<D>(a, Decorated(row, shown, dollarColumn, dollarRow), Cell(row, column))
  {
    ParseUndoesPrint(row, column, shown, dollarColumn, dollarRow);
    var raw := Decorated(row, shown, dollarColumn, dollarRow);
    forall i | 0 <= i < |shown|
      ensures IsAlphabetic(shown[i])
    {
      assert ToUpper(shown[i]) == Letters(column + 1)[i];
    }
    assert forall i | 0 <= i < |raw| :: ContinuesName(raw[i]);
    NameSpanSplit(raw, |raw|);
  }

  predicate AllBlank(s: string) { forall i | 0 <= i < |s| :: IsWhitespace(s[i]) }

  lemma {:induction false} BlanksAreTrimmed(before: string, text: string, after: string)
    requires AllBlank(before) && AllBlank(after)
    requires text != [] && !IsWhitespace(text[0]) && !IsWhitespace(text[|text| - 1])
    ensures Trim(before + (text + after)) == text
  {
    StartIsTrimmed(before, text + after);
    EndIsTrimmed(text, after);
  }

  lemma {:induction false} StartIsTrimmed(before: string, text: string)
    requires AllBlank(before) && text != [] && !IsWhitespace(text[0])
    ensures TrimStart(before + text) == text
  {
    if before == [] {
      assert before + text == text;
    } else {
      assert (before + text)[1..] == before[1..] + text;
      StartIsTrimmed(before[1..], text);
    }
  }

  lemma {:induction false} EndIsTrimmed(text: string, after: string)
    requires AllBlank(after) && text != [] && !IsWhitespace(text[|text| - 1])
    ensures TrimEnd(text + after) == text
  {
    if after == [] {
      assert text + after == text;
    } else {
      var n := |after| - 1;
      assert (text + after)[..|text + after| - 1] == text + after[..n];
      EndIsTrimmed(text, after[..n]);
    }
  }

  // Any spelling of a tree of the grammar, with blanks between its tokens and
  // around it, names in any case with dollar signs, and with or without the
  // equals sign, evaluates to the tree's value or its first failure.
  lemma {:induction false} AnySpellingKeepsMeaning<D>(a: Arithmetic<D>, sheet: seq<SheetCell>, own: (nat, nat),
                                                      t: Tree<D>, lexemes: seq<Lexeme<D>>, before: string, equals: bool,
                                                      after: string)
    requires Fits(t, 0) && WellFormed(a, lexemes) && LexemeTokens(lexemes) == Yield(t)
    requires AllBlank(before) && AllBlank(after)
    requires var text := LexemeText(lexemes);
             text != [] && !IsWhitespace(text[|text| - 1]) && (!equals ==> !IsWhitespace(text[0]))
    ensures var text := LexemeText(lexemes);
            EvaluateFormula(a, sheet, before + ((if equals then "=" + text else text) + after), own) ==
            Eval(Env(a, NumericCells(a, sheet, own), None), t)
  {
    hide Lex, NumericCells, LexemeText, Spells;
    var text := LexemeText(lexemes);
    YieldOperandsApart(t);
    SpelledTextLexes(a, lexemes);
    var whole := if equals then "=" + text else text;
    assert whole[|whole| - 1] == text[|text| - 1];
    BlanksAreTrimmed(before, whole, after);
    assert ("=" + text)[1..] == text;
    if text[0] == '=' {
      EqualsIsNotLexed(a, text);
      assert false;
    }
    assert FormulaText(before + (whole + after)) == text;
    if IsSum(text) {
      SumIsNotArithmetic(a, text);
      assert false;
    }
    DerivationsGiveTheOutcome(Env(a, NumericCells(a, sheet, own), None), t);
  }

  lemma EqualsIsNotLexed<D>(a: Arithmetic<D>, text: string)
    requires text != [] && text[0] == '='
    ensures Lex(a, text).error.Some?
  {
  }
}
