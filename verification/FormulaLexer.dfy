/**
 The formula lexer, and the texts that spell a tree.
 */
module FormulaLexer {
  import opened Wrappers
  import opened Text
  import opened A1Codec
  import opened FormulaGrammar

  datatype Lexed<D> = Lexed(tokens: seq<Token<D>>, error: Option<Reason>)

  function Punctuation<D>(c: char): Option<Token<D>> {
    if c == '+' then Some(Plus)
    else if c == '-' then Some(Minus)
    else if c == '*' then Some(Multiply)
    else if c == '/' then Some(Divide)
    else if c == '(' then Some(Open)
    else if c == ')' then Some(Close)
    else None
  }

  predicate StartsNumber(c: char) { IsDigit(c) || c == '.' }

  predicate StartsName(c: char) { IsAlphabetic(c) || c == '$' }

  predicate ContinuesName(c: char) { IsAlphabetic(c) || IsDigit(c) || c == '$' }

  // The length of the longest prefix of characters that continue a number or a name.
  function NumberSpan(s: string): (n: nat)
    ensures n <= |s|
  {
    if s != [] && StartsNumber(s[0]) then 1 + NumberSpan(s[1..]) else 0
  }

  function NameSpan(s: string): (n: nat)
    ensures n <= |s|
  {
    if s != [] && ContinuesName(s[0]) then 1 + NameSpan(s[1..]) else 0
  }

  function Prefixed<D>(tokens: seq<Token<D>>, lexed: Lexed<D>): Lexed<D> {
    Lexed(tokens + lexed.tokens, lexed.error)
  }

  // What the lexer does at the start of a non-empty text.
  datatype Scan<D> = Skip | Take(token: Token<D>, length: nat) | Reject(reason: Reason)

  function ScanOne<D>(a: Arithmetic<D>, text: string): (s: Scan<D>)
    requires text != []
    ensures s.Take? ==> 1 <= s.length <= |text|
  {
    if IsAsciiWhitespace(text[0]) then Skip
    else if Punctuation<D>(text[0]).Some? then Take(Punctuation<D>(text[0]).value, 1)
    else if StartsNumber(text[0]) then NumberScan(a, text[..NumberSpan(text)])
    else if StartsName(text[0]) then NameScan(text[..NameSpan(text)])
    else Reject(UnsupportedFormulaSyntax)
  }

  function NumberScan<D>(a: Arithmetic<D>, raw: string): Scan<D> {
    match a.read(raw)
    case None => Reject(InvalidNumericLiteral)
    case Some(value) => Take(Number(value), |raw|)
  }

  function NameScan<D>(raw: string): Scan<D> {
    match Coordinates(raw)
    case None => Reject(UnsupportedIdentifier)
    case Some(cell) => Take(Cell(cell.0, cell.1), |raw|)
  }

  // The tokens of a text up to its first lexical error.
  function Lex<D>(a: Arithmetic<D>, text: string): Lexed<D>
    decreases |text|
  {
    if text == [] then Lexed([], None)
    else
      match ScanOne(a, text)
      case Skip => Lex(a, text[1..])
      case Take(token, n) => Prefixed([token], Lex(a, text[n..]))
      case Reject(reason) => Lexed([], Some(reason))
  }

  lemma {:induction false} NumberSpanSplit(s: string, n: nat)
    requires n <= |s| && forall i | 0 <= i < n :: StartsNumber(s[i])
    ensures NumberSpan(s) == n + NumberSpan(s[n..])
  {
    if n > 0 {
      NumberSpanSplit(s[1..], n - 1);
      assert s[1..][n - 1..] == s[n..];
    }
  }

  lemma {:induction false} NameSpanSplit(s: string, n: nat)
    requires n <= |s| && forall i | 0 <= i < n :: ContinuesName(s[i])
    ensures NameSpan(s) == n + NameSpan(s[n..])
  {
    if n > 0 {
      NameSpanSplit(s[1..], n - 1);
      assert s[1..][n - 1..] == s[n..];
    }
  }

  method ScanNumber(formula: string, start: nat) returns (position: nat)
    requires start < |formula| && StartsNumber(formula[start])
    ensures position == start + NumberSpan(formula[start..]) && position <= |formula|
  {
    position := start + 1;
    while position < |formula| && StartsNumber(formula[position])
      invariant start < position <= |formula|
      invariant forall i | start <= i < position :: StartsNumber(formula[i])
    {
      position := position + 1;
    }
    NumberSpanSplit(formula[start..], position - start);
    assert formula[start..][position - start..] == formula[position..];
  }

  method ScanName(formula: string, start: nat) returns (position: nat)
    requires start < |formula| && StartsName(formula[start])
    ensures position == start + NameSpan(formula[start..]) && position <= |formula|
  {
    position := start + 1;
    while position < |formula| && ContinuesName(formula[position])
      invariant start < position <= |formula|
      invariant forall i | start <= i < position :: ContinuesName(formula[i])
    {
      position := position + 1;
    }
    NameSpanSplit(formula[start..], position - start);
    assert formula[start..][position - start..] == formula[position..];
  }

  lemma LexStep<D>(a: Arithmetic<D>, formula: string, tokens: seq<Token<D>>, position: nat)
    requires position < |formula|
    requires Lex(a, formula) == Prefixed(tokens, Lex(a, formula[position..]))
    ensures match ScanOne(a, formula[position..])
            case Skip => Lex(a, formula) == Prefixed(tokens, Lex(a, formula[position + 1..]))
            case Take(token, n) => Lex(a, formula) == Prefixed(tokens + [token], Lex(a, formula[position + n..]))
            case Reject(reason) => Lex(a, formula) == Lexed(tokens, Some(reason))
  {
  }

  // One turn of the lexer's loop.
  method ScanToken<D>(a: Arithmetic<D>, formula: string, position: nat) returns (s: Scan<D>)
    requires position < |formula|
    ensures s == ScanOne(a, formula[position..])
  {
    var c := formula[position];
    assert formula[position..][0] == c;
    if IsAsciiWhitespace(c) {
      return Skip;
    } else if Punctuation<D>(c).Some? {
      return Take(Punctuation<D>(c).value, 1);
    } else if StartsNumber(c) {
      var end := ScanNumber(formula, position);
      var raw := formula[position..end];
      assert raw == formula[position..][..end - position];
      match a.read(raw)
      case None => return Reject(InvalidNumericLiteral);
      case Some(value) => return Take(Number(value), end - position);
    } else if StartsName(c) {
      var end := ScanName(formula, position);
      var raw := formula[position..end];
      assert raw == formula[position..][..end - position];
      var cell := ParseCellRef(raw);
      match cell
      case None => return Reject(UnsupportedIdentifier);
      case Some((row, column)) => return Take(Cell(row, column), end - position);
    }
    return Reject(UnsupportedFormulaSyntax);
  }

  method Tokenize<D>(a: Arithmetic<D>, formula: string) returns (tokens: seq<Token<D>>, error: Option<Reason>)
    ensures Lexed(tokens, error) == Lex(a, formula)
  {
    tokens := [];
    var position := 0;
    while position < |formula|
      invariant 0 <= position <= |formula|
      invariant Lex(a, formula) == Prefixed(tokens, Lex(a, formula[position..]))
    {
      LexStep(a, formula, tokens, position);
      var scan := ScanToken(a, formula, position);
      match scan
      case Skip => position := position + 1;
      case Take(token, length) =>
        tokens := tokens + [token];
        position := position + length;
      case Reject(reason) => return tokens, Some(reason);
    }
    error := None;
  }

  // ---------------------------------------------------------------------
  // A lexed text is a concatenation of blanks and spellings of its tokens
  // ---------------------------------------------------------------------

  datatype Lexeme<D> = Blank(c: char) | Spelling(raw: string, token: Token<D>)

  predicate Spells<D(==)>(a: Arithmetic<D>, raw: string, token: Token<D>) {
    match token
    case Number(value) => raw != [] && NumberSpan(raw) == |raw| && a.read(raw) == Some(value)
    case Cell(row, column) =>
      raw != [] && StartsName(raw[0]) && NameSpan(raw) == |raw| && Coordinates(raw) == Some((row, column))
    case _ => |raw| == 1 && Punctuation<D>(raw[0]) == Some(token)
  }

  function LexemeText<D>(lexemes: seq<Lexeme<D>>): string {
    if lexemes == [] then []
    else (match lexemes[0] { case Blank(c) => [c] case Spelling(raw, _) => raw }) + LexemeText(lexemes[1..])
  }

  function LexemeTokens<D>(lexemes: seq<Lexeme<D>>): seq<Token<D>> {
    if lexemes == [] then []
    else (match lexemes[0] { case Blank(_) => [] case Spelling(_, token) => [token] }) + LexemeTokens(lexemes[1..])
  }

  predicate WellFormed<D(==)>(a: Arithmetic<D>, lexemes: seq<Lexeme<D>>) {
    forall i | 0 <= i < |lexemes| ::
      match lexemes[i]
      case Blank(c) => IsAsciiWhitespace(c)
      case Spelling(raw, token) => Spells(a, raw, token)
  }

  lemma {:induction false} LexedTextIsSpelled<D>(a: Arithmetic<D>, text: string) returns (lexemes: seq<Lexeme<D>>)
    requires Lex(a, text).error == None
    ensures WellFormed(a, lexemes)
    ensures LexemeText(lexemes) == text && LexemeTokens(lexemes) == Lex(a, text).tokens
    decreases |text|
  {
    if text == [] {
      return [];
    }
    var first: Lexeme<D>;
    var n := 1;
    match ScanOne(a, text) {
      case Skip => first := Blank(text[0]);
      case Take(token, length) =>
        n := length;
        TakenIsSpelled(a, text);
        first := Spelling(text[..n], token);
    }
    var more := LexedTextIsSpelled(a, text[n..]);
    lexemes := [first] + more;
    assert lexemes[1..] == more;
    assert text == text[..n] + text[n..];
  }

  lemma TakenIsSpelled<D>(a: Arithmetic<D>, text: string)
    requires text != [] && ScanOne(a, text).Take?
    ensures Spells(a, text[..ScanOne(a, text).length], ScanOne(a, text).token)
  {
    NumberSpanOfPrefix(text);
    NameSpanOfPrefix(text);
  }

  lemma {:induction false} NumberSpanOfPrefix(s: string)
    ensures NumberSpan(s[..NumberSpan(s)]) == NumberSpan(s)
  {
    if s != [] && StartsNumber(s[0]) {
      NumberSpanOfPrefix(s[1..]);
      assert s[..NumberSpan(s)][1..] == s[1..][..NumberSpan(s[1..])];
    }
  }

  lemma {:induction false} NameSpanOfPrefix(s: string)
    ensures NameSpan(s[..NameSpan(s)]) == NameSpan(s)
  {
    if s != [] && ContinuesName(s[0]) {
      NameSpanOfPrefix(s[1..]);
      assert s[..NameSpan(s)][1..] == s[1..][..NameSpan(s[1..])];
    }
  }

  // ---------------------------------------------------------------------
  // Printing a tree and lexing it again
  // ---------------------------------------------------------------------

  function OperatorText(op: Operator): string {
    match op
    case Add => "+"
    case Subtract => "-"
    case Times => "*"
    case Over => "/"
  }

  function Print<D>(t: Tree<D>): string {
    match t
    case Literal(raw, _) => raw
    case Reference(row, column) => CellName(row, column)
    case Negate(operand) => "-" + Print(operand)
    case Posit(operand) => "+" + Print(operand)
    case Group(inner) => "(" + Print(inner) + ")"
    case Binary(op, left, right) => Print(left) + OperatorText(op) + Print(right)
  }

  // Every literal spells its value and every reference is within Excel's bounds.
  predicate Printable<D(==)>(a: Arithmetic<D>, t: Tree<D>) {
    match t
    case Literal(raw, value) => Spells(a, raw, Number(value))
    case Reference(row, column) => InBounds(row, column)
    case Negate(operand) => Printable(a, operand)
    case Posit(operand) => Printable(a, operand)
    case Group(inner) => Printable(a, inner)
    case Binary(_, left, right) => Printable(a, left) && Printable(a, right)
  }

  // The text cannot extend a number or name that ends just before it.
  predicate Separates(rest: string) {
    rest != [] ==> !ContinuesName(rest[0]) && !StartsNumber(rest[0])
  }

  lemma {:induction false} SpanIsAll(raw: string)
    requires NumberSpan(raw) == |raw|
    ensures forall i | 0 <= i < |raw| :: StartsNumber(raw[i])
  {
    if raw != [] {
      SpanIsAll(raw[1..]);
      assert forall i | 0 < i < |raw| :: raw[i] == raw[1..][i - 1];
    }
  }

  lemma {:induction false} LexNumber<D>(a: Arithmetic<D>, raw: string, value: D, rest: string)
    requires Spells(a, raw, Number(value)) && Separates(rest)
    ensures Lex(a, raw + rest) == Prefixed([Number(value)], Lex(a, rest))
  {
    var text := raw + rest;
    SpanIsAll(raw);
    NumberSpanSplit(text, |raw|);
    assert text[|raw|..] == rest && text[..|raw|] == raw;
    assert text[0] == raw[0];
  }

  lemma {:induction false} LexName<D>(a: Arithmetic<D>, row: nat, column: nat, rest: string)
    requires InBounds(row, column) && Separates(rest)
    ensures Lex(a, CellName(row, column) + rest) == Prefixed([Cell(row, column)], Lex(a, rest))
  {
    var name := CellName(row, column);
    var text := name + rest;
    ParseUndoesPlainPrint(row, column);
    NameIsName(row, column);
    NameSpanSplit(text, |name|);
    assert text[|name|..] == rest && text[..|name|] == name;
    assert text[0] == name[0];
    assert ScanOne(a, text) == NameScan(name);
  }

  lemma NameIsName(row: nat, column: nat)
    ensures var name := CellName(row, column);
            name != [] && IsAlphabetic(name[0]) && forall i | 0 <= i < |name| :: ContinuesName(name[i])
  {
  }

  lemma {:induction false} LexPunctuation<D>(a: Arithmetic<D>, c: char, rest: string)
    requires Punctuation<D>(c).Some?
    ensures Lex(a, [c] + rest) == Prefixed([Punctuation<D>(c).value], Lex(a, rest))
  {
    assert ([c] + rest)[1..] == rest;
  }

  lemma {:induction false} LexOperator<D>(a: Arithmetic<D>, op: Operator, rest: string)
    ensures Lex(a, OperatorText(op) + rest) == Prefixed([OperatorToken(op)], Lex(a, rest))
    ensures Separates(OperatorText(op) + rest)
  {
    LexPunctuation(a, OperatorText(op)[0], rest);
  }

  lemma PrefixedTwice<D>(xs: seq<Token<D>>, ys: seq<Token<D>>, lexed: Lexed<D>)
    ensures Prefixed(xs, Prefixed(ys, lexed)) == Prefixed(xs + ys, lexed)
  {
  }

  // Lexing a printed tree gives its tokens, whatever separate text follows.
  lemma {:induction false} LexUndoesPrint<D>(a: Arithmetic<D>, t: Tree<D>, rest: string)
    requires Printable(a, t) && Separates(rest)
    ensures Lex(a, Print(t) + rest) == Prefixed(Yield(t), Lex(a, rest))
    decreases t, 1
  {
    match t
    case Literal(raw, value) => LexNumber(a, raw, value, rest);
    case Reference(row, column) => LexName(a, row, column, rest);
    case Negate(operand) => LexSigned(a, Subtract, operand, rest);
    case Posit(operand) => LexSigned(a, Add, operand, rest);
    case Group(inner) => LexGroup(a, inner, rest);
    case Binary(op, left, right) => LexBinary(a, op, left, right, rest);
  }

  lemma {:induction false} LexSigned<D>(a: Arithmetic<D>, sign: Operator, operand: Tree<D>, rest: string)
    requires Printable(a, operand) && Separates(rest)
    ensures Lex(a, OperatorText(sign) + Print(operand) + rest) ==
            Prefixed([OperatorToken(sign)] + Yield(operand), Lex(a, rest))
    decreases operand, 2
  {
    assert OperatorText(sign) + Print(operand) + rest == OperatorText(sign) + (Print(operand) + rest);
    LexOperator(a, sign, Print(operand) + rest);
    LexUndoesPrint(a, operand, rest);
    PrefixedTwice([OperatorToken(sign)], Yield(operand), Lex(a, rest));
  }

  lemma {:induction false} LexGroup<D>(a: Arithmetic<D>, inner: Tree<D>, rest: string)
    requires Printable(a, inner)
    ensures Lex(a, "(" + Print(inner) + ")" + rest) == Prefixed([Open] + Yield(inner) + [Close], Lex(a, rest))
    decreases inner, 2
  {
    var p := Print(inner);
    LexPunctuation(a, ')', rest);
    LexUndoesPrint(a, inner, ")" + rest);
    LexPunctuation(a, '(', p + (")" + rest));
    LexJoin(a, "(", p, ")", rest, [Open], Yield(inner), [Close]);
  }

  lemma {:induction false} LexBinary<D>(a: Arithmetic<D>, op: Operator, left: Tree<D>, right: Tree<D>, rest: string)
    requires Printable(a, left) && Printable(a, right) && Separates(rest)
    ensures Lex(a, Print(left) + OperatorText(op) + Print(right) + rest) ==
            Prefixed(Yield(left) + [OperatorToken(op)] + Yield(right), Lex(a, rest))
    decreases Binary(op, left, right), 0
  {
    var l, o, r := Print(left), OperatorText(op), Print(right);
    LexUndoesPrint(a, right, rest);
    LexOperator(a, op, r + rest);
    LexUndoesPrint(a, left, o + (r + rest));
    LexJoin(a, l, o, r, rest, Yield(left), [OperatorToken(op)], Yield(right));
  }

  lemma {:induction false} LexJoin<D>(a: Arithmetic<D>, s1: string, s2: string, s3: string, rest: string,
                   t1: seq<Token<D>>, t2: seq<Token<D>>, t3: seq<Token<D>>)
    requires Lex(a, s3 + rest) == Prefixed(t3, Lex(a, rest))
    requires Lex(a, s2 + (s3 + rest)) == Prefixed(t2, Lex(a, s3 + rest))
    requires Lex(a, s1 + (s2 + (s3 + rest))) == Prefixed(t1, Lex(a, s2 + (s3 + rest)))
    ensures Lex(a, s1 + s2 + s3 + rest) == Prefixed(t1 + t2 + t3, Lex(a, rest))
  {
    assert s1 + s2 + s3 + rest == s1 + (s2 + (s3 + rest));
    PrefixedTwice(t2, t3, Lex(a, rest));
    PrefixedTwice(t1, t2 + t3, Lex(a, rest));
    assert t1 + t2 + t3 == t1 + (t2 + t3);
  }

  lemma {:induction false} LexOfPrint<D>(a: Arithmetic<D>, t: Tree<D>)
    requires Printable(a, t)
    ensures Lex(a, Print(t)) == Lexed(Yield(t), None)
  {
    assert Print(t) + [] == Print(t);
    LexUndoesPrint(a, t, []);
  }

  // Bracketing keeps a tree printable.
  lemma {:induction false} BracketPrintable<D>(a: Arithmetic<D>, t: Tree<D>, level: nat)
    requires Printable(a, t)
    ensures Printable(a, Bracket(t, level))
    decreases t
  {
    match t
    case Literal(_, _) =>
    case Reference(_, _) =>
    case Negate(operand) => BracketPrintable(a, operand, 2);
    case Posit(operand) => BracketPrintable(a, operand, 2);
    case Group(inner) => BracketPrintable(a, inner, 0);
    case Binary(op, left, right) =>
      BracketPrintable(a, left, OperatorLevel(op));
      BracketPrintable(a, right, OperatorLevel(op) + 1);
  }
}
