/**
 Arithmetic formulas: tokens, the recursive-descent evaluator as functions on
 the unread tokens, and the trees that give token lists their meaning.

 Decimal arithmetic is a parameter, so every statement holds for every
 rounding, range and overflow behaviour of the decimal type.
 */
module FormulaGrammar {
  import opened Wrappers

  datatype Reason =
    | EmptyFormula
    | MultipleSumArguments
    | SumRequiresRange
    | InvalidSumStart
    | InvalidSumEnd
    | ReversedSumRange
    | SelfReference
    | UnsupportedTrailingSyntax
    | ReferencedCellNotNumeric
    | ArithmeticOverflow
    | DivisionByZero
    | UnclosedParenthesis
    | ExpectedOperand
    | InvalidNumericLiteral
    | UnsupportedIdentifier
    | UnsupportedFormulaSyntax

  // `Panic` is the unchecked `+=` or `-=` leaving the decimal range.
  datatype Failure = Unverifiable(reason: Reason) | Panic

  datatype Arithmetic<!D> = Arithmetic(
    zero: D,
    fromInt: int -> D,
    read: string -> Option<D>,
    add: (D, D) -> Option<D>,
    subtract: (D, D) -> Option<D>,
    multiply: (D, D) -> Option<D>,
    divide: (D, D) -> Option<D>,
    isZero: D -> bool
  )

  datatype Token<D> =
    | Number(value: D)
    | Cell(row: nat, column: nat)
    | Plus
    | Minus
    | Multiply
    | Divide
    | Open
    | Close

  // What one parser run may look at besides its tokens.
  datatype Env<!D> = Env(
    arithmetic: Arithmetic<D>,
    cells: map<(nat, nat), D>,
    lexError: Option<Reason>
  )

  datatype Step<D> = Done(value: D, rest: seq<Token<D>>) | Stop(failure: Failure)

  datatype Operator = Add | Subtract | Times | Over

  function OperatorToken<D>(op: Operator): Token<D> {
    match op
    case Add => Plus
    case Subtract => Minus
    case Times => Multiply
    case Over => Divide
  }

  // The operators of sums bind at level 0, those of products at level 1.
  function OperatorLevel(op: Operator): nat {
    if op.Add? || op.Subtract? then 0 else 1
  }

  function Apply<D>(env: Env<D>, op: Operator, left: D, right: D): Result<D, Failure> {
    match op
    case Add => Checked(env.arithmetic.add(left, right), Panic)
    case Subtract => Checked(env.arithmetic.subtract(left, right), Panic)
    case Times => Checked(env.arithmetic.multiply(left, right), Unverifiable(ArithmeticOverflow))
    case Over =>
      if env.arithmetic.isZero(right) then Err(Unverifiable(DivisionByZero))
      else Checked(env.arithmetic.divide(left, right), Unverifiable(ArithmeticOverflow))
  }

  function Checked<D>(value: Option<D>, failure: Failure): Result<D, Failure> {
    if value.Some? then Ok(value.value) else Err(failure)
  }

  function LookUp<D>(env: Env<D>, row: nat, column: nat): Result<D, Failure> {
    if (row, column) in env.cells then Ok(env.cells[(row, column)])
    else Err(Unverifiable(ReferencedCellNotNumeric))
  }

  function Negated<D>(env: Env<D>, value: D): Result<D, Failure> {
    Checked(env.arithmetic.subtract(env.arithmetic.zero, value), Unverifiable(ArithmeticOverflow))
  }

  // ---------------------------------------------------------------------
  // Evaluation while parsing; the unread tokens are the termination measure
  // ---------------------------------------------------------------------

  // The operator that continues a chain at this level, if the next token is one.
  function NextOperator<D>(tokens: seq<Token<D>>, level: nat): Option<Operator>
    requires level <= 1
  {
    if tokens == [] then None
    else if level == 0 then
      (if tokens[0].Plus? then Some(Add) else if tokens[0].Minus? then Some(Subtract) else None)
    else
      (if tokens[0].Multiply? then Some(Times) else if tokens[0].Divide? then Some(Over) else None)
  }

  function Expression<D>(env: Env<D>, tokens: seq<Token<D>>): (s: Step<D>)
    ensures s.Done? ==> |s.rest| < |tokens|
    decreases |tokens|, 4
  {
    if env.lexError.Some? then Stop(Unverifiable(env.lexError.value))
    else
      match Term(env, tokens)
      case Stop(failure) => Stop(failure)
      case Done(value, rest) => ExpressionTail(env, value, rest)
  }

  function ExpressionTail<D>(env: Env<D>, value: D, tokens: seq<Token<D>>): (s: Step<D>)
    ensures s.Done? ==> |s.rest| <= |tokens|
    decreases |tokens|, 3
  {
    match NextOperator(tokens, 0)
    case None => Done(value, tokens)
    case Some(op) =>
      match Term(env, tokens[1..])
      case Stop(failure) => Stop(failure)
      case Done(operand, rest) =>
        match Apply(env, op, value, operand)
        case Err(failure) => Stop(failure)
        case Ok(next) => ExpressionTail(env, next, rest)
  }

  function Term<D>(env: Env<D>, tokens: seq<Token<D>>): (s: Step<D>)
    ensures s.Done? ==> |s.rest| < |tokens|
    decreases |tokens|, 2
  {
    match Factor(env, tokens)
    case Stop(failure) => Stop(failure)
    case Done(value, rest) => TermTail(env, value, rest)
  }

  function TermTail<D>(env: Env<D>, value: D, tokens: seq<Token<D>>): (s: Step<D>)
    ensures s.Done? ==> |s.rest| <= |tokens|
    decreases |tokens|, 1
  {
    match NextOperator(tokens, 1)
    case None => Done(value, tokens)
    case Some(op) =>
      match Factor(env, tokens[1..])
      case Stop(failure) => Stop(failure)
      case Done(operand, rest) =>
        match Apply(env, op, value, operand)
        case Err(failure) => Stop(failure)
        case Ok(next) => TermTail(env, next, rest)
  }

  function Factor<D>(env: Env<D>, tokens: seq<Token<D>>): (s: Step<D>)
    ensures s.Done? ==> |s.rest| < |tokens|
    decreases |tokens|, 0
  {
    if tokens == [] then Stop(Unverifiable(ExpectedOperand))
    else
      match tokens[0]
      case Number(value) => Done(value, tokens[1..])
      case Cell(row, column) => Continue(LookUp(env, row, column), tokens[1..])
      case Minus =>
        (match Factor(env, tokens[1..])
         case Stop(failure) => Stop(failure)
         case Done(value, rest) => Continue(Negated(env, value), rest))
      case Plus => Factor(env, tokens[1..])
      case Open =>
        (match Expression(env, tokens[1..])
         case Stop(failure) => Stop(failure)
         case Done(value, rest) =>
           if rest != [] && rest[0].Close? then Done(value, rest[1..])
           else Stop(Unverifiable(UnclosedParenthesis)))
      case _ => Stop(Unverifiable(ExpectedOperand))
  }

  function Continue<D>(result: Result<D, Failure>, rest: seq<Token<D>>): Step<D> {
    match result
    case Ok(value) => Done(value, rest)
    case Err(failure) => Stop(failure)
  }

  // The whole token list as one formula.
  function EvaluateTokens<D>(env: Env<D>, tokens: seq<Token<D>>): Result<D, Failure> {
    match Expression(env, tokens)
    case Done(value, rest) => if rest == [] then Ok(value) else Err(Unverifiable(UnsupportedTrailingSyntax))
    case Stop(failure) => Err(failure)
  }

  // ---------------------------------------------------------------------
  // Trees and their meaning
  // ---------------------------------------------------------------------

  datatype Tree<D> =
    | Literal(raw: string, value: D)
    | Reference(row: nat, column: nat)
    | Negate(operand: Tree<D>)
    | Posit(operand: Tree<D>)
    | Group(inner: Tree<D>)
    | Binary(op: Operator, left: Tree<D>, right: Tree<D>)

  // The value of a tree, or its first failure from left to right.
  function Eval<D>(env: Env<D>, t: Tree<D>): Result<D, Failure> {
    match t
    case Literal(_, value) => Ok(value)
    case Reference(row, column) => LookUp(env, row, column)
    case Negate(operand) =>
      (match Eval(env, operand)
       case Err(failure) => Err(failure)
       case Ok(value) => Negated(env, value))
    case Posit(operand) => Eval(env, operand)
    case Group(inner) => Eval(env, inner)
    case Binary(op, left, right) =>
      match Eval(env, left)
      case Err(failure) => Err(failure)
      case Ok(l) =>
        match Eval(env, right)
        case Err(failure) => Err(failure)
        case Ok(r) => Apply(env, op, l, r)
  }

  function Yield<D>(t: Tree<D>): (tokens: seq<Token<D>>)
    ensures tokens != []
  {
    match t
    case Literal(_, value) => [Number(value)]
    case Reference(row, column) => [Cell(row, column)]
    case Negate(operand) => [Minus] + Yield(operand)
    case Posit(operand) => [Plus] + Yield(operand)
    case Group(inner) => [Open] + Yield(inner) + [Close]
    case Binary(op, left, right) => Yield(left) + [OperatorToken(op)] + Yield(right)
  }

  // The grammar: expressions are level 0, terms level 1, factors level 2.
  // Chains associate to the left and a sign binds tighter than any operator.
  predicate Fits<D>(t: Tree<D>, level: nat) {
    match t
    case Literal(_, _) => true
    case Reference(_, _) => true
    case Negate(operand) => Fits(operand, 2)
    case Posit(operand) => Fits(operand, 2)
    case Group(inner) => Fits(inner, 0)
    case Binary(op, left, right) =>
      && level <= OperatorLevel(op)
      && Fits(left, OperatorLevel(op))
      && Fits(right, OperatorLevel(op) + 1)
  }

  lemma NextOperatorOfToken<D>(op: Operator, rest: seq<Token<D>>, level: nat)
    requires level <= 1
    ensures NextOperator([OperatorToken(op)] + rest, level) == if OperatorLevel(op) == level then Some(op) else None
  {
  }

  // ---------------------------------------------------------------------
  // Completeness: a derivable token list evaluates to its tree's outcome
  // ---------------------------------------------------------------------

  lemma {:induction false} CompleteFactor<D>(env: Env<D>, t: Tree<D>, rest: seq<Token<D>>)
    requires env.lexError == None && Fits(t, 2)
    ensures Factor(env, Yield(t) + rest) == Continue(Eval(env, t), rest)
    decreases t, 0
  {
    var tokens := Yield(t) + rest;
    match t
    case Literal(_, _) => assert tokens[1..] == rest;
    case Reference(_, _) => assert tokens[1..] == rest;
    case Negate(operand) =>
      CompleteFactor(env, operand, rest);
      assert tokens[1..] == Yield(operand) + rest;
    case Posit(operand) =>
      CompleteFactor(env, operand, rest);
      assert tokens[1..] == Yield(operand) + rest;
    case Group(inner) =>
      CompleteExpression(env, inner, [Close] + rest);
      assert tokens[1..] == Yield(inner) + ([Close] + rest);
      assert ([Close] + rest)[1..] == rest;
  }

  lemma {:induction false} CompleteTerm<D>(env: Env<D>, t: Tree<D>, rest: seq<Token<D>>)
    requires env.lexError == None && Fits(t, 1)
    ensures Term(env, Yield(t) + rest) ==
            match Eval(env, t) { case Ok(value) => TermTail(env, value, rest) case Err(failure) => Stop(failure) }
    decreases t, 1
  {
    if t.Binary? {
      var tail := [OperatorToken(t.op)] + (Yield(t.right) + rest);
      CompleteTerm(env, t.left, tail);
      assert Yield(t) + rest == Yield(t.left) + tail;
      CompleteFactor(env, t.right, rest);
      assert tail[1..] == Yield(t.right) + rest;
      NextOperatorOfToken(t.op, Yield(t.right) + rest, 1);
    } else {
      CompleteFactor(env, t, rest);
    }
  }

  lemma {:induction false} CompleteExpression<D>(env: Env<D>, t: Tree<D>, rest: seq<Token<D>>)
    requires env.lexError == None && Fits(t, 0) && NextOperator(rest, 1) == None
    ensures Expression(env, Yield(t) + rest) ==
            match Eval(env, t) { case Ok(value) => ExpressionTail(env, value, rest) case Err(failure) => Stop(failure) }
    decreases t, 2
  {
    if t.Binary? && OperatorLevel(t.op) == 0 {
      var tail := [OperatorToken(t.op)] + (Yield(t.right) + rest);
      NextOperatorOfToken(t.op, Yield(t.right) + rest, 1);
      NextOperatorOfToken(t.op, Yield(t.right) + rest, 0);
      CompleteExpression(env, t.left, tail);
      assert Yield(t) + rest == Yield(t.left) + tail;
      CompleteTerm(env, t.right, rest);
      assert tail[1..] == Yield(t.right) + rest;
    } else {
      CompleteTerm(env, t, rest);
    }
  }

  // ---------------------------------------------------------------------
  // Soundness: whatever is accepted derives from the grammar with that value
  // ---------------------------------------------------------------------

  ghost predicate Reads<D>(env: Env<D>, t: Tree<D>, level: nat, tokens: seq<Token<D>>, s: Step<D>)
    requires s.Done?
  {
    Fits(t, level) && Yield(t) + s.rest == tokens && Eval(env, t) == Ok(s.value)
  }

  lemma {:induction false} SoundFactor<D>(env: Env<D>, tokens: seq<Token<D>>) returns (t: Tree<D>)
    requires Factor(env, tokens).Done?
    ensures Reads(env, t, 2, tokens, Factor(env, tokens))
    decreases |tokens|, 0
  {
    match tokens[0]
    case Number(value) => t := Literal("", value);
    case Cell(row, column) => t := Reference(row, column);
    case Minus =>
      var u := SoundFactor(env, tokens[1..]);
      t := Negate(u);
    case Plus =>
      var u := SoundFactor(env, tokens[1..]);
      t := Posit(u);
    case Open =>
      var u := SoundExpression(env, tokens[1..]);
      t := Group(u);
      var inner := Expression(env, tokens[1..]);
      assert inner.rest == [Close] + inner.rest[1..];
  }

  lemma {:induction false} SoundTerm<D>(env: Env<D>, tokens: seq<Token<D>>) returns (t: Tree<D>)
    requires Term(env, tokens).Done?
    ensures Reads(env, t, 1, tokens, Term(env, tokens))
    decreases |tokens|, 2
  {
    var u := SoundFactor(env, tokens);
    t := SoundTermTail(env, u, Factor(env, tokens).rest);
  }

  lemma {:induction false} SoundTermTail<D>(env: Env<D>, done: Tree<D>, tokens: seq<Token<D>>) returns (t: Tree<D>)
    requires Fits(done, 1) && Eval(env, done).Ok?
    requires TermTail(env, Eval(env, done).value, tokens).Done?
    ensures Reads(env, t, 1, Yield(done) + tokens, TermTail(env, Eval(env, done).value, tokens))
    decreases |tokens|, 1
  {
    hide Factor, Term, Expression, ExpressionTail;
    match NextOperator(tokens, 1)
    case None => t := done;
    case Some(op) =>
      var u := SoundFactor(env, tokens[1..]);
      var rest := Factor(env, tokens[1..]).rest;
      var next := Binary(op, done, u);
      assert Yield(next) + rest == Yield(done) + tokens;
      t := SoundTermTail(env, next, rest);
  }

  lemma {:induction false} SoundExpression<D>(env: Env<D>, tokens: seq<Token<D>>) returns (t: Tree<D>)
    requires Expression(env, tokens).Done?
    ensures Reads(env, t, 0, tokens, Expression(env, tokens))
    decreases |tokens|, 4
  {
    var u := SoundTerm(env, tokens);
    t := SoundExpressionTail(env, u, Term(env, tokens).rest);
  }

  lemma {:induction false} SoundExpressionTail<D>(env: Env<D>, done: Tree<D>, tokens: seq<Token<D>>)
    returns (t: Tree<D>)
    requires Fits(done, 0) && Eval(env, done).Ok?
    requires ExpressionTail(env, Eval(env, done).value, tokens).Done?
    ensures Reads(env, t, 0, Yield(done) + tokens, ExpressionTail(env, Eval(env, done).value, tokens))
    decreases |tokens|, 3
  {
    hide Factor, Term, TermTail, Expression;
    match NextOperator(tokens, 0)
    case None => t := done;
    case Some(op) =>
      var u := SoundTerm(env, tokens[1..]);
      var rest := Term(env, tokens[1..]).rest;
      var next := Binary(op, done, u);
      assert Yield(next) + rest == Yield(done) + tokens;
      t := SoundExpressionTail(env, next, rest);
  }

  // ---------------------------------------------------------------------
  // The meaning theorems
  // ---------------------------------------------------------------------

  // Every derivation of a token list agrees with the evaluator, failures included.
  lemma {:induction false} DerivationsGiveTheOutcome<D>(env: Env<D>, t: Tree<D>)
    requires env.lexError == None && Fits(t, 0)
    ensures EvaluateTokens(env, Yield(t)) == Eval(env, t)
  {
    assert Yield(t) + [] == Yield(t);
    CompleteExpression(env, t, []);
  }

  ghost predicate Derives<D(!new)>(env: Env<D>, tokens: seq<Token<D>>, value: D) {
    exists t: Tree<D> :: Fits(t, 0) && Yield(t) == tokens && Eval(env, t) == Ok(value)
  }

  // A value is returned exactly for the token lists the grammar derives with that value.
  lemma {:induction false} AcceptedIffDerivable<D(!new)>(env: Env<D>, tokens: seq<Token<D>>, value: D)
    requires env.lexError == None
    ensures EvaluateTokens(env, tokens) == Ok(value) <==> Derives(env, tokens, value)
  {
    if EvaluateTokens(env, tokens) == Ok(value) {
      var t := SoundExpression(env, tokens);
      assert Yield(t) == tokens;
    }
    if Derives(env, tokens, value) {
      var t :| Fits(t, 0) && Yield(t) == tokens && Eval(env, t) == Ok(value);
      DerivationsGiveTheOutcome(env, t);
    }
  }

  // ---------------------------------------------------------------------
  // Minimal parentheses
  // ---------------------------------------------------------------------

  // Insert parentheses only where the grammar needs them.
  function Bracket<D>(t: Tree<D>, level: nat): Tree<D> {
    match t
    case Literal(_, _) => t
    case Reference(_, _) => t
    case Negate(operand) => Negate(Bracket(operand, 2))
    case Posit(operand) => Posit(Bracket(operand, 2))
    case Group(inner) => Group(Bracket(inner, 0))
    case Binary(op, left, right) =>
      var core := Binary(op, Bracket(left, OperatorLevel(op)), Bracket(right, OperatorLevel(op) + 1));
      if level <= OperatorLevel(op) then core else Group(core)
  }

  // The abstract tree: the same tree without parentheses.
  function Strip<D>(t: Tree<D>): Tree<D> {
    match t
    case Literal(_, _) => t
    case Reference(_, _) => t
    case Negate(operand) => Negate(Strip(operand))
    case Posit(operand) => Posit(Strip(operand))
    case Group(inner) => Strip(inner)
    case Binary(op, left, right) => Binary(op, Strip(left), Strip(right))
  }

  function Groups<D>(t: Tree<D>): nat {
    match t
    case Literal(_, _) => 0
    case Reference(_, _) => 0
    case Negate(operand) => Groups(operand)
    case Posit(operand) => Groups(operand)
    case Group(inner) => 1 + Groups(inner)
    case Binary(_, left, right) => Groups(left) + Groups(right)
  }

  lemma {:induction false} BracketFits<D>(env: Env<D>, t: Tree<D>, level: nat)
    ensures Fits(Bracket(t, level), level)
    ensures Eval(env, Bracket(t, level)) == Eval(env, t)
    ensures Strip(Bracket(t, level)) == Strip(t)
    decreases t
  {
    match t
    case Literal(_, _) =>
    case Reference(_, _) =>
    case Negate(operand) => BracketFits(env, operand, 2);
    case Posit(operand) => BracketFits(env, operand, 2);
    case Group(inner) => BracketFits(env, inner, 0);
    case Binary(op, left, right) =>
      BracketFits(env, left, OperatorLevel(op));
      BracketFits(env, right, OperatorLevel(op) + 1);
  }

  // No derivable way of writing a tree down uses fewer parentheses.
  lemma {:induction false} BracketIsMinimal<D>(written: Tree<D>, level: nat)
    requires Fits(written, level)
    ensures Groups(Bracket(Strip(written), level)) <= Groups(written)
    decreases written
  {
    match written
    case Literal(_, _) =>
    case Reference(_, _) =>
    case Negate(operand) => BracketIsMinimal(operand, 2);
    case Posit(operand) => BracketIsMinimal(operand, 2);
    case Group(inner) =>
      BracketIsMinimal(inner, 0);
    case Binary(op, left, right) =>
      BracketIsMinimal(left, OperatorLevel(op));
      BracketIsMinimal(right, OperatorLevel(op) + 1);
  }

  // Evaluating the minimally parenthesised form of any tree gives the tree's
  // value, or its first left-to-right failure.
  lemma {:induction false} MinimalFormKeepsMeaning<D>(env: Env<D>, t: Tree<D>)
    requires env.lexError == None
    ensures EvaluateTokens(env, Yield(Bracket(t, 0))) == Eval(env, t)
  {
    BracketFits(env, t, 0);
    DerivationsGiveTheOutcome(env, Bracket(t, 0));
  }
}
