/**
 * What the operator helpers promise: when they succeed and when they fail,
 * the division identity, how `!=` and `==` relate, how the numeric
 * comparisons agree with the syntax tree's ordering, the inverses of `+`,
 * unary `-` and `!`, and what printing a value gives.
 */
module OperatorProperties {
  import opened Wrappers
  import opened Ints
  import opened Tokenizer
  import opened Ast
  import opened Operators
  import TokenizerProperties

  lemma MulAtLeast(x: nat, y: nat)
    requires y >= 1
    ensures x * y >= x
  {
  }

  /**
   * `/` and `%` fail exactly on a zero divisor and on `MIN` divided by `-1`;
   * otherwise they satisfy `a == b * (a / b) + a % b`, the remainder is
   * smaller than the divisor in magnitude, and it is zero or takes the sign
   * of the dividend.
   */
  lemma DivisionAndRemainder(a: Int32, b: Int32)
    ensures Divide(ASTNode.Number(a), ASTNode.Number(b)).Err?
        <==> b == 0 || (a as int == MIN && b == -1)
    ensures Remainder(ASTNode.Number(a), ASTNode.Number(b)).Err?
        <==> b == 0 || (a as int == MIN && b == -1)
    ensures Divide(ASTNode.Number(a), ASTNode.Number(b)).Ok? ==>
      var q := Divide(ASTNode.Number(a), ASTNode.Number(b)).value.number as int;
      var m := Remainder(ASTNode.Number(a), ASTNode.Number(b)).value.number as int;
      && a as int == b as int * q + m
      && Abs(m) < Abs(b as int)
      && (m == 0 || (m < 0 <==> a < 0))
  {
    if b != 0 {
      var x, y := a as int, b as int;
      TruncDivRem(x, y);
      var q := TruncDiv(x, y);
      MulAtLeast(Abs(q), Abs(y));
      assert Abs(q) <= Abs(x);
      if !InRange(q) {
        assert Abs(q) == Abs(x) == -MIN;
        assert Abs(y) == 1;
        assert x == MIN && y == -1;
      }
      if x == MIN && y == -1 {
        assert q == -MIN;
      }
    }
  }

  /**
   * `+` takes two numbers whose sum fits an `i32`, giving the sum, or two
   * strings, giving their concatenation.
   */
  lemma PlusOperands(l: ASTNode, r: ASTNode)
    ensures BinaryOp(l, Plus, r).Ok? <==>
      (l.Number? && r.Number? && InRange(l.number as int + r.number as int)) || (l.String? && r.String?)
    ensures l.Number? && BinaryOp(l, Plus, r).Ok? ==>
      BinaryOp(l, Plus, r).value.Number? && BinaryOp(l, Plus, r).value.number as int == l.number as int + r.number as int
    ensures l.String? && r.String? ==> BinaryOp(l, Plus, r) == Ok(ASTNode.String(l.text + r.text))
  {
  }

  /**
   * `-`, `*`, `/`, `%` and the four comparisons succeed only on two numbers;
   * the comparisons always do. On two numbers `-` and `*` succeed exactly
   * when the difference or the product fits an `i32`, and give it.
   */
  lemma NumericOperands(l: ASTNode, op: Token, r: ASTNode)
    requires op in {Minus, Asterisk, Slash, Percent, LessThan, LessThanEquals, GreaterThan, GreaterThanEquals}
    ensures BinaryOp(l, op, r).Ok? ==> l.Number? && r.Number?
    ensures op in {LessThan, LessThanEquals, GreaterThan, GreaterThanEquals} && l.Number? && r.Number? ==>
      BinaryOp(l, op, r).Ok?
    ensures (op == Minus || op == Asterisk) && l.Number? && r.Number? ==>
      var exact := if op == Minus then l.number as int - r.number as int else l.number as int * r.number as int;
      && (BinaryOp(l, op, r).Ok? <==> InRange(exact))
      && (BinaryOp(l, op, r).Ok? ==> BinaryOp(l, op, r).value.Number? && BinaryOp(l, op, r).value.number as int == exact)
  {
    match op {
      case Minus =>
      case Asterisk =>
      case Slash =>
      case Percent =>
      case LessThan =>
      case LessThanEquals =>
      case GreaterThan =>
      case GreaterThanEquals =>
    }
  }

  /**
   * `*` is commutative, and dividing a product that fits an `i32` by one
   * of its non-zero factors gives the other factor, with remainder zero.
   */
  lemma DivisionUndoesMultiplication(a: Int32, b: Int32)
    ensures Multiply(ASTNode.Number(a), ASTNode.Number(b)) == Multiply(ASTNode.Number(b), ASTNode.Number(a))
    ensures b != 0 && Multiply(ASTNode.Number(a), ASTNode.Number(b)).Ok? ==>
      var product := Multiply(ASTNode.Number(a), ASTNode.Number(b)).value;
      && Divide(product, ASTNode.Number(b)) == Ok(ASTNode.Number(a))
      && Remainder(product, ASTNode.Number(b)) == Ok(ASTNode.Number(0))
  {
    assert a as int * b as int == b as int * a as int;
    if b != 0 && InRange(a as int * b as int) {
      TruncDivProduct(a as int, b as int);
    }
  }

  /** `&` and `|` take two Booleans and give their conjunction or disjunction. */
  lemma LogicOperands(l: ASTNode, op: Token, r: ASTNode)
    requires op == And || op == Or
    ensures BinaryOp(l, op, r).Ok? <==> l.Boolean? && r.Boolean?
    ensures BinaryOp(l, op, r).Ok? ==>
      BinaryOp(l, op, r).value.truth == (if op == And then l.truth && r.truth else l.truth || r.truth)
  {
  }

  /** The tokens `evaluate_binary_operation` dispatches on. */
  predicate IsBinaryOperator(op: Token) {
    op in {Plus, Minus, Asterisk, Slash, Percent, Equals, EqualEqual, Bang, NotEqual,
           LessThan, LessThanEquals, GreaterThan, GreaterThanEquals, And, Or}
  }

  /** Any token that is not one of the fifteen binary operators is rejected, whatever the operands. */
  lemma NotAnOperator(l: ASTNode, op: Token, r: ASTNode)
    requires !IsBinaryOperator(op)
    ensures BinaryOp(l, op, r) == Err(UnexpectedOperator(op))
  {
  }

  /** `!=` is the negation of `==`: both succeed on the same operands, with opposite answers. */
  lemma InequalityNegatesEquality(op: Token, l: ASTNode, r: ASTNode)
    ensures Inequality(op, l, r) == (var e :- Equality(op, l, r); Not(e))
  {
  }

  /**
   * `==` succeeds exactly on two identifiers, two numbers, two strings or two
   * Booleans, and then it is structural equality. It differs from the syntax
   * tree's `PartialEq` only on Booleans, which `PartialEq` never finds equal.
   */
  lemma EqualityIsStructural(op: Token, l: ASTNode, r: ASTNode)
    ensures Equality(op, l, r).Ok? <==>
      || (l.Identifier? && r.Identifier?) || (l.Number? && r.Number?)
      || (l.String? && r.String?) || (l.Boolean? && r.Boolean?)
    ensures Equality(op, l, r).Ok? ==> Equality(op, l, r).value == ASTNode.Boolean(l == r)
    ensures Equality(op, l, r).Ok? && !l.Boolean? ==> Equality(op, l, r).value == ASTNode.Boolean(NodeEq(l, r))
  {
    NodeEqIsLeafEquality(l, r);
  }

  /**
   * The numeric comparisons succeed only on two numbers, although the syntax
   * tree's ordering also orders strings; on numbers they agree with that
   * ordering, `a < b` is `b > a`, and `a <= b` is the negation of `a > b`.
   */
  lemma ComparisonsFollowOrdering(l: ASTNode, r: ASTNode)
    ensures Compare(LessThan, l, r).Ok? <==> l.Number? && r.Number?
    ensures l.Number? && r.Number? ==>
      && Compare(LessThan, l, r) == Ok(ASTNode.Boolean(NodeCmp(l, r) == Some(Less)))
      && Compare(GreaterThan, l, r) == Ok(ASTNode.Boolean(NodeCmp(l, r) == Some(Greater)))
      && Compare(LessThan, l, r) == Compare(GreaterThan, r, l)
      && Compare(LessThanEquals, l, r) == Not(Compare(GreaterThan, l, r).value)
      && Compare(GreaterThanEquals, l, r) == Not(Compare(LessThan, l, r).value)
  {
  }

  /**
   * Adding fails exactly when the sum leaves the `i32` range, and
   * subtracting the right operand undoes a successful addition.
   */
  lemma SubtractionUndoesAddition(a: Int32, b: Int32)
    ensures Add(ASTNode.Number(a), ASTNode.Number(b)).Err? <==> !InRange(a as int + b as int)
    ensures Add(ASTNode.Number(a), ASTNode.Number(b)).Ok? ==>
      Subtract(Add(ASTNode.Number(a), ASTNode.Number(b)).value, ASTNode.Number(b)) == Ok(ASTNode.Number(a))
  {
  }

  /** Unary `-` fails only on `MIN`, otherwise gives the negated number, and applied twice gives the number back. */
  lemma NegationInvolution(a: Int32)
    ensures Negate(ASTNode.Number(a)).Err? <==> a as int == MIN
    ensures Negate(ASTNode.Number(a)).Ok? ==> Negate(ASTNode.Number(a)).value == ASTNode.Number(-a)
    ensures Negate(ASTNode.Number(a)).Ok? ==> Negate(Negate(ASTNode.Number(a)).value) == Ok(ASTNode.Number(a))
  {
  }

  /** `!` succeeds exactly on Booleans and applied twice gives the Boolean back. */
  lemma NotInvolution(v: ASTNode)
    ensures Not(v).Ok? <==> v.Boolean?
    ensures Not(v).Ok? ==> Not(Not(v).value) == Ok(v)
  {
  }

  /**
   * The conditions of `if` and `while` hold for exactly two values: the
   * Boolean `true` and the string `"true"`. No number prints as `true`.
   */
  lemma PrintsAsTrue(v: ASTNode)
    ensures Stringify(v) == Ok("true") <==> v == ASTNode.Boolean(true) || v == ASTNode.String("true")
  {
    if v.Number? {
      var s := IntToDecimal(v.number as int);
      assert s[0] == '-' || IsDigit(s[0]);
      assert "true"[0] == 't';
    }
  }

  /**
   * Any run of digits alone, leading zeros included, scans as one `Number`
   * token holding its decimal value, or fails naming the run when the value
   * does not fit an `i32`.
   */
  lemma DigitsScanBack(ds: string)
    requires |ds| > 0 && AllDigits(ds)
    ensures DecimalValue(ds) <= MAX ==> LexFrom(ds) == Ok([Token.Number(DecimalValue(ds) as Int32)])
    ensures DecimalValue(ds) > MAX ==> LexFrom(ds) == Err(NumberOutOfRange(ds))
  {
    TokenizerProperties.NumberLiteral(ds, []);
    assert ds + [] == ds;
    assert LexFrom([]) == Ok([]);
    if DecimalValue(ds) <= MAX {
      assert [Token.Number(DecimalValue(ds) as Int32)] + [] == [Token.Number(DecimalValue(ds) as Int32)];
    }
  }

  /**
   * Printing a number and scanning the printed text gives the number back: a
   * non-negative number as one `Number` token, a negative one as `-` and its
   * magnitude, except `MIN`, whose magnitude does not fit an `i32` and fails
   * to scan.
   */
  lemma PrintedNumberScansBack(n: Int32)
    ensures n >= 0 ==> LexFrom(Stringify(ASTNode.Number(n)).value) == Ok([Token.Number(n)])
    ensures MIN < n as int < 0 ==>
      LexFrom(Stringify(ASTNode.Number(n)).value) == Ok([Minus, Token.Number(-n)])
    ensures n as int == MIN ==> LexFrom(Stringify(ASTNode.Number(n)).value).Err?
  {
    var m := Abs(n as int);
    var digits := NatToDecimal(m);
    DecimalRoundTrip(m);
    DigitsScanBack(digits);
    if n < 0 {
      var text := "-" + digits;
      assert text[1..] == digits;
      assert Step(text) == Ok(Lexeme(Some(Minus), 1));
      TokenizerProperties.LexFromStep(text);
      assert LexFrom(text) == TokenizerProperties.Prepend([Minus], LexFrom(digits));
      if n as int != MIN {
        assert m as Int32 == -n;
        assert [Minus] + [Token.Number(m as Int32)] == [Minus, Token.Number(-n)];
      }
    }
  }
}
