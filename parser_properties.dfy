/**
 * What the parser's grammar means, stated on token lists: the precedence
 * tiers, left-to-right folding within a tier, the reach of `-` and `!`, the
 * three outcomes of a statement that starts with a name, and a printer for
 * expression trees that the parser inverts.
 */
module ParserProperties {
  import opened Wrappers
  import opened Ints
  import opened Tokenizer
  import opened Ast
  import opened Parser

  /** The expression trees the expression parser can build. */
  predicate IsExpression(e: ASTNode) {
    match e
    case Number(_) => true
    case String(_) => true
    case Boolean(_) => true
    case Identifier(_) => true
    case Binary(l, op, r) =>
      (IsLogicalOperator(op) || IsSimpleOperator(op)) && IsExpression(l) && IsExpression(r)
    case Unary(op, x) => (op == Minus || op == Bang) && IsExpression(x)
    case _ => false
  }

  /** An expression tree as tokens, with every operator application in parentheses. */
  function Render(e: ASTNode): (ts: seq<Token>)
    requires IsExpression(e)
    ensures |ts| > 0
  {
    match e
    case Number(n) => [Token.Number(n)]
    case String(s) => [Token.String(s)]
    case Boolean(b) => [Token.Boolean(b)]
    case Identifier(n) => [Token.Identifier(n)]
    case Binary(l, op, r) => [LeftParen] + Render(l) + [op] + Render(r) + [RightParen]
    case Unary(op, x) => [LeftParen, op] + Render(x) + [RightParen]
  }

  // One unfolding of each tier: start from the first operand, fold one operator, stop.

  /** The node of a literal or identifier token. */
  function Leaf(t: Token): ASTNode
    requires t.Number? || t.String? || t.Boolean? || t.Identifier?
  {
    match t
    case Number(n) => ASTNode.Number(n)
    case String(s) => ASTNode.String(s)
    case Boolean(b) => ASTNode.Boolean(b)
    case Identifier(n) => ASTNode.Identifier(n)
  }

  lemma FactorOfLeaf(ts: seq<Token>, p: nat)
    requires WellFormed(ts) && p + 1 < |ts|
    requires ts[p].Number? || ts[p].String? || ts[p].Boolean? || ts[p].Identifier?
    ensures FactorAt(ts, p) == Success(Leaf(ts[p]), p + 1)
  {
  }

  lemma FactorOfUnary(ts: seq<Token>, p: nat)
    requires WellFormed(ts) && p + 1 < |ts| && (ts[p] == Minus || ts[p] == Bang)
    requires ExpressionAt(ts, p + 1).Success?
    ensures FactorAt(ts, p) == Success(Unary(ts[p], ExpressionAt(ts, p + 1).value), ExpressionAt(ts, p + 1).next)
  {
  }

  lemma FactorOfParentheses(ts: seq<Token>, p: nat)
    requires WellFormed(ts) && p + 1 < |ts| && ts[p] == LeftParen
    requires ExpressionAt(ts, p + 1).Success? && ts[ExpressionAt(ts, p + 1).next] == RightParen
    ensures FactorAt(ts, p) == Success(ExpressionAt(ts, p + 1).value, ExpressionAt(ts, p + 1).next + 1)
  {
  }

  lemma TermStart(ts: seq<Token>, p: nat)
    requires WellFormed(ts) && p < |ts| && FactorAt(ts, p).Success?
    ensures TermAt(ts, p) == TermTail(ts, FactorAt(ts, p).next, FactorAt(ts, p).value)
  {
  }

  lemma TermStep(ts: seq<Token>, p: nat, left: ASTNode)
    requires WellFormed(ts) && p + 1 < |ts| && IsTermOperator(ts[p]) && FactorAt(ts, p + 1).Success?
    ensures TermTail(ts, p, left)
         == TermTail(ts, FactorAt(ts, p + 1).next, Binary(left, ts[p], FactorAt(ts, p + 1).value))
  {
  }

  lemma SimpleStart(ts: seq<Token>, p: nat)
    requires WellFormed(ts) && p < |ts| && TermAt(ts, p).Success?
    ensures SimpleExpressionAt(ts, p) == SimpleTail(ts, TermAt(ts, p).next, TermAt(ts, p).value)
  {
  }

  lemma SimpleStep(ts: seq<Token>, p: nat, left: ASTNode)
    requires WellFormed(ts) && p + 1 < |ts| && IsSimpleOperator(ts[p]) && TermAt(ts, p + 1).Success?
    ensures SimpleTail(ts, p, left)
         == SimpleTail(ts, TermAt(ts, p + 1).next, Binary(left, ts[p], TermAt(ts, p + 1).value))
  {
  }

  lemma ExpressionStart(ts: seq<Token>, p: nat)
    requires WellFormed(ts) && p < |ts| && SimpleExpressionAt(ts, p).Success?
    ensures ExpressionAt(ts, p)
         == ExpressionTail(ts, SimpleExpressionAt(ts, p).next, SimpleExpressionAt(ts, p).value)
  {
  }

  lemma ExpressionStep(ts: seq<Token>, p: nat, left: ASTNode)
    requires WellFormed(ts) && p + 1 < |ts| && !IsSimpleOperator(ts[p]) && IsLogicalOperator(ts[p])
    requires SimpleExpressionAt(ts, p + 1).Success?
    ensures ExpressionTail(ts, p, left)
         == ExpressionTail(ts, SimpleExpressionAt(ts, p + 1).next,
                           Binary(left, ts[p], SimpleExpressionAt(ts, p + 1).value))
  {
  }

  // A lone operand stands for each looser tier when no operator of that tier follows it.

  lemma TermOfFactor(ts: seq<Token>, p: nat)
    requires WellFormed(ts) && p < |ts| && FactorAt(ts, p).Success?
    requires !IsTermOperator(ts[FactorAt(ts, p).next])
    ensures TermAt(ts, p) == FactorAt(ts, p)
  {
    TermStart(ts, p);
  }

  lemma SimpleOfTerm(ts: seq<Token>, p: nat)
    requires WellFormed(ts) && p < |ts| && TermAt(ts, p).Success?
    requires !IsSimpleOperator(ts[TermAt(ts, p).next])
    ensures SimpleExpressionAt(ts, p) == TermAt(ts, p)
  {
    SimpleStart(ts, p);
  }

  lemma ExpressionOfSimple(ts: seq<Token>, p: nat)
    requires WellFormed(ts) && p < |ts| && SimpleExpressionAt(ts, p).Success?
    requires !IsLogicalOperator(ts[SimpleExpressionAt(ts, p).next])
    ensures ExpressionAt(ts, p) == SimpleExpressionAt(ts, p)
  {
    ExpressionStart(ts, p);
  }

  /** A factor followed by a token that is no binary operator is a whole expression. */
  lemma ExpressionOfFactor(ts: seq<Token>, p: nat)
    requires WellFormed(ts) && p < |ts| && FactorAt(ts, p).Success?
    requires !IsSimpleOperator(ts[FactorAt(ts, p).next]) && !IsLogicalOperator(ts[FactorAt(ts, p).next])
    ensures ExpressionAt(ts, p) == FactorAt(ts, p)
  {
    TermOfFactor(ts, p);
    SimpleOfTerm(ts, p);
    ExpressionOfSimple(ts, p);
  }

  /** Tokens that spell `a + b` spell `a` and then `b`. */
  lemma SplitAt(ts: seq<Token>, p: nat, a: seq<Token>, b: seq<Token>)
    requires p + |a| + |b| <= |ts| && ts[p..p + |a| + |b|] == a + b
    ensures ts[p..p + |a|] == a && ts[p + |a|..p + |a| + |b|] == b
  {
    var w := ts[p..p + |a| + |b|];
    assert ts[p..p + |a|] == w[..|a|];
    assert w[..|a|] == a;
    assert ts[p + |a|..p + |a| + |b|] == w[|a|..];
    assert w[|a|..] == b;
  }

  /** Where the parts of a rendered `Binary` sit among the tokens. */
  lemma BinaryLayout(e: ASTNode, ts: seq<Token>, p: nat)
    requires IsExpression(e) && e.Binary?
    requires p + |Render(e)| <= |ts| && ts[p..p + |Render(e)|] == Render(e)
    ensures var q := p + 1 + |Render(e.left)|;
      var q2 := q + 1 + |Render(e.right)|;
      && p + |Render(e)| == q2 + 1
      && ts[p] == LeftParen && ts[q] == e.op && ts[q2] == RightParen
      && ts[p + 1..q] == Render(e.left) && ts[q + 1..q2] == Render(e.right)
  {
    var left, right := Render(e.left), Render(e.right);
    var q := p + 1 + |left|;
    var q2 := q + 1 + |right|;
    var open := [LeftParen] + left;
    var withOp := open + [e.op];
    var operands := withOp + right;
    assert Render(e) == operands + [RightParen];
    SplitAt(ts, p, operands, [RightParen]);
    assert ts[q2] == ts[q2..q2 + 1][0];
    SplitAt(ts, p, withOp, right);
    SplitAt(ts, p, open, [e.op]);
    assert ts[q] == ts[q..q + 1][0];
    SplitAt(ts, p, [LeftParen], left);
    assert ts[p] == ts[p..p + 1][0];
  }

  /** Where the parts of a rendered `Unary` sit among the tokens. */
  lemma UnaryLayout(e: ASTNode, ts: seq<Token>, p: nat)
    requires IsExpression(e) && e.Unary?
    requires p + |Render(e)| <= |ts| && ts[p..p + |Render(e)|] == Render(e)
    ensures var q := p + 2 + |Render(e.operand)|;
      && p + |Render(e)| == q + 1
      && ts[p] == LeftParen && ts[p + 1] == e.op && ts[q] == RightParen
      && ts[p + 2..q] == Render(e.operand)
  {
    var operand := Render(e.operand);
    var q := p + 2 + |operand|;
    var prefix := [LeftParen, e.op];
    assert Render(e) == (prefix + operand) + [RightParen];
    SplitAt(ts, p, prefix + operand, [RightParen]);
    assert ts[q] == ts[q..q + 1][0];
    SplitAt(ts, p, prefix, operand);
    assert ts[p] == ts[p..p + 2][0] && ts[p + 1] == ts[p..p + 2][1];
  }

  /**
   * The parser inverts the printer: the tokens of any expression tree, fully
   * parenthesised, parse back to that tree as a factor, whatever follows them.
   */
  lemma {:induction false} RenderParses(e: ASTNode, ts: seq<Token>, p: nat)
    requires WellFormed(ts) && IsExpression(e)
    requires p + |Render(e)| < |ts| && ts[p..p + |Render(e)|] == Render(e)
    ensures FactorAt(ts, p) == Success(e, p + |Render(e)|)
    decreases e, 1
  {
    if e.Binary? {
      BinaryLayout(e, ts, p);
      RenderBinaryParses(e.left, e.op, e.right, ts, p, p + 1 + |Render(e.left)|, p + 2 + |Render(e.left)| + |Render(e.right)|);
    } else if e.Unary? {
      RenderUnaryParses(e, ts, p);
    } else {
      RenderLeafParses(e, ts, p);
    }
  }

  /** A literal or a name renders as one token, which parses back to it. */
  lemma RenderLeafParses(e: ASTNode, ts: seq<Token>, p: nat)
    requires WellFormed(ts) && IsExpression(e) && !e.Binary? && !e.Unary?
    requires p + |Render(e)| < |ts| && ts[p..p + |Render(e)|] == Render(e)
    ensures FactorAt(ts, p) == Success(e, p + |Render(e)|)
  {
    assert ts[p] == Render(e)[0];
    FactorOfLeaf(ts, p);
  }

  lemma {:induction false} RenderBinaryParses(l: ASTNode, op: Token, r: ASTNode, ts: seq<Token>, p: nat, q: nat, q2: nat)
    requires WellFormed(ts) && IsExpression(Binary(l, op, r))
    requires q == p + 1 + |Render(l)| && q2 == q + 1 + |Render(r)| && q2 + 1 < |ts|
    requires ts[p] == LeftParen && ts[q] == op && ts[q2] == RightParen
    requires ts[p + 1..q] == Render(l) && ts[q + 1..q2] == Render(r)
    ensures FactorAt(ts, p) == Success(Binary(l, op, r), q2 + 1)
    decreases Binary(l, op, r), 0
  {
    assert FactorAt(ts, p + 1) == Success(l, q) by {
      RenderParses(l, ts, p + 1);
    }
    assert FactorAt(ts, q + 1) == Success(r, q2) by {
      RenderParses(r, ts, q + 1);
    }
    ParenthesisedBinaryParses(ts, p, l, op, r, q, q2);
  }

  /** `( l op r )` is the factor `Binary(l, op, r)`. */
  lemma ParenthesisedBinaryParses(ts: seq<Token>, p: nat, l: ASTNode, op: Token, r: ASTNode, q: nat, q2: nat)
    requires WellFormed(ts) && p + 1 < q < q2 && q2 + 1 < |ts|
    requires IsLogicalOperator(op) || IsSimpleOperator(op)
    requires ts[p] == LeftParen && ts[q] == op && ts[q2] == RightParen
    requires FactorAt(ts, p + 1) == Success(l, q) && FactorAt(ts, q + 1) == Success(r, q2)
    ensures FactorAt(ts, p) == Success(Binary(l, op, r), q2 + 1)
  {
    BinaryParses(ts, p + 1, l, op, r, q, q2);
    FactorOfParentheses(ts, p);
  }

  lemma {:induction false} RenderUnaryParses(e: ASTNode, ts: seq<Token>, p: nat)
    requires WellFormed(ts) && IsExpression(e) && e.Unary?
    requires p + |Render(e)| < |ts| && ts[p..p + |Render(e)|] == Render(e)
    ensures FactorAt(ts, p) == Success(e, p + |Render(e)|)
    decreases e, 0
  {
    var q := p + 2 + |Render(e.operand)|;
    UnaryLayout(e, ts, p);
    assert FactorAt(ts, p + 2) == Success(e.operand, q) by {
      RenderParses(e.operand, ts, p + 2);
    }
    UnaryParses(ts, p, e.op, e.operand, q);
  }

  /** `( op x )` is the factor `Unary(op, x)`. */
  lemma UnaryParses(ts: seq<Token>, p: nat, op: Token, x: ASTNode, q: nat)
    requires WellFormed(ts) && p + 2 < q < |ts|
    requires ts[p] == LeftParen && ts[p + 1] == op && (op == Minus || op == Bang)
    requires FactorAt(ts, p + 2) == Success(x, q) && ts[q] == RightParen
    ensures FactorAt(ts, p) == Success(Unary(op, x), q + 1)
  {
    ExpressionOfFactor(ts, p + 2);
    FactorOfUnary(ts, p + 1);
    ExpressionOfFactor(ts, p + 1);
    FactorOfParentheses(ts, p);
  }

  /** `l op r` followed by `)` is the expression `Binary(l, op, r)`, for an operator of any tier. */
  lemma BinaryParses(ts: seq<Token>, p: nat, l: ASTNode, op: Token, r: ASTNode, q: nat, q2: nat)
    requires WellFormed(ts) && p < q < q2 < |ts|
    requires IsLogicalOperator(op) || IsSimpleOperator(op)
    requires FactorAt(ts, p) == Success(l, q) && ts[q] == op
    requires FactorAt(ts, q + 1) == Success(r, q2) && ts[q2] == RightParen
    ensures ExpressionAt(ts, p) == Success(Binary(l, op, r), q2)
  {
    if IsTermOperator(op) {
      TermStart(ts, p);
      TermStep(ts, q, l);
      SimpleOfTerm(ts, p);
      ExpressionOfSimple(ts, p);
    } else if IsSimpleOperator(op) {
      TermOfFactor(ts, p);
      TermOfFactor(ts, q + 1);
      SimpleStart(ts, p);
      SimpleStep(ts, q, l);
      ExpressionOfSimple(ts, p);
    } else {
      TermOfFactor(ts, p);
      SimpleOfTerm(ts, p);
      TermOfFactor(ts, q + 1);
      SimpleOfTerm(ts, q + 1);
      ExpressionStart(ts, p);
      ExpressionStep(ts, q, l);
    }
  }

  /** `p` followed by an expression is a `Print` statement ending where the expression does. */
  lemma PrintOfExpression(ts: seq<Token>, e: ASTNode, end: nat)
    requires WellFormed(ts) && 1 < |ts| && ts[0] == Token.Print
    requires ExpressionAt(ts, 1) == Success(e, end)
    ensures StatementAt(ts, 0) == Success(ASTNode.Print(e), end)
  {
  }

  /** A script printing a rendered expression parses to that one `Print` statement. */
  lemma PrintRenderParses(e: ASTNode)
    requires IsExpression(e)
    ensures var ts := [Token.Print] + Render(e) + [EndOfFile];
      WellFormed(ts) && ParseTokens(ts) == Ok(Program([ASTNode.Print(e)]))
  {
    var ts := [Token.Print] + Render(e) + [EndOfFile];
    var end := 1 + |Render(e)|;
    var statement := ASTNode.Print(e);
    assert ts[1..end] == Render(e);
    assert ts[end] == EndOfFile;
    RenderParses(e, ts, 1);
    ExpressionOfFactor(ts, 1);
    PrintOfExpression(ts, e, end);
    assert ProgramAt(ts, end, [statement]) == Success([statement], end);
    assert [] + [statement] == [statement];
    assert ProgramAt(ts, 0, []) == Success([statement], end);
  }

  // Precedence and grouping on small scripts

  /**
   * The arithmetic and comparison operators share one tier and fold from the
   * left: `a o1 b o2 c` is `(a o1 b) o2 c` whichever of them `o1` and `o2`
   * are, so `1 + 2 * 3` groups as `(1 + 2) * 3`.
   */
  lemma FlatLeftFold(a: Int32, o1: Token, b: Int32, o2: Token, c: Int32)
    requires IsSimpleOperator(o1) && !IsTermOperator(o1)
    requires IsSimpleOperator(o2) && !IsTermOperator(o2)
    ensures var ts := [Token.Number(a), o1, Token.Number(b), o2, Token.Number(c), EndOfFile];
      ExpressionAt(ts, 0)
      == Success(Binary(Binary(ASTNode.Number(a), o1, ASTNode.Number(b)), o2, ASTNode.Number(c)), 5)
  {
    var ts := [Token.Number(a), o1, Token.Number(b), o2, Token.Number(c), EndOfFile];
    FactorOfLeaf(ts, 0);
    FactorOfLeaf(ts, 2);
    FactorOfLeaf(ts, 4);
    TermOfFactor(ts, 0);
    TermOfFactor(ts, 2);
    TermOfFactor(ts, 4);
    SimpleStart(ts, 0);
    SimpleStep(ts, 1, ASTNode.Number(a));
    SimpleStep(ts, 3, Binary(ASTNode.Number(a), o1, ASTNode.Number(b)));
    ExpressionOfSimple(ts, 0);
  }

  /** `=` binds tighter than `+`: `a + b = c` is `a + (b = c)`. */
  lemma EqualsBindsTighter(a: Int32, b: Int32, c: Int32)
    ensures var ts := [Token.Number(a), Plus, Token.Number(b), Equals, Token.Number(c), EndOfFile];
      ExpressionAt(ts, 0)
      == Success(Binary(ASTNode.Number(a), Plus, Binary(ASTNode.Number(b), Equals, ASTNode.Number(c))), 5)
  {
    var ts := [Token.Number(a), Plus, Token.Number(b), Equals, Token.Number(c), EndOfFile];
    FactorOfLeaf(ts, 0);
    FactorOfLeaf(ts, 2);
    FactorOfLeaf(ts, 4);
    TermOfFactor(ts, 0);
    TermStart(ts, 2);
    TermStep(ts, 3, ASTNode.Number(b));
    SimpleStart(ts, 0);
    SimpleStep(ts, 1, ASTNode.Number(a));
    ExpressionOfSimple(ts, 0);
  }

  /** `-` and `!` apply to the whole expression after them: `-a + b` is `-(a + b)`. */
  lemma UnaryTakesWholeExpression(op: Token, a: Int32, b: Int32)
    requires op == Minus || op == Bang
    ensures var ts := [op, Token.Number(a), Plus, Token.Number(b), EndOfFile];
      ExpressionAt(ts, 0)
      == Success(Unary(op, Binary(ASTNode.Number(a), Plus, ASTNode.Number(b))), 4)
  {
    var ts := [op, Token.Number(a), Plus, Token.Number(b), EndOfFile];
    var sum := Binary(ASTNode.Number(a), Plus, ASTNode.Number(b));
    FactorOfLeaf(ts, 1);
    FactorOfLeaf(ts, 3);
    TermOfFactor(ts, 1);
    TermOfFactor(ts, 3);
    SimpleStart(ts, 1);
    SimpleStep(ts, 2, ASTNode.Number(a));
    ExpressionOfSimple(ts, 1);
    FactorOfUnary(ts, 0);
    ExpressionOfFactor(ts, 0);
  }

  /** Parentheses group and leave no node of their own: `a * (b + c)`. */
  lemma ParenthesesGroup(a: Int32, b: Int32, c: Int32)
    ensures var ts := [Token.Number(a), Asterisk, LeftParen, Token.Number(b), Plus, Token.Number(c), RightParen, EndOfFile];
      ExpressionAt(ts, 0)
      == Success(Binary(ASTNode.Number(a), Asterisk, Binary(ASTNode.Number(b), Plus, ASTNode.Number(c))), 7)
  {
    var ts := [Token.Number(a), Asterisk, LeftParen, Token.Number(b), Plus, Token.Number(c), RightParen, EndOfFile];
    SumInParentheses(ts, b, c);
    FactorOfLeaf(ts, 0);
    TermOfFactor(ts, 0);
    TermOfFactor(ts, 2);
    SimpleStart(ts, 0);
    SimpleStep(ts, 1, ASTNode.Number(a));
    ExpressionOfSimple(ts, 0);
  }

  /** The factor `( b + c )` of ParenthesesGroup. */
  lemma SumInParentheses(ts: seq<Token>, b: Int32, c: Int32)
    requires WellFormed(ts) && |ts| > 7
    requires ts[2..7] == [LeftParen, Token.Number(b), Plus, Token.Number(c), RightParen]
    ensures FactorAt(ts, 2) == Success(Binary(ASTNode.Number(b), Plus, ASTNode.Number(c)), 7)
  {
    assert ts[2] == LeftParen && ts[3] == Token.Number(b) && ts[4] == Plus;
    assert ts[5] == Token.Number(c) && ts[6] == RightParen;
    FactorOfLeaf(ts, 3);
    FactorOfLeaf(ts, 5);
    ParenthesisedBinaryParses(ts, 2, ASTNode.Number(b), Plus, ASTNode.Number(c), 4, 6);
  }

  /** An opening parenthesis that is never closed is an error at the end of input. */
  lemma MissingRightParen(a: Int32)
    ensures var ts := [LeftParen, Token.Number(a), EndOfFile];
      ExpressionAt(ts, 0) == Failure(ExpectedToken(RightParen, EndOfFile))
  {
    var ts := [LeftParen, Token.Number(a), EndOfFile];
    FactorOfLeaf(ts, 1);
    ExpressionOfFactor(ts, 1);
    assert FactorAt(ts, 0) == Failure(ExpectedToken(RightParen, EndOfFile));
    assert TermAt(ts, 0) == Failure(ExpectedToken(RightParen, EndOfFile));
    assert SimpleExpressionAt(ts, 0) == Failure(ExpectedToken(RightParen, EndOfFile));
  }

  // Statements

  /**
   * A statement that starts with a name is an assignment when `=` follows,
   * a call when `!` follows, and an error otherwise.
   */
  lemma NameStatement(ts: seq<Token>, p: nat)
    requires WellFormed(ts) && p < |ts| && ts[p].Identifier?
    ensures ts[p + 1] == Bang ==> StatementAt(ts, p) == Success(FunctionCall(ts[p].name), p + 2)
    ensures ts[p + 1] == Equals ==>
      StatementAt(ts, p)
      == match ExpressionAt(ts, p + 2)
         case Success(e, n) => Success(VariableAssignment(ts[p].name, e), n)
         case Failure(err) => Failure(err)
    ensures ts[p + 1] != Bang && ts[p + 1] != Equals ==>
      StatementAt(ts, p) == Failure(ExpectedEqualsOrBang(ts[p + 1]))
  {
    assert AssignmentAt(ts, p) == StatementAt(ts, p);
  }

  /** A body whose `}` is missing fails at the end of input, which starts no statement. */
  lemma UnclosedBody(a: Int32)
    ensures var ts := [W, Token.Number(a), LeftBrace, Token.Print, Token.Number(a), EndOfFile];
      ParseTokens(ts) == Err(ExpectedStatement(EndOfFile))
  {
    var ts := [W, Token.Number(a), LeftBrace, Token.Print, Token.Number(a), EndOfFile];
    var error := ExpectedStatement(EndOfFile);
    FactorOfLeaf(ts, 1);
    ExpressionOfFactor(ts, 1);
    UnclosedBlock(a);
    assert WhileAt(ts, 0) == Failure(error);
    assert StatementAt(ts, 0) == Failure(error);
    assert ProgramAt(ts, 0, []) == Failure(error);
  }

  /** The body of UnclosedBody: one statement, then the end of input where `}` should be. */
  lemma UnclosedBlock(a: Int32)
    ensures var ts := [W, Token.Number(a), LeftBrace, Token.Print, Token.Number(a), EndOfFile];
      BlockAt(ts, 3, []) == Failure(ExpectedStatement(EndOfFile))
  {
    var ts := [W, Token.Number(a), LeftBrace, Token.Print, Token.Number(a), EndOfFile];
    var statement := ASTNode.Print(ASTNode.Number(a));
    var error := ExpectedStatement(EndOfFile);
    FactorOfLeaf(ts, 4);
    ExpressionOfFactor(ts, 4);
    assert StatementAt(ts, 3) == Success(statement, 5);
    assert BlockAt(ts, 5, [statement]) == Failure(error);
    assert [] + [statement] == [statement];
  }

  // Tokens that start nothing

  /** The tokens `parse_statement` dispatches on: a keyword `v`, `w`, `i`, `f`, `p`, or a name. */
  predicate StartsStatement(t: Token) {
    t == V || t == W || t == I || t == F || t == Token.Print || t.Identifier?
  }

  /** The tokens `parse_factor` accepts: a literal, a name, `(`, `-` or `!`. */
  predicate StartsFactor(t: Token) {
    t.Number? || t.String? || t.Boolean? || t.Identifier? || t == LeftParen || t == Minus || t == Bang
  }

  /** Any other token where a statement should start (`Unknown`, `r`, a number, `)`, `EndOfFile`, ...) is rejected, naming that token. */
  lemma RejectedStatement(ts: seq<Token>, p: nat)
    requires WellFormed(ts) && p < |ts| && !StartsStatement(ts[p])
    ensures StatementAt(ts, p) == Failure(ExpectedStatement(ts[p]))
  {
  }

  /** Any other token where a factor should start (`Unknown`, `)`, `{`, an operator, `EndOfFile`, ...) is rejected, naming that token. */
  lemma RejectedFactor(ts: seq<Token>, p: nat)
    requires WellFormed(ts) && p < |ts| && !StartsFactor(ts[p])
    ensures FactorAt(ts, p) == Failure(ExpectedFactor(ts[p]))
  {
  }

  /** A body that reaches `EndOfFile` before its `}` fails, whatever statements it has collected. */
  lemma BlockAtEnd(ts: seq<Token>, p: nat, done: seq<ASTNode>)
    requires WellFormed(ts) && p < |ts| && ts[p] == EndOfFile
    ensures BlockAt(ts, p, done) == Failure(ExpectedStatement(EndOfFile))
  {
    RejectedStatement(ts, p);
  }

  /**
   * A script whose first token starts no statement and is not the end of
   * input, such as one that begins with an unknown character, does not parse.
   */
  lemma RejectedProgram(ts: seq<Token>)
    requires WellFormed(ts) && ts[0] != EndOfFile && !StartsStatement(ts[0])
    ensures ParseTokens(ts) == Err(ExpectedStatement(ts[0]))
  {
    RejectedStatement(ts, 0);
  }
}
