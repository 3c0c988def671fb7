/**
 * The recursive-descent parser.
 *
 * The functions ending in `At` describe what each parsing routine does when
 * started at position `p` of the token list: the node it builds and the
 * position after it, or the error it reports. The class `Parser` is the
 * parser itself: one cursor over the token list, advanced by `Consume` and
 * `NextToken`, with loops that fold binary operators and collect statements;
 * each of its methods is proved to do what the matching function describes.
 * Where a routine consumes the very token it has just looked at (an operator
 * in a fold loop, the `(`, `-` or `!` that starts a factor), consuming cannot
 * fail, so the functions step straight to `p + 1`.
 *
 * Precedence, from loosest to tightest:
 *   expression  `&` `|` between simple expressions
 *   simple      `+ - * / % < > <= >= == != =` between terms, one flat tier
 *   term        `=` `!=` between factors
 *   factor      a literal, an identifier, `( expression )`,
 *               or `-`/`!` applied to a whole expression
 */
module Parser {
  import opened Wrappers
  import opened Tokenizer
  import opened Ast

  datatype ParseError =
    | ExpectedStatement(got: Token)
    | ExpectedEqualsOrBang(got: Token)
    | ExpectedFactor(got: Token)
    | ExpectedToken(expected: Token, got: Token)
    | ExpectedIdentifier(got: Token)
    | NoMoreTokens

  /** What a routine built and where the cursor stands after it. */
  datatype Parsed<T> = Parsed(value: T, next: nat)

  /** The outcome of a routine started at some position; usable with `:-`. */
  datatype Attempt<T> = Success(value: T, next: nat) | Failure(error: ParseError) {

    predicate IsFailure() {
      Failure?
    }

    function PropagateFailure<U>(): Attempt<U>
      requires Failure?
    {
      Failure(error)
    }

    function Extract(): Parsed<T>
      requires Success?
    {
      Parsed(value, next)
    }
  }

  /** The token lists the scanner produces: non-empty and ending in `EndOfFile`. */
  predicate WellFormed(ts: seq<Token>) {
    |ts| > 0 && ts[|ts| - 1] == EndOfFile
  }

  predicate IsLogicalOperator(t: Token) {
    t == And || t == Or
  }

  /** The operators of the flat simple-expression tier. */
  predicate IsSimpleOperator(t: Token) {
    || t == Plus || t == Minus || t == Asterisk || t == Slash || t == Percent
    || t == LessThan || t == GreaterThan || t == LessThanEquals || t == GreaterThanEquals
    || t == EqualEqual || t == NotEqual || t == Equals
  }

  /** The operators folded between factors. */
  predicate IsTermOperator(t: Token) {
    t == Equals || t == NotEqual
  }

  // Cursor primitives

  /** `consume`: step over the current token if it is `t`. */
  function ConsumeAt(ts: seq<Token>, p: nat, t: Token): (r: Attempt<Token>)
    requires WellFormed(ts) && p < |ts| && t != EndOfFile
    ensures r.Success? <==> ts[p] == t
    ensures r.Success? ==> r.value == t && r.next == p + 1 && r.next < |ts|
    ensures r.Failure? ==> r.error == ExpectedToken(t, ts[p])
  {
    if ts[p] == t then Success(t, p + 1) else Failure(ExpectedToken(t, ts[p]))
  }

  /** `next_token`: step forward unless the cursor is on the last token. */
  function NextTokenAt(ts: seq<Token>, p: nat): (r: Attempt<()>)
    requires p < |ts|
    ensures r.Success? <==> p < |ts| - 1
    ensures r.Success? ==> r.next == p + 1
  {
    if p < |ts| - 1 then Success((), p + 1) else Failure(NoMoreTokens)
  }

  /**
   * `consume_identifier`: take the name of the current identifier. On a
   * well-formed list it cannot run off the end, since the last token is not
   * an identifier.
   */
  function ConsumeIdentifierAt(ts: seq<Token>, p: nat): (r: Attempt<string>)
    requires WellFormed(ts) && p < |ts|
    ensures r.Success? <==> ts[p].Identifier?
    ensures r.Success? ==> r.value == ts[p].name && r.next == p + 1 && r.next < |ts|
  {
    if ts[p].Identifier? then
      Success(ts[p].name, NextTokenAt(ts, p).next)
    else
      Failure(ExpectedIdentifier(ts[p]))
  }

  // Expressions

  /** `parse_expression`: simple expressions joined by `&` and `|`, folded to the left. */
  function ExpressionAt(ts: seq<Token>, p: nat): (r: Attempt<ASTNode>)
    requires WellFormed(ts) && p < |ts|
    ensures r.Success? ==> p < r.next < |ts|
    ensures r.Success? ==> !IsSimpleOperator(ts[r.next]) && !IsLogicalOperator(ts[r.next])
    decreases |ts| - p, 4
  {
    var left :- SimpleExpressionAt(ts, p);
    ExpressionTail(ts, left.next, left.value)
  }

  /** The loop of `parse_expression`, with `left` folded so far. */
  function ExpressionTail(ts: seq<Token>, p: nat, left: ASTNode): (r: Attempt<ASTNode>)
    requires WellFormed(ts) && p < |ts| && !IsSimpleOperator(ts[p])
    ensures r.Success? ==> p <= r.next < |ts|
    ensures r.Success? ==> !IsSimpleOperator(ts[r.next]) && !IsLogicalOperator(ts[r.next])
    decreases |ts| - p, 0
  {
    if IsLogicalOperator(ts[p]) then
      var op := ts[p];
      var right :- SimpleExpressionAt(ts, p + 1);
      ExpressionTail(ts, right.next, Binary(left, op, right.value))
    else
      Success(left, p)
  }

  /** `parse_simple_expression`: terms joined by the flat-tier operators, folded to the left. */
  function SimpleExpressionAt(ts: seq<Token>, p: nat): (r: Attempt<ASTNode>)
    requires WellFormed(ts) && p < |ts|
    ensures r.Success? ==> p < r.next < |ts| && !IsSimpleOperator(ts[r.next])
    decreases |ts| - p, 3
  {
    var left :- TermAt(ts, p);
    SimpleTail(ts, left.next, left.value)
  }

  /** The loop of `parse_simple_expression`, with `left` folded so far. */
  function SimpleTail(ts: seq<Token>, p: nat, left: ASTNode): (r: Attempt<ASTNode>)
    requires WellFormed(ts) && p < |ts|
    ensures r.Success? ==> p <= r.next < |ts| && !IsSimpleOperator(ts[r.next])
    decreases |ts| - p, 0
  {
    if IsSimpleOperator(ts[p]) then
      var op := ts[p];
      var right :- TermAt(ts, p + 1);
      SimpleTail(ts, right.next, Binary(left, op, right.value))
    else
      Success(left, p)
  }

  /** `parse_term`: factors joined by `=` and `!=`, folded to the left. */
  function TermAt(ts: seq<Token>, p: nat): (r: Attempt<ASTNode>)
    requires WellFormed(ts) && p < |ts|
    ensures r.Success? ==> p < r.next < |ts| && !IsTermOperator(ts[r.next])
    decreases |ts| - p, 2
  {
    var left :- FactorAt(ts, p);
    TermTail(ts, left.next, left.value)
  }

  /** The loop of `parse_term`, with `left` folded so far. */
  function TermTail(ts: seq<Token>, p: nat, left: ASTNode): (r: Attempt<ASTNode>)
    requires WellFormed(ts) && p < |ts|
    ensures r.Success? ==> p <= r.next < |ts| && !IsTermOperator(ts[r.next])
    decreases |ts| - p, 0
  {
    if IsTermOperator(ts[p]) then
      var op := ts[p];
      var right :- FactorAt(ts, p + 1);
      TermTail(ts, right.next, Binary(left, op, right.value))
    else
      Success(left, p)
  }

  /** One turn of the `&`/`|` fold: it fails as the simple expression after the operator fails, or goes on after it. */
  lemma ExpressionTailStep(ts: seq<Token>, p: nat, left: ASTNode)
    requires WellFormed(ts) && p < |ts| && IsLogicalOperator(ts[p]) && !IsSimpleOperator(ts[p])
    ensures p + 1 < |ts|
    ensures SimpleExpressionAt(ts, p + 1).Failure? ==>
      ExpressionTail(ts, p, left) == Failure(SimpleExpressionAt(ts, p + 1).error)
    ensures SimpleExpressionAt(ts, p + 1).Success? ==>
      ExpressionTail(ts, p, left) ==
      ExpressionTail(ts, SimpleExpressionAt(ts, p + 1).next, Binary(left, ts[p], SimpleExpressionAt(ts, p + 1).value))
  {
  }

  /** One turn of the flat-tier fold: it fails as the term after the operator fails, or goes on after it. */
  lemma SimpleTailStep(ts: seq<Token>, p: nat, left: ASTNode)
    requires WellFormed(ts) && p < |ts| && IsSimpleOperator(ts[p])
    ensures p + 1 < |ts|
    ensures TermAt(ts, p + 1).Failure? ==> SimpleTail(ts, p, left) == Failure(TermAt(ts, p + 1).error)
    ensures TermAt(ts, p + 1).Success? ==>
      SimpleTail(ts, p, left) == SimpleTail(ts, TermAt(ts, p + 1).next, Binary(left, ts[p], TermAt(ts, p + 1).value))
  {
  }

  /** One turn of the `=`/`!=` fold: it fails as the factor after the operator fails, or goes on after it. */
  lemma TermTailStep(ts: seq<Token>, p: nat, left: ASTNode)
    requires WellFormed(ts) && p < |ts| && IsTermOperator(ts[p])
    ensures p + 1 < |ts|
    ensures FactorAt(ts, p + 1).Failure? ==> TermTail(ts, p, left) == Failure(FactorAt(ts, p + 1).error)
    ensures FactorAt(ts, p + 1).Success? ==>
      TermTail(ts, p, left) == TermTail(ts, FactorAt(ts, p + 1).next, Binary(left, ts[p], FactorAt(ts, p + 1).value))
  {
  }

  /** `parse_factor`. */
  function FactorAt(ts: seq<Token>, p: nat): (r: Attempt<ASTNode>)
    requires WellFormed(ts) && p < |ts|
    ensures r.Success? ==> p < r.next < |ts|
    decreases |ts| - p, 1
  {
    match ts[p]
    case Number(v) => Success(ASTNode.Number(v), NextTokenAt(ts, p).next)
    case String(s) => Success(ASTNode.String(s), NextTokenAt(ts, p).next)
    case Boolean(b) => Success(ASTNode.Boolean(b), NextTokenAt(ts, p).next)
    case Identifier(n) => Success(ASTNode.Identifier(n), NextTokenAt(ts, p).next)
    case LeftParen => Parenthesised(ts, ExpressionAt(ts, p + 1))
    case Minus => Prefixed(Minus, ExpressionAt(ts, p + 1))
    case Bang => Prefixed(Bang, ExpressionAt(ts, p + 1))
    case _ => Failure(ExpectedFactor(ts[p]))
  }

  /** The rest of a parenthesised factor: the inner expression, then `)`. */
  function Parenthesised(ts: seq<Token>, inner: Attempt<ASTNode>): (r: Attempt<ASTNode>)
    requires WellFormed(ts) && (inner.Success? ==> inner.next < |ts|)
    ensures r.Success? ==> inner.Success? && r.next == inner.next + 1 && r.next < |ts|
  {
    var parsed :- inner;
    var close :- ConsumeAt(ts, parsed.next, RightParen);
    Success(parsed.value, close.next)
  }

  /** The rest of a `-` or `!` factor: the operand expression. */
  function Prefixed(op: Token, operand: Attempt<ASTNode>): (r: Attempt<ASTNode>)
    ensures r.Success? ==> operand.Success? && r.next == operand.next
  {
    var parsed :- operand;
    Success(Unary(op, parsed.value), parsed.next)
  }

  // Statements

  /** `parse_statement`: dispatch on the token that starts the statement. */
  function StatementAt(ts: seq<Token>, p: nat): (r: Attempt<ASTNode>)
    requires WellFormed(ts) && p < |ts|
    ensures r.Success? ==> p < r.next < |ts|
    decreases |ts| - p, 6
  {
    match ts[p]
    case V => VariableDeclarationAt(ts, p)
    case W => WhileAt(ts, p)
    case I => IfAt(ts, p)
    case F => FunctionDeclarationAt(ts, p)
    case Print => PrintAt(ts, p)
    case Identifier(_) => AssignmentAt(ts, p)
    case _ => Failure(ExpectedStatement(ts[p]))
  }

  /** `parse_variable_declaration`: `v name = expression`. */
  function VariableDeclarationAt(ts: seq<Token>, p: nat): (r: Attempt<ASTNode>)
    requires WellFormed(ts) && p < |ts|
    ensures r.Success? ==> p < r.next < |ts|
    decreases |ts| - p, 5
  {
    var keyword :- ConsumeAt(ts, p, V);
    var name :- ConsumeIdentifierAt(ts, keyword.next);
    var equals :- ConsumeAt(ts, name.next, Equals);
    var init :- ExpressionAt(ts, equals.next);
    Success(VariableDeclaration(name.value, init.value), init.next)
  }

  /** `parse_while`: `w condition { statements }`. */
  function WhileAt(ts: seq<Token>, p: nat): (r: Attempt<ASTNode>)
    requires WellFormed(ts) && p < |ts|
    ensures r.Success? ==> p < r.next < |ts|
    decreases |ts| - p, 5
  {
    var keyword :- ConsumeAt(ts, p, W);
    var condition :- ExpressionAt(ts, keyword.next);
    var open :- ConsumeAt(ts, condition.next, LeftBrace);
    var body :- BlockAt(ts, open.next, []);
    Success(While(condition.value, body.value), body.next)
  }

  /** `parse_if`: `i condition { statements }`. */
  function IfAt(ts: seq<Token>, p: nat): (r: Attempt<ASTNode>)
    requires WellFormed(ts) && p < |ts|
    ensures r.Success? ==> p < r.next < |ts|
    decreases |ts| - p, 5
  {
    var keyword :- ConsumeAt(ts, p, I);
    var condition :- ExpressionAt(ts, keyword.next);
    var open :- ConsumeAt(ts, condition.next, LeftBrace);
    var body :- BlockAt(ts, open.next, []);
    Success(If(condition.value, body.value), body.next)
  }

  /** `parse_function_declaration`: `f name { statements }`. */
  function FunctionDeclarationAt(ts: seq<Token>, p: nat): (r: Attempt<ASTNode>)
    requires WellFormed(ts) && p < |ts|
    ensures r.Success? ==> p < r.next < |ts|
    decreases |ts| - p, 5
  {
    var keyword :- ConsumeAt(ts, p, F);
    var name :- ConsumeIdentifierAt(ts, keyword.next);
    var open :- ConsumeAt(ts, name.next, LeftBrace);
    var body :- BlockAt(ts, open.next, []);
    Success(FunctionDeclaration(name.value, body.value), body.next)
  }

  /** `parse_print`: `p expression`. */
  function PrintAt(ts: seq<Token>, p: nat): (r: Attempt<ASTNode>)
    requires WellFormed(ts) && p < |ts|
    ensures r.Success? ==> p < r.next < |ts|
    decreases |ts| - p, 5
  {
    var keyword :- ConsumeAt(ts, p, Token.Print);
    var expr :- ExpressionAt(ts, keyword.next);
    Success(ASTNode.Print(expr.value), expr.next)
  }

  /** `parse_assignment`: `name = expression` or the call `name!`. */
  function AssignmentAt(ts: seq<Token>, p: nat): (r: Attempt<ASTNode>)
    requires WellFormed(ts) && p < |ts|
    ensures r.Success? ==> p < r.next < |ts|
    decreases |ts| - p, 5
  {
    var name :- ConsumeIdentifierAt(ts, p);
    var q := name.next;
    if ts[q] == Equals then
      var expr :- ExpressionAt(ts, ConsumeAt(ts, q, Equals).next);
      Success(VariableAssignment(name.value, expr.value), expr.next)
    else if ts[q] == Bang then
      Success(FunctionCall(name.value), ConsumeAt(ts, q, Bang).next)
    else
      Failure(ExpectedEqualsOrBang(ts[q]))
  }

  /**
   * The statement loop of a `w`, `i` or `f` body, with `done` collected so
   * far: statements up to the closing `}`, which is then consumed.
   */
  function BlockAt(ts: seq<Token>, p: nat, done: seq<ASTNode>): (r: Attempt<seq<ASTNode>>)
    requires WellFormed(ts) && p < |ts|
    ensures r.Success? ==> p < r.next < |ts| && ts[r.next - 1] == RightBrace
    ensures r.Success? ==> done <= r.value
    decreases |ts| - p, 7
  {
    if ts[p] != RightBrace then
      var statement :- StatementAt(ts, p);
      BlockAt(ts, statement.next, done + [statement.value])
    else
      Success(done, ConsumeAt(ts, p, RightBrace).next)
  }

  /** The statement loop of `parse`: statements up to the first `EndOfFile`. */
  function ProgramAt(ts: seq<Token>, p: nat, done: seq<ASTNode>): (r: Attempt<seq<ASTNode>>)
    requires WellFormed(ts) && p < |ts|
    ensures r.Success? ==> p <= r.next < |ts| && ts[r.next] == EndOfFile
    ensures r.Success? ==> done <= r.value
    decreases |ts| - p, 7
  {
    if ts[p] != EndOfFile then
      var statement :- StatementAt(ts, p);
      ProgramAt(ts, statement.next, done + [statement.value])
    else
      Success(done, p)
  }

  /** The loop of `parse` from position `p`, wrapped in a `Program`. */
  function ProgramNodeAt(ts: seq<Token>, p: nat): (r: Attempt<ASTNode>)
    requires WellFormed(ts) && p < |ts|
    ensures r.Success? ==> r.value.Program? && r.next < |ts| && ts[r.next] == EndOfFile
  {
    var statements :- ProgramAt(ts, p, []);
    Success(Program(statements.value), statements.next)
  }

  /** `parse`: a `Program` of the statements before `EndOfFile`, or the first error. */
  function ParseTokens(ts: seq<Token>): (r: Result<ASTNode, ParseError>)
    requires WellFormed(ts)
    ensures r.Ok? ==> r.value.Program?
  {
    match ProgramNodeAt(ts, 0)
    case Success(program, _) => Ok(program)
    case Failure(e) => Err(e)
  }

  /** A method's result and final cursor are those the function describes. */
  predicate Agrees<T(==)>(r: Result<T, ParseError>, s: Attempt<T>, cursor: nat) {
    match s
    case Success(v, n) => r == Ok(v) && cursor == n
    case Failure(e) => r == Err(e)
  }

  /** The parser: the token list and a cursor into it. */
  class Parser {
    const tokens: seq<Token>
    var current: nat

    ghost predicate Valid()
      reads this
    {
      WellFormed(tokens) && current < |tokens|
    }

    constructor (tokens: seq<Token>)
      requires WellFormed(tokens)
      ensures Valid() && this.tokens == tokens && current == 0
    {
      this.tokens := tokens;
      current := 0;
    }

    /** `current_token`: the token under the cursor, which is `EndOfFile` at the last position. */
    function CurrentToken(): (t: Token)
      reads this
      requires Valid()
      ensures current == |tokens| - 1 ==> t == EndOfFile
    {
      tokens[current]
    }

    method Consume(t: Token) returns (r: Result<Token, ParseError>)
      requires Valid() && t != EndOfFile
      modifies this
      ensures Valid()
      ensures Agrees(r, ConsumeAt(tokens, old(current), t), current)
    {
      if CurrentToken() == t {
        current := current + 1;
        r := Ok(t);
      } else {
        r := Err(ExpectedToken(t, CurrentToken()));
      }
    }

    method NextToken() returns (r: Result<(), ParseError>)
      requires Valid()
      modifies this
      ensures Valid()
      ensures Agrees(r, NextTokenAt(tokens, old(current)), current)
    {
      if current < |tokens| - 1 {
        current := current + 1;
        r := Ok(());
      } else {
        r := Err(NoMoreTokens);
      }
    }

    method ConsumeIdentifier() returns (r: Result<string, ParseError>)
      requires Valid()
      modifies this
      ensures Valid()
      ensures Agrees(r, ConsumeIdentifierAt(tokens, old(current)), current)
    {
      if CurrentToken().Identifier? {
        var name := CurrentToken().name;
        var moved := NextToken();
        assert moved.Ok?;
        r := Ok(name);
      } else {
        r := Err(ExpectedIdentifier(CurrentToken()));
      }
    }

    method ParseExpression() returns (r: Result<ASTNode, ParseError>)
      requires Valid()
      modifies this
      ensures Valid()
      ensures Agrees(r, ExpressionAt(tokens, old(current)), current)
      decreases |tokens| - current, 4
    {
      var left :- ParseSimpleExpression();
      while IsLogicalOperator(CurrentToken())
        invariant Valid() && old(current) < current && !IsSimpleOperator(CurrentToken())
        invariant ExpressionAt(tokens, old(current)) == ExpressionTail(tokens, current, left)
        decreases |tokens| - current
      {
        var op := CurrentToken();
        ExpressionTailStep(tokens, current, left);
        var consumed := Consume(op);
        assert consumed.Ok?;
        var right :- ParseSimpleExpression();
        left := Binary(left, op, right);
      }
      r := Ok(left);
    }

    method ParseSimpleExpression() returns (r: Result<ASTNode, ParseError>)
      requires Valid()
      modifies this
      ensures Valid()
      ensures Agrees(r, SimpleExpressionAt(tokens, old(current)), current)
      decreases |tokens| - current, 3
    {
      var left :- ParseTerm();
      while IsSimpleOperator(CurrentToken())
        invariant Valid() && old(current) < current
        invariant SimpleExpressionAt(tokens, old(current)) == SimpleTail(tokens, current, left)
        decreases |tokens| - current
      {
        var op := CurrentToken();
        SimpleTailStep(tokens, current, left);
        var consumed := Consume(op);
        assert consumed.Ok?;
        var right :- ParseTerm();
        left := Binary(left, op, right);
      }
      r := Ok(left);
    }

    method ParseTerm() returns (r: Result<ASTNode, ParseError>)
      requires Valid()
      modifies this
      ensures Valid()
      ensures Agrees(r, TermAt(tokens, old(current)), current)
      decreases |tokens| - current, 2
    {
      var left :- ParseFactor();
      while IsTermOperator(CurrentToken())
        invariant Valid() && old(current) < current
        invariant TermAt(tokens, old(current)) == TermTail(tokens, current, left)
        decreases |tokens| - current
      {
        var op := CurrentToken();
        TermTailStep(tokens, current, left);
        var consumed := Consume(op);
        assert consumed.Ok?;
        var right :- ParseFactor();
        left := Binary(left, op, right);
      }
      r := Ok(left);
    }

    method ParseFactor() returns (r: Result<ASTNode, ParseError>)
      requires Valid()
      modifies this
      ensures Valid()
      ensures Agrees(r, FactorAt(tokens, old(current)), current)
      decreases |tokens| - current, 1
    {
      match CurrentToken() {
        case Number(v) =>
          var moved := NextToken();
          assert moved.Ok?;
          r := Ok(ASTNode.Number(v));
        case String(s) =>
          var moved := NextToken();
          assert moved.Ok?;
          r := Ok(ASTNode.String(s));
        case Boolean(b) =>
          var moved := NextToken();
          assert moved.Ok?;
          r := Ok(ASTNode.Boolean(b));
        case Identifier(n) =>
          var moved := NextToken();
          assert moved.Ok?;
          r := Ok(ASTNode.Identifier(n));
        case LeftParen =>
          r := ParseParenthesised();
        case Minus =>
          r := ParsePrefixed(Minus);
        case Bang =>
          r := ParsePrefixed(Bang);
        case _ =>
          r := Err(ExpectedFactor(CurrentToken()));
      }
    }

    /** The `(` branch of `parse_factor`. */
    method ParseParenthesised() returns (r: Result<ASTNode, ParseError>)
      requires Valid() && tokens[current] == LeftParen
      modifies this
      ensures Valid()
      ensures Agrees(r, Parenthesised(tokens, ExpressionAt(tokens, old(current) + 1)), current)
      decreases |tokens| - current, 0
    {
      var open := Consume(LeftParen);
      assert open.Ok?;
      var inner :- ParseExpression();
      var close :- Consume(RightParen);
      r := Ok(inner);
    }

    /** The `-` and `!` branches of `parse_factor`. */
    method ParsePrefixed(op: Token) returns (r: Result<ASTNode, ParseError>)
      requires Valid() && tokens[current] == op && (op == Minus || op == Bang)
      modifies this
      ensures Valid()
      ensures Agrees(r, Prefixed(op, ExpressionAt(tokens, old(current) + 1)), current)
      decreases |tokens| - current, 0
    {
      var consumed := Consume(op);
      assert consumed.Ok?;
      var operand :- ParseExpression();
      r := Ok(Unary(op, operand));
    }

    method ParseStatement() returns (r: Result<ASTNode, ParseError>)
      requires Valid()
      modifies this
      ensures Valid()
      ensures Agrees(r, StatementAt(tokens, old(current)), current)
      decreases |tokens| - current, 6
    {
      match CurrentToken() {
        case V => r := ParseVariableDeclaration();
        case W => r := ParseWhile();
        case I => r := ParseIf();
        case F => r := ParseFunctionDeclaration();
        case Print => r := ParsePrint();
        case Identifier(_) => r := ParseAssignment();
        case _ => r := Err(ExpectedStatement(CurrentToken()));
      }
    }

    method ParseVariableDeclaration() returns (r: Result<ASTNode, ParseError>)
      requires Valid()
      modifies this
      ensures Valid()
      ensures Agrees(r, VariableDeclarationAt(tokens, old(current)), current)
      decreases |tokens| - current, 5
    {
      var _ :- Consume(V);
      var name :- ConsumeIdentifier();
      var _ :- Consume(Equals);
      var init :- ParseExpression();
      r := Ok(VariableDeclaration(name, init));
    }

    method ParseWhile() returns (r: Result<ASTNode, ParseError>)
      requires Valid()
      modifies this
      ensures Valid()
      ensures Agrees(r, WhileAt(tokens, old(current)), current)
      decreases |tokens| - current, 5
    {
      var _ :- Consume(W);
      var condition :- ParseExpression();
      var _ :- Consume(LeftBrace);
      var body :- ParseBlock();
      r := Ok(While(condition, body));
    }

    method ParseIf() returns (r: Result<ASTNode, ParseError>)
      requires Valid()
      modifies this
      ensures Valid()
      ensures Agrees(r, IfAt(tokens, old(current)), current)
      decreases |tokens| - current, 5
    {
      var _ :- Consume(I);
      var condition :- ParseExpression();
      var _ :- Consume(LeftBrace);
      var body :- ParseBlock();
      r := Ok(If(condition, body));
    }

    method ParseFunctionDeclaration() returns (r: Result<ASTNode, ParseError>)
      requires Valid()
      modifies this
      ensures Valid()
      ensures Agrees(r, FunctionDeclarationAt(tokens, old(current)), current)
      decreases |tokens| - current, 5
    {
      var _ :- Consume(F);
      var name :- ConsumeIdentifier();
      var _ :- Consume(LeftBrace);
      var body :- ParseBlock();
      r := Ok(FunctionDeclaration(name, body));
    }

    method ParsePrint() returns (r: Result<ASTNode, ParseError>)
      requires Valid()
      modifies this
      ensures Valid()
      ensures Agrees(r, PrintAt(tokens, old(current)), current)
      decreases |tokens| - current, 5
    {
      var _ :- Consume(Token.Print);
      var expr :- ParseExpression();
      r := Ok(ASTNode.Print(expr));
    }

    method ParseAssignment() returns (r: Result<ASTNode, ParseError>)
      requires Valid()
      modifies this
      ensures Valid()
      ensures Agrees(r, AssignmentAt(tokens, old(current)), current)
      decreases |tokens| - current, 5
    {
      var name :- ConsumeIdentifier();
      if CurrentToken() == Equals {
        var equals := Consume(Equals);
        assert equals.Ok?;
        var expr :- ParseExpression();
        r := Ok(VariableAssignment(name, expr));
      } else if CurrentToken() == Bang {
        var bang := Consume(Bang);
        assert bang.Ok?;
        r := Ok(FunctionCall(name));
      } else {
        r := Err(ExpectedEqualsOrBang(CurrentToken()));
      }
    }

    /** The statement loop shared by `w`, `i` and `f` bodies, and the closing `}`. */
    method ParseBlock() returns (r: Result<seq<ASTNode>, ParseError>)
      requires Valid()
      modifies this
      ensures Valid()
      ensures Agrees(r, BlockAt(tokens, old(current), []), current)
      decreases |tokens| - current, 7
    {
      var statements: seq<ASTNode> := [];
      while CurrentToken() != RightBrace
        invariant Valid() && old(current) <= current
        invariant BlockAt(tokens, old(current), []) == BlockAt(tokens, current, statements)
        decreases |tokens| - current
      {
        var statement :- ParseStatement();
        statements := statements + [statement];
      }
      var close := Consume(RightBrace);
      assert close.Ok?;
      r := Ok(statements);
    }

    /** The statement loop of `parse`. */
    method Parse() returns (r: Result<ASTNode, ParseError>)
      requires Valid()
      modifies this
      ensures Valid()
      ensures Agrees(r, ProgramNodeAt(tokens, old(current)), current)
    {
      var statements: seq<ASTNode> := [];
      while CurrentToken() != EndOfFile
        invariant Valid() && old(current) <= current
        invariant ProgramAt(tokens, old(current), []) == ProgramAt(tokens, current, statements)
        decreases |tokens| - current
      {
        var statement :- ParseStatement();
        statements := statements + [statement];
      }
      r := Ok(Program(statements));
    }
  }

  /** `parse`: a fresh parser at the first token. */
  method Parse(tokens: seq<Token>) returns (r: Result<ASTNode, ParseError>)
    requires WellFormed(tokens)
    ensures r == ParseTokens(tokens)
  {
    var parser := new Parser(tokens);
    r := parser.Parse();
  }
}
