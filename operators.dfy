/**
 * The interpreter's operator helpers: what each binary and unary operator
 * does to the values it is given. Runtime values are the three leaves
 * `Number`, `String` and `Boolean`; every operand combination an operator
 * does not handle, and every `i32` result that does not fit, is an error.
 */
module Operators {
  import opened Wrappers
  import opened Ints
  import opened Tokenizer
  import opened Ast

  datatype RuntimeError =
    | VariableNotFound(name: string)
    | FunctionNotFound(name: string)
    | UnexpectedNode(node: ASTNode)
    | UnexpectedOperator(op: Token)
    | UnexpectedOperands(op: Token, left: ASTNode, right: ASTNode)
    | UnexpectedOperand(op: Token, operand: ASTNode)
    | DivisionByZero
    | Overflow
    | OutOfFuel

  /** The nodes evaluation produces. */
  predicate IsValue(v: ASTNode) {
    v.Number? || v.String? || v.Boolean?
  }

  /** An `i32` result, or the overflow Rust reports for it. */
  function Checked(x: int): (r: Result<ASTNode, RuntimeError>)
    ensures r.Ok? <==> InRange(x)
    ensures r.Ok? ==> r.value.Number? && r.value.number as int == x
    ensures r.Err? ==> r.error == Overflow
  {
    if InRange(x) then Ok(ASTNode.Number(x as Int32)) else Err(Overflow)
  }

  /** `evaluate_addition`: sum of two numbers, or concatenation of two strings. */
  function Add(l: ASTNode, r: ASTNode): Result<ASTNode, RuntimeError> {
    match (l, r)
    case (Number(a), Number(b)) => Checked(a as int + b as int)
    case (String(a), String(b)) => Ok(ASTNode.String(a + b))
    case _ => Err(UnexpectedOperands(Plus, l, r))
  }

  /** `evaluate_subtraction`. */
  function Subtract(l: ASTNode, r: ASTNode): Result<ASTNode, RuntimeError> {
    match (l, r)
    case (Number(a), Number(b)) => Checked(a as int - b as int)
    case _ => Err(UnexpectedOperands(Minus, l, r))
  }

  /** `evaluate_multiplication`. */
  function Multiply(l: ASTNode, r: ASTNode): Result<ASTNode, RuntimeError> {
    match (l, r)
    case (Number(a), Number(b)) => Checked(a as int * b as int)
    case _ => Err(UnexpectedOperands(Asterisk, l, r))
  }

  /** `evaluate_division`: Rust's `/` on `i32`, which fails on a zero divisor and on `MIN / -1`. */
  function Divide(l: ASTNode, r: ASTNode): Result<ASTNode, RuntimeError> {
    match (l, r)
    case (Number(a), Number(b)) =>
      if b == 0 then Err(DivisionByZero) else Checked(TruncDiv(a as int, b as int))
    case _ => Err(UnexpectedOperands(Slash, l, r))
  }

  /** `evaluate_modulo`: Rust's `%` on `i32`, which fails on a zero divisor and on `MIN % -1`. */
  function Remainder(l: ASTNode, r: ASTNode): Result<ASTNode, RuntimeError> {
    match (l, r)
    case (Number(a), Number(b)) =>
      if b == 0 then Err(DivisionByZero)
      else if a as int == MIN && b == -1 then Err(Overflow)
      else Checked(TruncRem(a as int, b as int))
    case _ => Err(UnexpectedOperands(Percent, l, r))
  }

  /**
   * `evaluate_equal` and `evaluate_equal_equal` (the two are the same code):
   * equality of two identifiers, numbers, strings or Booleans; `op` is the
   * operator named in the error.
   */
  function Equality(op: Token, l: ASTNode, r: ASTNode): Result<ASTNode, RuntimeError> {
    match (l, r)
    case (Identifier(a), Identifier(b)) => Ok(ASTNode.Boolean(a == b))
    case (Number(a), Number(b)) => Ok(ASTNode.Boolean(a == b))
    case (String(a), String(b)) => Ok(ASTNode.Boolean(a == b))
    case (Boolean(a), Boolean(b)) => Ok(ASTNode.Boolean(a == b))
    case _ => Err(UnexpectedOperands(op, l, r))
  }

  /** `evaluate_not_equal`, reached by `!=` and by a binary `!`. */
  function Inequality(op: Token, l: ASTNode, r: ASTNode): Result<ASTNode, RuntimeError> {
    match (l, r)
    case (Identifier(a), Identifier(b)) => Ok(ASTNode.Boolean(a != b))
    case (Number(a), Number(b)) => Ok(ASTNode.Boolean(a != b))
    case (String(a), String(b)) => Ok(ASTNode.Boolean(a != b))
    case (Boolean(a), Boolean(b)) => Ok(ASTNode.Boolean(a != b))
    case _ => Err(UnexpectedOperands(op, l, r))
  }

  /** `evaluate_less_than`, `evaluate_less_than_equals`, `evaluate_greater_than` and `evaluate_greater_than_equals`. */
  function Compare(op: Token, l: ASTNode, r: ASTNode): Result<ASTNode, RuntimeError>
    requires op in {LessThan, LessThanEquals, GreaterThan, GreaterThanEquals}
  {
    match (l, r)
    case (Number(a), Number(b)) =>
      Ok(ASTNode.Boolean(
        match op
        case LessThan => a < b
        case LessThanEquals => a <= b
        case GreaterThan => a > b
        case _ => a >= b))
    case _ => Err(UnexpectedOperands(op, l, r))
  }

  /** `evaluate_and` and `evaluate_or`: both operands are already evaluated. */
  function Logic(op: Token, l: ASTNode, r: ASTNode): Result<ASTNode, RuntimeError>
    requires op == And || op == Or
  {
    match (l, r)
    case (Boolean(a), Boolean(b)) => Ok(ASTNode.Boolean(if op == And then a && b else a || b))
    case _ => Err(UnexpectedOperands(op, l, r))
  }

  /** `evaluate_binary_operation`: dispatch on the operator token. */
  function BinaryOp(l: ASTNode, op: Token, r: ASTNode): (res: Result<ASTNode, RuntimeError>)
    ensures res.Ok? ==> IsValue(res.value)
    ensures res.Ok? ==> (res.value.Boolean? <==> op !in {Plus, Minus, Asterisk, Slash, Percent})
  {
    match op
    case Plus => Add(l, r)
    case Minus => Subtract(l, r)
    case Asterisk => Multiply(l, r)
    case Slash => Divide(l, r)
    case Percent => Remainder(l, r)
    case Equals => Equality(op, l, r)
    case EqualEqual => Equality(op, l, r)
    case Bang => Inequality(op, l, r)
    case NotEqual => Inequality(op, l, r)
    case LessThan => Compare(op, l, r)
    case LessThanEquals => Compare(op, l, r)
    case GreaterThan => Compare(op, l, r)
    case GreaterThanEquals => Compare(op, l, r)
    case And => Logic(op, l, r)
    case Or => Logic(op, l, r)
    case _ => Err(UnexpectedOperator(op))
  }

  /** `evaluate_negation`. */
  function Negate(v: ASTNode): Result<ASTNode, RuntimeError> {
    match v
    case Number(a) => Checked(-(a as int))
    case _ => Err(UnexpectedOperand(Minus, v))
  }

  /** `evaluate_not`. */
  function Not(v: ASTNode): Result<ASTNode, RuntimeError> {
    match v
    case Boolean(b) => Ok(ASTNode.Boolean(!b))
    case _ => Err(UnexpectedOperand(Bang, v))
  }

  /** `evaluate_unary_operation`. */
  function UnaryOp(op: Token, v: ASTNode): (res: Result<ASTNode, RuntimeError>)
    ensures res.Ok? ==> IsValue(res.value)
    ensures res.Ok? ==>
      || (op == Minus && v.Number? && res.value.Number? && res.value.number as int == -(v.number as int))
      || (op == Bang && v.Boolean? && res.value == ASTNode.Boolean(!v.truth))
  {
    match op
    case Minus => Negate(v)
    case Bang => Not(v)
    case _ => Err(UnexpectedOperator(op))
  }

  /** `stringify_value`: the printed text of a value. */
  function Stringify(v: ASTNode): (r: Result<string, RuntimeError>)
    ensures r.Ok? <==> IsValue(v)
  {
    match v
    case Number(n) => Ok(IntToDecimal(n as int))
    case String(s) => Ok(s)
    case Boolean(b) => Ok(if b then "true" else "false")
    case _ => Err(UnexpectedNode(v))
  }
}
