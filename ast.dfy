/**
 * The syntax tree the parser builds and the interpreter walks, with the two
 * comparisons defined on it: an equality that holds only between equal
 * number, string or identifier leaves, and an ordering defined only between
 * two numbers or two strings.
 */
module Ast {
  import opened Wrappers
  import opened Ints
  import Tokenizer

  datatype ASTNode =
    | Program(statements: seq<ASTNode>)
    | Number(number: Int32)
    | String(text: string)
    | Identifier(name: string)
    | VariableDeclaration(name: string, init: ASTNode)
    | VariableAssignment(name: string, expr: ASTNode)
    | FunctionCall(name: string)
    | FunctionDeclaration(name: string, body: seq<ASTNode>)
    | If(condition: ASTNode, body: seq<ASTNode>)
    | While(condition: ASTNode, body: seq<ASTNode>)
    | Print(expr: ASTNode)
    | Boolean(truth: bool)
    | Binary(left: ASTNode, op: Tokenizer.Token, right: ASTNode)
    | Unary(op: Tokenizer.Token, operand: ASTNode)

  datatype Ordering = Less | Equal | Greater

  /** The leaves the equality is defined on. */
  predicate IsComparableLeaf(a: ASTNode) {
    a.Number? || a.String? || a.Identifier?
  }

  /** `PartialEq::eq`: equal payloads of two numbers, two strings or two identifiers. */
  function NodeEq(a: ASTNode, b: ASTNode): bool {
    match (a, b)
    case (Number(x), Number(y)) => x == y
    case (String(x), String(y)) => x == y
    case (Identifier(x), Identifier(y)) => x == y
    case _ => false
  }

  /**
   * The equality is structural equality restricted to number, string and
   * identifier leaves: in particular it is not reflexive, since two equal
   * Booleans (or any two equal statements) compare unequal.
   */
  lemma NodeEqIsLeafEquality(a: ASTNode, b: ASTNode)
    ensures NodeEq(a, b) <==> a == b && IsComparableLeaf(a)
    ensures NodeEq(a, b) == NodeEq(b, a)
  {
  }

  function CompareInt(x: int, y: int): Ordering {
    if x < y then Less else if x == y then Equal else Greater
  }

  /** Lexicographic order on characters, shorter prefix first. */
  function CompareText(x: string, y: string): Ordering {
    if x == [] then (if y == [] then Equal else Less)
    else if y == [] then Greater
    else if x[0] < y[0] then Less
    else if x[0] > y[0] then Greater
    else CompareText(x[1..], y[1..])
  }

  /** The order on texts is antisymmetric and its `Equal` is equality. */
  lemma {:induction false} CompareTextProperties(x: string, y: string)
    ensures CompareText(x, y) == Equal <==> x == y
    ensures CompareText(x, y) == Less <==> CompareText(y, x) == Greater
  {
    if x != [] && y != [] && x[0] == y[0] {
      CompareTextProperties(x[1..], y[1..]);
      assert x == [x[0]] + x[1..] && y == [y[0]] + y[1..];
    }
  }

  /** `PartialOrd::partial_cmp`: defined for two numbers or two strings, and for nothing else. */
  function NodeCmp(a: ASTNode, b: ASTNode): Option<Ordering> {
    match (a, b)
    case (Number(x), Number(y)) => Some(CompareInt(x as int, y as int))
    case (String(x), String(y)) => Some(CompareText(x, y))
    case _ => None
  }

  /**
   * The ordering is defined exactly between two numbers or two strings; where
   * defined it is antisymmetric, and it answers `Equal` exactly when the
   * equality holds.
   */
  lemma NodeCmpProperties(a: ASTNode, b: ASTNode)
    ensures NodeCmp(a, b).Some? <==> (a.Number? && b.Number?) || (a.String? && b.String?)
    ensures NodeCmp(a, b) == Some(Less) <==> NodeCmp(b, a) == Some(Greater)
    ensures NodeCmp(a, b) == Some(Equal) <==> NodeEq(a, b) && !a.Identifier?
  {
    if a.String? && b.String? {
      CompareTextProperties(a.text, b.text);
    }
  }
}
