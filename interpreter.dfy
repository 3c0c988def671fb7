/**
 * The tree-walking interpreter: one flat environment from names to stored
 * nodes, shared by every statement and every function body, and the lines
 * printed so far.
 *
 * Scripts need not terminate (`v x = x` then `p x`, a `w` loop whose
 * condition stays true, a function that calls itself), so every definition
 * here takes a `fuel` bound and reports `OutOfFuel` when it is spent:
 *   - evaluation spends one unit each time it follows a name to its stored node;
 *   - a statement spends one unit before it runs, so `fuel` bounds the depth
 *     of statement nesting and function calls;
 *   - a `w` loop spends one unit per iteration.
 * With enough fuel every terminating run is described exactly.
 */
module Interpreter {
  import opened Wrappers
  import opened Ints
  import opened Tokenizer
  import opened Ast
  import opened Operators

  type Env = map<string, ASTNode>

  /** `evaluate_expression`: reduce an expression to a value, reading names as they are bound now. */
  function Eval(env: Env, e: ASTNode, fuel: nat): (r: Result<ASTNode, RuntimeError>)
    ensures r.Ok? ==> IsValue(r.value)
    decreases fuel, e
  {
    match e
    case Binary(left, op, right) =>
      var l :- Eval(env, left, fuel);
      var r :- Eval(env, right, fuel);
      BinaryOp(l, op, r)
    case Unary(op, operand) =>
      var v :- Eval(env, operand, fuel);
      UnaryOp(op, v)
    case Boolean(_) => Ok(e)
    case String(_) => Ok(e)
    case Number(_) => Ok(e)
    case Identifier(name) =>
      if name !in env then Err(VariableNotFound(name))
      else if fuel == 0 then Err(OutOfFuel)
      else Eval(env, env[name], fuel - 1)
    case FunctionCall(name) =>
      if name !in env then Err(FunctionNotFound(name))
      else if fuel == 0 then Err(OutOfFuel)
      else Eval(env, env[name], fuel - 1)
    case _ => Err(UnexpectedNode(e))
  }

  /** The test `if` and `while` apply: the value prints as `true`. */
  predicate IsTrue(v: ASTNode) {
    Stringify(v) == Ok("true")
  }

  /** The interpreter's state: the environment and the lines printed so far. */
  datatype State = State(variables: Env, output: seq<string>)

  /** What running a statement may do to the state: add or rebind names, and append lines. */
  predicate Grows(before: State, after: State) {
    before.variables.Keys <= after.variables.Keys && before.output <= after.output
  }

  /**
   * A run stopped by a panic: the error, and the state reached when it
   * struck. The lines in that state were printed before the panic and stay
   * printed.
   */
  datatype Halt = Halt(error: RuntimeError, reached: State)

  /** An evaluation error stops the run in state `st`. */
  function StopIn<T>(st: State, r: Result<T, RuntimeError>): (s: Result<T, Halt>)
    ensures s.Ok? <==> r.Ok?
    ensures s.Ok? ==> s.value == r.value
    ensures s.Err? ==> s.error == Halt(r.error, st)
  {
    match r
    case Ok(v) => Ok(v)
    case Err(e) => Err(Halt(e, st))
  }

  /** `interpret`: run one statement. Whether it finishes or panics, it only adds names and lines. */
  function Exec(st: State, s: ASTNode, fuel: nat): (r: Result<State, Halt>)
    ensures r.Ok? ==> Grows(st, r.value)
    ensures r.Err? ==> Grows(st, r.error.reached)
    decreases fuel, 0
  {
    if fuel == 0 then Err(Halt(OutOfFuel, st)) else
    var env := st.variables;
    match s
    case Program(statements) => ExecAll(st, statements, fuel - 1)
    case VariableDeclaration(name, init) => Ok(st.(variables := env[name := init]))
    case VariableAssignment(name, expr) =>
      var v :- StopIn(st, Eval(env, expr, fuel - 1));
      if name in env then Ok(st.(variables := env[name := v])) else Err(Halt(VariableNotFound(name), st))
    case Identifier(name) =>
      if name in env then Exec(st, env[name], fuel - 1) else Err(Halt(VariableNotFound(name), st))
    case FunctionCall(name) =>
      if name !in env then Err(Halt(FunctionNotFound(name), st))
      else if env[name].FunctionDeclaration? then ExecAll(st, env[name].body, fuel - 1)
      else Err(Halt(UnexpectedNode(env[name]), st))
    case FunctionDeclaration(name, _) => Ok(st.(variables := env[name := s]))
    case Print(expr) =>
      var v :- StopIn(st, Eval(env, expr, fuel - 1));
      Ok(st.(output := st.output + [Stringify(v).value]))
    case If(condition, body) =>
      var v :- StopIn(st, Eval(env, condition, fuel - 1));
      if IsTrue(v) then ExecAll(st, body, fuel - 1) else Ok(st)
    case While(condition, body) => ExecWhile(st, condition, body, fuel - 1)
    case _ => Err(Halt(UnexpectedNode(s), st))
  }

  /**
   * The `for` loop over a statement list: run them in order, stopping at the
   * first error with the lines printed so far.
   */
  function ExecAll(st: State, statements: seq<ASTNode>, fuel: nat): (r: Result<State, Halt>)
    ensures r.Ok? ==> Grows(st, r.value)
    ensures r.Err? ==> Grows(st, r.error.reached)
    decreases fuel, |statements| + 1
  {
    if statements == [] then Ok(st)
    else
      var next :- Exec(st, statements[0], fuel);
      ExecAll(next, statements[1..], fuel)
  }

  /**
   * The `while` loop: evaluate the condition; while it is true, run the body
   * and evaluate again.
   */
  function ExecWhile(st: State, condition: ASTNode, body: seq<ASTNode>, fuel: nat): (r: Result<State, Halt>)
    ensures r.Ok? ==> Grows(st, r.value)
    ensures r.Err? ==> Grows(st, r.error.reached)
    decreases fuel, |body| + 2
  {
    var v :- StopIn(st, Eval(st.variables, condition, fuel));
    if !IsTrue(v) then Ok(st)
    else if fuel == 0 then Err(Halt(OutOfFuel, st))
    else
      var next :- ExecAll(st, body, fuel);
      ExecWhile(next, condition, body, fuel - 1)
  }

  /** The state a method of `Interpreter` has reached, paired with how it ended. */
  function Ended(r: Result<(), RuntimeError>, st: State): Result<State, Halt> {
    if r.Ok? then Ok(st) else Err(Halt(r.error, st))
  }

  /** The interpreter object: the environment it mutates and the lines it has printed. */
  class Interpreter {
    var variables: Env
    var output: seq<string>

    constructor ()
      ensures variables == map[] && output == []
    {
      variables := map[];
      output := [];
    }

    function Snapshot(): State
      reads this
    {
      State(variables, output)
    }

    /**
     * `interpret`: the new state is the one `Exec` describes, also when the
     * statement panics part-way, and so is the error.
     */
    method Interpret(ast: ASTNode, fuel: nat) returns (r: Result<(), RuntimeError>)
      modifies this
      ensures Ended(r, Snapshot()) == Exec(old(Snapshot()), ast, fuel)
      decreases fuel, 0
    {
      if fuel == 0 {
        return Err(OutOfFuel);
      }
      match ast {
        case Program(statements) =>
          r := RunAll(statements, fuel - 1);
        case VariableDeclaration(name, init) =>
          variables := variables[name := init];
          r := Ok(());
        case VariableAssignment(name, expr) =>
          var v :- Eval(variables, expr, fuel - 1);
          if name in variables {
            variables := variables[name := v];
            r := Ok(());
          } else {
            r := Err(VariableNotFound(name));
          }
        case Identifier(name) =>
          if name in variables {
            r := Interpret(variables[name], fuel - 1);
          } else {
            r := Err(VariableNotFound(name));
          }
        case FunctionCall(name) =>
          if name !in variables {
            r := Err(FunctionNotFound(name));
          } else if variables[name].FunctionDeclaration? {
            r := RunAll(variables[name].body, fuel - 1);
          } else {
            r := Err(UnexpectedNode(variables[name]));
          }
        case FunctionDeclaration(name, _) =>
          variables := variables[name := ast];
          r := Ok(());
        case Print(expr) =>
          var v :- Eval(variables, expr, fuel - 1);
          output := output + [Stringify(v).value];
          r := Ok(());
        case If(condition, body) =>
          var v :- Eval(variables, condition, fuel - 1);
          if IsTrue(v) {
            r := RunAll(body, fuel - 1);
          } else {
            r := Ok(());
          }
        case While(condition, body) =>
          r := RunWhile(condition, body, fuel - 1);
        case _ =>
          r := Err(UnexpectedNode(ast));
      }
    }

    /** The statement loop of `Program` and of `if` and function bodies. */
    method RunAll(statements: seq<ASTNode>, fuel: nat) returns (r: Result<(), RuntimeError>)
      modifies this
      ensures Ended(r, Snapshot()) == ExecAll(old(Snapshot()), statements, fuel)
      decreases fuel, |statements| + 1
    {
      for i := 0 to |statements|
        invariant ExecAll(old(Snapshot()), statements, fuel) == ExecAll(Snapshot(), statements[i..], fuel)
      {
        assert statements[i..][1..] == statements[i + 1..];
        r := Interpret(statements[i], fuel);
        if r.Err? {
          return;
        }
      }
      r := Ok(());
    }

    /** The `while` loop: re-evaluate the condition after each run of the body. */
    method RunWhile(condition: ASTNode, body: seq<ASTNode>, fuel: nat) returns (r: Result<(), RuntimeError>)
      modifies this
      ensures Ended(r, Snapshot()) == ExecWhile(old(Snapshot()), condition, body, fuel)
      decreases fuel, |body| + 2
    {
      var f: nat := fuel;
      var v :- Eval(variables, condition, f);
      while IsTrue(v)
        invariant f <= fuel
        invariant Eval(variables, condition, f) == Ok(v)
        invariant ExecWhile(old(Snapshot()), condition, body, fuel) == ExecWhile(Snapshot(), condition, body, f)
        decreases f
      {
        if f == 0 {
          return Err(OutOfFuel);
        }
        r := RunAll(body, f);
        if r.Err? {
          return;
        }
        f := f - 1;
        v :- Eval(variables, condition, f);
      }
      r := Ok(());
    }
  }

  /**
   * What a run shows: the lines it printed, and the error that stopped it,
   * if any. A panic does not take back the lines printed before it.
   */
  datatype Report = Report(printed: seq<string>, error: Option<RuntimeError>)

  /**
   * The public `interpret`: run a program with a fresh interpreter; report
   * the lines it printed and the error that stopped it.
   */
  method Run(ast: ASTNode, fuel: nat) returns (r: Report)
    ensures r == Outcome(ast, fuel)
  {
    var interpreter := new Interpreter();
    var done := interpreter.Interpret(ast, fuel);
    r := Report(interpreter.output, if done.Ok? then None else Some(done.error));
  }

  /** The lines a program prints from the empty state, and its error if it panics. */
  function Outcome(ast: ASTNode, fuel: nat): (r: Report)
    ensures r.error.None? <==> Exec(State(map[], []), ast, fuel).Ok?
  {
    match Exec(State(map[], []), ast, fuel)
    case Ok(st) => Report(st.output, None)
    case Err(h) => Report(h.reached.output, Some(h.error))
  }
}
