/**
 * What the interpreter promises: more fuel never changes an answer that did
 * not run out of fuel, a `while` loop that finishes leaves its condition
 * false, statement lists run in sequence, declarations are lazy, operands are
 * evaluated without short-circuiting, and scripts that never end run out of
 * every amount of fuel. The concrete lemmas at the end run small scripts.
 */
module InterpreterProperties {
  import opened Wrappers
  import opened Ints
  import opened Tokenizer
  import opened Ast
  import opened Operators
  import opened Interpreter
  import Parser
  import ParserProperties
  import OperatorProperties

  /** A run that stopped because its fuel was spent. */
  predicate RanOut(r: Result<State, Halt>) {
    r.Err? && r.error.error == OutOfFuel
  }

  /** Evaluation that did not run out of fuel gives the same answer with any larger fuel. */
  lemma {:induction false} EvalFuelMonotone(env: Env, e: ASTNode, f: nat, g: nat)
    requires f <= g
    requires Eval(env, e, f) != Err(OutOfFuel)
    ensures Eval(env, e, g) == Eval(env, e, f)
    decreases f, e
  {
    match e
    case Binary(left, op, right) =>
      EvalFuelMonotone(env, left, f, g);
      if Eval(env, left, f).Ok? {
        EvalFuelMonotone(env, right, f, g);
      }
    case Unary(op, operand) =>
      EvalFuelMonotone(env, operand, f, g);
    case Identifier(name) =>
      if name in env {
        EvalFuelMonotone(env, env[name], f - 1, g - 1);
      }
    case FunctionCall(name) =>
      if name in env {
        EvalFuelMonotone(env, env[name], f - 1, g - 1);
      }
    case _ =>
  }

  /**
   * A statement that did not run out of fuel gives the same answer with any
   * larger fuel: with enough fuel the result no longer depends on it.
   */
  lemma {:induction false} ExecFuelMonotone(st: State, s: ASTNode, f: nat, g: nat)
    requires f <= g
    requires !RanOut(Exec(st, s, f))
    ensures Exec(st, s, g) == Exec(st, s, f)
    decreases f, 1
  {
    match s
    case Program(statements) =>
      ProgramFuelMonotone(st, statements, f, g);
    case VariableAssignment(name, expr) =>
      AssignmentFuelMonotone(st, name, expr, f, g);
    case Identifier(name) =>
      IdentifierFuelMonotone(st, name, f, g);
    case FunctionCall(name) =>
      CallFuelMonotone(st, name, f, g);
    case Print(expr) =>
      PrintFuelMonotone(st, expr, f, g);
    case If(condition, body) =>
      IfFuelMonotone(st, condition, body, f, g);
    case While(condition, body) =>
      WhileFuelMonotone(st, condition, body, f, g);
    case _ =>
  }

  /** The assignment case of ExecFuelMonotone. */
  lemma AssignmentFuelMonotone(st: State, name: string, expr: ASTNode, f: nat, g: nat)
    requires f <= g
    requires !RanOut(Exec(st, VariableAssignment(name, expr), f))
    ensures Exec(st, VariableAssignment(name, expr), g) == Exec(st, VariableAssignment(name, expr), f)
  {
    EvalFuelMonotone(st.variables, expr, f - 1, g - 1);
  }

  /** The `p` case of ExecFuelMonotone. */
  lemma PrintFuelMonotone(st: State, expr: ASTNode, f: nat, g: nat)
    requires f <= g
    requires !RanOut(Exec(st, ASTNode.Print(expr), f))
    ensures Exec(st, ASTNode.Print(expr), g) == Exec(st, ASTNode.Print(expr), f)
  {
    EvalFuelMonotone(st.variables, expr, f - 1, g - 1);
  }

  /** The `w` case of ExecFuelMonotone. */
  lemma {:induction false} WhileFuelMonotone(st: State, condition: ASTNode, body: seq<ASTNode>, f: nat, g: nat)
    requires f <= g
    requires !RanOut(Exec(st, While(condition, body), f))
    ensures Exec(st, While(condition, body), g) == Exec(st, While(condition, body), f)
    decreases f, 0
  {
    assert Exec(st, While(condition, body), f) == ExecWhile(st, condition, body, f - 1);
    ExecWhileFuelMonotone(st, condition, body, f - 1, g - 1);
  }

  /** The `Program` case of ExecFuelMonotone. */
  lemma {:induction false} ProgramFuelMonotone(st: State, statements: seq<ASTNode>, f: nat, g: nat)
    requires f <= g
    requires !RanOut(Exec(st, Program(statements), f))
    ensures Exec(st, Program(statements), g) == Exec(st, Program(statements), f)
    decreases f, 0
  {
    assert Exec(st, Program(statements), f) == ExecAll(st, statements, f - 1);
    ExecAllFuelMonotone(st, statements, f - 1, g - 1);
  }

  /** The case of ExecFuelMonotone where a bare name runs the node bound to it. */
  lemma {:induction false} IdentifierFuelMonotone(st: State, name: string, f: nat, g: nat)
    requires f <= g
    requires !RanOut(Exec(st, ASTNode.Identifier(name), f))
    ensures Exec(st, ASTNode.Identifier(name), g) == Exec(st, ASTNode.Identifier(name), f)
    decreases f, 0
  {
    if name in st.variables {
      assert Exec(st, ASTNode.Identifier(name), f) == Exec(st, st.variables[name], f - 1);
      ExecFuelMonotone(st, st.variables[name], f - 1, g - 1);
    }
  }

  /** The call case of ExecFuelMonotone. */
  lemma {:induction false} CallFuelMonotone(st: State, name: string, f: nat, g: nat)
    requires f <= g
    requires !RanOut(Exec(st, FunctionCall(name), f))
    ensures Exec(st, FunctionCall(name), g) == Exec(st, FunctionCall(name), f)
    decreases f, 0
  {
    if name in st.variables && st.variables[name].FunctionDeclaration? {
      assert Exec(st, FunctionCall(name), f) == ExecAll(st, st.variables[name].body, f - 1);
      ExecAllFuelMonotone(st, st.variables[name].body, f - 1, g - 1);
    }
  }

  /** The `if` case of ExecFuelMonotone. */
  lemma {:induction false} IfFuelMonotone(st: State, condition: ASTNode, body: seq<ASTNode>, f: nat, g: nat)
    requires f <= g
    requires !RanOut(Exec(st, If(condition, body), f))
    ensures Exec(st, If(condition, body), g) == Exec(st, If(condition, body), f)
    decreases f, 0
  {
    var env := st.variables;
    IfUnfolds(st, condition, body, f);
    IfUnfolds(st, condition, body, g);
    var v := Eval(env, condition, f - 1);
    EvalFuelMonotone(env, condition, f - 1, g - 1);
    if v.Ok? && IsTrue(v.value) {
      ExecAllFuelMonotone(st, body, f - 1, g - 1);
    }
  }

  /** One unfolding of an `if` statement. */
  lemma IfUnfolds(st: State, condition: ASTNode, body: seq<ASTNode>, f: nat)
    requires f > 0
    ensures Exec(st, If(condition, body), f) ==
      match Eval(st.variables, condition, f - 1)
      case Err(e) => Err(Halt(e, st))
      case Ok(v) => if IsTrue(v) then ExecAll(st, body, f - 1) else Ok(st)
  {
  }

  /** The statement-list counterpart of ExecFuelMonotone. */
  lemma {:induction false} ExecAllFuelMonotone(st: State, statements: seq<ASTNode>, f: nat, g: nat)
    requires f <= g
    requires !RanOut(ExecAll(st, statements, f))
    ensures ExecAll(st, statements, g) == ExecAll(st, statements, f)
    decreases f, |statements| + 1
  {
    if statements != [] {
      ExecFuelMonotone(st, statements[0], f, g);
      if Exec(st, statements[0], f).Ok? {
        ExecAllFuelMonotone(Exec(st, statements[0], f).value, statements[1..], f, g);
      }
    }
  }

  /** The `while` counterpart of ExecFuelMonotone. */
  lemma {:induction false} ExecWhileFuelMonotone(st: State, condition: ASTNode, body: seq<ASTNode>, f: nat, g: nat)
    requires f <= g
    requires !RanOut(ExecWhile(st, condition, body, f))
    ensures ExecWhile(st, condition, body, g) == ExecWhile(st, condition, body, f)
    decreases f, |body| + 2
  {
    EvalFuelMonotone(st.variables, condition, f, g);
    var v := Eval(st.variables, condition, f);
    if v.Ok? && IsTrue(v.value) {
      ExecAllFuelMonotone(st, body, f, g);
      if ExecAll(st, body, f).Ok? {
        ExecWhileFuelMonotone(ExecAll(st, body, f).value, condition, body, f - 1, g - 1);
      }
    }
  }

  /** A `while` loop that finishes leaves a state in which its condition evaluates and is not true. */
  lemma {:induction false} WhileExit(st: State, condition: ASTNode, body: seq<ASTNode>, f: nat)
    requires ExecWhile(st, condition, body, f).Ok?
    ensures var v := Eval(ExecWhile(st, condition, body, f).value.variables, condition, f);
      v.Ok? && !IsTrue(v.value)
    decreases f
  {
    var v := Eval(st.variables, condition, f);
    if IsTrue(v.value) {
      var next := ExecAll(st, body, f).value;
      WhileExit(next, condition, body, f - 1);
      var last := ExecWhile(st, condition, body, f).value;
      EvalFuelMonotone(last.variables, condition, f - 1, f);
    }
  }

  /**
   * Running two statement lists one after the other is running their
   * concatenation: the `for` loop stops at the first error and otherwise
   * threads the state through.
   */
  lemma {:induction false} ExecAllAppend(st: State, a: seq<ASTNode>, b: seq<ASTNode>, f: nat)
    ensures ExecAll(st, a + b, f) == (var mid :- ExecAll(st, a, f); ExecAll(mid, b, f))
    decreases |a|
  {
    if a == [] {
      assert a + b == b;
    } else {
      assert (a + b)[0] == a[0];
      assert (a + b)[1..] == a[1..] + b;
      if Exec(st, a[0], f).Ok? {
        ExecAllAppend(Exec(st, a[0], f).value, a[1..], b, f);
      }
    }
  }

  /** `v x = x` followed by reading `x` never ends: it runs out of every amount of fuel. */
  lemma {:induction false} SelfReferenceRunsOut(env: Env, name: string, f: nat)
    requires name in env && env[name] == ASTNode.Identifier(name)
    ensures Eval(env, ASTNode.Identifier(name), f) == Err(OutOfFuel)
  {
    if f > 0 {
      SelfReferenceRunsOut(env, name, f - 1);
    }
  }

  /** `w true { }` never ends: it runs out of every amount of fuel. */
  lemma {:induction false} EndlessLoopRunsOut(st: State, f: nat)
    ensures ExecWhile(st, ASTNode.Boolean(true), [], f) == Err(Halt(OutOfFuel, st))
  {
    assert IsTrue(ASTNode.Boolean(true));
    if f > 0 {
      EndlessLoopRunsOut(st, f - 1);
    }
  }

  /**
   * What each simple statement does to the state: a declaration binds the
   * name to the unevaluated node, replacing any earlier binding; an
   * assignment needs the name bound and rebinds it to the value computed;
   * `p` appends the printed value. Nothing else changes.
   */
  lemma StatementEffects(st: State, name: string, e: ASTNode, body: seq<ASTNode>, f: nat)
    ensures Exec(st, VariableDeclaration(name, e), f + 1) == Ok(State(st.variables[name := e], st.output))
    ensures Exec(st, FunctionDeclaration(name, body), f + 1)
      == Ok(State(st.variables[name := FunctionDeclaration(name, body)], st.output))
    ensures var r := Exec(st, VariableAssignment(name, e), f + 1);
      r.Ok? <==> name in st.variables && Eval(st.variables, e, f).Ok?
    ensures var r := Exec(st, VariableAssignment(name, e), f + 1);
      r.Ok? ==> (&& IsValue(Eval(st.variables, e, f).value)
                 && r.value == State(st.variables[name := Eval(st.variables, e, f).value], st.output))
    ensures var r := Exec(st, ASTNode.Print(e), f + 1);
      && (r.Ok? <==> Eval(st.variables, e, f).Ok?)
      && (r.Ok? ==> r.value == State(st.variables, st.output + [Stringify(Eval(st.variables, e, f).value).value]))
  {
  }

  /**
   * A call statement runs the body of the function bound to the name, in the
   * same state; an unbound name, or a name bound to anything else, is an error.
   */
  lemma CallRunsBody(st: State, name: string, f: nat)
    ensures name !in st.variables ==> Exec(st, FunctionCall(name), f + 1) == Err(Halt(FunctionNotFound(name), st))
    ensures name in st.variables && !st.variables[name].FunctionDeclaration? ==>
      Exec(st, FunctionCall(name), f + 1) == Err(Halt(UnexpectedNode(st.variables[name]), st))
    ensures name in st.variables && st.variables[name].FunctionDeclaration? ==>
      Exec(st, FunctionCall(name), f + 1) == ExecAll(st, st.variables[name].body, f)
  {
  }

  /** One step of the statement loop. */
  lemma ExecAllCons(st: State, s: ASTNode, rest: seq<ASTNode>, f: nat)
    ensures ExecAll(st, [s] + rest, f) == (var next :- Exec(st, s, f); ExecAll(next, rest, f))
  {
    assert ([s] + rest)[1..] == rest;
  }

  /** What a one-statement `p e` program reports: the printed value as its one line, or no line and the evaluation error. */
  function PrintReport(r: Result<ASTNode, RuntimeError>): Report
    requires r.Ok? ==> IsValue(r.value)
  {
    match r
    case Ok(v) => Report([Stringify(v).value], None)
    case Err(error) => Report([], Some(error))
  }

  /** A program of one `p` statement prints one line: the printed value, or the evaluation error. */
  lemma PrintProgram(e: ASTNode, f: nat)
    ensures Outcome(Program([ASTNode.Print(e)]), f + 2) == PrintReport(Eval(map[], e, f))
  {
    var st := State(map[], []);
    var s := ASTNode.Print(e);
    ExecAllCons(st, s, [], f + 1);
    assert [s] + [] == [s];
    assert Exec(st, Program([s]), f + 2) == ExecAll(st, [s], f + 1);
    match Eval(map[], e, f)
    case Ok(v) =>
      assert st.output + [Stringify(v).value] == [Stringify(v).value];
      assert Exec(st, s, f + 1) == Ok(State(map[], [Stringify(v).value]));
    case Err(error) =>
      assert Exec(st, s, f + 1) == Err(Halt(error, st));
  }

  /**
   * The whole pipeline on `p <expression>`: the fully parenthesised tokens
   * parse to a one-statement program, which prints the expression's value as
   * one line, or fails with the error evaluating it gives.
   */
  lemma PrintScript(e: ASTNode, f: nat)
    requires ParserProperties.IsExpression(e)
    ensures var ts := [Token.Print] + ParserProperties.Render(e) + [EndOfFile];
      && Parser.ParseTokens(ts) == Ok(Program([ASTNode.Print(e)]))
      && Outcome(Program([ASTNode.Print(e)]), f + 2) == PrintReport(Eval(map[], e, f))
  {
    ParserProperties.PrintRenderParses(e);
    PrintProgram(e, f);
  }

  /** `v x = 5; x = x + 1; p x` prints `6`. */
  lemma AssignmentReadsOldValue()
    ensures Outcome(Program([
      VariableDeclaration("x", ASTNode.Number(5)),
      VariableAssignment("x", Binary(ASTNode.Identifier("x"), Plus, ASTNode.Number(1))),
      ASTNode.Print(ASTNode.Identifier("x"))]), 3) == Report(["6"], None)
  {
    var s1 := VariableDeclaration("x", ASTNode.Number(5));
    var s2 := VariableAssignment("x", Binary(ASTNode.Identifier("x"), Plus, ASTNode.Number(1)));
    var s3 := ASTNode.Print(ASTNode.Identifier("x"));
    var st0 := State(map[], []);
    var st1 := State(map["x" := ASTNode.Number(5)], []);
    var st2 := State(map["x" := ASTNode.Number(6)], []);
    var st3 := State(map["x" := ASTNode.Number(6)], ["6"]);
    assert DigitChar(6) == '6';
    assert Exec(st0, s1, 2) == Ok(st1);
    assert Eval(st1.variables, ASTNode.Identifier("x"), 1) == Ok(ASTNode.Number(5));
    assert Add(ASTNode.Number(5), ASTNode.Number(1)) == Ok(ASTNode.Number(6));
    assert st1.variables["x" := ASTNode.Number(6)] == st2.variables;
    assert Exec(st1, s2, 2) == Ok(st2);
    assert Eval(st2.variables, ASTNode.Identifier("x"), 1) == Ok(ASTNode.Number(6));
    assert Stringify(ASTNode.Number(6)) == Ok("6");
    assert st2.output + ["6"] == ["6"];
    assert Exec(st2, s3, 2) == Ok(st3);
    ExecAllCons(st2, s3, [], 2);
    ExecAllCons(st1, s2, [s3], 2);
    ExecAllCons(st0, s1, [s2, s3], 2);
    assert [s3] + [] == [s3];
    assert [s2] + [s3] == [s2, s3];
    assert [s1] + [s2, s3] == [s1, s2, s3];
  }

  /**
   * `if` runs its body only when the condition prints as `true`: any number
   * as condition silently skips the body, and the string `"true"` runs it.
   */
  lemma ConditionMustPrintTrue(st: State, n: Int32, body: seq<ASTNode>, f: nat)
    ensures Exec(st, If(ASTNode.Number(n), body), f + 1) == Ok(st)
    ensures Exec(st, If(ASTNode.String("true"), body), f + 1) == ExecAll(st, body, f)
    ensures Exec(st, If(ASTNode.String("false"), body), f + 1) == Ok(st)
  {
    OperatorProperties.PrintsAsTrue(ASTNode.Number(n));
    OperatorProperties.PrintsAsTrue(ASTNode.String("false"));
  }

  /** `&` and `|` evaluate both operands: `false & y` fails when `y` is not bound. */
  lemma NoShortCircuit(env: Env, op: Token, name: string, f: nat)
    requires op == And || op == Or
    requires name !in env
    ensures Eval(env, Binary(ASTNode.Boolean(op == Or), op, ASTNode.Identifier(name)), f)
      == Err(VariableNotFound(name))
  {
  }

  /** Assigning to a name that was never declared fails once the value has been computed. */
  lemma AssignmentNeedsDeclaration(st: State, name: string, e: ASTNode, f: nat)
    requires name !in st.variables
    ensures var v := Eval(st.variables, e, f);
      Exec(st, VariableAssignment(name, e), f + 1) == Err(Halt(if v.Ok? then VariableNotFound(name) else v.error, st))
  {
  }

  /**
   * A panic does not take back what was printed before it: `p 1; x = 1`
   * prints `1` and then stops, `x` never having been declared.
   */
  lemma PanicKeepsPrintedLines()
    ensures Outcome(Program([ASTNode.Print(ASTNode.Number(1)), VariableAssignment("x", ASTNode.Number(1))]), 3)
      == Report(["1"], Some(VariableNotFound("x")))
  {
    var s1 := ASTNode.Print(ASTNode.Number(1));
    var s2 := VariableAssignment("x", ASTNode.Number(1));
    var st0 := State(map[], []);
    var st1 := State(map[], ["1"]);
    assert DigitChar(1) == '1';
    assert Stringify(ASTNode.Number(1)) == Ok("1");
    assert st0.output + ["1"] == ["1"];
    assert Exec(st0, s1, 2) == Ok(st1);
    assert Exec(st1, s2, 2) == Err(Halt(VariableNotFound("x"), st1));
    ExecAllCons(st1, s2, [], 2);
    ExecAllCons(st0, s1, [s2], 2);
    assert [s2] + [] == [s2];
    assert [s1] + [s2] == [s1, s2];
  }

  /**
   * Declarations store the expression, not its value: after `v a = <n>;
   * v b = a; a = <m>`, printing `b` prints `m`.
   */
  lemma DeclarationIsLazy(n: Int32, m: Int32)
    ensures Outcome(Program([
      VariableDeclaration("a", ASTNode.Number(n)),
      VariableDeclaration("b", ASTNode.Identifier("a")),
      VariableAssignment("a", ASTNode.Number(m)),
      ASTNode.Print(ASTNode.Identifier("b"))]), 4) == Report([IntToDecimal(m as int)], None)
  {
    var s1 := VariableDeclaration("a", ASTNode.Number(n));
    var s2 := VariableDeclaration("b", ASTNode.Identifier("a"));
    var s3 := VariableAssignment("a", ASTNode.Number(m));
    var s4 := ASTNode.Print(ASTNode.Identifier("b"));
    var st0 := State(map[], []);
    var st1 := State(map["a" := ASTNode.Number(n)], []);
    var st2 := State(map["a" := ASTNode.Number(n), "b" := ASTNode.Identifier("a")], []);
    var st3 := State(map["a" := ASTNode.Number(m), "b" := ASTNode.Identifier("a")], []);
    var st4 := State(st3.variables, [IntToDecimal(m as int)]);
    assert Exec(st0, s1, 3) == Ok(st1);
    assert Exec(st1, s2, 3) == Ok(st2);
    assert st2.variables["a" := ASTNode.Number(m)] == st3.variables;
    assert Exec(st2, s3, 3) == Ok(st3);
    assert Eval(st3.variables, ASTNode.Identifier("a"), 1) == Ok(ASTNode.Number(m));
    assert Eval(st3.variables, ASTNode.Identifier("b"), 2) == Ok(ASTNode.Number(m));
    assert st3.output + [IntToDecimal(m as int)] == st4.output;
    assert Exec(st3, s4, 3) == Ok(st4);
    ExecAllCons(st3, s4, [], 3);
    ExecAllCons(st2, s3, [s4], 3);
    ExecAllCons(st1, s2, [s3, s4], 3);
    ExecAllCons(st0, s1, [s2, s3, s4], 3);
    assert [s4] + [] == [s4];
    assert [s3] + [s4] == [s3, s4];
    assert [s2] + [s3, s4] == [s2, s3, s4];
    assert [s1] + [s2, s3, s4] == [s1, s2, s3, s4];
  }

  /**
   * Functions share the one environment: after `v n = 0; f inc { n = n + 1 }`,
   * calling `inc!` twice and printing `n` prints `2`.
   */
  lemma FunctionsShareEnvironment()
    ensures
      var increment := VariableAssignment("n", Binary(ASTNode.Identifier("n"), Plus, ASTNode.Number(1)));
      Outcome(Program([
        VariableDeclaration("n", ASTNode.Number(0)),
        FunctionDeclaration("inc", [increment]),
        FunctionCall("inc"),
        FunctionCall("inc"),
        ASTNode.Print(ASTNode.Identifier("n"))]), 4) == Report(["2"], None)
  {
    var increment := VariableAssignment("n", Binary(ASTNode.Identifier("n"), Plus, ASTNode.Number(1)));
    var inc := FunctionDeclaration("inc", [increment]);
    var s1 := VariableDeclaration("n", ASTNode.Number(0));
    var s3 := FunctionCall("inc");
    var s5 := ASTNode.Print(ASTNode.Identifier("n"));
    var st0 := State(map[], []);
    var st1 := State(map["n" := ASTNode.Number(0)], []);
    var st2 := State(map["n" := ASTNode.Number(0), "inc" := inc], []);
    assert Exec(st0, s1, 3) == Ok(st1);
    assert Exec(st1, inc, 3) == Ok(st2);
    CallTwiceThenPrint(st2);
    ExecAllCons(st1, inc, [s3, s3, s5], 3);
    ExecAllCons(st0, s1, [inc, s3, s3, s5], 3);
    assert [inc] + [s3, s3, s5] == [inc, s3, s3, s5];
    assert [s1] + [inc, s3, s3, s5] == [s1, inc, s3, s3, s5];
  }

  /** The last three statements of FunctionsShareEnvironment: two calls of `inc`, then `p n`. */
  lemma CallTwiceThenPrint(st: State)
    requires st.variables == map["n" := ASTNode.Number(0), "inc" :=
      FunctionDeclaration("inc", [VariableAssignment("n", Binary(ASTNode.Identifier("n"), Plus, ASTNode.Number(1)))])]
    requires st.output == []
    ensures ExecAll(st, [FunctionCall("inc"), FunctionCall("inc"), ASTNode.Print(ASTNode.Identifier("n"))], 3)
      == Ok(State(st.variables["n" := ASTNode.Number(2)], ["2"]))
  {
    var s3 := FunctionCall("inc");
    var s5 := ASTNode.Print(ASTNode.Identifier("n"));
    var st3 := st.(variables := st.variables["n" := ASTNode.Number(1)]);
    var st4 := st.(variables := st.variables["n" := ASTNode.Number(2)]);
    var st5 := State(st4.variables, ["2"]);
    IncrementStep(st, 0, 1);
    IncrementStep(st3, 1, 2);
    assert st3.variables["n" := ASTNode.Number(2)] == st4.variables;
    assert Eval(st4.variables, ASTNode.Identifier("n"), 2) == Ok(ASTNode.Number(2));
    assert DigitChar(2) == '2';
    assert Stringify(ASTNode.Number(2)) == Ok("2");
    assert st4.output + ["2"] == ["2"];
    assert Exec(st4, s5, 3) == Ok(st5);
    ExecAllCons(st4, s5, [], 3);
    ExecAllCons(st3, s3, [s5], 3);
    ExecAllCons(st, s3, [s3, s5], 3);
    assert [s5] + [] == [s5];
    assert [s3] + [s5] == [s3, s5];
    assert [s3] + [s3, s5] == [s3, s3, s5];
  }

  /** One call of `inc` in FunctionsShareEnvironment. */
  lemma IncrementStep(st: State, k: Int32, k1: Int32)
    requires k1 as int == k as int + 1
    requires "n" in st.variables && st.variables["n"] == ASTNode.Number(k)
    requires "inc" in st.variables && st.variables["inc"]
      == FunctionDeclaration("inc", [VariableAssignment("n", Binary(ASTNode.Identifier("n"), Plus, ASTNode.Number(1)))])
    ensures Exec(st, FunctionCall("inc"), 3)
      == Ok(st.(variables := st.variables["n" := ASTNode.Number(k1)]))
  {
    var increment := VariableAssignment("n", Binary(ASTNode.Identifier("n"), Plus, ASTNode.Number(1)));
    var next := st.(variables := st.variables["n" := ASTNode.Number(k1)]);
    Increment(st, "n", k, k1, 2);
    assert ExecAll(next, [], 2) == Ok(next);
    ExecAllCons(st, increment, [], 2);
    assert [increment] + [] == [increment];
    assert Exec(st, FunctionCall("inc"), 3) == ExecAll(st, [increment], 2);
  }

  /** `x = x + 1` on a variable holding `k` stores `k + 1`, with two units of fuel. */
  lemma Increment(st: State, name: string, k: Int32, k1: Int32, f: nat)
    requires k1 as int == k as int + 1 && f >= 2
    requires name in st.variables && st.variables[name] == ASTNode.Number(k)
    ensures Exec(st, VariableAssignment(name, Binary(ASTNode.Identifier(name), Plus, ASTNode.Number(1))), f)
      == Ok(st.(variables := st.variables[name := ASTNode.Number(k1)]))
  {
    var env := st.variables;
    var sum := Binary(ASTNode.Identifier(name), Plus, ASTNode.Number(1));
    assert Eval(env, ASTNode.Number(k), f - 2) == Ok(ASTNode.Number(k));
    assert Eval(env, ASTNode.Identifier(name), f - 1) == Ok(ASTNode.Number(k));
    assert Eval(env, ASTNode.Number(1), f - 1) == Ok(ASTNode.Number(1));
    assert Add(ASTNode.Number(k), ASTNode.Number(1)) == Ok(ASTNode.Number(k1));
    assert BinaryOp(ASTNode.Number(k), Plus, ASTNode.Number(1)) == Ok(ASTNode.Number(k1));
    assert Eval(env, sum, f - 1) == Ok(ASTNode.Number(k1));
  }

  /** A `w` loop whose guard evaluates to a value other than true stops in the state it started in. */
  lemma WhileStops(st: State, condition: ASTNode, body: seq<ASTNode>, f: nat, v: ASTNode)
    requires Eval(st.variables, condition, f) == Ok(v) && !IsTrue(v)
    ensures ExecWhile(st, condition, body, f) == Ok(st)
  {
  }

  /** A `w` loop whose guard is true runs its body once and continues, with one unit of fuel less. */
  lemma WhileSteps(st: State, next: State, condition: ASTNode, body: seq<ASTNode>, f: nat, v: ASTNode)
    requires Eval(st.variables, condition, f) == Ok(v) && IsTrue(v) && f > 0
    requires ExecAll(st, body, f) == Ok(next)
    ensures ExecWhile(st, condition, body, f) == ExecWhile(next, condition, body, f - 1)
  {
  }

  /** Storing the value a name already holds leaves the environment as it was. */
  lemma UpdateSameValue(env: Env, name: string)
    requires name in env
    ensures env[name := env[name]] == env
  {
  }

  /** A second store under the same name replaces the first. */
  lemma UpdateTwice(env: Env, name: string, first: ASTNode, second: ASTNode)
    ensures env[name := first][name := second] == env[name := second]
  {
  }

  /** The guard `name < b` of the counting loop, with `name` holding `k`. */
  lemma CountingGuard(st: State, name: string, k: Int32, b: Int32, f: nat)
    requires name in st.variables && st.variables[name] == ASTNode.Number(k)
    requires f >= 1
    ensures Eval(st.variables, Binary(ASTNode.Identifier(name), LessThan, ASTNode.Number(b)), f)
      == Ok(ASTNode.Boolean(k < b))
  {
    assert Eval(st.variables, ASTNode.Number(k), f - 1) == Ok(ASTNode.Number(k));
    assert Eval(st.variables, ASTNode.Identifier(name), f) == Ok(ASTNode.Number(k));
    assert Eval(st.variables, ASTNode.Number(b), f) == Ok(ASTNode.Number(b));
  }

  /** One pass of the counting loop's body `name = name + 1`. */
  lemma CountingBody(st: State, name: string, k: Int32, k1: Int32, f: nat)
    requires name in st.variables && st.variables[name] == ASTNode.Number(k)
    requires k1 as int == k as int + 1 && f >= 2
    ensures ExecAll(st, [VariableAssignment(name, Binary(ASTNode.Identifier(name), Plus, ASTNode.Number(1)))], f)
      == Ok(st.(variables := st.variables[name := ASTNode.Number(k1)]))
  {
    var increment := VariableAssignment(name, Binary(ASTNode.Identifier(name), Plus, ASTNode.Number(1)));
    Increment(st, name, k, k1, f);
    ExecAllCons(st, increment, [], f);
    assert [increment] + [] == [increment];
  }

  /** While `name < b`, one iteration of the counting loop stores `k + 1` and continues with one unit of fuel less. */
  lemma CountingStep(st: State, name: string, k: Int32, k1: Int32, b: Int32, f: nat)
    requires name in st.variables && st.variables[name] == ASTNode.Number(k)
    requires k < b && k1 as int == k as int + 1 && f >= 2
    ensures ExecWhile(st, Binary(ASTNode.Identifier(name), LessThan, ASTNode.Number(b)),
      [VariableAssignment(name, Binary(ASTNode.Identifier(name), Plus, ASTNode.Number(1)))], f)
      == ExecWhile(st.(variables := st.variables[name := ASTNode.Number(k1)]),
        Binary(ASTNode.Identifier(name), LessThan, ASTNode.Number(b)),
        [VariableAssignment(name, Binary(ASTNode.Identifier(name), Plus, ASTNode.Number(1)))], f - 1)
  {
    var condition := Binary(ASTNode.Identifier(name), LessThan, ASTNode.Number(b));
    var increment := VariableAssignment(name, Binary(ASTNode.Identifier(name), Plus, ASTNode.Number(1)));
    CountingGuard(st, name, k, b, f);
    CountingBody(st, name, k, k1, f);
    WhileSteps(st, st.(variables := st.variables[name := ASTNode.Number(k1)]), condition, [increment], f, ASTNode.Boolean(true));
  }

  /**
   * A counting loop `w i < b { i = i + 1 }`, over any counter name `i`,
   * started at `i = k <= b` stops with `i = b`, changing nothing else; each iteration spends one unit of
   * fuel, so `b - k + 1` units suffice.
   */
  lemma {:induction false} CountingLoop(st: State, name: string, k: Int32, b: Int32, f: nat)
    requires name in st.variables && st.variables[name] == ASTNode.Number(k)
    requires k <= b && f > b as int - k as int
    ensures ExecWhile(st, Binary(ASTNode.Identifier(name), LessThan, ASTNode.Number(b)),
      [VariableAssignment(name, Binary(ASTNode.Identifier(name), Plus, ASTNode.Number(1)))], f)
      == Ok(st.(variables := st.variables[name := ASTNode.Number(b)]))
    decreases b as int - k as int
  {
    CountingGuard(st, name, k, b, f);
    if k == b {
      WhileStops(st, Binary(ASTNode.Identifier(name), LessThan, ASTNode.Number(b)),
        [VariableAssignment(name, Binary(ASTNode.Identifier(name), Plus, ASTNode.Number(1)))], f, ASTNode.Boolean(false));
      UpdateSameValue(st.variables, name);
    } else {
      var k1 := (k as int + 1) as Int32;
      var next := st.(variables := st.variables[name := ASTNode.Number(k1)]);
      CountingStep(st, name, k, k1, b, f);
      CountingLoop(next, name, k1, b, f - 1);
      UpdateTwice(st.variables, name, ASTNode.Number(k1), ASTNode.Number(b));
    }
  }
}
