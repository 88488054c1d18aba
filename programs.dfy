/**
 * Whole programs run by `interpret`: the test programs of
 * src/tests/interpreter.test.js, which put the header in front of one
 * expression, and small programs that show how the evaluator binds names
 * and when it evaluates arguments.
 */
module Programs {
  import opened Syntax
  import opened Interpreter
  import opened Prelude
  import opened InterpreterProperties

  /** How the tests write an integer with only `1`: a chain of NEXT calls
      above 1 and of PREV calls below it. */
  function Numeral(n: int): Expr
    decreases if n >= 1 then n - 1 else 1 - n
  {
    if n == 1 then One
    else if n > 1 then App("NEXT", [Numeral(n - 1)])
    else App("PREV", [Numeral(n + 1)])
  }

  /** Every numeral denotes its integer. */
  lemma {:induction false} NumeralValue(n: int, root: map<string, Value>, fuel: nat)
    requires Defined(root) && fuel >= 1
    ensures Eval(Numeral(n), Root, root, fuel) == Ok(Num(n))
    decreases if n >= 1 then n - 1 else 1 - n
  {
    if n == 1 {
      assert Eval(Int(1), Root, root, fuel) == Ok(Num(1));
    } else if n > 1 {
      NumeralValue(n - 1, root, fuel);
      NextAddsOne(root, fuel, n - 1);
      Call1("NEXT", Numeral(n - 1), Root, root, fuel, Num(n - 1));
    } else {
      NumeralValue(n + 1, root, fuel);
      PrevSubtractsOne(root, fuel, n + 1);
      Call1("PREV", Numeral(n + 1), Root, root, fuel, Num(n + 1));
    }
  }

  /** A program made of the header and one expression evaluates that
      expression in the environment the header leaves. */
  lemma WithHeader(e: Expr, fuel: nat)
    requires fuel >= 1
    ensures RunProgram(Program(Header, e), fuel) == Eval(e, Root, HeaderEnv, fuel)
  {
    RunHeader(fuel);
  }

  /** `(SUBTRACT a b)` after the header is `a - b`, as the SUBTRACT tests
      expect for 3 - 2 and -1 - 3. */
  lemma SubtractProgram(a: int, b: int, fuel: nat)
    requires fuel >= 1
    ensures RunProgram(Program(Header, App("SUBTRACT", [Numeral(a), Numeral(b)])), fuel) == Ok(Num(a - b))
  {
    WithHeader(App("SUBTRACT", [Numeral(a), Numeral(b)]), fuel);
    HeaderDefines();
    NumeralValue(a, HeaderEnv, fuel);
    NumeralValue(b, HeaderEnv, fuel);
    SubtractComputes(HeaderEnv, fuel, a, b);
    Call2("SUBTRACT", Numeral(a), Numeral(b), Root, HeaderEnv, fuel, Num(a), Num(b));
  }

  /** `(IF c a b)` after the header picks `a` when `c` is not 0 and `b`
      otherwise, as the IF tests expect. */
  lemma IfProgram(c: int, a: int, b: int, fuel: nat)
    requires fuel >= 4
    ensures RunProgram(Program(Header, App("IF", [Numeral(c), Numeral(a), Numeral(b)])), fuel) ==
      Ok(Num(if c != 0 then a else b))
  {
    WithHeader(App("IF", [Numeral(c), Numeral(a), Numeral(b)]), fuel);
    HeaderDefines();
    NumeralValue(c, HeaderEnv, fuel);
    NumeralValue(a, HeaderEnv, fuel);
    NumeralValue(b, HeaderEnv, fuel);
    IfSelects(HeaderEnv, fuel, c, a, b);
    Call3("IF", Numeral(c), Numeral(a), Numeral(b), Root, HeaderEnv, fuel, Num(c), Num(a), Num(b));
  }

  /** IF is an ordinary function, so the branch it does not take is still
      evaluated: `(IF TRUE 1 (nope))` fails on the undefined `nope`. */
  lemma IfIsStrict(fuel: nat)
    requires fuel >= 1
    ensures RunProgram(Program(Header, App("IF", [V("TRUE"), One, App("nope", [])])), fuel) ==
      Err(UndefinedIdentifier("nope"))
  {
    WithHeader(App("IF", [V("TRUE"), One, App("nope", [])]), fuel);
    HeaderKeepsPredicates();
    HeaderKeepsLogic();
    HeaderLacksNope();
    UntakenBranchFails(HeaderEnv, fuel);
  }

  lemma HeaderLacksNope()
    ensures "nope" !in HeaderEnv
  {
  }

  lemma UntakenBranchFails(root: map<string, Value>, fuel: nat)
    requires Has(root, "IF", Closure(["cond", "x", "y"], IfBody, Root)) && Has(root, "TRUE", Num(1))
    requires "nope" !in root
    ensures Eval(App("IF", [V("TRUE"), One, App("nope", [])]), Root, root, fuel) == Err(UndefinedIdentifier("nope"))
  {
    var args := [V("TRUE"), One, App("nope", [])];
    assert Eval(args[2], Root, root, fuel) == Err(UndefinedIdentifier("nope"));
    assert args[1..][1..] == [args[2]] && [args[2]][1..] == [];
    assert EvalArgs(args[1..][1..], Root, root, fuel) == Err(UndefinedIdentifier("nope"));
    assert Eval(args[1], Root, root, fuel) == Ok(Num(1));
    assert EvalArgs(args[1..], Root, root, fuel) == Err(UndefinedIdentifier("nope"));
    assert Eval(args[0], Root, root, fuel) == Ok(Num(1));
    assert EvalArgs(args, Root, root, fuel) == Err(UndefinedIdentifier("nope"));
    assert Eval(App("IF", args), Root, root, fuel) == Eval(Call("IF", args), Root, root, fuel);
  }

  /** The second POWER multiplies a number by a function literal, which the
      built-in `mul` cannot do (in JavaScript the product is NaN): every call
      `(POWER a b)` fails, so the POWER tests' 9 and 1 are not what this
      evaluator computes. */
  lemma PowerIsNotANumber(a: int, b: int, fuel: nat)
    requires fuel >= 7
    ensures RunProgram(Program(Header, App("POWER", [Numeral(a), Numeral(b)])), fuel) == Err(NotANumber(Mul))
  {
    WithHeader(App("POWER", [Numeral(a), Numeral(b)]), fuel);
    HeaderDefines();
    NumeralValue(a, HeaderEnv, fuel);
    NumeralValue(b, HeaderEnv, fuel);
    Call2("POWER", Numeral(a), Numeral(b), Root, HeaderEnv, fuel, Num(a), Num(b));
    PowerBodyFails(HeaderEnv, fuel, a, b);
  }

  lemma PowerBodyFails(root: map<string, Value>, fuel: nat, a: int, b: int)
    requires Defined(root) && Has(root, "POWER", Closure(["x", "y"], PowerBody2, Root)) && fuel >= 7
    ensures Apply(root["POWER"], [Num(a), Num(b)], root, fuel) == Err(NotANumber(Mul))
  {
    var f := Frame(root["x" := Num(a)]["y" := Num(b)]);
    var test := App("LESS_THAN_OR_EQUAL_TO?", [V("y"), V("ZERO")]);
    var pick := App("IF", [test, One, V("x")]);
    var delayed := Lam([], App("IF", [test, One, App("POWER", [V("x"), App("SUBTRACT", [V("y"), One])])]));
    var t := if b <= 0 then 1 else 0;
    var v := if b <= 0 then 1 else a;
    Enter2("x", "y", PowerBody2, root, fuel, Num(a), Num(b));
    assert Eval(pick, f, root, fuel - 1) == Ok(Num(v)) by {
      LessEqComputes(root, fuel - 1, b, 0);
      Call2("LESS_THAN_OR_EQUAL_TO?", V("y"), V("ZERO"), f, root, fuel - 1, Num(b), Num(0));
      assert Eval(One, f, root, fuel - 1) == Ok(Num(1));
      IfSelects(root, fuel - 1, t, 1, a);
      Call3("IF", test, One, V("x"), f, root, fuel - 1, Num(t), Num(1), Num(a));
    }
    var c := Closure([], App("IF", [test, One, App("POWER", [V("x"), App("SUBTRACT", [V("y"), One])])]), f);
    assert Eval(delayed, f, root, fuel - 1) == Ok(c);
    Call2("mul", pick, delayed, f, root, fuel - 1, Num(v), c);
    assert PowerBody2 == App("mul", [pick, delayed]);
  }

  /** DIV never returns: IF evaluates both branches, so every call
      `(DIV a b)` calls DIV again on `b - 1` before IF can choose, until the
      fuel runs out (in JavaScript, until the stack overflows). The DIV
      tests' 0, 5 and 6 are not what this evaluator computes. */
  lemma DivNeverReturns(a: int, b: int, fuel: nat)
    requires fuel >= 1
    ensures RunProgram(Program(Header, App("DIV", [Numeral(a), Numeral(b)])), fuel) == Err(OutOfFuel)
  {
    WithHeader(App("DIV", [Numeral(a), Numeral(b)]), fuel);
    HeaderDefines();
    NumeralValue(a, HeaderEnv, fuel);
    NumeralValue(b, HeaderEnv, fuel);
    Call2("DIV", Numeral(a), Numeral(b), Root, HeaderEnv, fuel, Num(a), Num(b));
    DivBodyDiverges(HeaderEnv, fuel, a, b);
  }

  lemma {:induction false} DivBodyDiverges(root: map<string, Value>, fuel: nat, a: int, b: int)
    requires Defined(root) && Has(root, "DIV", Closure(["x", "y"], DivBody, Root))
    ensures Apply(root["DIV"], [Num(a), Num(b)], root, fuel) == Err(OutOfFuel)
    decreases fuel
  {
    if fuel == 0 {
      assert [Num(b)][1..] == [] && [Num(a), Num(b)][1..] == [Num(b)];
      assert ["x", "y"][1..] == ["y"] && ["y"][1..] == [];
      assert BindParams(["y"], [Num(b)], root["x" := Num(a)]) == Ok(root["x" := Num(a)]["y" := Num(b)]);
      assert BindParams(["x", "y"], [Num(a), Num(b)], root).Ok?;
    } else {
      Enter2("x", "y", DivBody, root, fuel, Num(a), Num(b));
      DivBodyDiverges(root, fuel - 1, a, b - 1);
      DivRecursionRunsOut(root, fuel - 1, a, b);
      DivChoiceRunsOut(root, fuel - 1, a, b);
    }
  }

  /** The recursive call `(DIV x (SUBTRACT y 1))` inside the body runs out,
      given that DIV on `b - 1` does. */
  lemma DivRecursionRunsOut(root: map<string, Value>, k: nat, a: int, b: int)
    requires Defined(root) && Has(root, "DIV", Closure(["x", "y"], DivBody, Root))
    requires Apply(root["DIV"], [Num(a), Num(b - 1)], root, k) == Err(OutOfFuel)
    ensures Eval(App("DIV", [V("x"), App("SUBTRACT", [V("y"), One])]), Frame(root["x" := Num(a)]["y" := Num(b)]), root, k)
      == Err(OutOfFuel)
  {
    var f := Frame(root["x" := Num(a)]["y" := Num(b)]);
    var sub := App("SUBTRACT", [V("y"), One]);
    assert Eval(sub, f, root, 1) == Ok(Num(b - 1)) by {
      SubtractComputes(root, 1, b, 1);
      Call2("SUBTRACT", V("y"), One, f, root, 1, Num(b), Num(1));
    }
    OkOrOutOfFuel(sub, f, root, k, 1, Num(b - 1));
    if Eval(sub, f, root, k) == Err(OutOfFuel) {
      ArgsOutOfFuel([V("x"), sub], f, root, k, 1);
    } else {
      Call2("DIV", V("x"), sub, f, root, k, Num(a), Num(b - 1));
    }
  }

  /** The inner IF evaluates all its arguments, the recursive call among
      them, so it runs out when that call does. */
  lemma DivInnerRunsOut(root: map<string, Value>, k: nat, a: int, b: int)
    requires Defined(root)
    requires Eval(App("DIV", [V("x"), App("SUBTRACT", [V("y"), One])]), Frame(root["x" := Num(a)]["y" := Num(b)]), root, k)
      == Err(OutOfFuel)
    ensures Eval(App("IF", [App("EQUALS?", [V("y"), One]), V("x"), App("add", [App("DIV", [V("x"), App("SUBTRACT", [V("y"), One])]), One])]),
                 Frame(root["x" := Num(a)]["y" := Num(b)]), root, k) == Err(OutOfFuel)
  {
    var f := Frame(root["x" := Num(a)]["y" := Num(b)]);
    var rec := App("DIV", [V("x"), App("SUBTRACT", [V("y"), One])]);
    var inc := App("add", [rec, One]);
    var eq1 := App("EQUALS?", [V("y"), One]);
    ArgsOutOfFuel([rec, One], f, root, k, 0);
    assert Eval(eq1, f, root, 4) == Ok(Num(if b == 1 then 1 else 0)) by {
      EqualsComputes(root, 4, b, 1);
      Call2("EQUALS?", V("y"), One, f, root, 4, Num(b), Num(1));
    }
    OkOrOutOfFuel(eq1, f, root, k, 4, Num(if b == 1 then 1 else 0));
    ArgsOutOfFuel([eq1, V("x"), inc], f, root, k, 2);
  }

  /** The outer IF likewise runs out when the inner one does. */
  lemma DivChoiceRunsOut(root: map<string, Value>, k: nat, a: int, b: int)
    requires Defined(root)
    requires Eval(App("DIV", [V("x"), App("SUBTRACT", [V("y"), One])]), Frame(root["x" := Num(a)]["y" := Num(b)]), root, k)
      == Err(OutOfFuel)
    ensures Eval(DivBody, Frame(root["x" := Num(a)]["y" := Num(b)]), root, k) == Err(OutOfFuel)
  {
    var f := Frame(root["x" := Num(a)]["y" := Num(b)]);
    var inner := App("IF", [App("EQUALS?", [V("y"), One]), V("x"), App("add", [App("DIV", [V("x"), App("SUBTRACT", [V("y"), One])]), One])]);
    var eq0 := App("EQUALS?", [V("y"), V("ZERO")]);
    assert DivBody == App("IF", [eq0, V("ZERO"), inner]);
    DivInnerRunsOut(root, k, a, b);
    assert Eval(eq0, f, root, 4) == Ok(Num(if b == 0 then 1 else 0)) by {
      EqualsComputes(root, 4, b, 0);
      Call2("EQUALS?", V("y"), V("ZERO"), f, root, 4, Num(b), Num(0));
    }
    OkOrOutOfFuel(eq0, f, root, k, 4, Num(if b == 0 then 1 else 0));
    assert Eval(V("ZERO"), f, root, k) == Ok(Num(0));
    ArgsOutOfFuel([eq0, V("ZERO"), inner], f, root, k, 2);
  }

  // ---------------------------------------------------------------------
  // Names are looked up when a function runs.

  /** `bind f to [] -> g in bind g to 1 in (f)`: the body of `f` sees `g`,
      bound after `f` was. */
  lemma LateBinding(fuel: nat)
    requires fuel >= 1
    ensures RunProgram(Program([Binding("f", Lam([], V("g"))), Binding("g", One)], App("f", [])), fuel) == Ok(Num(1))
  {
    var bs := [Binding("f", Lam([], V("g"))), Binding("g", One)];
    var r1 := BuiltinEnv["f" := Closure([], V("g"), Root)];
    var r2 := r1["g" := Num(1)];
    assert Eval(FunLit([], V("g")), Root, BuiltinEnv, fuel) == Ok(Closure([], V("g"), Root));
    assert Eval(Int(1), Root, r1, fuel) == Ok(Num(1));
    assert bs[0] == Binding("f", Lam([], V("g")));
    assert bs[1..] == [Binding("g", One)] && bs[1..][1..] == [];
    assert Define(bs[0], BuiltinEnv, fuel) == Ok(r1);
    assert Define(Binding("g", One), r1, fuel) == Ok(r2);
    assert RunBindings(bs[1..], r1, fuel) == Ok(r2);
    assert RunBindings(bs, BuiltinEnv, fuel) == Ok(r2);
    assert BindParams([], [], r2) == Ok(r2);
    assert Apply(r2["f"], [], r2, fuel) == Ok(Num(1));
    assert EvalArgs([], Root, r2, fuel) == Ok([]);
    assert Eval(App("f", []), Root, r2, fuel) == Eval(Call("f", []), Root, r2, fuel);
  }

  /** `bind g to 1 in bind f to [] -> g in bind g to (add 1 1) in (f)`:
      re-binding `g` after `f` was defined changes what `f` returns. */
  lemma RebindingIsSeen(fuel: nat)
    requires fuel >= 1
    ensures RunProgram(Program([Binding("g", One), Binding("f", Lam([], V("g"))), Binding("g", App("add", [One, One]))],
                               App("f", [])), fuel) == Ok(Num(2))
  {
    var bs := [Binding("g", One), Binding("f", Lam([], V("g"))), Binding("g", App("add", [One, One]))];
    var r1 := BuiltinEnv["g" := Num(1)];
    var r2 := r1["f" := Closure([], V("g"), Root)];
    var r3 := r2["g" := Num(2)];
    assert Eval(Int(1), Root, BuiltinEnv, fuel) == Ok(Num(1));
    assert Eval(FunLit([], V("g")), Root, r1, fuel) == Ok(Closure([], V("g"), Root));
    assert Eval(One, Root, r2, fuel) == Ok(Num(1));
    Call2("add", One, One, Root, r2, fuel, Num(1), Num(1));
    assert bs[1..][0] == bs[1] && bs[1..][1..] == [bs[2]] && [bs[2]][1..] == [];
    assert RunBindings([bs[2]], r2, fuel) == Ok(r3);
    assert RunBindings(bs[1..], r1, fuel) == Ok(r3);
    assert RunBindings(bs, BuiltinEnv, fuel) == Ok(r3);
    assert BindParams([], [], r3) == Ok(r3);
    assert Apply(r3["f"], [], r3, fuel) == Ok(Num(2));
    assert EvalArgs([], Root, r3, fuel) == Ok([]);
    assert Eval(App("f", []), Root, r3, fuel) == Eval(Call("f", []), Root, r3, fuel);
  }
}
