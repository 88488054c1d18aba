/**
 * The definitions that the tests of src/tests/interpreter.test.js put in
 * front of every program (lines 16-47), as the trees the parser builds for
 * them, and what each of them computes on all numbers.
 */
module Prelude {
  import opened Syntax
  import opened Interpreter
  import opened InterpreterProperties

  // ---------------------------------------------------------------------
  // Trees as the parser builds them: calls, function literals and `1`
  // wrapped in a one-element list, identifiers bare.

  function App(f: string, args: seq<Expr>): Expr { Singleton(Call(f, args)) }
  function Lam(params: seq<string>, body: Expr): Expr { Singleton(FunLit(params, body)) }
  const One: Expr := Singleton(Int(1))
  function V(x: string): Expr { Ident(x) }

  const NextBody: Expr := App("add", [V("x"), One])
  const PrevBody: Expr := App("add", [V("x"), V("NEG_ONE")])
  const SubtractBody: Expr := App("add", [V("x"), App("mul", [V("y"), V("NEG_ONE")])])
  const AbsBody: Expr := App("mul", [V("x"), App("sign", [V("x")])])
  const TruthyBody: Expr := App("ABS", [App("sign", [V("x")])])
  const ZeroPBody: Expr := App("SUBTRACT", [One, App("TRUTHY?", [V("x")])])
  const IfBody: Expr :=
    App("add", [App("mul", [App("TRUTHY?", [V("cond")]), V("x")]),
                App("mul", [App("FALSY?", [V("cond")]), V("y")])])
  const AndBody: Expr := App("mul", [App("TRUTHY?", [V("x")]), App("TRUTHY?", [V("y")])])
  const OrBody: Expr := App("add", [App("TRUTHY?", [V("x")]), App("TRUTHY?", [V("y")])])
  const XorBody: Expr :=
    App("SUBTRACT", [App("add", [App("TRUTHY?", [V("x")]), App("TRUTHY?", [V("y")])]),
                     App("mul", [App("TRUTHY?", [V("x")]), App("TRUTHY?", [V("y")])])])
  const EqualsBody: Expr := App("ZERO?", [App("SUBTRACT", [V("x"), V("y")])])
  const NotEqualsBody: Expr := App("NOT", [App("EQUALS?", [V("x"), V("y")])])
  const GreaterBody: Expr := App("EQUALS?", [App("sign", [App("SUBTRACT", [V("x"), V("y")])]), One])
  const GreaterEqBody: Expr := App("OR", [App("GREATER_THAN?", [V("x"), V("y")]), App("EQUALS?", [V("x"), V("y")])])
  const LessBody: Expr := App("EQUALS?", [App("sign", [App("SUBTRACT", [V("x"), V("y")])]), V("NEG_ONE")])
  const LessEqBody: Expr := App("OR", [App("LESS_THAN?", [V("x"), V("y")]), App("EQUALS?", [V("x"), V("y")])])
  const PowerBody: Expr :=
    App("IF", [App("LESS_THAN_OR_EQUAL_TO?", [V("y"), V("ZERO")]), One,
               App("mul", [V("x"), App("POWER", [V("x"), App("SUBTRACT", [V("y"), One])])])])
  const PowerBody2: Expr :=
    App("mul", [App("IF", [App("LESS_THAN_OR_EQUAL_TO?", [V("y"), V("ZERO")]), One, V("x")]),
                Lam([], App("IF", [App("LESS_THAN_OR_EQUAL_TO?", [V("y"), V("ZERO")]), One,
                                   App("POWER", [V("x"), App("SUBTRACT", [V("y"), One])])]))])
  const DivBody: Expr :=
    App("IF", [App("EQUALS?", [V("y"), V("ZERO")]), V("ZERO"),
               App("IF", [App("EQUALS?", [V("y"), One]), V("x"),
                          App("add", [App("DIV", [V("x"), App("SUBTRACT", [V("y"), One])]), One])])])

  /** The header, binding by binding: the numbers, the logic, and the
      comparisons and arithmetic built on them. */
  const Header: seq<Binding> := Numbers + Logic + Predicates

  const Numbers: seq<Binding> := [
    Binding("NEG_ONE", App("neg", [One])),
    Binding("ZERO", App("add", [One, V("NEG_ONE")])),
    Binding("NEXT", Lam(["x"], NextBody)),
    Binding("PREV", Lam(["x"], PrevBody)),
    Binding("TWO", App("NEXT", [One])),
    Binding("THREE", App("NEXT", [V("TWO")])),
    Binding("FOUR", App("NEXT", [V("THREE")])),
    Binding("FIVE", App("NEXT", [V("FOUR")]))
  ]

  const Logic: seq<Binding> := [
    Binding("SUBTRACT", Lam(["x", "y"], SubtractBody)),
    Binding("ABS", Lam(["x"], AbsBody)),
    Binding("TRUTHY?", Lam(["x"], TruthyBody)),
    Binding("ZERO?", Lam(["x"], ZeroPBody)),
    Binding("NOT", V("ZERO?")),
    Binding("FALSY?", V("NOT")),
    Binding("TRUE", One),
    Binding("FALSE", V("ZERO"))
  ]

  const Predicates: seq<Binding> := [
    Binding("IF", Lam(["cond", "x", "y"], IfBody)),
    Binding("AND", Lam(["x", "y"], AndBody)),
    Binding("OR", Lam(["x", "y"], OrBody)),
    Binding("XOR", Lam(["x", "y"], XorBody)),
    Binding("EQUALS?", Lam(["x", "y"], EqualsBody)),
    Binding("NOT_EQUALS?", Lam(["x", "y"], NotEqualsBody)),
    Binding("GREATER_THAN?", Lam(["x", "y"], GreaterBody)),
    Binding("GREATER_THAN_OR_EQUAL_TO?", Lam(["x", "y"], GreaterEqBody)),
    Binding("LESS_THAN?", Lam(["x", "y"], LessBody)),
    Binding("LESS_THAN_OR_EQUAL_TO?", Lam(["x", "y"], LessEqBody)),
    Binding("POWER", Lam(["x", "y"], PowerBody)),
    Binding("POWER", Lam(["x", "y"], PowerBody2)),
    Binding("DIV", Lam(["x", "y"], DivBody))
  ]

  predicate Has(root: map<string, Value>, name: string, v: Value) {
    name in root && root[name] == v
  }

  /** The definitions the lemmas below use, as the header leaves them. */
  predicate Defined(root: map<string, Value>) {
    && Has(root, "add", Prim(Add)) && Has(root, "mul", Prim(Mul))
    && Has(root, "sign", Prim(Sign)) && Has(root, "neg", Prim(Neg))
    && Has(root, "NEG_ONE", Num(-1))
    && Has(root, "ZERO", Num(0))
    && Has(root, "NEXT", Closure(["x"], NextBody, Root))
    && Has(root, "PREV", Closure(["x"], PrevBody, Root))
    && Has(root, "SUBTRACT", Closure(["x", "y"], SubtractBody, Root))
    && Has(root, "ABS", Closure(["x"], AbsBody, Root))
    && Has(root, "TRUTHY?", Closure(["x"], TruthyBody, Root))
    && Has(root, "ZERO?", Closure(["x"], ZeroPBody, Root))
    && Has(root, "NOT", Closure(["x"], ZeroPBody, Root))
    && Has(root, "FALSY?", Closure(["x"], ZeroPBody, Root))
    && Has(root, "IF", Closure(["cond", "x", "y"], IfBody, Root))
    && Has(root, "AND", Closure(["x", "y"], AndBody, Root))
    && Has(root, "OR", Closure(["x", "y"], OrBody, Root))
    && Has(root, "XOR", Closure(["x", "y"], XorBody, Root))
    && Has(root, "EQUALS?", Closure(["x", "y"], EqualsBody, Root))
    && Has(root, "NOT_EQUALS?", Closure(["x", "y"], NotEqualsBody, Root))
    && Has(root, "GREATER_THAN?", Closure(["x", "y"], GreaterBody, Root))
    && Has(root, "GREATER_THAN_OR_EQUAL_TO?", Closure(["x", "y"], GreaterEqBody, Root))
    && Has(root, "LESS_THAN?", Closure(["x", "y"], LessBody, Root))
    && Has(root, "LESS_THAN_OR_EQUAL_TO?", Closure(["x", "y"], LessEqBody, Root))
  }

  // ---------------------------------------------------------------------
  // Steps of evaluation.

  lemma Call1(f: string, a: Expr, scope: Scope, root: map<string, Value>, fuel: nat, u: Value)
    requires f in Vars(scope, root) && !Vars(scope, root)[f].Num?
    requires Eval(a, scope, root, fuel) == Ok(u)
    ensures Eval(App(f, [a]), scope, root, fuel) == Apply(Vars(scope, root)[f], [u], root, fuel)
  {
    assert [a][1..] == [] && [a][0] == a;
    assert EvalArgs([], scope, root, fuel) == Ok([]);
    assert [u] + [] == [u];
    assert EvalArgs([a], scope, root, fuel) == Ok([u]);
    assert Eval(App(f, [a]), scope, root, fuel) == Eval(Call(f, [a]), scope, root, fuel);
  }

  lemma Call2(f: string, a: Expr, b: Expr, scope: Scope, root: map<string, Value>, fuel: nat, u: Value, w: Value)
    requires f in Vars(scope, root) && !Vars(scope, root)[f].Num?
    requires Eval(a, scope, root, fuel) == Ok(u) && Eval(b, scope, root, fuel) == Ok(w)
    ensures Eval(App(f, [a, b]), scope, root, fuel) == Apply(Vars(scope, root)[f], [u, w], root, fuel)
  {
    assert [a, b][1..] == [b] && [a, b][0] == a;
    assert [b][1..] == [] && [b][0] == b;
    assert EvalArgs([], scope, root, fuel) == Ok([]);
    assert [w] + [] == [w] && [u] + [w] == [u, w];
    assert EvalArgs([b], scope, root, fuel) == Ok([w]);
    assert EvalArgs([a, b], scope, root, fuel) == Ok([u, w]);
    assert Eval(App(f, [a, b]), scope, root, fuel) == Eval(Call(f, [a, b]), scope, root, fuel);
  }

  lemma Call3(f: string, a: Expr, b: Expr, c: Expr, scope: Scope, root: map<string, Value>, fuel: nat,
              u: Value, w: Value, z: Value)
    requires f in Vars(scope, root) && !Vars(scope, root)[f].Num?
    requires Eval(a, scope, root, fuel) == Ok(u) && Eval(b, scope, root, fuel) == Ok(w)
    requires Eval(c, scope, root, fuel) == Ok(z)
    ensures Eval(App(f, [a, b, c]), scope, root, fuel) == Apply(Vars(scope, root)[f], [u, w, z], root, fuel)
  {
    assert [a, b, c][1..] == [b, c] && [a, b, c][0] == a;
    assert [b, c][1..] == [c] && [b, c][0] == b;
    assert [c][1..] == [] && [c][0] == c;
    assert EvalArgs([], scope, root, fuel) == Ok([]);
    assert [z] + [] == [z] && [w] + [z] == [w, z] && [u] + [w, z] == [u, w, z];
    assert EvalArgs([c], scope, root, fuel) == Ok([z]);
    assert EvalArgs([b, c], scope, root, fuel) == Ok([w, z]);
    assert EvalArgs([a, b, c], scope, root, fuel) == Ok([u, w, z]);
    assert Eval(App(f, [a, b, c]), scope, root, fuel) == Eval(Call(f, [a, b, c]), scope, root, fuel);
  }

  lemma Enter1(x: string, body: Expr, root: map<string, Value>, fuel: nat, u: Value)
    requires x !in Builtins && fuel >= 1
    ensures Apply(Closure([x], body, Root), [u], root, fuel) == Eval(body, Frame(root[x := u]), root, fuel - 1)
  {
    assert [x][1..] == [];
    assert [u][1..] == [];
    assert BindParams([x], [u], root) == Ok(root[x := u]);
  }

  lemma Enter2(x: string, y: string, body: Expr, root: map<string, Value>, fuel: nat, u: Value, w: Value)
    requires x !in Builtins && y !in Builtins && fuel >= 1
    ensures Apply(Closure([x, y], body, Root), [u, w], root, fuel) ==
      Eval(body, Frame(root[x := u][y := w]), root, fuel - 1)
  {
    assert [x, y][1..] == [y];
    assert [u, w][1..] == [w];
    assert [y][1..] == [];
    assert [w][1..] == [];
    assert BindParams([y], [w], root[x := u]) == Ok(root[x := u][y := w]);
    assert BindParams([x, y], [u, w], root) == Ok(root[x := u][y := w]);
  }

  lemma Enter3(x: string, y: string, z: string, body: Expr, root: map<string, Value>, fuel: nat,
               u: Value, w: Value, v: Value)
    requires x !in Builtins && y !in Builtins && z !in Builtins && fuel >= 1
    ensures Apply(Closure([x, y, z], body, Root), [u, w, v], root, fuel) ==
      Eval(body, Frame(root[x := u][y := w][z := v]), root, fuel - 1)
  {
    assert [x, y, z][1..] == [y, z];
    assert [u, w, v][1..] == [w, v];
    assert [y, z][1..] == [z];
    assert [w, v][1..] == [v];
    assert [z][1..] == [];
    assert [v][1..] == [];
    assert BindParams([z], [v], root[x := u][y := w]) == Ok(root[x := u][y := w][z := v]);
    assert BindParams([y, z], [w, v], root[x := u]) == Ok(root[x := u][y := w][z := v]);
    assert BindParams([x, y, z], [u, w, v], root) == Ok(root[x := u][y := w][z := v]);
  }

  /** 1 for a number other than 0, 0 for 0. */
  function Truth(a: int): int { if a == 0 then 0 else 1 }

  // ---------------------------------------------------------------------
  // What the definitions compute.

  lemma NextAddsOne(root: map<string, Value>, fuel: nat, a: int)
    requires Has(root, "add", Prim(Add)) && Has(root, "NEXT", Closure(["x"], NextBody, Root)) && fuel >= 1
    ensures Apply(root["NEXT"], [Num(a)], root, fuel) == Ok(Num(a + 1))
  {
    var f := Frame(root["x" := Num(a)]);
    Enter1("x", NextBody, root, fuel, Num(a));
    Call2("add", V("x"), One, f, root, fuel - 1, Num(a), Num(1));
  }

  lemma PrevSubtractsOne(root: map<string, Value>, fuel: nat, a: int)
    requires Defined(root) && fuel >= 1
    ensures Apply(root["PREV"], [Num(a)], root, fuel) == Ok(Num(a - 1))
  {
    var f := Frame(root["x" := Num(a)]);
    Enter1("x", PrevBody, root, fuel, Num(a));
    Call2("add", V("x"), V("NEG_ONE"), f, root, fuel - 1, Num(a), Num(-1));
  }

  lemma SubtractComputes(root: map<string, Value>, fuel: nat, a: int, b: int)
    requires Defined(root) && fuel >= 1
    ensures Apply(root["SUBTRACT"], [Num(a), Num(b)], root, fuel) == Ok(Num(a - b))
  {
    var f := Frame(root["x" := Num(a)]["y" := Num(b)]);
    Enter2("x", "y", SubtractBody, root, fuel, Num(a), Num(b));
    Call2("mul", V("y"), V("NEG_ONE"), f, root, fuel - 1, Num(b), Num(-1));
    Call2("add", V("x"), App("mul", [V("y"), V("NEG_ONE")]), f, root, fuel - 1, Num(a), Num(-b));
  }

  lemma AbsComputes(root: map<string, Value>, fuel: nat, a: int)
    requires Defined(root) && fuel >= 1
    ensures Apply(root["ABS"], [Num(a)], root, fuel) == Ok(Num(if a < 0 then -a else a))
  {
    var f := Frame(root["x" := Num(a)]);
    var s := if a > 0 then 1 else if a < 0 then -1 else 0;
    Enter1("x", AbsBody, root, fuel, Num(a));
    Call1("sign", V("x"), f, root, fuel - 1, Num(a));
    Call2("mul", V("x"), App("sign", [V("x")]), f, root, fuel - 1, Num(a), Num(s));
  }

  lemma TruthyComputes(root: map<string, Value>, fuel: nat, a: int)
    requires Defined(root) && fuel >= 2
    ensures Apply(root["TRUTHY?"], [Num(a)], root, fuel) == Ok(Num(Truth(a)))
  {
    var f := Frame(root["x" := Num(a)]);
    var s := if a > 0 then 1 else if a < 0 then -1 else 0;
    Enter1("x", TruthyBody, root, fuel, Num(a));
    Call1("sign", V("x"), f, root, fuel - 1, Num(a));
    AbsComputes(root, fuel - 1, s);
    Call1("ABS", App("sign", [V("x")]), f, root, fuel - 1, Num(s));
  }

  /** `ZERO?`, and `NOT` and `FALSY?`, which are the same function. */
  lemma ZeroPComputes(root: map<string, Value>, fuel: nat, a: int)
    requires Defined(root) && fuel >= 3
    ensures Apply(root["ZERO?"], [Num(a)], root, fuel) == Ok(Num(1 - Truth(a)))
  {
    var f := Frame(root["x" := Num(a)]);
    Enter1("x", ZeroPBody, root, fuel, Num(a));
    TruthyComputes(root, fuel - 1, a);
    Call1("TRUTHY?", V("x"), f, root, fuel - 1, Num(a));
    SubtractComputes(root, fuel - 1, 1, Truth(a));
    Call2("SUBTRACT", One, App("TRUTHY?", [V("x")]), f, root, fuel - 1, Num(1), Num(Truth(a)));
  }

  /** `IF` picks its second argument when the first is not 0 and its third
      when it is, for number branches (both are evaluated beforehand). */
  lemma IfSelects(root: map<string, Value>, fuel: nat, c: int, a: int, b: int)
    requires Defined(root) && fuel >= 4
    ensures Apply(root["IF"], [Num(c), Num(a), Num(b)], root, fuel) == Ok(Num(if c != 0 then a else b))
  {
    var f := Frame(root["cond" := Num(c)]["x" := Num(a)]["y" := Num(b)]);
    var ta, zb := if c != 0 then a else 0, if c != 0 then 0 else b;
    var left := App("mul", [App("TRUTHY?", [V("cond")]), V("x")]);
    var right := App("mul", [App("FALSY?", [V("cond")]), V("y")]);
    Enter3("cond", "x", "y", IfBody, root, fuel, Num(c), Num(a), Num(b));
    assert Eval(left, f, root, fuel - 1) == Ok(Num(ta)) by {
      TruthyComputes(root, fuel - 1, c);
      Call1("TRUTHY?", V("cond"), f, root, fuel - 1, Num(c));
      Call2("mul", App("TRUTHY?", [V("cond")]), V("x"), f, root, fuel - 1, Num(Truth(c)), Num(a));
      assert Truth(c) * a == ta;
    }
    assert Eval(right, f, root, fuel - 1) == Ok(Num(zb)) by {
      ZeroPComputes(root, fuel - 1, c);
      Call1("FALSY?", V("cond"), f, root, fuel - 1, Num(c));
      Call2("mul", App("FALSY?", [V("cond")]), V("y"), f, root, fuel - 1, Num(1 - Truth(c)), Num(b));
      assert (1 - Truth(c)) * b == zb;
    }
    Call2("add", left, right, f, root, fuel - 1, Num(ta), Num(zb));
    assert IfBody == App("add", [left, right]);
    assert Vars(f, root)["add"] == Prim(Add);
    assert ApplyPrim(Add, [Num(ta), Num(zb)]) == Ok(Num(if c != 0 then a else b));
  }

  lemma AndComputes(root: map<string, Value>, fuel: nat, a: int, b: int)
    requires Defined(root) && fuel >= 3
    ensures Apply(root["AND"], [Num(a), Num(b)], root, fuel) == Ok(Num(if a != 0 && b != 0 then 1 else 0))
  {
    var f := Frame(root["x" := Num(a)]["y" := Num(b)]);
    Enter2("x", "y", AndBody, root, fuel, Num(a), Num(b));
    TruthyComputes(root, fuel - 1, a);
    TruthyComputes(root, fuel - 1, b);
    Call1("TRUTHY?", V("x"), f, root, fuel - 1, Num(a));
    Call1("TRUTHY?", V("y"), f, root, fuel - 1, Num(b));
    Call2("mul", App("TRUTHY?", [V("x")]), App("TRUTHY?", [V("y")]), f, root, fuel - 1, Num(Truth(a)), Num(Truth(b)));
  }

  /** `OR` counts its true arguments: 2 when both are. */
  lemma OrCounts(root: map<string, Value>, fuel: nat, a: int, b: int)
    requires Defined(root) && fuel >= 3
    ensures Apply(root["OR"], [Num(a), Num(b)], root, fuel) == Ok(Num(Truth(a) + Truth(b)))
  {
    var f := Frame(root["x" := Num(a)]["y" := Num(b)]);
    Enter2("x", "y", OrBody, root, fuel, Num(a), Num(b));
    TruthyComputes(root, fuel - 1, a);
    TruthyComputes(root, fuel - 1, b);
    Call1("TRUTHY?", V("x"), f, root, fuel - 1, Num(a));
    Call1("TRUTHY?", V("y"), f, root, fuel - 1, Num(b));
    Call2("add", App("TRUTHY?", [V("x")]), App("TRUTHY?", [V("y")]), f, root, fuel - 1, Num(Truth(a)), Num(Truth(b)));
  }

  /** `XOR` as defined is 1 when either argument is true, both included. */
  lemma XorIsInclusive(root: map<string, Value>, fuel: nat, a: int, b: int)
    requires Defined(root) && fuel >= 3
    ensures Apply(root["XOR"], [Num(a), Num(b)], root, fuel) == Ok(Num(if a != 0 || b != 0 then 1 else 0))
  {
    var f := Frame(root["x" := Num(a)]["y" := Num(b)]);
    var ta, tb := Truth(a), Truth(b);
    Enter2("x", "y", XorBody, root, fuel, Num(a), Num(b));
    TruthyComputes(root, fuel - 1, a);
    TruthyComputes(root, fuel - 1, b);
    Call1("TRUTHY?", V("x"), f, root, fuel - 1, Num(a));
    Call1("TRUTHY?", V("y"), f, root, fuel - 1, Num(b));
    Call2("add", App("TRUTHY?", [V("x")]), App("TRUTHY?", [V("y")]), f, root, fuel - 1, Num(ta), Num(tb));
    Call2("mul", App("TRUTHY?", [V("x")]), App("TRUTHY?", [V("y")]), f, root, fuel - 1, Num(ta), Num(tb));
    SubtractComputes(root, fuel - 1, ta + tb, ta * tb);
    Call2("SUBTRACT", App("add", [App("TRUTHY?", [V("x")]), App("TRUTHY?", [V("y")])]),
          App("mul", [App("TRUTHY?", [V("x")]), App("TRUTHY?", [V("y")])]), f, root, fuel - 1, Num(ta + tb), Num(ta * tb));
  }

  lemma EqualsComputes(root: map<string, Value>, fuel: nat, a: int, b: int)
    requires Defined(root) && fuel >= 4
    ensures Apply(root["EQUALS?"], [Num(a), Num(b)], root, fuel) == Ok(Num(if a == b then 1 else 0))
  {
    var f := Frame(root["x" := Num(a)]["y" := Num(b)]);
    Enter2("x", "y", EqualsBody, root, fuel, Num(a), Num(b));
    SubtractComputes(root, fuel - 1, a, b);
    Call2("SUBTRACT", V("x"), V("y"), f, root, fuel - 1, Num(a), Num(b));
    ZeroPComputes(root, fuel - 1, a - b);
    Call1("ZERO?", App("SUBTRACT", [V("x"), V("y")]), f, root, fuel - 1, Num(a - b));
  }

  lemma NotEqualsComputes(root: map<string, Value>, fuel: nat, a: int, b: int)
    requires Defined(root) && fuel >= 5
    ensures Apply(root["NOT_EQUALS?"], [Num(a), Num(b)], root, fuel) == Ok(Num(if a != b then 1 else 0))
  {
    var f := Frame(root["x" := Num(a)]["y" := Num(b)]);
    var e := if a == b then 1 else 0;
    Enter2("x", "y", NotEqualsBody, root, fuel, Num(a), Num(b));
    EqualsComputes(root, fuel - 1, a, b);
    Call2("EQUALS?", V("x"), V("y"), f, root, fuel - 1, Num(a), Num(b));
    ZeroPComputes(root, fuel - 1, e);
    Call1("NOT", App("EQUALS?", [V("x"), V("y")]), f, root, fuel - 1, Num(e));
  }

  lemma GreaterComputes(root: map<string, Value>, fuel: nat, a: int, b: int)
    requires Defined(root) && fuel >= 5
    ensures Apply(root["GREATER_THAN?"], [Num(a), Num(b)], root, fuel) == Ok(Num(if a > b then 1 else 0))
  {
    var f := Frame(root["x" := Num(a)]["y" := Num(b)]);
    var s := if a - b > 0 then 1 else if a - b < 0 then -1 else 0;
    Enter2("x", "y", GreaterBody, root, fuel, Num(a), Num(b));
    SubtractComputes(root, fuel - 1, a, b);
    Call2("SUBTRACT", V("x"), V("y"), f, root, fuel - 1, Num(a), Num(b));
    Call1("sign", App("SUBTRACT", [V("x"), V("y")]), f, root, fuel - 1, Num(a - b));
    EqualsComputes(root, fuel - 1, s, 1);
    Call2("EQUALS?", App("sign", [App("SUBTRACT", [V("x"), V("y")])]), One, f, root, fuel - 1, Num(s), Num(1));
  }

  lemma LessComputes(root: map<string, Value>, fuel: nat, a: int, b: int)
    requires Defined(root) && fuel >= 5
    ensures Apply(root["LESS_THAN?"], [Num(a), Num(b)], root, fuel) == Ok(Num(if a < b then 1 else 0))
  {
    var f := Frame(root["x" := Num(a)]["y" := Num(b)]);
    var s := if a - b > 0 then 1 else if a - b < 0 then -1 else 0;
    Enter2("x", "y", LessBody, root, fuel, Num(a), Num(b));
    SubtractComputes(root, fuel - 1, a, b);
    Call2("SUBTRACT", V("x"), V("y"), f, root, fuel - 1, Num(a), Num(b));
    Call1("sign", App("SUBTRACT", [V("x"), V("y")]), f, root, fuel - 1, Num(a - b));
    EqualsComputes(root, fuel - 1, s, -1);
    Call2("EQUALS?", App("sign", [App("SUBTRACT", [V("x"), V("y")])]), V("NEG_ONE"), f, root, fuel - 1, Num(s), Num(-1));
  }

  lemma GreaterEqComputes(root: map<string, Value>, fuel: nat, a: int, b: int)
    requires Defined(root) && fuel >= 6
    ensures Apply(root["GREATER_THAN_OR_EQUAL_TO?"], [Num(a), Num(b)], root, fuel) == Ok(Num(if a >= b then 1 else 0))
  {
    var f := Frame(root["x" := Num(a)]["y" := Num(b)]);
    var g, e := if a > b then 1 else 0, if a == b then 1 else 0;
    Enter2("x", "y", GreaterEqBody, root, fuel, Num(a), Num(b));
    GreaterComputes(root, fuel - 1, a, b);
    Call2("GREATER_THAN?", V("x"), V("y"), f, root, fuel - 1, Num(a), Num(b));
    EqualsComputes(root, fuel - 1, a, b);
    Call2("EQUALS?", V("x"), V("y"), f, root, fuel - 1, Num(a), Num(b));
    OrCounts(root, fuel - 1, g, e);
    Call2("OR", App("GREATER_THAN?", [V("x"), V("y")]), App("EQUALS?", [V("x"), V("y")]), f, root, fuel - 1, Num(g), Num(e));
  }

  lemma LessEqComputes(root: map<string, Value>, fuel: nat, a: int, b: int)
    requires Defined(root) && fuel >= 6
    ensures Apply(root["LESS_THAN_OR_EQUAL_TO?"], [Num(a), Num(b)], root, fuel) == Ok(Num(if a <= b then 1 else 0))
  {
    var f := Frame(root["x" := Num(a)]["y" := Num(b)]);
    var l, e := if a < b then 1 else 0, if a == b then 1 else 0;
    Enter2("x", "y", LessEqBody, root, fuel, Num(a), Num(b));
    LessComputes(root, fuel - 1, a, b);
    Call2("LESS_THAN?", V("x"), V("y"), f, root, fuel - 1, Num(a), Num(b));
    EqualsComputes(root, fuel - 1, a, b);
    Call2("EQUALS?", V("x"), V("y"), f, root, fuel - 1, Num(a), Num(b));
    OrCounts(root, fuel - 1, l, e);
    Call2("OR", App("LESS_THAN?", [V("x"), V("y")]), App("EQUALS?", [V("x"), V("y")]), f, root, fuel - 1, Num(l), Num(e));
  }

  // ---------------------------------------------------------------------
  // Running the header.

  const R4: map<string, Value> := BuiltinEnv
    ["NEG_ONE" := Num(-1)]["ZERO" := Num(0)]
    ["NEXT" := Closure(["x"], NextBody, Root)]["PREV" := Closure(["x"], PrevBody, Root)]

  const R8: map<string, Value> := R4
    ["TWO" := Num(2)]["THREE" := Num(3)]["FOUR" := Num(4)]["FIVE" := Num(5)]

  const R12: map<string, Value> := R8
    ["SUBTRACT" := Closure(["x", "y"], SubtractBody, Root)]["ABS" := Closure(["x"], AbsBody, Root)]
    ["TRUTHY?" := Closure(["x"], TruthyBody, Root)]["ZERO?" := Closure(["x"], ZeroPBody, Root)]

  const R16: map<string, Value> := R12
    ["NOT" := Closure(["x"], ZeroPBody, Root)]["FALSY?" := Closure(["x"], ZeroPBody, Root)]
    ["TRUE" := Num(1)]["FALSE" := Num(0)]

  const R21: map<string, Value> := R16
    ["IF" := Closure(["cond", "x", "y"], IfBody, Root)]
    ["AND" := Closure(["x", "y"], AndBody, Root)]["OR" := Closure(["x", "y"], OrBody, Root)]
    ["XOR" := Closure(["x", "y"], XorBody, Root)]["EQUALS?" := Closure(["x", "y"], EqualsBody, Root)]

  const R25: map<string, Value> := R21
    ["NOT_EQUALS?" := Closure(["x", "y"], NotEqualsBody, Root)]
    ["GREATER_THAN?" := Closure(["x", "y"], GreaterBody, Root)]
    ["GREATER_THAN_OR_EQUAL_TO?" := Closure(["x", "y"], GreaterEqBody, Root)]
    ["LESS_THAN?" := Closure(["x", "y"], LessBody, Root)]

  /** The root environment after the header. */
  const HeaderEnv: map<string, Value> := R25
    ["LESS_THAN_OR_EQUAL_TO?" := Closure(["x", "y"], LessEqBody, Root)]
    ["POWER" := Closure(["x", "y"], PowerBody, Root)]
    ["POWER" := Closure(["x", "y"], PowerBody2, Root)]
    ["DIV" := Closure(["x", "y"], DivBody, Root)]

  /** One turn of the `Main` loop over `bs` from position `k`. */
  lemma RunFrom(bs: seq<Binding>, k: nat, root: map<string, Value>, fuel: nat, root': map<string, Value>)
    requires k < |bs| && Define(bs[k], root, fuel) == Ok(root')
    ensures RunBindings(bs[k..], root, fuel) == RunBindings(bs[k + 1..], root', fuel)
  {
    assert bs[k..][0] == bs[k];
    assert bs[k..][1..] == bs[k + 1..];
  }

  /** A binding to a function literal stores the closure, body unevaluated. */
  lemma DefineFunction(name: string, params: seq<string>, body: Expr, root: map<string, Value>, fuel: nat)
    requires name !in Builtins
    ensures Define(Binding(name, Lam(params, body)), root, fuel) == Ok(root[name := Closure(params, body, Root)])
  {
    assert Eval(FunLit(params, body), Root, root, fuel) == Ok(Closure(params, body, Root));
  }

  lemma RunNumbers(fuel: nat)
    requires fuel >= 1
    ensures RunBindings(Numbers, BuiltinEnv, fuel) == Ok(R8)
  {
    RunNumbersLow(fuel);
    RunNumbersHigh(fuel);
  }

  /** NEG_ONE, ZERO, NEXT and PREV. */
  lemma RunNumbersLow(fuel: nat)
    ensures RunBindings(Numbers, BuiltinEnv, fuel) == RunBindings(Numbers[4..], R4, fuel)
  {
    var r0 := BuiltinEnv;
    var r1 := r0["NEG_ONE" := Num(-1)];
    var r2 := r1["ZERO" := Num(0)];
    var r3 := r2["NEXT" := Closure(["x"], NextBody, Root)];
    assert Numbers[0..] == Numbers;
    Call1("neg", One, Root, r0, fuel, Num(1));
    RunFrom(Numbers, 0, r0, fuel, r1);
    Call2("add", One, V("NEG_ONE"), Root, r1, fuel, Num(1), Num(-1));
    RunFrom(Numbers, 1, r1, fuel, r2);
    DefineFunction("NEXT", ["x"], NextBody, r2, fuel);
    RunFrom(Numbers, 2, r2, fuel, r3);
    DefineFunction("PREV", ["x"], PrevBody, r3, fuel);
    RunFrom(Numbers, 3, r3, fuel, R4);
  }

  /** TWO to FIVE, each the NEXT of the one before. */
  lemma RunNumbersHigh(fuel: nat)
    requires fuel >= 1
    ensures RunBindings(Numbers[4..], R4, fuel) == Ok(R8)
  {
    var r4 := R4;
    var r5 := r4["TWO" := Num(2)];
    var r6 := r5["THREE" := Num(3)];
    var r7 := r6["FOUR" := Num(4)];
    NextAddsOne(r4, fuel, 1);
    Call1("NEXT", One, Root, r4, fuel, Num(1));
    RunFrom(Numbers, 4, r4, fuel, r5);
    NextAddsOne(r5, fuel, 2);
    Call1("NEXT", V("TWO"), Root, r5, fuel, Num(2));
    RunFrom(Numbers, 5, r5, fuel, r6);
    NextAddsOne(r6, fuel, 3);
    Call1("NEXT", V("THREE"), Root, r6, fuel, Num(3));
    RunFrom(Numbers, 6, r6, fuel, r7);
    NextAddsOne(r7, fuel, 4);
    Call1("NEXT", V("FOUR"), Root, r7, fuel, Num(4));
    RunFrom(Numbers, 7, r7, fuel, R8);
    assert Numbers[8..] == [];
  }

  /** SUBTRACT, ABS, TRUTHY? and ZERO?. */
  lemma RunLogicFunctions(fuel: nat)
    ensures RunBindings(Logic, R8, fuel) == RunBindings(Logic[4..], R12, fuel)
  {
    var r8 := R8;
    var r9 := r8["SUBTRACT" := Closure(["x", "y"], SubtractBody, Root)];
    var r10 := r9["ABS" := Closure(["x"], AbsBody, Root)];
    var r11 := r10["TRUTHY?" := Closure(["x"], TruthyBody, Root)];
    assert Logic[0..] == Logic;
    DefineFunction("SUBTRACT", ["x", "y"], SubtractBody, r8, fuel);
    RunFrom(Logic, 0, r8, fuel, r9);
    DefineFunction("ABS", ["x"], AbsBody, r9, fuel);
    RunFrom(Logic, 1, r9, fuel, r10);
    DefineFunction("TRUTHY?", ["x"], TruthyBody, r10, fuel);
    RunFrom(Logic, 2, r10, fuel, r11);
    DefineFunction("ZERO?", ["x"], ZeroPBody, r11, fuel);
    RunFrom(Logic, 3, r11, fuel, R12);
  }

  /** NOT and FALSY? are the ZERO? closure itself; TRUE and FALSE are 1 and 0. */
  lemma RunLogicAliases(fuel: nat)
    ensures RunBindings(Logic[4..], R12, fuel) == Ok(R16)
  {
    var r12 := R12;
    var r13 := r12["NOT" := Closure(["x"], ZeroPBody, Root)];
    var r14 := r13["FALSY?" := Closure(["x"], ZeroPBody, Root)];
    var r15 := r14["TRUE" := Num(1)];
    RunFrom(Logic, 4, r12, fuel, r13);
    RunFrom(Logic, 5, r13, fuel, r14);
    assert Eval(Int(1), Root, r14, fuel) == Ok(Num(1));
    RunFrom(Logic, 6, r14, fuel, r15);
    RunFrom(Logic, 7, r15, fuel, R16);
    assert Logic[8..] == [];
  }

  lemma RunPredicatesLow(fuel: nat)
    ensures RunBindings(Predicates, R16, fuel) == RunBindings(Predicates[5..], R21, fuel)
  {
    var r16 := R16;
    var r17 := r16["IF" := Closure(["cond", "x", "y"], IfBody, Root)];
    var r18 := r17["AND" := Closure(["x", "y"], AndBody, Root)];
    var r19 := r18["OR" := Closure(["x", "y"], OrBody, Root)];
    var r20 := r19["XOR" := Closure(["x", "y"], XorBody, Root)];
    assert Predicates[0..] == Predicates;
    DefineFunction("IF", ["cond", "x", "y"], IfBody, r16, fuel);
    RunFrom(Predicates, 0, r16, fuel, r17);
    DefineFunction("AND", ["x", "y"], AndBody, r17, fuel);
    RunFrom(Predicates, 1, r17, fuel, r18);
    DefineFunction("OR", ["x", "y"], OrBody, r18, fuel);
    RunFrom(Predicates, 2, r18, fuel, r19);
    DefineFunction("XOR", ["x", "y"], XorBody, r19, fuel);
    RunFrom(Predicates, 3, r19, fuel, r20);
    DefineFunction("EQUALS?", ["x", "y"], EqualsBody, r20, fuel);
    RunFrom(Predicates, 4, r20, fuel, R21);
  }

  lemma RunPredicatesMid(fuel: nat)
    ensures RunBindings(Predicates[5..], R21, fuel) == RunBindings(Predicates[9..], R25, fuel)
  {
    var r21 := R21;
    var r22 := r21["NOT_EQUALS?" := Closure(["x", "y"], NotEqualsBody, Root)];
    var r23 := r22["GREATER_THAN?" := Closure(["x", "y"], GreaterBody, Root)];
    var r24 := r23["GREATER_THAN_OR_EQUAL_TO?" := Closure(["x", "y"], GreaterEqBody, Root)];
    DefineFunction("NOT_EQUALS?", ["x", "y"], NotEqualsBody, r21, fuel);
    RunFrom(Predicates, 5, r21, fuel, r22);
    DefineFunction("GREATER_THAN?", ["x", "y"], GreaterBody, r22, fuel);
    RunFrom(Predicates, 6, r22, fuel, r23);
    DefineFunction("GREATER_THAN_OR_EQUAL_TO?", ["x", "y"], GreaterEqBody, r23, fuel);
    RunFrom(Predicates, 7, r23, fuel, r24);
    DefineFunction("LESS_THAN?", ["x", "y"], LessBody, r24, fuel);
    RunFrom(Predicates, 8, r24, fuel, R25);
  }

  /** LESS_THAN_OR_EQUAL_TO?, POWER twice (the second wins) and DIV. */
  lemma RunPredicatesHigh(fuel: nat)
    ensures RunBindings(Predicates[9..], R25, fuel) == Ok(HeaderEnv)
  {
    var r25 := R25;
    var r26 := r25["LESS_THAN_OR_EQUAL_TO?" := Closure(["x", "y"], LessEqBody, Root)];
    var r27 := r26["POWER" := Closure(["x", "y"], PowerBody, Root)];
    var r28 := r27["POWER" := Closure(["x", "y"], PowerBody2, Root)];
    DefineFunction("LESS_THAN_OR_EQUAL_TO?", ["x", "y"], LessEqBody, r25, fuel);
    RunFrom(Predicates, 9, r25, fuel, r26);
    DefineFunction("POWER", ["x", "y"], PowerBody, r26, fuel);
    RunFrom(Predicates, 10, r26, fuel, r27);
    DefineFunction("POWER", ["x", "y"], PowerBody2, r27, fuel);
    RunFrom(Predicates, 11, r27, fuel, r28);
    DefineFunction("DIV", ["x", "y"], DivBody, r28, fuel);
    RunFrom(Predicates, 12, r28, fuel, HeaderEnv);
    assert Predicates[13..] == [];
  }

  /** Every binding of the header succeeds from the built-ins, given fuel
      for the one closure call (NEXT) it makes at a time. */
  lemma RunHeader(fuel: nat)
    requires fuel >= 1
    ensures RunBindings(Header, BuiltinEnv, fuel) == Ok(HeaderEnv)
  {
    RunNumbers(fuel);
    RunLogicFunctions(fuel);
    RunLogicAliases(fuel);
    RunPredicatesLow(fuel);
    RunPredicatesMid(fuel);
    RunPredicatesHigh(fuel);
    RunBindingsAppend(Numbers, Logic, BuiltinEnv, fuel);
    RunBindingsAppend(Numbers + Logic, Predicates, BuiltinEnv, fuel);
  }

  /** What the header leaves behind: every definition the lemmas above rely
      on, the numbers TWO to FIVE, TRUE and FALSE, and the second POWER. */
  lemma HeaderDefines()
    ensures Defined(HeaderEnv)
    ensures Has(HeaderEnv, "TWO", Num(2)) && Has(HeaderEnv, "THREE", Num(3))
    ensures Has(HeaderEnv, "FOUR", Num(4)) && Has(HeaderEnv, "FIVE", Num(5))
    ensures Has(HeaderEnv, "TRUE", Num(1)) && Has(HeaderEnv, "FALSE", Num(0))
    ensures Has(HeaderEnv, "POWER", Closure(["x", "y"], PowerBody2, Root))
    ensures Has(HeaderEnv, "DIV", Closure(["x", "y"], DivBody, Root))
  {
    HeaderKeepsBuiltins();
    HeaderKeepsNumbers();
    HeaderKeepsLogic();
    HeaderKeepsAliases();
    HeaderKeepsPredicates();
  }

  lemma HeaderKeepsBuiltins()
    ensures Has(HeaderEnv, "add", Prim(Add)) && Has(HeaderEnv, "mul", Prim(Mul))
    ensures Has(HeaderEnv, "sign", Prim(Sign)) && Has(HeaderEnv, "neg", Prim(Neg))
  {
  }

  lemma HeaderKeepsNumbers()
    ensures Has(HeaderEnv, "NEG_ONE", Num(-1)) && Has(HeaderEnv, "ZERO", Num(0))
    ensures Has(HeaderEnv, "NEXT", Closure(["x"], NextBody, Root))
    ensures Has(HeaderEnv, "PREV", Closure(["x"], PrevBody, Root))
    ensures Has(HeaderEnv, "TWO", Num(2)) && Has(HeaderEnv, "THREE", Num(3))
    ensures Has(HeaderEnv, "FOUR", Num(4)) && Has(HeaderEnv, "FIVE", Num(5))
  {
    HeaderKeepsNegOneAndZero();
    HeaderKeepsNextAndPrev();
    HeaderKeepsTwoAndThree();
    HeaderKeepsFourAndFive();
  }

  lemma HeaderKeepsNegOneAndZero()
    ensures Has(HeaderEnv, "NEG_ONE", Num(-1)) && Has(HeaderEnv, "ZERO", Num(0))
  {
  }

  lemma HeaderKeepsNextAndPrev()
    ensures Has(HeaderEnv, "NEXT", Closure(["x"], NextBody, Root))
    ensures Has(HeaderEnv, "PREV", Closure(["x"], PrevBody, Root))
  {
  }

  lemma HeaderKeepsTwoAndThree()
    ensures Has(HeaderEnv, "TWO", Num(2)) && Has(HeaderEnv, "THREE", Num(3))
  {
  }

  lemma HeaderKeepsFourAndFive()
    ensures Has(HeaderEnv, "FOUR", Num(4)) && Has(HeaderEnv, "FIVE", Num(5))
  {
  }

  lemma HeaderKeepsLogic()
    ensures Has(HeaderEnv, "SUBTRACT", Closure(["x", "y"], SubtractBody, Root))
    ensures Has(HeaderEnv, "ABS", Closure(["x"], AbsBody, Root))
    ensures Has(HeaderEnv, "TRUTHY?", Closure(["x"], TruthyBody, Root))
    ensures Has(HeaderEnv, "ZERO?", Closure(["x"], ZeroPBody, Root))
  {
  }

  lemma HeaderKeepsAliases()
    ensures Has(HeaderEnv, "NOT", Closure(["x"], ZeroPBody, Root))
    ensures Has(HeaderEnv, "FALSY?", Closure(["x"], ZeroPBody, Root))
    ensures Has(HeaderEnv, "TRUE", Num(1)) && Has(HeaderEnv, "FALSE", Num(0))
  {
  }

  lemma HeaderKeepsPredicates()
    ensures Has(HeaderEnv, "IF", Closure(["cond", "x", "y"], IfBody, Root))
    ensures Has(HeaderEnv, "AND", Closure(["x", "y"], AndBody, Root))
    ensures Has(HeaderEnv, "OR", Closure(["x", "y"], OrBody, Root))
    ensures Has(HeaderEnv, "XOR", Closure(["x", "y"], XorBody, Root))
    ensures Has(HeaderEnv, "EQUALS?", Closure(["x", "y"], EqualsBody, Root))
    ensures Has(HeaderEnv, "NOT_EQUALS?", Closure(["x", "y"], NotEqualsBody, Root))
    ensures Has(HeaderEnv, "GREATER_THAN?", Closure(["x", "y"], GreaterBody, Root))
    ensures Has(HeaderEnv, "GREATER_THAN_OR_EQUAL_TO?", Closure(["x", "y"], GreaterEqBody, Root))
    ensures Has(HeaderEnv, "LESS_THAN?", Closure(["x", "y"], LessBody, Root))
    ensures Has(HeaderEnv, "LESS_THAN_OR_EQUAL_TO?", Closure(["x", "y"], LessEqBody, Root))
    ensures Has(HeaderEnv, "POWER", Closure(["x", "y"], PowerBody2, Root))
    ensures Has(HeaderEnv, "DIV", Closure(["x", "y"], DivBody, Root))
  {
  }
}
