/**
 * What src/interpreter.js guarantees about evaluation, stated on `Eval`.
 */
module InterpreterProperties {
  import opened Syntax
  import opened Interpreter

  // ---------------------------------------------------------------------
  // The built-ins on numbers; arguments beyond their arity are ignored.

  lemma BuiltinsBehave(a: int, b: int, extra: seq<Value>)
    ensures ApplyPrim(Add, [Num(a), Num(b)] + extra) == Ok(Num(a + b))
    ensures ApplyPrim(Mul, [Num(a), Num(b)] + extra) == Ok(Num(a * b))
    ensures ApplyPrim(Neg, [Num(a)] + extra) == Ok(Num(-a))
    ensures ApplyPrim(Sign, [Num(a)] + extra) == Ok(Num(if a > 0 then 1 else if a < 0 then -1 else 0))
  {
  }

  // ---------------------------------------------------------------------
  // Closure application: the parameter loop.

  /** The loop fails exactly when a parameter has a built-in name, and then
      on the first such parameter. */
  lemma {:induction false} BindParamsFails(params: seq<string>, args: seq<Value>, env: map<string, Value>)
    requires |params| == |args|
    ensures BindParams(params, args, env).Ok? <==> forall k :: 0 <= k < |params| ==> params[k] !in Builtins
    ensures BindParams(params, args, env).Err? ==> exists k :: (0 <= k < |params|
      && params[k] in Builtins
      && BindParams(params, args, env).error == ParamIsBuiltin(params[k])
      && (forall j :: 0 <= j < k ==> params[j] !in Builtins))
  {
    if params != [] && params[0] !in Builtins {
      BindParamsFails(params[1..], args[1..], env[params[0] := args[0]]);
      var r := BindParams(params, args, env);
      if r.Err? {
        var k :| 0 <= k < |params[1..]|
          && params[1..][k] in Builtins
          && r.error == ParamIsBuiltin(params[1..][k])
          && (forall j :: 0 <= j < k ==> params[1..][j] !in Builtins);
        assert params[k + 1] == params[1..][k];
        assert forall j :: 0 <= j < k + 1 ==> params[j] !in Builtins by {
          forall j | 0 < j < k + 1 ensures params[j] !in Builtins {
            assert params[j] == params[1..][j - 1];
          }
        }
      }
      if forall k :: 0 <= k < |params[1..]| ==> params[1..][k] !in Builtins {
        forall k | 0 <= k < |params| ensures params[k] !in Builtins {
          if k > 0 { assert params[k] == params[1..][k - 1]; }
        }
      }
    }
  }

  /** On success, the copy holds every parameter bound to the argument at
      the same position (the last one wins when a name repeats), and every
      other name keeps its value from the captured environment. */
  lemma BindParamsFills(params: seq<string>, args: seq<Value>, env: map<string, Value>)
    requires |params| == |args| && BindParams(params, args, env).Ok?
    ensures var local := BindParams(params, args, env).value;
      && local.Keys == env.Keys + (set p | p in params)
      && (forall k :: 0 <= k < |params| && (forall j :: k < j < |params| ==> params[j] != params[k]) ==>
            local[params[k]] == args[k])
      && (forall x :: x in env && x !in params ==> local[x] == env[x])
  {
    BindParamsKeys(params, args, env);
    forall k | 0 <= k < |params| && (forall j :: k < j < |params| ==> params[j] != params[k])
      ensures BindParams(params, args, env).value[params[k]] == args[k]
    {
      BindParamsLastWins(params, args, env, k);
    }
    BindParamsKeeps(params, args, env);
  }

  lemma {:induction false} BindParamsKeys(params: seq<string>, args: seq<Value>, env: map<string, Value>)
    requires |params| == |args| && BindParams(params, args, env).Ok?
    ensures BindParams(params, args, env).value.Keys == env.Keys + (set p | p in params)
  {
    if params != [] {
      BindParamsKeys(params[1..], args[1..], env[params[0] := args[0]]);
      assert (set p | p in params) == {params[0]} + (set p | p in params[1..]) by {
        assert params == [params[0]] + params[1..];
      }
    }
  }

  lemma {:induction false} BindParamsLastWins(params: seq<string>, args: seq<Value>, env: map<string, Value>, k: nat)
    requires |params| == |args| && BindParams(params, args, env).Ok?
    requires k < |params| && forall j :: k < j < |params| ==> params[j] != params[k]
    ensures params[k] in BindParams(params, args, env).value
    ensures BindParams(params, args, env).value[params[k]] == args[k]
  {
    var env' := env[params[0] := args[0]];
    assert BindParams(params, args, env) == BindParams(params[1..], args[1..], env');
    if k == 0 {
      assert params[0] !in params[1..] by {
        forall m | 0 <= m < |params[1..]| ensures params[1..][m] != params[0] {
          assert params[1..][m] == params[m + 1];
        }
      }
      BindParamsKeeps(params[1..], args[1..], env');
    } else {
      assert params[k] == params[1..][k - 1];
      assert forall j :: k - 1 < j < |params[1..]| ==> params[1..][j] != params[1..][k - 1] by {
        forall j | k - 1 < j < |params[1..]| ensures params[1..][j] != params[1..][k - 1] {
          assert params[1..][j] == params[j + 1];
        }
      }
      BindParamsLastWins(params[1..], args[1..], env', k - 1);
    }
  }

  lemma {:induction false} BindParamsKeeps(params: seq<string>, args: seq<Value>, env: map<string, Value>)
    requires |params| == |args| && BindParams(params, args, env).Ok?
    ensures var local := BindParams(params, args, env).value;
      forall x :: x in env && x !in params ==> x in local && local[x] == env[x]
  {
    if params != [] {
      var env' := env[params[0] := args[0]];
      BindParamsKeeps(params[1..], args[1..], env');
      forall x | x in env && x !in params ensures x in env' && env'[x] == env[x] && x !in params[1..] {
        assert x != params[0];
        assert x !in params[1..] by {
          forall m | 0 <= m < |params[1..]| ensures params[1..][m] != x {
            assert params[1..][m] == params[m + 1];
          }
        }
      }
    }
  }

  // ---------------------------------------------------------------------
  // Arguments: call by value, left to right.

  /** The arguments evaluate to `vs` exactly when each evaluates to the
      value at its position. */
  lemma {:induction false} EvalArgsPointwise(args: seq<Expr>, scope: Scope, root: map<string, Value>, fuel: nat)
    ensures EvalArgs(args, scope, root, fuel).Ok? <==>
      forall k :: 0 <= k < |args| ==> Eval(args[k], scope, root, fuel).Ok?
    ensures EvalArgs(args, scope, root, fuel).Ok? ==>
      var vs := EvalArgs(args, scope, root, fuel).value;
      |vs| == |args| && forall k :: 0 <= k < |args| ==> Eval(args[k], scope, root, fuel) == Ok(vs[k])
  {
    if args != [] {
      EvalArgsPointwise(args[1..], scope, root, fuel);
      if Eval(args[0], scope, root, fuel).Ok? {
        if forall k :: 0 <= k < |args[1..]| ==> Eval(args[1..][k], scope, root, fuel).Ok? {
          forall k | 0 <= k < |args| ensures Eval(args[k], scope, root, fuel).Ok? {
            if k > 0 { assert args[k] == args[1..][k - 1]; }
          }
        } else {
          var k :| 0 <= k < |args[1..]| && !Eval(args[1..][k], scope, root, fuel).Ok?;
          assert args[k + 1] == args[1..][k];
        }
      }
      var r := EvalArgs(args, scope, root, fuel);
      if r.Ok? {
        var vs := r.value;
        var rest := EvalArgs(args[1..], scope, root, fuel).value;
        assert vs == [Eval(args[0], scope, root, fuel).value] + rest;
        forall k | 0 <= k < |args| ensures Eval(args[k], scope, root, fuel) == Ok(vs[k]) {
          if k > 0 { assert args[k] == args[1..][k - 1]; }
        }
      }
    }
  }

  /** When an argument fails, the call fails with the error of the FIRST
      failing argument, whatever the function would have done with it. */
  lemma {:induction false} EvalArgsFirstError(args: seq<Expr>, scope: Scope, root: map<string, Value>, fuel: nat)
    requires EvalArgs(args, scope, root, fuel).Err?
    ensures exists k :: (0 <= k < |args|
      && Eval(args[k], scope, root, fuel) == Err(EvalArgs(args, scope, root, fuel).error)
      && (forall j :: 0 <= j < k ==> Eval(args[j], scope, root, fuel).Ok?))
  {
    var err := EvalArgs(args, scope, root, fuel).error;
    if Eval(args[0], scope, root, fuel).Ok? {
      EvalArgsFirstError(args[1..], scope, root, fuel);
      var k :| 0 <= k < |args[1..]|
        && Eval(args[1..][k], scope, root, fuel) == Err(err)
        && (forall j :: 0 <= j < k ==> Eval(args[1..][j], scope, root, fuel).Ok?);
      assert args[k + 1] == args[1..][k];
      forall j | 0 < j < k + 1 ensures Eval(args[j], scope, root, fuel).Ok? {
        assert args[j] == args[1..][j - 1];
      }
    } else {
      assert Eval(args[0], scope, root, fuel) == Err(err);
    }
  }

  /** A call whose callee is a function but one of whose arguments fails
      fails too: every argument is evaluated before the function runs. */
  lemma CallIsStrict(callee: string, args: seq<Expr>, scope: Scope, root: map<string, Value>, fuel: nat, k: nat)
    requires callee in Vars(scope, root) && !Vars(scope, root)[callee].Num?
    requires k < |args| && Eval(args[k], scope, root, fuel).Err?
    ensures Eval(Call(callee, args), scope, root, fuel).Err?
  {
    EvalArgsPointwise(args, scope, root, fuel);
  }

  /** A callee that is missing or a number fails the call before any
      argument is looked at: whatever the arguments are, and even when
      evaluating one of them would fail, the error is about the callee. */
  lemma CalleeCheckedFirst(callee: string, args: seq<Expr>, scope: Scope, root: map<string, Value>, fuel: nat)
    ensures callee !in Vars(scope, root) ==>
      Eval(Call(callee, args), scope, root, fuel) == Err(UndefinedIdentifier(callee))
    ensures callee in Vars(scope, root) && Vars(scope, root)[callee].Num? ==>
      Eval(Call(callee, args), scope, root, fuel) == Err(NotAFunction(callee))
  {
  }

  /** A closure called with a number of arguments other than its number of
      parameters fails, once all the arguments have evaluated, with the
      arity error naming both counts. */
  lemma ArityChecked(callee: string, args: seq<Expr>, scope: Scope, root: map<string, Value>, fuel: nat,
                     params: seq<string>, body: Expr, captured: Scope)
    requires callee in Vars(scope, root) && Vars(scope, root)[callee] == Closure(params, body, captured)
    requires forall k :: 0 <= k < |args| ==> Eval(args[k], scope, root, fuel).Ok?
    requires |args| != |params|
    ensures Eval(Call(callee, args), scope, root, fuel) == Err(ArityMismatch(|params|, |args|))
  {
    EvalArgsPointwise(args, scope, root, fuel);
  }

  // ---------------------------------------------------------------------
  // Fuel is a bound, not a meaning: a result reached without running out
  // is the same with more fuel.

  lemma {:induction false} EvalFuel(e: Expr, scope: Scope, root: map<string, Value>, fuel: nat, more: nat)
    requires fuel <= more && Eval(e, scope, root, fuel) != Err(OutOfFuel)
    ensures Eval(e, scope, root, more) == Eval(e, scope, root, fuel)
    decreases fuel, 1, e
  {
    match e
    case Singleton(item) => EvalFuel(item, scope, root, fuel, more);
    case Call(callee, args) =>
      var env := Vars(scope, root);
      if callee in env && !env[callee].Num? {
        var a := EvalArgs(args, scope, root, fuel);
        EvalArgsFuel(args, scope, root, fuel, more);
        if a.Ok? {
          ApplyFuel(env[callee], a.value, root, fuel, more);
        }
      }
    case _ =>
  }

  lemma {:induction false} EvalArgsFuel(args: seq<Expr>, scope: Scope, root: map<string, Value>, fuel: nat, more: nat)
    requires fuel <= more && EvalArgs(args, scope, root, fuel) != Err(OutOfFuel)
    ensures EvalArgs(args, scope, root, more) == EvalArgs(args, scope, root, fuel)
    decreases fuel, 1, args
  {
    if args != [] {
      var v := Eval(args[0], scope, root, fuel);
      EvalFuel(args[0], scope, root, fuel, more);
      if v.Ok? {
        EvalArgsFuel(args[1..], scope, root, fuel, more);
      }
    }
  }

  lemma {:induction false} ApplyFuel(f: Value, args: seq<Value>, root: map<string, Value>, fuel: nat, more: nat)
    requires !f.Num? && fuel <= more && Apply(f, args, root, fuel) != Err(OutOfFuel)
    ensures Apply(f, args, root, more) == Apply(f, args, root, fuel)
    decreases fuel, 0
  {
    if f.Closure? && |args| == |f.params| {
      var b := BindParams(f.params, args, Vars(f.scope, root));
      if b.Ok? && fuel > 0 {
        EvalFuel(f.body, Frame(b.value), root, fuel - 1, more - 1);
      }
    }
  }

  lemma {:induction false} RunBindingsFuel(bs: seq<Binding>, root: map<string, Value>, fuel: nat, more: nat)
    requires fuel <= more && RunBindings(bs, root, fuel) != Err(OutOfFuel)
    ensures RunBindings(bs, root, more) == RunBindings(bs, root, fuel)
  {
    if bs != [] && bs[0].name !in Builtins {
      var v := Eval(bs[0].value, Root, root, fuel);
      EvalFuel(bs[0].value, Root, root, fuel, more);
      if v.Ok? {
        RunBindingsFuel(bs[1..], root[bs[0].name := v.value], fuel, more);
      }
    }
  }

  /** The value of a program does not depend on the fuel, once there is
      enough of it. */
  lemma RunProgramFuel(p: Program, fuel: nat, more: nat)
    requires fuel <= more && RunProgram(p, fuel) != Err(OutOfFuel)
    ensures RunProgram(p, more) == RunProgram(p, fuel)
  {
    var b := RunBindings(p.bindings, BuiltinEnv, fuel);
    if b != Err(OutOfFuel) {
      RunBindingsFuel(p.bindings, BuiltinEnv, fuel, more);
      if b.Ok? {
        EvalFuel(p.expr, Root, b.value, fuel, more);
      }
    }
  }

  /** With any fuel, an expression either gives the value it gives with
      enough fuel, or runs out. */
  lemma OkOrOutOfFuel(e: Expr, scope: Scope, root: map<string, Value>, fuel: nat, enough: nat, v: Value)
    requires Eval(e, scope, root, enough) == Ok(v)
    ensures Eval(e, scope, root, fuel) == Ok(v) || Eval(e, scope, root, fuel) == Err(OutOfFuel)
  {
    if enough <= fuel {
      EvalFuel(e, scope, root, enough, fuel);
    } else if Eval(e, scope, root, fuel) != Err(OutOfFuel) {
      EvalFuel(e, scope, root, fuel, enough);
    }
  }

  /** Running out of fuel in an argument ends the whole call, when the
      arguments before it succeed or run out too. */
  lemma {:induction false} ArgsOutOfFuel(args: seq<Expr>, scope: Scope, root: map<string, Value>, fuel: nat, k: nat)
    requires k < |args| && Eval(args[k], scope, root, fuel) == Err(OutOfFuel)
    requires forall j :: 0 <= j < k ==> Eval(args[j], scope, root, fuel).Ok? || Eval(args[j], scope, root, fuel) == Err(OutOfFuel)
    ensures EvalArgs(args, scope, root, fuel) == Err(OutOfFuel)
  {
    if k > 0 && Eval(args[0], scope, root, fuel).Ok? {
      assert forall j :: 0 <= j < k - 1 ==> args[1..][j] == args[j + 1];
      ArgsOutOfFuel(args[1..], scope, root, fuel, k - 1);
    }
  }

  // ---------------------------------------------------------------------
  // The `Main` loop.

  /** Bindings run in source order: running `bs + cs` runs all of `bs`,
      then `cs` in the environment `bs` built; in particular a later binding
      of a name overwrites an earlier one. */
  lemma {:induction false} RunBindingsAppend(bs: seq<Binding>, cs: seq<Binding>, root: map<string, Value>, fuel: nat)
    ensures RunBindings(bs + cs, root, fuel) ==
      match RunBindings(bs, root, fuel)
      case Err(err) => Err(err)
      case Ok(env) => RunBindings(cs, env, fuel)
  {
    if bs == [] {
      assert bs + cs == cs;
    } else {
      assert (bs + cs)[0] == bs[0];
      assert (bs + cs)[1..] == bs[1..] + cs;
      match Define(bs[0], root, fuel)
      case Err(_) =>
      case Ok(root') => RunBindingsAppend(bs[1..], cs, root', fuel);
    }
  }

  /** One more binding: evaluated in the environment the earlier ones built,
      and stored under its name over any earlier value. */
  lemma RunBindingsSnoc(bs: seq<Binding>, b: Binding, root: map<string, Value>, fuel: nat)
    ensures RunBindings(bs + [b], root, fuel) ==
      match RunBindings(bs, root, fuel)
      case Err(err) => Err(err)
      case Ok(env) => Define(b, env, fuel)
  {
    RunBindingsAppend(bs, [b], root, fuel);
    match RunBindings(bs, root, fuel)
    case Err(_) =>
    case Ok(env) =>
      assert [b][1..] == [];
  }

  /** No binding can give a built-in name a value: a program that binds one
      fails, and a run that succeeds leaves the built-ins as they were. */
  lemma {:induction false} BuiltinsStay(bs: seq<Binding>, root: map<string, Value>, fuel: nat)
    ensures (exists k :: 0 <= k < |bs| && bs[k].name in Builtins) ==> RunBindings(bs, root, fuel).Err?
    ensures RunBindings(bs, root, fuel).Ok? ==>
      forall x :: x in Builtins && x in root ==>
        (x in RunBindings(bs, root, fuel).value && RunBindings(bs, root, fuel).value[x] == root[x])
  {
    if bs != [] {
      var d := Define(bs[0], root, fuel);
      if d.Ok? {
        BuiltinsStay(bs[1..], d.value, fuel);
        if exists k :: 0 <= k < |bs| && bs[k].name in Builtins {
          var k :| 0 <= k < |bs| && bs[k].name in Builtins;
          assert k > 0;
          assert bs[1..][k - 1] == bs[k];
        }
      }
    }
  }

  /** A successful run defines exactly the names it binds, on top of the
      environment it started from. */
  lemma {:induction false} RunBindingsKeys(bs: seq<Binding>, root: map<string, Value>, fuel: nat)
    requires RunBindings(bs, root, fuel).Ok?
    ensures RunBindings(bs, root, fuel).value.Keys == root.Keys + (set b | b in bs :: b.name)
  {
    if bs != [] {
      var root' := Define(bs[0], root, fuel).value;
      RunBindingsKeys(bs[1..], root', fuel);
      assert (set b | b in bs :: b.name) == {bs[0].name} + (set b | b in bs[1..] :: b.name) by {
        assert bs == [bs[0]] + bs[1..];
      }
    }
  }
}
