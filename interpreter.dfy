/**
 * The tree-walking evaluator of src/interpreter.js.
 *
 * The evaluator is strict: a call looks its callee up, evaluates every
 * argument from left to right and only then applies the function.
 *
 * Environments. `interpret` creates ONE root environment object, installs
 * the four built-ins in it, and `Main` then writes every binding into that
 * same object. A function literal evaluated at the top level closes over the
 * root object by reference, so when it is applied it copies the root as it is
 * AT THAT MOMENT: it sees bindings made after the closure was created (this
 * is how a definition can call itself), and a later re-binding of a name
 * changes what the closure calls. A function literal evaluated inside a
 * function body closes over that application's local copy, which is never
 * written again once its parameters are filled in, so holding it by value
 * is the same as holding it by reference.
 *
 * The root object is the class `Env`; a closure records where it was built
 * as a `Scope`: `Root` stands for the one root object, `Frame` for a local
 * copy. The pure function `Eval` is the meaning of evaluation; the methods
 * `Evaluate`, `Invoke` and `Interpret` follow the code step by step and are
 * proved to compute `Eval`.
 *
 * `fuel` bounds the depth of nested closure applications: where the
 * JavaScript program recurses without end and the engine overflows its
 * stack, the model stops with `OutOfFuel`.
 */
module Interpreter {
  import opened Syntax

  /** The four built-in functions. */
  datatype Op = Add | Mul | Sign | Neg

  /** Where a closure was created: the root environment object, or a local
      environment copied when a function was applied. */
  datatype Scope = Root | Frame(vars: map<string, Value>)

  datatype Value =
    | Num(n: int)
    | Prim(op: Op)
    | Closure(params: seq<string>, body: Expr, scope: Scope)

  datatype Error =
    | RebindBuiltin(name: string)         // "Cannot rebind built-in function"
    | ParamIsBuiltin(name: string)        // "Cannot bind parameter with built-in name"
    | UndefinedIdentifier(name: string)   // "Undefined identifier"
    | ArityMismatch(expected: nat, got: nat)
    | NotAFunction(name: string)          // "Attempted to call a non-function"
    | NotANumber(op: Op)                  // a built-in given a missing or non-number operand
    | OutOfFuel

  datatype Result<T> = Ok(value: T) | Err(error: Error)

  /** `BUILTINS`. */
  const Builtins: set<string> := {"add", "mul", "sign", "neg"}

  /** The root environment once `interpret` has installed the built-ins. */
  const BuiltinEnv: map<string, Value> :=
    map["add" := Prim(Add), "mul" := Prim(Mul), "sign" := Prim(Sign), "neg" := Prim(Neg)]

  /** The bindings visible in `scope`, given the current root. */
  function Vars(scope: Scope, root: map<string, Value>): map<string, Value> {
    match scope
    case Root => root
    case Frame(vars) => vars
  }

  /** The built-ins on numbers; extra arguments are ignored, as in JavaScript. */
  function ApplyPrim(op: Op, args: seq<Value>): (r: Result<Value>)
    ensures r.Ok? <==> |args| >= Arity(op) && forall k :: 0 <= k < Arity(op) ==> args[k].Num?
    ensures r.Err? ==> r.error == NotANumber(op)
    ensures r.Ok? ==> r.value.Num?
  {
    match op
    case Add =>
      if |args| >= 2 && args[0].Num? && args[1].Num? then Ok(Num(args[0].n + args[1].n)) else Err(NotANumber(op))
    case Mul =>
      if |args| >= 2 && args[0].Num? && args[1].Num? then Ok(Num(args[0].n * args[1].n)) else Err(NotANumber(op))
    case Sign =>
      if |args| >= 1 && args[0].Num? then Ok(Num(if args[0].n > 0 then 1 else if args[0].n < 0 then -1 else 0))
      else Err(NotANumber(op))
    case Neg =>
      if |args| >= 1 && args[0].Num? then Ok(Num(args[0].n * -1)) else Err(NotANumber(op))
  }

  function Arity(op: Op): nat {
    if op == Add || op == Mul then 2 else 1
  }

  /** The parameter loop of a closure: each parameter in turn is written into
      the copy of the captured environment; a built-in name stops it. */
  function BindParams(params: seq<string>, args: seq<Value>, env: map<string, Value>): Result<map<string, Value>>
    requires |params| == |args|
  {
    if params == [] then Ok(env)
    else if params[0] in Builtins then Err(ParamIsBuiltin(params[0]))
    else BindParams(params[1..], args[1..], env[params[0] := args[0]])
  }

  function Eval(e: Expr, scope: Scope, root: map<string, Value>, fuel: nat): Result<Value>
    decreases fuel, 1, e
  {
    match e
    case Singleton(item) => Eval(item, scope, root, fuel)
    case Ident(x) =>
      var env := Vars(scope, root);
      if x in env then Ok(env[x]) else Err(UndefinedIdentifier(x))
    case Int(v) => Ok(Num(v))
    case FunLit(params, body) => Ok(Closure(params, body, scope))
    case Call(callee, args) =>
      var env := Vars(scope, root);
      if callee !in env then Err(UndefinedIdentifier(callee))
      else if env[callee].Num? then Err(NotAFunction(callee))
      else
        match EvalArgs(args, scope, root, fuel)
        case Err(err) => Err(err)
        case Ok(vs) => Apply(env[callee], vs, root, fuel)
  }

  /** `node.arguments.map(arg => evaluate(arg, env))`: left to right, and the
      first error is the one raised. */
  function EvalArgs(args: seq<Expr>, scope: Scope, root: map<string, Value>, fuel: nat): Result<seq<Value>>
    decreases fuel, 1, args
  {
    if args == [] then Ok([])
    else
      match Eval(args[0], scope, root, fuel)
      case Err(err) => Err(err)
      case Ok(v) =>
        match EvalArgs(args[1..], scope, root, fuel)
        case Err(err) => Err(err)
        case Ok(vs) => Ok([v] + vs)
  }

  /** `func(...argValues)`: the arity check, the copy of the captured
      environment with the parameters written in, then the body. */
  function Apply(f: Value, args: seq<Value>, root: map<string, Value>, fuel: nat): Result<Value>
    requires !f.Num?
    decreases fuel, 0
  {
    match f
    case Prim(op) => ApplyPrim(op, args)
    case Closure(params, body, scope) =>
      if |args| != |params| then Err(ArityMismatch(|params|, |args|))
      else
        match BindParams(params, args, Vars(scope, root))
        case Err(err) => Err(err)
        case Ok(local) =>
          if fuel == 0 then Err(OutOfFuel) else Eval(body, Frame(local), root, fuel - 1)
  }

  /** One iteration of the `Main` loop. */
  function Define(b: Binding, root: map<string, Value>, fuel: nat): Result<map<string, Value>> {
    if b.name in Builtins then Err(RebindBuiltin(b.name))
    else
      match Eval(b.value, Root, root, fuel)
      case Err(err) => Err(err)
      case Ok(v) => Ok(root[b.name := v])
  }

  /** The `Main` loop over the bindings, in source order. */
  function RunBindings(bs: seq<Binding>, root: map<string, Value>, fuel: nat): Result<map<string, Value>> {
    if bs == [] then Ok(root)
    else
      match Define(bs[0], root, fuel)
      case Err(err) => Err(err)
      case Ok(root') => RunBindings(bs[1..], root', fuel)
  }

  /** `interpret` on a `Main` node. */
  function RunProgram(p: Program, fuel: nat): Result<Value> {
    match RunBindings(p.bindings, BuiltinEnv, fuel)
    case Err(err) => Err(err)
    case Ok(root) => Eval(p.expr, Root, root, fuel)
  }

  // ---------------------------------------------------------------------
  // The code, step by step.

  /** The root environment object. */
  class Env {
    var vars: map<string, Value>

    /** `Object.create(null)`. */
    constructor ()
      ensures vars == map[]
    {
      vars := map[];
    }

    /** `Object.defineProperty(env, name, { value: ... })`. */
    method DefineBuiltin(name: string, op: Op)
      modifies this
      ensures vars == old(vars)[name := Prim(op)]
    {
      vars := vars[name := Prim(op)];
    }

    /** `env[name] = value`. */
    method Store(name: string, v: Value)
      modifies this
      ensures vars == old(vars)[name := v]
    {
      vars := vars[name := v];
    }
  }

  /** `evaluate(node, env)`; `root` is the root environment object. */
  method Evaluate(e: Expr, scope: Scope, root: Env, fuel: nat) returns (r: Result<Value>)
    ensures r == Eval(e, scope, root.vars, fuel)
    decreases fuel, 1, e
  {
    match e
    case Singleton(item) =>
      r := Evaluate(item, scope, root, fuel);
    case Ident(x) =>
      var env := Vars(scope, root.vars);
      if x in env {
        r := Ok(env[x]);
      } else {
        r := Err(UndefinedIdentifier(x));
      }
    case Int(v) =>
      r := Ok(Num(v));
    case FunLit(params, body) =>
      r := Ok(Closure(params, body, scope));
    case Call(callee, args) =>
      var env := Vars(scope, root.vars);
      if callee !in env {
        return Err(UndefinedIdentifier(callee));
      }
      var f := env[callee];
      if f.Num? {
        return Err(NotAFunction(callee));
      }
      var vs := EvaluateArgs(args, scope, root, fuel);
      if vs.Err? {
        return Err(vs.error);
      }
      r := Invoke(f, vs.value, root, fuel);
  }

  method EvaluateArgs(args: seq<Expr>, scope: Scope, root: Env, fuel: nat) returns (r: Result<seq<Value>>)
    ensures r == EvalArgs(args, scope, root.vars, fuel)
    decreases fuel, 1, args
  {
    if args == [] {
      return Ok([]);
    }
    var v := Evaluate(args[0], scope, root, fuel);
    if v.Err? {
      return Err(v.error);
    }
    var vs := EvaluateArgs(args[1..], scope, root, fuel);
    if vs.Err? {
      return Err(vs.error);
    }
    r := Ok([v.value] + vs.value);
  }

  /** Calling a function value: a built-in, or the JavaScript closure that
      a function literal evaluates to. */
  method Invoke(f: Value, args: seq<Value>, root: Env, fuel: nat) returns (r: Result<Value>)
    requires !f.Num?
    ensures r == Apply(f, args, root.vars, fuel)
    decreases fuel, 0
  {
    match f
    case Prim(op) =>
      r := ApplyPrim(op, args);
    case Closure(params, body, scope) =>
      if |args| != |params| {
        return Err(ArityMismatch(|params|, |args|));
      }
      var local := Vars(scope, root.vars);
      for i := 0 to |params|
        invariant BindParams(params, args, Vars(scope, root.vars)) == BindParams(params[i..], args[i..], local)
      {
        if params[i] in Builtins {
          return Err(ParamIsBuiltin(params[i]));
        }
        local := local[params[i] := args[i]];
      }
      if fuel == 0 {
        return Err(OutOfFuel);
      }
      r := Evaluate(body, Frame(local), root, fuel - 1);
  }

  /** `interpret(ast)` on a `Main` node. */
  method Interpret(p: Program, fuel: nat) returns (r: Result<Value>)
    ensures r == RunProgram(p, fuel)
  {
    var env := new Env();
    env.DefineBuiltin("add", Add);
    env.DefineBuiltin("mul", Mul);
    env.DefineBuiltin("sign", Sign);
    env.DefineBuiltin("neg", Neg);
    assert env.vars == BuiltinEnv;
    for i := 0 to |p.bindings|
      invariant RunBindings(p.bindings, BuiltinEnv, fuel) == RunBindings(p.bindings[i..], env.vars, fuel)
    {
      var b := p.bindings[i];
      if b.name in Builtins {
        return Err(RebindBuiltin(b.name));
      }
      var v := Evaluate(b.value, Root, env, fuel);
      if v.Err? {
        return Err(v.error);
      }
      env.Store(b.name, v.value);
    }
    r := Evaluate(p.expr, Root, env, fuel);
  }
}
