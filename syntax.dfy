/**
 * The nodes that the postprocessors of src/dsl.cjs build and that
 * src/interpreter.js walks.
 */
module Syntax {

  datatype Expr =
    | Ident(name: string)                        // { type: "Identifier", name }
    | Int(value: int)                            // { type: "Integer", value }
    | FunLit(params: seq<string>, body: Expr)    // { type: "FunctionLiteral", params, body }
    | Call(callee: string, args: seq<Expr>)      // { type: "Call", callee: Identifier, arguments }
      /** The one-element array that nearley returns for an `expression`
          alternative without a postprocessor (a call, a function literal or
          an integer); the identifier alternative is unwrapped by `id`. */
    | Singleton(item: Expr)

  /** { type: "Binding", name, value } */
  datatype Binding = Binding(name: string, value: Expr)

  /** { type: "Main", bindings, expression } */
  datatype Program = Program(bindings: seq<Binding>, expr: Expr)

  /** The expressions the grammar can build: calls, function literals and
      the literal 1 appear exactly inside a `Singleton`, identifiers bare. */
  predicate WellFormedExpr(e: Expr) {
    match e
    case Ident(_) => true
    case Singleton(item) =>
      (match item
       case Call(_, args) => forall a :: a in args ==> WellFormedExpr(a)
       case FunLit(_, body) => WellFormedExpr(body)
       case Int(v) => v == 1
       case _ => false)
    case _ => false
  }

  predicate WellFormed(p: Program) {
    && (forall b :: b in p.bindings ==> WellFormedExpr(b.value))
    && WellFormedExpr(p.expr)
  }
}
