/**
 * The nearley grammar of src/dsl.cjs (lines 30-44) as a recursive-descent
 * parser over the significant tokens:
 *
 *   main             -> binding* expression
 *   binding          -> "bind" identifier "to" expression "in"
 *   expression       -> function_call | function_literal | integer | identifier
 *   function_call    -> "(" identifier expression* ")"
 *   function_literal -> "[" identifier* "]" "->" expression
 *   identifier       -> %identifier
 *
 * The `integer` that `expression` names has no rule in src/dsl.cjs (line
 * 36); it is read here as the `Integer` token of the added `1` rule.
 *
 * Each alternative starts with a different token, so at most one derivation
 * exists; the parser follows it. Nearley answers in three ways, and so does
 * `ParseTokens`: a token that no parse can consume is a syntax error, tokens
 * that end before a parse is complete leave an empty list of results, and
 * otherwise there is exactly one result.
 */
module Grammar {
  import opened Lexer
  import opened Syntax

  datatype Failure = UnexpectedToken(index: nat) | UnexpectedEnd

  /** A partial parse: a value and the index of the first unconsumed token. */
  datatype Parse<T> = Parsed(value: T, next: nat) | Stuck(failure: Failure)

  /** What nearley's `parser.results` amounts to for a token stream. */
  datatype Outcome = Accepted(program: Program) | Rejected(index: nat) | Incomplete

  /** Requires a token of type `k` at `i`. */
  function Expect(ts: seq<Token>, i: nat, k: Kind): (r: Parse<Token>)
    requires i <= |ts|
    ensures r.Parsed? <==> i < |ts| && ts[i].kind == k
    ensures r.Parsed? ==> r.next == i + 1
    ensures r.Stuck? ==> r.failure == if i == |ts| then UnexpectedEnd else UnexpectedToken(i)
  {
    if i == |ts| then Stuck(UnexpectedEnd)
    else if ts[i].kind == k then Parsed(ts[i], i + 1)
    else Stuck(UnexpectedToken(i))
  }

  /** identifier -> %identifier, yielding the token's text as the name. */
  function ParseIdentifier(ts: seq<Token>, i: nat): (r: Parse<string>)
    requires i <= |ts|
    ensures r.Parsed? <==> i < |ts| && ts[i].kind == Identifier
    ensures r.Parsed? ==> r.next == i + 1 && r.value == ts[i].text
  {
    match Expect(ts, i, Identifier)
    case Stuck(f) => Stuck(f)
    case Parsed(t, j) => Parsed(t.text, j)
  }

  /** identifier*, the parameters of a function literal, as name strings. */
  function ParseParams(ts: seq<Token>, i: nat): (r: Parse<seq<string>>)
    requires i <= |ts|
    ensures r.Parsed? ==> r.next == i + |r.value| < |ts| && ts[r.next].kind != Identifier
    ensures r.Parsed? ==> forall m :: i <= m < r.next ==>
      ts[m].kind == Identifier && ts[m].text == r.value[m - i]
    ensures r.Stuck? ==> r.failure == UnexpectedEnd
    decreases |ts| - i
  {
    if i == |ts| then Stuck(UnexpectedEnd)
    else if ts[i].kind != Identifier then Parsed([], i)
    else
      match ParseParams(ts, i + 1)
      case Stuck(f) => Stuck(f)
      case Parsed(ps, j) => Parsed([ts[i].text] + ps, j)
  }

  function ParseExpr(ts: seq<Token>, i: nat): (r: Parse<Expr>)
    requires i <= |ts|
    ensures r.Parsed? ==> i < r.next <= |ts|
    ensures r.Stuck? && r.failure.UnexpectedToken? ==> i <= r.failure.index < |ts|
    decreases |ts| - i, 0
  {
    if i == |ts| then Stuck(UnexpectedEnd)
    else
      match ts[i].kind
      case Identifier => Parsed(Ident(ts[i].text), i + 1)
      case Integer => Parsed(Singleton(Int(1)), i + 1)
      case LParen =>
        (match ParseIdentifier(ts, i + 1)
         case Stuck(f) => Stuck(f)
         case Parsed(callee, j) =>
           match ParseArgs(ts, j)
           case Stuck(f) => Stuck(f)
           case Parsed(args, k) => Parsed(Singleton(Call(callee, args)), k))
      case LBrack =>
        (match ParseParams(ts, i + 1)
         case Stuck(f) => Stuck(f)
         case Parsed(ps, j) =>
           if ts[j].kind != RBrack then Stuck(UnexpectedToken(j))
           else
             match Expect(ts, j + 1, Arrow)
             case Stuck(f) => Stuck(f)
             case Parsed(_, k) =>
               match ParseExpr(ts, k)
               case Stuck(f) => Stuck(f)
               case Parsed(body, m) => Parsed(Singleton(FunLit(ps, body)), m))
      case _ => Stuck(UnexpectedToken(i))
  }

  /** expression* ")", the arguments of a call, in source order. */
  function ParseArgs(ts: seq<Token>, i: nat): (r: Parse<seq<Expr>>)
    requires i <= |ts|
    ensures r.Parsed? ==> i < r.next <= |ts|
    ensures r.Stuck? && r.failure.UnexpectedToken? ==> i <= r.failure.index < |ts|
    decreases |ts| - i, 1
  {
    if i == |ts| then Stuck(UnexpectedEnd)
    else if ts[i].kind == RParen then Parsed([], i + 1)
    else
      match ParseExpr(ts, i)
      case Stuck(f) => Stuck(f)
      case Parsed(e, j) =>
        match ParseArgs(ts, j)
        case Stuck(f) => Stuck(f)
        case Parsed(rest, k) => Parsed([e] + rest, k)
  }

  /** binding -> "bind" identifier "to" expression "in". */
  function ParseBinding(ts: seq<Token>, i: nat): (r: Parse<Binding>)
    requires i <= |ts|
    ensures r.Parsed? ==> i < r.next <= |ts|
    ensures r.Stuck? && r.failure.UnexpectedToken? ==> i <= r.failure.index < |ts|
  {
    match Expect(ts, i, Bind)
    case Stuck(f) => Stuck(f)
    case Parsed(_, j) =>
      match ParseIdentifier(ts, j)
      case Stuck(f) => Stuck(f)
      case Parsed(name, k) =>
        match Expect(ts, k, To)
        case Stuck(f) => Stuck(f)
        case Parsed(_, l) =>
          match ParseExpr(ts, l)
          case Stuck(f) => Stuck(f)
          case Parsed(value, m) =>
            match Expect(ts, m, In)
            case Stuck(f) => Stuck(f)
            case Parsed(_, n) => Parsed(Binding(name, value), n)
  }

  /** main -> binding* expression, the bindings in source order. */
  function ParseProgram(ts: seq<Token>, i: nat): (r: Parse<Program>)
    requires i <= |ts|
    ensures r.Parsed? ==> i < r.next <= |ts|
    ensures r.Stuck? && r.failure.UnexpectedToken? ==> i <= r.failure.index < |ts|
    decreases |ts| - i
  {
    if i < |ts| && ts[i].kind == Bind then
      match ParseBinding(ts, i)
      case Stuck(f) => Stuck(f)
      case Parsed(b, j) =>
        match ParseProgram(ts, j)
        case Stuck(f) => Stuck(f)
        case Parsed(p, k) => Parsed(Program([b] + p.bindings, p.expr), k)
    else
      match ParseExpr(ts, i)
      case Stuck(f) => Stuck(f)
      case Parsed(e, j) => Parsed(Program([], e), j)
  }

  /** The whole token stream: a token left over after a complete program is
      one that nearley cannot consume. */
  function ParseTokens(ts: seq<Token>): (r: Outcome)
    ensures r.Rejected? ==> r.index < |ts|
  {
    match ParseProgram(ts, 0)
    case Stuck(UnexpectedEnd) => Incomplete
    case Stuck(UnexpectedToken(k)) => Rejected(k)
    case Parsed(p, j) => if j == |ts| then Accepted(p) else Rejected(j)
  }

  // ---------------------------------------------------------------------
  // The token sequences the grammar derives each node from.

  function Tk(k: Kind, text: string): Token { Token(k, text, 0) }
  function Punct(k: Kind): Token { Tk(k, Lexeme(k)) }

  function UnparseExpr(e: Expr): seq<Token>
    decreases e
  {
    match e
    case Ident(x) => [Tk(Identifier, x)]
    case Int(_) => [Punct(Integer)]
    case Singleton(item) => UnparseExpr(item)
    case Call(f, args) => [Punct(LParen), Tk(Identifier, f)] + UnparseArgs(args) + [Punct(RParen)]
    case FunLit(ps, body) => [Punct(LBrack)] + UnparseParams(ps) + [Punct(RBrack), Punct(Arrow)] + UnparseExpr(body)
  }

  function UnparseArgs(args: seq<Expr>): seq<Token>
    decreases args
  {
    if args == [] then [] else UnparseExpr(args[0]) + UnparseArgs(args[1..])
  }

  function UnparseParams(ps: seq<string>): seq<Token> {
    seq(|ps|, k requires 0 <= k < |ps| => Tk(Identifier, ps[k]))
  }

  function UnparseBinding(b: Binding): seq<Token> {
    [Punct(Bind), Tk(Identifier, b.name), Punct(To)] + UnparseExpr(b.value) + [Punct(In)]
  }

  function UnparseBindings(bs: seq<Binding>): seq<Token> {
    if bs == [] then [] else UnparseBinding(bs[0]) + UnparseBindings(bs[1..])
  }

  function Unparse(p: Program): seq<Token> {
    UnparseBindings(p.bindings) + UnparseExpr(p.expr)
  }

  /** What the parser looks at in a token: its type, and its text only for
      identifiers (offsets and fixed texts play no part). */
  function Canon(t: Token): Token {
    Token(t.kind, if t.kind == Identifier then t.text else Lexeme(t.kind), 0)
  }

  /** The tokens of `ts` from `i` on read as `us`. */
  predicate Matches(ts: seq<Token>, i: nat, us: seq<Token>) {
    i + |us| <= |ts| && forall m {:trigger us[m]} :: 0 <= m < |us| ==> Canon(ts[i + m]) == us[m]
  }
}
