/**
 * What the two failing answers of the parser mean. Nearley reads the tokens
 * one at a time and keeps every partial derivation alive; it throws at the
 * first token that no derivation can take, and it ends with an empty list of
 * results when the tokens run out while derivations are still open. For the
 * grammar of src/dsl.cjs that is:
 *
 *   - `Incomplete`: the tokens are a proper beginning of the tokens of some
 *     program, and of no complete one;
 *   - `Rejected(k)`: the first `k` tokens begin some program and the first
 *     `k + 1` begin none.
 *
 * The proof rests on two facts about the parser: a decision depends only on
 * the tokens read so far, and wherever it gets stuck the tokens read so far
 * can still be completed to a program.
 */
module GrammarErrors {
  import opened Lexer
  import opened Syntax
  import opened Grammar
  import opened GrammarProperties

  // ---------------------------------------------------------------------
  // A parse decision depends only on the tokens it has looked at.

  /** How many tokens a result has looked at: everything it consumed, and
      the offending token when it got stuck on one. */
  function Reach<T>(r: Parse<T>): nat {
    match r
    case Parsed(_, j) => j
    case Stuck(UnexpectedToken(k)) => k + 1
    case Stuck(UnexpectedEnd) => 0
  }

  /** The first `n` tokens of both streams read the same to the parser. */
  predicate Agree(ts: seq<Token>, us: seq<Token>, n: nat) {
    n <= |ts| && n <= |us| && forall m :: 0 <= m < n ==> Canon(ts[m]) == Canon(us[m])
  }

  lemma AgreeAt(ts: seq<Token>, us: seq<Token>, n: nat, m: nat)
    requires Agree(ts, us, n) && m < n
    ensures ts[m].kind == us[m].kind
    ensures ts[m].kind == Identifier ==> ts[m].text == us[m].text
  {
    assert Canon(ts[m]) == Canon(us[m]);
  }

  lemma AgreeShorter(ts: seq<Token>, us: seq<Token>, n: nat, m: nat)
    requires Agree(ts, us, n) && m <= n
    ensures Agree(ts, us, m)
  {
  }

  lemma {:induction false} ParamsLocal(ts: seq<Token>, us: seq<Token>, i: nat)
    requires i <= |ts| && i <= |us| && ParseParams(ts, i).Parsed?
    requires Agree(ts, us, ParseParams(ts, i).next + 1)
    ensures ParseParams(us, i) == ParseParams(ts, i)
    decreases |ts| - i
  {
    var r := ParseParams(ts, i);
    AgreeAt(ts, us, r.next + 1, i);
    if ts[i].kind == Identifier {
      ParamsLocal(ts, us, i + 1);
    }
  }

  lemma {:induction false} ExprLocal(ts: seq<Token>, us: seq<Token>, i: nat)
    requires i <= |ts| && i <= |us| && ParseExpr(ts, i) != Stuck(UnexpectedEnd)
    requires Agree(ts, us, Reach(ParseExpr(ts, i)))
    ensures ParseExpr(us, i) == ParseExpr(ts, i)
    decreases |ts| - i, 2
  {
    AgreeAt(ts, us, Reach(ParseExpr(ts, i)), i);
    if ts[i].kind == LParen {
      CallLocal(ts, us, i);
    } else if ts[i].kind == LBrack {
      FunLitLocal(ts, us, i);
    }
  }

  lemma {:induction false} CallLocal(ts: seq<Token>, us: seq<Token>, i: nat)
    requires i < |ts| && i < |us| && ts[i].kind == LParen && us[i].kind == LParen
    requires ParseExpr(ts, i) != Stuck(UnexpectedEnd)
    requires Agree(ts, us, Reach(ParseExpr(ts, i)))
    ensures ParseExpr(us, i) == ParseExpr(ts, i)
    decreases |ts| - i, 1
  {
    var n := Reach(ParseExpr(ts, i));
    AgreeAt(ts, us, n, i + 1);
    if ts[i + 1].kind == Identifier {
      ArgsLocal(ts, us, i + 2);
    }
  }

  /** What follows the parameters of a function literal: `]`, `->` and the
      body, the parameters having stopped at `j`. */
  function FunLitTail(ts: seq<Token>, ps: seq<string>, j: nat): Parse<Expr>
    requires j < |ts|
  {
    if ts[j].kind != RBrack then Stuck(UnexpectedToken(j))
    else
      match Expect(ts, j + 1, Arrow)
      case Stuck(f) => Stuck(f)
      case Parsed(_, k) =>
        match ParseExpr(ts, k)
        case Stuck(f) => Stuck(f)
        case Parsed(body, m) => Parsed(Singleton(FunLit(ps, body)), m)
  }

  lemma FunLitSplit(ts: seq<Token>, i: nat)
    requires i < |ts| && ts[i].kind == LBrack && ParseParams(ts, i + 1).Parsed?
    ensures var ps := ParseParams(ts, i + 1);
      ParseExpr(ts, i) == FunLitTail(ts, ps.value, ps.next)
  {
  }

  lemma {:induction false} FunLitTailLocal(ts: seq<Token>, us: seq<Token>, ps: seq<string>, j: nat)
    requires j < |ts| && j < |us| && FunLitTail(ts, ps, j) != Stuck(UnexpectedEnd)
    requires Agree(ts, us, Reach(FunLitTail(ts, ps, j)))
    ensures FunLitTail(us, ps, j) == FunLitTail(ts, ps, j)
    decreases |ts| - j, 0
  {
    var n := Reach(FunLitTail(ts, ps, j));
    AgreeAt(ts, us, n, j);
    if ts[j].kind == RBrack {
      AgreeAt(ts, us, n, j + 1);
      if ts[j + 1].kind == Arrow {
        ExprLocal(ts, us, j + 2);
      }
    }
  }

  lemma {:induction false} FunLitLocal(ts: seq<Token>, us: seq<Token>, i: nat)
    requires i < |ts| && i < |us| && ts[i].kind == LBrack && us[i].kind == LBrack
    requires ParseExpr(ts, i) != Stuck(UnexpectedEnd)
    requires Agree(ts, us, Reach(ParseExpr(ts, i)))
    ensures ParseExpr(us, i) == ParseExpr(ts, i)
    decreases |ts| - i, 1
  {
    var n := Reach(ParseExpr(ts, i));
    var ps := ParseParams(ts, i + 1);
    AgreeShorter(ts, us, n, ps.next + 1);
    ParamsLocal(ts, us, i + 1);
    FunLitSplit(ts, i);
    FunLitSplit(us, i);
    FunLitTailLocal(ts, us, ps.value, ps.next);
  }

  lemma {:induction false} ArgsLocal(ts: seq<Token>, us: seq<Token>, i: nat)
    requires i <= |ts| && i <= |us| && ParseArgs(ts, i) != Stuck(UnexpectedEnd)
    requires Agree(ts, us, Reach(ParseArgs(ts, i)))
    ensures ParseArgs(us, i) == ParseArgs(ts, i)
    decreases |ts| - i, 3
  {
    var n := Reach(ParseArgs(ts, i));
    AgreeAt(ts, us, n, i);
    if ts[i].kind != RParen {
      var e := ParseExpr(ts, i);
      AgreeShorter(ts, us, n, Reach(e));
      ExprLocal(ts, us, i);
      if e.Parsed? {
        ArgsLocal(ts, us, e.next);
      }
    }
  }

  lemma BindingLocal(ts: seq<Token>, us: seq<Token>, i: nat)
    requires i <= |ts| && i <= |us| && ParseBinding(ts, i) != Stuck(UnexpectedEnd)
    requires Agree(ts, us, Reach(ParseBinding(ts, i)))
    ensures ParseBinding(us, i) == ParseBinding(ts, i)
  {
    var n := Reach(ParseBinding(ts, i));
    AgreeAt(ts, us, n, i);
    if ts[i].kind == Bind {
      AgreeAt(ts, us, n, i + 1);
      if ts[i + 1].kind == Identifier {
        AgreeAt(ts, us, n, i + 2);
        if ts[i + 2].kind == To {
          var e := ParseExpr(ts, i + 3);
          AgreeShorter(ts, us, n, Reach(e));
          ExprLocal(ts, us, i + 3);
          if e.Parsed? {
            AgreeAt(ts, us, n, e.next);
          }
        }
      }
    }
  }

  lemma {:induction false} ProgramLocal(ts: seq<Token>, us: seq<Token>, i: nat)
    requires i <= |ts| && i <= |us| && ParseProgram(ts, i) != Stuck(UnexpectedEnd)
    requires Agree(ts, us, Reach(ParseProgram(ts, i)))
    ensures ParseProgram(us, i) == ParseProgram(ts, i)
    decreases |ts| - i
  {
    var n := Reach(ParseProgram(ts, i));
    if i < |ts| && ts[i].kind == Bind {
      AgreeAt(ts, us, n, i);
      var b := ParseBinding(ts, i);
      AgreeShorter(ts, us, n, Reach(b));
      BindingLocal(ts, us, i);
      if b.Parsed? {
        ProgramLocal(ts, us, b.next);
      }
    } else {
      if i < |ts| {
        AgreeAt(ts, us, n, i);
      }
      var e := ParseExpr(ts, i);
      AgreeShorter(ts, us, n, Reach(e));
      ExprLocal(ts, us, i);
    }
  }

  // ---------------------------------------------------------------------
  // Wherever the parser gets stuck, what it has read can still be completed.

  /** Where a failure stops the parser: at the offending token, or at the
      end of the input. */
  function StuckAt(ts: seq<Token>, f: Failure): nat {
    match f
    case UnexpectedToken(k) => k
    case UnexpectedEnd => |ts|
  }

  /** The tokens of `ts` from `i` up to `k` read as a proper beginning of
      `us`. */
  predicate Opens(ts: seq<Token>, i: nat, k: nat, us: seq<Token>) {
    i <= k <= |ts| && k - i < |us| && forall m :: i <= m < k ==> Canon(ts[m]) == us[m - i]
  }

  lemma OpensAfter(ts: seq<Token>, i: nat, pre: seq<Token>, k: nat, rest: seq<Token>)
    requires Matches(ts, i, pre) && Opens(ts, i + |pre|, k, rest)
    ensures Opens(ts, i, k, pre + rest)
  {
    forall m | i <= m < k ensures Canon(ts[m]) == (pre + rest)[m - i] {
      if m < i + |pre| {
        MatchesAt(ts, i, pre, m - i);
      }
    }
  }

  lemma OpensLonger(ts: seq<Token>, i: nat, k: nat, us: seq<Token>, more: seq<Token>)
    requires Opens(ts, i, k, us)
    ensures Opens(ts, i, k, us + more)
  {
    forall m | i <= m < k ensures Canon(ts[m]) == (us + more)[m - i] {
    }
  }

  /** The parameters parsed from `i + 1` on, after a `[` at `i`. */
  lemma ParamsSpelled(ts: seq<Token>, i: nat, ps: seq<string>)
    requires i + 1 + |ps| <= |ts| && ts[i].kind == LBrack
    requires forall m :: i + 1 <= m < i + 1 + |ps| ==> ts[m].kind == Identifier && ts[m].text == ps[m - (i + 1)]
    ensures Matches(ts, i, [Punct(LBrack)] + UnparseParams(ps))
  {
    forall m | 0 <= m < 1 + |ps| ensures Canon(ts[i + m]) == ([Punct(LBrack)] + UnparseParams(ps))[m] {
      FunLitParamAt(ts, i, ps, m);
    }
  }

  /** Parameters that run into the end of the input: all identifiers. */
  lemma {:induction false} ParamsRunOut(ts: seq<Token>, i: nat) returns (ps: seq<string>)
    requires i <= |ts| && ParseParams(ts, i).Stuck?
    ensures i + |ps| == |ts|
    ensures forall m :: i <= m < |ts| ==> ts[m].kind == Identifier && ts[m].text == ps[m - i]
    decreases |ts| - i
  {
    if i == |ts| {
      ps := [];
    } else {
      var rest := ParamsRunOut(ts, i + 1);
      ps := [ts[i].text] + rest;
    }
  }

  /** A first token that matches, of a longer sequence. */
  lemma OpensWithFirst(ts: seq<Token>, i: nat, us: seq<Token>)
    requires i < |ts| && 1 < |us| && Canon(ts[i]) == us[0]
    ensures Opens(ts, i, i + 1, us)
  {
  }

  lemma CallOpensAt(ts: seq<Token>, i: nat, f: string, args: seq<Expr>, k: nat)
    requires Matches(ts, i, [Punct(LParen), Tk(Identifier, f)])
    requires Opens(ts, i + 2, k, UnparseArgs(args) + [Punct(RParen)])
    ensures Opens(ts, i, k, UnparseExpr(Singleton(Call(f, args))))
  {
    var head := [Punct(LParen), Tk(Identifier, f)];
    OpensAfter(ts, i, head, k, UnparseArgs(args) + [Punct(RParen)]);
    assert UnparseExpr(Singleton(Call(f, args))) == head + (UnparseArgs(args) + [Punct(RParen)]);
  }

  /** A function literal cut short after its parameters, before `]` or
      before `->`. */
  lemma FunLitOpensClose(ts: seq<Token>, i: nat, ps: seq<string>, k: nat)
    requires Matches(ts, i, [Punct(LBrack)] + UnparseParams(ps))
    requires i + 1 + |ps| <= k <= i + 2 + |ps| && k <= |ts|
    requires k == i + 2 + |ps| ==> Canon(ts[i + 1 + |ps|]) == Punct(RBrack)
    ensures Opens(ts, i, k, UnparseExpr(Singleton(FunLit(ps, Ident("x")))))
  {
    var open := [Punct(LBrack)] + UnparseParams(ps);
    var closing := [Punct(RBrack), Punct(Arrow)];
    var us := UnparseExpr(Singleton(FunLit(ps, Ident("x"))));
    assert us == UnparseExpr(FunLit(ps, Ident("x")));
    assert UnparseExpr(Ident("x")) == [Tk(Identifier, "x")];
    assert us == open + closing + [Tk(Identifier, "x")];
    forall m | i <= m < k ensures Canon(ts[m]) == us[m - i] {
      if m < i + |open| {
        MatchesAt(ts, i, open, m - i);
      }
    }
  }

  lemma FunLitOpensBody(ts: seq<Token>, i: nat, ps: seq<string>, body: Expr, k: nat)
    requires Matches(ts, i, [Punct(LBrack)] + UnparseParams(ps))
    requires i + 3 + |ps| <= |ts| && ts[i + 1 + |ps|].kind == RBrack && ts[i + 2 + |ps|].kind == Arrow
    requires Opens(ts, i + 3 + |ps|, k, UnparseExpr(body))
    ensures Opens(ts, i, k, UnparseExpr(Singleton(FunLit(ps, body))))
  {
    var open := [Punct(LBrack)] + UnparseParams(ps);
    var closing := [Punct(RBrack), Punct(Arrow)];
    assert |open| == 1 + |ps|;
    assert Matches(ts, i + |open|, closing);
    MatchesConcat(ts, i, open, closing);
    OpensAfter(ts, i, open + closing, k, UnparseExpr(body));
    assert UnparseExpr(Singleton(FunLit(ps, body))) == (open + closing) + UnparseExpr(body);
  }

  lemma {:induction false} ExprOpens(ts: seq<Token>, i: nat) returns (e: Expr)
    requires i <= |ts| && ParseExpr(ts, i).Stuck?
    ensures WellFormedExpr(e)
    ensures Opens(ts, i, StuckAt(ts, ParseExpr(ts, i).failure), UnparseExpr(e))
    decreases |ts| - i, 2
  {
    if i < |ts| && ts[i].kind == LParen {
      e := CallOpens(ts, i);
    } else if i < |ts| && ts[i].kind == LBrack {
      e := FunLitOpens(ts, i);
    } else {
      e := Ident("x");
    }
  }

  lemma {:induction false} CallOpens(ts: seq<Token>, i: nat) returns (e: Expr)
    requires i < |ts| && ts[i].kind == LParen && ParseExpr(ts, i).Stuck?
    ensures WellFormedExpr(e)
    ensures Opens(ts, i, StuckAt(ts, ParseExpr(ts, i).failure), UnparseExpr(e))
    decreases |ts| - i, 1
  {
    CallStuckCases(ts, i);
    var f := ParseIdentifier(ts, i + 1);
    if f.Stuck? {
      e := Singleton(Call("x", []));
      OpensWithFirst(ts, i, UnparseExpr(e));
    } else {
      e := CallOpensInArgs(ts, i);
    }
  }

  /** Where a stuck call got stuck: at its callee or in its arguments. */
  lemma CallStuckCases(ts: seq<Token>, i: nat)
    requires i < |ts| && ts[i].kind == LParen && ParseExpr(ts, i).Stuck?
    ensures ParseIdentifier(ts, i + 1).Stuck? ==>
      ParseExpr(ts, i).failure == ParseIdentifier(ts, i + 1).failure
    ensures ParseIdentifier(ts, i + 1).Parsed? ==>
      i + 2 <= |ts| && ts[i + 1].kind == Identifier && ParseIdentifier(ts, i + 1).value == ts[i + 1].text &&
      ParseArgs(ts, i + 2).Stuck? && ParseExpr(ts, i).failure == ParseArgs(ts, i + 2).failure
  {
  }

  /** A call stuck in its arguments, after `(` and the callee. */
  lemma {:induction false} CallOpensInArgs(ts: seq<Token>, i: nat) returns (e: Expr)
    requires i + 2 <= |ts| && ts[i].kind == LParen && ts[i + 1].kind == Identifier
    requires ParseArgs(ts, i + 2).Stuck?
    ensures WellFormedExpr(e)
    ensures Opens(ts, i, StuckAt(ts, ParseArgs(ts, i + 2).failure), UnparseExpr(e))
    decreases |ts| - i, 0
  {
    var args := ArgsOpens(ts, i + 2);
    e := Singleton(Call(ts[i + 1].text, args));
    assert Matches(ts, i, [Punct(LParen), Tk(Identifier, ts[i + 1].text)]);
    CallOpensAt(ts, i, ts[i + 1].text, args, StuckAt(ts, ParseArgs(ts, i + 2).failure));
  }

  lemma {:induction false} FunLitOpens(ts: seq<Token>, i: nat) returns (e: Expr)
    requires i < |ts| && ts[i].kind == LBrack && ParseExpr(ts, i).Stuck?
    ensures WellFormedExpr(e)
    ensures Opens(ts, i, StuckAt(ts, ParseExpr(ts, i).failure), UnparseExpr(e))
    decreases |ts| - i, 1
  {
    var pp := ParseParams(ts, i + 1);
    if pp.Stuck? {
      assert ParseExpr(ts, i) == Stuck(UnexpectedEnd);
      var ps := ParamsRunOut(ts, i + 1);
      e := Singleton(FunLit(ps, Ident("x")));
      ParamsSpelled(ts, i, ps);
      FunLitOpensClose(ts, i, ps, |ts|);
    } else {
      FunLitSplit(ts, i);
      e := FunLitTailOpens(ts, i, pp.value, pp.next);
    }
  }

  /** A function literal stuck after its parameters: at `]`, at `->` or in
      its body. */
  lemma {:induction false} FunLitTailOpens(ts: seq<Token>, i: nat, ps: seq<string>, j: nat) returns (e: Expr)
    requires j == i + 1 + |ps| < |ts| && ts[i].kind == LBrack
    requires forall m :: i + 1 <= m < j ==> ts[m].kind == Identifier && ts[m].text == ps[m - (i + 1)]
    requires FunLitTail(ts, ps, j).Stuck?
    ensures WellFormedExpr(e)
    ensures Opens(ts, i, StuckAt(ts, FunLitTail(ts, ps, j).failure), UnparseExpr(e))
    decreases |ts| - i, 0
  {
    ParamsSpelled(ts, i, ps);
    if ts[j].kind != RBrack {
      e := Singleton(FunLit(ps, Ident("x")));
      FunLitOpensClose(ts, i, ps, j);
    } else if j + 1 == |ts| || ts[j + 1].kind != Arrow {
      e := Singleton(FunLit(ps, Ident("x")));
      FunLitOpensClose(ts, i, ps, j + 1);
    } else {
      var body := ExprOpens(ts, j + 2);
      e := Singleton(FunLit(ps, body));
      FunLitOpensBody(ts, i, ps, body, StuckAt(ts, ParseExpr(ts, j + 2).failure));
    }
  }

  lemma {:induction false} ArgsOpens(ts: seq<Token>, i: nat) returns (args: seq<Expr>)
    requires i <= |ts| && ParseArgs(ts, i).Stuck?
    ensures forall a :: a in args ==> WellFormedExpr(a)
    ensures Opens(ts, i, StuckAt(ts, ParseArgs(ts, i).failure), UnparseArgs(args) + [Punct(RParen)])
    decreases |ts| - i, 3
  {
    if i == |ts| {
      args := [];
    } else {
      var e := ParseExpr(ts, i);
      if e.Stuck? {
        var a := ExprOpens(ts, i);
        args := [a];
        ArgsOpensFirst(ts, i, a, StuckAt(ts, e.failure));
      } else {
        ParsedExprUnparses(ts, i);
        var rest := ArgsOpens(ts, e.next);
        args := [e.value] + rest;
        ArgsOpensRest(ts, i, e.value, rest, StuckAt(ts, ParseArgs(ts, e.next).failure));
      }
    }
  }

  lemma ArgsOpensFirst(ts: seq<Token>, i: nat, a: Expr, k: nat)
    requires Opens(ts, i, k, UnparseExpr(a))
    ensures Opens(ts, i, k, UnparseArgs([a]) + [Punct(RParen)])
  {
    assert UnparseArgs([a]) == UnparseExpr(a);
    OpensLonger(ts, i, k, UnparseExpr(a), [Punct(RParen)]);
  }

  lemma ArgsOpensRest(ts: seq<Token>, i: nat, a: Expr, rest: seq<Expr>, k: nat)
    requires Matches(ts, i, UnparseExpr(a))
    requires Opens(ts, i + |UnparseExpr(a)|, k, UnparseArgs(rest) + [Punct(RParen)])
    ensures Opens(ts, i, k, UnparseArgs([a] + rest) + [Punct(RParen)])
  {
    assert ([a] + rest)[1..] == rest;
    OpensAfter(ts, i, UnparseExpr(a), k, UnparseArgs(rest) + [Punct(RParen)]);
    assert UnparseArgs([a] + rest) + [Punct(RParen)] == UnparseExpr(a) + (UnparseArgs(rest) + [Punct(RParen)]);
  }

  lemma BindingOpens(ts: seq<Token>, i: nat) returns (b: Binding)
    requires i <= |ts| && ParseBinding(ts, i).Stuck?
    ensures WellFormedExpr(b.value)
    ensures Opens(ts, i, StuckAt(ts, ParseBinding(ts, i).failure), UnparseBinding(b))
  {
    var k := StuckAt(ts, ParseBinding(ts, i).failure);
    if i == |ts| || ts[i].kind != Bind {
      b := Binding("x", Ident("x"));
    } else if i + 1 == |ts| || ts[i + 1].kind != Identifier {
      b := Binding("x", Ident("x"));
      OpensWithFirst(ts, i, UnparseBinding(b));
    } else if i + 2 == |ts| || ts[i + 2].kind != To {
      b := Binding(ts[i + 1].text, Ident("x"));
      BindingOpensHead(ts, i, b, k);
    } else {
      var v := ParseExpr(ts, i + 3);
      if v.Stuck? {
        var value := ExprOpens(ts, i + 3);
        b := Binding(ts[i + 1].text, value);
        BindingOpensValue(ts, i, b, k);
      } else {
        b := Binding(ts[i + 1].text, v.value);
        ParsedExprUnparses(ts, i + 3);
        BindingOpensIn(ts, i, b);
      }
    }
  }

  /** `bind` and the name read, cut short before `to`. */
  lemma BindingOpensHead(ts: seq<Token>, i: nat, b: Binding, k: nat)
    requires k == i + 2 <= |ts| && ts[i].kind == Bind && ts[i + 1].kind == Identifier && ts[i + 1].text == b.name
    ensures Opens(ts, i, k, UnparseBinding(b))
  {
    assert UnparseBinding(b)[0] == Punct(Bind);
    assert UnparseBinding(b)[1] == Tk(Identifier, b.name);
  }

  lemma BindingOpensValue(ts: seq<Token>, i: nat, b: Binding, k: nat)
    requires i + 3 <= |ts| && ts[i].kind == Bind && ts[i + 1].kind == Identifier && ts[i + 1].text == b.name
    requires ts[i + 2].kind == To && Opens(ts, i + 3, k, UnparseExpr(b.value))
    ensures Opens(ts, i, k, UnparseBinding(b))
  {
    var head := [Punct(Bind), Tk(Identifier, b.name), Punct(To)];
    assert Matches(ts, i, head);
    OpensLonger(ts, i + 3, k, UnparseExpr(b.value), [Punct(In)]);
    OpensAfter(ts, i, head, k, UnparseExpr(b.value) + [Punct(In)]);
    assert UnparseBinding(b) == head + (UnparseExpr(b.value) + [Punct(In)]);
  }

  /** A whole binding but for its `in`. */
  lemma BindingOpensIn(ts: seq<Token>, i: nat, b: Binding)
    requires i + 3 <= |ts| && ts[i].kind == Bind && ts[i + 1].kind == Identifier && ts[i + 1].text == b.name
    requires ts[i + 2].kind == To && Matches(ts, i + 3, UnparseExpr(b.value))
    ensures Opens(ts, i, i + 3 + |UnparseExpr(b.value)|, UnparseBinding(b))
  {
    var head := [Punct(Bind), Tk(Identifier, b.name), Punct(To)];
    assert Matches(ts, i, head);
    MatchesConcat(ts, i, head, UnparseExpr(b.value));
    OpensAfter(ts, i, head + UnparseExpr(b.value), i + 3 + |UnparseExpr(b.value)|, [Punct(In)]);
  }

  lemma {:induction false} ProgramOpens(ts: seq<Token>, i: nat) returns (p: Program)
    requires i <= |ts| && ParseProgram(ts, i).Stuck?
    ensures WellFormed(p)
    ensures Opens(ts, i, StuckAt(ts, ParseProgram(ts, i).failure), Unparse(p))
    decreases |ts| - i, 1
  {
    ProgramStuckCases(ts, i);
    if i < |ts| && ts[i].kind == Bind {
      if ParseBinding(ts, i).Stuck? {
        p := ProgramOpensInBinding(ts, i);
      } else {
        p := ProgramOpensAfterBinding(ts, i);
      }
    } else {
      p := ProgramOpensInExpr(ts, i);
    }
  }

  /** Stuck inside the first binding. */
  lemma ProgramOpensInBinding(ts: seq<Token>, i: nat) returns (p: Program)
    requires i <= |ts| && ParseBinding(ts, i).Stuck?
    ensures WellFormed(p)
    ensures Opens(ts, i, StuckAt(ts, ParseBinding(ts, i).failure), Unparse(p))
  {
    var b := BindingOpens(ts, i);
    p := ProgramOpensBinding(ts, i, b, StuckAt(ts, ParseBinding(ts, i).failure));
  }

  /** Stuck after a complete first binding. */
  lemma {:induction false} ProgramOpensAfterBinding(ts: seq<Token>, i: nat) returns (p: Program)
    requires i <= |ts| && ParseBinding(ts, i).Parsed?
    requires ParseProgram(ts, ParseBinding(ts, i).next).Stuck?
    ensures WellFormed(p)
    ensures Opens(ts, i, StuckAt(ts, ParseProgram(ts, ParseBinding(ts, i).next).failure), Unparse(p))
    decreases |ts| - i, 0
  {
    var r := ParseBinding(ts, i);
    ParsedBindingUnparses(ts, i);
    var rest := ProgramOpens(ts, r.next);
    p := ProgramOpensRest(ts, i, r.value, rest, StuckAt(ts, ParseProgram(ts, r.next).failure));
  }

  /** Stuck in the program's expression, with no binding before it. */
  lemma ProgramOpensInExpr(ts: seq<Token>, i: nat) returns (p: Program)
    requires i <= |ts| && ParseExpr(ts, i).Stuck?
    ensures WellFormed(p)
    ensures Opens(ts, i, StuckAt(ts, ParseExpr(ts, i).failure), Unparse(p))
  {
    var e := ExprOpens(ts, i);
    p := Program([], e);
    assert Unparse(p) == UnparseExpr(e);
  }

  /** Where a stuck program got stuck: in its first binding, in the rest,
      or in its expression. */
  lemma ProgramStuckCases(ts: seq<Token>, i: nat)
    requires i <= |ts| && ParseProgram(ts, i).Stuck?
    ensures i < |ts| && ts[i].kind == Bind && ParseBinding(ts, i).Stuck? ==>
      ParseProgram(ts, i).failure == ParseBinding(ts, i).failure
    ensures i < |ts| && ts[i].kind == Bind && ParseBinding(ts, i).Parsed? ==>
      ParseProgram(ts, ParseBinding(ts, i).next).Stuck? &&
      ParseProgram(ts, i).failure == ParseProgram(ts, ParseBinding(ts, i).next).failure
    ensures !(i < |ts| && ts[i].kind == Bind) ==>
      ParseExpr(ts, i).Stuck? && ParseProgram(ts, i).failure == ParseExpr(ts, i).failure
  {
  }

  lemma ProgramOpensBinding(ts: seq<Token>, i: nat, b: Binding, k: nat) returns (p: Program)
    requires WellFormedExpr(b.value) && Opens(ts, i, k, UnparseBinding(b))
    ensures WellFormed(p) && Opens(ts, i, k, Unparse(p))
  {
    p := Program([b], Ident("x"));
    assert UnparseBindings([b]) == UnparseBinding(b);
    OpensLonger(ts, i, k, UnparseBinding(b), UnparseExpr(Ident("x")));
  }

  lemma ProgramOpensRest(ts: seq<Token>, i: nat, b: Binding, rest: Program, k: nat) returns (p: Program)
    requires WellFormedExpr(b.value) && Matches(ts, i, UnparseBinding(b))
    requires WellFormed(rest) && Opens(ts, i + |UnparseBinding(b)|, k, Unparse(rest))
    ensures WellFormed(p) && Opens(ts, i, k, Unparse(p))
  {
    p := Program([b] + rest.bindings, rest.expr);
    assert p.bindings[1..] == rest.bindings;
    assert Unparse(p) == UnparseBinding(b) + Unparse(rest);
    OpensAfter(ts, i, UnparseBinding(b), k, Unparse(rest));
  }

  // ---------------------------------------------------------------------
  // The two failing outcomes.

  /** The first `n` tokens of `ts` read as the first `n` tokens of `us`. */
  predicate Begins(ts: seq<Token>, n: nat, us: seq<Token>) {
    n <= |ts| && n <= |us| && forall m :: 0 <= m < n ==> Canon(ts[m]) == us[m]
  }

  /** The first `n` tokens of `ts` begin the tokens of some program. */
  ghost predicate Viable(ts: seq<Token>, n: nat) {
    exists p :: WellFormed(p) && Begins(ts, n, Unparse(p))
  }

  /** How many tokens the parser gets through from the start: all it
      consumed, or up to the token or the end it got stuck at. */
  function Progress(ts: seq<Token>): nat {
    match ParseProgram(ts, 0)
    case Parsed(_, j) => j
    case Stuck(f) => StuckAt(ts, f)
  }

  lemma ViableShorter(ts: seq<Token>, n: nat, l: nat)
    ensures Viable(ts, n) && l <= n ==> Viable(ts, l)
  {
    if Viable(ts, n) && l <= n {
      var p :| WellFormed(p) && Begins(ts, n, Unparse(p));
      assert Begins(ts, l, Unparse(p));
    }
  }

  /** Everything the parser got through begins some program. */
  lemma Reached(ts: seq<Token>)
    ensures Viable(ts, Progress(ts))
  {
    var r := ParseProgram(ts, 0);
    if r.Parsed? {
      ParsedProgramUnparses(ts, 0);
      var q := r.value;
      forall m | 0 <= m < r.next ensures Canon(ts[m]) == Unparse(q)[m] {
        MatchesAt(ts, 0, Unparse(q), m);
      }
      assert Begins(ts, Progress(ts), Unparse(q));
    } else {
      var q := ProgramOpens(ts, 0);
      assert Begins(ts, Progress(ts), Unparse(q));
    }
  }

  lemma AgreeBelow(ts: seq<Token>, us: seq<Token>, n: nat)
    requires Begins(ts, n, us)
    ensures forall l: nat :: l <= n ==> Agree(ts, us, l)
  {
  }

  /** Tokens that begin a program do not make the parser decide early: it
      neither stumbles on one of them nor completes a program within them,
      unless that program is the one they spell. */
  lemma PrefixDecides(ts: seq<Token>, n: nat, p: Program)
    ensures WellFormed(p) && Begins(ts, n, Unparse(p)) ==>
      var r := ParseProgram(ts, 0);
      && (r.Stuck? && r.failure.UnexpectedToken? ==> n <= r.failure.index)
      && (r.Parsed? && r.next <= n ==> r.next == |Unparse(p)|)
  {
    if WellFormed(p) && Begins(ts, n, Unparse(p)) {
      var us := Unparse(p);
      RoundTrip(p);
      AgreeBelow(ts, us, n);
      var r := ParseProgram(ts, 0);
      if r != Stuck(UnexpectedEnd) && Reach(r) <= n {
        ProgramLocal(ts, us, 0);
      }
    }
  }

  /** Nearley's empty list of results: the tokens run out inside a program,
      and only then. */
  lemma IncompleteMeans(ts: seq<Token>)
    ensures ParseTokens(ts) == Incomplete <==>
      exists p :: WellFormed(p) && |ts| < |Unparse(p)| && Begins(ts, |ts|, Unparse(p))
  {
    if ParseTokens(ts) == Incomplete {
      var p := ProgramOpens(ts, 0);
      assert Begins(ts, |ts|, Unparse(p));
    }
    if exists p :: WellFormed(p) && |ts| < |Unparse(p)| && Begins(ts, |ts|, Unparse(p)) {
      var p :| WellFormed(p) && |ts| < |Unparse(p)| && Begins(ts, |ts|, Unparse(p));
      PrefixDecides(ts, |ts|, p);
    }
  }

  /** Nearley's syntax error: it is raised at token `k` exactly when the
      tokens before `k` begin some program and `k` cannot continue any. */
  lemma RejectedMeans(ts: seq<Token>, k: nat)
    ensures ParseTokens(ts) == Rejected(k) <==> k < |ts| && Viable(ts, k) && !Viable(ts, k + 1)
  {
    Reached(ts);
    if ParseTokens(ts) == Rejected(k) {
      forall p ensures !(WellFormed(p) && Begins(ts, k + 1, Unparse(p))) {
        PrefixDecides(ts, k + 1, p);
      }
    }
    if k < |ts| && Viable(ts, k) && !Viable(ts, k + 1) {
      var p :| WellFormed(p) && Begins(ts, k, Unparse(p));
      PrefixDecides(ts, k, p);
      ViableShorter(ts, Progress(ts), k + 1);
    }
  }
}
