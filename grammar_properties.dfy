/**
 * The parser accepts exactly the token sequences that the grammar of
 * src/dsl.cjs derives, and builds the one tree they derive: parsing is
 * inverse to `Unparse`, in both directions.
 */
module GrammarProperties {
  import opened Lexer
  import opened Syntax
  import opened Grammar

  /** One position of a match. */
  lemma MatchesAt(ts: seq<Token>, i: nat, us: seq<Token>, m: nat)
    requires Matches(ts, i, us) && m < |us|
    ensures Canon(ts[i + m]) == us[m]
  {
  }

  lemma MatchesConcat(ts: seq<Token>, i: nat, a: seq<Token>, b: seq<Token>)
    ensures Matches(ts, i, a + b) <==> Matches(ts, i, a) && Matches(ts, i + |a|, b)
  {
    if Matches(ts, i, a) && Matches(ts, i + |a|, b) {
      forall m | 0 <= m < |a + b| ensures Canon(ts[i + m]) == (a + b)[m] {
        if m < |a| {
          MatchesAt(ts, i, a, m);
        } else {
          MatchesAt(ts, i + |a|, b, m - |a|);
        }
      }
    }
    if Matches(ts, i, a + b) {
      forall m | 0 <= m < |a| ensures Canon(ts[i + m]) == a[m] {
        MatchesAt(ts, i, a + b, m);
      }
      forall m | 0 <= m < |b| ensures Canon(ts[(i + |a|) + m]) == b[m] {
        MatchesAt(ts, i, a + b, |a| + m);
      }
    }
  }

  /** A well-formed expression starts with an identifier, `1`, `(` or `[`. */
  lemma FirstToken(e: Expr)
    requires WellFormedExpr(e)
    ensures |UnparseExpr(e)| > 0
    ensures UnparseExpr(e)[0].kind in {Identifier, Integer, LParen, LBrack}
  {
  }

  /** Every token `Unparse` builds is already in the form the parser reads. */
  lemma {:induction false} CanonicalExpr(e: Expr)
    ensures forall t :: t in UnparseExpr(e) ==> Canon(t) == t
    decreases e
  {
    match e
    case Ident(_) =>
    case Int(_) =>
    case Singleton(item) => CanonicalExpr(item);
    case Call(f, args) => CanonicalArgs(args);
    case FunLit(ps, body) => CanonicalExpr(body);
  }

  lemma {:induction false} CanonicalArgs(args: seq<Expr>)
    ensures forall t :: t in UnparseArgs(args) ==> Canon(t) == t
    decreases args
  {
    if args != [] {
      CanonicalExpr(args[0]);
      CanonicalArgs(args[1..]);
    }
  }

  lemma {:induction false} CanonicalBindings(bs: seq<Binding>)
    ensures forall t :: t in UnparseBindings(bs) ==> Canon(t) == t
  {
    if bs != [] {
      CanonicalExpr(bs[0].value);
      CanonicalBindings(bs[1..]);
    }
  }

  // ---------------------------------------------------------------------
  // Whatever the grammar derives, the parser rebuilds.

  lemma {:induction false} ParseUnparseExpr(e: Expr, ts: seq<Token>, i: nat)
    requires WellFormedExpr(e) && Matches(ts, i, UnparseExpr(e))
    ensures ParseExpr(ts, i) == Parsed(e, i + |UnparseExpr(e)|)
    decreases e
  {
    match e
    case Singleton(Call(f, args)) => ParseUnparseCall(f, args, ts, i);
    case Singleton(FunLit(ps, body)) => ParseUnparseFunLit(ps, body, ts, i);
    case Singleton(Int(_)) => MatchesAt(ts, i, UnparseExpr(e), 0);
    case Ident(_) => MatchesAt(ts, i, UnparseExpr(e), 0);
    case _ =>
  }

  lemma {:induction false} ParseUnparseCall(f: string, args: seq<Expr>, ts: seq<Token>, i: nat)
    requires forall a :: a in args ==> WellFormedExpr(a)
    requires Matches(ts, i, UnparseExpr(Call(f, args)))
    ensures ParseExpr(ts, i) == Parsed(Singleton(Call(f, args)), i + |UnparseExpr(Call(f, args))|)
    decreases Call(f, args)
  {
    var head := [Punct(LParen), Tk(Identifier, f)];
    var ua := UnparseArgs(args) + [Punct(RParen)];
    assert UnparseExpr(Call(f, args)) == head + ua;
    MatchesConcat(ts, i, head, ua);
    MatchesAt(ts, i, head, 0);
    MatchesAt(ts, i, head, 1);
    ParseUnparseArgs(args, ts, i + 2);
  }

  lemma {:induction false} ParseUnparseFunLit(ps: seq<string>, body: Expr, ts: seq<Token>, i: nat)
    requires WellFormedExpr(body)
    requires Matches(ts, i, UnparseExpr(FunLit(ps, body)))
    ensures ParseExpr(ts, i) == Parsed(Singleton(FunLit(ps, body)), i + |UnparseExpr(FunLit(ps, body))|)
    decreases FunLit(ps, body)
  {
    var j := i + 1 + |ps|;
    FunLitTokens(ps, body, ts, i);
    ParseUnparseParams(ps, ts, i + 1);
    ParseUnparseExpr(body, ts, j + 2);
    ParseFunLitCons(ts, i, ps, body, i + |UnparseExpr(FunLit(ps, body))|);
  }

  /** `[`, parameters up to `]`, `->` and a body parse as a function literal. */
  lemma ParseFunLitCons(ts: seq<Token>, i: nat, ps: seq<string>, body: Expr, k: nat)
    requires i + 1 + |ps| + 2 <= |ts| && ts[i].kind == LBrack
    requires ParseParams(ts, i + 1) == Parsed(ps, i + 1 + |ps|)
    requires ts[i + 1 + |ps|].kind == RBrack && ts[i + 1 + |ps| + 1].kind == Arrow
    requires ParseExpr(ts, i + 1 + |ps| + 2) == Parsed(body, k)
    ensures ParseExpr(ts, i) == Parsed(Singleton(FunLit(ps, body)), k)
  {
    var j := i + 1 + |ps|;
    assert Expect(ts, j + 1, Arrow) == Parsed(ts[j + 1], j + 2);
  }

  /** The pieces of the tokens of a function literal. */
  lemma FunLitTokens(ps: seq<string>, body: Expr, ts: seq<Token>, i: nat)
    requires Matches(ts, i, UnparseExpr(FunLit(ps, body)))
    ensures var j := i + 1 + |ps|;
      && j + 2 + |UnparseExpr(body)| == i + |UnparseExpr(FunLit(ps, body))|
      && ts[i].kind == LBrack
      && Matches(ts, i + 1, UnparseParams(ps) + [Punct(RBrack)])
      && ts[j].kind == RBrack && ts[j + 1].kind == Arrow
      && Matches(ts, j + 2, UnparseExpr(body))
  {
    var up := UnparseParams(ps);
    var ub := UnparseExpr(body);
    var rest := (up + [Punct(RBrack)]) + ([Punct(Arrow)] + ub);
    assert UnparseExpr(FunLit(ps, body)) == [Punct(LBrack)] + rest;
    MatchesConcat(ts, i, [Punct(LBrack)], rest);
    MatchesAt(ts, i, [Punct(LBrack)], 0);
    FunLitRest(up, ub, ts, i + 1);
  }

  lemma FunLitRest(up: seq<Token>, ub: seq<Token>, ts: seq<Token>, k: nat)
    requires Matches(ts, k, (up + [Punct(RBrack)]) + ([Punct(Arrow)] + ub))
    ensures Matches(ts, k, up + [Punct(RBrack)])
    ensures ts[k + |up|].kind == RBrack && ts[k + |up| + 1].kind == Arrow
    ensures Matches(ts, k + |up| + 2, ub)
  {
    var j := k + |up|;
    MatchesConcat(ts, k, up + [Punct(RBrack)], [Punct(Arrow)] + ub);
    MatchesConcat(ts, k, up, [Punct(RBrack)]);
    MatchesAt(ts, j, [Punct(RBrack)], 0);
    MatchesConcat(ts, j + 1, [Punct(Arrow)], ub);
    MatchesAt(ts, j + 1, [Punct(Arrow)], 0);
  }

  lemma {:induction false} ParseUnparseArgs(args: seq<Expr>, ts: seq<Token>, i: nat)
    requires forall a :: a in args ==> WellFormedExpr(a)
    requires Matches(ts, i, UnparseArgs(args) + [Punct(RParen)])
    ensures ParseArgs(ts, i) == Parsed(args, i + |UnparseArgs(args)| + 1)
    decreases args
  {
    if args == [] {
      MatchesAt(ts, i, UnparseArgs(args) + [Punct(RParen)], 0);
    } else {
      var u0 := UnparseExpr(args[0]);
      var rest := UnparseArgs(args[1..]) + [Punct(RParen)];
      assert UnparseArgs(args) + [Punct(RParen)] == u0 + rest;
      MatchesConcat(ts, i, u0, rest);
      FirstToken(args[0]);
      MatchesAt(ts, i, u0, 0);
      ParseUnparseExpr(args[0], ts, i);
      ParseUnparseArgs(args[1..], ts, i + |u0|);
      assert [args[0]] + args[1..] == args;
    }
  }

  lemma ParseUnparseParams(ps: seq<string>, ts: seq<Token>, i: nat)
    requires Matches(ts, i, UnparseParams(ps) + [Punct(RBrack)])
    ensures ParseParams(ts, i) == Parsed(ps, i + |ps|)
  {
    var r := ParseParams(ts, i);
    var n := |ps|;
    MatchesConcat(ts, i, UnparseParams(ps), [Punct(RBrack)]);
    MatchesAt(ts, i + n, [Punct(RBrack)], 0);
    forall m | i <= m < i + n ensures ts[m].kind == Identifier && ts[m].text == ps[m - i] {
      MatchesAt(ts, i, UnparseParams(ps), m - i);
    }
    ParamsStopAt(ts, i, i + n);
    forall k | 0 <= k < n ensures r.value[k] == ps[k] {
      assert ts[i + k].text == r.value[(i + k) - i];
    }
    assert r.value == ps;
  }

  /** Identifiers from `i` up to `j` and a non-identifier at `j`: the
      parameter list ends at `j`. */
  lemma {:induction false} ParamsStopAt(ts: seq<Token>, i: nat, j: nat)
    requires i <= j < |ts| && ts[j].kind != Identifier
    requires forall m :: i <= m < j ==> ts[m].kind == Identifier
    ensures ParseParams(ts, i).Parsed? && ParseParams(ts, i).next == j
    decreases j - i
  {
    if i < j {
      ParamsStopAt(ts, i + 1, j);
    }
  }

  lemma ParseUnparseBinding(b: Binding, ts: seq<Token>, i: nat)
    requires WellFormedExpr(b.value) && Matches(ts, i, UnparseBinding(b))
    ensures ParseBinding(ts, i) == Parsed(b, i + |UnparseBinding(b)|)
  {
    BindingTokens(b, ts, i);
    ParseUnparseExpr(b.value, ts, i + 3);
  }

  /** The pieces of the tokens of a binding. */
  lemma BindingTokens(b: Binding, ts: seq<Token>, i: nat)
    requires Matches(ts, i, UnparseBinding(b))
    ensures var n := |UnparseExpr(b.value)|;
      && |UnparseBinding(b)| == n + 4
      && ts[i].kind == Bind && ts[i + 1].kind == Identifier && ts[i + 1].text == b.name
      && ts[i + 2].kind == To && ts[i + 3 + n].kind == In
      && Matches(ts, i + 3, UnparseExpr(b.value))
  {
    var head := [Punct(Bind), Tk(Identifier, b.name), Punct(To)];
    var ue := UnparseExpr(b.value);
    assert UnparseBinding(b) == head + (ue + [Punct(In)]);
    MatchesConcat(ts, i, head, ue + [Punct(In)]);
    MatchesConcat(ts, i + 3, ue, [Punct(In)]);
    MatchesAt(ts, i, head, 0);
    MatchesAt(ts, i, head, 1);
    MatchesAt(ts, i, head, 2);
    MatchesAt(ts, i + 3 + |ue|, [Punct(In)], 0);
  }

  lemma {:induction false} ParseUnparseProgram(p: Program, ts: seq<Token>, i: nat)
    requires WellFormed(p) && Matches(ts, i, Unparse(p))
    ensures ParseProgram(ts, i) == Parsed(p, i + |Unparse(p)|)
    decreases |p.bindings|
  {
    if p.bindings == [] {
      assert Unparse(p) == UnparseExpr(p.expr);
      FirstToken(p.expr);
      MatchesAt(ts, i, UnparseExpr(p.expr), 0);
      ParseUnparseExpr(p.expr, ts, i);
    } else {
      var b := p.bindings[0];
      var rest := Program(p.bindings[1..], p.expr);
      var j := i + |UnparseBinding(b)|;
      ProgramTokens(p, ts, i);
      ParseUnparseProgram(rest, ts, j);
      ParseUnparseBinding(b, ts, i);
      ParseProgramCons(ts, i, p, j, j + |Unparse(rest)|);
    }
  }

  /** A binding at `i` and the rest of the program after it. */
  lemma ParseProgramCons(ts: seq<Token>, i: nat, p: Program, j: nat, k: nat)
    requires i < |ts| && ts[i].kind == Bind && p.bindings != [] && j <= |ts|
    requires ParseBinding(ts, i) == Parsed(p.bindings[0], j)
    requires ParseProgram(ts, j) == Parsed(Program(p.bindings[1..], p.expr), k)
    ensures ParseProgram(ts, i) == Parsed(p, k)
  {
    assert [p.bindings[0]] + p.bindings[1..] == p.bindings;
  }

  /** The pieces of the tokens of a program that starts with a binding. */
  lemma ProgramTokens(p: Program, ts: seq<Token>, i: nat)
    requires WellFormed(p) && Matches(ts, i, Unparse(p)) && p.bindings != []
    ensures var b := p.bindings[0];
      var rest := Program(p.bindings[1..], p.expr);
      && WellFormedExpr(b.value) && WellFormed(rest)
      && ts[i].kind == Bind
      && Matches(ts, i, UnparseBinding(b))
      && Matches(ts, i + |UnparseBinding(b)|, Unparse(rest))
      && |Unparse(p)| == |UnparseBinding(b)| + |Unparse(rest)|
  {
    var b := p.bindings[0];
    var rest := Program(p.bindings[1..], p.expr);
    assert b in p.bindings;
    assert Unparse(p) == UnparseBinding(b) + Unparse(rest);
    MatchesConcat(ts, i, UnparseBinding(b), Unparse(rest));
    MatchesAt(ts, i, UnparseBinding(b), 0);
  }

  // ---------------------------------------------------------------------
  // Whatever the parser builds, the grammar derives from the tokens read.

  lemma {:induction false} ParsedExprUnparses(ts: seq<Token>, i: nat)
    requires i <= |ts| && ParseExpr(ts, i).Parsed?
    ensures var r := ParseExpr(ts, i);
      && WellFormedExpr(r.value)
      && r.next == i + |UnparseExpr(r.value)|
      && Matches(ts, i, UnparseExpr(r.value))
    decreases |ts| - i, 1
  {
    if ts[i].kind == LParen {
      ParsedCallUnparses(ts, i);
    } else if ts[i].kind == LBrack {
      ParsedFunLitUnparses(ts, i);
    } else {
      var r := ParseExpr(ts, i);
      assert Matches(ts, i, UnparseExpr(r.value));
    }
  }

  lemma {:induction false} ParsedCallUnparses(ts: seq<Token>, i: nat)
    requires i < |ts| && ts[i].kind == LParen && ParseExpr(ts, i).Parsed?
    ensures var r := ParseExpr(ts, i);
      && WellFormedExpr(r.value)
      && r.next == i + |UnparseExpr(r.value)|
      && Matches(ts, i, UnparseExpr(r.value))
    decreases |ts| - i, 0
  {
    var r := ParseExpr(ts, i);
    var callee := ts[i + 1].text;
    var a := ParseArgs(ts, i + 2);
    assert r == Parsed(Singleton(Call(callee, a.value)), a.next);
    ParsedArgsUnparse(ts, i + 2);
    var head := [Punct(LParen), Tk(Identifier, callee)];
    assert Matches(ts, i, head);
    MatchesConcat(ts, i, head, UnparseArgs(a.value) + [Punct(RParen)]);
    assert UnparseExpr(r.value) == head + (UnparseArgs(a.value) + [Punct(RParen)]);
  }

  lemma {:induction false} ParsedFunLitUnparses(ts: seq<Token>, i: nat)
    requires i < |ts| && ts[i].kind == LBrack && ParseExpr(ts, i).Parsed?
    ensures var r := ParseExpr(ts, i);
      && WellFormedExpr(r.value)
      && r.next == i + |UnparseExpr(r.value)|
      && Matches(ts, i, UnparseExpr(r.value))
    decreases |ts| - i, 0
  {
    var r := ParseExpr(ts, i);
    var pp := ParseParams(ts, i + 1);
    var j := pp.next;
    var body := ParseExpr(ts, j + 2);
    assert r == Parsed(Singleton(FunLit(pp.value, body.value)), body.next);
    ParsedExprUnparses(ts, j + 2);
    FunLitSpelled(ts, i, pp.value, body.value);
  }

  /** `[`, the parameters, `]`, `->` and a body make up a function literal. */
  lemma FunLitSpelled(ts: seq<Token>, i: nat, ps: seq<string>, body: Expr)
    requires i + 1 + |ps| + 2 <= |ts| && ts[i].kind == LBrack
    requires forall m :: i + 1 <= m < i + 1 + |ps| ==> ts[m].kind == Identifier && ts[m].text == ps[m - (i + 1)]
    requires ts[i + 1 + |ps|].kind == RBrack && ts[i + 1 + |ps| + 1].kind == Arrow
    requires Matches(ts, i + 1 + |ps| + 2, UnparseExpr(body))
    ensures Matches(ts, i, UnparseExpr(FunLit(ps, body)))
    ensures |UnparseExpr(FunLit(ps, body))| == |ps| + 3 + |UnparseExpr(body)|
  {
    FunLitLength(ps, body);
    forall m | 0 <= m < |UnparseExpr(FunLit(ps, body))|
      ensures Canon(ts[i + m]) == UnparseExpr(FunLit(ps, body))[m]
    {
      FunLitSpelledAt(ts, i, ps, body, m);
    }
  }

  lemma FunLitSpelledAt(ts: seq<Token>, i: nat, ps: seq<string>, body: Expr, m: nat)
    requires i + 1 + |ps| + 2 <= |ts| && ts[i].kind == LBrack
    requires forall m :: i + 1 <= m < i + 1 + |ps| ==> ts[m].kind == Identifier && ts[m].text == ps[m - (i + 1)]
    requires ts[i + 1 + |ps|].kind == RBrack && ts[i + 1 + |ps| + 1].kind == Arrow
    requires Matches(ts, i + 1 + |ps| + 2, UnparseExpr(body))
    requires m < |ps| + 3 + |UnparseExpr(body)|
    ensures Canon(ts[i + m]) == UnparseExpr(FunLit(ps, body))[m]
  {
    var n := |ps|;
    FunLitTokenAt(ps, body, m);
    if m <= n {
      FunLitParamAt(ts, i, ps, m);
    } else if n + 2 < m {
      MatchesAt(ts, i + 1 + n + 2, UnparseExpr(body), m - (n + 3));
    }
  }

  lemma FunLitParamAt(ts: seq<Token>, i: nat, ps: seq<string>, m: nat)
    requires i + 1 + |ps| <= |ts| && ts[i].kind == LBrack && m <= |ps|
    requires forall m :: i + 1 <= m < i + 1 + |ps| ==> ts[m].kind == Identifier && ts[m].text == ps[m - (i + 1)]
    ensures Canon(ts[i + m]) == if m == 0 then Punct(LBrack) else Tk(Identifier, ps[m - 1])
  {
    if 0 < m {
      assert ts[i + m].text == ps[(i + m) - (i + 1)];
    }
  }

  lemma FunLitLength(ps: seq<string>, body: Expr)
    ensures |UnparseExpr(FunLit(ps, body))| == |ps| + 3 + |UnparseExpr(body)|
  {
  }

  /** The token at each position of a function literal. */
  lemma FunLitTokenAt(ps: seq<string>, body: Expr, m: nat)
    requires m < |ps| + 3 + |UnparseExpr(body)|
    ensures var n := |ps|;
      UnparseExpr(FunLit(ps, body))[m] ==
        if m == 0 then Punct(LBrack)
        else if m <= n then Tk(Identifier, ps[m - 1])
        else if m == n + 1 then Punct(RBrack)
        else if m == n + 2 then Punct(Arrow)
        else UnparseExpr(body)[m - (n + 3)]
  {
  }

  lemma {:induction false} ParsedArgsUnparse(ts: seq<Token>, i: nat)
    requires i <= |ts| && ParseArgs(ts, i).Parsed?
    ensures var r := ParseArgs(ts, i);
      && (forall a :: a in r.value ==> WellFormedExpr(a))
      && r.next == i + |UnparseArgs(r.value)| + 1
      && Matches(ts, i, UnparseArgs(r.value) + [Punct(RParen)])
    decreases |ts| - i, 2
  {
    var r := ParseArgs(ts, i);
    if ts[i].kind == RParen {
      assert Matches(ts, i, [Punct(RParen)]);
    } else {
      var e := ParseExpr(ts, i);
      ParsedExprUnparses(ts, i);
      ParsedArgsUnparse(ts, e.next);
      var rest := ParseArgs(ts, e.next).value;
      assert r.value == [e.value] + rest;
      assert UnparseArgs(r.value) + [Punct(RParen)] == UnparseExpr(e.value) + (UnparseArgs(rest) + [Punct(RParen)]) by {
        assert r.value[1..] == rest;
      }
      MatchesConcat(ts, i, UnparseExpr(e.value), UnparseArgs(rest) + [Punct(RParen)]);
    }
  }

  lemma ParsedBindingUnparses(ts: seq<Token>, i: nat)
    requires i <= |ts| && ParseBinding(ts, i).Parsed?
    ensures var r := ParseBinding(ts, i);
      && WellFormedExpr(r.value.value)
      && r.next == i + |UnparseBinding(r.value)|
      && Matches(ts, i, UnparseBinding(r.value))
  {
    var r := ParseBinding(ts, i);
    var e := ParseExpr(ts, i + 3);
    ParsedExprUnparses(ts, i + 3);
    assert r == Parsed(Binding(ts[i + 1].text, e.value), e.next + 1);
    BindingSpelled(ts, i, Binding(ts[i + 1].text, e.value));
  }

  /** `bind`, a name, `to`, an expression and `in` make up a binding. */
  lemma BindingSpelled(ts: seq<Token>, i: nat, b: Binding)
    requires i + 3 <= |ts| && ts[i].kind == Bind && ts[i + 1].kind == Identifier && ts[i + 1].text == b.name
    requires ts[i + 2].kind == To && Matches(ts, i + 3, UnparseExpr(b.value))
    requires i + 3 + |UnparseExpr(b.value)| < |ts| && ts[i + 3 + |UnparseExpr(b.value)|].kind == In
    ensures Matches(ts, i, UnparseBinding(b))
  {
    var head := [Punct(Bind), Tk(Identifier, b.name), Punct(To)];
    var ue := UnparseExpr(b.value);
    assert Matches(ts, i, head);
    assert Matches(ts, i + 3 + |ue|, [Punct(In)]);
    MatchesConcat(ts, i + 3, ue, [Punct(In)]);
    MatchesConcat(ts, i, head, ue + [Punct(In)]);
    assert UnparseBinding(b) == head + (ue + [Punct(In)]);
  }

  lemma {:induction false} ParsedProgramUnparses(ts: seq<Token>, i: nat)
    requires i <= |ts| && ParseProgram(ts, i).Parsed?
    ensures var r := ParseProgram(ts, i);
      && WellFormed(r.value)
      && r.next == i + |Unparse(r.value)|
      && Matches(ts, i, Unparse(r.value))
    decreases |ts| - i
  {
    var r := ParseProgram(ts, i);
    if i < |ts| && ts[i].kind == Bind {
      var b := ParseBinding(ts, i);
      ParsedBindingUnparses(ts, i);
      ParsedProgramUnparses(ts, b.next);
      var rest := ParseProgram(ts, b.next).value;
      assert r.value == Program([b.value] + rest.bindings, rest.expr);
      ConsBinding(ts, i, b.value, rest);
    } else {
      ParsedExprUnparses(ts, i);
      assert Unparse(r.value) == UnparseExpr(r.value.expr);
    }
  }

  /** A binding followed by a program makes up a program. */
  lemma ConsBinding(ts: seq<Token>, i: nat, b: Binding, rest: Program)
    requires WellFormedExpr(b.value) && Matches(ts, i, UnparseBinding(b))
    requires WellFormed(rest) && Matches(ts, i + |UnparseBinding(b)|, Unparse(rest))
    ensures var p := Program([b] + rest.bindings, rest.expr);
      && WellFormed(p)
      && Unparse(p) == UnparseBinding(b) + Unparse(rest)
      && Matches(ts, i, Unparse(p))
  {
    var p := Program([b] + rest.bindings, rest.expr);
    assert p.bindings[1..] == rest.bindings;
    assert Unparse(p) == UnparseBinding(b) + Unparse(rest);
    MatchesConcat(ts, i, UnparseBinding(b), Unparse(rest));
  }

  // ---------------------------------------------------------------------
  // The two directions together.

  /** A token stream is accepted as `p` exactly when it spells out `p`: the
      grammar is unambiguous and the parser neither loses nor invents
      structure (bindings, arguments and parameters stay in source order). */
  lemma ParseTokensExactly(ts: seq<Token>, p: Program)
    ensures ParseTokens(ts) == Accepted(p) <==>
      WellFormed(p) && |ts| == |Unparse(p)| && Matches(ts, 0, Unparse(p))
  {
    if ParseTokens(ts) == Accepted(p) {
      ParsedProgramUnparses(ts, 0);
    }
    if WellFormed(p) && |ts| == |Unparse(p)| && Matches(ts, 0, Unparse(p)) {
      ParseUnparseProgram(p, ts, 0);
    }
  }

  /** Parsing the tokens of a program gives the program back. */
  lemma RoundTrip(p: Program)
    requires WellFormed(p)
    ensures ParseTokens(Unparse(p)) == Accepted(p)
  {
    CanonicalBindings(p.bindings);
    CanonicalExpr(p.expr);
    var ts := Unparse(p);
    forall m | 0 <= m < |ts| ensures Canon(ts[0 + m]) == ts[m] {
      assert ts[m] in UnparseBindings(p.bindings) + UnparseExpr(p.expr);
    }
    ParseTokensExactly(ts, p);
  }
}
