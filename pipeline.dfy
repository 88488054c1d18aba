/**
 * `interpret(parse(source))`, as the tests of src/tests/interpreter.test.js
 * run a program: parser.js feeds the source to a nearley parser built from
 * the grammar of src/dsl.cjs, and the result list goes to `interpret`.
 *
 * nearley pulls one significant token at a time from the lexer and hands it
 * to the parser before pulling the next. So a token the parser cannot take
 * is reported before a later position where no lexer rule matches. A lexer
 * failure is reported when the parser has taken every token before it,
 * complete program or not. Input that ends before a program is complete
 * leaves no result, and `interpret` then returns `undefined`.
 */
module Pipeline {
  import opened Lexer
  import opened LexerProperties
  import opened Syntax
  import opened Grammar
  import opened GrammarErrors
  import opened Interpreter

  /** What running a source text ends with. */
  datatype Answer =
    | Value(value: Value)          // the value `interpret` returns
    | NoValue                      // no parse result: `interpret` returns undefined
    | LexFailed(at: nat)           // moo throws: no rule matches at this offset
    | SyntaxFailed(index: nat)     // nearley throws at this significant token
    | RuntimeFailed(error: Error)  // `interpret` throws

  function Run(rules: seq<Rule>, source: string, fuel: nat): (r: Answer)
    ensures r.SyntaxFailed? <==> ParseTokens(Tokenize(rules, source, 0).tokens).Rejected?
    ensures r.SyntaxFailed? ==> r.index < |Tokenize(rules, source, 0).tokens|
    ensures r.LexFailed? ==> r.at < |source| && FirstMatch(rules, source, r.at).None?
    ensures r.LexFailed? ==> forall t :: t in Tokenize(rules, source, 0).tokens ==> t.offset < r.at
    ensures (r.Value? || r.RuntimeFailed?) <==>
      Tokenize(rules, source, 0).failure.None? && ParseTokens(Tokenize(rules, source, 0).tokens).Accepted?
    ensures r.NoValue? <==>
      Tokenize(rules, source, 0).failure.None? && ParseTokens(Tokenize(rules, source, 0).tokens).Incomplete?
  {
    var lexed := Tokenize(rules, source, 0);
    TokensBeforeFailure(rules, source, 0);
    match ParseTokens(lexed.tokens)
    case Rejected(index) => SyntaxFailed(index)
    case Incomplete => if lexed.failure.Some? then LexFailed(lexed.failure.value) else NoValue
    case Accepted(p) =>
      if lexed.failure.Some? then LexFailed(lexed.failure.value)
      else
        match RunProgram(p, fuel)
        case Ok(v) => Value(v)
        case Err(e) => RuntimeFailed(e)
  }

  /** Every token lies before the position where lexing stopped. */
  lemma {:induction false} TokensBeforeFailure(rules: seq<Rule>, s: string, i: nat)
    requires i <= |s|
    ensures Tokenize(rules, s, i).failure.Some? ==>
      forall t :: t in Tokenize(rules, s, i).tokens ==> t.offset < Tokenize(rules, s, i).failure.value
    decreases |s| - i
  {
    var (step, j) := NextSignificant(rules, s, i);
    if step.Tok? {
      TokensBeforeFailure(rules, s, j);
    }
  }

  /** Nearley throws at significant token `k` exactly when the tokens before
      it begin some program and token `k` cannot continue any. */
  lemma SyntaxFailedMeans(rules: seq<Rule>, source: string, fuel: nat, k: nat)
    ensures var ts := Tokenize(rules, source, 0).tokens;
      Run(rules, source, fuel) == SyntaxFailed(k) <==> k < |ts| && Viable(ts, k) && !Viable(ts, k + 1)
  {
    RejectedMeans(Tokenize(rules, source, 0).tokens, k);
  }

  /** No result and no exception: the whole source lexes and its tokens
      stop partway through some program. */
  lemma NoValueMeans(rules: seq<Rule>, source: string, fuel: nat)
    ensures var lexed := Tokenize(rules, source, 0);
      Run(rules, source, fuel) == NoValue <==>
        && lexed.failure.None?
        && exists p :: WellFormed(p) && |lexed.tokens| < |Unparse(p)| && Begins(lexed.tokens, |lexed.tokens|, Unparse(p))
  {
    IncompleteMeans(Tokenize(rules, source, 0).tokens);
  }

  // ---------------------------------------------------------------------
  // The code, step by step.

  /** The token loop of nearley's `feed` (parser.js:6) over the lexer of
      dsl.cjs: pull significant tokens until the input ends or the lexer
      throws. */
  method Scan(rules: seq<Rule>, input: string) returns (tokens: seq<Token>, failure: Option<nat>)
    ensures Lexed(tokens, failure) == Tokenize(rules, input, 0)
  {
    var lexer := new Lexer(rules, input);
    tokens, failure := [], None;
    var prev := 0;
    var step := lexer.Next();
    while step.Tok?
      invariant lexer.Valid() && lexer.rules == rules && lexer.input == input
      invariant prev <= |input|
      invariant (step, lexer.pos) == NextSignificant(rules, input, prev)
      invariant Tokenize(rules, input, 0) ==
        Lexed(tokens + Tokenize(rules, input, prev).tokens, Tokenize(rules, input, prev).failure)
      decreases |input| - prev
    {
      TokenizeStep(rules, input, prev, tokens);
      tokens := tokens + [step.token];
      prev := lexer.pos;
      step := lexer.Next();
    }
    if step.Error? {
      failure := Some(step.at);
    }
    assert tokens + [] == tokens;
  }

  /** One more significant token moves from the rest of the input to the
      tokens already pulled. */
  lemma TokenizeStep(rules: seq<Rule>, input: string, i: nat, before: seq<Token>)
    requires i <= |input| && NextSignificant(rules, input, i).0.Tok?
    ensures var (step, j) := NextSignificant(rules, input, i);
      before + Tokenize(rules, input, i).tokens == (before + [step.token]) + Tokenize(rules, input, j).tokens
      && Tokenize(rules, input, i).failure == Tokenize(rules, input, j).failure
  {
    var (step, j) := NextSignificant(rules, input, i);
    var rest := Tokenize(rules, input, j);
    assert Tokenize(rules, input, i) == Lexed([step.token] + rest.tokens, rest.failure);
    assert before + ([step.token] + rest.tokens) == (before + [step.token]) + rest.tokens;
  }

  /** `run(source)` of the tests: parse, then interpret. */
  method RunSource(rules: seq<Rule>, source: string, fuel: nat) returns (r: Answer)
    ensures r == Run(rules, source, fuel)
  {
    var tokens, failure := Scan(rules, source);
    var outcome := ParseTokens(tokens);
    if outcome.Rejected? {
      return SyntaxFailed(outcome.index);
    }
    if failure.Some? {
      return LexFailed(failure.value);
    }
    if outcome.Incomplete? {
      return NoValue;
    }
    var v := Interpret(outcome.program, fuel);
    if v.Ok? {
      r := Value(v.value);
    } else {
      r := RuntimeFailed(v.error);
    }
  }

  /** A significant token where the first matching rule gives one. */
  lemma SignificantToken(rules: seq<Rule>, s: string, i: nat, t: Token)
    requires i < |s| && FirstMatch(rules, s, i) == Some(t) && !IsLayout(t.kind)
    ensures NextSignificant(rules, s, i) == (Tok(t), i + |t.text|)
  {
    assert RawNext(rules, s, i) == (Tok(t), i + |t.text|);
  }

  lemma TokenizeToken(rules: seq<Rule>, s: string, i: nat, t: Token, j: nat)
    requires i <= |s| && NextSignificant(rules, s, i) == (Tok(t), j)
    ensures Tokenize(rules, s, i) == Lexed([t] + Tokenize(rules, s, j).tokens, Tokenize(rules, s, j).failure)
  {
  }

  /** The last token of the input. */
  lemma LastToken(rules: seq<Rule>, s: string, i: nat, t: Token)
    requires i < |s| && FirstMatch(rules, s, i) == Some(t) && !IsLayout(t.kind) && i + |t.text| == |s|
    ensures Tokenize(rules, s, i) == Lexed([t], None)
  {
    SignificantToken(rules, s, i, t);
    TokenizeToken(rules, s, i, t, |s|);
    TokenizeEnd(rules, s);
    assert [t] + [] == [t];
  }

  /** A token followed by a position where no rule matches. */
  lemma TokenThenError(rules: seq<Rule>, s: string, i: nat, t: Token)
    requires i < |s| && FirstMatch(rules, s, i) == Some(t) && !IsLayout(t.kind)
    requires i + |t.text| < |s| && FirstMatch(rules, s, i + |t.text|).None?
    ensures Tokenize(rules, s, i) == Lexed([t], Some(i + |t.text|))
  {
    SignificantToken(rules, s, i, t);
    TokenizeToken(rules, s, i, t, i + |t.text|);
    TokenizeError(rules, s, i + |t.text|);
    assert [t] + [] == [t];
  }

  lemma TokenizeEnd(rules: seq<Rule>, s: string)
    ensures Tokenize(rules, s, |s|) == Lexed([], None)
  {
    assert NextSignificant(rules, s, |s|) == (End, |s|);
  }

  lemma TokenizeError(rules: seq<Rule>, s: string, i: nat)
    requires i < |s| && FirstMatch(rules, s, i).None?
    ensures Tokenize(rules, s, i) == Lexed([], Some(i))
  {
    assert NextSignificant(rules, s, i) == (Error(i), i);
  }

  // ---------------------------------------------------------------------
  // The integer literal.

  /** As written, the lexer never produces an integer token, so the
      `integer` alternative of the grammar can never be taken. */
  lemma NoIntegerTokensAsWritten(s: string, i: nat)
    requires i <= |s|
    ensures forall t :: t in Tokenize(MooRules, s, i).tokens ==> t.kind != Integer
  {
    assert forall r :: r in MooRules ==> RuleKind(r) != Integer;
    forall t | t in Tokenize(MooRules, s, i).tokens
      ensures t.kind != Integer
    {
      FirstMatchIsFirst(MooRules, s, t.offset);
      var k :| 0 <= k < |MooRules| && RuleKind(MooRules[k]) == t.kind;
      assert MooRules[k] in MooRules;
    }
  }

  /** As written, the program `1` stops the lexer at its first character. */
  lemma OneFailsAsWritten(fuel: nat)
    ensures Run(MooRules, "1", fuel) == LexFailed(0)
  {
    DigitIsLexErrorAsWritten("1", 0);
    assert Tokenize(MooRules, "1", 0) == Lexed([], Some(0));
    assert ParseTokens([]) == Incomplete;
  }

  /** With the integer rule, the program `1` evaluates to 1. */
  lemma OneEvaluates(fuel: nat)
    ensures Run(Rules, "1", fuel) == Value(Num(1))
  {
    LexOne("1");
    ParseOne();
    EvalOne(fuel);
  }

  lemma LexOne(s: string)
    requires |s| == 1 && s[0] == '1'
    ensures Tokenize(Rules, s, 0) == Lexed([Token(Integer, "1", 0)], None)
  {
    var t := Token(Integer, "1", 0);
    OneIsIntegerToken(s, 0);
    LastToken(Rules, s, 0, t);
  }

  lemma ParseOne()
    ensures ParseTokens([Token(Integer, "1", 0)]) == Accepted(Program([], Singleton(Int(1))))
  {
    var t := Token(Integer, "1", 0);
    assert ParseExpr([t], 0) == Parsed(Singleton(Int(1)), 1);
  }

  lemma EvalOne(fuel: nat)
    ensures RunProgram(Program([], Singleton(Int(1))), fuel) == Ok(Num(1))
  {
    assert Eval(Int(1), Root, BuiltinEnv, fuel) == Ok(Num(1));
  }

  // ---------------------------------------------------------------------
  // Error order and the first-match rule.

  /** `)1`: the parser rejects `)` before the lexer reaches `1`. */
  lemma SyntaxErrorComesFirst(fuel: nat)
    ensures Run(MooRules, ")1", fuel) == SyntaxFailed(0)
  {
    LexParenOne(")1");
    ParseParen();
  }

  lemma ParseParen()
    ensures ParseTokens([Token(RParen, ")", 0)]) == Rejected(0)
  {
  }

  lemma LexParenOne(s: string)
    requires |s| == 2 && s[0] == ')' && s[1] == '1'
    ensures Tokenize(MooRules, s, 0) == Lexed([Token(RParen, ")", 0)], Some(1))
  {
    var t := Token(RParen, ")", 0);
    assert At(s, 0, MooRules[6].lit) by {
      assert s[0..1] == ")";
    }
    ReservedWordsWin(MooRules, s, 0, 6);
    DigitIsLexErrorAsWritten(s, 1);
    TokenThenError(MooRules, s, 0, t);
  }

  /** The first rule that matches wins, not the longest match: `binder` is
      the keyword `bind` followed by the identifier `er`, which starts a
      binding that the input never finishes. */
  lemma BinderIsBindThenEr(fuel: nat)
    ensures Tokenize(Rules, "binder", 0).tokens == [Token(Bind, "bind", 0), Token(Identifier, "er", 4)]
    ensures Run(Rules, "binder", fuel) == NoValue
  {
    var b := Token(Bind, "bind", 0);
    var e := Token(Identifier, "er", 4);
    LexBinder("binder");
    assert ParseBinding([b, e], 0) == Stuck(UnexpectedEnd);
    assert ParseTokens([b, e]) == Incomplete;
  }

  predicate IsBinder(s: string) {
    |s| == 6 && s[0] == 'b' && s[1] == 'i' && s[2] == 'n' && s[3] == 'd' && s[4] == 'e' && s[5] == 'r'
  }

  lemma LexBinder(s: string)
    requires IsBinder(s)
    ensures Tokenize(Rules, s, 0) == Lexed([Token(Bind, "bind", 0), Token(Identifier, "er", 4)], None)
  {
    LexBind(s);
    LexEr(s);
  }

  lemma LexBind(s: string)
    requires IsBinder(s)
    ensures NextSignificant(Rules, s, 0) == (Tok(Token(Bind, "bind", 0)), 4)
  {
    assert At(s, 0, MooRules[2].lit) by {
      assert s[0..4] == "bind";
    }
    ReservedWordsWin(Rules, s, 0, 2);
    SignificantToken(Rules, s, 0, Token(Bind, "bind", 0));
  }

  lemma LexEr(s: string)
    requires IsBinder(s)
    ensures Tokenize(Rules, s, 4) == Lexed([Token(Identifier, "er", 4)], None)
  {
    var e := Token(Identifier, "er", 4);
    ErMatches(s);
    LastToken(Rules, s, 4, e);
  }

  lemma ErMatches(s: string)
    requires IsBinder(s)
    ensures FirstMatch(Rules, s, 4) == Some(Token(Identifier, "er", 4))
  {
    KnownRuleShapes(Rules);
    forall j | 0 <= j < 10 ensures MatchLength(Rules[j], s, 4) == 0 {
      NoMatchUnlessLeads(Rules[j], s, 4);
    }
    assert Span(s, 6, IsIdentChar) == 0;
    assert Span(s, 5, IsIdentChar) == 1;
    assert MatchLength(Rules[10], s, 4) == 2;
    assert s[4..6] == "er";
    FirstMatchPicks(Rules, s, 4, 10);
  }
}
