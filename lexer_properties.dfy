/**
 * What the rule order and the rules of src/dsl.cjs guarantee about tokens.
 */
module LexerProperties {
  import opened Lexer

  /** The two rule lists of the model: as written, and with `1` added. */
  predicate Known(rules: seq<Rule>) { rules == MooRules || rules == Rules }

  /** A rule that matches at `i`, when no earlier rule does, decides the token. */
  lemma {:induction false} FirstMatchPicks(rules: seq<Rule>, s: string, i: nat, k: nat)
    requires i <= |s| && k < |rules|
    requires MatchLength(rules[k], s, i) > 0
    requires forall j :: 0 <= j < k ==> MatchLength(rules[j], s, i) == 0
    ensures FirstMatch(rules, s, i) ==
      Some(Token(RuleKind(rules[k]), s[i..i + MatchLength(rules[k], s, i)], i))
  {
    if k > 0 {
      FirstMatchPicks(rules[1..], s, i, k - 1);
    }
  }

  /** Conversely, every token comes from a rule that matches, with every
      earlier rule failing to match. */
  lemma {:induction false} FirstMatchIsFirst(rules: seq<Rule>, s: string, i: nat)
    requires i <= |s| && FirstMatch(rules, s, i).Some?
    ensures exists k :: (0 <= k < |rules|
      && RuleKind(rules[k]) == FirstMatch(rules, s, i).value.kind
      && MatchLength(rules[k], s, i) == |FirstMatch(rules, s, i).value.text|
      && (forall j :: 0 <= j < k ==> MatchLength(rules[j], s, i) == 0))
  {
    if MatchLength(rules[0], s, i) == 0 {
      FirstMatchIsFirst(rules[1..], s, i);
      var k :| 0 <= k < |rules[1..]|
        && RuleKind(rules[1..][k]) == FirstMatch(rules[1..], s, i).value.kind
        && MatchLength(rules[1..][k], s, i) == |FirstMatch(rules[1..], s, i).value.text|
        && (forall j :: 0 <= j < k ==> MatchLength(rules[1..][j], s, i) == 0);
      assert rules[k + 1] == rules[1..][k];
      assert forall j :: 0 <= j < k + 1 ==> MatchLength(rules[j], s, i) == 0 by {
        forall j | 0 <= j < k + 1 ensures MatchLength(rules[j], s, i) == 0 {
          if j > 0 { assert rules[j] == rules[1..][j - 1]; }
        }
      }
    }
  }

  /** `s` holds `lit` at position `i`. */
  predicate At(s: string, i: nat, lit: string) {
    i + |lit| <= |s| && s[i..i + |lit|] == lit
  }

  /** Whether a match of `r` can begin with the character `c`. */
  predicate Leads(r: Rule, c: char) {
    match r
    case Whitespace => IsSpace(c)
    case LineComment => c == '#'
    case Literal(_, lit) => 0 < |lit| && lit[0] == c
    case IdentifierRule => IsIdentStart(c)
  }

  lemma NoMatchUnlessLeads(r: Rule, s: string, i: nat)
    requires i <= |s|
    requires i == |s| || !Leads(r, s[i])
    ensures MatchLength(r, s, i) == 0
  {
    if r.Literal? && 0 < |r.lit| && At(s, i, r.lit) {
      assert s[i] == s[i..i + |r.lit|][0];
    }
  }

  /** The first-character sets of the rules, in list order. */
  lemma KnownRuleShapes(rules: seq<Rule>)
    requires Known(rules)
    ensures |rules| >= 11
    ensures forall j :: 0 <= j < |rules| ==> rules[j] == (if j < 11 then MooRules[j] else Literal(Integer, "1"))
    ensures rules == Rules ==> |rules| == 12
    ensures rules == MooRules ==> |rules| == 11
  {
  }

  /** The words `bind`, `to`, `in` and the punctuation are listed before the
      identifier rule, so where one of them occurs it is the token, even
      inside a longer identifier-like word. */
  lemma ReservedWordsWin(rules: seq<Rule>, s: string, i: nat, k: nat)
    requires Known(rules) && 2 <= k < 10
    requires At(s, i, MooRules[k].lit)
    ensures FirstMatch(rules, s, i) == Some(Token(MooRules[k].kind, MooRules[k].lit, i))
  {
    KnownRuleShapes(rules);
    EarlierRulesDoNotLead(k);
    assert rules[k] == MooRules[k];
    assert forall j :: 0 <= j < k ==> !Leads(rules[j], rules[k].lit[0]) by {
      forall j | 0 <= j < k ensures !Leads(rules[j], rules[k].lit[0]) {
        assert rules[j] == MooRules[j];
      }
    }
    LeadingLiteralWins(rules, s, i, k);
  }

  /** A literal rule wins where its text occurs and no earlier rule can
      begin with the text's first character. */
  lemma LeadingLiteralWins(rules: seq<Rule>, s: string, i: nat, k: nat)
    requires k < |rules| && rules[k].Literal? && 0 < |rules[k].lit|
    requires At(s, i, rules[k].lit)
    requires forall j :: 0 <= j < k ==> !Leads(rules[j], rules[k].lit[0])
    ensures FirstMatch(rules, s, i) == Some(Token(rules[k].kind, rules[k].lit, i))
  {
    var lit := rules[k].lit;
    assert s[i] == s[i..i + |lit|][0] == lit[0];
    forall j | 0 <= j < k ensures MatchLength(rules[j], s, i) == 0 {
      NoMatchUnlessLeads(rules[j], s, i);
    }
    FirstMatchPicks(rules, s, i, k);
  }

  /** The first characters of the words and the punctuation differ from each
      other and from the layout rules' first characters. */
  lemma EarlierRulesDoNotLead(k: nat)
    requires 2 <= k < 10
    ensures forall j :: 0 <= j < k ==> !Leads(MooRules[j], MooRules[k].lit[0])
  {
  }

  /** The identifier rule is the only rule of `rules` that yields identifiers. */
  predicate SoleIdentifierRule(rules: seq<Rule>) {
    forall k :: 0 <= k < |rules| && RuleKind(rules[k]) == Identifier ==> rules[k] == IdentifierRule
  }

  lemma KnownSoleIdentifierRule(rules: seq<Rule>)
    requires Known(rules)
    ensures SoleIdentifierRule(rules)
  {
    KnownRuleShapes(rules);
  }

  lemma IdentifierMatch(s: string, i: nat)
    requires i <= |s| && MatchLength(IdentifierRule, s, i) > 0
    ensures var n := MatchLength(IdentifierRule, s, i);
      && IsIdentStart(s[i])
      && (forall k :: i < k < i + n ==> IsIdentChar(s[k]))
      && (i + n == |s| || !IsIdentChar(s[i + n]))
  {
  }

  /** An identifier token starts with a letter, `_` or `?`, continues with
      letters, digits, `_`, `?` or `-`, and extends as far as those go. */
  lemma IdentifierShape(rules: seq<Rule>, s: string, i: nat)
    requires SoleIdentifierRule(rules) && i <= |s|
    requires FirstMatch(rules, s, i).Some? && FirstMatch(rules, s, i).value.kind == Identifier
    ensures var t := FirstMatch(rules, s, i).value;
      && IsIdentStart(t.text[0])
      && (forall c :: c in t.text[1..] ==> IsIdentChar(c))
      && (i + |t.text| == |s| || !IsIdentChar(s[i + |t.text|]))
  {
    var t := FirstMatch(rules, s, i).value;
    assert |t.text| == MatchLength(IdentifierRule, s, i) by {
      FirstMatchIsFirst(rules, s, i);
      var k :| 0 <= k < |rules| && RuleKind(rules[k]) == t.kind && MatchLength(rules[k], s, i) == |t.text|;
    }
    IdentifierText(s, i, t.text);
  }

  lemma IdentifierText(s: string, i: nat, text: string)
    requires i <= |s| && 0 < |text| == MatchLength(IdentifierRule, s, i)
    requires i + |text| <= |s| && s[i..i + |text|] == text
    ensures IsIdentStart(text[0])
    ensures forall c :: c in text[1..] ==> IsIdentChar(c)
    ensures i + |text| == |s| || !IsIdentChar(s[i + |text|])
  {
    IdentifierMatch(s, i);
    assert text[0] == s[i];
    forall c | c in text[1..] ensures IsIdentChar(c) {
      var m :| 0 <= m < |text[1..]| && text[1..][m] == c;
      assert c == s[i + 1 + m];
    }
  }

  /** The identifier rule applies wherever an identifier can start and no
      reserved word begins. */
  lemma IdentifierWhereNoReservedWord(rules: seq<Rule>, s: string, i: nat)
    requires Known(rules) && i < |s| && IsIdentStart(s[i])
    requires !At(s, i, "bind") && !At(s, i, "to") && !At(s, i, "in")
    ensures FirstMatch(rules, s, i).Some? && FirstMatch(rules, s, i).value.kind == Identifier
  {
    KnownRuleShapes(rules);
    forall j | 0 <= j < 10 ensures MatchLength(rules[j], s, i) == 0 {
      if j >= 2 && j <= 4 {
        assert rules[j].lit in {"bind", "to", "in"};
      } else {
        NoMatchUnlessLeads(rules[j], s, i);
      }
    }
    FirstMatchPicks(rules, s, i, 10);
  }

  /** A rule is a fixed-text rule exactly when its tokens are neither layout
      nor identifiers, and then its text is the lexeme of its type. */
  predicate Spelled(r: Rule) {
    && (r.Literal? <==> !IsLayout(RuleKind(r)) && RuleKind(r) != Identifier)
    && (r.Literal? ==> r.lit == Lexeme(r.kind))
  }

  lemma KnownRulesSpelled(rules: seq<Rule>)
    requires Known(rules)
    ensures forall j :: 0 <= j < |rules| ==> Spelled(rules[j])
  {
    KnownRuleShapes(rules);
    forall j | 0 <= j < |rules| ensures Spelled(rules[j]) {
      if j < 11 {
        MooRuleSpelled(j);
      }
    }
  }

  lemma MooRuleSpelled(j: nat)
    requires j < 11
    ensures Spelled(MooRules[j])
  {
    if j < 2 {
    } else if j < 6 {
    } else if j < 10 {
    }
  }

  /** A token of a fixed-text rule carries exactly that text. */
  lemma LiteralTokenText(rules: seq<Rule>, s: string, i: nat)
    requires Known(rules) && i <= |s| && FirstMatch(rules, s, i).Some?
    ensures var t := FirstMatch(rules, s, i).value;
      t.kind != Identifier && !IsLayout(t.kind) ==> t.text == Lexeme(t.kind)
  {
    KnownRulesSpelled(rules);
    SpelledTokenText(rules, s, i);
  }

  lemma SpelledTokenText(rules: seq<Rule>, s: string, i: nat)
    requires forall j :: 0 <= j < |rules| ==> Spelled(rules[j])
    requires i <= |s| && FirstMatch(rules, s, i).Some?
    ensures var t := FirstMatch(rules, s, i).value;
      t.kind != Identifier && !IsLayout(t.kind) ==> t.text == Lexeme(t.kind)
  {
    FirstMatchIsFirst(rules, s, i);
    var t := FirstMatch(rules, s, i).value;
    var k :| 0 <= k < |rules| && RuleKind(rules[k]) == t.kind && MatchLength(rules[k], s, i) == |t.text|;
    assert Spelled(rules[k]);
  }

  /** As written, no rule matches a digit: a `1` in the source stops the lexer. */
  lemma DigitIsLexErrorAsWritten(s: string, i: nat)
    requires i < |s| && IsDigit(s[i])
    ensures FirstMatch(MooRules, s, i).None?
    ensures RawNext(MooRules, s, i) == (Error(i), i)
  {
    KnownRuleShapes(MooRules);
    forall r | r in MooRules ensures MatchLength(r, s, i) == 0 {
      NoMatchUnlessLeads(r, s, i);
    }
  }

  /** With the added rule, `1` is an integer token (other digits still fail). */
  lemma OneIsIntegerToken(s: string, i: nat)
    requires i < |s| && s[i] == '1'
    ensures FirstMatch(Rules, s, i) == Some(Token(Integer, "1", i))
  {
    DigitIsLexErrorAsWritten(s, i);
    assert Rules == MooRules + [Literal(Integer, "1")];
    FirstMatchAppend(MooRules, [Literal(Integer, "1")], s, i);
    assert s[i..i + 1] == "1";
  }

  /** Rules added after a list only matter where none of the list matches. */
  lemma {:induction false} FirstMatchAppend(rules: seq<Rule>, more: seq<Rule>, s: string, i: nat)
    requires i <= |s|
    ensures FirstMatch(rules + more, s, i) ==
      if FirstMatch(rules, s, i).Some? then FirstMatch(rules, s, i) else FirstMatch(more, s, i)
  {
    if rules == [] {
      assert rules + more == more;
    } else {
      assert (rules + more)[0] == rules[0];
      assert (rules + more)[1..] == rules[1..] + more;
      if MatchLength(rules[0], s, i) == 0 {
        FirstMatchAppend(rules[1..], more, s, i);
      }
    }
  }

  /** One call of the wrapper of dsl.cjs:22-26 consumes a prefix of moo's own
      token chain: the layout it skips contributes nothing significant, and
      an end or an error is exactly where moo's chain ends. */
  lemma {:induction false} SkipLayout(rules: seq<Rule>, s: string, i: nat)
    requires i <= |s|
    ensures var (step, j) := NextSignificant(rules, s, i);
      var moo := MooSteps(rules, s, i);
      match step
      case Tok(t) =>
        Significant(moo.tokens) == [t] + Significant(MooSteps(rules, s, j).tokens) &&
        moo.failure == MooSteps(rules, s, j).failure
      case End => Significant(moo.tokens) == [] && moo.failure == None
      case Error(at) => Significant(moo.tokens) == [] && moo.failure == Some(at)
    decreases |s| - i
  {
    var (step, k) := RawNext(rules, s, i);
    if step.Tok? {
      var rest := MooSteps(rules, s, k).tokens;
      assert ([step.token] + rest)[1..] == rest;
      if IsLayout(step.token.kind) {
        SkipLayout(rules, s, k);
      }
    }
  }

  /** What the parser is handed is exactly moo's own token chain with the
      whitespace and comment tokens dropped, and it fails exactly where moo
      throws. */
  lemma {:induction false} TokenizeDropsLayout(rules: seq<Rule>, s: string, i: nat)
    requires i <= |s|
    ensures Tokenize(rules, s, i) ==
      Lexed(Significant(MooSteps(rules, s, i).tokens), MooSteps(rules, s, i).failure)
    decreases |s| - i
  {
    SkipLayout(rules, s, i);
    var (step, j) := NextSignificant(rules, s, i);
    if step.Tok? {
      TokenizeDropsLayout(rules, s, j);
    }
  }

  /** `ts` covers the text from `from` to `upto` token after token, with
      no gap and no overlap. */
  predicate Tiles(ts: seq<Token>, from: nat, upto: nat) {
    (ts == [] ==> from == upto) &&
    (ts != [] ==> ts[0].offset == from && ts[|ts| - 1].offset + |ts[|ts| - 1].text| == upto) &&
    forall k :: 0 < k < |ts| ==> ts[k].offset == ts[k - 1].offset + |ts[k - 1].text|
  }

  /** moo's chain leaves no character unread: its tokens cover the text
      from `i` up to the end of the input, or up to the position where it
      throws. */
  lemma {:induction false} MooStepsTile(rules: seq<Rule>, s: string, i: nat)
    requires i <= |s|
    ensures var r := MooSteps(rules, s, i);
      Tiles(r.tokens, i, if r.failure.Some? then r.failure.value else |s|)
    decreases |s| - i
  {
    var (step, j) := RawNext(rules, s, i);
    if step.Tok? {
      MooStepsTile(rules, s, j);
      var rest := MooSteps(rules, s, j);
      var ts := [step.token] + rest.tokens;
      assert MooSteps(rules, s, i) == Lexed(ts, rest.failure);
      forall k | 0 < k < |ts| ensures ts[k].offset == ts[k - 1].offset + |ts[k - 1].text| {
        assert ts[k] == rest.tokens[k - 1];
        if k > 1 {
          assert ts[k - 1] == rest.tokens[k - 2];
        }
      }
      if rest.tokens != [] {
        assert ts[|ts| - 1] == rest.tokens[|rest.tokens| - 1];
      }
    }
  }
}
