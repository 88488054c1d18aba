/**
 * The token rules of src/dsl.cjs.
 *
 * moo compiles its rules into one regular expression whose alternatives are
 * the rules in the order they are listed; at each position the FIRST rule
 * that matches wins, whatever the length of the other matches. A rule list
 * is therefore modelled as a sequence of `Rule`s tried in order.
 *
 * The wrapper that dsl.cjs installs around `lexer.next` keeps pulling raw
 * tokens while they are whitespace or comments; it is the `Lexer.Next`
 * method below, proved against the function `NextSignificant`.
 */
module Lexer {

  datatype Option<T> = None | Some(value: T)

  /** The token types of dsl.cjs (`Integer` only comes from the added `1` rule). */
  datatype Kind = WS | Comment | Bind | To | In | LParen | RParen | LBrack | RBrack | Arrow | Identifier | Integer

  /** A moo token: its type, the matched text and its offset in the input. */
  datatype Token = Token(kind: Kind, text: string, offset: nat)

  /** One moo rule. */
  datatype Rule =
    | Whitespace                        // /[ \t\n\r]+/
    | LineComment                       // /#[^\n]*/
    | Literal(kind: Kind, lit: string)  // a fixed string
    | IdentifierRule                    // /[a-zA-Z_?][a-zA-Z0-9_?\-]*/

  /** The rules exactly as dsl.cjs lists them: nothing matches a digit. */
  const MooRules: seq<Rule> := [
    Whitespace, LineComment,
    Literal(Bind, "bind"), Literal(To, "to"), Literal(In, "in"),
    Literal(LParen, "("), Literal(RParen, ")"), Literal(LBrack, "["), Literal(RBrack, "]"),
    Literal(Arrow, "->"),
    IdentifierRule
  ]

  /** The rules with the integer literal `1` added, as the character-level
      grammar of src/dsl.js has it; the rest of the model uses these. */
  const Rules: seq<Rule> := [
    Whitespace, LineComment,
    Literal(Bind, "bind"), Literal(To, "to"), Literal(In, "in"),
    Literal(LParen, "("), Literal(RParen, ")"), Literal(LBrack, "["), Literal(RBrack, "]"),
    Literal(Arrow, "->"),
    IdentifierRule,
    Literal(Integer, "1")
  ]

  predicate IsSpace(c: char) { c == ' ' || c == '\t' || c == '\n' || c == '\r' }
  predicate NotNewline(c: char) { c != '\n' }
  predicate IsLetter(c: char) { 'a' <= c <= 'z' || 'A' <= c <= 'Z' }
  predicate IsDigit(c: char) { '0' <= c <= '9' }
  predicate IsIdentStart(c: char) { IsLetter(c) || c == '_' || c == '?' }
  predicate IsIdentChar(c: char) { IsIdentStart(c) || IsDigit(c) || c == '-' }

  /** The fixed text of the token types that a `Literal` rule produces. */
  function Lexeme(k: Kind): string {
    match k
    case Bind => "bind"
    case To => "to"
    case In => "in"
    case LParen => "("
    case RParen => ")"
    case LBrack => "["
    case RBrack => "]"
    case Arrow => "->"
    case Integer => "1"
    case _ => ""
  }

  /** Whitespace and comment tokens, which the parser never sees. */
  predicate IsLayout(k: Kind) { k == WS || k == Comment }

  /** Length of the longest run of characters satisfying `p` from `i` on. */
  function Span(s: string, i: nat, p: char -> bool): (n: nat)
    requires i <= |s|
    ensures i + n <= |s|
    ensures forall k :: i <= k < i + n ==> p(s[k])
    ensures i + n == |s| || !p(s[i + n])
    decreases |s| - i
  {
    if i < |s| && p(s[i]) then 1 + Span(s, i + 1, p) else 0
  }

  function RuleKind(r: Rule): Kind {
    match r
    case Whitespace => WS
    case LineComment => Comment
    case Literal(k, _) => k
    case IdentifierRule => Identifier
  }

  /** Length of the match of rule `r` at position `i`; 0 when it does not match. */
  function MatchLength(r: Rule, s: string, i: nat): (n: nat)
    requires i <= |s|
    ensures i + n <= |s|
  {
    match r
    case Whitespace => Span(s, i, IsSpace)
    case LineComment => if i < |s| && s[i] == '#' then 1 + Span(s, i + 1, NotNewline) else 0
    case Literal(_, lit) => if 0 < |lit| && i + |lit| <= |s| && s[i..i + |lit|] == lit then |lit| else 0
    case IdentifierRule => if i < |s| && IsIdentStart(s[i]) then 1 + Span(s, i + 1, IsIdentChar) else 0
  }

  /** The token of the first rule of `rules` that matches at `i`, if any. */
  function FirstMatch(rules: seq<Rule>, s: string, i: nat): (t: Option<Token>)
    requires i <= |s|
    ensures t.Some? ==> t.value.offset == i && 0 < |t.value.text| && i + |t.value.text| <= |s|
    ensures t.Some? ==> s[i..i + |t.value.text|] == t.value.text
    ensures t.None? <==> forall r :: r in rules ==> MatchLength(r, s, i) == 0
  {
    if rules == [] then None
    else
      var n := MatchLength(rules[0], s, i);
      if n > 0 then Some(Token(RuleKind(rules[0]), s[i..i + n], i))
      else FirstMatch(rules[1..], s, i)
  }

  /** What one call of moo's own `next` yields. */
  datatype Step = Tok(token: Token) | End | Error(at: nat)

  /** moo's `next` at position `i`: the step and the position after it. At the
      end of the input it yields nothing; where no rule matches it throws. */
  function RawNext(rules: seq<Rule>, s: string, i: nat): (r: (Step, nat))
    requires i <= |s|
    ensures i <= r.1 <= |s|
    ensures r.0.Tok? ==> r.0.token.offset == i && r.1 == i + |r.0.token.text| > i
    ensures r.0.Tok? ==> s[i..r.1] == r.0.token.text
    ensures r.0.End? <==> i == |s|
    ensures r.0.Error? ==> r.0.at == i < |s| && FirstMatch(rules, s, i).None?
    ensures r.0.Tok? ==> FirstMatch(rules, s, i) == Some(r.0.token)
  {
    if i == |s| then (End, i)
    else
      match FirstMatch(rules, s, i)
      case None => (Error(i), i)
      case Some(t) => (Tok(t), i + |t.text|)
  }

  /** The raw steps of moo from `i` reach `j` through whitespace and
      comment tokens only. */
  predicate LayoutRun(rules: seq<Rule>, s: string, i: nat, j: nat)
    decreases j - i
  {
    i == j ||
    (i < j <= |s| &&
     var (step, k) := RawNext(rules, s, i);
     step.Tok? && IsLayout(step.token.kind) && k <= j && LayoutRun(rules, s, k, j))
  }

  /** The wrapped `lexer.next` of dsl.cjs:22-26: raw steps are pulled while
      they are whitespace or comments. Everything it skips is layout, and
      it stops at the first token that is not, at the end of the input, or
      where no rule matches. */
  function NextSignificant(rules: seq<Rule>, s: string, i: nat): (r: (Step, nat))
    requires i <= |s|
    ensures i <= r.1 <= |s|
    ensures r.0.Tok? ==> !IsLayout(r.0.token.kind)
    ensures r.0.Tok? ==> i <= r.0.token.offset && r.1 == r.0.token.offset + |r.0.token.text| > i
    ensures r.0.Tok? ==> s[r.0.token.offset..r.1] == r.0.token.text
    ensures r.0.Error? ==> i <= r.0.at < |s| && FirstMatch(rules, s, r.0.at).None?
    ensures r.0.Tok? ==> FirstMatch(rules, s, r.0.token.offset) == Some(r.0.token)
    ensures r.0.Tok? ==> LayoutRun(rules, s, i, r.0.token.offset)
    ensures r.0.End? ==> r.1 == |s| && LayoutRun(rules, s, i, |s|)
    ensures r.0.Error? ==> r.1 == r.0.at && LayoutRun(rules, s, i, r.0.at)
    decreases |s| - i
  {
    var (step, j) := RawNext(rules, s, i);
    if step.Tok? && IsLayout(step.token.kind) then NextSignificant(rules, s, j) else (step, j)
  }

  /** Everything the parser is handed: the significant tokens up to the end
      of the input or up to the first position where no rule matches. */
  datatype Lexed = Lexed(tokens: seq<Token>, failure: Option<nat>)

  /** Every token moo itself yields from `i` on, layout included, up to the
      end of the input or the first position where no rule matches. Each
      token is the first rule's match at its offset
      (`LexerProperties.MooStepsTile` shows they cover the text without
      gaps). */
  function MooSteps(rules: seq<Rule>, s: string, i: nat): (r: Lexed)
    requires i <= |s|
    ensures forall k :: 0 <= k < |r.tokens| ==>
      i <= r.tokens[k].offset < |s| && FirstMatch(rules, s, r.tokens[k].offset) == Some(r.tokens[k])
    ensures r.failure.Some? ==> i <= r.failure.value < |s| && FirstMatch(rules, s, r.failure.value).None?
    decreases |s| - i
  {
    var (step, j) := RawNext(rules, s, i);
    match step
    case End => Lexed([], None)
    case Error(at) => Lexed([], Some(at))
    case Tok(t) =>
      var rest := MooSteps(rules, s, j);
      Lexed([t] + rest.tokens, rest.failure)
  }

  /** The tokens that are not whitespace or comments, in order. */
  function Significant(ts: seq<Token>): (r: seq<Token>)
    ensures |r| <= |ts|
    ensures forall t :: t in r <==> t in ts && !IsLayout(t.kind)
  {
    if ts == [] then []
    else (if IsLayout(ts[0].kind) then [] else [ts[0]]) + Significant(ts[1..])
  }

  /** Everything the parser is handed: the significant tokens up to the end
      of the input or up to the first position where no rule matches
      (`LexerProperties.TokenizeDropsLayout` relates it to moo's own tokens). */
  function Tokenize(rules: seq<Rule>, s: string, i: nat): (r: Lexed)
    requires i <= |s|
    ensures forall t :: t in r.tokens ==> !IsLayout(t.kind)
    ensures forall t :: t in r.tokens ==> t.offset <= |s| && FirstMatch(rules, s, t.offset) == Some(t)
    ensures forall t :: t in r.tokens ==> i <= t.offset
    ensures forall a, b :: 0 <= a < b < |r.tokens| ==> r.tokens[a].offset + |r.tokens[a].text| <= r.tokens[b].offset
    ensures r.failure.Some? ==> i <= r.failure.value < |s| && FirstMatch(rules, s, r.failure.value).None?
    decreases |s| - i
  {
    var (step, j) := NextSignificant(rules, s, i);
    match step
    case End => Lexed([], None)
    case Error(at) => Lexed([], Some(at))
    case Tok(t) =>
      var rest := Tokenize(rules, s, j);
      Lexed([t] + rest.tokens, rest.failure)
  }

  /** A moo lexer reset on `input`, with the `next` wrapper of dsl.cjs. */
  class Lexer {
    const rules: seq<Rule>
    const input: string
    var pos: nat

    ghost predicate Valid()
      reads this
    {
      pos <= |input|
    }

    constructor (rules: seq<Rule>, input: string)
      ensures Valid() && this.rules == rules && this.input == input && pos == 0
    {
      this.rules := rules;
      this.input := input;
      pos := 0;
    }

    /** moo's own `next`. */
    method Raw() returns (step: Step)
      requires Valid()
      modifies this
      ensures Valid()
      ensures (step, pos) == RawNext(rules, input, old(pos))
    {
      if pos == |input| {
        return End;
      }
      var t := FirstMatch(rules, input, pos);
      if t.None? {
        return Error(pos);
      }
      step := Tok(t.value);
      pos := pos + |t.value.text|;
    }

    /** The replacement `next` of dsl.cjs:22-26. */
    method Next() returns (step: Step)
      requires Valid()
      modifies this
      ensures Valid()
      ensures (step, pos) == NextSignificant(rules, input, old(pos))
    {
      step := Raw();
      while step.Tok? && IsLayout(step.token.kind)
        invariant Valid()
        invariant old(pos) <= pos
        invariant NextSignificant(rules, input, old(pos)) ==
          if step.Tok? && IsLayout(step.token.kind) then NextSignificant(rules, input, pos) else (step, pos)
        decreases |input| - pos, if step.Tok? then 1 else 0
      {
        step := Raw();
      }
    }
  }
}
