/** The scan loop of `Scanner.get_token_type` (app/Scanner.py), stated as
    functions: one pass of the loop body, and the whole loop. */
module Scan {

  import opened Wrappers
  import opened Tokens
  import opened Lexemes

  /** The two ways the source stops with an exception. */
  datatype Failure =
    | NoTokenMatched(at: nat)          // `().print()`: nothing matched the character at `at` (or the end)
    | UnterminatedString(opening: nat) // `string += None`: no quote after the one at `opening`

  /** One pass of the loop body: a token and the cursor after it, or a failure. */
  datatype StepOutcome = Emit(token: Token, next: nat) | Fail(failure: Failure)

  /** A whole scan: the tokens emitted in order, and the failure that ended it, if any. */
  datatype Outcome = Outcome(tokens: seq<Token>, failure: Option<Failure>)

  /** The token a punctuator character becomes: named after the enum member
      whose value it is, with the character as lexeme and the literal "null". */
  function PunctToken(table: map<char, string>, c: char): Token
    requires c in table
  {
    Token(Named(table[c]), Some([c]), Some(Null))
  }

  /** One pass of the loop body with the cursor at `p`. `table` maps each
      character that is the value of a punctuator member of the token enum to
      that member's name. Every reader that matches is called a second time,
      and the token is built from the second call's result. */
  function Step(table: map<char, string>, text: string, p: nat): (r: StepOutcome)
    requires p < |text|
    ensures r.Emit? ==> p < r.next <= |text|
    ensures r.Emit? ==> r.token != Eof && AsEmitted(r.token)
    ensures r.Emit? && r.next == |text| ==> !IsSpace(text[|text| - 1])
  {
    var s := SkipSpaces(text, p);
    var id := ReadIdent(text, s);
    if id.Matched? then
      var again := ReadIdent(text, id.end);
      Emit(Token(Identifier, again.Returned(), Some(Null)), again.PosAfter(id.end))
    else
      var num := ReadNum(text, s);
      if num.Matched? then
        var again := ReadNum(text, num.end);
        Emit(Token(Number, again.Returned(), again.Returned()), again.PosAfter(num.end))
      else
        var str := ReadStr(text, s);
        if str.RanOffEnd? then
          Fail(UnterminatedString(s))
        else if str.Matched? then
          var again := ReadStr(text, str.end);
          if again.RanOffEnd? then Fail(UnterminatedString(str.end))
          else Emit(Token(String, again.Returned(), again.Returned()), again.PosAfter(str.end))
        else if s < |text| && text[s] in table then
          Emit(PunctToken(table, text[s]), s + 1)
        else
          Fail(NoTokenMatched(s))
  }

  /** The loop from cursor `p` on: it runs while a character remains, stops at
      the first failure, and otherwise ends with the EOF token. Every pass
      consumes at least one character, so there are at most as many tokens as
      characters left, plus the EOF token. */
  function Run(table: map<char, string>, text: string, p: nat): (r: Outcome)
    requires p <= |text|
    ensures |r.tokens| <= |text| - p + 1
    decreases |text| - p
  {
    if p == |text| then
      Outcome([Eof], None)
    else
      match Step(table, text, p)
      case Emit(token, q) =>
        var rest := Run(table, text, q);
        Outcome([token] + rest.tokens, rest.failure)
      case Fail(f) =>
        Outcome([], Some(f))
  }

  /** A scan that finishes without failure ends with the EOF token, and
      emits it nowhere else. */
  lemma {:induction false} FinishedScanEndsWithEof(table: map<char, string>, text: string, p: nat)
    requires p <= |text|
    requires Run(table, text, p).failure.None?
    ensures var ts := Run(table, text, p).tokens;
            |ts| > 0 && ts[|ts| - 1] == Eof && forall i :: 0 <= i < |ts| - 1 ==> ts[i] != Eof
    decreases |text| - p
  {
    if p < |text| {
      var step := Step(table, text, p);
      var rest := Run(table, text, step.next);
      FinishedScanEndsWithEof(table, text, step.next);
      assert Run(table, text, p).tokens == [step.token] + rest.tokens;
    }
  }

  /** A scan that fails never emits the EOF token. */
  lemma {:induction false} FailedScanHasNoEof(table: map<char, string>, text: string, p: nat)
    requires p <= |text|
    requires Run(table, text, p).failure.Some?
    ensures Eof !in Run(table, text, p).tokens
    decreases |text| - p
  {
    if Step(table, text, p).Emit? {
      var step := Step(table, text, p);
      var rest := Run(table, text, step.next);
      FailedScanHasNoEof(table, text, step.next);
      assert Run(table, text, p).tokens == [step.token] + rest.tokens;
    }
  }

  /** The shape each kind of token has in the source as written: identifiers
      and numbers lose their lexeme to the second reader call (numbers their
      literal too), a string's lexeme is its literal, and a named token is
      the EOF token or a one-character punctuator. */
  predicate AsEmitted(t: Token) {
    match t.kind
    case Identifier => t.lexeme.None? && t.literal == Some(Null)
    case Number => t.lexeme.None? && t.literal.None?
    case String => t.lexeme.Some? && t.literal == t.lexeme
    case Named(_) => t == Eof || (t.lexeme.Some? && |t.lexeme.value| == 1 && t.literal == Some(Null))
  }

  /** Every token of every scan has its kind's shape. */
  lemma {:induction false} EveryTokenAsEmitted(table: map<char, string>, text: string, p: nat)
    requires p <= |text|
    ensures forall t :: t in Run(table, text, p).tokens ==> AsEmitted(t)
    decreases |text| - p
  {
    if p < |text| {
      match Step(table, text, p)
      case Emit(token, q) =>
        EveryTokenAsEmitted(table, text, q);
      case Fail(f) =>
    }
  }

  /** Input that ends in whitespace never finishes: the last whitespace is
      skipped, the current character is then None, and no reader or
      punctuator matches it. */
  lemma {:induction false} TrailingWhitespaceFails(table: map<char, string>, text: string, p: nat)
    requires p < |text| && IsSpace(text[|text| - 1])
    ensures Run(table, text, p).failure.Some?
    decreases |text| - p
  {
    match Step(table, text, p)
    case Emit(token, q) =>
      TrailingWhitespaceFails(table, text, q);
    case Fail(f) =>
  }

  /** An identifier: the first call reads the longest run of identifier
      characters, the second returns None, so the token's lexeme is None. */
  lemma IdentifierStep(table: map<char, string>, text: string, p: nat)
    requires p < |text|
    requires SkipSpaces(text, p) < |text| && StartsIdentifier(text[SkipSpaces(text, p)])
    ensures Step(table, text, p) ==
              Emit(Token(Identifier, None, Some(Null)), IdentEnd(text, SkipSpaces(text, p)))
  {
  }

  /** A number: the first call reads the digits and at most one '.', the
      second returns None, so both lexeme and literal are None. */
  lemma NumberStep(table: map<char, string>, text: string, p: nat)
    requires p < |text|
    requires SkipSpaces(text, p) < |text| && IsDigit(text[SkipSpaces(text, p)])
    ensures Step(table, text, p) ==
              Emit(Token(Number, None, None), NumberEnd(text, SkipSpaces(text, p), false))
  {
  }

  /** A string: the token holds the text between the FIRST string's closing
      quote and the next quote; a missing quote in either call fails. */
  lemma StringStep(table: map<char, string>, text: string, p: nat)
    requires p < |text|
    requires SkipSpaces(text, p) < |text| && text[SkipSpaces(text, p)] == '"'
    ensures var s := SkipSpaces(text, p);
            match QuoteFrom(text, s + 1)
            case None => Step(table, text, p) == Fail(UnterminatedString(s))
            case Some(close) =>
              match QuoteFrom(text, close + 1)
              case None => Step(table, text, p) == Fail(UnterminatedString(close))
              case Some(next) =>
                Step(table, text, p) ==
                  Emit(Token(String, Some(text[close + 1..next]), Some(text[close + 1..next])), next)
  {
    var s := SkipSpaces(text, p);
    assert ReadIdent(text, s) == NoMatch;
    assert ReadNum(text, s) == NoMatch;
  }

  /** Any other character found in the table becomes a token named after it,
      with the character as lexeme, and is consumed alone. */
  lemma PunctuatorStep(table: map<char, string>, text: string, p: nat)
    requires p < |text|
    requires var s := SkipSpaces(text, p);
             s < |text| && !StartsIdentifier(text[s]) && !IsDigit(text[s]) && text[s] != '"' &&
             text[s] in table
    ensures var s := SkipSpaces(text, p);
            Step(table, text, p) == Emit(Token(Named(table[text[s]]), Some([text[s]]), Some(Null)), s + 1)
  {
  }

  /** End of input after whitespace, or a character no reader and no table
      entry accepts, is the `().print()` failure. */
  lemma UnmatchedStep(table: map<char, string>, text: string, p: nat)
    requires p < |text|
    requires var s := SkipSpaces(text, p);
             s == |text| ||
             (!StartsIdentifier(text[s]) && !IsDigit(text[s]) && text[s] != '"' && text[s] !in table)
    ensures Step(table, text, p) == Fail(NoTokenMatched(SkipSpaces(text, p)))
  {
  }
}
