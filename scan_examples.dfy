/** What the scan loop of app/Scanner.py produces on a few small inputs. */
module ScanExamples {

  import opened Wrappers
  import opened Tokens
  import opened Lexemes
  import opened Scan

  /** Empty input: only the EOF token. */
  lemma EmptyInputExample(table: map<char, string>)
    ensures Run(table, "", 0) == Outcome([Eof], None)
  {
  }

  /** Parentheses are emitted one by one; nothing checks that they balance. */
  lemma ParenthesesExample(table: map<char, string>)
    requires '(' in table && ')' in table
    ensures Run(table, "(()", 0) ==
              Outcome([PunctToken(table, '('), PunctToken(table, '('), PunctToken(table, ')'), Eof], None)
  {
  }

  /** A number with a fraction is one NUMBER token, whose lexeme and literal
      are None because they come from the second `read_number` call. */
  lemma FractionExample(table: map<char, string>)
    ensures Run(table, "1234.1234", 0) == Outcome([Token(Number, None, None), Eof], None)
  {
    NumberStep(table, "1234.1234", 0);
    assert NumberEnd("1234.1234", 0, false) == 9;
  }

  /** A trailing '.' stays in the number: no separate token follows it. */
  lemma TrailingDotExample(table: map<char, string>)
    ensures Run(table, "1234.", 0) == Outcome([Token(Number, None, None), Eof], None)
  {
    DotWithoutFractionKept("1234.", 0, 4);
    NumberStep(table, "1234.", 0);
  }

  /** A word that would be a keyword is an identifier like any other. */
  lemma KeywordExample(table: map<char, string>)
    ensures Run(table, "and", 0) == Outcome([Token(Identifier, None, Some(Null)), Eof], None)
  {
  }

  /** A string without a closing quote fails at its opening quote. */
  lemma UnterminatedStringExample(table: map<char, string>)
    ensures Run(table, "\"abc", 0) == Outcome([], Some(UnterminatedString(0)))
  {
  }

  /** A properly closed string fails too: its closing quote is read again as
      the opening quote of a string that never ends. */
  lemma ClosedStringExample(table: map<char, string>)
    ensures Run(table, "\"abc\"", 0) == Outcome([], Some(UnterminatedString(4)))
  {
    StringStep(table, "\"abc\"", 0);
    assert QuoteFrom("\"abc\"", 1) == Some(4);
  }

  /** Two strings separated by a space yield one STRING token holding the
      space between them, and then fail at the last quote. */
  lemma TwoStringsExample(table: map<char, string>)
    ensures Run(table, "\"a\" \"b\"", 0) ==
              Outcome([Token(String, Some(" "), Some(" "))], Some(UnterminatedString(6)))
  {
    var text := "\"a\" \"b\"";
    StringStep(table, text, 0);
    assert QuoteFrom(text, 1) == Some(2);
    assert QuoteFrom(text, 3) == Some(4);
    assert text[3..4] == " ";
    StringStep(table, text, 4);
    assert QuoteFrom(text, 5) == Some(6);
    assert QuoteFrom(text, 7) == None;
  }

  /** A character that is no punctuator fails the scan at that character. */
  lemma UnknownCharacterExample(table: map<char, string>)
    requires '@' !in table
    ensures Run(table, "@", 0) == Outcome([], Some(NoTokenMatched(0)))
  {
  }

  /** A final newline is skipped, and the end of input it leaves behind
      matches nothing: the token before it is emitted, then the scan fails. */
  lemma TrailingNewlineExample(table: map<char, string>)
    ensures Run(table, "x\n", 0) ==
              Outcome([Token(Identifier, None, Some(Null))], Some(NoTokenMatched(2)))
  {
  }
}
