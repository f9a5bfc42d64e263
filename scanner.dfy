/** The `Scanner` class of app/Scanner.py: a cursor over the source text,
    the three readers, and the driver loop. Printed tokens are appended to
    `output`; an exception is returned as a `Failure`. */
module Scanning {

  import opened Wrappers
  import opened Tokens
  import opened Lexemes
  import opened Scan

  class Scanner {
    /** The whole source text (the file the source reads in its constructor). */
    const text: string
    /** The characters that are values of punctuator members of the token
        enum, each mapped to that member's name. */
    const punctuators: map<char, string>
    /** The cursor. */
    var pos: nat
    /** The tokens printed so far, in order. */
    var output: seq<Token>

    ghost predicate Valid()
      reads this
    {
      pos <= |text|
    }

    constructor (text: string, punctuators: map<char, string>)
      ensures Valid()
      ensures this.text == text && this.punctuators == punctuators
      ensures pos == 0 && output == []
    {
      this.text := text;
      this.punctuators := punctuators;
      pos := 0;
      output := [];
    }

    /** The character under the cursor, or None past the end. */
    function CurrentChar(): (c: Option<char>)
      reads this
      ensures c.None? <==> pos >= |text|
      ensures c.Some? ==> pos < |text| && c.value == text[pos]
    {
      if pos >= |text| then None else Some(text[pos])
    }

    /** Moves the cursor one character on. */
    method Advance()
      modifies this`pos
      ensures pos == old(pos) + 1
    {
      pos := pos + 1;
    }

    /** Moves the cursor past whitespace. */
    method SkipWhitespace()
      requires Valid()
      modifies this`pos
      ensures Valid()
      ensures pos == SkipSpaces(text, old(pos))
      ensures old(pos) <= pos
      ensures forall k :: old(pos) <= k < pos ==> IsSpace(text[k])
      ensures pos == |text| || !IsSpace(text[pos])
    {
      while CurrentChar().Some? && IsSpace(CurrentChar().value)
        invariant old(pos) <= pos <= |text|
        invariant SkipSpaces(text, pos) == SkipSpaces(text, old(pos))
        decreases |text| - pos
      {
        Advance();
      }
    }

    /** Returns the identifier at the cursor and moves past it, or returns
        None without moving. */
    method ReadIdentifier() returns (identifier: Option<string>)
      requires Valid()
      modifies this`pos
      ensures Valid()
      ensures identifier == ReadIdent(text, old(pos)).Returned()
      ensures pos == ReadIdent(text, old(pos)).PosAfter(old(pos))
    {
      var c := CurrentChar();
      if c.None? || !StartsIdentifier(c.value) {
        return None;
      }
      var start := pos;
      var lexeme := "";
      while CurrentChar().Some? && ContinuesIdentifier(CurrentChar().value)
        invariant start <= pos <= |text|
        invariant lexeme == text[start..pos]
        invariant IdentEnd(text, pos) == IdentEnd(text, start)
        decreases |text| - pos
      {
        lexeme := lexeme + [CurrentChar().value];
        Advance();
      }
      return Some(lexeme);
    }

    /** Returns the number at the cursor (digits and at most one '.') and
        moves past it, or returns None without moving. */
    method ReadNumber() returns (number: Option<string>)
      requires Valid()
      modifies this`pos
      ensures Valid()
      ensures number == ReadNum(text, old(pos)).Returned()
      ensures pos == ReadNum(text, old(pos)).PosAfter(old(pos))
    {
      var c := CurrentChar();
      if c.None? || !IsDigit(c.value) {
        return None;
      }
      var start := pos;
      var lexeme := "";
      var hasDecimal := false;
      while CurrentChar().Some?
        invariant start <= pos <= |text|
        invariant lexeme == text[start..pos]
        invariant NumberEnd(text, pos, hasDecimal) == NumberEnd(text, start, false)
        decreases |text| - pos
      {
        var ch := CurrentChar().value;
        if IsDigit(ch) {
          assert NumberEnd(text, pos, hasDecimal) == NumberEnd(text, pos + 1, hasDecimal);
          lexeme := lexeme + [ch];
          Advance();
        } else if ch == '.' && !hasDecimal {
          assert NumberEnd(text, pos, false) == NumberEnd(text, pos + 1, true);
          hasDecimal := true;
          lexeme := lexeme + [ch];
          Advance();
        } else {
          break;
        }
      }
      return Some(lexeme);
    }

    /** Returns the body of the string opened by the quote at the cursor and
        leaves the cursor on the closing quote, or returns None without
        moving. `unterminated` reports the exception raised when the input
        ends before a closing quote. */
    method ReadString() returns (body: Option<string>, unterminated: bool)
      requires Valid()
      modifies this`pos
      ensures Valid()
      ensures unterminated <==> ReadStr(text, old(pos)).RanOffEnd?
      ensures !unterminated ==> body == ReadStr(text, old(pos)).Returned()
      ensures !unterminated ==> pos == ReadStr(text, old(pos)).PosAfter(old(pos))
      ensures unterminated ==> body.None? && pos == |text|
    {
      var c := CurrentChar();
      if c.None? || c.value != '"' {
        return None, false;
      }
      var start := pos;
      var lexeme := "";
      Advance();
      while CurrentChar() != Some('"')
        invariant start < pos <= |text|
        invariant lexeme == text[start + 1..pos]
        invariant QuoteFrom(text, pos) == QuoteFrom(text, start + 1)
        decreases |text| - pos
      {
        var ch := CurrentChar();
        if ch.None? {
          return None, true;
        }
        lexeme := lexeme + [ch.value];
        Advance();
      }
      return Some(lexeme), false;
    }

    /** One pass of the body of the scan loop, up to the print: skips
        whitespace, tries the readers (each matching one a second time) and
        the punctuators, and returns the token built, or the failure raised
        on the way. */
    method NextToken() returns (token: Option<Token>, failure: Option<Failure>)
      requires Valid() && pos < |text|
      modifies this`pos
      ensures Valid()
      ensures failure.None? ==> token.Some? && Step(punctuators, text, old(pos)) == Emit(token.value, pos)
      ensures failure.Some? ==> Step(punctuators, text, old(pos)) == Fail(failure.value)
    {
      token := None;
      SkipWhitespace();
      var at := pos;
      var ch := CurrentChar();
      var identifier := ReadIdentifier();
      if identifier.Some? {
        identifier := ReadIdentifier();
        token := Some(Token(Identifier, identifier, Some(Null)));
      } else {
        var number := ReadNumber();
        if number.Some? {
          number := ReadNumber();
          token := Some(Token(Number, number, number));
        } else {
          var str, unterminated := ReadString();
          if unterminated {
            return None, Some(UnterminatedString(at));
          }
          if str.Some? {
            var close := pos;
            str, unterminated := ReadString();
            if unterminated {
              return None, Some(UnterminatedString(close));
            }
            token := Some(Token(String, str, str));
          } else if ch.Some? && ch.value in punctuators {
            token := Some(PunctToken(punctuators, ch.value));
            Advance();
          }
        }
      }
      if token.None? {
        return None, Some(NoTokenMatched(at));
      }
      failure := None;
    }

    /** The scan loop: emits the tokens of the text from the cursor on, then
        the EOF token; stops at the first failure. */
    method GetTokenType() returns (failure: Option<Failure>)
      requires Valid()
      modifies this`pos, this`output
      ensures Valid()
      ensures output == old(output) + Run(punctuators, text, old(pos)).tokens
      ensures failure == Run(punctuators, text, old(pos)).failure
      ensures failure.None? ==> pos == |text|
    {
      ghost var start := pos;
      ghost var emitted: seq<Token> := [];
      while CurrentChar().Some?
        invariant Valid()
        invariant output == old(output) + emitted
        invariant Run(punctuators, text, start) ==
                  Outcome(emitted + Run(punctuators, text, pos).tokens, Run(punctuators, text, pos).failure)
        decreases |text| - pos
      {
        ghost var here := pos;
        var token;
        token, failure := NextToken();
        if failure.Some? {
          return;
        }
        ghost var rest := Run(punctuators, text, pos);
        assert Run(punctuators, text, here) == Outcome([token.value] + rest.tokens, rest.failure);
        assert emitted + ([token.value] + rest.tokens) == (emitted + [token.value]) + rest.tokens;
        output := output + [token.value];
        emitted := emitted + [token.value];
      }
      output := output + [Eof];
      return None;
    }

    /** Tokenizes the text from the cursor on. */
    method Tokenize() returns (failure: Option<Failure>)
      requires Valid()
      modifies this`pos, this`output
      ensures Valid()
      ensures output == old(output) + Run(punctuators, text, old(pos)).tokens
      ensures failure == Run(punctuators, text, old(pos)).failure
      ensures failure.None? ==> pos == |text|
    {
      failure := GetTokenType();
    }
  }
}
