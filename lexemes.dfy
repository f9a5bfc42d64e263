/** The character classes and the three lexeme readers of app/Scanner.py,
    stated as functions of the source text and a cursor position. */
module Lexemes {

  import opened Wrappers

  // Character classes: the ASCII part of Python's str.isalpha, str.isdigit,
  // str.isalnum and str.isspace.

  predicate IsAlpha(c: char) {
    'a' <= c <= 'z' || 'A' <= c <= 'Z'
  }

  predicate IsDigit(c: char) {
    '0' <= c <= '9'
  }

  predicate IsAlnum(c: char) {
    IsAlpha(c) || IsDigit(c)
  }

  /** Space, tab, line feed, vertical tab, form feed, carriage return and the
      four ASCII information separators. */
  predicate IsSpace(c: char) {
    c == ' ' || 9 <= c as int <= 13 || 28 <= c as int <= 31
  }

  /** A character `read_identifier` accepts first. */
  predicate StartsIdentifier(c: char) {
    IsAlpha(c) || c == '_'
  }

  /** A character `read_identifier` keeps reading. */
  predicate ContinuesIdentifier(c: char) {
    IsAlnum(c) || c == '_'
  }

  /** Where the cursor stops when whitespace is skipped from `p`: the first
      position at or after `p` that is not whitespace, or the end. */
  function SkipSpaces(text: string, p: nat): (e: nat)
    requires p <= |text|
    ensures p <= e <= |text|
    ensures forall k :: p <= k < e ==> IsSpace(text[k])
    ensures e == |text| || !IsSpace(text[e])
    decreases |text| - p
  {
    if p < |text| && IsSpace(text[p]) then SkipSpaces(text, p + 1) else p
  }

  /** The end of the longest run of identifier characters starting at `p`. */
  function IdentEnd(text: string, p: nat): (e: nat)
    requires p <= |text|
    ensures p <= e <= |text|
    ensures forall k :: p <= k < e ==> ContinuesIdentifier(text[k])
    ensures e == |text| || !ContinuesIdentifier(text[e])
    decreases |text| - p
  {
    if p < |text| && ContinuesIdentifier(text[p]) then IdentEnd(text, p + 1) else p
  }

  /** The end of the run `read_number` consumes from `p`: digits, and one
      '.' unless `dotSeen` says the run already holds one. */
  function NumberEnd(text: string, p: nat, dotSeen: bool): (e: nat)
    requires p <= |text|
    ensures p <= e <= |text|
    decreases |text| - p
  {
    if p < |text| && IsDigit(text[p]) then NumberEnd(text, p + 1, dotSeen)
    else if p < |text| && text[p] == '.' && !dotSeen then NumberEnd(text, p + 1, true)
    else p
  }

  /** The run `NumberEnd` delimits holds only digits and '.', never a second
      '.', and stops at the end, at a character that is neither, or at a
      second '.'. */
  lemma {:induction false} NumberEndStops(text: string, p: nat, dotSeen: bool)
    requires p <= |text|
    ensures var e := NumberEnd(text, p, dotSeen);
            (forall k :: p <= k < e ==> IsDigit(text[k]) || text[k] == '.') &&
            (dotSeen ==> forall k :: p <= k < e ==> text[k] != '.') &&
            (forall i, j :: p <= i < j < e && text[i] == '.' ==> text[j] != '.') &&
            (e == |text| || !IsDigit(text[e])) &&
            (e < |text| && text[e] == '.' ==> dotSeen || exists k :: p <= k < e && text[k] == '.')
    decreases |text| - p
  {
    if p < |text| && IsDigit(text[p]) {
      NumberEndStops(text, p + 1, dotSeen);
    } else if p < |text| && text[p] == '.' && !dotSeen {
      NumberEndStops(text, p + 1, true);
    }
  }

  /** The position of the first '"' at or after `p`, if there is one. */
  function QuoteFrom(text: string, p: nat): (q: Option<nat>)
    requires p <= |text|
    ensures q.Some? ==> p <= q.value < |text| && text[q.value] == '"'
    ensures forall k :: p <= k < (if q.Some? then q.value else |text|) ==> text[k] != '"'
    decreases |text| - p
  {
    if p == |text| then None
    else if text[p] == '"' then Some(p)
    else QuoteFrom(text, p + 1)
  }

  /** What one call of a reader does, started with the cursor at some position:
      it declines (returns None, cursor unmoved), returns a lexeme and leaves
      the cursor at `end`, or runs off the end of the input (which the source
      does not survive). */
  datatype ReadOutcome = NoMatch | Matched(lexeme: string, end: nat) | RanOffEnd
  {
    /** The value the reader returns. */
    function Returned(): Option<string> {
      if Matched? then Some(lexeme) else None
    }

    /** The cursor after the reader returns, when it started at `start`. */
    function PosAfter(start: nat): nat {
      if Matched? then end else start
    }
  }

  /** `read_identifier` started at `p`. */
  function ReadIdent(text: string, p: nat): (r: ReadOutcome)
    requires p <= |text|
    ensures r.NoMatch? <==> p == |text| || !StartsIdentifier(text[p])
    ensures !r.RanOffEnd?
    ensures r.Matched? ==> p < r.end <= |text| && r.lexeme == text[p..r.end]
    ensures r.Matched? ==> forall k :: p <= k < r.end ==> ContinuesIdentifier(text[k])
    ensures r.Matched? ==> r.end == |text| || !ContinuesIdentifier(text[r.end])
  {
    if p < |text| && StartsIdentifier(text[p]) then
      var e := IdentEnd(text, p);
      Matched(text[p..e], e)
    else
      NoMatch
  }

  /** `read_number` started at `p`. */
  function ReadNum(text: string, p: nat): (r: ReadOutcome)
    requires p <= |text|
    ensures r.NoMatch? <==> p == |text| || !IsDigit(text[p])
    ensures !r.RanOffEnd?
    ensures r.Matched? ==> p < r.end <= |text| && r.lexeme == text[p..r.end]
    ensures r.Matched? ==> forall k :: p <= k < r.end ==> IsDigit(text[k]) || text[k] == '.'
    ensures r.Matched? ==> forall i, j :: p <= i < j < r.end && text[i] == '.' ==> text[j] != '.'
    ensures r.Matched? ==> r.end == |text| || !IsDigit(text[r.end])
    ensures r.Matched? && r.end < |text| && text[r.end] == '.' ==>
              exists k :: p <= k < r.end && text[k] == '.'
  {
    if p < |text| && IsDigit(text[p]) then
      NumberEndStops(text, p, false);
      var e := NumberEnd(text, p, false);
      Matched(text[p..e], e)
    else
      NoMatch
  }

  /** `read_string` started at `p`: the body between the opening quote at `p`
      and the next quote, with the cursor left ON that closing quote. */
  function ReadStr(text: string, p: nat): (r: ReadOutcome)
    requires p <= |text|
    ensures r.NoMatch? <==> p == |text| || text[p] != '"'
    ensures r.RanOffEnd? <==>
              p < |text| && text[p] == '"' && forall k :: p < k < |text| ==> text[k] != '"'
    ensures r.Matched? ==> p < r.end < |text| && text[r.end] == '"'
    ensures r.Matched? ==> r.lexeme == text[p + 1..r.end]
    ensures r.Matched? ==> forall k :: p < k < r.end ==> text[k] != '"'
  {
    if p < |text| && text[p] == '"' then
      match QuoteFrom(text, p + 1)
      case None => RanOffEnd
      case Some(q) => Matched(text[p + 1..q], q)
    else
      NoMatch
  }

  /** Calling `read_identifier` again right after it matched returns None. */
  lemma IdentifierRereadDeclines(text: string, p: nat)
    requires p <= |text| && ReadIdent(text, p).Matched?
    ensures ReadIdent(text, ReadIdent(text, p).end) == NoMatch
  {
  }

  /** Calling `read_number` again right after it matched returns None. */
  lemma NumberRereadDeclines(text: string, p: nat)
    requires p <= |text| && ReadNum(text, p).Matched?
    ensures ReadNum(text, ReadNum(text, p).end) == NoMatch
  {
  }

  /** Calling `read_string` again right after it matched never declines: the
      closing quote it left under the cursor opens a new string, whose body
      runs to the next quote, or which runs off the end. */
  lemma StringRereadReopens(text: string, p: nat)
    requires p <= |text| && ReadStr(text, p).Matched?
    ensures var q := ReadStr(text, p).end;
            var again := ReadStr(text, q);
            !again.NoMatch? &&
            (again.Matched? ==> again.lexeme == text[q + 1..again.end]) &&
            (again.RanOffEnd? <==> forall k :: q < k < |text| ==> text[k] != '"')
  {
  }

  /** A '.' directly after the leading digits is consumed even when no digit
      follows it: "1234." is read whole. */
  lemma DotWithoutFractionKept(text: string, p: nat, q: nat)
    requires p < q < |text|
    requires forall k :: p <= k < q ==> IsDigit(text[k])
    requires text[q] == '.'
    requires q + 1 == |text| || !IsDigit(text[q + 1])
    ensures ReadNum(text, p) == Matched(text[p..q + 1], q + 1)
  {
  }
}
