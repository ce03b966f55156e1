/** How the tokenizer classifies the inside of a string: body text, valid and
    invalid escapes. */
module LexerStrings {

  import opened Wrappers
  import opened Chars
  import opened TypstLexer
  import opened LexerSteps
  import opened LexerScan

  /** Ordinary string text runs up to the next backslash or quote. */
  lemma StringBodyRun(line: string, pos: nat)
    requires pos < |line| && line[pos] != '\\' && line[pos] != '"'
    ensures var n := RunLength(line, pos, StringChar);
      n >= 1 && Step(line, pos, StringState) == Emitted(StringBody, line, pos, n, Stay)
  {
    var n := RunLength(line, pos, StringChar);
    assert NoneFire(StringState, line, pos, 0);
    assert Match(STRING_TEXT.pattern, line, pos) == Some(n);
    PickEmit(StringState, line, pos, 0, STRING_TEXT, StringBody, Stay, n);
  }

  lemma EscapeSkipsText(line: string, pos: nat)
    requires pos < |line| && line[pos] == '\\'
    ensures NoneFire(StringState, line, pos, 1)
  {
    assert NoneFire(StringState, line, pos, 0);
    Skip(StringState, line, pos, 0, STRING_TEXT);
  }

  /** `\\ \" \n \r \t` and `\u{` with 1 to 5 hex digits and `}` are valid escapes. */
  lemma StringValidEscape(line: string, pos: nat)
    requires pos + 1 < |line| && line[pos] == '\\'
    requires line[pos + 1] in "\\\"nrt" || UnicodeEscape(line, pos + 1).Some?
    ensures line[pos + 1] in "\\\"nrt" ==>
      Step(line, pos, StringState) == Emitted(StringEscape, line, pos, 2, Stay)
    ensures line[pos + 1] !in "\\\"nrt" ==>
      Step(line, pos, StringState) == Emitted(StringEscape, line, pos, 1 + UnicodeEscape(line, pos + 1).value, Stay)
  {
    EscapeSkipsText(line, pos);
    Pick(StringState, line, pos, 1, STRING_ESCAPE);
  }

  lemma ValidEscapeMisses(line: string, pos: nat)
    requires pos < |line| && line[pos] == '\\'
    requires pos + 1 < |line| ==> line[pos + 1] !in "\\\"nrt" && UnicodeEscape(line, pos + 1).None?
    ensures NoneFire(StringState, line, pos, 2)
  {
    EscapeSkipsText(line, pos);
    Skip(StringState, line, pos, 1, STRING_ESCAPE);
  }

  /** Any other escaped character is an invalid escape of two characters. */
  lemma StringInvalidEscape(line: string, pos: nat)
    requires pos + 1 < |line| && line[pos] == '\\' && !IsLineTerminator(line[pos + 1])
    requires line[pos + 1] !in "\\\"nrt" && UnicodeEscape(line, pos + 1).None?
    ensures Step(line, pos, StringState) == Emitted(StringEscapeInvalid, line, pos, 2, Stay)
  {
    ValidEscapeMisses(line, pos);
    Pick(StringState, line, pos, 2, STRING_BAD_ESCAPE);
  }

  /** A backslash at the end of the line, or before a line terminator, matches no rule. */
  lemma StringDanglingBackslash(line: string, pos: nat)
    requires pos < |line| && line[pos] == '\\'
    requires pos + 1 == |line| || IsLineTerminator(line[pos + 1])
    ensures Step(line, pos, StringState) == Fallback(line, pos)
  {
    ValidEscapeMisses(line, pos);
    LiteralMiss(line, pos, "\"");
    Skip(StringState, line, pos, 2, STRING_BAD_ESCAPE);
    Skip(StringState, line, pos, 3, STRING_CLOSE);
    FallbackIffNoRule(StringState, line, pos);
  }

  /** A backslash in a string: `\\ \" \n \r \t` and `\u{` 1 to 5 hex digits `}`
      are valid escapes; any other escaped character is an invalid escape of
      two characters; a backslash at the end of the line matches no rule. */
  lemma StringEscapeStep(line: string, pos: nat)
    requires pos < |line| && line[pos] == '\\'
    ensures pos + 1 < |line| && line[pos + 1] in "\\\"nrt" ==>
      Step(line, pos, StringState) == Emitted(StringEscape, line, pos, 2, Stay)
    ensures pos + 1 < |line| && line[pos + 1] !in "\\\"nrt" && UnicodeEscape(line, pos + 1).Some? ==>
      Step(line, pos, StringState) == Emitted(StringEscape, line, pos, 1 + UnicodeEscape(line, pos + 1).value, Stay)
    ensures pos + 1 < |line| && line[pos + 1] !in "\\\"nrt" && UnicodeEscape(line, pos + 1).None?
            && !IsLineTerminator(line[pos + 1]) ==>
      Step(line, pos, StringState) == Emitted(StringEscapeInvalid, line, pos, 2, Stay)
    ensures pos + 1 == |line| || IsLineTerminator(line[pos + 1]) ==>
      Step(line, pos, StringState) == Fallback(line, pos)
  {
    if pos + 1 < |line| && (line[pos + 1] in "\\\"nrt" || UnicodeEscape(line, pos + 1).Some?) {
      StringValidEscape(line, pos);
    } else if pos + 1 == |line| || IsLineTerminator(line[pos + 1]) {
      StringDanglingBackslash(line, pos);
    } else {
      StringInvalidEscape(line, pos);
    }
  }
}
