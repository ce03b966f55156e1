/** Whole lines through the tokenizer: the colouring a few characteristic
    lines receive, and the stack they hand to the next line. */
module LexerExamples {

  import opened Wrappers
  import opened Chars
  import opened TypstLexer
  import opened LexerSteps
  import opened LexerScan
  import opened LexerContexts
  import opened LexerMath
  import opened LexerStrings
  import opened LexerComments
  import opened LexerCollect

  // ---------------------------------------------------------------------------
  // `$x+1$`: an inline equation

  predicate IsEquation(line: string) {
    |line| == 5 && line[0] == '$' && line[1] == 'x' && line[2] == '+' && line[3] == '1' && line[4] == '$'
  }

  lemma EquationClose(line: string)
    requires IsEquation(line)
    ensures LexFrom(line, 4, [Root, MathState]) == Success(Lexed([Token(MathDelimiter, "$")], [Root]))
  {
    DollarClosesMath(line, 4);
    assert Apply([Root, MathState], Leave) == Success([Root]) by {
      assert [Root, MathState][..1] == [Root];
    }
    Chain(line, 4, [Root, MathState], [Root]);
    assert LexFrom(line, 5, [Root]) == Success(Lexed([], [Root]));
    assert [Token(MathDelimiter, "$")] + [] == [Token(MathDelimiter, "$")];
  }

  lemma EquationOne(line: string)
    requires IsEquation(line)
    ensures LexFrom(line, 3, [Root, MathState]) ==
      Success(Lexed([Token(Character, "1"), Token(MathDelimiter, "$")], [Root]))
  {
    EquationClose(line);
    MathDigit(line, 3);
    assert [line[3]] == "1";
    Chain(line, 3, [Root, MathState], [Root, MathState]);
    assert [Token(Character, "1")] + [Token(MathDelimiter, "$")] == [Token(Character, "1"), Token(MathDelimiter, "$")];
  }

  lemma EquationPlus(line: string)
    requires IsEquation(line)
    ensures LexFrom(line, 2, [Root, MathState]) ==
      Success(Lexed([Token(MathOperator, "+"), Token(Character, "1"), Token(MathDelimiter, "$")], [Root]))
  {
    EquationOne(line);
    assert RunLength(line, 3, SymbolChar) == 0;
    assert RunLength(line, 2, SymbolChar) == 1;
    assert line[2..3] == "+";
    assert IsMathOperator("+");
    MathSymbolRun(line, 2);
    Chain(line, 2, [Root, MathState], [Root, MathState]);
    assert [Token(MathOperator, "+")] + [Token(Character, "1"), Token(MathDelimiter, "$")] ==
      [Token(MathOperator, "+"), Token(Character, "1"), Token(MathDelimiter, "$")];
  }

  lemma EquationX(line: string)
    requires IsEquation(line)
    ensures Step(line, 1, MathState) == Advance([Token(Character, "x")], 1, Stay)
  {
    assert RunLength(line, 2, IdentChar) == 0;
    assert RunLength(line, 1, IdentChar) == 1;
    assert LastLetterEnd(line, 2, 2).None?;
    MathName(line, 1, 1);
    assert line[1..2] == "x";
  }

  lemma EquationName(line: string)
    requires IsEquation(line)
    ensures LexFrom(line, 1, [Root, MathState]) ==
      Success(Lexed([Token(Character, "x"), Token(MathOperator, "+"), Token(Character, "1"), Token(MathDelimiter, "$")], [Root]))
  {
    EquationPlus(line);
    EquationX(line);
    Chain(line, 1, [Root, MathState], [Root, MathState]);
    assert [Token(Character, "x")] + [Token(MathOperator, "+"), Token(Character, "1"), Token(MathDelimiter, "$")] ==
      [Token(Character, "x"), Token(MathOperator, "+"), Token(Character, "1"), Token(MathDelimiter, "$")];
  }

  /** A `$` in markup opens an equation in front of whatever the rest of the line lexes to. */
  lemma OpenThen(line: string, rest: Lexed)
    requires 0 < |line| && line[0] == '$' && LexFrom(line, 1, [Root, MathState]) == Success(rest)
    ensures LexFrom(line, 0, [Root]) == Success(Lexed([Token(MathDelimiter, "$")] + rest.tokens, rest.stack))
  {
    DollarOpensMath(line, 0);
    assert [Root] + [MathState] == [Root, MathState];
    Chain(line, 0, [Root], [Root, MathState]);
  }

  lemma EquationOpen(line: string)
    requires IsEquation(line)
    ensures LexFrom(line, 0, [Root]) == Success(Lexed([
      Token(MathDelimiter, "$"), Token(Character, "x"), Token(MathOperator, "+"),
      Token(Character, "1"), Token(MathDelimiter, "$")], [Root]))
  {
    var rest := [Token(Character, "x"), Token(MathOperator, "+"), Token(Character, "1"), Token(MathDelimiter, "$")];
    EquationName(line);
    OpenThen(line, Lexed(rest, [Root]));
    assert [Token(MathDelimiter, "$")] + rest == [
      Token(MathDelimiter, "$"), Token(Character, "x"), Token(MathOperator, "+"),
      Token(Character, "1"), Token(MathDelimiter, "$")];
  }

  /** `$x+1$` is a delimiter, a character, an operator, a character and a
      delimiter, and the line ends back in markup. */
  lemma EquationLine()
    ensures Tokenize("$x+1$", [Root]) == Lexed([
      Token(MathDelimiter, "$"), Token(Character, "x"), Token(MathOperator, "+"),
      Token(Character, "1"), Token(MathDelimiter, "$")], [Root])
  {
    var line := "$x+1$";
    var toks := [Token(MathDelimiter, "$"), Token(Character, "x"), Token(MathOperator, "+"),
      Token(Character, "1"), Token(MathDelimiter, "$")];
    EquationOpen(line);
    assert Lex(line, [Root]) == Lexed(toks, [Root]);
    TokenizeAlternating(line, [Root], toks, [Root]);
  }

  // ---------------------------------------------------------------------------
  // `$x+1`: an equation left open at the end of the line

  predicate IsOpenEquation(line: string) {
    |line| == 4 && line[0] == '$' && line[1] == 'x' && line[2] == '+' && line[3] == '1'
  }

  lemma OpenEquationOne(line: string)
    requires IsOpenEquation(line)
    ensures LexFrom(line, 3, [Root, MathState]) == Success(Lexed([Token(Character, "1")], [Root, MathState]))
  {
    MathDigit(line, 3);
    assert [line[3]] == "1";
    Chain(line, 3, [Root, MathState], [Root, MathState]);
    assert LexFrom(line, 4, [Root, MathState]) == Success(Lexed([], [Root, MathState]));
    assert [Token(Character, "1")] + [] == [Token(Character, "1")];
  }

  lemma OpenEquationPlus(line: string)
    requires IsOpenEquation(line)
    ensures LexFrom(line, 2, [Root, MathState]) ==
      Success(Lexed([Token(MathOperator, "+"), Token(Character, "1")], [Root, MathState]))
  {
    OpenEquationOne(line);
    assert RunLength(line, 3, SymbolChar) == 0;
    assert RunLength(line, 2, SymbolChar) == 1;
    assert line[2..3] == "+";
    assert IsMathOperator("+");
    MathSymbolRun(line, 2);
    Chain(line, 2, [Root, MathState], [Root, MathState]);
    assert [Token(MathOperator, "+")] + [Token(Character, "1")] == [Token(MathOperator, "+"), Token(Character, "1")];
  }

  lemma OpenEquationX(line: string)
    requires IsOpenEquation(line)
    ensures Step(line, 1, MathState) == Advance([Token(Character, "x")], 1, Stay)
  {
    assert RunLength(line, 2, IdentChar) == 0;
    assert RunLength(line, 1, IdentChar) == 1;
    assert LastLetterEnd(line, 2, 2).None?;
    MathName(line, 1, 1);
    assert line[1..2] == "x";
  }

  lemma OpenEquationName(line: string)
    requires IsOpenEquation(line)
    ensures LexFrom(line, 1, [Root, MathState]) ==
      Success(Lexed([Token(Character, "x"), Token(MathOperator, "+"), Token(Character, "1")], [Root, MathState]))
  {
    OpenEquationPlus(line);
    OpenEquationX(line);
    Chain(line, 1, [Root, MathState], [Root, MathState]);
    assert [Token(Character, "x")] + [Token(MathOperator, "+"), Token(Character, "1")] ==
      [Token(Character, "x"), Token(MathOperator, "+"), Token(Character, "1")];
  }

  const OPEN_EQUATION_TOKENS: seq<Token> :=
    [Token(MathDelimiter, "$"), Token(Character, "x"), Token(MathOperator, "+"), Token(Character, "1")]

  lemma OpenEquationLex()
    ensures Lex("$x+1", [Root]) == Lexed(OPEN_EQUATION_TOKENS, [Root, MathState])
  {
    var line := "$x+1";
    var rest := [Token(Character, "x"), Token(MathOperator, "+"), Token(Character, "1")];
    OpenEquationName(line);
    OpenThen(line, Lexed(rest, [Root, MathState]));
    assert [Token(MathDelimiter, "$")] + rest == OPEN_EQUATION_TOKENS;
  }

  /** `$x+1` without its closing `$` hands an open equation to the next line. */
  lemma OpenEquationLine()
    ensures Tokenize("$x+1", [Root]) == Lexed([
      Token(MathDelimiter, "$"), Token(Character, "x"), Token(MathOperator, "+"), Token(Character, "1")],
      [Root, MathState])
  {
    OpenEquationLex();
    TokenizeAlternating("$x+1", [Root], OPEN_EQUATION_TOKENS, [Root, MathState]);
  }

  // ---------------------------------------------------------------------------
  // `$"a"$`: a string inside an equation returns to the equation

  predicate IsQuotedEquation(line: string) {
    |line| == 5 && line[0] == '$' && line[1] == '"' && line[2] == 'a' && line[3] == '"' && line[4] == '$'
  }

  lemma QuotedClose(line: string)
    requires IsQuotedEquation(line)
    ensures LexFrom(line, 4, [Root, MathState]) == Success(Lexed([Token(MathDelimiter, "$")], [Root]))
  {
    DollarClosesMath(line, 4);
    assert Apply([Root, MathState], Leave) == Success([Root]) by {
      assert [Root, MathState][..1] == [Root];
    }
    Chain(line, 4, [Root, MathState], [Root]);
    assert LexFrom(line, 5, [Root]) == Success(Lexed([], [Root]));
    assert [Token(MathDelimiter, "$")] + [] == [Token(MathDelimiter, "$")];
  }

  lemma QuotedStringClose(line: string)
    requires IsQuotedEquation(line)
    ensures LexFrom(line, 3, [Root, MathState, StringState]) ==
      Success(Lexed([Token(StringQuote, "\""), Token(MathDelimiter, "$")], [Root]))
  {
    QuotedClose(line);
    QuoteClosesString(line, 3);
    assert Apply([Root, MathState, StringState], Leave) == Success([Root, MathState]) by {
      assert [Root, MathState, StringState][..2] == [Root, MathState];
    }
    Chain(line, 3, [Root, MathState, StringState], [Root, MathState]);
    assert [Token(StringQuote, "\"")] + [Token(MathDelimiter, "$")] == [Token(StringQuote, "\""), Token(MathDelimiter, "$")];
  }

  lemma QuotedBody(line: string)
    requires IsQuotedEquation(line)
    ensures LexFrom(line, 2, [Root, MathState, StringState]) ==
      Success(Lexed([Token(StringBody, "a"), Token(StringQuote, "\""), Token(MathDelimiter, "$")], [Root]))
  {
    QuotedStringClose(line);
    assert RunLength(line, 3, StringChar) == 0;
    assert RunLength(line, 2, StringChar) == 1;
    StringBodyRun(line, 2);
    assert line[2..3] == "a";
    Chain(line, 2, [Root, MathState, StringState], [Root, MathState, StringState]);
    assert [Token(StringBody, "a")] + [Token(StringQuote, "\""), Token(MathDelimiter, "$")] ==
      [Token(StringBody, "a"), Token(StringQuote, "\""), Token(MathDelimiter, "$")];
  }

  lemma QuotedStringOpen(line: string)
    requires IsQuotedEquation(line)
    ensures LexFrom(line, 1, [Root, MathState]) == Success(Lexed([
      Token(StringQuote, "\""), Token(StringBody, "a"), Token(StringQuote, "\""), Token(MathDelimiter, "$")], [Root]))
  {
    QuotedBody(line);
    QuoteOpensString(line, 1, MathState);
    assert [Root, MathState] + [StringState] == [Root, MathState, StringState];
    Chain(line, 1, [Root, MathState], [Root, MathState, StringState]);
    assert [Token(StringQuote, "\"")] + [Token(StringBody, "a"), Token(StringQuote, "\""), Token(MathDelimiter, "$")] ==
      [Token(StringQuote, "\""), Token(StringBody, "a"), Token(StringQuote, "\""), Token(MathDelimiter, "$")];
  }

  const QUOTED_TOKENS: seq<Token> := [
    Token(MathDelimiter, "$"), Token(StringQuote, "\""), Token(StringBody, "a"),
    Token(StringQuote, "\""), Token(MathDelimiter, "$")]

  lemma QuotedLex(line: string)
    requires IsQuotedEquation(line)
    ensures Lex(line, [Root]) == Lexed(QUOTED_TOKENS, [Root])
  {
    var rest := [Token(StringQuote, "\""), Token(StringBody, "a"), Token(StringQuote, "\""), Token(MathDelimiter, "$")];
    QuotedStringOpen(line);
    OpenThen(line, Lexed(rest, [Root]));
    assert [Token(MathDelimiter, "$")] + rest == QUOTED_TOKENS;
  }

  /** In `$"a"$` the quote inside the equation opens a string, the second quote
      returns to the equation, and the last `$` returns to markup. */
  lemma QuotedEquationLine()
    ensures Tokenize("$\"a\"$", [Root]) == Lexed(QUOTED_TOKENS, [Root])
  {
    QuotedLex("$\"a\"$");
    assert Alternating(QUOTED_TOKENS);
    TokenizeAlternating("$\"a\"$", [Root], QUOTED_TOKENS, [Root]);
  }

  // ---------------------------------------------------------------------------
  // `$\$$`: an escaped dollar does not close the equation

  predicate IsEscapedDollar(line: string) {
    |line| == 4 && line[0] == '$' && line[1] == '\\' && line[2] == '$' && line[3] == '$'
  }

  lemma EscapedDollarClose(line: string)
    requires IsEscapedDollar(line)
    ensures LexFrom(line, 3, [Root, MathState]) == Success(Lexed([Token(MathDelimiter, "$")], [Root]))
  {
    DollarClosesMath(line, 3);
    assert Apply([Root, MathState], Leave) == Success([Root]) by {
      assert [Root, MathState][..1] == [Root];
    }
    Chain(line, 3, [Root, MathState], [Root]);
    assert LexFrom(line, 4, [Root]) == Success(Lexed([], [Root]));
    assert [Token(MathDelimiter, "$")] + [] == [Token(MathDelimiter, "$")];
  }

  lemma EscapedDollarEscape(line: string)
    requires IsEscapedDollar(line)
    ensures LexFrom(line, 1, [Root, MathState]) ==
      Success(Lexed([Token(MathEscape, "\\$"), Token(MathDelimiter, "$")], [Root]))
  {
    EscapedDollarClose(line);
    MathEscapeStep(line, 1);
    assert UnicodeEscape(line, 2).None?;
    assert line[1..3] == "\\$";
    Chain(line, 1, [Root, MathState], [Root, MathState]);
    assert [Token(MathEscape, "\\$")] + [Token(MathDelimiter, "$")] == [Token(MathEscape, "\\$"), Token(MathDelimiter, "$")];
  }

  /** In `$\$$` the backslash escapes the middle `$`, so only the last one
      closes the equation. */
  lemma EscapedDollarLine()
    ensures Tokenize("$\\$$", [Root]) ==
      Lexed([Token(MathDelimiter, "$"), Token(MathEscape, "\\$"), Token(MathDelimiter, "$")], [Root])
  {
    var line := "$\\$$";
    var toks := [Token(MathDelimiter, "$"), Token(MathEscape, "\\$"), Token(MathDelimiter, "$")];
    EscapedDollarEscape(line);
    OpenThen(line, Lexed([Token(MathEscape, "\\$"), Token(MathDelimiter, "$")], [Root]));
    assert [Token(MathDelimiter, "$")] + [Token(MathEscape, "\\$"), Token(MathDelimiter, "$")] == toks;
    assert Lex(line, [Root]) == Lexed(toks, [Root]);
    TokenizeAlternating(line, [Root], toks, [Root]);
  }

  // ---------------------------------------------------------------------------
  // Operator runs

  /** `>=` in an equation is one operator token. */
  lemma GreaterEqualIsOperator(line: string)
    requires |line| == 2 && line[0] == '>' && line[1] == '='
    ensures Step(line, 0, MathState) == Advance([Token(MathOperator, ">=")], 2, Stay)
  {
    assert RunLength(line, 2, SymbolChar) == 0;
    assert RunLength(line, 0, SymbolChar) == 2;
    assert line[0..2] == ">=";
    assert IsMathOperator(">=") by {
      assert MATH_OPERATORS[10] == ">=";
    }
    MathSymbolRun(line, 0);
  }

  /** `+=` is a run of operator characters the catalogue does not list, so the
      whole run is left unclassified rather than split into `+` and `=`. */
  lemma PlusEqualIsUnclassified(line: string)
    requires |line| == 2 && line[0] == '+' && line[1] == '='
    ensures Step(line, 0, MathState) == Advance([Token(Unclassified, "+=")], 2, Stay)
  {
    assert RunLength(line, 2, SymbolChar) == 0;
    assert RunLength(line, 0, SymbolChar) == 2;
    assert line[0..2] == "+=";
    assert !IsMathOperator("+=");
    MathSymbolRun(line, 0);
  }

  // ---------------------------------------------------------------------------
  // Nested block comments

  predicate IsNestedComment(line: string) {
    |line| == 6 && line[0] == '/' && line[1] == '*' && line[2] == '/' && line[3] == '*' && line[4] == '*' && line[5] == '/'
  }

  lemma NestedCommentDepth(line: string)
    requires IsNestedComment(line)
    ensures CommentDepthAfter(line, 2, 1) == Some(1)
    ensures PeakDepth(line, 2, 1) == 2
  {
    assert CommentDepthAfter(line, 6, 1) == Some(1);
    assert CommentDepthAfter(line, 4, 2) == Some(1);
    assert PeakDepth(line, 6, 1) == 1;
    assert PeakDepth(line, 4, 2) == 2;
  }

  // The line slash-star slash-star star-slash opens a comment, nests a second
  // one and closes only that one: it ends inside the outer comment, all of it
  // coloured as comment.
  lemma NestedCommentRest(line: string)
    requires IsNestedComment(line)
    ensures LexFrom(line, 2, [Root, CommentState]).Success?
    ensures LexFrom(line, 2, [Root, CommentState]).value.stack == [Root, CommentState]
    ensures AllComment(LexFrom(line, 2, [Root, CommentState]).value.tokens)
  {
    NestedCommentDepth(line);
    CommentNesting(line, 2, [Root], 1);
    assert [Root] + Comments(1) == [Root, CommentState];
  }

  lemma NestedCommentOpen(line: string)
    requires IsNestedComment(line)
    ensures Step(line, 0, Top([Root])) == Advance([Token(Comment, "/*")], 2, Enter(CommentState))
    ensures Apply([Root], Enter(CommentState)) == Success([Root, CommentState])
  {
    BlockCommentOpens(line, 0, Root);
    assert [Root] + [CommentState] == [Root, CommentState];
  }

  lemma NestedCommentLine(line: string)
    requires IsNestedComment(line)
    ensures LexFrom(line, 0, [Root]).Success?
    ensures LexFrom(line, 0, [Root]).value.stack == [Root, CommentState]
    ensures AllComment(LexFrom(line, 0, [Root]).value.tokens)
  {
    NestedCommentRest(line);
    NestedCommentOpen(line);
    Chain(line, 0, [Root], [Root, CommentState]);
    var rest := LexFrom(line, 2, [Root, CommentState]).value.tokens;
    assert AllComment([Token(Comment, "/*")]);
    AllCommentAppend([Token(Comment, "/*")], rest);
  }

  // ---------------------------------------------------------------------------
  // Unicode escapes in strings

  /** `\u{123456}` has six hex digits, one too many, so only `\u` is taken,
      as an invalid escape. */
  lemma LongUnicodeEscape(line: string)
    requires |line| == 11 && line[0] == '\\' && line[1] == 'u' && line[2] == '{'
    requires line[3] == '1' && line[4] == '2' && line[5] == '3' && line[6] == '4' && line[7] == '5' && line[8] == '6'
    requires line[9] == '}' && line[10] == '"'
    ensures Step(line, 0, StringState) == Advance([Token(StringEscapeInvalid, "\\u")], 2, Stay)
  {
    assert RunLength(line, 9, HexChar) == 0;
    assert RunLength(line, 8, HexChar) == 1;
    assert RunLength(line, 7, HexChar) == 2;
    assert RunLength(line, 6, HexChar) == 3;
    assert RunLength(line, 5, HexChar) == 4;
    assert RunLength(line, 4, HexChar) == 5;
    assert RunLength(line, 3, HexChar) == 6;
    assert UnicodeEscape(line, 1).None?;
    StringEscapeStep(line, 0);
    assert line[0..2] == "\\u";
  }

  /** `\u{1F600}` with five hex digits is one valid escape of nine characters. */
  lemma FiveDigitUnicodeEscape(line: string)
    requires |line| == 10 && line[0] == '\\' && line[1] == 'u' && line[2] == '{'
    requires line[3] == '1' && line[4] == 'F' && line[5] == '6' && line[6] == '0' && line[7] == '0'
    requires line[8] == '}' && line[9] == '"'
    ensures Step(line, 0, StringState) == Emitted(StringEscape, line, 0, 9, Stay)
  {
    assert RunLength(line, 8, HexChar) == 0;
    assert RunLength(line, 7, HexChar) == 1;
    assert RunLength(line, 6, HexChar) == 2;
    assert RunLength(line, 5, HexChar) == 3;
    assert RunLength(line, 4, HexChar) == 4;
    assert RunLength(line, 3, HexChar) == 5;
    assert UnicodeEscape(line, 1) == Some(8);
    StringEscapeStep(line, 0);
  }
}
