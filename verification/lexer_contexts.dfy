/** How the tokenizer enters and leaves strings, math and comments. */
module LexerContexts {

  import opened Wrappers
  import opened Chars
  import opened TypstLexer
  import opened LexerSteps
  import opened LexerScan

  /** A `"` opens a string both in markup and in math. */
  lemma QuoteOpensString(line: string, pos: nat, s: State)
    requires pos < |line| && line[pos] == '"'
    requires s == Root || s == MathState
    ensures Step(line, pos, s) == Advance([Token(StringQuote, "\"")], 1, Enter(StringState))
  {
    LiteralAt(line, pos, "\"");
    if s == Root {
      assert NoneFire(Root, line, pos, 0);
      Pick(Root, line, pos, 0, STRING_OPEN);
    } else {
      MathSkipsToQuote(line, pos);
      Pick(MathState, line, pos, 8, STRING_OPEN);
    }
  }

  /** Inside a string, a `"` closes it. */
  lemma QuoteClosesString(line: string, pos: nat)
    requires pos < |line| && line[pos] == '"'
    ensures Step(line, pos, StringState) == Advance([Token(StringQuote, "\"")], 1, Leave)
  {
    LiteralAt(line, pos, "\"");
    assert NoneFire(StringState, line, pos, 0);
    Skip(StringState, line, pos, 0, STRING_TEXT);
    Skip(StringState, line, pos, 1, STRING_ESCAPE);
    Skip(StringState, line, pos, 2, STRING_BAD_ESCAPE);
    Pick(StringState, line, pos, 3, STRING_CLOSE);
  }

  /** In markup a `$` opens math. */
  lemma DollarOpensMath(line: string, pos: nat)
    requires pos < |line| && line[pos] == '$'
    ensures Step(line, pos, Root) == Advance([Token(MathDelimiter, "$")], 1, Enter(MathState))
  {
    LiteralAt(line, pos, "$");
    LiteralMiss(line, pos, "\"");
    assert NoneFire(Root, line, pos, 0);
    Skip(Root, line, pos, 0, STRING_OPEN);
    Pick(Root, line, pos, 1, MATH_OPEN);
  }

  /** In math a `$` closes it. */
  lemma DollarClosesMath(line: string, pos: nat)
    requires pos < |line| && line[pos] == '$'
    ensures Step(line, pos, MathState) == Advance([Token(MathDelimiter, "$")], 1, Leave)
  {
    LiteralAt(line, pos, "$");
    LiteralMiss(line, pos, "\"");
    MathSkipsToQuote(line, pos);
    Skip(MathState, line, pos, 8, STRING_OPEN);
    Pick(MathState, line, pos, 9, MATH_CLOSE);
  }

  // A slash-star opens a block comment from markup and from math.
  lemma BlockCommentOpens(line: string, pos: nat, s: State)
    requires PairAt(line, pos, '/', '*')
    requires s == Root || s == MathState
    ensures Step(line, pos, s) == Advance([Token(Comment, "/*")], 2, Enter(CommentState))
  {
    LiteralAt(line, pos, "/*");
    if s == Root {
      LiteralMiss(line, pos, "\"");
      LiteralMiss(line, pos, "$");
      assert NoneFire(Root, line, pos, 0);
      Skip(Root, line, pos, 0, STRING_OPEN);
      Skip(Root, line, pos, 1, MATH_OPEN);
      Skip(Root, line, pos, 2, BLANKS);
      Pick(Root, line, pos, 3, COMMENT_OPEN);
    } else {
      assert NoneFire(MathState, line, pos, 0);
      Skip(MathState, line, pos, 0, MATH_ESCAPE);
      Skip(MathState, line, pos, 1, BLANKS);
      Pick(MathState, line, pos, 2, COMMENT_OPEN);
    }
  }

  lemma LineCommentFires(line: string, pos: nat)
    requires PairAt(line, pos, '/', '/') && NoTerminator(line[pos + 2..])
    ensures Fires(LINE_COMMENT, line, pos) && Match(LINE_COMMENT.pattern, line, pos) == Some(|line| - pos)
    ensures !Fires(COMMENT_OPEN, line, pos)
  {
    LiteralMiss(line, pos, "/*", 1);
  }

  lemma LineCommentSkipsRoot(line: string, pos: nat)
    requires PairAt(line, pos, '/', '/')
    ensures NoneFire(Root, line, pos, 4)
  {
    LiteralMiss(line, pos, "\"");
    LiteralMiss(line, pos, "$");
    LiteralMiss(line, pos, "/*", 1);
    assert NoneFire(Root, line, pos, 0);
    Skip(Root, line, pos, 0, STRING_OPEN);
    Skip(Root, line, pos, 1, MATH_OPEN);
    Skip(Root, line, pos, 2, BLANKS);
    Skip(Root, line, pos, 3, COMMENT_OPEN);
  }

  lemma LineCommentSkipsMath(line: string, pos: nat)
    requires PairAt(line, pos, '/', '/')
    ensures NoneFire(MathState, line, pos, 3)
  {
    LiteralMiss(line, pos, "/*", 1);
    assert NoneFire(MathState, line, pos, 0);
    Skip(MathState, line, pos, 0, MATH_ESCAPE);
    Skip(MathState, line, pos, 1, BLANKS);
    Skip(MathState, line, pos, 2, COMMENT_OPEN);
  }

  lemma LineCommentInRoot(line: string, pos: nat)
    requires PairAt(line, pos, '/', '/') && NoTerminator(line[pos + 2..])
    ensures Step(line, pos, Root) == Emitted(Comment, line, pos, |line| - pos, Stay)
  {
    LineCommentFires(line, pos);
    LineCommentSkipsRoot(line, pos);
    PickEmit(Root, line, pos, 4, LINE_COMMENT, Comment, Stay, |line| - pos);
  }

  lemma LineCommentInMath(line: string, pos: nat)
    requires PairAt(line, pos, '/', '/') && NoTerminator(line[pos + 2..])
    ensures Step(line, pos, MathState) == Emitted(Comment, line, pos, |line| - pos, Stay)
  {
    LineCommentFires(line, pos);
    LineCommentSkipsMath(line, pos);
    PickEmit(MathState, line, pos, 3, LINE_COMMENT, Comment, Stay, |line| - pos);
  }

  /** `//` comments out the rest of the line in markup and in math. */
  lemma LineCommentStep(line: string, pos: nat, s: State)
    requires PairAt(line, pos, '/', '/') && NoTerminator(line[pos + 2..])
    requires s == Root || s == MathState
    ensures Step(line, pos, s) == Advance([Token(Comment, line[pos..])], |line| - pos, Stay)
  {
    if s == Root {
      LineCommentInRoot(line, pos);
    } else {
      LineCommentInMath(line, pos);
    }
    assert line[pos..pos + (|line| - pos)] == line[pos..];
  }

  /** A `//` comment ends the line's tokens and leaves the stack as it was. */
  lemma LineCommentRunsToEnd(line: string, pos: nat, stack: Stack)
    requires PairAt(line, pos, '/', '/') && NoTerminator(line[pos + 2..])
    requires Top(stack) == Root || Top(stack) == MathState
    ensures LexFrom(line, pos, stack) == Success(Lexed([Token(Comment, line[pos..])], stack))
  {
    LineCommentStep(line, pos, Top(stack));
    assert LexFrom(line, |line|, stack) == Success(Lexed([], stack));
    assert [Token(Comment, line[pos..])] + [] == [Token(Comment, line[pos..])];
  }
}
