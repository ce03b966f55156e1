/** Facts about single rules at one position: when a literal matches or
    misses, and the runs of rules a character passes over before the rule that
    handles it. */
module LexerScan {

  import opened Wrappers
  import opened Chars
  import opened TypstLexer
  import opened LexerSteps

  /** `line[pos]` and `line[pos + 1]` are `a` and `b`. */
  predicate PairAt(line: string, pos: nat, a: char, b: char) {
    pos + 1 < |line| && line[pos] == a && line[pos + 1] == b
  }

  lemma LiteralAt(line: string, pos: nat, lit: string)
    requires pos + |lit| <= |line| && |lit| > 0
    requires forall k :: 0 <= k < |lit| ==> line[pos + k] == lit[k]
    ensures MatchLiteral(line, pos, lit) == Some(|lit|)
  {
    assert line[pos..pos + |lit|] == lit;
  }

  /** A literal misses where one of its characters differs from the line. */
  lemma LiteralMiss(line: string, pos: nat, lit: string, k: nat := 0)
    requires k < |lit| && pos + k < |line| && line[pos + k] != lit[k]
    ensures MatchLiteral(line, pos, lit).None?
  {
    if pos + |lit| <= |line| {
      assert line[pos..pos + |lit|][k] == line[pos + k];
    }
  }

  /** A two-character literal misses where the pair is not at `pos`. */
  lemma PairMiss(line: string, pos: nat, a: char, b: char)
    requires pos < |line| && !PairAt(line, pos, a, b)
    ensures MatchLiteral(line, pos, [a, b]).None?
  {
    if line[pos] != a {
      LiteralMiss(line, pos, [a, b]);
    } else if pos + 1 < |line| {
      LiteralMiss(line, pos, [a, b], 1);
    }
  }

  /** The layout rules shared by markup and math (blanks, block and line
      comments) do not fire on `c` at `pos`. */
  predicate NotLayout(line: string, pos: nat)
    requires pos < |line|
  {
    && !IsBlank(line[pos])
    && !PairAt(line, pos, '/', '*')
    && !(PairAt(line, pos, '/', '/') && NoTerminator(line[pos + 2..]))
  }

  /** In markup, the quote, dollar and layout rules are passed over. */
  lemma RootSkipsLayout(line: string, pos: nat)
    requires pos < |line| && line[pos] != '"' && line[pos] != '$' && NotLayout(line, pos)
    ensures NoneFire(Root, line, pos, 5)
  {
    LiteralMiss(line, pos, "\"");
    LiteralMiss(line, pos, "$");
    PairMiss(line, pos, '/', '*');
    assert NoneFire(Root, line, pos, 0);
    Skip(Root, line, pos, 0, STRING_OPEN);
    Skip(Root, line, pos, 1, MATH_OPEN);
    Skip(Root, line, pos, 2, BLANKS);
    Skip(Root, line, pos, 3, COMMENT_OPEN);
    Skip(Root, line, pos, 4, LINE_COMMENT);
  }

  /** In math, the escape and layout rules are passed over. */
  lemma MathSkipsLayout(line: string, pos: nat)
    requires pos < |line| && line[pos] != '\\' && NotLayout(line, pos)
    ensures NoneFire(MathState, line, pos, 4)
  {
    PairMiss(line, pos, '/', '*');
    assert NoneFire(MathState, line, pos, 0);
    Skip(MathState, line, pos, 0, MATH_ESCAPE);
    Skip(MathState, line, pos, 1, BLANKS);
    Skip(MathState, line, pos, 2, COMMENT_OPEN);
    Skip(MathState, line, pos, 3, LINE_COMMENT);
  }

  /** In math, a character that can start neither an operator nor a name is
      passed over by everything up to the quote rule. */
  lemma MathSkipsToQuote(line: string, pos: nat)
    requires pos < |line| && line[pos] != '\\' && NotLayout(line, pos)
    requires !IsSymbolChar(line[pos]) && !IsLetter(line[pos]) && !IsDigit(line[pos])
    ensures NoneFire(MathState, line, pos, 8)
  {
    MathSkipsLayout(line, pos);
    Skip(MathState, line, pos, 4, MATH_SYMBOLS);
    Skip(MathState, line, pos, 5, MATH_CALL);
    Skip(MathState, line, pos, 6, MATH_NAME);
    Skip(MathState, line, pos, 7, MATH_CHAR);
  }
}
