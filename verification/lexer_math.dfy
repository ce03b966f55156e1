/** How the tokenizer classifies math: operator runs, names, digits, escapes,
    and the characters it has no rule for. */
module LexerMath {

  import opened Wrappers
  import opened Chars
  import opened TypstLexer
  import opened LexerSteps
  import opened LexerScan

  // ---------------------------------------------------------------------------
  // Operators

  lemma SymbolsFire(line: string, pos: nat)
    requires pos < |line| && IsSymbolChar(line[pos])
    ensures Fires(MATH_SYMBOLS, line, pos)
    ensures Match(MATH_SYMBOLS.pattern, line, pos) == Some(RunLength(line, pos, SymbolChar))
  {
  }

  /** A run of operator characters is taken by the operator rule. */
  lemma MathSymbolStep(line: string, pos: nat)
    requires pos < |line| && IsSymbolChar(line[pos]) && NotLayout(line, pos)
    ensures Step(line, pos, MathState) == Perform(OperatorCases, line, pos, RunLength(line, pos, SymbolChar))
  {
    MathSkipsLayout(line, pos);
    SymbolsFire(line, pos);
    Pick(MathState, line, pos, 4, MATH_SYMBOLS);
  }

  /** In math a run of operator characters is one token, and it is a
      `math.operator` exactly when the whole run is in the operator catalogue;
      otherwise it is left unclassified. */
  lemma MathSymbolRun(line: string, pos: nat)
    requires pos < |line| && IsSymbolChar(line[pos]) && NotLayout(line, pos)
    ensures var n := RunLength(line, pos, SymbolChar);
      var run := line[pos..pos + n];
      && n >= 1
      && (Step(line, pos, MathState) == Advance([Token(MathOperator, run)], n, Stay) <==> IsMathOperator(run))
      && (!IsMathOperator(run) ==> Step(line, pos, MathState) == Advance([Token(Unclassified, run)], n, Stay))
  {
    MathSymbolStep(line, pos);
  }

  // ---------------------------------------------------------------------------
  // Names

  /** In math, `line[pos..pos + w]` is an identifier run that ends in a
      letter and is followed by `(`. */
  predicate MathCall(line: string, pos: nat, w: nat) {
    w >= 2 && pos + w < |line| && IsLetter(line[pos + w - 1]) && line[pos + w] == '('
  }

  lemma MathNameSkips(line: string, pos: nat)
    requires pos < |line| && IsLetter(line[pos])
    ensures NoneFire(MathState, line, pos, 5)
  {
    MathSkipsLayout(line, pos);
    Skip(MathState, line, pos, 4, MATH_SYMBOLS);
  }

  lemma CallFires(line: string, pos: nat)
    requires pos < |line| && IsLetter(line[pos]) && MathCall(line, pos, RunLength(line, pos, IdentChar))
    ensures Fires(MATH_CALL, line, pos)
    ensures Match(MATH_CALL.pattern, line, pos) == Some(RunLength(line, pos, IdentChar))
  {
  }

  lemma CallMisses(line: string, pos: nat)
    requires pos < |line| && IsLetter(line[pos]) && !MathCall(line, pos, RunLength(line, pos, IdentChar))
    ensures !Fires(MATH_CALL, line, pos)
  {
  }

  lemma NameFires(line: string, pos: nat, w: nat)
    requires pos < |line| && IsLetter(line[pos]) && w == RunLength(line, pos, IdentChar)
    requires LastLetterEnd(line, pos + 1, pos + w).Some?
    ensures Fires(MATH_NAME, line, pos)
    ensures Match(MATH_NAME.pattern, line, pos) == Some(LastLetterEnd(line, pos + 1, pos + w).value - pos)
  {
  }

  lemma NameMisses(line: string, pos: nat, w: nat)
    requires pos < |line| && IsLetter(line[pos]) && w == RunLength(line, pos, IdentChar)
    requires LastLetterEnd(line, pos + 1, pos + w).None?
    ensures !Fires(MATH_NAME, line, pos)
  {
  }

  lemma CharFires(line: string, pos: nat)
    requires pos < |line| && (IsLetter(line[pos]) || IsDigit(line[pos]))
    ensures Fires(MATH_CHAR, line, pos) && Match(MATH_CHAR.pattern, line, pos) == Some(1)
  {
  }

  /** A letter-initial identifier that ends in a letter right before `(` is a `function`. */
  lemma MathFunctionName(line: string, pos: nat)
    requires pos < |line| && IsLetter(line[pos]) && MathCall(line, pos, RunLength(line, pos, IdentChar))
    ensures Step(line, pos, MathState) == Emitted(Function, line, pos, RunLength(line, pos, IdentChar), Stay)
  {
    MathNameSkips(line, pos);
    CallFires(line, pos);
    PickEmit(MathState, line, pos, 5, MATH_CALL, Function, Stay, RunLength(line, pos, IdentChar));
  }

  lemma MathCallMisses(line: string, pos: nat)
    requires pos < |line| && IsLetter(line[pos]) && !MathCall(line, pos, RunLength(line, pos, IdentChar))
    ensures NoneFire(MathState, line, pos, 6)
  {
    MathNameSkips(line, pos);
    CallMisses(line, pos);
    Skip(MathState, line, pos, 5, MATH_CALL);
  }

  lemma VariableStep(line: string, pos: nat, w: nat)
    requires pos < |line| && IsLetter(line[pos]) && w == RunLength(line, pos, IdentChar)
    requires LastLetterEnd(line, pos + 1, pos + w).Some? && NoneFire(MathState, line, pos, 6)
    ensures Step(line, pos, MathState) == Emitted(Variable, line, pos, LastLetterEnd(line, pos + 1, pos + w).value - pos, Stay)
  {
    NameFires(line, pos, w);
    PickEmit(MathState, line, pos, 6, MATH_NAME, Variable, Stay, LastLetterEnd(line, pos + 1, pos + w).value - pos);
  }

  /** Otherwise, when a letter follows the first character within the
      identifier run `w`, the name is a `variable` up to the last such letter. */
  lemma MathVariableName(line: string, pos: nat, w: nat)
    requires pos < |line| && IsLetter(line[pos]) && w == RunLength(line, pos, IdentChar) && !MathCall(line, pos, w)
    requires LastLetterEnd(line, pos + 1, pos + w).Some?
    ensures Step(line, pos, MathState) == Emitted(Variable, line, pos, LastLetterEnd(line, pos + 1, pos + w).value - pos, Stay)
  {
    MathCallMisses(line, pos);
    VariableStep(line, pos, w);
  }

  /** A letter with no letter after it in its identifier run `w` is a lone `character`. */
  lemma MathCharacterName(line: string, pos: nat, w: nat)
    requires pos < |line| && IsLetter(line[pos]) && w == RunLength(line, pos, IdentChar)
    requires LastLetterEnd(line, pos + 1, pos + w).None?
    ensures Step(line, pos, MathState) == Emitted(Character, line, pos, 1, Stay)
  {
    MathCallMisses(line, pos);
    NameMisses(line, pos, w);
    Skip(MathState, line, pos, 6, MATH_NAME);
    CharFires(line, pos);
    PickEmit(MathState, line, pos, 7, MATH_CHAR, Character, Stay, 1);
  }

  /** A letter in math starts a name whose identifier run is `w` long: a
      `function` when the run is at least two long, ends in a letter and is
      followed by `(`; otherwise a `variable` up to the run's last letter after
      the first; otherwise a lone `character`. */
  lemma MathName(line: string, pos: nat, w: nat)
    requires pos < |line| && IsLetter(line[pos]) && w == RunLength(line, pos, IdentChar)
    ensures w >= 1
    ensures MathCall(line, pos, w) ==> Step(line, pos, MathState) == Emitted(Function, line, pos, w, Stay)
    ensures !MathCall(line, pos, w) && LastLetterEnd(line, pos + 1, pos + w).Some? ==>
      Step(line, pos, MathState) == Emitted(Variable, line, pos, LastLetterEnd(line, pos + 1, pos + w).value - pos, Stay)
    ensures LastLetterEnd(line, pos + 1, pos + w).None? ==>
      Step(line, pos, MathState) == Emitted(Character, line, pos, 1, Stay)
  {
    if MathCall(line, pos, w) {
      MathFunctionName(line, pos);
      assert LastLetterEnd(line, pos + 1, pos + w).Some?;
    } else if LastLetterEnd(line, pos + 1, pos + w).Some? {
      MathVariableName(line, pos, w);
    } else {
      MathCharacterName(line, pos, w);
    }
  }

  /** A digit in math is a lone `character`. */
  lemma MathDigit(line: string, pos: nat)
    requires pos < |line| && IsDigit(line[pos])
    ensures Step(line, pos, MathState) == Advance([Token(Character, [line[pos]])], 1, Stay)
  {
    MathSkipsLayout(line, pos);
    Skip(MathState, line, pos, 4, MATH_SYMBOLS);
    Skip(MathState, line, pos, 5, MATH_CALL);
    Skip(MathState, line, pos, 6, MATH_NAME);
    Pick(MathState, line, pos, 7, MATH_CHAR);
    assert line[pos..pos + 1] == [line[pos]];
  }

  /** A backslash in math escapes the next character (or a `u{...}` code point)
      without leaving math; an escaped `$` therefore does not close it. */
  lemma MathEscapeStep(line: string, pos: nat)
    requires pos + 1 < |line| && line[pos] == '\\' && !IsLineTerminator(line[pos + 1])
    ensures UnicodeEscape(line, pos + 1).Some? ==>
      Step(line, pos, MathState) == Emitted(MathEscape, line, pos, 1 + UnicodeEscape(line, pos + 1).value, Stay)
    ensures UnicodeEscape(line, pos + 1).None? ==>
      Step(line, pos, MathState) == Emitted(MathEscape, line, pos, 2, Stay)
  {
    assert NoneFire(MathState, line, pos, 0);
    Pick(MathState, line, pos, 0, MATH_ESCAPE);
  }

  // ---------------------------------------------------------------------------
  // Characters with no rule

  /** The characters math has no rule for: a backslash with nothing escapable
      after it, and anything that is not blank, an operator character, a
      letter, a digit, `"` or `$` (brackets, commas, `&`, ...). */
  predicate MathStray(line: string, pos: nat)
    requires pos < |line|
  {
    var c := line[pos];
    if c == '\\' then pos + 1 == |line| || IsLineTerminator(line[pos + 1])
    else !IsBlank(c) && !IsSymbolChar(c) && !IsLetter(c) && !IsDigit(c) && c != '"' && c != '$'
  }

  lemma MathStrayIsNotLayout(line: string, pos: nat)
    requires pos < |line| && MathStray(line, pos)
    ensures line[pos] != '\\' ==> NotLayout(line, pos)
    ensures !Fires(MATH_ESCAPE, line, pos)
  {
  }

  lemma MathStraySkipsLayout(line: string, pos: nat)
    requires pos < |line| && MathStray(line, pos)
    ensures NoneFire(MathState, line, pos, 5)
  {
    MathStrayIsNotLayout(line, pos);
    if line[pos] == '\\' {
      LiteralMiss(line, pos, "/*");
      assert NoneFire(MathState, line, pos, 0);
      Skip(MathState, line, pos, 0, MATH_ESCAPE);
      Skip(MathState, line, pos, 1, BLANKS);
      Skip(MathState, line, pos, 2, COMMENT_OPEN);
      Skip(MathState, line, pos, 3, LINE_COMMENT);
    } else {
      MathSkipsLayout(line, pos);
    }
    Skip(MathState, line, pos, 4, MATH_SYMBOLS);
  }

  lemma MathStraySkips(line: string, pos: nat)
    requires pos < |line| && MathStray(line, pos)
    ensures NoneFire(MathState, line, pos, 10)
  {
    MathStraySkipsLayout(line, pos);
    LiteralMiss(line, pos, "\"");
    LiteralMiss(line, pos, "$");
    Skip(MathState, line, pos, 5, MATH_CALL);
    Skip(MathState, line, pos, 6, MATH_NAME);
    Skip(MathState, line, pos, 7, MATH_CHAR);
    Skip(MathState, line, pos, 8, STRING_OPEN);
    Skip(MathState, line, pos, 9, MATH_CLOSE);
  }

  /** Some math rule fires at every character that is not stray. */
  lemma MathNonStrayFires(line: string, pos: nat)
    requires pos < |line| && !MathStray(line, pos)
    ensures !NoneFire(MathState, line, pos, 10)
  {
    var c := line[pos];
    if c == '\\' {
      Blocks(MathState, line, pos, 0, MATH_ESCAPE);
    } else if IsBlank(c) {
      Blocks(MathState, line, pos, 1, BLANKS);
    } else if IsSymbolChar(c) {
      SymbolsFire(line, pos);
      Blocks(MathState, line, pos, 4, MATH_SYMBOLS);
    } else if IsLetter(c) || IsDigit(c) {
      CharFires(line, pos);
      Blocks(MathState, line, pos, 7, MATH_CHAR);
    } else if c == '"' {
      LiteralAt(line, pos, "\"");
      Blocks(MathState, line, pos, 8, STRING_OPEN);
    } else {
      LiteralAt(line, pos, "$");
      Blocks(MathState, line, pos, 9, MATH_CLOSE);
    }
  }

  /** Math falls back to one `invalid` character exactly at its stray characters. */
  lemma MathInvalidIffStray(line: string, pos: nat)
    requires pos < |line|
    ensures Step(line, pos, MathState) == Fallback(line, pos) <==> MathStray(line, pos)
  {
    FallbackIffNoRule(MathState, line, pos);
    if MathStray(line, pos) {
      MathStraySkips(line, pos);
    } else {
      MathNonStrayFires(line, pos);
    }
  }
}
