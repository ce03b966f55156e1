/** How the tokenizer classifies markup: `#` expressions, plain text, and the
    characters markup has no rule for. */
module LexerMarkup {

  import opened Wrappers
  import opened Chars
  import opened TypstLexer
  import opened LexerSteps
  import opened LexerScan

  /** In markup, the identifier run of length `w` after the `#` at `pos` ends
      in a letter and is followed by `(`. */
  predicate HashCall(line: string, pos: nat, w: nat) {
    w > 0 && pos + 1 + w < |line| && IsLetter(line[pos + w]) && line[pos + 1 + w] == '('
  }

  lemma HashCallFires(line: string, pos: nat)
    requires pos < |line| && line[pos] == '#' && HashCall(line, pos, RunLength(line, pos + 1, IdentChar))
    ensures Fires(HASH_CALL, line, pos)
    ensures Match(HASH_CALL.pattern, line, pos) == Some(1 + RunLength(line, pos + 1, IdentChar))
  {
  }

  lemma HashCallMissesRule(line: string, pos: nat)
    requires pos < |line| && line[pos] == '#' && !HashCall(line, pos, RunLength(line, pos + 1, IdentChar))
    ensures !Fires(HASH_CALL, line, pos)
  {
  }

  lemma HashNameFires(line: string, pos: nat, w: nat)
    requires pos < |line| && line[pos] == '#' && w == RunLength(line, pos + 1, IdentChar)
    requires LastLetterEnd(line, pos + 1, pos + 1 + w).Some?
    ensures Fires(HASH_NAME, line, pos)
    ensures Match(HASH_NAME.pattern, line, pos) == Some(LastLetterEnd(line, pos + 1, pos + 1 + w).value - pos)
  {
  }

  lemma HashNameMisses(line: string, pos: nat, w: nat)
    requires pos < |line| && line[pos] == '#' && w == RunLength(line, pos + 1, IdentChar)
    requires LastLetterEnd(line, pos + 1, pos + 1 + w).None?
    ensures !Fires(HASH_NAME, line, pos)
  {
  }

  lemma HashNotListItem(line: string, pos: nat)
    requires pos < |line| && line[pos] == '#'
    ensures !Fires(LIST_ITEM, line, pos)
  {
    assert RunLength(line, pos, SpaceChar) == 0;
  }

  lemma TextFires(line: string, pos: nat)
    requires pos < |line| && !IsLineTerminator(line[pos])
    ensures Fires(MARKUP_TEXT, line, pos) && Match(MARKUP_TEXT.pattern, line, pos) == Some(1)
  {
  }

  lemma HashSkips(line: string, pos: nat)
    requires pos < |line| && line[pos] == '#'
    ensures NoneFire(Root, line, pos, 5)
  {
    LiteralMiss(line, pos, "/*");
    RootSkipsLayout(line, pos);
  }

  /** `#name(` is a `function`. */
  lemma HashFunction(line: string, pos: nat, w: nat)
    requires pos < |line| && line[pos] == '#' && w == RunLength(line, pos + 1, IdentChar) && HashCall(line, pos, w)
    ensures Step(line, pos, Root) == Emitted(Function, line, pos, 1 + w, Stay)
  {
    HashSkips(line, pos);
    HashCallFires(line, pos);
    PickEmit(Root, line, pos, 5, HASH_CALL, Function, Stay, 1 + w);
  }

  lemma HashCallMisses(line: string, pos: nat)
    requires pos < |line| && line[pos] == '#' && !HashCall(line, pos, RunLength(line, pos + 1, IdentChar))
    ensures NoneFire(Root, line, pos, 6)
  {
    HashSkips(line, pos);
    HashCallMissesRule(line, pos);
    Skip(Root, line, pos, 5, HASH_CALL);
  }

  lemma HashVariableStep(line: string, pos: nat, w: nat)
    requires pos < |line| && line[pos] == '#' && w == RunLength(line, pos + 1, IdentChar)
    requires LastLetterEnd(line, pos + 1, pos + 1 + w).Some? && NoneFire(Root, line, pos, 6)
    ensures Step(line, pos, Root) == Emitted(Variable, line, pos, LastLetterEnd(line, pos + 1, pos + 1 + w).value - pos, Stay)
  {
    HashNameFires(line, pos, w);
    PickEmit(Root, line, pos, 6, HASH_NAME, Variable, Stay, LastLetterEnd(line, pos + 1, pos + 1 + w).value - pos);
  }

  /** Otherwise `#name` is a `variable` up to the last letter of the identifier run `w`. */
  lemma HashVariable(line: string, pos: nat, w: nat)
    requires pos < |line| && line[pos] == '#' && w == RunLength(line, pos + 1, IdentChar) && !HashCall(line, pos, w)
    requires LastLetterEnd(line, pos + 1, pos + 1 + w).Some?
    ensures Step(line, pos, Root) == Emitted(Variable, line, pos, LastLetterEnd(line, pos + 1, pos + 1 + w).value - pos, Stay)
  {
    HashCallMisses(line, pos);
    HashVariableStep(line, pos, w);
  }

  lemma HashNoName(line: string, pos: nat, w: nat)
    requires pos < |line| && line[pos] == '#' && w == RunLength(line, pos + 1, IdentChar)
    requires LastLetterEnd(line, pos + 1, pos + 1 + w).None?
    ensures NoneFire(Root, line, pos, 8)
  {
    HashCallMisses(line, pos);
    HashNameMisses(line, pos, w);
    Skip(Root, line, pos, 6, HASH_NAME);
    HashNotListItem(line, pos);
    Skip(Root, line, pos, 7, LIST_ITEM);
  }

  /** A `#` with no letter in the identifier run `w` after it is plain text. */
  lemma HashText(line: string, pos: nat, w: nat)
    requires pos < |line| && line[pos] == '#' && w == RunLength(line, pos + 1, IdentChar)
    requires LastLetterEnd(line, pos + 1, pos + 1 + w).None?
    ensures Step(line, pos, Root) == Advance([Token(Text, "#")], 1, Stay)
  {
    HashNoName(line, pos, w);
    TextFires(line, pos);
    PickEmit(Root, line, pos, 8, MARKUP_TEXT, Text, Stay, 1);
    assert line[pos..pos + 1] == "#";
  }

  /** `#` starts a code expression whose identifier run is `w` long: a
      `function` when the run ends in a letter and is followed by `(`,
      otherwise a `variable` up to the run's last letter, otherwise the `#`
      alone is text. */
  lemma HashName(line: string, pos: nat, w: nat)
    requires pos < |line| && line[pos] == '#' && w == RunLength(line, pos + 1, IdentChar)
    ensures HashCall(line, pos, w) ==> Step(line, pos, Root) == Emitted(Function, line, pos, 1 + w, Stay)
    ensures !HashCall(line, pos, w) && LastLetterEnd(line, pos + 1, pos + 1 + w).Some? ==>
      Step(line, pos, Root) == Emitted(Variable, line, pos, LastLetterEnd(line, pos + 1, pos + 1 + w).value - pos, Stay)
    ensures LastLetterEnd(line, pos + 1, pos + 1 + w).None? ==>
      Step(line, pos, Root) == Advance([Token(Text, "#")], 1, Stay)
  {
    if HashCall(line, pos, w) {
      HashFunction(line, pos, w);
      assert LastLetterEnd(line, pos + 1, pos + 1 + w).Some?;
    } else if LastLetterEnd(line, pos + 1, pos + 1 + w).Some? {
      HashVariable(line, pos, w);
    } else {
      HashText(line, pos, w);
    }
  }

  lemma SeparatorSkips(line: string, pos: nat)
    requires 0 < pos < |line| && (line[pos] == '\U{2028}' || line[pos] == '\U{2029}')
    ensures NoneFire(Root, line, pos, 9)
  {
    LiteralMiss(line, pos, "/*");
    RootSkipsLayout(line, pos);
    Skip(Root, line, pos, 5, HASH_CALL);
    Skip(Root, line, pos, 6, HASH_NAME);
    Skip(Root, line, pos, 7, LIST_ITEM);
    Skip(Root, line, pos, 8, MARKUP_TEXT);
  }

  /** Past column 0, markup falls back to `invalid` exactly at the Unicode line
      and paragraph separators, the only characters `.` refuses that are not blank. */
  lemma RootInvalidIffSeparator(line: string, pos: nat)
    requires 0 < pos < |line|
    ensures Step(line, pos, Root) == Fallback(line, pos) <==> line[pos] == '\U{2028}' || line[pos] == '\U{2029}'
  {
    FallbackIffNoRule(Root, line, pos);
    NoneFireMeans(Root, line, pos, 9);
    var R := Expanded(Root);
    var c := line[pos];
    if c == '\U{2028}' || c == '\U{2029}' {
      SeparatorSkips(line, pos);
    } else if IsBlank(c) {
      assert R[2] == BLANKS && Fires(BLANKS, line, pos);
    } else {
      assert R[8] == MARKUP_TEXT && Fires(MARKUP_TEXT, line, pos);
    }
  }
}
