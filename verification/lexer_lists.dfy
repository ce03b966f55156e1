/** Where list markers can appear, and how a list item line is tokenized. */
module LexerLists {

  import opened Wrappers
  import opened Chars
  import opened TypstLexer
  import opened LexerSteps
  import opened LexerScan

  /** Past column 0 no step emits a list marker. */
  lemma NoMarkerPastStart(line: string, pos: nat, s: State)
    requires 0 < pos < |line|
    ensures Step(line, pos, s).Advance? ==>
      forall i :: 0 <= i < |Step(line, pos, s).tokens| ==> Step(line, pos, s).tokens[i].cls != ListMarker
  {
    StepFollowsFirstMatch(s, line, pos);
    var R := Expanded(s);
    match FirstMatch(R, line, pos, 0)
    case Some(i) => TableFacts(s, i);
    case None =>
  }

  lemma {:induction false} NoMarkerFrom(line: string, pos: nat, stack: Stack)
    requires 0 < pos <= |line|
    ensures LexFrom(line, pos, stack).Success? ==>
      forall i :: 0 <= i < |LexFrom(line, pos, stack).value.tokens| ==> LexFrom(line, pos, stack).value.tokens[i].cls != ListMarker
    decreases |line| - pos
  {
    if pos < |line| {
      var step := Step(line, pos, Top(stack));
      NoMarkerPastStart(line, pos, Top(stack));
      if step.Advance? {
        var moved := Apply(stack, step.move);
        if moved.Success? {
          NoMarkerFrom(line, pos + step.len, moved.value);
        }
      }
    }
  }

  /** A list marker can only be the first token of a line. */
  lemma ListMarkerOnlyFirst(line: string, stack: Stack)
    ensures forall i :: 0 < i < |Lex(line, stack).tokens| ==> Lex(line, stack).tokens[i].cls != ListMarker
  {
    if |line| > 0 {
      var step := Step(line, 0, Top(stack));
      if step.Advance? {
        var moved := Apply(stack, step.move);
        if moved.Success? {
          NoMarkerFrom(line, step.len, moved.value);
          StepFollowsFirstMatch(Top(stack), line, 0);
          var R := Expanded(Top(stack));
          match FirstMatch(R, line, 0, 0)
          case Some(k) => TableFacts(Top(stack), k);
          case None =>
        }
      }
    }
  }

  /** The list rule matches a whole markup line whose first non-space
      character (in JavaScript's sense of space) is `-` or `+`. */
  predicate ListShaped(line: string)
    requires |line| >= 1
  {
    var lead := RunLength(line, 0, SpaceChar);
    lead < |line| && (line[lead] == '-' || line[lead] == '+') && NoTerminator(line[lead + 1..])
  }

  lemma ListItemFires(line: string)
    requires |line| >= 1 && ListShaped(line)
    ensures Fires(LIST_ITEM, line, 0) && Match(LIST_ITEM.pattern, line, 0) == Some(|line|)
  {
  }

  lemma NoHashRule(line: string, pos: nat)
    requires pos < |line| && line[pos] != '#'
    ensures !Fires(HASH_CALL, line, pos) && !Fires(HASH_NAME, line, pos)
  {
  }

  lemma ListSkips(line: string)
    requires |line| >= 1 && line[0] != '"' && line[0] != '$' && line[0] != '#' && NotLayout(line, 0)
    ensures NoneFire(Root, line, 0, 7)
  {
    RootSkipsLayout(line, 0);
    NoHashRule(line, 0);
    Skip(Root, line, 0, 5, HASH_CALL);
    Skip(Root, line, 0, 6, HASH_NAME);
  }

  lemma ListItemStep(line: string)
    requires |line| >= 1 && (line[0] == '-' || line[0] == '+') && NoTerminator(line[1..])
    ensures Step(line, 0, Root) ==
      Advance([Token(ListMarker, line[..1])] + (if |line| > 1 then [Token(Text, line[1..])] else []), |line|, Stay)
  {
    ListSkips(line);
    ListItemFires(line);
    Pick(Root, line, 0, 7, LIST_ITEM);
    assert line[0..1] == line[..1] && line[1..|line|] == line[1..];
  }

  /** A markup line that starts with `-` or `+` is a list item: the marker,
      then the rest of the line as text. */
  lemma ListItemLine(line: string, stack: Stack)
    requires |line| >= 1 && (line[0] == '-' || line[0] == '+') && NoTerminator(line[1..])
    requires Top(stack) == Root
    ensures Lex(line, stack) ==
      Lexed([Token(ListMarker, line[..1])] + (if |line| > 1 then [Token(Text, line[1..])] else []), stack)
  {
    ListItemStep(line);
    var toks := [Token(ListMarker, line[..1])] + (if |line| > 1 then [Token(Text, line[1..])] else []);
    assert LexFrom(line, |line|, stack) == Success(Lexed([], stack));
    assert toks + [] == toks;
  }

  lemma OddSpaceStep(line: string)
    requires |line| >= 1 && IsRegexSpace(line[0]) && !IsBlank(line[0]) && ListShaped(line)
    ensures Step(line, 0, Root) == Throw(GroupMismatch)
  {
    ListSkips(line);
    ListItemFires(line);
    Pick(Root, line, 0, 7, LIST_ITEM);
  }

  /** A list marker after leading white space other than ` \t\r\n` (a
      no-break space, say) makes the group action throw, and the editor shows
      the whole line unclassified. */
  lemma OddSpaceListItemFallsBack(line: string, stack: Stack)
    requires |line| >= 1 && IsRegexSpace(line[0]) && !IsBlank(line[0]) && ListShaped(line)
    requires Top(stack) == Root
    ensures Lex(line, stack) == Lexed([Token(Unclassified, line)], stack)
  {
    OddSpaceStep(line);
  }
}
