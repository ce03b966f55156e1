/** The grammar's tables with their includes expanded, and how a step picks
    its rule. These lemmas are the bridge between the table-driven tokenizer
    and the properties about it. */
module LexerSteps {

  import opened Wrappers
  import opened Chars
  import opened TypstLexer

  /** The result of a single-class rule that matched `n` characters. */
  function Emitted(cls: TokenClass, line: string, pos: nat, n: nat, mv: Move): StepResult
    requires pos + n <= |line|
  {
    Advance([Token(cls, line[pos..pos + n])], n, mv)
  }

  /** The step taken when no rule matches. */
  function Fallback(line: string, pos: nat): StepResult
    requires pos < |line|
  {
    Advance([Token(Invalid, line[pos..pos + 1])], 1, Stay)
  }

  lemma {:induction false} StepFromPicks(rules: seq<Rule>, line: string, pos: nat, from: nat, k: nat)
    requires pos < |line| && from <= k < |rules|
    requires Fires(rules[k], line, pos)
    requires forall j :: from <= j < k ==> !Fires(rules[j], line, pos)
    ensures StepFrom(rules, line, pos, from) == Perform(rules[k].action, line, pos, Match(rules[k].pattern, line, pos).value)
    decreases k - from
  {
    if from < k {
      StepFromPicks(rules, line, pos, from + 1, k);
    }
  }

  /** No rule of state `s` below index `k` fires at `pos`. Stated one rule at
      a time, so that a proof about a concrete table only ever looks at the
      rules it names. */
  predicate NoneFire(s: State, line: string, pos: nat, k: nat)
    requires pos < |line| && k <= |Expanded(s)|
    decreases k
  {
    k == 0 || (NoneFire(s, line, pos, k - 1) && !Fires(Expanded(s)[k - 1], line, pos))
  }

  /** `NoneFire` says that every rule below `k` misses. */
  lemma {:induction false} NoneFireMeans(s: State, line: string, pos: nat, k: nat)
    requires pos < |line| && k <= |Expanded(s)|
    ensures NoneFire(s, line, pos, k) <==> forall j :: 0 <= j < k ==> !Fires(Expanded(s)[j], line, pos)
  {
    if k > 0 {
      NoneFireMeans(s, line, pos, k - 1);
    }
  }

  /** Rule `k` of state `s` is `r`, and `r` does not fire: the scan moves on. */
  lemma Skip(s: State, line: string, pos: nat, k: nat, r: Rule)
    requires pos < |line| && k < |Expanded(s)| && Expanded(s)[k] == r
    requires NoneFire(s, line, pos, k) && !Fires(r, line, pos)
    ensures NoneFire(s, line, pos, k + 1)
  {
  }

  /** Rule `k` of state `s` is `r`, it fires, and none before it does: the step runs `r`. */
  lemma Pick(s: State, line: string, pos: nat, k: nat, r: Rule)
    requires pos < |line| && k < |Expanded(s)| && Expanded(s)[k] == r
    requires NoneFire(s, line, pos, k) && Fires(r, line, pos)
    ensures Step(line, pos, s) == Perform(r.action, line, pos, Match(r.pattern, line, pos).value)
  {
    NoneFireMeans(s, line, pos, k);
    StepFromPicks(Expanded(s), line, pos, 0, k);
  }

  /** `Pick` for a single-class rule whose match length is known. */
  lemma PickEmit(s: State, line: string, pos: nat, k: nat, r: Rule, cls: TokenClass, mv: Move, n: nat)
    requires pos < |line| && k < |Expanded(s)| && Expanded(s)[k] == r
    requires NoneFire(s, line, pos, k) && Fires(r, line, pos)
    requires r.action == Emit(cls, mv) && Match(r.pattern, line, pos) == Some(n)
    ensures pos + n <= |line|
    ensures Step(line, pos, s) == Emitted(cls, line, pos, n, mv)
  {
    Pick(s, line, pos, k, r);
  }

  /** A rule of the table that fires rules out the fallback. */
  lemma Blocks(s: State, line: string, pos: nat, k: nat, r: Rule)
    requires pos < |line| && k < |Expanded(s)| && Expanded(s)[k] == r && Fires(r, line, pos)
    ensures !NoneFire(s, line, pos, |Expanded(s)|)
  {
    NoneFireMeans(s, line, pos, |Expanded(s)|);
  }

  /** A line lexed from `pos` is the step's tokens followed by the rest of the
      line lexed from the stack the step leaves. */
  lemma Chain(line: string, pos: nat, stack: Stack, next: Stack)
    requires pos < |line| && Step(line, pos, Top(stack)).Advance?
    requires Apply(stack, Step(line, pos, Top(stack)).move) == Success(next)
    requires LexFrom(line, pos + Step(line, pos, Top(stack)).len, next).Success?
    ensures LexFrom(line, pos, stack) == Success(Lexed(
      Step(line, pos, Top(stack)).tokens + LexFrom(line, pos + Step(line, pos, Top(stack)).len, next).value.tokens,
      LexFrom(line, pos + Step(line, pos, Top(stack)).len, next).value.stack))
  {
  }

  /** Scanning from `from` agrees with the first firing rule at or after `from`. */
  lemma {:induction false} StepFromFollowsFirstMatch(rules: seq<Rule>, line: string, pos: nat, from: nat)
    requires pos < |line| && from <= |rules|
    ensures StepFrom(rules, line, pos, from) ==
      match FirstMatch(rules, line, pos, from)
      case Some(i) => Perform(rules[i].action, line, pos, Match(rules[i].pattern, line, pos).value)
      case None => Fallback(line, pos)
    decreases |rules| - from
  {
    if from < |rules| && !Fires(rules[from], line, pos) {
      StepFromFollowsFirstMatch(rules, line, pos, from + 1);
    }
  }

  /** A step runs the first rule of its table that fires, and falls back only
      when none does. */
  lemma StepFollowsFirstMatch(s: State, line: string, pos: nat)
    requires pos < |line|
    ensures Step(line, pos, s) ==
      match FirstMatch(Expanded(s), line, pos, 0)
      case Some(i) => Perform(Expanded(s)[i].action, line, pos, Match(Expanded(s)[i].pattern, line, pos).value)
      case None => Fallback(line, pos)
  {
    StepFromFollowsFirstMatch(Expanded(s), line, pos, 0);
  }

  /** A step falls back to one `invalid` character exactly when no rule fires. */
  lemma FallbackIffNoRule(s: State, line: string, pos: nat)
    requires pos < |line|
    ensures Step(line, pos, s) == Fallback(line, pos) <==> NoneFire(s, line, pos, |Expanded(s)|)
  {
    StepFollowsFirstMatch(s, line, pos);
    NoneFireMeans(s, line, pos, |Expanded(s)|);
    var R := Expanded(s);
    match FirstMatch(R, line, pos, 0)
    case Some(i) => TableFacts(s, i);
    case None =>
  }

  /** Facts every table shares: only the `^`-anchored list rule has groups, no
      single-class rule emits `list-marker`, and `root` never pops. */
  lemma TableFacts(s: State, i: nat)
    requires i < |Expanded(s)|
    ensures Expanded(s)[i].action.Groups? <==> Expanded(s)[i].pattern.ListItem?
    ensures Expanded(s)[i].action.Groups? ==> Expanded(s)[i].action == Groups(ListMarker, Text)
    ensures Expanded(s)[i].action.Emit? ==> Expanded(s)[i].action.cls != ListMarker
    ensures Expanded(s)[i].action.Emit? ==> Expanded(s)[i].action.cls != Invalid
    ensures s == Root && Expanded(s)[i].action.Emit? ==> !Expanded(s)[i].action.move.Leave?
    ensures Expanded(s)[i].action.Emit? && Expanded(s)[i].action.move.Nest? ==> s == CommentState
  {
    match s
    case Root =>
    case StringState =>
    case MathState =>
    case CommentState =>
    case WhitespaceState =>
  }

  lemma {:induction false} InlinePlain(rules: seq<Rule>)
    requires forall i :: 0 <= i < |rules| ==> rules[i].Rule?
    ensures Inline(rules) == rules
    decreases |rules|
  {
    if |rules| > 0 {
      InlinePlain(rules[1..]);
    }
  }

  lemma {:induction false} FlatPlain(rules: seq<Rule>)
    requires forall i :: 0 <= i < |rules| ==> rules[i].Rule?
    ensures Flat(rules) == rules
    decreases |rules|
  {
    if |rules| > 0 {
      FlatPlain(rules[1..]);
    }
  }

  lemma InlineRule(r: Rule, rest: seq<Rule>)
    requires r.Rule?
    ensures Inline([r] + rest) == [r] + Inline(rest)
  {
    assert ([r] + rest)[1..] == rest;
  }

  lemma InlineInclude(target: State, rest: seq<Rule>)
    ensures Inline([Include(target)] + rest) == Flat(Rules(target)) + Inline(rest)
  {
    assert ([Include(target)] + rest)[1..] == rest;
  }

  lemma WhitespaceFlat()
    ensures Flat(Rules(WhitespaceState)) == Rules(WhitespaceState)
  {
    FlatPlain(Rules(WhitespaceState));
  }

  lemma PlainTail(s: State, from: nat)
    requires from <= |Rules(s)|
    requires forall i :: from <= i < |Rules(s)| ==> Rules(s)[i].Rule?
    ensures Inline(Rules(s)[from..]) == Rules(s)[from..]
  {
    InlinePlain(Rules(s)[from..]);
  }

  lemma RootSplice()
    ensures Expanded(Root) == Rules(Root)[..2] + Rules(WhitespaceState) + Rules(Root)[3..]
  {
  }

  /** The spliced `root` table is the generic include expansion of the source-order one. */
  lemma RootIsInline()
    ensures Expanded(Root) == Inline(Rules(Root))
  {
    var t := Rules(Root);
    var tail := t[3..];
    WhitespaceFlat();
    PlainTail(Root, 3);
    InlineInclude(WhitespaceState, tail);
    InlineRule(t[1], [Include(WhitespaceState)] + tail);
    InlineRule(t[0], [t[1]] + ([Include(WhitespaceState)] + tail));
    assert t == [t[0]] + ([t[1]] + ([Include(WhitespaceState)] + tail));
    assert Inline(t) == [t[0]] + ([t[1]] + (Rules(WhitespaceState) + tail));
    assert t[..2] == [t[0], t[1]];
    RootSplice();
  }

  lemma MathSplice()
    ensures Expanded(MathState) == Rules(MathState)[..1] + Rules(WhitespaceState) + Rules(MathState)[2..]
  {
  }

  /** The spliced `math` table is the generic include expansion of the source-order one. */
  lemma MathIsInline()
    ensures Expanded(MathState) == Inline(Rules(MathState))
  {
    var t := Rules(MathState);
    var tail := t[2..];
    WhitespaceFlat();
    PlainTail(MathState, 2);
    InlineInclude(WhitespaceState, tail);
    InlineRule(t[0], [Include(WhitespaceState)] + tail);
    assert t == [t[0]] + ([Include(WhitespaceState)] + tail);
    assert t[..1] == [t[0]];
    MathSplice();
  }

  /** Every table Monarch runs is the include expansion of its source-order table. */
  lemma ExpandedIsInline(s: State)
    ensures Expanded(s) == Inline(Rules(s))
  {
    match s
    case Root => RootIsInline();
    case MathState => MathIsInline();
    case _ => PlainTail(s, 0);
  }
}
