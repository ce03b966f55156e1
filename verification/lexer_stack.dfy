/** What the state stack can and cannot do over a line. */
module LexerStack {

  import opened Wrappers
  import opened TypstLexer
  import opened LexerSteps

  /** How a step moves the stack: only the comment state nests, and markup
      never pops. */
  lemma StepMoves(line: string, pos: nat, s: State)
    requires pos < |line|
    ensures Step(line, pos, s).Advance? && Step(line, pos, s).move.Nest? ==> s == CommentState
    ensures Step(line, pos, s).Advance? && s == Root ==> !Step(line, pos, s).move.Leave?
  {
    StepFollowsFirstMatch(s, line, pos);
    var R := Expanded(s);
    match FirstMatch(R, line, pos, 0)
    case Some(i) => TableFacts(s, i);
    case None =>
  }

  /** At a markup-rooted stack, no step's move pops the last state. */
  lemma NoPopAtRoot(line: string, pos: nat, stack: Stack)
    requires pos < |line| && stack[0] == Root
    ensures Step(line, pos, Top(stack)).Advance? ==> Apply(stack, Step(line, pos, Top(stack)).move) != Failure(PopEmpty)
  {
    StepMoves(line, pos, Top(stack));
  }

  /** A stack whose bottom is markup never underflows: '@pop' cannot throw. */
  lemma {:induction false} RootedNeverUnderflows(line: string, pos: nat, stack: Stack)
    requires pos <= |line| && stack[0] == Root
    ensures LexFrom(line, pos, stack) != Failure(PopEmpty)
    decreases |line| - pos
  {
    if pos < |line| {
      NoPopAtRoot(line, pos, stack);
      var step := Step(line, pos, Top(stack));
      if step.Advance? && Apply(stack, step.move).Success? {
        RootedNeverUnderflows(line, pos + step.len, Apply(stack, step.move).value);
      }
    }
  }
}
