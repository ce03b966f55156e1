/** Block comments: nesting to any depth below Monarch's stack limit, and what
    happens at the limit. */
module LexerComments {

  import opened Wrappers
  import opened Chars
  import opened TypstLexer
  import opened LexerSteps
  import opened LexerScan

  /** `n` block-comment states. */
  function Comments(n: nat): (r: seq<State>)
    ensures |r| == n && forall i :: 0 <= i < n ==> r[i] == CommentState
  {
    seq(n, _ => CommentState)
  }

  // Reference for nesting: scan left to right; slash-star opens, star-slash
  // closes, any other character is skipped. The result is the depth at the
  // end of the line, or None when the outermost comment closes on it.
  function CommentDepthAfter(line: string, pos: nat, d: nat): Option<nat>
    requires pos <= |line|
    decreases |line| - pos
  {
    if pos >= |line| then Some(d)
    else if PairAt(line, pos, '/', '*') then CommentDepthAfter(line, pos + 2, d + 1)
    else if PairAt(line, pos, '*', '/') then (if d <= 1 then None else CommentDepthAfter(line, pos + 2, d - 1))
    else CommentDepthAfter(line, pos + 1, d)
  }

  /** The deepest nesting the same scan reaches. */
  function PeakDepth(line: string, pos: nat, d: nat): (r: nat)
    requires pos <= |line|
    ensures r >= d
    decreases |line| - pos
  {
    if pos >= |line| then d
    else if PairAt(line, pos, '/', '*') then PeakDepth(line, pos + 2, d + 1)
    else if PairAt(line, pos, '*', '/') then (if d <= 1 then d else var p := PeakDepth(line, pos + 2, d - 1); if p < d then d else p)
    else PeakDepth(line, pos + 1, d)
  }

  /** Skipping a run of characters other than `/` and `*` changes neither reference. */
  lemma {:induction false} SkipCommentText(line: string, pos: nat, n: nat, d: nat)
    requires pos + n <= |line|
    requires forall j :: pos <= j < pos + n ==> InClass(line[j], CommentChar)
    ensures CommentDepthAfter(line, pos, d) == CommentDepthAfter(line, pos + n, d)
    ensures PeakDepth(line, pos, d) == PeakDepth(line, pos + n, d)
    decreases n
  {
    if n > 0 {
      SkipCommentText(line, pos + 1, n - 1, d);
    }
  }

  // ---------------------------------------------------------------------------
  // One step inside a comment

  lemma CommentTextFires(line: string, pos: nat)
    requires pos < |line| && InClass(line[pos], CommentChar)
    ensures Fires(COMMENT_TEXT, line, pos)
    ensures Match(COMMENT_TEXT.pattern, line, pos) == Some(RunLength(line, pos, CommentChar))
  {
  }

  /** Text other than `/` and `*` is comment text. */
  lemma CommentTextStep(line: string, pos: nat)
    requires pos < |line| && InClass(line[pos], CommentChar)
    ensures var n := RunLength(line, pos, CommentChar);
      n >= 1 && Step(line, pos, CommentState) == Emitted(Comment, line, pos, n, Stay)
  {
    assert NoneFire(CommentState, line, pos, 0);
    CommentTextFires(line, pos);
    PickEmit(CommentState, line, pos, 0, COMMENT_TEXT, Comment, Stay, RunLength(line, pos, CommentChar));
  }

  // A slash-star inside a comment opens a nested one.
  lemma CommentNestStep(line: string, pos: nat)
    requires PairAt(line, pos, '/', '*')
    ensures Step(line, pos, CommentState) == Advance([Token(Comment, "/*")], 2, Nest)
  {
    LiteralAt(line, pos, "/*");
    assert NoneFire(CommentState, line, pos, 0);
    Skip(CommentState, line, pos, 0, COMMENT_TEXT);
    Pick(CommentState, line, pos, 1, COMMENT_NEST);
  }

  // A star-slash closes the innermost comment.
  lemma CommentCloseStep(line: string, pos: nat)
    requires PairAt(line, pos, '*', '/')
    ensures Step(line, pos, CommentState) == Advance([Token(Comment, "*/")], 2, Leave)
  {
    LiteralAt(line, pos, "*/");
    LiteralMiss(line, pos, "/*");
    assert NoneFire(CommentState, line, pos, 0);
    Skip(CommentState, line, pos, 0, COMMENT_TEXT);
    Skip(CommentState, line, pos, 1, COMMENT_NEST);
    Pick(CommentState, line, pos, 2, COMMENT_CLOSE);
  }

  /** A `/` or `*` that starts neither delimiter is one character of comment. */
  lemma CommentStrayStep(line: string, pos: nat)
    requires pos < |line| && (line[pos] == '/' || line[pos] == '*')
    requires !PairAt(line, pos, '/', '*') && !PairAt(line, pos, '*', '/')
    ensures Step(line, pos, CommentState) == Emitted(Comment, line, pos, 1, Stay)
  {
    PairMiss(line, pos, '/', '*');
    PairMiss(line, pos, '*', '/');
    assert NoneFire(CommentState, line, pos, 0);
    Skip(CommentState, line, pos, 0, COMMENT_TEXT);
    Skip(CommentState, line, pos, 1, COMMENT_NEST);
    Skip(CommentState, line, pos, 2, COMMENT_CLOSE);
    Pick(CommentState, line, pos, 3, COMMENT_STRAY);
  }

  /** One step inside a comment emits one comment token, and leaves both
      reference scans where they were once the stack is moved accordingly. */
  lemma CommentStep(line: string, pos: nat, d: nat)
    requires pos < |line| && d >= 1
    ensures var r := Step(line, pos, CommentState);
      && r.Advance? && |r.tokens| == 1 && r.tokens[0].cls == Comment && pos + r.len <= |line|
      && (r.move.Nest? ==>
            && PairAt(line, pos, '/', '*') && r.len == 2
            && CommentDepthAfter(line, pos, d) == CommentDepthAfter(line, pos + 2, d + 1)
            && PeakDepth(line, pos, d) == PeakDepth(line, pos + 2, d + 1))
      && (r.move.Leave? ==> PairAt(line, pos, '*', '/') && !PairAt(line, pos, '/', '*') && r.len == 2)
      && (r.move.Stay? ==>
            && CommentDepthAfter(line, pos, d) == CommentDepthAfter(line, pos + r.len, d)
            && PeakDepth(line, pos, d) == PeakDepth(line, pos + r.len, d))
      && !r.move.Enter?
  {
    if InClass(line[pos], CommentChar) {
      CommentTextStep(line, pos);
      SkipCommentText(line, pos, RunLength(line, pos, CommentChar), d);
    } else if PairAt(line, pos, '/', '*') {
      CommentNestStep(line, pos);
    } else if PairAt(line, pos, '*', '/') {
      CommentCloseStep(line, pos);
    } else {
      CommentStrayStep(line, pos);
    }
  }

  /** Closing a comment nested inside another keeps both references in step. */
  lemma CloseKeepsReferences(line: string, pos: nat, d: nat)
    requires PairAt(line, pos, '*', '/') && !PairAt(line, pos, '/', '*') && d >= 2
    ensures CommentDepthAfter(line, pos, d) == CommentDepthAfter(line, pos + 2, d - 1)
    ensures PeakDepth(line, pos + 2, d - 1) <= PeakDepth(line, pos, d)
  {
  }

  // ---------------------------------------------------------------------------
  // A whole line inside a comment

  /** Every token is a comment (stated recursively, one token at a time). */
  predicate AllComment(ts: seq<Token>) {
    |ts| == 0 || (ts[0].cls == Comment && AllComment(ts[1..]))
  }

  lemma {:induction false} AllCommentMeans(ts: seq<Token>)
    ensures AllComment(ts) <==> forall i :: 0 <= i < |ts| ==> ts[i].cls == Comment
  {
    if |ts| > 0 {
      AllCommentMeans(ts[1..]);
      assert forall i :: 0 < i < |ts| ==> ts[i] == ts[1..][i - 1];
    }
  }

  lemma {:induction false} AllCommentAppend(a: seq<Token>, b: seq<Token>)
    requires AllComment(a) && AllComment(b)
    ensures AllComment(a + b)
  {
    if |a| > 0 {
      AllCommentAppend(a[1..], b);
      assert (a + b)[1..] == a[1..] + b;
    } else {
      assert a + b == b;
    }
  }

  /** One step of a line inside `d` open comments: the stack moves to `d2`
      open comments, and the reference scans carry over. */
  lemma CommentLexStep(line: string, pos: nat, base: Stack, d: nat) returns (d2: nat)
    requires pos < |line| && d >= 1
    requires CommentDepthAfter(line, pos, d).Some?
    requires |base| + PeakDepth(line, pos, d) <= MAX_STACK
    ensures Top(base + Comments(d)) == CommentState
    ensures var r := Step(line, pos, CommentState);
      && r.Advance? && AllComment(r.tokens) && pos + r.len <= |line|
      && Apply(base + Comments(d), r.move) == Success(base + Comments(d2))
    ensures d2 >= 1
    ensures CommentDepthAfter(line, pos + Step(line, pos, CommentState).len, d2) == CommentDepthAfter(line, pos, d)
    ensures PeakDepth(line, pos + Step(line, pos, CommentState).len, d2) <= PeakDepth(line, pos, d)
  {
    var stack: Stack := base + Comments(d);
    var r := Step(line, pos, CommentState);
    CommentStep(line, pos, d);
    match r.move
    case Stay =>
      d2 := d;
    case Nest =>
      d2 := d + 1;
      assert stack + [CommentState] == base + Comments(d + 1);
    case Leave =>
      d2 := d - 1;
      CloseKeepsReferences(line, pos, d);
      assert stack[..|stack| - 1] == base + Comments(d - 1);
  }

  /** A comment step followed by a line of comments is a line of comments. */
  lemma ChainComments(line: string, pos: nat, stack: Stack, next: Stack, r: StepResult, rest: Lexed)
    requires pos < |line| && Step(line, pos, Top(stack)) == r
    requires r.Advance? && AllComment(r.tokens) && pos + r.len <= |line|
    requires Apply(stack, r.move) == Success(next)
    requires LexFrom(line, pos + r.len, next) == Success(rest) && AllComment(rest.tokens)
    ensures LexFrom(line, pos, stack) == Success(Lexed(r.tokens + rest.tokens, rest.stack))
    ensures AllComment(r.tokens + rest.tokens)
  {
    AllCommentAppend(r.tokens, rest.tokens);
  }

  /** Inside a block comment that stays open to the end of the line, every
      token is a comment and the line ends with as many comment states above
      the entry's base as the reference scan says, provided the nesting never
      reaches Monarch's stack limit. */
  lemma {:induction false} CommentNesting(line: string, pos: nat, base: Stack, d: nat)
    requires pos <= |line| && d >= 1
    requires CommentDepthAfter(line, pos, d).Some?
    requires |base| + PeakDepth(line, pos, d) <= MAX_STACK
    ensures LexFrom(line, pos, base + Comments(d)).Success?
    ensures LexFrom(line, pos, base + Comments(d)).value.stack == base + Comments(CommentDepthAfter(line, pos, d).value)
    ensures AllComment(LexFrom(line, pos, base + Comments(d)).value.tokens)
    decreases |line| - pos
  {
    if pos < |line| {
      var d2 := CommentLexStep(line, pos, base, d);
      var r := Step(line, pos, CommentState);
      CommentNesting(line, pos + r.len, base, d2);
      var rest := LexFrom(line, pos + r.len, base + Comments(d2)).value;
      ChainComments(line, pos, base + Comments(d), base + Comments(d2), r, rest);
    }
  }

  // A slash-star at Monarch's stack limit throws, and the editor falls back.
  lemma NestingOverflowThrows(line: string, pos: nat, stack: Stack)
    requires PairAt(line, pos, '/', '*') && Top(stack) == CommentState && |stack| >= MAX_STACK
    ensures LexFrom(line, pos, stack) == Failure(StackOverflow)
  {
    CommentNestStep(line, pos);
  }
}
