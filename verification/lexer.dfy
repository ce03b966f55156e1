/** The Typst syntax-colouring grammar (frontend/src/lib/monaco-typst-init.ts)
    as data, and the Monarch tokenizer that runs it over one editor line.

    A Monarch grammar is a table of states, each an ordered list of rules
    `[regex, action]` or `{ include: '@state' }`. At each position the lexer
    tries the current state's rules in order (includes spliced in place) and
    the first regex that matches there wins; a rule whose regex starts with `^`
    is only tried at column 0. If nothing matches, one character is emitted with
    the grammar's `defaultToken`. Actions may push a named state, push the
    current state (`@push`) or pop (`@pop`). Every regex is hand-coded below as
    a matcher on the line. */
module TypstLexer {

  import opened Wrappers
  import opened Chars

  /** The keys of the `tokenizer` table. `whitespace` is only ever included. */
  datatype State = Root | StringState | MathState | CommentState | WhitespaceState

  /** The token classes the grammar assigns; `Unclassified` is the empty class `''`. */
  datatype TokenClass =
    | StringQuote          // 'string.quote'
    | MathDelimiter        // 'math.delimiter'
    | Whitespace           // 'whitespace'
    | Comment              // 'comment'
    | Function             // 'function'
    | Variable             // 'variable'
    | ListMarker           // 'list-marker'
    | Text                 // 'text'
    | StringBody           // 'string'
    | StringEscape         // 'string.escape'
    | StringEscapeInvalid  // 'string.escape.invalid'
    | MathEscape           // 'math.escape'
    | MathOperator         // 'math.operator'
    | Character            // 'character'
    | Unclassified         // ''
    | Invalid              // 'invalid', the defaultToken

  datatype Token = Token(cls: TokenClass, text: string)

  /** The tokenizer's state stack; Monarch never lets it become empty. */
  type Stack = s: seq<State> | |s| > 0 witness [Root]

  function Top(s: Stack): State {
    s[|s| - 1]
  }

  /** Monarch's default `maxStack`: a `@push` at this depth throws. */
  const MAX_STACK: nat := 100

  /** The 13 entries of the `mathOperators` catalogue. */
  const MATH_OPERATORS: seq<string> :=
    ["+", "-", "*", "/", "^", "_", "=", "!=", ">", "<", ">=", "<=", "|"]

  // ---------------------------------------------------------------------------
  // The grammar as data

  /** The regexes of the grammar, one constructor per distinct shape. */
  datatype Pattern =
    | Literal(lit: string)       // /"/, /\$/, /\/\*/, "\\*/"
    | Run(cls: CharClass)        // [...]+
    | OneOf(cls: CharClass)      // [...]
    | AnyChar                    // .
    | LineComment                // \/\/.*$
    | HashIdent(call: bool)      // #[a-zA-Z_]?[a-zA-Z0-9_-]*[a-zA-Z], with (?=\() when call
    | MathIdent(call: bool)      // [a-zA-Z_][a-zA-Z0-9_-]*[a-zA-Z], with (?=\() when call
    | ListItem                   // ^\s*(-|\+)(.*)$
    | StringEscapes              // @stringEscapes: \\(?:[\\"nrt]|u\{[0-9A-Fa-f]{1,5}\})
    | MathEscapes                // @mathEscapes: \\(?:u\{[0-9A-Fa-f]{1,5}\}|.)
    | EscapedChar                // \\.

  /** What a rule does to the state stack. */
  datatype Move =
    | Stay
    | Enter(target: State)   // next: '@target'
    | Nest                   // '@push': push the current state again
    | Leave                  // '@pop'

  datatype Action =
    | Emit(cls: TokenClass, move: Move)
    | OperatorCases                          // { cases: { '@mathOperators': 'math.operator', '@default': '' } }
    | Groups(first: TokenClass, second: TokenClass)   // one class per capture group

  datatype Rule = Rule(pattern: Pattern, action: Action) | Include(target: State)

  // The rules of the grammar, named after what they recognise.
  const STRING_OPEN := Rule(Literal("\""), Emit(StringQuote, Enter(StringState)))
  const MATH_OPEN := Rule(Literal("$"), Emit(MathDelimiter, Enter(MathState)))
  const HASH_CALL := Rule(HashIdent(true), Emit(Function, Stay))
  const HASH_NAME := Rule(HashIdent(false), Emit(Variable, Stay))
  const LIST_ITEM := Rule(ListItem, Groups(ListMarker, Text))
  const MARKUP_TEXT := Rule(AnyChar, Emit(Text, Stay))
  const STRING_TEXT := Rule(Run(StringChar), Emit(StringBody, Stay))
  const STRING_ESCAPE := Rule(StringEscapes, Emit(StringEscape, Stay))
  const STRING_BAD_ESCAPE := Rule(EscapedChar, Emit(StringEscapeInvalid, Stay))
  const STRING_CLOSE := Rule(Literal("\""), Emit(StringQuote, Leave))
  const MATH_ESCAPE := Rule(MathEscapes, Emit(MathEscape, Stay))
  const MATH_SYMBOLS := Rule(Run(SymbolChar), OperatorCases)
  const MATH_CALL := Rule(MathIdent(true), Emit(Function, Stay))
  const MATH_NAME := Rule(MathIdent(false), Emit(Variable, Stay))
  const MATH_CHAR := Rule(OneOf(AlnumChar), Emit(Character, Stay))
  const MATH_CLOSE := Rule(Literal("$"), Emit(MathDelimiter, Leave))
  const COMMENT_TEXT := Rule(Run(CommentChar), Emit(Comment, Stay))
  const COMMENT_NEST := Rule(Literal("/*"), Emit(Comment, Nest))
  const COMMENT_CLOSE := Rule(Literal("*/"), Emit(Comment, Leave))
  const COMMENT_STRAY := Rule(OneOf(SlashOrStar), Emit(Comment, Stay))
  const BLANKS := Rule(Run(BlankChar), Emit(Whitespace, Stay))
  const COMMENT_OPEN := Rule(Literal("/*"), Emit(Comment, Enter(CommentState)))
  const LINE_COMMENT := Rule(LineComment, Emit(Comment, Stay))

  /** The `tokenizer` table, in source order. */
  function Rules(s: State): seq<Rule> {
    match s
    case Root => [STRING_OPEN, MATH_OPEN, Include(WhitespaceState), HASH_CALL, HASH_NAME, LIST_ITEM, MARKUP_TEXT]
    case StringState => [STRING_TEXT, STRING_ESCAPE, STRING_BAD_ESCAPE, STRING_CLOSE]
    case MathState => [MATH_ESCAPE, Include(WhitespaceState), MATH_SYMBOLS, MATH_CALL, MATH_NAME, MATH_CHAR, STRING_OPEN, MATH_CLOSE]
    case CommentState => [COMMENT_TEXT, COMMENT_NEST, COMMENT_CLOSE, COMMENT_STRAY]
    case WhitespaceState => [BLANKS, COMMENT_OPEN, LINE_COMMENT]
  }

  /** Splices every `include` in place. The included `whitespace` table has no
      includes of its own, so one level is the complete expansion. */
  function Inline(rules: seq<Rule>): (r: seq<Rule>)
    ensures forall i :: 0 <= i < |r| ==> r[i].Rule?
  {
    if |rules| == 0 then []
    else
      var head := match rules[0]
        case Rule(_, _) => [rules[0]]
        case Include(t) => Flat(Rules(t));
      head + Inline(rules[1..])
  }

  /** Drops includes; used only on the include-free `whitespace` table. */
  function Flat(rules: seq<Rule>): (r: seq<Rule>)
    ensures forall i :: 0 <= i < |r| ==> r[i].Rule?
  {
    if |rules| == 0 then []
    else (if rules[0].Rule? then [rules[0]] else []) + Flat(rules[1..])
  }

  /** The rules tried in state `s`: the table with its `whitespace` include
      spliced in place, as Monarch does when it compiles the grammar.
      `LexerSteps.ExpandedIsInline` proves these are `Inline(Rules(s))`. */
  function Expanded(s: State): (r: seq<Rule>)
    ensures forall i :: 0 <= i < |r| ==> r[i].Rule?
  {
    match s
    case Root => [STRING_OPEN, MATH_OPEN, BLANKS, COMMENT_OPEN, LINE_COMMENT, HASH_CALL, HASH_NAME, LIST_ITEM, MARKUP_TEXT]
    case MathState => [MATH_ESCAPE, BLANKS, COMMENT_OPEN, LINE_COMMENT, MATH_SYMBOLS, MATH_CALL, MATH_NAME, MATH_CHAR, STRING_OPEN, MATH_CLOSE]
    case _ => Rules(s)
  }

  // ---------------------------------------------------------------------------
  // Matchers: each returns the length of the regex's match at `pos`, if any

  /** `h` hex digits after the `u{` at `i`, then `}`. */
  predicate HexThenBrace(line: string, i: nat, h: nat) {
    && i + 2 + h < |line|
    && (forall k :: i + 2 <= k < i + 2 + h ==> IsHexDigit(line[k]))
    && line[i + 2 + h] == '}'
  }

  /** `u\{[0-9A-Fa-f]{1,5}\}` at `i`: it matches exactly when `u{` is followed
      by 1 to 5 hex digits and `}`, and then spans those digits and the three
      delimiters. */
  function UnicodeEscape(line: string, i: nat): (r: Option<nat>)
    requires i <= |line|
    ensures r.Some? <==>
      && i + 2 <= |line| && line[i] == 'u' && line[i + 1] == '{'
      && exists h :: 1 <= h <= 5 && HexThenBrace(line, i, h)
    ensures r.Some? ==> 4 <= r.value <= 8 && i + r.value <= |line|
    ensures r.Some? ==> HexThenBrace(line, i, r.value - 3) && r.value == 3 + RunLength(line, i + 2, HexChar)
  {
    if i + 2 <= |line| && line[i] == 'u' && line[i + 1] == '{' then
      var h := RunLength(line, i + 2, HexChar);
      if 1 <= h <= 5 && i + 2 + h < |line| && line[i + 2 + h] == '}' then
        assert HexThenBrace(line, i, h);
        Some(3 + h)
      else
        NoOtherHexRun(line, i, h);
        None
    else None
  }

  /** A hex run closed by `}` is the maximal hex run, so `{1,5}` has at most
      one way to match. */
  lemma HexRunIsMaximal(line: string, i: nat, g: nat)
    requires i + 2 <= |line| && HexThenBrace(line, i, g)
    ensures g == RunLength(line, i + 2, HexChar)
  {
  }

  lemma NoOtherHexRun(line: string, i: nat, run: nat)
    requires i + 2 <= |line| && run == RunLength(line, i + 2, HexChar)
    requires !(1 <= run <= 5 && i + 2 + run < |line| && line[i + 2 + run] == '}')
    ensures !exists h :: 1 <= h <= 5 && HexThenBrace(line, i, h)
  {
    if h :| 1 <= h <= 5 && HexThenBrace(line, i, h) {
      HexRunIsMaximal(line, i, h);
    }
  }

  function MatchLiteral(line: string, pos: nat, lit: string): (r: Option<nat>)
    requires pos <= |line|
    ensures r.Some? ==> r.value == |lit| > 0 && pos + |lit| <= |line| && line[pos..pos + |lit|] == lit
  {
    if 0 < |lit| && pos + |lit| <= |line| && line[pos..pos + |lit|] == lit then Some(|lit|) else None
  }

  /** True when the rule's regex is anchored with `^`. */
  predicate AnchoredAtLineStart(p: Pattern) {
    p.ListItem?
  }

  function Match(p: Pattern, line: string, pos: nat): (r: Option<nat>)
    requires pos < |line|
    ensures r.Some? ==> 1 <= r.value <= |line| - pos
  {
    match p
    case Literal(lit) => MatchLiteral(line, pos, lit)
    case Run(k) =>
      var n := RunLength(line, pos, k);
      if n > 0 then Some(n) else None
    case OneOf(k) => if InClass(line[pos], k) then Some(1) else None
    case AnyChar => if IsLineTerminator(line[pos]) then None else Some(1)
    case LineComment =>
      if pos + 2 <= |line| && line[pos] == '/' && line[pos + 1] == '/' && NoTerminator(line[pos + 2..])
      then Some(|line| - pos) else None
    case HashIdent(call) =>
      if line[pos] != '#' then None
      else
        var w := RunLength(line, pos + 1, IdentChar);
        if call then
          if w > 0 && IsLetter(line[pos + w]) && pos + 1 + w < |line| && line[pos + 1 + w] == '('
          then Some(1 + w) else None
        else
          (match LastLetterEnd(line, pos + 1, pos + 1 + w)
           case Some(e) => Some(e - pos)
           case None => None)
    case MathIdent(call) =>
      if !IsIdentStart(line[pos]) then None
      else
        var w := RunLength(line, pos, IdentChar);
        if call then
          if w >= 2 && IsLetter(line[pos + w - 1]) && pos + w < |line| && line[pos + w] == '('
          then Some(w) else None
        else
          (match LastLetterEnd(line, pos + 1, pos + w)
           case Some(e) => Some(e - pos)
           case None => None)
    case ListItem =>
      var lead := RunLength(line, pos, SpaceChar);
      if pos + lead < |line| && (line[pos + lead] == '-' || line[pos + lead] == '+')
         && NoTerminator(line[pos + lead + 1..])
      then Some(|line| - pos) else None
    case StringEscapes =>
      if line[pos] != '\\' || pos + 1 == |line| then None
      else if line[pos + 1] in "\\\"nrt" then Some(2)
      else
        (match UnicodeEscape(line, pos + 1)
         case Some(k) => Some(1 + k)
         case None => None)
    case MathEscapes =>
      if line[pos] != '\\' || pos + 1 == |line| then None
      else
        (match UnicodeEscape(line, pos + 1)
         case Some(k) => Some(1 + k)
         case None => if IsLineTerminator(line[pos + 1]) then None else Some(2))
    case EscapedChar =>
      if line[pos] == '\\' && pos + 1 < |line| && !IsLineTerminator(line[pos + 1]) then Some(2) else None
  }

  /** True when `rule` is tried at `pos` and its regex matches there. */
  predicate Fires(rule: Rule, line: string, pos: nat)
    requires pos < |line|
  {
    rule.Rule? && !(AnchoredAtLineStart(rule.pattern) && pos != 0) && Match(rule.pattern, line, pos).Some?
  }

  /** The index of the first rule at or after `from` that fires at `pos`. */
  function FirstMatch(rules: seq<Rule>, line: string, pos: nat, from: nat): (r: Option<nat>)
    requires pos < |line| && from <= |rules|
    ensures r.Some? ==> from <= r.value < |rules| && Fires(rules[r.value], line, pos)
    ensures r.Some? ==> forall i :: from <= i < r.value ==> !Fires(rules[i], line, pos)
    ensures r.None? ==> forall i :: from <= i < |rules| ==> !Fires(rules[i], line, pos)
    decreases |rules| - from
  {
    if from == |rules| then None
    else if Fires(rules[from], line, pos) then Some(from)
    else FirstMatch(rules, line, pos, from + 1)
  }

  // ---------------------------------------------------------------------------
  // One tokenizer step

  /** The errors Monarch throws while tokenizing a line. */
  datatype Fault =
    | StackOverflow   // '@push' at maxStack
    | PopEmpty        // '@pop' with a single state left
    | GroupMismatch   // the capture groups do not cover the whole match

  datatype StepResult =
    | Advance(tokens: seq<Token>, len: nat, move: Move)
    | Throw(reason: Fault)

  /** Sum of the token texts, in order. */
  function Concat(ts: seq<Token>): string {
    if |ts| == 0 then [] else ts[0].text + Concat(ts[1..])
  }

  predicate NonEmptyTexts(ts: seq<Token>) {
    forall i :: 0 <= i < |ts| ==> |ts[i].text| > 0
  }

  predicate IsMathOperator(s: string) {
    s in MATH_OPERATORS
  }

  /** Runs the action of a rule that matched `line[pos..pos + n]`. */
  function Perform(a: Action, line: string, pos: nat, n: nat): (r: StepResult)
    requires 1 <= n <= |line| - pos
    ensures r.Advance? ==> r.len == n && NonEmptyTexts(r.tokens) && Concat(r.tokens) == line[pos..pos + n]
    ensures r.Throw? ==> a.Groups? && r.reason == GroupMismatch
  {
    var matched := line[pos..pos + n];
    match a
    case Emit(cls, mv) => Advance([Token(cls, matched)], n, mv)
    case OperatorCases =>
      Advance([Token(if IsMathOperator(matched) then MathOperator else Unclassified, matched)], n, Stay)
    case Groups(c1, c2) =>
      // the only grouped rule is `^\s*(-|\+)(.*)$`: group 1 is the marker, group 2 the rest
      var lead := RunLength(line, pos, SpaceChar);
      if lead != 0 then Throw(GroupMismatch)
      else
        var marker := line[pos..pos + 1];
        var rest := line[pos + 1..pos + n];
        var toks := [Token(c1, marker)] + (if |rest| == 0 then [] else [Token(c2, rest)]);
        assert matched == marker + rest;
        assert Concat(toks) == marker + rest by {
          if |rest| > 0 {
            assert toks[1..] == [Token(c2, rest)];
            assert Concat(toks[1..]) == rest + Concat([]);
          } else {
            assert toks[1..] == [];
          }
        }
        Advance(toks, n, Stay)
  }

  /** Tries the rules from index `from` on, in order, and runs the first that
      fires; when none does, one character is emitted as `invalid`. */
  function StepFrom(rules: seq<Rule>, line: string, pos: nat, from: nat): (r: StepResult)
    requires pos < |line| && from <= |rules|
    ensures r.Advance? ==> 1 <= r.len <= |line| - pos
    ensures r.Advance? ==> NonEmptyTexts(r.tokens) && Concat(r.tokens) == line[pos..pos + r.len]
    ensures r.Throw? ==> r.reason == GroupMismatch
    decreases |rules| - from
  {
    if from == |rules| then Advance([Token(Invalid, line[pos..pos + 1])], 1, Stay)
    else if Fires(rules[from], line, pos) then
      Perform(rules[from].action, line, pos, Match(rules[from].pattern, line, pos).value)
    else StepFrom(rules, line, pos, from + 1)
  }

  /** One Monarch step in state `s` at `pos`. */
  function Step(line: string, pos: nat, s: State): (r: StepResult)
    requires pos < |line|
    ensures r.Advance? ==> 1 <= r.len <= |line| - pos
    ensures r.Advance? ==> NonEmptyTexts(r.tokens) && Concat(r.tokens) == line[pos..pos + r.len]
    ensures r.Throw? ==> r.reason == GroupMismatch
  {
    StepFrom(Expanded(s), line, pos, 0)
  }

  /** Applies a rule's stack transition, throwing where Monarch throws. */
  function Apply(stack: Stack, mv: Move): (r: Result<Stack, Fault>)
    ensures r.Failure? <==> (mv.Nest? && |stack| >= MAX_STACK) || (mv.Leave? && |stack| == 1)
    ensures r.Success? ==> r.value[0] == stack[0]
  {
    match mv
    case Stay => Success(stack)
    case Enter(t) => Success(stack + [t])
    case Nest => if |stack| >= MAX_STACK then Failure(StackOverflow) else Success(stack + [Top(stack)])
    case Leave => if |stack| <= 1 then Failure(PopEmpty) else Success(stack[..|stack| - 1])
  }

  // ---------------------------------------------------------------------------
  // A whole line

  datatype Lexed = Lexed(tokens: seq<Token>, stack: Stack)

  lemma {:induction false} ConcatAppend(a: seq<Token>, b: seq<Token>)
    ensures Concat(a + b) == Concat(a) + Concat(b)
  {
    if |a| == 0 {
      assert a + b == b;
    } else {
      assert (a + b)[1..] == a[1..] + b;
      ConcatAppend(a[1..], b);
    }
  }

  /** The class each character of a token list is coloured with, in order. */
  function Classes(ts: seq<Token>): (r: seq<TokenClass>)
    ensures |r| == |Concat(ts)|
  {
    if |ts| == 0 then [] else Spread(ts[0]) + Classes(ts[1..])
  }

  /** One token's class, once per character. */
  function Spread(t: Token): (r: seq<TokenClass>)
    ensures |r| == |t.text|
    ensures forall i :: 0 <= i < |r| ==> r[i] == t.cls
  {
    Repeat(t.cls, |t.text|)
  }

  function Repeat(c: TokenClass, n: nat): (r: seq<TokenClass>)
    ensures |r| == n
    ensures forall i :: 0 <= i < n ==> r[i] == c
  { if n == 0 then [] else [c] + Repeat(c, n - 1) }

  lemma {:induction false} ClassesAppend(a: seq<Token>, b: seq<Token>)
    ensures Classes(a + b) == Classes(a) + Classes(b)
  {
    if |a| == 0 {
      assert a + b == b;
    } else {
      assert (a + b)[1..] == a[1..] + b;
      ClassesAppend(a[1..], b);
    }
  }

  /** Tokenizes `line[pos..]` from `stack`, or reports the error Monarch throws. */
  function LexFrom(line: string, pos: nat, stack: Stack): (r: Result<Lexed, Fault>)
    requires pos <= |line|
    ensures r.Success? ==> Concat(r.value.tokens) == line[pos..]
    ensures r.Success? ==> NonEmptyTexts(r.value.tokens)
    ensures r.Success? ==> r.value.stack[0] == stack[0]
    decreases |line| - pos
  {
    if pos == |line| then Success(Lexed([], stack))
    else
      var step := Step(line, pos, Top(stack));
      if step.Throw? then Failure(step.reason)
      else
        var moved := Apply(stack, step.move);
        if moved.Failure? then Failure(moved.error)
        else
          var rest := LexFrom(line, pos + step.len, moved.value);
          if rest.Failure? then rest
          else
            ConcatAppend(step.tokens, rest.value.tokens);
            assert line[pos..] == line[pos..pos + step.len] + line[pos + step.len..];
            Success(Lexed(step.tokens + rest.value.tokens, rest.value.stack))
  }

  /** Tokenizes one line from the stack the previous line left. When Monarch
      throws, the editor falls back to one unclassified token for the whole
      line and keeps the entry stack. */
  function Lex(line: string, stack: Stack): (r: Lexed)
    ensures Concat(r.tokens) == line
    ensures NonEmptyTexts(r.tokens)
    ensures r.stack[0] == stack[0]
  {
    match LexFrom(line, 0, stack)
    case Success(l) => l
    case Failure(_) => Lexed([Token(Unclassified, line)], stack)
  }

  // ---------------------------------------------------------------------------
  // Token collection

  /** Adds one token to the collected list, extending the last token when the
      class repeats (Monarch emits a token only when the class changes). */
  function Absorb(acc: seq<Token>, t: Token): (r: seq<Token>)
    ensures Concat(r) == Concat(acc) + t.text
    ensures |r| > 0 && r[|r| - 1].cls == t.cls
    ensures |acc| > 0 ==> |acc| <= |r| <= |acc| + 1 && r[..|acc| - 1] == acc[..|acc| - 1]
    ensures Alternating(acc) ==> Alternating(r)
    ensures |acc| > 0 && acc[|acc| - 1].cls == t.cls ==> |r| == |acc|
    ensures |acc| > 0 && acc[|acc| - 1].cls != t.cls ==> r == acc + [t]
    ensures Classes(r) == Classes(acc) + Spread(t)
    ensures NonEmptyTexts(acc) && |t.text| > 0 ==> NonEmptyTexts(r)
  {
    if |acc| > 0 && acc[|acc| - 1].cls == t.cls then
      var init, last := acc[..|acc| - 1], acc[|acc| - 1];
      assert acc == init + [last];
      ExtendLast(init, last, t);
      init + [Token(t.cls, last.text + t.text)]
    else
      AppendOne(acc, t);
      acc + [t]
  }

  /** Appending a token appends its text and its characters' classes. */
  lemma AppendOne(acc: seq<Token>, t: Token)
    ensures Concat(acc + [t]) == Concat(acc) + t.text
    ensures Classes(acc + [t]) == Classes(acc) + Spread(t)
  {
    ConcatAppend(acc, [t]);
    ClassesAppend(acc, [t]);
    assert Classes([t]) == Spread(t);
  }

  /** Extending the last token by `t` of the same class appends `t`'s text
      and its characters' classes. */
  lemma ExtendLast(init: seq<Token>, last: Token, t: Token)
    requires last.cls == t.cls
    ensures Concat(init + [Token(t.cls, last.text + t.text)]) == Concat(init + [last]) + t.text
    ensures Classes(init + [Token(t.cls, last.text + t.text)]) == Classes(init + [last]) + Spread(t)
  {
    var merged := Token(t.cls, last.text + t.text);
    AppendOne(init, last);
    AppendOne(init, merged);
    assert Spread(merged) == Spread(last) + Spread(t);
  }

  /** No two neighbouring tokens share a class. */
  predicate Alternating(ts: seq<Token>) {
    forall i :: 0 <= i < |ts| - 1 ==> ts[i].cls != ts[i + 1].cls
  }

  /** The tokens the editor receives: neighbours of one class merged. */
  function Collect(ts: seq<Token>): (r: seq<Token>)
    ensures Concat(r) == Concat(ts)
    ensures Alternating(r)
    ensures |r| <= |ts|
    ensures NonEmptyTexts(ts) ==> NonEmptyTexts(r)
    ensures Classes(r) == Classes(ts)
  {
    if |ts| == 0 then []
    else
      var init := ts[..|ts| - 1];
      var t := ts[|ts| - 1];
      var c := Collect(init);
      assert ts == init + [t];
      ConcatAppend(init, [t]);
      ClassesAppend(init, [t]);
      assert Classes([t]) == Spread(t);
      Absorb(c, t)
  }

  /** One line as the editor sees it. */
  function Tokenize(line: string, stack: Stack): (r: Lexed)
    ensures Concat(r.tokens) == line
    ensures Alternating(r.tokens) && NonEmptyTexts(r.tokens)
    ensures Classes(r.tokens) == Classes(Lex(line, stack).tokens) && r.stack == Lex(line, stack).stack
  {
    var l := Lex(line, stack);
    Lexed(Collect(l.tokens), l.stack)
  }
}
