/** The declarative editor rules registered beside the tokenizer
    (frontend/src/lib/monaco-typst-init.ts): the comment markers, the
    auto-closing pairs and the Enter rule. */
module EditorConfig {

  import opened Wrappers
  import opened Chars
  import opened TypstLexer
  import opened LexerScan
  import opened LexerContexts
  import opened LexerStrings

  // ---------------------------------------------------------------------------
  // Comment markers

  /** `comments.lineComment`: what the editor's comment toggle puts in front of a line. */
  const LINE_COMMENT: string := "//"

  /** A line the comment toggle has prefixed is one `comment` token in markup
      or in math, and the tokenizer's stack is left as it was. */
  lemma ToggledLineIsComment(text: string, stack: Stack)
    requires NoTerminator(text)
    requires Top(stack) == Root || Top(stack) == MathState
    ensures LexFrom(LINE_COMMENT + text, 0, stack) == Success(Lexed([Token(Comment, LINE_COMMENT + text)], stack))
  {
    var line := LINE_COMMENT + text;
    assert line[2..] == text;
    assert line[0..] == line;
    LineCommentRunsToEnd(line, 0, stack);
  }

  // ---------------------------------------------------------------------------
  // Auto-closing pairs

  /** One `autoClosingPairs` entry; `notInString` is `notIn: ['string']`. */
  datatype AutoClosingPair = AutoClosingPair(open: char, close: char, notInString: bool)

  /** The table, in its listed order. */
  const AUTO_CLOSING_PAIRS: seq<AutoClosingPair> := [
    AutoClosingPair('$', '$', false),
    AutoClosingPair('"', '"', true),
    AutoClosingPair('(', ')', false),
    AutoClosingPair('{', '}', false),
    AutoClosingPair('[', ']', false)
  ]

  /** The token classes the editor reads as the standard `string` scope: every
      class whose name has a `string` segment. */
  predicate IsStringScope(cls: TokenClass) {
    cls == StringQuote || cls == StringBody || cls == StringEscape || cls == StringEscapeInvalid
  }

  /** The first pair of `pairs` opened by `typed`. */
  function FindPair(pairs: seq<AutoClosingPair>, typed: char): (r: Option<AutoClosingPair>)
    ensures r.Some? ==> r.value in pairs && r.value.open == typed
    ensures r.None? ==> forall p :: p in pairs ==> p.open != typed
  {
    if |pairs| == 0 then None
    else if pairs[0].open == typed then Some(pairs[0])
    else FindPair(pairs[1..], typed)
  }

  /** The closer the language configuration offers when `typed` is typed
      where the token under the cursor has class `scope`; the host may still
      decline it for reasons of its own. */
  function AutoClose(typed: char, scope: TokenClass): (r: Option<char>)
    ensures r.Some? ==> exists p :: p in AUTO_CLOSING_PAIRS && p.open == typed && p.close == r.value
  {
    match FindPair(AUTO_CLOSING_PAIRS, typed)
    case None => None
    case Some(p) => if p.notInString && IsStringScope(scope) then None else Some(p.close)
  }

  /** The pair each opening character closes with. */
  function Closer(open: char): char {
    match open
    case '$' => '$'
    case '"' => '"'
    case '(' => ')'
    case '{' => '}'
    case _ => ']'
  }

  /** `$` and the three brackets always close, `"` closes exactly outside
      strings, and nothing else is ever closed. */
  lemma AutoCloseCases(typed: char, scope: TokenClass)
    ensures AutoClose(typed, scope).Some? <==>
      typed in "${([" || (typed == '"' && !IsStringScope(scope))
    ensures AutoClose(typed, scope).Some? ==> AutoClose(typed, scope).value == Closer(typed)
  {
    if typed !in "$\"({[" {
      assert forall p :: p in AUTO_CLOSING_PAIRS ==> p.open != typed;
    }
  }

  /** A `$` closes even inside math and strings: the table has no way to
      exclude math. */
  lemma DollarAlwaysCloses(scope: TokenClass)
    ensures AutoClose('$', scope) == Some('$')
  {
    AutoCloseCases('$', scope);
  }

  /** `"` is not doubled inside a string. */
  lemma QuoteNotInString(scope: TokenClass)
    ensures AutoClose('"', scope) == (if IsStringScope(scope) then None else Some('"'))
  {
    AutoCloseCases('"', scope);
  }

  /** The string scope the tokenizer gives: a string's quotes, body and escapes. */
  lemma StringTokensAreStringScope(line: string, pos: nat)
    requires pos < |line| && line[pos] != '\\' && line[pos] != '"'
    ensures IsStringScope(Step(line, pos, StringState).tokens[0].cls)
  {
    StringBodyRun(line, pos);
  }

  // ---------------------------------------------------------------------------
  // The Enter rule

  /** What the Enter rule tells the editor to do. */
  datatype EnterAction = IndentOutdent | NoRule

  /** Whether the unanchored regex `/\$/` finds a match in `s`: try every start. */
  predicate FindsDollar(s: string) {
    |s| > 0 && (s[0] == '$' || FindsDollar(s[1..]))
  }

  lemma {:induction false} FindsDollarIff(s: string)
    ensures FindsDollar(s) <==> '$' in s
  {
    if |s| > 0 {
      FindsDollarIff(s[1..]);
      assert s == [s[0]] + s[1..];
    }
  }

  /** The single `onEnterRules` entry: `beforeText` and `afterText` are both `/\$/`. */
  function OnEnter(before: string, after: string): (r: EnterAction)
    ensures r == IndentOutdent <==> '$' in before && '$' in after
  {
    FindsDollarIff(before);
    FindsDollarIff(after);
    if FindsDollar(before) && FindsDollar(after) then IndentOutdent else NoRule
  }

  /** Pressing Enter at column `k` of `line` indents and outdents exactly when a
      `$` lies before the cursor and another at or after it, which is the case
      of a cursor inside `$...$`. */
  lemma EnterBetweenDollars(line: string, k: nat)
    requires k <= |line|
    ensures OnEnter(line[..k], line[k..]) == IndentOutdent <==>
      exists i, j :: 0 <= i < k <= j < |line| && line[i] == '$' && line[j] == '$'
  {
    if OnEnter(line[..k], line[k..]) == IndentOutdent {
      var i :| 0 <= i < k && line[..k][i] == '$';
      var j :| 0 <= j < |line| - k && line[k..][j] == '$';
      assert line[i] == '$' && line[k + j] == '$';
    }
    if exists i, j :: 0 <= i < k <= j < |line| && line[i] == '$' && line[j] == '$' {
      var i, j :| 0 <= i < k <= j < |line| && line[i] == '$' && line[j] == '$';
      assert line[..k][i] == '$';
      assert line[k..][j - k] == '$';
    }
  }
}
