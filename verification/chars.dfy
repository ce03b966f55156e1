/** Character classes of the JavaScript regular expressions in the Typst
    Monarch grammar, and the maximal-run scanner the matchers are built on.
    Lines are sequences of Unicode code points, as the grammar is compiled
    with the `unicode` flag. */
module Chars {

  import opened Wrappers

  /** `[a-zA-Z]` */
  predicate IsLetter(c: char) {
    ('a' <= c <= 'z') || ('A' <= c <= 'Z')
  }

  /** `[0-9]` */
  predicate IsDigit(c: char) {
    '0' <= c <= '9'
  }

  /** `[0-9A-Fa-f]` */
  predicate IsHexDigit(c: char) {
    IsDigit(c) || ('a' <= c <= 'f') || ('A' <= c <= 'F')
  }

  /** `[a-zA-Z_]`, the first character of a math identifier */
  predicate IsIdentStart(c: char) {
    IsLetter(c) || c == '_'
  }

  /** `[a-zA-Z0-9_-]`, the body of an identifier */
  predicate IsIdentChar(c: char) {
    IsLetter(c) || IsDigit(c) || c == '_' || c == '-'
  }

  /** `[ \t\r\n]`, the `whitespace` rule's class */
  predicate IsBlank(c: char) {
    c == ' ' || c == '\t' || c == '\r' || c == '\n'
  }

  /** The characters JavaScript's `.` refuses to match. */
  predicate IsLineTerminator(c: char) {
    c == '\n' || c == '\r' || c == '\U{2028}' || c == '\U{2029}'
  }

  /** JavaScript's `\s`: the ECMAScript WhiteSpace and LineTerminator code points. */
  predicate IsRegexSpace(c: char) {
    var n := c as int;
    (0x09 <= n <= 0x0D) || n == 0x20 || n == 0xA0 || n == 0x1680
    || (0x2000 <= n <= 0x200A) || n == 0x2028 || n == 0x2029
    || n == 0x202F || n == 0x205F || n == 0x3000 || n == 0xFEFF
  }

  /** `[+\-*\/^_=!><|]`, the class of the `symbols` catalogue regex */
  predicate IsSymbolChar(c: char) {
    c == '+' || c == '-' || c == '*' || c == '/' || c == '^' || c == '_'
    || c == '=' || c == '!' || c == '>' || c == '<' || c == '|'
  }

  /** True when no character of `s` is a line terminator, so `.*$` can consume all of it. */
  predicate NoTerminator(s: string) {
    forall i :: 0 <= i < |s| ==> !IsLineTerminator(s[i])
  }

  /** The classes that appear as `[...]` in the grammar. */
  datatype CharClass =
    | BlankChar        // [ \t\r\n]
    | StringChar       // [^\\"]
    | CommentChar      // [^\/*]
    | SymbolChar       // [+\-*\/^_=!><|]
    | IdentChar        // [a-zA-Z0-9_-]
    | AlnumChar        // [a-zA-Z0-9]
    | SlashOrStar      // [\/*]
    | HexChar          // [0-9A-Fa-f]
    | SpaceChar        // \s

  predicate InClass(c: char, k: CharClass) {
    match k
    case BlankChar => IsBlank(c)
    case StringChar => c != '\\' && c != '"'
    case CommentChar => c != '/' && c != '*'
    case SymbolChar => IsSymbolChar(c)
    case IdentChar => IsIdentChar(c)
    case AlnumChar => IsLetter(c) || IsDigit(c)
    case SlashOrStar => c == '/' || c == '*'
    case HexChar => IsHexDigit(c)
    case SpaceChar => IsRegexSpace(c)
  }

  /** Length of the longest run of class `k` starting at `i`: what a greedy `[...]*` consumes. */
  function RunLength(s: string, i: nat, k: CharClass): (n: nat)
    requires i <= |s|
    ensures i + n <= |s|
    ensures forall j :: i <= j < i + n ==> InClass(s[j], k)
    ensures i + n == |s| || !InClass(s[i + n], k)
    decreases |s| - i
  {
    if i == |s| || !InClass(s[i], k) then 0 else 1 + RunLength(s, i + 1, k)
  }

  /** The largest `e` with `lo < e <= hi` and `s[e-1]` a letter: where a greedy
      `[...]*[a-zA-Z]` ends after backtracking over `s[..hi]`. */
  function LastLetterEnd(s: string, lo: nat, hi: nat): (r: Option<nat>)
    requires lo <= hi <= |s|
    ensures r.Some? ==> lo < r.value <= hi && IsLetter(s[r.value - 1])
    ensures r.Some? ==> forall j :: r.value <= j < hi ==> !IsLetter(s[j])
    ensures r.None? ==> forall j :: lo <= j < hi ==> !IsLetter(s[j])
    decreases hi
  {
    if hi == lo then None
    else if IsLetter(s[hi - 1]) then Some(hi)
    else LastLetterEnd(s, lo, hi - 1)
  }
}
