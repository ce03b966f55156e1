/** What merging neighbouring tokens of one class does and does not change. */
module LexerCollect {

  import opened TypstLexer

  /** Collecting changes nothing once no two neighbours share a class. */
  lemma {:induction false} CollectKeepsAlternating(ts: seq<Token>)
    requires Alternating(ts)
    ensures Collect(ts) == ts
  {
    if |ts| > 0 {
      var init := ts[..|ts| - 1];
      var t := ts[|ts| - 1];
      AlternatingPrefix(ts);
      CollectKeepsAlternating(init);
      assert Collect(ts) == Absorb(init, t);
      assert init + [t] == ts;
    }
  }

  /** Dropping the last token keeps neighbours apart. */
  lemma AlternatingPrefix(ts: seq<Token>)
    requires Alternating(ts) && |ts| > 0
    ensures Alternating(ts[..|ts| - 1])
    ensures |ts| > 1 ==> ts[|ts| - 2].cls != ts[|ts| - 1].cls
  {
  }

  /** When the lexer already alternates classes, the editor gets its tokens
      unchanged. */
  lemma TokenizeAlternating(line: string, stack: Stack, ts: seq<Token>, after: Stack)
    requires Lex(line, stack) == Lexed(ts, after) && Alternating(ts)
    ensures Tokenize(line, stack) == Lexed(ts, after)
  {
    CollectKeepsAlternating(ts);
  }

  /** Collecting twice is collecting once. */
  lemma CollectIdempotent(ts: seq<Token>)
    ensures Collect(Collect(ts)) == Collect(ts)
  {
    CollectKeepsAlternating(Collect(ts));
  }

  /** A token list is left unchanged by collecting exactly when no two
      neighbours share a class. */
  lemma CollectFixedIffAlternating(ts: seq<Token>)
    ensures Collect(ts) == ts <==> Alternating(ts)
  {
    if Alternating(ts) {
      CollectKeepsAlternating(ts);
    }
  }

  /** A list of non-empty tokens starts with its first token's class. */
  lemma ClassesHead(ts: seq<Token>)
    requires |ts| > 0 && |ts[0].text| > 0
    ensures |Classes(ts)| > 0 && Classes(ts)[0] == ts[0].cls
  {
    assert Classes(ts) == Spread(ts[0]) + Classes(ts[1..]);
  }

  /** The character after a list's first token has the second token's class. */
  lemma SecondClass(ts: seq<Token>)
    requires |ts| > 1 && NonEmptyTexts(ts)
    ensures |ts[0].text| < |Classes(ts)| && Classes(ts)[|ts[0].text|] == ts[1].cls
  {
    assert Classes(ts) == Spread(ts[0]) + Classes(ts[1..]);
    ClassesHead(ts[1..]);
  }

  /** Alternating non-empty tokens are fixed by their text and their classes:
      each token ends where the class changes. */
  lemma {:induction false} ColouringDeterminesTokens(a: seq<Token>, b: seq<Token>)
    requires Alternating(a) && Alternating(b) && NonEmptyTexts(a) && NonEmptyTexts(b)
    requires Concat(a) == Concat(b) && Classes(a) == Classes(b)
    ensures a == b
    decreases |a|
  {
    if |a| > 0 && |b| > 0 {
      var x, y := a[0], b[0];
      assert Concat(a) == x.text + Concat(a[1..]);
      assert Concat(b) == y.text + Concat(b[1..]);
      assert Classes(a) == Spread(x) + Classes(a[1..]);
      assert Classes(b) == Spread(y) + Classes(b[1..]);
      assert x.cls == y.cls by {
        ClassesHead(a);
        ClassesHead(b);
      }
      if |x.text| < |y.text| {
        assert |Concat(a[1..])| > 0;
        assert |a| > 1;
        SecondClass(a);
        assert false;
      } else if |y.text| < |x.text| {
        assert |Concat(b[1..])| > 0;
        assert |b| > 1;
        SecondClass(b);
        assert false;
      }
      assert x.text == Concat(a)[..|x.text|] == y.text;
      assert Concat(a[1..]) == Concat(a)[|x.text|..] == Concat(b[1..]);
      assert Classes(a[1..]) == Classes(a)[|x.text|..] == Classes(b[1..]);
      ColouringDeterminesTokens(a[1..], b[1..]);
      assert a == [x] + a[1..] && b == [y] + b[1..];
    }
  }

  /** Merging produces the only colouring of the line with non-empty,
      alternating tokens that keeps every character's class. */
  lemma CollectIsTheColouring(ts: seq<Token>, r: seq<Token>)
    requires NonEmptyTexts(ts)
    requires Alternating(r) && NonEmptyTexts(r)
    requires Concat(r) == Concat(ts) && Classes(r) == Classes(ts)
    ensures r == Collect(ts)
  {
    ColouringDeterminesTokens(r, Collect(ts));
  }
}
