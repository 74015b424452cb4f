/** Comments outside quotes change nothing: a script splits as if they were not there. */
module CommentLaws {
  import opened Text
  import opened Scanner
  import opened SplitLaws

  lemma {:induction false} LineLenOf(c: string, rest: string)
    requires '\n' !in c && (rest == "" || rest[0] == '\n')
    ensures LineLen(c + rest) == |c|
  {
    if c == "" {
      assert c + rest == rest;
    } else {
      assert (c + rest)[1..] == c[1..] + rest;
      assert c[0] in c;
      LineLenOf(c[1..], rest);
    }
  }

  /** The end of a block comment does not stand in the text. */
  predicate NoBlockEnd(c: string) {
    forall i :: 0 <= i < |c| - 1 ==> !(c[i] == '*' && c[i + 1] == '/')
  }

  lemma {:induction false} BlockLenOf(c: string, rest: string)
    requires NoBlockEnd(c)
    ensures BlockLen(c + ("*/" + rest)) == |c|
  {
    var s := c + ("*/" + rest);
    if c == "" {
      assert s[0] == '*' && s[1] == '/';
    } else {
      assert s[1..] == c[1..] + ("*/" + rest);
      assert s[1] == if |c| > 1 then c[1] else '*';
      BlockLenOf(c[1..], rest);
    }
  }

  lemma ScanLineComment(c: string, b: string)
    requires '\n' !in c
    ensures Scan(Code, "--" + (c + ("\n" + b))) == Scan(Code, "\n" + b)
    ensures Scan(Code, "--" + c) == []
  {
    var s := c + ("\n" + b);
    LineLenOf(c, "\n" + b);
    LineLenOf(c, "");
    assert c + "" == c && s[|c| + 1..] == b;
    assert ("--" + s)[2..] == s && ("--" + c)[2..] == c;
    ScanOpenLine("--" + s);
    ScanOpenLine("--" + c);
    ScanLine(s);
    ScanLine(c);
    hide LineLen, Scan;
    ScanNewline(b);
  }

  lemma ScanNewline(b: string)
    ensures Scan(Code, "\n" + b) == [Keep('\n')] + Scan(Code, b)
  {
    assert ("\n" + b)[1..] == b;
    assert Move(Code, "\n" + b) == Turn(1, Code, [Keep('\n')]);
  }

  lemma ScanBlockComment(c: string, b: string)
    requires NoBlockEnd(c)
    ensures Scan(Code, "/*" + (c + ("*/" + b))) == Scan(Code, b)
  {
    var s := c + ("*/" + b);
    BlockLenOf(c, b);
    assert s[|c| + 2..] == b && ("/*" + s)[2..] == s;
    ScanOpenBlock("/*" + s);
    ScanBlock(s);
  }

  /** Two texts that scan alike, after the same finished text, split alike. */
  lemma SplitAlike(a: string, x: string, y: string)
    requires Finished(a) && Apart(a, x) && Apart(a, y) && Scan(Code, x) == Scan(Code, y)
    ensures Split(a + x) == Split(a + y)
  {
    hide Scan, Lex;
    EndIsFinished(a);
    ScanStays(Code, a, x);
    ScanStays(Code, a, y);
    ScanRefinesLex(a + x);
    ScanRefinesLex(a + y);
  }

  /** A line comment counts as the line break that ends it. */
  lemma LineCommentVanishes(a: string, c: string, b: string)
    requires Finished(a) && '\n' !in c && (a != "" ==> a[|a| - 1] != '-')
    ensures Split(a + ("--" + (c + ("\n" + b)))) == Split(a + ("\n" + b))
    ensures Split(a + ("--" + c)) == Split(a)
  {
    hide Split, Scan, Finished;
    ScanLineComment(c, b);
    SplitAlike(a, "--" + (c + ("\n" + b)), "\n" + b);
    assert Scan(Code, "") == [] by { ScanNothing(); }
    SplitAlike(a, "--" + c, "");
    assert a + "" == a;
  }

  /** A block comment counts as nothing at all, so long as nothing else comes of what it had kept apart. */
  lemma BlockCommentVanishes(a: string, c: string, b: string)
    requires Finished(a) && NoBlockEnd(c) && Apart(a, b)
    ensures Split(a + ("/*" + (c + ("*/" + b)))) == Split(a + b)
  {
    hide Split, Scan, Finished;
    ScanBlockComment(c, b);
    SplitAlike(a, "/*" + (c + ("*/" + b)), b);
  }
}
