/** Splitting again: when does a statement that SplitStatements returned split into itself? */
module Resplit {
  import opened Text
  import opened Scanner
  import opened ScanLaws
  import opened SplitLaws
  import opened SplitShape

  ghost predicate Comment(t: Token) {
    t.LineComment? || t.BlockComment?
  }

  ghost predicate HasComment(s: string) {
    exists t :: t in Lex(s) && Comment(t)
  }

  function InQ(q: char): QMode {
    if q == '\'' then QSingle else QDouble
  }

  lemma {:induction false} BodyStaysQuoted(q: char, b: string)
    requires (q == '\'' || q == '"') && Body(q, b)
    ensures QEnd(InQ(q), b) == InQ(q)
    decreases |b|
  {
    if b != [] {
      if b[0] == '\\' || b[0] == q {
        BodyStaysQuoted(q, b[2..]);
        assert b[1..][1..] == b[2..];
      } else {
        BodyStaysQuoted(q, b[1..]);
      }
    }
  }

  /** Reading a token that is no comment, the quote machine comes back to code. */
  lemma TokenReturns(t: Token, next: string)
    requires OkToken(t, next) && !Comment(t) && t.Closed()
    ensures QEnd(QCode, t.Source()) == QCode
  {
    match t
    case Rune(c) =>
    case Quoted(q, b, _) =>
      BodyStaysQuoted(q, b);
      QAppend(QCode, [q], b);
      assert QEnd(QCode, [q]) == InQ(q);
      QAppend(QCode, [q] + b, [q]);
      assert QEnd(InQ(q), [q]) == QCode;
    case LineComment(b, c) => assert false;
    case BlockComment(b, c) => assert false;
  }

  lemma {:induction false} NoSemicolonTokens(ts: seq<Token>)
    requires IsLexing(ts) && NoSemi(QCode, Unlex(ts))
    requires forall t :: t in ts ==> !Comment(t)
    ensures RenderAll(ts) == Keeps(Unlex(ts))
  {
    if ts != [] {
      var t, rest := ts[0], Unlex(ts[1..]);
      QAppend(QCode, t.Source(), rest);
      if t.Closed() {
        TokenReturns(t, rest);
        NoSemicolonTokens(ts[1..]);
      } else {
        LexUnique(ts[1..]);
        assert ts[1..] == [];
      }
      KeepsAppend(t.Source(), rest);
      assert t.Render() == Keeps(t.Source());
    }
  }

  /* ---- A comment costs characters ---- */

  function Length(list: seq<string>): nat {
    |Concat(list)|
  }

  lemma {:induction false} FlushLength(buf: string, items: seq<Item>)
    ensures Length(Flush(buf, items)) <= |buf| + |items|
    decreases |items|
  {
    var p, q := TrimSplits(buf);
    assert |Trim(buf)| <= |buf|;
    assert Concat(Emit(buf)) == Trim(buf);
    if items != [] {
      match items[0]
      case Keep(c) => FlushLength(buf + [c], items[1..]);
      case Cut =>
        FlushLength([], items[1..]);
        ConcatAppend(Emit(buf), Flush([], items[1..]));
    }
  }

  lemma {:induction false} RenderLength(ts: seq<Token>)
    ensures |RenderAll(ts)| <= |Unlex(ts)|
    ensures (exists t :: t in ts && Comment(t)) ==> |RenderAll(ts)| < |Unlex(ts)|
  {
    if ts != [] {
      RenderLength(ts[1..]);
      assert forall t :: t in ts <==> t == ts[0] || t in ts[1..];
      assert |ts[0].Render()| <= |ts[0].Source()|;
      assert Comment(ts[0]) ==> |ts[0].Render()| < |ts[0].Source()|;
    }
  }

  lemma CommentShortens(st: string)
    requires HasComment(st)
    ensures Length(Split(st)) < |st|
  {
    LexIsLexing(st);
    RenderLength(Lex(st));
    FlushLength([], RenderAll(Lex(st)));
  }

  lemma NoCommentKeeps(st: string)
    requires !HasComment(st) && Shaped(st, false)
    ensures Split(st) == [st]
  {
    LexIsLexing(st);
    NoSemicolonTokens(Lex(st));
    hide Lex, RenderAll, Flush;
    FlushKeeps([], st);
    TrimPadded([], st, []);
    assert [] + st == st == [] + st + [];
  }

  /** Splitting is idempotent on a returned statement exactly when that statement, read on its own,
      contains no comment. */
  lemma ResplitFixed(script: string, st: string)
    requires st in Split(script)
    ensures Split(st) == [st] <==> !HasComment(st)
  {
    hide Split, HasComment;
    SplitIsShaped(script);
    var k :| 0 <= k < |Split(script)| && Split(script)[k] == st;
    assert Shaped(st, k < |Split(script)| - 1 || Quoting(End(Code, script)) == QCode);
    if HasComment(st) {
      CommentShortens(st);
      assert Concat([st]) == st;
    } else {
      NoCommentKeeps(st);
    }
  }

  lemma ScanTurn(m: Mode, s: string, t: Turn)
    requires s != [] && Move(m, s) == t
    ensures Scan(m, s) == t.out + Scan(t.next, s[t.len..])
  {
  }

  lemma ScanGlued()
    ensures Scan(Code, "-/**/-a") == Keeps("--a")
  {
    hide Scan;
    ScanTurn(Code, "-/**/-a", Turn(1, Code, [Keep('-')]));
    assert "-/**/-a"[1..] == "/**/-a";
    ScanTurn(Code, "/**/-a", Turn(2, Block, []));
    assert "/**/-a"[2..] == "*/-a";
    ScanTurn(Block, "*/-a", Turn(2, Code, []));
    assert "*/-a"[2..] == "-a";
    ScanTurn(Code, "-a", Turn(1, Code, [Keep('-')]));
    assert "-a"[1..] == "a";
    ScanTurn(Code, "a", Turn(1, Code, [Keep('a')]));
    ScanNothing();
    assert "a"[1..] == [];
    assert Scan(Code, "a") == [Keep('a')];
    assert Scan(Code, "-a") == [Keep('-'), Keep('a')];
    assert Scan(Code, "-/**/-a") == [Keep('-'), Keep('-'), Keep('a')] == Keeps("--a");
  }

  lemma ScanLineComment()
    ensures Scan(Code, "--a") == Keeps("")
  {
    hide Scan;
    ScanTurn(Code, "--a", Turn(2, Line, []));
    assert "--a"[2..] == "a";
    ScanTurn(Line, "a", Turn(1, Line, []));
    assert "a"[1..] == "";
    ScanNothingInLine();
  }

  lemma ScanNothingInLine()
    ensures Scan(Line, "") == []
  {
    ScanLine("");
  }

  /** Removing a comment can bring two characters together that open another one. */
  lemma ResplitCanFail()
    ensures Split("-/**/-a") == ["--a"] && Split("--a") == []
  {
    ScanRefinesLex("-/**/-a");
    ScanRefinesLex("--a");
    hide Scan, Flush, Lex, RenderAll, Keeps;
    ScanGlued();
    ScanLineComment();
    FlushKeeps([], "--a");
    TrimPadded([], "--a", []);
    assert [] + "--a" == "--a" == [] + "--a" + [];
    FlushKeeps([], "");
    TrimPadded([], [], []);
    assert [] + "" == "" == [] + [] + [];
  }
}
