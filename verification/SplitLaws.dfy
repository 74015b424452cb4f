/** Splitting is compositional and undoes joining. */
module SplitLaws {
  import opened Text
  import opened Scanner
  import opened ScanLaws

  /** The script ends outside quotes and comments. */
  ghost predicate Finished(s: string) {
    forall t :: t in Lex(s) ==> t.Closed()
  }

  lemma EndFirst(s: string)
    requires s != []
    ensures var t := FirstToken(s); t.Closed() ==> End(Code, s) == End(Code, s[|t.Source()|..])
    ensures !FirstToken(s).Closed() ==> End(Code, s) != Code && s[|FirstToken(s).Source()|..] == []
  {
    if s[0] == '\'' || s[0] == '"' {
      var q, r := s[0], s[1..];
      ScanOpenQuote(q, s);
      ScanQuote(q, r);
      QuoteTokenRenders(q, r);
      hide Scan, End, Move, FirstToken;
      var n := QuoteLen(q, r);
      assert n < |r| ==> s[n + 2..] == r[n + 1..];
    } else if s[0] == '-' && Peek(s) == '-' {
      var r := s[2..];
      ScanOpenLine(s);
      ScanLine(r);
      CommentTokenLen(r);
      FirstTokenIs(s);
      hide Scan, End, Move, FirstToken;
      var n := LineLen(r);
      assert n < |r| ==> s[n + 3..] == r[n + 1..];
    } else if s[0] == '/' && Peek(s) == '*' {
      var r := s[2..];
      ScanOpenBlock(s);
      ScanBlock(r);
      CommentTokenLen(r);
      FirstTokenIs(s);
      hide Scan, End, Move, FirstToken;
      var n := BlockLen(r);
      assert n < |r| ==> s[n + 4..] == r[n + 2..];
    }
  }

  /** The loop ends in code mode exactly when every token of the script is terminated. */
  lemma {:induction false} EndIsFinished(s: string)
    ensures End(Code, s) == Code <==> Finished(s)
    decreases |s|
  {
    if s != [] {
      var t := FirstToken(s);
      var rest := s[|t.Source()|..];
      EndFirst(s);
      EndIsFinished(rest);
      hide End, FirstToken;
      assert Lex(s) == [t] + Lex(rest);
      if t.Closed() {
        assert forall u :: u in Lex(s) <==> u == t || u in Lex(rest);
      } else {
        assert t in Lex(s);
      }
    }
  }

  /** Two characters that mean something else side by side than apart. */
  predicate Fuses(c: char, d: char) {
    (c == '-' && d == '-') || (c == '/' && d == '*') || (c == '\'' && d == '\'')
  }

  predicate Apart(a: string, b: string) {
    a == "" || b == "" || !Fuses(a[|a| - 1], b[0])
  }

  /** A turn looks at two characters only. */
  lemma MoveLooksAtTwo(m: Mode, s: string, t: string)
    requires |s| > 1 && |t| > 1 && s[0] == t[0] && s[1] == t[1]
    ensures Move(m, s) == Move(m, t)
  {
  }

  lemma LastTurn(m: Mode, c: char, y: string)
    requires End(m, [c]) == Code && y != "" && !Fuses(c, y[0])
    ensures Move(m, [c] + y) == Move(m, [c])
  {
    var s := [c] + y;
    assert [c][1..] == "" && s[1] == y[0];
    match m
    case Code =>
    case Single =>
    case Double =>
    case Line =>
    case Block =>
  }

  lemma MoveStays(m: Mode, a: string, y: string)
    requires a != "" && End(m, a) == Code && Apart(a, y)
    ensures Move(m, a + y) == Move(m, a)
  {
    hide Move, End, Fuses;
    if y == "" {
      assert a + y == a;
    } else if |a| == 1 {
      assert a == [a[0]];
      LastTurn(m, a[0], y);
    } else {
      MoveLooksAtTwo(m, a + y, a);
    }
  }

  /** Text after a finished one is scanned on its own. */
  lemma {:induction false} ScanStays(m: Mode, a: string, y: string)
    requires End(m, a) == Code && Apart(a, y)
    ensures Scan(m, a + y) == Scan(m, a) + Scan(Code, y) && End(m, a + y) == End(Code, y)
    decreases |a|
  {
    if a == "" {
      assert a + y == y;
    } else {
      var t := Move(m, a);
      MoveStays(m, a, y);
      assert (a + y)[t.len..] == a[t.len..] + y;
      assert a[t.len..] != "" ==> a[t.len..][|a| - t.len - 1] == a[|a| - 1];
      hide Move;
      ScanStays(t.next, a[t.len..], y);
      ConcatAssoc(t.out, Scan(t.next, a[t.len..]), Scan(Code, y));
    }
  }

  lemma ScanCut(a: string, b: string)
    requires End(Code, a) == Code
    ensures Scan(Code, a + ";" + b) == Scan(Code, a) + [Cut] + Scan(Code, b)
    ensures End(Code, a + ";" + b) == End(Code, b)
  {
    var y := ";" + b;
    assert y[1..] == b;
    assert Move(Code, y) == Turn(1, Code, [Cut]);
    assert Scan(Code, y) == [Cut] + Scan(Code, b) && End(Code, y) == End(Code, b);
    hide Scan, End, Move;
    ScanStays(Code, a, y);
    assert a + ";" + b == a + y;
    ConcatAssoc(Scan(Code, a), [Cut], Scan(Code, b));
  }

  lemma {:induction false} FlushCut(buf: string, x: seq<Item>, y: seq<Item>)
    ensures Flush(buf, x + [Cut] + y) == Flush(buf, x) + Flush([], y)
    decreases |x|
  {
    var z := x + [Cut] + y;
    if x == [] {
      assert z == [Cut] + y && z[1..] == y;
    } else {
      assert z[0] == x[0] && z[1..] == x[1..] + [Cut] + y;
      match x[0]
      case Keep(c) => FlushCut(buf + [c], x[1..], y);
      case Cut => FlushCut([], x[1..], y);
    }
  }

  /** Splitting A;B is splitting A and splitting B, whenever A ends outside quotes and comments. */
  lemma SplitComposes(a: string, b: string)
    requires Finished(a)
    ensures Split(a + ";" + b) == Split(a) + Split(b)
  {
    EndIsFinished(a);
    ScanCut(a, b);
    FlushCut([], Scan(Code, a), Scan(Code, b));
    ScanRefinesLex(a);
    ScanRefinesLex(b);
    ScanRefinesLex(a + ";" + b);
  }

  /** A statement that splitting must hand back: nonempty, trimmed, every quote closed, and made of
      code characters and quoted runs only - no semicolon in code, no comment opener in code. */
  ghost predicate Clean(st: string) {
    st != [] && Trimmed(st) && AllStatementTokens(Lex(st))
  }

  predicate StatementToken(t: Token) {
    (t.Rune? && t.c != ';') || (t.Quoted? && t.closed)
  }

  ghost predicate AllStatementTokens(ts: seq<Token>) {
    forall t :: t in ts ==> StatementToken(t)
  }

  lemma AllStatementTokensAppend(a: seq<Token>, b: seq<Token>)
    requires AllStatementTokens(a) && AllStatementTokens(b)
    ensures AllStatementTokens(a + b)
  {
  }

  lemma {:induction false} CleanRenders(ts: seq<Token>)
    requires AllStatementTokens(ts)
    ensures RenderAll(ts) == Keeps(Unlex(ts))
  {
    if ts != [] {
      CleanRenders(ts[1..]);
      KeepsAppend(ts[0].Source(), Unlex(ts[1..]));
      assert ts[0] in ts && StatementToken(ts[0]);
      assert ts[0].Render() == Keeps(ts[0].Source());
    }
  }

  lemma {:induction false} FlushKeeps(buf: string, s: string)
    ensures Flush(buf, Keeps(s)) == Emit(buf + s)
    decreases |s|
  {
    if s == [] {
      assert buf + s == buf;
    } else {
      FlushKeeps(buf + [s[0]], s[1..]);
      assert Keeps(s)[1..] == Keeps(s[1..]);
      assert buf + s == buf + [s[0]] + s[1..];
    }
  }

  lemma SplitClean(ws: string, st: string)
    requires Blank(ws) && Clean(st)
    ensures Split(ws + st) == [st] && Finished(ws + st)
  {
    LexIsLexing(st);
    var ts := RuneTokens(ws) + Lex(st);
    BlankIsPlain(ws);
    RunesLex(ws, Lex(st));
    LexUnique(ts);
    assert Lex(ws + st) == ts;
    AllStatementTokensAppend(RuneTokens(ws), Lex(st));
    CleanRenders(ts);
    FlushKeeps([], ws + st);
    TrimPadded(ws, st, []);
    assert [] + (ws + st) == ws + st + [];
  }

  function RuneTokens(s: string): seq<Token> {
    if s == [] then [] else [Rune(s[0])] + RuneTokens(s[1..])
  }

  /** A character that is code wherever it stands, and ends no statement. */
  predicate Plain(c: char) {
    c != '\'' && c != '"' && c != '-' && c != '/' && c != ';'
  }

  lemma {:induction false} RunesLex(s: string, ts: seq<Token>)
    requires (forall c :: c in s ==> Plain(c)) && IsLexing(ts)
    ensures IsLexing(RuneTokens(s) + ts) && Unlex(RuneTokens(s) + ts) == s + Unlex(ts)
    ensures AllStatementTokens(RuneTokens(s))
  {
    hide OkToken, IsLexing, Unlex;
    if s == [] {
      assert RuneTokens(s) + ts == ts && s + Unlex(ts) == Unlex(ts);
    } else {
      var more := RuneTokens(s[1..]) + ts;
      RunesLex(s[1..], ts);
      PlainIsToken(s[0], Unlex(more));
      ConsLexing(Rune(s[0]), more);
      assert RuneTokens(s) + ts == [Rune(s[0])] + more;
      assert s + Unlex(ts) == [s[0]] + (s[1..] + Unlex(ts));
    }
  }

  lemma PlainIsToken(c: char, next: string)
    requires Plain(c)
    ensures OkToken(Rune(c), next)
  {
  }

  lemma BlankIsPlain(ws: string)
    requires Blank(ws)
    ensures forall c :: c in ws ==> Plain(c)
  {
  }

  lemma SplitBlank(ws: string)
    requires Blank(ws)
    ensures Split(ws) == [] && Finished(ws)
  {
    BlankIsPlain(ws);
    RunesLex(ws, []);
    assert RuneTokens(ws) + [] == RuneTokens(ws) && ws + Unlex([]) == ws;
    LexUnique(RuneTokens(ws));
    CleanRenders(RuneTokens(ws));
    FlushKeeps([], ws);
    TrimPadded(ws, [], []);
    assert [] + ws == ws + [] + [];
  }

  lemma {:induction false} SplitJoinFrom(lead: string, list: seq<string>, ws: string)
    requires Blank(lead) && Blank(ws)
    requires forall st :: st in list ==> Clean(st)
    ensures Split(lead + Join(list, ";" + ws)) == list
    ensures Finished(lead + Join(list, ";" + ws))
    decreases |list|
  {
    hide Split, Finished, Clean, Blank;
    var j := Join(list, ";" + ws);
    if list == [] {
      assert lead + j == lead;
      SplitBlank(lead);
    } else if |list| == 1 {
      SplitClean(lead, list[0]);
    } else {
      var rest := Join(list[1..], ";" + ws);
      SplitClean(lead, list[0]);
      SplitJoinFrom(ws, list[1..], ws);
      assert lead + j == (lead + list[0]) + ";" + (ws + rest);
      SplitComposes(lead + list[0], ws + rest);
      FinishedComposes(lead + list[0], ws + rest);
      assert list == [list[0]] + list[1..];
    }
  }

  lemma FinishedComposes(a: string, b: string)
    requires Finished(a) && Finished(b)
    ensures Finished(a + ";" + b)
  {
    EndIsFinished(a);
    EndIsFinished(b);
    ScanCut(a, b);
    EndIsFinished(a + ";" + b);
  }

  /** Joining clean statements with a semicolon and any white space (";", ";\n", ...) and splitting
      gives the list back, with or without a final semicolon. */
  lemma SplitUndoesJoin(list: seq<string>, ws: string)
    requires Blank(ws)
    requires forall st :: st in list ==> Clean(st)
    ensures Split(Join(list, ";" + ws)) == list
    ensures Split(Join(list, ";" + ws) + ";" + ws) == list
  {
    hide Clean, Split, Finished, Join;
    var j := Join(list, ";" + ws);
    SplitJoinFrom([], list, ws);
    assert [] + j == j;
    SplitBlank(ws);
    SplitComposes(j, ws);
    assert j + (";" + ws) == j + ";" + ws;
  }
}
