/** What the statements that SplitStatements returns look like. */
module SplitShape {
  import opened Text
  import opened Scanner
  import opened ScanLaws

  /* ---- Quotes alone: a machine without comments and without lookahead ---- */

  datatype QMode = QCode | QSingle | QDouble | QSingleEsc | QDoubleEsc

  function QStep(q: QMode, c: char): QMode {
    match q
    case QCode => if c == '\'' then QSingle else if c == '"' then QDouble else QCode
    case QSingle => if c == '\'' then QCode else if c == '\\' then QSingleEsc else QSingle
    case QDouble => if c == '"' then QCode else if c == '\\' then QDoubleEsc else QDouble
    case QSingleEsc => QSingle
    case QDoubleEsc => QDouble
  }

  function QEnd(q: QMode, s: string): QMode
    decreases |s|
  {
    if s == [] then q else QEnd(QStep(q, s[0]), s[1..])
  }

  /** No semicolon of `s` stands outside quotes. */
  ghost predicate NoSemi(q: QMode, s: string)
    decreases |s|
  {
    s == [] || (!(q == QCode && s[0] == ';') && NoSemi(QStep(q, s[0]), s[1..]))
  }

  lemma {:induction false} QAppend(q: QMode, a: string, b: string)
    ensures QEnd(q, a + b) == QEnd(QEnd(q, a), b)
    ensures NoSemi(q, a + b) <==> NoSemi(q, a) && NoSemi(QEnd(q, a), b)
    decreases |a|
  {
    if a == [] {
      assert a + b == b;
    } else {
      assert (a + b)[1..] == a[1..] + b;
      QAppend(QStep(q, a[0]), a[1..], b);
    }
  }

  lemma {:induction false} QBlank(w: string)
    requires Blank(w)
    ensures QEnd(QCode, w) == QCode
  {
    if w != [] {
      assert IsSpace(w[0]);
      QBlank(w[1..]);
    }
  }

  /** White space cannot close a quote. */
  lemma {:induction false} QBlankStays(q: QMode, w: string)
    requires Blank(w) && QEnd(q, w) == QCode
    ensures q == QCode
    decreases |w|
  {
    if w != [] {
      assert IsSpace(w[0]);
      QBlankStays(QStep(q, w[0]), w[1..]);
    }
  }

  function Quoting(m: Mode): QMode {
    match m
    case Single => QSingle
    case Double => QDouble
    case _ => QCode
  }

  /** `st` is nonempty, trimmed, without a semicolon outside quotes and, if asked, quote-closed. */
  ghost predicate Shaped(st: string, closed: bool) {
    st != [] && Trimmed(st) && NoSemi(QCode, st) && (closed ==> QEnd(QCode, st) == QCode)
  }

  lemma EmitShaped(buf: string)
    requires NoSemi(QCode, buf)
    ensures forall st :: st in Emit(buf) ==> Shaped(st, QEnd(QCode, buf) == QCode)
  {
    var p, q := TrimSplits(buf);
    var t := Trim(buf);
    assert buf == p + (t + q);
    QAppend(QCode, p, t + q);
    QBlank(p);
    QAppend(QCode, t, q);
    if QEnd(QCode, buf) == QCode {
      QBlankStays(QEnd(QCode, t), q);
    }
  }

  function KeptOf(out: seq<Item>): string {
    if |out| == 1 && out[0].Keep? then [out[0].c]
    else if |out| == 2 && out[0].Keep? && out[1].Keep? then [out[0].c, out[1].c]
    else ""
  }

  lemma TurnKept(m: Mode, s: string)
    requires s != []
    ensures var t := Move(m, s); t.out != [Cut] ==>
              && Keeps(KeptOf(t.out)) == t.out
              && (KeptOf(t.out) == s[..t.len] || KeptOf(t.out) == [])
    ensures var t := Move(m, s); t.out == [Cut] ==> m == Code && t.next == Code
  {
  }

  lemma QTwo(q: QMode, w: string)
    ensures |w| == 1 ==> QEnd(q, w) == QStep(q, w[0]) && (NoSemi(q, w) <==> !(q == QCode && w[0] == ';'))
    ensures |w| == 2 ==> QEnd(q, w) == QStep(QStep(q, w[0]), w[1])
    ensures |w| == 2 && q != QCode && w[1] != ';' ==> NoSemi(q, w)
    ensures |w| == 2 && q != QCode && QStep(q, w[0]) != QCode ==> NoSemi(q, w)
  {
    if |w| == 2 {
      assert w[1..] == [w[1]];
      QAppend(q, w[..1], w[1..]);
      assert w == w[..1] + w[1..];
      assert QEnd(QStep(q, w[0]), [w[1]]) == QStep(QStep(q, w[0]), w[1]);
    }
  }

  /** The quote machine follows one turn of the scanner, except that a backslash which is the
      very last character of the script leaves it waiting inside the quote. */
  lemma TurnQuoting(m: Mode, s: string)
    requires s != [] && Move(m, s).out != [Cut]
    ensures var t, q := Move(m, s), Quoting(m);
            && NoSemi(q, KeptOf(t.out))
            && (QEnd(q, KeptOf(t.out)) == Quoting(t.next)
                || (t.len == |s| && Quoting(t.next) != QCode && QEnd(q, KeptOf(t.out)) != QCode))
  {
    QTwo(Quoting(m), KeptOf(Move(m, s).out));
    hide QEnd, NoSemi;
    QNothing(Quoting(m));
  }

  lemma QNothing(q: QMode)
    ensures QEnd(q, []) == q && NoSemi(q, [])
  {
  }

  ghost predicate AllShaped(r: seq<string>, closed: bool) {
    forall k :: 0 <= k < |r| ==> Shaped(r[k], k < |r| - 1 || closed)
  }

  lemma AllShapedConcat(a: seq<string>, b: seq<string>, closed: bool)
    requires (forall st :: st in a ==> Shaped(st, true)) && AllShaped(b, closed)
    ensures AllShaped(a + b, closed)
  {
    forall k | 0 <= k < |a + b|
      ensures Shaped((a + b)[k], k < |a + b| - 1 || closed)
    {
      if k < |a| {
        assert (a + b)[k] == a[k] && a[k] in a;
      } else {
        assert (a + b)[k] == b[k - |a|];
      }
    }
  }

  lemma {:induction false} ShapeFrom(m: Mode, s: string, buf: string)
    requires NoSemi(QCode, buf)
    requires QEnd(QCode, buf) == Quoting(m) || (s == [] && Quoting(m) != QCode)
    ensures AllShaped(Flush(buf, Scan(m, s)), Quoting(End(m, s)) == QCode)
    decreases |s|
  {
    if s == [] {
      EmitShaped(buf);
      assert Emit(buf) != [] ==> Emit(buf)[0] in Emit(buf);
    } else {
      var t := Move(m, s);
      var rest := s[t.len..];
      TurnKept(m, s);
      if t.out == [Cut] {
        hide Move, Shaped;
        ShapeFrom(Code, rest, []);
        EmitShaped(buf);
        assert (t.out + Scan(Code, rest))[1..] == Scan(Code, rest);
        AllShapedConcat(Emit(buf), Flush([], Scan(Code, rest)), Quoting(End(Code, rest)) == QCode);
      } else {
        TurnQuoting(m, s);
        hide Move, Shaped, AllShaped;
        QAppend(QCode, buf, KeptOf(t.out));
        ShapeFrom(t.next, rest, buf + KeptOf(t.out));
        FlushMore(buf, KeptOf(t.out), Scan(t.next, rest));
      }
    }
  }

  lemma {:induction false} FlushMore(buf: string, w: string, tail: seq<Item>)
    ensures Flush(buf, Keeps(w) + tail) == Flush(buf + w, tail)
    decreases |w|
  {
    if w == [] {
      assert Keeps(w) + tail == tail && buf + w == buf;
    } else {
      FlushMore(buf + [w[0]], w[1..], tail);
      assert (Keeps(w) + tail)[0] == Keep(w[0]);
      assert (Keeps(w) + tail)[1..] == Keeps(w[1..]) + tail;
      assert buf + w == buf + [w[0]] + w[1..];
    }
  }

  /** Every statement is nonempty and trimmed and has no semicolon outside quotes; every one but the
      last is quote-closed, and so is the last when the script does not end inside a quote. */
  lemma SplitIsShaped(script: string)
    ensures AllShaped(Split(script), Quoting(End(Code, script)) == QCode)
  {
    ShapeFrom(Code, script, []);
    ScanRefinesLex(script);
  }

  /* ---- Nothing is invented or reordered ---- */

  function Concat(list: seq<string>): string {
    if list == [] then "" else list[0] + Concat(list[1..])
  }

  lemma {:induction false} ConcatAppend(a: seq<string>, b: seq<string>)
    ensures Concat(a + b) == Concat(a) + Concat(b)
  {
    if a == [] {
      assert a + b == b;
    } else {
      assert (a + b)[1..] == a[1..] + b;
      ConcatAppend(a[1..], b);
    }
  }

  lemma TrimSubsequence(s: string)
    ensures Subsequence(Trim(s), s)
  {
    var p, q := TrimSplits(s);
    SubsequenceRefl(Trim(s));
    assert Subsequence([], q);
    SubsequenceConcat(Trim(s), Trim(s), [], q);
    assert Trim(s) + [] == Trim(s);
    SubsequenceSkip(Trim(s), p, Trim(s) + q);
    assert s == p + (Trim(s) + q);
  }

  lemma {:induction false} FlushSubsequence(buf: string, m: Mode, s: string)
    ensures Subsequence(Concat(Flush(buf, Scan(m, s))), buf + s)
    decreases |s|
  {
    if s == [] {
      TrimSubsequence(buf);
      assert buf + s == buf && Concat(Emit(buf)) == Trim(buf);
    } else {
      var t := Move(m, s);
      var rest := s[t.len..];
      TurnKept(m, s);
      var tail := Scan(t.next, rest);
      assert Scan(m, s) == t.out + tail;
      assert s == s[..t.len] + rest;
      hide Move, Scan, Subsequence;
      if t.out == [Cut] {
        FlushSubsequence([], t.next, rest);
        CutSubsequence(buf, s[..t.len], rest, tail);
      } else {
        var w := KeptOf(t.out);
        FlushMore(buf, w, tail);
        FlushSubsequence(buf + w, t.next, rest);
        SubsequenceGrow(Concat(Flush(buf + w, tail)), buf, w, s[..t.len], rest);
      }
    }
  }

  lemma CutSubsequence(buf: string, v: string, rest: string, tail: seq<Item>)
    requires Subsequence(Concat(Flush([], tail)), [] + rest)
    ensures Subsequence(Concat(Flush(buf, [Cut] + tail)), buf + (v + rest))
  {
    hide Subsequence;
    assert ([Cut] + tail)[1..] == tail && [] + rest == rest;
    TrimSubsequence(buf);
    assert Concat(Emit(buf)) == Trim(buf);
    ConcatAppend(Emit(buf), Flush([], tail));
    SubsequenceSkip(Concat(Flush([], tail)), v, rest);
    SubsequenceConcat(Trim(buf), buf, Concat(Flush([], tail)), v + rest);
  }

  lemma SubsequenceGrow(x: string, buf: string, w: string, v: string, rest: string)
    requires Subsequence(x, buf + w + rest) && (w == v || w == [])
    ensures Subsequence(x, buf + (v + rest))
  {
    if w == v {
      assert buf + w + rest == buf + (v + rest);
    } else {
      assert buf + w + rest == buf + rest;
      SubsequenceInsert(x, buf, v, rest);
    }
  }

  lemma {:induction false} SubsequenceInsert(x: string, a: string, v: string, b: string)
    requires Subsequence(x, a + b)
    ensures Subsequence(x, a + (v + b))
    decreases |a|
  {
    if a == [] {
      assert a + b == b && a + (v + b) == v + b;
      SubsequenceSkip(x, v, b);
    } else if x != [] {
      assert (a + b)[1..] == a[1..] + b;
      assert (a + (v + b))[1..] == a[1..] + (v + b);
      if x[0] == a[0] {
        SubsequenceInsert(x[1..], a[1..], v, b);
      } else {
        SubsequenceInsert(x, a[1..], v, b);
      }
    }
  }

  /** The statements, one after the other, are what is left of the script when characters are deleted. */
  lemma SplitIsSubsequence(script: string)
    ensures Subsequence(Concat(Split(script)), script)
  {
    FlushSubsequence([], Code, script);
    ScanRefinesLex(script);
    assert [] + script == script;
  }

  /* ---- Quoted runs survive ---- */

  lemma {:induction false} TrimLeftKeeps(p: string, w: string, q: string)
    requires w != [] && !IsSpace(w[0])
    ensures exists p' :: TrimLeft(p + w + q) == p' + w + q
  {
    var s := p + w + q;
    if p != [] && IsSpace(p[0]) {
      assert s[1..] == p[1..] + w + q;
      TrimLeftKeeps(p[1..], w, q);
    } else {
      assert TrimLeft(s) == p + w + q;
    }
  }

  lemma {:induction false} TrimRightKeeps(p: string, w: string, q: string)
    requires w != [] && !IsSpace(w[|w| - 1])
    ensures exists q' :: TrimRight(p + w + q) == p + w + q'
  {
    var s := p + w + q;
    if q != [] && IsSpace(q[|q| - 1]) {
      assert s[..|s| - 1] == p + w + q[..|q| - 1];
      TrimRightKeeps(p, w, q[..|q| - 1]);
    } else {
      assert q == [] ==> s[|s| - 1] == w[|w| - 1];
      assert TrimRight(s) == p + w + q;
    }
  }

  ghost predicate Solid(w: string) {
    w != [] && !IsSpace(w[0]) && !IsSpace(w[|w| - 1])
  }

  lemma TrimKeeps(s: string, w: string)
    requires Solid(w) && Occurs(w, s)
    ensures Occurs(w, Trim(s)) && Trim(s) != []
  {
    var p, q :| s == p + w + q;
    TrimLeftKeeps(p, w, q);
    var p' :| TrimLeft(s) == p' + w + q;
    TrimRightKeeps(p', w, q);
    var q' :| Trim(s) == p' + w + q';
  }

  lemma {:induction false} FlushKeepsRun(buf: string, items: seq<Item>, w: string)
    requires Solid(w) && Occurs(w, buf)
    ensures exists st :: st in Flush(buf, items) && Occurs(w, st)
    decreases |items|
  {
    TrimKeeps(buf, w);
    assert Trim(buf) in Emit(buf);
    if items != [] && items[0].Keep? {
      var p, q :| buf == p + w + q;
      assert buf + [items[0].c] == p + w + (q + [items[0].c]);
      FlushKeepsRun(buf + [items[0].c], items[1..], w);
    }
  }

  lemma {:induction false} FlushFindsRun(buf: string, x: seq<Item>, w: string, y: seq<Item>)
    requires Solid(w)
    ensures exists st :: st in Flush(buf, x + Keeps(w) + y) && Occurs(w, st)
    decreases |x|
  {
    var z := x + Keeps(w) + y;
    if x == [] {
      assert z == Keeps(w) + y;
      FlushMore(buf, w, y);
      assert buf + w == buf + w + [];
      FlushKeepsRun(buf + w, y, w);
    } else {
      assert z[0] == x[0] && z[1..] == x[1..] + Keeps(w) + y;
      match x[0]
      case Keep(c) => FlushFindsRun(buf + [c], x[1..], w, y);
      case Cut => FlushFindsRun([], x[1..], w, y);
    }
  }

  lemma {:induction false} RenderSplit(ts: seq<Token>, k: nat)
    requires k < |ts|
    ensures RenderAll(ts) == RenderAll(ts[..k]) + ts[k].Render() + RenderAll(ts[k + 1..])
  {
    if k == 0 {
      assert RenderAll(ts[..0]) == [];
    } else {
      RenderSplit(ts[1..], k - 1);
      assert ts[..k][1..] == ts[1..][..k - 1];
      assert ts[1..][k..] == ts[k + 1..];
    }
  }

  /** Every closed quoted run of the script, with its quotes, stands unchanged in some statement. */
  lemma QuotedRunsSurvive(script: string, t: Token)
    requires t in Lex(script) && t.Quoted? && t.closed
    ensures exists st :: st in Split(script) && Occurs(t.Source(), st)
  {
    var ts := Lex(script);
    var k :| 0 <= k < |ts| && ts[k] == t;
    LexIsLexing(script);
    OkAt(ts, k);
    RenderSplit(ts, k);
    FlushFindsRun([], RenderAll(ts[..k]), t.Source(), RenderAll(ts[k + 1..]));
  }

  lemma {:induction false} OkAt(ts: seq<Token>, k: nat)
    requires IsLexing(ts) && k < |ts|
    ensures OkToken(ts[k], Unlex(ts[k + 1..]))
  {
    if k > 0 {
      OkAt(ts[1..], k - 1);
      assert ts[1..][k..] == ts[k + 1..];
    }
  }
}
