/** SplitStatements: the one-pass scanner that cuts a SQL script into statements,
    and the lexical description its own comment gives, which it refines. */
module Scanner {
  import opened Text

  /** The scanner's five modes: its four flags are never set two at a time. */
  datatype Mode = Code | Single | Double | Line | Block

  /** What the scanner does to the statement buffer: write a character, or end the statement. */
  datatype Item = Keep(c: char) | Cut

  /** One turn of the scanning loop: characters consumed, mode afterwards, output. */
  datatype Turn = Turn(len: nat, next: Mode, out: seq<Item>)

  function Peek(s: string): char {
    if |s| > 1 then s[1] else '\0'
  }

  /** The loop body at the first character of `s`, branch by branch. */
  function Move(m: Mode, s: string): (t: Turn)
    requires s != []
    ensures 1 <= t.len <= |s|
  {
    var c, p := s[0], Peek(s);
    if m == Line then
      if c == '\n' then Turn(1, Code, [Keep(c)]) else Turn(1, Line, [])
    else if m == Block then
      if c == '*' && p == '/' then Turn(2, Code, []) else Turn(1, Block, [])
    else if m == Code && c == '-' && p == '-' then
      Turn(2, Line, [])
    else if m == Code && c == '/' && p == '*' then
      Turn(2, Block, [])
    else if c == '\'' && m != Double then
      if m == Single && p == '\'' then Turn(2, Single, [Keep(c), Keep(p)])
      else Turn(1, if m == Single then Code else Single, [Keep(c)])
    else if c == '"' && m != Single then
      Turn(1, if m == Double then Code else Double, [Keep(c)])
    else if c == '\\' && m != Code && |s| > 1 then
      Turn(2, m, [Keep(c), Keep(p)])
    else if c == ';' && m == Code then
      Turn(1, Code, [Cut])
    else
      Turn(1, m, [Keep(c)])
  }

  /** Everything the loop outputs from mode `m` on the rest `s` of the script. */
  function Scan(m: Mode, s: string): seq<Item>
    decreases |s|
  {
    if s == [] then [] else
      var t := Move(m, s);
      t.out + Scan(t.next, s[t.len..])
  }

  /** The mode in which the loop runs out of characters. */
  function End(m: Mode, s: string): Mode
    decreases |s|
  {
    if s == [] then m else
      var t := Move(m, s);
      End(t.next, s[t.len..])
  }

  function Emit(buf: string): seq<string> {
    var t := Trim(buf);
    if t == [] then [] else [t]
  }

  /** The statements written out when the items are played into a buffer holding `buf`. */
  function Flush(buf: string, items: seq<Item>): seq<string>
    decreases |items|
  {
    if items == [] then Emit(buf)
    else match items[0]
      case Keep(c) => Flush(buf + [c], items[1..])
      case Cut => Emit(buf) + Flush([], items[1..])
  }

  /* ---- The declarative reading: tokens ---- */

  /** A script is a sequence of tokens; the last one may be unterminated. */
  datatype Token =
    | Rune(c: char)
    | Quoted(quote: char, body: string, closed: bool)
    | LineComment(body: string, closed: bool)
    | BlockComment(body: string, closed: bool)
  {
    function Source(): string {
      match this
      case Rune(c) => [c]
      case Quoted(q, b, closed) => [q] + b + (if closed then [q] else [])
      case LineComment(b, closed) => "--" + b + (if closed then "\n" else "")
      case BlockComment(b, closed) => "/*" + b + (if closed then "*/" else "")
    }

    /** Comments vanish, except for the newline that ends a line comment. */
    function Render(): seq<Item> {
      match this
      case Rune(c) => if c == ';' then [Cut] else [Keep(c)]
      case Quoted(_, _, _) => Keeps(Source())
      case LineComment(_, closed) => if closed then [Keep('\n')] else []
      case BlockComment(_, _) => []
    }

    predicate Closed() {
      match this
      case Rune(_) => true
      case Quoted(_, _, closed) => closed
      case LineComment(_, closed) => closed
      case BlockComment(_, closed) => closed
    }
  }

  function Keeps(s: string): (items: seq<Item>)
    ensures |items| == |s|
  {
    seq(|s|, i requires 0 <= i < |s| => Keep(s[i]))
  }

  /** Length of the quoted body at the front of `s`: up to the quote that closes it, else all of `s`.
      A backslash protects the next character; inside single quotes a doubled quote stays inside. */
  function QuoteLen(q: char, s: string): (n: nat)
    ensures n <= |s|
  {
    if s == [] then 0
    else if s[0] == q then
      if q == '\'' && Peek(s) == q then 2 + QuoteLen(q, s[2..]) else 0
    else if s[0] == '\\' && |s| > 1 then 2 + QuoteLen(q, s[2..])
    else 1 + QuoteLen(q, s[1..])
  }

  function LineLen(s: string): (n: nat)
    ensures n <= |s|
  {
    if s == [] || s[0] == '\n' then 0 else 1 + LineLen(s[1..])
  }

  function BlockLen(s: string): (n: nat)
    ensures n <= |s|
  {
    if s == [] || (s[0] == '*' && Peek(s) == '/') then 0 else 1 + BlockLen(s[1..])
  }

  function LineToken(s: string): (t: Token)
    ensures t.Source() <= "--" + s
  {
    var n := LineLen(s);
    if n < |s| then
      LineLenStop(s);
      assert s[..n + 1] == s[..n] + "\n";
      assert ("--" + s)[..n + 3] == "--" + s[..n] + "\n";
      LineComment(s[..n], true)
    else
      LineComment(s, false)
  }

  function BlockToken(s: string): (t: Token)
    ensures t.Source() <= "/*" + s
  {
    var n := BlockLen(s);
    if n < |s| then
      BlockLenStop(s);
      assert s[..n + 2] == s[..n] + "*/";
      assert ("/*" + s)[..n + 4] == "/*" + s[..n] + "*/";
      BlockComment(s[..n], true)
    else
      BlockComment(s, false)
  }

  function QuoteToken(q: char, s: string): (t: Token)
    ensures t.Source() <= [q] + s
  {
    var n := QuoteLen(q, s);
    if n < |s| then
      QuoteLenStop(q, s);
      assert s[..n + 1] == s[..n] + [q];
      assert ([q] + s)[..n + 2] == [q] + s[..n] + [q];
      Quoted(q, s[..n], true)
    else
      Quoted(q, s, false)
  }

  /** The token at the front of a nonempty script: always a nonempty prefix of it. */
  function FirstToken(s: string): (t: Token)
    requires s != []
    ensures t.Source() != "" && t.Source() <= s
  {
    if s[0] == '-' && Peek(s) == '-' then
      assert s == "--" + s[2..];
      LineToken(s[2..])
    else if s[0] == '/' && Peek(s) == '*' then
      assert s == "/*" + s[2..];
      BlockToken(s[2..])
    else if s[0] == '\'' || s[0] == '"' then
      assert s == [s[0]] + s[1..];
      QuoteToken(s[0], s[1..])
    else Rune(s[0])
  }

  function Lex(s: string): seq<Token>
    decreases |s|
  {
    if s == [] then [] else
      var t := FirstToken(s);
      [t] + Lex(s[|t.Source()|..])
  }

  function Unlex(ts: seq<Token>): string {
    if ts == [] then "" else ts[0].Source() + Unlex(ts[1..])
  }

  function RenderAll(ts: seq<Token>): seq<Item> {
    if ts == [] then [] else ts[0].Render() + RenderAll(ts[1..])
  }

  /** The specification: lex, drop the comments, cut at semicolons in code, trim, discard empties. */
  function Split(script: string): seq<string> {
    Flush([], RenderAll(Lex(script)))
  }

  lemma {:induction false} LineLenStop(s: string)
    requires LineLen(s) < |s|
    ensures s[LineLen(s)] == '\n'
  {
    if s[0] != '\n' { LineLenStop(s[1..]); }
  }

  lemma {:induction false} BlockLenStop(s: string)
    requires BlockLen(s) < |s|
    ensures BlockLen(s) + 1 < |s| && s[BlockLen(s)] == '*' && s[BlockLen(s) + 1] == '/'
  {
    if !(s[0] == '*' && Peek(s) == '/') { BlockLenStop(s[1..]); }
  }

  lemma {:induction false} QuoteLenStop(q: char, s: string)
    requires QuoteLen(q, s) < |s|
    ensures s[QuoteLen(q, s)] == q
    ensures q == '\'' && QuoteLen(q, s) + 1 < |s| ==> s[QuoteLen(q, s) + 1] != q
  {
    if s[0] == q {
      if q == '\'' && Peek(s) == q { QuoteLenStop(q, s[2..]); }
    } else if s[0] == '\\' && |s| > 1 {
      QuoteLenStop(q, s[2..]);
    } else {
      QuoteLenStop(q, s[1..]);
    }
  }

  /* ---- The loop and the tokens agree ---- */

  lemma {:induction false} ScanLine(s: string)
    ensures var n := LineLen(s);
            Scan(Line, s) == if n < |s| then [Keep('\n')] + Scan(Code, s[n + 1..]) else []
    ensures var n := LineLen(s); End(Line, s) == if n < |s| then End(Code, s[n + 1..]) else Line
  {
    if s != [] && s[0] != '\n' {
      ScanLine(s[1..]);
    }
  }

  lemma {:induction false} ScanBlock(s: string)
    ensures BlockLen(s) < |s| ==>
              && BlockLen(s) + 2 <= |s|
              && Scan(Block, s) == Scan(Code, s[BlockLen(s) + 2..])
              && End(Block, s) == End(Code, s[BlockLen(s) + 2..])
    ensures BlockLen(s) == |s| ==> Scan(Block, s) == [] && End(Block, s) == Block
  {
    if s != [] && !(s[0] == '*' && Peek(s) == '/') {
      ScanBlock(s[1..]);
    }
  }

  lemma KeepsAppend(a: string, b: string)
    ensures Keeps(a + b) == Keeps(a) + Keeps(b)
  {
  }

  function InQuote(q: char): Mode {
    if q == '\'' then Single else Double
  }

  /** Inside quotes a turn that does not close the quote writes what it reads. */
  lemma ScanInside(q: char, s: string) returns (k: nat)
    requires q == '\'' || q == '"'
    requires s != [] && QuoteLen(q, s) > 0
    ensures 1 <= k <= |s| && QuoteLen(q, s) == k + QuoteLen(q, s[k..])
    ensures Scan(InQuote(q), s) == Keeps(s[..k]) + Scan(InQuote(q), s[k..])
    ensures End(InQuote(q), s) == End(InQuote(q), s[k..])
  {
    k := if s[0] == q || (s[0] == '\\' && |s| > 1) then 2 else 1;
    var t := Move(InQuote(q), s);
    assert t.out == Keeps(s[..k]) && t.len == k && t.next == InQuote(q);
  }

  lemma ScanClosing(q: char, s: string)
    requires q == '\'' || q == '"'
    requires s != [] && QuoteLen(q, s) == 0
    ensures Scan(InQuote(q), s) == Keeps(s[..1]) + Scan(Code, s[1..]) && End(InQuote(q), s) == End(Code, s[1..])
  {
    var t := Move(InQuote(q), s);
    assert t == Turn(1, Code, [Keep(q)]);
    assert Keeps(s[..1]) == [Keep(q)];
  }

  lemma {:induction false} ScanQuote(q: char, s: string)
    requires q == '\'' || q == '"'
    ensures var n := QuoteLen(q, s);
            Scan(InQuote(q), s) == if n < |s| then Keeps(s[..n + 1]) + Scan(Code, s[n + 1..]) else Keeps(s)
    ensures var n := QuoteLen(q, s); End(InQuote(q), s) == if n < |s| then End(Code, s[n + 1..]) else InQuote(q)
    decreases |s|, 1
  {
    var n := QuoteLen(q, s);
    if s != [] && n == 0 {
      ScanClosing(q, s);
    } else if s != [] {
      ScanQuoteStep(q, s);
    }
  }

  lemma {:induction false} ScanQuoteStep(q: char, s: string)
    requires q == '\'' || q == '"'
    requires s != [] && QuoteLen(q, s) > 0
    ensures var n := QuoteLen(q, s);
            Scan(InQuote(q), s) == if n < |s| then Keeps(s[..n + 1]) + Scan(Code, s[n + 1..]) else Keeps(s)
    ensures var n := QuoteLen(q, s); End(InQuote(q), s) == if n < |s| then End(Code, s[n + 1..]) else InQuote(q)
    decreases |s|, 0
  {
    hide Scan, End, Move, QuoteLen, Keeps;
    var k := ScanInside(q, s);
    ScanQuote(q, s[k..]);
    ScanQuoteJoin(q, s, k);
  }

  lemma ScanQuoteJoin(q: char, s: string, k: nat)
    requires 1 <= k <= |s| && QuoteLen(q, s) == k + QuoteLen(q, s[k..])
    ensures Keeps(s[..k]) + Keeps(s[k..]) == Keeps(s)
    ensures var n := QuoteLen(q, s); n < |s| ==>
              && Keeps(s[..k]) + Keeps(s[k..][..n - k + 1]) == Keeps(s[..n + 1])
              && s[k..][n - k + 1..] == s[n + 1..]
  {
    hide QuoteLen;
  }

  lemma QuoteTokenRenders(q: char, r: string)
    ensures var n, t := QuoteLen(q, r), QuoteToken(q, r);
            if n < |r| then t.Render() == [Keep(q)] + Keeps(r[..n + 1]) && |t.Source()| == n + 2
            else t.Render() == [Keep(q)] + Keeps(r) && |t.Source()| == n + 1
  {
    QuoteTokenSource(q, r);
    var body := if QuoteLen(q, r) < |r| then r[..QuoteLen(q, r) + 1] else r;
    KeepsAppend([q], body);
    assert Keeps([q]) == [Keep(q)];
    hide QuoteLen, Keeps;
  }

  lemma QuoteTokenSource(q: char, r: string)
    ensures var n, t := QuoteLen(q, r), QuoteToken(q, r);
            t.Quoted? && t.Source() == [q] + if n < |r| then r[..n + 1] else r
  {
    hide QuoteLen;
    var n := QuoteLen(q, r);
    if n < |r| {
      QuoteLenStop(q, r);
      TakeOneMore(r, n);
      GlueQuote(q, r[..n]);
    } else {
      GlueQuote(q, r);
    }
  }

  lemma TakeOneMore(r: string, n: nat)
    requires n < |r|
    ensures r[..n + 1] == r[..n] + [r[n]]
  {
  }

  lemma GlueQuote(q: char, b: string)
    ensures [q] + b + [q] == [q] + (b + [q]) && [q] + b + [] == [q] + b
  {
  }

  lemma ScanOpenQuote(q: char, s: string)
    requires s != [] && s[0] == q && (q == '\'' || q == '"')
    ensures Scan(Code, s) == [Keep(q)] + Scan(InQuote(q), s[1..])
    ensures End(Code, s) == End(InQuote(q), s[1..])
    ensures FirstToken(s) == QuoteToken(q, s[1..])
  {
    assert Move(Code, s) == Turn(1, InQuote(q), [Keep(q)]);
  }

  lemma ScanFirstQuoted(s: string)
    requires s != [] && (s[0] == '\'' || s[0] == '"')
    ensures var t := FirstToken(s); Scan(Code, s) == t.Render() + Scan(Code, s[|t.Source()|..])
  {
    var q, r := s[0], s[1..];
    ScanOpenQuote(q, s);
    hide Scan, Move, FirstToken, QuoteToken;
    ScanQuote(q, r);
    QuoteTokenRenders(q, r);
    var n, t := QuoteLen(q, r), FirstToken(s);
    hide QuoteLen;
    if n < |r| {
      assert s[n + 2..] == r[n + 1..];
      ConcatAssoc([Keep(q)], Keeps(r[..n + 1]), Scan(Code, r[n + 1..]));
    } else {
      assert s[n + 1..] == [];
      ScanNothing();
      assert t.Render() + [] == t.Render();
    }
  }

  lemma ConcatAssoc<T>(a: seq<T>, b: seq<T>, c: seq<T>)
    ensures a + (b + c) == (a + b) + c
  {
  }

  lemma ScanNothing()
    ensures Scan(Code, []) == []
  {
  }

  lemma ScanOpenLine(s: string)
    requires |s| > 1 && s[0] == s[1] == '-'
    ensures Scan(Code, s) == Scan(Line, s[2..]) && End(Code, s) == End(Line, s[2..])
  {
    assert Move(Code, s) == Turn(2, Line, []);
  }

  lemma ScanOpenBlock(s: string)
    requires |s| > 1 && s[0] == '/' && s[1] == '*'
    ensures Scan(Code, s) == Scan(Block, s[2..]) && End(Code, s) == End(Block, s[2..])
  {
    assert Move(Code, s) == Turn(2, Block, []);
  }

  lemma CommentTokenLen(r: string)
    ensures |LineToken(r).Source()| == if LineLen(r) < |r| then LineLen(r) + 3 else LineLen(r) + 2
    ensures |BlockToken(r).Source()| == if BlockLen(r) < |r| then BlockLen(r) + 4 else BlockLen(r) + 2
    ensures LineToken(r).Render() == if LineLen(r) < |r| then [Keep('\n')] else []
    ensures BlockToken(r).Render() == []
    ensures BlockLen(r) < |r| ==> BlockLen(r) + 2 <= |r|
  {
  }

  lemma ScanFirstLine(s: string)
    requires |s| > 1 && s[0] == s[1] == '-'
    ensures var t := FirstToken(s); Scan(Code, s) == t.Render() + Scan(Code, s[|t.Source()|..])
  {
    var r := s[2..];
    assert FirstToken(s) == LineToken(r);
    ScanOpenLine(s);
    CommentTokenLen(r);
    ScanLine(r);
    ScanNothing();
    hide *;
    var n := LineLen(r);
    assert n < |r| ==> r[n + 1..] == s[n + 3..];
    assert n == |r| ==> s[n + 2..] == [];
  }

  lemma ScanFirstBlock(s: string)
    requires |s| > 1 && s[0] == '/' && s[1] == '*'
    ensures var t := FirstToken(s); Scan(Code, s) == t.Render() + Scan(Code, s[|t.Source()|..])
  {
    var r := s[2..];
    assert FirstToken(s) == BlockToken(r);
    ScanOpenBlock(s);
    CommentTokenLen(r);
    ScanBlock(r);
    ScanNothing();
    hide *;
    var n := BlockLen(r);
    assert n < |r| ==> r[n + 2..] == s[n + 4..];
    assert n == |r| ==> s[n + 2..] == [];
  }

  lemma ScanFirst(s: string)
    requires s != []
    ensures var t := FirstToken(s); Scan(Code, s) == t.Render() + Scan(Code, s[|t.Source()|..])
  {
    if s[0] == '\'' || s[0] == '"' {
      ScanFirstQuoted(s);
    } else if s[0] == '-' && Peek(s) == '-' {
      ScanFirstLine(s);
    } else if s[0] == '/' && Peek(s) == '*' {
      ScanFirstBlock(s);
    }
  }

  /** The five-mode loop outputs exactly what the token reading says, on every script. */
  lemma {:induction false} ScanRefinesLex(s: string)
    ensures Scan(Code, s) == RenderAll(Lex(s))
    decreases |s|
  {
    if s != [] {
      hide Scan, FirstToken;
      ScanFirst(s);
      ScanRefinesLex(s[|FirstToken(s).Source()|..]);
    }
  }

  /** The statements and the buffer after one turn's output. */
  function Play(stmts: seq<string>, cur: string, out: seq<Item>): (seq<string>, string)
    decreases |out|
  {
    if out == [] then (stmts, cur)
    else match out[0]
      case Cut => Play(stmts + Emit(cur), "", out[1..])
      case Keep(c) => Play(stmts, cur + [c], out[1..])
  }

  lemma {:induction false} PlayFlushes(stmts: seq<string>, cur: string, out: seq<Item>, tail: seq<Item>)
    ensures var (stmts', cur') := Play(stmts, cur, out);
            stmts + Flush(cur, out + tail) == stmts' + Flush(cur', tail)
    decreases |out|
  {
    if out == [] {
      assert out + tail == tail;
    } else {
      assert (out + tail)[0] == out[0] && (out + tail)[1..] == out[1..] + tail;
      match out[0]
      case Cut =>
        PlayFlushes(stmts + Emit(cur), "", out[1..], tail);
        ConcatAssoc(stmts, Emit(cur), Flush([], out[1..] + tail));
      case Keep(c) =>
        PlayFlushes(stmts, cur + [c], out[1..], tail);
    }
  }

  ghost predicate Flags(m: Mode, inSingle: bool, inDouble: bool, inLine: bool, inBlock: bool) {
    inSingle == (m == Single) && inDouble == (m == Double) && inLine == (m == Line) && inBlock == (m == Block)
  }

  /** What is written so far together with what the rest of the script still writes. */
  ghost function Outcome(stmts: seq<string>, cur: string, m: Mode, rest: string): seq<string> {
    stmts + Flush(cur, Scan(m, rest))
  }

  /** The loop's variables after one turn from `(stmts, cur)` in mode `m` at the text `rest`. */
  ghost predicate TurnTaken(m: Mode, rest: string, stmts: seq<string>, cur: string,
                            k: nat, m': Mode, stmts': seq<string>, cur': string)
    requires rest != []
  {
    var t := Move(m, rest);
    k == t.len && m' == t.next && (stmts', cur') == Play(stmts, cur, t.out)
  }

  lemma TurnKeepsOutcome(m: Mode, rest: string, stmts: seq<string>, cur: string,
                         k: nat, m': Mode, stmts': seq<string>, cur': string)
    requires rest != [] && TurnTaken(m, rest, stmts, cur, k, m', stmts', cur')
    ensures k <= |rest| && Outcome(stmts, cur, m, rest) == Outcome(stmts', cur', m', rest[k..])
  {
    var t := Move(m, rest);
    hide Move;
    PlayFlushes(stmts, cur, t.out, Scan(m', rest[k..]));
  }

  lemma PlayTwo(stmts: seq<string>, cur: string, c: char, d: char)
    ensures Play(stmts, cur, [Keep(c), Keep(d)]) == (stmts, cur + [c] + [d])
  {
    assert [Keep(c), Keep(d)][1..] == [Keep(d)];
    assert Play(stmts, cur + [c], [Keep(d)]) == (stmts, cur + [c] + [d]);
  }

  /** The loop body of SplitStatements as written, at a character `c` followed by `peek`. */
  method ScanOne(script: string, i: nat, ghost m: Mode, stmts: seq<string>, cur: string,
                 inSingle: bool, inDouble: bool, inLine: bool, inBlock: bool)
    returns (i': nat, ghost m': Mode, stmts': seq<string>, cur': string,
             inSingle': bool, inDouble': bool, inLine': bool, inBlock': bool)
    requires i < |script| && Flags(m, inSingle, inDouble, inLine, inBlock)
    ensures i < i' <= |script| && Flags(m', inSingle', inDouble', inLine', inBlock')
    ensures TurnTaken(m, script[i..], stmts, cur, i' - i, m', stmts', cur')
  {
    i', stmts', cur' := i + 1, stmts, cur;
    inSingle', inDouble', inLine', inBlock' := inSingle, inDouble, inLine, inBlock;
    var c := script[i];
    var peek := if i + 1 < |script| then script[i + 1] else '\0';
    ghost var rest := script[i..];
    assert rest[0] == c && Peek(rest) == peek && (|rest| > 1 <==> i + 1 < |script|);
    m' := Move(m, rest).next;
    if inLine {
      if c == '\n' {
        inLine' := false;
        cur' := cur + [c];
      }
      return;
    }
    if inBlock {
      if c == '*' && peek == '/' {
        inBlock' := false;
        i' := i + 2;
      }
      return;
    }
    if !inSingle && !inDouble {
      if c == '-' && peek == '-' {
        inLine' := true;
        i' := i + 2;
        return;
      }
      if c == '/' && peek == '*' {
        inBlock' := true;
        i' := i + 2;
        return;
      }
    }
    if c == '\'' && !inDouble {
      if inSingle && peek == '\'' {
        cur' := cur + [c] + [script[i + 1]];
        i' := i + 2;
        PlayTwo(stmts, cur, c, peek);
        return;
      }
      inSingle' := !inSingle;
    } else if c == '"' && !inSingle {
      inDouble' := !inDouble;
    } else if c == '\\' && (inSingle || inDouble) && i + 1 < |script| {
      cur' := cur + [c] + [script[i + 1]];
      i' := i + 2;
      PlayTwo(stmts, cur, c, peek);
      assert Move(m, rest).out == [Keep(c), Keep(peek)];
      return;
    }
    if c == ';' && !inSingle' && !inDouble' {
      var stmt := Trim(cur);
      if stmt != "" {
        stmts' := stmts + [stmt];
      }
      cur' := "";
      assert stmts' == stmts + Emit(cur);
      return;
    }
    cur' := cur + [c];
  }

  /** SplitStatements: four flags, an index advanced by the loop body, and a buffer. */
  method SplitStatements(script: string) returns (stmts: seq<string>)
    ensures stmts == Split(script)
  {
    stmts := [];
    var cur := "";
    var inSingle, inDouble, inLine, inBlock := false, false, false, false;
    var i := 0;
    ghost var m := Code;
    ScanRefinesLex(script);
    assert script[0..] == script;
    while i < |script|
      invariant 0 <= i <= |script|
      invariant Flags(m, inSingle, inDouble, inLine, inBlock)
      invariant Outcome(stmts, cur, m, script[i..]) == Split(script)
    {
      hide *;
      ghost var i0, m0, stmts0, cur0 := i, m, stmts, cur;
      i, m, stmts, cur, inSingle, inDouble, inLine, inBlock :=
        ScanOne(script, i, m, stmts, cur, inSingle, inDouble, inLine, inBlock);
      TurnKeepsOutcome(m0, script[i0..], stmts0, cur0, i - i0, m, stmts, cur);
      assert script[i0..][i - i0..] == script[i..];
    }
    var stmt := Trim(cur);
    if stmt != "" {
      stmts := stmts + [stmt];
    }
  }
}
