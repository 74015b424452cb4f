/** The token reading of a script: every script has one, and only one. */
module ScanLaws {
  import opened Scanner

  /* ---- The token reading is unique ---- */

  /** A body that an opening quote `q` has not yet been closed by: plain characters, backslash
      pairs and, inside single quotes, doubled quotes. */
  ghost predicate Body(q: char, b: string) {
    b == [] ||
    (if b[0] == '\\' then |b| > 1 && Body(q, b[2..])
     else if b[0] == q then q == '\'' && |b| > 1 && b[1] == q && Body(q, b[2..])
     else Body(q, b[1..]))
  }

  ghost predicate StartsWith(s: string, c: char) {
    s != [] && s[0] == c
  }

  /** `t` is a token when the text after it is `next`. */
  ghost predicate OkToken(t: Token, next: string) {
    match t
    case Rune(c) =>
      c != '\'' && c != '"' && !(c == '-' && StartsWith(next, '-')) && !(c == '/' && StartsWith(next, '*'))
    case Quoted(q, b, true) => (q == '\'' || q == '"') && Body(q, b) && !(q == '\'' && StartsWith(next, q))
    case Quoted(q, b, false) =>
      (q == '\'' || q == '"') && next == [] && (Body(q, b) || (b != [] && b[|b| - 1] == '\\' && Body(q, b[..|b| - 1])))
    case LineComment(b, closed) => '\n' !in b && (closed || next == [])
    case BlockComment(b, closed) => BlockLen(b + (if closed then "*/" else "")) == |b| && (closed || next == [])
  }

  ghost predicate IsLexing(ts: seq<Token>) {
    ts == [] || (OkToken(ts[0], Unlex(ts[1..])) && IsLexing(ts[1..]))
  }

  lemma ConsLexing(t: Token, ts: seq<Token>)
    requires OkToken(t, Unlex(ts)) && IsLexing(ts)
    ensures IsLexing([t] + ts) && Unlex([t] + ts) == t.Source() + Unlex(ts)
  {
    assert ([t] + ts)[1..] == ts;
  }

  lemma {:induction false} QuoteLenBody(q: char, s: string)
    ensures Body(q, s[..QuoteLen(q, s)])
            || (QuoteLen(q, s) == |s| > 0 && s[|s| - 1] == '\\' && Body(q, s[..|s| - 1]))
    ensures QuoteLen(q, s) < |s| ==> Body(q, s[..QuoteLen(q, s)])
    decreases |s|
  {
    var n := QuoteLen(q, s);
    if s != [] && n > 0 {
      var k := if (s[0] == q && q == '\'') || (s[0] == '\\' && |s| > 1) then 2 else 1;
      QuoteLenBody(q, s[k..]);
      assert s[..n][k..] == s[k..][..n - k];
      if s[0] == '\\' && |s| == 1 {
        assert s[..|s| - 1] == [];
      } else if |s| > k {
        assert s[..|s| - 1][k..] == s[k..][..|s| - 1 - k];
      }
    } else {
      assert s[..n] == [];
    }
  }

  lemma {:induction false} BodyQuoteLen(q: char, b: string, rest: string)
    requires q == '\'' || q == '"'
    requires Body(q, b)
    requires rest == [] || rest == "\\" || (rest[0] == q && !(q == '\'' && |rest| > 1 && rest[1] == q))
    ensures QuoteLen(q, b + rest) == |b| + (if rest == "\\" then 1 else 0)
    decreases |b|
  {
    var s := b + rest;
    if b == [] {
      assert s == rest;
    } else {
      var k := if b[0] == '\\' || b[0] == q then 2 else 1;
      assert s[k..] == b[k..] + rest;
      assert k == 2 ==> Peek(s) == b[1];
      BodyQuoteLen(q, b[k..], rest);
    }
  }

  lemma {:induction false} LineLenBody(s: string)
    ensures '\n' !in s[..LineLen(s)]
  {
    if s != [] && s[0] != '\n' {
      LineLenBody(s[1..]);
      assert s[..LineLen(s)] == [s[0]] + s[1..][..LineLen(s[1..])];
    }
  }

  lemma {:induction false} BodyLineLen(b: string, rest: string)
    requires '\n' !in b && (rest == [] || rest[0] == '\n')
    ensures LineLen(b + rest) == |b|
  {
    if b == [] {
      assert b + rest == rest;
    } else {
      assert (b + rest)[1..] == b[1..] + rest;
      BodyLineLen(b[1..], rest);
    }
  }

  lemma BlockLenPrefix(s: string)
    ensures var n := BlockLen(s); n < |s| ==> n + 2 <= |s| && BlockLen(s[..n] + "*/") == n
  {
    var n := BlockLen(s);
    if n < |s| {
      BlockLenStop(s);
      BlockLenCut(s, n + 2);
      EndsInTwo(s, n, '*', '/');
    }
  }

  lemma EndsInTwo(s: string, n: nat, c: char, d: char)
    requires n + 1 < |s| && s[n] == c && s[n + 1] == d
    ensures s[..n + 2] == s[..n] + [c, d]
  {
  }

  /** Text after the closing mark does not matter. */
  lemma {:induction false} BlockLenCut(s: string, k: nat)
    requires BlockLen(s) + 2 <= k <= |s|
    ensures BlockLen(s[..k]) == BlockLen(s)
  {
    if !(s[0] == '*' && Peek(s) == '/') {
      BlockLenCut(s[1..], k - 1);
      assert s[..k][1..] == s[1..][..k - 1];
      assert Peek(s[..k]) == Peek(s);
    }
  }

  lemma {:induction false} BlockLenExtend(s: string, more: string)
    requires BlockLen(s) < |s|
    ensures BlockLen(s + more) == BlockLen(s)
  {
    BlockLenStop(s);
    if !(s[0] == '*' && Peek(s) == '/') {
      BlockLenExtend(s[1..], more);
      assert (s + more)[1..] == s[1..] + more;
    }
  }

  lemma FirstTokenOk(s: string)
    requires s != []
    ensures OkToken(FirstToken(s), s[|FirstToken(s).Source()|..])
  {
    if s[0] == '-' && Peek(s) == '-' {
      LineLenBody(s[2..]);
      assert LineLen(s[2..]) == |s[2..]| ==> s[2..][..|s[2..]|] == s[2..];
    } else if s[0] == '/' && Peek(s) == '*' {
      BlockLenPrefix(s[2..]);
      assert s[2..] + "" == s[2..];
    } else if s[0] == '\'' || s[0] == '"' {
      QuotedFirstOk(s[0], s[1..]);
    }
  }

  lemma QuotedFirstOk(q: char, r: string)
    requires q == '\'' || q == '"'
    ensures |QuoteToken(q, r).Source()| <= |r| + 1
    ensures OkToken(QuoteToken(q, r), ([q] + r)[|QuoteToken(q, r).Source()|..])
  {
    QuoteLenBody(q, r);
    var n := QuoteLen(q, r);
    if n < |r| {
      QuoteLenStop(q, r);
      assert ([q] + r)[n + 2..] == r[n + 1..];
    } else {
      assert r[..n] == r;
    }
  }

  /** Every script is the concatenation of its tokens, and they are well formed. */
  lemma {:induction false} LexIsLexing(s: string)
    ensures Unlex(Lex(s)) == s && IsLexing(Lex(s))
    decreases |s|
  {
    if s != [] {
      var t := FirstToken(s);
      FirstTokenOk(s);
      LexIsLexing(s[|t.Source()|..]);
      assert Lex(s)[1..] == Lex(s[|t.Source()|..]);
    }
  }

  /** Which reading the first two characters select. */
  lemma FirstTokenIs(s: string)
    requires s != []
    ensures s[0] == '-' && Peek(s) == '-' ==> FirstToken(s) == LineToken(s[2..])
    ensures s[0] == '/' && Peek(s) == '*' ==> FirstToken(s) == BlockToken(s[2..])
    ensures s[0] == '\'' || s[0] == '"' ==> FirstToken(s) == QuoteToken(s[0], s[1..])
  {
    hide LineToken, BlockToken, QuoteToken;
  }

  lemma QuoteTokenUnique(q: char, b: string, closed: bool, next: string)
    requires OkToken(Quoted(q, b, closed), next)
    ensures QuoteToken(q, b + (if closed then [q] else []) + next) == Quoted(q, b, closed)
  {
    var r := b + (if closed then [q] else []) + next;
    if closed {
      assert r == b + ([q] + next);
      BodyQuoteLen(q, b, [q] + next);
    } else if Body(q, b) {
      assert r == b + [];
      BodyQuoteLen(q, b, []);
    } else {
      assert r == b[..|b| - 1] + "\\";
      BodyQuoteLen(q, b[..|b| - 1], "\\");
    }
  }

  lemma LineTokenUnique(b: string, closed: bool, next: string)
    requires OkToken(LineComment(b, closed), next)
    ensures LineToken(b + (if closed then "\n" else "") + next) == LineComment(b, closed)
  {
    var tail := (if closed then "\n" else "") + next;
    assert b + (if closed then "\n" else "") + next == b + tail;
    BodyLineLen(b, tail);
  }

  lemma BlockTokenUnique(b: string, closed: bool, next: string)
    requires OkToken(BlockComment(b, closed), next)
    ensures BlockToken(b + (if closed then "*/" else "") + next) == BlockComment(b, closed)
  {
    if closed {
      BlockLenExtend(b + "*/", next);
    } else {
      assert b + "" + next == b + "" == b;
    }
  }

  lemma AfterQuote(q: char, b: string, tail: string, next: string)
    ensures var s := [q] + b + tail + next; s != [] && s[0] == q && s[1..] == b + tail + next
  {
  }

  lemma QuotedUnique(q: char, b: string, closed: bool, next: string)
    requires OkToken(Quoted(q, b, closed), next)
    ensures FirstToken(Quoted(q, b, closed).Source() + next) == Quoted(q, b, closed)
  {
    var s := Quoted(q, b, closed).Source() + next;
    QuoteTokenUnique(q, b, closed, next);
    FirstTokenIs(s);
    AfterQuote(q, b, if closed then [q] else [], next);
    assert s == [q] + b + (if closed then [q] else []) + next;
    hide *;
  }

  lemma AfterOpener(c: char, d: char, b: string, tail: string, next: string)
    ensures var s := [c, d] + b + tail + next;
            s != [] && s[0] == c && Peek(s) == d && s[2..] == b + tail + next
  {
  }

  lemma LineUnique(b: string, closed: bool, next: string)
    requires OkToken(LineComment(b, closed), next)
    ensures FirstToken(LineComment(b, closed).Source() + next) == LineComment(b, closed)
  {
    var s := LineComment(b, closed).Source() + next;
    LineTokenUnique(b, closed, next);
    AfterOpener('-', '-', b, if closed then "\n" else "", next);
    assert s == ['-', '-'] + b + (if closed then "\n" else "") + next;
    FirstTokenIs(s);
    hide *;
  }

  lemma BlockUnique(b: string, closed: bool, next: string)
    requires OkToken(BlockComment(b, closed), next)
    ensures FirstToken(BlockComment(b, closed).Source() + next) == BlockComment(b, closed)
  {
    var s := BlockComment(b, closed).Source() + next;
    BlockTokenUnique(b, closed, next);
    AfterOpener('/', '*', b, if closed then "*/" else "", next);
    assert s == ['/', '*'] + b + (if closed then "*/" else "") + next;
    FirstTokenIs(s);
    hide *;
  }

  lemma RuneUnique(c: char, next: string)
    requires OkToken(Rune(c), next)
    ensures FirstToken([c] + next) == Rune(c)
  {
    hide LineToken, BlockToken, QuoteToken;
    assert ([c] + next)[1..] == next;
  }

  lemma FirstTokenUnique(t: Token, next: string)
    requires OkToken(t, next)
    ensures FirstToken(t.Source() + next) == t
  {
    hide OkToken, FirstToken;
    match t
    case Rune(c) => RuneUnique(c, next);
    case Quoted(q, b, closed) => QuotedUnique(q, b, closed, next);
    case LineComment(b, closed) => LineUnique(b, closed, next);
    case BlockComment(b, closed) => BlockUnique(b, closed, next);
  }

  /** No other well-formed token list has the same text: Lex is the reading of the script. */
  lemma {:induction false} LexUnique(ts: seq<Token>)
    requires IsLexing(ts)
    ensures Lex(Unlex(ts)) == ts
  {
    if ts != [] {
      var next := Unlex(ts[1..]);
      FirstTokenUnique(ts[0], next);
      LexUnique(ts[1..]);
      assert Unlex(ts) != [];
      assert Unlex(ts)[|ts[0].Source()|..] == next;
    }
  }
}
