/** The preview of an UPDATE: exactly when the derived queries are about the rows it changes. */
module UpdatePreview {
  import opened Text
  import opened RowText
  import opened Statements
  import opened Preview
  import T = AccountText

  // ---- More about following a text ------------------------------------------------------------------

  predicate Marked(x: Ctx) {
    x.Quoted? || x.Escaped? ==> QuoteMark(x.q)
  }

  lemma {:induction false} EndMarked(x: Ctx, s: string)
    requires Marked(x)
    ensures Marked(End(x, s))
    decreases |s|
  {
    if s != "" { EndMarked(Step(x, s[0]), s[1..]); }
  }

  lemma {:induction false} EndLast(x: Ctx, s: string)
    requires s != ""
    ensures End(x, s).Code? ==> End(x, s).last == s[|s| - 1]
    decreases |s|
  {
    if |s| == 1 {
      assert s[1..] == "";
    } else {
      EndLast(Step(x, s[0]), s[1..]);
    }
  }

  lemma {:induction false} WordIsHere(x: Ctx, s: string, w: string)
    requires Word(x, s, w).Some?
    ensures var k := Word(x, s, w).value; Here(End(x, s[..k]), s[k..], w)
    decreases |s|
  {
    var k := Word(x, s, w).value;
    if Here(x, s, w) {
      assert s[..0] == "" && s[0..] == s;
    } else {
      WordIsHere(Step(x, s[0]), s[1..], w);
      assert s[..k][1..] == s[1..][..k - 1] && s[k..] == s[1..][k - 1..] && s[..k][0] == s[0];
    }
  }

  /** A stretch in which the word cannot start only moves it. */
  lemma {:induction false} WordSkip(x: Ctx, a: string, b: string, w: string)
    requires Letters(w) && forall i :: 0 <= i < |a| ==> AsciiUpper(a[i]) != w[0]
    ensures Word(x, a + b, w) == match Word(End(x, a), b, w) case None => None case Some(k) => Some(|a| + k)
    decreases |a|
  {
    if a == "" {
      assert a + b == b;
    } else {
      assert (a + b)[1..] == a[1..] + b;
      WordSkip(Step(x, a[0]), a[1..], b, w);
      assert |w| <= |a + b| ==> (a + b)[..|w|][0] == a[0];
    }
  }

  /** Two contexts in code that differ in the last character only. */
  lemma SameEnd(l: char, m: char, s: string)
    requires l !in "-/" && m !in "-/" && s != ""
    ensures End(Code(0, l), s) == End(Code(0, m), s)
  {
  }

  lemma SameWord(l: char, m: char, s: string, w: string)
    requires l !in "-/" && m !in "-/"
    requires !Starts(s, w) || WordChar(l) == WordChar(m)
    ensures Word(Code(0, l), s, w) == Word(Code(0, m), s, w)
  {
    assert s != "" ==> Step(Code(0, l), s[0]) == Step(Code(0, m), s[0]);
  }

  // ---- The derived text -----------------------------------------------------------------------------

  const SPACE: Ctx := Code(0, ' ')

  lemma WhereIsFirst(y: string)
    ensures Word(START, WHERE + y, "WHERE") == Some(1)
  {
    var s := WHERE + y;
    assert s[1..][..5] == "WHERE" && s[1..][5] == ' ';
    assert s[..5][0] == ' ';
    SecondWord(START, s, "WHERE");
  }

  lemma WhereThen(y: string, w: string)
    requires w == "ORDER" || w == "LIMIT"
    ensures End(START, WHERE + y) == End(SPACE, y)
    ensures Word(START, WHERE + y, w) == match Word(SPACE, y, w) case None => None case Some(k) => Some(7 + k)
  {
    hide Word, End;
    WhereIsPlain(w);
    NeutralRun(START, WHERE);
    EndAppend(START, WHERE, y);
    WordSkip(START, WHERE, y, w);
  }

  lemma WhereIsPlain(w: string)
    requires w == "ORDER" || w == "LIMIT"
    ensures forall i :: 0 <= i < |WHERE| ==> Neutral(WHERE[i]) && AsciiUpper(WHERE[i]) != w[0]
    ensures Letters(w)
  {
  }

  lemma DerivedWhere(y: string, limit: Option<nat>)
    ensures ReadWhere(WHERE + y, limit) == Tail(" ", Some(Trim(y)), limit, 1)
  {
    hide Word, Trim;
    WhereIsFirst(y);
    TrimSpace(y);
    assert (WHERE + y)[1 + 5..] == " " + y && (WHERE + y)[..1] == " ";
  }

  /** How a derived condition `x` is read: itself, trimmed, or what is before a limit in it. */
  lemma DerivedTail(x: string)
    ensures var r, l := ReadTail(WHERE + x), Word(SPACE, x, "LIMIT");
      && (r.Some? <==> Closed(End(SPACE, x)) && Word(SPACE, x, "ORDER").None?
                       && (l.Some? ==> ReadNumber(x[l.value + 5..]).Some?))
      && (r.Some? ==> r.value.head == " " && (r.value.limit.None? <==> l.None?)
                      && r.value.cond == Some(Trim(if l.None? then x else x[..l.value])))
  {
    hide Word, End, Trim, ReadNumber, ReadWhere, ReadTail;
    WhereThen(x, "ORDER");
    WhereThen(x, "LIMIT");
    DerivedWhere(x, None);
    TailInParts(WHERE + x);
    var l := Word(SPACE, x, "LIMIT");
    if l.Some? {
      var m := l.value;
      assert (WHERE + x)[..7 + m] == WHERE + x[..m] && (WHERE + x)[7 + m + 5..] == x[m + 5..];
      DerivedWhere(x[..m], ReadNumber(x[m + 5..]));
    }
  }

  /** The definition, clause by clause. */
  lemma TailInParts(s: string)
    ensures var r, l := ReadTail(s), Word(START, s, "LIMIT");
      && (r.Some? <==> Closed(End(START, s)) && Word(START, s, "ORDER").None?
                       && (l.Some? ==> ReadNumber(s[l.value + 5..]).Some?))
      && (r.Some? && l.None? ==> r.value == ReadWhere(s, None))
      && (r.Some? && l.Some? ==> r.value == ReadWhere(s[..l.value], ReadNumber(s[l.value + 5..])))
  {
    hide Word, End, ReadNumber, ReadWhere;
  }

  lemma TrimSpace(s: string)
    ensures Trim(" " + s) == Trim(s)
  {
    TrimAround(" ", s, "");
    assert " " + s + "" == " " + s;
  }

  lemma QuotedFromReads(table: string, tail: string)
    requires tail != "" ==> tail[0] == ' '
    ensures ReadFrom("FROM " + Quote(table) + tail) ==
      match ReadTail(tail)
      case None => None
      case Some(t) => if Blanks(t.head) then Some(Query(table, t.cond, t.limit)) else None
  {
    var s := "FROM " + Quote(table) + tail;
    hide EscIdent, ReadTail;
    IdentRoundTrip(table, tail);
    var r := Quote(table) + tail;
    assert s == "FROM " + r;
    assert s[..4] == "FROM" && s[4..] == " " + r;
    assert (" " + r)[1..] == r && r[0] == '`';
    assert SkipBlanks(r) == r;
  }

  lemma NoTail()
    ensures ReadTail("") == Some(Tail("", None, None, 0))
  {
  }

  // ---- The statement's own text ---------------------------------------------------------------------

  lemma HeadIsPrefix(tail: string)
    requires ReadTail(tail).Some?
    ensures ReadTail(tail).value.head <= tail
  {
    hide Word, End, Trim, ReadNumber;
    assert ReadWhere(tail, None).head <= tail;
    match Word(START, tail, "LIMIT")
    case None =>
    case Some(k) => assert tail[..k] <= tail;
  }

  function StatementOf(a: string, name: string, tail: string): UpdateStatement
    requires ReadTail(tail).Some?
  {
    var t := ReadTail(tail).value;
    UpdateStatement(Query(name, t.cond, t.limit), |a| + t.at)
  }

  /** The text before the tail, the table name, and the tail, which has the S of SET in it. */
  lemma UpdateShape(q: string) returns (a: string, name: string, tail: string)
    requires ReadUpdateStatement(q).Some?
    ensures q == a + tail && ReadTail(tail).Some? && tail != "" && SqlSpace(tail[0])
    ensures ReadUpdateStatement(q).value == StatementOf(a, name, tail)
    ensures exists i :: 0 <= i < |tail| && AsciiUpper(tail[i]) == 'S'
    ensures |q| > 6 && Starts(q, "UPDATE") && SqlSpace(q[6]) && SkipBlanks(q[6..]) == name + tail
    ensures name != "" && forall i :: 0 <= i < |name| ==> T.NameChar(name[i])
  {
    hide ReadTail, BareLength, SkipBlanks, Starts;
    var r := After(q, "UPDATE").value;
    var n := BareLength(r);
    name, tail := r[..n], r[n..];
    a := q[..|q| - |tail|];
    EndOfText(q, n);
    TailHasS(tail);
  }

  lemma EndOfText(q: string, n: nat)
    requires After(q, "UPDATE").Some? && n <= |After(q, "UPDATE").value|
    ensures |q| > 6
    ensures var tail := After(q, "UPDATE").value[n..]; q == q[..|q| - |tail|] + tail
  {
    var r := SkipBlanks(q[6..]);
    SkipBlanksSplits(q[6..]);
    hide SkipBlanks, Starts;
    assert q == q[..6] + q[6..];
  }

  lemma TailHasS(tail: string)
    requires ReadTail(tail).Some? && ReadTail(tail).value.head != "" && SqlSpace(ReadTail(tail).value.head[0])
    requires After(SkipBlanks(ReadTail(tail).value.head), "SET").Some?
    ensures tail != "" && SqlSpace(tail[0]) && exists i :: 0 <= i < |tail| && AsciiUpper(tail[i]) == 'S'
  {
    HeadIsPrefix(tail);
    hide ReadTail, After;
    var head := ReadTail(tail).value.head;
    SetHasS(head);
    var i :| 0 <= i < |head| && AsciiUpper(head[i]) == 'S';
    assert tail[i] == head[i];
  }

  lemma SetHasS(head: string)
    requires After(SkipBlanks(head), "SET").Some?
    ensures exists i :: 0 <= i < |head| && AsciiUpper(head[i]) == 'S'
  {
    var r := SkipBlanks(head);
    SkipBlanksSplits(head);
    assert AsciiUpper(r[..3][0]) == 'S';
    assert head[|head| - |r|] == r[0];
  }

  lemma BlanksAreBlank(s: string)
    requires Blanks(s)
    ensures Blank(s)
  {
  }

  lemma {:induction false} WordLengthOf(w: string, rest: string)
    requires forall i :: 0 <= i < |w| ==> !IsSpace(w[i])
    requires rest != "" ==> IsSpace(rest[0])
    ensures WordLength(w + rest) == |w|
  {
    if w == "" {
      assert w + rest == rest;
    } else {
      WordLengthOf(w[1..], rest);
      assert (w + rest)[1..] == w[1..] + rest;
    }
  }

  lemma FieldsFirst(s: string, w: string, rest: string)
    requires TrimLeft(s) == w + rest && w != "" && forall i :: 0 <= i < |w| ==> !IsSpace(w[i])
    requires rest != "" ==> IsSpace(rest[0])
    ensures Fields(s) == [w] + Fields(rest)
  {
    WordLengthOf(w, rest);
    assert (w + rest)[..|w|] == w && (w + rest)[|w|..] == rest;
  }

  lemma SkipIsTrimLeft(s: string)
    requires SkipBlanks(s) != "" && !IsSpace(SkipBlanks(s)[0])
    ensures TrimLeft(s) == SkipBlanks(s)
  {
    SkipBlanksSplits(s);
    var r := SkipBlanks(s);
    BlanksAreBlank(s[..|s| - |r|]);
    TrimLeftBlank(s[..|s| - |r|], r);
  }

  lemma NamesHaveNoSpace(name: string)
    requires forall i :: 0 <= i < |name| ==> T.NameChar(name[i])
    ensures forall i :: 0 <= i < |name| ==> !IsSpace(name[i])
  {
  }

  lemma UpdateIsNoSpace(q: string)
    requires Starts(q, "UPDATE")
    ensures forall i :: 0 <= i < 6 ==> !IsSpace(q[i])
  {
    assert forall i :: 0 <= i < 6 ==> AsciiUpper(q[..6][i]) == "UPDATE"[i] && q[..6][i] == q[i];
  }

  /** The second word of the text is the table. */
  lemma TableIsSecondWord(q: string, name: string, tail: string)
    requires |q| > 6 && Starts(q, "UPDATE") && SqlSpace(q[6]) && SkipBlanks(q[6..]) == name + tail
    requires name != "" && forall i :: 0 <= i < |name| ==> T.NameChar(name[i])
    requires tail != "" && SqlSpace(tail[0])
    ensures |Fields(q)| >= 2 && Fields(q)[1] == name
  {
    hide Fields, SkipBlanks, T.NameChar, Starts;
    UpdateIsNoSpace(q);
    NamesHaveNoSpace(name);
    assert q == q[..6] + q[6..];
    assert (name + tail)[0] == name[0];
    FieldsFirst(q, q[..6], q[6..]);
    SkipIsTrimLeft(q[6..]);
    FieldsFirst(q[6..], name, tail);
  }

  /** None of the words the code looks for has an I or an S, the only letters that case folding adds. */
  lemma UpperStarts(up: char -> char, s: string, w: string)
    requires IsUpperCasing(up)
    requires forall i :: 0 <= i < |w| ==> w[i] == ' ' || ('A' <= w[i] <= 'Z' && w[i] != 'I' && w[i] != 'S')
    ensures w <= Upper(up, s) <==> Starts(s, w)
  {
    forall i | 0 <= i < |w| <= |s| ensures up(s[i]) == w[i] <==> AsciiUpper(s[i]) == w[i] {}
    if |w| <= |s| {
      assert forall i :: 0 <= i < |w| ==> s[..|w|][i] == s[i] && Upper(up, s)[i] == up(s[i]);
    }
  }

  lemma SourceOfUpdate(q: string, up: char -> char, name: string)
    requires IsUpperCasing(up) && |q| > 6 && Starts(q, "UPDATE") && |Fields(q)| >= 2 && Fields(q)[1] == name
    ensures "UPDATE" <= Upper(up, q)
    ensures q[6] != ' ' ==> Source(q, up).None?
    ensures q[6] == ' ' ==>
      Source(q, up) == if Find(Upper(up, q), WHERE).None? then Some("FROM " + Quote(name))
                       else match Cut(q, up)
                         case None => None
                         case Some(k) => Some("FROM " + Quote(name) + WHERE + q[k..])
  {
    hide Fields, Find, Cut, Quote, Upper, Starts, IsUpperCasing;
    UpdatePrefixes(q, up);
    UpdateHasLength(Upper(up, q));
  }

  lemma UpdateHasLength(u: string)
    ensures "UPDATE " <= u ==> "UPDATE" <= u
  {
  }

  lemma UpdatePrefixes(q: string, up: char -> char)
    requires IsUpperCasing(up) && |q| > 6 && Starts(q, "UPDATE")
    ensures var u := Upper(up, q); "UPDATE" <= u && !("DELETE " <= u) && ("UPDATE " <= u <==> q[6] == ' ')
  {
    hide Upper, IsUpperCasing, Starts;
    UpperStarts(up, q, "UPDATE");
    UpperStarts(up, q, "UPDATE ");
    UpperStarts(up, q, "DELETE ");
    UpdateOrDelete(q);
  }

  lemma UpdateOrDelete(q: string)
    requires |q| > 6 && Starts(q, "UPDATE")
    ensures !Starts(q, "DELETE ") && (Starts(q, "UPDATE ") <==> q[6] == ' ')
  {
    assert AsciiUpper(q[..6][0]) == 'U' && q[..7][0] == q[0];
    assert forall i :: 0 <= i < 6 ==> q[..7][i] == q[..6][i] && "UPDATE "[i] == "UPDATE"[i];
    assert q[..7][6] == q[6];
  }

  // ---- Where the cut has to be ----------------------------------------------------------------------

  /** What a tail without a limit and with a condition looks like. */
  lemma ClauseShape(tail: string)
    requires ReadTail(tail).Some? && ReadTail(tail).value.limit.None? && ReadTail(tail).value.cond.Some?
    ensures var t := ReadTail(tail).value;
      && t.at + 5 <= |tail| && t.cond == Some(Trim(tail[t.at + 5..]))
      && Closed(End(START, tail[..t.at])) && Spells(tail[t.at..t.at + 5], "WHERE")
      && (t.at + 5 < |tail| ==> !WordChar(tail[t.at + 5]))
      && Closed(End(START, tail)) && Word(START, tail, "ORDER").None? && Word(START, tail, "LIMIT").None?
  {
    hide Word, End, Trim, WordChar, ReadTail, Spells, Closed;
    TailWithoutLimit(tail);
    WhereShape(tail, ReadTail(tail).value.at);
  }

  lemma WhereShape(s: string, p: nat)
    requires Word(START, s, "WHERE") == Some(p)
    ensures p + 5 <= |s| && Closed(End(START, s[..p])) && Spells(s[p..p + 5], "WHERE")
    ensures p + 5 < |s| ==> !WordChar(s[p + 5])
  {
    hide Word, End, WordChar, Spells, Here, Closed;
    WordIsHere(START, s, "WHERE");
    HereShape(End(START, s[..p]), s[p..]);
    assert s[p..][..5] == s[p..p + 5];
    assert p + 5 < |s| ==> s[p..][5] == s[p + 5];
  }

  lemma HereShape(x: Ctx, s: string)
    requires Here(x, s, "WHERE")
    ensures |s| >= 5 && Closed(x) && Spells(s[..5], "WHERE") && (|s| > 5 ==> !WordChar(s[5]))
  {
  }

  lemma TailWithoutLimit(tail: string)
    requires ReadTail(tail).Some? && ReadTail(tail).value.limit.None?
    ensures ReadTail(tail).value == ReadWhere(tail, None)
    ensures Closed(End(START, tail)) && Word(START, tail, "ORDER").None? && Word(START, tail, "LIMIT").None?
  {
    hide Word, End, ReadNumber;
  }

  lemma SpacesAreNeutral(s: string)
    requires Blank(s)
    ensures forall i :: 0 <= i < |s| ==> Neutral(s[i]) && !WordChar(s[i])
  {
  }

  lemma WhereIsNeutral(s: string)
    requires Spells(s, "WHERE")
    ensures forall i :: 0 <= i < |s| ==> Neutral(s[i]) && !IsSpace(s[i]) && !('0' <= s[i] <= '9')
    ensures s[4] !in "-/"
  {
    forall i | 0 <= i < |s| ensures Neutral(s[i]) && !IsSpace(s[i]) && !('0' <= s[i] <= '9') {
      assert 'A' <= "WHERE"[i] <= 'Z';
    }
  }

  /** After WHERE and white space, the text goes on as it does after a space. */
  lemma AfterWhere(y: Ctx, mid: string, x: string, w: string)
    requires Closed(y) && |mid| >= 5 && Spells(mid[..5], "WHERE") && Blank(mid[5..])
    requires |mid| == 5 && x != "" ==> !WordChar(x[0])
    requires w == "ORDER" || w == "LIMIT"
    ensures Closed(End(End(y, mid), x)) <==> Closed(End(SPACE, x))
    ensures Word(End(y, mid), x, w) == Word(SPACE, x, w)
  {
    hide Word, End, Spells, Blank;
    WhereIsNeutral(mid[..5]);
    SpacesAreNeutral(mid[5..]);
    forall i | 0 <= i < |mid| ensures Neutral(mid[i]) {
      assert mid[i] == if i < 5 then mid[..5][i] else mid[5..][i - 5];
    }
    NeutralRun(y, mid);
    var l := mid[|mid| - 1];
    assert l == if |mid| == 5 then mid[..5][4] else mid[5..][|mid| - 6];
    assert Neutral(l);
    if x != "" { SameEnd(l, ' ', x); } else { EndOfNothing(l); }
    if |mid| == 5 { NoKeyword(x, w); }
    SameWord(l, ' ', x, w);
  }

  lemma EndOfNothing(l: char)
    ensures Closed(End(Code(0, l), "")) && Closed(End(SPACE, ""))
  {
  }

  lemma NoKeyword(x: string, w: string)
    requires (w == "ORDER" || w == "LIMIT") && (x != "" ==> !WordChar(x[0]))
    ensures !Starts(x, w)
  {
    assert |x| >= 5 ==> x[..5][0] == x[0];
  }

  /** A cut in the white space after WHERE gives the statement's own condition. */
  lemma CutInBlanks(tail: string, o: nat)
    requires ReadTail(tail).Some? && ReadTail(tail).value.limit.None? && ReadTail(tail).value.cond.Some?
    requires var p := ReadTail(tail).value.at; p + 5 <= o <= |tail| && Blank(tail[p + 5..o])
    ensures ReadTail(WHERE + tail[o..]) == Some(Tail(" ", ReadTail(tail).value.cond, None, 1))
  {
    hide Word, End, Trim, WordChar, Spells, ReadTail;
    ClauseShape(tail);
    var p := ReadTail(tail).value.at;
    var front, mid, x := tail[..p], tail[p..o], tail[o..];
    assert tail == (front + mid) + x && front + mid == tail[..o];
    assert mid[..5] == tail[p..p + 5] && mid[5..] == tail[p + 5..o];
    var y := End(START, front);
    EndAppend(START, front, mid);
    EndAppend(START, front + mid, x);
    WordSuffix(START, front + mid, x, "ORDER");
    WordSuffix(START, front + mid, x, "LIMIT");
    AfterWhere(y, mid, x, "ORDER");
    AfterWhere(y, mid, x, "LIMIT");
    assert tail[p + 5..] == tail[p + 5..o] + x + "";
    TrimAround(tail[p + 5..o], x, "");
    DerivedIs(x);
  }

  lemma DerivedIs(x: string)
    requires Closed(End(SPACE, x)) && Word(SPACE, x, "ORDER").None? && Word(SPACE, x, "LIMIT").None?
    ensures ReadTail(WHERE + x) == Some(Tail(" ", Some(Trim(x)), None, 1))
  {
    hide Word, End, Trim, ReadWhere, ReadTail;
    WhereThen(x, "ORDER");
    WhereThen(x, "LIMIT");
    DerivedWhere(x, None);
    TailInParts(WHERE + x);
  }

  /** A trimmed text from a given place on: trimming takes off the white space in front. */
  lemma SuffixTrim(q: string, a: nat) returns (n: nat)
    requires Trimmed(q) && a <= |q|
    ensures a <= n <= |q| && Trim(q[a..]) == q[n..] && Blank(q[a..n])
    ensures a < |q| ==> n < |q| && !IsSpace(q[n])
  {
    var s := q[a..];
    var w := TrimLeftSplits(s);
    n := a + |w|;
    assert q[n..] == s[|w|..] == TrimLeft(s) && q[a..n] == w;
    if a < |q| {
      assert s[|s| - 1] == q[|q| - 1] && !IsSpace(s[|s| - 1]);
      assert TrimLeft(s) == "" ==> s == w;
    }
    assert TrimLeft(s) != "" ==> TrimLeft(s)[|TrimLeft(s)| - 1] == q[|q| - 1];
  }

  lemma BlankAt(q: string, k: nat, m: nat, j: nat)
    requires k <= j < m <= |q| && Blank(q[k..m])
    ensures IsSpace(q[j])
  {
    assert q[k..m][j - k] == q[j];
  }

  /** Two cuts with the same trimmed rest, one of them right after a word, are white space apart. */
  lemma SameRest(q: string, b: nat, k: nat)
    requires Trimmed(q) && 0 < b <= |q| && !IsSpace(q[b - 1]) && k <= |q|
    requires Trim(q[b..]) == Trim(q[k..])
    ensures b <= k && Blank(q[b..k])
  {
    var n := SuffixTrim(q, b);
    var m := SuffixTrim(q, k);
    assert |q[n..]| == |q[m..]|;
    hide Trim, Trimmed;
    if k < b {
      BlankAt(q, k, m, b - 1);
    } else {
      forall i | 0 <= i < k - b ensures IsSpace(q[b..k][i]) {
        assert q[b..n][i] == q[b..k][i];
      }
    }
  }

  // ---- A limit that only the derived text would have ------------------------------------------------

  lemma NumberChars(s: string)
    requires ReadNumber(s).Some?
    ensures s != "" && SqlSpace(s[0])
    ensures forall i :: 0 <= i < |s| ==> IsSpace(s[i]) || '0' <= s[i] <= '9'
  {
    var p, r := TrimSplits(s);
    var t := Trim(s);
    forall i | 0 <= i < |s| ensures IsSpace(s[i]) || '0' <= s[i] <= '9' {
      if i < |p| { assert s[i] == p[i]; }
      else if i < |p| + |t| { assert s[i] == t[i - |p|]; }
      else { assert s[i] == r[i - |p| - |t|]; }
    }
  }

  lemma LimitChars(s: string)
    requires Starts(s, "LIMIT") && ReadNumber(s[5..]).Some?
    ensures forall i :: 0 <= i < |s| ==> Neutral(s[i]) && AsciiUpper(s[i]) != 'S'
    ensures forall i :: 0 <= i < 5 ==> !IsSpace(s[i])
    ensures |s| > 5
  {
    NumberChars(s[5..]);
    forall i | 0 <= i < |s|
      ensures Neutral(s[i]) && AsciiUpper(s[i]) != 'S' && (i < 5 ==> !IsSpace(s[i]))
    {
      if i < 5 {
        assert s[..5][i] == s[i] && AsciiUpper(s[i]) == "LIMIT"[i];
      } else {
        assert s[5..][i - 5] == s[i];
      }
    }
  }

  /** A limit at the end of a closed text is outside quotes and parentheses, so the text has it as well. */
  lemma LimitIsSeen(tail: string, o: nat)
    requires Closed(End(START, tail)) && 0 < o < |tail| && !WordChar(tail[o - 1])
    requires Starts(tail[o..], "LIMIT") && ReadNumber(tail[o + 5..]).Some? && !WordChar(tail[o + 5])
    ensures Word(START, tail, "LIMIT").Some?
  {
    hide Word, End, WordChar;
    var y := End(START, tail[..o]);
    assert tail == tail[..o] + tail[o..] && tail[o..][5..] == tail[o + 5..];
    EndAppend(START, tail[..o], tail[o..]);
    EndMarked(START, tail[..o]);
    EndLast(START, tail[..o]);
    LimitChars(tail[o..]);
    NeutralRun(y, tail[o..]);
    assert tail[o..][5] == tail[o + 5];
    assert Here(y, tail[o..], "LIMIT");
    HereIsFirst(y, tail[o..], "LIMIT");
    WordInFront(START, tail[..o], tail[o..], "LIMIT");
  }

  lemma HereIsFirst(x: Ctx, s: string, w: string)
    requires Here(x, s, w) && w != ""
    ensures Word(x, s, w) == Some(0)
  {
  }

  lemma LimitInTail(q: string, a: string, tail: string, pos: nat)
    requires q == a + tail && Closed(End(START, tail)) && tail != "" && SqlSpace(tail[0])
    requires |a| <= pos < |q| && 0 < pos && !WordChar(q[pos - 1])
    requires Starts(q[pos..], "LIMIT") && ReadNumber(q[pos..][5..]).Some?
    ensures Word(START, tail, "LIMIT").Some?
  {
    hide Word, End, WordChar, Starts, ReadNumber;
    var o := pos - |a|;
    LimitChars(q[pos..]);
    NumberChars(q[pos..][5..]);
    assert tail[o..] == q[pos..] && tail[o + 5..] == q[pos..][5..];
    assert q[pos..][0] == tail[o] && q[pos..][5..][0] == tail[o + 5];
    assert o > 0 ==> tail[o - 1] == q[pos - 1];
    SpaceEndsWord(tail[o + 5]);
    LimitIsSeen(tail, o);
  }

  lemma SpaceEndsWord(c: char)
    requires SqlSpace(c)
    ensures !WordChar(c) && IsSpace(c)
  {
  }

  lemma NoSAt(q: string, pos: nat, j: nat)
    requires pos <= j < |q| && forall i :: 0 <= i < |q[pos..]| ==> AsciiUpper(q[pos..][i]) != 'S'
    ensures AsciiUpper(q[j]) != 'S'
  {
    assert q[pos..][j - pos] == q[j];
  }

  /** There is no S in a limit, so it does not start before a tail that has one. */
  lemma LimitAfterS(q: string, a: string, tail: string, pos: nat)
    requires q == a + tail && pos <= |q| && forall i :: 0 <= i < |q[pos..]| ==> AsciiUpper(q[pos..][i]) != 'S'
    requires exists i :: 0 <= i < |tail| && AsciiUpper(tail[i]) == 'S'
    ensures pos > |a|
  {
    var i :| 0 <= i < |tail| && AsciiUpper(tail[i]) == 'S';
    assert q[|a| + i] == tail[i];
    if pos <= |a| {
      NoSAt(q, pos, |a| + i);
    }
  }

  lemma WordShape(x: string, w: string, m: nat)
    requires Word(SPACE, x, w) == Some(m) && m > 0
    ensures m <= |x| && Starts(x[m..], w) && !WordChar(x[m - 1])
  {
    hide Word, End, WordChar, Starts;
    WordIsHere(SPACE, x, w);
    EndLast(SPACE, x[..m]);
  }

  /** A limit read in the derived text is a limit of the statement, unless nothing but it follows the cut. */
  lemma LimitIsShared(q: string, a: string, tail: string, k: nat, m: nat)
    requires q == a + tail && ReadTail(tail).Some? && tail != "" && SqlSpace(tail[0]) && k <= |q|
    requires exists i :: 0 <= i < |tail| && AsciiUpper(tail[i]) == 'S'
    requires Word(SPACE, q[k..], "LIMIT") == Some(m) && ReadNumber(q[k..][m + 5..]).Some? && m > 0
    ensures Word(START, tail, "LIMIT").Some?
  {
    hide Word, End, ReadTail, WordChar, Starts, ReadNumber, Neutral, AsciiUpper, SqlSpace, Closed;
    var x := q[k..];
    var pos := k + m;
    WordShape(x, "LIMIT", m);
    TailClosed(tail);
    assert x[m..] == q[pos..] && q[pos..][5..] == x[m + 5..];
    assert x[m - 1] == q[pos - 1];
    LimitChars(q[pos..]);
    LimitAfterS(q, a, tail, pos);
    LimitInTail(q, a, tail, pos);
  }

  lemma TailClosed(tail: string)
    requires ReadTail(tail).Some?
    ensures Closed(End(START, tail))
  {
  }

  /** If the derived text has the statement's condition, the cut is in the white space after WHERE. */
  lemma CutIsRight(q: string, a: string, tail: string, k: nat)
    requires Trimmed(q) && q == a + tail && tail != "" && SqlSpace(tail[0]) && k <= |q|
    requires exists i :: 0 <= i < |tail| && AsciiUpper(tail[i]) == 'S'
    requires ReadTail(tail).Some? && ReadTail(tail).value.limit.None? && ReadTail(tail).value.cond.Some?
    requires ReadTail(WHERE + q[k..]).Some? && ReadTail(WHERE + q[k..]).value.cond == ReadTail(tail).value.cond
    ensures var b := |a| + ReadTail(tail).value.at + 5; b <= k && Blank(q[b..k])
  {
    hide Word, End, ReadTail, WordChar, ReadNumber, Trim, Trimmed;
    var x := q[k..];
    var l := Word(SPACE, x, "LIMIT");
    var b := |a| + ReadTail(tail).value.at + 5;
    DerivedTail(x);
    ClauseShape(tail);
    assert tail[ReadTail(tail).value.at + 5..] == q[b..];
    EndsInE(q, a, tail);
    if l.Some? && l.value > 0 {
      LimitIsShared(q, a, tail, k, l.value);
    } else if l.Some? {
      OnlyALimit(q, b, k);
    } else {
      SameRest(q, b, k);
    }
  }

  lemma EndsInE(q: string, a: string, tail: string)
    requires q == a + tail && ReadTail(tail).Some? && ReadTail(tail).value.at + 5 <= |tail|
    requires var p := ReadTail(tail).value.at; Spells(tail[p..p + 5], "WHERE")
    ensures var b := |a| + ReadTail(tail).value.at + 5; !IsSpace(q[b - 1]) && !('0' <= q[b - 1] <= '9')
  {
    hide ReadTail;
    var p := ReadTail(tail).value.at;
    WhereIsNeutral(tail[p..p + 5]);
    assert tail[p..p + 5][4] == q[|a| + p + 4];
  }

  /** The condition before such a limit is empty, and the statement's own is not. */
  lemma OnlyALimit(q: string, b: nat, k: nat)
    requires Trimmed(q) && 0 < b <= |q| && !IsSpace(q[b - 1]) && !('0' <= q[b - 1] <= '9') && k <= |q|
    requires Word(SPACE, q[k..], "LIMIT") == Some(0) && ReadNumber(q[k..][5..]).Some?
    ensures Trim(q[b..]) != Trim(q[k..][..0])
  {
    var n := SuffixTrim(q, b);
    NumberChars(q[k..][5..]);
    hide Word, ReadNumber;
    var s := q[k..][5..];
    assert s[|s| - 1] == q[|q| - 1];
    assert q[k..][..0] == "" && Trim("") == "";
  }

  // ---- The exact condition --------------------------------------------------------------------------

  /** UPDATE is followed by a space, there is no LIMIT, and the code cuts in the white space after the
      statement's own WHERE, or finds nothing to cut at when there is none. */
  ghost predicate SeesClause(q: string, up: char -> char, st: UpdateStatement) {
    && |q| > 6 && q[6] == ' ' && st.query.limit.None?
    && match st.query.cond
       case None => Find(Upper(up, q), WHERE).None?
       case Some(_) =>
         var k := Cut(q, up);
         k.Some? && st.at + 5 <= k.value && Blank(q[st.at + 5..k.value])
  }

  /** The parts of a statement that is read, and what is derived from them. */
  ghost predicate Parts(q: string, up: char -> char, a: string, name: string, tail: string) {
    && Trimmed(q) && q == a + tail && |q| > 6
    && tail != "" && SqlSpace(tail[0]) && (exists i :: 0 <= i < |tail| && AsciiUpper(tail[i]) == 'S')
    && ReadTail(tail).Some?
    && Source(q, up) ==
         if q[6] != ' ' then None
         else if Find(Upper(up, q), WHERE).None? then Some("FROM " + Quote(name))
         else match Cut(q, up)
           case None => None
           case Some(k) => Some("FROM " + Quote(name) + WHERE + q[k..])
  }

  lemma SeenIsRead(q: string, up: char -> char, a: string, name: string, tail: string)
    requires Parts(q, up, a, name, tail) && SeesClause(q, up, StatementOf(a, name, tail))
    ensures Source(q, up).Some? && ReadFrom(Source(q, up).value) == Some(StatementOf(a, name, tail).query)
  {
    hide Source, ReadFrom, ReadTail, Find, Cut, Upper, Quote, Trimmed;
    var t := ReadTail(tail).value;
    if t.cond.None? {
      QuotedFromReads(name, "");
      assert "FROM " + Quote(name) + "" == "FROM " + Quote(name);
      NoTail();
    } else {
      CutSome(q, up);
      var k := Cut(q, up).value;
      var o := k - |a|;
      assert q[k..] == tail[o..] && q[|a| + t.at + 5..k] == tail[t.at + 5..o];
      CutInBlanks(tail, o);
      var w := WHERE + q[k..];
      QuotedFromReads(name, w);
      assert "FROM " + Quote(name) + w == "FROM " + Quote(name) + WHERE + q[k..];
    }
  }

  lemma CutSome(q: string, up: char -> char)
    ensures Cut(q, up).Some? ==> Find(Upper(up, q), WHERE).Some? && Cut(q, up).value <= |q|
  {
  }

  lemma SameConditionIsSeen(q: string, up: char -> char, a: string, name: string, tail: string)
    requires Parts(q, up, a, name, tail) && ReadTail(tail).value.limit.None?
    requires Source(q, up).Some? && ReadFrom(Source(q, up).value).Some?
    requires ReadFrom(Source(q, up).value).value.cond == ReadTail(tail).value.cond
    ensures SeesClause(q, up, StatementOf(a, name, tail))
  {
    hide Source, ReadFrom, ReadTail, Find, Cut, Upper, Quote, Trimmed;
    CutSome(q, up);
    if Find(Upper(up, q), WHERE).None? {
      QuotedFromReads(name, "");
      assert "FROM " + Quote(name) + "" == "FROM " + Quote(name);
      NoTail();
    } else {
      var k := Cut(q, up).value;
      var w := WHERE + q[k..];
      QuotedFromReads(name, w);
      assert "FROM " + Quote(name) + w == "FROM " + Quote(name) + WHERE + q[k..];
      DerivedTail(q[k..]);
      CutIsRight(q, a, tail, k);
    }
  }

  lemma UnseenIsWrong(q: string, up: char -> char, a: string, name: string, tail: string)
    requires Parts(q, up, a, name, tail) && !SeesClause(q, up, StatementOf(a, name, tail))
    ensures !CountsRight(q, up, StatementOf(a, name, tail).query)
  {
    hide Source, ReadFrom, ReadTail, SeesClause, CountsRight, Find, Cut, Upper, Quote;
    var st := StatementOf(a, name, tail).query;
    var src := Source(q, up);
    if st.limit.Some? {
      LimitIsWrong(q, up, st);
    } else {
      if src.Some? && ReadFrom(src.value).Some? && ReadFrom(src.value).value.cond == st.cond {
        SameConditionIsSeen(q, up, a, name, tail);
      }
      OtherConditionIsWrong(q, up, st);
    }
  }

  lemma PartsAreExact(q: string, up: char -> char, a: string, name: string, tail: string)
    requires Parts(q, up, a, name, tail) && "UPDATE" <= Upper(up, q)
    ensures var st := StatementOf(a, name, tail);
      && (CountsRight(q, up, st.query) <==> SeesClause(q, up, st))
      && (SeesClause(q, up, st) ==> SamplesRight(q, up, st.query) && (Warns(q, up) <==> st.query.cond.None?))
  {
    hide Source, ReadFrom, ReadTail, CountsRight, SamplesRight, Find, Cut, Upper, Quote;
    var st := StatementOf(a, name, tail);
    if SeesClause(q, up, st) {
      SeenIsRead(q, up, a, name, tail);
      SameQueryIsRight(q, up, st.query);
      CutSome(q, up);
    } else {
      UnseenIsWrong(q, up, a, name, tail);
    }
  }

  /** For every UPDATE text that is read: the preview counts exactly the rows that will be changed, on every
      table and for every condition, if and only if it sees the clause; then the sample is right too, and
      the warning is given exactly when there is no condition. */
  lemma UpdatePreviewExact(q: string, up: char -> char)
    requires IsUpperCasing(up) && Trimmed(q) && ReadUpdateStatement(q).Some?
    ensures var st := ReadUpdateStatement(q).value;
      && (CountsRight(q, up, st.query) <==> SeesClause(q, up, st))
      && (SeesClause(q, up, st) ==> SamplesRight(q, up, st.query) && (Warns(q, up) <==> st.query.cond.None?))
  {
    var a, name, tail := UpdateShape(q);
    TableIsSecondWord(q, name, tail);
    SourceOfUpdate(q, up, name);
    hide Source, ReadTail, Find, Cut, Upper, Quote, Trimmed, CountsRight, SamplesRight, Fields, SkipBlanks,
      SeesClause, Warns, IsUpperCasing;
    PartsAreExact(q, up, a, name, tail);
  }

  // ---- Bytes and characters -------------------------------------------------------------------------

  lemma {:induction false} BytesAppend(a: string, b: string)
    ensures Utf8Length(a + b) == Utf8Length(a) + Utf8Length(b)
  {
    if a == "" {
      assert a + b == b;
    } else {
      assert (a + b)[1..] == a[1..] + b;
      BytesAppend(a[1..], b);
    }
  }

  lemma {:induction false} AtByteIs(s: string, k: nat)
    requires k <= |s|
    ensures AtByte(s, Utf8Length(s[..k])) == Some(k)
  {
    if k > 0 {
      assert s[..k][1..] == s[1..][..k - 1];
      AtByteIs(s[1..], k - 1);
    }
  }

  lemma {:induction false} AtByteMeans(s: string, b: nat)
    ensures AtByte(s, b).Some? ==> Utf8Length(s[..AtByte(s, b).value]) == b
  {
    if b > 0 && s != "" && b >= CharBytes(s[0]) {
      AtByteMeans(s[1..], b - CharBytes(s[0]));
      if AtByte(s, b).Some? {
        assert s[..AtByte(s, b).value][1..] == s[1..][..AtByte(s, b).value - 1];
      }
    }
  }

  lemma {:induction false} AsciiBytes(s: string)
    requires Ascii(s)
    ensures Utf8Length(s) == |s|
  {
    if s != "" { AsciiBytes(s[1..]); }
  }

  /** What the search has found, in the text itself. */
  lemma FoundText(q: string, up: char -> char, i: nat)
    requires IsUpperCasing(up) && Find(Upper(up, q), WHERE) == Some(i)
    ensures i + 7 <= |q| && q[i] == ' ' && q[i + 6] == ' ' && Spells(q[i + 1..i + 6], "WHERE")
    ensures Ascii(q[i..i + 7])
  {
    hide Upper, Find, Starts, Spells, IsUpperCasing;
    UpperSuffix(up, q, i);
    UpperStarts(up, q[i..], WHERE);
    WhereText(q[i..]);
    assert q[i..][1..6] == q[i + 1..i + 6] && q[i..][..7] == q[i..i + 7];
  }

  lemma UpperSuffix(up: char -> char, q: string, i: nat)
    requires i <= |q|
    ensures Upper(up, q)[i..] == Upper(up, q[i..])
  {
  }

  lemma WhereText(s: string)
    requires Starts(s, WHERE)
    ensures |s| >= 7 && s[0] == ' ' && s[6] == ' ' && Spells(s[1..6], "WHERE")
    ensures Ascii(s[..7])
  {
    forall j | 0 <= j < 7 ensures AsciiUpper(s[j]) == WHERE[j] && s[..7][j] == s[j] && s[j] < '\U{80}' {
      assert AsciiUpper(s[..7][j]) == WHERE[j];
    }
    forall j | 0 <= j < 5 ensures AsciiUpper(s[1..6][j]) == "WHERE"[j] {
      assert s[1..6][j] == s[j + 1] && WHERE[j + 1] == "WHERE"[j];
    }
  }

  /** The code cuts right after the " WHERE " it has found if and only if upper-casing keeps the length in
      bytes of the text before it. */
  lemma CutAfterWhere(q: string, up: char -> char, i: nat)
    requires IsUpperCasing(up) && Find(Upper(up, q), WHERE) == Some(i)
    ensures Cut(q, up) == Some(i + 7) <==> Utf8Length(Upper(up, q)[..i]) == Utf8Length(q[..i])
  {
    hide Find, Upper, AtByte, Ascii, Spells, IsUpperCasing, Utf8Length;
    FoundText(q, up, i);
    SevenMore(q, i, Utf8Length(Upper(up, q)[..i]));
  }

  lemma SevenMore(q: string, i: nat, bytes: nat)
    requires i + 7 <= |q| && Ascii(q[i..i + 7])
    ensures AtByte(q, bytes + 7) == Some(i + 7) <==> bytes == Utf8Length(q[..i])
  {
    hide AtByte, Ascii, Utf8Length;
    assert q[..i + 7] == q[..i] + q[i..i + 7];
    BytesAppend(q[..i], q[i..i + 7]);
    AsciiBytes(q[i..i + 7]);
    AtByteIs(q, i + 7);
    AtByteMeans(q, bytes + 7);
  }

  /** Nothing changes length in ASCII. */
  lemma AsciiKeepsLength(q: string, up: char -> char, i: nat)
    requires IsUpperCasing(up) && i <= |q| && Ascii(q[..i])
    ensures Utf8Length(Upper(up, q)[..i]) == Utf8Length(q[..i])
  {
    AsciiBytes(q[..i]);
    forall j | 0 <= j < i ensures Upper(up, q)[..i][j] < '\U{80}' {
      assert q[..i][j] == q[j];
    }
    AsciiBytes(Upper(up, q)[..i]);
  }

  lemma BlankBetween(q: string, k: nat, m: nat)
    requires k <= m <= |q| && Blank(q[k..m])
    ensures forall j :: k <= j < m ==> IsSpace(q[j])
  {
    forall j | k <= j < m ensures IsSpace(q[j]) {
      BlankAt(q, k, m, j);
    }
  }

  /** The cut after " WHERE " at `i` is in the white space after the WHERE at `p` only if they are one. */
  lemma SameWhere(q: string, i: nat, p: nat)
    requires i + 7 <= |q| && q[i + 6] == ' ' && Spells(q[i + 1..i + 6], "WHERE")
    requires p + 5 <= |q| && Spells(q[p..p + 5], "WHERE")
    ensures p + 5 <= i + 7 && Blank(q[p + 5..i + 7]) <==> i + 1 == p
  {
    WhereIsNeutral(q[i + 1..i + 6]);
    WhereIsNeutral(q[p..p + 5]);
    hide Spells;
    assert q[i + 1..i + 6][4] == q[i + 5];
    assert q[p..p + 5][4] == q[p + 4];
    if p + 5 <= i + 7 && Blank(q[p + 5..i + 7]) {
      BlankBetween(q, p + 5, i + 7);
    }
  }

  /** Where the clause of a statement with a condition stands. */
  lemma ClauseInText(q: string, a: string, tail: string)
    requires q == a + tail && tail != "" && SqlSpace(tail[0])
    requires ReadTail(tail).Some? && ReadTail(tail).value.limit.None? && ReadTail(tail).value.cond.Some?
    ensures var p := |a| + ReadTail(tail).value.at; 0 < p && p + 5 <= |q| && Spells(q[p..p + 5], "WHERE")
  {
    hide ReadTail, Spells;
    ClauseShape(tail);
    var t := ReadTail(tail).value;
    assert tail[t.at..t.at + 5] == q[|a| + t.at..|a| + t.at + 5];
    WhereIsNeutral(tail[t.at..t.at + 5]);
    assert tail[t.at..t.at + 5][0] == tail[t.at];
  }

  function Before(at: nat): nat {
    if at > 0 then at - 1 else 0
  }

  /** In a caller's terms, for every text whose length in bytes before the first " WHERE " does not change
      in upper case, such as every ASCII text: the count is right if and only if the keyword is
      followed by a space, there is no LIMIT, and the first " WHERE " of the upper-cased text is the
      statement's own, or there is neither. */
  lemma UpdatePreviewInPlainTerms(q: string, up: char -> char)
    requires IsUpperCasing(up) && Trimmed(q) && ReadUpdateStatement(q).Some?
    requires var i := Find(Upper(up, q), WHERE);
             i.Some? ==> Utf8Length(Upper(up, q)[..i.value]) == Utf8Length(q[..i.value])
    ensures var st := ReadUpdateStatement(q).value;
            CountsRight(q, up, st.query) <==>
              |q| > 6 && q[6] == ' ' && st.query.limit.None?
              && Find(Upper(up, q), WHERE) == if st.query.cond.None? then None else Some(Before(st.at))
  {
    hide *;
    UpdatePreviewExact(q, up);
    var a, name, tail := UpdateShape(q);
    SeenInPlainTerms(q, up, a, name, tail);
  }

  lemma SeenInPlainTerms(q: string, up: char -> char, a: string, name: string, tail: string)
    requires IsUpperCasing(up) && q == a + tail && tail != "" && SqlSpace(tail[0]) && ReadTail(tail).Some?
    requires var i := Find(Upper(up, q), WHERE);
             i.Some? ==> Utf8Length(Upper(up, q)[..i.value]) == Utf8Length(q[..i.value])
    ensures var st := StatementOf(a, name, tail);
            SeesClause(q, up, st) <==>
              |q| > 6 && q[6] == ' ' && st.query.limit.None?
              && Find(Upper(up, q), WHERE) == if st.query.cond.None? then None else Some(Before(st.at))
  {
    hide ReadTail, Find, Upper, IsUpperCasing, Spells, Cut, Utf8Length;
    CutSome(q, up);
    CutNone(q, up);
    var i := Find(Upper(up, q), WHERE);
    var st := StatementOf(a, name, tail);
    if i.Some? && st.query.limit.None? && st.query.cond.Some? {
      FoundText(q, up, i.value);
      CutAfterWhere(q, up, i.value);
      ClauseInText(q, a, tail);
      SameWhere(q, i.value, st.at);
    }
  }

  lemma CutNone(q: string, up: char -> char)
    ensures Find(Upper(up, q), WHERE).None? ==> Cut(q, up).None?
  {
  }
}
