/** Statements that MySQL accepts and the preview gets wrong, one for each way to miss the clause. */
module PreviewExamples {
  import opened Text
  import opened Statements
  import opened Preview
  import opened UpdatePreview
  import opened DeletePreview

  // ---- Reading a given text -------------------------------------------------------------------------

  /** A tail of neutral text with one WHERE in it. */
  lemma PlainTail(front: string, back: string)
    requires forall i :: 0 <= i < |front| ==> Neutral(front[i]) && AsciiUpper(front[i]) !in "WOL"
    requires forall i :: 0 <= i < |back| ==> Neutral(back[i]) && AsciiUpper(back[i]) !in "OL"
    requires front != "" && SqlSpace(front[|front| - 1]) && Starts(back, "WHERE") && (|back| > 5 ==> SqlSpace(back[5]))
    ensures ReadTail(front + back) == Some(Tail(front, Some(Trim(back[5..])), None, |front|))
  {
    hide Word, End, Trim, Neutral, Starts, WordChar;
    var s := front + back;
    forall i | 0 <= i < |s| ensures Neutral(s[i]) && AsciiUpper(s[i]) !in "OL" {
      assert s[i] == if i < |front| then front[i] else back[i - |front|];
    }
    NeutralRun(START, s);
    NeutralRun(START, front);
    Absent(START, s, "ORDER");
    Absent(START, s, "LIMIT");
    WordSkip(START, front, back, "WHERE");
    SpaceEndsWord(front[|front| - 1]);
    if |back| > 5 { SpaceEndsWord(back[5]); }
    HereIsFirst(End(START, front), back, "WHERE");
    assert s[..|front|] == front && s[|front| + 5..] == back[5..];
  }

  lemma SetFirst(head: string)
    requires |head| > 5 && head[..5] == " SET "
    ensures head[0] == ' ' && After(SkipBlanks(head), "SET").Some?
  {
    assert head[0] == head[..5][0] && head[1] == head[..5][1] && head[2] == head[..5][2]
        && head[3] == head[..5][3] && head[4] == head[..5][4];
    var h := head[1..];
    assert h[..3] == "SET";
    assert SkipBlanks(h) == h && SkipBlanks(head) == h;
  }

  lemma OneSpace(s: string)
    requires s != "" && !SqlSpace(s[0])
    ensures SkipBlanks(" " + s) == s
  {
    assert (" " + s)[1..] == s;
    assert SkipBlanks(s) == s;
  }

  lemma NameIsT(tail: string)
    requires tail != "" && tail[0] == ' '
    ensures BareLength("t" + tail) == 1 && ("t" + tail)[..1] == "t" && ("t" + tail)[1..] == tail
  {
    assert BareLength(tail) == 0;
  }

  /** An UPDATE of `t` that sets something, whatever follows. */
  lemma UpdateOfT(tail: string, t: Tail)
    requires ReadTail(tail) == Some(t)
    requires |t.head| > 5 && t.head[..5] == " SET "
    ensures tail != "" && tail[0] == ' '
    ensures ReadUpdateStatement("UPDATE t" + tail) == Some(UpdateStatement(Query("t", t.cond, t.limit), 8 + t.at))
  {
    hide ReadTail, SkipBlanks, BareLength;
    var q, r := "UPDATE t" + tail, "t" + tail;
    HeadIsPrefix(tail);
    SetFirst(t.head);
    assert tail[0] == t.head[0];
    assert q[..6] == "UPDATE" && q[6..] == " " + r;
    OneSpace(r);
    NameIsT(tail);
  }

  /** Nothing inside quotes is a keyword. */
  lemma {:induction false} QuotedSkip(a: string, b: string, w: string)
    requires forall i :: 0 <= i < |a| ==> Neutral(a[i])
    ensures var x := Quoted('\'', 0);
            Word(x, a + b, w) == match Word(x, b, w) case None => None case Some(k) => Some(|a| + k)
  {
    if a == "" {
      assert a + b == b;
    } else {
      assert (a + b)[1..] == a[1..] + b;
      QuotedSkip(a[1..], b, w);
    }
  }

  function Mark(o: Option<nat>, n: nat): Option<nat> {
    match o
    case None => None
    case Some(k) => Some(n + k)
  }

  /** A word after neutral text and a literal is where it is in the text after them. */
  lemma AfterLiteral(front: string, lit: string, back: string, w: string)
    requires Letters(w) && front != ""
    requires forall i :: 0 <= i < |front| ==> Neutral(front[i]) && AsciiUpper(front[i]) != w[0]
    requires forall i :: 0 <= i < |lit| ==> Neutral(lit[i])
    ensures var s := front + ("'" + (lit + ("'" + back)));
            Word(START, s, w) == Mark(Word(Code(0, '\''), back, w), |front| + |lit| + 2)
            && End(START, s) == End(Code(0, '\''), back)
  {
    hide Word, End, Neutral;
    var x := Quoted('\'', 0);
    var r1 := "'" + back;
    var r2 := lit + r1;
    var r3 := "'" + r2;
    NeutralRun(START, front);
    NeutralRun(x, lit);
    var y := End(START, front);
    WordSkip(START, front, r3, w);
    WordSkip(y, "'", r2, w);
    QuotedSkip(lit, r1, w);
    WordSkip(x, "'", back, w);
    OneQuote(y.last);
    EndAppend(START, front, r3);
    EndAppend(y, "'", r2);
    EndAppend(x, lit, r1);
    EndAppend(x, "'", back);
  }

  lemma OneQuote(l: char)
    ensures End(Code(0, l), "'") == Quoted('\'', 0) && End(Quoted('\'', 0), "'") == Code(0, '\'')
  {
    assert "'"[1..] == "";
  }

  /** A tail with a literal in front of its WHERE. */
  lemma LiteralTail(front: string, lit: string, cond: string)
    requires front != "" && forall i :: 0 <= i < |front| ==> Neutral(front[i]) && AsciiUpper(front[i]) !in "WOL"
    requires forall i :: 0 <= i < |lit| ==> Neutral(lit[i])
    requires forall i :: 0 <= i < |cond| ==> Neutral(cond[i]) && AsciiUpper(cond[i]) !in "OL"
    ensures var head := front + "'" + lit + "' ";
            ReadTail(front + "'" + lit + "'" + WHERE + cond) == Some(Tail(head, Some(Trim(cond)), None, |head|))
  {
    hide Word, End, Neutral, Trim;
    var back := WHERE + cond;
    var s := front + ("'" + (lit + ("'" + back)));
    assert front + "'" + lit + "'" + WHERE + cond == s;
    var c := Code(0, '\'');
    AfterLiteral(front, lit, back, "WHERE");
    AfterLiteral(front, lit, back, "ORDER");
    AfterLiteral(front, lit, back, "LIMIT");
    BackOfTail(cond);
    var head := front + "'" + lit + "' ";
    assert s[..|head|] == head && s[|head| + 5..] == " " + cond;
    TrimSpace(cond);
  }

  lemma BackOfTail(cond: string)
    requires forall i :: 0 <= i < |cond| ==> Neutral(cond[i]) && AsciiUpper(cond[i]) !in "OL"
    ensures var c, back := Code(0, '\''), WHERE + cond;
            Word(c, back, "WHERE") == Some(1) && Word(c, back, "ORDER").None? && Word(c, back, "LIMIT").None?
            && Closed(End(c, back))
  {
    hide Word, End, Neutral;
    var c, back := Code(0, '\''), WHERE + cond;
    WhereIsPlain("ORDER");
    WhereIsPlain("LIMIT");
    forall i | 0 <= i < |back| ensures Neutral(back[i]) && AsciiUpper(back[i]) !in "OL" {
      assert back[i] == if i < 7 then WHERE[i] else cond[i - 7];
    }
    NeutralRun(c, back);
    Absent(c, back, "ORDER");
    Absent(c, back, "LIMIT");
    assert back[1..][..5] == "WHERE" && back[1..][5] == ' ' && back[..5][0] == ' ';
    SecondWord(c, back, "WHERE");
  }

  // ---- The examples ---------------------------------------------------------------------------------

  lemma {:induction false} FindIsFirst(u: string, w: string, j: nat)
    requires j <= |u| && w <= u[j..] && w != ""
    ensures Find(u, w).Some? && Find(u, w).value <= j
  {
    if !(w <= u) {
      assert j > 0 by { assert u[0..] == u; }
      assert u[1..][j - 1..] == u[j..];
      FindIsFirst(u[1..], w, j - 1);
    }
  }

  /** In ASCII, what is found is never misaligned. */
  lemma AsciiFind(q: string, up: char -> char)
    requires IsUpperCasing(up) && Ascii(q)
    ensures var i := Find(Upper(up, q), WHERE);
            i.Some? ==> Utf8Length(Upper(up, q)[..i.value]) == Utf8Length(q[..i.value])
  {
    var i := Find(Upper(up, q), WHERE);
    if i.Some? { AsciiKeepsLength(q, up, i.value); }
  }

  lemma LineBreakReads()
    ensures ReadUpdateStatement("UPDATE t" + (" SET a=1\n" + "WHERE id=1"))
         == Some(UpdateStatement(Query("t", Some("id=1"), None), 17))
  {
    hide ReadUpdateStatement, ReadTail;
    var front, back := " SET a=1\n", "WHERE id=1";
    PlainTail(front, back);
    assert back[5..] == " " + "id=1" + "";
    TrimPadded(" ", "id=1", "");
    assert front[..5] == " SET ";
    UpdateOfT(front + back, Tail(front, Some("id=1"), None, 9));
  }

  /** A line break in front of WHERE: no " WHERE " is found, all rows are counted, and there is a warning. */
  lemma LineBreakBeforeWhere(up: char -> char)
    requires IsUpperCasing(up)
    ensures var q := "UPDATE t" + (" SET a=1\n" + "WHERE id=1");
      && ReadUpdateStatement(q) == Some(UpdateStatement(Query("t", Some("id=1"), None), 17))
      && !CountsRight(q, up, Query("t", Some("id=1"), None))
  {
    hide ReadUpdateStatement, ReadTail, CountsRight, Find, Upper, IsUpperCasing;
    var q := "UPDATE t" + (" SET a=1\n" + "WHERE id=1");
    LineBreakReads();
    AsciiFind(q, up);
    UpdatePreviewInPlainTerms(q, up);
    if Find(Upper(up, q), WHERE) == Some(16) {
      FoundText(q, up, 16);
    }
  }

  /** UPDATE t SET, with a literal in front of the condition id=1. */
  function WithLiteral(front: string, lit: string): string {
    "UPDATE t" + (front + "'" + lit + "'" + WHERE + "id=1")
  }

  lemma WithLiteralReads(front: string, lit: string)
    requires |front| > 5 && front[..5] == " SET "
    requires forall i :: 0 <= i < |front| ==> Neutral(front[i]) && AsciiUpper(front[i]) !in "WOL"
    requires forall i :: 0 <= i < |lit| ==> Neutral(lit[i])
    ensures ReadUpdateStatement(WithLiteral(front, lit))
         == Some(UpdateStatement(Query("t", Some("id=1"), None), 8 + |front| + |lit| + 3))
  {
    hide ReadUpdateStatement, ReadTail, Neutral, AsciiUpper;
    CondIsPlain();
    LiteralTail(front, lit, "id=1");
    assert "" + "id=1" + "" == "id=1";
    TrimPadded("", "id=1", "");
    var head := front + "'" + lit + "' ";
    assert head[..5] == front[..5];
    UpdateOfT(front + "'" + lit + "'" + WHERE + "id=1", Tail(head, Some("id=1"), None, |head|));
  }

  lemma CondIsPlain()
    ensures forall i :: 0 <= i < |"id=1"| ==> Neutral("id=1"[i]) && AsciiUpper("id=1"[i]) !in "OL"
  {
  }

  lemma FrontsArePlain()
    ensures forall i :: 0 <= i < |" SET b="| ==> Neutral(" SET b="[i]) && AsciiUpper(" SET b="[i]) !in "WOL"
    ensures " SET b="[..5] == " SET "
  {
  }

  /** A literal with " where " in it: the text is cut inside the literal. */
  lemma WhereInLiteral(up: char -> char)
    requires IsUpperCasing(up)
    ensures var q := WithLiteral(" SET b=", " where ");
      && ReadUpdateStatement(q) == Some(UpdateStatement(Query("t", Some("id=1"), None), 25))
      && !CountsRight(q, up, Query("t", Some("id=1"), None))
  {
    hide ReadUpdateStatement, CountsRight, Find, Upper, IsUpperCasing;
    FrontsArePlain();
    WithLiteralReads(" SET b=", " where ");
    var q := WithLiteral(" SET b=", " where ");
    assert q[16..][..7] == " where ";
    UpperSuffix(up, q, 16);
    UpperStarts(up, q[16..], WHERE);
    FindIsFirst(Upper(up, q), WHERE, 16);
    AsciiFind(q, up);
    UpdatePreviewInPlainTerms(q, up);
  }

  lemma NoWhereBefore(u: string, j: nat)
    requires j <= |u| && forall i :: 0 <= i < j ==> u[i] != 'W'
    requires j == |u| || u[j] != 'W'
    ensures Find(u, WHERE).Some? ==> Find(u, WHERE).value >= j
  {
    var r := Find(u, WHERE);
    if r.Some? {
      assert u[r.value..][1] == 'W' && u[r.value..][1] == u[r.value + 1];
    }
  }

  /** Two dotless i, of two bytes each, become one byte each in upper case: the text is cut two bytes too
      early, inside the keyword. */
  lemma DotlessI(up: char -> char)
    requires IsUpperCasing(up)
    ensures var q := WithLiteral(" SET b=", "\U{131}\U{131}");
      && ReadUpdateStatement(q) == Some(UpdateStatement(Query("t", Some("id=1"), None), 20))
      && Cut(q, up) == Some(24) && q[24..] == "E id=1"
      && !CountsRight(q, up, Query("t", Some("id=1"), None))
  {
    hide ReadUpdateStatement, CountsRight, Cut, IsUpperCasing, Trimmed;
    FrontsArePlain();
    WithLiteralReads(" SET b=", "\U{131}\U{131}");
    var q := WithLiteral(" SET b=", "\U{131}\U{131}");
    DotlessText(q);
    DotlessCut(q, up);
    UpdatePreviewExact(q, up);
  }

  lemma DotlessText(q: string)
    requires q == WithLiteral(" SET b=", "\U{131}\U{131}")
    ensures q == "UPDATE t SET b='" + "\U{131}\U{131}" + "' WHERE id=1" && Trimmed(q)
  {
  }

  lemma DotlessCut(q: string, up: char -> char)
    requires IsUpperCasing(up) && q == "UPDATE t SET b='" + "\U{131}\U{131}" + "' WHERE id=1"
    ensures Cut(q, up) == Some(24) && q[24..] == "E id=1"
  {
    hide Find, AtByte, Utf8Length, Upper, IsUpperCasing, Ascii;
    DotlessFound(q, up);
    AsciiBytes(Upper(up, q)[..19]);
    BytesOfPrefix(q);
    AtByteIs(q, 24);
    assert q[24..] == "E id=1";
  }

  lemma DotlessFound(q: string, up: char -> char)
    requires IsUpperCasing(up) && q == "UPDATE t SET b='" + "\U{131}\U{131}" + "' WHERE id=1"
    ensures Find(Upper(up, q), WHERE) == Some(19) && Ascii(Upper(up, q)[..19])
  {
    hide Find, IsUpperCasing, Starts;
    var u := Upper(up, q);
    WhereAt19(q);
    UpperSuffix(up, q, 19);
    UpperStarts(up, q[19..], WHERE);
    FindIsFirst(u, WHERE, 19);
    UpperOfPrefix(q, up);
    NoWhereBefore(u, 19);
  }

  lemma WhereAt19(q: string)
    requires q == "UPDATE t SET b='" + "\U{131}\U{131}" + "' WHERE id=1"
    ensures |q| > 19 && Starts(q[19..], WHERE)
  {
    assert q[19..][..7] == WHERE;
  }

  lemma UpperOfPrefix(q: string, up: char -> char)
    requires IsUpperCasing(up) && q == "UPDATE t SET b='" + "\U{131}\U{131}" + "' WHERE id=1"
    ensures var u := Upper(up, q); Ascii(u[..19]) && forall i :: 0 <= i <= 19 ==> u[i] != 'W'
  {
    forall i | 0 <= i <= 19 ensures up(q[i]) < '\U{80}' && up(q[i]) != 'W' {
      assert q[i] == '\U{131}' || (q[i] < '\U{80}' && AsciiUpper(q[i]) != 'W');
    }
  }

  lemma BytesOfPrefix(q: string)
    requires q == "UPDATE t SET b='" + "\U{131}\U{131}" + "' WHERE id=1"
    ensures Utf8Length(q[..24]) == 26
  {
    hide Utf8Length;
    var a, b, c := "UPDATE t SET b='", "\U{131}\U{131}", "' WHER";
    assert q[..24] == a + (b + c);
    BytesAppend(a, b + c);
    BytesAppend(b, c);
    AsciiBytes(a);
    AsciiBytes(c);
    TwoDotless();
  }

  lemma TwoDotless()
    ensures Utf8Length("\U{131}\U{131}") == 4
  {
    var b := "\U{131}\U{131}";
    assert b[1..] == "\U{131}" && b[1..][1..] == "";
  }

  /** A limit: at most 5 rows are deleted, all that match are counted, and there is no sample. */
  lemma LimitInDelete(up: char -> char)
    requires IsUpperCasing(up)
    ensures var q := "DELETE " + ("FROM t" + (WHERE + "id>0") + " LIMIT 5");
      && ReadDeleteStatement(q) == Some(Query("t", Some("id>0"), Some(5)))
      && !CountsRight(q, up, Query("t", Some("id>0"), Some(5)))
  {
    hide ReadFrom, CountsRight, IsUpperCasing;
    var src := "FROM t" + (WHERE + "id>0");
    var s := src + " LIMIT 5";
    FromT();
    FromWithLimit(src);
    assert s[0] == 'F' && SkipBlanks(s) == s;
    var q := "DELETE " + s;
    assert q[..6] == "DELETE" && q[6..] == " " + s && (" " + s)[1..] == s;
    assert SkipBlanks(" " + s) == s;
    DeletePreviewExact(q, up);
  }

  lemma FromT()
    ensures ReadFrom("FROM t" + (WHERE + "id>0")) == Some(Query("t", Some("id>0"), None))
  {
    hide ReadTail, Word, End;
    var tail := WHERE + "id>0";
    NeutralRun(SPACE, "id>0");
    Absent(SPACE, "id>0", "ORDER");
    Absent(SPACE, "id>0", "LIMIT");
    DerivedIs("id>0");
    assert "" + "id>0" + "" == "id>0";
    TrimPadded("", "id>0", "");
    FromName(tail);
  }

  lemma FromName(tail: string)
    requires tail != "" && tail[0] == ' '
    ensures After("FROM t" + tail, "FROM") == Some("t" + tail)
    ensures ReadTableName("t" + tail) == Some(("t", tail))
  {
    hide SkipBlanks, BareLength;
    var s, r := "FROM t" + tail, "t" + tail;
    assert s[..4] == "FROM" && s[4..] == " " + r;
    OneSpace(r);
    NameIsT(tail);
  }
}
