/** The preview of a DELETE: exactly when the derived queries are about the rows it deletes, and when the
    warning tells the truth. */
module DeletePreview {
  import opened Text
  import opened Statements
  import opened Preview
  import U = UpdatePreview
  import T = AccountText

  lemma DeletePrefixes(q: string, up: char -> char)
    requires IsUpperCasing(up) && |q| > 6 && Starts(q, "DELETE")
    ensures var u := Upper(up, q); "DELETE" <= u && !("UPDATE " <= u) && ("DELETE " <= u <==> q[6] == ' ')
    ensures |q| >= 7 && ("FROM " <= Upper(up, q[7..]) <==> Starts(q[7..], "FROM "))
  {
    hide Upper, IsUpperCasing, Starts;
    U.UpperStarts(up, q, "UPDATE ");
    U.UpperStarts(up, q, "DELETE ");
    U.UpperStarts(up, q, "DELETE");
    U.UpperStarts(up, q[7..], "FROM ");
    DeleteOrUpdate(q);
  }

  lemma DeleteOrUpdate(q: string)
    requires |q| > 6 && Starts(q, "DELETE")
    ensures !Starts(q, "UPDATE ") && (Starts(q, "DELETE ") <==> q[6] == ' ')
  {
    assert AsciiUpper(q[..6][0]) == 'D' && q[..7][0] == q[0];
    assert forall i :: 0 <= i < 6 ==> q[..7][i] == q[..6][i] && "DELETE "[i] == "DELETE"[i];
    assert q[..7][6] == q[6];
  }

  lemma SourceOfDelete(q: string, up: char -> char)
    requires IsUpperCasing(up) && |q| > 6 && Starts(q, "DELETE")
    ensures "DELETE" <= Upper(up, q)
    ensures Source(q, up) == if q[6] == ' ' && Starts(q[7..], "FROM ") then Some(q[7..]) else None
  {
    hide Upper, IsUpperCasing, Starts, Fields, Find, Cut;
    DeletePrefixes(q, up);
  }

  /** With one space before FROM and one after it, what the code takes is what the statement reads. */
  lemma SameFrom(q: string)
    requires ReadDeleteStatement(q).Some? && |q| > 7 && q[6] == ' ' && Starts(q[7..], "FROM ")
    ensures ReadFrom(q[7..]) == ReadDeleteStatement(q)
  {
    hide ReadFrom, Starts;
    DeleteWord(q);
    FromIsNoSpace(q[7..]);
    assert q[6..][1..] == q[7..];
    assert SkipBlanks(q[7..]) == q[7..];
    assert SkipBlanks(q[6..]) == SkipBlanks(q[7..]);
  }

  lemma FromIsNoSpace(s: string)
    requires Starts(s, "FROM ")
    ensures s != "" && !SqlSpace(s[0])
  {
    assert AsciiUpper(s[..5][0]) == 'F' && s[..5][0] == s[0];
  }

  lemma DeleteWord(q: string)
    requires ReadDeleteStatement(q).Some?
    ensures |q| > 6 && Starts(q, "DELETE") && SqlSpace(q[6]) && ReadDeleteStatement(q) == ReadFrom(SkipBlanks(q[6..]))
  {
    hide ReadFrom, SkipBlanks;
  }

  /** For every DELETE text that is read: the preview counts exactly the rows that will be deleted, on every
      table and for every condition, if and only if there is exactly one space between DELETE and FROM, a
      space after FROM, and no LIMIT; then the sample is right too. */
  lemma DeletePreviewExact(q: string, up: char -> char)
    requires IsUpperCasing(up) && ReadDeleteStatement(q).Some?
    ensures var st := ReadDeleteStatement(q).value;
            var fine := |q| > 7 && q[6] == ' ' && Starts(q[7..], "FROM ") && st.limit.None?;
            (CountsRight(q, up, st) <==> fine) && (fine ==> SamplesRight(q, up, st))
  {
    hide Source, ReadFrom, Starts, IsUpperCasing, Upper, CountsRight, SamplesRight, ReadDeleteStatement;
    var st := ReadDeleteStatement(q).value;
    DeleteWord(q);
    SourceOfDelete(q, up);
    EmptyDoesNotStart();
    if st.limit.Some? {
      LimitIsWrong(q, up, st);
    } else if q[6] == ' ' && Starts(q[7..], "FROM ") {
      SameFrom(q);
      SameQueryIsRight(q, up, st);
    } else {
      OtherConditionIsWrong(q, up, st);
    }
  }

  lemma EmptyDoesNotStart()
    ensures forall q: string :: |q| <= 7 && |q| > 6 ==> !Starts(q[7..], "FROM ")
  {
  }

  // ---- The warning ----------------------------------------------------------------------------------

  /** A table name with nothing after it. */
  lemma NothingAfter(q: string, n: nat)
    requires Trimmed(q) && n <= |q| && '`' !in q && ReadTableName(q[n..]).Some?
    requires var tail := ReadTableName(q[n..]).value.1;
             var t := ReadTail(tail);
             t.Some? && t.value.cond.None? && t.value.limit.None? && Blanks(t.value.head)
    ensures n < |q| && BareLength(q[n..]) == |q| - n
  {
    hide ReadTail, BareLength;
    var s := q[n..];
    assert s != "" ==> s[0] == q[n] && q[n] in q;
    assert s[BareLength(s)..] == q[n + BareLength(s)..];
    U.TailWithoutLimit(s[BareLength(s)..]);
    BlankEnd(q, n + BareLength(s));
  }

  lemma LastOf(q: string, k: nat)
    requires k < |q| && Blanks(q[k..])
    ensures IsSpace(q[|q| - 1])
  {
    assert q[k..][|q| - 1 - k] == q[|q| - 1];
  }

  lemma BlankEnd(q: string, k: nat)
    requires Trimmed(q) && k <= |q| && (ReadWhere(q[k..], None).cond.None? ==> Blanks(ReadWhere(q[k..], None).head))
    requires ReadWhere(q[k..], None).cond.None?
    ensures k == |q|
  {
    hide Word;
    if k < |q| { LastOf(q, k); }
  }

  lemma SpacesOf(q: string, f: nat, n: nat)
    requires 6 < f < f + 4 < n < |q| && Starts(q, "DELETE") && Starts(q[f..], "FROM")
    requires Blanks(q[6..f]) && Blanks(q[f + 4..n]) && BareLength(q[n..]) == |q| - n
    ensures forall i :: 0 <= i < |q| ==> (IsSpace(q[i]) <==> 6 <= i < f || f + 4 <= i < n)
  {
    forall i | 0 <= i < |q| ensures IsSpace(q[i]) <==> 6 <= i < f || f + 4 <= i < n {
      if i < 6 { assert q[..6][i] == q[i] && AsciiUpper(q[i]) == "DELETE"[i]; }
      else if i < f { assert q[6..f][i - 6] == q[i]; }
      else if i < f + 4 { assert q[f..][..4][i - f] == q[i] && AsciiUpper(q[i]) == "FROM"[i - f]; }
      else if i < n { assert q[f + 4..n][i - f - 4] == q[i]; }
      else { assert q[n..][i - n] == q[i]; }
    }
  }

  /** A word, white space, and what is read after it. */
  lemma WordAndBlanks(s: string, w: string)
    requires After(s, w).Some?
    ensures var n := |s| - |After(s, w).value|;
            |w| < n <= |s| && Starts(s, w) && Blanks(s[|w|..n]) && After(s, w).value == s[n..]
  {
    var t := s[|w|..];
    SkipBlanksSplits(t);
    var r := SkipBlanks(t);
    assert s[|w|..|s| - |r|] == t[..|t| - |r|];
    assert s[|s| - |r|..] == t[|t| - |r|..];
    assert |r| <= |t[1..]|;
  }

  /** DELETE, white space, FROM, white space, and a bare name up to the end. */
  lemma WholeTableShape(q: string) returns (f: nat, n: nat)
    requires Trimmed(q) && '`' !in q && ReadDeleteStatement(q).Some?
    requires ReadDeleteStatement(q).value.cond.None? && ReadDeleteStatement(q).value.limit.None?
    ensures 6 < f < f + 4 < n < |q|
    ensures Starts(q, "DELETE") && Starts(q[f..], "FROM")
    ensures forall i :: 0 <= i < |q| ==> (IsSpace(q[i]) <==> 6 <= i < f || f + 4 <= i < n)
  {
    hide ReadTail, Trimmed, Starts, BareLength, Blanks, IsSpace, After, ReadTableName;
    var r := After(q, "DELETE").value;
    WordAndBlanks(q, "DELETE");
    f := |q| - |r|;
    var name := After(r, "FROM").value;
    WordAndBlanks(r, "FROM");
    n := |q| - |name|;
    assert name == q[n..] && r[4..n - f] == q[f + 4..n];
    NothingAfter(q, n);
    SpacesOf(q, f, n);
  }

  /** A statement that deletes all rows has no " WHERE ", not even one that names its table. */
  lemma WholeTableHasNoWhere(q: string, up: char -> char)
    requires IsUpperCasing(up) && Trimmed(q) && '`' !in q && ReadDeleteStatement(q).Some?
    requires ReadDeleteStatement(q).value.cond.None? && ReadDeleteStatement(q).value.limit.None?
    ensures Find(Upper(up, q), WHERE).None?
  {
    hide Find, Upper, IsUpperCasing, ReadDeleteStatement, Starts, Spells;
    var f, n := WholeTableShape(q);
    if Find(Upper(up, q), WHERE).Some? {
      var i := Find(Upper(up, q), WHERE).value;
      U.FoundText(q, up, i);
      NotHere(q, f, n, i);
    }
  }

  lemma NotHere(q: string, f: nat, n: nat, i: nat)
    requires 6 < f < f + 4 < n < |q| && Starts(q, "DELETE") && Starts(q[f..], "FROM")
    requires forall j :: 0 <= j < |q| ==> (IsSpace(q[j]) <==> 6 <= j < f || f + 4 <= j < n)
    requires i + 7 <= |q| && q[i] == ' '
    ensures q[i + 6] == ' ' ==> !Spells(q[i + 1..i + 6], "WHERE")
  {
    assert q[f..][..4][3] == q[f + 3] && AsciiUpper(q[f + 3]) == 'M';
    assert q[i + 1..i + 6][4] == q[i + 5];
    assert IsSpace(q[i]);
  }

  /** The warning says that all rows will be deleted. For every DELETE from a bare table it tells the truth, that
      is, it is given exactly when they will be, if and only if they will be or the upper-cased text has a
      " WHERE ": a WHERE next to another white space character, or a mere LIMIT, gets a false warning. */
  lemma DeleteWarningExact(q: string, up: char -> char)
    requires IsUpperCasing(up) && Trimmed(q) && '`' !in q && ReadDeleteStatement(q).Some?
    ensures var st := ReadDeleteStatement(q).value;
            var all := st.cond.None? && st.limit.None?;
            (Warns(q, up) <==> all) <==> all || Find(Upper(up, q), WHERE).Some?
  {
    hide Find, Upper, IsUpperCasing, ReadDeleteStatement, Starts, Trimmed;
    DeleteWord(q);
    SourceOfDelete(q, up);
    var st := ReadDeleteStatement(q).value;
    if st.cond.None? && st.limit.None? {
      WholeTableHasNoWhere(q, up);
    }
  }
}
