/** PreviewQuery on UPDATE and DELETE: the SELECTs it derives to count and sample the affected rows, and
    exactly when they do. The derived texts and the statements themselves are read by the same reader. */
module Preview {
  import opened Text
  import opened RowText
  import opened Statements
  import T = AccountText

  // ---- The text work --------------------------------------------------------------------------------

  /** strings.ToUpper, character by character. Outside ASCII only dotless i and long s have an upper case
      inside it; any character may become one with fewer or more bytes. */
  ghost predicate IsUpperCasing(up: char -> char) {
    && (forall c :: c < '\U{80}' ==> up(c) == AsciiUpper(c))
    && (forall c :: c >= '\U{80}' && up(c) < '\U{80}' ==> up(c) == 'I' || up(c) == 'S')
    && up('\U{131}') == 'I' && up('\U{17F}') == 'S'
  }

  function Upper(up: char -> char, s: string): (u: string)
    ensures |u| == |s|
  {
    seq(|s|, i requires 0 <= i < |s| => up(s[i]))
  }

  /** strings.Index, in characters. */
  function Find(s: string, w: string): (r: Option<nat>)
    ensures r.Some? ==> r.value + |w| <= |s| && w <= s[r.value..]
  {
    if w <= s then Some(0)
    else if s == "" then None
    else match Find(s[1..], w)
      case None => None
      case Some(i) => Some(i + 1)
  }

  /** The character at byte offset `b`; none in the middle of a character or past the end, where slicing
      gives broken text or panics. */
  function AtByte(s: string, b: nat): (r: Option<nat>)
    ensures r.Some? ==> r.value <= |s|
  {
    if b == 0 then Some(0)
    else if s == "" || b < CharBytes(s[0]) then None
    else match AtByte(s[1..], b - CharBytes(s[0]))
      case None => None
      case Some(k) => Some(k + 1)
  }

  /** Up to the first white space. */
  function WordLength(s: string): (n: nat)
    ensures n <= |s| && (s != "" && !IsSpace(s[0]) ==> n > 0)
  {
    if s == "" || IsSpace(s[0]) then 0 else 1 + WordLength(s[1..])
  }

  lemma {:induction false} TrimLeftShortens(s: string)
    ensures |TrimLeft(s)| <= |s| && (TrimLeft(s) != "" ==> !IsSpace(TrimLeft(s)[0]))
  {
    if s != "" && IsSpace(s[0]) { TrimLeftShortens(s[1..]); }
  }

  /** strings.Fields. */
  function Fields(s: string): seq<string>
    decreases |s|
  {
    TrimLeftShortens(s);
    var t := TrimLeft(s);
    if t == "" then [] else [t[..WordLength(t)]] + Fields(t[WordLength(t)..])
  }

  const WHERE := " WHERE "

  /** Where the code cuts an UPDATE that has " WHERE " somewhere: it adds 7 to a byte offset in the
      upper-cased text and cuts the text itself there. */
  function Cut(q: string, up: char -> char): Option<nat> {
    match Find(Upper(up, q), WHERE)
    case None => None
    case Some(i) => AtByte(q, Utf8Length(Upper(up, q)[..i]) + 7)
  }

  /** What both derived SELECTs select from: the DELETE's own text from FROM on, or the quoted second
      word of the UPDATE with the text after the cut. None when the code does not convert the
      statement, or cuts where there is no character. `q` has been trimmed. */
  function Source(q: string, up: char -> char): Option<string> {
    var u := Upper(up, q);
    if "DELETE " <= u then
      if "FROM " <= Upper(up, q[7..]) then Some(q[7..]) else None
    else if "UPDATE " <= u then
      if |Fields(q)| < 2 then None
      else match Find(u, WHERE)
        case None => Some("FROM " + Quote(Fields(q)[1]))
        case Some(_) =>
          match Cut(q, up)
          case None => None
          case Some(k) => Some("FROM " + Quote(Fields(q)[1]) + WHERE + q[k..])
    else None
  }

  /** dmlToCountSQL; the empty text when it cannot convert. */
  function DmlToCountSQL(q: string, up: char -> char): string {
    if Source(q, up).Some? then "SELECT COUNT(*) " + Source(q, up).value else ""
  }

  /** dmlToSampleSQL. */
  function DmlToSampleSQL(q: string, up: char -> char): string {
    if Source(q, up).Some? then "SELECT * " + Source(q, up).value + " LIMIT 5" else ""
  }

  /** PreviewQuery's warning that all rows will be affected. */
  predicate Warns(q: string, up: char -> char) {
    var u := Upper(up, q);
    ("UPDATE" <= u || "DELETE" <= u) && Find(u, WHERE).None?
  }

  // ---- What is wanted -------------------------------------------------------------------------------

  /** On every table and for every meaning of the conditions, the count is the number of rows that the
      statement affects. */
  ghost predicate CountsRight(q: string, up: char -> char, st: Query) {
    forall tables: Tables, holds: iset<(string, RowId)> :: st.table in tables ==>
      CountRows(tables, DmlToCountSQL(q, up), holds) == Some(|Selected(tables[st.table], st, holds)|)
  }

  /** And the sample is the first five of them. */
  ghost predicate SamplesRight(q: string, up: char -> char, st: Query) {
    forall tables: Tables, holds: iset<(string, RowId)> :: st.table in tables ==>
      SampleRows(tables, DmlToSampleSQL(q, up), holds)
        == Some(Limited(Selected(tables[st.table], st, holds), Some(5)))
  }

  lemma FromWithLimit(src: string)
    requires ReadFrom(src).Some? && ReadFrom(src).value.limit.None?
    ensures ReadFrom(src + " LIMIT 5") == Some(ReadFrom(src).value.(limit := Some(5)))
  {
    var r := After(src, "FROM").value;
    AfterLonger(src, "FROM", " LIMIT 5");
    var (table, tail) := ReadTableName(r).value;
    TableNameLonger(r, " LIMIT 5");
    TailWithLimit(tail);
  }

  lemma AfterLonger(s: string, w: string, b: string)
    requires After(s, w).Some? && After(s, w).value != ""
    ensures After(s + b, w) == Some(After(s, w).value + b)
  {
    assert (s + b)[..|w|] == s[..|w|] && (s + b)[|w|..] == s[|w|..] + b;
    SkipBlanksLonger(s[|w|..], b);
  }

  lemma {:induction false} SkipBlanksLonger(s: string, b: string)
    requires SkipBlanks(s) != ""
    ensures SkipBlanks(s + b) == SkipBlanks(s) + b
  {
    if SqlSpace(s[0]) {
      assert (s + b)[1..] == s[1..] + b;
      SkipBlanksLonger(s[1..], b);
    }
  }

  lemma TableNameLonger(s: string, b: string)
    requires ReadTableName(s).Some? && b != "" && b[0] == ' '
    ensures var (table, tail) := ReadTableName(s).value; ReadTableName(s + b) == Some((table, tail + b))
  {
    if s[0] == '`' {
      NameLonger(s[1..], b);
      assert (s + b)[1..] == s[1..] + b;
    } else {
      var n := BareLength(s);
      BareLengthOf(s[..n], s[n..] + b);
      assert s[..n] + (s[n..] + b) == s + b;
      assert (s + b)[..n] == s[..n] && (s + b)[n..] == s[n..] + b;
    }
  }

  lemma {:induction false} NameLonger(s: string, b: string)
    requires ReadName(s).Some? && b != "" && b[0] == ' '
    ensures var (name, rest) := ReadName(s).value; ReadName(s + b) == Some((name, rest + b))
    decreases |s|
  {
    if s[0] == '`' && |s| > 1 && s[1] == '`' {
      NameLonger(s[2..], b);
      assert (s + b)[2..] == s[2..] + b;
    } else {
      assert (s + b)[1..] == s[1..] + b;
      if s[0] != '`' { NameLonger(s[1..], b); }
    }
  }

  lemma {:induction false} BareLengthOf(name: string, rest: string)
    requires forall i :: 0 <= i < |name| ==> T.NameChar(name[i])
    requires rest != "" ==> !T.NameChar(rest[0])
    ensures BareLength(name + rest) == |name|
  {
    if name == "" {
      assert name + rest == rest;
    } else {
      BareLengthOf(name[1..], rest);
      assert (name + rest)[1..] == name[1..] + rest;
    }
  }

  /** The number counted depends on the text only through how it is read. */
  lemma CountsWhatIsRead(q: string, up: char -> char, tables: Tables, holds: iset<(string, RowId)>)
    ensures CountRows(tables, DmlToCountSQL(q, up), holds) ==
      if Source(q, up).None? || ReadFrom(Source(q, up).value).None? then None
      else var d := ReadFrom(Source(q, up).value).value;
           if d.table in tables && d.limit != Some(0) then Some(|Matching(tables[d.table], d.cond, holds)|) else None
  {
    if Source(q, up).Some? {
      ExpectPrefix("SELECT COUNT(*) ", Source(q, up).value);
    }
  }

  lemma SamplesWhatIsRead(q: string, up: char -> char, tables: Tables, holds: iset<(string, RowId)>)
    requires Source(q, up).Some? && ReadFrom(Source(q, up).value + " LIMIT 5").Some?
    ensures var d := ReadFrom(Source(q, up).value + " LIMIT 5").value;
            SampleRows(tables, DmlToSampleSQL(q, up), holds)
              == if d.table in tables then Some(Selected(tables[d.table], d, holds)) else None
  {
    var src := Source(q, up).value;
    ExpectPrefix("SELECT * ", src + " LIMIT 5");
    assert "SELECT * " + src + " LIMIT 5" == "SELECT * " + (src + " LIMIT 5");
  }

  /** A derived text that is read as the statement's own query, which has no limit, does what is wanted. */
  lemma SameQueryIsRight(q: string, up: char -> char, st: Query)
    requires Source(q, up).Some? && ReadFrom(Source(q, up).value) == Some(st) && st.limit.None?
    ensures CountsRight(q, up, st) && SamplesRight(q, up, st)
  {
    hide ReadFrom, Source, Matching, CountRows, SampleRows, DmlToCountSQL, DmlToSampleSQL;
    FromWithLimit(Source(q, up).value);
    forall tables: Tables, holds: iset<(string, RowId)> | st.table in tables
      ensures CountRows(tables, DmlToCountSQL(q, up), holds) == Some(|Selected(tables[st.table], st, holds)|)
      ensures SampleRows(tables, DmlToSampleSQL(q, up), holds)
        == Some(Limited(Selected(tables[st.table], st, holds), Some(5)))
    {
      CountsWhatIsRead(q, up, tables, holds);
      SamplesWhatIsRead(q, up, tables, holds);
    }
  }

  // ---- When it is wrong -----------------------------------------------------------------------------

  lemma {:induction false} MatchingAll(rows: seq<RowId>, cond: Option<string>, holds: iset<(string, RowId)>)
    requires forall c: string, r: RowId :: (c, r) in holds
    ensures Matching(rows, cond, holds) == rows
  {
    if rows != [] { MatchingAll(rows[1..], cond, holds); }
  }

  /** With a limit, the count is too high on a table with one row more than the limit, all matching. */
  lemma LimitIsWrong(q: string, up: char -> char, st: Query)
    requires st.limit.Some?
    ensures !CountsRight(q, up, st)
  {
    var n := st.limit.value;
    var rows: seq<RowId> := seq(n + 1, i => i);
    var tables: Tables := map[st.table := rows];
    var holds := iset c: string, r: RowId | true :: (c, r);
    MatchingAll(rows, st.cond, holds);
    CountsWhatIsRead(q, up, tables, holds);
    if Source(q, up).Some? && ReadFrom(Source(q, up).value).Some? {
      MatchingAll(rows, ReadFrom(Source(q, up).value).value.cond, holds);
    }
    assert CountRows(tables, DmlToCountSQL(q, up), holds) != Some(|Selected(rows, st, holds)|);
  }

  /** Another condition, or none where there is one, is told apart on a table with one row. */
  lemma OtherConditionIsWrong(q: string, up: char -> char, st: Query)
    requires st.limit.None?
    requires Source(q, up).Some? && ReadFrom(Source(q, up).value).Some? ==>
               ReadFrom(Source(q, up).value).value.cond != st.cond
    ensures !CountsRight(q, up, st)
  {
    var src := Source(q, up);
    var other := if src.Some? && ReadFrom(src.value).Some? then ReadFrom(src.value).value.cond else None;
    var tables: Tables := map[st.table := [0]];
    var holds := iset c: string, r: RowId | st.cond == Some(c) && other.Some? :: (c, r);
    CountsWhatIsRead(q, up, tables, holds);
    MatchingOne(st.cond, holds);
    MatchingOne(other, holds);
    hide ReadFrom, Source, Matching, CountRows, DmlToCountSQL;
    assert CountRows(tables, DmlToCountSQL(q, up), holds) != Some(|Selected([0], st, holds)|);
  }

  lemma MatchingOne(cond: Option<string>, holds: iset<(string, RowId)>)
    ensures |Matching([0], cond, holds)| == if cond.None? || (cond.value, 0) in holds then 1 else 0
  {
    assert [0][1..] == [];
  }
}
