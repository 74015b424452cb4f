/** UPDATE and DELETE of one table, and the SELECTs that count and list its rows, read from their texts:
    which table, under which condition, up to which limit. Quotes, parentheses and backslashes are followed
    character by character; a clause keyword counts only outside quotes and parentheses. Texts with
    comments, several statements or ORDER BY are not read. */
module Statements {
  import opened Text
  import opened RowText
  import T = AccountText

  // ---- Following the text ---------------------------------------------------------------------------

  /** Keywords are ASCII and their case does not matter. */
  function AsciiUpper(c: char): char {
    if 'a' <= c <= 'z' then c - 'a' + 'A' else c
  }

  predicate Spells(s: string, w: string) {
    |s| == |w| && forall i :: 0 <= i < |s| ==> AsciiUpper(s[i]) == w[i]
  }

  predicate Starts(s: string, w: string) {
    |w| <= |s| && Spells(s[..|w|], w)
  }

  /** Characters that continue a word; after a dot or an at sign a keyword is a name. */
  predicate WordChar(c: char) {
    T.NameChar(c) || c == '$' || c == '.' || c == '@' || (c >= '\U{80}' && !IsSpace(c))
  }

  /** Between two characters: in code, with the parentheses that are open and the character before;
      inside quotes; after a backslash inside quotes; or where this reader gives up. */
  datatype Ctx =
    | Code(depth: nat, last: char)
    | Quoted(q: char, depth: nat)
    | Escaped(q: char, depth: nat)
    | Bad

  predicate QuoteMark(c: char) {
    c == '\'' || c == '"' || c == '`'
  }

  function Step(x: Ctx, c: char): Ctx {
    match x
    case Code(d, last) =>
      if QuoteMark(c) then Quoted(c, d)
      else if c == '(' then Code(d + 1, c)
      else if c == ')' then if d == 0 then Bad else Code(d - 1, c)
      else if c == ';' || c == '#' || (last == '-' && c == '-') || (last == '/' && c == '*') then Bad
      else Code(d, c)
    case Quoted(q, d) => if c == q then Code(d, c) else if c == '\\' && q != '`' then Escaped(q, d) else x
    case Escaped(q, d) => Quoted(q, d)
    case Bad => Bad
  }

  function End(x: Ctx, s: string): Ctx
    decreases |s|
  {
    if s == "" then x else End(Step(x, s[0]), s[1..])
  }

  predicate Here(x: Ctx, s: string, w: string) {
    x.Code? && x.depth == 0 && !WordChar(x.last) && Starts(s, w) && (|s| > |w| ==> !WordChar(s[|w|]))
  }

  /** Where the word first stands on its own, outside quotes and parentheses. */
  function Word(x: Ctx, s: string, w: string): (r: Option<nat>)
    ensures r.Some? ==> r.value + |w| <= |s|
    decreases |s|
  {
    if s == "" then None
    else if Here(x, s, w) then Some(0)
    else match Word(Step(x, s[0]), s[1..], w)
      case None => None
      case Some(k) => Some(k + 1)
  }

  lemma {:induction false} EndAppend(x: Ctx, a: string, b: string)
    ensures End(x, a + b) == End(End(x, a), b)
    decreases |a|
  {
    if a == "" {
      assert a + b == b;
    } else {
      EndAppend(Step(x, a[0]), a[1..], b);
      assert (a + b)[1..] == a[1..] + b;
    }
  }

  /** A word that stands nowhere in a text stands nowhere in its end. */
  lemma {:induction false} WordSuffix(x: Ctx, a: string, b: string, w: string)
    requires Word(x, a + b, w).None?
    ensures Word(End(x, a), b, w).None?
    decreases |a|
  {
    hide Here, Step;
    if a == "" {
      assert a + b == b;
    } else {
      assert (a + b)[1..] == a[1..] + b;
      WordSuffix(Step(x, a[0]), a[1..], b, w);
    }
  }

  /** A word found in the end of a text is found in the text, at the same place or before. */
  lemma {:induction false} WordInFront(x: Ctx, a: string, b: string, w: string)
    requires Word(End(x, a), b, w).Some?
    ensures Word(x, a + b, w).Some? && Word(x, a + b, w).value <= |a| + Word(End(x, a), b, w).value
    decreases |a|
  {
    hide Here, Step;
    if a == "" {
      assert a + b == b;
    } else {
      assert (a + b)[1..] == a[1..] + b;
      WordInFront(Step(x, a[0]), a[1..], b, w);
    }
  }

  predicate Letters(w: string) {
    w != "" && forall i :: 0 <= i < |w| ==> 'A' <= w[i] <= 'Z'
  }

  lemma HereAppend(x: Ctx, a: string, b: string, w: string)
    requires a != "" && Letters(w) && (b != "" ==> b[0] == ' ')
    ensures Here(x, a + b, w) <==> Here(x, a, w)
  {
    if |w| <= |a| {
      assert (a + b)[..|w|] == a[..|w|];
    } else if |w| <= |a + b| {
      assert (a + b)[..|w|][|a|] == ' ';
    }
  }

  /** Text that starts with a space does not join up with a word before it. */
  lemma {:induction false} WordAppend(x: Ctx, a: string, b: string, w: string)
    requires Letters(w) && (b != "" ==> b[0] == ' ')
    ensures Word(x, a + b, w) ==
      match Word(x, a, w)
      case Some(k) => Some(k)
      case None => match Word(End(x, a), b, w) case None => None case Some(k) => Some(|a| + k)
    decreases |a|
  {
    hide Here, Step, Letters;
    if a == "" {
      assert a + b == b;
    } else {
      HereAppend(x, a, b, w);
      assert (a + b)[1..] == a[1..] + b;
      WordAppend(Step(x, a[0]), a[1..], b, w);
    }
  }

  // ---- The clauses ----------------------------------------------------------------------------------

  predicate SqlSpace(c: char) {
    c == ' ' || '\t' <= c <= '\r'
  }

  predicate Blanks(s: string) {
    forall i :: 0 <= i < |s| ==> SqlSpace(s[i])
  }

  function SkipBlanks(s: string): (r: string)
    ensures |r| <= |s|
  {
    if s != "" && SqlSpace(s[0]) then SkipBlanks(s[1..]) else s
  }

  lemma {:induction false} SkipBlanksSplits(s: string)
    ensures var r := SkipBlanks(s);
            s == s[..|s| - |r|] + r && Blanks(s[..|s| - |r|]) && (r != "" ==> !SqlSpace(r[0]))
  {
    if s != "" && SqlSpace(s[0]) {
      SkipBlanksSplits(s[1..]);
      var r := SkipBlanks(s);
      assert s[..|s| - |r|] == [s[0]] + s[1..][..|s| - 1 - |r|];
    }
  }

  /** A leading word with white space after it, and the text after that. */
  function After(s: string, w: string): (r: Option<string>)
    ensures r.Some? ==> |r.value| <= |s|
  {
    if Starts(s, w) && |s| > |w| && SqlSpace(s[|w|]) then Some(SkipBlanks(s[|w|..])) else None
  }

  predicate Digits(s: string) {
    s != "" && forall i :: 0 <= i < |s| ==> '0' <= s[i] <= '9'
  }

  function Value(s: string): nat
    requires forall i :: 0 <= i < |s| ==> '0' <= s[i] <= '9'
  {
    if s == "" then 0 else 10 * Value(s[..|s| - 1]) + (s[|s| - 1] - '0') as nat
  }

  /** White space, a number, and at most white space after it. */
  function ReadNumber(s: string): Option<nat> {
    if s != "" && SqlSpace(s[0]) && Digits(Trim(s)) then Some(Value(Trim(s))) else None
  }

  /** What follows the table name: text before WHERE, the condition, the limit; `at` is where WHERE stands,
      or the end of what is in front of the limit. */
  datatype Tail = Tail(head: string, cond: Option<string>, limit: Option<nat>, at: nat)

  // A name has just ended.
  const START: Ctx := Code(0, 'x')

  function ReadWhere(s: string, limit: Option<nat>): Tail {
    match Word(START, s, "WHERE")
    case None => Tail(s, None, limit, |s|)
    case Some(p) => Tail(s[..p], Some(Trim(s[p + 5..])), limit, p)
  }

  predicate Closed(x: Ctx) {
    x.Code? && x.depth == 0
  }

  function ReadTail(s: string): Option<Tail> {
    if !Closed(End(START, s)) || Word(START, s, "ORDER").Some? then None
    else match Word(START, s, "LIMIT")
      case None => Some(ReadWhere(s, None))
      case Some(k) =>
        match ReadNumber(s[k + 5..])
        case None => None
        case Some(n) => Some(ReadWhere(s[..k], Some(n)))
  }

  // ---- The statements -------------------------------------------------------------------------------

  /** A table, the condition on its rows, and how many of them at most. */
  datatype Query = Query(table: string, cond: Option<string>, limit: Option<nat>)

  function BareLength(s: string): (n: nat)
    ensures n <= |s|
    ensures forall i :: 0 <= i < n ==> T.NameChar(s[i])
    ensures n < |s| ==> !T.NameChar(s[n])
  {
    if s == "" || !T.NameChar(s[0]) then 0 else 1 + BareLength(s[1..])
  }

  /** A table name, bare or in backticks, and the text after it. */
  function ReadTableName(s: string): Option<(string, string)> {
    if s != "" && s[0] == '`' then ReadIdent(s)
    else if BareLength(s) > 0 then Some((s[..BareLength(s)], s[BareLength(s)..]))
    else None
  }

  function ReadFrom(s: string): Option<Query> {
    match After(s, "FROM")
    case None => None
    case Some(r) =>
      match ReadTableName(r)
      case None => None
      case Some((table, tail)) =>
        match ReadTail(tail)
        case None => None
        case Some(t) => if Blanks(t.head) then Some(Query(table, t.cond, t.limit)) else None
  }

  function ReadDeleteStatement(q: string): Option<Query> {
    match After(q, "DELETE")
    case None => None
    case Some(r) => ReadFrom(r)
  }

  /** An UPDATE of a bare table, and where its WHERE stands in the text. */
  datatype UpdateStatement = UpdateStatement(query: Query, at: nat)

  function ReadUpdateStatement(q: string): Option<UpdateStatement> {
    match After(q, "UPDATE")
    case None => None
    case Some(r) =>
      var n := BareLength(r);
      if n == 0 then None
      else match ReadTail(r[n..])
        case None => None
        case Some(t) =>
          if t.head != "" && SqlSpace(t.head[0]) && After(SkipBlanks(t.head), "SET").Some?
          then Some(UpdateStatement(Query(r[..n], t.cond, t.limit), |q| - |r| + n + t.at))
          else None
  }

  // ---- What they mean -------------------------------------------------------------------------------

  /** Rows are told apart by number; `holds` are the conditions that hold, and of which rows. */
  type RowId = int

  type Tables = map<string, seq<RowId>>

  ghost function Matching(rows: seq<RowId>, cond: Option<string>, holds: iset<(string, RowId)>): seq<RowId> {
    if rows == [] then []
    else (if cond.None? || (cond.value, rows[0]) in holds then [rows[0]] else []) + Matching(rows[1..], cond, holds)
  }

  function Limited(rows: seq<RowId>, limit: Option<nat>): seq<RowId> {
    if limit.Some? && limit.value < |rows| then rows[..limit.value] else rows
  }

  /** The rows an UPDATE or DELETE changes, and those a SELECT * lists. */
  ghost function Selected(rows: seq<RowId>, q: Query, holds: iset<(string, RowId)>): seq<RowId> {
    Limited(Matching(rows, q.cond, holds), q.limit)
  }

  /** The number a count query yields: one row with the number of matching rows, unless the limit is 0. */
  ghost function CountRows(tables: Tables, text: string, holds: iset<(string, RowId)>): Option<nat> {
    match Expect(text, "SELECT COUNT(*) ")
    case None => None
    case Some(r) =>
      match ReadFrom(r)
      case None => None
      case Some(q) =>
        if q.table in tables && q.limit != Some(0) then Some(|Matching(tables[q.table], q.cond, holds)|) else None
  }

  ghost function SampleRows(tables: Tables, text: string, holds: iset<(string, RowId)>): Option<seq<RowId>> {
    match Expect(text, "SELECT * ")
    case None => None
    case Some(r) =>
      match ReadFrom(r)
      case None => None
      case Some(q) => if q.table in tables then Some(Selected(tables[q.table], q, holds)) else None
  }

  // ---- Plain stretches of text ----------------------------------------------------------------------

  /** Characters that only the character after them can see. */
  predicate Neutral(c: char) {
    && c != '\'' && c != '"' && c != '`' && c != '\\' && c != '(' && c != ')'
    && c != ';' && c != '#' && c != '-' && c != '/' && c != '*'
  }

  lemma {:induction false} NeutralRun(x: Ctx, s: string)
    requires forall i :: 0 <= i < |s| ==> Neutral(s[i])
    ensures x.Code? ==> End(x, s) == Code(x.depth, if s == "" then x.last else s[|s| - 1])
    ensures x.Bad? || (x.Quoted? && QuoteMark(x.q)) ==> End(x, s) == x
    ensures x.Escaped? && QuoteMark(x.q) && s != "" ==> End(x, s) == Quoted(x.q, x.depth)
    decreases |s|
  {
    if s != "" {
      var y := Step(x, s[0]);
      NeutralRun(y, s[1..]);
      assert x.Code? ==> y == Code(x.depth, s[0]);
    }
  }

  lemma {:induction false} Absent(x: Ctx, s: string, w: string)
    requires Letters(w) && forall i :: 0 <= i < |s| ==> AsciiUpper(s[i]) != w[0]
    ensures Word(x, s, w).None?
    decreases |s|
  {
    if s != "" {
      Absent(Step(x, s[0]), s[1..], w);
      assert |w| <= |s| ==> s[..|w|][0] == s[0];
    }
  }

  // ---- A limit in addition --------------------------------------------------------------------------

  lemma LimitAlone(x: Ctx)
    requires Closed(x)
    ensures End(x, " LIMIT 5") == Code(0, '5')
    ensures Word(x, " LIMIT 5", "LIMIT") == Some(1)
    ensures Word(x, " LIMIT 5", "ORDER").None? && Word(x, " ", "WHERE").None?
  {
    hide Word, End, Here, Starts, Step, WordChar;
    var s := " LIMIT 5";
    assert Letters("ORDER") && Letters("WHERE");
    NeutralRun(x, s);
    Absent(x, s, "ORDER");
    Absent(x, " ", "WHERE");
    LimitHere();
    SecondWord(x, s, "LIMIT");
  }

  lemma LimitHere()
    ensures Here(Code(0, ' '), " LIMIT 5"[1..], "LIMIT") && !Starts(" LIMIT 5", "LIMIT")
  {
    var s := " LIMIT 5";
    assert s[1..][..5] == "LIMIT" && s[1..][5] == ' ';
    assert s[..5][0] == ' ';
  }

  lemma SecondWord(x: Ctx, s: string, w: string)
    requires Closed(x) && s != "" && s[0] == ' ' && !Starts(s, w) && Here(Code(0, ' '), s[1..], w) && w != ""
    ensures Word(x, s, w) == Some(1)
  {
    hide Here, Starts;
    assert Step(x, ' ') == Code(0, ' ');
    NotHere(x, s, w);
    HereIsNotEmpty(Code(0, ' '), s[1..], w);
  }

  lemma NotHere(x: Ctx, s: string, w: string)
    requires !Starts(s, w)
    ensures !Here(x, s, w)
  {
  }

  lemma HereIsNotEmpty(x: Ctx, s: string, w: string)
    requires Here(x, s, w) && w != ""
    ensures s != ""
  {
  }

  lemma FiveIsFive()
    ensures ReadNumber(" LIMIT 5"[6..]) == Some(5)
  {
    var s := " LIMIT 5"[6..];
    assert s == " " + "5" + "";
    TrimPadded(" ", "5", "");
    assert "5"[..0] == "";
  }

  /** What the sample query adds to a text without a limit is read as its limit, and changes nothing else. */
  lemma TailWithLimit(s: string)
    requires ReadTail(s).Some? && ReadTail(s).value.limit.None?
    ensures var t, l := ReadTail(s).value, ReadTail(s + " LIMIT 5");
            l.Some? && l.value.cond == t.cond && l.value.limit == Some(5)
            && (Blanks(t.head) ==> Blanks(l.value.head))
  {
    var all := s + " LIMIT 5";
    hide Word, End, Trim, ReadNumber;
    FiveIsFive();
    LimitAlone(End(START, s));
    EndAppend(START, s, " LIMIT 5");
    WordAppend(START, s, " LIMIT 5", "ORDER");
    WordAppend(START, s, " LIMIT 5", "LIMIT");
    assert Word(START, all, "LIMIT") == Some(|s| + 1);
    assert all[|s| + 1 + 5..] == " LIMIT 5"[6..];
    assert all[..|s| + 1] == s + " ";
    WordAppend(START, s, " ", "WHERE");
    WhereInFront(s, Some(5));
  }

  /** One space more at the end. */
  lemma WhereInFront(s: string, limit: Option<nat>)
    requires Word(START, s + " ", "WHERE") == Word(START, s, "WHERE")
    ensures ReadWhere(s + " ", limit).cond == ReadWhere(s, None).cond
    ensures Blanks(ReadWhere(s, None).head) ==> Blanks(ReadWhere(s + " ", limit).head)
  {
    hide Word, Trim;
    match Word(START, s, "WHERE")
    case None =>
    case Some(p) =>
      assert (s + " ")[..p] == s[..p] && (s + " ")[p + 5..] == s[p + 5..] + " ";
      TrimOneMore(s[p + 5..]);
  }

  lemma TrimOneMore(s: string)
    ensures Trim(s + " ") == Trim(s)
  {
    TrimAround("", s, " ");
    assert "" + s + " " == s + " ";
  }
}
