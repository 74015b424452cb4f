/** InsertRow and UpdateRow: the statements they build, read back by MySQL's rule for quoted
    identifiers (a backtick inside is doubled), and what their placeholders bind to. */
module RowText {
  import opened Text

  function EscIdent(s: string): string {
    ReplaceChar(s, '`', "``")
  }

  function Quote(name: string): string {
    "`" + EscIdent(name) + "`"
  }

  /* ---- Reading identifiers ---- */

  function Prepend(c: char, r: Option<(string, string)>): Option<(string, string)> {
    match r
    case None => None
    case Some((v, rest)) => Some(([c] + v, rest))
  }

  /** The name after an opening backtick, and the text after the closing one. */
  function ReadName(s: string): Option<(string, string)>
    decreases |s|
  {
    if s == [] then None
    else if s[0] == '`' then
      if |s| > 1 && s[1] == '`' then Prepend('`', ReadName(s[2..])) else Some(("", s[1..]))
    else Prepend(s[0], ReadName(s[1..]))
  }

  function ReadIdent(s: string): (r: Option<(string, string)>) {
    if s != [] && s[0] == '`' then ReadName(s[1..]) else None
  }

  lemma {:induction false} ReadNameShrinks(s: string)
    ensures ReadName(s).Some? ==> |ReadName(s).value.1| < |s|
    decreases |s|
  {
    if s != [] {
      if s[0] == '`' && |s| > 1 && s[1] == '`' { ReadNameShrinks(s[2..]); } else { ReadNameShrinks(s[1..]); }
    }
  }

  /** Every name comes back, and the reader stops exactly at the closing backtick. */
  lemma {:induction false} NameRoundTrip(name: string, rest: string)
    requires rest != [] ==> rest[0] != '`'
    ensures ReadName(EscIdent(name) + "`" + rest) == Some((name, rest))
  {
    var s := EscIdent(name) + "`" + rest;
    if name == [] {
      assert s == "`" + rest && s[1..] == rest;
    } else {
      var more := EscIdent(name[1..]) + "`" + rest;
      NameRoundTrip(name[1..], rest);
      if name[0] == '`' {
        assert s == "``" + more && s[2..] == more;
      } else {
        assert s == [name[0]] + more && s[1..] == more;
      }
      assert name == [name[0]] + name[1..];
    }
  }

  lemma IdentRoundTrip(name: string, rest: string)
    requires rest != [] ==> rest[0] != '`'
    ensures ReadIdent(Quote(name) + rest) == Some((name, rest))
  {
    NameRoundTrip(name, rest);
    var s := Quote(name) + rest;
    assert s[0] == '`' && s[1..] == EscIdent(name) + "`" + rest;
  }

  /* ---- The texts ---- */

  function QuoteAll(cols: seq<string>): seq<string> {
    seq(|cols|, i requires 0 <= i < |cols| => Quote(cols[i]))
  }

  function SetAll(cols: seq<string>): seq<string> {
    seq(|cols|, i requires 0 <= i < |cols| => Quote(cols[i]) + " = ?")
  }

  function Marks(n: nat): seq<string> {
    seq(n, i => "?")
  }

  function InsertText(db: string, table: string, cols: seq<string>): string {
    "INSERT INTO " + Quote(db) + "." + Quote(table) + " (" + Join(QuoteAll(cols), ", ") + ") VALUES ("
    + Join(Marks(|cols|), ", ") + ")"
  }

  function UpdateText(db: string, table: string, pkCol: string, cols: seq<string>): string {
    "UPDATE " + Quote(db) + "." + Quote(table) + " SET " + Join(SetAll(cols), ", ") + " WHERE " + Quote(pkCol) + " = ?"
  }

  /* ---- Reading the statements ---- */

  /** Names separated by ", ", each followed by `after`; stops where no separator follows. */
  function ReadList(s: string, after: string): Option<(seq<string>, string)>
    decreases |s|
  {
    match ReadIdent(s)
    case None => None
    case Some((name, r)) =>
      match Expect(r, after)
      case None => None
      case Some(r1) =>
        ReadNameShrinks(s[1..]);
        match Expect(r1, ", ")
        case None => Some(([name], r1))
        case Some(r2) =>
          match ReadList(r2, after)
          case None => None
          case Some((names, r3)) => Some(([name] + names, r3))
  }

  function ReadMarks(s: string): Option<(nat, string)>
    decreases |s|
  {
    match Expect(s, "?")
    case None => None
    case Some(r) =>
      match Expect(r, ", ")
      case None => Some((1, r))
      case Some(r1) =>
        match ReadMarks(r1)
        case None => None
        case Some((n, r2)) => Some((n + 1, r2))
  }

  function ReadTable(s: string): Option<(string, string, string)> {
    match ReadIdent(s)
    case None => None
    case Some((db, s1)) =>
      match Expect(s1, ".")
      case None => None
      case Some(s2) =>
        match ReadIdent(s2)
        case None => None
        case Some((table, s3)) => Some((db, table, s3))
  }

  /** A row statement as a server reads it. `targets` lists, in order, the column each placeholder
      stands for; in an UPDATE the last one is the key column. */
  datatype Row =
    | Insert(db: string, table: string, cols: seq<string>, marks: nat)
    | Update(db: string, table: string, cols: seq<string>, key: string)
  {
    function Placeholders(): nat {
      match this
      case Insert(_, _, _, n) => n
      case Update(_, _, cols, _) => |cols| + 1
    }

    function Targets(): seq<string> {
      match this
      case Insert(_, _, cols, _) => cols
      case Update(_, _, cols, key) => cols + [key]
    }
  }

  function ReadInsert(s: string): Option<Row> {
    match Expect(s, "INSERT INTO ")
    case None => None
    case Some(s1) =>
      match ReadTable(s1)
      case None => None
      case Some((db, table, s2)) =>
        match Expect(s2, " (")
        case None => None
        case Some(s3) =>
          match ReadList(s3, "")
          case None => None
          case Some((cols, s4)) =>
            match Expect(s4, ") VALUES (")
            case None => None
            case Some(s5) =>
              match ReadMarks(s5)
              case None => None
              case Some((n, s6)) => if s6 == ")" then Some(Insert(db, table, cols, n)) else None
  }

  function ReadUpdate(s: string): Option<Row> {
    match Expect(s, "UPDATE ")
    case None => None
    case Some(s1) =>
      match ReadTable(s1)
      case None => None
      case Some((db, table, s2)) =>
        match Expect(s2, " SET ")
        case None => None
        case Some(s3) =>
          match ReadList(s3, " = ?")
          case None => None
          case Some((cols, s4)) =>
            match Expect(s4, " WHERE ")
            case None => None
            case Some(s5) =>
              match ReadIdent(s5)
              case None => None
              case Some((key, s6)) => if s6 == " = ?" then Some(Update(db, table, cols, key)) else None
  }

  /* ---- Reading back what was built ---- */

  lemma TableRoundTrip(db: string, table: string, rest: string)
    requires rest != [] && rest[0] != '`'
    ensures ReadTable(Quote(db) + "." + Quote(table) + rest) == Some((db, table, rest))
  {
    var s2 := Quote(table) + rest;
    IdentRoundTrip(table, rest);
    IdentRoundTrip(db, "." + s2);
    ExpectPrefix(".", s2);
    hide ReadIdent, Quote;
    assert Quote(db) + "." + Quote(table) + rest == Quote(db) + ("." + s2);
  }

  ghost predicate NoComma(rest: string) {
    rest != [] && rest[0] != ',' && rest[0] != '`'
  }

  function ItemsOf(cols: seq<string>, after: string): seq<string> {
    seq(|cols|, i requires 0 <= i < |cols| => Quote(cols[i]) + after)
  }

  lemma ReadLast(name: string, after: string, rest: string)
    requires NoComma(rest) && (after != [] ==> after[0] != '`')
    ensures ReadList(Quote(name) + (after + rest), after) == Some(([name], rest))
  {
    IdentRoundTrip(name, after + rest);
    ExpectPrefix(after, rest);
    hide ReadIdent, Quote;
    assert !(", " <= rest);
  }

  lemma ReadMore(name: string, after: string, more: string)
    requires after != [] ==> after[0] != '`'
    requires ReadList(more, after).Some?
    ensures ReadList(Quote(name) + (after + (", " + more)), after)
            == Some(([name] + ReadList(more, after).value.0, ReadList(more, after).value.1))
  {
    IdentRoundTrip(name, after + (", " + more));
    ExpectPrefix(after, ", " + more);
    ExpectPrefix(", ", more);
    hide ReadIdent, Quote, Expect;
  }

  lemma {:induction false} ListRoundTrip(cols: seq<string>, after: string, rest: string)
    requires cols != [] && NoComma(rest) && (after != [] ==> after[0] != '`')
    ensures ReadList(Join(ItemsOf(cols, after), ", ") + rest, after) == Some((cols, rest))
  {
    hide ReadList, Quote, NoComma;
    var items := ItemsOf(cols, after);
    if |cols| == 1 {
      ReadLast(cols[0], after, rest);
      assert Join(items, ", ") + rest == Quote(cols[0]) + (after + rest);
      assert cols == [cols[0]];
    } else {
      var more := Join(items[1..], ", ") + rest;
      ListRoundTrip(cols[1..], after, rest);
      assert items[1..] == ItemsOf(cols[1..], after);
      ReadMore(cols[0], after, more);
      assert Join(items, ", ") + rest == Quote(cols[0]) + (after + (", " + more));
      assert cols == [cols[0]] + cols[1..];
    }
  }

  lemma {:induction false} MarksRoundTrip(n: nat, rest: string)
    requires n > 0 && NoComma(rest)
    ensures ReadMarks(Join(Marks(n), ", ") + rest) == Some((n, rest))
  {
    var s := Join(Marks(n), ", ") + rest;
    if n == 1 {
      ExpectPrefix("?", rest);
    } else {
      var more := Join(Marks(n - 1), ", ") + rest;
      MarksRoundTrip(n - 1, rest);
      ExpectPrefix("?", ", " + more);
      ExpectPrefix(", ", more);
      MarksText(n, rest);
    }
  }

  lemma MarksText(n: nat, rest: string)
    requires n > 1
    ensures Join(Marks(n), ", ") + rest == "?" + (", " + (Join(Marks(n - 1), ", ") + rest))
  {
    assert Marks(n)[1..] == Marks(n - 1);
    hide Marks;
    assert Join(Marks(n), ", ") == "?" + ", " + Join(Marks(n - 1), ", ");
  }

  lemma InsertParts(db: string, table: string, cols: seq<string>, s1: string, s3: string, s5: string)
    requires s5 == Join(Marks(|cols|), ", ") + ")"
    requires s3 == Join(QuoteAll(cols), ", ") + (") VALUES (" + s5)
    requires s1 == Quote(db) + "." + Quote(table) + (" (" + s3)
    ensures InsertText(db, table, cols) == "INSERT INTO " + s1
  {
    hide Quote, Join, QuoteAll, Marks;
  }

  /** For all names, backticks, commas and question marks included, the INSERT text reads back as
      the same database, table and columns, with one placeholder for each column. */
  lemma InsertRoundTrip(db: string, table: string, cols: seq<string>)
    requires cols != []
    ensures ReadInsert(InsertText(db, table, cols)) == Some(Insert(db, table, cols, |cols|))
  {
    hide Quote, ReadTable, ReadList, ReadMarks, Expect, Join, InsertText, ItemsOf, QuoteAll, SetAll, Marks;
    var s5 := Join(Marks(|cols|), ", ") + ")";
    var s3 := Join(QuoteAll(cols), ", ") + (") VALUES (" + s5);
    var s1 := Quote(db) + "." + Quote(table) + (" (" + s3);
    QuoteAllItems(cols);
    MarksRoundTrip(|cols|, ")");
    ListRoundTrip(cols, "", ") VALUES (" + s5);
    TableRoundTrip(db, table, " (" + s3);
    ExpectPrefix("INSERT INTO ", s1);
    ExpectPrefix(" (", s3);
    ExpectPrefix(") VALUES (", s5);
    InsertParts(db, table, cols, s1, s3, s5);
  }

  lemma QuoteAllItems(cols: seq<string>)
    ensures QuoteAll(cols) == ItemsOf(cols, "") && SetAll(cols) == ItemsOf(cols, " = ?")
  {
    forall i | 0 <= i < |cols| ensures Quote(cols[i]) + "" == Quote(cols[i]) {}
  }

  lemma UpdateParts(db: string, table: string, pkCol: string, cols: seq<string>, s1: string, s3: string, s5: string)
    requires s5 == Quote(pkCol) + " = ?"
    requires s3 == Join(SetAll(cols), ", ") + (" WHERE " + s5)
    requires s1 == Quote(db) + "." + Quote(table) + (" SET " + s3)
    ensures UpdateText(db, table, pkCol, cols) == "UPDATE " + s1
  {
    hide Quote, Join, SetAll;
  }

  lemma UpdateRoundTrip(db: string, table: string, pkCol: string, cols: seq<string>)
    requires cols != []
    ensures ReadUpdate(UpdateText(db, table, pkCol, cols)) == Some(Update(db, table, cols, pkCol))
  {
    hide Quote, ReadTable, ReadList, ReadIdent, Expect, Join, UpdateText, ItemsOf, QuoteAll, SetAll;
    var s5 := Quote(pkCol) + " = ?";
    var s3 := Join(SetAll(cols), ", ") + (" WHERE " + s5);
    var s1 := Quote(db) + "." + Quote(table) + (" SET " + s3);
    QuoteAllItems(cols);
    IdentRoundTrip(pkCol, " = ?");
    ListRoundTrip(cols, " = ?", " WHERE " + s5);
    TableRoundTrip(db, table, " SET " + s3);
    ExpectPrefix("UPDATE ", s1);
    ExpectPrefix(" SET ", s3);
    ExpectPrefix(" WHERE ", s5);
    UpdateParts(db, table, pkCol, cols, s1, s3, s5);
  }

  /* ---- Arguments ---- */

  /** A bound argument: the untouched slots of the argument array are nil. */
  datatype Arg = Nil | Val(value: string)

  function InsertArgs(cols: seq<string>, vals: seq<string>): seq<Arg> {
    seq(|vals|, i requires 0 <= i < |vals| => if i < |cols| then Val(vals[i]) else Nil)
  }

  function UpdateArgs(cols: seq<string>, vals: seq<string>, pkVal: string): seq<Arg> {
    InsertArgs(cols, vals) + [Val(pkVal)]
  }

  /** What executing the statement binds: the k-th placeholder gets the k-th argument, and the
      server refuses the call when their numbers differ. */
  function Bind(row: Option<Row>, args: seq<Arg>): Option<seq<(string, Arg)>> {
    match row
    case None => None
    case Some(r) =>
      if r.Placeholders() == |args| == |r.Targets()|
      then Some(seq(|args|, i requires 0 <= i < |args| && |args| == |r.Targets()| => (r.Targets()[i], args[i])))
      else None
  }

  function Pairs(cols: seq<string>, vals: seq<string>): seq<(string, Arg)>
    requires |cols| == |vals|
  {
    seq(|cols|, i requires 0 <= i < |cols| => (cols[i], Val(vals[i])))
  }

  /** An INSERT binds every column to its own value exactly when there are as many values as
      columns; otherwise the call is refused. */
  lemma InsertBinds(db: string, table: string, cols: seq<string>, vals: seq<string>)
    requires cols != []
    ensures var b := Bind(ReadInsert(InsertText(db, table, cols)), InsertArgs(cols, vals));
            if |cols| == |vals| then b == Some(Pairs(cols, vals)) else b == None
  {
    hide ReadInsert, InsertText;
    InsertRoundTrip(db, table, cols);
    var row := ReadInsert(InsertText(db, table, cols));
    if |cols| == |vals| {
      assert Bind(row, InsertArgs(cols, vals)).value == Pairs(cols, vals);
    }
  }

  /** An UPDATE does too, and its last placeholder, the key's, is bound to the key value. */
  lemma UpdateBinds(db: string, table: string, pkCol: string, pkVal: string, cols: seq<string>, vals: seq<string>)
    requires cols != []
    ensures var b := Bind(ReadUpdate(UpdateText(db, table, pkCol, cols)), UpdateArgs(cols, vals, pkVal));
            if |cols| == |vals| then b == Some(Pairs(cols, vals) + [(pkCol, Val(pkVal))]) else b == None
  {
    hide ReadUpdate, UpdateText;
    UpdateRoundTrip(db, table, pkCol, cols);
    var row := ReadUpdate(UpdateText(db, table, pkCol, cols));
    if |cols| == |vals| {
      assert Bind(row, UpdateArgs(cols, vals, pkVal)).value == Pairs(cols, vals) + [(pkCol, Val(pkVal))];
    }
  }

  /* ---- The methods ---- */

  datatype Prepared = Refused(why: string) | Exec(sql: string, args: seq<Arg>)

  /** InsertRow up to the call of the database: three arrays filled in one loop. */
  method InsertRow(db: string, table: string, cols: seq<string>, vals: seq<string>) returns (p: Prepared)
    ensures cols == [] ==> p.Refused?
    ensures cols != [] ==> p == Exec(InsertText(db, table, cols), InsertArgs(cols, vals))
  {
    if |cols| == 0 {
      return Refused("no columns provided");
    }
    var escaped := new string[|cols|];
    var placeholders := new string[|cols|];
    var args := new Arg[|vals|](_ => Nil);
    for i := 0 to |cols|
      invariant forall k :: 0 <= k < i ==> escaped[k] == Quote(cols[k]) && placeholders[k] == "?"
      invariant forall k :: 0 <= k < |vals| ==> args[k] == if k < i then Val(vals[k]) else Nil
    {
      escaped[i] := "`" + EscIdent(cols[i]) + "`";
      placeholders[i] := "?";
      if i < |vals| {
        args[i] := Val(vals[i]);
      }
    }
    assert escaped[..] == QuoteAll(cols) && placeholders[..] == Marks(|cols|);
    assert args[..] == InsertArgs(cols, vals);
    var q := "INSERT INTO `" + EscIdent(db) + "`.`" + EscIdent(table) + "` (" + Join(escaped[..], ", ")
      + ") VALUES (" + Join(placeholders[..], ", ") + ")";
    InsertFormat(EscIdent(db), EscIdent(table), Join(escaped[..], ", "), Join(placeholders[..], ", "));
    p := Exec(q, args[..]);
  }

  lemma InsertFormat(d: string, t: string, c: string, m: string)
    ensures "INSERT INTO `" + d + "`.`" + t + "` (" + c + ") VALUES (" + m + ")"
            == "INSERT INTO " + ("`" + d + "`") + "." + ("`" + t + "`") + " (" + c + ") VALUES (" + m + ")"
  {
    assert "INSERT INTO `" == "INSERT INTO " + "`" && "`.`" == "`" + "." + "`" && "` (" == "`" + " (";
  }

  /** UpdateRow up to the call of the database. */
  method UpdateRow(db: string, table: string, pkCol: string, pkVal: string, cols: seq<string>, vals: seq<string>)
    returns (p: Prepared)
    ensures cols == [] ==> p.Refused?
    ensures cols != [] ==> p == Exec(UpdateText(db, table, pkCol, cols), UpdateArgs(cols, vals, pkVal))
  {
    if |cols| == 0 {
      return Refused("no columns to update");
    }
    var sets := new string[|cols|];
    var args := new Arg[|vals| + 1](_ => Nil);
    for i := 0 to |cols|
      invariant forall k :: 0 <= k < i ==> sets[k] == Quote(cols[k]) + " = ?"
      invariant forall k :: 0 <= k < |vals| ==> args[k] == if k < i then Val(vals[k]) else Nil
    {
      sets[i] := "`" + EscIdent(cols[i]) + "` = ?";
      assert sets[i] == Quote(cols[i]) + " = ?" by {
        assert "` = ?" == "`" + " = ?";
      }
      if i < |vals| {
        args[i] := Val(vals[i]);
      }
    }
    args[|vals|] := Val(pkVal);
    assert sets[..] == SetAll(cols);
    assert args[..] == UpdateArgs(cols, vals, pkVal);
    var q := "UPDATE `" + EscIdent(db) + "`.`" + EscIdent(table) + "` SET " + Join(sets[..], ", ")
      + " WHERE `" + EscIdent(pkCol) + "` = ?";
    UpdateFormat(EscIdent(db), EscIdent(table), Join(sets[..], ", "), EscIdent(pkCol));
    p := Exec(q, args[..]);
  }

  lemma UpdateFormat(d: string, t: string, c: string, k: string)
    ensures "UPDATE `" + d + "`.`" + t + "` SET " + c + " WHERE `" + k + "` = ?"
            == "UPDATE " + ("`" + d + "`") + "." + ("`" + t + "`") + " SET " + c + " WHERE " + ("`" + k + "`") + " = ?"
  {
    assert "UPDATE `" == "UPDATE " + "`" && "`.`" == "`" + "." + "`" && "` SET " == "`" + " SET ";
    assert " WHERE `" == " WHERE " + "`" && "` = ?" == "`" + " = ?";
  }
}
