/** The GRANT statement of an account's privilege level, read back. */
module Grants {
  import opened Text
  import opened Accounts
  import T = AccountText

  function ListText(privLevel: string): string {
    if privLevel == "read" then "SELECT"
    else if privLevel == "readwrite" then "SELECT, INSERT, UPDATE, DELETE"
    else "ALL PRIVILEGES"
  }

  function OptionText(privLevel: string): string {
    if privLevel == "read" || privLevel == "readwrite" then "" else " WITH GRANT OPTION"
  }

  /** The GRANT statement for a level. */
  function GrantText(user: string, host: string, privLevel: string): string {
    "GRANT " + (ListText(privLevel) + (" ON *.* TO '" + (user + "'" + ("@'" + (host + "'" + OptionText(privLevel))))))
  }

  datatype GrantStatement = GrantStatement(privileges: set<string>, user: string, host: string, grantOption: bool)

  /** Words in capitals, with commas between them, up to ON. */
  function ReadPrivileges(s: string): Option<(set<string>, string)>
    decreases |s|
  {
    var n := PrivilegeLength(s);
    if n == 0 then None
    else match Expect(s[n..], ", ")
      case Some(more) =>
        (match ReadPrivileges(more)
         case None => None
         case Some((ps, rest)) => Some(({s[..n]} + ps, rest)))
      case None => Some(({s[..n]}, s[n..]))
  }

  /** The length of a privilege's name: it may have a space in it, but ON ends the list. */
  function PrivilegeLength(s: string): (n: nat)
    ensures n <= |s|
  {
    if s == "" || !('A' <= s[0] <= 'Z' || s[0] == ' ') || " ON " <= s then 0 else 1 + PrivilegeLength(s[1..])
  }

  function ReadGrant(s: string): Option<GrantStatement> {
    match Expect(s, "GRANT ")
    case None => None
    case Some(s1) =>
      match ReadPrivileges(s1)
      case None => None
      case Some((ps, s2)) =>
        match Expect(s2, " ON *.* TO '")
        case None => None
        case Some(s3) =>
          match T.ReadBody(s3)
          case None => None
          case Some((user, s4)) =>
            match Expect(s4, "@'")
            case None => None
            case Some(s5) =>
              match T.ReadBody(s5)
              case None => None
              case Some((host, s6)) =>
                if s6 == "" || s6 == " WITH GRANT OPTION" then Some(GrantStatement(ps, user, host, s6 != "")) else None
  }

  // ---- Names and lists ------------------------------------------------------------------------------

  predicate NameAt(name: string, i: nat)
    requires i < |name|
  {
    'A' <= name[i] <= 'Z' || (name[i] == ' ' && i + 1 < |name| && name[i + 1] != 'O')
  }

  /** Capitals, and spaces in front of anything but an O. */
  predicate PrivilegeName(name: string) {
    forall i: nat :: i < |name| ==> NameAt(name, i)
  }

  lemma NameTail(name: string)
    requires PrivilegeName(name) && name != ""
    ensures PrivilegeName(name[1..])
    ensures 'A' <= name[0] <= 'Z' || (name[0] == ' ' && |name| > 1 && name[1] != 'O')
  {
    assert NameAt(name, 0);
    forall i: nat | i < |name[1..]| ensures NameAt(name[1..], i) {
      assert NameAt(name, i + 1);
    }
  }

  lemma ListStops(s: string)
    requires " ON " <= s || ", " <= s
    ensures PrivilegeLength(s) == 0
  {
  }

  lemma {:induction false} NameAndRest(name: string, rest: string)
    requires PrivilegeName(name) && (" ON " <= rest || ", " <= rest)
    ensures PrivilegeLength(name + rest) == |name|
  {
    hide PrivilegeName;
    if name == "" {
      assert name + rest == rest;
      ListStops(rest);
    } else {
      assert (name + rest)[1..] == name[1..] + rest;
      NameTail(name);
      assert |name| > 1 ==> (name + rest)[1] == name[1];
      assert (name + rest)[0] == name[0];
      NameAndRest(name[1..], rest);
      NotOn(name + rest);
    }
  }

  lemma NotOn(s: string)
    requires s != "" && ('A' <= s[0] <= 'Z' || (|s| > 1 && s[1] != 'O'))
    ensures !(" ON " <= s)
  {
  }

  lemma LastPrivilege(name: string, rest: string)
    requires name != "" && PrivilegeName(name) && " ON " <= rest
    ensures ReadPrivileges(name + rest) == Some(({name}, rest))
  {
    hide PrivilegeLength, PrivilegeName;
    NameAndRest(name, rest);
    assert (name + rest)[..|name|] == name && (name + rest)[|name|..] == rest;
    NoComma(rest);
  }

  lemma NoComma(rest: string)
    requires " ON " <= rest
    ensures Expect(rest, ", ").None?
  {
    assert rest[0] == ' ';
  }

  lemma OnePrivilege(name: string, rest: string)
    requires name != "" && PrivilegeName(name) && ReadPrivileges(rest).Some?
    ensures ReadPrivileges(name + (", " + rest)) ==
              Some(({name} + ReadPrivileges(rest).value.0, ReadPrivileges(rest).value.1))
  {
    hide PrivilegeLength, PrivilegeName;
    var more := ", " + rest;
    assert more[..2] == ", ";
    NameAndRest(name, more);
    assert (name + more)[..|name|] == name && (name + more)[|name|..] == more;
    ExpectPrefix(", ", rest);
  }

  lemma TheNames()
    ensures PrivilegeName("SELECT") && PrivilegeName("INSERT") && PrivilegeName("UPDATE") && PrivilegeName("DELETE")
    ensures PrivilegeName("ALL PRIVILEGES")
  {
  }

  lemma ReadsWriteList(rest: string)
    requires " ON " <= rest
    ensures ReadPrivileges("SELECT, INSERT, UPDATE, DELETE" + rest)
         == Some(({"SELECT"} + ({"INSERT"} + ({"UPDATE"} + {"DELETE"})), rest))
  {
    TheNames();
    hide ReadPrivileges, PrivilegeName;
    var d := "DELETE" + rest;
    var u := "UPDATE" + (", " + d);
    var i := "INSERT" + (", " + u);
    LastPrivilege("DELETE", rest);
    OnePrivilege("UPDATE", d);
    OnePrivilege("INSERT", u);
    OnePrivilege("SELECT", i);
    assert "SELECT, INSERT, UPDATE, DELETE" + rest == "SELECT" + (", " + i);
  }

  lemma ReadsPrivileges(privLevel: string, rest: string)
    requires " ON " <= rest
    ensures ReadPrivileges(ListText(privLevel) + rest) == Some((Privileges(Level(privLevel)), rest))
  {
    TheNames();
    hide ReadPrivileges, PrivilegeName;
    if privLevel == "read" {
      LastPrivilege("SELECT", rest);
    } else if privLevel == "readwrite" {
      ReadsWriteList(rest);
      assert {"SELECT"} + ({"INSERT"} + ({"UPDATE"} + {"DELETE"})) == Privileges(ReadWrite);
    } else {
      LastPrivilege("ALL PRIVILEGES", rest);
    }
  }

  lemma LastPart(privLevel: string)
    ensures OptionText(privLevel) == if Level(privLevel) == Everything then " WITH GRANT OPTION" else ""
  {
  }

  /** The statement that is sent grants the level, to the account it is for, and the right to pass it on to others
      only with everything else. */
  lemma GrantRoundTrip(user: string, host: string, privLevel: string)
    requires T.Bare(user) && T.Bare(host)
    ensures ReadGrant(GrantText(user, host, privLevel)) ==
      Some(GrantStatement(Privileges(Level(privLevel)), user, host, Level(privLevel) == Everything))
  {
    LastPart(privLevel);
    hide T.ReadBody, T.Bare, ReadPrivileges, ListText, Privileges, Level, OptionText;
    var last := OptionText(privLevel);
    var s5 := host + "'" + last;
    var s3 := user + "'" + ("@'" + s5);
    var s2 := " ON *.* TO '" + s3;
    T.BareRoundTrip(host, last);
    T.BareRoundTrip(user, "@'" + s5);
    ExpectPrefix("@'", s5);
    ExpectPrefix(" ON *.* TO '", s3);
    assert s2[..4] == " ON ";
    ReadsPrivileges(privLevel, s2);
    ExpectPrefix("GRANT ", ListText(privLevel) + s2);
  }
}
