/** The CREATE USER text of CreateAdminUser, read back by MySQL's string-literal rules. */
module AccountText {
  import opened Text
  import opened Scanner
  import opened ScanLaws
  import opened SplitLaws

  /** The two ReplaceAll passes over the password, backslashes first. */
  function EscapePassword(password: string): string {
    ReplaceChar(ReplaceChar(password, '\\', "\\\\"), '\'', "\\'")
  }

  function CreateUserText(user: string, host: string, password: string): string {
    "CREATE USER '" + user + "'@'" + host + "' IDENTIFIED BY '" + EscapePassword(password) + "'"
  }

  /** What a backslash followed by `c` stands for in a MySQL string literal
      (MySQL 8.0 manual, section 11.1.1, table of special character escapes). */
  function Unescape(c: char): string {
    match c
    case '0' => ['\0']
    case 'b' => ['\U{8}']
    case 'n' => ['\n']
    case 'r' => ['\r']
    case 't' => ['\t']
    case 'Z' => ['\U{1A}']
    case '%' => "\\%"
    case '_' => "\\_"
    case _ => [c]
  }

  /** The value of a single-quoted literal whose opening quote has been read, and the text after it. */
  function ReadBody(s: string): Option<(string, string)>
    decreases |s|
  {
    if s == [] then None
    else if s[0] == '\'' then
      if |s| > 1 && s[1] == '\'' then Prepend("'", ReadBody(s[2..])) else Some(("", s[1..]))
    else if s[0] == '\\' then
      if |s| > 1 then Prepend(Unescape(s[1]), ReadBody(s[2..])) else None
    else Prepend([s[0]], ReadBody(s[1..]))
  }

  function Prepend(w: string, r: Option<(string, string)>): Option<(string, string)> {
    match r
    case None => None
    case Some((v, rest)) => Some((w + v, rest))
  }

  datatype Account = Account(user: string, host: string, password: string)

  /** A reader of CREATE USER '..'@'..' IDENTIFIED BY '..' that accepts nothing after the last quote. */
  function ReadCreateUser(s: string): Option<Account> {
    match Expect(s, "CREATE USER '")
    case None => None
    case Some(s1) =>
      match ReadBody(s1)
      case None => None
      case Some((user, s2)) =>
        match Expect(s2, "@'")
        case None => None
        case Some(s3) =>
          match ReadBody(s3)
          case None => None
          case Some((host, s4)) =>
            match Expect(s4, " IDENTIFIED BY '")
            case None => None
            case Some(s5) =>
              match ReadBody(s5)
              case None => None
              case Some((password, s6)) => if s6 == "" then Some(Account(user, host, password)) else None
  }

  predicate NameChar(c: char) {
    'a' <= c <= 'z' || 'A' <= c <= 'Z' || '0' <= c <= '9' || c == '_'
  }

  /** userNamePattern: letters, digits and underscores, 1 to 32 of them. */
  predicate UserNameOk(s: string) {
    1 <= |s| <= 32 && forall c :: c in s ==> NameChar(c)
  }

  /** hostPattern: addresses, wildcards and subnet patterns, 1 to 60 characters. */
  predicate HostOk(s: string) {
    1 <= |s| <= 60 && forall c :: c in s ==> NameChar(c) || c in ".%:/-"
  }

  /* ---- Escaping, character by character ---- */

  function EscapeChar(c: char): string {
    if c == '\\' then "\\\\" else if c == '\'' then "\\'" else [c]
  }

  lemma {:induction false} ReplaceAppend(a: string, b: string, c: char, sub: string)
    ensures ReplaceChar(a + b, c, sub) == ReplaceChar(a, c, sub) + ReplaceChar(b, c, sub)
  {
    if a == [] {
      assert a + b == b;
    } else {
      assert (a + b)[1..] == a[1..] + b;
      ReplaceAppend(a[1..], b, c, sub);
    }
  }

  /** The two passes do not interfere: the second never touches what the first inserted. */
  lemma EscapeCons(p: string)
    requires p != []
    ensures EscapePassword(p) == EscapeChar(p[0]) + EscapePassword(p[1..])
  {
    var one := ReplaceChar([p[0]], '\\', "\\\\");
    assert p == [p[0]] + p[1..];
    ReplaceAppend([p[0]], p[1..], '\\', "\\\\");
    ReplaceAppend(one, ReplaceChar(p[1..], '\\', "\\\\"), '\'', "\\'");
    assert ReplaceChar([], '\\', "\\\\") == [] && [p[0]][1..] == [];
    if p[0] == '\\' {
      assert one == "\\\\" && one[1..] == "\\" && one[1..][1..] == "";
    } else {
      assert one == [p[0]] && one[1..] == "";
    }
  }

  /** For every password: the literal closes exactly at the quote the program wrote, whatever
      follows it (but a quote), and MySQL decodes it to the password. */
  lemma {:induction false} PasswordRoundTrip(p: string, rest: string)
    requires !StartsWith(rest, '\'')
    ensures ReadBody(EscapePassword(p) + "'" + rest) == Some((p, rest))
  {
    var s := EscapePassword(p) + "'" + rest;
    if p == [] {
      assert s == "'" + rest && s[1..] == rest;
    } else {
      var more := EscapePassword(p[1..]) + "'" + rest;
      EscapeCons(p);
      PasswordRoundTrip(p[1..], rest);
      hide EscapePassword;
      assert s == EscapeChar(p[0]) + more;
      assert s[|EscapeChar(p[0])|..] == more;
      assert p == [p[0]] + p[1..];
    }
  }

  predicate Bare(s: string) {
    forall i :: 0 <= i < |s| ==> s[i] != '\'' && s[i] != '"' && s[i] != '\\'
  }

  /** Names without quotes and backslashes stand for themselves. */
  lemma {:induction false} BareRoundTrip(s: string, rest: string)
    requires Bare(s) && !StartsWith(rest, '\'')
    ensures ReadBody(s + "'" + rest) == Some((s, rest))
  {
    var t := s + "'" + rest;
    if s == [] {
      assert t == "'" + rest && t[1..] == rest;
    } else {
      assert t[1..] == s[1..] + "'" + rest;
      BareRoundTrip(s[1..], rest);
      assert s == [s[0]] + s[1..];
    }
  }

  lemma NamesAreBare(user: string, host: string)
    requires UserNameOk(user) && HostOk(host)
    ensures Bare(user) && Bare(host)
  {
    forall i | 0 <= i < |user| ensures NameChar(user[i]) { assert user[i] in user; }
    forall i | 0 <= i < |host| ensures NameChar(host[i]) || host[i] in ".%:/-" { assert host[i] in host; }
  }

  /** The text that is sent says what was asked: same user, same host, same password. */
  lemma CreateUserRoundTrip(user: string, host: string, password: string)
    requires Bare(user) && Bare(host)
    ensures ReadCreateUser(CreateUserText(user, host, password)) == Some(Account(user, host, password))
  {
    var s5 := EscapePassword(password) + "'";
    var s3 := host + "'" + (" IDENTIFIED BY '" + s5);
    var s1 := user + "'" + ("@'" + s3);
    PasswordRoundTrip(password, "");
    assert s5 + "" == s5;
    BareRoundTrip(host, " IDENTIFIED BY '" + s5);
    BareRoundTrip(user, "@'" + s3);
    ExpectPrefix(" IDENTIFIED BY '", s5);
    ExpectPrefix("@'", s3);
    ExpectPrefix("CREATE USER '", s1);
    hide EscapePassword, ReadBody, Expect, Bare;
    CreateUserParts(user, host, password, s1, s3, s5);
  }

  lemma CreateUserParts(user: string, host: string, password: string, s1: string, s3: string, s5: string)
    requires s5 == EscapePassword(password) + "'"
    requires s3 == host + "'" + (" IDENTIFIED BY '" + s5)
    requires s1 == user + "'" + ("@'" + s3)
    ensures CreateUserText(user, host, password) == "CREATE USER '" + s1
  {
    hide EscapePassword;
    assert "' IDENTIFIED BY '" == "'" + " IDENTIFIED BY '";
    assert "'@'" == "'" + "@'";
  }

  /* ---- The script scanner leaves the statement whole ---- */

  lemma {:induction false} BareBody(s: string)
    requires Bare(s)
    ensures Body('\'', s)
  {
    if s != [] {
      BareBody(s[1..]);
    }
  }

  lemma {:induction false} EscapedBody(p: string)
    ensures Body('\'', EscapePassword(p))
  {
    if p != [] {
      EscapeCons(p);
      EscapedBody(p[1..]);
      var e := EscapePassword(p);
      assert e[|EscapeChar(p[0])|..] == EscapePassword(p[1..]);
    }
  }

  function CreateUserTokens(user: string, host: string, password: string): seq<Token> {
    RuneTokens("CREATE USER ") +
    ([Quoted('\'', user, true)] +
     ([Rune('@')] +
      ([Quoted('\'', host, true)] +
       (RuneTokens(" IDENTIFIED BY ") +
        ([Quoted('\'', EscapePassword(password), true)] + [])))))
  }

  lemma LiteralsPlain()
    ensures forall c :: c in "CREATE USER " ==> Plain(c)
    ensures forall c :: c in " IDENTIFIED BY " ==> Plain(c)
  {
  }

  /** A quoted run in front of tokens whose text does not start with a quote. */
  lemma QuotedFirst(b: string, ts: seq<Token>)
    requires Body('\'', b) && IsLexing(ts) && !StartsWith(Unlex(ts), '\'')
    ensures var us := [Quoted('\'', b, true)] + ts;
            IsLexing(us) && Unlex(us) == ("'" + b + "'") + Unlex(ts)
  {
    ConsLexing(Quoted('\'', b, true), ts);
  }

  lemma TailLexes(e: string)
    requires Body('\'', e)
    ensures var us := RuneTokens(" IDENTIFIED BY ") + ([Quoted('\'', e, true)] + []);
            IsLexing(us) && Unlex(us) == " IDENTIFIED BY " + (("'" + e + "'") + "")
  {
    LiteralsPlain();
    QuotedFirst(e, []);
    RunesLex(" IDENTIFIED BY ", [Quoted('\'', e, true)] + []);
  }

  lemma AtSign(ts: seq<Token>)
    requires IsLexing(ts)
    ensures IsLexing([Rune('@')] + ts) && Unlex([Rune('@')] + ts) == ['@'] + Unlex(ts)
  {
    ConsLexing(Rune('@'), ts);
  }

  lemma CreateUserLexes(user: string, host: string, password: string)
    requires Bare(user) && Bare(host)
    ensures IsLexing(CreateUserTokens(user, host, password))
    ensures Unlex(CreateUserTokens(user, host, password)) == CreateUserText(user, host, password)
  {
    var e := EscapePassword(password);
    BareBody(user);
    BareBody(host);
    EscapedBody(password);
    LiteralsPlain();
    hide EscapePassword, Body, RuneTokens, Unlex, IsLexing, CreateUserText;
    TailLexes(e);
    var t4 := RuneTokens(" IDENTIFIED BY ") + ([Quoted('\'', e, true)] + []);
    QuotedFirst(host, t4);
    var t3 := [Quoted('\'', host, true)] + t4;
    AtSign(t3);
    var t2 := [Rune('@')] + t3;
    QuotedFirst(user, t2);
    RunesLex("CREATE USER ", [Quoted('\'', user, true)] + t2);
    CreateUserTokensText(user, host, password);
  }

  lemma CreateUserTokensText(user: string, host: string, password: string)
    ensures "CREATE USER " + (("'" + user + "'") + (['@'] + (("'" + host + "'") +
              (" IDENTIFIED BY " + (("'" + EscapePassword(password) + "'") + "")))))
         == CreateUserText(user, host, password)
  {
    hide EscapePassword;
    assert "CREATE USER '" == "CREATE USER " + "'";
    assert "'@'" == "'" + ['@'] + "'";
    assert "' IDENTIFIED BY '" == "'" + " IDENTIFIED BY " + "'";
  }

  lemma CreateUserTokensClean(user: string, host: string, password: string)
    ensures AllStatementTokens(CreateUserTokens(user, host, password))
  {
    LiteralsPlain();
    RunesLex("CREATE USER ", []);
    RunesLex(" IDENTIFIED BY ", []);
    hide RuneTokens, EscapePassword, IsLexing, AllStatementTokens;
    ConsStatementToken(Quoted('\'', EscapePassword(password), true), []);
    var t5 := [Quoted('\'', EscapePassword(password), true)] + [];
    AllStatementTokensAppend(RuneTokens(" IDENTIFIED BY "), t5);
    var t4 := RuneTokens(" IDENTIFIED BY ") + t5;
    ConsStatementToken(Quoted('\'', host, true), t4);
    var t3 := [Quoted('\'', host, true)] + t4;
    ConsStatementToken(Rune('@'), t3);
    ConsStatementToken(Quoted('\'', user, true), [Rune('@')] + t3);
    AllStatementTokensAppend(RuneTokens("CREATE USER "), [Quoted('\'', user, true)] + ([Rune('@')] + t3));
  }

  lemma ConsStatementToken(t: Token, ts: seq<Token>)
    requires StatementToken(t) && (ts == [] || AllStatementTokens(ts))
    ensures AllStatementTokens([t] + ts)
  {
  }

  lemma CreateUserEnds(user: string, host: string, password: string)
    ensures var s := CreateUserText(user, host, password); s != [] && Trimmed(s)
  {
    var s := CreateUserText(user, host, password);
    assert s[0] == 'C' && s[|s| - 1] == '\'';
  }

  /** The script scanner hands the whole statement back in one piece, whatever the password. */
  lemma CreateUserStaysWhole(user: string, host: string, password: string)
    requires UserNameOk(user) && HostOk(host)
    ensures Split(CreateUserText(user, host, password)) == [CreateUserText(user, host, password)]
  {
    var s := CreateUserText(user, host, password);
    NamesAreBare(user, host);
    CreateUserLexes(user, host, password);
    LexUnique(CreateUserTokens(user, host, password));
    CreateUserTokensClean(user, host, password);
    CreateUserEnds(user, host, password);
    hide CreateUserTokens, Lex, Split, CreateUserText, AllStatementTokens;
    SplitClean([], s);
    assert [] + s == s;
  }
}
