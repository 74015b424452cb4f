/** MySQL accounts and the two operations that create them statement by statement: CreateUser for the
    temporary users of sessions and CreateAdminUser for permanent ones. */
module Accounts {
  import opened Text
  import N = Numerals
  import T = AccountText

  datatype Privilege = ReadOnly | ReadWrite | Everything

  datatype Account = Account(password: string, granted: Option<Privilege>)

  datatype Stmt<K> =
    | Create(key: K, password: string)
    | Grant(key: K, privilege: Privilege)
    | FlushPrivileges
    | DropIfExists(key: K)

  /** Whether the server carries out each statement when it is sent; a CREATE USER of an account that
      exists, or a GRANT to one that does not, fails anyway. */
  datatype Luck = Luck(create: bool, grant: bool, flush: bool, drop: bool) {
    predicate Of<K>(st: Stmt<K>) {
      match st
      case Create(_, _) => create
      case Grant(_, _) => grant
      case FlushPrivileges => flush
      case DropIfExists(_) => drop
    }
  }

  /** The accounts of one server, by `K`: user and host, or the session they belong to. */
  class Server<K(==)> {
    var accounts: map<K, Account>

    constructor ()
      ensures accounts == map[]
    {
      accounts := map[];
    }

    method Exec(st: Stmt<K>, ok: bool) returns (failed: bool)
      modifies this
      ensures (failed, accounts) == Executed(old(accounts), st, ok)
    {
      failed := !ok;
      if ok {
        match st
        case Create(k, password) =>
          if k in accounts { failed := true; } else { accounts := accounts[k := Account(password, None)]; }
        case Grant(k, privilege) =>
          if k !in accounts { failed := true; } else {
            accounts := accounts[k := accounts[k].(granted := Some(privilege))];
          }
        case FlushPrivileges =>
        case DropIfExists(k) => accounts := accounts - {k};
      }
    }

    /** The loop both operations end with: three statements, and one DROP USER if any of them fails. */
    method CreateAccount(k: K, password: string, privilege: Privilege, luck: Luck) returns (failed: bool)
      modifies this
      ensures !failed <==> Succeeds(old(accounts), k, luck)
      ensures accounts == AfterCreate(old(accounts), k, Account(password, Some(privilege)), luck)
    {
      var stmts := [Create(k, password), Grant(k, privilege), FlushPrivileges];
      for i := 0 to |stmts|
        invariant i >= 1 ==> k !in old(accounts) && luck.create
        invariant i >= 2 ==> luck.grant
        invariant i >= 3 ==> luck.flush
        invariant accounts == match i
                              case 0 => old(accounts)
                              case 1 => old(accounts)[k := Account(password, None)]
                              case _ => old(accounts)[k := Account(password, Some(privilege))]
      {
        failed := Exec(stmts[i], luck.Of(stmts[i]));
        if failed {
          var _ := Exec(DropIfExists(k), luck.drop);
          return true;
        }
      }
      return false;
    }

    method DropAccount(k: K, ok: bool) returns (failed: bool)
      modifies this
      ensures failed == !ok
      ensures accounts == if ok then old(accounts) - {k} else old(accounts)
    {
      failed := Exec(DropIfExists(k), ok);
    }
  }

  function Executed<K(==)>(accounts: map<K, Account>, st: Stmt<K>, ok: bool): (bool, map<K, Account>) {
    if !ok then (true, accounts)
    else match st
      case Create(k, password) =>
        if k in accounts then (true, accounts) else (false, accounts[k := Account(password, None)])
      case Grant(k, privilege) =>
        if k !in accounts then (true, accounts)
        else (false, accounts[k := accounts[k].(granted := Some(privilege))])
      case FlushPrivileges => (false, accounts)
      case DropIfExists(k) => (false, accounts - {k})
  }

  /** What creating an account is for, in one step. */
  predicate Succeeds<K(==)>(accounts: map<K, Account>, k: K, luck: Luck) {
    k !in accounts && luck.create && luck.grant && luck.flush
  }

  function AfterCreate<K(==)>(accounts: map<K, Account>, k: K, a: Account, luck: Luck): map<K, Account> {
    if Succeeds(accounts, k, luck) then accounts[k := a]
    else if luck.drop then accounts - {k}
    else if k in accounts || !luck.create then accounts
    else accounts[k := if luck.grant then a else a.(granted := None)]
  }

  /** A failed creation leaves the accounts as they were exactly when the account did not exist and what
      there was to clean up was cleaned up, or it existed and the clean-up did not get to it: an account
      that was there before is dropped by the clean-up of the attempt to create it again. */
  lemma FailedCreateRestores<K>(accounts: map<K, Account>, k: K, a: Account, luck: Luck)
    requires !Succeeds(accounts, k, luck)
    ensures AfterCreate(accounts, k, a, luck) == accounts <==>
              if k in accounts then !luck.drop else luck.drop || !luck.create
  {
    var after := AfterCreate(accounts, k, a, luck);
    if luck.drop && k !in accounts {
      assert accounts - {k} == accounts;
    }
    if k in accounts && luck.drop {
      assert k !in after;
    }
    if k !in accounts && luck.create && !luck.drop {
      assert k in after;
    }
  }

  /** Whatever fails, and even when the clean-up fails, no account but the one named is touched; the one
      named, if it is new, never gets a password or a privilege that was not asked for; and if it was
      there before, it is either as it was or gone. A success leaves both in place. */
  lemma CreateTouchesOnlyItsAccount<K>(accounts: map<K, Account>, k: K, a: Account, luck: Luck, other: K)
    ensures var after := AfterCreate(accounts, k, a, luck);
      && (other != k ==> (other in after <==> other in accounts))
      && (other != k && other in after ==> after[other] == accounts[other])
      && (k in after && k !in accounts ==> after[k].password == a.password && after[k].granted in {None, a.granted})
      && (k in after && k in accounts ==> after[k] == accounts[k])
      && (Succeeds(accounts, k, luck) ==> k in after && after[k] == a)
  {
  }

  // ---- CreateAdminUser ------------------------------------------------------------------------------

  datatype Key = Key(user: string, host: string)

  /** The privilege level of a form field; anything unknown counts as "all". */
  function Level(privLevel: string): Privilege {
    if privLevel == "read" then ReadOnly else if privLevel == "readwrite" then ReadWrite else Everything
  }

  /** What a privilege level lets an account do, as MySQL names it. */
  function Privileges(p: Privilege): set<string> {
    match p
    case ReadOnly => {"SELECT"}
    case ReadWrite => {"SELECT", "INSERT", "UPDATE", "DELETE"}
    case Everything => {"ALL PRIVILEGES"}
  }

  /** Only "read" and "readwrite" keep anything back; "read" gives nothing that writes. */
  lemma LevelMeans(privLevel: string)
    ensures privLevel == "read" ==> Privileges(Level(privLevel)) == {"SELECT"}
    ensures "ALL PRIVILEGES" in Privileges(Level(privLevel)) <==> privLevel != "read" && privLevel != "readwrite"
    ensures "UPDATE" in Privileges(Level(privLevel)) <==> privLevel == "readwrite"
  {
  }

  datatype AdminOutcome = BadName | BadHost | ShortPassword | CreateFailed | Created

  predicate AdminInputOk(user: string, host: string, password: string) {
    T.UserNameOk(user) && T.HostOk(host) && Utf8Length(password) >= 8
  }

  /** The server creates what the CREATE USER text says, read by its own rules; it says what was asked,
      whatever quotes, backslashes or semicolons the password has. */
  method CreateAdminUser(server: Server<Key>, user: string, host: string, password: string, privLevel: string,
                         luck: Luck) returns (r: AdminOutcome)
    modifies server
    ensures r == Created <==>
              AdminInputOk(user, host, password) && Succeeds(old(server.accounts), Key(user, host), luck)
    ensures r in {Created, CreateFailed} <==> AdminInputOk(user, host, password)
    ensures server.accounts ==
      if !AdminInputOk(user, host, password) then old(server.accounts)
      else AfterCreate(old(server.accounts), Key(user, host), Account(password, Some(Level(privLevel))), luck)
  {
    if !T.UserNameOk(user) {
      return BadName;
    }
    if !T.HostOk(host) {
      return BadHost;
    }
    if Utf8Length(password) < 8 {
      return ShortPassword;
    }
    T.NamesAreBare(user, host);
    T.CreateUserRoundTrip(user, host, password);
    var asked := T.ReadCreateUser(T.CreateUserText(user, host, password)).value;
    var failed := server.CreateAccount(Key(asked.user, asked.host), asked.password, Level(privLevel), luck);
    return if failed then CreateFailed else Created;
  }

  // ---- The temporary users of sessions --------------------------------------------------------------

  predicate HexDigit(c: char) {
    '0' <= c <= '9' || 'a' <= c <= 'f'
  }

  /** userPattern: tmp_ and 6 to 32 lower-case hexadecimal digits. */
  predicate TempUserOk(user: string) {
    10 <= |user| <= 36 && user[..4] == "tmp_" && forall i :: 4 <= i < |user| ==> HexDigit(user[i])
  }

  predicate Alphanumeric(c: char) {
    'a' <= c <= 'z' || 'A' <= c <= 'Z' || '0' <= c <= '9'
  }

  ghost predicate Safe(password: string) {
    password != "" && forall i :: 0 <= i < |password| ==> Alphanumeric(password[i])
  }

  method SafePassword(p: string) returns (safe: bool)
    ensures safe <==> Safe(p)
  {
    if |p| == 0 {
      return false;
    }
    for i := 0 to |p|
      invariant forall j :: 0 <= j < i ==> Alphanumeric(p[j])
    {
      if !Alphanumeric(p[i]) {
        return false;
      }
    }
    return true;
  }

  lemma {:induction false} SafeNeedsNoEscape(p: string)
    requires forall i :: 0 <= i < |p| ==> Alphanumeric(p[i])
    ensures T.EscapePassword(p) == p
  {
    if p != "" {
      T.EscapeCons(p);
      SafeNeedsNoEscape(p[1..]);
    }
  }

  /** CreateUser writes the password into the statement unescaped, and DropUser and CreateUser write
      the host unchecked: for a safe password, a temporary user name and a host without quotes or
      backslashes the statement still says exactly what was meant. */
  lemma TempUserTextIsExact(user: string, host: string, password: string)
    requires TempUserOk(user) && T.Bare(host) && Safe(password)
    ensures T.ReadCreateUser("CREATE USER '" + user + "'@'" + host + "' IDENTIFIED BY '" + password + "'")
         == Some(T.Account(user, host, password))
  {
    SafeNeedsNoEscape(password);
    assert user[..4] == "tmp_";
    forall i | 0 <= i < |user| ensures user[i] != '\'' && user[i] != '"' && user[i] != '\\' {
      if i < 4 { assert user[i] == user[..4][i]; }
    }
    T.CreateUserRoundTrip(user, host, password);
  }

  const UPPERS := "ABCDEFGHJKLMNPQRSTUVWXYZ"
  const LOWERS := "abcdefghijkmnpqrstuvwxyz"
  const DIGITS := "23456789"
  const ALPHABET := UPPERS + LOWERS + DIGITS

  /** The random bytes are overwritten, each by the letter it selects. */
  method GenPassword(b: array<nat>) returns (password: string)
    modifies b
    ensures |password| == b.Length
    ensures forall i :: 0 <= i < b.Length ==> password[i] == ALPHABET[old(b[i]) % |ALPHABET|]
    ensures b.Length > 0 ==> Safe(password)
  {
    for i := 0 to b.Length
      invariant forall j :: i <= j < b.Length ==> b[j] == old(b[j])
      invariant forall j :: 0 <= j < i ==> b[j] == ALPHABET[old(b[j]) % |ALPHABET|] as nat
    {
      b[i] := ALPHABET[b[i] % |ALPHABET|] as nat;
    }
    password := "";
    for i := 0 to b.Length
      invariant |password| == i
      invariant forall j :: 0 <= j < i ==> password[j] == ALPHABET[old(b[j]) % |ALPHABET|]
    {
      password := password + [b[i] as char];
    }
    AlphabetIsSafe();
  }

  lemma UpperLetters()
    ensures forall c :: c in UPPERS ==> 'A' <= c <= 'Z'
  {
    assert forall c :: c in "ABCDEFGHJKLMNPQRSTUVWXYZ" ==> 'A' <= c <= 'Z';
  }

  lemma LowerLettersAndDigits()
    ensures forall c :: c in LOWERS ==> 'a' <= c <= 'z'
    ensures forall c :: c in DIGITS ==> '0' <= c <= '9'
  {
    assert forall c :: c in "abcdefghijkmnpqrstuvwxyz" ==> 'a' <= c <= 'z';
    assert forall c :: c in "23456789" ==> '0' <= c <= '9';
  }

  lemma AlphabetIsSafe()
    ensures forall i :: 0 <= i < |ALPHABET| ==> Alphanumeric(ALPHABET[i])
  {
    UpperLetters();
    LowerLettersAndDigits();
    hide UPPERS, LOWERS, DIGITS;
    forall i | 0 <= i < |ALPHABET| ensures Alphanumeric(ALPHABET[i]) {
      assert ALPHABET[i] in UPPERS || ALPHABET[i] in LOWERS || ALPHABET[i] in DIGITS;
    }
  }

  /** The lower-case hexadecimal text of some bytes: how newID writes six random ones. */
  function HexText(bytes: seq<nat>): string
    requires forall i :: 0 <= i < |bytes| ==> bytes[i] < 256
  {
    if bytes == [] then "" else [N.Digit(bytes[0] / 16), N.Digit(bytes[0] % 16)] + HexText(bytes[1..])
  }

  lemma {:induction false} HexTextIsHex(bytes: seq<nat>)
    requires forall i :: 0 <= i < |bytes| ==> bytes[i] < 256
    ensures |HexText(bytes)| == 2 * |bytes|
    ensures forall i :: 0 <= i < |HexText(bytes)| ==> HexDigit(HexText(bytes)[i])
  {
    if bytes != [] {
      HexTextIsHex(bytes[1..]);
      forall d: nat | d < 16 ensures HexDigit(N.Digit(d)) {}
    }
  }

  function ReadHex(s: string): seq<nat> {
    if |s| < 2 then [] else [N.DigitOf(s[0]) * 16 + N.DigitOf(s[1])] + ReadHex(s[2..])
  }

  /** The bytes are read back from the id, so different bytes make different ids. */
  lemma {:induction false} HexRoundTrip(bytes: seq<nat>)
    requires forall i :: 0 <= i < |bytes| ==> bytes[i] < 256
    ensures ReadHex(HexText(bytes)) == bytes
  {
    hide N.DigitOf, N.Digit;
    if bytes != [] {
      var rest := HexText(bytes[1..]);
      HexRoundTrip(bytes[1..]);
      N.DigitIsDigit(bytes[0] / 16);
      N.DigitIsDigit(bytes[0] % 16);
      assert HexText(bytes)[2..] == rest;
    }
  }

  /** CreateUser never refuses a session that New drew an id and Provision a password for. */
  lemma NewSessionsAreAcceptable(idBytes: seq<nat>)
    requires |idBytes| == 6 && forall i :: 0 <= i < |idBytes| ==> idBytes[i] < 256
    ensures TempUserOk("tmp_" + HexText(idBytes))
  {
    HexTextIsHex(idBytes);
    var id := HexText(idBytes);
    forall i | 4 <= i < |"tmp_" + id| ensures HexDigit(("tmp_" + id)[i]) {
      assert ("tmp_" + id)[i] == id[i - 4];
    }
  }
}
