/** The three name patterns, ^prefix[class]{min,max}$, and the checks that stand for them. */
module Patterns {
  import opened Text
  import opened Accounts
  import T = AccountText

  /** A character class: each pair is a range of characters, ends included. */
  datatype Pattern = Pattern(prefix: string, class': set<(char, char)>, min: nat, max: nat) {
    predicate Matches(s: string) {
      && prefix <= s && min <= |s| - |prefix| <= max
      && forall i :: |prefix| <= i < |s| ==> exists r :: r in class' && r.0 <= s[i] <= r.1
    }
  }

  const WORD: set<(char, char)> := {('a', 'z'), ('A', 'Z'), ('0', '9'), ('_', '_')}
  const USER_NAME := Pattern("", WORD, 1, 32)
  const HOST := Pattern("", WORD + {('.', '.'), ('%', '%'), (':', ':'), ('/', '/'), ('-', '-')}, 1, 60)
  const TEMP_USER := Pattern("tmp_", {('a', 'f'), ('0', '9')}, 6, 32)

  lemma WordChars(c: char)
    ensures T.NameChar(c) <==> exists r :: r in WORD && r.0 <= c <= r.1
  {
    assert ('a', 'z') in WORD && ('A', 'Z') in WORD && ('0', '9') in WORD && ('_', '_') in WORD;
  }

  lemma HostChars(c: char)
    ensures T.NameChar(c) || c in ".%:/-" <==> exists r :: r in HOST.class' && r.0 <= c <= r.1
  {
    var k := HOST.class';
    WordChars(c);
    assert ('.', '.') in k && ('%', '%') in k && (':', ':') in k && ('/', '/') in k && ('-', '-') in k;
    if T.NameChar(c) {
      var r :| r in WORD && r.0 <= c <= r.1;
      assert r in k;
    } else if r :| r in k && r.0 <= c <= r.1 {
      assert r in WORD || r in {('.', '.'), ('%', '%'), (':', ':'), ('/', '/'), ('-', '-')};
    }
  }

  lemma TempChars(c: char)
    ensures HexDigit(c) <==> exists r :: r in TEMP_USER.class' && r.0 <= c <= r.1
  {
    assert ('a', 'f') in TEMP_USER.class' && ('0', '9') in TEMP_USER.class';
  }

  lemma UserNamesMatch(s: string)
    ensures T.UserNameOk(s) <==> USER_NAME.Matches(s)
  {
    hide T.NameChar;
    forall i | 0 <= i < |s| ensures T.NameChar(s[i]) <==> exists r :: r in USER_NAME.class' && r.0 <= s[i] <= r.1 {
      WordChars(s[i]);
    }
    assert forall i :: 0 <= i < |s| ==> s[i] in s;
  }

  lemma HostsMatch(s: string)
    ensures T.HostOk(s) <==> HOST.Matches(s)
  {
    hide T.NameChar;
    forall i | 0 <= i < |s|
      ensures T.NameChar(s[i]) || s[i] in ".%:/-" <==> exists r :: r in HOST.class' && r.0 <= s[i] <= r.1
    {
      HostChars(s[i]);
    }
    hide HOST;
    assert forall i :: 0 <= i < |s| ==> s[i] in s;
  }

  lemma TempUsersMatch(s: string)
    ensures TempUserOk(s) <==> TEMP_USER.Matches(s)
  {
    hide HexDigit;
    forall i | 0 <= i < |s| ensures HexDigit(s[i]) <==> exists r :: r in TEMP_USER.class' && r.0 <= s[i] <= r.1 {
      TempChars(s[i]);
    }
    assert |s| >= 4 ==> ("tmp_" <= s <==> s[..4] == "tmp_");
  }

  /** The checks accept exactly the texts that match the patterns. */
  lemma ChecksMatch(s: string)
    ensures T.UserNameOk(s) <==> USER_NAME.Matches(s)
    ensures T.HostOk(s) <==> HOST.Matches(s)
    ensures TempUserOk(s) <==> TEMP_USER.Matches(s)
  {
    UserNamesMatch(s);
    HostsMatch(s);
    TempUsersMatch(s);
  }
}
