/** RunScript's accounting. */
module Script {
  import opened Text
  import opened Scanner
  import RowText
  import S = Statements

  /** strings.ToUpper as far as a comparison with ASCII text can see: dotless i and long s are the
      only characters outside ASCII with an upper case inside it. */
  function UpperChar(c: char): char {
    if 'a' <= c <= 'z' then c - 'a' + 'A'
    else if c == '\U{131}' then 'I'
    else if c == '\U{17F}' then 'S'
    else c
  }

  function Upper(s: string): (u: string)
    ensures |u| == |s|
  {
    seq(|s|, i requires 0 <= i < |s| => UpperChar(s[i]))
  }

  /** Statements aimed at the server rather than at one database. */
  predicate SkipStatement(sql: string) {
    var u := Upper(Trim(sql));
    "CREATE DATABASE" <= u || "DROP DATABASE" <= u || "USE " <= u
  }

  /** The characters whose upper case is this ASCII capital. */
  predicate HasCapital(c: char, w: char) {
    S.AsciiUpper(c) == w || (c == '\U{131}' && w == 'I') || (c == '\U{17F}' && w == 'S')
  }

  predicate StartsInAnyCase(s: string, w: string) {
    |w| <= |s| && forall i :: 0 <= i < |w| ==> HasCapital(s[i], w[i])
  }

  lemma UpperStarts(s: string, w: string)
    requires forall i :: 0 <= i < |w| ==> w[i] == ' ' || 'A' <= w[i] <= 'Z'
    ensures w <= Upper(s) <==> StartsInAnyCase(s, w)
  {
    if |w| <= |s| {
      forall i | 0 <= i < |w| ensures Upper(s)[i] == w[i] <==> HasCapital(s[i], w[i]) {}
      assert w <= Upper(s) <==> forall i :: 0 <= i < |w| ==> Upper(s)[i] == w[i];
    }
  }

  /** Which statements are skipped: those that start with these words after white space, in any case that
      upper-casing knows. */
  lemma SkipsExactly(sql: string)
    ensures SkipStatement(sql) <==>
      var t := Trim(sql);
      StartsInAnyCase(t, "CREATE DATABASE") || StartsInAnyCase(t, "DROP DATABASE") || StartsInAnyCase(t, "USE ")
  {
    hide Trim, Upper, StartsInAnyCase;
    UpperStarts(Trim(sql), "CREATE DATABASE");
    UpperStarts(Trim(sql), "DROP DATABASE");
    UpperStarts(Trim(sql), "USE ");
  }

  /** A statement for the server, as it is written in ASCII. */
  predicate ServerLevel(sql: string) {
    var t := Trim(sql);
    S.Starts(t, "CREATE DATABASE") || S.Starts(t, "DROP DATABASE") || S.Starts(t, "USE ")
  }

  lemma AsciiStarts(s: string, w: string)
    ensures S.Starts(s, w) ==> StartsInAnyCase(s, w)
    ensures Ascii(s) ==> (S.Starts(s, w) <==> StartsInAnyCase(s, w))
  {
    if |w| <= |s| {
      assert forall i :: 0 <= i < |w| ==> s[..|w|][i] == s[i];
    }
  }

  lemma TrimIsAscii(s: string)
    requires Ascii(s)
    ensures Ascii(Trim(s))
  {
    var p, q := TrimSplits(s);
    var t := Trim(s);
    assert forall i :: 0 <= i < |t| ==> t[i] == s[|p| + i];
  }

  lemma ServerLevelIsSkipped(sql: string)
    ensures ServerLevel(sql) ==> SkipStatement(sql)
    ensures Ascii(sql) ==> (SkipStatement(sql) <==> ServerLevel(sql))
  {
    hide Trim, StartsInAnyCase, S.Starts, Ascii, SkipStatement;
    SkipsExactly(sql);
    if Ascii(sql) { TrimIsAscii(sql); }
    AsciiStarts(Trim(sql), "CREATE DATABASE");
    AsciiStarts(Trim(sql), "DROP DATABASE");
    AsciiStarts(Trim(sql), "USE ");
  }

  function AsciiOnly(stmts: seq<string>): seq<string> {
    if stmts == [] then []
    else if Ascii(stmts[0]) then [stmts[0]] + AsciiOnly(stmts[1..])
    else AsciiOnly(stmts[1..])
  }

  function NotServerLevel(stmts: seq<string>): seq<string> {
    if stmts == [] then []
    else if ServerLevel(stmts[0]) then NotServerLevel(stmts[1..])
    else [stmts[0]] + NotServerLevel(stmts[1..])
  }

  datatype ErrorLine = ConnectError | UseError(db: string) | StatementError(number: nat, text: string)

  datatype ScriptResult = ScriptResult(total: nat, executed: nat, skipped: nat, failed: nat, errors: seq<ErrorLine>)

  /** The statements that RunScript does not skip, in order. */
  function Runnable(stmts: seq<string>, skip: bool): seq<string> {
    if stmts == [] then []
    else if skip && SkipStatement(stmts[0]) then Runnable(stmts[1..], skip)
    else [stmts[0]] + Runnable(stmts[1..], skip)
  }

  lemma {:induction false} RunnableSnoc(stmts: seq<string>, st: string, skip: bool)
    ensures Runnable(stmts + [st], skip) ==
            Runnable(stmts, skip) + (if skip && SkipStatement(st) then [] else [st])
  {
    if stmts == [] {
      assert ([] + [st])[1..] == [];
    } else {
      assert (stmts + [st])[1..] == stmts[1..] + [st];
      RunnableSnoc(stmts[1..], st, skip);
    }
  }

  /** Nothing for the server is sent, and of the ASCII statements everything else is, in order. */
  lemma {:induction false} RunnableExactly(stmts: seq<string>)
    ensures Runnable(stmts, false) == stmts
    ensures forall k :: 0 <= k < |Runnable(stmts, true)| ==> !ServerLevel(Runnable(stmts, true)[k])
    ensures AsciiOnly(Runnable(stmts, true)) == NotServerLevel(AsciiOnly(stmts))
  {
    hide SkipStatement, ServerLevel, Ascii;
    if stmts != [] {
      ServerLevelIsSkipped(stmts[0]);
      RunnableExactly(stmts[1..]);
      var rest := Runnable(stmts[1..], true);
      assert ([stmts[0]] + rest)[1..] == rest;
      assert ([stmts[0]] + AsciiOnly(stmts[1..]))[1..] == AsciiOnly(stmts[1..]);
    }
  }

  /** Statement `k` was sent and the server refused it. */
  ghost predicate Refused(stmts: seq<string>, skip: bool, accepts: nat -> bool, k: int) {
    0 <= k < |stmts| && !(skip && SkipStatement(stmts[k])) && !accepts(k)
  }

  /** Each line carries the number and the text of a refused statement. */
  ghost predicate OnlyRefusals(errors: seq<ErrorLine>, stmts: seq<string>, skip: bool, accepts: nat -> bool) {
    forall j :: 0 <= j < |errors| ==>
      errors[j].StatementError? && errors[j].number > 0 && Refused(stmts, skip, accepts, errors[j].number - 1)
      && errors[j].text == stmts[errors[j].number - 1]
  }

  ghost predicate Increasing(errors: seq<ErrorLine>) {
    forall i, j :: 0 <= i < j < |errors| ==>
      errors[i].StatementError? && errors[j].StatementError? && errors[i].number < errors[j].number
  }

  ghost predicate AllRefusals(errors: seq<ErrorLine>, stmts: seq<string>, skip: bool, accepts: nat -> bool) {
    forall k :: Refused(stmts, skip, accepts, k) ==> StatementError(k + 1, stmts[k]) in errors
  }

  /** One line for each refused statement, carrying its number and text, in increasing order. */
  ghost predicate ReportsRefusals(errors: seq<ErrorLine>, stmts: seq<string>, skip: bool, accepts: nat -> bool) {
    OnlyRefusals(errors, stmts, skip, accepts) && Increasing(errors) && AllRefusals(errors, stmts, skip, accepts)
  }

  lemma OnlySnoc(errors: seq<ErrorLine>, stmts: seq<string>, st: string, skip: bool, accepts: nat -> bool)
    requires OnlyRefusals(errors, stmts, skip, accepts)
    ensures OnlyRefusals(errors, stmts + [st], skip, accepts)
  {
    forall j | 0 <= j < |errors|
      ensures Refused(stmts + [st], skip, accepts, errors[j].number - 1)
    {
      assert (stmts + [st])[errors[j].number - 1] == stmts[errors[j].number - 1];
    }
  }

  lemma AllSnoc(errors: seq<ErrorLine>, stmts: seq<string>, st: string, skip: bool, accepts: nat -> bool)
    requires AllRefusals(errors, stmts, skip, accepts)
    requires Refused(stmts + [st], skip, accepts, |stmts|) ==> StatementError(|stmts| + 1, st) in errors
    ensures AllRefusals(errors, stmts + [st], skip, accepts)
  {
    forall k | Refused(stmts + [st], skip, accepts, k) ensures StatementError(k + 1, (stmts + [st])[k]) in errors {
      if k < |stmts| {
        assert (stmts + [st])[k] == stmts[k];
        assert Refused(stmts, skip, accepts, k);
      }
    }
  }

  /** One more statement: nothing to report, or one more line with a higher number. */
  lemma ReportSnoc(errors: seq<ErrorLine>, stmts: seq<string>, st: string, skip: bool, accepts: nat -> bool)
    requires ReportsRefusals(errors, stmts, skip, accepts)
    ensures var all := stmts + [st];
            var refused := Refused(all, skip, accepts, |stmts|);
            ReportsRefusals(if refused then errors + [StatementError(|all|, st)] else errors, all, skip, accepts)
  {
    OnlySnoc(errors, stmts, st, skip, accepts);
    if Refused(stmts + [st], skip, accepts, |stmts|) {
      ReportMore(errors, stmts, st, skip, accepts);
    } else {
      AllSnoc(errors, stmts, st, skip, accepts);
    }
  }

  lemma OnlyLast(errors: seq<ErrorLine>, stmts: seq<string>, st: string, skip: bool, accepts: nat -> bool)
    requires OnlyRefusals(errors, stmts + [st], skip, accepts) && Refused(stmts + [st], skip, accepts, |stmts|)
    ensures OnlyRefusals(errors + [StatementError(|stmts| + 1, st)], stmts + [st], skip, accepts)
  {
  }

  lemma ReportMore(errors: seq<ErrorLine>, stmts: seq<string>, st: string, skip: bool, accepts: nat -> bool)
    requires ReportsRefusals(errors, stmts, skip, accepts) && OnlyRefusals(errors, stmts + [st], skip, accepts)
    requires Refused(stmts + [st], skip, accepts, |stmts|)
    ensures ReportsRefusals(errors + [StatementError(|stmts| + 1, st)], stmts + [st], skip, accepts)
  {
    hide SkipStatement;
    var longer := errors + [StatementError(|stmts| + 1, st)];
    assert longer[|errors|] in longer;
    OnlyLast(errors, stmts, st, skip, accepts);
    forall i | 0 <= i < |errors| ensures errors[i].StatementError? && errors[i].number <= |stmts| {
      assert Refused(stmts, skip, accepts, errors[i].number - 1);
    }
    hide OnlyRefusals;
    assert AllRefusals(longer, stmts, skip, accepts) by {
      forall k | Refused(stmts, skip, accepts, k) ensures StatementError(k + 1, stmts[k]) in longer {
        assert StatementError(k + 1, stmts[k]) in errors;
      }
    }
    AllSnoc(longer, stmts, st, skip, accepts);
  }

  lemma NothingReported(skip: bool, accepts: nat -> bool)
    ensures ReportsRefusals([], [], skip, accepts)
  {
  }

  function UseText(db: string): string {
    "USE " + RowText.Quote(db)
  }

  /** `sent` has no statement for the server, and every other ASCII statement, in order. */
  ghost predicate SentIsLocal(sent: seq<string>, stmts: seq<string>) {
    && (forall k :: 0 <= k < |sent| ==> !ServerLevel(sent[k]))
    && AsciiOnly(sent) == NotServerLevel(AsciiOnly(stmts))
  }

  /** The USE statement names the database that was asked for, whatever its name. */
  lemma UseNamesTheDatabase(db: string)
    ensures match Expect(UseText(db), "USE ") case None => false case Some(r) => RowText.ReadIdent(r) == Some((db, ""))
  {
    ExpectPrefix("USE ", RowText.Quote(db));
    RowText.IdentRoundTrip(db, "");
    assert RowText.Quote(db) + "" == RowText.Quote(db);
  }

  /** RunScript; the server's answers are parameters, and `sent` lists what it was sent. */
  method RunScript(dbName: string, script: string, skipServerLevel: bool,
                   connects: bool, accepts: nat -> bool, acceptsUse: bool)
    returns (res: ScriptResult, sent: seq<string>)
    ensures res.total == |Split(script)| && res.executed + res.skipped + res.failed == res.total
    ensures !connects ==> sent == [] && res.failed == res.total && res.errors == [ConnectError]
    ensures connects && dbName != "" && !acceptsUse ==>
              sent == [UseText(dbName)] && res.failed == res.total && res.errors == [UseError(dbName)]
    ensures connects && (dbName == "" || acceptsUse) ==>
              && var first := if dbName == "" then [] else [UseText(dbName)];
              && sent == first + Runnable(Split(script), skipServerLevel)
              && (skipServerLevel ==> SentIsLocal(sent[|first|..], Split(script)))
              && (!skipServerLevel ==> sent == first + Split(script))
              && res.executed + res.failed == |Runnable(Split(script), skipServerLevel)|
              && |res.errors| == res.failed
              && ReportsRefusals(res.errors, Split(script), skipServerLevel, accepts)
  {
    hide SkipStatement, ServerLevel, ReportsRefusals, Split, UseText;
    var stmts := SplitStatements(script);
    sent := [];
    if !connects {
      return ScriptResult(|stmts|, 0, 0, |stmts|, [ConnectError]), sent;
    }
    if dbName != "" {
      sent := [UseText(dbName)];
      if !acceptsUse {
        return ScriptResult(|stmts|, 0, 0, |stmts|, [UseError(dbName)]), sent;
      }
    }
    ghost var first := sent;
    var executed, skipped, failed, errors := 0, 0, 0, [];
    NothingReported(skipServerLevel, accepts);
    for idx := 0 to |stmts|
      invariant executed + skipped + failed == idx
      invariant sent == first + Runnable(stmts[..idx], skipServerLevel)
      invariant executed + failed == |Runnable(stmts[..idx], skipServerLevel)|
      invariant |errors| == failed
      invariant ReportsRefusals(errors, stmts[..idx], skipServerLevel, accepts)
    {
      var stmt := stmts[idx];
      assert stmts[..idx + 1] == stmts[..idx] + [stmt];
      RunnableSnoc(stmts[..idx], stmt, skipServerLevel);
      ReportSnoc(errors, stmts[..idx], stmt, skipServerLevel, accepts);
      if skipServerLevel && SkipStatement(stmt) {
        skipped := skipped + 1;
        continue;
      }
      sent := sent + [stmt];
      if accepts(idx) {
        executed := executed + 1;
      } else {
        failed := failed + 1;
        errors := errors + [StatementError(idx + 1, stmt)];
      }
    }
    assert stmts[..|stmts|] == stmts;
    RunnableExactly(stmts);
    assert sent[|first|..] == Runnable(stmts, skipServerLevel);
    res := ScriptResult(|stmts|, executed, skipped, failed, errors);
  }
}
