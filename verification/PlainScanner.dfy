/** The doubled-quote lookahead of SplitStatements is redundant: a scanner that simply toggles on
    every single quote takes more turns but ends in the same mode with the same output. */
module PlainScanner {
  import opened Scanner

  function PlainMove(m: Mode, s: string): (t: Turn)
    requires s != []
    ensures 1 <= t.len <= |s|
  {
    if s[0] == '\'' && (m == Single || m == Code) then
      Turn(1, if m == Single then Code else Single, [Keep(s[0])])
    else
      Move(m, s)
  }

  function PlainScan(m: Mode, s: string): seq<Item>
    decreases |s|
  {
    if s == [] then [] else
      var t := PlainMove(m, s);
      t.out + PlainScan(t.next, s[t.len..])
  }

  function PlainEnd(m: Mode, s: string): Mode
    decreases |s|
  {
    if s == [] then m else
      var t := PlainMove(m, s);
      PlainEnd(t.next, s[t.len..])
  }

  /** Where the scanner reads two quotes in one turn, the plain one leaves the quote and comes back. */
  lemma TwoPlainTurns(s: string)
    requires |s| > 1 && s[0] == s[1] == '\''
    ensures PlainScan(Single, s) == [Keep('\'')] + ([Keep('\'')] + PlainScan(Single, s[2..]))
    ensures PlainEnd(Single, s) == PlainEnd(Single, s[2..])
  {
    var r := s[1..];
    assert r[0] == '\'' && r[1..] == s[2..];
    assert PlainMove(Single, s) == Turn(1, Code, [Keep('\'')]);
    assert PlainMove(Code, r) == Turn(1, Single, [Keep('\'')]);
    hide PlainMove;
    assert PlainScan(Code, r) == [Keep('\'')] + PlainScan(Single, s[2..]);
    assert PlainEnd(Code, r) == PlainEnd(Single, s[2..]);
  }

  /** Same output and same final mode, from every mode and on every script. */
  lemma {:induction false} LookaheadRedundant(m: Mode, s: string)
    ensures PlainScan(m, s) == Scan(m, s) && PlainEnd(m, s) == End(m, s)
    decreases |s|
  {
    if s == [] {
    } else if m == Single && s[0] == '\'' && Peek(s) == '\'' {
      TwoPlainTurns(s);
      LookaheadRedundant(Single, s[2..]);
      assert Move(Single, s) == Turn(2, Single, [Keep('\''), Keep('\'')]);
      hide Move, PlainMove, PlainScan, PlainEnd;
      assert Scan(m, s) == [Keep('\''), Keep('\'')] + Scan(Single, s[2..]);
      ConcatAssoc([Keep('\'')], [Keep('\'')], Scan(Single, s[2..]));
      assert [Keep('\'')] + [Keep('\'')] == [Keep('\''), Keep('\'')];
    } else {
      var t := Move(m, s);
      assert PlainMove(m, s) == t;
      LookaheadRedundant(t.next, s[t.len..]);
    }
  }

  /** The simpler scanner splits every script the same way. */
  lemma PlainSplitsAlike(script: string)
    ensures Flush([], PlainScan(Code, script)) == Split(script)
  {
    LookaheadRedundant(Code, script);
    ScanRefinesLex(script);
  }
}
