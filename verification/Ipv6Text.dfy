/** The text of an IPv6 address: eight groups in hexadecimal, of which the first of the longest runs of two or
    more zero groups is left out (RFC 5952, section 4.2), and how it is read. */
module Ipv6Text {
  import opened Text
  import opened Address
  import opened Numerals

  // ---- Writing --------------------------------------------------------------------------------------

  function Groups(bits: nat): (g: seq<nat>)
    ensures |g| == 8
  {
    SplitGroups(bits, 8)
  }

  function SplitGroups(bits: nat, n: nat): (g: seq<nat>)
    ensures |g| == n
  {
    if n == 0 then [] else SplitGroups(bits / 0x1_0000, n - 1) + [bits % 0x1_0000]
  }

  function ZeroRun(g: seq<nat>): (n: nat)
    ensures n <= |g|
  {
    if g == [] || g[0] != 0 then 0 else 1 + ZeroRun(g[1..])
  }

  /** The first of the longest runs of zeros: where it starts and how long it is. */
  function LongestRun(g: seq<nat>): (r: (nat, nat))
    ensures r.0 + r.1 <= |g|
  {
    if g == [] then (0, 0)
    else
      var (start, len) := LongestRun(g[1..]);
      if ZeroRun(g) >= len then (0, ZeroRun(g)) else (start + 1, len)
  }

  function Joined(g: seq<nat>): string {
    if g == [] then "" else Numeral(g[0], 16) + (if |g| == 1 then "" else ":" + Joined(g[1..]))
  }

  function Colons(g: seq<nat>): string {
    var (start, len) := LongestRun(g);
    if len < 2 then Joined(g) else Joined(g[..start]) + ("::" + Joined(g[start + len..]))
  }

  // ---- Reading --------------------------------------------------------------------------------------

  /** Where the first two colons are, or the length. */
  function DoubleColon(s: string): (n: nat)
    ensures n <= |s| && (n < |s| ==> n + 2 <= |s|)
  {
    if "::" <= s then 0 else if s == "" then 0 else 1 + DoubleColon(s[1..])
  }

  /** Numbers with single colons between them, up to the end. */
  function ReadGroups(s: string): Option<seq<nat>>
    decreases |s|
  {
    match ReadNumeral(s, 16)
    case None => None
    case Some((n, rest)) =>
      if rest == "" then Some([n])
      else match Expect(rest, ":")
        case None => None
        case Some(more) =>
          match ReadGroups(more)
          case None => None
          case Some(ns) => Some([n] + ns)
  }

  function ReadSide(s: string): Option<seq<nat>> {
    if s == "" then Some([]) else ReadGroups(s)
  }

  function Zeros(n: nat): seq<nat> {
    seq(n, i => 0)
  }

  function ReadColons(s: string): Option<seq<nat>> {
    var n := DoubleColon(s);
    if n == |s| then ReadSide(s)
    else match ReadSide(s[..n])
      case None => None
      case Some(a) =>
        match ReadSide(s[n + 2..])
        case None => None
        case Some(b) => if |a| + |b| <= 8 then Some(a + Zeros(8 - |a| - |b|) + b) else None
  }

  function Merge(g: seq<nat>): nat {
    if g == [] then 0 else Merge(g[..|g| - 1]) * 0x1_0000 + g[|g| - 1]
  }

  // ---- Round trip -----------------------------------------------------------------------------------

  lemma {:induction false} ZeroRunIsZero(g: seq<nat>)
    ensures g[..ZeroRun(g)] == Zeros(ZeroRun(g))
  {
    if g != [] && g[0] == 0 {
      ZeroRunIsZero(g[1..]);
      var n := ZeroRun(g[1..]);
      assert g[..n + 1] == [0] + g[1..][..n];
    }
  }

  lemma {:induction false} LongestRunIsZero(g: seq<nat>)
    ensures var (start, len) := LongestRun(g); g[start..start + len] == Zeros(len)
  {
    if g != [] {
      var (start, len) := LongestRun(g[1..]);
      LongestRunIsZero(g[1..]);
      ZeroRunIsZero(g);
      assert g[..ZeroRun(g)] == g[0..0 + ZeroRun(g)];
      assert g[1..][start..start + len] == g[start + 1..start + 1 + len];
    }
  }

  lemma {:induction false} ZeroRunIsLongest(g: seq<nat>, n: nat)
    requires n <= |g| && forall i :: 0 <= i < n ==> g[i] == 0
    ensures n <= ZeroRun(g)
  {
    if n > 0 { ZeroRunIsLongest(g[1..], n - 1); }
  }

  /** There is no longer run of zeros, and none as long that starts earlier. */
  lemma {:induction false} LongestRunIsLongest(g: seq<nat>, k: nat, n: nat)
    requires k + n <= |g| && forall i :: k <= i < k + n ==> g[i] == 0
    ensures var (start, len) := LongestRun(g); n <= len && (n == len && n > 0 ==> start <= k)
  {
    if g != [] {
      if k == 0 {
        ZeroRunIsLongest(g, n);
      } else {
        LongestRunIsLongest(g[1..], k - 1, n);
      }
    }
  }

  lemma JoinedCons(g: seq<nat>)
    requires |g| > 1
    ensures Joined(g) == Numeral(g[0], 16) + (":" + Joined(g[1..]))
  {
  }

  lemma {:induction false} JoinedReads(g: seq<nat>)
    requires g != []
    ensures ReadGroups(Joined(g)) == Some(g)
  {
    hide Numeral, ReadNumeral;
    if |g| == 1 {
      NumeralRoundTrip(g[0], 16, "");
      assert Numeral(g[0], 16) + "" == Joined(g) && g == [g[0]];
    } else {
      var more := Joined(g[1..]);
      JoinedReads(g[1..]);
      NumeralRoundTrip(g[0], 16, ":" + more);
      ExpectPrefix(":", more);
      JoinedCons(g);
      assert g == [g[0]] + g[1..];
    }
  }

  lemma JoinedSide(g: seq<nat>)
    ensures ReadSide(Joined(g)) == Some(g)
  {
    hide Numeral, ReadGroups;
    if g != [] {
      JoinedReads(g);
      NumeralIsPlain(g[0], 16);
    }
  }

  /** Text without a colon passes; a single colon after it stays single. */
  lemma {:induction false} DoubleAfterDigits(s: string, rest: string)
    requires Digits(s, 16)
    ensures DoubleColon(s + rest) == |s| + DoubleColon(rest)
  {
    if s == "" {
      assert s + rest == rest;
    } else {
      DoubleAfterDigits(s[1..], rest);
      assert (s + rest)[1..] == s[1..] + rest;
      assert (s + rest)[0] == s[0] != ':';
    }
  }

  lemma DoubleAfterColon(s: string)
    requires s == "" || s[0] != ':'
    ensures DoubleColon(":" + s) == 1 + DoubleColon(s)
  {
    var t := ":" + s;
    assert t[1..] == s;
    if s != "" { assert t[1] == s[0]; }
  }

  lemma JoinedStarts(g: seq<nat>)
    ensures Joined(g) == "" || DigitOf(Joined(g)[0]) < 16
    ensures g != [] ==> Joined(g) != ""
  {
    if g != [] { NumeralIsPlain(g[0], 16); }
  }

  /** In joined groups there are no two colons side by side. */
  lemma {:induction false} DoubleInJoined(g: seq<nat>, rest: string)
    requires rest == "" || "::" <= rest
    ensures DoubleColon(Joined(g) + rest) == |Joined(g)|
  {
    hide Numeral;
    if g == [] {
      assert Joined(g) + rest == rest;
    } else {
      NumeralIsPlain(g[0], 16);
      if |g| == 1 {
        DoubleAfterDigits(Numeral(g[0], 16), rest);
        assert Joined(g) == Numeral(g[0], 16);
      } else {
        var more := Joined(g[1..]) + rest;
        DoubleInJoined(g[1..], rest);
        JoinedStarts(g[1..]);
        DoubleAfterColon(more);
        DoubleAfterDigits(Numeral(g[0], 16), ":" + more);
        JoinedCons(g);
        assert Joined(g) + rest == Numeral(g[0], 16) + (":" + more);
      }
    }
  }

  /** The groups are read back, whichever run was left out. */
  lemma ColonsRoundTrip(g: seq<nat>)
    requires |g| == 8
    ensures ReadColons(Colons(g)) == Some(g)
  {
    var (start, len) := LongestRun(g);
    hide Joined, ReadSide, LongestRun, DoubleColon;
    if len < 2 {
      DoubleInJoined(g, "");
      assert Joined(g) + "" == Joined(g);
      JoinedSide(g);
    } else {
      var a, b := g[..start], g[start + len..];
      var s := Joined(a) + ("::" + Joined(b));
      DoubleInJoined(a, "::" + Joined(b));
      assert s[..|Joined(a)|] == Joined(a) && s[|Joined(a)| + 2..] == Joined(b);
      JoinedSide(a);
      JoinedSide(b);
      LongestRunIsZero(g);
      assert a + g[start..start + len] + b == g;
    }
  }

  lemma {:induction false} SplitMerges(bits: nat, n: nat)
    requires bits < Pow2(16 * n)
    ensures Merge(SplitGroups(bits, n)) == bits
  {
    if n > 0 {
      Sixteen(16 * (n - 1));
      SplitMerges(bits / 0x1_0000, n - 1);
      var g := SplitGroups(bits, n);
      assert g[..|g| - 1] == SplitGroups(bits / 0x1_0000, n - 1);
    }
  }

  lemma Sixteen(k: nat)
    ensures Pow2(k + 16) == 0x1_0000 * Pow2(k)
  {
    Pow2Product(16, k);
    assert Pow2(16) == 0x1_0000 by {
      assert Pow2(4) == 16 && Pow2(8) == 256;
      Pow2Product(8, 8);
    }
  }

  function ReadAddr(s: string): Option<Addr> {
    match ReadColons(s)
    case None => None
    case Some(g) => Some(Addr(IPv6, Merge(g)))
  }

  /** Every IPv6 address is read back from its text. */
  lemma AddrRoundTrip(bits: nat)
    requires bits < Pow2(128)
    ensures ReadAddr(Colons(Groups(bits))) == Some(Addr(IPv6, bits))
  {
    hide Colons, ReadColons, Pow2, Merge;
    ColonsRoundTrip(Groups(bits));
    SplitMerges(bits, 8);
  }

  /** The text has a colon and nothing but hexadecimal digits and colons. */
  predicate Hexadecimal(s: string) {
    forall i :: 0 <= i < |s| ==> DigitOf(s[i]) < 16 || s[i] == ':'
  }

  lemma {:induction false} JoinedIsHexadecimal(g: seq<nat>)
    ensures Hexadecimal(Joined(g)) && (|g| > 1 ==> ':' in Joined(g))
  {
    hide Numeral, DigitOf;
    if g != [] {
      NumeralIsPlain(g[0], 16);
      JoinedIsHexadecimal(g[1..]);
      if |g| > 1 {
        JoinedCons(g);
        assert Joined(g)[|Numeral(g[0], 16)|] == ':';
      }
    }
  }

  lemma HexadecimalConcat(a: string, b: string)
    requires Hexadecimal(a) && Hexadecimal(b)
    ensures Hexadecimal(a + b)
  {
    hide DigitOf;
  }

  lemma ColonsIsHexadecimal(g: seq<nat>)
    requires |g| == 8
    ensures Hexadecimal(Colons(g)) && ':' in Colons(g)
  {
    hide DigitOf, LongestRun, Joined, Hexadecimal;
    var (start, len) := LongestRun(g);
    JoinedIsHexadecimal(g);
    if len >= 2 {
      var a, b := Joined(g[..start]), Joined(g[start + len..]);
      JoinedIsHexadecimal(g[..start]);
      JoinedIsHexadecimal(g[start + len..]);
      assert Hexadecimal("::") by { ColonsAlone(); }
      HexadecimalConcat("::", b);
      HexadecimalConcat(a, "::" + b);
      assert Colons(g)[|a|] == ':';
    }
  }

  lemma ColonsAlone()
    ensures Hexadecimal("::")
  {
  }
}
