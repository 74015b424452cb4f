/** The stored text of a range, read as net.ParseCIDR and net.ParseIP read it. */
module CidrText {
  import opened Text
  import opened Address
  import S = Statements

  function SlashAt(s: string): (n: nat)
    ensures n <= |s| && (n < |s| ==> s[n] == '/')
  {
    if s == "" || s[0] == '/' then 0 else 1 + SlashAt(s[1..])
  }

  /** An address, a slash and a number of bits, or an address alone. */
  function ReadCidr(s: string, parseIP: string -> Option<Addr>): Cidr {
    var n := SlashAt(s);
    match parseIP(s[..n])
    case None => Malformed
    case Some(a) =>
      if n == |s| then Bare(a)
      else if S.Digits(s[n + 1..]) && S.Value(s[n + 1..]) <= Width(a.family) then Net(a, S.Value(s[n + 1..]))
      else Malformed
  }

  lemma {:induction false} SlashAtEnd(t: string, rest: string)
    requires '/' !in t && (rest == "" || rest[0] == '/')
    ensures SlashAt(t + rest) == |t|
  {
    if t == "" {
      assert t + rest == rest;
    } else {
      SlashAtEnd(t[1..], rest);
      assert (t + rest)[1..] == t[1..] + rest;
    }
  }

  lemma {:induction false} HasSlash(t: string)
    requires '/' in t
    ensures SlashAt(t) < |t|
  {
    if t[0] != '/' {
      assert t[1..][..] == t[1..] && '/' in t[1..];
      HasSlash(t[1..]);
    }
  }

  lemma Widths()
    ensures S.Digits("32") && S.Value("32") == 32 && S.Digits("128") && S.Value("128") == 128
  {
    assert "32"[..1] == "3" && "3"[..0] == "";
    assert "128"[..2] == "12" && "12"[..1] == "1" && "1"[..0] == "";
  }

  /** Normalizing does to the text what Upgrade does to the range: the same address, with all of its bits, and a
      range that is given, or no range at all, is left alone. */
  lemma NormalizeIsUpgrade(s: string, parseIP: string -> Option<Addr>)
    ensures ReadCidr(NormalizeCIDR(s, parseIP), parseIP) == Upgrade(ReadCidr(Trim(s), parseIP))
  {
    hide Trim, S.Value, S.Digits, SlashAt;
    var t := Trim(s);
    if '/' in t {
      HasSlash(t);
    } else {
      SlashAtEnd(t, "");
      assert t + "" == t && t[..|t|] == t;
      if parseIP(t).Some? {
        Widths();
        var bits := if parseIP(t).value.family == IPv4 then "32" else "128";
        var suffix := "/" + bits;
        SlashAtEnd(t, suffix);
        assert (t + suffix)[..|t|] == t && (t + suffix)[|t| + 1..] == bits;
        assert NormalizeCIDR(s, parseIP) == t + suffix;
      }
    }
  }
}
