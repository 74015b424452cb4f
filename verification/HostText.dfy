/** The text of a MySQL account host, and the CREATE USER that has it in it: an address, an IPv4 network with its
    mask, or the wildcard. */
module HostText {
  import opened Text
  import opened Address
  import opened Numerals
  import opened Ipv6Text
  import A = Accounts
  import T = AccountText

  // ---- Writing --------------------------------------------------------------------------------------

  function Dotted(bits: nat): string {
    Numeral(bits / 0x100_0000, 10) + "." + (Numeral(bits / 0x1_0000 % 256, 10) + "."
      + (Numeral(bits / 256 % 256, 10) + "." + Numeral(bits % 256, 10)))
  }

  function AddrText(a: Addr): string {
    if a.family == IPv4 then Dotted(a.bits) else Colons(Groups(a.bits))
  }

  function Render(h: Host): string {
    match h
    case Exact(a) => AddrText(a)
    case NetMask(net, mask) => Dotted(net) + "/" + Dotted(mask)
    case AnyHost => "%"
  }

  // ---- No quotes ------------------------------------------------------------------------------------

  /** Digits and dots. */
  predicate Decimal(s: string) {
    forall i :: 0 <= i < |s| ==> DigitOf(s[i]) < 16 || s[i] == '.'
  }

  lemma DottedIsDecimal(bits: nat)
    ensures Decimal(Dotted(bits)) && ':' !in Dotted(bits) && '%' !in Dotted(bits)
  {
    NumeralIsPlain(bits / 0x100_0000, 10);
    NumeralIsPlain(bits / 0x1_0000 % 256, 10);
    NumeralIsPlain(bits / 256 % 256, 10);
    NumeralIsPlain(bits % 256, 10);
    hide Numeral, DigitOf;
    assert Decimal(Dotted(bits));
    DecimalIsPlain(Dotted(bits));
  }

  lemma DecimalIsPlain(s: string)
    requires Decimal(s)
    ensures ':' !in s && '%' !in s
  {
  }

  lemma RenderIsBare(h: Host)
    ensures T.Bare(Render(h))
  {
    hide Dotted, Colons, Groups;
    match h
    case Exact(a) =>
      DottedIsDecimal(a.bits);
      ColonsIsHexadecimal(Groups(a.bits));
    case NetMask(net, mask) =>
      DottedIsDecimal(net);
      DottedIsDecimal(mask);
    case AnyHost =>
  }

  /** For every range and every temporary user, the statement that CreateUser writes says exactly the user,
      the host of the range and the password. */
  lemma SessionUserTextIsExact(c: Cidr, user: string, password: string)
    requires Valid(c) && CIDRToHost(c).Some? && A.TempUserOk(user) && A.Safe(password)
    ensures var host := Render(CIDRToHost(c).value);
            T.ReadCreateUser("CREATE USER '" + user + "'@'" + host + "' IDENTIFIED BY '" + password + "'")
              == Some(T.Account(user, host, password))
  {
    hide *;
    RenderIsBare(CIDRToHost(c).value);
    A.TempUserTextIsExact(user, Render(CIDRToHost(c).value), password);
  }

  // ---- Reading --------------------------------------------------------------------------------------

  /** A number with a dot after it. */
  function ReadPart(s: string): Option<(nat, string)> {
    match ReadNumeral(s, 10)
    case None => None
    case Some((n, rest)) =>
      match Expect(rest, ".")
      case None => None
      case Some(more) => Some((n, more))
  }

  function ReadDotted(s: string): Option<(nat, string)> {
    match ReadPart(s)
    case None => None
    case Some((a, s1)) =>
      match ReadPart(s1)
      case None => None
      case Some((b, s2)) =>
        match ReadPart(s2)
        case None => None
        case Some((c, s3)) =>
          match ReadNumeral(s3, 10)
          case None => None
          case Some((d, rest)) => Some((a * 0x100_0000 + b * 0x1_0000 + c * 256 + d, rest))
  }

  function ReadHost(s: string): Option<Host> {
    if s == "%" then Some(AnyHost)
    else if ':' in s then
      match ReadAddr(s)
      case None => None
      case Some(a) => Some(Exact(a))
    else match ReadDotted(s)
      case None => None
      case Some((a, rest)) =>
        if rest == "" then Some(Exact(Addr(IPv4, a)))
        else match Expect(rest, "/")
          case None => None
          case Some(s2) =>
            match ReadDotted(s2)
            case None => None
            case Some((b, rest2)) => if rest2 == "" then Some(NetMask(a, b)) else None
  }

  lemma PartRoundTrip(n: nat, rest: string)
    ensures ReadPart(Numeral(n, 10) + ("." + rest)) == Some((n, rest))
  {
    hide Numeral, ReadNumeral;
    NumeralRoundTrip(n, 10, "." + rest);
    ExpectPrefix(".", rest);
  }

  lemma DottedRoundTrip(bits: nat, rest: string)
    requires NoDigit(rest, 10)
    ensures ReadDotted(Dotted(bits) + rest) == Some((bits, rest))
  {
    hide Numeral, ReadNumeral, ReadPart;
    var a, b, c, d := bits / 0x100_0000, bits / 0x1_0000 % 256, bits / 256 % 256, bits % 256;
    var s3 := Numeral(d, 10) + rest;
    var s2 := Numeral(c, 10) + ("." + s3);
    var s1 := Numeral(b, 10) + ("." + s2);
    PartRoundTrip(a, s1);
    PartRoundTrip(b, s2);
    PartRoundTrip(c, s3);
    NumeralRoundTrip(d, 10, rest);
    DottedParts(Numeral(a, 10), Numeral(b, 10), Numeral(c, 10), Numeral(d, 10), rest);
    Bytes(bits);
  }

  lemma DottedParts(a: string, b: string, c: string, d: string, rest: string)
    ensures a + "." + (b + "." + (c + "." + d)) + rest
         == a + ("." + (b + ("." + (c + ("." + (d + rest))))))
  {
  }

  lemma Bytes(bits: nat)
    ensures bits / 0x100_0000 * 0x100_0000 + bits / 0x1_0000 % 256 * 0x1_0000 + bits / 256 % 256 * 256 + bits % 256
         == bits
  {
    var x := bits / 256;
    var y := x / 256;
    assert bits / 0x1_0000 == y && bits / 0x100_0000 == y / 256;
  }

  /** Every host is read back from its text, so hosts that match different clients have different texts. */
  lemma HostRoundTrip(h: Host)
    requires h.Exact? ==> ValidAddr(h.addr)
    ensures ReadHost(Render(h)) == Some(h)
  {
    hide Dotted, ReadDotted, Colons, ReadAddr, Groups, Pow2;
    match h
    case Exact(a) =>
      if a.family == IPv4 {
        DottedRoundTrip(a.bits, "");
        DottedIsDecimal(a.bits);
        assert Dotted(a.bits) + "" == Dotted(a.bits);
      } else {
        ColonsIsHexadecimal(Groups(a.bits));
        AddrRoundTrip(a.bits);
      }
    case NetMask(net, mask) =>
      var rest := "/" + Dotted(mask);
      DottedRoundTrip(net, rest);
      DottedRoundTrip(mask, "");
      DottedIsDecimal(net);
      DottedIsDecimal(mask);
      ExpectPrefix("/", Dotted(mask));
      assert Dotted(net) + "/" + Dotted(mask) == Dotted(net) + rest;
      assert Render(h)[|Dotted(net)|] == '/';
      assert Dotted(mask) + "" == Dotted(mask);
    case AnyHost =>
  }
}
