/** One allowed range, three renderings: the application check, the MySQL account host and the
    firewall rule. Addresses are parsed values; IPv4-mapped IPv6 text is not part of this model. */
module Address {
  import opened Text

  datatype Family = IPv4 | IPv6

  /** An address: its family and its bits as a number. */
  datatype Addr = Addr(family: Family, bits: nat)

  function Width(f: Family): nat {
    match f
    case IPv4 => 32
    case IPv6 => 128
  }

  /** A parsed CIDR text: the address as written (host bits may be set) and the prefix length. */
  datatype Cidr = Net(addr: Addr, ones: nat) | Bare(addr: Addr) | Malformed

  predicate ValidAddr(a: Addr) {
    a.bits < Pow2(Width(a.family))
  }

  predicate Valid(c: Cidr) {
    match c
    case Net(a, ones) => ValidAddr(a) && ones <= Width(a.family)
    case Bare(a) => ValidAddr(a)
    case Malformed => true
  }

  /* ---- Bits of natural numbers ---- */

  function Pow2(k: nat): (p: nat)
    ensures p > 0
  {
    if k == 0 then 1 else 2 * Pow2(k - 1)
  }

  /** Bitwise AND. */
  function And(a: nat, b: nat): nat {
    if a == 0 || b == 0 then 0 else 2 * And(a / 2, b / 2) + (a % 2) * (b % 2)
  }

  lemma {:induction false} Pow2Monotone(k: nat, w: nat)
    requires k <= w
    ensures Pow2(k) <= Pow2(w)
    decreases w - k
  {
    if k < w { Pow2Monotone(k, w - 1); }
  }

  /** The mask with `ones` leading ones in `w` bits (net.CIDRMask). */
  function Mask(w: nat, ones: nat): nat
    requires ones <= w
  {
    Pow2Monotone(w - ones, w);
    Pow2(w) - Pow2(w - ones)
  }

  lemma {:induction false} AndAllOnes(x: nat, w: nat)
    requires x < Pow2(w)
    ensures And(x, Pow2(w) - 1) == x
  {
    if x > 0 {
      assert (Pow2(w) - 1) / 2 == Pow2(w - 1) - 1 && (Pow2(w) - 1) % 2 == 1;
      AndAllOnes(x / 2, w - 1);
    }
  }

  lemma {:induction false} MulStep(a: nat, b: nat, p: nat)
    requires a < b
    ensures a * p + p <= b * p
  {
    assert b * p == (b - 1) * p + p;
    if a < b - 1 { MulStep(a, b - 1, p); }
  }

  lemma DivUnique(x: nat, p: nat, q: nat, r: nat)
    requires p > 0 && x == q * p + r && r < p
    ensures x / p == q
  {
    var q', r' := x / p, x % p;
    assert x == q' * p + r';
    if q' < q { MulStep(q', q, p); }
    if q < q' { MulStep(q, q', p); }
  }

  /** `x` rounded down to a multiple of `p`. */
  function RoundDown(x: nat, p: nat): nat
    requires p > 0
  {
    x / p * p
  }

  lemma RoundDownHalf(x: nat, p: nat)
    requires p > 0
    ensures RoundDown(x, 2 * p) == 2 * RoundDown(x / 2, p)
  {
    var q, r := x / 2 / p, x / 2 % p;
    assert x / 2 == q * p + r;
    assert x == q * (2 * p) + (2 * r + x % 2);
    DivUnique(x, 2 * p, q, 2 * r + x % 2);
  }

  lemma RoundDownFacts(x: nat, y: nat, p: nat)
    requires p > 0
    ensures RoundDown(x, p) <= x && RoundDown(RoundDown(x, p), p) == RoundDown(x, p)
    ensures RoundDown(x, p) == RoundDown(y, p) <==> x / p == y / p
  {
    DivUnique(RoundDown(x, p), p, x / p, 0);
    DivUnique(RoundDown(y, p), p, y / p, 0);
  }

  lemma AndUnfold(a: nat, b: nat)
    requires a > 0 && b > 0
    ensures And(a, b) == 2 * And(a / 2, b / 2) + (a % 2) * (b % 2)
  {
  }

  lemma AndEven(x: nat, m: nat)
    ensures And(x, 2 * m) == 2 * And(x / 2, m)
  {
    if x == 0 || m == 0 {
      assert And(x / 2, m) == 0;
    } else {
      assert (2 * m) / 2 == m && (2 * m) % 2 == 0;
      hide And;
      AndUnfold(x, 2 * m);
    }
  }

  /** AND with a prefix mask clears the low bits: it rounds down to a multiple of 2^k. */
  lemma {:induction false} AndMask(x: nat, w: nat, k: nat)
    requires x < Pow2(w) && k <= w
    ensures Pow2(k) <= Pow2(w) && And(x, Pow2(w) - Pow2(k)) == RoundDown(x, Pow2(k))
  {
    hide And, RoundDown;
    Pow2Monotone(k, w);
    if k == 0 {
      AndAllOnes(x, w);
      RoundDownOne(x);
    } else {
      AndMask(x / 2, w - 1, k - 1);
      AndEven(x, Pow2(w - 1) - Pow2(k - 1));
      RoundDownHalf(x, Pow2(k - 1));
    }
  }

  lemma RoundDownOne(x: nat)
    ensures RoundDown(x, 1) == x
  {
  }

  /* ---- The three layers ---- */

  /** The addresses of a prefix: those of its family that share its leftmost `ones` bits
      (RFC 4632 section 3.1, RFC 4291 section 2.3). */
  predicate InPrefix(c: Cidr, x: Addr)
    requires Valid(c)
  {
    match c
    case Net(a, ones) =>
      var hostBits := Pow2(Width(a.family) - ones);
      x.family == a.family && x.bits / hostBits == a.bits / hostBits
    case Bare(a) => x == a
    case Malformed => false
  }

  /** Session.IPAllowed: IPNet.Contains for a CIDR (both sides masked), equality for a bare address. */
  predicate IPAllowed(c: Cidr, x: Addr)
    requires Valid(c)
  {
    match c
    case Net(a, ones) =>
      var m := Mask(Width(a.family), ones);
      x.family == a.family && And(And(a.bits, m), m) == And(x.bits, m)
    case Bare(a) => a == x
    case Malformed => false
  }

  /** A MySQL account host. */
  datatype Host = Exact(addr: Addr) | NetMask(net: nat, mask: nat) | AnyHost

  function CIDRToHost(c: Cidr): Option<Host>
    requires Valid(c)
  {
    match c
    case Net(a, ones) =>
      if ones == Width(a.family) then Some(Exact(a))
      else if a.family == IPv6 then Some(AnyHost)
      else Some(NetMask(And(a.bits, Mask(32, ones)), Mask(32, ones)))
    case Bare(a) => Some(Exact(a))
    case Malformed => None
  }

  /** Which clients the server accepts for a host: client AND mask = net (MySQL 8.0 manual, section 8.2.4). */
  predicate HostMatches(h: Host, x: Addr) {
    match h
    case Exact(a) => x == a
    case NetMask(net, mask) => x.family == IPv4 && And(x.bits, mask) == net
    case AnyHost => true
  }

  /** The source of a firewall rule: one host, or the range of a CIDR text passed on as written. */
  datatype Source = Single(addr: Addr) | Range(cidr: Cidr) | Unparsed

  function UfwHost(c: Cidr): Source {
    match c
    case Net(a, ones) => if ones == Width(a.family) then Single(a) else Range(c)
    case Bare(a) => Single(a)
    case Malformed => Unparsed
  }

  predicate SourceAdmits(s: Source, x: Addr)
    requires s.Range? ==> Valid(s.cidr)
  {
    match s
    case Single(a) => x == a
    case Range(c) => InPrefix(c, x)
    case Unparsed => false
  }

  /* ---- One set of addresses ---- */

  lemma MaskIsPrefix(a: nat, x: nat, w: nat, ones: nat)
    requires ones <= w && a < Pow2(w) && x < Pow2(w)
    ensures var m, p := Mask(w, ones), Pow2(w - ones);
            && And(And(a, m), m) == And(a, m)
            && (And(a, m) == And(x, m) <==> x / p == a / p)
  {
    hide And, RoundDown, Pow2;
    var p := Pow2(w - ones);
    RoundDownFacts(a, x, p);
    AndMask(a, w, w - ones);
    AndMask(x, w, w - ones);
    AndMask(RoundDown(a, p), w, w - ones);
  }

  /** The application check admits exactly the addresses of the prefix, in both families. */
  lemma AllowedIsPrefix(c: Cidr, x: Addr)
    requires Valid(c) && ValidAddr(x)
    ensures IPAllowed(c, x) <==> InPrefix(c, x)
  {
    match c
    case Net(a, ones) =>
      if x.family == a.family {
        MaskIsPrefix(a.bits, x.bits, Width(a.family), ones);
      }
    case Bare(_) =>
    case Malformed =>
  }

  /** Three layers, one set: every well-formed range has a host and a rule; the rule admits exactly
      the allowed addresses; the host matches all of them, and for IPv4 no others. An IPv6 range
      other than a single address is matched by any client. */
  lemma ThreeLayersAgree(c: Cidr, x: Addr)
    requires Valid(c) && ValidAddr(x)
    ensures CIDRToHost(c).None? <==> c.Malformed?
    ensures SourceAdmits(UfwHost(c), x) <==> IPAllowed(c, x)
    ensures !c.Malformed? && IPAllowed(c, x) ==> HostMatches(CIDRToHost(c).value, x)
    ensures !c.Malformed? && HostMatches(CIDRToHost(c).value, x) ==>
              IPAllowed(c, x) || (c.Net? && c.addr.family == IPv6 && c.ones != 128)
  {
    hide And, Pow2, Mask;
    AllowedIsPrefix(c, x);
    match c
    case Net(a, ones) =>
      FullPrefix();
      if x.family == a.family {
        MaskIsPrefix(a.bits, x.bits, Width(a.family), ones);
      }
    case Bare(_) =>
    case Malformed =>
  }

  lemma FullPrefix()
    ensures Pow2(0) == 1
  {
  }

  /** The IPv6 gap is real: such a host also matches an address outside the range. */
  lemma AnyHostIsWider(a: Addr, ones: nat)
    requires Valid(Net(a, ones)) && a.family == IPv6 && ones < 128
    ensures exists x :: ValidAddr(x) && HostMatches(CIDRToHost(Net(a, ones)).value, x) && !IPAllowed(Net(a, ones), x)
  {
    var x := Addr(IPv4, 0);
    assert ValidAddr(x) && HostMatches(AnyHost, x);
  }

  /* ---- One rule for one set ---- */

  /** The rule a firewall keeps for a source: it clears the host bits. */
  function RuleOf(c: Cidr): Source {
    match UfwHost(c)
    case Range(Net(a, ones)) =>
      if ones < Width(a.family) then
        Range(Net(Addr(a.family, RoundDown(a.bits, Pow2(Width(a.family) - ones))), ones))
      else Range(c)
    case s => s
  }

  /** First address and number of addresses. */
  function Block(c: Cidr): (Family, nat, nat)
    requires Valid(c) && !c.Malformed?
  {
    match c
    case Bare(a) => (a.family, a.bits, 1)
    case Net(a, ones) =>
      var p := Pow2(Width(a.family) - ones);
      (a.family, RoundDown(a.bits, p), p)
  }

  lemma {:induction false} Pow2Product(a: nat, b: nat)
    ensures Pow2(a + b) == Pow2(a) * Pow2(b)
  {
    if a > 0 {
      Pow2Product(a - 1, b);
      assert Pow2(a + b) == 2 * (Pow2(a - 1) * Pow2(b)) == (2 * Pow2(a - 1)) * Pow2(b);
    }
  }

  lemma RoundDownRange(a: nat, x: nat, p: nat)
    requires p > 0
    ensures x / p == a / p <==> RoundDown(a, p) <= x < RoundDown(a, p) + p
  {
    var q := a / p;
    if RoundDown(a, p) <= x < RoundDown(a, p) + p {
      DivUnique(x, p, q, x - q * p);
    }
  }

  /** A range is its block, and the block consists of addresses. */
  lemma BlockIsRange(c: Cidr, x: Addr)
    requires Valid(c) && !c.Malformed?
    ensures var (f, base, n) := Block(c);
      && n > 0 && base + n <= Pow2(Width(f))
      && (InPrefix(c, x) <==> x.family == f && base <= x.bits < base + n)
  {
    hide Pow2, RoundDown;
    match c
    case Bare(a) =>
    case Net(a, ones) =>
      RoundDownRange(a.bits, x.bits, Pow2(Width(a.family) - ones));
      BlockFits(a.bits, Width(a.family), ones);
  }

  lemma BlockFits(bits: nat, w: nat, ones: nat)
    requires bits < Pow2(w) && ones <= w
    ensures var p := Pow2(w - ones); RoundDown(bits, p) + p <= Pow2(w)
  {
    hide Pow2;
    var p := Pow2(w - ones);
    Pow2Product(w - ones, ones);
    QuotientLess(bits, p, Pow2(ones));
    MulStep(bits / p, Pow2(ones), p);
  }

  lemma QuotientLess(x: nat, p: nat, n: nat)
    requires p > 0 && x < p * n
    ensures x / p < n
  {
    var q := x / p;
    assert x == q * p + x % p;
    if q > n {
      MulStep(n, q, p);
    }
  }

  lemma {:induction false} Pow2Injective(a: nat, b: nat)
    requires Pow2(a) == Pow2(b)
    ensures a == b
  {
    if a > 0 && b > 0 { Pow2Injective(a - 1, b - 1); }
  }

  /** Only a single address is a block of one. */
  lemma BlockSize(c: Cidr)
    requires Valid(c) && !c.Malformed?
    ensures Block(c).2 == 1 <==> c.Bare? || c.ones == Width(c.addr.family)
  {
    FullPrefix();
    if c.Net? && c.ones < Width(c.addr.family) {
      assert Pow2(Width(c.addr.family) - c.ones) == 2 * Pow2(Width(c.addr.family) - c.ones - 1);
    }
  }

  lemma SameBlockSameRule(c: Cidr, d: Cidr)
    requires Valid(c) && Valid(d) && !c.Malformed? && !d.Malformed?
    ensures Block(c) == Block(d) <==> RuleOf(c) == RuleOf(d)
  {
    hide Pow2, RoundDown, ValidAddr;
    FullPrefix();
    RoundDownOne(if c.Net? then c.addr.bits else 0);
    RoundDownOne(if d.Net? then d.addr.bits else 0);
    BlockSize(c);
    BlockSize(d);
    if c.Net? && d.Net? && c.addr.family == d.addr.family && Block(c).2 == Block(d).2 {
      Pow2Injective(Width(c.addr.family) - c.ones, Width(d.addr.family) - d.ones);
    }
  }

  /** Two ranges are one rule of the firewall if and only if they are the same set of addresses. */
  lemma OneRuleForOneSet(c: Cidr, d: Cidr)
    requires Valid(c) && Valid(d) && !c.Malformed? && !d.Malformed?
    ensures RuleOf(c) == RuleOf(d) <==> forall x :: ValidAddr(x) ==> (InPrefix(c, x) <==> InPrefix(d, x))
  {
    hide InPrefix, Block, RuleOf, Pow2;
    SameBlockSameRule(c, d);
    var (f, base, n) := Block(c);
    var (g, other, m) := Block(d);
    forall x ensures InPrefix(c, x) <==> x.family == f && base <= x.bits < base + n { BlockIsRange(c, x); }
    forall x ensures InPrefix(d, x) <==> x.family == g && other <= x.bits < other + m { BlockIsRange(d, x); }
    BlockIsRange(c, Addr(f, base));
    BlockIsRange(d, Addr(g, other));
    if forall x :: ValidAddr(x) ==> (InPrefix(c, x) <==> InPrefix(d, x)) {
      assert InPrefix(d, Addr(f, base)) && InPrefix(d, Addr(f, base + n - 1));
      assert InPrefix(c, Addr(g, other)) && InPrefix(c, Addr(g, other + m - 1));
    }
  }

  /** The rule is well formed and lets the address in. */
  predicate LetsIn(r: Source, x: Addr) {
    (r.Range? ==> Valid(r.cidr)) && SourceAdmits(r, x)
  }

  lemma RoundDownKeepsRange(bits: nat, w: nat, ones: nat)
    requires ones <= w
    ensures RoundDown(bits, Pow2(w - ones)) < Pow2(w) <==> bits < Pow2(w)
  {
    hide Pow2;
    var p := Pow2(w - ones);
    Pow2Product(w - ones, ones);
    DivUnique(Pow2(w), p, Pow2(ones), 0);
    RoundDownFacts(bits, bits, p);
    if bits < Pow2(w) {
      QuotientLess(bits, p, Pow2(ones));
    } else {
      QuotientLeast(bits, p, Pow2(ones));
    }
  }

  lemma QuotientLeast(x: nat, p: nat, n: nat)
    requires p > 0 && x >= p * n
    ensures x / p * p >= p * n
  {
    if x / p < n { MulStep(x / p, n, p); }
  }

  /** Clearing the host bits changes nothing for any address: the rule lets in exactly the range. */
  lemma RuleIsTheRange(c: Cidr, x: Addr)
    requires ValidAddr(x)
    ensures LetsIn(RuleOf(c), x) <==> Valid(c) && InPrefix(c, x)
  {
    hide RoundDown, Pow2;
    match c
    case Net(a, ones) =>
      if ones < Width(a.family) {
        RoundDownKeepsRange(a.bits, Width(a.family), ones);
        RoundDownFacts(a.bits, x.bits, Pow2(Width(a.family) - ones));
        SameQuotient(a.bits, Pow2(Width(a.family) - ones));
      } else {
        FullPrefix();
        RangeOfOne(x.bits, a.bits);
      }
    case Bare(_) =>
    case Malformed =>
  }

  lemma SameQuotient(a: nat, p: nat)
    requires p > 0
    ensures RoundDown(a, p) / p == a / p
  {
    DivUnique(RoundDown(a, p), p, a / p, 0);
  }

  lemma RangeOfOne(x: nat, a: nat)
    ensures x / 1 == a / 1 <==> x == a
  {
  }

  /** Some open rule lets the address in. */
  ghost predicate OpenTo(rules: set<Source>, x: Addr) {
    exists r :: r in rules && LetsIn(r, x)
  }

  /** Opening the rule of a range adds the addresses of the range, and no others. */
  lemma OpeningAddsTheRange(rules: set<Source>, c: Cidr, x: Addr)
    requires ValidAddr(x)
    ensures OpenTo(rules + {RuleOf(c)}, x) <==> OpenTo(rules, x) || (Valid(c) && InPrefix(c, x))
  {
    hide LetsIn, RuleOf, InPrefix, Valid, ValidAddr;
    RuleIsTheRange(c, x);
    forall r | r in rules ensures r in rules + {RuleOf(c)} {}
    assert RuleOf(c) in rules + {RuleOf(c)};
  }

  /** Closing it takes away addresses of the range only. */
  lemma ClosingTakesOnlyTheRange(rules: set<Source>, c: Cidr, x: Addr)
    requires ValidAddr(x)
    ensures OpenTo(rules - {RuleOf(c)}, x) ==> OpenTo(rules, x)
    ensures OpenTo(rules, x) && !(Valid(c) && InPrefix(c, x)) ==> OpenTo(rules - {RuleOf(c)}, x)
  {
    hide LetsIn, RuleOf, InPrefix, Valid, ValidAddr;
    RuleIsTheRange(c, x);
    if OpenTo(rules, x) && !(Valid(c) && InPrefix(c, x)) {
      var r :| r in rules && LetsIn(r, x);
      assert r in rules - {RuleOf(c)};
    }
  }

  /* ---- normalizeCIDR ---- */

  /** What upgrading a bare address does to the parsed value. */
  function Upgrade(c: Cidr): Cidr {
    match c
    case Bare(a) => Net(a, Width(a.family))
    case _ => c
  }

  lemma UpgradeKeepsSet(c: Cidr, x: Addr)
    requires Valid(c) && ValidAddr(x)
    ensures Valid(Upgrade(c)) && (IPAllowed(Upgrade(c), x) <==> IPAllowed(c, x))
  {
    hide And, Pow2, Mask;
    FullPrefix();
    AllowedIsPrefix(c, x);
    AllowedIsPrefix(Upgrade(c), x);
  }

  /** normalizeCIDR on text; `parseIP` is net.ParseIP. */
  function NormalizeCIDR(s: string, parseIP: string -> Option<Addr>): string {
    var t := Trim(s);
    if '/' in t then t
    else match parseIP(t)
      case Some(Addr(IPv4, _)) => t + "/32"
      case Some(Addr(IPv6, _)) => t + "/128"
      case None => t
  }

  /** Normalizing twice is normalizing once, for every text and every address parser. */
  lemma NormalizeIdempotent(s: string, parseIP: string -> Option<Addr>)
    ensures NormalizeCIDR(NormalizeCIDR(s, parseIP), parseIP) == NormalizeCIDR(s, parseIP)
  {
    var p, q := TrimSplits(s);
    var t, r := Trim(s), NormalizeCIDR(s, parseIP);
    if '/' in t || parseIP(t).None? {
      TrimPadded([], t, []);
      assert [] + t + [] == t;
    } else {
      var suffix := if parseIP(t).value.family == IPv4 then "/32" else "/128";
      assert r == t + suffix && r[|t|] == '/';
      assert t == [] ==> r == suffix;
      TrimPadded([], r, []);
      assert [] + r + [] == r;
    }
  }
}
