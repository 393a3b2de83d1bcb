/** "ADDR:PORT/PROTO" and "ADDR/LEN": printed, parsed, and back. */
module VipText {
  import opened Basics
  import opened Maps
  import opened Packet
  import opened Encap
  import opened Text

  // ---- searching

  /** std::string::rfind. */
  function LastIndex(s: string, c: char): (r: Option<nat>) {
    if s == "" then None else if s[|s| - 1] == c then Some(|s| - 1) else LastIndex(s[..|s| - 1], c)
  }

  lemma {:induction false} LastIndexIs(s: string, c: char, i: nat)
    requires i < |s| && s[i] == c && forall j :: i < j < |s| ==> s[j] != c
    ensures LastIndex(s, c) == Some(i)
  {
    if i < |s| - 1 {
      LastIndexIs(s[..|s| - 1], c, i);
    }
  }

  /** std::string::find. */
  function FirstIndex(s: string, c: char, from: nat): (r: Option<nat>)
    requires from <= |s|
    ensures r.Some? ==> from <= r.value < |s|
    decreases |s| - from
  {
    if from == |s| then None else if s[from] == c then Some(from) else FirstIndex(s, c, from + 1)
  }

  lemma {:induction false} FirstIndexIs(s: string, c: char, from: nat, i: nat)
    requires from <= i < |s| && s[i] == c && forall j :: from <= j < i ==> s[j] != c
    ensures FirstIndex(s, c, from) == Some(i)
    decreases i - from
  {
    if from < i {
      FirstIndexIs(s, c, from + 1, i);
    }
  }

  lemma {:induction false} LastIndexInside(s: string, c: char)
    ensures LastIndex(s, c).Some? ==> LastIndex(s, c).value < |s|
  {
    if s != "" {
      LastIndexInside(s[..|s| - 1], c);
    }
  }

  ghost predicate Lacks(s: string, from: nat, c: char) {
    forall i :: from <= i < |s| ==> s[i] != c
  }

  lemma DigitsLack(s: string, c: char)
    requires DigitsIn(s, 0, |s|) && !IsDigit(c)
    ensures Lacks(s, 0, c)
  {
  }

  lemma SpelledLacks(s: string, k: nat, t: string, c: char, i: nat)
    requires Spells(s, k, t) && Lacks(t, 0, c) && k <= i < k + |t|
    ensures s[i] != c
  {
    assert SpellsAt(s, k, t, i - k);
  }

  // ---- ports

  /** One to five digits, 1..65535. */
  ghost function Port(s: string): (r: Result<U16>) {
    if 1 <= |s| <= 5 && DigitsIn(s, 0, |s|) && 1 <= ValueIn(s, 0, |s|) <= 65535 then Ok(ValueIn(s, 0, |s|))
      else Err("bad port")
  }

  /** parse_port accepts exactly one to five digits with a value in 1..65535, and returns that value. */
  method ParsePort(s: string) returns (r: Result<U16>)
    ensures r.Ok? <==> 1 <= |s| <= 5 && DigitsIn(s, 0, |s|) && 1 <= ValueIn(s, 0, |s|) <= 65535
    ensures r.Ok? ==> r.value == ValueIn(s, 0, |s|)
    ensures r == Port(s)
  {
    if s == "" || |s| > 5 {
      return Err("bad port");
    }
    var v := 0;
    for i := 0 to |s|
      invariant DigitsIn(s, 0, i) && v == ValueIn(s, 0, i)
    {
      if !IsDigit(s[i]) {
        return Err("bad port");
      }
      v := v * 10 + Digit(s[i]);
    }
    if v < 1 || v > 65535 {
      return Err("bad port");
    }
    return Ok(v);
  }

  function PortToBe(port: U16, e: Endian): (be: U16) {
    Load16([port / 0x100, port % 0x100], 0, e)
  }

  function PortFromBe(be: U16, e: Endian): (port: U16) {
    var b := Store16(be, e);
    Word(b[0], b[1])
  }

  lemma LoadStore16(a: U8, b: U8, e: Endian)
    ensures Store16(Load16([a, b], 0, e), e) == [a, b]
  {
  }

  lemma PortFromTo(be: U16, e: Endian)
    ensures PortToBe(PortFromBe(be, e), e) == be
  {
    var b := Store16(be, e);
    assert PortFromBe(be, e) / 0x100 == b[0] && PortFromBe(be, e) % 0x100 == b[1];
    assert [b[0], b[1]] == b;
    StoreLoad16(be, e);
  }

  /** The two conversions undo each other, both ways. */
  lemma PortRoundTrip(be: U16, port: U16, e: Endian)
    ensures PortToBe(PortFromBe(be, e), e) == be
    ensures PortFromBe(PortToBe(port, e), e) == port
  {
    PortFromTo(be, e);
    var hi: U8, lo: U8 := port / 0x100, port % 0x100;
    LoadStore16(hi, lo, e);
    assert PortFromBe(PortToBe(port, e), e) == Word(hi, lo);
  }

  // ---- VIPs

  ghost function VipFrom(addr: Result<U32>, port: Result<U16>, proto: string, e: Endian): (r: Result<VipSpec>) {
    if addr.Err? then Err(addr.message)
    else if port.Err? then Err(port.message)
    else if proto == "tcp" then Ok(VipSpec(addr.value, PortToBe(port.value, e), TCP))
    else if proto == "udp" then Ok(VipSpec(addr.value, PortToBe(port.value, e), UDP))
    else Err("bad proto in VIP (tcp|udp)")
  }

  datatype Parts = Parts(addr: string, port: string, proto: string)

  /** The text cut at its last colon and its last slash, which are never in the same place. */
  function Split(s: string): (p: Option<Parts>) {
    LastIndexInside(s, ':');
    LastIndexInside(s, '/');
    var colon, slash := LastIndex(s, ':'), LastIndex(s, '/');
    if colon.None? || slash.None? || slash.value <= colon.value then None
    else Some(Parts(s[..colon.value], s[colon.value + 1..slash.value], s[slash.value + 1..]))
  }

  /** VipSpec::parse. */
  ghost function Vip(s: string, e: Endian): (r: Result<VipSpec>) {
    var p := Split(s);
    if p.None? then Err("bad VIP, want ADDR:PORT/PROTO")
    else VipFrom(Ipv4(p.value.addr, e), Port(p.value.port), p.value.proto, e)
  }

  method ParseVip(s: string, e: Endian) returns (r: Result<VipSpec>)
    ensures r == Vip(s, e)
  {
    var p := Split(s);
    if p.None? {
      return Err("bad VIP, want ADDR:PORT/PROTO");
    }
    var addr := ParseIpv4(p.value.addr, e);
    if addr.Err? {
      return Err(addr.message);
    }
    var port := ParsePort(p.value.port);
    if port.Err? {
      return Err(port.message);
    }
    if p.value.proto == "tcp" {
      return Ok(VipSpec(addr.value, PortToBe(port.value, e), TCP));
    }
    if p.value.proto == "udp" {
      return Ok(VipSpec(addr.value, PortToBe(port.value, e), UDP));
    }
    return Err("bad proto in VIP (tcp|udp)");
  }

  function ProtoName(proto: U8): (s: string) {
    if proto == TCP then "tcp" else if proto == UDP then "udp" else "?"
  }

  /** VipSpec::str. */
  function VipToString(v: VipSpec, e: Endian): (s: string) {
    Ipv4ToString(v.addr, e) + ([':'] + (Decimal(PortFromBe(v.port, e)) + (['/'] + ProtoName(v.proto))))
  }

  lemma PortPrinted(port: U16)
    requires port >= 1
    ensures Port(Decimal(port)) == Ok(port) && DigitsIn(Decimal(port), 0, |Decimal(port)|)
  {
    DecimalValue(port);
    assert Pow10(5) == 100000 by { assert Pow10(3) == 1000; }
    DecimalLength(port, 5, 100000);
  }

  /** Where the marks are, and the three pieces between them. */
  lemma Glue(a: string, p: string, proto: string)
    requires DigitsIn(p, 0, |p|) && Lacks(proto, 0, ':') && Lacks(proto, 0, '/')
    ensures Split(a + ([':'] + (p + (['/'] + proto)))) == Some(Parts(a, p, proto))
  {
    var t := p + (['/'] + proto);
    var s, x := a + ([':'] + t), |a|;
    var y := x + 1 + |p|;
    Glued(a, ':', t);
    TailLaidOut(s, x + 1, y, p, '/', proto);
    SpelledSlice(s, a, 0, x);
    SpelledSlice(s, p, x + 1, y);
    SpelledSlice(s, proto, y + 1, |s|);
    LastMarks(s, x, y, p, proto);
    assert s[..x] == s[0..x] && s[y + 1..] == s[y + 1..|s|];
  }

  lemma LastMarks(s: string, x: nat, y: nat, p: string, proto: string)
    requires x < y < |s| && s[x] == ':' && s[y] == '/' && y == x + 1 + |p| && |s| == y + 1 + |proto|
    requires Spells(s, x + 1, p) && Spells(s, y + 1, proto) && DigitsIn(p, 0, |p|) && Lacks(proto, 0, ':')
             && Lacks(proto, 0, '/')
    ensures LastIndex(s, ':') == Some(x) && LastIndex(s, '/') == Some(y)
  {
    DigitsLack(p, ':');
    forall j | x < j < |s|
      ensures s[j] != ':' && (j > y ==> s[j] != '/')
    {
      if j < y {
        SpelledLacks(s, x + 1, p, ':', j);
      } else if j > y {
        SpelledLacks(s, y + 1, proto, ':', j);
        SpelledLacks(s, y + 1, proto, '/', j);
      }
    }
    LastIndexIs(s, ':', x);
    LastIndexIs(s, '/', y);
  }

  lemma ProtoKnown(v: VipSpec, port: U16, e: Endian)
    requires v.proto in {TCP, UDP} && PortToBe(port, e) == v.port
    ensures VipFrom(Ok(v.addr), Ok(port), ProtoName(v.proto), e) == Ok(v)
  {
  }

  /** Parsing what was printed gives the VIP back, for every port 1..65535 and both protocols. */
  lemma VipRoundTrip(v: VipSpec, e: Endian)
    requires v.proto in {TCP, UDP} && PortFromBe(v.port, e) >= 1
    ensures Vip(VipToString(v, e), e) == Ok(v)
  {
    var port := PortFromBe(v.port, e);
    PortPrinted(port);
    PortFromTo(v.port, e);
    Ipv4RoundTrip(v.addr, e);
    Glue(Ipv4ToString(v.addr, e), Decimal(port), ProtoName(v.proto));
    ProtoKnown(v, port, e);
  }

  // ---- prefixes

  datatype Cidr = Cidr(prefix: U32, mask: U32, len: nat)

  /** The network-order mask of a prefix length, as it sits in memory. */
  function MaskOf(len: nat, e: Endian): (mask: U32)
    requires len <= 32
  {
    PowBounds(32 - len);
    Load32(Store32(if len == 0 then 0 else 0x1_0000_0000 - Pow2(32 - len), Big), 0, e)
  }

  lemma {:induction false} PowBounds(n: nat)
    requires n <= 32
    ensures 1 <= Pow2(n) <= 0x1_0000_0000
  {
    Pow32();
    PowMonotone(n, 32);
  }

  lemma {:induction false} PowMonotone(n: nat, k: nat)
    requires n <= k
    ensures 1 <= Pow2(n) <= Pow2(k)
    decreases k
  {
    if n < k {
      PowMonotone(n, k - 1);
    } else if n > 0 {
      PowMonotone(n - 1, n - 1);
    }
  }

  lemma {:induction false} AndBound(x: nat, y: nat, n: nat)
    ensures And(x, y, n) < Pow2(n)
  {
    if n > 0 {
      AndBound(x / 2, y / 2, n - 1);
    }
  }

  function Masked(addr: U32, mask: U32): (a: U32) {
    Pow32();
    AndBound(addr, mask, 32);
    And(addr, mask, 32)
  }

  /** The number a text of digits spells, 0 for any other text. */
  function Number(s: string): (n: nat) {
    if DigitsIn(s, 0, |s|) then ValueIn(s, 0, |s|) else 0
  }

  /** parse_cidr. */
  ghost function CidrOf(s: string, e: Endian): (r: Result<Cidr>) {
    var slash := FirstIndex(s, '/', 0);
    if slash.None? then Err("bad CIDR, want ADDR/LEN") else
      var lenText := s[slash.value + 1..];
      if !(1 <= |lenText| <= 2 && DigitsIn(lenText, 0, |lenText|))
        || Number(lenText) > 32 then Err("bad CIDR prefix length") else
        var addr := Ipv4(s[..slash.value], e);
        if addr.Err? then Err(addr.message) else
          var mask := MaskOf(Number(lenText), e);
          Ok(Cidr(Masked(addr.value, mask), mask, Number(lenText)))
  }

  /** Cidr::str. */
  function CidrToString(c: Cidr, e: Endian): (s: string) {
    Ipv4ToString(c.prefix, e) + (['/'] + Decimal(c.len))
  }

  /** What parse_cidr produces: the mask of the length, and no bits outside it. */
  ghost predicate IsCidr(c: Cidr, e: Endian) {
    c.len <= 32 && c.mask == MaskOf(c.len, e) && Masked(c.prefix, c.mask) == c.prefix
  }

  lemma {:induction false} AndTwice(x: nat, y: nat, n: nat)
    ensures And(And(x, y, n), y, n) == And(x, y, n)
  {
    if n > 0 {
      AndTwice(x / 2, y / 2, n - 1);
      assert And(x, y, n) / 2 == And(x / 2, y / 2, n - 1);
    }
  }

  lemma ParsedIsCidr(s: string, e: Endian)
    ensures CidrOf(s, e).Ok? ==> IsCidr(CidrOf(s, e).value, e)
  {
    if CidrOf(s, e).Ok? {
      var slash := FirstIndex(s, '/', 0).value;
      AndTwice(Ipv4(s[..slash], e).value, MaskOf(Number(s[slash + 1..]), e), 32);
    }
  }

  lemma NoSlash(a: U32, e: Endian)
    ensures Lacks(Ipv4ToString(a, e), 0, '/')
  {
    var b := Store32(a, e);
    var d0, d1, d2, d3 := Decimal(b[0]), Decimal(b[1]), Decimal(b[2]), Decimal(b[3]);
    DecimalLacksSlash(b[0]);
    DecimalLacksSlash(b[1]);
    DecimalLacksSlash(b[2]);
    DecimalLacksSlash(b[3]);
    DottedLacks(d2, d3);
    DottedLacks(d1, d2 + (['.'] + d3));
    DottedLacks(d0, d1 + (['.'] + (d2 + (['.'] + d3))));
  }

  lemma DecimalLacksSlash(b: U8)
    ensures Lacks(Decimal(b), 0, '/')
  {
    DecimalValue(b);
    DigitsLack(Decimal(b), '/');
  }

  lemma DottedLacks(x: string, y: string)
    requires Lacks(x, 0, '/') && Lacks(y, 0, '/')
    ensures Lacks(x + (['.'] + y), 0, '/')
  {
    var s := x + (['.'] + y);
    Glued(x, '.', y);
    forall i | 0 <= i < |s|
      ensures s[i] != '/'
    {
      if i < |x| {
        SpelledLacks(s, 0, x, '/', i);
      } else if i > |x| {
        SpelledLacks(s, |x| + 1, y, '/', i);
      }
    }
  }

  lemma CidrPieces(a: string, p: string)
    requires Lacks(a, 0, '/')
    ensures var s := a + (['/'] + p);
            FirstIndex(s, '/', 0) == Some(|a|) && s[..|a|] == a && s[|a| + 1..] == p
  {
    var s := a + (['/'] + p);
    Glued(a, '/', p);
    SpelledSlice(s, a, 0, |a|);
    SpelledSlice(s, p, |a| + 1, |s|);
    forall j | 0 <= j < |a|
      ensures s[j] != '/'
    {
      SpelledLacks(s, 0, a, '/', j);
    }
    FirstIndexIs(s, '/', 0, |a|);
  }

  lemma LengthPrinted(n: nat)
    requires n <= 32
    ensures 1 <= |Decimal(n)| <= 2 && DigitsIn(Decimal(n), 0, |Decimal(n)|) && Number(Decimal(n)) == n
  {
    DecimalValue(n);
    assert Pow10(2) == 100;
    DecimalLength(n, 2, 100);
  }

  lemma CidrParts(s: string, e: Endian, slash: nat, text: string, c: Cidr)
    requires FirstIndex(s, '/', 0) == Some(slash) && s[slash + 1..] == text && Ipv4(s[..slash], e) == Ok(c.prefix)
    requires 1 <= |text| <= 2 && DigitsIn(text, 0, |text|) && Number(text) == c.len && IsCidr(c, e)
    ensures CidrOf(s, e) == Ok(c)
  {
  }

  /** Parsing what was printed gives the prefix back, for every masked prefix of length 0..32. */
  lemma CidrRoundTrip(c: Cidr, e: Endian)
    requires IsCidr(c, e)
    ensures CidrOf(CidrToString(c, e), e) == Ok(c)
  {
    var a, p := Ipv4ToString(c.prefix, e), Decimal(c.len);
    NoSlash(c.prefix, e);
    CidrPieces(a, p);
    LengthPrinted(c.len);
    Ipv4RoundTrip(c.prefix, e);
    CidrParts(CidrToString(c, e), e, |a|, p, c);
  }

  method ParseCidr(s: string, e: Endian) returns (r: Result<Cidr>)
    ensures r == CidrOf(s, e)
  {
    var slash := FirstIndex(s, '/', 0);
    if slash.None? {
      return Err("bad CIDR, want ADDR/LEN");
    }
    var text := s[slash.value + 1..];
    if |text| == 0 || |text| > 2 || !DigitsIn(text, 0, |text|) || Number(text) > 32 {
      return Err("bad CIDR prefix length");
    }
    var addr := ParseIpv4(s[..slash.value], e);
    if addr.Err? {
      return Err(addr.message);
    }
    var mask := MaskOf(Number(text), e);
    return Ok(Cidr(Masked(addr.value, mask), mask, Number(text)));
  }
}
