/** Decimal numbers and dotted addresses: printed, parsed, and back. */
module Text {
  import opened Basics
  import opened Packet

  // ---- decimal numbers

  predicate IsDigit(c: char) {
    '0' <= c <= '9'
  }

  function Digit(c: char): (d: nat)
    requires IsDigit(c)
    ensures d < 10
  {
    c as int - '0' as int
  }

  function DigitChar(d: nat): (c: char)
    requires d < 10
    ensures IsDigit(c) && Digit(c) == d
  {
    ('0' as int + d) as char
  }

  predicate DigitsIn(s: string, from: nat, till: nat) {
    from <= till <= |s| && forall i :: from <= i < till ==> IsDigit(s[i])
  }

  /** The number spelled by s[from..to]. */
  function ValueIn(s: string, from: nat, till: nat): (n: nat)
    requires DigitsIn(s, from, till)
    decreases till
  {
    if from == till then 0 else ValueIn(s, from, till - 1) * 10 + Digit(s[till - 1])
  }

  /** std::to_string. */
  function Decimal(n: nat): (s: string)
    ensures s != ""
  {
    if n < 10 then [DigitChar(n)] else Decimal(n / 10) + [DigitChar(n % 10)]
  }

  /** t stands in s from position k on. */
  ghost predicate Spells(s: string, k: nat, t: string) {
    k + |t| <= |s| && forall i: nat :: SpellsAt(s, k, t, i)
  }

  ghost predicate SpellsAt(s: string, k: nat, t: string, i: nat) {
    i < |t| && k + i < |s| ==> s[k + i] == t[i]
  }

  lemma {:induction false} SameValue(s: string, k: nat, t: string, from: nat, till: nat)
    requires Spells(s, k, t) && DigitsIn(t, from, till)
    ensures DigitsIn(s, k + from, k + till) && ValueIn(s, k + from, k + till) == ValueIn(t, from, till)
    decreases till
  {
    forall i | k + from <= i < k + till
      ensures IsDigit(s[i])
    {
      assert SpellsAt(s, k, t, i - k);
    }
    if from < till {
      SameValue(s, k, t, from, till - 1);
      assert SpellsAt(s, k, t, till - 1);
    }
  }

  lemma {:induction false} DecimalValue(n: nat)
    ensures DigitsIn(Decimal(n), 0, |Decimal(n)|) && ValueIn(Decimal(n), 0, |Decimal(n)|) == n
  {
    var s := Decimal(n);
    if n >= 10 {
      var t := Decimal(n / 10);
      DecimalValue(n / 10);
      assert forall i: nat :: SpellsAt(s, 0, t, i);
      SameValue(s, 0, t, 0, |t|);
      assert s[|t|] == DigitChar(n % 10);
      assert ValueIn(s, 0, |t|) == n / 10;
    } else {
      assert ValueIn(s, 0, 0) == 0;
    }
  }

  function Pow10(k: nat): (p: nat) {
    if k == 0 then 1 else 10 * Pow10(k - 1)
  }

  /** No more digits than needed. */
  lemma {:induction false} DecimalLength(n: nat, k: nat, limit: nat)
    requires n < limit && limit == Pow10(k) && k > 0
    ensures |Decimal(n)| <= k
  {
    if n >= 10 {
      DecimalLength(n / 10, k - 1, limit / 10);
    }
  }

  /** A longer number is no smaller. */
  lemma {:induction false} ValueGrows(s: string, from: nat, mid: nat, till: nat)
    requires DigitsIn(s, from, till) && from <= mid <= till
    ensures DigitsIn(s, from, mid) && ValueIn(s, from, mid) <= ValueIn(s, from, till)
    decreases till
  {
    if mid < till {
      ValueGrows(s, from, mid, till - 1);
    }
  }

  // ---- one octet

  /** Where the run of digits from `pos` on ends. */
  function RunEnd(s: string, pos: nat): (end: nat)
    requires pos <= |s|
    ensures pos <= end <= |s|
    decreases |s| - pos
  {
    if pos < |s| && IsDigit(s[pos]) then RunEnd(s, pos + 1) else pos
  }

  lemma {:induction false} RunIsDigits(s: string, pos: nat)
    requires pos <= |s|
    ensures DigitsIn(s, pos, RunEnd(s, pos)) && (RunEnd(s, pos) < |s| ==> !IsDigit(s[RunEnd(s, pos)]))
    decreases |s| - pos
  {
    if pos < |s| && IsDigit(s[pos]) {
      RunIsDigits(s, pos + 1);
    }
  }

  /** A run of digits followed by something else is found whole. */
  lemma {:induction false} RunIs(s: string, pos: nat, end: nat)
    requires DigitsIn(s, pos, end) && (end < |s| ==> !IsDigit(s[end]))
    ensures RunEnd(s, pos) == end
    decreases end - pos
  {
    if pos < end {
      RunIs(s, pos + 1, end);
    }
  }

  /** The octet spelled by s[from..till]: one to three digits, at most 255. */
  ghost function OctetIn(s: string, from: nat, till: nat): (v: Option<U8>) {
    if DigitsIn(s, from, till) && 1 <= till - from <= 3
      && ValueIn(s, from, till) <= 255 then Some(ValueIn(s, from, till)) else None
  }

  datatype Cut = Cut(value: U8, rest: nat)

  ghost function Octet(s: string, pos: nat): (r: Option<Cut>)
    requires pos <= |s|
    ensures r.Some? ==> r.value.rest <= |s|
  {
    var end := RunEnd(s, pos);
    var v := OctetIn(s, pos, end);
    if v.Some? then Some(Cut(v.value, end)) else None
  }

  /** The run so far is too long or too large, so the whole run is no octet. */
  lemma Hopeless(s: string, start: nat, pos: nat)
    requires DigitsIn(s, start, pos + 1) && start <= pos && RunEnd(s, start) >= pos + 1
    requires pos - start >= 3 || ValueIn(s, start, pos + 1) > 255
    ensures Octet(s, start).None?
  {
    RunIsDigits(s, start);
    ValueGrows(s, start, pos + 1, RunEnd(s, start));
  }

  method ParseOctet(s: string, start: nat) returns (r: Option<Cut>)
    requires start <= |s|
    ensures r == Octet(s, start)
  {
    if start >= |s| || !IsDigit(s[start]) {
      return None;
    }
    var v, pos := 0, start;
    while pos < |s| && IsDigit(s[pos])
      invariant start <= pos <= |s| && pos - start <= 3 && RunEnd(s, start) == RunEnd(s, pos)
      invariant DigitsIn(s, start, pos) && v == ValueIn(s, start, pos) <= 255
    {
      assert DigitsIn(s, start, pos + 1) && ValueIn(s, start, pos + 1) == v * 10 + Digit(s[pos]);
      v := v * 10 + Digit(s[pos]);
      if v > 255 || pos - start >= 3 {
        Hopeless(s, start, pos);
      return None;
      }
      pos := pos + 1;
    }
    return Some(Cut(v, pos));
  }

  // ---- dotted quads

  /** The octets from `pos` on, the first being number i. */
  ghost function Octets(s: string, pos: nat, i: nat): (r: Option<seq<U8>>)
    requires pos <= |s| && i <= 4
    ensures r.Some? ==> |r.value| == 4 - i
    decreases 4 - i
  {
    if i == 4 then (if pos == |s| then Some([]) else None) else
      var o := Octet(s, pos);
      if o.None? then None else
        var end := o.value.rest;
        if i < 3 && (end >= |s| || s[end] != '.') then None else
          var more := Octets(s, if i < 3 then end + 1 else end, i + 1);
          if more.None? then None else Some([o.value.value] + more.value)
  }

  /** What parse_ipv4 returns, as it sits in memory. */
  ghost function Ipv4(s: string, e: Endian): (r: Result<U32>) {
    var o := Octets(s, 0, 0);
    if o.Some? then Ok(Load32(o.value, 0, e)) else Err("bad IPv4 address")
  }

  ghost function After(before: seq<U8>, o: Option<seq<U8>>): (r: Option<seq<U8>>) {
    if o.Some? then Some(before + o.value) else None
  }

  lemma NothingBefore(o: Option<seq<U8>>)
    ensures After([], o) == o
  {
    if o.Some? {
      assert [] + o.value == o.value;
    }
  }

  /** Octet i moves from what is to come to what has been read. */
  lemma OneBefore(before: seq<U8>, s: string, pos: nat, i: nat)
    requires pos <= |s| && i < 4
    ensures var o := Octet(s, pos);
            After(before, Octets(s, pos, i))
            == if o.None? || (i < 3 && (o.value.rest >= |s| || s[o.value.rest] != '.')) then None
               else After(before + [o.value.value], Octets(s, if i < 3 then o.value.rest + 1 else o.value.rest, i + 1))
  {
    var o := Octet(s, pos);
    if o.Some? && (i < 3 ==> o.value.rest < |s| && s[o.value.rest] == '.') {
      var more := Octets(s, if i < 3 then o.value.rest + 1 else o.value.rest, i + 1);
      if more.Some? {
        assert before + ([o.value.value] + more.value) == before + [o.value.value] + more.value;
      }
    }
  }

  method ParseIpv4(s: string, e: Endian) returns (r: Result<U32>)
    ensures r == Ipv4(s, e)
  {
    var be: seq<U8> := [];
    var pos: nat := 0;
    NothingBefore(Octets(s, 0, 0));
    for i := 0 to 4
      invariant |be| == i && pos <= |s| && Octets(s, 0, 0) == After(be, Octets(s, pos, i))
    {
      OneBefore(be, s, pos, i);
      var o := ParseOctet(s, pos);
      if o.None? {
        return Err("bad IPv4 address");
      }
      pos := o.value.rest;
      if i < 3 {
        if pos >= |s| || s[pos] != '.' {
          return Err("bad IPv4 address");
        }
        pos := pos + 1;
      }
      be := be + [o.value.value];
    }
    if pos != |s| {
      return Err("bad IPv4 address");
    }
    return Ok(Load32(be, 0, e));
  }

  // ---- what is accepted

  /** Dots at x, y and z, and an octet in each of the four places. */
  ghost predicate Dotted(s: string, x: nat, y: nat, z: nat) {
    && OctetIn(s, 0, x).Some? && x < |s| && s[x] == '.' && OctetIn(s, x + 1, y).Some? && y < |s| && s[y] == '.'
    && OctetIn(s, y + 1, z).Some? && z < |s| && s[z] == '.' && OctetIn(s, z + 1, |s|).Some?
  }

  ghost function Values(s: string, x: nat, y: nat, z: nat): (v: seq<U8>)
    requires Dotted(s, x, y, z)
  {
    [OctetIn(s, 0, x).value] + ([OctetIn(s, x + 1, y).value]
      + ([OctetIn(s, y + 1, z).value] + ([OctetIn(s, z + 1, |s|).value] + [])))
  }

  lemma OctetIs(s: string, pos: nat, end: nat)
    requires OctetIn(s, pos, end).Some? && (end < |s| ==> s[end] == '.')
    ensures pos <= end <= |s| && Octet(s, pos) == Some(Cut(OctetIn(s, pos, end).value, end))
  {
    RunIs(s, pos, end);
  }

  lemma OctetFirst(s: string, pos: nat, i: nat, end: nat, next: nat, k: nat, more: seq<U8>)
    requires i < 4 && k == i + 1 && OctetIn(s, pos, end).Some? && (i < 3 ==> end < |s| && s[end] == '.')
             && (i == 3 ==> end == |s|)
    requires next == (if i < 3 then end + 1 else end) && Octets(s, next, k) == Some(more)
    ensures pos <= |s| && Octets(s, pos, i) == Some([OctetIn(s, pos, end).value] + more)
  {
    OctetIs(s, pos, end);
  }

  lemma Accepted(s: string, x: nat, y: nat, z: nat)
    requires Dotted(s, x, y, z)
    ensures Octets(s, 0, 0) == Some(Values(s, x, y, z))
  {
    var v3 := [OctetIn(s, z + 1, |s|).value] + [];
    var v2 := [OctetIn(s, y + 1, z).value] + v3;
    var v1 := [OctetIn(s, x + 1, y).value] + v2;
    OctetFirst(s, z + 1, 3, |s|, |s|, 4, []);
    OctetFirst(s, y + 1, 2, z, z + 1, 3, v3);
    OctetFirst(s, x + 1, 1, y, y + 1, 2, v2);
    OctetFirst(s, 0, 0, x, x + 1, 1, v1);
  }

  lemma OnlyAccepted(s: string) returns (x: nat, y: nat, z: nat)
    requires Octets(s, 0, 0).Some?
    ensures Dotted(s, x, y, z)
  {
    x := Octet(s, 0).value.rest;
    assert Octets(s, x + 1, 1).Some?;
    y := Octet(s, x + 1).value.rest;
    assert Octets(s, y + 1, 2).Some?;
    z := Octet(s, y + 1).value.rest;
    assert Octets(s, z + 1, 3).Some?;
    assert Octets(s, Octet(s, z + 1).value.rest, 4).Some?;
  }

  /** parse_ipv4 accepts exactly four dot-separated groups of one to three digits, each at most 255. */
  lemma Ipv4Accepts(s: string, e: Endian)
    ensures Ipv4(s, e).Ok? <==> exists x, y, z :: Dotted(s, x, y, z)
  {
    if Ipv4(s, e).Ok? {
      var x, y, z := OnlyAccepted(s);
    }
    if x, y, z :| Dotted(s, x, y, z) {
      Accepted(s, x, y, z);
    }
  }

  // ---- printing

  /** ipv4_to_string. */
  function Ipv4ToString(a: U32, e: Endian): (s: string) {
    var b := Store32(a, e);
    Decimal(b[0]) + (['.'] + (Decimal(b[1]) + (['.'] + (Decimal(b[2]) + (['.'] + Decimal(b[3]))))))
  }

  lemma DecimalIsOctet(b: U8)
    ensures OctetIn(Decimal(b), 0, |Decimal(b)|) == Some(b)
  {
    DecimalValue(b);
    assert Pow10(3) == 1000;
    DecimalLength(b, 3, 1000);
  }

  /** A piece, a mark and a rest, each where it should be. */
  lemma Glued(a: string, c: char, t: string)
    ensures var s := a + ([c] + t);
            |s| == |a| + 1 + |t| && Spells(s, 0, a) && s[|a|] == c && Spells(s, |a| + 1, t)
  {
    var u := [c] + t;
    var s := a + u;
    forall i: nat
      ensures SpellsAt(s, 0, a, i) && SpellsAt(s, |a| + 1, t, i)
    {
      if i < |t| {
        assert s[|a| + 1 + i] == u[1 + i];
      }
    }
  }

  lemma SpelledSlice(s: string, t: string, p: nat, q: nat)
    requires Spells(s, p, t) && q == p + |t|
    ensures s[p..q] == t
  {
    forall i: nat | i < |t|
      ensures s[p..q][i] == t[i]
    {
      assert SpellsAt(s, p, t, i);
    }
  }

  /** An octet's text standing in s from p to q is that octet there. */
  lemma SpelledOctet(s: string, t: string, p: nat, q: nat, v: U8)
    requires Spells(s, p, t) && q == p + |t| && OctetIn(t, 0, |t|) == Some(v)
    ensures OctetIn(s, p, q) == Some(v)
  {
    SameValue(s, p, t, 0, |t|);
    assert p + 0 == p && p + |t| == q;
  }

  lemma SpelledThrough(s: string, k: nat, t: string, j: nat, u: string)
    requires Spells(s, k, t) && Spells(t, j, u)
    ensures Spells(s, k + j, u)
  {
    var m := k + j;
    forall i: nat
      ensures SpellsAt(s, m, u, i)
    {
      assert SpellsAt(t, j, u, i) && SpellsAt(s, k, t, j + i);
    }
  }

  /** Four texts with dots at x, y and z between them. */
  ghost predicate LaidOut(s: string, x: nat, y: nat, z: nat, d0: string, d1: string, d2: string, d3: string) {
    && x == |d0| && y == x + 1 + |d1| && z == y + 1 + |d2| && |s| == z + 1 + |d3|
    && Spells(s, 0, d0) && s[x] == '.' && Spells(s, x + 1, d1) && s[y] == '.' && Spells(s, y + 1, d2) && s[z] == '.'
    && Spells(s, z + 1, d3)
  }

  lemma TailLaidOut(s: string, p: nat, q: nat, d: string, c: char, t: string)
    requires Spells(s, p, d + ([c] + t)) && q == p + |d|
    ensures Spells(s, p, d) && q < |s| && s[q] == c && Spells(s, q + 1, t)
  {
    var u := d + ([c] + t);
    Glued(d, c, t);
    SpelledThrough(s, p, u, 0, d);
    SpelledThrough(s, p, u, |d| + 1, t);
    assert p + 0 == p && p + (|d| + 1) == q + 1;
    assert SpellsAt(s, p, u, |d|);
  }

  lemma Layout(d0: string, d1: string, d2: string, d3: string)
    ensures var s, x := d0 + (['.'] + (d1 + (['.'] + (d2 + (['.'] + d3))))), |d0|;
            LaidOut(s, x, x + 1 + |d1|, x + 1 + |d1| + 1 + |d2|, d0, d1, d2, d3)
  {
    var t2 := d2 + (['.'] + d3);
    var t1 := d1 + (['.'] + t2);
    var s := d0 + (['.'] + t1);
    var x := |d0|;
    var y := x + 1 + |d1|;
    var z := y + 1 + |d2|;
    Glued(d0, '.', t1);
    TailLaidOut(s, x + 1, y, d1, '.', t2);
    TailLaidOut(s, y + 1, z, d2, '.', d3);
  }

  /** Four texts that spell octets parse to those octets. */
  lemma LaidOutParses(s: string, x: nat, y: nat, z: nat, d0: string, d1: string, d2: string, d3: string, b: seq<U8>,
                      e: Endian)
    requires LaidOut(s, x, y, z, d0, d1, d2, d3) && |b| == 4
    requires OctetIn(d0, 0, |d0|) == Some(b[0]) && OctetIn(d1, 0, |d1|) == Some(b[1])
    requires OctetIn(d2, 0, |d2|) == Some(b[2]) && OctetIn(d3, 0, |d3|) == Some(b[3])
    ensures Ipv4(s, e) == Ok(Load32(b, 0, e))
  {
    SpelledOctet(s, d0, 0, x, b[0]);
    SpelledOctet(s, d1, x + 1, y, b[1]);
    SpelledOctet(s, d2, y + 1, z, b[2]);
    SpelledOctet(s, d3, z + 1, |s|, b[3]);
    Accepted(s, x, y, z);
    SameBytes(Values(s, x, y, z), b, e);
  }

  lemma SameBytes(v: seq<U8>, b: seq<U8>, e: Endian)
    requires |v| == |b| == 4 && v[0] == b[0] && v[1] == b[1] && v[2] == b[2] && v[3] == b[3]
    ensures Load32(v, 0, e) == Load32(b, 0, e)
  {
  }

  /** Parsing what was printed gives the address back. */
  lemma Ipv4RoundTrip(a: U32, e: Endian)
    ensures Ipv4(Ipv4ToString(a, e), e) == Ok(a)
  {
    var b := Store32(a, e);
    DecimalIsOctet(b[0]);
    DecimalIsOctet(b[1]);
    DecimalIsOctet(b[2]);
    DecimalIsOctet(b[3]);
    var d0, d1, d2, d3 := Decimal(b[0]), Decimal(b[1]), Decimal(b[2]), Decimal(b[3]);
    Layout(d0, d1, d2, d3);
    var x := |d0|;
    LaidOutParses(Ipv4ToString(a, e), x, x + 1 + |d1|, x + 1 + |d1| + 1 + |d2|, d0, d1, d2, d3, b, e);
    StoreLoad32(a, e);
  }

  /** Printing what was parsed is a normal form: it parses to the same address, and only equal addresses share it. */
  lemma Ipv4NormalForm(s: string, t: string, e: Endian)
    requires Ipv4(s, e).Ok? && Ipv4(t, e).Ok?
    ensures Ipv4(Ipv4ToString(Ipv4(s, e).value, e), e) == Ipv4(s, e)
    ensures Ipv4ToString(Ipv4(s, e).value, e) == Ipv4ToString(Ipv4(t, e).value, e) <==> Ipv4(s, e) == Ipv4(t, e)
  {
    Ipv4RoundTrip(Ipv4(s, e).value, e);
    Ipv4RoundTrip(Ipv4(t, e).value, e);
  }
}
