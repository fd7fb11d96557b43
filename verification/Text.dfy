/** Bytes and big-endian numbers. */
module Bytes {
  type byte = x: int | 0 <= x < 256
  type uint16 = x: int | 0 <= x < 0x1_0000
  type uint32 = x: int | 0 <= x < 0x1_0000_0000
  type uint64 = x: int | 0 <= x < 0x1_0000_0000_0000_0000

  function U16(v: uint16): (r: seq<byte>)
    ensures |r| == 2
  {
    [v / 256, v % 256]
  }

  function FromU16(b: seq<byte>): (v: uint16)
    requires |b| == 2
  {
    (b[0] as int) * 256 + b[1]
  }

  function U32(v: uint32): (r: seq<byte>)
    ensures |r| == 4
  {
    U16(v / 0x1_0000) + U16(v % 0x1_0000)
  }

  function FromU32(b: seq<byte>): (v: uint32)
    requires |b| == 4
  {
    FromU16(b[..2]) * 0x1_0000 + FromU16(b[2..])
  }

  function U64(v: uint64): (r: seq<byte>)
    ensures |r| == 8
  {
    U32(v / 0x1_0000_0000) + U32(v % 0x1_0000_0000)
  }

  function FromU64(b: seq<byte>): (v: uint64)
    requires |b| == 8
  {
    FromU32(b[..4]) * 0x1_0000_0000 + FromU32(b[4..])
  }

  lemma U16RoundTrip(v: uint16)
    ensures FromU16(U16(v)) == v
  {
  }

  lemma FromU16RoundTrip(b: seq<byte>)
    requires |b| == 2
    ensures U16(FromU16(b)) == b
  {
    assert FromU16(b) / 256 == b[0];
  }

  lemma U32RoundTrip(v: uint32)
    ensures FromU32(U32(v)) == v
  {
    var hi, lo := v / 0x1_0000, v % 0x1_0000;
    assert U32(v)[..2] == U16(hi) && U32(v)[2..] == U16(lo);
    U16RoundTrip(hi);
    U16RoundTrip(lo);
  }

  lemma FromU32RoundTrip(b: seq<byte>)
    requires |b| == 4
    ensures U32(FromU32(b)) == b
  {
    FromU16RoundTrip(b[..2]);
    FromU16RoundTrip(b[2..]);
    assert FromU32(b) / 0x1_0000 == FromU16(b[..2]);
    assert b == b[..2] + b[2..];
  }

  lemma U64RoundTrip(v: uint64)
    ensures FromU64(U64(v)) == v
  {
    var hi, lo := v / 0x1_0000_0000, v % 0x1_0000_0000;
    assert U64(v)[..4] == U32(hi) && U64(v)[4..] == U32(lo);
    U32RoundTrip(hi);
    U32RoundTrip(lo);
  }

  lemma FromU64RoundTrip(b: seq<byte>)
    requires |b| == 8
    ensures U64(FromU64(b)) == b
  {
    FromU32RoundTrip(b[..4]);
    FromU32RoundTrip(b[4..]);
    assert FromU64(b) / 0x1_0000_0000 == FromU32(b[..4]);
    assert b == b[..4] + b[4..];
  }
}

/** Strings joined by NUL bytes, as every map key of the library is built. */
module Text {
  import opened Bytes

  const NUL: string := "\0"

  ghost predicate NoNul(s: string) {
    '\0' !in s
  }

  function HexDigit(d: int): (c: char)
    requires 0 <= d < 16
  {
    "0123456789abcdef"[d]
  }

  lemma HexDigitInjective(d: int, e: int)
    requires 0 <= d < 16 && 0 <= e < 16 && HexDigit(d) == HexDigit(e)
    ensures d == e
  {
    var digits := "0123456789abcdef";
    assert forall i, j :: 0 <= i < j < 16 ==> digits[i] != digits[j];
  }

  /** Lower-case hexadecimal, two digits a byte. */
  function Hex(b: seq<byte>): (s: string)
    ensures |s| == 2 * |b|
    ensures NoNul(s)
  {
    if b == [] then "" else [HexDigit(b[0] / 16), HexDigit(b[0] % 16)] + Hex(b[1..])
  }

  lemma {:induction false} HexInjective(a: seq<byte>, b: seq<byte>)
    requires Hex(a) == Hex(b)
    ensures a == b
  {
    if a != [] {
      assert Hex(a)[0] == HexDigit(a[0] / 16) && Hex(a)[1] == HexDigit(a[0] % 16);
      assert Hex(b)[0] == HexDigit(b[0] / 16) && Hex(b)[1] == HexDigit(b[0] % 16);
      HexDigitInjective(a[0] / 16, b[0] / 16);
      HexDigitInjective(a[0] % 16, b[0] % 16);
      assert Hex(a)[2..] == Hex(a[1..]) && Hex(b)[2..] == Hex(b[1..]);
      HexInjective(a[1..], b[1..]);
    }
  }

  function DecimalNat(n: nat): (s: string)
    ensures |s| >= 1 && NoNul(s) && s[0] != '-'
    ensures |s| == 1 <==> n < 10
  {
    if n < 10 then [HexDigit(n)] else DecimalNat(n / 10) + [HexDigit(n % 10)]
  }

  /** Decimal notation, as the `%d` verb prints it. */
  function Decimal(n: int): (s: string)
    ensures NoNul(s)
  {
    if n < 0 then "-" + DecimalNat(-n) else DecimalNat(n)
  }

  lemma {:induction false} DecimalNatInjective(m: nat, n: nat)
    requires DecimalNat(m) == DecimalNat(n)
    ensures m == n
  {
    var s := DecimalNat(m);
    var k := |s| - 1;
    assert s[k] == HexDigit(m % 10) == HexDigit(n % 10);
    HexDigitInjective(m % 10, n % 10);
    if m >= 10 {
      assert s[..k] == DecimalNat(m / 10) == DecimalNat(n / 10);
      DecimalNatInjective(m / 10, n / 10);
    }
  }

  lemma DecimalInjective(m: int, n: int)
    requires Decimal(m) == Decimal(n)
    ensures m == n
  {
    if m < 0 && n < 0 {
      assert Decimal(m)[1..] == DecimalNat(-m) && Decimal(n)[1..] == DecimalNat(-n);
      DecimalNatInjective(-m, -n);
    } else if m >= 0 && n >= 0 {
      DecimalNatInjective(m, n);
    }
  }

  /** The part before the first NUL, or all of `s`; `strings.Cut` on NUL. */
  function BeforeNul(s: string): (r: string) {
    if s == "" || s[0] == '\0' then "" else [s[0]] + BeforeNul(s[1..])
  }

  lemma {:induction false} BeforeNulJoin(a: string, rest: string)
    requires NoNul(a)
    ensures BeforeNul(a + NUL + rest) == a
  {
    var s := a + NUL + rest;
    if a != "" {
      assert s[1..] == a[1..] + NUL + rest;
      BeforeNulJoin(a[1..], rest);
    }
  }

  /** A NUL-free first part makes a joined key readable from the left. */
  lemma SplitFirst(a: string, rest: string, a': string, rest': string)
    requires NoNul(a) && NoNul(a')
    requires a + NUL + rest == a' + NUL + rest'
    ensures a == a' && rest == rest'
  {
    BeforeNulJoin(a, rest);
    BeforeNulJoin(a', rest');
    assert (a + NUL + rest)[|a| + 1..] == rest;
    assert (a' + NUL + rest')[|a'| + 1..] == rest';
  }

  /** A NUL-free last part makes it readable from the right, whatever the first
      part contains. */
  lemma SplitLast(a: string, last: string, a': string, last': string)
    requires NoNul(last) && NoNul(last')
    requires a + NUL + last == a' + NUL + last'
    ensures a == a' && last == last'
  {
    var s := a + NUL + last;
    assert s[|a|] == '\0' && s[|a'|] == '\0';
    assert s[..|a|] == a && s[..|a'|] == a';
    assert s[|a| + 1..] == last && s[|a'| + 1..] == last';
  }
}
