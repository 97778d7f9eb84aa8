/** `new Guid(byte[16]).ToString()`: the "D" format, 32 lower-case hex
    digits in groups of 8, 4, 4, 4 and 12, where the first three groups
    print their bytes little-endian. */
module Guids {
  import opened Randomness

  predicate IsHex(c: char)
  {
    '0' <= c <= '9' || 'a' <= c <= 'f'
  }

  function HexDigit(d: nat): (c: char)
    requires d < 16
    ensures IsHex(c)
  {
    "0123456789abcdef"[d]
  }

  /** The two hex digits of each byte, in order. */
  function Hex(bytes: seq<Byte>): (s: string)
    ensures |s| == 2 * |bytes|
    ensures forall i :: 0 <= i < |s| ==> IsHex(s[i])
  {
    if bytes == [] then []
    else [HexDigit(bytes[0] / 16), HexDigit(bytes[0] % 16)] + Hex(bytes[1..])
  }

  /** The positions of the four hyphens. */
  predicate IsHyphenPosition(i: int)
  {
    i == 8 || i == 13 || i == 18 || i == 23
  }

  /** The shape of every "D"-formatted GUID. */
  predicate IsGuidText(s: string)
  {
    |s| == 36 && forall i :: 0 <= i < 36 ==> if IsHyphenPosition(i) then s[i] == '-' else IsHex(s[i])
  }

  function GuidText(b: seq<Byte>): (s: string)
    requires |b| == 16
    ensures IsGuidText(s)
  {
    var g1, g2, g3 := Hex([b[3], b[2], b[1], b[0]]), Hex([b[5], b[4]]), Hex([b[7], b[6]]);
    var g4, g5 := Hex(b[8..10]), Hex(b[10..]);
    var s := g1 + "-" + g2 + "-" + g3 + "-" + g4 + "-" + g5;
    assert s[..8] == g1 && s[9..13] == g2 && s[14..18] == g3 && s[19..23] == g4 && s[24..] == g5;
    forall i | 0 <= i < 36
      ensures if IsHyphenPosition(i) then s[i] == '-' else IsHex(s[i])
    {
      if i < 8 { assert s[i] == s[..8][i]; }
      else if 8 < i < 13 { assert s[i] == s[9..13][i - 9]; }
      else if 13 < i < 18 { assert s[i] == s[14..18][i - 14]; }
      else if 18 < i < 23 { assert s[i] == s[19..23][i - 19]; }
      else if 23 < i { assert s[i] == s[24..][i - 24]; }
    }
    s
  }

  /** The four groups of hex digits a GUID text is made of. */
  lemma GuidGroups(b: seq<Byte>)
    requires |b| == 16
    ensures var s := GuidText(b);
            s[..8] == Hex([b[3], b[2], b[1], b[0]]) && s[9..13] == Hex([b[5], b[4]])
            && s[14..18] == Hex([b[7], b[6]]) && s[19..23] == Hex(b[8..10]) && s[24..] == Hex(b[10..])
  {
  }

  /** Different bytes give different texts: the string a generated
      property receives determines the sixteen bytes drawn for it. */
  lemma GuidTextInjective(a: seq<Byte>, b: seq<Byte>)
    requires |a| == 16 && |b| == 16
    requires GuidText(a) == GuidText(b)
    ensures a == b
  {
    GuidGroups(a);
    GuidGroups(b);
    HexInjective([a[3], a[2], a[1], a[0]], [b[3], b[2], b[1], b[0]]);
    HexInjective([a[5], a[4]], [b[5], b[4]]);
    HexInjective([a[7], a[6]], [b[7], b[6]]);
    HexInjective(a[8..10], b[8..10]);
    HexInjective(a[10..], b[10..]);
    assert a == [a[0], a[1], a[2], a[3], a[4], a[5], a[6], a[7]] + a[8..10] + a[10..];
    assert b == [b[0], b[1], b[2], b[3], b[4], b[5], b[6], b[7]] + b[8..10] + b[10..];
  }

  lemma {:induction false} HexInjective(xs: seq<Byte>, ys: seq<Byte>)
    requires |xs| == |ys| && Hex(xs) == Hex(ys)
    ensures xs == ys
  {
    if xs != [] {
      var hx, hy := Hex(xs), Hex(ys);
      assert hx[0] == HexDigit(xs[0] / 16) && hx[1] == HexDigit(xs[0] % 16);
      assert hy[0] == HexDigit(ys[0] / 16) && hy[1] == HexDigit(ys[0] % 16);
      HexDigitInjective(xs[0] / 16, ys[0] / 16);
      HexDigitInjective(xs[0] % 16, ys[0] % 16);
      assert hx[2..] == Hex(xs[1..]) && hy[2..] == Hex(ys[1..]);
      HexInjective(xs[1..], ys[1..]);
      assert xs == [xs[0]] + xs[1..] && ys == [ys[0]] + ys[1..];
    }
  }

  lemma HexDigitInjective(d: nat, e: nat)
    requires d < 16 && e < 16 && HexDigit(d) == HexDigit(e)
    ensures d == e
  {
  }
}
