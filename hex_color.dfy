/** The display color a join assigns when the client supplies none
    (controllers/collaborationController.js:65): a uniformly drawn integer
    rendered with `toString(16)` behind a `#`. The draw itself
    (`Math.floor(Math.random() * 16777215)`) is a parameter here. */
module HexColor {

  /** The multiplier of the random draw: draws lie in [0, 16777215). */
  const DrawBound: nat := 16777215

  predicate IsHexDigit(c: char)
  {
    '0' <= c <= '9' || 'a' <= c <= 'f'
  }

  predicate IsHexString(s: string)
  {
    forall i :: 0 <= i < |s| ==> IsHexDigit(s[i])
  }

  function DigitValue(c: char): (d: nat)
    requires IsHexDigit(c)
    ensures d < 16
  {
    if c <= '9' then c as int - '0' as int else c as int - 'a' as int + 10
  }

  /** The lower-case digit of a value below 16; `DigitValue` inverts it. */
  function DigitChar(d: nat): (c: char)
    requires d < 16
    ensures IsHexDigit(c) && DigitValue(c) == d
  {
    if d < 10 then ('0' as int + d) as char else ('a' as int + d - 10) as char
  }

  /** The value of a string of hex digits, most significant first. */
  function HexValue(s: string): nat
    requires IsHexString(s)
  {
    if s == [] then 0 else 16 * HexValue(s[..|s| - 1]) + DigitValue(s[|s| - 1])
  }

  function Pow16(k: nat): (p: nat)
    ensures p >= 1
  {
    if k == 0 then 1 else 16 * Pow16(k - 1)
  }

  /** `n.toString(16)` for a non-negative integer: lower-case digits with
      no leading zero (zero itself is "0"). */
  function ToHex(n: nat): (r: string)
    ensures |r| >= 1 && IsHexString(r)
    ensures |r| > 1 ==> r[0] != '0'
    decreases n
  {
    if n < 16 then [DigitChar(n)] else ToHex(n / 16) + [DigitChar(n % 16)]
  }

  /** Reading back what `toString(16)` wrote gives the number again. */
  lemma {:induction false} ToHexRoundTrip(n: nat)
    ensures HexValue(ToHex(n)) == n
    decreases n
  {
    var s := ToHex(n);
    if n >= 16 {
      ToHexRoundTrip(n / 16);
      assert s[..|s| - 1] == ToHex(n / 16);
    } else {
      assert s[..|s| - 1] == [];
    }
  }

  /** `toString(16)` uses at most `k` digits exactly for the numbers below
      16^k: no padding is added to reach a fixed width. */
  lemma {:induction false} ToHexLength(n: nat, k: nat)
    requires k >= 1
    ensures |ToHex(n)| <= k <==> n < Pow16(k)
    decreases n
  {
    if n >= 16 {
      if k == 1 {
        assert |ToHex(n)| == |ToHex(n / 16)| + 1;
      } else {
        ToHexLength(n / 16, k - 1);
      }
    }
  }

  /** A CSS color of the `#rrggbb` form. */
  predicate IsHexColor(s: string)
  {
    |s| == 7 && s[0] == '#' && IsHexString(s[1..])
  }

  /** The join color exactly as the handler builds it. */
  function RandomColorAsWritten(draw: nat): string
    requires draw < DrawBound
  {
    "#" + ToHex(draw)
  }

  /** One draw in sixteen (all below 0x100000) gives fewer than six digits,
      so no `#rrggbb` color; the draw 255 gives "#ff". */
  lemma RandomColorAsWrittenUnpadded(draw: nat)
    requires draw < 0x100000
    ensures !IsHexColor(RandomColorAsWritten(draw))
    ensures RandomColorAsWritten(255) == "#ff"
  {
    ToHexLength(draw, 5);
    assert Pow16(5) == 0x100000;
    assert ToHex(15) == ['f'];
    assert ToHex(255) == ToHex(15) + ['f'];
  }

  /** `s.padStart(width, '0')`. */
  function PadZeros(s: string, width: nat): (r: string)
    ensures |r| == if |s| < width then width else |s|
  {
    if |s| < width then seq(width - |s|, _ => '0') + s else s
  }

  /** Leading zeros do not change the value of a hex string. */
  lemma {:induction false} LeadingZerosValue(z: string, s: string)
    requires forall i :: 0 <= i < |z| ==> z[i] == '0'
    requires IsHexString(s)
    ensures IsHexString(z + s) && HexValue(z + s) == HexValue(s)
    decreases |s|, |z|
  {
    if s != [] {
      var w := s[..|s| - 1];
      assert (z + s)[..|z + s| - 1] == z + w;
      LeadingZerosValue(z, w);
    } else if z != [] {
      assert z + s == z;
      assert z[|z| - 1] == '0';
      LeadingZerosValue(z[..|z| - 1], s);
      assert z[..|z| - 1] + s == z[..|z| - 1];
    }
  }

  /** The join color as evidently intended: the draw zero-padded to six
      digits, which is always a `#rrggbb` color naming the draw. */
  function RandomColor(draw: nat): (r: string)
    requires draw < DrawBound
    ensures IsHexColor(r) && HexValue(r[1..]) == draw
  {
    var digits := ToHex(draw);
    ToHexLength(draw, 6);
    ToHexRoundTrip(draw);
    LeadingZerosValue(seq(6 - |digits|, _ => '0'), digits);
    assert PadZeros(digits, 6) == ("#" + PadZeros(digits, 6))[1..];
    "#" + PadZeros(digits, 6)
  }
}
