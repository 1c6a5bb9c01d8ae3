/**
 * ARGB colours as Android packs them into an int, and a parser for the hexadecimal
 * notations `#RRGGBB` and `#AARRGGBB` that the navigation-bar colour argument uses.
 */
module Colors {
  import opened Wrappers

  /** The 32-bit ARGB pattern, alpha in the top byte, read as an unsigned number. */
  type Color = c: int | 0 <= c < 0x1_0000_0000

  /** `Color.TRANSPARENT`: every channel, alpha included, is zero. */
  const TRANSPARENT: Color := 0

  /** The alpha byte 0xFF in place: `#RRGGBB` colours are fully opaque. */
  const OPAQUE_ALPHA: Color := 0xFF00_0000

  /** 16 to the power `k`: one more than the largest value of `k` hexadecimal digits. */
  function Pow16(k: nat): nat
  {
    if k == 0 then 1 else 16 * Pow16(k - 1)
  }

  predicate IsHexDigit(ch: char) {
    '0' <= ch <= '9' || 'a' <= ch <= 'f' || 'A' <= ch <= 'F'
  }

  predicate AllHex(s: string) {
    forall i :: 0 <= i < |s| ==> IsHexDigit(s[i])
  }

  function DigitValue(ch: char): (v: nat)
    requires IsHexDigit(ch)
    ensures v < 16
    ensures '0' <= ch <= '9' ==> v == ch as int - '0' as int
    ensures ('a' <= ch <= 'f' || 'A' <= ch <= 'F') ==> v >= 10
  {
    if '0' <= ch <= '9' then ch as int - '0' as int
    else if 'a' <= ch <= 'f' then ch as int - 'a' as int + 10
    else ch as int - 'A' as int + 10
  }

  /** The number a string of hex digits denotes, most significant digit first. */
  function HexValue(s: string): (n: nat)
    requires AllHex(s)
    ensures n < Pow16(|s|)
  {
    if s == [] then 0 else HexValue(s[..|s| - 1]) * 16 + DigitValue(s[|s| - 1])
  }

  /**
   * The hexadecimal part of `Color.parseColor`: `#RRGGBB` gets an opaque alpha,
   * `#AARRGGBB` is taken as it is, and anything else is refused.
   */
  function ParseHexColor(s: string): (r: Option<Color>)
    ensures r.Some? <==> (|s| == 7 || |s| == 9) && s[0] == '#' && AllHex(s[1..])
    ensures r.Some? && |s| == 7 ==> r.value == OPAQUE_ALPHA + HexValue(s[1..])
    ensures r.Some? && |s| == 9 ==> r.value == HexValue(s[1..])
  {
    if (|s| == 7 || |s| == 9) && s[0] == '#' && AllHex(s[1..]) then
      var n := HexValue(s[1..]);
      assert Pow16(6) == 0x100_0000;
      assert Pow16(8) == 0x1_0000_0000;
      Some(if |s| == 7 then OPAQUE_ALPHA + n else n)
    else
      None
  }

  function DigitChar(d: nat): (ch: char)
    requires d < 16
    ensures IsHexDigit(ch) && DigitValue(ch) == d
  {
    "0123456789ABCDEF"[d]
  }

  /** `n` written with exactly `k` hex digits, most significant first. */
  function HexDigits(n: nat, k: nat): (s: string)
    requires n < Pow16(k)
    ensures |s| == k && AllHex(s)
  {
    if k == 0 then "" else HexDigits(n / 16, k - 1) + [DigitChar(n % 16)]
  }

  /** `#AARRGGBB` notation of a colour: the writer the parser inverts. */
  function ArgbNotation(c: Color): (s: string)
    ensures |s| == 9 && s[0] == '#'
  {
    assert Pow16(8) == 0x1_0000_0000;
    "#" + HexDigits(c, 8)
  }

  lemma {:induction false} HexDigitsRoundTrip(n: nat, k: nat)
    requires n < Pow16(k)
    ensures HexValue(HexDigits(n, k)) == n
  {
    if k > 0 {
      var s := HexDigits(n, k);
      assert n / 16 < Pow16(k - 1);
      HexDigitsRoundTrip(n / 16, k - 1);
      assert s[..|s| - 1] == HexDigits(n / 16, k - 1);
      assert s[|s| - 1] == DigitChar(n % 16);
    }
  }

  /** Parsing what `ArgbNotation` writes gives the colour back. */
  lemma ParseArgbNotation(c: Color)
    ensures ParseHexColor(ArgbNotation(c)) == Some(c)
  {
    assert Pow16(8) == 0x1_0000_0000;
    var s := ArgbNotation(c);
    assert s[1..] == HexDigits(c, 8);
    HexDigitsRoundTrip(c, 8);
  }

  /** A six-digit colour `#RRGGBB` parses to the same red, green and blue with alpha 0xFF. */
  lemma ParseRgbNotation(rgb: nat)
    requires rgb < 0x100_0000
    ensures ParseHexColor("#" + HexDigits(rgb, 6)) == Some(OPAQUE_ALPHA + rgb)
  {
    assert Pow16(6) == 0x100_0000;
    var s := "#" + HexDigits(rgb, 6);
    assert s[1..] == HexDigits(rgb, 6);
    HexDigitsRoundTrip(rgb, 6);
  }
}
