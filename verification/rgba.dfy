/**
 * The page's colour class `RGBA`: channels written as a `#rrggbb` hex string, read back from
 * one, and read from a saved pawn's JSON. `asHSV` works on fractions and is not modelled.
 */
module Rgba {
  import opened Wrappers
  import opened Text

  /** A colour; each channel is whatever number the page was given (0-255 for hex channels). */
  datatype RGBA = RGBA(R: JsNum, G: JsNum, B: JsNum, A: JsNum)

  /** `new RGBA(R, G, B)`: the alpha defaults to 1. */
  function Opaque(r: JsNum, g: JsNum, b: JsNum): (c: RGBA)
    ensures c.A == Num(1) && c.R == r && c.G == g && c.B == b
  {
    RGBA(r, g, b, Num(1))
  }

  /** `new RGBA()` */
  const Black := Opaque(Num(0), Num(0), Num(0))

  /** A channel in 0-255. */
  predicate IsByte(n: JsNum) {
    n.Num? && 0 <= n.v < 256
  }

  predicate Bytes(c: RGBA) {
    IsByte(c.R) && IsByte(c.G) && IsByte(c.B)
  }

  /** `x.toString(16).padStart(2, "0")` */
  function Channel(n: JsNum): (r: string)
    ensures |r| >= 2
  {
    PadStart(n.ShowHex(), 2, '0')
  }

  /** `asHex()`: "#" and the red, green and blue channels; the alpha is not written. */
  function AsHex(c: RGBA): (r: string)
    ensures |r| >= 7 && r[0] == '#'
  {
    "#" + Channel(c.R) + Channel(c.G) + Channel(c.B)
  }

  /** A lower-case hex digit. */
  predicate HexDigit(ch: char) {
    '0' <= ch <= '9' || 'a' <= ch <= 'f'
  }

  /** Two lower-case hex digits. */
  predicate HexPair(p: string) {
    |p| == 2 && HexDigit(p[0]) && HexDigit(p[1])
  }

  /** The digits below 16 are the lower-case hex digits. */
  lemma DigitCharHex(d: nat)
    requires d < 16
    ensures HexDigit(DigitChar(d))
  {
    if d >= 10 {
      assert DigitChar(d) == ('a' as int + d - 10) as char;
    }
  }

  lemma ChannelSmall(n: nat)
    requires n < 16
    ensures Channel(Num(n)) == [DigitChar(0), DigitChar(n)]
  {
    assert ShowNat(n, 16) == [DigitChar(n)];
    assert PadStart([DigitChar(n)], 2, '0') == ['0', DigitChar(n)];
  }

  lemma ChannelLarge(n: nat)
    requires 16 <= n < 256
    ensures Channel(Num(n)) == [DigitChar(n / 16), DigitChar(n % 16)]
  {
    ShowHexTwoDigits(n);
  }

  /** A channel in 0-255 is written as exactly two hex digits, the high one first. */
  lemma ChannelByte(n: nat)
    requires n < 256
    ensures Channel(Num(n)) == [DigitChar(n / 16), DigitChar(n % 16)]
  {
    if n < 16 {
      ChannelSmall(n);
      assert n / 16 == 0 && n % 16 == n;
    } else {
      ChannelLarge(n);
    }
  }

  lemma ChannelPair(n: nat)
    requires n < 256
    ensures HexPair(Channel(Num(n)))
  {
    ChannelByte(n);
    DigitCharHex(n / 16);
    DigitCharHex(n % 16);
  }

  /** Two hex digits, the first not "0x": `Number.parseInt` in radix 16 reads both. */
  lemma UnsignedTwoDigits(hi: nat, lo: nat)
    requires hi < 16 && lo < 16
    ensures JsParseUnsigned([DigitChar(hi), DigitChar(lo)], 16) == Some(hi * 16 + lo)
  {
    var s := [DigitChar(hi), DigitChar(lo)];
    assert s[1] != 'x' && s[1] != 'X';
    DigitRunAll(s, 16);
    assert s[..2] == s;
    assert s[..1][..0] == [];
    assert DigitsValue(s[..1], 16) == hi;
  }

  /** `Number.parseInt(s, 16)` of two hex digits is the number they spell. */
  lemma ParseTwoDigits(hi: nat, lo: nat)
    requires hi < 16 && lo < 16
    ensures JsParseInt([DigitChar(hi), DigitChar(lo)], 16) == Num(hi * 16 + lo)
  {
    var s := [DigitChar(hi), DigitChar(lo)];
    assert !IsJsSpace(s[0]);
    assert DropLeading(s, IsJsSpace) == s;
    UnsignedTwoDigits(hi, lo);
  }

  /** The two digits of a byte, read back in radix 16. */
  lemma ParseByteDigits(n: nat)
    requires n < 256
    ensures JsParseInt([DigitChar(n / 16), DigitChar(n % 16)], 16) == Num(n)
  {
    ParseTwoDigits(n / 16, n % 16);
  }

  /** `Number.parseInt(x, 16)` of what a byte channel is written as is that byte. */
  lemma ParseHexPair(n: nat)
    requires n < 256
    ensures JsParseInt(Channel(Num(n)), 16) == Num(n)
  {
    ChannelByte(n);
    ParseByteDigits(n);
  }

  /** "#" and three two-character parts, character by character. */
  lemma SevenChars(x: string, y: string, z: string)
    requires |x| == 2 && |y| == 2 && |z| == 2
    ensures "#" + x + y + z == ['#', x[0], x[1], y[0], y[1], z[0], z[1]]
  {
  }

  lemma AllHexDigits(d1: char, d2: char, d3: char, d4: char, d5: char, d6: char)
    requires HexDigit(d1) && HexDigit(d2) && HexDigit(d3) && HexDigit(d4) && HexDigit(d5) && HexDigit(d6)
    ensures forall i :: 1 <= i < 7 ==> HexDigit(['#', d1, d2, d3, d4, d5, d6][i])
  {
  }

  /**
   * A colour with byte channels is written as "#" and six lower-case hex digits, two per channel
   * with the high digit first, whatever its alpha.
   */
  lemma AsHexShape(c: RGBA, a: JsNum)
    requires Bytes(c)
    ensures AsHex(c) == ['#', DigitChar(c.R.v / 16), DigitChar(c.R.v % 16), DigitChar(c.G.v / 16),
      DigitChar(c.G.v % 16), DigitChar(c.B.v / 16), DigitChar(c.B.v % 16)]
    ensures forall i :: 1 <= i < 7 ==> HexDigit(AsHex(c)[i])
    ensures AsHex(c.(A := a)) == AsHex(c)
  {
    var x, y, z := Channel(c.R), Channel(c.G), Channel(c.B);
    ChannelByte(c.R.v);
    ChannelByte(c.G.v);
    ChannelByte(c.B.v);
    ChannelPair(c.R.v);
    ChannelPair(c.G.v);
    ChannelPair(c.B.v);
    SevenChars(x, y, z);
    AllHexDigits(x[0], x[1], y[0], y[1], z[0], z[1]);
  }

  /** `hex.replace("#", "").trim()`: the first "#" dropped, then the surrounding space. */
  function Cleaned(hex: string): string {
    Trim(ReplaceFirst(hex, "#", ""))
  }

  /** The byte written at `i`, `i + 1`: `Number.parseInt(hex.substring(i, i + 2), 16)`. */
  function HexAt(h: string, i: nat): JsNum
    requires i + 2 <= |h|
  {
    JsParseInt(h[i..i + 2], 16)
  }

  /**
   * `RGBA.fromHex(hex)` once the text is cleaned: six digits give an opaque colour, eight give
   * the fourth byte as the alpha (as a number 0-255, not a fraction), and any other length is
   * the error "Invalid color hex string".
   */
  function FromDigits(h: string): (r: Result<RGBA>)
    ensures r.Ok? <==> |h| == 6 || |h| == 8
    ensures r.Ok? ==> r.value.R == HexAt(h, 0) && r.value.G == HexAt(h, 2) && r.value.B == HexAt(h, 4)
    ensures r.Ok? && |h| == 6 ==> r.value.A == Num(1)
    ensures r.Ok? && |h| == 8 ==> r.value.A == HexAt(h, 6)
    ensures r.Err? ==> r.fault == InvalidHex
  {
    if |h| == 6 then
      Ok(Opaque(HexAt(h, 0), HexAt(h, 2), HexAt(h, 4)))
    else if |h| == 8 then
      Ok(RGBA(HexAt(h, 0), HexAt(h, 2), HexAt(h, 4), HexAt(h, 6)))
    else
      Err(InvalidHex)
  }

  /**
   * `RGBA.fromHex(hex)`: the digits left once the first "#" and the surrounding space are gone.
   * It succeeds exactly when six or eight characters are left, and six leave the colour opaque.
   */
  function FromHex(hex: string): (r: Result<RGBA>)
    ensures r.Ok? <==> |Cleaned(hex)| == 6 || |Cleaned(hex)| == 8
    ensures r.Ok? && |Cleaned(hex)| == 6 ==> r.value.A == Num(1)
    ensures r.Err? ==> r.fault == InvalidHex
  {
    FromDigits(Cleaned(hex))
  }

  /** Hex digits after a "#" are what is left once the text is cleaned. */
  lemma CleanedHexDigits(h: string)
    requires forall i :: 0 <= i < |h| ==> HexDigit(h[i])
    ensures Cleaned("#" + h) == h
  {
    var s := "#" + h;
    assert s[..1] == "#" && s[1..] == h;
    assert ReplaceFirst(s, "#", "") == h;
    TrimTrimmed(h);
  }

  /** The byte at `i` is read from the two characters there. */
  lemma HexAtSlice(h: string, i: nat, p: string)
    requires i + 2 <= |h| && h[i..i + 2] == p
    ensures HexAt(h, i) == JsParseInt(p, 16)
  {
  }

  /** Hex digits followed by hex digits are hex digits. */
  lemma ConcatDigits(a: string, b: string)
    requires forall i :: 0 <= i < |a| ==> HexDigit(a[i])
    requires forall i :: 0 <= i < |b| ==> HexDigit(b[i])
    ensures forall i :: 0 <= i < |a + b| ==> HexDigit((a + b)[i])
  {
  }

  lemma PairDigits(p: string)
    requires HexPair(p)
    ensures forall i :: 0 <= i < |p| ==> HexDigit(p[i])
  {
  }

  lemma SlicesThree(x: string, y: string, z: string)
    requires |x| == 2 && |y| == 2 && |z| == 2
    ensures (x + y + z)[0..2] == x && (x + y + z)[2..4] == y && (x + y + z)[4..6] == z
  {
  }

  lemma SlicesFour(x: string, y: string, z: string, w: string)
    requires |x| == 2 && |y| == 2 && |z| == 2 && |w| == 2
    ensures (x + y + z + w)[0..2] == x && (x + y + z + w)[2..4] == y
    ensures (x + y + z + w)[4..6] == z && (x + y + z + w)[6..8] == w
  {
    SlicesThree(x, y, z);
    assert (x + y + z + w)[0..6] == x + y + z;
  }

  lemma FromDigitsOpaque(h: string, r: JsNum, g: JsNum, b: JsNum)
    requires |h| == 6 && HexAt(h, 0) == r && HexAt(h, 2) == g && HexAt(h, 4) == b
    ensures FromDigits(h) == Ok(Opaque(r, g, b))
  {
  }

  lemma FromDigitsAlpha(h: string, r: JsNum, g: JsNum, b: JsNum, a: JsNum)
    requires |h| == 8 && HexAt(h, 0) == r && HexAt(h, 2) == g && HexAt(h, 4) == b && HexAt(h, 6) == a
    ensures FromDigits(h) == Ok(RGBA(r, g, b, a))
  {
  }

  lemma CleanedThree(x: string, y: string, z: string)
    requires HexPair(x) && HexPair(y) && HexPair(z)
    ensures Cleaned("#" + x + y + z) == x + y + z
  {
    PairDigits(x);
    PairDigits(y);
    PairDigits(z);
    ConcatDigits(x, y);
    ConcatDigits(x + y, z);
    CleanedHexDigits(x + y + z);
    assert "#" + x + y + z == "#" + (x + y + z);
  }

  lemma CleanedFour(x: string, y: string, z: string, w: string)
    requires HexPair(x) && HexPair(y) && HexPair(z) && HexPair(w)
    ensures Cleaned("#" + x + y + z + w) == x + y + z + w
  {
    PairDigits(x);
    PairDigits(y);
    PairDigits(z);
    PairDigits(w);
    ConcatDigits(x, y);
    ConcatDigits(x + y, z);
    ConcatDigits(x + y + z, w);
    CleanedHexDigits(x + y + z + w);
    assert "#" + x + y + z + w == "#" + (x + y + z + w);
  }

  lemma HexAtThree(x: string, y: string, z: string)
    requires |x| == 2 && |y| == 2 && |z| == 2
    ensures HexAt(x + y + z, 0) == JsParseInt(x, 16) && HexAt(x + y + z, 2) == JsParseInt(y, 16)
    ensures HexAt(x + y + z, 4) == JsParseInt(z, 16)
  {
    SlicesThree(x, y, z);
  }

  lemma HexAtFour(x: string, y: string, z: string, w: string)
    requires |x| == 2 && |y| == 2 && |z| == 2 && |w| == 2
    ensures HexAt(x + y + z + w, 0) == JsParseInt(x, 16) && HexAt(x + y + z + w, 2) == JsParseInt(y, 16)
    ensures HexAt(x + y + z + w, 4) == JsParseInt(z, 16) && HexAt(x + y + z + w, 6) == JsParseInt(w, 16)
  {
    SlicesFour(x, y, z, w);
  }

  /** Three hex pairs after a "#" read back as an opaque colour of what each pair spells. */
  lemma FromHexThree(x: string, y: string, z: string)
    requires HexPair(x) && HexPair(y) && HexPair(z)
    ensures FromHex("#" + x + y + z) == Ok(Opaque(JsParseInt(x, 16), JsParseInt(y, 16), JsParseInt(z, 16)))
  {
    CleanedThree(x, y, z);
    HexAtThree(x, y, z);
    FromDigitsOpaque(x + y + z, JsParseInt(x, 16), JsParseInt(y, 16), JsParseInt(z, 16));
  }

  /** Four hex pairs after a "#" read back as a colour whose alpha is what the fourth pair spells. */
  lemma FromHexFour(x: string, y: string, z: string, w: string)
    requires HexPair(x) && HexPair(y) && HexPair(z) && HexPair(w)
    ensures FromHex("#" + x + y + z + w) ==
      Ok(RGBA(JsParseInt(x, 16), JsParseInt(y, 16), JsParseInt(z, 16), JsParseInt(w, 16)))
  {
    CleanedFour(x, y, z, w);
    HexAtFour(x, y, z, w);
    FromDigitsAlpha(x + y + z + w, JsParseInt(x, 16), JsParseInt(y, 16), JsParseInt(z, 16), JsParseInt(w, 16));
  }

  /** Reading back what `asHex` wrote gives the colour again, made opaque. */
  lemma FromHexAsHex(c: RGBA)
    requires Bytes(c)
    ensures FromHex(AsHex(c)) == Ok(Opaque(c.R, c.G, c.B))
  {
    ChannelPair(c.R.v);
    ChannelPair(c.G.v);
    ChannelPair(c.B.v);
    FromHexThree(Channel(c.R), Channel(c.G), Channel(c.B));
    ParseHexPair(c.R.v);
    ParseHexPair(c.G.v);
    ParseHexPair(c.B.v);
  }

  /** Eight digits: the hex form with a fourth byte appended reads back with that byte as alpha. */
  lemma FromHexAlpha(c: RGBA, alpha: nat)
    requires Bytes(c) && alpha < 256
    ensures FromHex(AsHex(c) + Channel(Num(alpha))) == Ok(RGBA(c.R, c.G, c.B, Num(alpha)))
  {
    ChannelPair(c.R.v);
    ChannelPair(c.G.v);
    ChannelPair(c.B.v);
    ChannelPair(alpha);
    FromHexFour(Channel(c.R), Channel(c.G), Channel(c.B), Channel(Num(alpha)));
    ParseHexPair(c.R.v);
    ParseHexPair(c.G.v);
    ParseHexPair(c.B.v);
    ParseHexPair(alpha);
  }

  // ---------------------------------------------------------------- JSON

  /** A saved colour: `JSON.stringify` of an `RGBA`, whose `A` may be missing in older saves. */
  datatype ColorJson = ColorJson(R: int, G: int, B: int, A: Option<int>)

  /** `JSON.stringify(color)` of a colour whose channels are numbers. */
  function ToJSON(c: RGBA): (j: ColorJson)
    requires c.R.Num? && c.G.Num? && c.B.Num? && c.A.Num?
    ensures j.A.Some?
  {
    ColorJson(c.R.v, c.G.v, c.B.v, Some(c.A.v))
  }

  /** `RGBA.fromJSON(obj)` of docs/rgba.js: `obj.A || 1`, so an alpha of 0 turns into 1. */
  function FromJSON(j: ColorJson): (c: RGBA)
    ensures c.A.Num? && c.A.v != 0
    ensures j.A.Some? && j.A.value != 0 ==> c.A == Num(j.A.value)
  {
    RGBA(Num(j.R), Num(j.G), Num(j.B), if j.A.Some? && j.A.value != 0 then Num(j.A.value) else Num(1))
  }

  /** `RGBA.fromJSON(obj)` of page/main.js: `"A" in obj ? obj.A : 1`, so any saved alpha is kept. */
  function PageFromJSON(j: ColorJson): (c: RGBA)
    ensures j.A.Some? ==> c.A == Num(j.A.value)
    ensures j.A.None? ==> c.A == Num(1)
  {
    RGBA(Num(j.R), Num(j.G), Num(j.B), if j.A.Some? then Num(j.A.value) else Num(1))
  }

  /** A saved colour reads back unchanged as long as it is not fully transparent. */
  lemma FromJSONRoundTrip(c: RGBA)
    requires c.R.Num? && c.G.Num? && c.B.Num? && c.A.Num? && c.A.v != 0
    ensures FromJSON(ToJSON(c)) == c
  {
  }

  /** A fully transparent colour is saved and comes back opaque. */
  lemma FromJSONDropsZeroAlpha(r: int, g: int, b: int)
    ensures var c := RGBA(Num(r), Num(g), Num(b), Num(0));
      FromJSON(ToJSON(c)) == Opaque(c.R, c.G, c.B) != c
  {
  }

  /** With the `in` test every saved colour reads back unchanged, transparent ones included. */
  lemma PageFromJSONRoundTrip(c: RGBA)
    requires c.R.Num? && c.G.Num? && c.B.Num? && c.A.Num?
    ensures PageFromJSON(ToJSON(c)) == c
  {
  }
}
