/** The choropleth palette: `#rrggbb` strings converted to RGB triples by
    slicing out each pair of characters and reading it with `int(pair, 16)`. */
module Colors {
  import opened Wrappers

  datatype Rgb = Rgb(red: int, green: int, blue: int)

  /** The palette as written in the source, lightest first. */
  const PaletteHex: seq<string> := ["#97a3ab", "#667883", "#37505d", "#022b3a"]

  /** The palette after conversion; pd.cut labels bin k with Palette[k]. */
  const Palette: seq<Rgb> := [Rgb(151, 163, 171), Rgb(102, 120, 131), Rgb(55, 80, 93), Rgb(2, 43, 58)]

  /** Value of one hexadecimal digit, either case. */
  function HexDigit(c: char): (d: Option<nat>)
    ensures d.Some? ==> d.value < 16
  {
    if '0' <= c <= '9' then Some(c as int - '0' as int)
    else if 'a' <= c <= 'f' then Some(c as int - 'a' as int + 10)
    else if 'A' <= c <= 'F' then Some(c as int - 'A' as int + 10)
    else None
  }

  predicate AllHex(s: string)
  {
    forall i | 0 <= i < |s| :: HexDigit(s[i]).Some?
  }

  /** The number a string of hexadecimal digits denotes. */
  function HexValue(s: string): (v: nat)
    requires AllHex(s)
    ensures |s| == 1 ==> v == HexDigit(s[0]).value
    ensures |s| == 2 ==> v == 16 * HexDigit(s[0]).value + HexDigit(s[1]).value
    decreases |s|
  {
    if s == [] then 0 else 16 * HexValue(s[..|s| - 1]) + HexDigit(s[|s| - 1]).value
  }

  /** Python's whitespace as far as ASCII goes. */
  predicate IsSpace(c: char)
  {
    c == ' ' || c == '\t' || c == '\n' || c == '\r' || c == 11 as char || c == 12 as char
  }

  /** `s.strip()`: surrounding whitespace removed. */
  function Strip(s: string): (t: string)
    ensures |t| <= |s|
    decreases |s|
  {
    if s != [] && IsSpace(s[0]) then Strip(s[1..])
    else if s != [] && IsSpace(s[|s| - 1]) then Strip(s[..|s| - 1])
    else s
  }

  /** `s.lstrip(c)`: every leading `c` removed. */
  function LStrip(s: string, c: char): (t: string)
    ensures |t| <= |s|
    ensures t == [] || t[0] != c
    decreases |s|
  {
    if s != [] && s[0] == c then LStrip(s[1..], c) else s
  }

  /** Python's slice `s[i:j]` for `0 <= i <= j`, cut short at the end of `s`. */
  function Slice(s: string, i: nat, j: nat): (t: string)
    requires i <= j
    ensures |t| <= j - i
    ensures |t| > 0 ==> i + |t| <= |s|
    ensures forall k | 0 <= k < |t| :: t[k] == s[i + k]
  {
    if j <= |s| then s[i..j] else if i <= |s| then s[i..] else []
  }

  /** `int(t, 16)` on a string that is all digits: None (ValueError) unless it is non-empty. */
  function ParseDigits(t: string): Option<nat>
  {
    if |t| > 0 && AllHex(t) then Some(HexValue(t)) else None
  }

  /** `int(s, 16)` on a slice of at most two characters: surrounding whitespace
      is ignored, one leading sign is allowed, at least one digit must remain;
      anything else raises ValueError (None). */
  function ParseHexSlice(s: string): (r: Option<int>)
    requires |s| <= 2
    ensures r.Some? ==> -15 <= r.value <= 255
  {
    var t := Strip(s);
    if |t| > 0 && (t[0] == '+' || t[0] == '-') then
      match ParseDigits(t[1..])
      case None => None
      case Some(v) => Some(if t[0] == '-' then 0 - v else v)
    else
      ParseDigits(t)
  }

  /** `tuple(int(h.lstrip('#')[i:i+2], 16) for i in (0, 2, 4))`; None when any pair fails to parse. */
  function HexToRgb(h: string): (c: Option<Rgb>)
    ensures c.Some? ==> -15 <= c.value.red <= 255 && -15 <= c.value.green <= 255 && -15 <= c.value.blue <= 255
    ensures var t := LStrip(h, '#');
      c.Some? <==> (ParseHexSlice(Slice(t, 0, 2)).Some? && ParseHexSlice(Slice(t, 2, 4)).Some?
                    && ParseHexSlice(Slice(t, 4, 6)).Some?)
  {
    var t := LStrip(h, '#');
    match (ParseHexSlice(Slice(t, 0, 2)), ParseHexSlice(Slice(t, 2, 4)), ParseHexSlice(Slice(t, 4, 6)))
    case (Some(r), Some(g), Some(b)) => Some(Rgb(r, g, b))
    case _ => None
  }

  /** The list comprehension over the palette: every entry converted, in order; it
      raises (None) as soon as one entry does not convert. */
  function ParsePalette(hs: seq<string>): (r: Option<seq<Rgb>>)
    ensures r.Some? <==> forall i | 0 <= i < |hs| :: HexToRgb(hs[i]).Some?
    ensures r.Some? ==> |r.value| == |hs| && forall i | 0 <= i < |hs| :: r.value[i] == HexToRgb(hs[i]).value
    decreases |hs|
  {
    if hs == [] then Some([])
    else
      match (HexToRgb(hs[0]), ParsePalette(hs[1..]))
      case (Some(c), Some(cs)) => Some([c] + cs)
      case _ => None
  }

  /** A colour written `#` followed by exactly six hexadecimal digits. */
  predicate IsHexColor(h: string)
  {
    |h| == 7 && h[0] == '#' && AllHex(h[1..])
  }

  function DigitChar(d: nat): char
    requires d < 16
  {
    if d < 10 then ('0' as int + d) as char else ('a' as int + d - 10) as char
  }

  predicate IsByte(n: int) { 0 <= n <= 255 }

  /** Two lower-case hexadecimal digits for a byte. */
  function HexPair(n: nat): string
    requires n <= 255
  {
    [DigitChar(n / 16), DigitChar(n % 16)]
  }

  /** The `#rrggbb` spelling of a colour whose components are bytes. */
  function ToHex(c: Rgb): string
    requires IsByte(c.red) && IsByte(c.green) && IsByte(c.blue)
  {
    "#" + HexPair(c.red) + HexPair(c.green) + HexPair(c.blue)
  }

  /** Stripping a single leading `c`. */
  lemma LStripOne(s: string, c: char)
    requires |s| > 1 && s[0] == c && s[1] != c
    ensures LStrip(s, c) == s[1..]
  {
    assert LStrip(s, c) == LStrip(s[1..], c);
    assert s[1..][0] == s[1];
  }

  lemma DigitCharValue(d: nat)
    requires d < 16
    ensures HexDigit(DigitChar(d)) == Some(d)
  {
  }

  /** The digits of the `#rrggbb` spelling, one by one. */
  lemma ToHexDigits(c: Rgb)
    requires IsByte(c.red) && IsByte(c.green) && IsByte(c.blue)
    ensures |ToHex(c)| == 7 && ToHex(c)[0] == '#'
    ensures HexDigit(ToHex(c)[1]) == Some(c.red / 16) && HexDigit(ToHex(c)[2]) == Some(c.red % 16)
    ensures HexDigit(ToHex(c)[3]) == Some(c.green / 16) && HexDigit(ToHex(c)[4]) == Some(c.green % 16)
    ensures HexDigit(ToHex(c)[5]) == Some(c.blue / 16) && HexDigit(ToHex(c)[6]) == Some(c.blue % 16)
  {
    DigitCharValue(c.red / 16);
    DigitCharValue(c.red % 16);
    DigitCharValue(c.green / 16);
    DigitCharValue(c.green % 16);
    DigitCharValue(c.blue / 16);
    DigitCharValue(c.blue % 16);
  }

  /** Writing a colour as `#rrggbb` and converting it back gives the colour. */
  lemma ToHexRoundTrip(c: Rgb)
    requires IsByte(c.red) && IsByte(c.green) && IsByte(c.blue)
    ensures IsHexColor(ToHex(c))
    ensures HexToRgb(ToHex(c)) == Some(c)
  {
    var h := ToHex(c);
    ToHexDigits(c);
    DigitsConvert(h, c.red / 16, c.red % 16, c.green / 16, c.green % 16, c.blue / 16, c.blue % 16);
    SplitByte(c.red);
    SplitByte(c.green);
    SplitByte(c.blue);
    assert Rgb(16 * (c.red / 16) + c.red % 16, 16 * (c.green / 16) + c.green % 16,
               16 * (c.blue / 16) + c.blue % 16) == c;
  }

  lemma SplitByte(n: nat)
    ensures 16 * (n / 16) + n % 16 == n
  {
  }

  /** A `#` and six digits of known values convert to the three pairs' values. */
  lemma DigitsConvert(h: string, d0: nat, d1: nat, d2: nat, d3: nat, d4: nat, d5: nat)
    requires |h| == 7 && h[0] == '#'
    requires HexDigit(h[1]) == Some(d0) && HexDigit(h[2]) == Some(d1) && HexDigit(h[3]) == Some(d2)
    requires HexDigit(h[4]) == Some(d3) && HexDigit(h[5]) == Some(d4) && HexDigit(h[6]) == Some(d5)
    ensures IsHexColor(h)
    ensures HexToRgb(h) == Some(Rgb(16 * d0 + d1, 16 * d2 + d3, 16 * d4 + d5))
  {
    assert forall k | 0 <= k < 6 :: h[1..][k] == h[k + 1];
    assert IsHexColor(h);
    WellFormedConverts(h);
    var c := HexToRgb(h).value;
    assert c == Rgb(16 * d0 + d1, 16 * d2 + d3, 16 * d4 + d5);
  }

  /** A well-formed `#rrggbb` converts, each component is 16 * first digit + second digit, and so lies in 0..255. */
  lemma WellFormedConverts(h: string)
    requires IsHexColor(h)
    ensures HexToRgb(h).Some?
    ensures HexToRgb(h).value.red == 16 * HexDigit(h[1]).value + HexDigit(h[2]).value
    ensures HexToRgb(h).value.green == 16 * HexDigit(h[3]).value + HexDigit(h[4]).value
    ensures HexToRgb(h).value.blue == 16 * HexDigit(h[5]).value + HexDigit(h[6]).value
    ensures IsByte(HexToRgb(h).value.red) && IsByte(HexToRgb(h).value.green) && IsByte(HexToRgb(h).value.blue)
  {
    var t := LStrip(h, '#');
    assert HexDigit(h[1..][0]).Some?;
    LStripOne(h, '#');
    PairValue(Slice(t, 0, 2));
    PairValue(Slice(t, 2, 4));
    PairValue(Slice(t, 4, 6));
  }

  lemma PairValue(p: string)
    requires |p| == 2 && AllHex(p)
    ensures ParseHexSlice(p) == Some(16 * HexDigit(p[0]).value + HexDigit(p[1]).value)
  {
    assert HexDigit(p[0]).Some? && HexDigit(p[1]).Some?;
    assert !IsSpace(p[0]) && !IsSpace(p[1]);
    assert Strip(p) == p;
  }

  /** The darkest palette entry converts to (2, 43, 58). */
  lemma DarkestConverts()
    ensures HexToRgb("#022b3a") == Some(Rgb(2, 43, 58))
  {
    DigitsConvert("#022b3a", 0, 2, 2, 11, 3, 10);
  }

  lemma PaletteEntryConverts(i: nat)
    requires i < 4
    ensures HexToRgb(PaletteHex[i]) == Some(Palette[i])
  {
    if i == 0 {
      DigitsConvert("#97a3ab", 9, 7, 10, 3, 10, 11);
    } else if i == 1 {
      DigitsConvert("#667883", 6, 6, 7, 8, 8, 3);
    } else if i == 2 {
      DigitsConvert("#37505d", 3, 7, 5, 0, 5, 13);
    } else {
      DarkestConverts();
    }
  }

  /** A list of colours whose every entry converts to the matching triple converts to the triples. */
  lemma ParsePaletteOf(hs: seq<string>, cs: seq<Rgb>)
    requires |hs| == |cs| && forall i | 0 <= i < |hs| :: HexToRgb(hs[i]) == Some(cs[i])
    ensures ParsePalette(hs) == Some(cs)
  {
    var r := ParsePalette(hs);
    assert r.Some?;
    assert r.value == cs;
  }

  /** The source's palette converts entry by entry, in order, to Palette. */
  lemma PaletteConverts()
    ensures ParsePalette(PaletteHex) == Some(Palette)
  {
    forall i | 0 <= i < 4
      ensures HexToRgb(PaletteHex[i]) == Some(Palette[i])
    {
      PaletteEntryConverts(i);
    }
    ParsePaletteOf(PaletteHex, Palette);
  }

  /** A pair that is not a number makes the conversion fail, as `int('zz', 16)` raises ValueError. */
  lemma NonHexPairFails()
    ensures HexToRgb("#zz0000") == None
  {
    assert LStrip("#zz0000", '#') == "zz0000";
    assert Slice("zz0000", 0, 2) == "zz";
    assert Strip("zz") == "zz";
  }

  /** The leftover quirks of `int(pair, 16)`: a signed pair is read as a signed number. */
  lemma SignedPairAccepted()
    ensures HexToRgb("#-f0000") == Some(Rgb(-15, 0, 0))
  {
    assert LStrip("#-f0000", '#') == "-f0000";
    assert Slice("-f0000", 0, 2) == "-f";
    assert Strip("-f") == "-f";
    assert ParseDigits("f") == Some(15);
    PairValue("00");
    assert Slice("-f0000", 2, 4) == "00";
    assert Slice("-f0000", 4, 6) == "00";
  }
}
