/**
 * The colour helpers of `src/utils/color.ts`: `hexToRgba` decodes a `#RGB`
 * or `#RRGGBB` code into the text of a CSS `rgba(...)` colour, reading each
 * channel with `parseInt(_, 16)`, and `resolveNodeColor` picks the semantic
 * or the custom colour of a node.
 */
module Color {
  import opened Js

  predicate IsHexDigit(c: char)
  {
    '0' <= c <= '9' || 'a' <= c <= 'f' || 'A' <= c <= 'F'
  }

  function HexDigitValue(c: char): (d: nat)
    requires IsHexDigit(c)
    ensures d < 16
  {
    if '0' <= c <= '9' then c as int - '0' as int
    else if 'a' <= c <= 'f' then c as int - 'a' as int + 10
    else c as int - 'A' as int + 10
  }

  /** Index of the first character at or after i that is not white space. */
  function SkipWhite(s: string, i: nat): (j: nat)
    requires i <= |s|
    ensures i <= j <= |s|
    ensures forall k :: i <= k < j ==> IsWhite(s[k])
    ensures j < |s| ==> !IsWhite(s[j])
    decreases |s| - i
  {
    if i < |s| && IsWhite(s[i]) then SkipWhite(s, i + 1) else i
  }

  /** Index of the first position at or after i that does not hold a hexadecimal digit. */
  function HexSpan(s: string, i: nat): (j: nat)
    requires i <= |s|
    ensures i <= j <= |s|
    ensures forall k :: i <= k < j ==> IsHexDigit(s[k])
    ensures j < |s| ==> !IsHexDigit(s[j])
    decreases |s| - i
  {
    if i < |s| && IsHexDigit(s[i]) then HexSpan(s, i + 1) else i
  }

  /** Value of the hexadecimal digits s[i..j], most significant first. */
  function HexValue(s: string, i: nat, j: nat): nat
    requires i <= j <= |s|
    requires forall k :: i <= k < j ==> IsHexDigit(s[k])
    decreases j
  {
    if j == i then 0 else 16 * HexValue(s, i, j - 1) + HexDigitValue(s[j - 1])
  }

  /**
   * `parseInt(s, 16)`; None stands for NaN. Leading white space is skipped,
   * one sign and then a `0x`/`0X` prefix are passed over, and the longest run
   * of hexadecimal digits that follows is the value.
   */
  function ParseHex(s: string): (r: Option<int>)
  {
    var i := SkipWhite(s, 0);
    var negative := i < |s| && s[i] == '-';
    var j := if i < |s| && (s[i] == '-' || s[i] == '+') then i + 1 else i;
    var k := if j + 1 < |s| && s[j] == '0' && (s[j + 1] == 'x' || s[j + 1] == 'X') then j + 2 else j;
    var e := HexSpan(s, k);
    if e == k then None
    else Some(if negative then -(HexValue(s, k, e) as int) else HexValue(s, k, e) as int)
  }

  /**
   * `parseInt` of a text of two characters, written out case by case;
   * `ParsePairIsParseHex` shows that it agrees with `ParseHex`.
   */
  function ParsePair(x: char, y: char): (r: Option<int>)
    ensures r.Some? ==> -15 <= r.value <= 255
  {
    if IsWhite(x) || x == '+' then (if IsHexDigit(y) then Some(HexDigitValue(y)) else None)
    else if x == '-' then (if IsHexDigit(y) then Some(-(HexDigitValue(y) as int)) else None)
    else if !IsHexDigit(x) || (x == '0' && (y == 'x' || y == 'X')) then None
    else if IsHexDigit(y) then Some(16 * HexDigitValue(x) + HexDigitValue(y))
    else Some(HexDigitValue(x))
  }

  /** `${n}` for the result of `parseInt`. */
  function ChannelText(o: Option<int>): string
  {
    if o.Some? then IntToString(o.value) else "NaN"
  }

  /** `rgba(${r}, ${g}, ${b}, ${alpha})`. */
  function RgbaText(r: Option<int>, g: Option<int>, b: Option<int>, alpha: real): string
  {
    "rgba(" + ChannelText(r) + ", " + ChannelText(g) + ", " + ChannelText(b) + ", " + NumToString(alpha) + ")"
  }

  /** The fallback `rgba(0,0,0,${alpha})`, written without spaces. */
  function Black(alpha: real): string
  {
    "rgba(0,0,0," + NumToString(alpha) + ")"
  }

  /** The code `hexToRgba` decodes: the trimmed text without one leading `#`. */
  function Code(hex: string): string
  {
    var h := Trim(hex);
    if |h| > 0 && h[0] == '#' then h[1..] else h
  }

  /** The three channels `hexToRgba` reads, each a `parseInt` result (None for NaN). */
  datatype Rgb = Rgb(r: Option<int>, g: Option<int>, b: Option<int>)

  /**
   * The channels of a code of three characters (each digit doubled) or of six
   * or more (the first three pairs); None when `hexToRgba` falls back to black.
   */
  function Decode(h: string): (c: Option<Rgb>)
    ensures c.Some? <==> |h| == 3 || |h| >= 6
  {
    if |h| == 3 then Some(Rgb(ParsePair(h[0], h[0]), ParsePair(h[1], h[1]), ParsePair(h[2], h[2])))
    // `h.slice(0, 2)`, `h.slice(2, 4)` and `h.slice(4, 6)`
    else if |h| >= 6 then Some(Rgb(ParsePair(h[0], h[1]), ParsePair(h[2], h[3]), ParsePair(h[4], h[5])))
    else None
  }

  /** The channels `hexToRgba` reads from its argument; None for the black fallback. */
  function Channels(hex: string): (c: Option<Rgb>)
    ensures hex == [] ==> c == None
    ensures c.Some? <==> hex != [] && (|Code(hex)| == 3 || |Code(hex)| >= 6)
  {
    if hex == [] then None else Decode(Code(hex))
  }

  function HexToRgba(hex: string, alpha: real): (r: string)
    ensures Channels(hex).None? ==> r == Black(alpha)
    ensures Channels(hex).Some? ==>
      r == RgbaText(Channels(hex).value.r, Channels(hex).value.g, Channels(hex).value.b, alpha)
  {
    match Channels(hex)
    case None => Black(alpha)
    case Some(c) => RgbaText(c.r, c.g, c.b, alpha)
  }

  // ---------------------------------------------------------------------
  // Decoding hexadecimal pairs
  // ---------------------------------------------------------------------

  /** The case analysis of `ParsePair` is `parseInt(_, 16)` on every text of two characters. */
  lemma ParsePairIsParseHex(x: char, y: char)
    ensures ParsePair(x, y) == ParseHex([x, y])
  {
    var s := [x, y];
    if IsWhite(x) {
      assert SkipWhite(s, 0) == SkipWhite(s, 1);
      if IsWhite(y) {
        assert SkipWhite(s, 1) == 2;
      } else {
        assert SkipWhite(s, 1) == 1;
        if IsHexDigit(y) {
          assert HexSpan(s, 1) == 2;
          assert HexValue(s, 1, 2) == HexDigitValue(y);
        }
      }
    } else if x == '-' || x == '+' {
      assert SkipWhite(s, 0) == 0;
      if IsHexDigit(y) {
        assert HexSpan(s, 1) == 2;
        assert HexValue(s, 1, 2) == HexDigitValue(y);
      }
    } else {
      assert SkipWhite(s, 0) == 0;
      if IsHexDigit(x) && !(x == '0' && (y == 'x' || y == 'X')) {
        if IsHexDigit(y) {
          assert HexSpan(s, 0) == 2;
          assert HexValue(s, 0, 2) == 16 * HexDigitValue(x) + HexDigitValue(y);
        } else {
          assert HexSpan(s, 0) == 1;
          assert HexValue(s, 0, 1) == HexDigitValue(x);
        }
      }
    }
  }

  /** `parseInt(h.slice(k, k + 2), 16)` is the case analysis of `ParsePair`. */
  lemma ParseHexSlice(h: string, k: nat)
    requires k + 2 <= |h|
    ensures ParseHex(h[k..k + 2]) == ParsePair(h[k], h[k + 1])
  {
    assert h[k..k + 2] == [h[k], h[k + 1]];
    ParsePairIsParseHex(h[k], h[k + 1]);
  }

  /** A code of six or more characters: `parseInt(_, 16)` of its first three slices of two. */
  lemma DecodeLong(h: string)
    requires |h| >= 6
    ensures Decode(h) == Some(Rgb(ParseHex(h[0..2]), ParseHex(h[2..4]), ParseHex(h[4..6])))
  {
    assert Decode(h) == Some(Rgb(ParsePair(h[0], h[1]), ParsePair(h[2], h[3]), ParsePair(h[4], h[5])));
    ParseHexSlice(h, 0);
    ParseHexSlice(h, 2);
    ParseHexSlice(h, 4);
  }

  /** A code of three characters: `parseInt(_, 16)` of each character written twice. */
  lemma DecodeShort(h: string)
    requires |h| == 3
    ensures Decode(h) == Some(Rgb(ParseHex([h[0], h[0]]), ParseHex([h[1], h[1]]), ParseHex([h[2], h[2]])))
  {
    ParsePairIsParseHex(h[0], h[0]);
    ParsePairIsParseHex(h[1], h[1]);
    ParsePairIsParseHex(h[2], h[2]);
  }

  /** A leading `#` makes no difference to a code of hexadecimal digits. */
  lemma ChannelsHash(h: string)
    requires h != [] && IsHexDigit(h[0]) && NoWhite(h)
    ensures Channels("#" + h) == Channels(h)
  {
    CodeOfHex(h);
  }

  predicate SixDigits(a: char, b: char, c: char, d: char, e: char, f: char)
  {
    IsHexDigit(a) && IsHexDigit(b) && IsHexDigit(c) && IsHexDigit(d) && IsHexDigit(e) && IsHexDigit(f)
  }

  /** The byte written by two hexadecimal digits. */
  function Byte(a: char, b: char): int
    requires IsHexDigit(a) && IsHexDigit(b)
  {
    16 * HexDigitValue(a) + HexDigitValue(b)
  }

  /** Two hexadecimal digits are read as one byte. */
  lemma ParsePairDigits(a: char, b: char)
    requires IsHexDigit(a) && IsHexDigit(b)
    ensures ParsePair(a, b) == Some(Byte(a, b))
  {
  }

  /** A digit written twice is read as 17 times its value. */
  lemma ParsePairDoubled(a: char)
    requires IsHexDigit(a)
    ensures ParsePair(a, a) == Some(17 * HexDigitValue(a))
  {
  }

  /** A code whose first six characters are digits decodes pair by pair. */
  lemma DecodeSix(a: char, b: char, c: char, d: char, e: char, f: char, tail: string)
    requires SixDigits(a, b, c, d, e, f)
    ensures Decode([a, b, c, d, e, f] + tail) == Some(Rgb(Some(Byte(a, b)), Some(Byte(c, d)), Some(Byte(e, f))))
  {
    ParsePairDigits(a, b);
    ParsePairDigits(c, d);
    ParsePairDigits(e, f);
  }

  /** Six digits followed by a tail without blanks are their own code, with or without a `#`. */
  lemma CodeOfSix(a: char, b: char, c: char, d: char, e: char, f: char, tail: string)
    requires SixDigits(a, b, c, d, e, f) && NoWhite(tail)
    ensures Code([a, b, c, d, e, f] + tail) == [a, b, c, d, e, f] + tail
    ensures Code("#" + ([a, b, c, d, e, f] + tail)) == [a, b, c, d, e, f] + tail
  {
    var s := [a, b, c, d, e, f] + tail;
    assert NoWhite(s) by {
      forall i | 0 <= i < |s| ensures !IsWhite(s[i])
      {
        if i >= 6 {
          assert s[i] == tail[i - 6];
        }
      }
    }
    CodeOfHex(s);
  }

  /**
   * `RRGGBB` followed by any tail without blanks, with or without its `#`,
   * gives the three bytes of its first six digits; the tail is ignored.
   */
  lemma ChannelsSix(a: char, b: char, c: char, d: char, e: char, f: char, tail: string)
    requires SixDigits(a, b, c, d, e, f) && NoWhite(tail)
    ensures Channels([a, b, c, d, e, f] + tail) == Some(Rgb(Some(Byte(a, b)), Some(Byte(c, d)), Some(Byte(e, f))))
    ensures Channels("#" + ([a, b, c, d, e, f] + tail)) == Channels([a, b, c, d, e, f] + tail)
  {
    CodeOfSix(a, b, c, d, e, f, tail);
    DecodeSix(a, b, c, d, e, f, tail);
  }

  /** A code of three digits doubles each of them. */
  lemma DecodeThree(a: char, b: char, c: char)
    requires IsHexDigit(a) && IsHexDigit(b) && IsHexDigit(c)
    ensures Decode([a, b, c]) == Some(Rgb(Some(17 * HexDigitValue(a)), Some(17 * HexDigitValue(b)), Some(17 * HexDigitValue(c))))
  {
    ParsePairDoubled(a);
    ParsePairDoubled(b);
    ParsePairDoubled(c);
  }

  /** `RGB`, with or without its `#`: every channel is its digit doubled, that is 17 times the digit. */
  lemma ChannelsThree(a: char, b: char, c: char)
    requires IsHexDigit(a) && IsHexDigit(b) && IsHexDigit(c)
    ensures Channels([a, b, c]) == Some(Rgb(Some(17 * HexDigitValue(a)), Some(17 * HexDigitValue(b)), Some(17 * HexDigitValue(c))))
    ensures Channels("#" + [a, b, c]) == Channels([a, b, c])
  {
    var s := [a, b, c];
    assert NoWhite(s) by {
      forall i | 0 <= i < |s| ensures !IsWhite(s[i]) {}
    }
    CodeOfHex(s);
    DecodeThree(a, b, c);
  }

  /** A code of hexadecimal digits survives trimming and the removal of its `#`. */
  lemma CodeOfHex(h: string)
    requires h != [] && IsHexDigit(h[0]) && NoWhite(h)
    ensures Code(h) == h && Code("#" + h) == h
  {
    TrimNoWhite(h);
    CodeOfHashed(h);
  }

  lemma CodeOfHashed(h: string)
    requires NoWhite(h)
    ensures Code("#" + h) == h
  {
    var s := "#" + h;
    assert s[0] == '#' && s[1..] == h;
    assert NoWhite(s) by {
      forall i | 0 <= i < |s| ensures !IsWhite(s[i])
      {
        if i > 0 {
          assert s[i] == h[i - 1];
        }
      }
    }
    TrimNoWhite(s);
  }

  // ---------------------------------------------------------------------
  // The inverse: writing a colour as #rrggbb
  // ---------------------------------------------------------------------

  function HexChar(d: nat): (c: char)
    requires d < 16
    ensures IsHexDigit(c) && HexDigitValue(c) == d
  {
    if d < 10 then ('0' as int + d) as char else ('a' as int + d - 10) as char
  }

  /** Two lower-case hexadecimal digits of a byte. */
  function HexByte(n: nat): (s: string)
    requires n < 256
    ensures |s| == 2 && IsHexDigit(s[0]) && IsHexDigit(s[1])
    ensures Byte(s[0], s[1]) == n
  {
    [HexChar(n / 16), HexChar(n % 16)]
  }

  /** `#rrggbb` for three bytes. */
  function ToHex(r: nat, g: nat, b: nat): string
    requires r < 256 && g < 256 && b < 256
  {
    "#" + HexByte(r) + HexByte(g) + HexByte(b)
  }

  /** The six digits of `ToHex`, one by one. */
  lemma ToHexDigits(r: nat, g: nat, b: nat)
    requires r < 256 && g < 256 && b < 256
    ensures ToHex(r, g, b) ==
      "#" + ([HexByte(r)[0], HexByte(r)[1], HexByte(g)[0], HexByte(g)[1], HexByte(b)[0], HexByte(b)[1]] + [])
  {
  }

  lemma ChannelsOfBytes(x: string, y: string, z: string, r: nat, g: nat, b: nat)
    requires |x| == 2 && |y| == 2 && |z| == 2 && SixDigits(x[0], x[1], y[0], y[1], z[0], z[1])
    requires Byte(x[0], x[1]) == r && Byte(y[0], y[1]) == g && Byte(z[0], z[1]) == b
    ensures Channels("#" + ([x[0], x[1], y[0], y[1], z[0], z[1]] + [])) == Some(Rgb(Some(r), Some(g), Some(b)))
  {
    ChannelsSix(x[0], x[1], y[0], y[1], z[0], z[1], []);
  }

  /** Decoding a colour written as `#rrggbb` gives back its three bytes. */
  lemma ChannelsOfToHex(r: nat, g: nat, b: nat)
    requires r < 256 && g < 256 && b < 256
    ensures Channels(ToHex(r, g, b)) == Some(Rgb(Some(r), Some(g), Some(b)))
  {
    ToHexDigits(r, g, b);
    ChannelsOfBytes(HexByte(r), HexByte(g), HexByte(b), r, g, b);
  }

  /** The text `hexToRgba` writes for a colour given as `#rrggbb`. */
  lemma HexToRgbaOfToHex(r: nat, g: nat, b: nat, alpha: real)
    requires r < 256 && g < 256 && b < 256
    ensures HexToRgba(ToHex(r, g, b), alpha) == RgbaText(Some(r), Some(g), Some(b), alpha)
  {
    ChannelsOfToHex(r, g, b);
  }

  // ---------------------------------------------------------------------
  // resolveNodeColor
  // ---------------------------------------------------------------------

  /** The colour a node is drawn in: the semantic colour when locked, else a truthy custom `data.color`. */
  function ResolveNodeColor(semanticColor: string, data: map<string, Value>, semanticLocked: bool): (r: Value)
    ensures r == Str(semanticColor) || r == Get(data, "color")
    ensures r == Get(data, "color") && r != Str(semanticColor) <==> !semanticLocked && Truthy(Get(data, "color")) && Get(data, "color") != Str(semanticColor)
  {
    if semanticLocked then Str(semanticColor) else Or(Get(data, "color"), Str(semanticColor))
  }

  /** A node is never drawn without a colour when its semantic colour is set. */
  lemma ResolvedColorTruthy(semanticColor: string, data: map<string, Value>, semanticLocked: bool)
    requires semanticColor != ""
    ensures Truthy(ResolveNodeColor(semanticColor, data, semanticLocked))
  {
  }

  /** While locked, the custom colour has no effect. */
  lemma LockedIgnoresData(semanticColor: string, a: map<string, Value>, b: map<string, Value>)
    ensures ResolveNodeColor(semanticColor, a, true) == ResolveNodeColor(semanticColor, b, true)
  {
  }
}
