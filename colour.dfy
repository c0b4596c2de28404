/**
 * The colour codec of SidebarMenuItem: hex_to_rgb reads "#rrggbb" into three
 * channels and rgb_to_hex prints them back.
 */
module Colour {
  import opened Wrappers
  import opened PyText

  datatype Rgb = Rgb(r: int, g: int, b: int)

  /** str.lstrip('#'): drops every leading '#'. */
  function LStripHash(s: string): (h: string)
    ensures |h| <= |s|
    ensures h == [] || h[0] != '#'
  {
    if s != [] && s[0] == '#' then LStripHash(s[1..]) else s
  }

  /** lstrip('#') removes exactly the run of '#' that `s` starts with. */
  lemma {:induction false} LStripHashSplits(s: string)
    ensures var h := LStripHash(s); var k := |s| - |h|;
      h == s[k..] && forall i :: 0 <= i < k ==> s[i] == '#'
  {
    if s != [] && s[0] == '#' {
      LStripHashSplits(s[1..]);
      var k := |s| - |LStripHash(s)|;
      assert s[1..][k - 1..] == s[k..];
      assert forall i :: 1 <= i < k ==> s[i] == s[1..][i - 1];
    }
  }

  /** Python's slice s[i:j] for i <= j: bounds past the end are clamped to the length. */
  function Slice(s: string, i: nat, j: nat): (t: string)
    requires i <= j
    ensures |t| == (if j <= |s| then j - i else if i <= |s| then |s| - i else 0)
    ensures forall k :: 0 <= k < |t| ==> t[k] == s[i + k]
  {
    var hi := if j <= |s| then j else |s|;
    var lo := if i <= hi then i else hi;
    s[lo..hi]
  }

  /**
   * hex_to_rgb: strip the leading '#'s, then read the channels. None stands for the
   * ValueError that int() raises on a slice it cannot read. A sign is read as int() reads
   * it ("-f" gives -15), so every channel lies in -15..255.
   */
  function HexToRgb(color: string): (c: Option<Rgb>)
    ensures c.Some? ==> InChannelRange(c.value)
  {
    ReadChannels(LStripHash(color))
  }

  /** The bounds any channel int(pair, 16) can give: a signed digit or two unsigned digits. */
  predicate InChannelRange(c: Rgb) {
    -15 <= c.r <= 255 && -15 <= c.g <= 255 && -15 <= c.b <= 255
  }

  /** int(pair, 16) of the slices at 0, 2 and 4 of the stripped colour. */
  function ReadChannels(h: string): (c: Option<Rgb>)
    ensures c.Some? ==> InChannelRange(c.value)
  {
    var r := ParseInt(Slice(h, 0, 2), 16);
    var g := ParseInt(Slice(h, 2, 4), 16);
    var b := ParseInt(Slice(h, 4, 6), 16);
    if r.Some? && g.Some? && b.Some? then
      ShortHexBounds(Slice(h, 0, 2));
      ShortHexBounds(Slice(h, 2, 4));
      ShortHexBounds(Slice(h, 4, 6));
      Some(Rgb(r.value, g.value, b.value))
    else None
  }

  /** rgb_to_hex: f'#{r:02x}{g:02x}{b:02x}'; only the first character is a '#'. */
  function RgbToHex(r: int, g: int, b: int): (s: string)
    ensures |s| >= 7 && s[0] == '#' && s[1] != '#'
  {
    "#" + FormatHex02(r) + FormatHex02(g) + FormatHex02(b)
  }

  /** The value of the two hexadecimal digits at offset i. */
  function PairValue(h: string, i: nat): (v: nat)
    requires i + 2 <= |h| && IsDigit(h[i], 16) && IsDigit(h[i + 1], 16)
    ensures v <= 255
  {
    16 * DigitValue(h[i]) + DigitValue(h[i + 1])
  }

  lemma ParsePair(h: string, i: nat)
    requires i + 2 <= |h| && IsDigit(h[i], 16) && IsDigit(h[i + 1], 16)
    ensures ParseInt(Slice(h, i, i + 2), 16) == Some(PairValue(h, i))
  {
    var t := Slice(h, i, i + 2);
    assert t == [h[i], h[i + 1]];
    assert AllDigits(t, 16);
    assert t[..1] == [h[i]] && [h[i]][..0] == [];
    assert DigitsValue(t[..1], 16) == DigitValue(h[i]);
    ParseDigits(t, 16);
  }

  /**
   * On "#rrggbb" with six hexadecimal digits (either case) after the '#'s, hex_to_rgb
   * succeeds and reads the pairs at offsets 0, 2 and 4; each channel is then in 0..255.
   */
  lemma HexToRgbWellFormed(color: string)
    requires var h := LStripHash(color); |h| >= 6 && AllDigits(h[..6], 16)
    ensures var h := LStripHash(color);
      HexToRgb(color) == Some(Rgb(PairValue(h, 0), PairValue(h, 2), PairValue(h, 4)))
    ensures var c := HexToRgb(color).value;
      0 <= c.r <= 255 && 0 <= c.g <= 255 && 0 <= c.b <= 255
  {
    var h := LStripHash(color);
    assert forall k :: 0 <= k < 6 ==> IsDigit(h[k], 16) by {
      forall k | 0 <= k < 6 ensures IsDigit(h[k], 16) { assert h[..6][k] == h[k]; }
    }
    ParsePair(h, 0);
    ParsePair(h, 2);
    ParsePair(h, 4);
  }

  lemma LStripHashAppend(s: string, t: string)
    requires LStripHash(s) != []
    ensures LStripHash(s + t) == LStripHash(s) + t
    decreases |s|
  {
    if s[0] == '#' {
      assert (s + t)[1..] == s[1..] + t;
      LStripHashAppend(s[1..], t);
    }
  }

  /** hex_to_rgb only looks at the three two-character slices after the '#'s. */
  lemma SameSlicesSameColour(h1: string, h2: string)
    requires Slice(h1, 0, 2) == Slice(h2, 0, 2) && Slice(h1, 2, 4) == Slice(h2, 2, 4)
    requires Slice(h1, 4, 6) == Slice(h2, 4, 6)
    ensures ReadChannels(h1) == ReadChannels(h2)
  {
  }

  /** Characters after the sixth (past the '#'s) are never read. */
  lemma HexToRgbIgnoresTail(color: string, tail: string)
    requires |LStripHash(color)| >= 6
    ensures HexToRgb(color + tail) == HexToRgb(color)
  {
    var h := LStripHash(color);
    LStripHashAppend(color, tail);
    var h' := h + tail;
    assert Slice(h', 0, 2) == Slice(h, 0, 2);
    assert Slice(h', 2, 4) == Slice(h, 2, 4);
    assert Slice(h', 4, 6) == Slice(h, 4, 6);
    SameSlicesSameColour(h', h);
  }

  /** Fewer than five characters after the '#'s leave the third slice empty: ValueError. */
  lemma HexToRgbTooShort(color: string)
    requires |LStripHash(color)| <= 4
    ensures HexToRgb(color) == None
  {
    var h := LStripHash(color);
    assert Slice(h, 4, 6) == [];
    assert IntStrip([]) == [];
  }

  /** A separator character (28-31) right after the '#'s is not skipped by int(): ValueError. */
  lemma HexToRgbSeparator(color: string)
    requires LStripHash(color) != [] && 28 <= LStripHash(color)[0] as int <= 31
    ensures HexToRgb(color) == None
  {
    var h := LStripHash(color);
    SeparatorRefused(Slice(h, 0, 2), 16);
  }

  /**
   * For channels in 0..255 rgb_to_hex gives '#' and six lower-case hexadecimal digits,
   * two per channel in r, g, b order.
   */
  lemma RgbToHexShape(r: int, g: int, b: int)
    requires 0 <= r <= 255 && 0 <= g <= 255 && 0 <= b <= 255
    ensures var s := RgbToHex(r, g, b);
      |s| == 7 && s[0] == '#'
      && (forall k :: 1 <= k < 7 ==> IsLowerHex(s[k]))
      && PairValue(s, 1) == r && PairValue(s, 3) == g && PairValue(s, 5) == b
  {
    var s := RgbToHex(r, g, b);
    ChannelShape(r);
    ChannelShape(g);
    ChannelShape(b);
    var pr, pg, pb := FormatHex02(r), FormatHex02(g), FormatHex02(b);
    assert s == ['#', pr[0], pr[1], pg[0], pg[1], pb[0], pb[1]];
  }

  /** format(n, '02x') of 0..255 is two lower-case hexadecimal digits whose value is n. */
  lemma ChannelShape(n: int)
    requires 0 <= n <= 255
    ensures var p := FormatHex02(n);
      |p| == 2 && IsLowerHex(p[0]) && IsLowerHex(p[1])
      && IsDigit(p[0], 16) && IsDigit(p[1], 16) && PairValue(p, 0) == n
  {
    var p := FormatHex02(n);
    FormatHex02Width(n);
    if n < 16 {
      assert p == "0" + ToDigits(n, 16);
    } else {
      assert p == ToDigits(n, 16);
    }
    assert IsDigit(p[0], 16) && IsDigit(p[1], 16);
    assert Slice(p, 0, 2) == p;
    ParsePair(p, 0);
    ParseFormatHex02(n);
  }

  /** hex_to_rgb(rgb_to_hex(r, g, b)) == (r, g, b) whenever every channel prints as two characters. */
  lemma RoundTrip(r: int, g: int, b: int)
    requires -15 <= r <= 255 && -15 <= g <= 255 && -15 <= b <= 255
    ensures HexToRgb(RgbToHex(r, g, b)) == Some(Rgb(r, g, b))
  {
    var pr, pg, pb := FormatHex02(r), FormatHex02(g), FormatHex02(b);
    FormatHex02Width(r);
    FormatHex02Width(g);
    FormatHex02Width(b);
    var s := RgbToHex(r, g, b);
    var h := pr + pg + pb;
    assert s == "#" + h;
    assert h[0] != '#' by { assert h[0] == pr[0]; }
    assert LStripHash(s) == h by { assert s[1..] == h; }
    assert Slice(h, 0, 2) == pr;
    assert Slice(h, 2, 4) == pg;
    assert Slice(h, 4, 6) == pb;
    ParseFormatHex02(r);
    ParseFormatHex02(g);
    ParseFormatHex02(b);
  }

  /** rgb_to_hex is seven characters long exactly when every channel is in -15..255. */
  lemma RgbToHexWidth(r: int, g: int, b: int)
    ensures |RgbToHex(r, g, b)| == 7 <==> (-15 <= r <= 255 && -15 <= g <= 255 && -15 <= b <= 255)
  {
    FormatHex02Width(r);
    FormatHex02Width(g);
    FormatHex02Width(b);
  }
}
