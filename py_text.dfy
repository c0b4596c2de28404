/**
 * The few Python text and integer primitives the two applications lean on:
 * str.strip(), str.lower(), int(s, base), str(n) and format(n, '02x').
 * Characters are modelled as ASCII: non-ASCII whitespace, non-ASCII digits and
 * case mappings outside A-Z are not part of this model.
 */
module PyText {
  import opened Wrappers

  /** str.isspace() on ASCII: what str.strip() removes. Space, \t \n \v \f \r (9-13) and the separators 28-31. */
  predicate IsSpace(c: char) {
    c == ' ' || (9 <= c as int <= 13) || (28 <= c as int <= 31)
  }

  /**
   * What int() skips around its digits: space and \t \n \v \f \r only. The separators
   * 28-31 count as whitespace for str.strip() but not for int().
   */
  predicate IsIntSpace(c: char) {
    c == ' ' || (9 <= c as int <= 13)
  }

  /** Every character of `s` is one that `ws` trims. */
  predicate AllTrimmed(s: string, ws: char -> bool) {
    forall i :: 0 <= i < |s| ==> ws(s[i])
  }

  predicate IsBlank(s: string) {
    AllTrimmed(s, IsSpace)
  }

  function TrimLeading(s: string, ws: char -> bool): (r: string)
    ensures |r| <= |s|
    ensures r == [] || !ws(r[0])
  {
    if s != [] && ws(s[0]) then TrimLeading(s[1..], ws) else s
  }

  function TrimTrailing(s: string, ws: char -> bool): (r: string)
    ensures |r| <= |s|
    ensures r == [] || !ws(r[|r| - 1])
  {
    if s != [] && ws(s[|s| - 1]) then TrimTrailing(s[..|s| - 1], ws) else s
  }

  /** `s` without the characters `ws` trims at either end (TrimSplits says so in full). */
  function Trim(s: string, ws: char -> bool): (r: string)
    ensures |r| <= |s|
    ensures r == [] || (!ws(r[0]) && !ws(r[|r| - 1]))
  {
    var t := TrimLeading(s, ws);
    TrimTrailingSplits(t, ws);
    TrimTrailing(t, ws)
  }

  /** TrimLeading removes exactly the trimmed prefix. */
  lemma {:induction false} TrimLeadingSplits(s: string, ws: char -> bool)
    ensures var r := TrimLeading(s, ws); r == s[|s| - |r|..] && AllTrimmed(s[..|s| - |r|], ws)
  {
    if s != [] && ws(s[0]) {
      TrimLeadingSplits(s[1..], ws);
      var r := TrimLeading(s, ws);
      assert s[1..][|s| - 1 - |r|..] == s[|s| - |r|..];
      assert forall i :: 1 <= i < |s| - |r| ==> s[i] == s[1..][..|s| - 1 - |r|][i - 1];
    }
  }

  /** TrimTrailing removes exactly the trimmed suffix. */
  lemma {:induction false} TrimTrailingSplits(s: string, ws: char -> bool)
    ensures var r := TrimTrailing(s, ws); r == s[..|r|] && AllTrimmed(s[|r|..], ws)
  {
    if s != [] && ws(s[|s| - 1]) {
      var init := s[..|s| - 1];
      TrimTrailingSplits(init, ws);
      var r := TrimTrailing(s, ws);
      assert init[..|r|] == s[..|r|];
      assert forall i :: |r| <= i < |s| - 1 ==> s[i] == init[|r|..][i - |r|];
    }
  }

  /** Trim only removes characters at the two ends: `s` is trimmed characters, the result, trimmed characters. */
  lemma TrimSplits(s: string, ws: char -> bool)
    ensures var r := Trim(s, ws); var i := |s| - |TrimLeading(s, ws)|;
      i + |r| <= |s| && s[i..i + |r|] == r && AllTrimmed(s[..i], ws) && AllTrimmed(s[i + |r|..], ws)
  {
    var t := TrimLeading(s, ws);
    var r := TrimTrailing(t, ws);
    TrimLeadingSplits(s, ws);
    TrimTrailingSplits(t, ws);
    assert s[|s| - |t| + |r|..] == t[|r|..];
  }

  /** Trim leaves nothing exactly when `ws` holds throughout. */
  lemma TrimEmptyIff(s: string, ws: char -> bool)
    ensures Trim(s, ws) == [] <==> AllTrimmed(s, ws)
  {
    TrimSplits(s, ws);
    var r := Trim(s, ws);
    var i := |s| - |TrimLeading(s, ws)|;
    if r == [] {
      assert TrimLeading(s, ws) == [] by { TrimTrailingSplits(TrimLeading(s, ws), ws); }
      forall j | 0 <= j < |s| ensures ws(s[j]) {
        assert s[j] == s[..i][j];
      }
    } else {
      assert s[i] == r[0];
    }
  }

  /** A string whose two ends are not trimmed is left as it is. */
  lemma TrimEnds(s: string, ws: char -> bool)
    requires s != [] && !ws(s[0]) && !ws(s[|s| - 1])
    ensures Trim(s, ws) == s
  {
    assert TrimLeading(s, ws) == s;
    assert TrimTrailing(s, ws) == s;
  }

  /** A string with nothing to trim at all is left as it is. */
  lemma TrimNothing(s: string, ws: char -> bool)
    requires forall i :: 0 <= i < |s| ==> !ws(s[i])
    ensures Trim(s, ws) == s
  {
    assert TrimLeading(s, ws) == s;
  }

  /** str.strip(). */
  function Strip(s: string): (r: string)
    ensures |r| <= |s|
    ensures r == [] || (!IsSpace(r[0]) && !IsSpace(r[|r| - 1]))
  {
    Trim(s, IsSpace)
  }

  /** Strip removes whitespace at the two ends only, and leaves nothing exactly of a blank string. */
  lemma StripSplits(s: string)
    ensures var r := Strip(s); var i := |s| - |TrimLeading(s, IsSpace)|;
      i + |r| <= |s| && s[i..i + |r|] == r && IsBlank(s[..i]) && IsBlank(s[i + |r|..])
    ensures Strip(s) == [] <==> IsBlank(s)
  {
    TrimSplits(s, IsSpace);
    TrimEmptyIff(s, IsSpace);
  }

  lemma StripNoSpace(s: string)
    requires forall i :: 0 <= i < |s| ==> !IsSpace(s[i])
    ensures Strip(s) == s
  {
    TrimNothing(s, IsSpace);
  }

  /** What int() keeps of its argument once the whitespace it skips is gone. */
  function IntStrip(s: string): (r: string)
    ensures |r| <= |s|
    ensures r == [] || (!IsIntSpace(r[0]) && !IsIntSpace(r[|r| - 1]))
  {
    Trim(s, IsIntSpace)
  }
  /** What int() keeps of `s` ends in a character str.strip() would keep, so `s` is not blank. */
  lemma IntStripNotBlank(s: string)
    requires IntStrip(s) != [] && !IsSpace(IntStrip(s)[|IntStrip(s)| - 1])
    ensures !IsBlank(s)
  {
    TrimSplits(s, IsIntSpace);
    var t := IntStrip(s);
    var i := |s| - |TrimLeading(s, IsIntSpace)|;
    assert s[i + |t| - 1] == t[|t| - 1];
  }


  function LowerChar(c: char): (d: char)
    ensures 'A' <= c <= 'Z' ==> 'a' <= d <= 'z' && d as int - c as int == 32
    ensures !('A' <= c <= 'Z') ==> d == c
  {
    if 'A' <= c <= 'Z' then (c as int + 32) as char else c
  }

  /** str.lower() on ASCII letters. */
  function Lower(s: string): (r: string)
    ensures |r| == |s|
    ensures forall i :: 0 <= i < |s| ==> r[i] == LowerChar(s[i])
  {
    seq(|s|, i requires 0 <= i < |s| => LowerChar(s[i]))
  }

  /**
   * The value int() gives a digit character: 0-9, then a-z or A-Z for 10-35;
   * 36 for a character that is no digit in any base.
   */
  function DigitValue(c: char): (v: nat)
    ensures v <= 36
    ensures '0' <= c <= '9' <==> v < 10
    ensures v < 36 <==> ('0' <= c <= '9' || 'a' <= c <= 'z' || 'A' <= c <= 'Z')
  {
    if '0' <= c <= '9' then c as int - '0' as int
    else if 'a' <= c <= 'z' then c as int - 'a' as int + 10
    else if 'A' <= c <= 'Z' then c as int - 'A' as int + 10
    else 36
  }

  predicate IsDigit(c: char, base: nat) {
    DigitValue(c) < base
  }

  predicate AllDigits(ds: string, base: nat) {
    forall i :: 0 <= i < |ds| ==> IsDigit(ds[i], base)
  }

  /** The number a digit string denotes, most significant digit first. */
  function DigitsValue(ds: string, base: nat): nat
    requires AllDigits(ds, base)
  {
    if ds == [] then 0
    else DigitsValue(ds[..|ds| - 1], base) * base + DigitValue(ds[|ds| - 1])
  }

  predicate IsLowerHex(c: char) {
    '0' <= c <= '9' || 'a' <= c <= 'f'
  }

  /** The lower-case digit Python prints for d. */
  function DigitChar(d: nat): (c: char)
    requires d < 16
    ensures DigitValue(c) == d
    ensures IsLowerHex(c)
    ensures c != '-' && c != '+' && !IsSpace(c)
  {
    "0123456789abcdef"[d]
  }

  lemma DivSmaller(n: nat, base: nat)
    requires 2 <= base <= n
    ensures 1 <= n / base < n
    ensures n == (n / base) * base + n % base
  {
  }

  /** The shortest digit string of n in the given base, lower-case. */
  function ToDigits(n: nat, base: nat): (ds: string)
    requires 2 <= base <= 16
    ensures |ds| >= 1 && AllDigits(ds, base)
    ensures |ds| > 1 ==> ds[0] != '0'
    ensures forall i :: 0 <= i < |ds| ==> IsLowerHex(ds[i])
    decreases n
  {
    if n < base then [DigitChar(n)]
    else
      DivSmaller(n, base);
      ToDigits(n / base, base) + [DigitChar(n % base)]
  }

  /** Reading the digits ToDigits prints gives n back. */
  lemma {:induction false} ToDigitsValue(n: nat, base: nat)
    requires 2 <= base <= 16
    ensures DigitsValue(ToDigits(n, base), base) == n
    decreases n
  {
    if n >= base {
      var q, r := n / base, n % base;
      var hi := ToDigits(q, base);
      var ds := ToDigits(n, base);
      assert ds == hi + [DigitChar(r)];
      DivSmaller(n, base);
      ToDigitsValue(q, base);
      assert ds[..|ds| - 1] == hi;
      assert DigitsValue(ds, base) == DigitsValue(hi, base) * base + r;
    }
  }

  /**
   * CPython's default int_max_str_digits: int() refuses a string of more digits than this
   * in a base that is not a power of two, and str() refuses to print that many.
   */
  const MaxStrDigits: nat := 4300

  /** The digit limit applies to every base except the powers of two. */
  predicate DigitLimitApplies(base: nat) {
    base != 2 && base != 4 && base != 8 && base != 16 && base != 32
  }

  /**
   * The grammar int(s, base) accepts here: whitespace, an optional sign, one or more digits,
   * whitespace; too many digits in a limited base raise ValueError like a malformed string.
   * A string that int() accepts is never blank for str.strip() either.
   */
  function ParseInt(s: string, base: nat): (r: Option<int>)
    requires 2 <= base <= 36
    ensures r.Some? ==> !IsBlank(s)
    ensures r.Some? && DigitLimitApplies(base) ==> |IntStrip(s)| <= MaxStrDigits + 1
  {
    var t := IntStrip(s);
    var ds := if t != [] && (t[0] == '+' || t[0] == '-') then t[1..] else t;
    if ds == [] || !AllDigits(ds, base) || (DigitLimitApplies(base) && |ds| > MaxStrDigits) then None
    else
      var v: int := DigitsValue(ds, base);
      assert t[|t| - 1] == ds[|ds| - 1];
      assert IsDigit(ds[|ds| - 1], base);
      IntStripNotBlank(s);
      Some(if t[0] == '-' then -v else v)
  }

  /** str(n): an optional minus sign and the decimal digits of |n|. */
  function FormatInt(n: int): (s: string)
    ensures |s| >= 1 && (s[0] == '-' <==> n < 0)
    ensures forall i :: 0 < i < |s| ==> IsDigit(s[i], 10)
    ensures n >= 0 ==> IsDigit(s[0], 10)
  {
    if n < 0 then "-" + ToDigits(-n, 10) else ToDigits(n, 10)
  }

  /** format(n, '02x'): lower-case hexadecimal, zero-padded after the sign to width 2. */
  function FormatHex02(n: int): (s: string)
    ensures |s| >= 2
    ensures s[0] != '#' && s[0] != '+' && !IsSpace(s[0])
  {
    if n < 0 then "-" + ToDigits(-n, 16)
    else if n < 16 then "0" + ToDigits(n, 16)
    else ToDigits(n, 16)
  }

  /** One hexadecimal digit for 0..15, two for 16..255, more above. */
  lemma HexDigitsLength(n: nat)
    ensures |ToDigits(n, 16)| == 1 <==> n < 16
    ensures |ToDigits(n, 16)| == 2 <==> 16 <= n < 256
  {
    if n >= 16 {
      var q := n / 16;
      assert |ToDigits(n, 16)| == |ToDigits(q, 16)| + 1;
      assert |ToDigits(q, 16)| == 1 <==> q < 16;
      assert q < 16 <==> n < 256;
    }
  }

  /** A digit string of length at most two is worth at most 255 in base 16, one digit at most 15. */
  lemma ShortHexValue(ds: string)
    requires |ds| <= 2 && AllDigits(ds, 16)
    ensures DigitsValue(ds, 16) <= (if |ds| <= 1 then 15 else 255)
  {
    if ds != [] {
      var init := ds[..|ds| - 1];
      assert |init| <= 1;
      if init != [] {
        assert init[..0] == [];
        assert DigitsValue(init, 16) == DigitValue(init[0]);
      }
    }
  }

  /** An unsigned digit string with no surrounding space parses to its value. */
  lemma ParseDigits(ds: string, base: nat)
    requires 2 <= base <= 36 && ds != [] && AllDigits(ds, base)
    requires DigitLimitApplies(base) ==> |ds| <= MaxStrDigits
    ensures ParseInt(ds, base) == Some(DigitsValue(ds, base))
  {
    assert forall i :: 0 <= i < |ds| ==> !IsIntSpace(ds[i]) by {
      forall i | 0 <= i < |ds| ensures !IsIntSpace(ds[i]) {
        assert IsDigit(ds[i], base);
      }
    }
    TrimNothing(ds, IsIntSpace);
    assert !IsDigit('+', base) && !IsDigit('-', base);
    assert ds[0] != '+' && ds[0] != '-' by { assert IsDigit(ds[0], base); }
  }

  /** A minus sign followed by digits parses to the negated value. */
  lemma ParseNegated(ds: string, base: nat)
    requires 2 <= base <= 36 && ds != [] && AllDigits(ds, base)
    requires DigitLimitApplies(base) ==> |ds| <= MaxStrDigits
    ensures ParseInt("-" + ds, base) == Some(-(DigitsValue(ds, base) as int))
  {
    var s := "-" + ds;
    assert s[1..] == ds;
    assert IsDigit(s[|s| - 1], base) by { assert s[|s| - 1] == ds[|ds| - 1]; }
    TrimEnds(s, IsIntSpace);
    assert IntStrip(s) == s && s[0] == '-';
  }

  /** int() reads back what str() prints, for every integer str() agrees to print. */
  lemma ParseFormatInt(n: int)
    requires |ToDigits(if n < 0 then -n else n, 10)| <= MaxStrDigits
    ensures ParseInt(FormatInt(n), 10) == Some(n)
  {
    var m: nat := if n < 0 then -n else n;
    var ds := ToDigits(m, 10);
    ToDigitsValue(m, 10);
    if n < 0 {
      ParseNegated(ds, 10);
    } else {
      ParseDigits(ds, 10);
    }
  }

  /**
   * int() does not skip the separators 28-31, although str.strip() would remove them:
   * a string that starts with one is refused in every base.
   */
  lemma SeparatorRefused(s: string, base: nat)
    requires 2 <= base <= 36 && s != [] && 28 <= s[0] as int <= 31
    ensures IsSpace(s[0]) && ParseInt(s, base) == None
  {
    assert TrimLeading(s, IsIntSpace) == s;
    TrimTrailingSplits(s, IsIntSpace);
    var t := IntStrip(s);
    if t != [] {
      assert t[0] == s[0];
      assert !IsDigit(s[0], base);
    }
  }

  /** A decimal string of more than 4300 digits is refused, whatever its value. */
  lemma TooManyDigits(ds: string)
    requires AllDigits(ds, 10) && |ds| > MaxStrDigits
    ensures ParseInt(ds, 10) == None
  {
    assert forall i :: 0 <= i < |ds| ==> !IsIntSpace(ds[i]) by {
      forall i | 0 <= i < |ds| ensures !IsIntSpace(ds[i]) {
        assert IsDigit(ds[i], 10);
      }
    }
    TrimNothing(ds, IsIntSpace);
    assert ds[0] != '+' && ds[0] != '-' by { assert IsDigit(ds[0], 10); }
  }

  /** format(n, '02x') is exactly two characters wide precisely for -15..255. */
  lemma FormatHex02Width(n: int)
    ensures |FormatHex02(n)| == 2 <==> -15 <= n <= 255
  {
    HexDigitsLength(if n < 0 then -n else n);
  }

  /** A zero-padded single hexadecimal digit parses to its value. */
  lemma ParsePaddedHexDigit(n: nat)
    requires n < 16
    ensures ParseInt(['0', DigitChar(n)], 16) == Some(n)
  {
    var s := ['0', DigitChar(n)];
    assert s[..1] == "0" && "0"[..0] == [];
    ParseDigits(s, 16);
  }

  /** int(format(n, '02x'), 16) == n on the two-character range. */
  lemma ParseFormatHex02(n: int)
    requires -15 <= n <= 255
    ensures ParseInt(FormatHex02(n), 16) == Some(n)
  {
    if n < 0 {
      var ds := ToDigits(-n, 16);
      assert FormatHex02(n) == "-" + ds;
      ToDigitsValue(-n, 16);
      assert DigitsValue(ds, 16) == -n;
      ParseNegated(ds, 16);
    } else if n < 16 {
      assert FormatHex02(n) == ['0', DigitChar(n)];
      ParsePaddedHexDigit(n);
    } else {
      var ds := ToDigits(n, 16);
      assert FormatHex02(n) == ds;
      ToDigitsValue(n, 16);
      assert DigitsValue(ds, 16) == n;
      ParseDigits(ds, 16);
    }
  }

  /** int(t, 16) of a slice of at most two characters lies in -15..255. */
  lemma ShortHexBounds(t: string)
    requires |t| <= 2 && ParseInt(t, 16).Some?
    ensures -15 <= ParseInt(t, 16).value <= 255
  {
    var u := IntStrip(t);
    if u[0] == '+' || u[0] == '-' {
      ShortHexValue(u[1..]);
    } else {
      ShortHexValue(u);
    }
  }
}
