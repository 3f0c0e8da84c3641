/** Decimal and hexadecimal numerals, printed and parsed. */
module Numerals {
  import opened Wrappers

  const I64_MAX: int := 0x7FFF_FFFF_FFFF_FFFF

  predicate Base(b: nat) { b == 10 || b == 16 }

  function DigitChar(d: nat): char
    requires d < 16
  {
    "0123456789abcdef"[d]
  }

  function DigitValue(c: char, base: nat): (r: Option<nat>)
    requires Base(base)
    ensures r.Some? ==> r.value < base
  {
    if '0' <= c <= '9' then Some((c - '0') as nat)
    else if base == 16 && 'a' <= c <= 'f' then Some((c - 'a') as nat + 10)
    else if base == 16 && 'A' <= c <= 'F' then Some((c - 'A') as nat + 10)
    else None
  }

  /** A digit's value is its place in the row of digits, lower or upper case; decimal has the first ten only. */
  lemma DigitIs(c: char, d: nat)
    requires d < 16
    ensures DigitValue(c, 16) == Some(d) <==> c == "0123456789abcdef"[d] || c == "0123456789ABCDEF"[d]
    ensures DigitValue(c, 10) == Some(d) <==> d < 10 && c == "0123456789"[d]
  {
    if d < 10 {
      assert "0123456789abcdef"[d] == "0123456789ABCDEF"[d] == "0123456789"[d] == ('0' as int + d) as char;
    } else {
      assert "0123456789abcdef"[d] == ('a' as int + d - 10) as char;
      assert "0123456789ABCDEF"[d] == ('A' as int + d - 10) as char;
    }
  }

  function Spell(n: nat, base: nat): (s: string)
    requires Base(base)
    ensures s != ""
  {
    if n < base then [DigitChar(n)] else Spell(n / base, base) + [DigitChar(n % base)]
  }

  /** The number a string of digits denotes. */
  function Value(s: string, base: nat): Option<nat>
    requires Base(base)
  {
    if s == "" then Some(0)
    else
      var init, last := Value(s[..|s| - 1], base), DigitValue(s[|s| - 1], base);
      if init.None? || last.None? then None else Some(init.value * base + last.value)
  }

  lemma DigitRoundTrip(d: nat, base: nat)
    requires Base(base) && d < base
    ensures DigitValue(DigitChar(d), base) == Some(d)
  {}

  lemma QuotientAndRemainder(n: nat, base: nat)
    requires Base(base)
    ensures n / base * base + n % base == n && n % base < base
  {
    if base == 10 {
      assert n / 10 * 10 + n % 10 == n;
    } else {
      assert n / 16 * 16 + n % 16 == n;
    }
  }

  lemma ValueSnoc(s: string, d: nat, base: nat, n: nat)
    requires Base(base) && d < base && Value(s, base) == Some(n)
    ensures Value(s + [DigitChar(d)], base) == Some(n * base + d)
  {
    var t := s + [DigitChar(d)];
    assert t[..|t| - 1] == s;
    DigitRoundTrip(d, base);
    hide DigitChar, DigitValue;
  }

  lemma {:induction false} SpellRoundTrip(n: nat, base: nat)
    requires Base(base)
    ensures Value(Spell(n, base), base) == Some(n)
  {
    hide DigitChar, DigitValue, Value;
    if n < base {
      assert Value("", base) == Some(0) by { ValueNone(base); }
      ValueSnoc("", n, base, 0);
      assert "" + [DigitChar(n)] == [DigitChar(n)];
    } else {
      QuotientAndRemainder(n, base);
      SmallerQuotient(n, base);
      SpellRoundTrip(n / base, base);
      ValueSnoc(Spell(n / base, base), n % base, base, n / base);
    }
  }

  lemma ValueNone(base: nat)
    requires Base(base)
    ensures Value("", base) == Some(0)
  {}

  lemma SmallerQuotient(n: nat, base: nat)
    requires Base(base) && n >= base
    ensures n / base < n
  {}

  function ZeroDigits(n: nat): (s: string)
    ensures |s| == n
  {
    if n == 0 then "" else ZeroDigits(n - 1) + "0"
  }

  /** A decimal numeral with at least `width` digits. */
  function Padded(n: nat, width: nat): string {
    var s := Spell(n, 10);
    if |s| < width then ZeroDigits(width - |s|) + s else s
  }

  lemma {:induction false} ZerosAre(n: nat)
    ensures Value(ZeroDigits(n), 10) == Some(0)
  {
    if n > 0 {
      ZerosAre(n - 1);
      var s := ZeroDigits(n);
      assert s[..n - 1] == ZeroDigits(n - 1) && s[n - 1] == '0';
      hide ZeroDigits;
    }
  }

  lemma {:induction false} LeadingZeros(n: nat, s: string)
    ensures Value(ZeroDigits(n) + s, 10) == Value(s, 10)
  {
    if s == "" {
      ZerosAre(n);
      assert ZeroDigits(n) + s == ZeroDigits(n);
    } else {
      LeadingZeros(n, s[..|s| - 1]);
      assert (ZeroDigits(n) + s)[..n + |s| - 1] == ZeroDigits(n) + s[..|s| - 1];
    }
  }

  lemma PaddedRoundTrip(n: nat, width: nat)
    ensures Value(Padded(n, width), 10) == Some(n)
  {
    SpellRoundTrip(n, 10);
    if |Spell(n, 10)| < width {
      LeadingZeros(width - |Spell(n, 10)|, Spell(n, 10));
    }
  }

  predicate Decimal(s: string) {
    s != "" && forall i :: 0 <= i < |s| ==> '0' <= s[i] <= '9'
  }

  lemma {:induction false} SpellIsDecimal(n: nat)
    ensures Decimal(Spell(n, 10))
  {
    if n >= 10 { SpellIsDecimal(n / 10); }
  }

  lemma {:induction false} ZerosAreDecimal(n: nat)
    ensures forall i :: 0 <= i < n ==> ZeroDigits(n)[i] == '0'
  {
    if n > 0 { ZerosAreDecimal(n - 1); }
  }

  lemma PaddedIsDecimal(n: nat, width: nat)
    ensures Decimal(Padded(n, width))
  {
    SpellIsDecimal(n);
    if |Spell(n, 10)| < width { ZerosAreDecimal(width - |Spell(n, 10)|); }
  }

  /** A signed decimal that fits 64 bits. */
  function ParseI64(s: string): Option<int> {
    var negative := s != "" && s[0] == '-';
    var digits := if s != "" && (s[0] == '-' || s[0] == '+') then s[1..] else s;
    if digits == "" then None
    else
      match Value(digits, 10)
      case None => None
      case Some(v) =>
        var w: int := v;
        var i := if negative then -w else w;
        if -I64_MAX - 1 <= i <= I64_MAX then Some(i) else None
  }

  /** A printed number is parsed back. */
  lemma ParsePadded(n: nat, width: nat)
    requires n <= I64_MAX
    ensures ParseI64(Padded(n, width)) == Some(n)
  {
    PaddedRoundTrip(n, width);
    PaddedIsDecimal(n, width);
    hide Padded, Value;
  }

  /** The same digits in upper case. */
  function Upper(s: string): (r: string)
    ensures |r| == |s|
  {
    seq(|s|, i requires 0 <= i < |s| => if 'a' <= s[i] <= 'f' then s[i] - 'a' + 'A' else s[i])
  }

  /** Hexadecimal digits mean the same in upper case. */
  lemma {:induction false} UpperSameValue(s: string)
    ensures Value(Upper(s), 16) == Value(s, 16)
  {
    if s != "" {
      var n := |s| - 1;
      UpperSameValue(s[..n]);
      assert Upper(s)[..n] == Upper(s[..n]);
      UpperDigit(s[n]);
      hide DigitValue;
    }
  }

  lemma UpperDigit(c: char)
    ensures DigitValue(if 'a' <= c <= 'f' then c - 'a' + 'A' else c, 16) == DigitValue(c, 16)
  {}

  /** Digits with a sign are the number or its opposite, if 64 bits hold it. */
  lemma ParseSigned(s: string, v: nat)
    requires Decimal(s) && Value(s, 10) == Some(v)
    ensures ParseI64(s) == ParseI64("+" + s) == if v < 0x8000_0000_0000_0000 then Some(v) else None
    ensures ParseI64("-" + s) == if v <= 0x8000_0000_0000_0000 then Some(-(v as int)) else None
    ensures ParseI64("") == ParseI64("+") == ParseI64("-") == None
  {
    assert ("+" + s)[1..] == s && ("-" + s)[1..] == s;
    hide Value;
  }

  /** A number below 10^k has at most k digits. */
  lemma {:induction false} SpellLength(n: nat, k: nat)
    requires k > 0 && n < Pow10(k)
    ensures |Spell(n, 10)| <= k
  {
    if n >= 10 {
      SpellLength(n / 10, k - 1);
    }
  }

  function Pow10(k: nat): nat {
    if k == 0 then 1 else 10 * Pow10(k - 1)
  }

  lemma PaddedLength(n: nat, width: nat)
    requires width > 0 && n < Pow10(width)
    ensures |Padded(n, width)| == width
  {
    SpellLength(n, width);
  }
}
