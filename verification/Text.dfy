/**
 Character classes, trimming and decimal numerals, as the Rust standard
 library defines them for `char`, `str` and `u32`.
 */
module Text {
  const U32_MAX: nat := 0xFFFF_FFFF

  predicate IsDigit(c: char) { '0' <= c <= '9' }

  predicate IsUpper(c: char) { 'A' <= c <= 'Z' }

  predicate IsLower(c: char) { 'a' <= c <= 'z' }

  predicate IsAlphabetic(c: char) { IsUpper(c) || IsLower(c) }

  predicate AllDigits(s: string) { forall i | 0 <= i < |s| :: IsDigit(s[i]) }

  predicate AllUpper(s: string) { forall i | 0 <= i < |s| :: IsUpper(s[i]) }

  // `char::is_whitespace`: the Unicode White_Space property.
  predicate IsWhitespace(c: char) {
    var u := c as int;
    || 0x09 <= u <= 0x0D || u == 0x20 || u == 0x85 || u == 0xA0 || u == 0x1680
    || 0x2000 <= u <= 0x200A || u == 0x2028 || u == 0x2029 || u == 0x202F
    || u == 0x205F || u == 0x3000
  }

  // `u8::is_ascii_whitespace`, which leaves out the vertical tab.
  predicate IsAsciiWhitespace(c: char) {
    var u := c as int;
    u == 0x20 || u == 0x09 || u == 0x0A || u == 0x0C || u == 0x0D
  }

  function ToUpper(c: char): char {
    if IsLower(c) then (c as int - 32) as char else c
  }

  function UpperCase(s: string): (t: string)
    ensures |t| == |s|
    ensures forall i | 0 <= i < |s| :: t[i] == ToUpper(s[i])
  {
    seq(|s|, i requires 0 <= i < |s| => ToUpper(s[i]))
  }

  function Without(s: string, c: char): (t: string)
  {
    if s == [] then []
    else if s[0] == c then Without(s[1..], c)
    else [s[0]] + Without(s[1..], c)
  }

  function TrimStart(s: string): string {
    if s != [] && IsWhitespace(s[0]) then TrimStart(s[1..]) else s
  }

  function TrimEnd(s: string): string {
    if s != [] && IsWhitespace(s[|s| - 1]) then TrimEnd(s[..|s| - 1]) else s
  }

  function Trim(s: string): string { TrimEnd(TrimStart(s)) }

  // The index of the first digit, or the length when there is none.
  function FirstDigit(s: string): (n: nat)
    ensures n <= |s|
    ensures n < |s| ==> IsDigit(s[n])
    ensures forall i | 0 <= i < n :: !IsDigit(s[i])
  {
    if s == [] || IsDigit(s[0]) then 0 else 1 + FirstDigit(s[1..])
  }

  function DigitValue(c: char): (d: nat)
    requires IsDigit(c)
    ensures d < 10
  {
    c as int - '0' as int
  }

  function DigitChar(d: nat): (c: char)
    requires d < 10
    ensures IsDigit(c) && DigitValue(c) == d
  {
    ('0' as int + d) as char
  }

  function Numeral(n: nat): (s: string)
    ensures |s| > 0 && AllDigits(s)
  {
    if n < 10 then [DigitChar(n)] else Numeral(n / 10) + [DigitChar(n % 10)]
  }

  function NumeralValue(s: string): nat
    requires AllDigits(s)
  {
    if s == [] then 0
    else NumeralValue(s[..|s| - 1]) * 10 + DigitValue(s[|s| - 1])
  }

  lemma {:induction false} NumeralRoundTrip(n: nat)
    ensures NumeralValue(Numeral(n)) == n
  {
    if n >= 10 {
      NumeralRoundTrip(n / 10);
      var s := Numeral(n);
      assert s[..|s| - 1] == Numeral(n / 10);
    }
  }

  // A numeral has no leading zero, except zero itself.
  lemma {:induction false} NumeralHead(n: nat)
    ensures n > 0 ==> Numeral(n)[0] != '0'
  {
    if n >= 10 {
      NumeralHead(n / 10);
    }
  }

  // Reading a numeral back gives its own digits when it has no leading zero.
  lemma {:induction false} NumeralOfValue(s: string)
    requires |s| > 0 && AllDigits(s) && s[0] != '0'
    ensures NumeralValue(s) > 0 && Numeral(NumeralValue(s)) == s
  {
    var front, last := s[..|s| - 1], s[|s| - 1];
    assert s == front + [last];
    if front != [] {
      NumeralOfValue(front);
      assert NumeralValue(s) / 10 == NumeralValue(front);
      assert NumeralValue(s) % 10 == DigitValue(last);
    } else {
      assert NumeralValue(front) == 0;
    }
  }

  function WithoutLeadingZeros(s: string): string {
    if |s| > 1 && s[0] == '0' then WithoutLeadingZeros(s[1..]) else s
  }

  lemma {:induction false} LeadingZerosAreWorthless(s: string)
    requires AllDigits(s)
    ensures AllDigits(WithoutLeadingZeros(s))
    ensures NumeralValue(WithoutLeadingZeros(s)) == NumeralValue(s)
  {
    if |s| > 1 && s[0] == '0' {
      DropZero(s);
      LeadingZerosAreWorthless(s[1..]);
    }
  }

  lemma {:induction false} DropZero(s: string)
    requires |s| > 0 && AllDigits(s) && s[0] == '0'
    ensures NumeralValue(s[1..]) == NumeralValue(s)
  {
    if |s| > 1 {
      var front := s[..|s| - 1];
      DropZero(front);
      assert s[1..][..|s| - 2] == front[1..];
    } else {
      assert s[..0] == [];
    }
  }

  // A text without blanks at either end is left alone by trimming.
  lemma TrimIdentity(s: string)
    requires s != [] ==> !IsWhitespace(s[0]) && !IsWhitespace(s[|s| - 1])
    ensures Trim(s) == s
  {
  }

  lemma {:induction false} WithoutAbsent(s: string, c: char)
    requires c !in s
    ensures Without(s, c) == s
  {
    if s != [] {
      WithoutAbsent(s[1..], c);
    }
  }

  lemma {:induction false} WithoutConcat(s: string, t: string, c: char)
    ensures Without(s + t, c) == Without(s, c) + Without(t, c)
  {
    if s == [] {
      assert s + t == t;
    } else {
      WithoutConcat(s[1..], t, c);
      assert (s + t)[1..] == s[1..] + t;
    }
  }
}
