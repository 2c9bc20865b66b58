/**
 What printed numbers are read as: the exact value, and what becomes of the
 marks around a number.
 */
module NumberReadings {
  import opened Wrappers
  import opened Text
  import opened Normalization

  // ---------------------------------------------------------------------
  // Exact values
  // ---------------------------------------------------------------------

  function Pow10(k: nat): (p: nat)
    ensures p > 0
  {
    if k == 0 then 1 else 10 * Pow10(k - 1)
  }

  // The value of digits before and after the point.
  function Magnitude(whole: string, fraction: string): real
    requires AllDigits(whole) && AllDigits(fraction)
  {
    NumeralValue(whole) as real + NumeralValue(fraction) as real / Pow10(|fraction|) as real
  }

  function Signed(negative: bool, x: real): real { if negative then -x else x }

  function Size(x: real): real { if x < 0.0 then -x else x }

  // The spelling the decimal library reads.
  function PlainText(negative: bool, whole: string, fraction: string): string {
    (if negative then ['-'] else []) + (whole + FractionText(fraction, '.'))
  }

  // The library gives a plain text its value.
  predicate ReadsExactly(decimals: Decimals<real>, negative: bool, whole: string, fraction: string)
    requires AllDigits(whole) && AllDigits(fraction)
  {
    decimals.plain(PlainText(negative, whole, fraction)) == Some(Signed(negative, Magnitude(whole, fraction)))
  }

  // Setting the sign and dividing by one hundred.
  ghost predicate Calculates(decimals: Decimals<real>) {
    forall x :: decimals.negative(x) == -Size(x) && decimals.hundredth(x) == x / 100.0
  }

  // The digits an ambiguous print is taken for are whole.
  function WholeOf(n: nat, fraction: string): string {
    if Ambiguous(n, fraction) then Numeral(n) + fraction else Numeral(n)
  }

  function FractionOf(n: nat, fraction: string): string { if Ambiguous(n, fraction) then [] else fraction }

  lemma UnderstoodIsPlain(sign: Sign, n: nat, fraction: string)
    ensures Lead(sign) + Understood(n, fraction) ==
            PlainText(sign.LeadingMinus?, WholeOf(n, fraction), FractionOf(n, fraction))
  {
  }

  lemma {:induction false} NumeralValueConcat(s: string, t: string)
    requires AllDigits(s) && AllDigits(t)
    ensures NumeralValue(s + t) == NumeralValue(s) * Pow10(|t|) + NumeralValue(t)
  {
    if t == [] {
      assert s + t == s;
    } else {
      var front, last := t[..|t| - 1], t[|t| - 1];
      assert (s + t)[..|s + t| - 1] == s + front;
      NumeralValueConcat(s, front);
      Distributes(NumeralValue(s), Pow10(|front|), NumeralValue(front), DigitValue(last));
    }
  }

  lemma Distributes(a: nat, p: nat, b: nat, d: nat)
    ensures (a * p + b) * 10 + d == a * (10 * p) + (b * 10 + d)
  {
  }

  // What the sign, the number and the percent sign stand for.
  function PrintedValue(sign: Sign, n: nat, fraction: string, percent: bool): real
    requires AllDigits(fraction)
  {
    var signed := Signed(sign != Positive, Magnitude(Numeral(n), fraction));
    if percent then signed / 100.0 else signed
  }

  lemma PrintedMagnitude(n: nat, fraction: string)
    requires AllDigits(fraction)
    ensures Magnitude(Numeral(n), fraction) == n as real + NumeralValue(fraction) as real / Pow10(|fraction|) as real
  {
    NumeralRoundTrip(n);
  }

  lemma ThousandFold(n: nat, fraction: string)
    requires AllDigits(fraction)
    ensures Magnitude(WholeOf(n, fraction), FractionOf(n, fraction)) ==
            Magnitude(Numeral(n), fraction) * (if Ambiguous(n, fraction) then 1000.0 else 1.0)
  {
    if Ambiguous(n, fraction) {
      NumeralValueConcat(Numeral(n), fraction);
      assert Pow10(3) == 1000 && Pow10(0) == 1;
      assert NumeralValue([]) == 0;
    }
  }

  // A number printed in either convention, with any spelling of its sign and any
  // symbols around it, is read as its value, or as a thousand times its value
  // when it is below one thousand and has three fraction digits.
  lemma {:induction false} PrintedNumbersAreReadAs(decimals: Decimals<real>, raw: string, sign: Sign, prefix: string,
                                                   suffix: string, percent: bool, n: nat, fraction: string,
                                                   grouped: bool, decimal: char)
    requires AreSymbols(prefix) && AreSymbols(suffix) && IsSeparator(decimal) && AllDigits(fraction)
    requires Clean(raw) == Spelled(sign, prefix, Printed(n, fraction, grouped, decimal), suffix, percent)
    requires Calculates(decimals)
    requires ReadsExactly(decimals, sign.LeadingMinus?, WholeOf(n, fraction), FractionOf(n, fraction))
    ensures var reading := Reading(decimals, raw);
            && reading.Some? && reading.value.isPercent == percent
            && reading.value.value ==
               PrintedValue(sign, n, fraction, percent) * (if Ambiguous(n, fraction) then 1000.0 else 1.0)
  {
    hide Spelled, Printed, Understood, Clean, Reading, Magnitude, WholeOf, FractionOf, Ambiguous, PlainText, Numeral;
    UnderstoodIsPlain(sign, n, fraction);
    PrintedNumbersReadBack(decimals, raw, sign, prefix, suffix, percent, n, fraction, grouped, decimal);
    ThousandFold(n, fraction);
    NotNegative(n, fraction);
    var text := Lead(sign) + Understood(n, fraction);
    PrintedIsUnderstood(Lead(sign), n, fraction, grouped, decimal);
    PlainValue(decimals, text, sign.TrailingMinus? || sign.Parentheses?, percent);
  }

  lemma PlainValue<D>(decimals: Decimals<D>, text: string, negative: bool, percent: bool)
    requires 'e' !in text && 'E' !in text && decimals.plain(text).Some?
    ensures var value := decimals.plain(text).value;
            var signed := if negative then decimals.negative(value) else value;
            Value(decimals, text, negative, percent) == Some(if percent then decimals.hundredth(signed) else signed)
  {
  }

  lemma NotNegative(n: nat, fraction: string)
    requires AllDigits(fraction)
    ensures Magnitude(WholeOf(n, fraction), FractionOf(n, fraction)) >= 0.0 && Magnitude(Numeral(n), fraction) >= 0.0
  {
    hide Numeral, NumeralValue;
  }

  // It is read as its value if and only if it is not such a number, or is zero.
  lemma {:induction false} ReadExactlyIff(decimals: Decimals<real>, raw: string, sign: Sign, prefix: string,
                                          suffix: string, percent: bool, n: nat, fraction: string, grouped: bool,
                                          decimal: char)
    requires AreSymbols(prefix) && AreSymbols(suffix) && IsSeparator(decimal) && AllDigits(fraction)
    requires Clean(raw) == Spelled(sign, prefix, Printed(n, fraction, grouped, decimal), suffix, percent)
    requires Calculates(decimals)
    requires ReadsExactly(decimals, sign.LeadingMinus?, WholeOf(n, fraction), FractionOf(n, fraction))
    ensures Reading(decimals, raw).Some?
    ensures Reading(decimals, raw).value.value == PrintedValue(sign, n, fraction, percent) <==>
            !(n < 1000 && |fraction| == 3) || (n == 0 && NumeralValue(fraction) == 0)
  {
    hide Spelled, Printed, Clean, Reading, Numeral, WholeOf, FractionOf, Pow10, NumeralValue;
    PrintedNumbersAreReadAs(decimals, raw, sign, prefix, suffix, percent, n, fraction, grouped, decimal);
    PrintedMagnitude(n, fraction);
    ZeroIff(n, NumeralValue(fraction), Pow10(|fraction|));
  }

  lemma ZeroIff(n: nat, f: nat, p: nat)
    requires p > 0
    ensures n as real + f as real / p as real == 0.0 <==> n == 0 && f == 0
  {
    assert f > 0 ==> f as real / p as real > 0.0;
  }

  // A library that reads plain texts exactly.
  function ReadPlain(text: string): Option<real> {
    var unsigned := if text != [] && text[0] == '-' then text[1..] else text;
    var point := LastIndex(unsigned, '.');
    var end := if point.Some? && point.value <= |unsigned| then point.value else |unsigned|;
    var whole, fraction := unsigned[..end], if end < |unsigned| then unsigned[end + 1..] else [];
    if whole == [] || !AllDigits(whole) || !AllDigits(fraction) then None
    else Some(Signed(text[0] == '-', Magnitude(whole, fraction)))
  }

  function ReadNothing(text: string): Option<real> { None }

  function Negated(x: real): real { -Size(x) }

  function Hundredth(x: real): real { x / 100.0 }

  const EXACT: Decimals<real> := Decimals(ReadPlain, ReadNothing, Negated, Hundredth)

  lemma {:induction false} ExactReadsExactly(negative: bool, whole: string, fraction: string)
    requires whole != [] && AllDigits(whole) && AllDigits(fraction)
    ensures ReadsExactly(EXACT, negative, whole, fraction) && Calculates(EXACT)
  {
    hide Magnitude, LastIndex, FractionText, AllDigits;
    DigitsHaveNoMarks(whole);
    PlainParts(whole, fraction);
    SignedText(negative, whole + FractionText(fraction, '.'));
    UnsignedRead(negative, whole, fraction);
  }

  lemma SignedText(negative: bool, unsigned: string)
    requires unsigned != [] && unsigned[0] != '-'
    ensures var text := (if negative then ['-'] else []) + unsigned;
            text != [] && (text[0] == '-' <==> negative) && (if text[0] == '-' then text[1..] else text) == unsigned
  {
  }

  lemma UnsignedRead(negative: bool, whole: string, fraction: string)
    requires whole != [] && AllDigits(whole) && AllDigits(fraction)
    requires var unsigned, text := whole + FractionText(fraction, '.'), PlainText(negative, whole, fraction);
             && text != [] && (text[0] == '-' <==> negative) && (if text[0] == '-' then text[1..] else text) == unsigned
             && if fraction == [] then unsigned == whole && LastIndex(unsigned, '.').None?
                else LastIndex(unsigned, '.') == Some(|whole|)
                     && |whole| < |unsigned| && unsigned[..|whole|] == whole && unsigned[|whole| + 1..] == fraction
    ensures ReadPlain(PlainText(negative, whole, fraction)) == Some(Signed(negative, Magnitude(whole, fraction)))
  {
    hide Magnitude, LastIndex, FractionText, AllDigits, PlainText;
  }

  lemma PlainParts(whole: string, fraction: string)
    requires whole != [] && AllDigits(whole) && AllDigits(fraction)
    ensures var unsigned := whole + FractionText(fraction, '.');
            && unsigned[0] == whole[0]
            && if fraction == [] then unsigned == whole && LastIndex(unsigned, '.').None?
               else LastIndex(unsigned, '.') == Some(|whole|)
                    && |whole| < |unsigned| && unsigned[..|whole|] == whole && unsigned[|whole| + 1..] == fraction
  {
    hide AllDigits;
    DigitsHaveNoMarks(whole);
    DigitsHaveNoMarks(fraction);
    var unsigned := whole + FractionText(fraction, '.');
    if fraction == [] {
      assert unsigned == whole;
    } else {
      assert unsigned == whole + ['.'] + fraction;
      LastIndexIs(whole, '.', fraction);
    }
  }

  lemma DigitsHaveNoMarks(s: string)
    requires AllDigits(s)
    ensures '.' !in s && '-' !in s
  {
  }

  // One eighth is read as one hundred and twenty-five by every library that
  // reads 0125 as 125.
  lemma {:induction false} AnEighthIsMisread(decimals: Decimals<real>, raw: string, n: nat, fraction: string)
    requires Calculates(decimals) && decimals.plain("0125") == Some(125.0)
    requires raw == "0.125" && n == 0 && fraction == "125"
    ensures Reading(decimals, raw).Some? && Reading(decimals, raw).value.value == 125.0
    ensures Printed(n, fraction, false, '.') == raw && PrintedValue(Positive, n, fraction, false) == 0.125
  {
    hide Reading, Clean, Spelled, Printed, WholeOf, FractionOf, PlainText, Magnitude, NumeralValue, Ambiguous;
    CleanIdentity(raw);
    EighthIsSpelled(raw, fraction);
    EighthValues(fraction);
    PrintedNumbersAreReadAs(decimals, raw, Positive, [], [], false, n, fraction, false, '.');
  }

  lemma EighthValues(fraction: string)
    requires fraction == "125"
    ensures WholeOf(0, fraction) == "0125" && FractionOf(0, fraction) == [] && Ambiguous(0, fraction)
    ensures PlainText(false, WholeOf(0, fraction), FractionOf(0, fraction)) == "0125"
    ensures Magnitude(WholeOf(0, fraction), FractionOf(0, fraction)) == 125.0
    ensures PrintedValue(Positive, 0, fraction, false) == 0.125
  {
    EighthDigits();
    assert WholeOf(0, fraction) == "0125";
  }

  lemma EighthDigits()
    ensures Numeral(0) == "0"
    ensures Magnitude("0125", []) == 125.0 && Magnitude("0", "125") == 0.125
  {
    assert "125"[..2] == "12" && "12"[..1] == "1" && "1"[..0] == "";
    assert "0125"[..3] == "012" && "012"[..2] == "01" && "01"[..1] == "0" && "0"[..0] == "";
    assert NumeralValue("0") == 0 && NumeralValue("01") == 1 && NumeralValue("012") == 12;
    assert NumeralValue("1") == 1 && NumeralValue("12") == 12;
    assert Pow10(1) == 10 && Pow10(2) == 100 && Pow10(3) == 1000;
  }

  lemma EighthIsSpelled(raw: string, fraction: string)
    requires raw == "0.125" && fraction == "125"
    ensures Printed(0, fraction, false, '.') == raw
    ensures Spelled(Positive, [], raw, [], false) == raw
  {
    assert Numeral(0) == "0";
  }

  // A text without blanks, folded characters or surrounding space is clean.
  lemma {:induction false} CleanIdentity(s: string)
    requires forall i | 0 <= i < |s| :: !IsWhitespace(s[i]) && Fold(s[i]) == s[i]
    ensures Clean(s) == s
  {
    TrimIdentity(s);
    assert FoldAll(s) == s;
    CompactIdentity(s);
  }

  lemma {:induction false} CompactIdentity(s: string)
    requires forall i | 0 <= i < |s| :: !IsWhitespace(s[i])
    ensures Compact(s) == s
  {
    if s != [] {
      CompactIdentity(s[1..]);
    }
  }

  // The three spellings of a negative number give the same value when the
  // decimal library treats a leading minus as a sign change.
  lemma {:induction false} NegativesAgree<D>(decimals: Decimals<D>, left: string, right: string, trailing: Sign,
                                             prefix: string, suffix: string, percent: bool,
                                             n: nat, fraction: string, grouped: bool, decimal: char)
    requires AreSymbols(prefix) && AreSymbols(suffix) && IsSeparator(decimal) && AllDigits(fraction)
    requires trailing.TrailingMinus? || trailing.Parentheses?
    requires Clean(left) == Spelled(LeadingMinus, prefix, Printed(n, fraction, grouped, decimal), suffix, percent)
    requires Clean(right) == Spelled(trailing, prefix, Printed(n, fraction, grouped, decimal), suffix, percent)
    requires var text := Understood(n, fraction);
             decimals.plain(['-'] + text) ==
             if decimals.plain(text).None? then None else Some(decimals.negative(decimals.plain(text).value))
    ensures Reading(decimals, left).Some? <==> Reading(decimals, right).Some?
    ensures Reading(decimals, left).Some? ==>
              Reading(decimals, left).value.value == Reading(decimals, right).value.value
  {
    hide Reading, Spelled, Printed, Understood, Clean;
    var text := Understood(n, fraction);
    PrintedIsUnderstood([], n, fraction, grouped, decimal);
    PrintedIsUnderstood(['-'], n, fraction, grouped, decimal);
    assert [] + text == text;
    PrintedNumbersReadBack(decimals, left, LeadingMinus, prefix, suffix, percent, n, fraction, grouped, decimal);
    PrintedNumbersReadBack(decimals, right, trailing, prefix, suffix, percent, n, fraction, grouped, decimal);
  }

  // ---------------------------------------------------------------------
  // Marks
  // ---------------------------------------------------------------------

  // Nothing but numeric characters from the first one on.
  predicate SymbolsFirst(s: string) {
    forall i, j | 0 <= i < j < |s| :: IsNumeric(s[i]) ==> IsNumeric(s[j])
  }

  // Nothing but numeric characters up to the last one.
  predicate SymbolsLast(s: string) {
    forall i, j | 0 <= i < j < |s| :: IsNumeric(s[j]) ==> IsNumeric(s[i])
  }

  lemma {:induction false} TrimStartConcat(s: string, t: string)
    requires t != [] && IsNumeric(t[0])
    ensures TrimSymbolsStart(s + t) == TrimSymbolsStart(s) + t
    ensures TrimSymbolsStart(s) == [] <==> NoNumeric(s)
    ensures AllNumeric(TrimSymbolsStart(s)) <==> SymbolsFirst(s)
  {
    if s == [] {
      assert s + t == t;
    } else {
      assert (s + t)[1..] == s[1..] + t && (s + t)[0] == s[0];
      assert s == [s[0]] + s[1..];
      TrimStartConcat(s[1..], t);
    }
  }

  lemma {:induction false} TrimEndConcat(s: string, t: string)
    requires s != [] && IsNumeric(s[|s| - 1])
    ensures TrimSymbolsEnd(s + t) == s + TrimSymbolsEnd(t)
    ensures TrimSymbolsEnd(t) == [] <==> NoNumeric(t)
    ensures AllNumeric(TrimSymbolsEnd(t)) <==> SymbolsLast(t)
  {
    if t == [] {
      assert s + t == s;
    } else {
      var n := |t| - 1;
      assert (s + t)[..|s + t| - 1] == s + t[..n] && (s + t)[|s + t| - 1] == t[n];
      assert t == t[..n] + [t[n]];
      TrimEndConcat(s, t[..n]);
    }
  }

  lemma {:induction false} TrimmedMarks(prefix: string, number: string, suffix: string)
    requires number != [] && AllNumeric(number)
    ensures TrimNumericAffixes(prefix + (number + suffix)) ==
            TrimSymbolsStart(prefix) + (number + TrimSymbolsEnd(suffix))
    ensures TrimSymbolsStart(prefix) == [] <==> NoNumeric(prefix)
    ensures TrimSymbolsEnd(suffix) == [] <==> NoNumeric(suffix)
    ensures AllNumeric(TrimSymbolsStart(prefix)) <==> SymbolsFirst(prefix)
    ensures AllNumeric(TrimSymbolsEnd(suffix)) <==> SymbolsLast(suffix)
  {
    hide TrimSymbolsStart, TrimSymbolsEnd;
    TrimStartConcat(prefix, number + suffix);
    var front := TrimSymbolsStart(prefix);
    assert front + (number + suffix) == (front + number) + suffix;
    TrimEndConcat(front + number, suffix);
    assert (front + number) + TrimSymbolsEnd(suffix) == front + (number + TrimSymbolsEnd(suffix));
  }

  // Marks come off exactly when they hold no numeric character, and leave only
  // numeric characters exactly when theirs are next to the number.
  lemma {:induction false} MarksComeOffIff(sign: Sign, prefix: string, body: string, suffix: string, percent: bool)
    requires AreMarks(prefix) && AreMarks(suffix) && !EndsWith(suffix, '-') && IsBody(body)
    ensures var marked := Unmark(Spelled(sign, prefix, body, suffix, percent));
            && marked.negative == (sign.TrailingMinus? || sign.Parentheses?) && marked.percent == percent
            && (marked.number == Lead(sign) + body <==> NoNumeric(prefix) && NoNumeric(suffix))
            && (AllNumeric(marked.number) <==> SymbolsFirst(prefix) && SymbolsLast(suffix))
  {
    hide TrimNumericAffixes, Spelled, Unmark, NoNumeric, SymbolsFirst, SymbolsLast, TrimSymbolsStart, TrimSymbolsEnd;
    var number := Lead(sign) + body;
    SignsComeOff(sign, prefix, body, suffix, percent);
    TrimmedMarks(prefix, number, suffix);
    var front, end := TrimSymbolsStart(prefix), TrimSymbolsEnd(suffix);
    NumericParts(front, number, end);
  }

  lemma NumericParts(front: string, number: string, end: string)
    requires AllNumeric(number)
    ensures front + (number + end) == number <==> front == [] && end == []
    ensures AllNumeric(front + (number + end)) <==> AllNumeric(front) && AllNumeric(end)
  {
    var text := front + (number + end);
    assert |text| == |front| + |number| + |end|;
    assert forall i | 0 <= i < |front| :: text[i] == front[i];
    assert forall i | 0 <= i < |end| :: text[|front| + |number| + i] == end[i];
  }

  // A number behind marks with a numeric character before another one is not
  // read at all.
  lemma {:induction false} OtherMarksAreRefused<D>(decimals: Decimals<D>, raw: string, sign: Sign, prefix: string,
                                                   body: string, suffix: string, percent: bool)
    requires AreMarks(prefix) && AreMarks(suffix) && !EndsWith(suffix, '-') && IsBody(body)
    requires Clean(raw) == Spelled(sign, prefix, body, suffix, percent)
    requires !SymbolsFirst(prefix) || !SymbolsLast(suffix)
    ensures Reading(decimals, raw) == None
  {
    hide Unmark, Spelled, Clean, SymbolsFirst, SymbolsLast, NormalizeSeparators;
    MarksComeOffIff(sign, prefix, body, suffix, percent);
  }

  // Of the currency codes the tool knows, the three with an E do not come off:
  // before the amount none of them, and after it AED is refused too and the E of
  // EGP and EUR stays with the number.
  lemma {:induction false} CurrencyCodes()
    ensures NoNumeric("USD") && NoNumeric("GBP") && NoNumeric("SAR") && NoNumeric("QAR") && NoNumeric("KWD")
    ensures !SymbolsFirst("EGP") && !SymbolsFirst("EUR") && !SymbolsFirst("AED") && !SymbolsLast("AED")
    ensures SymbolsLast("EGP") && !NoNumeric("EGP") && SymbolsLast("EUR") && !NoNumeric("EUR")
  {
    hide NoNumeric, SymbolsFirst, SymbolsLast;
    ThreeLetters("USD");
    ThreeLetters("GBP");
    ThreeLetters("SAR");
    ThreeLetters("QAR");
    ThreeLetters("KWD");
    ThreeLetters("EGP");
    ThreeLetters("EUR");
    ThreeLetters("AED");
  }

  lemma ThreeLetters(code: string)
    requires |code| == 3
    ensures var a, b, c := IsNumeric(code[0]), IsNumeric(code[1]), IsNumeric(code[2]);
            && (NoNumeric(code) <==> !a && !b && !c)
            && (SymbolsFirst(code) <==> (a ==> b && c) && (b ==> c))
            && (SymbolsLast(code) <==> (c ==> a && b) && (b ==> a))
  {
    hide IsNumeric;
  }

  lemma {:induction false} PoundsAreRefused<D>(decimals: Decimals<D>, raw: string)
    requires raw == "EGP 1,500"
    ensures Reading(decimals, raw) == None
  {
    hide Reading, Spelled, Clean, SymbolsFirst, SymbolsLast;
    var prefix, body := "EGP", "1,500";
    CurrencyCodes();
    PoundsAreClean(raw, prefix, body);
    PoundsAreSpelled(prefix, body);
    OtherMarksAreRefused(decimals, raw, Positive, prefix, body, [], false);
  }

  lemma PoundsAreClean(raw: string, prefix: string, body: string)
    requires raw == "EGP 1,500" && prefix == "EGP" && body == "1,500"
    ensures Clean(raw) == prefix + body
  {
    hide Clean;
    var blank := " ";
    assert raw == prefix + (blank + body) && prefix + ([] + body) == prefix + body;
    CleanConcat(prefix, blank + body);
    CleanConcat(blank, body);
    CleanIdentity(prefix);
    CleanIdentity(body);
    BlankIsClean(blank);
  }

  lemma BlankIsClean(blank: string)
    requires blank == " "
    ensures Clean(blank) == []
  {
    assert IsWhitespace(blank[0]) && blank[1..] == [];
    assert TrimStart(blank) == [];
  }

  lemma PoundsAreSpelled(prefix: string, body: string)
    requires prefix == "EGP" && body == "1,500"
    ensures Spelled(Positive, prefix, body, [], false) == prefix + body
    ensures IsBody(body) && AreMarks(prefix)
  {
  }

  // ---------------------------------------------------------------------
  // Three scripts
  // ---------------------------------------------------------------------

  datatype Script = Western | ArabicIndic | Persian

  // The code point of a script's digit zero.
  function ZeroOf(script: Script): nat {
    match script
    case Western => 0x30
    case ArabicIndic => 0x660
    case Persian => 0x6F0
  }

  function ScriptDigit(script: Script, d: nat): char
    requires d < 10
  {
    (ZeroOf(script) + d) as char
  }

  // A number written in a script.
  function ScriptNumeral(script: Script, n: nat): string {
    if n < 10 then [ScriptDigit(script, n)] else ScriptNumeral(script, n / 10) + [ScriptDigit(script, n % 10)]
  }

  // A character written for a Western one: the digit of any script, the Arabic
  // point, comma and percent sign, and the minus sign and the two dashes.
  predicate StandsFor(c: char, w: char) {
    || c == w
    || (IsDigit(w) &&
        exists script | script in {Western, ArabicIndic, Persian} :: c == ScriptDigit(script, DigitValue(w)))
    || (w == '.' && c == '\U{66B}')
    || (w == ',' && c == '\U{66C}')
    || (w == '%' && c == '\U{66A}')
    || (w == '-' && c in {'\U{2212}', '\U{2013}', '\U{2014}'})
  }

  // The raw text writes the plain one, with blanks anywhere.
  predicate Writes(raw: string, plain: string) {
    if raw == [] then plain == []
    else if IsWhitespace(raw[0]) then Writes(raw[1..], plain)
    else plain != [] && StandsFor(raw[0], plain[0]) && Writes(raw[1..], plain[1..])
  }

  // Not a character of the other two scripts.
  predicate IsWestern(c: char) {
    var u := c as int;
    && !(0x660 <= u <= 0x66C) && !(0x6F0 <= u <= 0x6F9)
    && u != 0x2212 && u != 0x2013 && u != 0x2014
  }

  predicate AllWestern(s: string) { forall i | 0 <= i < |s| :: IsWestern(s[i]) }

  lemma StandsForFolds(c: char, w: char)
    requires StandsFor(c, w) && IsWestern(w)
    ensures Fold(c) == w
  {
  }

  lemma OneCharacterIsClean(c: char)
    ensures Clean([c]) == if IsWhitespace(c) then [] else [Fold(c)]
  {
    hide Fold;
    var s := [c];
    assert s[1..] == [];
    if IsWhitespace(c) {
      assert TrimStart(s) == TrimStart([]) == [];
    } else {
      TrimIdentity(s);
      assert FoldAll(s) == [Fold(c)];
      FoldedIsSolid(c);
    }
  }

  lemma FoldedIsSolid(c: char)
    requires !IsWhitespace(c)
    ensures Compact([Fold(c)]) == [Fold(c)]
  {
    assert [Fold(c)][1..] == [];
  }

  // Whatever writes a Western text is cleaned to it.
  lemma {:induction false} WrittenIsCleaned(raw: string, plain: string)
    requires Writes(raw, plain) && AllWestern(plain)
    ensures Clean(raw) == plain
  {
    hide Clean, StandsFor, Fold, IsWestern;
    if raw == [] {
      NothingIsClean();
    } else {
      var first, rest := raw[0], raw[1..];
      assert raw == [first] + rest;
      CleanConcat([first], rest);
      OneCharacterIsClean(first);
      if IsWhitespace(first) {
        WrittenIsCleaned(rest, plain);
        assert [] + plain == plain;
      } else {
        assert forall i | 0 <= i < |plain[1..]| :: plain[1..][i] == plain[i + 1];
        WrittenIsCleaned(rest, plain[1..]);
        StandsForFolds(first, plain[0]);
        assert plain == [plain[0]] + plain[1..];
      }
    }
  }

  lemma NothingIsClean()
    ensures Clean([]) == []
  {
  }

  // The numerals of the three scripts write the Western one.
  lemma {:induction false} ScriptNumeralWrites(script: Script, n: nat)
    ensures Writes(ScriptNumeral(script, n), Numeral(n))
  {
    hide Writes;
    if n >= 10 {
      ScriptNumeralWrites(script, n / 10);
      OneDigitWrites(script, n % 10);
      WritesConcat(ScriptNumeral(script, n / 10), Numeral(n / 10), [ScriptDigit(script, n % 10)], [DigitChar(n % 10)]);
    } else {
      OneDigitWrites(script, n);
    }
  }

  lemma OneDigitWrites(script: Script, d: nat)
    requires d < 10
    ensures Writes([ScriptDigit(script, d)], [DigitChar(d)])
  {
    var c := ScriptDigit(script, d);
    assert script in {Western, ArabicIndic, Persian} && c == ScriptDigit(script, DigitValue(DigitChar(d)));
    assert [c][1..] == [] && [DigitChar(d)][1..] == [];
  }

  lemma {:induction false} WritesConcat(raw: string, plain: string, more: string, next: string)
    requires Writes(raw, plain) && Writes(more, next)
    ensures Writes(raw + more, plain + next)
  {
    hide StandsFor;
    if raw == [] {
      assert raw + more == more && plain + next == next;
    } else {
      assert (raw + more)[1..] == raw[1..] + more && (raw + more)[0] == raw[0];
      if IsWhitespace(raw[0]) {
        WritesConcat(raw[1..], plain, more, next);
      } else {
        assert (plain + next)[1..] == plain[1..] + next && (plain + next)[0] == plain[0];
        WritesConcat(raw[1..], plain[1..], more, next);
      }
    }
  }

  // Any printed number written in any of the scripts, with their separators,
  // dashes and percent sign and with blanks anywhere, is read as its value, or as
  // a thousand times its value when it is below one thousand with three fraction
  // digits.
  lemma {:induction false} WrittenNumbersAreReadAs(decimals: Decimals<real>, raw: string, sign: Sign, prefix: string,
                                                   suffix: string, percent: bool, n: nat, fraction: string,
                                                   grouped: bool, decimal: char)
    requires AreSymbols(prefix) && AreSymbols(suffix) && AllWestern(prefix) && AllWestern(suffix)
    requires IsSeparator(decimal) && AllDigits(fraction)
    requires Writes(raw, Spelled(sign, prefix, Printed(n, fraction, grouped, decimal), suffix, percent))
    requires Calculates(decimals)
    requires ReadsExactly(decimals, sign.LeadingMinus?, WholeOf(n, fraction), FractionOf(n, fraction))
    ensures var reading := Reading(decimals, raw);
            && reading.Some? && reading.value.isPercent == percent
            && reading.value.value ==
               PrintedValue(sign, n, fraction, percent) * (if n < 1000 && |fraction| == 3 then 1000.0 else 1.0)
  {
    hide Reading, Writes, Clean, Printed, PrintedValue, WholeOf, FractionOf, Calculates, Spelled;
    var body := Printed(n, fraction, grouped, decimal);
    PrintedIsBody(n, fraction, grouped, decimal);
    SpelledIsWestern(sign, prefix, body, suffix, percent);
    WrittenIsCleaned(raw, Spelled(sign, prefix, body, suffix, percent));
    PrintedNumbersAreReadAs(decimals, raw, sign, prefix, suffix, percent, n, fraction, grouped, decimal);
  }

  lemma SpelledIsWestern(sign: Sign, prefix: string, body: string, suffix: string, percent: bool)
    requires AllWestern(prefix) && AllWestern(suffix) && AllNumeric(body)
    ensures AllWestern(Spelled(sign, prefix, body, suffix, percent))
  {
    NumericIsWestern(body);
    hide IsWestern, AllNumeric;
    MoreWestern();
  }

  lemma NumericIsWestern(s: string)
    requires AllNumeric(s)
    ensures AllWestern(s)
  {
  }

  lemma MoreWestern()
    ensures IsWestern('-') && IsWestern('%') && IsWestern('(') && IsWestern(')')
  {
  }

  // A whole number in any script is read as itself.
  lemma {:induction false} ScriptNumeralIsRead(decimals: Decimals<real>, script: Script, n: nat)
    requires Calculates(decimals) && decimals.plain(Numeral(n)) == Some(n as real)
    ensures Reading(decimals, ScriptNumeral(script, n)).Some?
    ensures Reading(decimals, ScriptNumeral(script, n)).value.value == n as real
  {
    hide Reading, Writes, Numeral, ScriptNumeral, Calculates;
    var none: string := [];
    ScriptNumeralWrites(script, n);
    PlainNumeral(n, none);
    WrittenNumbersAreReadAs(decimals, ScriptNumeral(script, n), Positive, none, none, false, n, none, false, '.');
  }

  lemma PlainNumeral(n: nat, none: string)
    requires none == []
    ensures Spelled(Positive, none, Printed(n, none, false, '.'), none, false) == Numeral(n)
    ensures WholeOf(n, none) == Numeral(n) && FractionOf(n, none) == none
    ensures PlainText(false, Numeral(n), none) == Numeral(n)
    ensures Magnitude(Numeral(n), none) == n as real && PrintedValue(Positive, n, none, false) == n as real
    ensures AreSymbols(none) && AllWestern(none) && AllDigits(none)
  {
    hide Numeral, NumeralValue;
    PrintedMagnitude(n, none);
    NoFraction(none);
    SpelledAlone(Numeral(n), none);
    assert Printed(n, none, false, '.') == Numeral(n);
  }

  lemma SpelledAlone(body: string, none: string)
    requires none == []
    ensures Spelled(Positive, none, body, none, false) == body
  {
  }

  lemma NoFraction(none: string)
    requires none == []
    ensures NumeralValue(none) == 0 && Pow10(|none|) == 1
  {
  }
}
