/**
 Numbers as people write them in Western and Arabic spreadsheets: the reader
 that tells thousands from decimal separators, and the grouped printing it undoes.
 */
module Normalization {
  import opened Wrappers
  import opened Text

  // The decimal library's operations. `negative` clears or sets nothing but the sign.
  datatype Decimals<!D> = Decimals(
    plain: string -> Option<D>,
    scientific: string -> Option<D>,
    negative: D -> D,
    hundredth: D -> D
  )

  datatype ParsedNumber<D> = ParsedNumber(value: D, isPercent: bool, confidence: nat, normalized: string)

  // ---------------------------------------------------------------------
  // Digits, signs and blanks
  // ---------------------------------------------------------------------

  predicate IsNumeric(c: char) { IsDigit(c) || c in ".,+-eE" }

  predicate AllNumeric(s: string) { forall i | 0 <= i < |s| :: IsNumeric(s[i]) }

  // Arabic-Indic and Persian digits, Arabic separators, and the dashes used as minus.
  function Fold(c: char): char {
    var u := c as int;
    if 0x660 <= u <= 0x669 then DigitChar(u - 0x660)
    else if 0x6F0 <= u <= 0x6F9 then DigitChar(u - 0x6F0)
    else if u == 0x66B then '.'
    else if u == 0x66C then ','
    else if u == 0x2212 || u == 0x2013 || u == 0x2014 then '-'
    else if u == 0x66A then '%'
    else c
  }

  function FoldAll(s: string): (t: string)
    ensures |t| == |s|
  {
    seq(|s|, i requires 0 <= i < |s| => Fold(s[i]))
  }

  function Compact(s: string): string {
    if s == [] then [] else (if IsWhitespace(s[0]) then [] else [s[0]]) + Compact(s[1..])
  }

  function Clean(raw: string): string { Compact(FoldAll(Trim(raw))) }

  lemma {:induction false} CompactConcat(s: string, t: string)
    ensures Compact(s + t) == Compact(s) + Compact(t)
  {
    if s == [] {
      assert s + t == t;
    } else {
      assert (s + t)[1..] == s[1..] + t;
      CompactConcat(s[1..], t);
    }
  }

  lemma FoldConcat(s: string, t: string)
    ensures FoldAll(s + t) == FoldAll(s) + FoldAll(t)
  {
  }

  lemma {:induction false} TrimStartIsAbsorbed(s: string)
    ensures Compact(FoldAll(TrimStart(s))) == Compact(FoldAll(s))
  {
    if s != [] && IsWhitespace(s[0]) {
      TrimStartIsAbsorbed(s[1..]);
      assert FoldAll(s)[1..] == FoldAll(s[1..]);
    }
  }

  lemma {:induction false} TrimEndIsAbsorbed(s: string)
    ensures Compact(FoldAll(TrimEnd(s))) == Compact(FoldAll(s))
  {
    if s != [] && IsWhitespace(s[|s| - 1]) {
      var front, end := s[..|s| - 1], [s[|s| - 1]];
      TrimEndIsAbsorbed(front);
      assert s == front + end;
      FoldConcat(front, end);
      CompactConcat(FoldAll(front), FoldAll(end));
      assert FoldAll(end)[1..] == [];
    }
  }

  // Cleaning works character by character: blanks anywhere disappear and every
  // other character is folded, so texts that differ only so read alike.
  lemma {:induction false} CleanConcat(s: string, t: string)
    ensures Clean(s + t) == Clean(s) + Clean(t)
  {
    forall u
      ensures Clean(u) == Compact(FoldAll(u))
    {
      TrimEndIsAbsorbed(TrimStart(u));
      TrimStartIsAbsorbed(u);
    }
    FoldConcat(s, t);
    CompactConcat(FoldAll(s), FoldAll(t));
  }

  // ---------------------------------------------------------------------
  // Separators
  // ---------------------------------------------------------------------

  predicate IsSeparator(c: char) { c == '.' || c == ',' }

  function WithoutSeparators(s: string): string {
    if s == [] then [] else (if IsSeparator(s[0]) then [] else [s[0]]) + WithoutSeparators(s[1..])
  }

  // The last index of c, as `rfind`.
  function LastIndex(s: string, c: char): (k: Option<nat>)
    ensures k.Some? ==> k.value < |s| && s[k.value] == c && c !in s[k.value + 1..]
    ensures k.None? ==> c !in s
  {
    if s == [] then None
    else if s[|s| - 1] == c then Some(|s| - 1)
    else
      var k := LastIndex(s[..|s| - 1], c);
      assert s == s[..|s| - 1] + [s[|s| - 1]];
      assert k.Some? ==> s[k.value + 1..] == s[..|s| - 1][k.value + 1..] + [s[|s| - 1]];
      k
  }

  // All separators dropped, except that the last decimal one becomes a point.
  function Rewritten(raw: string, decimal: char): string {
    match LastIndex(raw, decimal)
    case None => WithoutSeparators(raw)
    case Some(k) => WithoutSeparators(raw[..k]) + "." + WithoutSeparators(raw[k + 1..])
  }

  lemma {:induction false} WithoutSeparatorsConcat(s: string, t: string)
    ensures WithoutSeparators(s + t) == WithoutSeparators(s) + WithoutSeparators(t)
  {
    if s == [] {
      assert s + t == t;
    } else {
      assert (s + t)[1..] == s[1..] + t;
      WithoutSeparatorsConcat(s[1..], t);
    }
  }

  lemma WithoutSeparatorsSnoc(s: string, k: nat, n: nat)
    requires k <= n < |s|
    ensures WithoutSeparators(s[k..n + 1]) == WithoutSeparators(s[k..n]) + if IsSeparator(s[n]) then [] else [s[n]]
  {
    assert s[k..n + 1] == s[k..n] + [s[n]];
    WithoutSeparatorsConcat(s[k..n], [s[n]]);
    assert [s[n]][1..] == [];
  }

  method RewriteWithDecimal(raw: string, decimal: char) returns (output: string)
    requires IsSeparator(decimal)
    ensures output == Rewritten(raw, decimal)
  {
    hide WithoutSeparators;
    var last := LastIndex(raw, decimal);
    output := [];
    Nothing();
    for index := 0 to |raw|
      invariant last.None? || index <= last.value ==> output == WithoutSeparators(raw[0..index])
      invariant last.Some? && index > last.value ==>
                  output == WithoutSeparators(raw[0..last.value]) + "." + WithoutSeparators(raw[last.value + 1..index])
    {
      var c := raw[index];
      WithoutSeparatorsSnoc(raw, 0, index);
      if last.Some? && index > last.value {
        WithoutSeparatorsSnoc(raw, last.value + 1, index);
      }
      if IsSeparator(c) {
        if last == Some(index) {
          assert raw[index + 1..index + 1] == [];
          output := output + ".";
        }
      } else {
        output := output + [c];
      }
    }
    assert raw[0..|raw|] == raw;
    if last.Some? {
      assert raw[0..last.value] == raw[..last.value];
      assert raw[last.value + 1..|raw|] == raw[last.value + 1..];
    }
  }

  lemma Nothing()
    ensures WithoutSeparators([]) == []
  {
  }

  function Occurrences(s: string, c: char): nat {
    if s == [] then 0 else (if s[0] == c then 1 else 0) + Occurrences(s[1..], c)
  }

  // `split` on one character.
  function Split(s: string, c: char): (groups: seq<string>)
    ensures groups != []
  {
    if s == [] then [[]]
    else
      var groups := Split(s[1..], c);
      if s[0] == c then [[]] + groups else [[s[0]] + groups[0]] + groups[1..]
  }

  predicate IsThousand(group: string) { |group| == 3 && AllDigits(group) }

  predicate AreThousands(groups: seq<string>) { forall i | 0 <= i < |groups| :: IsThousand(groups[i]) }

  function WithoutSigns(s: string): string {
    if s != [] && (s[0] == '+' || s[0] == '-') then WithoutSigns(s[1..]) else s
  }

  function DigitCount(s: string): nat {
    if s == [] then 0 else (if IsDigit(s[0]) then 1 else 0) + DigitCount(s[1..])
  }

  datatype Normalized = Normalized(text: string, confidence: nat)

  // A single separator followed by three characters after one to three digits
  // is taken for a thousands separator.
  function NormalizeSeparators(raw: string): Normalized {
    if '.' in raw && ',' in raw then
      var decimal := if LastIndex(raw, '.').value > LastIndex(raw, ',').value then '.' else ',';
      Normalized(Rewritten(raw, decimal), 95)
    else if '.' !in raw && ',' !in raw then Normalized(raw, 100)
    else
      var separator := if '.' in raw then '.' else ',';
      if Occurrences(raw, separator) > 1 then
        if AreThousands(Split(raw, separator)[1..]) then Normalized(Without(raw, separator), 90)
        else Normalized(Rewritten(raw, separator), 70)
      else
        var position := LastIndex(raw, separator).value;
        if |raw| - (position + 1) == 3 && 1 <= DigitCount(WithoutSigns(raw[..position])) <= 3
        then Normalized(Without(raw, separator), 70)
        else Normalized(Rewritten(raw, separator), 90)
  }

  // ---------------------------------------------------------------------
  // The reader
  // ---------------------------------------------------------------------

  function TrimSymbolsStart(s: string): string {
    if s != [] && !IsNumeric(s[0]) then TrimSymbolsStart(s[1..]) else s
  }

  function TrimSymbolsEnd(s: string): string {
    if s != [] && !IsNumeric(s[|s| - 1]) then TrimSymbolsEnd(s[..|s| - 1]) else s
  }

  function TrimNumericAffixes(s: string): string { TrimSymbolsEnd(TrimSymbolsStart(s)) }

  // A number and the marks around it.
  datatype Marked = Marked(number: string, negative: bool, percent: bool)

  predicate InParentheses(text: string) { |text| >= 2 && text[0] == '(' && text[|text| - 1] == ')' }

  predicate EndsWith(text: string, c: char) { text != [] && text[|text| - 1] == c }

  function Unmark(text: string): Marked {
    var inner := if InParentheses(text) then text[1..|text| - 1] else text;
    var unsigned := if EndsWith(inner, '-') then inner[..|inner| - 1] else inner;
    var bare := if EndsWith(unsigned, '%') then unsigned[..|unsigned| - 1] else unsigned;
    Marked(TrimNumericAffixes(bare), InParentheses(text) || EndsWith(inner, '-'), EndsWith(unsigned, '%'))
  }

  function Value<D>(decimals: Decimals<D>, normalized: string, negative: bool, percent: bool): Option<D> {
    match if 'e' in normalized || 'E' in normalized then decimals.scientific(normalized) else decimals.plain(normalized)
    case None => None
    case Some(value) =>
      var signed := if negative then decimals.negative(value) else value;
      Some(if percent then decimals.hundredth(signed) else signed)
  }

  function Reading<D>(decimals: Decimals<D>, raw: string): Option<ParsedNumber<D>> {
    var marked := Unmark(Clean(raw));
    if marked.number == [] || !AllNumeric(marked.number) then None
    else
      var normalized := NormalizeSeparators(marked.number);
      match Value(decimals, normalized.text, marked.negative, marked.percent)
      case None => None
      case Some(value) => Some(ParsedNumber(value, marked.percent, normalized.confidence, normalized.text))
  }

  lemma NothingToTrim()
    ensures TrimNumericAffixes([]) == []
  {
  }

  method ParseNumber<D>(decimals: Decimals<D>, raw: string) returns (r: Option<ParsedNumber<D>>)
    ensures r == Reading(decimals, raw)
  {
    hide NormalizeSeparators, Compact, TrimSymbolsStart, TrimSymbolsEnd;
    var text := Clean(raw);
    if text == [] {
      NothingToTrim();
      return None;
    }
    var negative := false;
    if InParentheses(text) {
      negative := true;
      text := text[1..|text| - 1];
    }
    if EndsWith(text, '-') {
      negative := true;
      text := text[..|text| - 1];
    }
    var isPercent := EndsWith(text, '%');
    if isPercent {
      text := text[..|text| - 1];
    }
    text := TrimNumericAffixes(text);
    if text == [] || !AllNumeric(text) {
      return None;
    }
    var normalized := NormalizeSeparators(text);
    var value := if 'e' in normalized.text || 'E' in normalized.text
                 then decimals.scientific(normalized.text) else decimals.plain(normalized.text);
    if value.None? {
      return None;
    }
    var number := value.value;
    if negative {
      number := decimals.negative(number);
    }
    if isPercent {
      number := decimals.hundredth(number);
    }
    return Some(ParsedNumber(number, isPercent, normalized.confidence, normalized.text));
  }

  // ---------------------------------------------------------------------
  // What the separators become, for any text
  // ---------------------------------------------------------------------

  lemma {:induction false} WithoutSeparatorsClean(s: string)
    ensures '.' !in WithoutSeparators(s) && ',' !in WithoutSeparators(s)
  {
    if s != [] {
      WithoutSeparatorsClean(s[1..]);
    }
  }

  lemma {:induction false} WithoutOneSeparator(s: string, c: char)
    requires IsSeparator(c) && forall i | 0 <= i < |s| :: IsSeparator(s[i]) ==> s[i] == c
    ensures Without(s, c) == WithoutSeparators(s)
  {
    if s != [] {
      WithoutOneSeparator(s[1..], c);
    }
  }

  // The text `raw` becomes when its separator at k is kept as the point.
  predicate PointAt(raw: string, k: nat, text: string) {
    && k < |raw|
    && IsSeparator(raw[k])
    && raw[k] !in raw[k + 1..]
    && text == WithoutSeparators(raw[..k]) + "." + WithoutSeparators(raw[k + 1..])
  }

  lemma {:induction false} RewrittenHasOnePoint(raw: string, decimal: char)
    requires IsSeparator(decimal) && decimal in raw
    ensures exists k :: PointAt(raw, k, Rewritten(raw, decimal))
  {
    hide WithoutSeparators;
    assert PointAt(raw, LastIndex(raw, decimal).value, Rewritten(raw, decimal));
  }

  // A normalized text keeps every other character of the number in its order
  // and has at most one separator, a point standing where the last point or
  // the last comma stood.
  lemma {:induction false} SeparatorsBecomeOnePoint(raw: string)
    ensures var text := NormalizeSeparators(raw).text;
            text == WithoutSeparators(raw) || exists k :: PointAt(raw, k, text)
  {
    hide WithoutSeparators, Without, Split, Occurrences, Rewritten, PointAt, DigitCount;
    if '.' in raw {
      RewrittenHasOnePoint(raw, '.');
    }
    if ',' in raw {
      RewrittenHasOnePoint(raw, ',');
    }
    if '.' !in raw {
      WithoutOneSeparator(raw, ',');
      if ',' !in raw {
        WithoutAbsent(raw, ',');
      }
    } else if ',' !in raw {
      WithoutOneSeparator(raw, '.');
    }
  }

  // ---------------------------------------------------------------------
  // Grouped printing
  // ---------------------------------------------------------------------

  function Pad3(n: nat): (s: string)
    requires n < 1000
    ensures |s| == 3 && AllDigits(s)
  {
    [DigitChar(n / 100), DigitChar(n / 10 % 10), DigitChar(n % 10)]
  }

  // The integer part in groups of three.
  function Grouped(n: nat, separator: char): string {
    if n < 1000 then Numeral(n) else Grouped(n / 1000, separator) + [separator] + Pad3(n % 1000)
  }

  function OtherSeparator(c: char): char { if c == '.' then ',' else '.' }

  function IntegerText(n: nat, grouped: bool, decimal: char): string {
    if grouped then Grouped(n, OtherSeparator(decimal)) else Numeral(n)
  }

  function FractionText(fraction: string, decimal: char): string {
    if fraction == [] then [] else [decimal] + fraction
  }

  // An unsigned number in either convention, with or without thousands groups.
  function Printed(n: nat, fraction: string, grouped: bool, decimal: char): string {
    IntegerText(n, grouped, decimal) + FractionText(fraction, decimal)
  }

  // The one spelling the decimal library reads.
  function Plain(n: nat, fraction: string): string { Numeral(n) + FractionText(fraction, '.') }

  // The prints that cannot be told from a number of thousands.
  predicate Ambiguous(n: nat, fraction: string) { n < 1000 && |fraction| == 3 }

  lemma NumeralStep(n: nat)
    requires n >= 10
    ensures Numeral(n) == Numeral(n / 10) + [DigitChar(n % 10)]
  {
  }

  lemma LastThreeDigits(n: nat)
    ensures n % 1000 % 10 == n % 10
    ensures n % 1000 / 10 % 10 == n / 10 % 10
    ensures n % 1000 / 100 == n / 10 / 10 % 10
    ensures n / 10 / 10 / 10 == n / 1000
  {
    var c, r := n / 1000, n % 1000;
    assert n == 1000 * c + r;
    assert n / 10 == 100 * c + r / 10;
    assert n / 10 / 10 == 10 * c + r / 100;
  }

  lemma NumeralByThousands(n: nat)
    requires n >= 1000
    ensures Numeral(n) == Numeral(n / 1000) + Pad3(n % 1000)
  {
    hide Numeral;
    NumeralStep(n);
    NumeralStep(n / 10);
    NumeralStep(n / 10 / 10);
    LastThreeDigits(n);
  }

  lemma {:induction false} DigitsHaveNoSeparators(s: string)
    requires AllDigits(s)
    ensures WithoutSeparators(s) == s
  {
    if s != [] {
      DigitsHaveNoSeparators(s[1..]);
    }
  }

  // Dropping the separators of a grouped number leaves its numeral.
  lemma {:induction false} GroupedDigits(n: nat, separator: char)
    requires IsSeparator(separator)
    ensures WithoutSeparators(Grouped(n, separator)) == Numeral(n)
  {
    hide WithoutSeparators, Numeral, Pad3;
    if n < 1000 {
      DigitsHaveNoSeparators(Numeral(n));
    } else {
      GroupedDigits(n / 1000, separator);
      NumeralByThousands(n);
      StripGroup(Grouped(n / 1000, separator), separator, Pad3(n % 1000));
    }
  }

  lemma {:induction false} StripGroup(front: string, separator: char, last: string)
    requires IsSeparator(separator) && AllDigits(last)
    ensures WithoutSeparators(front + [separator] + last) == WithoutSeparators(front) + last
  {
    hide WithoutSeparators;
    WithoutSeparatorsConcat(front + [separator], last);
    WithoutSeparatorsConcat(front, [separator]);
    SeparatorVanishes(separator);
    DigitsHaveNoSeparators(last);
    assert WithoutSeparators(front) + [] == WithoutSeparators(front);
  }

  lemma SeparatorVanishes(c: char)
    requires IsSeparator(c)
    ensures WithoutSeparators([c]) == []
  {
  }

  // Grouped numbers consist of digits and their separator, which occurs from
  // one thousand on, and begin and end with digits.
  lemma {:induction false} GroupedShape(n: nat, separator: char)
    ensures var text := Grouped(n, separator);
            && text != [] && IsDigit(text[0]) && IsDigit(text[|text| - 1])
            && (forall i | 0 <= i < |text| :: IsDigit(text[i]) || text[i] == separator)
            && (n >= 1000 ==> separator in text)
            && (n < 1000 ==> text == Numeral(n))
  {
    hide Numeral;
    if n >= 1000 {
      GroupedShape(n / 1000, separator);
      var front, last := Grouped(n / 1000, separator), Pad3(n % 1000);
      var text := Grouped(n, separator);
      assert text == front + [separator] + last;
      assert text[|front|] == separator;
      assert text[0] == front[0] && text[|text| - 1] == last[2];
    }
  }

  lemma {:induction false} SplitSnoc(s: string, c: char, t: string)
    requires c !in t
    ensures Split(s + [c] + t, c) == Split(s, c) + [t]
  {
    if s == [] {
      SplitAbsent(t, c);
      assert ([] + [c] + t)[1..] == t;
    } else {
      SplitSnoc(s[1..], c, t);
      assert (s + [c] + t)[1..] == s[1..] + [c] + t;
      assert (s + [c] + t)[0] == s[0];
    }
  }

  lemma {:induction false} SplitAbsent(s: string, c: char)
    requires c !in s
    ensures Split(s, c) == [s]
  {
    if s != [] {
      SplitAbsent(s[1..], c);
      assert [s[0]] + s[1..] == s;
    }
  }

  lemma {:induction false} OccurrencesConcat(s: string, t: string, c: char)
    ensures Occurrences(s + t, c) == Occurrences(s, c) + Occurrences(t, c)
  {
    if s == [] {
      assert s + t == t;
    } else {
      assert (s + t)[1..] == s[1..] + t;
      OccurrencesConcat(s[1..], t, c);
    }
  }

  lemma {:induction false} OccurrencesAbsent(s: string, c: char)
    ensures Occurrences(s, c) == 0 <==> c !in s
  {
    if s != [] {
      OccurrencesAbsent(s[1..], c);
    }
  }

  lemma {:induction false} OccursOnce(s: string, c: char, t: string)
    requires c !in s && c !in t
    ensures Occurrences(s + [c] + t, c) == 1 && LastIndex(s + [c] + t, c) == Some(|s|)
  {
    OccurrencesConcat(s + [c], t, c);
    OccurrencesConcat(s, [c], c);
    OccurrencesAbsent(s, c);
    OccurrencesAbsent(t, c);
    assert [c][1..] == [];
    LastIndexIs(s, c, t);
  }

  lemma {:induction false} LastIndexIs(s: string, c: char, t: string)
    requires c !in t
    ensures LastIndex(s + [c] + t, c) == Some(|s|)
  {
    hide LastIndex;
    var all := s + [c] + t;
    assert all[|s|] == c;
    var k := LastIndex(all, c).value;
  }

  // Every group after the first is a thousand.
  lemma {:induction false} GroupsAreThousands(lead: string, n: nat, separator: char)
    requires IsSeparator(separator) && separator !in lead
    ensures AreThousands(Split(lead + Grouped(n, separator), separator)[1..])
  {
    hide Numeral, Split;
    var text := lead + Grouped(n, separator);
    if n < 1000 {
      SplitAbsent(text, separator);
    } else {
      var front, last := lead + Grouped(n / 1000, separator), Pad3(n % 1000);
      assert text == front + [separator] + last;
      GroupsAreThousands(lead, n / 1000, separator);
      SplitSnoc(front, separator, last);
      var groups := Split(front, separator);
      assert (groups + [last])[1..] == groups[1..] + [last];
    }
  }

  // One separator up to a million, more from there on.
  lemma {:induction false} SeparatorCount(lead: string, n: nat, separator: char)
    requires IsSeparator(separator) && separator !in lead
    ensures Occurrences(lead + Grouped(n, separator), separator) ==
            if n < 1000 then 0 else 1 + Occurrences(lead + Grouped(n / 1000, separator), separator)
    ensures n >= 1000 ==> Occurrences(lead + Grouped(n, separator), separator) >= 1
  {
    hide Numeral, Occurrences;
    var text := lead + Grouped(n, separator);
    if n < 1000 {
      OccurrencesAbsent(text, separator);
    } else {
      var front, last := lead + Grouped(n / 1000, separator), Pad3(n % 1000);
      assert text == front + [separator] + last;
      OccurrencesConcat(front + [separator], last, separator);
      OccurrencesConcat(front, [separator], separator);
      OccurrencesAbsent(last, separator);
      OneOccurrence(separator);
    }
  }

  lemma OneOccurrence(c: char)
    ensures Occurrences([c], c) == 1
  {
  }

  // ---------------------------------------------------------------------
  // The separators are understood
  // ---------------------------------------------------------------------

  // An optional leading minus.
  predicate IsLead(lead: string) { lead == [] || lead == ['-'] }

  // Whole numbers are read as they are; a single group is only 70 percent sure.
  lemma {:induction false} WholeNumbersAreUnderstood(lead: string, n: nat, grouped: bool, decimal: char)
    requires IsLead(lead) && IsSeparator(decimal)
    ensures NormalizeSeparators(lead + Printed(n, "", grouped, decimal)) ==
            Normalized(lead + Numeral(n), if !grouped || n < 1000 then 100 else if n < 1000_000 then 70 else 90)
  {
    hide Grouped, Numeral, WithoutSeparators, Rewritten, Split, Occurrences, Without, DigitCount, LastIndex;
    var thousands := OtherSeparator(decimal);
    var text := lead + IntegerText(n, grouped, decimal);
    assert lead + Printed(n, "", grouped, decimal) == text;
    GroupedShape(n, thousands);
    if grouped && n >= 1000 {
      GroupedIsUnderstood(lead, n, thousands);
    } else {
      assert IntegerText(n, grouped, decimal) == Numeral(n);
    }
  }

  lemma {:induction false} LeadIsKept(lead: string, s: string)
    requires IsLead(lead)
    ensures WithoutSeparators(lead + s) == lead + WithoutSeparators(s)
    ensures WithoutSigns(lead + s) == WithoutSigns(s)
  {
    WithoutSeparatorsConcat(lead, s);
    if lead == [] {
      assert lead + s == s;
    } else {
      assert (lead + s)[1..] == s;
      assert lead[1..] == [];
    }
  }

  lemma {:induction false} GroupedIsUnderstood(lead: string, n: nat, separator: char)
    requires IsLead(lead) && IsSeparator(separator) && n >= 1000
    ensures NormalizeSeparators(lead + Grouped(n, separator)) ==
            Normalized(lead + Numeral(n), if n < 1000_000 then 70 else 90)
  {
    hide Grouped, Numeral, WithoutSeparators, Rewritten, Split, Occurrences, Without, DigitCount, WithoutSigns,
      LastIndex;
    var text := lead + Grouped(n, separator);
    GroupedShape(n, separator);
    GroupsAreThousands(lead, n, separator);
    SeparatorCount(lead, n, separator);
    WithoutOneSeparator(text, separator);
    LeadIsKept(lead, Grouped(n, separator));
    GroupedDigits(n, separator);
    SeparatorCount(lead, n / 1000, separator);
    if n < 1000_000 {
      SmallGroup(lead, n, separator);
    }
  }

  // From one thousand to one million the single group is recognised as such.
  lemma {:induction false} SmallGroup(lead: string, n: nat, separator: char)
    requires IsLead(lead) && IsSeparator(separator) && 1000 <= n < 1000_000
    ensures var text := lead + Grouped(n, separator);
            && separator in text
            && |text| == LastIndex(text, separator).value + 4
            && 1 <= DigitCount(WithoutSigns(text[..LastIndex(text, separator).value])) <= 3
  {
    hide Numeral, DigitCount, WithoutSigns, LastIndex;
    var front, last := lead + Numeral(n / 1000), Pad3(n % 1000);
    var text := lead + Grouped(n, separator);
    assert Grouped(n / 1000, separator) == Numeral(n / 1000);
    assert text == front + [separator] + last;
    assert text[|front|] == separator;
    LastIndexIs(front, separator, last);
    assert text[..|front|] == front;
    LeadIsKept(lead, Numeral(n / 1000));
    SmallNumeral(n / 1000);
  }

  lemma {:induction false} CountDigits(s: string)
    requires AllDigits(s)
    ensures DigitCount(s) == |s| && WithoutSigns(s) == s
  {
    if s != [] {
      CountDigits(s[1..]);
    }
  }

  // One to three digits, exactly below one thousand.
  lemma SmallNumeral(n: nat)
    ensures WithoutSigns(Numeral(n)) == Numeral(n)
    ensures DigitCount(Numeral(n)) == |Numeral(n)| >= 1
    ensures |Numeral(n)| <= 3 <==> n < 1000
  {
    CountDigits(Numeral(n));
    if n >= 1000 {
      NumeralByThousands(n);
    } else if n >= 100 {
      NumeralStep(n);
      NumeralStep(n / 10);
      assert |Numeral(n / 10 / 10)| == 1;
    } else if n >= 10 {
      NumeralStep(n);
      assert |Numeral(n / 10)| == 1;
    }
  }

  // With a fraction, the last separator is the decimal one; a single separator
  // before three digits is the exception.
  lemma {:induction false} FractionsAreUnderstood(lead: string, n: nat, fraction: string, grouped: bool, decimal: char)
    requires IsLead(lead) && IsSeparator(decimal) && AllDigits(fraction) && fraction != []
    ensures NormalizeSeparators(lead + Printed(n, fraction, grouped, decimal)) ==
            if Ambiguous(n, fraction) then Normalized(lead + Numeral(n) + fraction, 70)
            else Normalized(lead + Plain(n, fraction), if grouped && n >= 1000 then 95 else 90)
  {
    hide *;
    var thousands := OtherSeparator(decimal);
    var front := lead + IntegerText(n, grouped, decimal);
    PrintedParts(lead, n, fraction, grouped, decimal);
    FractionRewritten(lead, n, fraction, grouped, decimal);
    if grouped && n >= 1000 {
      GroupedFraction(front, thousands, decimal, fraction);
      LargeIsClear(n, fraction);
    } else {
      SingleSeparator(lead, n, decimal, fraction);
    }
  }

  lemma LargeIsClear(n: nat, fraction: string)
    ensures n >= 1000 ==> !Ambiguous(n, fraction)
  {
  }

  lemma {:induction false} PrintedParts(lead: string, n: nat, fraction: string, grouped: bool, decimal: char)
    requires fraction != []
    ensures lead + Printed(n, fraction, grouped, decimal) ==
            lead + IntegerText(n, grouped, decimal) + [decimal] + fraction
    ensures grouped && n >= 1000 ==> OtherSeparator(decimal) in lead + IntegerText(n, grouped, decimal)
    ensures !(grouped && n >= 1000) ==> IntegerText(n, grouped, decimal) == Numeral(n)
  {
    hide Grouped, Numeral;
    GroupedShape(n, OtherSeparator(decimal));
  }

  lemma {:induction false} RewrittenAt(front: string, decimal: char, fraction: string)
    requires IsSeparator(decimal) && AllDigits(fraction)
    ensures Rewritten(front + [decimal] + fraction, decimal) == WithoutSeparators(front) + "." + fraction
  {
    hide WithoutSeparators, LastIndex;
    var text := front + [decimal] + fraction;
    LastIndexIs(front, decimal, fraction);
    assert text[..|front|] == front && text[|front| + 1..] == fraction;
    DigitsHaveNoSeparators(fraction);
  }

  lemma {:induction false} FractionRewritten(lead: string, n: nat, fraction: string, grouped: bool, decimal: char)
    requires IsLead(lead) && IsSeparator(decimal) && AllDigits(fraction) && fraction != []
    ensures Rewritten(lead + IntegerText(n, grouped, decimal) + [decimal] + fraction, decimal) ==
            lead + Plain(n, fraction)
  {
    hide Grouped, Numeral, WithoutSeparators, Rewritten;
    RewrittenAt(lead + IntegerText(n, grouped, decimal), decimal, fraction);
    LeadIsKept(lead, IntegerText(n, grouped, decimal));
    GroupedDigits(n, OtherSeparator(decimal));
    DigitsHaveNoSeparators(Numeral(n));
    assert lead + Numeral(n) + "." + fraction == lead + Plain(n, fraction);
  }

  lemma {:induction false} GroupedFraction(front: string, thousands: char, decimal: char, fraction: string)
    requires IsSeparator(decimal) && thousands == OtherSeparator(decimal) && thousands in front
    requires AllDigits(fraction)
    ensures NormalizeSeparators(front + [decimal] + fraction) ==
            Normalized(Rewritten(front + [decimal] + fraction, decimal), 95)
  {
    hide Rewritten, Split, Occurrences, Without, DigitCount, WithoutSigns, LastIndex;
    var text := front + [decimal] + fraction;
    LastIndexIs(front, decimal, fraction);
    assert thousands in text && text[|front|] == decimal;
    var k := LastIndex(text, thousands).value;
    assert k < |front|;
  }

  lemma {:induction false} SingleDropped(lead: string, n: nat, decimal: char, fraction: string)
    requires IsLead(lead) && IsSeparator(decimal) && AllDigits(fraction)
    ensures Without(lead + Numeral(n) + [decimal] + fraction, decimal) == lead + Numeral(n) + fraction
  {
    hide Numeral, WithoutSeparators, Without;
    WithoutOneSeparator(lead + Numeral(n) + [decimal] + fraction, decimal);
    StripGroup(lead + Numeral(n), decimal, fraction);
    LeadIsKept(lead, Numeral(n));
    DigitsHaveNoSeparators(Numeral(n));
  }

  lemma {:induction false} SingleSeparator(lead: string, n: nat, decimal: char, fraction: string)
    requires IsLead(lead) && IsSeparator(decimal) && AllDigits(fraction) && fraction != []
    ensures var text := lead + Numeral(n) + [decimal] + fraction;
            NormalizeSeparators(text) ==
            if Ambiguous(n, fraction) then Normalized(lead + Numeral(n) + fraction, 70)
            else Normalized(Rewritten(text, decimal), 90)
  {
    hide NormalizeSeparators, Numeral, Rewritten, Occurrences, Without, DigitCount, WithoutSigns, LastIndex, IsLead;
    var front := lead + Numeral(n);
    var text := front + [decimal] + fraction;
    FrontHasNoSeparators(lead, n);
    OccursOnce(front, decimal, fraction);
    assert text[|front|] == decimal && text[..|front|] == front;
    LeadIsKept(lead, Numeral(n));
    SmallNumeral(n);
    SingleDropped(lead, n, decimal, fraction);
    OneSeparator(text, decimal, |front|);
  }

  lemma {:induction false} FrontHasNoSeparators(lead: string, n: nat)
    requires IsLead(lead)
    ensures '.' !in lead + Numeral(n) && ',' !in lead + Numeral(n)
  {
  }

  // What a single separator becomes.
  lemma {:induction false} OneSeparator(text: string, separator: char, position: nat)
    requires IsSeparator(separator) && separator in text && OtherSeparator(separator) !in text
    requires Occurrences(text, separator) == 1 && LastIndex(text, separator) == Some(position)
    ensures NormalizeSeparators(text) ==
            if |text| - (position + 1) == 3 && 1 <= DigitCount(WithoutSigns(text[..position])) <= 3
            then Normalized(Without(text, separator), 70)
            else Normalized(Rewritten(text, separator), 90)
  {
  }

  // ---------------------------------------------------------------------
  // Signs, percent and currency marks
  // ---------------------------------------------------------------------

  datatype Sign = Positive | LeadingMinus | TrailingMinus | Parentheses

  function Lead(sign: Sign): (lead: string)
    ensures IsLead(lead)
  {
    if sign.LeadingMinus? then ['-'] else []
  }

  // Text around a number that is neither its parentheses nor its percent sign.
  predicate AreMarks(s: string) { forall i | 0 <= i < |s| :: s[i] !in "()%" }

  predicate NoNumeric(s: string) { forall i | 0 <= i < |s| :: !IsNumeric(s[i]) }

  // Marks without digits, separators, signs and the exponent letters.
  predicate AreSymbols(s: string) { AreMarks(s) && NoNumeric(s) }

  function Core(sign: Sign, prefix: string, body: string, suffix: string, percent: bool): string {
    prefix + (Lead(sign) + body) + suffix + if percent then ['%'] else []
  }

  function Spelled(sign: Sign, prefix: string, body: string, suffix: string, percent: bool): string {
    var core := Core(sign, prefix, body, suffix, percent);
    match sign
    case Parentheses => ['('] + core + [')']
    case TrailingMinus => core + ['-']
    case _ => core
  }

  // A number begins and ends with a digit.
  predicate IsBody(body: string) {
    body != [] && AllNumeric(body) && IsDigit(body[0]) && IsDigit(body[|body| - 1])
  }

  lemma {:induction false} SymbolsAreTrimmed(prefix: string, core: string, suffix: string)
    requires AreSymbols(prefix) && AreSymbols(suffix)
    requires core != [] && IsNumeric(core[0]) && IsNumeric(core[|core| - 1])
    ensures TrimSymbolsStart(prefix + (core + suffix)) == core + suffix
    ensures TrimSymbolsEnd(core + suffix) == core
    decreases |prefix| + |suffix|
  {
    if prefix != [] {
      assert (prefix + (core + suffix))[1..] == prefix[1..] + (core + suffix);
      SymbolsAreTrimmed(prefix[1..], core, suffix);
    } else if suffix != [] {
      var end := |suffix| - 1;
      assert (core + suffix)[..|core + suffix| - 1] == core + suffix[..end];
      SymbolsAreTrimmed(prefix, core, suffix[..end]);
      assert prefix + (core + suffix) == core + suffix;
    } else {
      assert prefix + (core + suffix) == core && core + suffix == core;
    }
  }

  // The core neither looks parenthesised nor ends with a minus, and ends with
  // a percent sign exactly when it was given one.
  lemma {:induction false} CoreEnds(sign: Sign, prefix: string, body: string, suffix: string, percent: bool)
    requires AreMarks(prefix) && AreMarks(suffix) && !EndsWith(suffix, '-') && IsBody(body)
    ensures var core := Core(sign, prefix, body, suffix, percent);
            && core != [] && core[0] != '(' && core[|core| - 1] != '-'
            && (EndsWith(core, '%') <==> percent)
            && (percent ==> core[..|core| - 1] == Core(sign, prefix, body, suffix, false))
  {
  }

  // The sign and the percent sign come off, and what is trimmed at both ends is
  // the number between its marks.
  lemma {:induction false} SignsComeOff(sign: Sign, prefix: string, body: string, suffix: string, percent: bool)
    requires AreMarks(prefix) && AreMarks(suffix) && !EndsWith(suffix, '-') && IsBody(body)
    ensures Unmark(Spelled(sign, prefix, body, suffix, percent)) ==
            Marked(TrimNumericAffixes(prefix + ((Lead(sign) + body) + suffix)),
                   sign.TrailingMinus? || sign.Parentheses?, percent)
  {
    hide TrimNumericAffixes, Core;
    var core := Core(sign, prefix, body, suffix, percent);
    var text := Spelled(sign, prefix, body, suffix, percent);
    CoreEnds(sign, prefix, body, suffix, percent);
    CoreText(sign, prefix, body, suffix);
    if sign.Parentheses? {
      assert text[1..|text| - 1] == core;
    } else if sign.TrailingMinus? {
      assert text[0] == core[0] && text[..|text| - 1] == core;
    }
  }

  lemma CoreText(sign: Sign, prefix: string, body: string, suffix: string)
    ensures Core(sign, prefix, body, suffix, false) == prefix + ((Lead(sign) + body) + suffix)
  {
  }

  lemma {:induction false} UnmarkSpelled(sign: Sign, prefix: string, body: string, suffix: string, percent: bool)
    requires AreSymbols(prefix) && AreSymbols(suffix) && IsBody(body)
    ensures Unmark(Spelled(sign, prefix, body, suffix, percent)) ==
            Marked(Lead(sign) + body, sign.TrailingMinus? || sign.Parentheses?, percent)
    ensures Lead(sign) + body != [] && AllNumeric(Lead(sign) + body)
  {
    SignsComeOff(sign, prefix, body, suffix, percent);
    SymbolsAreTrimmed(prefix, Lead(sign) + body, suffix);
  }

  lemma {:induction false} PrintedIsBody(n: nat, fraction: string, grouped: bool, decimal: char)
    requires IsSeparator(decimal) && AllDigits(fraction)
    ensures IsBody(Printed(n, fraction, grouped, decimal))
  {
    hide Grouped, Numeral;
    GroupedShape(n, OtherSeparator(decimal));
    var front, end := IntegerText(n, grouped, decimal), FractionText(fraction, decimal);
    assert AllNumeric(front) && AllNumeric(end);
    assert fraction != [] ==> end[|end| - 1] == fraction[|fraction| - 1];
  }

  // The text a printed number is reduced to.
  function Understood(n: nat, fraction: string): string {
    if Ambiguous(n, fraction) then Numeral(n) + fraction else Plain(n, fraction)
  }

  lemma {:induction false} PrintedIsUnderstood(lead: string, n: nat, fraction: string, grouped: bool, decimal: char)
    requires IsLead(lead) && IsSeparator(decimal) && AllDigits(fraction)
    ensures NormalizeSeparators(lead + Printed(n, fraction, grouped, decimal)).text == lead + Understood(n, fraction)
    ensures 'e' !in lead + Understood(n, fraction) && 'E' !in lead + Understood(n, fraction)
  {
    hide *;
    NoExponent(lead, n, fraction);
    UnderstoodText(lead, n, fraction);
    if fraction == [] {
      WholeNumbersAreUnderstood(lead, n, grouped, decimal);
    } else {
      FractionsAreUnderstood(lead, n, fraction, grouped, decimal);
    }
  }

  lemma {:induction false} UnderstoodText(lead: string, n: nat, fraction: string)
    ensures lead + Understood(n, fraction) ==
            if fraction == [] then lead + Numeral(n)
            else if Ambiguous(n, fraction) then lead + Numeral(n) + fraction
            else lead + Plain(n, fraction)
  {
  }

  lemma {:induction false} NoExponent(lead: string, n: nat, fraction: string)
    requires IsLead(lead) && AllDigits(fraction)
    ensures 'e' !in lead + Understood(n, fraction) && 'E' !in lead + Understood(n, fraction)
  {
  }

  // Any cell text that folds to a number printed in either convention, with any
  // sign spelling, percent sign and symbols around it, is reduced to one plain
  // text, which is handed to the decimal library.
  lemma {:induction false} PrintedNumbersReadBack<D>(decimals: Decimals<D>, raw: string, sign: Sign, prefix: string,
                                                     suffix: string, percent: bool, n: nat, fraction: string,
                                                     grouped: bool, decimal: char)
    requires AreSymbols(prefix) && AreSymbols(suffix) && IsSeparator(decimal) && AllDigits(fraction)
    requires Clean(raw) == Spelled(sign, prefix, Printed(n, fraction, grouped, decimal), suffix, percent)
    ensures var text := Lead(sign) + Understood(n, fraction);
            match Reading(decimals, raw)
            case None => decimals.plain(text) == None
            case Some(number) =>
              && number.normalized == text
              && number.isPercent == percent
              && number.confidence ==
                 NormalizeSeparators(Lead(sign) + Printed(n, fraction, grouped, decimal)).confidence
              && Some(number.value) == Value(decimals, text, sign.TrailingMinus? || sign.Parentheses?, percent)
  {
    hide NormalizeSeparators, Unmark, Spelled, Printed, Understood, Clean;
    PrintedIsBody(n, fraction, grouped, decimal);
    UnmarkSpelled(sign, prefix, Printed(n, fraction, grouped, decimal), suffix, percent);
    PrintedIsUnderstood(Lead(sign), n, fraction, grouped, decimal);
  }
}
