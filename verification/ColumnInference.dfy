/**
 Inferring the role of each column: header aliases first, then the best ratio
 of long texts, units and currencies, then the search for three columns whose
 rows multiply, then an item-number fallback. Ratios are exact.
 */
module ColumnInference {
  import opened Wrappers
  import opened Segmentation

  datatype Role =
    | ItemNumber | Description | Unit | Quantity | UnitPrice | TotalPrice | Currency | Notes | Unknown

  datatype Stats = Stats(nonEmpty: nat, numeric: nat, text: nat, longText: nat, unit: nat, currency: nat)

  // A map iterated in ascending key order.
  datatype Sorted<V> = Sorted(keys: seq<nat>, values: map<nat, V>)

  ghost predicate Valid<V>(m: Sorted<V>) {
    Ascending(m.keys) && forall c :: c in m.keys <==> c in m.values
  }

  type Assignments = map<nat, Role>

  // The numbers of one row, by column.
  type Numbers = map<nat, real>

  function Ratio(n: nat, d: nat): real
    requires d > 0
  {
    n as real / d as real
  }

  // ---------------------------------------------------------------------
  // The best ratio
  // ---------------------------------------------------------------------

  predicate Candidate(stats: map<nat, Stats>, given: Assignments, c: nat) {
    c in stats && c !in given && stats[c].nonEmpty > 0
  }

  function RatioOf(stats: map<nat, Stats>, numerator: Stats -> nat, c: nat): real
    requires c in stats && stats[c].nonEmpty > 0
  {
    Ratio(numerator(stats[c]), stats[c].nonEmpty)
  }

  // The greatest ratio; of equal ones the last column.
  ghost predicate BestAmong(stats: map<nat, Stats>, given: Assignments, numerator: Stats -> nat, c: nat,
                            columns: seq<nat>) {
    && Candidate(stats, given, c)
    && c in columns
    && forall d | d in columns && Candidate(stats, given, d) ::
         var rc, rd := RatioOf(stats, numerator, c), RatioOf(stats, numerator, d);
         rd < rc || (rd == rc && d <= c)
  }

  ghost predicate NoCandidate(stats: map<nat, Stats>, given: Assignments, columns: seq<nat>) {
    forall d | d in columns :: !Candidate(stats, given, d)
  }

  ghost predicate BestRatioStep(stats: Sorted<Stats>, given: Assignments, role: Role, numerator: Stats -> nat,
                                minimum: real, after: Assignments) {
    if role in given.Values || NoCandidate(stats.values, given, stats.keys) then after == given
    else
      exists c ::
        && BestAmong(stats.values, given, numerator, c, stats.keys)
        && after == if RatioOf(stats.values, numerator, c) >= minimum then given[c := role] else given
  }

  method AssignBestRatio(stats: Sorted<Stats>, given: Assignments, role: Role, numerator: Stats -> nat, minimum: real)
    returns (after: Assignments)
    requires Valid(stats)
    ensures BestRatioStep(stats, given, role, numerator, minimum, after)
  {
    if role in given.Values {
      return given;
    }
    var best: Option<nat> := None;
    var keys := stats.keys;
    for i := 0 to |keys|
      invariant Leads(stats.values, given, numerator, best, keys[..i])
    {
      hide BestAmong, NoCandidate;
      assert keys[..i + 1] == keys[..i] + [keys[i]];
      var c := keys[i];
      assert forall d | d in keys[..i] :: d < c;
      OneMoreColumn(stats.values, given, numerator, best, keys[..i], c);
      if c !in given && stats.values[c].nonEmpty > 0 {
        if best.None? || RatioOf(stats.values, numerator, c) >= RatioOf(stats.values, numerator, best.value) {
          best := Some(c);
        }
      }
    }
    assert keys[..|keys|] == keys;
    after := given;
    if best.Some? && RatioOf(stats.values, numerator, best.value) >= minimum {
      after := given[best.value := role];
    }
    assert best.None? || BestAmong(stats.values, given, numerator, best.value, keys);
  }

  ghost predicate Leads(stats: map<nat, Stats>, given: Assignments, numerator: Stats -> nat, best: Option<nat>,
                        columns: seq<nat>) {
    if best.None? then NoCandidate(stats, given, columns) else BestAmong(stats, given, numerator, best.value, columns)
  }

  lemma OneMoreColumn(stats: map<nat, Stats>, given: Assignments, numerator: Stats -> nat, best: Option<nat>,
                      columns: seq<nat>, c: nat)
    requires Leads(stats, given, numerator, best, columns) && forall d | d in columns :: d < c
    ensures best.Some? ==> Candidate(stats, given, best.value)
    ensures var better := Candidate(stats, given, c) &&
                          (best.None? || RatioOf(stats, numerator, c) >= RatioOf(stats, numerator, best.value));
            Leads(stats, given, numerator, if better then Some(c) else best, columns + [c])
  {
    hide RatioOf;
  }

  // ---------------------------------------------------------------------
  // The arithmetic search
  // ---------------------------------------------------------------------

  function Abs(x: real): real { if x < 0.0 then -x else x }

  function Max(x: real, y: real): real { if x < y then y else x }

  // The amount is quantity times rate, give or take a cent or a thousandth.
  predicate Multiplies(quantity: real, rate: real, amount: real) {
    var expected := quantity * rate;
    Abs(expected - amount) <= Max(0.01, Abs(expected) * 0.001)
  }

  datatype Triple = Triple(quantity: nat, rate: nat, amount: nat)

  predicate IsComparable(row: Numbers, t: Triple) { t.quantity in row && t.rate in row && t.amount in row }

  predicate IsMatching(row: Numbers, t: Triple) {
    IsComparable(row, t) && Multiplies(row[t.quantity], row[t.rate], row[t.amount])
  }

  function Comparable(rows: seq<Numbers>, t: Triple): nat {
    if rows == [] then 0
    else Comparable(rows[..|rows| - 1], t) + if IsComparable(rows[|rows| - 1], t) then 1 else 0
  }

  function Matching(rows: seq<Numbers>, t: Triple): nat {
    if rows == [] then 0
    else Matching(rows[..|rows| - 1], t) + if IsMatching(rows[|rows| - 1], t) then 1 else 0
  }

  function Score(rows: seq<Numbers>, t: Triple): real
    requires Comparable(rows, t) > 0
  {
    Ratio(Matching(rows, t), Comparable(rows, t))
  }

  method CountMatches(rows: seq<Numbers>, t: Triple) returns (comparable: nat, matching: nat)
    ensures comparable == Comparable(rows, t) && matching == Matching(rows, t)
  {
    comparable, matching := 0, 0;
    for i := 0 to |rows|
      invariant comparable == Comparable(rows[..i], t) && matching == Matching(rows[..i], t)
    {
      assert rows[..i + 1][..i] == rows[..i];
      var row := rows[i];
      if IsComparable(row, t) {
        comparable := comparable + 1;
        if Multiplies(row[t.quantity], row[t.rate], row[t.amount]) {
          matching := matching + 1;
        }
      }
    }
    assert rows[..|rows|] == rows;
  }

  predicate Lex(t: Triple, u: Triple) {
    || t.quantity < u.quantity
    || (t.quantity == u.quantity && (t.rate < u.rate || (t.rate == u.rate && t.amount < u.amount)))
  }

  // Positions in the list of numeric columns.
  predicate InRange(n: nat, t: Triple) { t.quantity < t.rate < t.amount < n }

  function At(columns: seq<nat>, t: Triple): Triple
    requires InRange(|columns|, t)
  {
    Triple(columns[t.quantity], columns[t.rate], columns[t.amount])
  }

  predicate Eligible(rows: seq<Numbers>, columns: seq<nat>, t: Triple) {
    InRange(|columns|, t) && Comparable(rows, At(columns, t)) >= 2
  }

  // The best of the eligible triples before `limit`, the first of equal ones.
  ghost predicate Leading(rows: seq<Numbers>, columns: seq<nat>, best: Option<Triple>, limit: Triple) {
    match best
    case None => forall t | Eligible(rows, columns, t) :: !Lex(t, limit)
    case Some(w) =>
      && Eligible(rows, columns, w)
      && Lex(w, limit)
      && forall t | Eligible(rows, columns, t) && Lex(t, limit) :: NoBetter(rows, columns, t, w)
  }

  predicate NoBetter(rows: seq<Numbers>, columns: seq<nat>, t: Triple, w: Triple)
    requires Eligible(rows, columns, t) && Eligible(rows, columns, w)
  {
    var st, sw := Score(rows, At(columns, t)), Score(rows, At(columns, w));
    st < sw || (st == sw && !Lex(t, w))
  }

  lemma LeadingStep(rows: seq<Numbers>, columns: seq<nat>, best: Option<Triple>, t: Triple)
    requires Leading(rows, columns, best, t) && InRange(|columns|, t)
    ensures var next := Triple(t.quantity, t.rate, t.amount + 1);
            if Eligible(rows, columns, t) &&
               (best.None? || Score(rows, At(columns, t)) > Score(rows, At(columns, best.value)))
            then Leading(rows, columns, Some(t), next)
            else Leading(rows, columns, best, next)
  {
    hide Score, Comparable;
    var next := Triple(t.quantity, t.rate, t.amount + 1);
    assert forall u | Lex(u, next) && !Lex(u, t) :: u == t;
  }

  // Moving on to the next rate, or the next quantity.
  lemma LeadingSame(rows: seq<Numbers>, columns: seq<nat>, best: Option<Triple>, from: Triple, to: Triple)
    requires Leading(rows, columns, best, from) && Lex(from, to)
    requires forall t | InRange(|columns|, t) && Lex(t, to) :: Lex(t, from)
    ensures Leading(rows, columns, best, to)
  {
  }

  // The innermost loop: all amounts after one quantity and rate.
  method SearchAmounts(rows: seq<Numbers>, columns: seq<nat>, i: nat, j: nat, found: Option<Triple>)
    returns (best: Option<Triple>)
    requires i < j < |columns|
    requires Leading(rows, columns, found, Triple(i, j, j + 1))
    ensures Leading(rows, columns, best, Triple(i, j, |columns|))
  {
    hide Score, Comparable, Matching, Leading;
    best := found;
    for k := j + 1 to |columns|
      invariant Leading(rows, columns, best, Triple(i, j, k))
    {
      var t := Triple(i, j, k);
      LeadingStep(rows, columns, best, t);
      BestIsEligible(rows, columns, best, t);
      var comparable, matching := CountMatches(rows, At(columns, t));
      if comparable >= 2 {
        ScoreIs(rows, At(columns, t));
        if best.None? || Ratio(matching, comparable) > Score(rows, At(columns, best.value)) {
          best := Some(t);
        }
      }
    }
  }

  lemma ScoreIs(rows: seq<Numbers>, t: Triple)
    requires Comparable(rows, t) > 0
    ensures Score(rows, t) == Ratio(Matching(rows, t), Comparable(rows, t))
  {
  }

  lemma BestIsEligible(rows: seq<Numbers>, columns: seq<nat>, best: Option<Triple>, limit: Triple)
    requires Leading(rows, columns, best, limit)
    ensures best.Some? ==> Eligible(rows, columns, best.value)
  {
  }

  method SearchTriples(rows: seq<Numbers>, columns: seq<nat>) returns (best: Option<Triple>)
    ensures Leading(rows, columns, best, Triple(|columns|, 0, 0))
  {
    hide Score, Comparable, Matching, Leading;
    var n := |columns|;
    best := None;
    NothingLeads(rows, columns);
    for i := 0 to n
      invariant Leading(rows, columns, best, Triple(i, i + 1, i + 2))
    {
      for j := i + 1 to n
        invariant Leading(rows, columns, best, Triple(i, j, j + 1))
      {
        best := SearchAmounts(rows, columns, i, j, best);
        LeadingSame(rows, columns, best, Triple(i, j, n), Triple(i, j + 1, j + 2));
      }
      LeadingSame(rows, columns, best, Triple(i, n, n + 1), Triple(i + 1, i + 2, i + 3));
    }
    LeadingEnds(rows, columns, best);
  }

  lemma NothingLeads(rows: seq<Numbers>, columns: seq<nat>)
    ensures Leading(rows, columns, None, Triple(0, 1, 2))
  {
  }

  lemma LeadingEnds(rows: seq<Numbers>, columns: seq<nat>, best: Option<Triple>)
    requires Leading(rows, columns, best, Triple(|columns|, |columns| + 1, |columns| + 2))
    ensures Leading(rows, columns, best, Triple(|columns|, 0, 0))
  {
  }

  // Unassigned, at least two cells, at least half of them numbers.
  predicate IsNumericColumn(stats: map<nat, Stats>, given: Assignments, c: nat) {
    && c in stats && c !in given
    && stats[c].nonEmpty >= 2
    && Ratio(stats[c].numeric, stats[c].nonEmpty) >= 0.5
  }

  method NumericColumns(stats: Sorted<Stats>, given: Assignments) returns (columns: seq<nat>)
    requires Valid(stats)
    ensures Ascending(columns)
    ensures forall c :: c in columns <==> IsNumericColumn(stats.values, given, c)
  {
    columns := [];
    var keys := stats.keys;
    for i := 0 to |keys|
      invariant Ascending(columns)
      invariant forall c :: c in columns <==> c in keys[..i] && IsNumericColumn(stats.values, given, c)
    {
      hide IsNumericColumn, Ascending;
      assert keys[..i + 1] == keys[..i] + [keys[i]];
      if IsNumericColumn(stats.values, given, keys[i]) {
        AscendingSnoc(keys, i, columns);
        columns := columns + [keys[i]];
      }
    }
    assert keys[..|keys|] == keys;
  }

  lemma AscendingSnoc(keys: seq<nat>, i: nat, columns: seq<nat>)
    requires Ascending(keys) && i < |keys|
    requires Ascending(columns) && forall c | c in columns :: c in keys[..i]
    ensures Ascending(columns + [keys[i]])
  {
    forall j | 0 <= j < |columns|
      ensures columns[j] < keys[i]
    {
      assert columns[j] in columns;
    }
  }

  // Three ascending numeric columns with at least two rows to compare.
  ghost predicate Admissible(stats: map<nat, Stats>, given: Assignments, rows: seq<Numbers>, t: Triple) {
    && t.quantity < t.rate < t.amount
    && IsNumericColumn(stats, given, t.quantity)
    && IsNumericColumn(stats, given, t.rate)
    && IsNumericColumn(stats, given, t.amount)
    && Comparable(rows, t) >= 2
  }

  // The admissible triple that matches best, the first of equal ones.
  ghost predicate IsBestTriple(stats: map<nat, Stats>, given: Assignments, rows: seq<Numbers>, t: Triple) {
    && Admissible(stats, given, rows, t)
    && forall u | Admissible(stats, given, rows, u) ::
         Score(rows, u) < Score(rows, t) || (Score(rows, u) == Score(rows, t) && !Lex(u, t))
  }

  const MINIMUM_SCORE: real := 0.35

  method InferArithmeticColumns(stats: Sorted<Stats>, given: Assignments, rows: seq<Numbers>)
    returns (found: Option<Triple>)
    requires Valid(stats)
    ensures found.Some? ==>
              IsBestTriple(stats.values, given, rows, found.value) && Score(rows, found.value) >= MINIMUM_SCORE
    ensures found.None? <==> forall t | Admissible(stats.values, given, rows, t) :: Score(rows, t) < MINIMUM_SCORE
  {
    hide Score, Comparable, Matching, Leading;
    var columns := NumericColumns(stats, given);
    var best := SearchTriples(rows, columns);
    BestIsBest(stats.values, given, rows, columns, best);
    if best.None? {
      return None;
    }
    var t := At(columns, best.value);
    found := if Score(rows, t) >= MINIMUM_SCORE then Some(t) else None;
    assert IsBestTriple(stats.values, given, rows, t);
  }

  lemma {:induction false} BestIsBest(stats: map<nat, Stats>, given: Assignments, rows: seq<Numbers>, columns: seq<nat>,
                                      best: Option<Triple>)
    requires Ascending(columns) && forall c :: c in columns <==> IsNumericColumn(stats, given, c)
    requires Leading(rows, columns, best, Triple(|columns|, 0, 0))
    ensures best.Some? ==>
              Eligible(rows, columns, best.value) && IsBestTriple(stats, given, rows, At(columns, best.value))
    ensures best.None? ==> forall t :: !Admissible(stats, given, rows, t)
  {
    hide Score, Comparable;
    forall u | Admissible(stats, given, rows, u)
      ensures best.Some? && Eligible(rows, columns, best.value)
      ensures var t := At(columns, best.value);
              Comparable(rows, t) > 0 &&
              (Score(rows, u) < Score(rows, t) || (Score(rows, u) == Score(rows, t) && !Lex(u, t)))
    {
      var p := Positions(columns, u);
      assert Eligible(rows, columns, p) && Lex(p, Triple(|columns|, 0, 0));
      var w := best.value;
      assert NoBetter(rows, columns, p, w);
      assert Lex(u, At(columns, w)) ==> Lex(p, w);
    }
    if best.Some? {
      assert Eligible(rows, columns, best.value);
    }
  }

  lemma Positions(columns: seq<nat>, t: Triple) returns (p: Triple)
    requires Ascending(columns) && t.quantity in columns && t.rate in columns && t.amount in columns
    requires t.quantity < t.rate < t.amount
    ensures InRange(|columns|, p) && At(columns, p) == t
  {
    var i :| 0 <= i < |columns| && columns[i] == t.quantity;
    var j :| 0 <= j < |columns| && columns[j] == t.rate;
    var k :| 0 <= k < |columns| && columns[k] == t.amount;
    p := Triple(i, j, k);
  }

  // ---------------------------------------------------------------------
  // The whole inference
  // ---------------------------------------------------------------------

  function WithTriple(given: Assignments, found: Option<Triple>): Assignments {
    match found
    case None => given
    case Some(t) => given[t.quantity := Quantity][t.rate := UnitPrice][t.amount := TotalPrice]
  }

  // At least eighty percent numbers and texts, in whole percents.
  predicate CanBeItems(stats: map<nat, Stats>, given: Assignments, c: nat) {
    Candidate(stats, given, c) && (stats[c].numeric + stats[c].text) * 100 / stats[c].nonEmpty >= 80
  }

  ghost predicate FallbackStep(stats: Sorted<Stats>, given: Assignments, after: Assignments) {
    if ItemNumber in given.Values || (forall c | c in stats.keys :: !CanBeItems(stats.values, given, c)) then
      after == given
    else
      exists c ::
        && c in stats.keys
        && CanBeItems(stats.values, given, c)
        && (forall d | d in stats.keys && CanBeItems(stats.values, given, d) :: c <= d)
        && after == given[c := ItemNumber]
  }

  method AssignItemNumbers(stats: Sorted<Stats>, given: Assignments) returns (after: Assignments)
    requires Valid(stats)
    ensures FallbackStep(stats, given, after)
  {
    if ItemNumber in given.Values {
      return given;
    }
    var keys := stats.keys;
    for i := 0 to |keys|
      invariant forall j | 0 <= j < i :: !CanBeItems(stats.values, given, keys[j])
    {
      if CanBeItems(stats.values, given, keys[i]) {
        return given[keys[i] := ItemNumber];
      }
    }
    return given;
  }

  function LongTexts(stats: Stats): nat { stats.longText }

  function Units(stats: Stats): nat { stats.unit }

  function Currencies(stats: Stats): nat { stats.currency }

  // The chain of steps from the header's roles to the final ones.
  ghost predicate Inference(stats: Sorted<Stats>, rows: seq<Numbers>, header: Assignments,
                            d: Assignments, u: Assignments, c: Assignments, found: Option<Triple>, final: Assignments) {
    && BestRatioStep(stats, header, Description, LongTexts, 0.45, d)
    && BestRatioStep(stats, d, Unit, Units, 0.45, u)
    && BestRatioStep(stats, u, Currency, Currencies, 0.45, c)
    && ArithmeticStep(stats, rows, c, found)
    && FallbackStep(stats, WithTriple(c, found), final)
  }

  ghost predicate ArithmeticStep(stats: Sorted<Stats>, rows: seq<Numbers>, given: Assignments, found: Option<Triple>) {
    match found
    case Some(t) => IsBestTriple(stats.values, given, rows, t) && Score(rows, t) >= MINIMUM_SCORE
    case None => forall t | Admissible(stats.values, given, rows, t) :: Score(rows, t) < MINIMUM_SCORE
  }

  const NO_CELLS := Stats(0, 0, 0, 0, 0, 0)

  // The header's columns are counted too, if only as empty.
  function Entered(counted: map<nat, Stats>, header: set<nat>): map<nat, Stats> {
    map c | c in header + counted.Keys :: if c in counted then counted[c] else NO_CELLS
  }

  lemma AscendingCons(c: nat, keys: seq<nat>)
    requires Ascending(keys) && forall k | k in keys :: c < k
    ensures Ascending([c] + keys)
  {
    assert forall i | 0 <= i < |keys| :: keys[i] in keys;
  }

  function Insert(keys: seq<nat>, c: nat): seq<nat> {
    if keys == [] then [c]
    else if c < keys[0] then [c] + keys
    else if c == keys[0] then keys
    else [keys[0]] + Insert(keys[1..], c)
  }

  lemma {:induction false} InsertMeans(keys: seq<nat>, c: nat)
    requires Ascending(keys)
    ensures forall k :: k in Insert(keys, c) <==> k in keys || k == c
    ensures Ascending(Insert(keys, c))
  {
    if keys != [] {
      var first, rest := keys[0], keys[1..];
      assert keys == [first] + rest;
      if c < first {
        AscendingCons(c, keys);
      } else if c > first {
        InsertMeans(rest, c);
        AscendingCons(first, Insert(rest, c));
      }
    }
  }

  method EnterHeader(counted: Sorted<Stats>, header: Sorted<Role>) returns (stats: Sorted<Stats>)
    requires Valid(counted) && Valid(header)
    ensures Valid(stats) && stats.values == Entered(counted.values, header.values.Keys)
  {
    stats := counted;
    ghost var entered: set<nat> := {};
    for i := 0 to |header.keys|
      invariant forall c :: c in entered <==> c in header.keys[..i]
      invariant Valid(stats) && stats.values == Entered(counted.values, entered)
    {
      var c := header.keys[i];
      assert header.keys[..i + 1] == header.keys[..i] + [c];
      stats := EnterColumn(counted.values, stats, entered, c);
      entered := entered + {c};
    }
    assert entered == header.values.Keys;
  }

  method EnterColumn(counted: map<nat, Stats>, stats: Sorted<Stats>, ghost entered: set<nat>, c: nat)
    returns (now: Sorted<Stats>)
    requires Valid(stats) && stats.values == Entered(counted, entered)
    ensures Valid(now) && now.values == Entered(counted, entered + {c})
  {
    now := stats;
    if c !in stats.values {
      InsertMeans(stats.keys, c);
      now := Sorted(Insert(stats.keys, c), stats.values[c := NO_CELLS]);
    }
  }

  function RoleOf(final: Assignments, c: nat): Role { if c in final then final[c] else Unknown }

  ghost predicate Inferred(stats: Sorted<Stats>, rows: seq<Numbers>, header: Assignments, final: Assignments) {
    exists d, u, c, found :: Inference(stats, rows, header, d, u, c, found, final)
  }

  method InferRoles(stats: Sorted<Stats>, header: Assignments, rows: seq<Numbers>) returns (final: Assignments)
    requires Valid(stats)
    ensures Inferred(stats, rows, header, final)
  {
    hide BestRatioStep, ArithmeticStep, FallbackStep, Valid, IsBestTriple, Score, Admissible;
    var d := AssignBestRatio(stats, header, Description, LongTexts, 0.45);
    var u := AssignBestRatio(stats, d, Unit, Units, 0.45);
    var c := AssignBestRatio(stats, u, Currency, Currencies, 0.45);
    var found := InferArithmeticColumns(stats, c, rows);
    ArithmeticIsStep(stats, rows, c, found);
    var assignments := c;
    if found.Some? {
      assignments := assignments[found.value.quantity := Quantity];
      assignments := assignments[found.value.rate := UnitPrice];
      assignments := assignments[found.value.amount := TotalPrice];
    }
    final := AssignItemNumbers(stats, assignments);
    assert Inference(stats, rows, header, d, u, c, found, final);
  }

  lemma ArithmeticIsStep(stats: Sorted<Stats>, rows: seq<Numbers>, given: Assignments, found: Option<Triple>)
    requires found.Some? ==>
               IsBestTriple(stats.values, given, rows, found.value) && Score(rows, found.value) >= MINIMUM_SCORE
    requires found.None? <==> forall t | Admissible(stats.values, given, rows, t) :: Score(rows, t) < MINIMUM_SCORE
    ensures ArithmeticStep(stats, rows, given, found)
  {
  }

  datatype Column = Column(index: nat, role: Role)

  // Every counted column and every header column, in order, with its role.
  method InferColumns(counted: Sorted<Stats>, header: Sorted<Role>, rows: seq<Numbers>)
    returns (columns: seq<Column>, stats: Sorted<Stats>, final: Assignments)
    requires Valid(counted) && Valid(header)
    ensures Valid(stats) && stats.values == Entered(counted.values, header.values.Keys)
    ensures Inferred(stats, rows, header.values, final)
    ensures |columns| == |stats.keys|
    ensures forall i | 0 <= i < |columns| :: columns[i] == Column(stats.keys[i], RoleOf(final, stats.keys[i]))
  {
    hide Inferred, Entered;
    stats := EnterHeader(counted, header);
    final := InferRoles(stats, header.values, rows);
    columns := [];
    for i := 0 to |stats.keys|
      invariant |columns| == i
      invariant forall j | 0 <= j < i :: columns[j] == Column(stats.keys[j], RoleOf(final, stats.keys[j]))
    {
      columns := columns + [Column(stats.keys[i], RoleOf(final, stats.keys[i]))];
    }
  }

  // ---------------------------------------------------------------------
  // The inference is a function
  // ---------------------------------------------------------------------

  lemma BestRatioUnique(stats: Sorted<Stats>, given: Assignments, role: Role, numerator: Stats -> nat, minimum: real,
                        a: Assignments, b: Assignments)
    requires BestRatioStep(stats, given, role, numerator, minimum, a)
    requires BestRatioStep(stats, given, role, numerator, minimum, b)
    ensures a == b
  {
  }

  lemma ArithmeticUnique(stats: Sorted<Stats>, rows: seq<Numbers>, given: Assignments, a: Option<Triple>,
                         b: Option<Triple>)
    requires ArithmeticStep(stats, rows, given, a) && ArithmeticStep(stats, rows, given, b)
    ensures a == b
  {
    hide Score, Comparable, IsNumericColumn;
  }

  lemma FallbackUnique(stats: Sorted<Stats>, given: Assignments, a: Assignments, b: Assignments)
    requires FallbackStep(stats, given, a) && FallbackStep(stats, given, b)
    ensures a == b
  {
  }

  // The steps leave no choice: one set of roles follows from the statistics,
  // the numbers and the header.
  lemma {:induction false} InferredUnique(stats: Sorted<Stats>, rows: seq<Numbers>, header: Assignments,
                                          a: Assignments, b: Assignments)
    requires Inferred(stats, rows, header, a) && Inferred(stats, rows, header, b)
    ensures a == b
  {
    hide BestRatioStep, ArithmeticStep, FallbackStep;
    var d, u, c, found :| Inference(stats, rows, header, d, u, c, found, a);
    var e, v, k, other :| Inference(stats, rows, header, e, v, k, other, b);
    BestRatioUnique(stats, header, Description, LongTexts, 0.45, d, e);
    BestRatioUnique(stats, d, Unit, Units, 0.45, u, v);
    BestRatioUnique(stats, u, Currency, Currencies, 0.45, c, k);
    ArithmeticUnique(stats, rows, c, found, other);
    FallbackUnique(stats, WithTriple(c, found), a, b);
  }

  // ---------------------------------------------------------------------
  // What the inference respects
  // ---------------------------------------------------------------------

  predicate UniqueRoles(a: Assignments) {
    forall x, y | x in a && y in a && a[x] == a[y] :: x == y
  }

  predicate Extends(given: Assignments, after: Assignments) {
    forall c | c in given :: c in after && after[c] == given[c]
  }

  // One new column with a role that was not there.
  lemma OneMoreRole(given: Assignments, c: nat, role: Role)
    requires c !in given && role !in given.Values
    ensures UniqueRoles(given[c := role]) <==> UniqueRoles(given)
    ensures forall r :: r in given[c := role].Values <==> r in given.Values || r == role
  {
    var after := given[c := role];
    assert after[c] == role;
    assert forall x | x in given :: after[x] == given[x];
    forall r
      ensures r in after.Values <==> r in given.Values || r == role
    {
      if r in given.Values {
        var x :| x in given && given[x] == r;
        assert after[x] == r;
      }
    }
    if UniqueRoles(after) {
      forall x, y | x in given && y in given && given[x] == given[y]
        ensures x == y
      {
        assert after[x] == after[y];
      }
    }
  }

  lemma {:induction false} BestRatioKeeps(stats: Sorted<Stats>, given: Assignments, role: Role, numerator: Stats -> nat,
                                          minimum: real, after: Assignments)
    requires BestRatioStep(stats, given, role, numerator, minimum, after)
    ensures Extends(given, after)
    ensures UniqueRoles(after) <==> UniqueRoles(given)
    ensures forall r | r != role :: r in after.Values <==> r in given.Values
  {
  }

  lemma FallbackKeeps(stats: Sorted<Stats>, given: Assignments, after: Assignments)
    requires FallbackStep(stats, given, after)
    ensures Extends(given, after) && (UniqueRoles(after) <==> UniqueRoles(given))
  {
  }

  predicate HasPricing(header: Assignments) {
    Quantity in header.Values || UnitPrice in header.Values || TotalPrice in header.Values
  }

  // The search hands out its three roles without asking whether the header has
  // them, so they become ambiguous exactly when it does.
  lemma {:induction false} TripleKeeps(given: Assignments, t: Triple)
    requires t.quantity < t.rate < t.amount
    requires t.quantity !in given && t.rate !in given && t.amount !in given
    ensures Extends(given, WithTriple(given, Some(t)))
    ensures UniqueRoles(WithTriple(given, Some(t))) <==> UniqueRoles(given) && !HasPricing(given)
  {
    var a := given[t.quantity := Quantity];
    var b := a[t.rate := UnitPrice];
    if !HasPricing(given) {
      OneMoreRole(given, t.quantity, Quantity);
      OneMoreRole(a, t.rate, UnitPrice);
      OneMoreRole(b, t.amount, TotalPrice);
    } else {
      var role :| role in [Quantity, UnitPrice, TotalPrice] && role in given.Values;
      var x :| x in given && given[x] == role;
      var y := if role == Quantity then t.quantity else if role == UnitPrice then t.rate else t.amount;
      var after := WithTriple(given, Some(t));
      assert after[x] == role && after[y] == role && x != y;
    }
  }

  lemma {:induction false} ArithmeticKeeps(stats: Sorted<Stats>, rows: seq<Numbers>, given: Assignments,
                                           found: Option<Triple>)
    requires ArithmeticStep(stats, rows, given, found)
    ensures Extends(given, WithTriple(given, found))
    ensures UniqueRoles(WithTriple(given, found)) <==> UniqueRoles(given) && (found.None? || !HasPricing(given))
  {
    hide UniqueRoles, HasPricing, Score, Comparable;
    if found.Some? {
      TripleKeeps(given, found.value);
    }
  }

  lemma ExtendsTwice(a: Assignments, b: Assignments, c: Assignments)
    requires Extends(a, b) && Extends(b, c)
    ensures Extends(a, c)
  {
  }

  lemma ExtendedRoles(header: Assignments, final: Assignments)
    requires Extends(header, final)
    ensures forall column | column in header :: RoleOf(final, column) == header[column]
  {
  }

  // The steps before the search give no pricing role.
  lemma SamePricing(header: Assignments, d: Assignments, u: Assignments, c: Assignments)
    requires forall r | r != Description :: r in d.Values <==> r in header.Values
    requires forall r | r != Unit :: r in u.Values <==> r in d.Values
    requires forall r | r != Currency :: r in c.Values <==> r in u.Values
    ensures HasPricing(c) <==> HasPricing(header)
  {
  }

  // Header columns keep their roles, and no two columns share a role unless two
  // header columns do or the search adds pricing columns to a priced header.
  lemma {:induction false} InferenceKeepsHeader(stats: Sorted<Stats>, rows: seq<Numbers>, header: Assignments,
                             d: Assignments, u: Assignments, c: Assignments, found: Option<Triple>, final: Assignments)
    requires Inference(stats, rows, header, d, u, c, found, final)
    ensures forall column | column in header :: RoleOf(final, column) == header[column]
    ensures UniqueRoles(final) <==> UniqueRoles(header) && (found.None? || !HasPricing(header))
  {
    hide BestRatioStep, ArithmeticStep, FallbackStep, UniqueRoles, Extends, WithTriple, HasPricing;
    BestRatioKeeps(stats, header, Description, LongTexts, 0.45, d);
    BestRatioKeeps(stats, d, Unit, Units, 0.45, u);
    BestRatioKeeps(stats, u, Currency, Currencies, 0.45, c);
    ArithmeticKeeps(stats, rows, c, found);
    FallbackKeeps(stats, WithTriple(c, found), final);
    SamePricing(header, d, u, c);
    ExtendsTwice(header, d, u);
    ExtendsTwice(header, u, c);
    ExtendsTwice(header, c, WithTriple(c, found));
    ExtendsTwice(header, WithTriple(c, found), final);
    ExtendedRoles(header, final);
  }

  lemma BestRatioAdds(stats: Sorted<Stats>, given: Assignments, role: Role, numerator: Stats -> nat, minimum: real,
                      after: Assignments, c: nat)
    requires BestRatioStep(stats, given, role, numerator, minimum, after) && c in after && c !in given
    ensures after[c] == role && c in stats.values && stats.values[c].nonEmpty > 0
    ensures numerator(stats.values[c]) as real / stats.values[c].nonEmpty as real >= minimum
    ensures forall o | o in stats.keys && o in stats.values && o !in given && stats.values[o].nonEmpty > 0 ::
              numerator(stats.values[o]) as real / stats.values[o].nonEmpty as real
              <= numerator(stats.values[c]) as real / stats.values[c].nonEmpty as real
  {
  }

  predicate HasAll(row: Numbers, t: Triple) { t.quantity in row && t.rate in row && t.amount in row }

  predicate IsRightRow(row: Numbers, t: Triple) {
    HasAll(row, t) && IsProduct(row[t.quantity], row[t.rate], row[t.amount])
  }

  // The rows in which three columns have numbers, and those where the product is
  // right to a cent or a thousandth.
  function RowsWith(rows: seq<Numbers>, t: Triple): set<nat> { set i | 0 <= i < |rows| && HasAll(rows[i], t) }

  function RowsRight(rows: seq<Numbers>, t: Triple): set<nat> { set i | 0 <= i < |rows| && IsRightRow(rows[i], t) }

  predicate IsProduct(quantity: real, rate: real, amount: real) {
    var error := quantity * rate - amount;
    || -0.01 <= error <= 0.01
    || (quantity * rate >= 0.0 && -(quantity * rate) * 0.001 <= error <= quantity * rate * 0.001)
    || (quantity * rate <= 0.0 && quantity * rate * 0.001 <= error <= -(quantity * rate) * 0.001)
  }

  lemma ProductIff(quantity: real, rate: real, amount: real)
    ensures Multiplies(quantity, rate, amount) <==> IsProduct(quantity, rate, amount)
  {
  }

  lemma {:induction false} CountsAreRows(rows: seq<Numbers>, t: Triple)
    ensures Comparable(rows, t) == |RowsWith(rows, t)| && Matching(rows, t) == |RowsRight(rows, t)|
  {
    if rows == [] {
      assert RowsWith(rows, t) == {} && RowsRight(rows, t) == {};
    } else {
      hide IsComparable, IsMatching, RowsWith, RowsRight;
      var front, last := rows[..|rows| - 1], rows[|rows| - 1];
      assert rows == front + [last];
      CountsAreRows(front, t);
      OneMoreWith(front, last, t);
      OneMoreRight(front, last, t);
    }
  }

  lemma OneMoreWith(front: seq<Numbers>, last: Numbers, t: Triple)
    ensures |RowsWith(front + [last], t)| == |RowsWith(front, t)| + if IsComparable(last, t) then 1 else 0
  {
    ComparableIff(last, t);
    hide HasAll, IsComparable;
    var n := |front|;
    assert RowsWith(front + [last], t) == RowsWith(front, t) + if HasAll(last, t) then {n} else {};
    assert n !in RowsWith(front, t);
  }

  lemma ComparableIff(row: Numbers, t: Triple)
    ensures IsComparable(row, t) <==> HasAll(row, t)
  {
  }

  lemma OneMoreRight(front: seq<Numbers>, last: Numbers, t: Triple)
    ensures |RowsRight(front + [last], t)| == |RowsRight(front, t)| + if IsMatching(last, t) then 1 else 0
  {
    MatchingIff(last, t);
    hide IsRightRow, IsMatching;
    var n := |front|;
    assert RowsRight(front + [last], t) == RowsRight(front, t) + if IsRightRow(last, t) then {n} else {};
    assert n !in RowsRight(front, t);
  }

  lemma MatchingIff(row: Numbers, t: Triple)
    ensures IsMatching(row, t) <==> IsRightRow(row, t)
  {
    hide IsProduct, Multiplies;
    if IsComparable(row, t) {
      ProductIff(row[t.quantity], row[t.rate], row[t.amount]);
    }
  }

  // What a column without a header must show to get a role: the greatest share
  // of long texts, units or currencies, from 45 percent on; a place in a triple
  // whose products are right in 35 percent of at least two rows; or 80 percent
  // numbers and texts.
  ghost predicate Earns(stats: Sorted<Stats>, rows: seq<Numbers>, found: Option<Triple>, c: nat, role: Role) {
    && c in stats.values && stats.values[c].nonEmpty > 0
    && var own := stats.values[c];
       var all := own.nonEmpty as real;
       match role
       case Description => own.longText as real >= 0.45 * all
       case Unit => own.unit as real >= 0.45 * all
       case Currency => own.currency as real >= 0.45 * all
       case Quantity => found.Some? && c == found.value.quantity && IsRight(rows, found.value)
       case UnitPrice => found.Some? && c == found.value.rate && IsRight(rows, found.value)
       case TotalPrice => found.Some? && c == found.value.amount && IsRight(rows, found.value)
       case ItemNumber => 100 * (own.numeric + own.text) >= 80 * own.nonEmpty
       case _ => false
  }

  ghost predicate IsRight(rows: seq<Numbers>, t: Triple) {
    && t.quantity < t.rate < t.amount && |RowsWith(rows, t)| >= 2
    && |RowsRight(rows, t)| as real >= 0.35 * |RowsWith(rows, t)| as real
  }

  lemma {:induction false} RolesAreEarned(stats: Sorted<Stats>, rows: seq<Numbers>, header: Assignments,
                                          final: Assignments, column: nat)
    requires Inferred(stats, rows, header, final) && column in final && column !in header
    ensures exists found :: Earns(stats, rows, found, column, final[column])
  {
    hide BestRatioStep, ArithmeticStep, FallbackStep, Earns, WithTriple;
    var d, u, c, found :| Inference(stats, rows, header, d, u, c, found, final);
    BestRatioKeeps(stats, header, Description, LongTexts, 0.45, d);
    BestRatioKeeps(stats, d, Unit, Units, 0.45, u);
    BestRatioKeeps(stats, u, Currency, Currencies, 0.45, c);
    ArithmeticKeeps(stats, rows, c, found);
    FallbackKeeps(stats, WithTriple(c, found), final);
    if column in d {
      BestRatioAdds(stats, header, Description, LongTexts, 0.45, d, column);
      TextsEarn(stats, rows, found, column, Description, LongTexts);
    } else if column in u {
      BestRatioAdds(stats, d, Unit, Units, 0.45, u, column);
      TextsEarn(stats, rows, found, column, Unit, Units);
    } else if column in c {
      BestRatioAdds(stats, u, Currency, Currencies, 0.45, c, column);
      TextsEarn(stats, rows, found, column, Currency, Currencies);
    } else if column in WithTriple(c, found) {
      TripleEarns(stats, rows, c, found, column);
    } else {
      ItemsEarn(stats, rows, found, WithTriple(c, found), final, column);
    }
  }

  lemma TextsEarn(stats: Sorted<Stats>, rows: seq<Numbers>, found: Option<Triple>, c: nat, role: Role,
                  numerator: Stats -> nat)
    requires c in stats.values && stats.values[c].nonEmpty > 0
    requires numerator(stats.values[c]) as real / stats.values[c].nonEmpty as real >= 0.45
    requires (role == Description && numerator == LongTexts) || (role == Unit && numerator == Units)
             || (role == Currency && numerator == Currencies)
    ensures Earns(stats, rows, found, c, role)
  {
    ShareIs(numerator(stats.values[c]), stats.values[c].nonEmpty, 0.45);
  }

  lemma ShareIs(n: nat, d: nat, share: real)
    requires d > 0 && n as real / d as real >= share
    ensures n as real >= share * d as real
  {
    assert (n as real / d as real) * d as real == n as real;
  }

  lemma TripleEarns(stats: Sorted<Stats>, rows: seq<Numbers>, given: Assignments, found: Option<Triple>, c: nat)
    requires ArithmeticStep(stats, rows, given, found)
    requires c in WithTriple(given, found) && c !in given
    ensures Earns(stats, rows, found, c, WithTriple(given, found)[c])
  {
    hide Comparable, Matching, RowsWith, RowsRight;
    var t := found.value;
    assert IsBestTriple(stats.values, given, rows, t);
    CountsAreRows(rows, t);
    ScoreIs(rows, t);
    ShareIs(|RowsRight(rows, t)|, |RowsWith(rows, t)|, 0.35);
  }

  lemma ItemsEarn(stats: Sorted<Stats>, rows: seq<Numbers>, found: Option<Triple>, given: Assignments,
                  final: Assignments, c: nat)
    requires FallbackStep(stats, given, final) && c in final && c !in given
    ensures Earns(stats, rows, found, c, final[c])
  {
    var own := stats.values[c];
    PercentIs((own.numeric + own.text) * 100, own.nonEmpty);
  }

  lemma PercentIs(n: nat, d: nat)
    requires d > 0 && n / d >= 80
    ensures n >= 80 * d
  {
    assert n == (n / d) * d + n % d;
    assert (n / d) * d >= 80 * d;
  }

  // A description and a quantity header, and three more columns whose two rows
  // multiply.
  const PRICED_HEADER: Assignments := map[0 := Description, 1 := Quantity]

  const TWO_NUMBERS := Stats(2, 2, 0, 0, 0, 0)

  const TWO_TEXTS := Stats(2, 0, 2, 2, 0, 0)

  const PRICED_STATS: Sorted<Stats> :=
    Sorted([0, 1, 2, 3, 4],
           map[0 := TWO_TEXTS, 1 := TWO_NUMBERS, 2 := TWO_NUMBERS, 3 := TWO_NUMBERS, 4 := TWO_NUMBERS])

  const PRICED_ROW: Numbers := map[1 := 5.0, 2 := 2.0, 3 := 3.0, 4 := 6.0]

  lemma PricedScore()
    ensures Comparable([PRICED_ROW, PRICED_ROW], Triple(2, 3, 4)) == 2
    ensures Matching([PRICED_ROW, PRICED_ROW], Triple(2, 3, 4)) == 2
  {
    var rows: seq<Numbers> := [PRICED_ROW, PRICED_ROW];
    var one: seq<Numbers> := [PRICED_ROW];
    var t := Triple(2, 3, 4);
    assert rows[..1] == one && one[..0] == [];
    assert Multiplies(2.0, 3.0, 6.0);
    assert IsMatching(PRICED_ROW, t);
    assert Comparable(one, t) == 1 && Matching(one, t) == 1;
  }

  lemma PricedRatios(role: Role, numerator: Stats -> nat)
    requires role != Quantity && numerator(TWO_NUMBERS) == 0
    ensures BestRatioStep(PRICED_STATS, PRICED_HEADER, role, numerator, 0.45, PRICED_HEADER)
  {
    if role != Description {
      forall c | c in PRICED_STATS.keys && Candidate(PRICED_STATS.values, PRICED_HEADER, c)
        ensures c <= 4 && RatioOf(PRICED_STATS.values, numerator, c) == 0.0
      {
        assert PRICED_STATS.values[c] == TWO_NUMBERS;
      }
      LastPriced();
      hide RatioOf, Candidate;
      assert BestAmong(PRICED_STATS.values, PRICED_HEADER, numerator, 4, PRICED_STATS.keys);
    } else {
      assert PRICED_HEADER[0] == Description;
    }
  }

  lemma LastPriced()
    ensures Candidate(PRICED_STATS.values, PRICED_HEADER, 4) && 4 in PRICED_STATS.keys
  {
    assert PRICED_STATS.keys[4] == 4;
    assert 4 in PRICED_STATS.values && PRICED_STATS.values[4] == TWO_NUMBERS;
  }

  const PRICED_ROLES: Assignments :=
    map[0 := Description, 1 := Quantity, 2 := Quantity, 3 := UnitPrice, 4 := TotalPrice]

  lemma PricedColumn(c: nat)
    ensures IsNumericColumn(PRICED_STATS.values, PRICED_HEADER, c) <==> 2 <= c <= 4
  {
  }

  lemma PricedSearch()
    ensures ArithmeticStep(PRICED_STATS, [PRICED_ROW, PRICED_ROW], PRICED_HEADER, Some(Triple(2, 3, 4)))
  {
    var rows: seq<Numbers> := [PRICED_ROW, PRICED_ROW];
    var t := Triple(2, 3, 4);
    PricedScore();
    ScoreIs(rows, t);
    hide Comparable, Matching, Score, IsNumericColumn;
    PricedColumn(2);
    PricedColumn(3);
    PricedColumn(4);
    assert Admissible(PRICED_STATS.values, PRICED_HEADER, rows, t);
    forall u | Admissible(PRICED_STATS.values, PRICED_HEADER, rows, u)
      ensures u == t
    {
      PricedColumn(u.quantity);
      PricedColumn(u.rate);
      PricedColumn(u.amount);
    }
    assert IsBestTriple(PRICED_STATS.values, PRICED_HEADER, rows, t);
  }

  lemma PricedFallback()
    ensures WithTriple(PRICED_HEADER, Some(Triple(2, 3, 4))) == PRICED_ROLES
    ensures FallbackStep(PRICED_STATS, PRICED_ROLES, PRICED_ROLES)
  {
  }

  lemma PricedInference()
    ensures Inferred(PRICED_STATS, [PRICED_ROW, PRICED_ROW], PRICED_HEADER, PRICED_ROLES)
  {
    var rows: seq<Numbers> := [PRICED_ROW, PRICED_ROW];
    var stats, header, found, final := PRICED_STATS, PRICED_HEADER, Some(Triple(2, 3, 4)), PRICED_ROLES;
    PricedRatios(Description, LongTexts);
    PricedRatios(Unit, Units);
    PricedRatios(Currency, Currencies);
    PricedSearch();
    PricedFallback();
    hide BestRatioStep, ArithmeticStep, FallbackStep, WithTriple;
    assert Inference(stats, rows, header, header, header, header, found, final);
  }

  // Roles can be given twice under a header that names two: the quantity column
  // of the header and the one the search finds.
  lemma {:induction false} RolesCanRepeat()
    ensures Valid(PRICED_STATS) && |PRICED_HEADER.Values| == 2
    ensures Inferred(PRICED_STATS, [PRICED_ROW, PRICED_ROW], PRICED_HEADER, PRICED_ROLES)
    ensures UniqueRoles(PRICED_HEADER) && !UniqueRoles(PRICED_ROLES)
  {
    hide Inferred;
    PricedInference();
    assert PRICED_ROLES[1] == PRICED_ROLES[2];
    assert PRICED_HEADER[0] == Description && PRICED_HEADER[1] == Quantity;
    assert PRICED_HEADER.Values == {Description, Quantity};
  }
}
