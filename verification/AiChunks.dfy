/**
 Bounded chunking of an AI review context. Serialised lengths are additive:
 a list costs its items and the commas between them, a number its digits.
 */
module AiChunks {
  import opened Wrappers
  import opened Text

  const USIZE_MAX: nat := 0xFFFF_FFFF_FFFF_FFFF
  const CHUNK_FRAME_RESERVE_BYTES: nat := 1024

  // The digits of the largest word.
  const WORD_DIGITS: nat := 20

  // Fixed text of the two prompts, without the language name and the numbers.
  const CHUNK_TEXT_BYTES: nat := 506
  const COMPLETE_TEXT_BYTES: nat := 329

  datatype AiError = ContextTooLarge | InvalidStoredOutput | UnsupportedLanguage | InvalidModelOutput

  datatype Item<F, R> = FindingItem(finding: F) | RowItem(row: R)

  datatype Parts<F, R> = Parts(findings: seq<F>, rows: seq<R>)

  // `inputBytes` is the length of the rendered prompt.
  datatype Chunk<F, R> = Chunk(inputBytes: nat, context: Parts<F, R>)

  function OutputLanguage(language: string): Option<string> {
    if language == "en" then Some("English")
    else if language == "ar" then Some("Arabic")
    else None
  }

  function SaturatingAdd(a: nat, b: nat): nat {
    if a + b > USIZE_MAX then USIZE_MAX else a + b
  }

  // ---------------------------------------------------------------------
  // Sizes
  // ---------------------------------------------------------------------

  function FindingItems<F, R>(findings: seq<F>): seq<Item<F, R>> {
    seq(|findings|, i requires 0 <= i < |findings| => FindingItem(findings[i]))
  }

  function RowItems<F, R>(rows: seq<R>): seq<Item<F, R>> {
    seq(|rows|, i requires 0 <= i < |rows| => RowItem(rows[i]))
  }

  function Items<F, R>(part: Parts<F, R>): seq<Item<F, R>> {
    FindingItems(part.findings) + RowItems(part.rows)
  }

  // What the estimate charges: each item with one comma.
  function Cost<F, R>(size: Item<F, R> -> nat, items: seq<Item<F, R>>): nat {
    if items == [] then 0 else Cost(size, items[..|items| - 1]) + size(items[|items| - 1]) + 1
  }

  // What a list really adds to an empty one: items and the commas between them.
  function ListBytes<F, R>(size: Item<F, R> -> nat, items: seq<Item<F, R>>): nat {
    if items == [] then 0
    else if |items| == 1 then size(items[0])
    else ListBytes(size, items[..|items| - 1]) + 1 + size(items[|items| - 1])
  }

  function PayloadBytes<F, R>(size: Item<F, R> -> nat, emptyPayload: nat, part: Parts<F, R>): nat {
    emptyPayload + ListBytes(size, FindingItems(part.findings)) + ListBytes(size, RowItems(part.rows))
  }

  function Digits(n: nat): nat { |Numeral(n)| }

  function ChunkPromptBytes(name: nat, index: nat, count: nat, payload: nat, rows: nat, findings: nat): nat {
    CHUNK_TEXT_BYTES + name + Digits(index) + Digits(count) + Digits(payload) + Digits(rows) + Digits(findings)
    + payload
  }

  // The empty chunk's prompt with the longest numbers for index and count.
  function EmptyPromptBytes(name: nat, emptyPayload: nat): nat {
    CHUNK_TEXT_BYTES + name + WORD_DIGITS + WORD_DIGITS + Digits(emptyPayload) + 1 + 1 + emptyPayload
  }

  // ---------------------------------------------------------------------
  // The greedy split
  // ---------------------------------------------------------------------

  // The rest of the split, with `current` open and charged `used` so far.
  function Greedy<F, R>(size: Item<F, R> -> nat, budget: int, items: seq<Item<F, R>>,
                        current: seq<Item<F, R>>, used: nat): Option<seq<seq<Item<F, R>>>>
    decreases |items|
  {
    if items == [] then Some(if current == [] then [] else [current])
    else
      var cost := size(items[0]) + 1;
      if used + cost <= budget then Greedy(size, budget, items[1..], current + [items[0]], used + cost)
      else if current == [] || cost > budget then None
      else After([current], Greedy(size, budget, items[1..], [items[0]], cost))
  }

  // A split begun with `closed` and continued by `rest`.
  function After<T>(closed: seq<T>, rest: Option<seq<T>>): Option<seq<T>> {
    match rest
    case None => None
    case Some(later) => Some(closed + later)
  }

  function Flatten<T>(parts: seq<seq<T>>): seq<T> {
    if parts == [] then [] else parts[0] + Flatten(parts[1..])
  }

  predicate AllFit<F, R>(size: Item<F, R> -> nat, budget: int, parts: seq<seq<Item<F, R>>>) {
    forall i | 0 <= i < |parts| :: Cost(size, parts[i]) <= budget
  }

  lemma {:induction false} CostConcat<F, R>(size: Item<F, R> -> nat, xs: seq<Item<F, R>>, ys: seq<Item<F, R>>)
    ensures Cost(size, xs + ys) == Cost(size, xs) + Cost(size, ys)
  {
    if ys == [] {
      assert xs + ys == xs;
    } else {
      var zs := xs + ys;
      assert zs[..|zs| - 1] == xs + ys[..|ys| - 1];
      CostConcat(size, xs, ys[..|ys| - 1]);
    }
  }

  lemma CostSnoc<F, R>(size: Item<F, R> -> nat, xs: seq<Item<F, R>>, x: Item<F, R>)
    ensures Cost(size, xs + [x]) == Cost(size, xs) + size(x) + 1
  {
  }

  // Nothing is lost, repeated or reordered, no part is empty and every part fits.
  lemma {:induction false} GreedyConserves<F, R>(size: Item<F, R> -> nat, budget: int, items: seq<Item<F, R>>,
                                                 current: seq<Item<F, R>>, used: nat)
    requires used == Cost(size, current) && (current == [] || used <= budget)
    requires Greedy(size, budget, items, current, used).Some?
    ensures var parts := Greedy(size, budget, items, current, used).value;
            && Flatten(parts) == current + items
            && AllFit(size, budget, parts)
            && forall i | 0 <= i < |parts| :: parts[i] != []
    decreases |items|
  {
    hide Flatten, AllFit, Cost;
    if items == [] {
      OnePart(size, budget, current);
    } else {
      var item := items[0];
      var cost := size(item) + 1;
      CostSnoc(size, current, item);
      assert items == [item] + items[1..];
      if used + cost <= budget {
        GreedyConserves(size, budget, items[1..], current + [item], used + cost);
        assert (current + [item]) + items[1..] == current + items;
      } else {
        CostOfOne(size, item);
        GreedyConserves(size, budget, items[1..], [item], cost);
        var later := Greedy(size, budget, items[1..], [item], cost).value;
        PartBefore(size, budget, current, later);
        assert [current] + later == Greedy(size, budget, items, current, used).value;
      }
    }
  }

  lemma OnePart<F, R>(size: Item<F, R> -> nat, budget: int, part: seq<Item<F, R>>)
    requires part == [] || Cost(size, part) <= budget
    ensures part != [] ==> Flatten([part]) == part && AllFit(size, budget, [part])
    ensures Flatten<Item<F, R>>([]) == [] && AllFit<F, R>(size, budget, [])
  {
  }

  lemma CostOfOne<F, R>(size: Item<F, R> -> nat, item: Item<F, R>)
    ensures Cost(size, [item]) == size(item) + 1 && Cost(size, []) == 0
  {
    assert [] + [item] == [item];
    CostSnoc(size, [], item);
  }

  lemma PartBefore<F, R>(size: Item<F, R> -> nat, budget: int, part: seq<Item<F, R>>, parts: seq<seq<Item<F, R>>>)
    requires AllFit(size, budget, parts) && Cost(size, part) <= budget
    ensures Flatten([part] + parts) == part + Flatten(parts) && AllFit(size, budget, [part] + parts)
  {
    assert ([part] + parts)[1..] == parts;
  }

  // The split fails exactly when some single item cannot fit alone.
  lemma {:induction false} GreedyFailsIff<F, R>(size: Item<F, R> -> nat, budget: int, items: seq<Item<F, R>>,
                                                current: seq<Item<F, R>>, used: nat)
    requires used == Cost(size, current) && (current == [] || used <= budget)
    ensures Greedy(size, budget, items, current, used).None? <==>
            exists item :: item in items && size(item) + 1 > budget
    decreases |items|
  {
    if items != [] {
      var item := items[0];
      var cost := size(item) + 1;
      CostSnoc(size, current, item);
      CostSnoc(size, [], item);
      assert [] + [item] == [item];
      assert items == [item] + items[1..];
      if used + cost <= budget {
        GreedyFailsIff(size, budget, items[1..], current + [item], used + cost);
      } else if cost <= budget {
        GreedyFailsIff(size, budget, items[1..], [item], cost);
      }
    }
  }

  // ---------------------------------------------------------------------
  // Optimality
  // ---------------------------------------------------------------------

  // Dropping the first n items of a split, part by part.
  function DropFront<T>(parts: seq<seq<T>>, n: nat): (r: seq<seq<T>>)
    ensures |r| == |parts|
  {
    if parts == [] then []
    else if n <= |parts[0]| then [parts[0][n..]] + parts[1..]
    else [[]] + DropFront(parts[1..], n - |parts[0]|)
  }

  lemma SkipFront<T>(xs: seq<T>, ys: seq<T>, n: nat)
    requires |xs| <= n <= |xs + ys|
    ensures (xs + ys)[n..] == ys[n - |xs|..]
  {
  }

  lemma {:induction false} DropFrontFits<F, R>(size: Item<F, R> -> nat, budget: int, parts: seq<seq<Item<F, R>>>,
                                               n: nat)
    requires AllFit(size, budget, parts) && n <= |Flatten(parts)|
    ensures AllFit(size, budget, DropFront(parts, n)) && Flatten(DropFront(parts, n)) == Flatten(parts)[n..]
  {
    if parts != [] {
      var first, rest := parts[0], parts[1..];
      assert parts == [first] + rest;
      if n <= |first| {
        var dropped := [first[n..]] + rest;
        CostConcat(size, first[..n], first[n..]);
        assert first[..n] + first[n..] == first;
        assert dropped[1..] == rest;
        assert Flatten(dropped) == first[n..] + Flatten(rest);
      } else {
        DropFrontFits(size, budget, rest, n - |first|);
        var dropped := DropFront(rest, n - |first|);
        var all := [[]] + dropped;
        assert all[1..] == dropped && all[0] == [];
        assert Flatten(all) == [] + Flatten(dropped);
        assert Flatten(parts) == first + Flatten(rest);
        SkipFront(first, Flatten(rest), n);
      }
    }
  }

  // No order-preserving split into fitting parts has fewer parts.
  lemma {:induction false} GreedyIsOptimal<F, R>(size: Item<F, R> -> nat, budget: int, items: seq<Item<F, R>>,
                                                 current: seq<Item<F, R>>, used: nat, other: seq<seq<Item<F, R>>>)
    requires used == Cost(size, current) && (current == [] || used <= budget)
    requires AllFit(size, budget, other) && Flatten(other) == current + items
    requires Greedy(size, budget, items, current, used).Some?
    ensures |Greedy(size, budget, items, current, used).value| <= |other|
    decreases |items|
  {
    hide Flatten, AllFit, Cost;
    if items == [] {
      assert current + items == current;
      SomethingCovers(current, other);
    } else {
      var item := items[0];
      var cost := size(item) + 1;
      CostSnoc(size, current, item);
      assert items == [item] + items[1..];
      if used + cost <= budget {
        assert (current + [item]) + items[1..] == current + items;
        GreedyIsOptimal(size, budget, items[1..], current + [item], used + cost, other);
      } else {
        FirstPartIsShort(size, budget, items, current, other);
        var rest := other[1..];
        var n := |current| - |other[0]|;
        AfterFirstPart(size, budget, current, items, other);
        DropFrontFits(size, budget, rest, n);
        CostOfOne(size, item);
        GreedyIsOptimal(size, budget, items[1..], [item], cost, DropFront(rest, n));
      }
    }
  }

  lemma SomethingCovers<T>(all: seq<T>, parts: seq<seq<T>>)
    requires Flatten(parts) == all
    ensures all != [] ==> parts != []
  {
  }

  lemma AfterFirstPart<F, R>(size: Item<F, R> -> nat, budget: int, current: seq<Item<F, R>>, items: seq<Item<F, R>>,
                             other: seq<seq<Item<F, R>>>)
    requires AllFit(size, budget, other) && Flatten(other) == current + items
    requires other != [] && |other[0]| <= |current|
    ensures var rest, n := other[1..], |current| - |other[0]|;
            AllFit(size, budget, rest) && n <= |Flatten(rest)| && Flatten(rest)[n..] == items
  {
    assert Flatten(other[1..]) == (current + items)[|other[0]|..];
  }

  lemma FirstPartIsShort<F, R>(size: Item<F, R> -> nat, budget: int, items: seq<Item<F, R>>,
                               current: seq<Item<F, R>>, other: seq<seq<Item<F, R>>>)
    requires items != [] && Cost(size, current) + size(items[0]) + 1 > budget
    requires AllFit(size, budget, other) && Flatten(other) == current + items
    ensures other != [] && |other[0]| <= |current|
  {
    var first := other[0];
    assert Cost(size, other[0]) <= budget;
    if |first| > |current| {
      TooLongPart(size, items, current, first);
    }
  }

  lemma TooLongPart<F, R>(size: Item<F, R> -> nat, items: seq<Item<F, R>>, current: seq<Item<F, R>>,
                          first: seq<Item<F, R>>)
    requires items != [] && |first| > |current| && first <= current + items
    ensures Cost(size, first) >= Cost(size, current) + size(items[0]) + 1
  {
    var extra := first[|current| + 1..];
    assert first == (current + [items[0]]) + extra;
    CostConcat(size, current + [items[0]], extra);
    CostSnoc(size, current, items[0]);
  }

  // ---------------------------------------------------------------------
  // The reserve
  // ---------------------------------------------------------------------

  lemma {:induction false} DigitsMonotone(a: nat, b: nat)
    requires a <= b
    ensures Digits(a) <= Digits(b)
  {
    if a >= 10 {
      DigitsMonotone(a / 10, b / 10);
    }
  }

  function Pow10(k: nat): nat { if k == 0 then 1 else 10 * Pow10(k - 1) }

  lemma {:induction false} DigitsBound(n: nat, k: nat)
    requires k > 0 && n < Pow10(k)
    ensures Digits(n) <= k
  {
    if n >= 10 {
      assert Pow10(k) == 10 * Pow10(k - 1);
      DigitsBound(n / 10, k - 1);
    }
  }

  lemma WordDigits(n: nat)
    ensures n <= USIZE_MAX ==> Digits(n) <= 20
    ensures n <= U32_MAX ==> Digits(n) <= 10
  {
    assert Pow10(10) == 10_000_000_000;
    assert Pow10(20) == 10_000_000_000 * 10_000_000_000;
    if n <= USIZE_MAX {
      DigitsBound(n, 20);
    }
    if n <= U32_MAX {
      DigitsBound(n, 10);
    }
  }

  lemma {:induction false} DigitsAtLeast(n: nat, k: nat)
    requires n >= Pow10(k)
    ensures Digits(n) > k
  {
    if k > 0 {
      DigitsAtLeast(n / 10, k - 1);
    }
  }

  // It is the prompt the renderer makes of an empty chunk.
  lemma {:induction false} EmptyPromptIsRendered(name: nat, emptyPayload: nat)
    ensures EmptyPromptBytes(name, emptyPayload) == ChunkPromptBytes(name, USIZE_MAX, USIZE_MAX, emptyPayload, 0, 0)
  {
    hide Digits;
    LargestWord(USIZE_MAX, 0);
  }

  lemma {:induction false} LargestWord(word: nat, zero: nat)
    requires word == USIZE_MAX && zero == 0
    ensures Digits(word) == WORD_DIGITS && Digits(zero) == 1
  {
    WordDigits(word);
    assert Pow10(10) == 10_000_000_000;
    assert Pow10(19) == 1_000_000_000 * 10_000_000_000;
    DigitsAtLeast(word, 19);
  }

  lemma {:induction false} ListBytesBelowCost<F, R>(size: Item<F, R> -> nat, items: seq<Item<F, R>>)
    ensures ListBytes(size, items) <= Cost(size, items)
  {
    if items != [] {
      ListBytesBelowCost(size, items[..|items| - 1]);
    }
  }

  // The estimate is short of the rendered prompt by at most 37 bytes: 19 more
  // digits of payload length and 9 more of each count. The reserve covers it.
  lemma {:induction false} ReserveSuffices<F, R>(size: Item<F, R> -> nat, name: nat, emptyPayload: nat,
                                                 part: Parts<F, R>, index: nat, count: nat)
    requires emptyPayload + Cost(size, Items(part)) <= USIZE_MAX
    requires index <= count <= USIZE_MAX && |part.rows| <= U32_MAX && |part.findings| <= U32_MAX
    ensures ChunkPromptBytes(name, index, count, PayloadBytes(size, emptyPayload, part), |part.rows|, |part.findings|)
            <= EmptyPromptBytes(name, emptyPayload) + Cost(size, Items(part)) + 37
  {
    var payload := PayloadBytes(size, emptyPayload, part);
    assert payload <= emptyPayload + Cost(size, Items(part)) by {
      ListBytesBelowCost(size, FindingItems(part.findings));
      ListBytesBelowCost(size, RowItems(part.rows));
      CostConcat(size, FindingItems(part.findings), RowItems(part.rows));
    }
    WordDigits(payload);
    WordDigits(|part.rows|);
    WordDigits(|part.findings|);
    WordDigits(index);
    WordDigits(count);
  }

  // ---------------------------------------------------------------------
  // The loops
  // ---------------------------------------------------------------------

  function Lists<F, R>(parts: seq<Parts<F, R>>): (lists: seq<seq<Item<F, R>>>)
    ensures |lists| == |parts|
    ensures forall i | 0 <= i < |parts| :: lists[i] == Items(parts[i])
  {
    seq(|parts|, i requires 0 <= i < |parts| => Items(parts[i]))
  }

  // What the loops keep: the whole split is the closed parts followed by the
  // split of the unread items with the current part open.
  ghost predicate Splitting<F, R>(size: Item<F, R> -> nat, budget: int, all: seq<Item<F, R>>, unread: seq<Item<F, R>>,
                                  closed: seq<seq<Item<F, R>>>, current: seq<Item<F, R>>, used: int) {
    && 0 <= used == Cost(size, current) <= budget
    && Greedy(size, budget, all, [], 0) == After(closed, Greedy(size, budget, unread, current, used))
  }

  // The next item goes into the current part, or closes it, or cannot be placed.
  lemma {:induction false} Grow<F, R>(size: Item<F, R> -> nat, budget: int, all: seq<Item<F, R>>,
                                      unread: seq<Item<F, R>>,
                   closed: seq<seq<Item<F, R>>>, current: seq<Item<F, R>>, used: int)
    requires Splitting(size, budget, all, unread, closed, current, used) && unread != []
    requires used + size(unread[0]) + 1 <= budget
    ensures Splitting(size, budget, all, unread[1..], closed, current + [unread[0]], used + size(unread[0]) + 1)
  {
  }

  lemma {:induction false} Close<F, R>(size: Item<F, R> -> nat, budget: int, all: seq<Item<F, R>>,
                                       unread: seq<Item<F, R>>,
                    closed: seq<seq<Item<F, R>>>, current: seq<Item<F, R>>, used: int)
    requires Splitting(size, budget, all, unread, closed, current, used) && unread != []
    requires used + size(unread[0]) + 1 > budget
    ensures current == [] || size(unread[0]) + 1 > budget ==> Greedy(size, budget, all, [], 0) == None
    ensures current != [] && size(unread[0]) + 1 <= budget ==>
              Splitting(size, budget, all, unread[1..], closed + [current], [unread[0]], size(unread[0]) + 1)
  {
    var cost := size(unread[0]) + 1;
    var rest := Greedy(size, budget, unread[1..], [unread[0]], cost);
    if current != [] && cost <= budget {
      CostOfOne(size, unread[0]);
      AfterTwice(closed, current, rest);
    }
  }

  lemma AfterTwice<T>(closed: seq<T>, next: T, rest: Option<seq<T>>)
    ensures After(closed, After([next], rest)) == After(closed + [next], rest)
  {
    if rest.Some? {
      assert closed + ([next] + rest.value) == (closed + [next]) + rest.value;
    }
  }

  ghost predicate Unsplittable<F, R>(size: Item<F, R> -> nat, empty: nat, findings: seq<F>, rows: seq<R>,
                                     maximum: nat) {
    || maximum < CHUNK_FRAME_RESERVE_BYTES + empty
    || exists item :: item in FindingItems(findings) + RowItems(rows) &&
                      empty + size(item) + 1 > maximum - CHUNK_FRAME_RESERVE_BYTES
  }

  // The greedy split of all findings and then all rows; one empty part if there are none.
  ghost predicate IsGreedySplit<F, R>(size: Item<F, R> -> nat, empty: nat, findings: seq<F>, rows: seq<R>,
                                      maximum: nat, parts: seq<Parts<F, R>>) {
    var budget := maximum - CHUNK_FRAME_RESERVE_BYTES - empty;
    var items := FindingItems(findings) + RowItems(rows);
    if items == [] then parts == [Parts([], [])]
    else Greedy(size, budget, items, [], 0) == Some(Lists(parts))
  }

  // Make room for one item, closing the current part when the item does not
  // fit into it; `None` when the item cannot be placed at all.
  method MakeRoom<F, R>(size: Item<F, R> -> nat, limit: nat, empty: nat, parts: seq<Parts<F, R>>, current: Parts<F, R>,
                        estimated: nat, itemBytes: nat, ghost all: seq<Item<F, R>>, ghost unread: seq<Item<F, R>>)
    returns (r: Option<(seq<Parts<F, R>>, Parts<F, R>, nat)>)
    requires empty <= estimated <= limit < USIZE_MAX && unread != [] && itemBytes == size(unread[0])
    requires Splitting(size, limit - empty, all, unread, Lists(parts), Items(current), estimated - empty)
    ensures r.None? ==> Greedy(size, limit - empty, all, [], 0) == None
    ensures r.Some? ==>
              && r.value in [(parts, current, estimated), (parts + [current], Parts([], []), empty)]
              && r.value.2 + itemBytes + 1 <= limit
              && Splitting(size, limit - empty, all, unread[1..], Lists(r.value.0), Items(r.value.1) + [unread[0]],
                           r.value.2 + itemBytes + 1 - empty)
  {
    hide Greedy, Cost, Splitting;
    if SaturatingAdd(SaturatingAdd(estimated, itemBytes), 1) > limit {
      Close(size, limit - empty, all, unread, Lists(parts), Items(current), estimated - empty);
      if current == Parts([], []) {
        return None;
      }
      assert Items(current) != [];
      if SaturatingAdd(SaturatingAdd(empty, itemBytes), 1) > limit {
        return None;
      }
      assert Lists(parts + [current]) == Lists(parts) + [Items(current)];
      assert Items<F, R>(Parts([], [])) + [unread[0]] == [unread[0]];
      return Some((parts + [current], Parts([], []), empty));
    }
    Grow(size, limit - empty, all, unread, Lists(parts), Items(current), estimated - empty);
    return Some((parts, current, estimated));
  }

  lemma NextFinding<F, R>(findings: seq<F>, all: seq<Item<F, R>>, i: nat)
    requires FindingItems(findings) <= all && i < |findings|
    ensures |findings| <= |all|
    ensures all[i..][0] == FindingItem(findings[i]) && all[i..][1..] == all[i + 1..]
  {
    assert all[i] == FindingItems<F, R>(findings)[i];
  }

  // The loop over the findings, from nothing.
  method AddFindings<F, R>(size: Item<F, R> -> nat, limit: nat, empty: nat, findings: seq<F>,
                           ghost all: seq<Item<F, R>>)
    returns (r: Option<(seq<Parts<F, R>>, Parts<F, R>, nat)>)
    requires empty <= limit < USIZE_MAX && FindingItems(findings) <= all
    ensures r.None? ==> Greedy(size, limit - empty, all, [], 0) == None
    ensures r.Some? ==>
              && empty <= r.value.2 <= limit
              && Splitting(size, limit - empty, all, all[|findings|..], Lists(r.value.0), Items(r.value.1),
                           r.value.2 - empty)
              && if findings == [] then r.value.0 == [] && r.value.1 == Parts([], []) else Items(r.value.1) != []
  {
    var parts: seq<Parts<F, R>> := [];
    var current: Parts<F, R> := Parts([], []);
    var estimated := empty;
    SplittingStarts(size, limit - empty, all);
    assert |findings| <= |all|;
    hide Greedy, Cost, Splitting, Items, Lists, FindingItems;
    for i := 0 to |findings|
      invariant current.rows == [] && empty <= estimated <= limit
      invariant Splitting(size, limit - empty, all, all[i..], Lists(parts), Items(current), estimated - empty)
      invariant if i == 0 then parts == [] && current == Parts([], []) else Items(current) != []
    {
      var itemBytes := size(FindingItem(findings[i]));
      NextFinding(findings, all, i);
      var room := MakeRoom(size, limit, empty, parts, current, estimated, itemBytes, all, all[i..]);
      if room.None? {
        return None;
      }
      parts, current, estimated := room.value.0, room.value.1, room.value.2;
      PushFinding(current, findings[i]);
      current := current.(findings := current.findings + [findings[i]]);
      estimated := SaturatingAdd(SaturatingAdd(estimated, itemBytes), 1);
    }
    return Some((parts, current, estimated));
  }

  // The loop over the rows, from where the findings left off.
  method AddRows<F, R>(size: Item<F, R> -> nat, limit: nat, empty: nat, rows: seq<R>, ghost all: seq<Item<F, R>>,
                       start: (seq<Parts<F, R>>, Parts<F, R>, nat))
    returns (r: Option<(seq<Parts<F, R>>, Parts<F, R>, nat)>)
    requires empty <= start.2 <= limit < USIZE_MAX && |rows| <= |all| && all[|all| - |rows|..] == RowItems(rows)
    requires Splitting(size, limit - empty, all, RowItems(rows), Lists(start.0), Items(start.1), start.2 - empty)
    ensures r.None? ==> Greedy(size, limit - empty, all, [], 0) == None
    ensures r.Some? ==>
              && empty <= r.value.2 <= limit
              && Splitting(size, limit - empty, all, [], Lists(r.value.0), Items(r.value.1), r.value.2 - empty)
              && if rows == [] then r.value == start else Items(r.value.1) != []
  {
    hide Greedy, Cost, Splitting;
    var (parts, current, estimated) := start;
    ghost var unread := RowItems<F, R>(rows);
    assert unread[0..] == unread;
    for j := 0 to |rows|
      invariant empty <= estimated <= limit
      invariant Splitting(size, limit - empty, all, unread[j..], Lists(parts), Items(current), estimated - empty)
      invariant if j == 0 then (parts, current, estimated) == start else Items(current) != []
    {
      var itemBytes := size(RowItem(rows[j]));
      assert unread[j..][0] == RowItem(rows[j]) && unread[j..][1..] == unread[j + 1..];
      var room := MakeRoom(size, limit, empty, parts, current, estimated, itemBytes, all, unread[j..]);
      if room.None? {
        return None;
      }
      parts, current, estimated := room.value.0, room.value.1, room.value.2;
      PushRow(current, rows[j]);
      current := current.(rows := current.rows + [rows[j]]);
      estimated := SaturatingAdd(SaturatingAdd(estimated, itemBytes), 1);
    }
    assert unread[|rows|..] == [];
    return Some((parts, current, estimated));
  }

  method SplitGreedily<F, R>(size: Item<F, R> -> nat, empty: nat, findings: seq<F>, rows: seq<R>, maximum: nat)
    returns (r: Result<seq<Parts<F, R>>, AiError>)
    requires maximum <= USIZE_MAX
    ensures r.Err? <==> Unsplittable(size, empty, findings, rows, maximum)
    ensures r.Err? ==> r.error == ContextTooLarge
    ensures r.Ok? ==> IsGreedySplit(size, empty, findings, rows, maximum, r.value)
  {
    hide Greedy, Cost, Splitting;
    if maximum < CHUNK_FRAME_RESERVE_BYTES {
      return Err(ContextTooLarge);
    }
    var limit := maximum - CHUNK_FRAME_RESERVE_BYTES;
    if empty > limit {
      return Err(ContextTooLarge);
    }
    ghost var all := FindingItems<F, R>(findings) + RowItems(rows);
    GreedyOfAllFailsIff(size, limit - empty, all);
    var afterFindings := AddFindings(size, limit, empty, findings, all);
    if afterFindings.None? {
      return Err(ContextTooLarge);
    }
    assert all[|findings|..] == RowItems(rows);
    var afterRows := AddRows(size, limit, empty, rows, all, afterFindings.value);
    if afterRows.None? {
      return Err(ContextTooLarge);
    }
    var (parts, current, estimated) := afterRows.value;
    SplittingEnds(size, limit - empty, all, [], parts, current, estimated - empty);
    if current != Parts([], []) || parts == [] {
      parts := parts + [current];
    }
    return Ok(parts);
  }

  lemma GreedyOfAllFailsIff<F, R>(size: Item<F, R> -> nat, budget: int, all: seq<Item<F, R>>)
    ensures Greedy(size, budget, all, [], 0).None? <==> exists item :: item in all && size(item) + 1 > budget
  {
    GreedyFailsIff(size, budget, all, [], 0);
  }

  lemma PushFinding<F, R>(part: Parts<F, R>, finding: F)
    requires part.rows == []
    ensures Items(part.(findings := part.findings + [finding])) == Items(part) + [FindingItem(finding)]
  {
  }

  lemma PushRow<F, R>(part: Parts<F, R>, row: R)
    ensures Items(part.(rows := part.rows + [row])) == Items(part) + [RowItem(row)]
  {
  }

  lemma {:induction false} SplittingStarts<F, R>(size: Item<F, R> -> nat, budget: int, all: seq<Item<F, R>>)
    requires budget >= 0
    ensures Splitting(size, budget, all, all[0..], Lists([]), Items(Parts([], [])), 0)
  {
    assert all[0..] == all && Items<F, R>(Parts([], [])) == [];
    var whole := Greedy(size, budget, all, [], 0);
    if whole.Some? {
      assert Lists<F, R>([]) + whole.value == whole.value;
    }
  }

  lemma {:induction false} SplittingEnds<F, R>(size: Item<F, R> -> nat, budget: int, all: seq<Item<F, R>>,
                                               unread: seq<Item<F, R>>,
                            parts: seq<Parts<F, R>>, current: Parts<F, R>, used: int)
    requires Splitting(size, budget, all, unread, Lists(parts), Items(current), used) && unread == []
    ensures Items(current) != [] ==> Greedy(size, budget, all, [], 0) == Some(Lists(parts + [current]))
  {
    assert Lists(parts + [current]) == Lists(parts) + [Items(current)];
  }

  // ---------------------------------------------------------------------
  // The chunks
  // ---------------------------------------------------------------------

  function ConcatFindings<F, R>(parts: seq<Parts<F, R>>): seq<F> {
    if parts == [] then [] else parts[0].findings + ConcatFindings(parts[1..])
  }

  function ConcatRows<F, R>(parts: seq<Parts<F, R>>): seq<R> {
    if parts == [] then [] else parts[0].rows + ConcatRows(parts[1..])
  }

  function FindingsOf<F, R>(items: seq<Item<F, R>>): seq<F> {
    if items == [] then []
    else (if items[0].FindingItem? then [items[0].finding] else []) + FindingsOf(items[1..])
  }

  function RowsOf<F, R>(items: seq<Item<F, R>>): seq<R> {
    if items == [] then []
    else (if items[0].RowItem? then [items[0].row] else []) + RowsOf(items[1..])
  }

  lemma Associative<T>(xs: seq<T>, ys: seq<T>, zs: seq<T>)
    ensures xs + (ys + zs) == (xs + ys) + zs
  {
  }

  lemma {:induction false} FindingsConcat<F, R>(xs: seq<Item<F, R>>, ys: seq<Item<F, R>>)
    ensures FindingsOf(xs + ys) == FindingsOf(xs) + FindingsOf(ys)
  {
    if xs == [] {
      assert xs + ys == ys;
    } else {
      FindingsConcat(xs[1..], ys);
      assert (xs + ys)[1..] == xs[1..] + ys && (xs + ys)[0] == xs[0];
      var first: seq<F> := if xs[0].FindingItem? then [xs[0].finding] else [];
      Associative(first, FindingsOf(xs[1..]), FindingsOf(ys));
    }
  }

  lemma {:induction false} RowsConcat<F, R>(xs: seq<Item<F, R>>, ys: seq<Item<F, R>>)
    ensures RowsOf(xs + ys) == RowsOf(xs) + RowsOf(ys)
  {
    if xs == [] {
      assert xs + ys == ys;
    } else {
      RowsConcat(xs[1..], ys);
      assert (xs + ys)[1..] == xs[1..] + ys && (xs + ys)[0] == xs[0];
      var first: seq<R> := if xs[0].RowItem? then [xs[0].row] else [];
      Associative(first, RowsOf(xs[1..]), RowsOf(ys));
    }
  }

  lemma {:induction false} SelectionsConcat<F, R>(xs: seq<Item<F, R>>, ys: seq<Item<F, R>>)
    ensures FindingsOf(xs + ys) == FindingsOf(xs) + FindingsOf(ys)
    ensures RowsOf(xs + ys) == RowsOf(xs) + RowsOf(ys)
  {
    FindingsConcat(xs, ys);
    RowsConcat(xs, ys);
  }

  lemma {:induction false} SelectionsOfLists<F, R>(findings: seq<F>, rows: seq<R>)
    ensures FindingsOf<F, R>(FindingItems(findings)) == findings && RowsOf<F, R>(FindingItems(findings)) == []
    ensures FindingsOf<F, R>(RowItems(rows)) == [] && RowsOf<F, R>(RowItems(rows)) == rows
    decreases |findings| + |rows|
  {
    if findings != [] {
      SelectionsOfLists(findings[1..], rows);
      assert FindingItems<F, R>(findings)[1..] == FindingItems(findings[1..]);
    } else if rows != [] {
      SelectionsOfLists(findings, rows[1..]);
      assert RowItems<F, R>(rows)[1..] == RowItems(rows[1..]);
    }
  }

  lemma {:induction false} SelectionsOfItems<F, R>(part: Parts<F, R>)
    ensures FindingsOf(Items(part)) == part.findings && RowsOf(Items(part)) == part.rows
  {
    SelectionsConcat<F, R>(FindingItems(part.findings), RowItems(part.rows));
    SelectionsOfLists(part.findings, part.rows);
  }

  lemma {:induction false} SelectionsOfParts<F, R>(parts: seq<Parts<F, R>>)
    ensures FindingsOf(Flatten(Lists(parts))) == ConcatFindings(parts)
    ensures RowsOf(Flatten(Lists(parts))) == ConcatRows(parts)
  {
    if parts != [] {
      assert Lists(parts)[1..] == Lists(parts[1..]);
      SelectionsConcat(Items(parts[0]), Flatten(Lists(parts[1..])));
      SelectionsOfItems(parts[0]);
      SelectionsOfParts(parts[1..]);
    }
  }

  lemma {:induction false} NonEmptyPartsAreFew<T>(parts: seq<seq<T>>)
    requires forall i | 0 <= i < |parts| :: parts[i] != []
    ensures |parts| <= |Flatten(parts)|
  {
    if parts != [] {
      NonEmptyPartsAreFew(parts[1..]);
    }
  }

  // The greedy split loses, repeats and reorders nothing and keeps every part
  // within the estimate.
  lemma {:induction false} GreedySplitConserves<F, R>(size: Item<F, R> -> nat, empty: nat, findings: seq<F>,
                                                      rows: seq<R>, maximum: nat, parts: seq<Parts<F, R>>)
    requires !Unsplittable(size, empty, findings, rows, maximum)
    requires IsGreedySplit(size, empty, findings, rows, maximum, parts)
    ensures Flatten(Lists(parts)) == FindingItems(findings) + RowItems(rows)
    ensures ConcatFindings(parts) == findings && ConcatRows(parts) == rows
    ensures parts != [] && (|parts| == 1 || |parts| <= |findings| + |rows|)
    ensures forall i | 0 <= i < |parts| ::
              empty + Cost(size, Items(parts[i])) <= maximum - CHUNK_FRAME_RESERVE_BYTES
  {
    var budget := maximum - CHUNK_FRAME_RESERVE_BYTES - empty;
    var items := FindingItems<F, R>(findings) + RowItems(rows);
    if items == [] {
      var whole: Chunk<F, R> := Chunk(0, Parts([], []));
      WholeIsConserved(whole);
      assert Contexts([whole]) == parts;
    } else {
      GreedyPartsConserve(size, budget, items, Lists(parts));
    }
    SelectionsOfParts(parts);
    SelectionsConcat<F, R>(FindingItems(findings), RowItems(rows));
    SelectionsOfLists(findings, rows);
  }

  lemma {:induction false} GreedyPartsConserve<F, R>(size: Item<F, R> -> nat, budget: int, items: seq<Item<F, R>>,
                                                     lists: seq<seq<Item<F, R>>>)
    requires Greedy(size, budget, items, [], 0) == Some(lists) && items != []
    ensures Flatten(lists) == items && AllFit(size, budget, lists) && 1 <= |lists| <= |items|
  {
    GreedyConserves(size, budget, items, [], 0);
    assert [] + items == items;
    NonEmptyPartsAreFew(lists);
  }

  // No other order-preserving split that keeps within the estimate has fewer parts.
  lemma {:induction false} GreedySplitIsMinimal<F, R>(size: Item<F, R> -> nat, empty: nat, findings: seq<F>,
                                                      rows: seq<R>,
                                   maximum: nat, parts: seq<Parts<F, R>>, other: seq<seq<Item<F, R>>>)
    requires IsGreedySplit(size, empty, findings, rows, maximum, parts)
    requires AllFit(size, maximum - CHUNK_FRAME_RESERVE_BYTES - empty, other)
    requires other != [] && Flatten(other) == FindingItems(findings) + RowItems(rows)
    ensures |parts| <= |other|
  {
    var budget := maximum - CHUNK_FRAME_RESERVE_BYTES - empty;
    var items := FindingItems<F, R>(findings) + RowItems(rows);
    hide Greedy, Cost, Flatten, AllFit;
    if items != [] {
      GreedyFromNothingIsOptimal(size, budget, items, other);
    }
  }

  lemma {:induction false} GreedyFromNothingIsOptimal<F, R>(size: Item<F, R> -> nat, budget: int,
                                                            items: seq<Item<F, R>>, other: seq<seq<Item<F, R>>>)
    requires AllFit(size, budget, other) && Flatten(other) == items
    requires Greedy(size, budget, items, [], 0).Some?
    ensures |Greedy(size, budget, items, [], 0).value| <= |other|
  {
    hide Greedy, Flatten, AllFit;
    assert [] + items == items;
    GreedyIsOptimal(size, budget, items, [], 0, other);
  }

  lemma EmptyPromptHolds(name: nat, emptyPayload: nat)
    ensures emptyPayload <= EmptyPromptBytes(name, emptyPayload)
  {
    hide Digits;
  }

  // The rendered prompt of one part.
  function InputBytes<F, R>(size: Item<F, R> -> nat, name: nat, emptyPayload: nat, part: Parts<F, R>,
                            index: nat, count: nat): nat {
    ChunkPromptBytes(name, index, count, PayloadBytes(size, emptyPayload, part), |part.rows|, |part.findings|)
  }

  function Contexts<F, R>(chunks: seq<Chunk<F, R>>): (parts: seq<Parts<F, R>>)
    ensures |parts| == |chunks|
    ensures forall i | 0 <= i < |chunks| :: parts[i] == chunks[i].context
  {
    seq(|chunks|, i requires 0 <= i < |chunks| => chunks[i].context)
  }

  predicate CountsFit<F, R>(part: Parts<F, R>) {
    |part.rows| <= U32_MAX && |part.findings| <= U32_MAX
  }

  predicate Rendered<F, R>(size: Item<F, R> -> nat, name: nat, emptyPayload: nat, chunk: Chunk<F, R>,
                           index: nat, count: nat, maximum: nat) {
    && CountsFit(chunk.context)
    && chunk.inputBytes == InputBytes(size, name, emptyPayload, chunk.context, index, count)
    && chunk.inputBytes <= maximum
  }

  // The rendering loop over parts that keep within the estimate.
  method RenderChunks<F, R>(size: Item<F, R> -> nat, name: nat, emptyPayload: nat, parts: seq<Parts<F, R>>,
                            maximum: nat)
    returns (r: Result<seq<Chunk<F, R>>, AiError>)
    requires maximum <= USIZE_MAX && |parts| <= USIZE_MAX
    requires forall i | 0 <= i < |parts| ::
               EmptyPromptBytes(name, emptyPayload) + Cost(size, Items(parts[i])) <= maximum - CHUNK_FRAME_RESERVE_BYTES
    ensures r.Ok? ==>
              && Contexts(r.value) == parts
              && forall i | 0 <= i < |parts| :: Rendered(size, name, emptyPayload, r.value[i], i + 1, |parts|, maximum)
    ensures r.Err? ==> r.error == InvalidStoredOutput && exists i :: 0 <= i < |parts| && !CountsFit(parts[i])
  {
    var total := |parts|;
    var chunks: seq<Chunk<F, R>> := [];
    hide EmptyPromptBytes, Cost, ChunkPromptBytes;
    for index := 0 to total
      invariant |chunks| == index
      invariant forall i | 0 <= i < index :: chunks[i].context == parts[i]
      invariant forall i | 0 <= i < index :: Rendered(size, name, emptyPayload, chunks[i], i + 1, total, maximum)
    {
      var part := parts[index];
      if !CountsFit(part) {
        return Err(InvalidStoredOutput);
      }
      var input := InputBytes(size, name, emptyPayload, part, index + 1, total);
      EmptyPromptHolds(name, emptyPayload);
      ReserveSuffices(size, name, emptyPayload, part, index + 1, total);
      if input > maximum {
        // The source reports ContextTooLarge here; the reserve rules it out.
        assert false;
      }
      chunks := chunks + [Chunk(input, part)];
    }
    return Ok(chunks);
  }

  method BuildBoundedChunks<F(!new), R(!new)>(size: Item<F, R> -> nat, name: nat, emptyPayload: nat,
                                  findings: seq<F>, rows: seq<R>, maximum: nat)
    returns (r: Result<seq<Chunk<F, R>>, AiError>)
    requires maximum <= USIZE_MAX && |findings| + |rows| <= USIZE_MAX
    ensures r == Err(ContextTooLarge) <==>
            Unsplittable(size, EmptyPromptBytes(name, emptyPayload), findings, rows, maximum)
    ensures r.Ok? ==>
              && IsGreedySplit(size, EmptyPromptBytes(name, emptyPayload), findings, rows, maximum, Contexts(r.value))
              && forall i | 0 <= i < |r.value| ::
                   Rendered(size, name, emptyPayload, r.value[i], i + 1, |r.value|, maximum)
    ensures r.Err? && r.error != ContextTooLarge ==>
              && r.error == InvalidStoredOutput
              && SomeCountTooLarge(size, EmptyPromptBytes(name, emptyPayload), findings, rows, maximum)
  {
    hide IsGreedySplit, Unsplittable, EmptyPromptBytes, Cost, ChunkPromptBytes;
    var empty := EmptyPromptBytes(name, emptyPayload);
    var split := SplitGreedily(size, empty, findings, rows, maximum);
    if split.Err? {
      return Err(split.error);
    }
    var parts := split.value;
    GreedySplitConserves(size, empty, findings, rows, maximum, parts);
    r := RenderChunks(size, name, emptyPayload, parts, maximum);
  }

  // The counts never overflow when the byte limit itself fits 32 bits, as the
  // 1.5 MiB limit of the application does: every item costs at least a byte.
  lemma {:induction false} CountsAlwaysFit<F, R>(size: Item<F, R> -> nat, part: Parts<F, R>, limit: nat)
    requires Cost(size, Items(part)) <= limit <= U32_MAX
    ensures CountsFit(part)
  {
    CostCountsItems(size, Items(part));
  }

  lemma {:induction false} CostCountsItems<F, R>(size: Item<F, R> -> nat, items: seq<Item<F, R>>)
    ensures |items| <= Cost(size, items)
  {
    if items != [] {
      CostCountsItems(size, items[..|items| - 1]);
    }
  }

  // ---------------------------------------------------------------------
  // The whole plan's chunks
  // ---------------------------------------------------------------------

  // A context small enough for one prompt is sent whole; otherwise it is split
  // with the compact diagnostics of `emptyPayload`.
  method PromptChunks<F(!new), R(!new)>(size: Item<F, R> -> nat, language: string, completePayload: nat,
                                        emptyPayload: nat,
                            findings: seq<F>, rows: seq<R>, maximum: nat) returns (r: Result<seq<Chunk<F, R>>, AiError>)
    requires maximum <= USIZE_MAX && |findings| + |rows| <= USIZE_MAX
    ensures r == Err(UnsupportedLanguage) <==> language != "en" && language != "ar"
    ensures language == "en" || language == "ar" ==>
              var name := if language == "en" then |"English"| else |"Arabic"|;
              var complete := CompletePromptBytes(name, completePayload);
              var empty := EmptyPromptBytes(name, emptyPayload);
              if complete <= maximum then r == Ok([Chunk(complete, Parts(findings, rows))])
              else if Unsplittable(size, empty, findings, rows, maximum) then r == Err(ContextTooLarge)
              else if r.Ok? then
                && IsGreedySplit(size, empty, findings, rows, maximum, Contexts(r.value))
                && forall i | 0 <= i < |r.value| ::
                     Rendered(size, name, emptyPayload, r.value[i], i + 1, |r.value|, maximum)
              else
                && r.error == InvalidStoredOutput && maximum > U32_MAX
                && SomeCountTooLarge(size, empty, findings, rows, maximum)
    ensures r.Ok? ==>
              && r.value != []
              && ConcatFindings(Contexts(r.value)) == findings
              && ConcatRows(Contexts(r.value)) == rows
              && Flatten(Lists(Contexts(r.value))) == FindingItems(findings) + RowItems(rows)
              && forall i | 0 <= i < |r.value| ::
                   var part := r.value[i].context;
                   var whole := CompletePromptBytes(if language == "en" then |"English"| else |"Arabic"|, completePayload) <= maximum;
                   (if whole then completePayload else PayloadBytes(size, emptyPayload, part))
                   < r.value[i].inputBytes <= maximum
  {
    hide EmptyPromptBytes, Unsplittable, IsGreedySplit, Rendered, CountsFit, Flatten, ConcatFindings, ConcatRows;
    if OutputLanguage(language).None? {
      return Err(UnsupportedLanguage);
    }
    var name := |OutputLanguage(language).value|;
    var complete := CompletePromptBytes(name, completePayload);
    if complete <= maximum {
      var whole := Chunk(complete, Parts(findings, rows));
      WholeIsConserved(whole);
      return Ok([whole]);
    }
    ghost var empty := EmptyPromptBytes(name, emptyPayload);
    r := BuildBoundedChunks(size, name, emptyPayload, findings, rows, maximum);
    if r.Ok? {
      GreedySplitConserves(size, empty, findings, rows, maximum, Contexts(r.value));
      RenderedFits(size, name, emptyPayload, r.value, maximum);
    } else if r.error != ContextTooLarge && maximum <= U32_MAX {
      SplitCountsFit(size, empty, findings, rows, maximum);
      assert false;
    }
  }

  function CompletePromptBytes(name: nat, completePayload: nat): nat {
    COMPLETE_TEXT_BYTES + name + Digits(completePayload) + completePayload
  }

  lemma RenderedFits<F, R>(size: Item<F, R> -> nat, name: nat, emptyPayload: nat, chunks: seq<Chunk<F, R>>,
                           maximum: nat)
    requires forall i | 0 <= i < |chunks| :: Rendered(size, name, emptyPayload, chunks[i], i + 1, |chunks|, maximum)
    ensures forall i | 0 <= i < |chunks| ::
              PayloadBytes(size, emptyPayload, chunks[i].context) < chunks[i].inputBytes <= maximum
  {
    hide Digits, PayloadBytes;
    assert forall i | 0 <= i < |chunks| ::
             Rendered(size, name, emptyPayload, chunks[i], i + 1, |chunks|, maximum);
  }

  // Some part of the greedy split has more rows or findings than 32 bits count.
  ghost predicate SomeCountTooLarge<F(!new), R(!new)>(size: Item<F, R> -> nat, empty: nat, findings: seq<F>,
                                                      rows: seq<R>, maximum: nat)
  {
    exists parts, i ::
      IsGreedySplit(size, empty, findings, rows, maximum, parts) && 0 <= i < |parts| && !CountsFit(parts[i])
  }

  lemma {:induction false} SplitCountsFit<F(!new), R(!new)>(size: Item<F, R> -> nat, empty: nat, findings: seq<F>,
                                                            rows: seq<R>, maximum: nat)
    requires maximum <= U32_MAX && !Unsplittable(size, empty, findings, rows, maximum)
    ensures !SomeCountTooLarge(size, empty, findings, rows, maximum)
  {
    forall parts, i | IsGreedySplit(size, empty, findings, rows, maximum, parts) && 0 <= i < |parts|
      ensures CountsFit(parts[i])
    {
      GreedySplitConserves(size, empty, findings, rows, maximum, parts);
      CountsAlwaysFit(size, parts[i], maximum);
    }
  }

  lemma WholeIsConserved<F, R>(whole: Chunk<F, R>)
    ensures var parts := Contexts([whole]);
            && ConcatFindings(parts) == whole.context.findings && ConcatRows(parts) == whole.context.rows
            && Flatten(Lists(parts)) == Items(whole.context)
  {
  }
}
