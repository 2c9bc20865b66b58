/**
 What a sheet's cells tell the detection: which row is the header, and how many
 of a column's cells are numbers, texts, units or currencies. Scores are exact.
 */
module SheetCells {
  import opened Wrappers
  import opened Segmentation
  import opened ColumnInference

  // What normalisation makes of one cell: its number, and for a text the header
  // role it names and whether it is blank, long, a unit or a currency.
  datatype Cell = Cell(
    column: nat,
    number: Option<real>,
    isText: bool,
    alias: Option<Role>,
    isBlank: bool,
    isLong: bool,
    isUnit: bool,
    isCurrency: bool
  )

  // A row's joined text and what it mentions.
  datatype Line = Line(text: string, total: bool, subtotal: bool, note: bool)

  // The occupied rows in ascending order, each one's cells by column, and its text.
  datatype Sheet = Sheet(isWorksheet: bool, keys: seq<nat>, cells: map<nat, seq<Cell>>, lines: nat -> Line)

  predicate ColumnsAscend(cells: seq<Cell>) {
    forall i, j | 0 <= i < j < |cells| :: cells[i].column < cells[j].column
  }

  ghost predicate ValidRow(cells: seq<Cell>) {
    cells != [] && ColumnsAscend(cells) && forall i | 0 <= i < |cells| :: cells[i].alias != Some(Unknown)
  }

  ghost predicate ValidSheet(sheet: Sheet) {
    && Ascending(sheet.keys)
    && forall row | row in sheet.keys :: row in sheet.cells && ValidRow(sheet.cells[row])
  }

  // ---------------------------------------------------------------------
  // The header
  // ---------------------------------------------------------------------

  const HEADER_SEARCH_ROWS: nat := 8

  predicate NamesRole(cell: Cell) { cell.isText && cell.alias.Some? }

  // The columns whose cells name a role.
  function Roles(cells: seq<Cell>): Sorted<Role> {
    if cells == [] then Sorted([], map[])
    else
      var before, last := Roles(cells[..|cells| - 1]), cells[|cells| - 1];
      if NamesRole(last) then Sorted(before.keys + [last.column], before.values[last.column := last.alias.value])
      else before
  }

  function Texts(cells: seq<Cell>): nat {
    if cells == [] then 0 else Texts(cells[..|cells| - 1]) + if cells[|cells| - 1].isText then 1 else 0
  }

  lemma {:induction false} RolesMean(cells: seq<Cell>)
    requires ColumnsAscend(cells)
    ensures ColumnInference.Valid(Roles(cells))
    ensures forall c | c in Roles(cells).values ::
              exists i :: 0 <= i < |cells| && cells[i].column == c && cells[i].alias == Some(Roles(cells).values[c])
  {
    hide Ascending;
    if cells == [] {
      assert Ascending([]) by { EmptyAscends(); }
    } else {
      var front, last := cells[..|cells| - 1], cells[|cells| - 1];
      RolesMean(front);
      var before := Roles(front);
      forall c | c in before.keys
        ensures c < last.column
      {
        var i :| 0 <= i < |front| && front[i].column == c && front[i].alias == Some(before.values[c]);
        assert cells[i] == front[i];
      }
      AscendingMore(before.keys, last.column);
      forall c | c in Roles(cells).values
        ensures exists i :: 0 <= i < |cells| && cells[i].column == c && cells[i].alias == Some(Roles(cells).values[c])
      {
        if c in before.values {
          var i :| 0 <= i < |front| && front[i].column == c && front[i].alias == Some(before.values[c]);
          assert cells[i] == front[i];
        }
      }
    }
  }

  lemma EmptyAscends()
    ensures Ascending([])
  {
  }

  lemma AscendingMore(keys: seq<nat>, c: nat)
    requires Ascending(keys) && forall k | k in keys :: k < c
    ensures Ascending(keys + [c])
  {
    assert forall i | 0 <= i < |keys| :: keys[i] in keys;
  }

  function Least(x: real, y: real): real { if x < y then x else y }

  // How much of the row is text, and how much names a role.
  function HeaderScore(cells: seq<Cell>): real
    requires cells != []
  {
    Least(1.0, 0.55 + 0.25 * Ratio(Texts(cells), |cells|) + 0.2 * Ratio(|Roles(cells).values|, |cells|))
  }

  predicate IsCandidate(cells: seq<Cell>) { |Roles(cells).values.Values| >= 2 }

  function CellsAt(sheet: Sheet, row: nat): seq<Cell> { if row in sheet.cells then sheet.cells[row] else [] }

  predicate MayHead(sheet: Sheet, row: nat) { CellsAt(sheet, row) != [] && IsCandidate(CellsAt(sheet, row)) }

  // The candidate with the greatest score, the last of equal ones.
  ghost predicate IsHeader(sheet: Sheet, rows: seq<nat>, row: nat) {
    && row in rows && MayHead(sheet, row)
    && forall other | other in rows && MayHead(sheet, other) ::
         var mine, its := HeaderScore(CellsAt(sheet, row)), HeaderScore(CellsAt(sheet, other));
         its < mine || (its == mine && other <= row)
  }

  lemma {:induction false} HeaderIsUnique(sheet: Sheet, rows: seq<nat>, a: nat, b: nat)
    requires IsHeader(sheet, rows, a) && IsHeader(sheet, rows, b)
    ensures a == b
  {
    hide HeaderScore, MayHead;
  }

  ghost function HeaderOf(sheet: Sheet, rows: seq<nat>): Option<nat> {
    if row: nat :| IsHeader(sheet, rows, row) then Some(row) else None
  }

  method ReadRoles(cells: seq<Cell>) returns (roles: Sorted<Role>, texts: nat)
    ensures roles == Roles(cells) && texts == Texts(cells)
  {
    roles, texts := Sorted([], map[]), 0;
    for i := 0 to |cells|
      invariant roles == Roles(cells[..i]) && texts == Texts(cells[..i])
    {
      assert cells[..i + 1][..i] == cells[..i];
      if cells[i].isText {
        texts := texts + 1;
        if cells[i].alias.Some? {
          roles := Sorted(roles.keys + [cells[i].column], roles.values[cells[i].column := cells[i].alias.value]);
        }
      }
    }
    assert cells[..|cells|] == cells;
  }

  datatype Header = Header(row: nat, roles: Sorted<Role>)

  function Searched(rows: seq<nat>): seq<nat> {
    if |rows| > HEADER_SEARCH_ROWS then rows[..HEADER_SEARCH_ROWS] else rows
  }

  ghost predicate Leads(sheet: Sheet, rows: seq<nat>, best: Option<nat>) {
    match best
    case None => forall row | row in rows :: !MayHead(sheet, row)
    case Some(row) => IsHeader(sheet, rows, row)
  }

  lemma LeadsMore(sheet: Sheet, rows: seq<nat>, best: Option<nat>, row: nat)
    requires Leads(sheet, rows, best) && forall earlier | earlier in rows :: earlier < row
    ensures var mine := MayHead(sheet, row) &&
                        (best.None? || HeaderScore(CellsAt(sheet, row)) >= HeaderScore(CellsAt(sheet, best.value)));
            Leads(sheet, rows + [row], if mine then Some(row) else best)
  {
    hide HeaderScore, MayHead;
  }

  lemma LeaderIsHeader(sheet: Sheet, rows: seq<nat>, best: Option<nat>)
    requires Leads(sheet, rows, best)
    ensures HeaderOf(sheet, rows) == best
  {
    hide HeaderScore, MayHead;
    if best.Some? {
      HeaderIsUnique(sheet, rows, best.value, HeaderOf(sheet, rows).value);
    }
  }

  method DetectHeader(sheet: Sheet, rows: seq<nat>) returns (header: Option<Header>)
    requires Ascending(rows) && forall row | row in rows :: row in sheet.cells && ValidRow(sheet.cells[row])
    ensures HeaderOf(sheet, Searched(rows)) == if header.None? then None else Some(header.value.row)
    ensures header.Some? ==>
              && header.value.row in Searched(rows) && MayHead(sheet, header.value.row)
              && header.value.roles == Roles(sheet.cells[header.value.row])
  {
    hide HeaderScore, Roles, Leads, IsHeader, HeaderOf, ValidRow;
    var searched := Searched(rows);
    header := None;
    var score := 0.0;
    NobodyLeads(sheet);
    for i := 0 to |searched|
      invariant Leads(sheet, searched[..i], if header.None? then None else Some(header.value.row))
      invariant header.Some? ==>
                  && header.value.row in searched && MayHead(sheet, header.value.row)
                  && score == HeaderScore(sheet.cells[header.value.row])
                  && header.value.roles == Roles(sheet.cells[header.value.row])
    {
      var row := searched[i];
      assert searched[..i + 1] == searched[..i] + [row];
      LeadsMore(sheet, searched[..i], if header.None? then None else Some(header.value.row), row);
      var candidate, its := ReadCandidate(sheet, row);
      if candidate.Some? && (header.None? || its >= score) {
        header, score := candidate, its;
      }
    }
    assert searched[..|searched|] == searched;
    LeaderIsHeader(sheet, searched, if header.None? then None else Some(header.value.row));
  }

  lemma NobodyLeads(sheet: Sheet)
    ensures Leads(sheet, [], None)
  {
  }

  // One row as a header, if it names two roles.
  method ReadCandidate(sheet: Sheet, row: nat) returns (header: Option<Header>, score: real)
    requires row in sheet.cells && ValidRow(sheet.cells[row])
    ensures header.Some? <==> MayHead(sheet, row)
    ensures header.Some? ==>
              header.value == Header(row, Roles(sheet.cells[row])) && score == HeaderScore(sheet.cells[row])
  {
    hide HeaderScore, Roles;
    header, score := None, 0.0;
    var cells := sheet.cells[row];
    var roles, texts := ReadRoles(cells);
    if |roles.values.Values| >= 2 {
      score := Least(1.0, 0.55 + 0.25 * Ratio(texts, |cells|) + 0.2 * Ratio(|roles.values|, |cells|));
      ScoreIsHeaderScore(cells, score);
      header := Some(Header(row, roles));
    }
  }

  lemma ScoreIsHeaderScore(cells: seq<Cell>, score: real)
    requires cells != []
    requires score ==
             Least(1.0, 0.55 + 0.25 * Ratio(Texts(cells), |cells|) + 0.2 * Ratio(|Roles(cells).values|, |cells|))
    ensures score == HeaderScore(cells)
  {
  }

  // ---------------------------------------------------------------------
  // Counting
  // ---------------------------------------------------------------------

  function One(holds: bool): nat { if holds then 1 else 0 }

  // The counts with one more cell.
  function Counted(stats: Stats, cell: Cell): Stats {
    Stats(
      stats.nonEmpty + 1,
      stats.numeric + One(cell.number.Some?),
      stats.text + One(cell.isText),
      stats.longText + One(cell.isText && cell.isLong),
      stats.unit + One(cell.isText && cell.isUnit),
      stats.currency + One(cell.isText && cell.isCurrency)
    )
  }

  // The counts of a column's cells among those given.
  function Tally(cells: seq<Cell>, c: nat): Stats {
    if cells == [] then NO_CELLS
    else
      var before, last := Tally(cells[..|cells| - 1], c), cells[|cells| - 1];
      if last.column == c then Counted(before, last) else before
  }

  function Columns(cells: seq<Cell>): set<nat> { set i | 0 <= i < |cells| :: cells[i].column }

  function Tallied(cells: seq<Cell>): map<nat, Stats> { map c | c in Columns(cells) :: Tally(cells, c) }

  // Where cells of some sort are.
  function Places(cells: seq<Cell>, sort: Cell -> bool): set<nat> { set i | 0 <= i < |cells| && sort(cells[i]) }

  lemma PlacesMore(front: seq<Cell>, last: Cell, sort: Cell -> bool)
    ensures |Places(front + [last], sort)| == |Places(front, sort)| + One(sort(last))
  {
    var n, cells := |front|, front + [last];
    assert Places(cells, sort) == Places(front, sort) + if sort(last) then {n} else {};
    assert n !in Places(front, sort);
  }

  function InColumn(c: nat): Cell -> bool { (cell: Cell) => cell.column == c }

  function NumberIn(c: nat): Cell -> bool { (cell: Cell) => cell.column == c && cell.number.Some? }

  function TextIn(c: nat): Cell -> bool { (cell: Cell) => cell.column == c && cell.isText }

  function LongTextIn(c: nat): Cell -> bool { (cell: Cell) => cell.column == c && cell.isText && cell.isLong }

  function UnitIn(c: nat): Cell -> bool { (cell: Cell) => cell.column == c && cell.isText && cell.isUnit }

  function CurrencyIn(c: nat): Cell -> bool { (cell: Cell) => cell.column == c && cell.isText && cell.isCurrency }

  // A column's counts are the numbers of its cells of each sort.
  lemma {:induction false} TallyMeans(cells: seq<Cell>, c: nat)
    ensures Tally(cells, c) == Stats(
              |Places(cells, InColumn(c))|,
              |Places(cells, NumberIn(c))|,
              |Places(cells, TextIn(c))|,
              |Places(cells, LongTextIn(c))|,
              |Places(cells, UnitIn(c))|,
              |Places(cells, CurrencyIn(c))|)
  {
    if cells == [] {
      NoPlaces(InColumn(c));
      NoPlaces(NumberIn(c));
      NoPlaces(TextIn(c));
      NoPlaces(LongTextIn(c));
      NoPlaces(UnitIn(c));
      NoPlaces(CurrencyIn(c));
    } else {
      hide Places;
      var front, last := cells[..|cells| - 1], cells[|cells| - 1];
      assert cells == front + [last];
      TallyMeans(front, c);
      PlacesMore(front, last, InColumn(c));
      PlacesMore(front, last, NumberIn(c));
      PlacesMore(front, last, TextIn(c));
      PlacesMore(front, last, LongTextIn(c));
      PlacesMore(front, last, UnitIn(c));
      PlacesMore(front, last, CurrencyIn(c));
    }
  }

  lemma NoPlaces(sort: Cell -> bool)
    ensures |Places([], sort)| == 0
  {
    assert Places([], sort) == {};
  }

  function AnyText(): Cell -> bool { (cell: Cell) => cell.isText }

  function AnyAlias(): Cell -> bool { (cell: Cell) => cell.isText && cell.alias.Some? }

  // The score weighs the shares of texts and of aliases among the row's cells.
  lemma {:induction false} HeaderScoreMeans(cells: seq<Cell>)
    requires cells != [] && ColumnsAscend(cells)
    ensures HeaderScore(cells) == 0.55 + 0.25 * (|Places(cells, AnyText())| as real / |cells| as real)
                                       + 0.2 * (|Places(cells, AnyAlias())| as real / |cells| as real)
  {
    hide Roles, Texts, Places;
    TextsAndRoles(cells);
    PlacesAreFew(cells, AnyText());
    PlacesAreFew(cells, AnyAlias());
    ShareIsSmall(|Places(cells, AnyText())|, |cells|);
    ShareIsSmall(|Places(cells, AnyAlias())|, |cells|);
  }

  lemma ShareIsSmall(n: nat, d: nat)
    requires n <= d && d > 0
    ensures 0.0 <= n as real / d as real <= 1.0
  {
    assert n as real / d as real <= d as real / d as real;
  }

  lemma {:induction false} PlacesAreFew(cells: seq<Cell>, sort: Cell -> bool)
    ensures |Places(cells, sort)| <= |cells|
  {
    if cells == [] {
      NoPlaces(sort);
    } else {
      var n := |cells| - 1;
      assert cells == cells[..n] + [cells[n]];
      PlacesAreFew(cells[..n], sort);
      PlacesMore(cells[..n], cells[n], sort);
    }
  }

  lemma {:induction false} TextsAndRoles(cells: seq<Cell>)
    requires ColumnsAscend(cells)
    ensures Texts(cells) == |Places(cells, AnyText())|
    ensures |Roles(cells).values| == |Places(cells, AnyAlias())|
  {
    if cells == [] {
      NoPlaces(AnyText());
      NoPlaces(AnyAlias());
    } else {
      hide Places;
      var front, last := cells[..|cells| - 1], cells[|cells| - 1];
      assert cells == front + [last];
      TextsAndRoles(front);
      PlacesMore(front, last, AnyText());
      PlacesMore(front, last, AnyAlias());
      NewColumn(front, last);
    }
  }

  lemma NewColumn(front: seq<Cell>, last: Cell)
    requires ColumnsAscend(front + [last])
    ensures last.column !in Roles(front).values
  {
    hide Ascending, ColumnInference.Valid;
    var cells := front + [last];
    forall i | 0 <= i < |front|
      ensures cells[i] == front[i] && front[i].column < last.column
    {
      assert cells[i].column < cells[|front|].column;
    }
    assert ColumnsAscend(front);
    RolesMean(front);
  }

  // Every cell that names a role gives it to its column.
  lemma {:induction false} AliasesAreRoles(cells: seq<Cell>, i: nat)
    requires ColumnsAscend(cells) && i < |cells| && cells[i].isText && cells[i].alias.Some?
    ensures cells[i].column in Roles(cells).values && Roles(cells).values[cells[i].column] == cells[i].alias.value
  {
    var n := |cells| - 1;
    if i < n {
      AliasesAreRoles(cells[..n], i);
      assert cells[..n][i] == cells[i] && cells[i].column < cells[n].column;
    }
  }

  // The cells of some rows, in order.
  function CellsOf(sheet: Sheet, rows: seq<nat>): seq<Cell> {
    if rows == [] then [] else CellsOf(sheet, rows[..|rows| - 1]) + CellsAt(sheet, rows[|rows| - 1])
  }

  method CountCell(stats: Sorted<Stats>, cell: Cell, ghost before: seq<Cell>) returns (now: Sorted<Stats>)
    requires ColumnInference.Valid(stats) && stats.values == Tallied(before)
    ensures ColumnInference.Valid(now) && now.values == Tallied(before + [cell])
  {
    hide Tallied, Counted, Ascending;
    var c := cell.column;
    var entry := if c in stats.values then stats.values[c] else NO_CELLS;
    var grown := CountInto(entry, cell);
    TalliedMore(before, cell);
    InsertMeans(stats.keys, c);
    now := Sorted(Insert(stats.keys, c), stats.values[c := grown]);
  }

  method CountInto(entry: Stats, cell: Cell) returns (grown: Stats)
    ensures grown == Counted(entry, cell)
  {
    grown := entry.(nonEmpty := entry.nonEmpty + 1);
    if cell.number.Some? {
      grown := grown.(numeric := grown.numeric + 1);
    }
    if cell.isText {
      grown := grown.(text := grown.text + 1);
      if cell.isLong {
        grown := grown.(longText := grown.longText + 1);
      }
      if cell.isUnit {
        grown := grown.(unit := grown.unit + 1);
      }
      if cell.isCurrency {
        grown := grown.(currency := grown.currency + 1);
      }
    }
  }

  lemma TalliedMore(cells: seq<Cell>, cell: Cell)
    ensures var entry := if cell.column in Tallied(cells) then Tallied(cells)[cell.column] else NO_CELLS;
            Tallied(cells + [cell]) == Tallied(cells)[cell.column := Counted(entry, cell)]
  {
    var now := cells + [cell];
    assert now[..|cells|] == cells && now[|cells|] == cell;
    forall c
      ensures c in Columns(now) <==> c in Columns(cells) || c == cell.column
    {
      if c in Columns(cells) {
        var i :| 0 <= i < |cells| && cells[i].column == c;
        assert now[i].column == c;
      }
    }
    if cell.column !in Columns(cells) {
      AbsentTally(cells, cell.column);
    }
  }

  lemma {:induction false} AbsentTally(cells: seq<Cell>, c: nat)
    requires c !in Columns(cells)
    ensures Tally(cells, c) == NO_CELLS
  {
    if cells != [] {
      var front := cells[..|cells| - 1];
      assert forall i | 0 <= i < |cells| :: cells[i].column in Columns(cells);
      assert c !in Columns(front);
      AbsentTally(front, c);
    }
  }

  // The cells of the rows given, counted by column.
  method CountColumns(sheet: Sheet, rows: seq<nat>) returns (counted: Sorted<Stats>)
    ensures ColumnInference.Valid(counted) && counted.values == Tallied(CellsOf(sheet, rows))
  {
    hide Tallied, CellsAt;
    counted := Sorted([], map[]);
    NothingTallied();
    for i := 0 to |rows|
      invariant ColumnInference.Valid(counted) && counted.values == Tallied(CellsOf(sheet, rows[..i]))
    {
      assert rows[..i + 1][..i] == rows[..i];
      var cells := CellsAt(sheet, rows[i]);
      counted := CountRow(counted, cells, CellsOf(sheet, rows[..i]));
    }
    assert rows[..|rows|] == rows;
  }

  lemma NothingTallied()
    ensures var none: Sorted<Stats> := Sorted([], map[]);
            ColumnInference.Valid(none) && none.values == Tallied([])
  {
  }

  method CountRow(stats: Sorted<Stats>, cells: seq<Cell>, ghost before: seq<Cell>) returns (now: Sorted<Stats>)
    requires ColumnInference.Valid(stats) && stats.values == Tallied(before)
    ensures ColumnInference.Valid(now) && now.values == Tallied(before + cells)
  {
    hide Tallied;
    now := stats;
    assert before + cells[..0] == before;
    for j := 0 to |cells|
      invariant ColumnInference.Valid(now) && now.values == Tallied(before + cells[..j])
    {
      now := CountCell(now, cells[j], before + cells[..j]);
      assert (before + cells[..j]) + [cells[j]] == before + cells[..j + 1];
    }
    assert cells[..|cells|] == cells;
  }

  // The numbers of a row, by column.
  function NumbersOf(cells: seq<Cell>): Numbers {
    if cells == [] then map[]
    else
      var before, last := NumbersOf(cells[..|cells| - 1]), cells[|cells| - 1];
      if last.number.Some? then before[last.column := last.number.value] else before
  }

  function NumberRows(sheet: Sheet, rows: seq<nat>): seq<Numbers> {
    if rows == [] then []
    else NumberRows(sheet, rows[..|rows| - 1]) + [NumbersOf(CellsAt(sheet, rows[|rows| - 1]))]
  }

  // A row's numbers are those of its cells, by column.
  lemma {:induction false} NumbersMean(cells: seq<Cell>, c: nat)
    requires ColumnsAscend(cells)
    ensures c in NumbersOf(cells) <==> exists i :: 0 <= i < |cells| && cells[i].column == c && cells[i].number.Some?
    ensures forall i | 0 <= i < |cells| && cells[i].column == c && cells[i].number.Some? ::
              c in NumbersOf(cells) && NumbersOf(cells)[c] == cells[i].number.value
  {
    if cells != [] {
      var n := |cells| - 1;
      var front := cells[..n];
      NumbersMean(front, c);
      assert forall i | 0 <= i < n :: front[i] == cells[i] && cells[i].column < cells[n].column;
    }
  }
}
