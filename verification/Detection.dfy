/**
 The detection loop: candidate segments become tables with a header and columns,
 and the rows of each table are normalised and given their section paths.
 */
module Detection {
  import opened Wrappers
  import opened Text
  import opened Segmentation
  import opened ColumnInference
  import opened SheetCells
  import opened SectionPaths

  datatype Table = Table(sheet: nat, header: Option<nat>, start: nat, end: nat, columns: seq<Column>)

  datatype Block = Block(table: Table, rows: seq<Row>)

  // ---------------------------------------------------------------------
  // The kind of a row
  // ---------------------------------------------------------------------

  function CountNumbers(cells: seq<Cell>): nat {
    if cells == [] then 0
    else CountNumbers(cells[..|cells| - 1]) + if cells[|cells| - 1].number.Some? then 1 else 0
  }

  // The first column with a role.
  function ColumnWith(columns: seq<Column>, role: Role): Option<nat> {
    if columns == [] then None
    else if columns[0].role == role then Some(columns[0].index)
    else ColumnWith(columns[1..], role)
  }

  // The description column holds a text that is not blank.
  predicate Describes(columns: seq<Column>, cells: seq<Cell>) {
    var column := ColumnWith(columns, Description);
    && column.Some?
    && exists i :: 0 <= i < |cells| && cells[i].column == column.value && cells[i].isText && !cells[i].isBlank
  }

  function KindOf(columns: seq<Column>, cells: seq<Cell>, line: Line): Classification {
    var numbers, texts := CountNumbers(cells), Texts(cells);
    if line.total then Total
    else if line.subtotal then Subtotal
    else if line.note && numbers == 0 then Note
    else if numbers >= 2 || (numbers == 1 && Describes(columns, cells)) then Item
    else if numbers == 0 && texts == 1 then Heading
    else if numbers == 0 && texts > 1 then Subheading
    else Classification.Unknown
  }

  method ClassifyRow(columns: seq<Column>, cells: seq<Cell>, line: Line) returns (kind: Classification)
    requires ColumnsAscend(cells)
    ensures kind == KindOf(columns, cells, line)
  {
    var numbers, texts := 0, 0;
    for i := 0 to |cells|
      invariant numbers == CountNumbers(cells[..i]) && texts == Texts(cells[..i])
    {
      assert cells[..i + 1][..i] == cells[..i];
      if cells[i].number.Some? {
        numbers := numbers + 1;
      }
      if cells[i].isText {
        texts := texts + 1;
      }
    }
    assert cells[..|cells|] == cells;
    if line.total {
      return Total;
    }
    if line.subtotal {
      return Subtotal;
    }
    if line.note && numbers == 0 {
      return Note;
    }
    var described := HasDescription(columns, cells);
    if described && numbers > 0 {
      return Item;
    }
    if numbers >= 2 {
      return Item;
    }
    if texts == 1 && numbers == 0 {
      return Heading;
    }
    if texts > 0 && numbers == 0 {
      return Subheading;
    }
    return Classification.Unknown;
  }

  // The first cell of the description column decides.
  method HasDescription(columns: seq<Column>, cells: seq<Cell>) returns (described: bool)
    requires ColumnsAscend(cells)
    ensures described == Describes(columns, cells)
  {
    var column := ColumnWith(columns, Description);
    if column.None? {
      return false;
    }
    for i := 0 to |cells|
      invariant forall j | 0 <= j < i :: cells[j].column != column.value
    {
      if cells[i].column == column.value {
        return cells[i].isText && !cells[i].isBlank;
      }
    }
    return false;
  }

  function Normalized(sheet: Sheet, table: Table, index: nat, row: nat): Row {
    var line := sheet.lines(row);
    Row(table.sheet, row, index, KindOf(table.columns, CellsAt(sheet, row), line), line.text, [])
  }

  // The occupied rows from start to end.
  function Between(keys: seq<nat>, start: nat, end: nat): seq<nat> {
    if keys == [] then []
    else Between(keys[..|keys| - 1], start, end) + if start <= keys[|keys| - 1] <= end then [keys[|keys| - 1]] else []
  }

  lemma {:induction false} BetweenMeans(keys: seq<nat>, start: nat, end: nat)
    ensures forall row :: row in Between(keys, start, end) <==> row in keys && start <= row <= end
  {
    if keys != [] {
      var front, last := keys[..|keys| - 1], keys[|keys| - 1];
      BetweenMeans(front, start, end);
      assert keys == front + [last];
    }
  }

  lemma {:induction false} BetweenAscends(keys: seq<nat>, start: nat, end: nat)
    requires Ascending(keys)
    ensures Ascending(Between(keys, start, end))
  {
    if keys != [] {
      var front, last := keys[..|keys| - 1], keys[|keys| - 1];
      BetweenAscends(front, start, end);
      var some := Between(front, start, end);
      forall i | 0 <= i < |some|
        ensures some[i] < last
      {
        BetweenMeans(front, start, end);
        assert some[i] in some;
      }
    }
  }

  // ---------------------------------------------------------------------
  // The columns of a table
  // ---------------------------------------------------------------------

  lemma {:induction false} AscendingIsUnique(a: seq<nat>, b: seq<nat>)
    requires Ascending(a) && Ascending(b) && forall c :: c in a <==> c in b
    ensures a == b
  {
    assert a != [] ==> a[0] in b;
    assert b != [] ==> b[0] in a;
    if a != [] {
      var m, n := |a| - 1, |b| - 1;
      assert a[m] in b && b[n] in a;
      assert a[m] == b[n];
      forall c
        ensures c in a[..m] <==> c in b[..n]
      {
        assert c in a <==> c in b;
        assert a == a[..m] + [a[m]] && b == b[..n] + [b[n]];
      }
      AscendingIsUnique(a[..m], b[..n]);
    }
  }

  function HeaderRoles(sheet: Sheet, header: Option<nat>): Sorted<Role> {
    if header.None? then Sorted([], map[]) else Roles(CellsAt(sheet, header.value))
  }

  // The columns that follow from the header and the cells of the rows below it.
  ghost predicate IsColumns(sheet: Sheet, header: Option<nat>, rows: seq<nat>, columns: seq<Column>,
                            stats: Sorted<Stats>, final: Assignments)
  {
    var roles := HeaderRoles(sheet, header).values;
    && ColumnInference.Valid(stats) && stats.values == Entered(Tallied(CellsOf(sheet, rows)), roles.Keys)
    && Inferred(stats, NumberRows(sheet, rows), roles, final)
    && |columns| == |stats.keys|
    && forall i | 0 <= i < |columns| :: columns[i] == Column(stats.keys[i], RoleOf(final, stats.keys[i]))
  }

  ghost predicate HasColumns(sheet: Sheet, header: Option<nat>, rows: seq<nat>, columns: seq<Column>) {
    exists stats, final :: IsColumns(sheet, header, rows, columns, stats, final)
  }

  lemma {:induction false} ColumnsAreUnique(sheet: Sheet, header: Option<nat>, rows: seq<nat>, a: seq<Column>,
                                            b: seq<Column>)
    requires HasColumns(sheet, header, rows, a) && HasColumns(sheet, header, rows, b)
    ensures a == b
  {
    hide Inferred, Entered, Tallied;
    var stats, final :| IsColumns(sheet, header, rows, a, stats, final);
    var others, roles :| IsColumns(sheet, header, rows, b, others, roles);
    AscendingIsUnique(stats.keys, others.keys);
    InferredUnique(stats, NumberRows(sheet, rows), HeaderRoles(sheet, header).values, final, roles);
  }

  function Recognized(columns: seq<Column>): nat {
    if columns == [] then 0
    else Recognized(columns[..|columns| - 1]) + if columns[|columns| - 1].role == Role.Unknown then 0 else 1
  }

  method CountRecognized(columns: seq<Column>) returns (n: nat)
    ensures n == Recognized(columns)
  {
    n := 0;
    for i := 0 to |columns|
      invariant n == Recognized(columns[..i])
    {
      assert columns[..i + 1][..i] == columns[..i];
      if columns[i].role != Role.Unknown {
        n := n + 1;
      }
    }
    assert columns[..|columns|] == columns;
  }

  lemma {:induction false} RecognizedMembers(columns: seq<Column>, chosen: set<nat>)
    requires forall i | i in chosen :: i < |columns| && columns[i].role != Role.Unknown
    ensures |chosen| <= Recognized(columns)
  {
    if columns == [] {
      assert chosen == {};
    } else {
      var n := |columns| - 1;
      RecognizedMembers(columns[..n], chosen - {n});
    }
  }

  // A header names two roles, and they are kept: its table is always recognised.
  lemma {:induction false} HeadedIsRecognized(sheet: Sheet, row: nat, rows: seq<nat>, columns: seq<Column>)
    requires MayHead(sheet, row) && ValidRow(CellsAt(sheet, row))
    requires HasColumns(sheet, Some(row), rows, columns)
    ensures Recognized(columns) >= 2
  {
    hide IsColumns, IsCandidate, ColumnsAscend;
    var stats, final :| IsColumns(sheet, Some(row), rows, columns, stats, final);
    HeaderColumnsKept(sheet, row, rows, columns, stats, final);
    TwoRoles(sheet, row);
    var c, d := TwoColumns(Roles(CellsAt(sheet, row)).values);
    var i :| 0 <= i < |columns| && columns[i].index == c && columns[i].role != Role.Unknown;
    var j :| 0 <= j < |columns| && columns[j].index == d && columns[j].role != Role.Unknown;
    RecognizedMembers(columns, {i, j});
  }

  lemma TwoRoles(sheet: Sheet, row: nat)
    requires MayHead(sheet, row)
    ensures |Roles(CellsAt(sheet, row)).values.Values| >= 2
  {
  }

  // The columns of the header are there with the header's roles.
  lemma HeaderColumnsKept(sheet: Sheet, row: nat, rows: seq<nat>, columns: seq<Column>, stats: Sorted<Stats>,
                          final: Assignments)
    requires ValidRow(CellsAt(sheet, row))
    requires IsColumns(sheet, Some(row), rows, columns, stats, final)
    ensures forall c | c in Roles(CellsAt(sheet, row)).values ::
              exists i :: 0 <= i < |columns| && columns[i].index == c && columns[i].role != Role.Unknown
  {
    hide Inferred, Roles, Tallied, NumberRows, Ascending;
    var roles := Roles(CellsAt(sheet, row)).values;
    RolesMean(CellsAt(sheet, row));
    RolesSurvive(stats, NumberRows(sheet, rows), roles, final);
    forall c | c in roles
      ensures exists i :: 0 <= i < |columns| && columns[i].index == c && columns[i].role != Role.Unknown
    {
      KeptColumn(stats, roles, final, columns, c);
    }
  }

  lemma TwoColumns(roles: Assignments) returns (c: nat, d: nat)
    requires |roles.Values| >= 2
    ensures c in roles && d in roles && c != d
  {
    var r: Role :| r in roles.Values;
    SomeOther(roles.Values, r);
    var q: Role :| q in roles.Values && q != r;
    c :| c in roles && roles[c] == r;
    d :| d in roles && roles[d] == q;
  }

  lemma KeptColumn(stats: Sorted<Stats>, roles: Assignments, final: Assignments, columns: seq<Column>, c: nat)
    requires c in roles && roles[c] != Role.Unknown && RoleOf(final, c) == roles[c]
    requires c in stats.keys && |columns| == |stats.keys|
    requires forall i | 0 <= i < |columns| :: columns[i] == Column(stats.keys[i], RoleOf(final, stats.keys[i]))
    ensures exists i :: 0 <= i < |columns| && columns[i].index == c && columns[i].role != Role.Unknown
  {
    var i :| 0 <= i < |stats.keys| && stats.keys[i] == c;
    assert columns[i].index == c;
  }

  lemma SomeOther<T>(s: set<T>, x: T)
    requires |s| >= 2 && x in s
    ensures exists y :: y in s && y != x
  {
    assert (forall y | y in s :: y == x) ==> s == {x};
  }

  lemma RolesSurvive(stats: Sorted<Stats>, rows: seq<Numbers>, header: Assignments, final: Assignments)
    requires Inferred(stats, rows, header, final)
    ensures forall c | c in header :: RoleOf(final, c) == header[c]
  {
    hide Inference;
    var d, u, c, found :| Inference(stats, rows, header, d, u, c, found, final);
    InferenceKeepsHeader(stats, rows, header, d, u, c, found, final);
  }

  method FindColumns(sheet: Sheet, header: Option<Header>, rows: seq<nat>) returns (columns: seq<Column>)
    requires header.Some? ==>
               && ValidRow(CellsAt(sheet, header.value.row))
               && header.value.roles == Roles(CellsAt(sheet, header.value.row))
    ensures HasColumns(sheet, if header.None? then None else Some(header.value.row), rows, columns)
  {
    hide Inferred, Entered, Tallied, Roles;
    var roles := if header.None? then Sorted([], map[]) else header.value.roles;
    if header.Some? {
      RolesMean(CellsAt(sheet, header.value.row));
    }
    var counted := CountColumns(sheet, rows);
    var stats, final;
    columns, stats, final := InferColumns(counted, roles, NumberRows(sheet, rows));
    assert IsColumns(sheet, if header.None? then None else Some(header.value.row), rows, columns, stats, final);
  }

  // ---------------------------------------------------------------------
  // One table
  // ---------------------------------------------------------------------

  // The rows of a block are exactly the sheet's occupied rows of its range, in
  // order, each with the path of the headings above it within the block.
  ghost predicate IsBlock(sheets: seq<Sheet>, block: Block, index: nat) {
    var table := block.table;
    && table.sheet < |sheets|
    && table.start <= table.end
    && RowsOf(sheets[table.sheet], block.rows, Between(sheets[table.sheet].keys, table.start, table.end), table, index)
    && PathsSet(block.rows)
  }

  predicate RowsOf(sheet: Sheet, rows: seq<Row>, keys: seq<nat>, table: Table, index: nat) {
    && |rows| == |keys|
    && forall i | 0 <= i < |rows| :: rows[i].(path := []) == Normalized(sheet, table, index, keys[i])
  }

  predicate PathsSet(rows: seq<Row>) {
    forall i | 0 <= i < |rows| :: rows[i].path == if NeedsPath(rows[i]) then Path(rows, i) else []
  }

  method NormalizeRows(sheet: Sheet, table: Table, index: nat) returns (rows: array<Row>)
    requires ValidSheet(sheet)
    ensures fresh(rows)
    ensures RowsOf(sheet, rows[..], Between(sheet.keys, table.start, table.end), table, index)
    ensures forall i | 0 <= i < rows.Length :: rows[i].path == []
  {
    hide KindOf;
    var keys := sheet.keys;
    var found: seq<Row> := [];
    for i := 0 to |keys|
      invariant RowsOf(sheet, found, Between(keys[..i], table.start, table.end), table, index)
      invariant forall j | 0 <= j < |found| :: found[j].path == []
    {
      assert keys[..i + 1][..i] == keys[..i];
      if table.start <= keys[i] <= table.end {
        var line := sheet.lines(keys[i]);
        var kind := ClassifyRow(table.columns, sheet.cells[keys[i]], line);
        found := found + [Row(table.sheet, keys[i], index, kind, line.text, [])];
      }
    }
    assert keys[..|keys|] == keys;
    rows := new Row[|found|](j requires 0 <= j < |found| => found[j]);
    assert rows[..] == found;
  }

  lemma {:induction false} PathsAreSet(sheet: Sheet, before: seq<Row>, after: seq<Row>, keys: seq<nat>,
                                       table: Table, index: nat)
    requires RowsOf(sheet, before, keys, table, index) && |before| == |after|
    requires forall i | 0 <= i < |before| :: before[i].path == [] && after[i] == WithPath(before, i)
    ensures RowsOf(sheet, after, keys, table, index) && PathsSet(after)
  {
    hide Path;
    PathsAreStable(before, after);
    forall i | 0 <= i < |after|
      ensures after[i].path == if NeedsPath(after[i]) then Path(after, i) else []
    {
      SamePath(before, after, i);
    }
  }

  ghost function StartOf(header: Option<nat>, segment: Segment): nat {
    if header.Some? then header.value + 1 else segment.first
  }

  // The table of a segment: at least two rows, one of them below the header,
  // and two recognised columns.
  ghost predicate IsTable(sheet: Sheet, s: nat, segment: Segment, table: Table) {
    var rows := Between(sheet.keys, segment.first, segment.last);
    && |rows| >= 2
    && table.sheet == s && table.header == HeaderOf(sheet, Searched(rows))
    && table.start == StartOf(table.header, segment) <= table.end == segment.last
    && HasColumns(sheet, table.header, Between(sheet.keys, table.start, table.end), table.columns)
    && Recognized(table.columns) >= 2
  }

  ghost function TableOf(sheet: Sheet, s: nat, segment: Segment): Option<Table> {
    if table: Table :| IsTable(sheet, s, segment, table) then Some(table) else None
  }

  lemma {:induction false} TableIsUnique(sheet: Sheet, s: nat, segment: Segment, a: Table, b: Table)
    requires IsTable(sheet, s, segment, a) && IsTable(sheet, s, segment, b)
    ensures a == b
  {
    ColumnsAreUnique(sheet, a.header, Between(sheet.keys, a.start, a.end), a.columns, b.columns);
  }

  method DetectTable(sheets: seq<Sheet>, s: nat, segment: Segment, index: nat)
    returns (found: Option<Block>)
    requires s < |sheets| && ValidSheet(sheets[s])
    ensures match TableOf(sheets[s], s, segment)
            case None => found.None?
            case Some(table) =>
              && found.Some? && found.value.table == table
              && IsBlock(sheets, found.value, index)
    ensures var rows := Between(sheets[s].keys, segment.first, segment.last);
            var header := HeaderOf(sheets[s], Searched(rows));
            |rows| >= 2 && header.Some? && header.value < segment.last ==> found.Some?
    ensures found.Some? ==>
              var table := found.value.table;
              && table.end == segment.last
              && table.start == if table.header.Some? then table.header.value + 1 else segment.first
  {
    hide Path, Between, WithPath, HasColumns, HeaderOf, Recognized, ValidRow, Roles;
    var sheet := sheets[s];
    var segmentRows := Between(sheet.keys, segment.first, segment.last);
    if |segmentRows| < 2 {
      return None;
    }
    BetweenMeans(sheet.keys, segment.first, segment.last);
    BetweenAscends(sheet.keys, segment.first, segment.last);
    var header := DetectHeader(sheet, segmentRows);
    var dataStart := if header.Some? then header.value.row + 1 else segment.first;
    if dataStart > segment.last {
      return None;
    }
    assert header.Some? ==> header.value.row in segmentRows;
    var columns := FindColumns(sheet, header, Between(sheet.keys, dataStart, segment.last));
    var headerRow := if header.Some? then Some(header.value.row) else None;
    var table := Table(s, headerRow, dataStart, segment.last, columns);
    TheTable(sheet, s, segment, table);
    if header.Some? {
      HeadedIsRecognized(sheet, header.value.row, Between(sheet.keys, dataStart, segment.last), columns);
    }
    var recognized := CountRecognized(columns);
    if recognized < 2 {
      return None;
    }
    var rows := NormalizeRows(sheet, table, index);
    ghost var before := rows[..];
    var _ := ReconstructSectionPaths(rows);
    PathsAreSet(sheet, before, rows[..], Between(sheet.keys, table.start, table.end), table, index);
    return Some(Block(table, rows[..]));
  }

  lemma TheTable(sheet: Sheet, s: nat, segment: Segment, table: Table)
    requires var rows := Between(sheet.keys, segment.first, segment.last);
             && |rows| >= 2
             && table.sheet == s && table.header == HeaderOf(sheet, Searched(rows))
             && table.start == StartOf(table.header, segment) <= table.end == segment.last
             && HasColumns(sheet, table.header, Between(sheet.keys, table.start, table.end), table.columns)
    ensures TableOf(sheet, s, segment) == if Recognized(table.columns) >= 2 then Some(table) else None
  {
    hide HasColumns, HeaderOf, Recognized, Between;
    var found := TableOf(sheet, s, segment);
    if found.Some? {
      var rows := Between(sheet.keys, table.start, table.end);
      ColumnsAreUnique(sheet, table.header, rows, found.value.columns, table.columns);
    } else {
      assert !IsTable(sheet, s, segment, table);
    }
  }

  // ---------------------------------------------------------------------
  // The whole workbook
  // ---------------------------------------------------------------------

  ghost function ToTables(table: Option<Table>): seq<Table> { if table.None? then [] else [table.value] }

  // The tables of the segments, in order.
  ghost function TablesIn(sheet: Sheet, s: nat, segments: seq<Segment>): seq<Table> {
    if segments == [] then []
    else TablesIn(sheet, s, segments[..|segments| - 1]) + ToTables(TableOf(sheet, s, segments[|segments| - 1]))
  }

  ghost function SheetTables(sheet: Sheet, s: nat): seq<Table> {
    if sheet.isWorksheet && sheet.keys != [] then TablesIn(sheet, s, Segments(sheet.keys)) else []
  }

  // The tables of all worksheets, in order.
  ghost function AllTables(sheets: seq<Sheet>): seq<Table> {
    if sheets == [] then []
    else AllTables(sheets[..|sheets| - 1]) + SheetTables(sheets[|sheets| - 1], |sheets| - 1)
  }

  function Tables(blocks: seq<Block>): seq<Table> {
    if blocks == [] then [] else Tables(blocks[..|blocks| - 1]) + [blocks[|blocks| - 1].table]
  }

  ghost predicate Detected(sheets: seq<Sheet>, blocks: seq<Block>) {
    forall i | 0 <= i < |blocks| :: IsBlock(sheets, blocks[i], i)
  }

  method DetectSheet(sheets: seq<Sheet>, s: nat, before: seq<Block>) returns (blocks: seq<Block>)
    requires s < |sheets| && ValidSheet(sheets[s]) && Detected(sheets, before)
    ensures Detected(sheets, blocks)
    ensures Tables(blocks) == Tables(before) + TablesIn(sheets[s], s, Segments(sheets[s].keys))
  {
    hide IsBlock, TableOf, Between, Tables, TablesIn, Segments, ValidSheet;
    blocks := before;
    ValidKeys(sheets[s]);
    var segments := CandidateSegments(sheets[s].keys);
    NoTables(sheets[s], s);
    assert Tables(before) + [] == Tables(before);
    for i := 0 to |segments|
      invariant Detected(sheets, blocks)
      invariant Tables(blocks) == Tables(before) + TablesIn(sheets[s], s, segments[..i])
    {
      OneMoreSegment(sheets[s], s, segments, i);
      var found := DetectTable(sheets, s, segments[i], |blocks|);
      if found.Some? {
        OneMoreTable(blocks, found.value);
        blocks := blocks + [found.value];
      }
    }
    assert segments[..|segments|] == segments;
  }

  lemma ValidKeys(sheet: Sheet)
    requires ValidSheet(sheet)
    ensures Ascending(sheet.keys)
  {
  }

  lemma NoTables(sheet: Sheet, s: nat)
    ensures TablesIn(sheet, s, []) == []
  {
  }

  lemma OneMoreSegment(sheet: Sheet, s: nat, segments: seq<Segment>, i: nat)
    requires i < |segments|
    ensures TablesIn(sheet, s, segments[..i + 1]) ==
            TablesIn(sheet, s, segments[..i]) + ToTables(TableOf(sheet, s, segments[i]))
  {
    hide TableOf;
    assert segments[..i + 1][..i] == segments[..i];
  }

  lemma OneMoreTable(blocks: seq<Block>, block: Block)
    ensures Tables(blocks + [block]) == Tables(blocks) + [block.table]
  {
    assert (blocks + [block])[..|blocks|] == blocks;
  }

  method Detect(sheets: seq<Sheet>) returns (blocks: seq<Block>)
    requires forall s | 0 <= s < |sheets| :: ValidSheet(sheets[s])
    ensures Detected(sheets, blocks) && Tables(blocks) == AllTables(sheets)
  {
    hide IsBlock, ValidSheet, TablesIn, AllTables, Segments;
    blocks := [];
    NoSheets();
    for s := 0 to |sheets|
      invariant Detected(sheets, blocks) && Tables(blocks) == AllTables(sheets[..s])
    {
      OneMoreSheet(sheets, s);
      if sheets[s].isWorksheet && sheets[s].keys != [] {
        blocks := DetectSheet(sheets, s, blocks);
      }
    }
    assert sheets[..|sheets|] == sheets;
  }

  lemma NoSheets()
    ensures AllTables([]) == []
  {
  }

  lemma OneMoreSheet(sheets: seq<Sheet>, s: nat)
    requires s < |sheets|
    ensures AllTables(sheets[..s + 1]) ==
            if sheets[s].isWorksheet && sheets[s].keys != []
            then AllTables(sheets[..s]) + TablesIn(sheets[s], s, Segments(sheets[s].keys))
            else AllTables(sheets[..s])
  {
    hide TablesIn;
    assert sheets[..s + 1][..s] == sheets[..s];
  }

  // ---------------------------------------------------------------------
  // No row is normalised twice
  // ---------------------------------------------------------------------

  predicate TableBefore(a: Table, b: Table) {
    a.sheet < b.sheet || (a.sheet == b.sheet && a.end + 3 <= b.start)
  }

  ghost predicate TablesApart(tables: seq<Table>) {
    forall i, j | 0 <= i < j < |tables| :: TableBefore(tables[i], tables[j])
  }

  // Each table lies in a segment and ends with it.
  ghost predicate TablesWithin(tables: seq<Table>, s: nat, segments: seq<Segment>) {
    forall t | t in tables ::
      t.sheet == s && exists i :: 0 <= i < |segments| && segments[i].first <= t.start && t.end == segments[i].last
  }

  lemma TableInSegment(sheet: Sheet, s: nat, segment: Segment)
    requires TableOf(sheet, s, segment).Some?
    ensures var table := TableOf(sheet, s, segment).value;
            table.sheet == s && segment.first <= table.start <= table.end == segment.last
  {
    hide HasColumns, Recognized;
    var table := TableOf(sheet, s, segment).value;
    var rows := Between(sheet.keys, segment.first, segment.last);
    BetweenMeans(sheet.keys, segment.first, segment.last);
    if table.header.Some? {
      assert table.header.value in Searched(rows);
      assert table.header.value in rows;
    }
  }

  lemma {:induction false} TablesInApart(sheet: Sheet, s: nat, segments: seq<Segment>)
    requires Apart(segments)
    ensures TablesApart(TablesIn(sheet, s, segments)) && TablesWithin(TablesIn(sheet, s, segments), s, segments)
  {
    hide TableOf;
    if segments != [] {
      var n := |segments| - 1;
      var front, last := segments[..n], segments[n];
      TablesInApart(sheet, s, front);
      var tables := TablesIn(sheet, s, front);
      assert forall i | 0 <= i < n :: front[i] == segments[i];
      if TableOf(sheet, s, last).Some? {
        TableInSegment(sheet, s, last);
        var table := TableOf(sheet, s, last).value;
        forall i | 0 <= i < |tables|
          ensures TableBefore(tables[i], table)
        {
          assert tables[i] in tables;
        }
      }
    }
  }

  // The tables of a workbook are in order and three rows apart.
  lemma {:induction false} AllTablesApart(sheets: seq<Sheet>)
    requires forall s | 0 <= s < |sheets| :: ValidSheet(sheets[s])
    ensures TablesApart(AllTables(sheets)) && forall t | t in AllTables(sheets) :: t.sheet < |sheets|
  {
    hide TablesIn;
    if sheets != [] {
      var n := |sheets| - 1;
      AllTablesApart(sheets[..n]);
      var before, latest := AllTables(sheets[..n]), SheetTables(sheets[n], n);
      if latest != [] {
        SegmentsAreSegmentation(sheets[n].keys);
        TablesInApart(sheets[n], n, Segments(sheets[n].keys));
      }
      ApartConcat(before, latest, n);
    }
  }

  lemma ApartConcat(before: seq<Table>, latest: seq<Table>, n: nat)
    requires TablesApart(before) && TablesApart(latest)
    requires (forall t | t in before :: t.sheet < n) && forall t | t in latest :: t.sheet == n
    ensures TablesApart(before + latest)
  {
    forall i, j | 0 <= i < |before| && 0 <= j < |latest|
      ensures TableBefore(before[i], latest[j])
    {
      assert before[i] in before && latest[j] in latest;
    }
  }

  predicate RowBefore(a: Row, b: Row) { a.sheet < b.sheet || (a.sheet == b.sheet && a.row < b.row) }

  predicate InOrder(rows: seq<Row>) { forall i, j | 0 <= i < j < |rows| :: RowBefore(rows[i], rows[j]) }

  // The output's rows.
  function AllRows(blocks: seq<Block>): seq<Row> {
    if blocks == [] then [] else AllRows(blocks[..|blocks| - 1]) + blocks[|blocks| - 1].rows
  }

  lemma {:induction false} TablesAt(blocks: seq<Block>)
    ensures |Tables(blocks)| == |blocks| && forall i | 0 <= i < |blocks| :: Tables(blocks)[i] == blocks[i].table
  {
    if blocks != [] {
      TablesAt(blocks[..|blocks| - 1]);
    }
  }

  predicate InTable(table: Table, s: nat, row: nat) { table.sheet == s && table.start <= row <= table.end }

  lemma {:induction false} RowsInOrder(sheets: seq<Sheet>, blocks: seq<Block>)
    requires Detected(sheets, blocks) && TablesApart(Tables(blocks))
    requires forall s | 0 <= s < |sheets| :: ValidSheet(sheets[s])
    ensures InOrder(AllRows(blocks))
    ensures forall row | row in AllRows(blocks) ::
              row.table < |blocks| && InTable(blocks[row.table].table, row.sheet, row.row)
  {
    if blocks != [] {
      hide IsBlock, ValidSheet;
      var n := |blocks| - 1;
      var front := blocks[..n];
      TablesAt(blocks);
      TablesAt(front);
      RowsInOrder(sheets, front);
      BlockInOrder(sheets, blocks[n], n);
      var earlier, latest := AllRows(front), blocks[n].rows;
      forall a, b | a in earlier && b in latest
        ensures RowBefore(a, b)
      {
        assert TableBefore(Tables(blocks)[a.table], Tables(blocks)[n]);
      }
    }
  }

  lemma {:induction false} BlockInOrder(sheets: seq<Sheet>, block: Block, index: nat)
    requires IsBlock(sheets, block, index) && ValidSheet(sheets[block.table.sheet])
    ensures InOrder(block.rows)
    ensures forall row | row in block.rows :: row.table == index && InTable(block.table, row.sheet, row.row)
    ensures forall row :: (exists r :: r in block.rows && r.row == row) <==>
                          row in sheets[block.table.sheet].keys && block.table.start <= row <= block.table.end
  {
    hide Normalized;
    var keys := sheets[block.table.sheet].keys;
    var rows := Between(keys, block.table.start, block.table.end);
    BetweenMeans(keys, block.table.start, block.table.end);
    BetweenAscends(keys, block.table.start, block.table.end);
    RowNumbers(sheets[block.table.sheet], block.rows, rows, block.table, index);
    forall row
      ensures (exists r :: r in block.rows && r.row == row) <==> row in rows
    {
      if row in rows {
        var i :| 0 <= i < |rows| && rows[i] == row;
        assert block.rows[i].row == row;
      }
    }
  }

  lemma RowNumbers(sheet: Sheet, rows: seq<Row>, keys: seq<nat>, table: Table, index: nat)
    requires RowsOf(sheet, rows, keys, table, index)
    ensures forall i | 0 <= i < |rows| ::
              rows[i].row == keys[i] && rows[i].table == index && rows[i].sheet == table.sheet && keys[i] in keys
  {
    forall i | 0 <= i < |rows|
      ensures rows[i].row == keys[i] && rows[i].table == index && rows[i].sheet == table.sheet && keys[i] in keys
    {
      assert rows[i].(path := []) == Normalized(sheet, table, index, keys[i]);
    }
  }

  ghost predicate IsOutput(blocks: seq<Block>, s: nat, row: nat) {
    exists r :: r in AllRows(blocks) && r.sheet == s && r.row == row
  }

  ghost predicate IsCovered(sheets: seq<Sheet>, tables: seq<Table>, s: nat, row: nat) {
    s < |sheets| && row in sheets[s].keys && exists t :: t in tables && InTable(t, s, row)
  }

  // The rows of the output strictly ascend by sheet and row, each belongs to the
  // table whose range covers it, and an occupied row is there if and only if
  // one of the tables covers it.
  lemma {:induction false} NoRowTwice(sheets: seq<Sheet>, blocks: seq<Block>)
    requires forall s | 0 <= s < |sheets| :: ValidSheet(sheets[s])
    requires Detected(sheets, blocks) && Tables(blocks) == AllTables(sheets)
    ensures InOrder(AllRows(blocks))
    ensures forall row | row in AllRows(blocks) ::
              row.table < |blocks| && InTable(blocks[row.table].table, row.sheet, row.row)
    ensures forall s, row :: IsOutput(blocks, s, row) <==> IsCovered(sheets, AllTables(sheets), s, row)
  {
    AllTablesApart(sheets);
    RowsInOrder(sheets, blocks);
    RowsOfTables(sheets, blocks);
  }

  lemma {:induction false} RowsOfTables(sheets: seq<Sheet>, blocks: seq<Block>)
    requires forall s | 0 <= s < |sheets| :: ValidSheet(sheets[s])
    requires Detected(sheets, blocks)
    ensures forall s, row :: IsOutput(blocks, s, row) <==> IsCovered(sheets, Tables(blocks), s, row)
  {
    if blocks != [] {
      var front, last := blocks[..|blocks| - 1], blocks[|blocks| - 1];
      RowsOfTables(sheets, front);
      assert IsBlock(sheets, last, |front|);
      BlockInOrder(sheets, last, |front|);
      hide IsBlock, ValidSheet;
      forall s, row
        ensures IsOutput(blocks, s, row) <==> IsCovered(sheets, Tables(blocks), s, row)
      {
        assert IsOutput(front, s, row) <==> IsCovered(sheets, Tables(front), s, row);
        OneMoreBlock(sheets, front, last, s, row);
        assert blocks == front + [last];
      }
    }
  }

  lemma OneMoreBlock(sheets: seq<Sheet>, front: seq<Block>, last: Block, s: nat, row: nat)
    requires last.table.sheet < |sheets|
    requires forall r | r in last.rows :: InTable(last.table, r.sheet, r.row)
    requires (exists r :: r in last.rows && r.row == row) <==>
             row in sheets[last.table.sheet].keys && last.table.start <= row <= last.table.end
    requires IsOutput(front, s, row) <==> IsCovered(sheets, Tables(front), s, row)
    ensures IsOutput(front + [last], s, row) <==> IsCovered(sheets, Tables(front + [last]), s, row)
  {
    var blocks := front + [last];
    assert blocks[..|front|] == front;
    assert AllRows(blocks) == AllRows(front) + last.rows && Tables(blocks) == Tables(front) + [last.table];
    if IsCovered(sheets, Tables(blocks), s, row) && !IsCovered(sheets, Tables(front), s, row) {
      assert InTable(last.table, s, row);
      var r :| r in last.rows && r.row == row;
      assert r in AllRows(blocks);
    }
    if IsOutput(blocks, s, row) && !IsOutput(front, s, row) {
      var r :| r in AllRows(blocks) && r.sheet == s && r.row == row;
      assert r in last.rows;
      assert last.table in Tables(blocks);
    }
  }

  // ---------------------------------------------------------------------
  // Rows and their sections, said of the cells
  // ---------------------------------------------------------------------

  predicate NoNumbers(cells: seq<Cell>) { forall i | 0 <= i < |cells| :: cells[i].number.None? }

  predicate TwoNumbers(cells: seq<Cell>) {
    exists i, j | 0 <= i < j < |cells| :: cells[i].number.Some? && cells[j].number.Some?
  }

  predicate TwoTexts(cells: seq<Cell>) { exists i, j | 0 <= i < j < |cells| :: cells[i].isText && cells[j].isText }

  predicate SomeText(cells: seq<Cell>) { exists i | 0 <= i < |cells| :: cells[i].isText }

  predicate MentionsNothing(line: Line) { !line.total && !line.subtotal && !line.note }

  // One text and no number: a heading; more texts and no number: a subheading.
  predicate Heads(cells: seq<Cell>, line: Line) {
    MentionsNothing(line) && NoNumbers(cells) && SomeText(cells) && !TwoTexts(cells)
  }

  predicate Subheads(cells: seq<Cell>, line: Line) { MentionsNothing(line) && NoNumbers(cells) && TwoTexts(cells) }

  // A total, a subtotal, two numbers, or a number beside a description.
  predicate Prices(columns: seq<Column>, cells: seq<Cell>, line: Line) {
    line.total || line.subtotal || TwoNumbers(cells) || (!NoNumbers(cells) && Describes(columns, cells))
  }

  lemma {:induction false} CountsMean(cells: seq<Cell>)
    ensures CountNumbers(cells) == 0 <==> NoNumbers(cells)
    ensures CountNumbers(cells) >= 2 <==> TwoNumbers(cells)
    ensures Texts(cells) == 0 <==> !SomeText(cells)
    ensures Texts(cells) >= 2 <==> TwoTexts(cells)
  {
    if cells != [] {
      var n := |cells| - 1;
      var front := cells[..n];
      CountsMean(front);
      assert forall i | 0 <= i < n :: front[i] == cells[i];
      NumbersMore(front, cells[n]);
      TextsMore(front, cells[n]);
      assert cells == front + [cells[n]];
    }
  }

  lemma NumbersMore(front: seq<Cell>, last: Cell)
    ensures NoNumbers(front + [last]) <==> NoNumbers(front) && last.number.None?
    ensures TwoNumbers(front + [last]) <==> TwoNumbers(front) || (last.number.Some? && !NoNumbers(front))
  {
    var cells := front + [last];
    assert forall i | 0 <= i < |front| :: cells[i] == front[i];
    assert cells[|front|] == last;
  }

  lemma TextsMore(front: seq<Cell>, last: Cell)
    ensures SomeText(front + [last]) <==> SomeText(front) || last.isText
    ensures TwoTexts(front + [last]) <==> TwoTexts(front) || (last.isText && SomeText(front))
  {
    var cells := front + [last];
    assert forall i | 0 <= i < |front| :: cells[i] == front[i];
    assert cells[|front|] == last;
  }

  lemma {:induction false} KindsMean(columns: seq<Column>, cells: seq<Cell>, line: Line)
    ensures var kind := KindOf(columns, cells, line);
            && (kind == Heading <==> Heads(cells, line))
            && (kind == Subheading <==> Subheads(cells, line))
            && (kind == Total <==> line.total)
            && (kind == Subtotal <==> !line.total && line.subtotal)
            && (kind == Note <==> !line.total && !line.subtotal && line.note && NoNumbers(cells))
            && (kind == Item || kind == Subtotal || kind == Total <==> Prices(columns, cells, line))
  {
    hide NoNumbers, TwoNumbers, TwoTexts, SomeText, Describes;
    CountsMean(cells);
  }

  function OwnSection(sheet: Sheet, row: nat): seq<string> {
    var text := Trim(sheet.lines(row).text);
    if text == [] then [] else [text]
  }

  // The last of some row numbers before the i-th.
  ghost predicate LastBefore(rows: seq<nat>, i: nat, holds: nat -> bool, last: Option<nat>) {
    match last
    case None => forall j | 0 <= j < i && j < |rows| :: !holds(rows[j])
    case Some(k) =>
      && k < i && k < |rows| && holds(rows[k])
      && forall j | k < j < i && j < |rows| :: !holds(rows[j])
  }

  function HeadsIn(sheet: Sheet): nat -> bool { (row: nat) => Heads(CellsAt(sheet, row), sheet.lines(row)) }

  function SubheadsIn(sheet: Sheet): nat -> bool { (row: nat) => Subheads(CellsAt(sheet, row), sheet.lines(row)) }

  // The section path of a row of a detected table: none for a row that prices
  // nothing, else the trimmed text of the last heading row above it in the table,
  // and of the last subheading row above it if no heading row follows that one.
  lemma {:induction false} SectionPathMeans(sheets: seq<Sheet>, block: Block, index: nat, i: nat, h: Option<nat>,
                                            s: Option<nat>)
    requires IsBlock(sheets, block, index) && i < |block.rows|
    requires var sheet, table := sheets[block.table.sheet], block.table;
             var rows := Between(sheet.keys, table.start, table.end);
             LastBefore(rows, i, HeadsIn(sheet), h) && LastBefore(rows, i, SubheadsIn(sheet), s)
    ensures var sheet, table := sheets[block.table.sheet], block.table;
            var rows := Between(sheet.keys, table.start, table.end);
            && i < |rows|
            && block.rows[i].path ==
               if !Prices(table.columns, CellsAt(sheet, rows[i]), sheet.lines(rows[i])) then []
               else (if h.Some? then OwnSection(sheet, rows[h.value]) else []) +
                    if s.Some? && (h.None? || h.value < s.value) then OwnSection(sheet, rows[s.value]) else []
  {
    hide Heads, Subheads, Prices, Between, OwnSection, HeadsIn, SubheadsIn, LastOf;
    var sheet, table := sheets[block.table.sheet], block.table;
    var rows := Between(sheet.keys, table.start, table.end);
    forall j | 0 <= j < |rows|
      ensures IsRowOf(sheet, table, block.rows[j], rows[j])
    {
      RowFacts(sheet, table, index, block.rows[j], rows[j]);
    }
    LastIs(block.rows, i, Heading, h);
    LastIs(block.rows, i, Subheading, s);
    assert IsRowOf(sheet, table, block.rows[i], rows[i]);
    PathOfLast(sheet, block.rows, rows, i, h, s);
  }

  // What a normalised row says, in terms of its cells and text.
  predicate IsRowOf(sheet: Sheet, table: Table, row: Row, number: nat) {
    && row.text == sheet.lines(number).text
    && (row.classification == Heading <==> HeadsIn(sheet)(number))
    && (row.classification == Subheading <==> SubheadsIn(sheet)(number))
    && (NeedsPath(row) <==> Prices(table.columns, CellsAt(sheet, number), sheet.lines(number)))
  }

  lemma PathOfLast(sheet: Sheet, rows: seq<Row>, numbers: seq<nat>, i: nat, h: Option<nat>, s: Option<nat>)
    requires i <= |rows| == |numbers| && forall j | 0 <= j < |rows| :: rows[j].text == sheet.lines(numbers[j]).text
    requires LastOf(rows, i, Heading) == h && LastOf(rows, i, Subheading) == s
    ensures Path(rows, i) ==
            (if h.Some? then OwnSection(sheet, numbers[h.value]) else []) +
            if s.Some? && (h.None? || h.value < s.value) then OwnSection(sheet, numbers[s.value]) else []
  {
    hide Trim;
    assert h.Some? && s.Some? ==> h.value != s.value;
  }

  lemma RowFacts(sheet: Sheet, table: Table, index: nat, row: Row, number: nat)
    requires row.(path := []) == Normalized(sheet, table, index, number)
    ensures IsRowOf(sheet, table, row, number)
  {
    hide Heads, Subheads, Prices, KindOf;
    KindsMean(table.columns, CellsAt(sheet, number), sheet.lines(number));
  }

  lemma LastIs(rows: seq<Row>, i: nat, kind: Classification, last: Option<nat>)
    requires i <= |rows|
    requires match last
             case None => forall j | 0 <= j < i :: rows[j].classification != kind
             case Some(k) =>
               && k < i && rows[k].classification == kind
               && forall j | k < j < i :: rows[j].classification != kind
    ensures LastOf(rows, i, kind) == last
  {
  }
}
