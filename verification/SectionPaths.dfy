/**
 Section paths: each priced row of a table is given the heading above it and
 the subheading after that heading, in one pass over the rows in place.
 */
module SectionPaths {
  import opened Wrappers
  import opened Text

  datatype Classification = Heading | Subheading | Item | Subtotal | Total | Note | Unknown

  datatype Row = Row(sheet: nat, row: nat, table: nat, classification: Classification, text: string, path: seq<string>)

  predicate NeedsPath(row: Row) {
    row.classification.Item? || row.classification.Subtotal? || row.classification.Total?
  }

  function NonEmptyText(value: string): Option<string> {
    var trimmed := Trim(value);
    if trimmed == [] then None else Some(trimmed)
  }

  // The last row before i of the given kind.
  function LastOf(rows: seq<Row>, i: nat, kind: Classification): (k: Option<nat>)
    requires i <= |rows|
    ensures k.Some? ==> k.value < i && rows[k.value].classification == kind
    ensures forall j | (if k.Some? then k.value < j else 0 <= j) && j < i :: rows[j].classification != kind
  {
    if i == 0 then None
    else if rows[i - 1].classification == kind then Some(i - 1)
    else LastOf(rows, i - 1, kind)
  }

  function ToSeq(text: Option<string>): seq<string> { if text.None? then [] else [text.value] }

  function HeadingAt(rows: seq<Row>, i: nat): Option<string>
    requires i <= |rows|
  {
    var k := LastOf(rows, i, Heading);
    if k.None? then None else NonEmptyText(rows[k.value].text)
  }

  // The last subheading counts only when no heading follows it.
  function SubheadingAt(rows: seq<Row>, i: nat): Option<string>
    requires i <= |rows|
  {
    var k, h := LastOf(rows, i, Subheading), LastOf(rows, i, Heading);
    if k.None? || (h.Some? && h.value > k.value) then None else NonEmptyText(rows[k.value].text)
  }

  function Path(rows: seq<Row>, i: nat): seq<string>
    requires i <= |rows|
  {
    ToSeq(HeadingAt(rows, i)) + ToSeq(SubheadingAt(rows, i))
  }

  function WithPath(rows: seq<Row>, i: nat): Row
    requires i < |rows|
  {
    if NeedsPath(rows[i]) then rows[i].(path := Path(rows, i)) else rows[i]
  }

  // Some priced row among the first i is given a path.
  predicate AnyPath(rows: seq<Row>, i: nat)
    requires i <= |rows|
  {
    i > 0 && (AnyPath(rows, i - 1) || (NeedsPath(rows[i - 1]) && Path(rows, i - 1) != []))
  }

  lemma {:induction false} AnyPathMeans(rows: seq<Row>, i: nat)
    requires i <= |rows|
    ensures AnyPath(rows, i) <==> exists j :: 0 <= j < i && NeedsPath(rows[j]) && Path(rows, j) != []
  {
    hide Path;
    if i > 0 {
      AnyPathMeans(rows, i - 1);
    }
  }

  // What one row does to itself and to the headings in force.
  function Placed(row: Row, heading: Option<string>, subheading: Option<string>): Row {
    if NeedsPath(row) then row.(path := ToSeq(heading) + ToSeq(subheading)) else row
  }

  function NextHeading(row: Row, heading: Option<string>): Option<string> {
    if row.classification.Heading? then NonEmptyText(row.text) else heading
  }

  function NextSubheading(row: Row, subheading: Option<string>): Option<string> {
    if row.classification.Heading? then None
    else if row.classification.Subheading? then NonEmptyText(row.text)
    else subheading
  }

  predicate GetsPath(row: Row) { NeedsPath(row) && row.path != [] }

  lemma NextRow(rows: seq<Row>, i: nat)
    requires i < |rows|
    ensures HeadingAt(rows, i + 1) == NextHeading(rows[i], HeadingAt(rows, i))
    ensures SubheadingAt(rows, i + 1) == NextSubheading(rows[i], SubheadingAt(rows, i))
    ensures WithPath(rows, i) == Placed(rows[i], HeadingAt(rows, i), SubheadingAt(rows, i))
    ensures AnyPath(rows, i + 1) == (AnyPath(rows, i) || GetsPath(WithPath(rows, i)))
  {
    hide NonEmptyText;
  }

  // The loop's body.
  method PlaceRow(rows: array<Row>, i: nat, heading: Option<string>, subheading: Option<string>, anyPath: bool)
    returns (h: Option<string>, s: Option<string>, any: bool)
    requires i < rows.Length
    modifies rows
    ensures rows[i] == Placed(old(rows[i]), heading, subheading)
    ensures forall j | 0 <= j < rows.Length && j != i :: rows[j] == old(rows[j])
    ensures h == NextHeading(old(rows[i]), heading) && s == NextSubheading(old(rows[i]), subheading)
    ensures any == (anyPath || GetsPath(rows[i]))
  {
    h, s, any := heading, subheading, anyPath;
    match rows[i].classification
    case Heading =>
      h := NonEmptyText(rows[i].text);
      s := None;
    case Subheading =>
      s := NonEmptyText(rows[i].text);
    case Item | Subtotal | Total =>
      rows[i] := rows[i].(path := ToSeq(heading) + ToSeq(subheading));
      any := any || rows[i].path != [];
    case _ =>
  }

  method ReconstructSectionPaths(rows: array<Row>) returns (anyPath: bool)
    modifies rows
    ensures forall i | 0 <= i < rows.Length :: rows[i] == WithPath(old(rows[..]), i)
    ensures anyPath == AnyPath(old(rows[..]), rows.Length)
  {
    hide *;
    ghost var was := rows[..];
    var heading: Option<string> := None;
    var subheading: Option<string> := None;
    anyPath := false;
    NoRows(was);
    for i := 0 to rows.Length
      invariant heading == HeadingAt(was, i) && subheading == SubheadingAt(was, i)
      invariant forall j | 0 <= j < i :: rows[j] == WithPath(was, j)
      invariant forall j | i <= j < rows.Length :: rows[j] == was[j]
      invariant anyPath == AnyPath(was, i)
    {
      NextRow(was, i);
      heading, subheading, anyPath := PlaceRow(rows, i, heading, subheading, anyPath);
    }
  }

  lemma NoRows(rows: seq<Row>)
    ensures HeadingAt(rows, 0) == None && SubheadingAt(rows, 0) == None && !AnyPath(rows, 0)
  {
  }

  // Paths depend on the rows' kinds and texts only, so a second pass changes nothing.
  lemma {:induction false} PathsAreStable(before: seq<Row>, after: seq<Row>)
    requires |before| == |after| && forall i | 0 <= i < |before| :: after[i] == WithPath(before, i)
    ensures forall i | 0 <= i < |after| :: WithPath(after, i) == after[i]
  {
    hide Path;
    forall i | 0 <= i < |after|
      ensures WithPath(after, i) == after[i]
    {
      SamePath(before, after, i);
    }
  }

  lemma SamePath(before: seq<Row>, after: seq<Row>, i: nat)
    requires |before| == |after| && i <= |before|
    requires forall j | 0 <= j < |before| ::
               after[j].classification == before[j].classification && after[j].text == before[j].text
    ensures Path(before, i) == Path(after, i)
  {
    SameLast(before, after, i, Heading);
    SameLast(before, after, i, Subheading);
  }

  lemma {:induction false} SameLast(before: seq<Row>, after: seq<Row>, i: nat, kind: Classification)
    requires |before| == |after| && i <= |before|
    requires forall j | 0 <= j < |before| :: after[j].classification == before[j].classification
    ensures LastOf(before, i, kind) == LastOf(after, i, kind)
  {
    if i > 0 && before[i - 1].classification != kind {
      SameLast(before, after, i - 1, kind);
    }
  }
}
