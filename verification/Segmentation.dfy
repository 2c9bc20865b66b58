/**
 Splitting a sheet's occupied rows into candidate tables.
 */
module Segmentation {
  import opened Wrappers

  // ---------------------------------------------------------------------
  // Candidate segments
  // ---------------------------------------------------------------------

  datatype Segment = Segment(first: nat, last: nat)

  predicate Ascending(keys: seq<nat>) {
    forall i, j | 0 <= i < j < |keys| :: keys[i] < keys[j]
  }

  predicate Within(row: nat, segment: Segment) { segment.first <= row <= segment.last }

  ghost predicate Covers(segments: seq<Segment>, row: nat) {
    exists i :: 0 <= i < |segments| && Within(row, segments[i])
  }

  // The row before is at most two rows above.
  predicate Near(keys: seq<nat>, j: nat) { 0 < j < |keys| && keys[j] <= keys[j - 1] + 2 }

  predicate Apart(segments: seq<Segment>) {
    forall i, j | 0 <= i < j < |segments| :: segments[i].last + 3 <= segments[j].first
  }

  ghost predicate Occupied(keys: seq<nat>, segments: seq<Segment>) {
    forall i | 0 <= i < |segments| ::
      segments[i].first in keys && segments[i].last in keys && segments[i].first <= segments[i].last
  }

  ghost predicate Complete(keys: seq<nat>, segments: seq<Segment>) {
    forall row {:trigger Covers(segments, row)} | row in keys :: Covers(segments, row)
  }

  // Every row of a segment but its first is near the row before.
  ghost predicate Unbroken(keys: seq<nat>, segment: Segment) {
    forall j | 0 <= j < |keys| && segment.first < keys[j] <= segment.last :: Near(keys, j)
  }

  // The segments begin and end at occupied rows, are at least three rows
  // apart, leave no occupied row out, and have no inner gap above two.
  ghost predicate IsSegmentation(keys: seq<nat>, segments: seq<Segment>) {
    && Occupied(keys, segments)
    && Apart(segments)
    && Complete(keys, segments)
    && forall i | 0 <= i < |segments| :: Unbroken(keys, segments[i])
  }

  // The segments of ascending rows: a row opens a new one when at least two
  // blank rows precede it, and extends the last one otherwise.
  function Segments(keys: seq<nat>): (segments: seq<Segment>)
    ensures keys != [] ==> segments != []
  {
    if keys == [] then []
    else if |keys| == 1 then [Segment(keys[0], keys[0])]
    else
      var before, row := Segments(keys[..|keys| - 1]), keys[|keys| - 1];
      if keys[|keys| - 2] + 3 <= row then before + [Segment(row, row)]
      else before[..|before| - 1] + [Segment(before[|before| - 1].first, row)]
  }

  // The occupied rows in ascending order, as the keys of the row map.
  method CandidateSegments(keys: seq<nat>) returns (segments: seq<Segment>)
    requires Ascending(keys)
    ensures segments == Segments(keys)
  {
    segments := [];
    var start: Option<nat> := None;
    var previous: Option<nat> := None;
    for i := 0 to |keys|
      invariant previous == if i == 0 then None else Some(keys[i - 1])
      invariant start.Some? <==> i > 0
      invariant i == 0 ==> segments == []
      invariant i > 0 ==> Segments(keys[..i]) == segments + [Segment(start.value, previous.value)]
    {
      var row := keys[i];
      assert keys[..i + 1][..i] == keys[..i];
      if previous.Some? {
        if row - previous.value >= 3 {
          segments := segments + [Segment(start.value, previous.value)];
          start := Some(row);
        }
      } else {
        start := Some(row);
      }
      previous := Some(row);
    }
    assert keys[..|keys|] == keys;
    if start.Some? && previous.Some? {
      segments := segments + [Segment(start.value, previous.value)];
    }
  }

  lemma {:induction false} SegmentsAreSegmentation(keys: seq<nat>)
    requires Ascending(keys)
    ensures IsSegmentation(keys, Segments(keys))
    ensures keys != [] ==> Segments(keys)[|Segments(keys)| - 1].last == keys[|keys| - 1]
  {
    hide Occupied, Apart, Complete, Unbroken;
    if keys == [] {
      NoSegments();
    } else if |keys| == 1 {
      FirstSegment(keys[0]);
      assert keys == [keys[0]] && [] + [Segment(keys[0], keys[0])] == [Segment(keys[0], keys[0])];
    } else {
      var front, row := keys[..|keys| - 1], keys[|keys| - 1];
      SegmentsAreSegmentation(front);
      var before := Segments(front);
      var n := |before| - 1;
      assert before == before[..n] + [before[n]] && keys == front + [row];
      SegmentGrows(front, row, before[..n], before[n]);
    }
  }

  lemma NoSegments()
    ensures IsSegmentation([], [])
  {
  }

  lemma FirstSegment(row: nat)
    ensures IsSegmentation([row], [] + [Segment(row, row)])
  {
    hide Occupied, Complete;
    OccupiedMore([], row, [], Segment(row, row), []);
    CompleteMore([], row, [], [] + [Segment(row, row)]);
    NoSegments();
    assert [] + [row] == [row];
  }

  lemma SegmentGrows(keys: seq<nat>, row: nat, closed: seq<Segment>, last: Segment)
    requires Ascending(keys) && keys != [] && last.last == keys[|keys| - 1] < row
    requires IsSegmentation(keys, closed + [last])
    ensures row - last.last >= 3 ==> IsSegmentation(keys + [row], (closed + [last]) + [Segment(row, row)])
    ensures row - last.last < 3 ==> IsSegmentation(keys + [row], closed + [Segment(last.first, row)])
  {
    hide Ascending, Occupied, Apart, Complete, Unbroken;
    var before := closed + [last];
    assert before[..|closed|] == closed && before[|closed|] == last;
    if row - last.last >= 3 {
      OccupiedMore(keys, row, before, Segment(row, row), before);
      ApartMore(keys, row, before);
      CompleteMore(keys, row, before, before + [Segment(row, row)]);
      UnbrokenOpen(keys, row, before);
    } else {
      var grown := Segment(last.first, row);
      OccupiedMore(keys, row, before, grown, closed);
      ApartGrown(keys, closed, last, row);
      CompleteMore(keys, row, before, closed + [grown]);
      UnbrokenGrown(keys, row, closed, last);
    }
  }

  lemma OccupiedMore(keys: seq<nat>, row: nat, before: seq<Segment>, newest: Segment, kept: seq<Segment>)
    requires Occupied(keys, before) && kept <= before
    requires newest.last == row
    requires newest.first == row
             || (|kept| < |before| && newest.first == before[|kept|].first && before[|kept|].last <= row)
    ensures Occupied(keys + [row], kept + [newest])
  {
  }

  lemma ApartMore(keys: seq<nat>, row: nat, segments: seq<Segment>)
    requires Apart(segments) && segments != [] && segments[|segments| - 1].last + 3 <= row
    requires Occupied(keys, segments)
    ensures Apart(segments + [Segment(row, row)])
  {
  }

  lemma ApartGrown(keys: seq<nat>, closed: seq<Segment>, last: Segment, row: nat)
    requires Apart(closed + [last])
    ensures Apart(closed + [Segment(last.first, row)])
  {
    var before, after := closed + [last], closed + [Segment(last.first, row)];
    forall i, j | 0 <= i < j < |after|
      ensures after[i].last + 3 <= after[j].first
    {
      assert before[i].last + 3 <= before[j].first;
    }
  }

  lemma CompleteMore(keys: seq<nat>, row: nat, before: seq<Segment>, after: seq<Segment>)
    requires Complete(keys, before) && |before| <= |after|
    requires forall i | 0 <= i < |before| :: after[i].first <= before[i].first && before[i].last <= after[i].last
    requires after != [] && Within(row, after[|after| - 1])
    ensures Complete(keys + [row], after)
  {
    var now := keys + [row];
    forall other | other in now
      ensures Covers(after, other)
    {
      if other in keys {
        assert Covers(before, other);
        var i :| 0 <= i < |before| && Within(other, before[i]);
        assert Within(other, after[i]);
      }
    }
  }

  lemma UnbrokenOpen(keys: seq<nat>, row: nat, segments: seq<Segment>)
    requires forall i | 0 <= i < |segments| :: Unbroken(keys, segments[i])
    requires Apart(segments) && Occupied(keys, segments)
    requires segments != [] && segments[|segments| - 1].last < row
    ensures forall i | 0 <= i < |segments| + 1 :: Unbroken(keys + [row], (segments + [Segment(row, row)])[i])
  {
  }

  lemma BelowLast(keys: seq<nat>, segments: seq<Segment>)
    requires Apart(segments) && Occupied(keys, segments) && segments != []
    ensures forall i | 0 <= i < |segments| :: segments[i].last <= segments[|segments| - 1].last
  {
  }

  lemma UnbrokenGrown(keys: seq<nat>, row: nat, closed: seq<Segment>, last: Segment)
    requires keys != [] && last.last == keys[|keys| - 1] < row <= last.last + 2
    requires forall i | 0 <= i < |closed + [last]| :: Unbroken(keys, (closed + [last])[i])
    requires Apart(closed + [last]) && Occupied(keys, closed + [last]) && Ascending(keys)
    ensures forall i | 0 <= i < |closed| + 1 :: Unbroken(keys + [row], (closed + [Segment(last.first, row)])[i])
  {
    var before, after := closed + [last], closed + [Segment(last.first, row)];
    BelowLast(keys, before);
    assert before[|closed|] == last;
    assert Near(keys + [row], |keys|);
    forall i | 0 <= i < |after|
      ensures Unbroken(keys + [row], after[i])
    {
      hide Occupied, Apart;
      assert Unbroken(keys, before[i]);
      if i < |closed| {
        assert after[i] == before[i];
      } else {
        GrownUnbroken(keys, row, last);
      }
    }
  }

  lemma GrownUnbroken(keys: seq<nat>, row: nat, last: Segment)
    requires keys != [] && last.last == keys[|keys| - 1] < row <= last.last + 2
    requires Unbroken(keys, last) && Ascending(keys)
    ensures Unbroken(keys + [row], Segment(last.first, row))
  {
  }

  // ---------------------------------------------------------------------
  // What segments are
  // ---------------------------------------------------------------------

  ghost predicate Together(segments: seq<Segment>, a: nat, b: nat) {
    exists i :: 0 <= i < |segments| && Within(a, segments[i]) && Within(b, segments[i])
  }

  // Each occupied row lies in one segment only, and neighbouring rows share
  // theirs exactly when at most one blank row is between them.
  lemma {:induction false} SegmentsAreRuns(keys: seq<nat>, segments: seq<Segment>, k: nat)
    requires IsSegmentation(keys, segments) && Ascending(keys) && k < |keys|
    ensures Covers(segments, keys[k])
    ensures forall i, j | 0 <= i < |segments| && 0 <= j < |segments|
                          && Within(keys[k], segments[i]) && Within(keys[k], segments[j]) :: i == j
    ensures k > 0 ==> (Together(segments, keys[k - 1], keys[k]) <==> keys[k] - keys[k - 1] <= 2)
  {
    hide Occupied;
    if k > 0 {
      assert Covers(segments, keys[k - 1]) && Covers(segments, keys[k]);
      var i :| 0 <= i < |segments| && Within(keys[k - 1], segments[i]);
      var j :| 0 <= j < |segments| && Within(keys[k], segments[j]);
      assert i == j ==> Near(keys, k);
    }
  }
}
