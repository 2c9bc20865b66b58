/**
 The protocol log: a live file and three rotations, shifted in place when the
 next record would not fit. Any file operation may fail and drop the record.
 */
module LogRotation {
  import opened Wrappers

  const MAX_LOG_BYTES: nat := 2 * 1024 * 1024
  const ROTATION_COUNT: nat := 3

  // One encoded record with its line end, or the beginning of one.
  type Record = string

  // The file operations that can fail, with the number of the file they touch;
  // file 0 is the live one.
  datatype Operation =
    | FindTarget(file: nat)
    | Remove(file: nat)
    | FindSource(file: nat)
    | Rename(file: nat)
    | Open
    | Harden
    | Write

  function Concat(records: seq<Record>): string {
    if records == [] then [] else Concat(records[..|records| - 1]) + records[|records| - 1]
  }

  // The live file and its rotations, newest first, with the records in each.
  type Files = files: seq<Option<string>> | |files| == ROTATION_COUNT + 1 witness [None, None, None, None]

  type Blocks = blocks: seq<seq<Record>> | |blocks| == ROTATION_COUNT + 1 witness [[], [], [], []]

  // The records still on disk, oldest first.
  function Window(blocks: Blocks): seq<Record> { blocks[3] + (blocks[2] + (blocks[1] + blocks[0])) }

  predicate IsSuffix<T(==)>(s: seq<T>, t: seq<T>) {
    |s| <= |t| && t[|t| - |s|..] == s
  }

  // Within the limit, or one record that exceeds it alone.
  predicate Bounded(records: seq<Record>) {
    |Concat(records)| <= MAX_LOG_BYTES || (|records| == 1 && |records[0]| > MAX_LOG_BYTES)
  }

  // A file is the concatenation of whole records.
  predicate Stores(file: Option<string>, records: seq<Record>) {
    match file
    case None => records == []
    case Some(content) => content == Concat(records) && Bounded(records)
  }

  function Content(file: Option<string>): string { if file.None? then [] else file.value }

  // The files hold whole consecutive records of the history's end.
  ghost predicate Holds(files: Files, blocks: Blocks, history: seq<Record>) {
    && (forall i | 0 <= i <= ROTATION_COUNT :: Stores(files[i], blocks[i]))
    && IsSuffix(Window(blocks), history)
  }

  lemma GrownSuffix<T>(s: seq<T>, t: seq<T>, x: T)
    requires IsSuffix(s, t)
    ensures IsSuffix(s + [x], t + [x])
  {
  }

  // Dropping the oldest file keeps a suffix.
  lemma DropOldest(files: Files, blocks: Blocks, history: seq<Record>)
    requires Holds(files, blocks, history)
    ensures Holds(files[3 := None], blocks[3 := []], history)
  {
  }

  // Moving a file one up into a free place changes no content.
  lemma MoveUp(files: Files, blocks: Blocks, history: seq<Record>, i: nat)
    requires Holds(files, blocks, history)
    requires 1 <= i <= ROTATION_COUNT && files[i].None?
    ensures Holds(files[i := files[i - 1]][i - 1 := None], blocks[i := blocks[i - 1]][i - 1 := []], history)
  {
    hide Concat, Bounded, IsSuffix;
    var after := blocks[i := blocks[i - 1]][i - 1 := []];
    assert Stores(files[i], blocks[i]);
    assert blocks[i - 1] + [] == blocks[i - 1] && [] + blocks[i - 1] == blocks[i - 1];
    assert Window(after) == Window(blocks);
  }

  lemma ConcatSnoc(records: seq<Record>, record: Record)
    ensures Concat(records + [record]) == Concat(records) + record
  {
  }

  lemma AppendRecord(files: Files, blocks: Blocks, history: seq<Record>, record: Record)
    requires Holds(files, blocks, history) && files[0].Some?
    requires |files[0].value| + |record| <= MAX_LOG_BYTES || blocks[0] == []
    ensures Holds(files[0 := Some(files[0].value + record)], blocks[0 := blocks[0] + [record]], history + [record])
  {
    hide Concat, IsSuffix;
    assert Stores(files[0], blocks[0]);
    ConcatSnoc(blocks[0], record);
    EmptyConcat();
    GrownSuffix(Window(blocks), history, record);
    assert Window(blocks[0 := blocks[0] + [record]]) == Window(blocks) + [record];
  }

  lemma EmptyConcat()
    ensures Concat([]) == []
  {
  }

  lemma CreateLive(files: Files, blocks: Blocks, history: seq<Record>)
    requires Holds(files, blocks, history) && files[0].None?
    ensures Holds(files[0 := Some([])], blocks, history) && blocks[0] == []
  {
  }

  // The files after moving up all from `index` on.
  function Shifting<T>(files: seq<T>, nothing: T, index: nat): seq<T>
    requires |files| == ROTATION_COUNT + 1 && index <= ROTATION_COUNT
  {
    if index == ROTATION_COUNT then files else files[..index] + [nothing] + files[index..ROTATION_COUNT]
  }

  lemma ShiftStep<T>(files: seq<T>, nothing: T, index: nat)
    requires |files| == ROTATION_COUNT + 1 && 1 <= index <= ROTATION_COUNT
    ensures Shifting(files, nothing, index)[index - 1] == files[index - 1]
    ensures var now := Shifting(files, nothing, index);
            Shifting(files, nothing, index - 1) == now[index := now[index - 1]][index - 1 := nothing]
    ensures index < ROTATION_COUNT ==> Shifting(files, nothing, index)[index] == nothing
  {
  }

  lemma ShiftEnds<T>(files: seq<T>, nothing: T)
    requires |files| == ROTATION_COUNT + 1
    ensures Shifting(files, nothing, ROTATION_COUNT) == files
    ensures Shifting(files, nothing, 0) == [nothing] + files[..ROTATION_COUNT]
  {
  }

  // ---------------------------------------------------------------------
  // One write
  // ---------------------------------------------------------------------

  predicate Fits(files: Files, incoming: nat) {
    |Content(files[0])| + incoming <= MAX_LOG_BYTES
  }

  // None of the operations that moving every file up needs will fail.
  predicate CanRotate(files: Files, fails: Operation -> bool) {
    && (forall i | 1 <= i <= ROTATION_COUNT :: !fails(FindTarget(i)))
    && (forall i | 0 <= i < ROTATION_COUNT :: !fails(FindSource(i)))
    && (files[ROTATION_COUNT].Some? ==> !fails(Remove(ROTATION_COUNT)))
    && (forall i | 0 <= i < ROTATION_COUNT && files[i].Some? :: !fails(Rename(i)))
  }

  predicate MakesRoom(files: Files, incoming: nat, fails: Operation -> bool) {
    Fits(files, incoming) || CanRotate(files, fails)
  }

  function RoomMade<T>(files: seq<T>, nothing: T, fits: bool): seq<T>
    requires |files| == ROTATION_COUNT + 1
  {
    if fits then files else [nothing] + files[..ROTATION_COUNT]
  }

  // A rotation that stopped lost at most the oldest file and moved the oldest ones up.
  predicate Interrupted<T(==)>(files: seq<T>, before: seq<T>, nothing: T)
    requires |before| == ROTATION_COUNT + 1
  {
    || files == before[ROTATION_COUNT := nothing]
    || exists i | 0 <= i <= ROTATION_COUNT :: files == Shifting(before, nothing, i)
  }

  // What of the record reaches the live file: a failing write leaves `torn` of
  // its characters.
  function Appended(record: Record, fails: Operation -> bool, torn: nat): Record
    requires torn <= |record|
  {
    if fails(Write) then record[..torn] else record
  }

  // The records in the files after a write at which nothing fails.
  function Logged(blocks: Blocks, record: Record): Blocks {
    var room := RoomMade(blocks, [], |Concat(blocks[0])| + |record| <= MAX_LOG_BYTES);
    room[0 := room[0] + [record]]
  }

  lemma NothingFails(files: Files, blocks: Blocks, history: seq<Record>, record: Record, fails: Operation -> bool)
    requires Holds(files, blocks, history) && forall operation :: !fails(operation)
    ensures MakesRoom(files, |record|, fails) && !fails(Open) && !fails(Harden) && !fails(Write)
    ensures var room := RoomMade(blocks, [], Fits(files, |record|));
            room[0 := room[0] + [record]] == Logged(blocks, record)
  {
    LiveIsFirstBlock(files, blocks, history);
  }

  lemma LiveIsFirstBlock(files: Files, blocks: Blocks, history: seq<Record>)
    requires Holds(files, blocks, history)
    ensures |Content(files[0])| == |Concat(blocks[0])|
  {
    assert Stores(files[0], blocks[0]);
  }

  class ProtocolLogger {
    var files: Files
    ghost var blocks: Blocks
    // Every record, or beginning of one, that was ever appended.
    ghost var history: seq<Record>

    ghost predicate Valid()
      reads this
    {
      Holds(files, blocks, history)
    }

    constructor ()
      ensures Valid() && files == [None, None, None, None] && history == []
    {
      files, blocks, history := [None, None, None, None], [[], [], [], []], [];
    }

    // One turn of the rotation: free place `index` and move the file below up.
    method RotateOne(index: nat, fails: Operation -> bool) returns (ok: bool)
      requires Valid() && 1 <= index <= ROTATION_COUNT
      requires index < ROTATION_COUNT ==> files[index].None?
      modifies this
      ensures Valid() && history == old(history)
      ensures ok <==>
              && !fails(FindTarget(index)) && !fails(FindSource(index - 1))
              && (old(files[index]).Some? ==> !fails(Remove(index)))
              && (old(files[index - 1]).Some? ==> !fails(Rename(index - 1)))
      ensures ok ==>
                && files == old(files)[index := old(files)[index - 1]][index - 1 := None]
                && blocks == old(blocks)[index := old(blocks)[index - 1]][index - 1 := []]
      ensures !ok ==>
                || (files == old(files) && blocks == old(blocks))
                || (files == old(files)[index := None] && blocks == old(blocks)[index := []])
    {
      hide Holds;
      AbsentIsEmpty(files, blocks, history);
      if fails(FindTarget(index)) {
        return false;
      }
      if files[index].Some? {
        if fails(Remove(index)) {
          return false;
        }
        DropOldest(files, blocks, history);
        files, blocks := files[index := None], blocks[index := []];
      }
      if fails(FindSource(index - 1)) {
        return false;
      }
      if files[index - 1].Some? {
        if fails(Rename(index - 1)) {
          return false;
        }
        MoveUp(files, blocks, history, index);
        files := files[index := files[index - 1]][index - 1 := None];
        blocks := blocks[index := blocks[index - 1]][index - 1 := []];
      }
      return true;
    }

    // Shift the files up, from the oldest down, if `incoming` bytes do not fit.
    method RotateIfNeeded(incoming: nat, fails: Operation -> bool) returns (ok: bool)
      requires Valid()
      modifies this
      ensures Valid() && history == old(history)
      ensures ok <==> MakesRoom(old(files), incoming, fails)
      ensures ok ==>
                && files == RoomMade(old(files), None, Fits(old(files), incoming))
                && blocks == RoomMade(old(blocks), [], Fits(old(files), incoming))
      ensures !ok ==> Interrupted(files, old(files), None) && Interrupted(blocks, old(blocks), [])
    {
      hide Holds, Shifting;
      if |Content(files[0])| + incoming <= MAX_LOG_BYTES {
        return true;
      }
      ghost var f, b := files, blocks;
      var index := ROTATION_COUNT;
      ShiftEnds(f, None);
      ShiftEnds(b, []);
      while index >= 1
        invariant 0 <= index <= ROTATION_COUNT
        invariant Valid() && history == old(history)
        invariant files == Shifting(f, None, index)
        invariant blocks == Shifting(b, [], index)
        invariant forall i | index < i <= ROTATION_COUNT :: !fails(FindTarget(i))
        invariant forall i | index <= i < ROTATION_COUNT :: !fails(FindSource(i))
        invariant index < ROTATION_COUNT && f[ROTATION_COUNT].Some? ==> !fails(Remove(ROTATION_COUNT))
        invariant forall i | index <= i < ROTATION_COUNT && f[i].Some? :: !fails(Rename(i))
      {
        ShiftStep(f, None, index);
        ShiftStep(b, [], index);
        var moved := RotateOne(index, fails);
        if !moved {
          return false;
        }
        index := index - 1;
      }
      return true;
    }

    method WriteRecord(record: Record, fails: Operation -> bool, torn: nat) returns (written: bool)
      requires Valid() && torn <= |record|
      modifies this
      ensures Valid()
      ensures written <==> MakesRoom(old(files), |record|, fails) && !fails(Open) && !fails(Harden) && !fails(Write)
      ensures MakesRoom(old(files), |record|, fails) ==>
                var room := RoomMade(old(files), None, Fits(old(files), |record|));
                var roomBlocks := RoomMade(old(blocks), [], Fits(old(files), |record|));
                if fails(Open) then files == room && blocks == roomBlocks && history == old(history)
                else if fails(Harden) then
                  files == room[0 := Some(Content(room[0]))] && blocks == roomBlocks && history == old(history)
                else
                  var text := Appended(record, fails, torn);
                  && files == room[0 := Some(Content(room[0]) + text)]
                  && blocks == roomBlocks[0 := roomBlocks[0] + [text]]
                  && history == old(history) + [text]
      ensures !MakesRoom(old(files), |record|, fails) ==>
                && Interrupted(files, old(files), None) && Interrupted(blocks, old(blocks), [])
                && history == old(history)
      ensures (forall operation :: !fails(operation)) ==>
                written && blocks == Logged(old(blocks), record) && history == old(history) + [record]
    {
      hide Holds, CanRotate, Interrupted, Logged;
      if forall operation :: !fails(operation) {
        NothingFails(files, blocks, history, record, fails);
      }
      var ok := RotateIfNeeded(|record|, fails);
      if !ok || fails(Open) {
        return false;
      }
      AbsentIsEmpty(files, blocks, history);
      if files[0].None? {
        CreateLive(files, blocks, history);
        files := files[0 := Some([])];
      }
      if fails(Harden) {
        return false;
      }
      ghost var text := Appended(record, fails, torn);
      AppendRecord(files, blocks, history, text);
      if fails(Write) {
        files := files[0 := Some(files[0].value + record[..torn])];
      } else {
        files := files[0 := Some(files[0].value + record)];
      }
      blocks, history := blocks[0 := blocks[0] + [text]], history + [text];
      return !fails(Write);
    }
  }

  lemma AbsentIsEmpty(files: Files, blocks: Blocks, history: seq<Record>)
    requires Holds(files, blocks, history)
    ensures forall i | 0 <= i <= ROTATION_COUNT && files[i].None? :: blocks[i] == []
  {
  }

  // ---------------------------------------------------------------------
  // What is on disk
  // ---------------------------------------------------------------------

  lemma {:induction false} ConcatAppend(a: seq<Record>, b: seq<Record>)
    ensures Concat(a + b) == Concat(a) + Concat(b)
  {
    hide Concat;
    if b == [] {
      EmptyConcat();
      assert a + b == a && Concat(a) + [] == Concat(a);
    } else {
      var front, last := b[..|b| - 1], b[|b| - 1];
      ConcatAppend(a, front);
      assert b == front + [last] && a + b == (a + front) + [last];
      ConcatSnoc(a + front, last);
      ConcatSnoc(front, last);
      assert (Concat(a) + Concat(front)) + last == Concat(a) + (Concat(front) + last);
    }
  }

  // The files from oldest to newest read as the end of the record history, cut
  // between two records.
  lemma {:induction false} DiskIsWindowOnHistory(files: Files, blocks: Blocks, history: seq<Record>)
    requires Holds(files, blocks, history)
    ensures exists k | 0 <= k <= |history| ::
              Content(files[3]) + (Content(files[2]) + (Content(files[1]) + Content(files[0]))) == Concat(history[k..])
  {
    hide Concat, Bounded;
    EmptyConcat();
    forall i | 0 <= i <= ROTATION_COUNT
      ensures Content(files[i]) == Concat(blocks[i])
    {
      assert Stores(files[i], blocks[i]);
    }
    ConcatAppend(blocks[1], blocks[0]);
    ConcatAppend(blocks[2], blocks[1] + blocks[0]);
    ConcatAppend(blocks[3], blocks[2] + (blocks[1] + blocks[0]));
    var k := |history| - |Window(blocks)|;
    assert Concat(history[k..]) == Concat(Window(blocks));
  }

  // No file exceeds the limit when no record does.
  lemma {:induction false} FilesAreBounded(files: Files, blocks: Blocks, history: seq<Record>, i: nat)
    requires Holds(files, blocks, history) && i <= ROTATION_COUNT
    requires forall record | record in history :: |record| <= 2 * 1024 * 1024
    ensures |Content(files[i])| <= 2 * 1024 * 1024
  {
    hide Concat;
    assert Stores(files[i], blocks[i]);
    if files[i].Some? && |blocks[i]| == 1 {
      var window := Window(blocks);
      assert blocks[i][0] in window;
      assert forall record | record in window :: record in history;
    }
  }

  // ---------------------------------------------------------------------
  // How much history is kept
  // ---------------------------------------------------------------------

  function LoggedAll(records: seq<Record>): Blocks {
    if records == [] then [[], [], [], []]
    else Logged(LoggedAll(records[..|records| - 1]), records[|records| - 1])
  }

  // No file was left while the first record of the next one still fitted.
  predicate Full(blocks: Blocks) {
    forall i | 1 <= i <= ROTATION_COUNT && blocks[i] != [] :: LeftFull(blocks, i)
  }

  predicate LeftFull(blocks: Blocks, i: nat)
    requires 1 <= i <= ROTATION_COUNT
  {
    blocks[i - 1] != [] && |Concat(blocks[i])| + |blocks[i - 1][0]| > MAX_LOG_BYTES
  }

  lemma LoggedKeepsFull(blocks: Blocks, record: Record)
    requires Full(blocks)
    ensures Full(Logged(blocks, record))
    ensures Logged(blocks, record)[0] != []
  {
    hide Concat;
    EmptyConcat();
    var after := Logged(blocks, record);
    if |Concat(blocks[0])| + |record| <= MAX_LOG_BYTES {
      assert forall i | 1 <= i <= ROTATION_COUNT :: after[i] == blocks[i];
      assert blocks[0] != [] ==> after[0][0] == blocks[0][0];
    } else {
      assert after[0] == [record];
      assert forall i | 1 <= i <= ROTATION_COUNT :: after[i] == blocks[i - 1];
    }
  }

  lemma LoggedWindow(blocks: Blocks, record: Record)
    requires Full(blocks)
    ensures var after := Logged(blocks, record);
            || Window(after) == Window(blocks) + [record]
            || (blocks[3] != [] && Window(after) == Window(blocks)[|blocks[3]|..] + [record])
  {
    hide Concat;
    var after := Logged(blocks, record);
    if |Concat(blocks[0])| + |record| <= MAX_LOG_BYTES {
      var rest := blocks[3] + (blocks[2] + blocks[1]);
      assert Window(blocks) == rest + blocks[0] && Window(after) == rest + (blocks[0] + [record]);
    } else {
      assert after[0] == [record] && after[1] == blocks[0] && after[2] == blocks[1] && after[3] == blocks[2];
      assert Window(after) == (blocks[2] + (blocks[1] + blocks[0])) + [record];
      assert Window(blocks)[|blocks[3]|..] == blocks[2] + (blocks[1] + blocks[0]);
      assert blocks[3] == [] ==> Window(blocks) == blocks[2] + (blocks[1] + blocks[0]);
    }
  }

  // As long as nothing fails the files hold the whole history, or its end with
  // every rotated file so full that the next record no longer fitted.
  lemma {:induction false} HistoryIsKept(records: seq<Record>)
    ensures var blocks := LoggedAll(records);
            && IsSuffix(Window(blocks), records)
            && Full(blocks)
            && (Window(blocks) == records ||
                (blocks[3] != [] && forall i | 1 <= i <= ROTATION_COUNT :: LeftFull(blocks, i)))
  {
    hide Concat, Logged, Window, LeftFull;
    if records == [] {
      NothingLogged();
    } else {
      var front, last := records[..|records| - 1], records[|records| - 1];
      assert records == front + [last];
      HistoryIsKept(front);
      var before := LoggedAll(front);
      LoggedKeepsFull(before, last);
      LostOnlyWhenFull(before, last, front);
      FullToTheEnd(LoggedAll(records));
    }
  }

  // A nonempty oldest file means that all rotated files were left full.
  lemma FullToTheEnd(blocks: Blocks)
    requires Full(blocks)
    ensures blocks[3] != [] ==> forall i | 1 <= i <= ROTATION_COUNT :: LeftFull(blocks, i)
  {
    assert blocks[3] != [] ==> LeftFull(blocks, 3);
    assert blocks[2] != [] ==> LeftFull(blocks, 2);
  }

  lemma NothingLogged()
    ensures Window([[], [], [], []]) == []
  {
  }

  lemma LostOnlyWhenFull(blocks: Blocks, record: Record, history: seq<Record>)
    requires Full(blocks) && IsSuffix(Window(blocks), history)
    requires Window(blocks) == history || blocks[3] != []
    ensures var after := Logged(blocks, record);
            && IsSuffix(Window(after), history + [record])
            && (Window(after) == history + [record] || after[3] != [])
  {
    hide Concat;
    LoggedWindow(blocks, record);
    var n := |blocks[3]|;
    assert n <= |Window(blocks)|;
    DroppedSuffix(Window(blocks), history, n);
    GrownSuffix(Window(blocks), history, record);
    GrownSuffix(Window(blocks)[n..], history, record);
    if Window(Logged(blocks, record)) != history + [record] {
      LossFillsOldest(blocks, record);
    }
  }

  lemma DroppedSuffix<T>(s: seq<T>, t: seq<T>, n: nat)
    requires IsSuffix(s, t) && n <= |s|
    ensures IsSuffix(s[n..], t)
  {
  }

  // What is in the oldest file is only dropped for the file before it.
  lemma LossFillsOldest(blocks: Blocks, record: Record)
    requires Full(blocks) && blocks[3] != []
    ensures Logged(blocks, record)[3] != []
  {
    hide Concat;
    assert LeftFull(blocks, 3);
  }
}
