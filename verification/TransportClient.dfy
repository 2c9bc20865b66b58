/**
 The transport's shared object and its stdout reader. Each method is one
 stretch of code between two awaits and is tied to the protocol's step; the
 reader is the loop that turns arbitrary read chunks into handled lines.
 */
module TransportClient {
  import opened Wrappers
  import opened JsonRpc
  import opened TransportProtocol

  const MAX_MESSAGE_BYTES: nat := 32 * 1024 * 1024
  const CHUNK_BYTES: nat := 16 * 1024
  const NEWLINE: byte := 10

  type byte = n: nat | n < 256

  type Bytes = seq<byte>

  // ---------------------------------------------------------------------
  // Framing as a function of the whole byte stream
  // ---------------------------------------------------------------------

  function NewlineAt(s: Bytes): (n: nat)
    ensures n <= |s|
  {
    if s == [] || s[0] == NEWLINE then 0 else 1 + NewlineAt(s[1..])
  }

  // The lines handed on: the loop's behaviour read off the unread stream.
  function Framed(accepts: Bytes -> bool, stream: Bytes): seq<Bytes>
    decreases |stream|
  {
    var n := NewlineAt(stream);
    if n == |stream| then [] else AfterLine(accepts, stream[..n], Framed(accepts, stream[n + 1..]))
  }

  // What one complete line adds in front of what the rest of the stream would give.
  function AfterLine(accepts: Bytes -> bool, line: Bytes, rest: seq<Bytes>): seq<Bytes> {
    if |line| > MAX_MESSAGE_BYTES then []
    else if line == [] then rest
    else if !accepts(line) then [line]
    else [line] + rest
  }

  // The newline-terminated lines of a stream; an unterminated tail is no line.
  function TerminatedLines(stream: Bytes): seq<Bytes>
    decreases |stream|
  {
    var n := NewlineAt(stream);
    if n == |stream| then [] else [stream[..n]] + TerminatedLines(stream[n + 1..])
  }

  predicate Stops(accepts: Bytes -> bool, line: Bytes) {
    |line| > MAX_MESSAGE_BYTES || (line != [] && !accepts(line))
  }

  function FirstStop(accepts: Bytes -> bool, lines: seq<Bytes>): (i: nat)
    ensures i <= |lines|
    ensures i < |lines| ==> Stops(accepts, lines[i])
    ensures forall j | 0 <= j < i :: !Stops(accepts, lines[j])
  {
    if lines == [] || Stops(accepts, lines[0]) then 0 else 1 + FirstStop(accepts, lines[1..])
  }

  function NonEmpty(lines: seq<Bytes>): seq<Bytes> {
    if lines == [] then []
    else (if lines[0] == [] then [] else [lines[0]]) + NonEmpty(lines[1..])
  }

  // The reader hands on exactly the non-empty terminated lines before the
  // first one that is over the limit or rejected, and the rejected line itself.
  lemma {:induction false} FramedLines(accepts: Bytes -> bool, stream: Bytes)
    ensures Framed(accepts, stream) == Selected(accepts, TerminatedLines(stream))
    decreases |stream|
  {
    var n := NewlineAt(stream);
    if n < |stream| {
      var line, rest := stream[..n], stream[n + 1..];
      FramedLines(accepts, rest);
      FramedUnfold(accepts, stream, n, line, rest);
      assert TerminatedLines(stream) == [line] + TerminatedLines(rest);
      hide Framed, TerminatedLines, Selected, AfterLine, NewlineAt;
      SelectedCons(accepts, line, TerminatedLines(rest));
    }
  }

  function Selected(accepts: Bytes -> bool, lines: seq<Bytes>): seq<Bytes> {
    var stop := FirstStop(accepts, lines);
    NonEmpty(lines[..stop]) +
    if stop < |lines| && |lines[stop]| <= MAX_MESSAGE_BYTES then [lines[stop]] else []
  }

  lemma SelectedCons(accepts: Bytes -> bool, line: Bytes, lines: seq<Bytes>)
    ensures Selected(accepts, [line] + lines) == AfterLine(accepts, line, Selected(accepts, lines))
  {
    var all := [line] + lines;
    assert all[1..] == lines;
    if !Stops(accepts, line) {
      var stop := FirstStop(accepts, lines);
      assert FirstStop(accepts, all) == stop + 1;
      assert all[..stop + 1][1..] == lines[..stop];
      assert all[..stop + 1][0] == line;
    }
  }

  function Flatten(chunks: seq<Bytes>): Bytes {
    if chunks == [] then [] else chunks[0] + Flatten(chunks[1..])
  }

  lemma {:induction false} NewlineInPrefix(x: Bytes, y: Bytes)
    ensures NewlineAt(x) < |x| ==> NewlineAt(x + y) == NewlineAt(x)
    ensures NewlineAt(x) == |x| ==> NewlineAt(x + y) >= |x|
  {
    if x != [] {
      NewlineInPrefix(x[1..], y);
      assert (x + y)[1..] == x[1..] + y;
    }
  }

  lemma FramedUnfold(accepts: Bytes -> bool, stream: Bytes, n: nat, line: Bytes, rest: Bytes)
    requires n == NewlineAt(stream) < |stream| && line == stream[..n] && rest == stream[n + 1..]
    ensures Framed(accepts, stream) == AfterLine(accepts, line, Framed(accepts, rest))
  {
  }

  lemma CutInFront(x: Bytes, y: Bytes, n: nat)
    requires n < |x|
    ensures (x + y)[..n] == x[..n] && (x + y)[n + 1..] == x[n + 1..] + y
  {
  }

  // Framing past a complete line at the start of the buffer.
  lemma FramedStep(accepts: Bytes -> bool, buffer: Bytes, later: Bytes)
    requires NewlineAt(buffer) < |buffer|
    ensures Framed(accepts, buffer + later) ==
            AfterLine(accepts, buffer[..NewlineAt(buffer)], Framed(accepts, buffer[NewlineAt(buffer) + 1..] + later))
  {
    hide Framed, NewlineAt, AfterLine;
    var n := NewlineAt(buffer);
    var line, rest := buffer[..n], buffer[n + 1..] + later;
    NewlineInPrefix(buffer, later);
    CutInFront(buffer, later, n);
    FramedUnfold(accepts, buffer + later, n, line, rest);
  }

  // The same, for what is still to be handed on after `handled`.
  lemma LineFramed(accepts: Bytes -> bool, all: seq<Bytes>, handled: seq<Bytes>, unread: Bytes, later: Bytes)
    requires NewlineAt(unread) < |unread|
    requires all == handled + Framed(accepts, unread + later)
    ensures var line, rest := unread[..NewlineAt(unread)], unread[NewlineAt(unread) + 1..];
            if |line| > MAX_MESSAGE_BYTES then all == handled
            else if line == [] then all == handled + Framed(accepts, rest + later)
            else if !accepts(line) then all == handled + [line]
            else all == (handled + [line]) + Framed(accepts, rest + later)
  {
    FramedStep(accepts, unread, later);
    var line, rest := unread[..NewlineAt(unread)], unread[NewlineAt(unread) + 1..];
    TransportProtocol.Associative(handled, [line], Framed(accepts, rest + later));
  }

  // Nothing more is handed on once the buffer cannot hold a line within the limit.
  lemma FramedStuck(accepts: Bytes -> bool, buffer: Bytes, later: Bytes)
    requires NewlineAt(buffer) == |buffer|
    requires |buffer| > MAX_MESSAGE_BYTES || later == []
    ensures Framed(accepts, buffer + later) == []
  {
    NewlineInPrefix(buffer, later);
    assert later == [] ==> buffer + later == buffer;
  }

  // ---------------------------------------------------------------------
  // Effects of handled lines and of failing everything
  // ---------------------------------------------------------------------

  // A line keeps the reader going when it parses to a known envelope.
  predicate Accepted(parse: Bytes -> Option<Json>, line: Bytes) {
    KnownEnvelope(parse(line))
  }

  predicate KnownEnvelope(message: Option<Json>) {
    message.Some? && !Classify(message.value).Invalid?
  }

  function Acceptance(parse: Bytes -> Option<Json>): Bytes -> bool {
    line => Accepted(parse, line)
  }

  function HandleAll(parse: Bytes -> Option<Json>, written: nat -> bool, s: State, lines: seq<Bytes>): State {
    if lines == [] then s
    else
      var before := HandleAll(parse, written, s, lines[..|lines| - 1]);
      Handle(before, parse(lines[|lines| - 1]), written(|lines| - 1)).0
  }

  lemma HandleAllSnoc(parse: Bytes -> Option<Json>, written: nat -> bool, s: State, lines: seq<Bytes>, line: Bytes)
    ensures HandleAll(parse, written, s, lines + [line]) ==
            Handle(HandleAll(parse, written, s, lines), parse(line), written(|lines|)).0
  {
  }

  predicate TableInRange(s: State) {
    forall id | id in s.pending :: s.pending[id] < |s.requests|
  }

  // Every pending request gets the exit failure and leaves the table.
  function FailAll(s: State): State {
    s.(pending := map[], requests := Failed(s.requests, s.pending.Values))
  }

  function Failed(requests: seq<Request>, who: set<nat>): (r: seq<Request>)
    ensures |r| == |requests|
  {
    seq(|requests|, i requires 0 <= i < |requests| =>
      if i in who then requests[i].(inbox := Some(Err(ProcessExited))) else requests[i])
  }

  lemma FailedNobody(requests: seq<Request>)
    ensures Failed(requests, {}) == requests
  {
  }

  lemma FailedMore(requests: seq<Request>, who: set<nat>, k: nat)
    requires k < |requests|
    ensures var failed := Failed(requests, who);
            Failed(requests, who + {k}) == failed[k := failed[k].(inbox := Some(Err(ProcessExited)))]
  {
  }

  // Failing everything is a run of the protocol: take the table, then fail
  // the taken senders one by one.
  lemma {:induction false} FailAllIsARun(s: State) returns (events: seq<Event>)
    requires TableInRange(s) && s.draining == {}
    ensures events != [] && events[0] == ShutdownTakes
    ensures forall i | 0 < i < |events| :: events[i].Drain?
    ensures Run(s, events) == Some(FailAll(s))
  {
    hide Run;
    var taken := Apply(s, ShutdownTakes);
    assert taken.draining == s.pending.Values;
    var drains := DrainingIsARun(taken);
    events := [ShutdownTakes] + drains;
    RunCons(s, ShutdownTakes, drains);
  }

  lemma {:induction false} DrainingIsARun(s: State) returns (events: seq<Event>)
    requires forall k | k in s.draining :: k < |s.requests|
    ensures forall i | 0 <= i < |events| :: events[i].Drain?
    ensures Run(s, events) == Some(s.(draining := {}, requests := Failed(s.requests, s.draining)))
    decreases |s.draining|
  {
    hide Run;
    if s.draining == {} {
      events := [];
      RunNothing(s);
      FailedNobody(s.requests);
    } else {
      var k :| k in s.draining;
      var next := Apply(s, Drain(k));
      assert next == s.(requests := next.requests, draining := s.draining - {k});
      assert Failed(next.requests, next.draining) == Failed(s.requests, s.draining);
      hide Failed, Apply;
      var more := DrainingIsARun(next);
      events := [Drain(k)] + more;
      RunCons(s, Drain(k), more);
    }
  }

  // ---------------------------------------------------------------------
  // The shared object
  // ---------------------------------------------------------------------

  class Shared {
    var nextRequestId: nat
    var pending: map<nat, nat>
    var requests: seq<Request>
    var receipts: seq<Receipt>
    var refusals: seq<Json>

    // The protocol state while no task is inside a fail-all.
    ghost function View(): State
      reads this
    {
      State(nextRequestId, requests, pending, {}, Reading, receipts, refusals)
    }

    constructor ()
      ensures View() == Init
    {
      nextRequestId := 1;
      pending := map[];
      requests, receipts, refusals := [], [], [];
    }

    method TakeId() returns (k: nat)
      modifies this
      ensures k == |old(requests)| && View() == Apply(old(View()), Issue)
    {
      k := |requests|;
      requests := requests + [Request(nextRequestId, Created, None, 0)];
      nextRequestId := (nextRequestId + 1) % ID_COUNT;
    }

    method EnterTable(k: nat)
      requires Enabled(View(), Register(k))
      modifies this
      ensures View() == Apply(old(View()), Register(k))
    {
      pending := pending[requests[k].id := k];
      requests := requests[k := requests[k].(phase := Writing, since := |receipts|)];
    }

    // The clean-up after a failed write or a passed deadline.
    method LeaveTable(k: nat)
      requires Is(View(), k, WriteFailed) || Is(View(), k, TimedOut)
      modifies this
      ensures View() ==
              Apply(old(View()), if old(requests[k].phase).TimedOut? then ForgetTimeout(k) else ForgetWrite(k))
    {
      var failure := if requests[k].phase.TimedOut? then Timeout else WriteError;
      pending := pending - {requests[k].id};
      requests := requests[k := requests[k].(phase := Returned(Err(failure)))];
    }

    method HandleLine(message: Option<Json>, written: bool) returns (keepGoing: bool)
      requires TableInRange(View())
      modifies this
      ensures (View(), keepGoing) == Handle(old(View()), message, written)
      ensures keepGoing == KnownEnvelope(message)
      ensures TableInRange(View())
    {
      if message.None? {
        return false;
      }
      match Classify(message.value)
      case Response(id, result) =>
        if id in pending {
          var k := pending[id];
          pending := pending - {id};
          requests := requests[k := requests[k].(inbox := Some(result))];
          receipts := receipts + [Receipt(id, result, Some(k))];
        } else {
          receipts := receipts + [Receipt(id, result, None)];
        }
        return true;
      case Notification(_, _) => return true;
      case ServerRequest(id) =>
        if written {
          refusals := refusals + [Refusal(id)];
        }
        return true;
      case Invalid => return false;
    }

    method FailAllPending()
      requires TableInRange(View())
      modifies this
      ensures View() == FailAll(old(View()))
    {
      hide Failed;
      FailedNobody(requests);
      ghost var before := requests;
      ghost var start := View();
      var taken := pending;
      pending := map[];
      var left := taken.Keys;
      ghost var sent: set<nat> := {};
      while left != {}
        invariant left <= taken.Keys && sent <= taken.Values
        invariant forall id | id in taken :: id in left || taken[id] in sent
        invariant requests == Failed(before, sent)
        decreases |left|
        modifies this`requests
      {
        var id :| id in left;
        var k := taken[id];
        FailedMore(before, sent, k);
        requests := requests[k := requests[k].(inbox := Some(Err(ProcessExited)))];
        left := left - {id};
        sent := sent + {k};
      }
      assert sent == taken.Values;
      assert View() == FailAll(start);
    }

    // Handle one line and account for it.
    method HandleCounted(parse: Bytes -> Option<Json>, written: nat -> bool, line: Bytes, total: nat,
                         ghost start: State, ghost handled: seq<Bytes>) returns (ok: bool)
      requires TableInRange(View()) && total == |handled|
      requires View() == HandleAll(parse, written, start, handled)
      modifies this
      ensures TableInRange(View()) && ok == Acceptance(parse)(line)
      ensures View() == HandleAll(parse, written, start, handled + [line])
    {
      ok := HandleLine(parse(line), written(total));
      HandleAllSnoc(parse, written, start, handled, line);
    }

    // The reader's inner loop: handle every complete line in the buffer and
    // keep what is left after the last of them.
    method HandleBuffered(parse: Bytes -> Option<Json>, written: nat -> bool, buffered: Bytes, count: nat,
                          ghost start: State, ghost before: seq<Bytes>, ghost later: Bytes)
      returns (left: Bytes, total: nat, alive: bool, ghost handled: seq<Bytes>)
      requires TableInRange(View()) && count == |before|
      requires View() == HandleAll(parse, written, start, before)
      modifies this
      ensures TableInRange(View()) && total == |handled|
      ensures View() == HandleAll(parse, written, start, handled)
      ensures before + Framed(Acceptance(parse), buffered + later) ==
              handled + if alive then Framed(Acceptance(parse), left + later) else []
      ensures alive ==> NewlineAt(left) == |left|
      ensures left == buffered || |left| < |buffered| - NewlineAt(buffered)
    {
      hide HandleAll, Framed, NewlineAt;
      ghost var accepts := Acceptance(parse);
      ghost var all := before + Framed(accepts, buffered + later);
      left, total, alive, handled := buffered, count, true, before;
      while alive && NewlineAt(left) < |left|
        invariant left == buffered || |left| < |buffered| - NewlineAt(buffered)
        invariant total == |handled| && TableInRange(View())
        invariant View() == HandleAll(parse, written, start, handled)
        invariant all == handled + if alive then Framed(accepts, left + later) else []
        decreases alive, |left|
      {
        var end := NewlineAt(left);
        var line := left[..end];
        LineFramed(accepts, all, handled, left, later);
        alive := |line| <= MAX_MESSAGE_BYTES;
        if alive && line != [] {
          alive := HandleCounted(parse, written, line, total, start, handled);
          total, handled := total + 1, handled + [line];
        }
        left := left[end + 1..];
      }
    }

    // The stdout reader over the successful reads made before end of file or
    // a read error. `peak` is the largest size the buffer had.
    method ReadStdout(parse: Bytes -> Option<Json>, written: nat -> bool, chunks: seq<Bytes>) returns (ghost peak: nat)
      requires TableInRange(View())
      requires forall i | 0 <= i < |chunks| :: 0 < |chunks[i]| <= CHUNK_BYTES
      modifies this
      ensures View() == FailAll(HandleAll(parse, written, old(View()), Framed(Acceptance(parse), Flatten(chunks))))
      ensures peak <= MAX_MESSAGE_BYTES + CHUNK_BYTES
    {
      ghost var accepts := Acceptance(parse);
      ghost var stream := Flatten(chunks);
      ghost var start := View();
      ghost var handled: seq<Bytes> := [];
      var buffered: Bytes := [];
      var count := 0;
      peak := 0;
      assert chunks[0..] == chunks && [] + stream == stream;
      for i := 0 to |chunks|
        invariant NewlineAt(buffered) == |buffered| <= MAX_MESSAGE_BYTES
        invariant peak <= MAX_MESSAGE_BYTES + CHUNK_BYTES
        invariant count == |handled| && TableInRange(View())
        invariant View() == HandleAll(parse, written, start, handled)
        invariant Framed(accepts, stream) == handled + Framed(accepts, buffered + Flatten(chunks[i..]))
      {
        ghost var later := Flatten(chunks[i + 1..]);
        assert chunks[i..][0] == chunks[i] && chunks[i..][1..] == chunks[i + 1..];
        TransportProtocol.Associative(buffered, chunks[i], later);
        NewlineInPrefix(buffered, chunks[i]);
        buffered := buffered + chunks[i];
        peak := if |buffered| > peak then |buffered| else peak;
        if |buffered| > MAX_MESSAGE_BYTES && NewlineAt(buffered) == |buffered| {
          FramedStuck(accepts, buffered, later);
          assert Framed(accepts, stream) == handled;
          FailAllPending();
          return;
        }
        var left, total, alive, all := HandleBuffered(parse, written, buffered, count, start, handled, later);
        if !alive {
          assert Framed(accepts, stream) == all;
          FailAllPending();
          return;
        }
        count, handled := total, all;
        buffered := left;
      }
      assert chunks[|chunks|..] == [];
      FramedStuck(accepts, buffered, []);
      assert Framed(accepts, stream) == handled;
      FailAllPending();
    }
  }
}
