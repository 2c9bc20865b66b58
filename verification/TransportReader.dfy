/**
 The stdout reader among the other tasks: reading a chunk and taking a line are
 steps that interleave with every step of the protocol.
 */
module TransportReader {
  import opened Wrappers
  import opened JsonRpc
  import opened TransportProtocol
  import opened TransportClient

  // The shared state, the reader's buffer, and what was received and handled.
  datatype Client = Client(protocol: State, buffered: Bytes, received: Bytes, handled: seq<Bytes>)

  // `Take` handles the first complete line of the buffer; `Other` is any step
  // that is not the reader's own.
  datatype Step =
    | Read(chunk: Bytes)
    | Take(written: bool)
    | EndOfFile
    | Other(event: Event)

  predicate HasLine(buffer: Bytes) { NewlineAt(buffer) < |buffer| }

  function FirstLine(buffer: Bytes): Bytes { buffer[..NewlineAt(buffer)] }

  function AfterFirstLine(buffer: Bytes): Bytes
    requires HasLine(buffer)
  {
    buffer[NewlineAt(buffer) + 1..]
  }

  predicate CanStep(c: Client, step: Step) {
    match step
    case Read(chunk) => c.protocol.reader.Reading? && !HasLine(c.buffered) && 0 < |chunk| <= CHUNK_BYTES
    case Take(_) => c.protocol.reader.Reading? && HasLine(c.buffered)
    case EndOfFile => c.protocol.reader.Reading? && !HasLine(c.buffered)
    case Other(event) => !event.Line? && !event.ReaderEnds? && Enabled(c.protocol, event)
  }

  // The protocol's event in a step, if it is one.
  function EventOf(parse: Bytes -> Option<Json>, c: Client, step: Step): Option<Event> {
    match step
    case Read(chunk) =>
      if |c.buffered + chunk| > MAX_MESSAGE_BYTES && !HasLine(c.buffered + chunk) then Some(ReaderEnds) else None
    case Take(written) =>
      var line := FirstLine(c.buffered);
      if |line| > MAX_MESSAGE_BYTES then Some(ReaderEnds)
      else if line == [] then None
      else Some(Line(parse(line), written))
    case EndOfFile => Some(ReaderEnds)
    case Other(event) => Some(event)
  }

  function Moved(parse: Bytes -> Option<Json>, c: Client, step: Step): Client
    requires CanStep(c, step)
  {
    var event := EventOf(parse, c, step);
    var moved := if event.None? then c else c.(protocol := Apply(c.protocol, event.value));
    match step
    case Read(chunk) => moved.(buffered := c.buffered + chunk, received := c.received + chunk)
    case Take(_) =>
      moved.(
        buffered := AfterFirstLine(c.buffered),
        handled := if event.Some? && event.value.Line? then c.handled + [FirstLine(c.buffered)] else c.handled
      )
    case _ => moved
  }

  // The client after a run, if every step of it was possible.
  function RunClient(parse: Bytes -> Option<Json>, c: Client, steps: seq<Step>): Option<Client>
    decreases |steps|
  {
    if steps == [] then Some(c)
    else if !CanStep(c, steps[0]) then None
    else RunClient(parse, Moved(parse, c, steps[0]), steps[1..])
  }

  // The protocol events of a run.
  function Events(parse: Bytes -> Option<Json>, c: Client, steps: seq<Step>): seq<Event>
    decreases |steps|
  {
    if steps == [] || !CanStep(c, steps[0]) then []
    else
      var event, rest := EventOf(parse, c, steps[0]), Events(parse, Moved(parse, c, steps[0]), steps[1..]);
      (if event.None? then [] else [event.value]) + rest
  }

  // The messages of the lines among some events.
  function Messages(events: seq<Event>): seq<Option<Json>> {
    if events == [] then []
    else (if events[0].Line? then [events[0].message] else []) + Messages(events[1..])
  }

  function Parsed(parse: Bytes -> Option<Json>, lines: seq<Bytes>): seq<Option<Json>> {
    seq(|lines|, i requires 0 <= i < |lines| => parse(lines[i]))
  }

  // What has been handled is what framing gives for the bytes received so far;
  // while the reader runs, its buffer holds all that is still to be framed.
  ghost predicate Framing(parse: Bytes -> Option<Json>, c: Client, later: Bytes) {
    var accepts := Acceptance(parse);
    && c.handled <= Framed(accepts, c.received + later)
    && (c.protocol.reader.Reading? ==>
          Framed(accepts, c.received + later) == c.handled + Framed(accepts, c.buffered + later))
  }

  ghost predicate ReaderValid(parse: Bytes -> Option<Json>, c: Client) {
    && (forall later :: Framing(parse, c, later))
    && (c.protocol.reader.Ending? ==> c.handled == Framed(Acceptance(parse), c.received))
    && Bounded(c)
  }

  // The buffer never grows past the limit and one chunk: its first line end is
  // always in the chunk read last.
  predicate Bounded(c: Client) {
    && |c.buffered| <= MAX_MESSAGE_BYTES + CHUNK_BYTES
    && (c.protocol.reader.Reading? && !HasLine(c.buffered) ==> |c.buffered| <= MAX_MESSAGE_BYTES)
    && (HasLine(c.buffered) ==> |c.buffered| - NewlineAt(c.buffered) <= CHUNK_BYTES)
  }

  lemma ReadKeepsFraming(parse: Bytes -> Option<Json>, c: Client, chunk: Bytes, later: Bytes)
    requires CanStep(c, Read(chunk)) && Framing(parse, c, chunk + later)
    ensures Framing(parse, Moved(parse, c, Read(chunk)), later)
    ensures Moved(parse, c, Read(chunk)).protocol.reader.Ending? ==>
              c.handled == Framed(Acceptance(parse), (c.received + chunk) + later)
  {
    hide Framed;
    var accepts := Acceptance(parse);
    TransportProtocol.Associative(c.received, chunk, later);
    TransportProtocol.Associative(c.buffered, chunk, later);
    if |c.buffered + chunk| > MAX_MESSAGE_BYTES && !HasLine(c.buffered + chunk) {
      FramedStuck(accepts, c.buffered + chunk, later);
    }
  }

  lemma TakeKeepsFraming(parse: Bytes -> Option<Json>, c: Client, written: bool, later: Bytes)
    requires CanStep(c, Take(written)) && Framing(parse, c, later)
    ensures Framing(parse, Moved(parse, c, Take(written)), later)
    ensures Moved(parse, c, Take(written)).protocol.reader.Ending? ==>
              Moved(parse, c, Take(written)).handled == Framed(Acceptance(parse), c.received + later)
  {
    hide Framed;
    var accepts := Acceptance(parse);
    LineFramed(accepts, Framed(accepts, c.received + later), c.handled, c.buffered, later);
    GoesOnIff(parse, c.protocol, FirstLine(c.buffered), written);
  }

  // The reader goes on after a line exactly when it is accepted.
  lemma GoesOnIff(parse: Bytes -> Option<Json>, s: State, line: Bytes, written: bool)
    requires s.reader.Reading?
    ensures Apply(s, Line(parse(line), written)).reader.Reading? <==> Acceptance(parse)(line)
    ensures !Apply(s, Line(parse(line), written)).reader.Stopped?
  {
  }

  lemma OtherKeepsReader(parse: Bytes -> Option<Json>, c: Client, event: Event)
    requires CanStep(c, Other(event))
    ensures var t := Moved(parse, c, Other(event));
            && t.(protocol := c.protocol) == c
            && (t.protocol.reader == c.protocol.reader || t.protocol.reader.Stopped?)
  {
  }

  lemma StepKeepsReader(parse: Bytes -> Option<Json>, c: Client, step: Step)
    requires CanStep(c, step) && ReaderValid(parse, c)
    ensures ReaderValid(parse, Moved(parse, c, step))
  {
    hide Framed, Framing;
    var t := Moved(parse, c, step);
    forall later
      ensures Framing(parse, t, later)
    {
      match step
      case Read(chunk) =>
        assert Framing(parse, c, chunk + later);
        ReadKeepsFraming(parse, c, chunk, later);
      case Take(written) =>
        assert Framing(parse, c, later);
        TakeKeepsFraming(parse, c, written, later);
      case EndOfFile =>
        assert Framing(parse, c, later);
        EndKeepsFraming(parse, c, later);
      case Other(event) =>
        assert Framing(parse, c, later);
        OtherKeepsReader(parse, c, event);
        SameFraming(parse, c, t, later);
    }
    EndingIsComplete(parse, c, step);
    BufferIsBounded(parse, c, step);
  }

  lemma EndKeepsFraming(parse: Bytes -> Option<Json>, c: Client, later: Bytes)
    requires CanStep(c, EndOfFile) && Framing(parse, c, later)
    ensures Framing(parse, Moved(parse, c, EndOfFile), later)
    ensures later == [] ==> c.handled == Framed(Acceptance(parse), c.received + later)
  {
    hide Framed;
    if later == [] {
      FramedStuck(Acceptance(parse), c.buffered, later);
    }
  }

  lemma SameFraming(parse: Bytes -> Option<Json>, c: Client, t: Client, later: Bytes)
    requires Framing(parse, c, later) && t.(protocol := c.protocol) == c
    requires t.protocol.reader == c.protocol.reader || t.protocol.reader.Stopped?
    ensures Framing(parse, t, later)
  {
  }

  lemma EndingIsComplete(parse: Bytes -> Option<Json>, c: Client, step: Step)
    requires CanStep(c, step) && ReaderValid(parse, c)
    ensures var t := Moved(parse, c, step);
            t.protocol.reader.Ending? ==> t.handled == Framed(Acceptance(parse), t.received)
  {
    hide Framed, Framing;
    match step
    case Read(chunk) =>
      assert Framing(parse, c, chunk + []);
      ReadKeepsFraming(parse, c, chunk, []);
      assert (c.received + chunk) + [] == c.received + chunk;
    case Take(written) =>
      assert Framing(parse, c, []);
      TakeKeepsFraming(parse, c, written, []);
      assert c.received + [] == c.received;
    case EndOfFile =>
      assert Framing(parse, c, []);
      EndKeepsFraming(parse, c, []);
      assert c.received + [] == c.received;
    case Other(event) => OtherKeepsReader(parse, c, event);
  }

  lemma BufferIsBounded(parse: Bytes -> Option<Json>, c: Client, step: Step)
    requires CanStep(c, step) && Bounded(c)
    ensures Bounded(Moved(parse, c, step))
  {
    match step
    case Read(chunk) => NewlineInPrefix(c.buffered, chunk);
    case Other(event) => OtherKeepsReader(parse, c, event);
    case _ =>
  }

  const Start: Client := Client(TransportProtocol.Init, [], [], [])

  lemma {:induction false} RunKeepsReader(parse: Bytes -> Option<Json>, c: Client, steps: seq<Step>)
    requires ReaderValid(parse, c) && RunClient(parse, c, steps).Some?
    ensures ReaderValid(parse, RunClient(parse, c, steps).value)
    decreases |steps|
  {
    hide ReaderValid, Moved;
    if steps != [] {
      StepKeepsReader(parse, c, steps[0]);
      RunKeepsReader(parse, Moved(parse, c, steps[0]), steps[1..]);
    }
  }

  // However reading interleaves with requests, time-outs and shutdown, the lines
  // handled are a beginning of the lines that framing gives for everything the
  // server sends, and all of those for what was received when the reader ends
  // by itself; and the buffer stays bounded.
  lemma {:induction false} HandledLinesAreFramed(parse: Bytes -> Option<Json>, steps: seq<Step>, later: Bytes)
    requires RunClient(parse, Start, steps).Some?
    ensures var c := RunClient(parse, Start, steps).value;
            && c.handled <= Framed(Acceptance(parse), c.received + later)
            && (c.protocol.reader.Ending? ==> c.handled == Framed(Acceptance(parse), c.received))
            && |c.buffered| <= 32 * 1024 * 1024 + 16 * 1024
  {
    StartIsValid(parse);
    RunKeepsReader(parse, Start, steps);
    assert Framing(parse, RunClient(parse, Start, steps).value, later);
  }

  lemma StartIsValid(parse: Bytes -> Option<Json>)
    ensures ReaderValid(parse, Start)
  {
    forall later: Bytes
      ensures Framing(parse, Start, later)
    {
      assert [] + later == later;
    }
  }

  // The protocol's part of such a run is a run of the protocol, and its lines
  // carry the handled lines' messages in order.
  lemma {:induction false} ProtocolRuns(parse: Bytes -> Option<Json>, c: Client, steps: seq<Step>)
    requires RunClient(parse, c, steps).Some?
    ensures var t, events := RunClient(parse, c, steps).value, Events(parse, c, steps);
            && TransportProtocol.Run(c.protocol, events) == Some(t.protocol)
            && c.handled <= t.handled
            && Messages(events) == Parsed(parse, t.handled[|c.handled|..])
    decreases |steps|
  {
    hide Moved, EventOf;
    if steps != [] {
      var next, event := Moved(parse, c, steps[0]), EventOf(parse, c, steps[0]);
      var rest := steps[1..];
      ProtocolRuns(parse, next, rest);
      var more := Events(parse, next, rest);
      MovedMeans(parse, c, steps[0]);
      var t := RunClient(parse, next, rest).value;
      if event.Some? {
        var events := [event.value] + more;
        assert events[1..] == more && Events(parse, c, steps) == events;
        if event.value.Line? {
          var line := next.handled[|c.handled|];
          assert t.handled[|c.handled|..] == [line] + t.handled[|next.handled|..];
        }
      } else {
        assert [] + more == more;
      }
    }
  }

  lemma MovedMeans(parse: Bytes -> Option<Json>, c: Client, step: Step)
    requires CanStep(c, step)
    ensures var next, event := Moved(parse, c, step), EventOf(parse, c, step);
            && (event.None? ==> next.protocol == c.protocol)
            && (event.Some? ==> Enabled(c.protocol, event.value) && next.protocol == Apply(c.protocol, event.value))
            && (if event.Some? && event.value.Line? then
                  exists line :: next.handled == c.handled + [line] && event.value.message == parse(line)
                else next.handled == c.handled)
  {
    var next := Moved(parse, c, step);
    if step.Take? {
      assert next.handled == c.handled || next.handled == c.handled + [FirstLine(c.buffered)];
    }
  }
}
