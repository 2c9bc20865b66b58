/**
 The request/response protocol over the shared pending table, as a state
 machine whose steps are the stretches of code between two awaits. Any number
 of request tasks, the reader task and shutdown interleave freely.
 */
module TransportProtocol {
  import opened Wrappers
  import opened JsonRpc

  // Request ids are a wrapping 64-bit counter.
  const ID_COUNT: nat := 0x1_0000_0000_0000_0000

  datatype Phase =
    | Created                    // has an id, not yet in the pending table
    | Writing                    // in the table, message being written
    | WriteFailed                // about to take itself out of the table
    | Waiting
    | TimedOut                   // about to take itself out of the table
    | Returned(outcome: Reply)

  // One request with its one-shot channel: `inbox` is the value sent, if any.
  // `since` is the number of responses read before it entered the table.
  datatype Request = Request(id: nat, phase: Phase, inbox: Option<Reply>, since: nat)

  // One response read from the server and the request it was handed to.
  datatype Receipt = Receipt(id: nat, result: Reply, servedTo: Option<nat>)

  datatype ReaderPhase = Reading | Ending | Stopped

  datatype State = State(
    nextId: nat,
    requests: seq<Request>,
    pending: map<nat, nat>,      // request id to the request holding the receiver
    draining: set<nat>,          // senders taken by a fail-all still in progress
    reader: ReaderPhase,
    receipts: seq<Receipt>,
    refusals: seq<Json>
  )

  datatype Event =
    | Issue
    | Register(k: nat)
    | WriteDone(k: nat)
    | WriteFail(k: nat)
    | ForgetWrite(k: nat)
    | Receive(k: nat)
    | ChannelClosed(k: nat)
    | Expire(k: nat)
    | ForgetTimeout(k: nat)
    | Line(message: Option<Json>, written: bool)
    | ReaderEnds
    | ReaderTakes
    | ReaderAborted
    | ShutdownTakes
    | Drain(k: nat)

  const Init: State := State(1, [], map[], {}, Reading, [], [])

  predicate Is(s: State, k: nat, phase: Phase) {
    k < |s.requests| && s.requests[k].phase == phase
  }

  // Someone still holds the sending half of the request's channel.
  predicate HasSender(s: State, k: nat) {
    k in s.draining || k in s.pending.Values
  }

  predicate Enabled(s: State, e: Event) {
    match e
    case Issue => true
    case Register(k) => Is(s, k, Created)
    case WriteDone(k) => Is(s, k, Writing)
    case WriteFail(k) => Is(s, k, Writing)
    case ForgetWrite(k) => Is(s, k, WriteFailed)
    case Receive(k) => Is(s, k, Waiting) && s.requests[k].inbox.Some?
    case ChannelClosed(k) => Is(s, k, Waiting) && s.requests[k].inbox.None? && !HasSender(s, k)
    case Expire(k) => Is(s, k, Waiting)
    case ForgetTimeout(k) => Is(s, k, TimedOut)
    case Line(_, _) => s.reader.Reading?
    case ReaderEnds => s.reader.Reading?
    case ReaderTakes => s.reader.Ending?
    case ReaderAborted => true
    case ShutdownTakes => true
    case Drain(k) => k in s.draining && k < |s.requests|
  }

  function WithPhase(s: State, k: nat, phase: Phase): State
    requires k < |s.requests|
  {
    s.(requests := s.requests[k := s.requests[k].(phase := phase)])
  }

  function Send(s: State, k: nat, reply: Reply): State
    requires k < |s.requests|
  {
    s.(requests := s.requests[k := s.requests[k].(inbox := Some(reply))])
  }

  // A response is handed to the request pending under its id, if there is one.
  function Deliver(s: State, id: nat, result: Reply): State {
    if id in s.pending && s.pending[id] < |s.requests| then
      var k := s.pending[id];
      Send(s, k, result).(pending := s.pending - {id}, receipts := s.receipts + [Receipt(id, result, Some(k))])
    else
      s.(receipts := s.receipts + [Receipt(id, result, None)])
  }

  // `handle_line`, with whether the reader keeps going.
  function Handle(s: State, message: Option<Json>, written: bool): (State, bool) {
    if message.None? then (s, false)
    else
      match Classify(message.value)
      case Response(id, result) => (Deliver(s, id, result), true)
      case Notification(_, _) => (s, true)
      case ServerRequest(id) => (if written then s.(refusals := s.refusals + [Refusal(id)]) else s, true)
      case Invalid => (s, false)
  }

  function TakeAll(s: State): State {
    s.(pending := map[], draining := s.draining + s.pending.Values)
  }

  function Apply(s: State, e: Event): State
    requires Enabled(s, e)
  {
    match e
    case Issue =>
      s.(nextId := (s.nextId + 1) % ID_COUNT, requests := s.requests + [Request(s.nextId, Created, None, 0)])
    case Register(k) =>
      var r := s.requests[k];
      s.(requests := s.requests[k := r.(phase := Writing, since := |s.receipts|)], pending := s.pending[r.id := k])
    case WriteDone(k) => WithPhase(s, k, Waiting)
    case WriteFail(k) => WithPhase(s, k, WriteFailed)
    case ForgetWrite(k) =>
      WithPhase(s, k, Returned(Err(WriteError))).(pending := s.pending - {s.requests[k].id})
    case Receive(k) => WithPhase(s, k, Returned(s.requests[k].inbox.value))
    case ChannelClosed(k) => WithPhase(s, k, Returned(Err(ProcessExited)))
    case Expire(k) => WithPhase(s, k, TimedOut)
    case ForgetTimeout(k) =>
      WithPhase(s, k, Returned(Err(Timeout))).(pending := s.pending - {s.requests[k].id})
    case Line(message, written) =>
      var (next, keepGoing) := Handle(s, message, written);
      if keepGoing then next else next.(reader := Ending)
    case ReaderEnds => s.(reader := Ending)
    case ReaderTakes => TakeAll(s).(reader := Stopped)
    case ReaderAborted => s.(reader := Stopped)
    case ShutdownTakes => TakeAll(s)
    case Drain(k) => Send(s, k, Err(ProcessExited)).(draining := s.draining - {k})
  }

  // The state after a whole run, if every step of it was possible.
  function Run(s: State, events: seq<Event>): Option<State>
    decreases |events|
  {
    if events == [] then Some(s)
    else if !Enabled(s, events[0]) then None
    else Run(Apply(s, events[0]), events[1..])
  }

  lemma RunCons(s: State, e: Event, events: seq<Event>)
    requires Enabled(s, e)
    ensures Run(s, [e] + events) == Run(Apply(s, e), events)
  {
  }

  // ---------------------------------------------------------------------
  // Ids
  // ---------------------------------------------------------------------

  ghost predicate Numbered(s: State) {
    && s.nextId == (1 + |s.requests|) % ID_COUNT
    && forall k | 0 <= k < |s.requests| :: s.requests[k].id == (1 + k) % ID_COUNT
  }

  lemma NumberedStep(s: State, e: Event)
    requires Numbered(s) && Enabled(s, e)
    ensures Numbered(Apply(s, e))
  {
    if e.Issue? {
      assert (s.nextId + 1) % ID_COUNT == (1 + |s.requests| + 1) % ID_COUNT;
    }
  }

  lemma {:induction false} NumberedRun(s: State, events: seq<Event>)
    requires Numbered(s) && Run(s, events).Some?
    ensures Numbered(Run(s, events).value)
    decreases |events|
  {
    if events != [] {
      NumberedStep(s, events[0]);
      NumberedRun(Apply(s, events[0]), events[1..]);
    }
  }

  ghost predicate DistinctIds(s: State) {
    forall i, j | 0 <= i < j < |s.requests| :: s.requests[i].id != s.requests[j].id
  }

  // No id is ever reused exactly as long as the 64-bit counter has not wrapped.
  lemma {:induction false} IdsNeverReused(events: seq<Event>)
    requires Run(Init, events).Some?
    ensures DistinctIds(Run(Init, events).value) <==> |Run(Init, events).value.requests| <= ID_COUNT
  {
    NumberedRun(Init, events);
    NumberedDistinct(Run(Init, events).value);
  }

  lemma NumberedDistinct(s: State)
    requires Numbered(s)
    ensures DistinctIds(s) <==> |s.requests| <= ID_COUNT
  {
    if |s.requests| > ID_COUNT {
      assert (1 + 0) % ID_COUNT == (1 + ID_COUNT) % ID_COUNT;
      assert s.requests[0].id == s.requests[ID_COUNT].id;
    }
  }

  // ---------------------------------------------------------------------
  // The invariant
  // ---------------------------------------------------------------------

  predicate InFlight(phase: Phase) {
    phase.Writing? || phase.WriteFailed? || phase.Waiting? || phase.TimedOut?
  }

  // The table maps ids to in-flight requests with an empty inbox.
  ghost predicate TableValid(s: State) {
    forall id | id in s.pending ::
      var k := s.pending[id];
      && k < |s.requests| && s.requests[k].id == id
      && InFlight(s.requests[k].phase) && s.requests[k].inbox.None? && k !in s.draining
  }

  // Senders being failed belong to registered requests with an empty inbox.
  ghost predicate DrainValid(s: State) {
    forall k | k in s.draining ::
      k < |s.requests| && s.requests[k].inbox.None? && !s.requests[k].phase.Created?
  }

  // What a request's phase says about its inbox, its sender and its outcome.
  ghost predicate RequestValid(s: State, k: nat)
    requires k < |s.requests|
  {
    var r := s.requests[k];
    && (r.phase.Created? ==> r.inbox.None?)
    && (r.phase.Created? || r.phase.Returned? ==> r.id !in s.pending)
    && (InFlight(r.phase) && r.inbox.None? ==> k in s.draining || (r.id in s.pending && s.pending[r.id] == k))
    && (r.phase.Returned? ==>
          r.phase.outcome in {Err(WriteError), Err(Timeout)} || r.inbox == Some(r.phase.outcome))
    && (!r.phase.Created? ==> r.since <= |s.receipts|)
  }

  // Receipt h handed the value in k's inbox to k.
  ghost predicate Served(s: State, k: nat, h: nat)
    requires k < |s.requests|
  {
    && h < |s.receipts|
    && s.receipts[h].servedTo == Some(k)
    && s.receipts[h].id == s.requests[k].id
    && s.requests[k].inbox == Some(s.receipts[h].result)
    && s.requests[k].since <= h
  }

  ghost predicate ReceiptsValid(s: State) {
    && (forall h | 0 <= h < |s.receipts| && s.receipts[h].servedTo.Some? ::
          && s.receipts[h].servedTo.value < |s.requests|
          && !s.requests[s.receipts[h].servedTo.value].phase.Created?
          && Served(s, s.receipts[h].servedTo.value, h))
    && (forall g, h | 0 <= g < h < |s.receipts| && s.receipts[g].servedTo.Some? ::
          s.receipts[g].servedTo != s.receipts[h].servedTo)
  }

  // A filled inbox was filled by a fail-all or by some receipt.
  ghost predicate InboxExplained(s: State, k: nat)
    requires k < |s.requests|
  {
    s.requests[k].inbox in {None, Some(Err(ProcessExited))} || exists h: nat :: Served(s, k, h)
  }

  ghost predicate Valid(s: State) {
    && DistinctIds(s)
    && TableValid(s)
    && DrainValid(s)
    && (forall k | 0 <= k < |s.requests| :: RequestValid(s, k))
    && ReceiptsValid(s)
    && (forall k | 0 <= k < |s.requests| :: InboxExplained(s, k))
  }

  // A request's own step that neither sends nor touches the table.
  lemma PhaseStepValid(s: State, k: nat, phase: Phase)
    requires Valid(s) && k < |s.requests|
    requires InFlight(s.requests[k].phase) && InFlight(phase)
    ensures Valid(WithPhase(s, k, phase))
  {
    var t := WithPhase(s, k, phase);
    forall j | 0 <= j < |t.requests|
      ensures RequestValid(t, j) && InboxExplained(t, j)
    {
      assert RequestValid(s, j) && InboxExplained(s, j);
      KeepsExplained(s, t, j);
    }
  }

  // An explanation survives any step that keeps inboxes, ids and receipts.
  lemma KeepsExplained(s: State, t: State, k: nat)
    requires k < |s.requests| == |t.requests| && InboxExplained(s, k)
    requires t.requests[k].inbox == s.requests[k].inbox && t.requests[k].id == s.requests[k].id
    requires t.requests[k].since == s.requests[k].since && s.receipts <= t.receipts
    ensures InboxExplained(t, k)
  {
    if s.requests[k].inbox !in {None, Some(Err(ProcessExited))} {
      var h: nat :| Served(s, k, h);
      assert Served(t, k, h);
    }
  }

  lemma IssueValid(s: State)
    requires Valid(s) && DistinctIds(Apply(s, Issue))
    ensures Valid(Apply(s, Issue))
  {
    var t := Apply(s, Issue);
    assert TableValid(t);
    forall j | 0 <= j < |t.requests|
      ensures RequestValid(t, j) && InboxExplained(t, j)
    {
      if j < |s.requests| {
        assert RequestValid(s, j) && InboxExplained(s, j);
        if s.requests[j].inbox !in {None, Some(Err(ProcessExited))} {
          var h: nat :| Served(s, j, h);
          assert Served(t, j, h);
        }
      } else {
        NewIdIsNotPending(s);
      }
    }
    forall h | 0 <= h < |t.receipts| && t.receipts[h].servedTo.Some?
      ensures Served(t, t.receipts[h].servedTo.value, h)
    {
      assert Served(s, s.receipts[h].servedTo.value, h);
    }
  }

  lemma NewIdIsNotPending(s: State)
    requires TableValid(s) && DistinctIds(Apply(s, Issue))
    ensures s.nextId !in s.pending
  {
    var t := Apply(s, Issue);
    assert t.requests[|s.requests|].id == s.nextId;
    assert forall k | 0 <= k < |s.requests| :: t.requests[k] == s.requests[k];
  }

  lemma RegisterValid(s: State, k: nat)
    requires Valid(s) && Enabled(s, Register(k))
    ensures Valid(Apply(s, Register(k)))
  {
    var t := Apply(s, Register(k));
    assert RequestValid(s, k);
    forall j | 0 <= j < |t.requests|
      ensures RequestValid(t, j) && InboxExplained(t, j)
    {
      assert RequestValid(s, j) && InboxExplained(s, j);
      if j != k {
        KeepsExplained(s, t, j);
      }
    }
    forall h | 0 <= h < |t.receipts| && t.receipts[h].servedTo.Some?
      ensures Served(t, t.receipts[h].servedTo.value, h)
    {
      assert Served(s, s.receipts[h].servedTo.value, h);
    }
  }

  // A request that gives up takes its own entry out of the table.
  lemma ForgetValid(s: State, k: nat, failure: Failure)
    requires Valid(s) && k < |s.requests| && InFlight(s.requests[k].phase)
    requires failure == WriteError || failure == Timeout
    ensures Valid(WithPhase(s, k, Returned(Err(failure))).(pending := s.pending - {s.requests[k].id}))
  {
    var t := WithPhase(s, k, Returned(Err(failure))).(pending := s.pending - {s.requests[k].id});
    forall j | 0 <= j < |t.requests|
      ensures RequestValid(t, j) && InboxExplained(t, j)
    {
      assert RequestValid(s, j) && InboxExplained(s, j);
      KeepsExplained(s, t, j);
    }
    forall h | 0 <= h < |t.receipts| && t.receipts[h].servedTo.Some?
      ensures Served(t, t.receipts[h].servedTo.value, h)
    {
      assert Served(s, s.receipts[h].servedTo.value, h);
    }
  }

  lemma ReceiveValid(s: State, k: nat)
    requires Valid(s) && Enabled(s, Receive(k))
    ensures Valid(Apply(s, Receive(k)))
  {
    var t := Apply(s, Receive(k));
    assert RequestValid(s, k);
    forall j | 0 <= j < |t.requests|
      ensures RequestValid(t, j) && InboxExplained(t, j)
    {
      assert RequestValid(s, j) && InboxExplained(s, j);
      KeepsExplained(s, t, j);
    }
    forall h | 0 <= h < |t.receipts| && t.receipts[h].servedTo.Some?
      ensures Served(t, t.receipts[h].servedTo.value, h)
    {
      assert Served(s, s.receipts[h].servedTo.value, h);
    }
  }

  lemma DeliverValid(s: State, id: nat, result: Reply)
    requires Valid(s)
    ensures Valid(Deliver(s, id, result))
  {
    var t := Deliver(s, id, result);
    var n := |s.receipts|;
    forall h | 0 <= h < |t.receipts| && t.receipts[h].servedTo.Some?
      ensures t.receipts[h].servedTo.value < |t.requests|
      ensures !t.requests[t.receipts[h].servedTo.value].phase.Created?
      ensures Served(t, t.receipts[h].servedTo.value, h)
    {
      if h < n {
        assert Served(s, s.receipts[h].servedTo.value, h);
      } else {
        assert RequestValid(s, s.pending[id]);
      }
    }
    forall g | 0 <= g < n && t.receipts[g].servedTo.Some?
      ensures t.receipts[g].servedTo != t.receipts[n].servedTo
    {
      assert Served(s, s.receipts[g].servedTo.value, g);
    }
    forall j | 0 <= j < |t.requests|
      ensures RequestValid(t, j) && InboxExplained(t, j)
    {
      assert RequestValid(s, j) && InboxExplained(s, j);
      if t.requests[j] == s.requests[j] {
        KeepsExplained(s, t, j);
      } else {
        assert Served(t, j, n);
      }
    }
  }

  lemma TakeAllValid(s: State)
    requires Valid(s)
    ensures Valid(TakeAll(s))
  {
    var t := TakeAll(s);
    forall j | 0 <= j < |t.requests|
      ensures RequestValid(t, j) && InboxExplained(t, j)
    {
      assert RequestValid(s, j) && InboxExplained(s, j);
      KeepsExplained(s, t, j);
    }
    forall h | 0 <= h < |t.receipts| && t.receipts[h].servedTo.Some?
      ensures Served(t, t.receipts[h].servedTo.value, h)
    {
      assert Served(s, s.receipts[h].servedTo.value, h);
    }
  }

  lemma DrainKeepsValid(s: State, k: nat)
    requires Valid(s) && Enabled(s, Drain(k))
    ensures Valid(Apply(s, Drain(k)))
  {
    var t := Apply(s, Drain(k));
    forall j | 0 <= j < |t.requests|
      ensures RequestValid(t, j) && InboxExplained(t, j)
    {
      assert RequestValid(s, j) && InboxExplained(s, j);
      if j != k {
        KeepsExplained(s, t, j);
      }
    }
    forall h | 0 <= h < |t.receipts| && t.receipts[h].servedTo.Some?
      ensures Served(t, t.receipts[h].servedTo.value, h)
    {
      assert Served(s, s.receipts[h].servedTo.value, h);
    }
  }

  // The oneshot of a waiting request is never closed without a value.
  lemma {:induction false} ChannelNeverCloses(s: State, k: nat)
    requires Valid(s)
    ensures !Enabled(s, ChannelClosed(k))
  {
    if k < |s.requests| {
      assert RequestValid(s, k);
    }
  }

  lemma StepValid(s: State, e: Event)
    requires Valid(s) && Numbered(s) && Enabled(s, e) && |Apply(s, e).requests| <= ID_COUNT
    ensures Valid(Apply(s, e))
  {
    match e
    case Issue =>
      NumberedStep(s, e);
      NumberedDistinct(Apply(s, e));
      IssueValid(s);
    case Register(k) => RegisterValid(s, k);
    case WriteDone(k) => PhaseStepValid(s, k, Waiting);
    case WriteFail(k) => PhaseStepValid(s, k, WriteFailed);
    case ForgetWrite(k) => ForgetValid(s, k, WriteError);
    case Receive(k) => ReceiveValid(s, k);
    case ChannelClosed(k) => ChannelNeverCloses(s, k);
    case Expire(k) => PhaseStepValid(s, k, TimedOut);
    case ForgetTimeout(k) => ForgetValid(s, k, Timeout);
    case Line(message, written) => LineValid(s, message, written);
    case ReaderEnds => OtherFieldsValid(s, Apply(s, e));
    case ReaderTakes =>
      TakeAllValid(s);
      OtherFieldsValid(TakeAll(s), Apply(s, e));
    case ReaderAborted => OtherFieldsValid(s, Apply(s, e));
    case ShutdownTakes => TakeAllValid(s);
    case Drain(k) => DrainKeepsValid(s, k);
  }

  // Validity does not look at the reader's phase or the refusals written.
  lemma OtherFieldsValid(s: State, t: State)
    requires Valid(s)
    requires t == s.(reader := t.reader, refusals := t.refusals)
    ensures Valid(t)
  {
    forall j | 0 <= j < |t.requests|
      ensures RequestValid(t, j) && InboxExplained(t, j)
    {
      assert RequestValid(s, j) && InboxExplained(s, j);
      KeepsExplained(s, t, j);
    }
    forall h | 0 <= h < |t.receipts| && t.receipts[h].servedTo.Some?
      ensures Served(t, t.receipts[h].servedTo.value, h)
    {
      assert Served(s, s.receipts[h].servedTo.value, h);
    }
  }

  lemma LineValid(s: State, message: Option<Json>, written: bool)
    requires Valid(s) && s.reader.Reading?
    ensures Valid(Apply(s, Line(message, written)))
  {
    var next := Handle(s, message, written).0;
    if message.Some? && Classify(message.value).Response? {
      DeliverValid(s, Classify(message.value).id, Classify(message.value).result);
    } else {
      OtherFieldsValid(s, next);
    }
    OtherFieldsValid(next, Apply(s, Line(message, written)));
  }

  lemma {:induction false} RequestsGrow(s: State, events: seq<Event>)
    requires Run(s, events).Some?
    ensures |s.requests| <= |Run(s, events).value.requests|
    decreases |events|
  {
    if events != [] {
      RequestsGrow(Apply(s, events[0]), events[1..]);
    }
  }

  lemma {:induction false} RunValid(s: State, events: seq<Event>)
    requires Valid(s) && Numbered(s)
    requires Run(s, events).Some? && |Run(s, events).value.requests| <= ID_COUNT
    ensures Valid(Run(s, events).value)
    decreases |events|
  {
    if events != [] {
      var next := Apply(s, events[0]);
      RequestsGrow(next, events[1..]);
      NumberedStep(s, events[0]);
      StepValid(s, events[0]);
      RunValid(next, events[1..]);
    }
  }

  // ---------------------------------------------------------------------
  // Safety over all interleavings
  // ---------------------------------------------------------------------

  // A state some run reaches before the id counter wraps.
  ghost predicate Reachable(s: State) {
    |s.requests| <= ID_COUNT && exists events :: Run(Init, events) == Some(s)
  }

  lemma ReachableValid(s: State)
    requires Reachable(s)
    ensures Valid(s)
  {
    var events :| Run(Init, events) == Some(s);
    RunValid(Init, events);
  }

  predicate FromServer(reply: Reply) {
    reply.Ok? || reply.error.Server?
  }

  // A request that returned is gone from the table, and a server's answer it
  // returned came from exactly one response: one that bore its own id and was
  // read after it entered the table.
  lemma {:induction false} ReturnedRequests(s: State, k: nat)
    requires Reachable(s) && k < |s.requests| && s.requests[k].phase.Returned?
    ensures s.requests[k].id !in s.pending && k !in s.pending.Values
    ensures FromServer(s.requests[k].phase.outcome) ==>
              exists h: nat ::
                && h < |s.receipts|
                && s.receipts[h] == Receipt(s.requests[k].id, s.requests[k].phase.outcome, Some(k))
                && s.requests[k].since <= h
                && forall g | 0 <= g < |s.receipts| && g != h :: s.receipts[g].servedTo != Some(k)
  {
    ReachableValid(s);
    assert RequestValid(s, k) && InboxExplained(s, k);
    if FromServer(s.requests[k].phase.outcome) {
      var h: nat :| Served(s, k, h);
      assert s.receipts[h] == Receipt(s.requests[k].id, s.requests[k].phase.outcome, Some(k));
    }
  }

  // A request resolves at most once: its outcome survives every further step.
  lemma {:induction false} ResolvesAtMostOnce(s: State, events: seq<Event>, k: nat)
    requires k < |s.requests| && s.requests[k].phase.Returned? && Run(s, events).Some?
    ensures k < |Run(s, events).value.requests|
    ensures Run(s, events).value.requests[k].phase == s.requests[k].phase
    decreases |events|
  {
    if events != [] {
      var next := Apply(s, events[0]);
      assert next.requests[k].phase == s.requests[k].phase;
      ResolvesAtMostOnce(next, events[1..], k);
    }
  }

  predicate GaveUp(s: State, k: nat) {
    k < |s.requests| && s.requests[k].phase in {TimedOut, Returned(Err(Timeout))}
  }

  // Once its deadline has passed a request can only end in a timeout.
  lemma {:induction false} TimeoutIsFinal(s: State, events: seq<Event>, k: nat)
    requires GaveUp(s, k) && Run(s, events).Some?
    ensures GaveUp(Run(s, events).value, k)
    decreases |events|
  {
    if events != [] {
      assert GaveUp(Apply(s, events[0]), k);
      TimeoutIsFinal(Apply(s, events[0]), events[1..], k);
    }
  }

  // A response that arrives after the request under its id timed out reaches
  // nobody: no other request sees it, and once the request has returned it is
  // dropped without any effect on the requests or the table.
  lemma {:induction false} LateResponseReachesNobody(s: State, k: nat, result: Reply)
    requires Reachable(s) && GaveUp(s, k)
    ensures var t := Deliver(s, s.requests[k].id, result);
            && |t.requests| == |s.requests|
            && (forall j | 0 <= j < |s.requests| && j != k :: t.requests[j] == s.requests[j])
            && t.requests[k].phase == s.requests[k].phase
            && (s.requests[k].phase.Returned? ==>
                  t.requests == s.requests && t.pending == s.pending && t.receipts[|s.receipts|].servedTo == None)
  {
    ReachableValid(s);
    assert RequestValid(s, k);
  }

  // ---------------------------------------------------------------------
  // Exit of the reader
  // ---------------------------------------------------------------------

  // Taking the table schedules a failure for every request pending in it, and
  // that failure cannot be lost or overtaken by a server response.
  lemma {:induction false} ExitFailsEveryPendingRequest(s: State, events: seq<Event>, k: nat)
    requires Valid(s) && Numbered(s) && k in s.draining
    requires Run(s, events).Some? && |Run(s, events).value.requests| <= ID_COUNT
    ensures var t := Run(s, events).value;
            && k < |t.requests|
            && (k in t.draining || t.requests[k].inbox == Some(Err(ProcessExited)))
    decreases |events|
  {
    if events != [] {
      var next := Apply(s, events[0]);
      RequestsGrow(next, events[1..]);
      NumberedStep(s, events[0]);
      StepValid(s, events[0]);
      if events[0] == Drain(k) {
        FailedStaysFailed(next, events[1..], k);
      } else {
        assert k in next.draining;
        ExitFailsEveryPendingRequest(next, events[1..], k);
      }
    }
  }

  // A filled inbox keeps its value.
  lemma {:induction false} FailedStaysFailed(s: State, events: seq<Event>, k: nat)
    requires Valid(s) && Numbered(s) && k < |s.requests| && s.requests[k].inbox.Some?
    requires Run(s, events).Some? && |Run(s, events).value.requests| <= ID_COUNT
    ensures var t := Run(s, events).value; k < |t.requests| && t.requests[k].inbox == s.requests[k].inbox
    decreases |events|
  {
    if events != [] {
      var next := Apply(s, events[0]);
      RequestsGrow(next, events[1..]);
      NumberedStep(s, events[0]);
      StepValid(s, events[0]);
      assert next.requests[k].inbox == s.requests[k].inbox;
      FailedStaysFailed(next, events[1..], k);
    }
  }

  lemma {:induction false} TakeAllSchedulesEveryone(s: State)
    requires Reachable(s)
    ensures TakeAll(s).pending == map[] && s.pending.Values <= TakeAll(s).draining && Valid(TakeAll(s))
  {
    ReachableValid(s);
    TakeAllValid(s);
  }

  // With the table empty and every failure delivered, no request hangs.
  lemma {:induction false} NobodyHangs(s: State, k: nat)
    requires Reachable(s) && s.pending == map[] && s.draining == {}
    requires Is(s, k, Waiting)
    ensures Enabled(s, Receive(k))
  {
    ReachableValid(s);
    assert RequestValid(s, k);
  }

  // Nothing is served once the reader has stopped: a request that enters the
  // table later never gets an answer from the server.
  predicate Unanswered(s: State, k: nat) {
    && s.reader.Stopped?
    && (k < |s.requests| ==>
          && (s.requests[k].inbox.Some? ==> !FromServer(s.requests[k].inbox.value))
          && (s.requests[k].phase.Returned? ==> !FromServer(s.requests[k].phase.outcome)))
  }

  lemma {:induction false} NoAnswersAfterReaderStopped(s: State, events: seq<Event>, k: nat)
    requires Unanswered(s, k) && Run(s, events).Some?
    ensures Unanswered(Run(s, events).value, k)
    decreases |events|
  {
    if events != [] {
      assert Unanswered(Apply(s, events[0]), k);
      NoAnswersAfterReaderStopped(Apply(s, events[0]), events[1..], k);
    }
  }

  // ---------------------------------------------------------------------
  // Server-initiated requests
  // ---------------------------------------------------------------------

  // The refusal an event owes: one for a server request whose refusal could be written.
  function RefusalOwed(e: Event): seq<Json> {
    if e.Line? && e.written && e.message.Some? && Classify(e.message.value).ServerRequest?
    then [Refusal(Classify(e.message.value).requestId)] else []
  }

  function RefusalsOwed(events: seq<Event>): seq<Json> {
    if events == [] then [] else RefusalOwed(events[0]) + RefusalsOwed(events[1..])
  }

  lemma RefusalStep(s: State, e: Event)
    requires Enabled(s, e)
    ensures Apply(s, e).refusals == s.refusals + RefusalOwed(e)
  {
    if RefusalOwed(e) == [] {
      assert s.refusals + [] == s.refusals;
      assert Apply(s, e).refusals == s.refusals;
    }
  }

  lemma Associative<T>(xs: seq<T>, ys: seq<T>, zs: seq<T>)
    ensures (xs + ys) + zs == xs + (ys + zs)
  {
  }

  // Every server-initiated request is refused once, in order, under its own id
  // and with the method-not-found code, and nothing else is refused.
  lemma {:induction false} ServerRequestsAreRefused(s: State, events: seq<Event>)
    requires Run(s, events).Some?
    ensures Run(s, events).value.refusals == s.refusals + RefusalsOwed(events)
    decreases |events|
  {
    if events != [] {
      var next := Apply(s, events[0]);
      RefusalStep(s, events[0]);
      ServerRequestsAreRefused(next, events[1..]);
      Associative(s.refusals, RefusalOwed(events[0]), RefusalsOwed(events[1..]));
    } else {
      assert s.refusals + [] == s.refusals;
    }
  }

  // ---------------------------------------------------------------------
  // What a line does, in terms of the fields it carries
  // ---------------------------------------------------------------------

  type Fields = map<string, Json>

  predicate NamesMethod(fields: Fields) { "method" in fields && fields["method"].Str? }

  predicate HasId(fields: Fields, id: nat) { id <= U64_MAX && "id" in fields && fields["id"] == Int(id) }

  // The answer in a line: its result, or the code of its error.
  predicate Carries(fields: Fields, reply: Reply) {
    if "result" in fields then reply == Ok(fields["result"])
    else
      && "error" in fields && fields["error"].Object? && "code" in fields["error"].fields
      && fields["error"].fields["code"].Int?
      && I64_MIN <= fields["error"].fields["code"].n <= I64_MAX
      && reply == Err(Server(fields["error"].fields["code"].n))
  }

  // A response reaches the request pending under its id, and nobody else: its
  // value is in that request's inbox, the id has left the table, and a waiting
  // request can return it at once.
  lemma {:induction false} ResponseIsDelivered(s: State, fields: Fields, id: nat, reply: Reply, written: bool, k: nat)
    requires Reachable(s) && s.reader.Reading?
    requires id in s.pending && s.pending[id] == k
    requires HasId(fields, id) && !NamesMethod(fields) && Carries(fields, reply)
    ensures k < |s.requests|
    ensures var t := Apply(s, Line(Some(Object(fields)), written));
            && t == s.(
                 requests := s.requests[k := s.requests[k].(inbox := Some(reply))],
                 pending := s.pending - {id},
                 receipts := t.receipts)
            && (Is(t, k, Waiting) ==>
                  Enabled(t, Receive(k)) && Apply(t, Receive(k)).requests[k].phase == Returned(reply))
  {
    ReachableValid(s);
    FieldsAreRead(fields, id, reply);
  }

  lemma FieldsAreRead(fields: Fields, id: nat, reply: Reply)
    requires HasId(fields, id) && !NamesMethod(fields) && Carries(fields, reply)
    ensures Classify(Object(fields)) == Response(id, reply)
  {
    assert AsString(Field(Object(fields), "method")).None?;
    assert AsU64(Field(Object(fields), "id")) == Some(id);
    if "result" !in fields {
      assert Field(Object(fields), "result").None?;
      assert Field(fields["error"], "code") == Some(fields["error"].fields["code"]);
    }
  }

  lemma ReachableNumbered(s: State)
    requires Reachable(s)
    ensures Numbered(s)
  {
    var events :| Run(Init, events) == Some(s);
    NumberedRun(Init, events);
  }

  // The value stays there through every continuation, so it is what the request
  // returns, unless its write fails or its deadline passes first.
  lemma {:induction false} AnswerIsWhatReturns(s: State, fields: Fields, id: nat, reply: Reply, written: bool, k: nat,
                                               events: seq<Event>)
    requires Reachable(s) && s.reader.Reading?
    requires id in s.pending && s.pending[id] == k
    requires HasId(fields, id) && !NamesMethod(fields) && Carries(fields, reply)
    requires var t := Apply(s, Line(Some(Object(fields)), written));
             Run(t, events).Some? && |Run(t, events).value.requests| <= ID_COUNT
    ensures var t := Run(Apply(s, Line(Some(Object(fields)), written)), events).value;
            && k < |t.requests| && t.requests[k].inbox == Some(reply)
            && (t.requests[k].phase.Returned? ==>
                  t.requests[k].phase.outcome in {reply, Err(Timeout), Err(WriteError)})
  {
    var line := Line(Some(Object(fields)), written);
    var t := Apply(s, line);
    ResponseIsDelivered(s, fields, id, reply, written, k);
    ReachableValid(s);
    ReachableNumbered(s);
    hide Deliver, Classify, HasId, Carries, NamesMethod;
    NumberedStep(s, line);
    RequestsGrow(t, events);
    StepValid(s, line);
    FailedStaysFailed(t, events, k);
    RunValid(t, events);
    assert RequestValid(Run(t, events).value, k);
  }

  // The other lines: a server request is refused under its own id when the
  // refusal can be written, a notification changes nothing, a response nobody
  // waits for is only noted, and anything else ends the reader.
  lemma {:induction false} OtherLinesDo(s: State, fields: Fields, written: bool)
    requires s.reader.Reading?
    ensures var t := Apply(s, Line(Some(Object(fields)), written));
            if NamesMethod(fields) then
              t == s.(refusals := s.refusals + if "id" in fields && written then [Refusal(fields["id"])] else [])
            else if forall id, reply :: !(HasId(fields, id) && Carries(fields, reply)) then t == s.(reader := Ending)
            else (forall id | HasId(fields, id) :: id !in s.pending) ==> t == s.(receipts := t.receipts)
    ensures Apply(s, Line(None, written)) == s.(reader := Ending)
  {
    var message := Object(fields);
    if NamesMethod(fields) {
      assert Field(message, "method") == Some(fields["method"]);
      assert Field(message, "id").Some? <==> "id" in fields;
    } else {
      assert AsString(Field(message, "method")).None?;
      if Classify(message).Response? {
        ResponseFields(fields);
      } else if id, reply :| HasId(fields, id) && Carries(fields, reply) {
        FieldsAreRead(fields, id, reply);
      }
    }
  }

  lemma ResponseFields(fields: Fields)
    requires Classify(Object(fields)).Response?
    ensures !NamesMethod(fields)
    ensures HasId(fields, Classify(Object(fields)).id) && Carries(fields, Classify(Object(fields)).result)
  {
  }

  // A request that is registered, written and then answered returns the answer.
  lemma {:induction false} RoundTrip(s: State, k: nat, fields: Fields, reply: Reply, written: bool)
    requires Reachable(s) && s.reader.Reading? && Is(s, k, Created)
    requires HasId(fields, s.requests[k].id) && !NamesMethod(fields) && Carries(fields, reply)
    ensures var t := Run(s, [Register(k), WriteDone(k), Line(Some(Object(fields)), written), Receive(k)]);
            && t.Some? && k < |t.value.requests|
            && t.value.requests[k].phase == Returned(reply) && s.requests[k].id !in t.value.pending
  {
    var line := Line(Some(Object(fields)), written);
    FieldsAreRead(fields, s.requests[k].id, reply);
    hide Classify;
    var s2 := Apply(Apply(s, Register(k)), WriteDone(k));
    var s3 := Apply(s2, line);
    assert Is(s3, k, Waiting) && s3.requests[k].inbox == Some(reply);
    FourSteps(s, Register(k), WriteDone(k), line, Receive(k));
  }

  // One whose write fails returns that failure, and leaves the table.
  lemma {:induction false} FailedWriteReturns(s: State, k: nat)
    requires Is(s, k, Created)
    ensures var t := Run(s, [Register(k), WriteFail(k), ForgetWrite(k)]);
            && t.Some? && k < |t.value.requests|
            && t.value.requests[k].phase == Returned(Err(WriteError)) && s.requests[k].id !in t.value.pending
  {
    var s1 := Apply(s, Register(k));
    var s2 := Apply(s1, WriteFail(k));
    var s3 := Apply(s2, ForgetWrite(k));
    RunCons(s, Register(k), [WriteFail(k), ForgetWrite(k)]);
    RunCons(s1, WriteFail(k), [ForgetWrite(k)]);
    RunCons(s2, ForgetWrite(k), []);
    assert [Register(k)] + [WriteFail(k), ForgetWrite(k)] == [Register(k), WriteFail(k), ForgetWrite(k)];
    assert [WriteFail(k)] + [ForgetWrite(k)] == [WriteFail(k), ForgetWrite(k)];
    assert [ForgetWrite(k)] + [] == [ForgetWrite(k)];
    RunNothing(s3);
  }

  lemma FourSteps(s: State, a: Event, b: Event, c: Event, d: Event)
    requires Enabled(s, a) && Enabled(Apply(s, a), b) && Enabled(Apply(Apply(s, a), b), c)
    requires Enabled(Apply(Apply(Apply(s, a), b), c), d)
    ensures Run(s, [a, b, c, d]) == Some(Apply(Apply(Apply(Apply(s, a), b), c), d))
  {
    hide Apply, Enabled, Run;
    var s1 := Apply(s, a);
    var s2 := Apply(s1, b);
    var s3 := Apply(s2, c);
    assert [a, b, c, d] == [a] + [b, c, d] && [b, c, d] == [b] + [c, d] && [c, d] == [c] + [d] && [d] == [d] + [];
    RunCons(s, a, [b, c, d]);
    RunCons(s1, b, [c, d]);
    RunCons(s2, c, [d]);
    RunCons(s3, d, []);
    RunNothing(Apply(s3, d));
  }

  lemma RunNothing(s: State)
    ensures Run(s, []) == Some(s)
  {
  }
}
