/**
 Tool executions over the run store: one execution from its checks to its
 closing save, and any number of them interleaved step by step.
 */
module RunExecutions {
  import opened Wrappers
  import opened RunStore

  datatype Tool = Tool(id: string, version: string, ruleSetVersion: string)

  // What a caller asks for. `wellFormed`: the ids parse and the tool is known;
  // `objects`: input and settings are objects.
  datatype Request = Request(
    id: string,
    project: string,
    source: string,
    tool: Tool,
    appVersion: string,
    wellFormed: bool,
    objects: bool
  )

  // What the engine did; an output that does not parse is None.
  datatype EngineResult = Finished(output: Option<Output>) | EngineFailed | EngineCancelled

  datatype RunError = InvalidInput | StoreFailed | ToolCancelled | ToolFailed

  type Answer = Result<Run, RunError>

  // Failures before the run id is taken: the query of the source, its managed
  // file, the query of the run.
  datatype Faults = Faults(findSource: bool, resolveFile: bool, findRun: bool)

  const NO_FAULTS := Faults(false, false, false)

  // ---------------------------------------------------------------------
  // One execution
  // ---------------------------------------------------------------------

  predicate SourceFits(tables: Tables, request: Request) {
    && request.source in tables.sources
    && tables.sources[request.source].project == request.project
    && tables.sources[request.source].tool == request.tool.id
  }

  // Why a request is refused before its id is taken.
  function Refusal(tables: Tables, request: Request, faults: Faults): Option<RunError> {
    if !request.wellFormed then Some(InvalidInput)
    else if faults.findSource then Some(StoreFailed)
    else if !SourceFits(tables, request) then Some(InvalidInput)
    else if faults.resolveFile then Some(StoreFailed)
    else if !request.objects then Some(InvalidInput)
    else if faults.findRun then Some(StoreFailed)
    else if request.id in tables.runs then Some(InvalidInput)
    else None
  }

  function Opening(request: Request, startedAt: nat): Run {
    var tool := request.tool;
    var identity :=
      Identity(request.project, request.source, tool.id, tool.version, tool.ruleSetVersion, request.appVersion);
    Run(request.id, identity, Running, startedAt, None, None)
  }

  function EndStatus(ruleSetVersion: string, engine: EngineResult): Status {
    match engine
    case EngineCancelled => Cancelled
    case EngineFailed => Failed
    case Finished(output) =>
      if output.Some? && output.value.ruleSetVersion == ruleSetVersion then Completed else Failed
  }

  // The run as the closing save has it.
  function Ended(running: Run, engine: EngineResult, finishedAt: nat): Run {
    var status := EndStatus(running.identity.ruleSetVersion, engine);
    running.(
      status := status,
      finishedAt := Some(finishedAt),
      diagnostics := if status == Completed then Some(engine.output.value.diagnostics) else None
    )
  }

  function Closing(running: Run, engine: EngineResult, finishedAt: nat): Transaction {
    var ended := Ended(running, engine, finishedAt);
    if ended.status == Completed then SaveOutput(ended, engine.output.value.findings, engine.output.value)
    else Save(ended)
  }

  // What the caller is told once the closing save has succeeded or not.
  function Report(ended: Run, saved: bool): Answer {
    if !saved then Err(StoreFailed)
    else if ended.status == Completed then Ok(ended)
    else Err(if ended.status == Cancelled then ToolCancelled else ToolFailed)
  }

  function Accepted(tables: Tables, transaction: Transaction, fails: bool): bool {
    !fails && Committed(tables, transaction).Ok?
  }

  // The tables and the answer after one execution that nothing interrupts.
  function Executed(tables: Tables, active: set<string>, request: Request, engine: EngineResult,
                    startedAt: nat, finishedAt: nat, faults: Faults, openFails: bool, closeFails: bool)
    : (Tables, Answer)
  {
    var refusal := Refusal(tables, request, faults);
    var running := Opening(request, startedAt);
    if refusal.Some? then (tables, Err(refusal.value))
    else if request.id in active then (tables, Err(InvalidInput))
    else if !Accepted(tables, Save(running), openFails) then (tables, Err(StoreFailed))
    else
      var begun := Step(tables, Save(running), openFails);
      var closing := Closing(running, engine, finishedAt);
      (Step(begun, closing, closeFails), Report(closing.run, Accepted(begun, closing, closeFails)))
  }

  class Executor {
    const database: Database
    var active: set<string>

    constructor (database: Database)
      ensures this.database == database && active == {}
    {
      this.database := database;
      active := {};
    }

    // The closing save, after the engine has returned.
    method CloseRun(running: Run, engine: EngineResult, finishedAt: nat, fails: bool) returns (r: Answer)
      modifies database
      ensures var before, closing := old(database.Contents()), Closing(running, engine, finishedAt);
              && database.Contents() == Step(before, closing, fails)
              && r == Report(closing.run, Accepted(before, closing, fails))
    {
      hide Committed, Step;
      if engine.EngineCancelled? || engine.EngineFailed? {
        var status := if engine.EngineCancelled? then Cancelled else Failed;
        r := CloseUnfinished(running, status, finishedAt, fails);
        return;
      }
      if engine.output.None? || engine.output.value.ruleSetVersion != running.identity.ruleSetVersion {
        r := CloseUnfinished(running, Failed, finishedAt, fails);
        return;
      }
      var output := engine.output.value;
      var completed :=
        running.(status := Completed, finishedAt := Some(finishedAt), diagnostics := Some(output.diagnostics));
      var saved := database.SaveAggregate(completed, output.findings, Some(output), fails);
      r := if saved.Err? then Err(StoreFailed) else Ok(completed);
    }

    method CloseUnfinished(running: Run, status: Status, finishedAt: nat, fails: bool) returns (r: Answer)
      requires status == Failed || status == Cancelled
      modifies database
      ensures var ended := running.(status := status, finishedAt := Some(finishedAt), diagnostics := None);
              && database.Contents() == Step(old(database.Contents()), Save(ended), fails)
              && r == Report(ended, Accepted(old(database.Contents()), Save(ended), fails))
    {
      hide Committed, Step;
      var saved :=
        database.SaveRun(running.(status := status, finishedAt := Some(finishedAt), diagnostics := None), fails);
      r := Err(if saved.Err? then StoreFailed else if status == Cancelled then ToolCancelled else ToolFailed);
    }

    method ExecuteToolRun(request: Request, engine: EngineResult, startedAt: nat, finishedAt: nat,
                          faults: Faults, openFails: bool, closeFails: bool)
      returns (r: Answer)
      modifies this, database
      ensures active == old(active)
      ensures (database.Contents(), r) ==
              Executed(old(database.Contents()), old(active), request, engine, startedAt, finishedAt,
                       faults, openFails, closeFails)
    {
      hide Committed, Step, Closing, Report;
      if !request.wellFormed {
        return Err(InvalidInput);
      }
      if faults.findSource {
        return Err(StoreFailed);
      }
      if request.source !in database.sources {
        return Err(InvalidInput);
      }
      var revision := database.sources[request.source];
      if revision.project != request.project || revision.tool != request.tool.id {
        return Err(InvalidInput);
      }
      if faults.resolveFile {
        return Err(StoreFailed);
      }
      if !request.objects {
        return Err(InvalidInput);
      }
      if faults.findRun {
        return Err(StoreFailed);
      }
      if request.id in database.runs || request.id in active {
        return Err(InvalidInput);
      }
      active := active + {request.id};
      var running := Opening(request, startedAt);
      var begun := database.SaveRun(running, openFails);
      if begun.Err? {
        RejectedStep(old(database.Contents()), Save(running), openFails);
        active := active - {request.id};
        return Err(StoreFailed);
      }
      r := CloseRun(running, engine, finishedAt, closeFails);
      active := active - {request.id};
    }
  }

  lemma RejectedStep(tables: Tables, transaction: Transaction, fails: bool)
    requires !Accepted(tables, transaction, fails)
    ensures Step(tables, transaction, fails) == tables
  {
  }

  // ---------------------------------------------------------------------
  // When an execution starts, succeeds, fails, or leaves its run running
  // ---------------------------------------------------------------------

  // Nothing speaks against starting: the request is in order, its source is the
  // project's and the tool's, and its id is neither stored nor in use.
  predicate Admitted(tables: Tables, active: set<string>, request: Request) {
    && request.wellFormed && request.objects
    && request.source in tables.sources
    && tables.sources[request.source].project == request.project
    && tables.sources[request.source].tool == request.tool.id
    && request.id !in tables.runs && request.id !in active
  }

  predicate Begins(tables: Tables, active: set<string>, request: Request, faults: Faults, openFails: bool) {
    Admitted(tables, active, request) && faults == NO_FAULTS && !openFails
  }

  // The engine's result can be stored as what it is.
  predicate Storable(tables: Tables, running: Run, engine: EngineResult) {
    EndStatus(running.identity.ruleSetVersion, engine) == Completed ==>
      Acceptable(tables.findings, running, engine.output.value.findings)
  }

  lemma OpeningAccepted(tables: Tables, request: Request, startedAt: nat)
    requires SourceFits(tables, request) && request.id !in tables.runs
    ensures Committed(tables, Save(Opening(request, startedAt))) ==
            Ok(tables.(runs := tables.runs[request.id := Opening(request, startedAt)]))
  {
  }

  // A closing save of the stored run is refused only for its findings.
  lemma {:induction false} ClosingAcceptedIff(tables: Tables, running: Run, engine: EngineResult, finishedAt: nat,
                                              fails: bool)
    requires RelationshipsHold(tables, running)
    ensures Accepted(tables, Closing(running, engine, finishedAt), fails) <==>
            !fails && Storable(tables, running, engine)
  {
    hide Committed, Inserted;
    var closing := Closing(running, engine, finishedAt);
    CommittedIff(tables, closing);
    if closing.SaveOutput? {
      SameAcceptable(tables.findings, running, closing.run, closing.findings);
    }
  }

  lemma SameAcceptable(table: map<string, Finding>, a: Run, b: Run, findings: seq<Finding>)
    requires a.id == b.id && a.identity == b.identity
    ensures Acceptable(table, a, findings) <==> Acceptable(table, b, findings)
  {
    assert forall i | 0 <= i < |findings| :: FindingMatches(a, findings[i]) <==> FindingMatches(b, findings[i]);
  }

  lemma {:induction false} OutcomeByStatus(tables: Tables, active: set<string>, request: Request, engine: EngineResult,
                                           startedAt: nat, finishedAt: nat, faults: Faults, openFails: bool,
                                           closeFails: bool)
    ensures var (after, answer) :=
              Executed(tables, active, request, engine, startedAt, finishedAt, faults, openFails, closeFails);
            var running := Opening(request, startedAt);
            var begins := Begins(tables, active, request, faults, openFails);
            var status := EndStatus(request.tool.ruleSetVersion, engine);
            var closes := !closeFails && Storable(tables, running, engine);
            && (answer.Ok? <==> begins && closes && status == Completed)
            && (answer == Err(ToolFailed) <==> begins && closes && status == Failed)
            && (answer == Err(ToolCancelled) <==> begins && closes && status == Cancelled)
            && (answer == Err(InvalidInput) ==> !Admitted(tables, active, request))
            && (faults == NO_FAULTS && !Admitted(tables, active, request) ==> answer == Err(InvalidInput))
            && (!begins ==> after == tables)
            && (begins ==>
                  && after.runs ==
                     tables.runs[request.id := if closes then Ended(running, engine, finishedAt) else running]
                  && (after.runs[request.id].status == Running <==> !closes)
                  && (!closes ==> answer == Err(StoreFailed)))
            && (!answer.Ok? ==> after.findings == tables.findings && after.outputs == tables.outputs)
            && (answer.Ok? ==> answer.value == Ended(running, engine, finishedAt))
  {
    hide Committed, Acceptable, FindingsMatch, Inserted;
    if Refusal(tables, request, faults).None? && request.id !in active && !openFails {
      var running, closing := Opening(request, startedAt), Closing(Opening(request, startedAt), engine, finishedAt);
      OpeningAccepted(tables, request, startedAt);
      var begun := Step(tables, Save(running), openFails);
      ClosingAcceptedIff(begun, running, engine, finishedAt, closeFails);
      ClosingEffect(begun, running, engine, finishedAt, closeFails);
    }
  }

  // The engine's output is the tool's own kind.
  predicate Completes(request: Request, engine: EngineResult) {
    engine.Finished? && engine.output.Some? && engine.output.value.ruleSetVersion == request.tool.ruleSetVersion
  }

  // The findings are the run's, with distinct ids that no other run's have.
  predicate AreOwn(table: map<string, Finding>, request: Request, findings: seq<Finding>) {
    && (forall i | 0 <= i < |findings| ::
          && findings[i].run == request.id
          && findings[i].project == request.project
          && findings[i].source == request.source
          && findings[i].ruleSetVersion == request.tool.ruleSetVersion)
    && (forall i, j | 0 <= i < j < |findings| :: findings[i].id != findings[j].id)
    && forall i | 0 <= i < |findings| && findings[i].id in table :: table[findings[i].id].run == request.id
  }

  lemma AreOwnIsAcceptable(table: map<string, Finding>, request: Request, startedAt: nat, findings: seq<Finding>)
    ensures Acceptable(table, Opening(request, startedAt), findings) <==> AreOwn(table, request, findings)
  {
  }

  // The answer and the stored run, in terms of what the caller asked, what the
  // store held, what the engine did and what failed.
  lemma {:induction false} ExecutionOutcome(tables: Tables, active: set<string>, request: Request, engine: EngineResult,
                                            startedAt: nat, finishedAt: nat, faults: Faults, openFails: bool,
                                            closeFails: bool)
    ensures var (after, answer) :=
              Executed(tables, active, request, engine, startedAt, finishedAt, faults, openFails, closeFails);
            var tool := request.tool;
            var identity := Identity(request.project, request.source, tool.id, tool.version, tool.ruleSetVersion,
                                     request.appVersion);
            var starts := Begins(tables, active, request, faults, openFails);
            var completes := Completes(request, engine);
            var closes := !closeFails && (completes ==> AreOwn(tables.findings, request, engine.output.value.findings));
            var status := if !closes then Running else if completes then Completed
                          else if engine.EngineCancelled? then Cancelled else Failed;
            && (answer.Ok? <==> starts && closes && completes)
            && (answer == Err(ToolCancelled) <==> starts && closes && engine.EngineCancelled?)
            && (answer == Err(ToolFailed) <==> starts && closes && !engine.EngineCancelled? && !completes)
            && (answer == Err(InvalidInput) ==> !Admitted(tables, active, request))
            && (faults == NO_FAULTS && !Admitted(tables, active, request) ==> answer == Err(InvalidInput))
            && (!starts ==> after == tables)
            && (starts ==>
                  && after.runs == tables.runs[request.id := Run(
                       request.id, identity, status, startedAt,
                       if closes then Some(finishedAt) else None,
                       if status == Completed then Some(engine.output.value.diagnostics) else None)]
                  && (!closes ==> answer == Err(StoreFailed)))
            && (answer.Ok? ==> answer.value == after.runs[request.id])
            && (!answer.Ok? ==> after.findings == tables.findings && after.outputs == tables.outputs)
  {
    hide Executed, Acceptable, Storable;
    OutcomeByStatus(tables, active, request, engine, startedAt, finishedAt, faults, openFails, closeFails);
    if Completes(request, engine) {
      AreOwnIsAcceptable(tables.findings, request, startedAt, engine.output.value.findings);
    }
    StorableMeans(tables, request, engine, startedAt);
  }

  lemma StorableMeans(tables: Tables, request: Request, engine: EngineResult, startedAt: nat)
    ensures Storable(tables, Opening(request, startedAt), engine) <==>
            (Completes(request, engine) ==>
               Acceptable(tables.findings, Opening(request, startedAt), engine.output.value.findings))
  {
    hide Acceptable;
  }

  lemma ClosingEffect(tables: Tables, running: Run, engine: EngineResult, finishedAt: nat, fails: bool)
    requires running.id in tables.runs && tables.runs[running.id] == running
    ensures var closing := Closing(running, engine, finishedAt);
            var after := Step(tables, closing, fails);
            && (!Accepted(tables, closing, fails) ==> after == tables)
            && (Accepted(tables, closing, fails) ==> after.runs == tables.runs[running.id := closing.run])
            && (closing.Save? ==> after.findings == tables.findings && after.outputs == tables.outputs)
            && (Accepted(tables, closing, fails) && closing.SaveOutput? ==>
                  && after.outputs == tables.outputs[running.id := closing.output]
                  && Inserted(DeletedByRun(tables.findings, running.id), closing.findings) == Some(after.findings))
  {
    hide Inserted, FindingsMatch, RelationshipsHold;
  }

  // A success stores its output and exactly its output's findings; the other
  // runs keep theirs.
  lemma {:induction false} SuccessStores(tables: Tables, active: set<string>, request: Request, engine: EngineResult,
                                         startedAt: nat, finishedAt: nat, faults: Faults, openFails: bool,
                                         closeFails: bool, other: string)
    requires Executed(tables, active, request, engine, startedAt, finishedAt, faults, openFails, closeFails).1.Ok?
    ensures var after :=
            Executed(tables, active, request, engine, startedAt, finishedAt, faults, openFails, closeFails).0;
            var output := engine.output.value;
            && after.outputs == tables.outputs[request.id := output]
            && FindingsOf(after, other) ==
               (if other == request.id then ElementsOf(output.findings) else FindingsOf(tables, other))
  {
    hide Inserted, FindingsMatch, DeletedByRun, FindingsOf, ElementsOf, RelationshipsHold, Upserted;
    var running := Opening(request, startedAt);
    var begun := Step(tables, Save(running), openFails);
    var closing := Closing(running, engine, finishedAt);
    ReplacedFindings(begun, closing.run, closing.findings, other);
    var after := Step(begun, closing, closeFails);
    SameFindings(begun.(findings := after.findings), after, other);
    SameFindings(begun, tables, other);
  }

  // ---------------------------------------------------------------------
  // Executions interleaved
  // ---------------------------------------------------------------------

  datatype Phase = Requested | Checked | Activated | Begun | Closed | Returned

  // One execution in progress, with the times of its steps.
  datatype Execution = Execution(
    request: Request,
    phase: Phase,
    running: Option<Run>,
    answer: Option<Answer>,
    checkedAt: Option<nat>,
    activatedAt: Option<nat>,
    begunAt: Option<nat>,
    releasedAt: Option<nat>
  )

  // `reopened` records the ids of runs that were completed and then were not.
  datatype State = State(
    tables: Tables,
    active: set<string>,
    executions: seq<Execution>,
    clock: nat,
    reopened: set<string>
  )

  datatype Event =
    | Arrive(request: Request)
    | Check(k: nat, faults: Faults)
    | Activate(k: nat)
    | Begin(k: nat, startedAt: nat, fails: bool)
    | Close(k: nat, engine: EngineResult, finishedAt: nat, fails: bool)
    | Release(k: nat)

  predicate IsCompleted(tables: Tables, id: string) {
    id in tables.runs && tables.runs[id].status == Completed
  }

  function Lost(before: Tables, after: Tables): set<string> {
    set id | id in before.runs && IsCompleted(before, id) && !IsCompleted(after, id)
  }

  // A transaction on the store.
  function Stored(s: State, transaction: Transaction, fails: bool): State {
    var after := Step(s.tables, transaction, fails);
    s.(tables := after, reopened := s.reopened + Lost(s.tables, after))
  }

  function Updated(s: State, k: nat, e: Execution): State
    requires k < |s.executions|
  {
    s.(executions := s.executions[k := e], clock := s.clock + 1)
  }

  // The check reads the store; a refused execution returns.
  function CheckStep(s: State, e: Execution, faults: Faults): Execution {
    var refusal := Refusal(s.tables, e.request, faults);
    if refusal.Some? then e.(phase := Returned, answer := Some(Err(refusal.value)))
    else e.(phase := Checked, checkedAt := Some(s.clock))
  }

  // An execution whose turn it is not stays where it is.
  function Next(s: State, event: Event): State {
    if event.Arrive? then
      var e := Execution(event.request, Requested, None, None, None, None, None, None);
      s.(executions := s.executions + [e], clock := s.clock + 1)
    else if event.k >= |s.executions| then s
    else
      var k, e := event.k, s.executions[event.k];
      var id := e.request.id;
      match event
      case Check(_, faults) =>
        if e.phase != Requested then s else Updated(s, k, CheckStep(s, e, faults))
      case Activate(_) =>
        if e.phase != Checked then s
        else if id in s.active then Updated(s, k, e.(phase := Returned, answer := Some(Err(InvalidInput))))
        else Updated(s.(active := s.active + {id}), k, e.(phase := Activated, activatedAt := Some(s.clock)))
      case Begin(_, startedAt, fails) =>
        var running := Opening(e.request, startedAt);
        if e.phase != Activated then s
        else if !Accepted(s.tables, Save(running), fails) then
          Updated(s, k, e.(phase := Closed, answer := Some(Err(StoreFailed))))
        else
          Updated(Stored(s, Save(running), fails), k,
                  e.(phase := Begun, running := Some(running), begunAt := Some(s.clock)))
      case Close(_, engine, finishedAt, fails) =>
        if e.phase != Begun || e.running.None? then s
        else
          var closing := Closing(e.running.value, engine, finishedAt);
          var answer := Report(closing.run, Accepted(s.tables, closing, fails));
          Updated(Stored(s, closing, fails), k, e.(phase := Closed, answer := Some(answer)))
      case Release(_) =>
        if e.phase != Closed then s
        else Updated(s.(active := s.active - {id}), k, e.(phase := Returned, releasedAt := Some(s.clock)))
  }

  function Ran(s: State, events: seq<Event>): State {
    if events == [] then s else Next(Ran(s, events[..|events| - 1]), events[|events| - 1])
  }

  function Idle(tables: Tables): State { State(tables, {}, [], 0, {}) }

  predicate Succeeded(e: Execution) { e.answer.Some? && e.answer.value.Ok? }

  // `late` passed its check before `early` saved its run, and took the id after
  // `early` had completed the run and given the id back.
  predicate Overtakes(late: Execution, early: Execution) {
    && late.request.id == early.request.id
    && late.begunAt.Some? && late.checkedAt.Some? && late.activatedAt.Some?
    && Succeeded(early) && early.begunAt.Some? && early.releasedAt.Some?
    && late.checkedAt.value < early.begunAt.value
    && early.releasedAt.value < late.activatedAt.value
  }

  ghost predicate Overtaken(executions: seq<Execution>, id: string) {
    exists j, k | 0 <= j < |executions| && 0 <= k < |executions| ::
      executions[j].request.id == id && Overtakes(executions[k], executions[j])
  }

  // ---------------------------------------------------------------------
  // What every interleaving keeps
  // ---------------------------------------------------------------------

  predicate Holds(e: Execution) { e.phase == Activated || e.phase == Begun || e.phase == Closed }

  predicate Before(time: Option<nat>, clock: nat) { time.Some? ==> time.value < clock }

  // The times of an execution fit its phase and follow one another.
  predicate Stamped(e: Execution, clock: nat) {
    && Before(e.checkedAt, clock) && Before(e.activatedAt, clock)
    && Before(e.begunAt, clock) && Before(e.releasedAt, clock)
    && (e.phase == Requested ==> e.checkedAt.None?)
    && (e.phase == Requested || e.phase == Checked ==> e.activatedAt.None?)
    && (e.phase == Checked ==> e.checkedAt.Some?)
    && (Holds(e) ==> e.activatedAt.Some? && e.releasedAt.None?)
    && (e.phase == Activated ==> e.begunAt.None?)
    && (e.phase == Begun ==>
          e.begunAt.Some? && e.running.Some? && e.running.value.id == e.request.id && e.running.value.status == Running)
    && (e.phase != Closed && e.phase != Returned ==> e.answer.None?)
    && (e.phase == Returned && e.activatedAt.Some? ==> e.releasedAt.Some?)
    && (e.activatedAt.None? ==> e.releasedAt.None? && e.begunAt.None?)
    && (Succeeded(e) ==> e.begunAt.Some?)
    && (e.activatedAt.Some? ==> e.checkedAt.Some? && e.checkedAt.value < e.activatedAt.value)
    && (e.begunAt.Some? ==> e.activatedAt.Some? && e.activatedAt.value < e.begunAt.value)
    && (e.releasedAt.Some? && e.begunAt.Some? ==> e.begunAt.value < e.releasedAt.value)
  }

  // The store and the active set as the execution may rely on them.
  predicate Placed(s: State, e: Execution) {
    var id := e.request.id;
    && (Holds(e) ==> id in s.active)
    && (e.begunAt.Some? ==> id in s.tables.runs)
    && (e.phase == Begun ==> id in s.tables.runs && s.tables.runs[id].status == Running)
    && (Succeeded(e) ==> IsCompleted(s.tables, id) || id in s.reopened)
  }

  predicate Released(a: Execution, b: Execution) {
    a.releasedAt.Some? && b.activatedAt.Some? && a.releasedAt.value < b.activatedAt.value
  }

  // Two executions of one id hold it one after the other, and each passed its
  // check before the other saved its run.
  predicate Apart(a: Execution, b: Execution) {
    a.request.id == b.request.id ==>
      && (a.activatedAt.Some? && b.activatedAt.Some? ==> Released(a, b) || Released(b, a))
      && (a.checkedAt.Some? && b.begunAt.Some? ==> a.checkedAt.value < b.begunAt.value)
      && (b.checkedAt.Some? && a.begunAt.Some? ==> b.checkedAt.value < a.begunAt.value)
  }

  // Runs stored before the first execution are never checked free.
  predicate Known(before: Tables, e: Execution) {
    e.request.id in before.runs ==> e.checkedAt.None?
  }

  ghost predicate Explained(before: Tables, s: State, id: string) {
    IsCompleted(s.tables, id) ==>
      || id in before.runs
      || exists j | 0 <= j < |s.executions| :: s.executions[j].request.id == id && Succeeded(s.executions[j])
  }

  ghost predicate Valid(before: Tables, s: State) {
    && before.runs.Keys <= s.tables.runs.Keys
    && (forall j | 0 <= j < |s.executions| ::
          Stamped(s.executions[j], s.clock) && Placed(s, s.executions[j]) && Known(before, s.executions[j]))
    && (forall j, k | 0 <= j < |s.executions| && 0 <= k < |s.executions| && j != k ::
          Apart(s.executions[j], s.executions[k]))
    && (forall id :: Explained(before, s, id))
    && (forall id :: id in s.reopened <==> Overtaken(s.executions, id))
  }

  // An execution that has moved on leaves everybody else's facts in place.
  ghost predicate Moves(before: Tables, s: State, t: State, k: nat, e: Execution) {
    && k < |s.executions| && t.executions == s.executions[k := e]
    && t.clock == s.clock + 1
    && s.tables.runs.Keys <= t.tables.runs.Keys
    && Stamped(e, t.clock) && Placed(t, e) && Known(before, e)
    && e.request == s.executions[k].request
    && (Succeeded(s.executions[k]) ==> Succeeded(e))
    && (forall j | 0 <= j < |s.executions| && j != k :: Placed(t, s.executions[j]) && Apart(s.executions[j], e))
    && (forall id | IsCompleted(t.tables, id) ::
          IsCompleted(s.tables, id) || (id == e.request.id && Succeeded(e)))
  }

  lemma MovesKeeps(before: Tables, s: State, t: State, k: nat, e: Execution)
    requires Valid(before, s) && Moves(before, s, t, k, e)
    requires forall id :: id in t.reopened <==> Overtaken(t.executions, id)
    ensures Valid(before, t)
  {
    hide Stamped, Placed, Apart, Overtaken, IsCompleted, Succeeded, Known;
    forall j | 0 <= j < |t.executions|
      ensures Stamped(t.executions[j], t.clock) && Placed(t, t.executions[j]) && Known(before, t.executions[j])
    {
      if j != k {
        LaterStamp(s.executions[j], s.clock);
      }
    }
    forall i, j | 0 <= i < |t.executions| && 0 <= j < |t.executions| && i != j
      ensures Apart(t.executions[i], t.executions[j])
    {
      if i == k {
        ApartSymmetric(t.executions[j], e);
      }
    }
    forall id
      ensures Explained(before, t, id)
    {
      assert Explained(before, s, id);
      if IsCompleted(t.tables, id) && id !in before.runs {
        if IsCompleted(s.tables, id) {
          var j :| 0 <= j < |s.executions| && s.executions[j].request.id == id && Succeeded(s.executions[j]);
          assert t.executions[j].request.id == id && Succeeded(t.executions[j]);
        } else {
          assert t.executions[k] == e;
        }
      }
    }
  }

  lemma LaterStamp(e: Execution, clock: nat)
    requires Stamped(e, clock)
    ensures Stamped(e, clock + 1)
  {
  }

  lemma ApartSymmetric(a: Execution, b: Execution)
    requires Apart(a, b)
    ensures Apart(b, a)
  {
  }

  // Nobody overtakes anybody else by a step other than a begin.
  lemma OvertakenKept(executions: seq<Execution>, k: nat, e: Execution, id: string)
    requires k < |executions|
    requires forall j | 0 <= j < |executions| && j != k ::
               && (Overtakes(executions[j], e) <==> Overtakes(executions[j], executions[k]))
               && (Overtakes(e, executions[j]) <==> Overtakes(executions[k], executions[j]))
    requires Overtakes(e, e) <==> Overtakes(executions[k], executions[k])
    requires e.request.id == executions[k].request.id
    ensures Overtaken(executions[k := e], id) <==> Overtaken(executions, id)
  {
    hide Overtakes;
    var after := executions[k := e];
    if i, j :| 0 <= i < |after| && 0 <= j < |after| && after[i].request.id == id && Overtakes(after[j], after[i]) {
      assert executions[i].request.id == id && Overtakes(executions[j], executions[i]);
    }
    if i, j :| 0 <= i < |after| && 0 <= j < |after|
               && executions[i].request.id == id && Overtakes(executions[j], executions[i]) {
      assert after[i].request.id == id && Overtakes(after[j], after[i]);
    }
  }

  lemma ArriveKeeps(before: Tables, s: State, request: Request)
    requires Valid(before, s)
    ensures Valid(before, Next(s, Arrive(request)))
  {
    hide Overtakes, Overtaken, IsCompleted;
    var t := Next(s, Arrive(request));
    var n := |s.executions|;
    forall id
      ensures Explained(before, t, id) && (id in t.reopened <==> Overtaken(t.executions, id))
    {
      assert Explained(before, s, id);
      if IsCompleted(t.tables, id) && id !in before.runs {
        var j :| 0 <= j < |s.executions| && s.executions[j].request.id == id && Succeeded(s.executions[j]);
        assert t.executions[j] == s.executions[j];
      }
      FreshOvertakesNobody(s.executions, t.executions[n], id);
    }
  }

  lemma FreshOvertakesNobody(executions: seq<Execution>, e: Execution, id: string)
    requires e.begunAt.None?
    ensures Overtaken(executions + [e], id) <==> Overtaken(executions, id)
  {
    var after := executions + [e];
    if i, j :| 0 <= i < |after| && 0 <= j < |after| && after[i].request.id == id && Overtakes(after[j], after[i]) {
      assert executions[i].request.id == id && Overtakes(executions[j], executions[i]);
    }
    if i, j :| 0 <= i < |executions| && 0 <= j < |executions|
               && executions[i].request.id == id && Overtakes(executions[j], executions[i]) {
      assert after[i].request.id == id && Overtakes(after[j], after[i]);
    }
  }

  // A step before the id is taken changes only the execution.
  lemma CheckKeeps(before: Tables, s: State, k: nat, faults: Faults)
    requires Valid(before, s)
    ensures Valid(before, Next(s, Check(k, faults)))
  {
    var t := Next(s, Check(k, faults));
    if k < |s.executions| && s.executions[k].phase == Requested {
      hide IsCompleted, Overtaken, Explained;
      var old', e := s.executions[k], t.executions[k];
      assert Stamped(old', s.clock);
      forall j | 0 <= j < |s.executions| && j != k
        ensures Placed(t, s.executions[j]) && Apart(s.executions[j], e)
      {
        assert Placed(s, s.executions[j]) && Apart(s.executions[j], old') && Stamped(s.executions[j], s.clock);
      }
      forall id
        ensures id in t.reopened <==> Overtaken(t.executions, id)
      {
        OvertakenKept(s.executions, k, e, id);
      }
      MovesKeeps(before, s, t, k, e);
    }
  }

  lemma ActivateKeeps(before: Tables, s: State, k: nat)
    requires Valid(before, s)
    ensures Valid(before, Next(s, Activate(k)))
  {
    var t := Next(s, Activate(k));
    if k < |s.executions| && s.executions[k].phase == Checked {
      hide IsCompleted, Overtaken, Explained;
      var was, e := s.executions[k], t.executions[k];
      assert Stamped(was, s.clock);
      forall j | 0 <= j < |s.executions| && j != k
        ensures Placed(t, s.executions[j]) && Apart(s.executions[j], e)
      {
        assert Placed(s, s.executions[j]) && Apart(s.executions[j], was) && Stamped(s.executions[j], s.clock);
      }
      forall id
        ensures id in t.reopened <==> Overtaken(t.executions, id)
      {
        OvertakenKept(s.executions, k, e, id);
      }
      MovesKeeps(before, s, t, k, e);
    }
  }

  // At most one execution holds an id.
  lemma OneHolder(before: Tables, s: State, j: nat, k: nat)
    requires Valid(before, s) && j < |s.executions| && k < |s.executions| && j != k
    requires s.executions[j].request.id == s.executions[k].request.id
    requires Holds(s.executions[j])
    ensures !Holds(s.executions[k])
  {
    assert Apart(s.executions[j], s.executions[k]);
    assert Stamped(s.executions[j], s.clock) && Stamped(s.executions[k], s.clock);
  }

  lemma ReleaseKeeps(before: Tables, s: State, k: nat)
    requires Valid(before, s)
    ensures Valid(before, Next(s, Release(k)))
  {
    var t := Next(s, Release(k));
    if k < |s.executions| && s.executions[k].phase == Closed {
      hide IsCompleted, Overtaken, Explained;
      var was, e := s.executions[k], t.executions[k];
      assert Stamped(was, s.clock) && Placed(s, was);
      forall j | 0 <= j < |s.executions| && j != k
        ensures Placed(t, s.executions[j]) && Apart(s.executions[j], e)
      {
        var other := s.executions[j];
        assert Placed(s, other) && Apart(other, was) && Stamped(other, s.clock);
        if other.request.id == e.request.id && Holds(other) {
          OneHolder(before, s, j, k);
          assert false;
        }
      }
      forall id
        ensures id in t.reopened <==> Overtaken(t.executions, id)
      {
        forall j | 0 <= j < |s.executions| && j != k
          ensures Overtakes(s.executions[j], e) <==> Overtakes(s.executions[j], was)
          ensures Overtakes(e, s.executions[j]) <==> Overtakes(was, s.executions[j])
        {
          assert Stamped(s.executions[j], s.clock);
        }
        OvertakenKept(s.executions, k, e, id);
      }
      MovesKeeps(before, s, t, k, e);
    }
  }

  // A save of a run changes that run's row only.
  lemma StoredRow(s: State, transaction: Transaction, fails: bool, id: string)
    requires id != transaction.run.id
    ensures IsCompleted(Stored(s, transaction, fails).tables, id) == IsCompleted(s.tables, id)
    ensures id in s.tables.runs ==>
              id in Stored(s, transaction, fails).tables.runs
              && Stored(s, transaction, fails).tables.runs[id] == s.tables.runs[id]
    ensures id in Stored(s, transaction, fails).reopened <==> id in s.reopened
  {
    hide Inserted, FindingsMatch, RelationshipsHold;
  }

  lemma StoredOwnRow(s: State, transaction: Transaction, fails: bool)
    ensures var after, id := Stored(s, transaction, fails).tables, transaction.run.id;
            && s.tables.runs.Keys <= after.runs.Keys
            && (Accepted(s.tables, transaction, fails) ==>
                  id in after.runs && after.runs[id].status == transaction.run.status)
            && (!Accepted(s.tables, transaction, fails) ==> after == s.tables)
    ensures var t, id := Stored(s, transaction, fails), transaction.run.id;
            id in t.reopened <==>
            id in s.reopened
            || (IsCompleted(s.tables, id) && Accepted(s.tables, transaction, fails)
                && transaction.run.status != Completed)
  {
    hide Inserted, FindingsMatch, RelationshipsHold;
  }

  // While an execution runs its tool its run stays running, so closing it
  // cannot reopen anything.
  lemma CloseKeeps(before: Tables, s: State, k: nat, engine: EngineResult, finishedAt: nat, fails: bool)
    requires Valid(before, s)
    ensures Valid(before, Next(s, Close(k, engine, finishedAt, fails)))
  {
    var t := Next(s, Close(k, engine, finishedAt, fails));
    if k < |s.executions| && s.executions[k].phase == Begun && s.executions[k].running.Some? {
      hide Overtaken, Explained, Step, Committed, Stamped, Placed, Apart, Overtakes, Closing, IsCompleted, Lost;
      var was, e := s.executions[k], t.executions[k];
      var closing := Closing(was.running.value, engine, finishedAt);
      ClosedInPlace(before, s, k, engine, finishedAt, fails);
      forall j | 0 <= j < |s.executions| && j != k
        ensures Placed(t, s.executions[j]) && Apart(s.executions[j], e)
      {
        OthersKept(before, s, t, j, k, closing, fails);
        SameApart(s.executions[j], was, e);
      }
      forall id
        ensures id in t.reopened <==> Overtaken(t.executions, id)
        ensures IsCompleted(t.tables, id) ==> IsCompleted(s.tables, id) || (id == e.request.id && Succeeded(e))
      {
        OvertakenByNone(s, k, e, id);
        if id != e.request.id {
          StoredRow(s, closing, fails, id);
        }
      }
      MovesKeeps(before, s, t, k, e);
    }
  }

  lemma ClosedInPlace(before: Tables, s: State, k: nat, engine: EngineResult, finishedAt: nat, fails: bool)
    requires Valid(before, s)
    requires k < |s.executions| && s.executions[k].phase == Begun && s.executions[k].running.Some?
    ensures var t := Next(s, Close(k, engine, finishedAt, fails));
            var was, e := s.executions[k], t.executions[k];
            && was.running.value.id == was.request.id
            && Closing(was.running.value, engine, finishedAt).run.id == was.request.id
            && s.tables.runs.Keys <= t.tables.runs.Keys
            && Stamped(was, s.clock) && Stamped(e, t.clock) && Placed(t, e)
            && (IsCompleted(t.tables, e.request.id) ==> Succeeded(e))
            && (e.request.id in t.reopened <==> e.request.id in s.reopened)
  {
    hide Overtaken, Explained, Step, Committed, Apart, Overtakes;
    var was := s.executions[k];
    assert Stamped(was, s.clock) && Placed(s, was);
    StoredOwnRow(s, Closing(was.running.value, engine, finishedAt), fails);
  }

  // A save under an id concerns no execution that does not hold it.
  lemma OthersKept(before: Tables, s: State, t: State, j: nat, k: nat, transaction: Transaction, fails: bool)
    requires Valid(before, s) && j < |s.executions| && k < |s.executions| && j != k
    requires Holds(s.executions[k]) && transaction.run.id == s.executions[k].request.id
    requires var stored := Stored(s, transaction, fails);
             t.tables == stored.tables && t.reopened == stored.reopened && t.active == s.active
    ensures Placed(t, s.executions[j])
  {
    hide Overtaken, Explained, Step, Committed, Apart, Overtakes;
    var other := s.executions[j];
    assert Placed(s, other);
    StoredOwnRow(s, transaction, fails);
    if other.request.id == transaction.run.id {
      if other.phase == Begun {
        OneHolder(before, s, k, j);
        assert false;
      }
    } else {
      StoredRow(s, transaction, fails, other.request.id);
    }
  }

  lemma SameApart(other: Execution, was: Execution, e: Execution)
    requires Apart(other, was)
    requires e.request == was.request && e.checkedAt == was.checkedAt && e.activatedAt == was.activatedAt
    requires e.begunAt == was.begunAt && e.releasedAt == was.releasedAt
    ensures Apart(other, e)
  {
  }

  // Ending the tool run of an execution that still holds its id.
  lemma OvertakenByNone(s: State, k: nat, e: Execution, id: string)
    requires k < |s.executions| && s.executions[k].releasedAt.None? && e.releasedAt.None?
    requires var was := s.executions[k];
             && e.request == was.request && e.checkedAt == was.checkedAt && e.activatedAt == was.activatedAt
             && e.begunAt == was.begunAt
    ensures Overtaken(s.executions[k := e], id) <==> Overtaken(s.executions, id)
  {
    hide Overtaken;
    OvertakenKept(s.executions, k, e, id);
  }

  // Saving the run of an activated execution reopens it exactly when another
  // execution has completed it before.
  lemma BeginKeeps(before: Tables, s: State, k: nat, startedAt: nat, fails: bool)
    requires Valid(before, s)
    ensures Valid(before, Next(s, Begin(k, startedAt, fails)))
  {
    var t := Next(s, Begin(k, startedAt, fails));
    if k < |s.executions| && s.executions[k].phase == Activated {
      hide Overtaken, Explained, Step, Committed, Placed, Apart, Overtakes, IsCompleted, Stamped;
      var was, e := s.executions[k], t.executions[k];
      BegunInPlace(before, s, k, startedAt, fails);
      forall j | 0 <= j < |s.executions| && j != k
        ensures Placed(t, s.executions[j]) && Apart(s.executions[j], e)
      {
        BegunBeside(before, s, j, k, startedAt, fails);
      }
      forall id
        ensures id in t.reopened <==> Overtaken(t.executions, id)
        ensures IsCompleted(t.tables, id) ==> IsCompleted(s.tables, id)
      {
        ReopenedByBegin(before, s, k, startedAt, fails, id);
      }
      MovesKeeps(before, s, t, k, e);
    }
  }

  lemma BegunInPlace(before: Tables, s: State, k: nat, startedAt: nat, fails: bool)
    requires Valid(before, s) && k < |s.executions| && s.executions[k].phase == Activated
    ensures var t := Next(s, Begin(k, startedAt, fails));
            && Stamped(t.executions[k], t.clock) && Placed(t, t.executions[k])
            && s.tables.runs.Keys <= t.tables.runs.Keys
            && !Succeeded(s.executions[k])
  {
    hide Overtaken, Explained, Step, Committed, Apart, Overtakes;
    var was := s.executions[k];
    assert Stamped(was, s.clock) && Placed(s, was);
    StoredOwnRow(s, Save(Opening(was.request, startedAt)), fails);
  }

  lemma BegunBeside(before: Tables, s: State, j: nat, k: nat, startedAt: nat, fails: bool)
    requires Valid(before, s) && j < |s.executions| && j != k
    requires k < |s.executions| && s.executions[k].phase == Activated
    ensures var t := Next(s, Begin(k, startedAt, fails));
            Placed(t, s.executions[j]) && Apart(s.executions[j], t.executions[k])
  {
    hide Overtaken, Explained, Step, Committed, Overtakes, IsCompleted;
    var t := Next(s, Begin(k, startedAt, fails));
    var was, e := s.executions[k], t.executions[k];
    var saving := Save(Opening(was.request, startedAt));
    assert Stamped(s.executions[j], s.clock) && Stamped(was, s.clock);
    if !Accepted(s.tables, saving, fails) {
      RejectedStep(s.tables, saving, fails);
    } else {
      OthersKept(before, s, t, j, k, saving, fails);
    }
    assert Placed(s, s.executions[j]) && Apart(s.executions[j], was);
    BegunApart(s.executions[j], was, e, s.clock);
  }

  lemma BegunApart(other: Execution, was: Execution, e: Execution, clock: nat)
    requires Apart(other, was) && Stamped(other, clock)
    requires e.request == was.request && e.checkedAt == was.checkedAt && e.activatedAt == was.activatedAt
    requires e.releasedAt == was.releasedAt && (e.begunAt == was.begunAt || e.begunAt == Some(clock))
    ensures Apart(other, e)
  {
  }

  lemma ReopenedByBegin(before: Tables, s: State, k: nat, startedAt: nat, fails: bool, id: string)
    requires Valid(before, s) && k < |s.executions| && s.executions[k].phase == Activated
    ensures var t := Next(s, Begin(k, startedAt, fails));
            && (id in t.reopened <==> Overtaken(t.executions, id))
            && (IsCompleted(t.tables, id) ==> IsCompleted(s.tables, id))
  {
    hide Step, Committed, Apart, Placed, Overtaken;
    var t := Next(s, Begin(k, startedAt, fails));
    var was, e := s.executions[k], t.executions[k];
    assert Stamped(was, s.clock);
    assert Explained(before, s, id);
    var saving := Save(Opening(was.request, startedAt));
    StoredOwnRow(s, saving, fails);
    if !Accepted(s.tables, saving, fails) {
      OvertakenKept(s.executions, k, e, id);
    } else if id != was.request.id {
      StoredRow(s, saving, fails, id);
      OvertakenElsewhere(s.executions, k, e, id);
    } else if IsCompleted(s.tables, id) {
      assert Known(before, was);
      var j :| 0 <= j < |s.executions| && s.executions[j].request.id == id && Succeeded(s.executions[j]);
      SuccessorOvertakes(s, j, k, e);
      OvertakesIn(t.executions, j, k);
    } else {
      OvertakenGrows(s, k, e, id);
    }
  }

  lemma OvertakesIn(executions: seq<Execution>, j: nat, k: nat)
    requires j < |executions| && k < |executions| && Overtakes(executions[k], executions[j])
    ensures Overtaken(executions, executions[j].request.id)
  {
  }

  lemma OvertakenElsewhere(executions: seq<Execution>, k: nat, e: Execution, id: string)
    requires k < |executions| && e.request == executions[k].request && e.request.id != id
    ensures Overtaken(executions[k := e], id) <==> Overtaken(executions, id)
  {
    var after := executions[k := e];
    if i, j :| 0 <= i < |after| && 0 <= j < |after| && after[i].request.id == id && Overtakes(after[j], after[i]) {
      OvertakesIn(executions, i, j);
    }
    if i, j :| 0 <= i < |after| && 0 <= j < |after|
               && executions[i].request.id == id && Overtakes(executions[j], executions[i]) {
      OvertakesIn(after, i, j);
    }
  }

  // The execution that completed the run had given the id back.
  lemma SuccessorOvertakes(s: State, j: nat, k: nat, e: Execution)
    requires j < |s.executions| && k < |s.executions|
    requires var early, was := s.executions[j], s.executions[k];
             && (j != k ==> Apart(early, was)) && Stamped(early, s.clock) && Stamped(was, s.clock)
             && early.request.id == was.request.id && Succeeded(early) && was.phase == Activated
             && e == was.(phase := e.phase, running := e.running, begunAt := Some(s.clock))
    ensures j != k && Overtakes(e, s.executions[j])
  {
  }

  // With the run not completed, a begin adds nothing.
  lemma OvertakenGrows(s: State, k: nat, e: Execution, id: string)
    requires k < |s.executions| && s.executions[k].request.id == id && !IsCompleted(s.tables, id)
    requires forall j | 0 <= j < |s.executions| :: Placed(s, s.executions[j]) && Stamped(s.executions[j], s.clock)
    requires var was := s.executions[k];
             && was.phase == Activated
             && e == was.(phase := e.phase, running := e.running, begunAt := Some(s.clock))
    requires id in s.reopened <==> Overtaken(s.executions, id)
    ensures Overtaken(s.executions[k := e], id) <==> id in s.reopened
  {
    hide IsCompleted;
    var executions, after := s.executions, s.executions[k := e];
    assert Stamped(executions[k], s.clock);
    if i, j :| 0 <= i < |after| && 0 <= j < |after| && after[i].request.id == id && Overtakes(after[j], after[i]) {
      assert i != k;
      assert Placed(s, executions[i]);
    }
    if i, j :| 0 <= i < |after| && 0 <= j < |after|
               && executions[i].request.id == id && Overtakes(executions[j], executions[i]) {
      OvertakesIn(after, i, j);
    }
  }

  lemma NextKeeps(before: Tables, s: State, event: Event)
    requires Valid(before, s)
    ensures Valid(before, Next(s, event))
  {
    hide Valid, Next;
    match event
    case Arrive(request) => ArriveKeeps(before, s, request);
    case Check(k, faults) => CheckKeeps(before, s, k, faults);
    case Activate(k) => ActivateKeeps(before, s, k);
    case Begin(k, startedAt, fails) => BeginKeeps(before, s, k, startedAt, fails);
    case Close(k, engine, finishedAt, fails) => CloseKeeps(before, s, k, engine, finishedAt, fails);
    case Release(k) => ReleaseKeeps(before, s, k);
  }

  lemma {:induction false} RanValid(before: Tables, events: seq<Event>)
    ensures Valid(before, Ran(Idle(before), events))
  {
    if events == [] {
      assert forall id :: !Overtaken(Idle(before).executions, id);
    } else {
      RanValid(before, events[..|events| - 1]);
      NextKeeps(before, Ran(Idle(before), events[..|events| - 1]), events[|events| - 1]);
    }
  }

  // ---------------------------------------------------------------------
  // What the interleavings do
  // ---------------------------------------------------------------------

  // At some time the run was stored as completed, and at a later one it was not.
  ghost predicate WasReopened(before: Tables, events: seq<Event>, id: string) {
    exists n, m | 0 <= n <= m <= |events| ::
      && IsCompleted(Ran(Idle(before), events[..n]).tables, id)
      && !IsCompleted(Ran(Idle(before), events[..m]).tables, id)
  }

  lemma NextReopens(s: State, event: Event, id: string)
    ensures id in Next(s, event).reopened <==>
            id in s.reopened || (IsCompleted(s.tables, id) && !IsCompleted(Next(s, event).tables, id))
  {
    hide Step, Committed, Closing, Opening, CheckStep, Report;
  }

  lemma {:induction false} ReopenedIsHistory(before: Tables, events: seq<Event>, id: string)
    ensures id in Ran(Idle(before), events).reopened <==> WasReopened(before, events, id)
  {
    hide Next, IsCompleted;
    var s := Ran(Idle(before), events);
    assert events[..|events|] == events;
    if events != [] {
      var front := events[..|events| - 1];
      var was := Ran(Idle(before), front);
      ReopenedIsHistory(before, front, id);
      NextReopens(was, events[|events| - 1], id);
      assert forall n | 0 <= n <= |front| :: front[..n] == events[..n];
      if WasReopened(before, front, id) {
        var n, m :| 0 <= n <= m <= |front|
                    && IsCompleted(Ran(Idle(before), front[..n]).tables, id)
                    && !IsCompleted(Ran(Idle(before), front[..m]).tables, id);
        assert IsCompleted(Ran(Idle(before), events[..n]).tables, id);
        assert !IsCompleted(Ran(Idle(before), events[..m]).tables, id);
      }
      if WasReopened(before, events, id) {
        var n, m :| 0 <= n <= m <= |events|
                    && IsCompleted(Ran(Idle(before), events[..n]).tables, id)
                    && !IsCompleted(Ran(Idle(before), events[..m]).tables, id);
        if n < |events| && id !in was.reopened {
          assert IsCompleted(Ran(Idle(before), front[..n]).tables, id);
          assert front[..|front|] == front;
          assert IsCompleted(was.tables, id);
        }
      }
    }
  }

  // Over all interleavings of any number of executions: a completed run is
  // reopened if and only if some execution of its id passed its existence check
  // before the completing one saved the run, and took the id after that one
  // gave it back.
  lemma {:induction false} ReopenedIffOvertaken(before: Tables, events: seq<Event>, id: string)
    ensures WasReopened(before, events, id) <==> Overtaken(Ran(Idle(before), events).executions, id)
  {
    hide WasReopened, Overtaken;
    RanValid(before, events);
    ReopenedIsHistory(before, events, id);
  }

  // What a caller was told: a run is stored as completed only if it was before
  // or an execution of it has succeeded, and a success lasts unless overtaken.
  lemma {:induction false} CompletionMeansSuccess(before: Tables, events: seq<Event>, id: string)
    ensures var s := Ran(Idle(before), events);
            && (IsCompleted(s.tables, id) && id !in before.runs ==>
                  exists j | 0 <= j < |s.executions| :: s.executions[j].request.id == id && Succeeded(s.executions[j]))
            && (forall j | 0 <= j < |s.executions| && s.executions[j].request.id == id && Succeeded(s.executions[j]) ::
                  IsCompleted(s.tables, id) || WasReopened(before, events, id))
  {
    hide WasReopened, Overtaken, IsCompleted;
    var s := Ran(Idle(before), events);
    RanValid(before, events);
    ReopenedIsHistory(before, events, id);
    assert Explained(before, s, id);
    forall j | 0 <= j < |s.executions| && s.executions[j].request.id == id && Succeeded(s.executions[j])
      ensures IsCompleted(s.tables, id) || id in s.reopened
    {
      assert Placed(s, s.executions[j]);
    }
  }

  // No two executions hold the same id, and while one runs its tool the stored
  // run is running.
  lemma {:induction false} HoldersAreAlone(before: Tables, events: seq<Event>, j: nat, k: nat)
    requires var executions := Ran(Idle(before), events).executions;
             && j < |executions| && k < |executions|
             && Holds(executions[j]) && Holds(executions[k]) && executions[j].request.id == executions[k].request.id
    ensures j == k
    ensures var s := Ran(Idle(before), events);
            var id := s.executions[j].request.id;
            && id in s.active
            && (s.executions[j].phase == Begun ==> id in s.tables.runs && s.tables.runs[id].status == Running)
  {
    var s := Ran(Idle(before), events);
    RanValid(before, events);
    assert Placed(s, s.executions[j]);
    if j != k {
      OneHolder(before, s, j, k);
    }
  }

  // The interleaving that reopens: two executions of one request both find the
  // id unused, the first completes, then the second begins.
  function Overlap(request: Request, engine: EngineResult, startedAt: nat, finishedAt: nat): seq<Event> {
    [
      Arrive(request), Arrive(request), Check(0, NO_FAULTS), Check(1, NO_FAULTS),
      Activate(0), Begin(0, startedAt, false), Close(0, engine, finishedAt, false), Release(0),
      Activate(1), Begin(1, finishedAt, false)
    ]
  }

  lemma {:induction false} RanCons(s: State, first: Event, rest: seq<Event>)
    ensures Ran(s, [first] + rest) == Ran(Next(s, first), rest)
  {
    hide Next;
    var events := [first] + rest;
    if rest == [] {
      assert events[..|events| - 1] == [];
    } else {
      assert events[..|events| - 1] == [first] + rest[..|rest| - 1];
      RanCons(s, first, rest[..|rest| - 1]);
    }
  }

  // The first execution runs from its activation to its release.
  lemma {:induction false} RunsToCompletion(s: State, k: nat, engine: EngineResult, startedAt: nat, finishedAt: nat)
    requires k < |s.executions|
    requires var e := s.executions[k];
             && e.phase == Checked && Admitted(s.tables, s.active, e.request)
             && EndStatus(e.request.tool.ruleSetVersion, engine) == Completed
             && Storable(s.tables, Opening(e.request, startedAt), engine)
    ensures var events := [Activate(k), Begin(k, startedAt, false), Close(k, engine, finishedAt, false), Release(k)];
            var t, e := Ran(s, events), s.executions[k];
            var ended := Ended(Opening(e.request, startedAt), engine, finishedAt);
            && t.active == s.active && t.tables.sources == s.tables.sources
            && e.request.id in t.tables.runs && t.tables.runs[e.request.id] == ended
            && |t.executions| == |s.executions|
            && (forall j | 0 <= j < |s.executions| && j != k :: t.executions[j] == s.executions[j])
            && t.executions[k].answer == Some(Ok(ended))
  {
    hide Step, Committed, Acceptable, Lost, OutputsComplete, Inserted;
    var e := s.executions[k];
    var running := Opening(e.request, startedAt);
    var s1 := Next(s, Activate(k));
    OpeningAccepted(s.tables, e.request, startedAt);
    OpeningEffect(s.tables, e.request, startedAt);
    var s2 := Next(s1, Begin(k, startedAt, false));
    ClosingAcceptedIff(s2.tables, running, engine, finishedAt, false);
    ClosingEffect(s2.tables, running, engine, finishedAt, false);
    KeepsSources(s2.tables, Closing(running, engine, finishedAt), false);
    var s3 := Next(s2, Close(k, engine, finishedAt, false));
    RanFour(s, Activate(k), Begin(k, startedAt, false), Close(k, engine, finishedAt, false), Release(k));
  }

  lemma OpeningEffect(tables: Tables, request: Request, startedAt: nat)
    requires SourceFits(tables, request) && request.id !in tables.runs
    ensures Step(tables, Save(Opening(request, startedAt)), false) ==
            tables.(runs := tables.runs[request.id := Opening(request, startedAt)])
  {
    OpeningAccepted(tables, request, startedAt);
  }

  lemma KeepsSources(tables: Tables, transaction: Transaction, fails: bool)
    ensures Step(tables, transaction, fails).sources == tables.sources
  {
  }

  lemma RanFour(s: State, a: Event, b: Event, c: Event, d: Event)
    ensures Ran(s, [a, b, c, d]) == Next(Next(Next(Next(s, a), b), c), d)
  {
    hide Next;
    assert [a, b, c, d] == [a] + [b, c, d] && [b, c, d] == [b] + [c, d] && [c, d] == [c] + [d] && [d] == [d] + [];
    RanCons(s, a, [b, c, d]);
    RanCons(Next(s, a), b, [c, d]);
    RanCons(Next(Next(s, a), b), c, [d]);
    RanCons(Next(Next(Next(s, a), b), c), d, []);
  }

  lemma {:induction false} RanConcat(s: State, first: seq<Event>, rest: seq<Event>)
    ensures Ran(s, first + rest) == Ran(Ran(s, first), rest)
  {
    hide Next;
    if rest == [] {
      assert first + rest == first;
    } else {
      var front := rest[..|rest| - 1];
      assert (first + rest)[..|first + rest| - 1] == first + front;
      RanConcat(s, first, front);
    }
  }

  lemma {:induction false} StaleCheckReopens(tables: Tables, request: Request, engine: EngineResult, startedAt: nat,
                                             finishedAt: nat)
    requires Admitted(tables, {}, request) && EndStatus(request.tool.ruleSetVersion, engine) == Completed
    requires Storable(tables, Opening(request, startedAt), engine)
    ensures var s := Ran(Idle(tables), Overlap(request, engine, startedAt, finishedAt));
            && |s.executions| == 2
            && s.executions[0].answer == Some(Ok(Ended(Opening(request, startedAt), engine, finishedAt)))
            && request.id in s.tables.runs && s.tables.runs[request.id].status == Running
            && WasReopened(tables, Overlap(request, engine, startedAt, finishedAt), request.id)
  {
    hide Step, Committed, Acceptable, Lost, Ran, WasReopened, Next, EndStatus;
    var prefix := [Arrive(request), Arrive(request), Check(0, NO_FAULTS), Check(1, NO_FAULTS)];
    var middle := [Activate(0), Begin(0, startedAt, false), Close(0, engine, finishedAt, false), Release(0)];
    var end := [Activate(1), Begin(1, finishedAt, false)];
    var all := Overlap(request, engine, startedAt, finishedAt);
    assert all == (prefix + middle) + end && all[..8] == prefix + middle && all[..10] == all;
    RanConcat(Idle(tables), prefix, middle);
    RanConcat(Idle(tables), prefix + middle, end);
    BothPassTheCheck(tables, request);
    var checked := Ran(Idle(tables), prefix);
    RunsToCompletion(checked, 0, engine, startedAt, finishedAt);
    var completed := Ran(checked, middle);
    BeginsAgain(completed, request, engine, startedAt, finishedAt);
    CompletedThenNot(tables, all, 8, request.id);
  }

  lemma BothPassTheCheck(tables: Tables, request: Request)
    requires Admitted(tables, {}, request)
    ensures var t := Ran(Idle(tables), [Arrive(request), Arrive(request), Check(0, NO_FAULTS), Check(1, NO_FAULTS)]);
            && t.tables == tables && t.active == {} && |t.executions| == 2
            && t.executions[0].request == request && t.executions[0].phase == Checked
            && t.executions[1].request == request && t.executions[1].phase == Checked
  {
    hide Ran;
    RanFour(Idle(tables), Arrive(request), Arrive(request), Check(0, NO_FAULTS), Check(1, NO_FAULTS));
  }

  lemma BeginsAgain(s: State, request: Request, engine: EngineResult, startedAt: nat, finishedAt: nat)
    requires SourceFits(s.tables, request) && request.id in s.tables.runs && s.active == {}
    requires s.tables.runs[request.id] == Ended(Opening(request, startedAt), engine, finishedAt)
    requires |s.executions| == 2 && s.executions[1].request == request && s.executions[1].phase == Checked
    ensures var t := Ran(s, [Activate(1), Begin(1, finishedAt, false)]);
            && |t.executions| == 2 && t.executions[0] == s.executions[0]
            && request.id in t.tables.runs && t.tables.runs[request.id].status == Running
  {
    hide Ran, Step, Committed;
    RanTwo(s, Activate(1), Begin(1, finishedAt, false));
    ReopeningEffect(s.tables, request, engine, startedAt, finishedAt);
  }

  lemma RanTwo(s: State, a: Event, b: Event)
    ensures Ran(s, [a, b]) == Next(Next(s, a), b)
  {
    hide Next;
    assert [a, b] == [a] + [b] && [b] == [b] + [];
    RanCons(s, a, [b]);
    RanCons(Next(s, a), b, []);
  }

  lemma ReopeningEffect(tables: Tables, request: Request, engine: EngineResult, startedAt: nat, finishedAt: nat)
    requires SourceFits(tables, request) && request.id in tables.runs
    requires tables.runs[request.id] == Ended(Opening(request, startedAt), engine, finishedAt)
    ensures var reopening := Save(Opening(request, finishedAt));
            var after := Step(tables, reopening, false);
            && Accepted(tables, reopening, false)
            && request.id in after.runs && after.runs[request.id].status == Running
  {
  }

  lemma CompletedThenNot(before: Tables, events: seq<Event>, n: nat, id: string)
    requires n <= |events|
    requires IsCompleted(Ran(Idle(before), events[..n]).tables, id)
    requires !IsCompleted(Ran(Idle(before), events).tables, id)
    ensures WasReopened(before, events, id)
  {
    assert events[..|events|] == events;
  }

  // From any state, the six steps of an execution without interruption do what
  // the sequential execution does.
  function Alone(request: Request, k: nat, engine: EngineResult, startedAt: nat, finishedAt: nat,
                 faults: Faults, openFails: bool, closeFails: bool): seq<Event>
  {
    [
      Arrive(request), Check(k, faults), Activate(k),
      Begin(k, startedAt, openFails), Close(k, engine, finishedAt, closeFails), Release(k)
    ]
  }

  lemma {:induction false} UninterruptedExecution(s: State, request: Request, engine: EngineResult, startedAt: nat,
                                                  finishedAt: nat, faults: Faults, openFails: bool, closeFails: bool)
    ensures var k := |s.executions|;
            var t := Ran(s, Alone(request, k, engine, startedAt, finishedAt, faults, openFails, closeFails));
            var (after, answer) :=
              Executed(s.tables, s.active, request, engine, startedAt, finishedAt, faults, openFails, closeFails);
            && t.tables == after && t.active == s.active
            && |t.executions| == k + 1 && t.executions[..k] == s.executions && t.executions[k].answer == Some(answer)
  {
    hide Step, Committed, Lost, Ran, Closing, Report, Next, Refusal;
    var k := |s.executions|;
    var arrive, check := Arrive(request), Check(k, faults);
    var start := [arrive, check];
    var end := [Activate(k), Begin(k, startedAt, openFails), Close(k, engine, finishedAt, closeFails), Release(k)];
    assert Alone(request, k, engine, startedAt, finishedAt, faults, openFails, closeFails) == start + end;
    RanConcat(s, start, end);
    RanTwo(s, arrive, check);
    var checked := Ran(s, start);
    ArrivedAndChecked(s, request, faults);
    RanFour(checked, end[0], end[1], end[2], end[3]);
    if checked.executions[k].phase == Checked && request.id !in s.active {
      FromCheckToReturn(checked, k, engine, startedAt, finishedAt, openFails, closeFails);
    } else {
      RefusedReturns(checked, k, end[1], end[2], end[3]);
    }
  }

  lemma ArrivedAndChecked(s: State, request: Request, faults: Faults)
    ensures var k := |s.executions|;
            var t := Next(Next(s, Arrive(request)), Check(k, faults));
            var refusal := Refusal(s.tables, request, faults);
            && t.tables == s.tables && t.active == s.active
            && |t.executions| == k + 1 && t.executions[..k] == s.executions && t.executions[k].request == request
            && (if refusal.Some?
                then t.executions[k].phase == Returned && t.executions[k].answer == Some(Err(refusal.value))
                else t.executions[k].phase == Checked)
  {
    hide Refusal;
  }

  lemma RefusedReturns(s: State, k: nat, b: Event, c: Event, d: Event)
    requires k < |s.executions|
    requires var e := s.executions[k];
             e.phase == Returned || (e.phase == Checked && e.request.id in s.active)
    requires !b.Arrive? && !c.Arrive? && !d.Arrive? && b.k == k && c.k == k && d.k == k
    ensures var t, e := Next(Next(Next(Next(s, Activate(k)), b), c), d), s.executions[k];
            && t.tables == s.tables && t.active == s.active
            && |t.executions| == |s.executions| && t.executions[..k] == s.executions[..k]
            && t.executions[k].answer == if e.phase == Returned then e.answer else Some(Err(InvalidInput))
  {
    var t := Next(s, Activate(k));
    assert t.executions[..k] == s.executions[..k];
    ReturnedStays(t, k, b);
    ReturnedStays(t, k, c);
    ReturnedStays(t, k, d);
  }

  lemma ReturnedStays(s: State, k: nat, event: Event)
    requires k < |s.executions| && s.executions[k].phase == Returned && !event.Arrive? && event.k == k
    ensures Next(s, event) == s
  {
  }

  lemma FromCheckToReturn(s: State, k: nat, engine: EngineResult, startedAt: nat, finishedAt: nat, openFails: bool,
                          closeFails: bool)
    requires k < |s.executions| && s.executions[k].phase == Checked && s.executions[k].request.id !in s.active
    ensures var t := Next(Next(Next(Next(s, Activate(k)), Begin(k, startedAt, openFails)),
                               Close(k, engine, finishedAt, closeFails)), Release(k));
            var running := Opening(s.executions[k].request, startedAt);
            var begun := Step(s.tables, Save(running), openFails);
            var closing := Closing(running, engine, finishedAt);
            && t.active == s.active
            && |t.executions| == |s.executions| && t.executions[..k] == s.executions[..k]
            && (if Accepted(s.tables, Save(running), openFails) then
                  && t.tables == Step(begun, closing, closeFails)
                  && t.executions[k].answer == Some(Report(closing.run, Accepted(begun, closing, closeFails)))
                else t.tables == s.tables && t.executions[k].answer == Some(Err(StoreFailed)))
  {
    hide Step, Committed, Lost, Closing, Report;
  }

  // Every interleaving keeps the store consistent and completed runs with their
  // output and exactly its findings.
  lemma {:induction false} InterleavingsKeepTheStore(before: Tables, events: seq<Event>)
    requires Consistent(before) && OutputsComplete(before)
    ensures var after := Ran(Idle(before), events).tables;
            Consistent(after) && OutputsComplete(after) && RunsKept(before, after)
  {
    hide Consistent, OutputsComplete, Step, Next;
    if events != [] {
      InterleavingsKeepTheStore(before, events[..|events| - 1]);
      var s := Ran(Idle(before), events[..|events| - 1]);
      EventKeepsTheStore(s, events[|events| - 1]);
    }
  }

  lemma EventKeepsTheStore(s: State, event: Event)
    requires Consistent(s.tables) && OutputsComplete(s.tables)
    ensures var after := Next(s, event).tables;
            Consistent(after) && OutputsComplete(after) && RunsKept(s.tables, after)
  {
    hide Consistent, OutputsComplete, Step, Committed;
    if event.Begin? && event.k < |s.executions| {
      var saving := Save(Opening(s.executions[event.k].request, event.startedAt));
      StepKeeps(s.tables, saving, event.fails);
      ToolStepKeeps(s.tables, saving, event.fails);
    }
    if event.Close? && event.k < |s.executions| && s.executions[event.k].running.Some? {
      var closing := Closing(s.executions[event.k].running.value, event.engine, event.finishedAt);
      StepKeeps(s.tables, closing, event.fails);
      ToolStepKeeps(s.tables, closing, event.fails);
    }
  }
}
