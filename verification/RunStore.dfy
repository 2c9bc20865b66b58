/**
 Analysis runs, their findings and their stored outputs: the store's
 transactions as steps on tables, and what every sequence of them keeps.
 */
module RunStore {
  import opened Wrappers

  datatype Status = Pending | Running | Completed | Failed | Cancelled

  datatype Identity = Identity(
    project: string,
    source: string,
    tool: string,
    toolVersion: string,
    ruleSetVersion: string,
    appVersion: string
  )

  datatype Run = Run(
    id: string,
    identity: Identity,
    status: Status,
    startedAt: nat,
    finishedAt: Option<nat>,
    diagnostics: Option<string>
  )

  datatype Finding = Finding(
    id: string,
    run: string,
    project: string,
    source: string,
    ruleSetVersion: string,
    text: string
  )

  datatype Output = Output(findings: seq<Finding>, ruleSetVersion: string, diagnostics: string)

  datatype Revision = Revision(project: string, tool: string)

  datatype Tables = Tables(
    sources: map<string, Revision>,
    runs: map<string, Run>,
    findings: map<string, Finding>,
    outputs: map<string, Output>
  )

  datatype StoreError = Invariant | Storage

  // ---------------------------------------------------------------------
  // The transactions
  // ---------------------------------------------------------------------

  // The source belongs to the project, and a stored run keeps its identity.
  predicate RelationshipsHold(tables: Tables, run: Run) {
    && run.identity.source in tables.sources
    && tables.sources[run.identity.source].project == run.identity.project
    && (run.id in tables.runs ==> tables.runs[run.id].identity == run.identity)
  }

  predicate FindingMatches(run: Run, finding: Finding) {
    && finding.run == run.id
    && finding.project == run.identity.project
    && finding.source == run.identity.source
    && finding.ruleSetVersion == run.identity.ruleSetVersion
  }

  predicate FindingsMatch(run: Run, findings: seq<Finding>) {
    forall i | 0 <= i < |findings| :: FindingMatches(run, findings[i])
  }

  // Inserts a new row or updates the columns that may change.
  function Upserted(runs: map<string, Run>, run: Run): map<string, Run> {
    if run.id in runs then
      runs[run.id := runs[run.id].(status := run.status, finishedAt := run.finishedAt, diagnostics := run.diagnostics)]
    else runs[run.id := run]
  }

  function DeletedByRun(findings: map<string, Finding>, run: string): map<string, Finding> {
    map id | id in findings && findings[id].run != run :: findings[id]
  }

  // The primary key rejects a finding id that is already there.
  function Inserted(table: map<string, Finding>, findings: seq<Finding>): Option<map<string, Finding>> {
    if findings == [] then Some(table)
    else
      match Inserted(table, findings[..|findings| - 1])
      case None => None
      case Some(before) =>
        var finding := findings[|findings| - 1];
        if finding.id in before then None else Some(before[finding.id := finding])
  }

  datatype Transaction =
    | Save(run: Run)
    | SaveFindings(run: Run, findings: seq<Finding>)
    | SaveOutput(run: Run, findings: seq<Finding>, output: Output)

  // What a committed transaction leaves, or why it is rejected.
  function Committed(tables: Tables, transaction: Transaction): Result<Tables, StoreError> {
    var run := transaction.run;
    if transaction.SaveOutput? && run.status != Completed then Err(Invariant)
    else if !RelationshipsHold(tables, run) then Err(Invariant)
    else if transaction.Save? then Ok(tables.(runs := Upserted(tables.runs, run)))
    else if !FindingsMatch(run, transaction.findings) then Err(Invariant)
    else
      match Inserted(DeletedByRun(tables.findings, run.id), transaction.findings)
      case None => Err(Storage)
      case Some(findings) =>
        var saved := tables.(runs := Upserted(tables.runs, run), findings := findings);
        Ok(if transaction.SaveOutput? then saved.(outputs := saved.outputs[run.id := transaction.output]) else saved)
  }

  // A rejected or failed transaction is rolled back.
  function Step(tables: Tables, transaction: Transaction, fails: bool): Tables {
    if fails || Committed(tables, transaction).Err? then tables else Committed(tables, transaction).value
  }

  class Database {
    var sources: map<string, Revision>
    var runs: map<string, Run>
    var findings: map<string, Finding>
    var outputs: map<string, Output>

    constructor (revisions: map<string, Revision>)
      ensures Contents() == Tables(revisions, map[], map[], map[])
    {
      sources, runs, findings, outputs := revisions, map[], map[], map[];
    }

    function Contents(): Tables
      reads this
    {
      Tables(sources, runs, findings, outputs)
    }

    method UpsertRun(run: Run)
      modifies this`runs
      ensures runs == Upserted(old(runs), run)
    {
      if run.id in runs {
        var stored := runs[run.id];
        stored := stored.(status := run.status, finishedAt := run.finishedAt, diagnostics := run.diagnostics);
        runs := runs[run.id := stored];
      } else {
        runs := runs[run.id := run];
      }
    }

    // Any statement of the transaction, or its commit, may fail.
    method SaveRun(run: Run, fails: bool) returns (r: Result<(), StoreError>)
      modifies this
      ensures Contents() == Step(old(Contents()), Save(run), fails)
      ensures r.Ok? <==> !fails && Committed(old(Contents()), Save(run)).Ok?
      ensures !fails && r.Err? ==> r.error == Committed(old(Contents()), Save(run)).error
    {
      if !RelationshipsHold(Contents(), run) {
        return Err(Invariant);
      }
      if fails {
        return Err(Storage);
      }
      UpsertRun(run);
      return Ok(());
    }

    // The two aggregate saves: the run, its findings replaced, and the output
    // when there is one; on any error the old tables are restored.
    method SaveAggregate(run: Run, newFindings: seq<Finding>, output: Option<Output>, fails: bool)
      returns (r: Result<(), StoreError>)
      modifies this
      ensures var transaction :=
                if output.Some? then SaveOutput(run, newFindings, output.value) else SaveFindings(run, newFindings);
              && Contents() == Step(old(Contents()), transaction, fails)
              && (r.Ok? <==> !fails && Committed(old(Contents()), transaction).Ok?)
              && (!fails && r.Err? ==> r.error == Committed(old(Contents()), transaction).error)
    {
      if output.Some? && run.status != Completed {
        return Err(Invariant);
      }
      if !RelationshipsHold(Contents(), run) {
        return Err(Invariant);
      }
      for i := 0 to |newFindings|
        invariant forall j | 0 <= j < i :: FindingMatches(run, newFindings[j])
      {
        if !FindingMatches(run, newFindings[i]) {
          return Err(Invariant);
        }
      }
      var oldRuns, oldFindings, oldOutputs := runs, findings, outputs;
      UpsertRun(run);
      findings := DeletedByRun(findings, run.id);
      var inserted := InsertFindings(newFindings);
      if !inserted || fails {
        runs, findings, outputs := oldRuns, oldFindings, oldOutputs;
        return Err(Storage);
      }
      if output.Some? {
        outputs := outputs[run.id := output.value];
      }
      return Ok(());
    }

    method InsertFindings(newFindings: seq<Finding>) returns (inserted: bool)
      modifies this`findings
      ensures inserted <==> Inserted(old(findings), newFindings).Some?
      ensures inserted ==> Inserted(old(findings), newFindings) == Some(findings)
    {
      assert newFindings[..0] == [];
      for i := 0 to |newFindings|
        invariant Inserted(old(findings), newFindings[..i]) == Some(findings)
      {
        assert newFindings[..i + 1][..i] == newFindings[..i];
        var finding := newFindings[i];
        if finding.id in findings {
          InsertedFailsEarly(old(findings), newFindings, i + 1);
          return false;
        }
        findings := findings[finding.id := finding];
      }
      assert newFindings[..|newFindings|] == newFindings;
      return true;
    }
  }

  lemma {:induction false} InsertedFailsEarly(table: map<string, Finding>, findings: seq<Finding>, n: nat)
    requires n <= |findings| && Inserted(table, findings[..n]).None?
    ensures Inserted(table, findings).None?
    decreases |findings|
  {
    if n < |findings| {
      var front := findings[..|findings| - 1];
      assert front[..n] == findings[..n];
      InsertedFailsEarly(table, front, n);
    } else {
      assert findings[..n] == findings;
    }
  }

  // ---------------------------------------------------------------------
  // What every transaction keeps
  // ---------------------------------------------------------------------

  ghost predicate Consistent(tables: Tables) {
    && (forall id | id in tables.runs :: RunOk(tables, id))
    && (forall id | id in tables.findings :: FindingOk(tables, id))
    && (forall id | id in tables.outputs :: id in tables.runs)
  }

  predicate RunOk(tables: Tables, id: string)
    requires id in tables.runs
  {
    var run := tables.runs[id];
    && run.id == id
    && run.identity.source in tables.sources
    && tables.sources[run.identity.source].project == run.identity.project
  }

  predicate FindingOk(tables: Tables, id: string)
    requires id in tables.findings
  {
    var finding := tables.findings[id];
    finding.id == id && finding.run in tables.runs && FindingMatches(tables.runs[finding.run], finding)
  }

  // Runs are never lost and keep their identity and start.
  predicate RunsKept(before: Tables, after: Tables) {
    forall id | id in before.runs ::
      && id in after.runs
      && after.runs[id].identity == before.runs[id].identity
      && after.runs[id].startedAt == before.runs[id].startedAt
  }

  lemma {:induction false} InsertedMeans(table: map<string, Finding>, findings: seq<Finding>)
    requires Inserted(table, findings).Some?
    ensures var after := Inserted(table, findings).value;
            && (forall id | id in table :: id in after && after[id] == table[id])
            && (forall id | id in after ::
                  || (id in table && after[id] == table[id])
                  || (id !in table && after[id] in findings && after[id].id == id))
            && (forall f | f in findings :: f.id in after && after[f.id] == f)
  {
    if findings != [] {
      var front, last := findings[..|findings| - 1], findings[|findings| - 1];
      InsertedMeans(table, front);
      assert findings == front + [last];
    }
  }

  predicate DistinctIds(findings: seq<Finding>) {
    forall i, j | 0 <= i < j < |findings| :: findings[i].id != findings[j].id
  }

  // Findings are inserted if and only if their ids are new and distinct.
  lemma {:induction false} InsertedIff(table: map<string, Finding>, findings: seq<Finding>)
    ensures Inserted(table, findings).Some? <==>
            DistinctIds(findings) && forall i | 0 <= i < |findings| :: findings[i].id !in table
  {
    if findings != [] {
      var front, last := findings[..|findings| - 1], findings[|findings| - 1];
      InsertedIff(table, front);
      assert forall i | 0 <= i < |front| :: front[i] == findings[i];
      if Inserted(table, front).Some? {
        InsertedKeys(table, front, last.id);
      }
    }
  }

  lemma InsertedKeys(table: map<string, Finding>, findings: seq<Finding>, id: string)
    requires Inserted(table, findings).Some?
    ensures id in Inserted(table, findings).value <==>
            id in table || exists i :: 0 <= i < |findings| && findings[i].id == id
  {
    hide Inserted;
    InsertedMeans(table, findings);
    if i :| 0 <= i < |findings| && findings[i].id == id {
      assert findings[i] in findings;
    }
  }

  // The findings may be stored as the run's: they match it, their ids are
  // distinct, and no other run's finding has one of them.
  predicate Acceptable(table: map<string, Finding>, run: Run, findings: seq<Finding>) {
    && FindingsMatch(run, findings)
    && DistinctIds(findings)
    && forall i | 0 <= i < |findings| && findings[i].id in table :: table[findings[i].id].run == run.id
  }

  // When a transaction is accepted.
  lemma {:induction false} CommittedIff(tables: Tables, transaction: Transaction)
    ensures Committed(tables, transaction).Ok? <==>
            && RelationshipsHold(tables, transaction.run)
            && (transaction.SaveOutput? ==> transaction.run.status == Completed)
            && (!transaction.Save? ==> Acceptable(tables.findings, transaction.run, transaction.findings))
  {
    if !transaction.Save? {
      var kept, findings := DeletedByRun(tables.findings, transaction.run.id), transaction.findings;
      InsertedIff(kept, findings);
      hide Inserted, FindingsMatch, RelationshipsHold, DistinctIds;
      forall i | 0 <= i < |findings|
        ensures findings[i].id in kept <==>
                findings[i].id in tables.findings && tables.findings[findings[i].id].run != transaction.run.id
      {
      }
    }
  }

  lemma UpsertKeeps(tables: Tables, run: Run)
    requires Consistent(tables) && RelationshipsHold(tables, run)
    ensures var after := tables.(runs := Upserted(tables.runs, run));
            && Consistent(after) && RunsKept(tables, after) && run.id in after.runs
            && after.runs[run.id].identity == run.identity
  {
    var after := tables.(runs := Upserted(tables.runs, run));
    forall id | id in after.runs
      ensures RunOk(after, id)
    {
      assert id in tables.runs ==> RunOk(tables, id);
    }
    forall id | id in after.findings
      ensures FindingOk(after, id)
    {
      assert FindingOk(tables, id);
    }
  }

  lemma FindingsKeep(tables: Tables, run: Run, findings: seq<Finding>)
    requires Consistent(tables) && run.id in tables.runs && tables.runs[run.id].identity == run.identity
    requires FindingsMatch(run, findings)
    requires Inserted(DeletedByRun(tables.findings, run.id), findings).Some?
    ensures Consistent(tables.(findings := Inserted(DeletedByRun(tables.findings, run.id), findings).value))
  {
    hide Inserted, FindingMatches;
    var kept := DeletedByRun(tables.findings, run.id);
    InsertedMeans(kept, findings);
    var after := tables.(findings := Inserted(kept, findings).value);
    forall id | id in after.findings
      ensures FindingOk(after, id)
    {
      if id in kept {
        assert FindingOk(tables, id);
      } else {
        MatchesStored(run, tables.runs[run.id], findings, after.findings[id]);
      }
    }
    forall id | id in after.runs
      ensures RunOk(after, id)
    {
      assert RunOk(tables, id);
    }
  }

  lemma MatchesStored(run: Run, stored: Run, findings: seq<Finding>, finding: Finding)
    requires FindingsMatch(run, findings) && finding in findings
    requires stored.identity == run.identity && stored.id == run.id
    ensures finding.run == run.id && FindingMatches(stored, finding)
  {
  }

  lemma {:induction false} StepKeeps(tables: Tables, transaction: Transaction, fails: bool)
    requires Consistent(tables)
    ensures Consistent(Step(tables, transaction, fails)) && RunsKept(tables, Step(tables, transaction, fails))
    ensures Step(tables, transaction, fails).sources == tables.sources
  {
    var run := transaction.run;
    if !fails && Committed(tables, transaction).Ok? {
      hide Inserted, DeletedByRun, Upserted, FindingsMatch, RelationshipsHold, FindingOk, RunOk;
      UpsertKeeps(tables, run);
      if !transaction.Save? {
        var upserted := tables.(runs := Upserted(tables.runs, run));
        FindingsKeep(upserted, run, transaction.findings);
      }
    }
  }

  // Tables after a run of transactions, each of which may fail.
  function After(tables: Tables, steps: seq<(Transaction, bool)>): Tables {
    if steps == [] then tables
    else
      var last := steps[|steps| - 1];
      Step(After(tables, steps[..|steps| - 1]), last.0, last.1)
  }

  // Over any run: identities never change, sources belong to their project,
  // and every stored finding matches its run.
  lemma {:induction false} StoreStaysConsistent(tables: Tables, steps: seq<(Transaction, bool)>)
    requires Consistent(tables)
    ensures Consistent(After(tables, steps)) && RunsKept(tables, After(tables, steps))
    ensures After(tables, steps).sources == tables.sources
  {
    if steps != [] {
      var front, last := steps[..|steps| - 1], steps[|steps| - 1];
      StoreStaysConsistent(tables, front);
      StepKeeps(After(tables, front), last.0, last.1);
    }
  }

  // ---------------------------------------------------------------------
  // Tool execution
  // ---------------------------------------------------------------------

  ghost function FindingsOf(tables: Tables, run: string): set<Finding> {
    set id | id in tables.findings && tables.findings[id].run == run :: tables.findings[id]
  }

  ghost function ElementsOf<T>(s: seq<T>): set<T> { set x | x in s }

  // A completed run has its output and exactly that output's findings.
  ghost predicate OutputsComplete(tables: Tables) {
    forall id | id in tables.runs && tables.runs[id].status == Completed :: OutputComplete(tables, id)
  }

  ghost predicate OutputComplete(tables: Tables, id: string) {
    id in tables.outputs && FindingsOf(tables, id) == ElementsOf(tables.outputs[id].findings)
  }

  // The transactions tool execution issues.
  predicate IsToolTransaction(transaction: Transaction) {
    match transaction
    case Save(run) => run.status != Completed
    case SaveFindings(_, _) => false
    case SaveOutput(_, findings, output) => findings == output.findings
  }

  lemma {:induction false} ReplacedFindings(tables: Tables, run: Run, findings: seq<Finding>, other: string)
    requires FindingsMatch(run, findings)
    requires Inserted(DeletedByRun(tables.findings, run.id), findings).Some?
    ensures var after := tables.(findings := Inserted(DeletedByRun(tables.findings, run.id), findings).value);
            FindingsOf(after, other) == if other == run.id then ElementsOf(findings) else FindingsOf(tables, other)
  {
    hide Inserted;
    var kept := DeletedByRun(tables.findings, run.id);
    InsertedMeans(kept, findings);
    var after := tables.(findings := Inserted(kept, findings).value);
    forall f | f in findings
      ensures f.run == run.id
    {
      var i :| 0 <= i < |findings| && findings[i] == f;
      assert FindingMatches(run, findings[i]);
    }
    if other == run.id {
      forall f
        ensures f in FindingsOf(after, other) <==> f in ElementsOf(findings)
      {
        if f in findings {
          assert f.id in after.findings;
        }
      }
    } else {
      forall f
        ensures f in FindingsOf(after, other) <==> f in FindingsOf(tables, other)
      {
        if f in FindingsOf(tables, other) {
          var id :| id in tables.findings && tables.findings[id].run == other && tables.findings[id] == f;
          assert id in kept && after.findings[id] == f;
        }
      }
    }
  }

  lemma ToolStepKeeps(tables: Tables, transaction: Transaction, fails: bool)
    requires OutputsComplete(tables) && IsToolTransaction(transaction)
    ensures OutputsComplete(Step(tables, transaction, fails))
  {
    var after := Step(tables, transaction, fails);
    var run := transaction.run;
    if !fails && Committed(tables, transaction).Ok? {
      hide Inserted, RelationshipsHold, FindingsMatch, FindingsOf, DeletedByRun;
      forall id | id in after.runs && after.runs[id].status == Completed
        ensures OutputComplete(after, id)
      {
        assert id != run.id ==> id in tables.runs && OutputComplete(tables, id);
        if transaction.SaveOutput? {
          ReplacedFindings(tables, run, transaction.findings, id);
          SameFindings(tables.(findings := after.findings), after, id);
        } else {
          SameFindings(tables, after, id);
        }
      }
    }
  }

  lemma SameFindings(a: Tables, b: Tables, id: string)
    requires a.findings == b.findings
    ensures FindingsOf(a, id) == FindingsOf(b, id)
  {
  }

  // However the transactions of any number of executions interleave and fail,
  // a completed run has its output and exactly that output's findings.
  lemma {:induction false} CompletedRunsHaveTheirOutput(tables: Tables, steps: seq<(Transaction, bool)>)
    requires OutputsComplete(tables) && forall i | 0 <= i < |steps| :: IsToolTransaction(steps[i].0)
    ensures OutputsComplete(After(tables, steps))
  {
    if steps != [] {
      var front, last := steps[..|steps| - 1], steps[|steps| - 1];
      CompletedRunsHaveTheirOutput(tables, front);
      ToolStepKeeps(After(tables, front), last.0, last.1);
    }
  }
}
