/**
 The grounded plan: one model turn per source chunk, then reduction rounds
 until all fragments fit one synthesis prompt, then the final turn.
 */
module AiPlan {
  import opened Wrappers
  import opened AiChunks
  import opened AiReview

  const MAX_AI_PROMPT_BYTES: nat := 1536 * 1024
  const MAX_AI_INTERMEDIATE_OUTPUT_BYTES: nat := 64 * 1024

  // Fixed text of the synthesis prompt, without the language name and the numbers.
  const SYNTHESIS_TEXT_BYTES: nat := 606

  // Within the limits at least this many fragments always fit one prompt.
  const GROUP_CAPACITY: nat := 23

  // One paid model turn: it fails, or answers with a review or something else.
  datatype Turn = Failed | Answered(output: Option<Review>)

  datatype PlanError = CodexError | Rejected(error: AiError)

  // An intermediate review, its serialised length and the turn that produced it.
  datatype Fragment = Fragment(review: Review, bytes: nat, turn: nat)

  // ---------------------------------------------------------------------
  // Synthesis prompts
  // ---------------------------------------------------------------------

  function FragmentBytes(fragments: seq<Fragment>): nat {
    if fragments == [] then 0
    else FragmentBytes(fragments[..|fragments| - 1]) + fragments[|fragments| - 1].bytes
  }

  // The prompt's text, the fragment count and the JSON list with its brackets and commas.
  function SynthesisBytes(name: nat, fragments: seq<Fragment>): nat
    requires fragments != []
  {
    SYNTHESIS_TEXT_BYTES + name + Digits(|fragments|) + 2 + FragmentBytes(fragments) + (|fragments| - 1)
  }

  predicate FitsPrompt(name: nat, fragments: seq<Fragment>) {
    fragments != [] && SynthesisBytes(name, fragments) <= MAX_AI_PROMPT_BYTES
  }

  predicate Bounded(fragments: seq<Fragment>) {
    forall i | 0 <= i < |fragments| :: fragments[i].bytes <= MAX_AI_INTERMEDIATE_OUTPUT_BYTES
  }

  lemma {:induction false} BytesConcat(xs: seq<Fragment>, ys: seq<Fragment>)
    ensures FragmentBytes(xs + ys) == FragmentBytes(xs) + FragmentBytes(ys)
  {
    if ys == [] {
      assert xs + ys == xs;
    } else {
      var zs := xs + ys;
      assert zs[..|zs| - 1] == xs + ys[..|ys| - 1];
      BytesConcat(xs, ys[..|ys| - 1]);
    }
  }

  // More fragments never make a shorter prompt.
  lemma {:induction false} PromptMonotone(name: nat, xs: seq<Fragment>, ys: seq<Fragment>)
    requires ys != []
    ensures SynthesisBytes(name, ys) <= SynthesisBytes(name, xs + ys)
  {
    BytesConcat(xs, ys);
    DigitsMonotone(|ys|, |xs + ys|);
  }

  lemma {:induction false} BoundedBytes(fragments: seq<Fragment>)
    requires Bounded(fragments)
    ensures FragmentBytes(fragments) <= |fragments| * MAX_AI_INTERMEDIATE_OUTPUT_BYTES
  {
    if fragments != [] {
      BoundedBytes(fragments[..|fragments| - 1]);
    }
  }

  lemma {:induction false} SmallGroupsFit(name: nat, fragments: seq<Fragment>)
    requires name <= 7 && Bounded(fragments) && 1 <= |fragments| <= GROUP_CAPACITY
    ensures FitsPrompt(name, fragments)
  {
    BoundedBytes(fragments);
    assert |fragments| * MAX_AI_INTERMEDIATE_OUTPUT_BYTES <= GROUP_CAPACITY * MAX_AI_INTERMEDIATE_OUTPUT_BYTES;
    WordDigits(|fragments|);
  }

  // ---------------------------------------------------------------------
  // Partitioning
  // ---------------------------------------------------------------------

  // Groups in order that each fit, none of which could take the next fragment.
  ghost predicate Partition(name: nat, groups: seq<seq<Fragment>>, fragments: seq<Fragment>) {
    && Flatten(groups) == fragments
    && (forall i | 0 <= i < |groups| :: FitsPrompt(name, groups[i]))
    && (forall i | 0 <= i < |groups| - 1 :: !FitsPrompt(name, groups[i] + [groups[i + 1][0]]))
  }

  lemma {:induction false} FlattenSnoc<T>(groups: seq<seq<T>>, group: seq<T>)
    ensures Flatten(groups + [group]) == Flatten(groups) + group
  {
    if groups == [] {
      assert groups + [group] == [group];
      assert Flatten([group]) == group;
    } else {
      assert (groups + [group])[1..] == groups[1..] + [group];
      FlattenSnoc(groups[1..], group);
    }
  }

  // The loop's state after the fragments `done`: closed groups and the open one.
  ghost predicate Packed(name: nat, groups: seq<seq<Fragment>>, current: seq<Fragment>, done: seq<Fragment>) {
    if done == [] then groups == [] && current == [] else Partition(name, groups + [current], done)
  }

  lemma PackedGrows(name: nat, groups: seq<seq<Fragment>>, current: seq<Fragment>, done: seq<Fragment>, next: Fragment)
    requires Packed(name, groups, current, done) && FitsPrompt(name, current + [next])
    ensures Packed(name, groups, current + [next], done + [next])
  {
    hide FitsPrompt;
    FlattenSnoc(groups, current);
    FlattenSnoc(groups, current + [next]);
    var before, after := groups + [current], groups + [current + [next]];
    assert Flatten(groups) + (current + [next]) == (Flatten(groups) + current) + [next];
    if done != [] {
      forall i | 0 <= i < |after|
        ensures after[i] != [] && FitsPrompt(name, after[i])
        ensures before[i] != [] && after[i][0] == before[i][0]
      {
        if i < |groups| {
          assert after[i] == before[i];
        }
        FitsNonEmpty(name, before[i]);
      }
      forall i | 0 <= i < |after| - 1
        ensures !FitsPrompt(name, after[i] + [after[i + 1][0]])
      {
        assert before[i] == after[i];
      }
    }
  }

  lemma FitsNonEmpty(name: nat, group: seq<Fragment>)
    requires FitsPrompt(name, group)
    ensures group != []
  {
  }

  lemma PackedCloses(name: nat, groups: seq<seq<Fragment>>, current: seq<Fragment>, done: seq<Fragment>, next: Fragment)
    requires Packed(name, groups, current, done) && current != []
    requires !FitsPrompt(name, current + [next]) && FitsPrompt(name, [next])
    ensures Packed(name, groups + [current], [next], done + [next])
  {
    hide FitsPrompt;
    var before := groups + [current];
    FlattenSnoc(before, [next]);
    var after := before + [[next]];
    forall i | 0 <= i < |after|
      ensures after[i] != [] && FitsPrompt(name, after[i])
    {
      if i < |before| {
        assert after[i] == before[i];
      }
      FitsNonEmpty(name, after[i]);
    }
    forall i | 0 <= i < |after| - 1
      ensures !FitsPrompt(name, after[i] + [after[i + 1][0]])
    {
      if i < |before| - 1 {
        assert before[i] == after[i] && before[i + 1] == after[i + 1];
      }
    }
  }

  lemma SingleFits(name: nat, current: seq<Fragment>, next: Fragment)
    requires FitsPrompt(name, current + [next])
    ensures FitsPrompt(name, [next])
  {
    PromptMonotone(name, current, [next]);
  }

  method PartitionSynthesisOutputs(name: nat, fragments: seq<Fragment>) returns (r: Result<seq<seq<Fragment>>, AiError>)
    ensures r.Err? ==> r.error == ContextTooLarge
    ensures r.Err? <==> exists i :: 0 <= i < |fragments| && !FitsPrompt(name, [fragments[i]])
    ensures r.Ok? ==> Partition(name, r.value, fragments)
  {
    hide FitsPrompt, Packed, Partition, Flatten;
    var groups: seq<seq<Fragment>> := [];
    var current: seq<Fragment> := [];
    NothingPacked(name);
    for i := 0 to |fragments|
      invariant Packed(name, groups, current, fragments[..i])
      invariant i > 0 <==> current != []
      invariant forall j | 0 <= j < i :: FitsPrompt(name, [fragments[j]])
    {
      var output := fragments[i];
      var candidate := current + [output];
      assert fragments[..i + 1] == fragments[..i] + [output];
      if FitsPrompt(name, candidate) {
        SingleFits(name, current, output);
        PackedGrows(name, groups, current, fragments[..i], output);
        current := candidate;
      } else {
        if current == [] {
          assert candidate == [output];
          return Err(ContextTooLarge);
        }
        if !FitsPrompt(name, [output]) {
          return Err(ContextTooLarge);
        }
        PackedCloses(name, groups, current, fragments[..i], output);
        groups := groups + [current];
        current := [output];
      }
    }
    assert fragments[..|fragments|] == fragments;
    AllPacked(name, groups, current, fragments);
    if current != [] {
      groups := groups + [current];
    }
    return Ok(groups);
  }

  lemma NothingPacked(name: nat)
    ensures Packed(name, [], [], [])
  {
  }

  lemma AllPacked(name: nat, groups: seq<seq<Fragment>>, current: seq<Fragment>, fragments: seq<Fragment>)
    requires Packed(name, groups, current, fragments) && (fragments != [] <==> current != [])
    ensures Partition(name, if current != [] then groups + [current] else groups, fragments)
  {
  }

  // Every group but the last is full: the size limits leave room for at least
  // GROUP_CAPACITY fragments in a prompt.
  lemma {:induction false} GroupsAreLarge(name: nat, groups: seq<seq<Fragment>>, fragments: seq<Fragment>, i: nat)
    requires name <= 7 && Partition(name, groups, fragments) && Bounded(fragments) && i + 1 < |groups|
    ensures |groups[i]| >= GROUP_CAPACITY
  {
    var grown := groups[i] + [groups[i + 1][0]];
    assert !FitsPrompt(name, grown);
    GroupsAreBounded(groups, i);
    GroupsAreBounded(groups, i + 1);
    if |grown| <= GROUP_CAPACITY {
      SmallGroupsFit(name, grown);
    }
  }

  lemma {:induction false} GroupsAreBounded(groups: seq<seq<Fragment>>, i: nat)
    requires Bounded(Flatten(groups)) && i < |groups|
    ensures Bounded(groups[i])
  {
    var first, rest := groups[0], groups[1..];
    assert forall j | 0 <= j < |first| :: Flatten(groups)[j] == first[j];
    if i > 0 {
      assert forall j | 0 <= j < |Flatten(rest)| :: Flatten(rest)[j] == Flatten(groups)[|first| + j];
      GroupsAreBounded(rest, i - 1);
    }
  }

  // ---------------------------------------------------------------------
  // A reduction round is cheap
  // ---------------------------------------------------------------------

  // The groups that cost a turn.
  function Syntheses(groups: seq<seq<Fragment>>): nat {
    if groups == [] then 0 else (if |groups[0]| == 1 then 0 else 1) + Syntheses(groups[1..])
  }

  lemma {:induction false} SynthesesSnoc(groups: seq<seq<Fragment>>, group: seq<Fragment>)
    ensures Syntheses(groups + [group]) == Syntheses(groups) + if |group| == 1 then 0 else 1
  {
    if groups == [] {
      assert groups + [group] == [group];
    } else {
      assert (groups + [group])[1..] == groups[1..] + [group];
      SynthesesSnoc(groups[1..], group);
    }
  }

  lemma {:induction false} LargeGroups(groups: seq<seq<Fragment>>)
    requires groups != [] && groups[|groups| - 1] != []
    requires forall i | 0 <= i < |groups| - 1 :: |groups[i]| >= GROUP_CAPACITY
    ensures |Flatten(groups)| >= GROUP_CAPACITY * (|groups| - 1) + |groups[|groups| - 1]|
    ensures Syntheses(groups) <= |groups| - 1 + if |groups[|groups| - 1]| == 1 then 0 else 1
  {
    if |groups| > 1 {
      LargeGroups(groups[1..]);
    } else {
      assert groups[1..] == [];
    }
  }

  lemma OneGroupIsWhole<T>(groups: seq<seq<T>>)
    ensures |groups| == 1 ==> Flatten(groups) == groups[0]
  {
  }

  // When not all fragments fit one prompt, each turn of the round removes at
  // least eleven fragments.
  lemma {:induction false} RoundsAreCheap(name: nat, groups: seq<seq<Fragment>>, fragments: seq<Fragment>)
    requires name <= 7 && Partition(name, groups, fragments) && Bounded(fragments)
    requires fragments != [] && !FitsPrompt(name, fragments)
    ensures 2 <= |groups| < |fragments|
    ensures 11 * Syntheses(groups) <= |fragments| - |groups|
    ensures Syntheses(groups) >= 1
  {
    OneGroupIsWhole(groups);
    forall i | 0 <= i < |groups| - 1
      ensures |groups[i]| >= GROUP_CAPACITY
    {
      GroupsAreLarge(name, groups, fragments, i);
    }
    FitsNonEmpty(name, groups[|groups| - 1]);
    LargeGroups(groups);
  }

  // ---------------------------------------------------------------------
  // The log of synthesis prompts and what an answer is derived from
  // ---------------------------------------------------------------------

  // What one run depends on: the fragments shown to turn k < |chunks| are those
  // of chunk k, later turns are synthesis turns over the whole context.
  datatype Plan = Plan(
    language: string,
    chunks: seq<seq<Finding>>,
    context: seq<Finding>,
    reviewBytes: Review -> nat,
    answers: nat -> Turn
  )

  function Context(plan: Plan, k: nat): seq<Finding> {
    if k < |plan.chunks| then plan.chunks[k] else plan.context
  }

  ghost predicate Valid(plan: Plan, k: nat) {
    && plan.answers(k).Answered?
    && plan.answers(k).output.Some?
    && ValidReview(Context(plan, k), plan.answers(k).output.value)
  }

  // Accepted as an intermediate result: valid and not too long.
  ghost predicate Intermediate(plan: Plan, k: nat) {
    Valid(plan, k) && plan.reviewBytes(plan.answers(k).output.value) <= MAX_AI_INTERMEDIATE_OUTPUT_BYTES
  }

  // A fragment is the accepted answer of the turn it names.
  ghost predicate Genuine(plan: Plan, fragment: Fragment) {
    && Intermediate(plan, fragment.turn)
    && fragment.review == plan.answers(fragment.turn).output.value
    && fragment.bytes == plan.reviewBytes(fragment.review)
  }

  // The prompts of the synthesis turns so far: each fits and shows only
  // accepted answers of earlier turns.
  ghost predicate Faithful(plan: Plan, name: nat, log: seq<seq<Fragment>>) {
    forall i | 0 <= i < |log| :: Admissible(plan, name, log[i], |plan.chunks| + i)
  }

  ghost predicate Admissible(plan: Plan, name: nat, group: seq<Fragment>, turn: nat) {
    FitsPrompt(name, group) && Earlier(plan, group, turn)
  }

  ghost predicate Earlier(plan: Plan, fragments: seq<Fragment>, turn: nat) {
    forall j | 0 <= j < |fragments| :: Genuine(plan, fragments[j]) && fragments[j].turn < turn
  }

  // The entries of `table` the fragments name, one after the other.
  function Gather(table: seq<seq<nat>>, fragments: seq<Fragment>): seq<nat> {
    if fragments == [] then []
    else (if fragments[0].turn < |table| then table[fragments[0].turn] else []) + Gather(table, fragments[1..])
  }

  // For each turn, the source chunks its answer is derived from, in order.
  function Coverage(n: nat, log: seq<seq<Fragment>>): (table: seq<seq<nat>>)
    ensures |table| == n + |log|
  {
    if log == [] then seq(n, i => [i])
    else
      var table := Coverage(n, log[..|log| - 1]);
      table + [Gather(table, log[|log| - 1])]
  }

  function Range(n: nat): seq<nat> { seq(n, i => i) }

  lemma {:induction false} GatherConcat(table: seq<seq<nat>>, xs: seq<Fragment>, ys: seq<Fragment>)
    ensures Gather(table, xs + ys) == Gather(table, xs) + Gather(table, ys)
  {
    if xs == [] {
      assert xs + ys == ys;
    } else {
      assert (xs + ys)[1..] == xs[1..] + ys;
      GatherConcat(table, xs[1..], ys);
    }
  }

  lemma {:induction false} GatherStable(table: seq<seq<nat>>, row: seq<nat>, fragments: seq<Fragment>)
    requires forall j | 0 <= j < |fragments| :: fragments[j].turn < |table|
    ensures Gather(table + [row], fragments) == Gather(table, fragments)
  {
    if fragments != [] {
      GatherStable(table, row, fragments[1..]);
    }
  }

  lemma CoverageSnoc(n: nat, log: seq<seq<Fragment>>, group: seq<Fragment>)
    ensures Coverage(n, log + [group]) == Coverage(n, log) + [Gather(Coverage(n, log), group)]
  {
  }

  // Everything the plan still holds: accepted answers that together stem from
  // every source chunk exactly once, in source order.
  ghost predicate Complete(plan: Plan, name: nat, log: seq<seq<Fragment>>, fragments: seq<Fragment>) {
    var n := |plan.chunks|;
    && Faithful(plan, name, log)
    && Earlier(plan, fragments, n + |log|)
    && Gather(Coverage(n, log), fragments) == Range(n)
  }

  // The last prompt shows commentary derived from every source chunk once, in
  // source order: it is the final one.
  ghost predicate CoversAll(plan: Plan, log: seq<seq<Fragment>>) {
    var n := |plan.chunks|;
    log != [] && Coverage(n, log)[n + |log| - 1] == Range(n)
  }

  lemma {:induction false} GatherSomething(table: seq<seq<nat>>, fragments: seq<Fragment>)
    requires fragments != [] && fragments[0].turn < |table|
    requires forall k | 0 <= k < |table| :: table[k] != []
    ensures Gather(table, fragments) != []
  {
    assert table[fragments[0].turn] != [];
  }

  // Every turn's answer is derived from some chunk.
  lemma {:induction false} CoverageIsSomething(plan: Plan, name: nat, log: seq<seq<Fragment>>)
    requires Faithful(plan, name, log)
    ensures forall k | 0 <= k < |plan.chunks| + |log| :: Coverage(|plan.chunks|, log)[k] != []
  {
    hide Gather, Genuine;
    var n := |plan.chunks|;
    if log != [] {
      var front, last := log[..|log| - 1], log[|log| - 1];
      assert forall i | 0 <= i < |front| :: front[i] == log[i];
      CoverageIsSomething(plan, name, front);
      assert Admissible(plan, name, last, n + |front|);
      GatherSomething(Coverage(n, front), last);
    }
  }

  // A group that leaves something out is not the final prompt.
  lemma {:induction false} PartialGroup(plan: Plan, name: nat, log: seq<seq<Fragment>>, before: seq<Fragment>,
                                        group: seq<Fragment>, after: seq<Fragment>)
    requires Complete(plan, name, log, before + (group + after)) && (before != [] || after != [])
    ensures !CoversAll(plan, log + [group])
  {
    hide Gather, Coverage, Genuine, Faithful;
    var n, table := |plan.chunks|, Coverage(|plan.chunks|, log);
    var all := before + (group + after);
    CoverageIsSomething(plan, name, log);
    CoverageSnoc(n, log, group);
    GatherConcat(table, before, group + after);
    GatherConcat(table, group, after);
    if before != [] {
      assert all[0] == before[0];
      GatherSomething(table, before);
    } else {
      assert all[|group|] == after[0];
      GatherSomething(table, after);
    }
    assert |Range(n)| == |Gather(table, before)| + |Gather(table, group)| + |Gather(table, after)|;
  }

  // Replacing a group by the accepted answer to its prompt.
  lemma {:induction false} SynthesisKeepsComplete(plan: Plan, name: nat, log: seq<seq<Fragment>>, before: seq<Fragment>,
                                                  group: seq<Fragment>, after: seq<Fragment>, answer: Fragment)
    requires Complete(plan, name, log, before + (group + after)) && FitsPrompt(name, group)
    requires Genuine(plan, answer) && answer.turn == |plan.chunks| + |log|
    ensures Complete(plan, name, log + [group], (before + [answer]) + after)
  {
    var n := |plan.chunks|;
    hide *;
    CoverageSnoc(n, log, group);
    CompleteParts(plan, name, log, before + (group + after));
    EarlierParts(plan, before, group, after, n + |log|, answer);
    FaithfulSnoc(plan, name, log, group);
    GatherReplaces(plan, Coverage(n, log), before, group, after, answer);
    CompleteParts(plan, name, log + [group], (before + [answer]) + after);
  }

  lemma {:induction false} CompleteParts(plan: Plan, name: nat, log: seq<seq<Fragment>>, fragments: seq<Fragment>)
    ensures Complete(plan, name, log, fragments) <==>
            && Faithful(plan, name, log)
            && Earlier(plan, fragments, |plan.chunks| + |log|)
            && Gather(Coverage(|plan.chunks|, log), fragments) == Range(|plan.chunks|)
  {
  }

  lemma {:induction false} GatherReplaces(plan: Plan, table: seq<seq<nat>>, before: seq<Fragment>, group: seq<Fragment>,
                                          after: seq<Fragment>, answer: Fragment)
    requires Earlier(plan, before, |table|) && Earlier(plan, after, |table|) && answer.turn == |table|
    ensures Gather(table + [Gather(table, group)], (before + [answer]) + after) ==
            Gather(table, before + (group + after))
  {
    var row := Gather(table, group);
    hide Gather, Genuine;
    GatherConcat(table, before, group + after);
    GatherConcat(table, group, after);
    GatherStable(table, row, before);
    GatherStable(table, row, after);
    GatherConcat(table + [row], before + [answer], after);
    GatherConcat(table + [row], before, [answer]);
    GatherNew(table, row, answer);
    assert Gather(table, before) + (row + Gather(table, after)) == (Gather(table, before) + row) + Gather(table, after);
  }

  lemma GatherNew(table: seq<seq<nat>>, row: seq<nat>, answer: Fragment)
    requires answer.turn == |table|
    ensures Gather(table + [row], [answer]) == row
  {
  }

  lemma EarlierParts(plan: Plan, before: seq<Fragment>, group: seq<Fragment>, after: seq<Fragment>, turn: nat,
                     answer: Fragment)
    requires Earlier(plan, before + (group + after), turn) && Genuine(plan, answer) && answer.turn == turn
    ensures Earlier(plan, before, turn) && Earlier(plan, group, turn) && Earlier(plan, after, turn)
    ensures Earlier(plan, (before + [answer]) + after, turn + 1)
  {
    hide Genuine;
    var all := before + (group + after);
    assert forall j | 0 <= j < |before| :: before[j] == all[j];
    assert forall j | 0 <= j < |group| :: group[j] == all[|before| + j];
    assert forall j | 0 <= j < |after| :: after[j] == all[|before| + |group| + j];
  }

  lemma FaithfulSnoc(plan: Plan, name: nat, log: seq<seq<Fragment>>, group: seq<Fragment>)
    requires Faithful(plan, name, log) && FitsPrompt(name, group) && Earlier(plan, group, |plan.chunks| + |log|)
    ensures Faithful(plan, name, log + [group])
  {
  }

  // ---------------------------------------------------------------------
  // The turns
  // ---------------------------------------------------------------------

  // What a refused turn is reported as.
  function Refusal(plan: Plan, k: nat): PlanError {
    if plan.answers(k).Failed? then CodexError else Rejected(InvalidModelOutput)
  }

  method TakeTurn(plan: Plan, k: nat) returns (r: Result<Review, PlanError>)
    ensures r.Ok? <==> Valid(plan, k)
    ensures r.Ok? ==> plan.answers(k) == Answered(Some(r.value))
    ensures r.Err? ==> r.error == Refusal(plan, k)
  {
    match plan.answers(k)
    case Failed =>
      return Err(CodexError);
    case Answered(output) =>
      if output.None? {
        return Err(Rejected(InvalidModelOutput));
      }
      var ok := ValidateReview(Context(plan, k), output.value);
      return if ok then Ok(output.value) else Err(Rejected(InvalidModelOutput));
  }

  method TakeIntermediateTurn(plan: Plan, k: nat) returns (r: Result<Fragment, PlanError>)
    ensures r.Ok? <==> Intermediate(plan, k)
    ensures r.Ok? ==> Genuine(plan, r.value) && r.value.turn == k
    ensures r.Err? ==> r.error == Refusal(plan, k)
  {
    var review := TakeTurn(plan, k);
    if review.Err? {
      return Err(review.error);
    }
    var bytes := plan.reviewBytes(review.value);
    if bytes > MAX_AI_INTERMEDIATE_OUTPUT_BYTES {
      return Err(Rejected(InvalidModelOutput));
    }
    return Ok(Fragment(review.value, bytes, k));
  }

  // The turns were all accepted, except that a failing run ends with a refused one.
  ghost predicate Accepted(plan: Plan, from: nat, to: nat, failure: Option<PlanError>) {
    && (forall k | from <= k < to :: Intermediate(plan, k))
    && (failure.Some? ==> !Intermediate(plan, to) && failure.value == Refusal(plan, to))
  }

  // The first loop, for a plan of several chunks: one accepted review a chunk.
  method ReviewSources(plan: Plan) returns (r: Result<seq<Fragment>, PlanError>, turns: nat)
    ensures turns <= |plan.chunks|
    ensures r.Ok? ==> turns == |plan.chunks| && Accepted(plan, 0, turns, None)
    ensures r.Ok? ==>
              |r.value| == turns && forall k | 0 <= k < turns :: Genuine(plan, r.value[k]) && r.value[k].turn == k
    ensures r.Err? ==> turns > 0 && Accepted(plan, 0, turns - 1, Some(r.error))
  {
    var outputs: seq<Fragment> := [];
    for i := 0 to |plan.chunks|
      invariant |outputs| == i
      invariant forall k | 0 <= k < i :: Intermediate(plan, k) && Genuine(plan, outputs[k]) && outputs[k].turn == k
    {
      hide Intermediate, Genuine;
      var answer := TakeIntermediateTurn(plan, i);
      if answer.Err? {
        return Err(answer.error), i + 1;
      }
      outputs := outputs + [answer.value];
    }
    return Ok(outputs), |plan.chunks|;
  }

  lemma {:induction false} SourcesAreComplete(n: nat, fragments: seq<Fragment>)
    requires |fragments| <= n && forall k | 0 <= k < |fragments| :: fragments[k].turn == k
    ensures Gather(Coverage(n, []), fragments) == Range(|fragments|)
  {
    var table := Coverage(n, []);
    if fragments != [] {
      var last := |fragments| - 1;
      var front, end := fragments[..last], [fragments[last]];
      SourcesAreComplete(n, front);
      assert front + end == fragments && end[1..] == [];
      GatherConcat(table, front, end);
    }
  }

  // ---------------------------------------------------------------------
  // A reduction round
  // ---------------------------------------------------------------------

  // One round over the groups of a partition.
  method ReduceGroups(plan: Plan, name: nat, groups: seq<seq<Fragment>>, log: seq<seq<Fragment>>)
    returns (r: Result<seq<Fragment>, PlanError>, sent: seq<seq<Fragment>>)
    requires Complete(plan, name, log, Flatten(groups))
    requires |groups| >= 2 && forall i | 0 <= i < |groups| :: FitsPrompt(name, groups[i])
    ensures |log| <= |sent| <= |log| + Syntheses(groups)
    ensures r.Ok? ==> |sent| == |log| + Syntheses(groups)
    ensures r.Ok? ==> Complete(plan, name, sent, r.value) && |r.value| == |groups|
    ensures r.Err? ==> !CoversAll(plan, sent)
    ensures r.Ok? ==> Accepted(plan, |plan.chunks| + |log|, |plan.chunks| + |sent|, None)
    ensures r.Err? ==> |log| < |sent| && Faithful(plan, name, sent)
    ensures r.Err? ==> Accepted(plan, |plan.chunks| + |log|, |plan.chunks| + |sent| - 1, Some(r.error))
  {
    hide *;
    var n := |plan.chunks|;
    var reduced: seq<Fragment> := [];
    sent := log;
    assert groups[0..] == groups && [] + Flatten(groups) == Flatten(groups);
    NothingSpent(plan, n + |log|, groups);
    for i := 0 to |groups|
      invariant |reduced| == i
      invariant |sent| == |log| + Syntheses(groups[..i])
      invariant Complete(plan, name, sent, reduced + Flatten(groups[i..]))
      invariant Accepted(plan, n + |log|, n + |sent|, None)
    {
      var group := groups[i];
      assert groups[i..] == [group] + groups[i + 1..];
      FlattenHead(group, groups[i + 1..]);
      assert groups[..i + 1] == groups[..i] + [group];
      SynthesesSnoc(groups[..i], group);
      SpentMonotone(groups, i + 1);
      if |group| == 1 {
        reduced := reduced + [group[0]];
        assert group == [group[0]];
        Regroup(reduced[..i], group, Flatten(groups[i + 1..]));
        continue;
      }
      if !FitsPrompt(name, group) {
        // The source reports ContextTooLarge here; the partition rules it out.
        assert false;
      }
      var answer := TakeIntermediateTurn(plan, n + |sent|);
      AcceptedSnoc(plan, n + |log|, n + |sent|, answer);
      if answer.Err? {
        GroupIsAdmissible(plan, name, sent, reduced, group, Flatten(groups[i + 1..]));
        SomethingElse(name, groups, i);
        PartialGroup(plan, name, sent, reduced, group, Flatten(groups[i + 1..]));
        return Err(answer.error), sent + [group];
      }
      SynthesisKeepsComplete(plan, name, sent, reduced, group, Flatten(groups[i + 1..]), answer.value);
      sent := sent + [group];
      reduced := reduced + [answer.value];
    }
    assert groups[..|groups|] == groups;
    NothingLeft(groups, reduced);
    return Ok(reduced), sent;
  }

  // Another group comes before or after each one.
  lemma SomethingElse(name: nat, groups: seq<seq<Fragment>>, i: nat)
    requires |groups| >= 2 && i < |groups|
    requires forall j | 0 <= j < |groups| :: FitsPrompt(name, groups[j])
    ensures i > 0 || Flatten(groups[i + 1..]) != []
  {
    if i == 0 {
      var rest := groups[1..];
      assert rest[0] == groups[1] && groups[1] != [];
      assert Flatten(rest) == rest[0] + Flatten(rest[1..]);
    }
  }

  lemma NothingSpent(plan: Plan, k: nat, groups: seq<seq<Fragment>>)
    ensures Accepted(plan, k, k, None) && Syntheses(groups[..0]) == 0
  {
  }

  lemma NothingLeft(groups: seq<seq<Fragment>>, reduced: seq<Fragment>)
    ensures reduced + Flatten(groups[|groups|..]) == reduced
  {
  }

  lemma FlattenHead<T>(group: seq<T>, groups: seq<seq<T>>)
    ensures Flatten([group] + groups) == group + Flatten(groups)
  {
  }

  lemma Regroup<T>(xs: seq<T>, ys: seq<T>, zs: seq<T>)
    ensures xs + (ys + zs) == (xs + ys) + zs
  {
  }

  lemma {:induction false} SpentMonotone(groups: seq<seq<Fragment>>, i: nat)
    requires i <= |groups|
    ensures Syntheses(groups[..i]) <= Syntheses(groups)
    decreases |groups| - i
  {
    if i < |groups| {
      SpentMonotone(groups, i + 1);
      assert groups[..i + 1] == groups[..i] + [groups[i]];
      SynthesesSnoc(groups[..i], groups[i]);
    } else {
      assert groups[..i] == groups;
    }
  }

  lemma AcceptedSnoc(plan: Plan, from: nat, k: nat, answer: Result<Fragment, PlanError>)
    requires Accepted(plan, from, k, None)
    requires answer.Ok? <==> Intermediate(plan, k)
    requires answer.Err? ==> answer.error == Refusal(plan, k)
    ensures answer.Ok? ==> Accepted(plan, from, k + 1, None)
    ensures answer.Err? ==> Accepted(plan, from, k, Some(answer.error))
  {
  }

  lemma {:induction false} GroupIsAdmissible(plan: Plan, name: nat, log: seq<seq<Fragment>>, before: seq<Fragment>,
                                             group: seq<Fragment>, after: seq<Fragment>)
    requires Complete(plan, name, log, before + (group + after)) && FitsPrompt(name, group)
    ensures Faithful(plan, name, log + [group])
  {
    hide Faithful, FitsPrompt, Genuine, Gather, Coverage;
    var all := before + (group + after);
    assert forall j | 0 <= j < |group| :: group[j] == all[|before| + j];
    FaithfulSnoc(plan, name, log, group);
  }

  lemma {:induction false} CompleteIsBounded(plan: Plan, name: nat, log: seq<seq<Fragment>>, fragments: seq<Fragment>)
    requires Complete(plan, name, log, fragments)
    ensures Bounded(fragments)
    ensures Faithful(plan, name, log)
  {
  }

  method ReduceRound(plan: Plan, name: nat, fragments: seq<Fragment>, log: seq<seq<Fragment>>)
    returns (r: Result<seq<Fragment>, PlanError>, sent: seq<seq<Fragment>>)
    requires name <= 7 && fragments != [] && !FitsPrompt(name, fragments)
    requires Complete(plan, name, log, fragments)
    ensures |log| <= |sent|
    ensures r.Ok? ==> Complete(plan, name, sent, r.value) && 2 <= |r.value| < |fragments|
    ensures r.Ok? ==> |log| < |sent| && 11 * (|sent| - |log|) <= |fragments| - |r.value|
    ensures r.Err? ==> !CoversAll(plan, sent)
    ensures r.Ok? ==> Accepted(plan, |plan.chunks| + |log|, |plan.chunks| + |sent|, None)
    ensures r.Err? ==> |log| < |sent| && 11 * (|sent| - |log|) <= |fragments| - 2 && Faithful(plan, name, sent)
    ensures r.Err? ==> Accepted(plan, |plan.chunks| + |log|, |plan.chunks| + |sent| - 1, Some(r.error))
  {
    hide *;
    CompleteIsBounded(plan, name, log, fragments);
    var partition := PartitionSynthesisOutputs(name, fragments);
    SinglesFit(name, fragments);
    if partition.Err? {
      // No accepted fragment is too long for a prompt of its own.
      assert false;
    }
    var groups := partition.value;
    RoundsAreCheap(name, groups, fragments);
    if |groups| >= |fragments| {
      // The source reports ContextTooLarge here; the first group is never that small.
      assert false;
    }
    PartitionParts(name, groups, fragments);
    r, sent := ReduceGroups(plan, name, groups, log);
  }

  lemma SinglesFit(name: nat, fragments: seq<Fragment>)
    requires name <= 7 && Bounded(fragments)
    ensures forall i | 0 <= i < |fragments| :: FitsPrompt(name, [fragments[i]])
  {
    forall i | 0 <= i < |fragments|
      ensures FitsPrompt(name, [fragments[i]])
    {
      SmallGroupsFit(name, [fragments[i]]);
    }
  }

  lemma PartitionParts(name: nat, groups: seq<seq<Fragment>>, fragments: seq<Fragment>)
    requires Partition(name, groups, fragments)
    ensures Flatten(groups) == fragments
    ensures forall i | 0 <= i < |groups| :: FitsPrompt(name, groups[i])
  {
  }

  // ---------------------------------------------------------------------
  // The whole plan
  // ---------------------------------------------------------------------

  // A plan of several chunks, from its accepted source reviews on: the last
  // entry of the log is the final prompt.
  method Synthesise(plan: Plan, name: nat, sources: seq<Fragment>)
    returns (r: Result<Review, PlanError>, sent: seq<seq<Fragment>>)
    requires name <= 7 && sources != [] && |sources| == |plan.chunks|
    requires Complete(plan, name, [], sources)
    ensures sent != [] && Faithful(plan, name, sent)
    ensures 11 * (|sent| - 1) <= |plan.chunks| - 1
    ensures Accepted(plan, |plan.chunks|, |plan.chunks| + |sent| - 1, None)
    ensures Concluded(plan, r, |plan.chunks| + |sent| - 1, sent)
    ensures if FitsPrompt(name, sources) then sent == [sources] else CoversAll(plan, sent) ==> |sent| >= 2
  {
    hide *;
    var n := |plan.chunks|;
    var outputs := sources;
    sent := [];
    NothingSpent(plan, n, []);
    while true
      invariant Complete(plan, name, sent, outputs) && outputs != []
      invariant if sent == [] then outputs == sources else !FitsPrompt(name, sources)
      invariant 11 * |sent| <= n - |outputs|
      invariant Accepted(plan, n, n + |sent|, None)
      decreases |outputs|
    {
      if FitsPrompt(name, outputs) {
        r := TakeTurn(plan, n + |sent|);
        Finishing(plan, name, sent, outputs, r);
        sent := sent + [outputs];
        return;
      }
      var reduced, spent := ReduceRound(plan, name, outputs, sent);
      if reduced.Err? {
        AcceptedJoin(plan, n, n + |sent|, n + |spent| - 1, Some(reduced.error));
        Reduced(plan, spent, reduced.error);
        return Err(reduced.error), spent;
      }
      AcceptedJoin(plan, n, n + |sent|, n + |spent|, None);
      outputs, sent := reduced.value, spent;
    }
  }

  lemma AcceptedJoin(plan: Plan, from: nat, middle: nat, to: nat, failure: Option<PlanError>)
    requires from <= middle <= to
    requires Accepted(plan, from, middle, None) && Accepted(plan, middle, to, failure)
    ensures Accepted(plan, from, to, failure)
  {
  }

  // The last turn's answer is the run's if it is valid and the prompt was the
  // final one; an earlier prompt ends the run only by being refused.
  ghost predicate Concluded(plan: Plan, r: Result<Review, PlanError>, last: nat, log: seq<seq<Fragment>>) {
    if (if CoversAll(plan, log) then Valid(plan, last) else Intermediate(plan, last)) then
      CoversAll(plan, log) && r.Ok? && plan.answers(last) == Answered(Some(r.value))
    else r == Err(Refusal(plan, last))
  }

  lemma Reduced(plan: Plan, log: seq<seq<Fragment>>, error: PlanError)
    requires !CoversAll(plan, log) && log != []
    requires Accepted(plan, |plan.chunks|, |plan.chunks| + |log| - 1, Some(error))
    ensures Concluded(plan, Err(error), |plan.chunks| + |log| - 1, log)
    ensures Accepted(plan, |plan.chunks|, |plan.chunks| + |log| - 1, None)
  {
  }

  lemma {:induction false} Finishing(plan: Plan, name: nat, log: seq<seq<Fragment>>, outputs: seq<Fragment>,
                                     r: Result<Review, PlanError>)
    requires Complete(plan, name, log, outputs) && FitsPrompt(name, outputs)
    requires r.Ok? <==> Valid(plan, |plan.chunks| + |log|)
    requires r.Ok? ==> plan.answers(|plan.chunks| + |log|) == Answered(Some(r.value))
    requires r.Err? ==> r.error == Refusal(plan, |plan.chunks| + |log|)
    ensures Faithful(plan, name, log + [outputs])
    ensures Concluded(plan, r, |plan.chunks| + |log|, log + [outputs])
  {
    hide Gather, Coverage, Faithful, FitsPrompt, Earlier;
    FaithfulSnoc(plan, name, log, outputs);
    CoverageSnoc(|plan.chunks|, log, outputs);
  }

  // The fragments of the source turns, once they are all accepted.
  ghost function Sources(plan: Plan): seq<Fragment>
    requires Accepted(plan, 0, |plan.chunks|, None)
  {
    seq(|plan.chunks|, k requires 0 <= k < |plan.chunks| && Intermediate(plan, k) =>
      Fragment(plan.answers(k).output.value, plan.reviewBytes(plan.answers(k).output.value), k))
  }

  // What a caller learns from a run of `turns` paid turns that sent `log` as
  // its synthesis prompts.
  ghost predicate Outcome(plan: Plan, r: Result<Review, PlanError>, turns: nat, log: seq<seq<Fragment>>) {
    var n := |plan.chunks|;
    var name := OutputLanguage(plan.language);
    if n == 0 then
      log == [] && turns == 0 && r == Err(Rejected(if name.None? then UnsupportedLanguage else InvalidModelOutput))
    else if n == 1 then
      log == [] && turns == 1
      && if Valid(plan, 0) then r.Ok? && plan.answers(0) == Answered(Some(r.value)) else r == Err(Refusal(plan, 0))
    else if !Accepted(plan, 0, n, None) then
      log == [] && 0 < turns <= n && r.Err? && Accepted(plan, 0, turns - 1, Some(r.error))
    else if name.None? then
      log == [] && turns == n && r == Err(Rejected(UnsupportedLanguage))
    else
      && log != [] && turns == n + |log|
      && 11 * (turns - n - 1) <= n - 1
      && Faithful(plan, |name.value|, log)
      && Accepted(plan, 0, turns - 1, None)
      && Concluded(plan, r, turns - 1, log)
      && if FitsPrompt(|name.value|, Sources(plan)) then log == [Sources(plan)]
         else CoversAll(plan, log) ==> |log| >= 2
  }

  method ExecuteGroundedPlan(plan: Plan) returns (r: Result<Review, PlanError>, turns: nat, log: seq<seq<Fragment>>)
    ensures Outcome(plan, r, turns, log)
  {
    hide Accepted, Valid, Concluded, Faithful, Complete, Intermediate, Genuine, Earlier, Coverage, Gather, Sources;
    log := [];
    var n := |plan.chunks|;
    if n == 1 {
      r := TakeTurn(plan, 0);
      return r, 1, log;
    }
    var sources, spent := ReviewSources(plan);
    turns := spent;
    if sources.Err? {
      RefusedIsNotAccepted(plan, turns - 1, n, sources.error);
      return Err(sources.error), turns, log;
    }
    var language := OutputLanguage(plan.language);
    if language.None? {
      return Err(Rejected(UnsupportedLanguage)), turns, log;
    }
    if n == 0 {
      return Err(Rejected(InvalidModelOutput)), turns, log;
    }
    StartingComplete(plan, |language.value|, sources.value);
    GenuineSources(plan, sources.value);
    r, log := Synthesise(plan, |language.value|, sources.value);
    turns := n + |log|;
    AcceptedJoin(plan, 0, n, turns - 1, None);
  }

  lemma GenuineSources(plan: Plan, sources: seq<Fragment>)
    requires Accepted(plan, 0, |plan.chunks|, None) && |sources| == |plan.chunks|
    requires forall k | 0 <= k < |sources| :: Genuine(plan, sources[k]) && sources[k].turn == k
    ensures sources == Sources(plan)
  {
    forall k | 0 <= k < |sources|
      ensures sources[k] == Sources(plan)[k]
    {
      assert Genuine(plan, sources[k]);
    }
  }

  lemma RefusedIsNotAccepted(plan: Plan, k: nat, n: nat, error: PlanError)
    requires k < n && Accepted(plan, 0, k, Some(error))
    ensures !Accepted(plan, 0, n, None)
  {
  }

  lemma {:induction false} StartingComplete(plan: Plan, name: nat, sources: seq<Fragment>)
    requires |sources| == |plan.chunks|
    requires forall k | 0 <= k < |sources| :: Genuine(plan, sources[k]) && sources[k].turn == k
    ensures Complete(plan, name, [], sources)
  {
    SourcesAreComplete(|plan.chunks|, sources);
  }

  // ---------------------------------------------------------------------
  // What the plan guarantees
  // ---------------------------------------------------------------------

  // No run pays for more than twice as many turns as there are chunks, and in
  // fact hardly more than one synthesis turn; a successful one needs a turn a
  // chunk and one more. A reduction round never gives up for lack of room.
  lemma {:induction false} TurnsAreBounded(plan: Plan, r: Result<Review, PlanError>, turns: nat,
                                           log: seq<seq<Fragment>>)
    requires Outcome(plan, r, turns, log)
    ensures var n := |plan.chunks|;
            && turns <= 2 * n
            && (n > 1 && turns > n ==> 11 * (turns - n - 1) <= n - 1)
            && (n > 1 && r.Ok? ==> turns >= n + 1)
            && r != Err(Rejected(ContextTooLarge))
  {
    hide Faithful, Valid, Intermediate, CoversAll, Sources;
  }

  // The announced plan of a turn a chunk and one more is kept by a successful run
  // over several chunks exactly when the source fragments fit one prompt, which
  // up to 23 of them always do.
  lemma {:induction false} PlannedTurnsAreExact(plan: Plan, review: Review, turns: nat, log: seq<seq<Fragment>>)
    requires Outcome(plan, Ok(review), turns, log)
    ensures |plan.chunks| == 1 ==> turns == 1
    ensures |plan.chunks| > 1 ==>
              && Accepted(plan, 0, |plan.chunks|, None) && OutputLanguage(plan.language).Some?
              && (turns == |plan.chunks| + 1 <==>
                    FitsPrompt(|OutputLanguage(plan.language).value|, Sources(plan)))
    ensures 1 < |plan.chunks| <= GROUP_CAPACITY ==> turns == |plan.chunks| + 1
  {
    hide Faithful, Valid, CoversAll, FitsPrompt, Intermediate;
    var n := |plan.chunks|;
    if n > 1 {
      SourcesAreBounded(plan);
      if n <= GROUP_CAPACITY {
        SmallGroupsFit(|OutputLanguage(plan.language).value|, Sources(plan));
      }
    }
  }

  lemma SourcesAreBounded(plan: Plan)
    requires Accepted(plan, 0, |plan.chunks|, None)
    ensures Bounded(Sources(plan))
  {
    hide Valid;
    forall k | 0 <= k < |plan.chunks|
      ensures Sources(plan)[k].bytes <= MAX_AI_INTERMEDIATE_OUTPUT_BYTES
    {
      assert Intermediate(plan, k);
    }
  }

  // The answer is that of the last turn, valid against the only chunk or the
  // whole context; every earlier turn was accepted against its own context.
  lemma {:induction false} AnswersAreGrounded(plan: Plan, review: Review, turns: nat, log: seq<seq<Fragment>>)
    requires Outcome(plan, Ok(review), turns, log)
    ensures turns > 0 && plan.answers(turns - 1) == Answered(Some(review))
    ensures ValidReview(if |plan.chunks| == 1 then plan.chunks[0] else plan.context, review)
    ensures forall k | 0 <= k < turns - 1 ::
              && plan.answers(k).Answered? && plan.answers(k).output.Some?
              && ValidReview(if k < |plan.chunks| then plan.chunks[k] else plan.context, plan.answers(k).output.value)
              && plan.reviewBytes(plan.answers(k).output.value) <= 64 * 1024
  {
    hide Faithful, ValidReviewFor, Coverage, Sources;
    forall k | 0 <= k < turns - 1
      ensures
        && plan.answers(k).Answered? && plan.answers(k).output.Some?
        && ValidReview(if k < |plan.chunks| then plan.chunks[k] else plan.context, plan.answers(k).output.value)
        && plan.reviewBytes(plan.answers(k).output.value) <= 64 * 1024
    {
      assert Intermediate(plan, k);
    }
  }

  // A failing run in a known language reports a failed turn as such and any
  // other refused answer as invalid; it is the last turn that was refused.
  lemma {:induction false} FailuresAreReported(plan: Plan, error: PlanError, turns: nat, log: seq<seq<Fragment>>)
    requires Outcome(plan, Err(error), turns, log)
    requires plan.chunks != [] && (plan.language == "en" || plan.language == "ar")
    ensures turns > 0
    ensures error == if plan.answers(turns - 1).Failed? then CodexError else Rejected(InvalidModelOutput)
    ensures forall k | 0 <= k < turns - 1 :: Intermediate(plan, k)
    ensures !Intermediate(plan, turns - 1) || (turns > |plan.chunks| && !Valid(plan, turns - 1))
  {
    hide Faithful, Valid, CoversAll, Sources;
  }

  // With unique finding ids every accepted answer, intermediate or final, is
  // valid against the full context.
  lemma {:induction false} EveryAnswerIsGrounded(plan: Plan, k: nat)
    requires UniqueIds(plan.context)
    requires forall i, f | 0 <= i < |plan.chunks| && f in plan.chunks[i] :: f in plan.context
    requires Valid(plan, k)
    ensures ValidReview(plan.context, plan.answers(k).output.value)
  {
    if k < |plan.chunks| {
      ChunkValidityImpliesFullValidity(plan.chunks[k], plan.context, plan.answers(k).output.value);
    }
  }

  // On success over several chunks, the final prompt fits, shows only accepted
  // answers of earlier turns, and stems from each chunk once, in order.
  lemma {:induction false} FinalPromptCoversEverything(plan: Plan, review: Review, turns: nat, log: seq<seq<Fragment>>)
    requires |plan.chunks| > 1 && Outcome(plan, Ok(review), turns, log)
    ensures log != [] && Coverage(|plan.chunks|, log)[turns - 1] == Range(|plan.chunks|)
    ensures FitsPrompt(|OutputLanguage(plan.language).value|, log[|log| - 1])
    ensures forall f | f in log[|log| - 1] ::
              && f.turn < turns - 1
              && plan.answers(f.turn) == Answered(Some(f.review))
              && ValidReview(Context(plan, f.turn), f.review)
  {
    hide ValidReviewFor, FitsPrompt, Coverage, Sources;
    assert Admissible(plan, |OutputLanguage(plan.language).value|, log[|log| - 1], turns - 1);
  }
}
