/**
 Grounding of AI commentary: every finding and every piece of evidence a
 review cites must belong to the deterministic findings it was given.
 */
module AiReview {
  import opened Wrappers
  import opened Text

  const MAX_SUMMARY_CHARS: nat := 4_000
  const MAX_TEXT_CHARS: nat := 2_000
  const MAX_LIST_ITEMS: nat := 100
  const MAX_RISK_FINDINGS: nat := 20

  datatype Evidence = Evidence(sheet: string, cell: Option<string>)

  datatype Finding = Finding(id: string, sheet: Option<string>, cell: Option<string>, evidence: seq<Evidence>)

  datatype Priority = High | Medium | Low

  datatype Risk = Risk(priority: Priority, findingIds: seq<string>, reason: string, evidenceRefs: seq<string>)

  datatype Review = Review(
    summary: string,
    risks: seq<Risk>,
    recommendations: seq<string>,
    rfiSuggestions: seq<string>,
    limitations: seq<string>,
    assumptions: seq<string>
  )

  type EvidenceMap = map<string, set<string>>

  // The references a finding offers: its own cell and the cells of its evidence.
  function References(finding: Finding): set<string> {
    (if finding.sheet.Some? && finding.cell.Some? then {finding.sheet.value + ":" + finding.cell.value} else {}) +
    set e | e in finding.evidence && e.cell.Some? :: e.sheet + ":" + e.cell.value
  }

  // Findings by id; a later finding replaces an earlier one with the same id.
  function EvidenceByFinding(findings: seq<Finding>): EvidenceMap {
    if findings == [] then map[]
    else
      var last := findings[|findings| - 1];
      EvidenceByFinding(findings[..|findings| - 1])[last.id := References(last)]
  }

  // ---------------------------------------------------------------------
  // Validity
  // ---------------------------------------------------------------------

  predicate ValidText(value: string, maximum: nat) {
    var trimmed := Trim(value);
    trimmed != [] && |trimmed| <= maximum && '\0' !in trimmed
  }

  predicate ValidTexts(values: seq<string>) {
    |values| <= MAX_LIST_ITEMS && forall i | 0 <= i < |values| :: ValidText(values[i], MAX_TEXT_CHARS)
  }

  predicate Distinct<T(==)>(s: seq<T>) {
    forall i, j | 0 <= i < j < |s| :: s[i] != s[j]
  }

  ghost predicate Supports(evidence: EvidenceMap, ids: seq<string>, reference: string) {
    exists id :: id in ids && id in evidence && reference in evidence[id]
  }

  ghost predicate ValidRisk(evidence: EvidenceMap, risk: Risk) {
    && ValidText(risk.reason, MAX_TEXT_CHARS)
    && 1 <= |risk.findingIds| <= MAX_RISK_FINDINGS
    && Distinct(risk.findingIds)
    && (forall i | 0 <= i < |risk.findingIds| :: risk.findingIds[i] in evidence)
    && Distinct(risk.evidenceRefs)
    && (forall i | 0 <= i < |risk.evidenceRefs| :: Supports(evidence, risk.findingIds, risk.evidenceRefs[i]))
  }

  predicate CitesNone(risk: Risk, ids: set<string>) {
    forall i | 0 <= i < |risk.findingIds| :: risk.findingIds[i] !in ids
  }

  function Cited(risks: seq<Risk>): set<string> {
    set i, j | 0 <= i < |risks| && 0 <= j < |risks[i].findingIds| :: risks[i].findingIds[j]
  }

  ghost predicate ValidReviewFor(evidence: EvidenceMap, review: Review) {
    && ValidText(review.summary, MAX_SUMMARY_CHARS)
    && ValidTexts(review.recommendations)
    && ValidTexts(review.rfiSuggestions)
    && ValidTexts(review.limitations)
    && ValidTexts(review.assumptions)
    && |review.risks| <= MAX_LIST_ITEMS
    && (forall i | 0 <= i < |review.risks| :: ValidRisk(evidence, review.risks[i]))
    && (forall i | 0 <= i < |review.risks| :: CitesNone(review.risks[i], Cited(review.risks[..i])))
  }

  ghost predicate ValidReview(findings: seq<Finding>, review: Review) {
    ValidReviewFor(EvidenceByFinding(findings), review)
  }

  method ValidateTexts(values: seq<string>) returns (ok: bool)
    ensures ok <==> ValidTexts(values)
  {
    if |values| > MAX_LIST_ITEMS {
      return false;
    }
    for i := 0 to |values|
      invariant forall j | 0 <= j < i :: ValidText(values[j], MAX_TEXT_CHARS)
    {
      if !ValidText(values[i], MAX_TEXT_CHARS) {
        return false;
      }
    }
    return true;
  }

  // The inner loops: one risk against the ids already cited by earlier risks.
  method ValidateRisk(evidence: EvidenceMap, risk: Risk, seen: set<string>) returns (ok: bool, nowSeen: set<string>)
    ensures ok <==> ValidRisk(evidence, risk) && CitesNone(risk, seen)
    ensures ok ==> nowSeen == seen + set i | 0 <= i < |risk.findingIds| :: risk.findingIds[i]
  {
    nowSeen := seen;
    if !ValidText(risk.reason, MAX_TEXT_CHARS) || risk.findingIds == [] || |risk.findingIds| > MAX_RISK_FINDINGS {
      return false, nowSeen;
    }
    var allowed: set<string> := {};
    var local: set<string> := {};
    for i := 0 to |risk.findingIds|
      invariant local == set j | 0 <= j < i :: risk.findingIds[j]
      invariant nowSeen == seen + local
      invariant forall j | 0 <= j < i :: risk.findingIds[j] in evidence && risk.findingIds[j] !in seen
      invariant forall j, k | 0 <= j < k < i :: risk.findingIds[j] != risk.findingIds[k]
      invariant forall r ::
                  r in allowed <==>
                  exists j :: 0 <= j < i && risk.findingIds[j] in evidence && r in evidence[risk.findingIds[j]]
    {
      var id := risk.findingIds[i];
      if id in local || id in nowSeen || id !in evidence {
        return false, nowSeen;
      }
      local := local + {id};
      nowSeen := nowSeen + {id};
      allowed := allowed + evidence[id];
    }
    forall r
      ensures r in allowed <==> Supports(evidence, risk.findingIds, r)
    {
    }
    var seenEvidence: set<string> := {};
    for i := 0 to |risk.evidenceRefs|
      invariant seenEvidence == set j | 0 <= j < i :: risk.evidenceRefs[j]
      invariant forall j, k | 0 <= j < k < i :: risk.evidenceRefs[j] != risk.evidenceRefs[k]
      invariant forall j | 0 <= j < i :: Supports(evidence, risk.findingIds, risk.evidenceRefs[j])
    {
      if risk.evidenceRefs[i] in seenEvidence || risk.evidenceRefs[i] !in allowed {
        return false, nowSeen;
      }
      seenEvidence := seenEvidence + {risk.evidenceRefs[i]};
    }
    return true, nowSeen;
  }

  method ValidateReview(findings: seq<Finding>, review: Review) returns (ok: bool)
    ensures ok <==> ValidReview(findings, review)
  {
    if !ValidText(review.summary, MAX_SUMMARY_CHARS) {
      return false;
    }
    var texts := ValidateTexts(review.recommendations);
    if !texts {
      return false;
    }
    texts := ValidateTexts(review.rfiSuggestions);
    if !texts {
      return false;
    }
    texts := ValidateTexts(review.limitations);
    if !texts {
      return false;
    }
    texts := ValidateTexts(review.assumptions);
    if !texts || |review.risks| > MAX_LIST_ITEMS {
      return false;
    }
    ok := ValidateRisks(EvidenceByFinding(findings), review.risks);
  }

  method ValidateRisks(evidence: EvidenceMap, risks: seq<Risk>) returns (ok: bool)
    ensures ok <==>
            && (forall i | 0 <= i < |risks| :: ValidRisk(evidence, risks[i]))
            && (forall i | 0 <= i < |risks| :: CitesNone(risks[i], Cited(risks[..i])))
  {
    var seen: set<string> := {};
    for i := 0 to |risks|
      invariant seen == Cited(risks[..i])
      invariant forall j | 0 <= j < i :: ValidRisk(evidence, risks[j]) && CitesNone(risks[j], Cited(risks[..j]))
    {
      var valid, now := ValidateRisk(evidence, risks[i], seen);
      if !valid {
        return false;
      }
      seen := now;
    }
    return true;
  }

  // ---------------------------------------------------------------------
  // What validity means for the reader
  // ---------------------------------------------------------------------

  lemma {:induction false} EvidenceComesFromFindings(findings: seq<Finding>, id: string)
    ensures id in EvidenceByFinding(findings) <==> exists f :: f in findings && f.id == id
    ensures id in EvidenceByFinding(findings) ==>
              exists f :: f in findings && f.id == id && EvidenceByFinding(findings)[id] == References(f)
  {
    if findings != [] {
      var last := findings[|findings| - 1];
      EvidenceComesFromFindings(findings[..|findings| - 1], id);
      assert findings == findings[..|findings| - 1] + [last];
    }
  }

  // A valid review cites only authoritative findings, no finding in two risks
  // or twice in one, and only evidence of a finding cited by the same risk.
  lemma {:induction false} ValidReviewsAreGrounded(findings: seq<Finding>, review: Review, i: nat)
    requires ValidReview(findings, review) && i < |review.risks|
    ensures forall id | id in review.risks[i].findingIds :: exists f :: f in findings && f.id == id
    ensures forall reference | reference in review.risks[i].evidenceRefs ::
              exists f :: f in findings && f.id in review.risks[i].findingIds && reference in References(f)
    ensures forall j, id | i < j < |review.risks| && id in review.risks[i].findingIds ::
              id !in review.risks[j].findingIds
    ensures Distinct(review.risks[i].findingIds)
  {
    var evidence := EvidenceByFinding(findings);
    var risk := review.risks[i];
    assert ValidRisk(evidence, risk);
    forall id | id in risk.findingIds
      ensures exists f :: f in findings && f.id == id
    {
      EvidenceComesFromFindings(findings, id);
    }
    forall reference | reference in risk.evidenceRefs
      ensures exists f :: f in findings && f.id in risk.findingIds && reference in References(f)
    {
      assert Supports(evidence, risk.findingIds, reference);
      var id :| id in risk.findingIds && id in evidence && reference in evidence[id];
      EvidenceComesFromFindings(findings, id);
    }
    forall j, id | i < j < |review.risks| && id in risk.findingIds
      ensures id !in review.risks[j].findingIds
    {
      assert review.risks[..j][i] == risk;
      assert id in Cited(review.risks[..j]);
      assert CitesNone(review.risks[j], Cited(review.risks[..j]));
    }
  }

  // ---------------------------------------------------------------------
  // Validity against a part and against the whole
  // ---------------------------------------------------------------------

  predicate Subsumed(part: EvidenceMap, whole: EvidenceMap) {
    forall id | id in part :: id in whole && part[id] <= whole[id]
  }

  lemma SubsumedReviewsStayValid(part: EvidenceMap, whole: EvidenceMap, review: Review)
    requires Subsumed(part, whole) && ValidReviewFor(part, review)
    ensures ValidReviewFor(whole, review)
  {
  }

  // The smallest review that cites one finding.
  function Witness(id: string, references: seq<string>): Review {
    Review("x", [Risk(High, [id], "x", references)], [], [], [], [])
  }

  lemma WitnessValidIff(evidence: EvidenceMap, id: string, references: seq<string>)
    requires |references| <= 1
    ensures ValidReviewFor(evidence, Witness(id, references)) <==>
            id in evidence && forall r | r in references :: r in evidence[id]
  {
    var review := Witness(id, references);
    var risk := review.risks[0];
    TrimIdentity("x");
    assert ValidText("x", MAX_TEXT_CHARS) && ValidText("x", MAX_SUMMARY_CHARS);
    assert Cited(review.risks[..0]) == {};
    assert risk.findingIds[0] == id;
    if references != [] {
      assert references[0] in references;
      assert Supports(evidence, [id], references[0]) <==> id in evidence && references[0] in evidence[id];
    }
  }

  // Every review valid against a part is valid against the whole exactly when
  // the whole knows every finding of the part with at least its evidence.
  lemma {:induction false} PartImpliesWholeIff(part: seq<Finding>, whole: seq<Finding>)
    ensures (forall review :: ValidReview(part, review) ==> ValidReview(whole, review)) <==>
            Subsumed(EvidenceByFinding(part), EvidenceByFinding(whole))
  {
    var p, w := EvidenceByFinding(part), EvidenceByFinding(whole);
    if Subsumed(p, w) {
      forall review | ValidReview(part, review)
        ensures ValidReview(whole, review)
      {
        SubsumedReviewsStayValid(p, w, review);
      }
    } else {
      var id :| id in p && !(id in w && p[id] <= w[id]);
      if id !in w {
        WitnessValidIff(p, id, []);
        WitnessValidIff(w, id, []);
        assert ValidReview(part, Witness(id, [])) && !ValidReview(whole, Witness(id, []));
      } else {
        var reference :| reference in p[id] && reference !in w[id];
        WitnessValidIff(p, id, [reference]);
        WitnessValidIff(w, id, [reference]);
        assert reference in [reference];
        assert ValidReview(part, Witness(id, [reference])) && !ValidReview(whole, Witness(id, [reference]));
      }
    }
  }

  predicate UniqueIds(findings: seq<Finding>) {
    forall i, j | 0 <= i < j < |findings| :: findings[i].id != findings[j].id
  }

  // With unique finding ids any selection of the findings is subsumed, so a
  // review grounded in one chunk is grounded in the full context.
  lemma {:induction false} ChunkValidityImpliesFullValidity(part: seq<Finding>, whole: seq<Finding>, review: Review)
    requires UniqueIds(whole) && forall f | f in part :: f in whole
    requires ValidReview(part, review)
    ensures ValidReview(whole, review)
  {
    var p, w := EvidenceByFinding(part), EvidenceByFinding(whole);
    forall id | id in p
      ensures id in w && p[id] <= w[id]
    {
      EvidenceComesFromFindings(part, id);
      var f :| f in part && f.id == id && p[id] == References(f);
      EvidenceComesFromFindings(whole, id);
      var g :| g in whole && g.id == id && w[id] == References(g);
      assert f == g;
    }
    SubsumedReviewsStayValid(p, w, review);
  }

  // ---------------------------------------------------------------------
  // Acceptance, said of findings and texts alone
  // ---------------------------------------------------------------------

  // The text names the finding's own cell, or the cell of a piece of its evidence.
  ghost predicate Names(finding: Finding, text: string) {
    || (finding.sheet.Some? && finding.cell.Some? && text == finding.sheet.value + ":" + finding.cell.value)
    || exists e | e in finding.evidence :: e.cell.Some? && text == e.sheet + ":" + e.cell.value
  }

  // The finding that counts under its id: the last one.
  predicate IsLast(findings: seq<Finding>, i: nat) {
    i < |findings| && forall j | i < j < |findings| :: findings[j].id != findings[i].id
  }

  ghost predicate IsGround(findings: seq<Finding>, ids: seq<string>, text: string) {
    exists i: nat :: IsLast(findings, i) && findings[i].id in ids && Names(findings[i], text)
  }

  ghost predicate IsKnown(findings: seq<Finding>, id: string) { exists f :: f in findings && f.id == id }

  ghost predicate IsGroundedRisk(findings: seq<Finding>, risk: Risk) {
    && IsProper(risk.reason, 2_000)
    && 1 <= |risk.findingIds| <= 20
    && (forall j, k | 0 <= j < k < |risk.findingIds| :: risk.findingIds[j] != risk.findingIds[k])
    && (forall id | id in risk.findingIds :: IsKnown(findings, id))
    && (forall j, k | 0 <= j < k < |risk.evidenceRefs| :: risk.evidenceRefs[j] != risk.evidenceRefs[k])
    && (forall text | text in risk.evidenceRefs :: IsGround(findings, risk.findingIds, text))
  }

  // A text that says something, within its limit once trimmed, without a zero
  // character.
  predicate IsProper(text: string, maximum: nat) {
    && (exists i | 0 <= i < |text| :: !IsWhitespace(text[i]))
    && (forall i | 0 <= i < |text| :: text[i] != '\0')
    && |Trim(text)| <= maximum
  }

  predicate AreProper(texts: seq<string>) { |texts| <= 100 && forall i | 0 <= i < |texts| :: IsProper(texts[i], 2_000) }

  lemma {:induction false} TrimStartKeeps(s: string, c: char)
    requires !IsWhitespace(c)
    ensures c in TrimStart(s) <==> c in s
  {
    if s != [] && IsWhitespace(s[0]) {
      TrimStartKeeps(s[1..], c);
    }
  }

  lemma {:induction false} TrimEndKeeps(s: string, c: char)
    requires !IsWhitespace(c)
    ensures c in TrimEnd(s) <==> c in s
  {
    if s != [] && IsWhitespace(s[|s| - 1]) {
      TrimEndKeeps(s[..|s| - 1], c);
    }
  }

  lemma {:induction false} TrimEndsSolid(s: string)
    ensures TrimEnd(s) != [] ==> !IsWhitespace(TrimEnd(s)[|TrimEnd(s)| - 1])
  {
    if s != [] && IsWhitespace(s[|s| - 1]) {
      TrimEndsSolid(s[..|s| - 1]);
    }
  }

  lemma {:induction false} ProperIff(text: string, maximum: nat)
    ensures ValidText(text, maximum) <==> IsProper(text, maximum)
  {
    var trimmed := Trim(text);
    forall c: char | !IsWhitespace(c)
      ensures c in trimmed <==> c in text
    {
      TrimStartKeeps(text, c);
      TrimEndKeeps(TrimStart(text), c);
    }
    assert !IsWhitespace('\0');
    TrimEndsSolid(TrimStart(text));
    if trimmed != [] {
      assert trimmed[|trimmed| - 1] in text;
    }
    if i :| 0 <= i < |text| && !IsWhitespace(text[i]) {
      assert text[i] in trimmed;
    }
  }

  lemma ProperTextsIff(texts: seq<string>)
    ensures ValidTexts(texts) <==> AreProper(texts)
  {
    hide ValidText, IsProper;
    forall i | 0 <= i < |texts|
      ensures ValidText(texts[i], 2_000) <==> IsProper(texts[i], 2_000)
    {
      ProperIff(texts[i], 2_000);
    }
  }

  lemma {:induction false} EvidenceIsOfLast(findings: seq<Finding>, id: string)
    ensures var evidence := EvidenceByFinding(findings);
            id in evidence ==>
              exists i: nat :: IsLast(findings, i) && findings[i].id == id && evidence[id] == References(findings[i])
  {
    hide References;
    if findings != [] {
      var n := |findings| - 1;
      var front := findings[..n];
      EvidenceIsOfLast(front, id);
      if id == findings[n].id {
        assert IsLast(findings, n);
      } else if id in EvidenceByFinding(front) {
        var i: nat :| IsLast(front, i) && front[i].id == id && EvidenceByFinding(front)[id] == References(front[i]);
        assert IsLast(findings, i) && findings[i] == front[i];
      }
    }
  }

  lemma LastIsUnique(findings: seq<Finding>, i: nat, j: nat)
    requires IsLast(findings, i) && IsLast(findings, j) && findings[i].id == findings[j].id
    ensures i == j
  {
  }

  lemma NamesAreReferences(finding: Finding, text: string)
    ensures text in References(finding) <==> Names(finding, text)
  {
  }

  lemma {:induction false} SupportsIff(findings: seq<Finding>, ids: seq<string>, text: string)
    ensures Supports(EvidenceByFinding(findings), ids, text) <==> IsGround(findings, ids, text)
  {
    hide References, Names;
    var evidence := EvidenceByFinding(findings);
    if Supports(evidence, ids, text) {
      var id :| id in ids && id in evidence && text in evidence[id];
      EvidenceIsOfLast(findings, id);
      var i: nat :| IsLast(findings, i) && findings[i].id == id && evidence[id] == References(findings[i]);
      NamesAreReferences(findings[i], text);
    }
    if IsGround(findings, ids, text) {
      var i: nat :| IsLast(findings, i) && findings[i].id in ids && Names(findings[i], text);
      var id := findings[i].id;
      assert findings[i] in findings;
      EvidenceComesFromFindings(findings, id);
      EvidenceIsOfLast(findings, id);
      var j: nat :| IsLast(findings, j) && findings[j].id == id && evidence[id] == References(findings[j]);
      LastIsUnique(findings, i, j);
      NamesAreReferences(findings[i], text);
    }
  }

  lemma GroundedRiskIff(findings: seq<Finding>, risk: Risk)
    ensures ValidRisk(EvidenceByFinding(findings), risk) <==> IsGroundedRisk(findings, risk)
  {
    hide EvidenceByFinding, Supports, IsGround, ValidText, IsProper;
    ProperIff(risk.reason, 2_000);
    forall id
      ensures id in EvidenceByFinding(findings) <==> IsKnown(findings, id)
    {
      EvidenceComesFromFindings(findings, id);
    }
    forall text
      ensures Supports(EvidenceByFinding(findings), risk.findingIds, text) <==>
              IsGround(findings, risk.findingIds, text)
    {
      SupportsIff(findings, risk.findingIds, text);
    }
    assert forall i | 0 <= i < |risk.findingIds| :: risk.findingIds[i] in risk.findingIds;
    assert forall i | 0 <= i < |risk.evidenceRefs| :: risk.evidenceRefs[i] in risk.evidenceRefs;
  }

  lemma SharesIff(risks: seq<Risk>)
    ensures (forall i | 0 <= i < |risks| :: CitesNone(risks[i], Cited(risks[..i]))) <==>
            forall i, j | 0 <= i < j < |risks| :: forall id | id in risks[i].findingIds :: id !in risks[j].findingIds
  {
    forall j | 0 <= j < |risks|
      ensures CitesNone(risks[j], Cited(risks[..j])) <==>
              forall i | 0 <= i < j :: forall id | id in risks[i].findingIds :: id !in risks[j].findingIds
    {
      OneRiskShares(risks[..j], risks[j]);
      assert forall i | 0 <= i < j :: risks[..j][i] == risks[i];
    }
  }

  lemma OneRiskShares(earlier: seq<Risk>, risk: Risk)
    ensures CitesNone(risk, Cited(earlier)) <==>
            forall i | 0 <= i < |earlier| :: forall id | id in earlier[i].findingIds :: id !in risk.findingIds
  {
    forall id
      ensures id in Cited(earlier) <==> exists i :: 0 <= i < |earlier| && id in earlier[i].findingIds
    {
      if i :| 0 <= i < |earlier| && id in earlier[i].findingIds {
        var j :| 0 <= j < |earlier[i].findingIds| && earlier[i].findingIds[j] == id;
      }
    }
  }

  // A review is accepted if and only if its texts are in order, every risk cites
  // known findings once and as evidence only texts sheet:cell of the findings it
  // cites, and no finding is cited by two risks.
  lemma {:induction false} AcceptedIff(findings: seq<Finding>, review: Review)
    ensures ValidReview(findings, review) <==>
            && IsProper(review.summary, 4_000)
            && AreProper(review.recommendations) && AreProper(review.rfiSuggestions)
            && AreProper(review.limitations) && AreProper(review.assumptions)
            && |review.risks| <= 100
            && (forall i | 0 <= i < |review.risks| :: IsGroundedRisk(findings, review.risks[i]))
            && forall i, j | 0 <= i < j < |review.risks| ::
                 forall id | id in review.risks[i].findingIds :: id !in review.risks[j].findingIds
  {
    hide ValidText, ValidTexts, ValidRisk, IsGroundedRisk, CitesNone, Cited, EvidenceByFinding, IsProper, AreProper;
    ProperIff(review.summary, 4_000);
    ProperTextsIff(review.recommendations);
    ProperTextsIff(review.rfiSuggestions);
    ProperTextsIff(review.limitations);
    ProperTextsIff(review.assumptions);
    SharesIff(review.risks);
    forall i | 0 <= i < |review.risks|
      ensures ValidRisk(EvidenceByFinding(findings), review.risks[i]) <==> IsGroundedRisk(findings, review.risks[i])
    {
      GroundedRiskIff(findings, review.risks[i]);
    }
  }

  // With unique ids, a review of one risk that cites one finding and one
  // reference is accepted exactly when the reference names a cell of the finding.
  lemma {:induction false} OneCitationAcceptedIff(findings: seq<Finding>, finding: Finding, text: string,
                                                  review: Review)
    requires UniqueIds(findings) && finding in findings
    requires exists priority, reason ::
               IsProper(reason, 2_000) && review.risks == [Risk(priority, [finding.id], reason, [text])]
    requires IsProper(review.summary, 4_000)
    requires AreProper(review.recommendations) && AreProper(review.rfiSuggestions)
    requires AreProper(review.limitations) && AreProper(review.assumptions)
    ensures ValidReview(findings, review) <==>
            || (finding.sheet.Some? && finding.cell.Some? && text == finding.sheet.value + ":" + finding.cell.value)
            || exists e | e in finding.evidence :: e.cell.Some? && text == e.sheet + ":" + e.cell.value
  {
    hide IsProper, AreProper, ValidReview;
    AcceptedIff(findings, review);
    var i: nat :| i < |findings| && findings[i] == finding;
    assert IsLast(findings, i);
    assert forall j: nat | IsLast(findings, j) && findings[j].id in [finding.id] :: j == i;
    assert IsGround(findings, [finding.id], text) <==> Names(finding, text);
    assert IsKnown(findings, finding.id);
    OneCitationIsGroundedIff(findings, review.risks[0], finding.id, text);
  }

  lemma OneCitationIsGroundedIff(findings: seq<Finding>, risk: Risk, id: string, text: string)
    requires risk.findingIds == [id] && risk.evidenceRefs == [text] && IsProper(risk.reason, 2_000)
    requires IsKnown(findings, id)
    ensures IsGroundedRisk(findings, risk) <==> IsGround(findings, [id], text)
  {
    hide IsKnown, IsGround, IsProper;
    assert text in risk.evidenceRefs;
  }
}
