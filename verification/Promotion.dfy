// The deterministic review that promotes a drafted verification policy: sealed reports, a
// scored jury, and a policy that is written only when everything holds.
module Promotion {
  import opened Results

  datatype Json = Null | Flag(value: bool) | Number(n: int) | Text(text: string) | List(items: seq<Json>) | Object(fields: Fields)

  type Fields = map<string, Json>

  // Canonical hashing, the schema validator of the policy, and the reviewed model and state.
  // `others` are the review checks except the two digest checks; they see the draft only
  // through the candidate policy's scenarios and metrics and the unresolved obligations.
  datatype Environment = Environment(
    hash: Fields -> string,
    others: (Fields, Seen) -> map<string, bool>,
    readable: (Fields, Seen) -> bool,
    targets: set<string>,
    normalise: Fields -> Option<Fields>,
    reviewerSource: string)

  datatype Seen = Seen(scenarios: Json, metrics: Json, obligations: Json)

  datatype Finding = Finding(severity: string, code: string)

  // The files of the case folder that the review reads or writes.
  datatype File = ContractFile | DraftFile | ArchiveFile | RedTeamFile | JuryFile | PolicyFile | SummaryFile

  datatype Outcome = Malformed | ArchiveLost | RedTeamRejected | JuryRejected | PolicyInvalid | Promoted

  const DIGEST := "content_digest"
  const OLD_DRAFT_DIGEST := "650560edde518156a05ed31b2b60357fd06826a60f60008b5c31ae174beb9384"
  const TARGETS := {"Q1", "Q2", "Q3", "Q4", "Q5"}
  const PASSING_SCORE := 85

  const FINDINGS := [
    Finding("MAJOR", "PROVISIONAL_ECOLOGICAL_COEFFICIENTS"), Finding("MAJOR", "LOCAL_STABILITY_ONLY"),
    Finding("MAJOR", "NORMALIZED_TIME_ONLY"), Finding("MINOR", "INITIAL_STATE_DEPENDENCE"),
    Finding("MINOR", "NO_PRACTICAL_EXTINCTION_THRESHOLD")]

  // ---- sealing ---------------------------------------------------------------------------------

  function Get(o: Fields, key: string): Json {
    if key in o then o[key] else Null
  }

  function SemanticDigest(env: Environment, o: Fields): string {
    env.hash(o - {DIGEST})
  }

  function Seal(env: Environment, o: Fields): Fields {
    o[DIGEST := Text(SemanticDigest(env, o))]
  }

  predicate Sealed(env: Environment, o: Fields) {
    Get(o, DIGEST) == Text(SemanticDigest(env, o))
  }

  // A seal verifies, and it ignores whatever digest was there before.
  lemma SealVerifies(env: Environment, o: Fields, stale: Json)
    ensures Sealed(env, Seal(env, o)) && DIGEST in Seal(env, o) && Seal(env, o[DIGEST := stale]) == Seal(env, o)
    ensures forall k :: k != DIGEST ==> Get(Seal(env, o), k) == Get(o, k)
  {
    assert Seal(env, o) - {DIGEST} == o - {DIGEST};
    assert o[DIGEST := stale] - {DIGEST} == o - {DIGEST};
  }

  // Under an injective hash a seal fixes every other field.
  lemma SealFixesFields(env: Environment, o: Fields, p: Fields)
    requires forall x, y :: env.hash(x) == env.hash(y) ==> x == y
    requires Sealed(env, o) && Sealed(env, p) && o[DIGEST] == p[DIGEST]
    ensures o == p
  {
    assert o - {DIGEST} == p - {DIGEST};
    assert forall k :: k in o && k != DIGEST <==> k in o - {DIGEST};
    assert forall k :: k in p && k != DIGEST <==> k in p - {DIGEST};
    assert forall k :: k in o && k != DIGEST ==> o[k] == (o - {DIGEST})[k];
    assert forall k :: k in p && k != DIGEST ==> p[k] == (p - {DIGEST})[k];
    assert o.Keys == p.Keys;
  }

  // ---- checks and reports ------------------------------------------------------------------------

  function PolicyOf(draft: Fields): Fields {
    if Get(draft, "candidate_policy").Object? then Get(draft, "candidate_policy").fields else map[]
  }

  function SeenIn(policy: Fields, obligations: Json): Seen {
    Seen(Get(policy, "scenarios"), Get(policy, "metrics"), obligations)
  }

  function SeenOf(draft: Fields): Seen {
    SeenIn(PolicyOf(draft), Get(draft, "unresolved_obligations"))
  }

  function ReviewChecks(env: Environment, contract: Fields, draft: Fields): map<string, bool> {
    env.others(contract, SeenOf(draft))["contract_digest_valid" := Sealed(env, contract)]["draft_digest_valid" := Sealed(env, draft)]
  }

  predicate AllHold(checks: map<string, bool>) {
    forall k :: k in checks ==> checks[k]
  }

  predicate Holds(checks: map<string, bool>, key: string) {
    key in checks && checks[key]
  }

  function Flags(checks: map<string, bool>): Fields {
    map k | k in checks :: Flag(checks[k])
  }

  function Severities(findings: seq<Finding>, severity: string): nat {
    if findings == [] then 0
    else Severities(findings[1..], severity) + if findings[0].severity == severity then 1 else 0
  }

  function Listed(findings: seq<Finding>): (items: seq<Json>)
    ensures |items| == |findings|
  {
    seq(|findings|, i requires 0 <= i < |findings| =>
      Object(map["severity" := Text(findings[i].severity), "code" := Text(findings[i].code)]))
  }

  predicate Passes(checks: map<string, bool>, findings: seq<Finding>) {
    AllHold(checks) && Severities(findings, "CRITICAL") == 0
  }

  function Verdict(passed: bool): Json {
    Text(if passed then "PASS" else "FAIL")
  }

  function Lower(s: string): string {
    seq(|s|, i requires 0 <= i < |s| => if 'A' <= s[i] <= 'Z' then (s[i] as int + 32) as char else s[i])
  }

  function ReportBody(env: Environment, kind: string, contractDigest: Json, checks: map<string, bool>, findings: seq<Finding>): Fields {
    map[
      "report_version" := Text("1"),
      "review_kind" := Text(kind),
      "reviewer" := Text("independent-deterministic-" + Lower(kind) + "-v1"),
      "reviewer_source_sha256" := Text(env.reviewerSource),
      "model_contract_digest" := contractDigest,
      "checks" := Object(Flags(checks)),
      "findings" := List(Listed(findings)),
      "critical_count" := Number(Severities(findings, "CRITICAL")),
      "major_count" := Number(Severities(findings, "MAJOR")),
      "minor_count" := Number(Severities(findings, "MINOR")),
      "status" := Verdict(Passes(checks, findings)),
      DIGEST := Null]
  }

  function Report(env: Environment, kind: string, contractDigest: Json, checks: map<string, bool>, findings: seq<Finding>): Fields {
    Seal(env, ReportBody(env, kind, contractDigest, checks, findings))
  }

  function Points(earned: bool): nat {
    if earned then 25 else 0
  }

  datatype Score = Score(coherence: nat, posedness: nat, relevance: nat, feasibility: nat) {
    function Total(): nat { coherence + posedness + relevance + feasibility }
  }

  function JuryScore(env: Environment, checks: map<string, bool>): Score {
    Score(
      Points(Holds(checks, "scientific_obligations_resolved") && Holds(checks, "parasite_semantics_explicit")),
      Points(Holds(checks, "model_quality_gate_pass") && Holds(checks, "unit_audit_pass") && Holds(checks, "reference_state_is_equilibrium")),
      Points(env.targets == TARGETS && Holds(checks, "structural_comparator_pairs_complete")),
      Points(Holds(checks, "policy_metric_metadata_complete") && Holds(checks, "policy_scenario_metadata_complete")
             && Holds(checks, "jacobian_spectrum_is_recomputed")))
  }

  const SCORED := {
    "scientific_obligations_resolved", "parasite_semantics_explicit", "model_quality_gate_pass", "unit_audit_pass",
    "reference_state_is_equilibrium", "structural_comparator_pairs_complete", "policy_metric_metadata_complete",
    "policy_scenario_metadata_complete", "jacobian_spectrum_is_recomputed" }

  function RedTeamReport(env: Environment, contract: Fields, checks: map<string, bool>): Fields {
    Report(env, "RED_TEAM", Get(contract, DIGEST), checks, FINDINGS)
  }

  function Dimensions(score: Score): Json {
    Object(map[
      "scientific_coherence" := Number(score.coherence),
      "mathematical_well_posedness" := Number(score.posedness),
      "problem_relevance" := Number(score.relevance),
      "verification_feasibility" := Number(score.feasibility)])
  }

  // The generic report extended by score and decision.
  function Decided(report: Fields, score: Score): Fields {
    report["score_dimensions" := Dimensions(score)]["score" := Number(score.Total())]
          ["decision" := Verdict(Get(report, "status") == Text("PASS") && score.Total() >= PASSING_SCORE)]
  }

  // Sealed as a report first and again after the decision was added.
  function JuryReport(env: Environment, contract: Fields, checks: map<string, bool>): Fields {
    var score := JuryScore(env, checks);
    var report := Report(env, "MODEL_JURY", Get(contract, DIGEST), checks["minimum_score_reached" := score.Total() >= PASSING_SCORE], []);
    Seal(env, Decided(report, score))
  }

  // Scores are multiples of 25, so 85 points are reached at 100 only.
  lemma ScoreReachesOnlyAtFull(env: Environment, checks: map<string, bool>)
    ensures JuryScore(env, checks).Total() >= PASSING_SCORE
            <==> env.targets == TARGETS && forall k :: k in SCORED ==> Holds(checks, k)
    ensures JuryScore(env, checks).Total() >= PASSING_SCORE ==> JuryScore(env, checks).Total() == 100
  {
  }

  lemma NoCriticalFindings()
    ensures Severities(FINDINGS, "CRITICAL") == 0 && Severities(FINDINGS, "MAJOR") == 3 && Severities(FINDINGS, "MINOR") == 2
  {
    assert FINDINGS[1..][1..][1..][1..][1..] == [];
  }

  // ---- the review as a transformation of the case folder ------------------------------------------

  function Candidate(draft: Fields, redTeam: Fields, jury: Fields): Fields {
    PolicyOf(draft)["review_status" := Text("REVIEWED")]["production_eligible" := Flag(true)]
                   ["red_team_report_digest" := Get(redTeam, DIGEST)]["model_jury_report_digest" := Get(jury, DIGEST)]
  }

  function DraftBody(env: Environment, draft: Fields, policy: Fields, redTeam: Fields, jury: Fields): Fields {
    draft["review_status" := Text("REVIEWED")]["production_eligible" := Flag(true)]
         ["candidate_policy" := Object(policy)]["promotion_blockers" := List([])]
         ["red_team_report_digest" := Get(redTeam, DIGEST)]["model_jury_report_digest" := Get(jury, DIGEST)]
         ["production_policy_digest" := Text(env.hash(policy))]
  }

  function PromotedDraft(env: Environment, draft: Fields, policy: Fields, redTeam: Fields, jury: Fields): Fields {
    Seal(env, DraftBody(env, draft, policy, redTeam, jury))
  }

  function SummaryBody(env: Environment, contract: Fields, policy: Fields, redTeam: Fields, jury: Fields): Fields {
    map[
      "review_version" := Text("1"),
      "model_contract_digest" := Get(contract, DIGEST),
      "model_digest" := Get(contract, "model_digest"),
      "red_team_report_digest" := Get(redTeam, DIGEST),
      "red_team_critical_count" := Get(redTeam, "critical_count"),
      "model_jury_report_digest" := Get(jury, DIGEST),
      "model_jury_score" := Get(jury, "score"),
      "model_jury_decision" := Get(jury, "decision"),
      "policy_digest" := Text(env.hash(policy)),
      "unresolved_obligations" := List([]),
      "fresh_case_a_run" := Flag(false),
      "case_b_c_run" := Flag(false),
      DIGEST := Null]
  }

  function Summary(env: Environment, contract: Fields, policy: Fields, redTeam: Fields, jury: Fields): Fields {
    Seal(env, SummaryBody(env, contract, policy, redTeam, jury))
  }

  type Files = map<File, Fields>

  datatype Review = Review(outcome: Outcome, files: Files)

  function ReviewOf(env: Environment, files: Files): Review {
    if ContractFile !in files || DraftFile !in files || ArchiveFile !in files then Review(Malformed, files)
    else
      var contract, draft, archived := files[ContractFile], files[DraftFile], files[ArchiveFile];
      if Get(archived, DIGEST) != Text(OLD_DRAFT_DIGEST) || SemanticDigest(env, archived) != OLD_DRAFT_DIGEST then Review(ArchiveLost, files)
      else if DIGEST !in contract || DIGEST !in draft || !env.readable(contract, SeenOf(draft)) then Review(Malformed, files)
      else
        var checks := ReviewChecks(env, contract, draft);
        Judged(env, files, contract, draft, RedTeamReport(env, contract, checks), JuryReport(env, contract, checks))
  }

  // What follows from the two reports.
  function Judged(env: Environment, files: Files, contract: Fields, draft: Fields, redTeam: Fields, jury: Fields): Review {
    var reported := files[RedTeamFile := redTeam][JuryFile := jury];
    if Get(redTeam, "status") != Text("PASS") || Get(redTeam, "critical_count") != Number(0) then Review(RedTeamRejected, reported)
    else if Get(jury, "decision") != Text("PASS") then Review(JuryRejected, reported)
    else
      match env.normalise(Candidate(draft, redTeam, jury))
      case None => Review(PolicyInvalid, reported)
      case Some(policy) =>
        Review(Promoted, reported[PolicyFile := policy][DraftFile := PromotedDraft(env, draft, policy, redTeam, jury)]
                                 [SummaryFile := Summary(env, contract, policy, redTeam, jury)])
  }

  // The case folder, file by file.
  class Folder {
    var files: Files

    constructor (initial: Files)
      ensures files == initial
    {
      files := initial;
    }

    method Write(name: File, value: Fields)
      modifies this
      ensures files == old(files)[name := value]
    {
      files := files[name := value];
    }

    method ReviewCase(env: Environment) returns (outcome: Outcome)
      modifies this
      ensures Review(outcome, files) == ReviewOf(env, old(files))
    {
      hide RedTeamReport, JuryReport, ReviewChecks, Candidate, PromotedDraft, Summary, Get, SemanticDigest, SeenOf;
      if ContractFile !in files || DraftFile !in files || ArchiveFile !in files {
        return Malformed;
      }
      var contract, draft, archived := files[ContractFile], files[DraftFile], files[ArchiveFile];
      if Get(archived, DIGEST) != Text(OLD_DRAFT_DIGEST) || SemanticDigest(env, archived) != OLD_DRAFT_DIGEST {
        return ArchiveLost;
      }
      if DIGEST !in contract || DIGEST !in draft || !env.readable(contract, SeenOf(draft)) {
        return Malformed;
      }
      var checks := ReviewChecks(env, contract, draft);
      var redTeam := RedTeamReport(env, contract, checks);
      var jury := JuryReport(env, contract, checks);
      Write(RedTeamFile, redTeam);
      Write(JuryFile, jury);
      if Get(redTeam, "status") != Text("PASS") || Get(redTeam, "critical_count") != Number(0) {
        return RedTeamRejected;
      }
      if Get(jury, "decision") != Text("PASS") {
        return JuryRejected;
      }
      var policy := env.normalise(Candidate(draft, redTeam, jury));
      if policy.None? {
        return PolicyInvalid;
      }
      Write(PolicyFile, policy.value);
      Write(DraftFile, PromotedDraft(env, draft, policy.value, redTeam, jury));
      Write(SummaryFile, Summary(env, contract, policy.value, redTeam, jury));
      outcome := Promoted;
    }
  }
}
