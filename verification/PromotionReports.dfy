// The contents of the files a review writes, key by key.
module PromotionReports {
  import opened Results
  import opened Promotion
  import opened PromotionProperties

  // The object carries the hash of everything else in it.
  predicate CarriesHash(env: Environment, o: Fields) {
    Get(o, "content_digest") == Text(env.hash(o - {"content_digest"}))
  }

  predicate Agree(o: Fields, p: Fields, key: string) {
    (key in o <==> key in p) && (key in o ==> o[key] == p[key])
  }

  lemma SealKeeps(env: Environment, o: Fields, key: string)
    requires key != "content_digest"
    ensures Agree(Seal(env, o), o, key) && Get(Seal(env, o), key) == Get(o, key)
  {
  }

  lemma SealCarries(env: Environment, o: Fields)
    ensures CarriesHash(env, Seal(env, o))
  {
    SealVerifies(env, o, Null);
  }

  // ---- the draft -----------------------------------------------------------------------------------

  // The keys of the draft that a promotion writes.
  const DRAFT_KEYS := {"review_status", "production_eligible", "candidate_policy", "promotion_blockers",
                       "red_team_report_digest", "model_jury_report_digest", "production_policy_digest", "content_digest"}

  ghost predicate DraftPromoted(env: Environment, before: Fields, after: Fields, policy: Fields, redTeam: Fields, jury: Fields) {
    && Get(after, "review_status") == Text("REVIEWED") && Get(after, "production_eligible") == Flag(true)
    && Get(after, "candidate_policy") == Object(policy) && Get(after, "promotion_blockers") == List([])
    && Get(after, "red_team_report_digest") == Get(redTeam, "content_digest")
    && Get(after, "model_jury_report_digest") == Get(jury, "content_digest")
    && Get(after, "production_policy_digest") == Text(env.hash(policy))
    && CarriesHash(env, after)
    && forall k :: k !in DRAFT_KEYS ==> Agree(after, before, k)
  }

  lemma DraftBodyPromoted(env: Environment, draft: Fields, policy: Fields, redTeam: Fields, jury: Fields)
    ensures var d := DraftBody(env, draft, policy, redTeam, jury);
            && Get(d, "review_status") == Text("REVIEWED") && Get(d, "production_eligible") == Flag(true)
            && Get(d, "candidate_policy") == Object(policy) && Get(d, "promotion_blockers") == List([])
            && Get(d, "red_team_report_digest") == Get(redTeam, "content_digest")
            && Get(d, "model_jury_report_digest") == Get(jury, "content_digest")
            && Get(d, "production_policy_digest") == Text(env.hash(policy))
    ensures forall k :: k !in DRAFT_KEYS ==> Agree(DraftBody(env, draft, policy, redTeam, jury), draft, k)
  {
  }

  lemma PromotedDraftIs(env: Environment, draft: Fields, policy: Fields, redTeam: Fields, jury: Fields)
    ensures DraftPromoted(env, draft, PromotedDraft(env, draft, policy, redTeam, jury), policy, redTeam, jury)
  {
    var body := DraftBody(env, draft, policy, redTeam, jury);
    DraftBodyPromoted(env, draft, policy, redTeam, jury);
    SealCarries(env, body);
    hide DraftBody, Get, CarriesHash, Seal;
    SealKeeps(env, body, "review_status");
    SealKeeps(env, body, "production_eligible");
    SealKeeps(env, body, "candidate_policy");
    SealKeeps(env, body, "promotion_blockers");
    SealKeeps(env, body, "red_team_report_digest");
    SealKeeps(env, body, "model_jury_report_digest");
    SealKeeps(env, body, "production_policy_digest");
    forall k | k !in DRAFT_KEYS
      ensures Agree(Seal(env, body), draft, k)
    {
      assert k != "content_digest";
      SealKeeps(env, body, k);
    }
  }

  // ---- the policy -----------------------------------------------------------------------------------

  // The policy is what the schema makes of the candidate: the drafted policy with four fields set.
  ghost predicate PolicyPromoted(env: Environment, draft: Fields, policy: Fields, redTeam: Fields, jury: Fields) {
    exists c :: env.normalise(c) == Some(policy) && CandidatePromoted(draft, c, redTeam, jury)
  }

  ghost predicate CandidatePromoted(draft: Fields, c: Fields, redTeam: Fields, jury: Fields) {
    && Get(c, "review_status") == Text("REVIEWED") && Get(c, "production_eligible") == Flag(true)
    && Get(c, "red_team_report_digest") == Get(redTeam, "content_digest")
    && Get(c, "model_jury_report_digest") == Get(jury, "content_digest")
    && forall drafted, k {:trigger Get(draft, "candidate_policy") == Object(drafted), Agree(c, drafted, k)} ::
         Get(draft, "candidate_policy") == Object(drafted) && k !in OWN_FIELDS ==> Agree(c, drafted, k)
  }

  lemma CandidateIs(draft: Fields, redTeam: Fields, jury: Fields)
    ensures CandidatePromoted(draft, Candidate(draft, redTeam, jury), redTeam, jury)
  {
  }

  // ---- the summary -----------------------------------------------------------------------------------

  ghost predicate SummaryPromoted(env: Environment, contract: Fields, summary: Fields, policy: Fields, redTeam: Fields, jury: Fields) {
    && Get(summary, "review_version") == Text("1")
    && Get(summary, "model_contract_digest") == Get(contract, "content_digest")
    && Get(summary, "model_digest") == Get(contract, "model_digest")
    && Get(summary, "red_team_report_digest") == Get(redTeam, "content_digest") && Get(summary, "red_team_critical_count") == Number(0)
    && Get(summary, "model_jury_report_digest") == Get(jury, "content_digest")
    && Get(summary, "model_jury_score") == Number(100) && Get(summary, "model_jury_decision") == Text("PASS")
    && Get(summary, "policy_digest") == Text(env.hash(policy)) && Get(summary, "unresolved_obligations") == List([])
    && Get(summary, "fresh_case_a_run") == Flag(false) && Get(summary, "case_b_c_run") == Flag(false)
    && CarriesHash(env, summary)
  }

  lemma SummaryBodyCites(env: Environment, contract: Fields, policy: Fields, redTeam: Fields, jury: Fields)
    ensures var s := SummaryBody(env, contract, policy, redTeam, jury);
            && Get(s, "model_contract_digest") == Get(contract, "content_digest")
            && Get(s, "model_digest") == Get(contract, "model_digest")
            && Get(s, "red_team_report_digest") == Get(redTeam, "content_digest")
            && Get(s, "red_team_critical_count") == Get(redTeam, "critical_count")
            && Get(s, "model_jury_report_digest") == Get(jury, "content_digest")
  {
  }

  lemma SummaryBodyStates(env: Environment, contract: Fields, policy: Fields, redTeam: Fields, jury: Fields)
    ensures var s := SummaryBody(env, contract, policy, redTeam, jury);
            && Get(s, "review_version") == Text("1")
            && Get(s, "model_jury_score") == Get(jury, "score") && Get(s, "model_jury_decision") == Get(jury, "decision")
            && Get(s, "policy_digest") == Text(env.hash(policy)) && Get(s, "unresolved_obligations") == List([])
            && Get(s, "fresh_case_a_run") == Flag(false) && Get(s, "case_b_c_run") == Flag(false)
  {
  }

  lemma SummaryIs(env: Environment, contract: Fields, policy: Fields, redTeam: Fields, jury: Fields)
    requires Get(redTeam, "critical_count") == Number(0) && Get(jury, "score") == Number(100) && Get(jury, "decision") == Text("PASS")
    ensures SummaryPromoted(env, contract, Summary(env, contract, policy, redTeam, jury), policy, redTeam, jury)
  {
    var body := SummaryBody(env, contract, policy, redTeam, jury);
    SummaryBodyCites(env, contract, policy, redTeam, jury);
    SummaryBodyStates(env, contract, policy, redTeam, jury);
    SealCarries(env, body);
    hide SummaryBody, Get, CarriesHash, Seal;
    SealKeeps(env, body, "review_version");
    SealKeeps(env, body, "model_contract_digest");
    SealKeeps(env, body, "model_digest");
    SealKeeps(env, body, "red_team_report_digest");
    SealKeeps(env, body, "red_team_critical_count");
    SealKeeps(env, body, "model_jury_report_digest");
    SealKeeps(env, body, "model_jury_score");
    SealKeeps(env, body, "model_jury_decision");
    SealKeeps(env, body, "policy_digest");
    SealKeeps(env, body, "unresolved_obligations");
    SealKeeps(env, body, "fresh_case_a_run");
    SealKeeps(env, body, "case_b_c_run");
  }

  // ---- the reports -----------------------------------------------------------------------------------

  // The review's checks as written: the two digests re-verified, the others as computed.
  ghost predicate ChecksWritten(env: Environment, contract: Fields, draft: Fields, flags: Fields) {
    var others := env.others(contract, SeenOf(draft));
    && flags.Keys == others.Keys + {"contract_digest_valid", "draft_digest_valid"}
    && flags["contract_digest_valid"] == Flag(CarriesHash(env, contract)) && flags["draft_digest_valid"] == Flag(CarriesHash(env, draft))
    && forall k :: k in others && k != "contract_digest_valid" && k != "draft_digest_valid" ==> flags[k] == Flag(others[k])
  }

  predicate Yes(flags: Fields, key: string) {
    key in flags && flags[key] == Flag(true)
  }

  ghost predicate AllYes(flags: Fields) {
    forall k :: k in flags ==> flags[k] == Flag(true)
  }

  function NameOf(kind: string): string {
    if kind == "RED_TEAM" then "independent-deterministic-red_team-v1" else "independent-deterministic-model_jury-v1"
  }

  lemma NamesAre()
    ensures "independent-deterministic-" + Lower("RED_TEAM") + "-v1" == NameOf("RED_TEAM")
    ensures "independent-deterministic-" + Lower("MODEL_JURY") + "-v1" == NameOf("MODEL_JURY")
  {
    assert Lower("RED_TEAM") == "red_team" && Lower("MODEL_JURY") == "model_jury";
    assert "RED_TEAM"[0] != "MODEL_JURY"[0];
  }

  ghost predicate ReportWritten(env: Environment, report: Fields, kind: string, contract: Fields, flags: Fields, status: bool,
                                findings: seq<Json>, criticals: int, majors: int, minors: int) {
    && Get(report, "report_version") == Text("1") && Get(report, "review_kind") == Text(kind)
    && Get(report, "reviewer") == Text(NameOf(kind)) && Get(report, "reviewer_source_sha256") == Text(env.reviewerSource)
    && Get(report, "model_contract_digest") == Get(contract, "content_digest") && Get(report, "checks") == Object(flags)
    && Get(report, "status") == Text(if status then "PASS" else "FAIL") && Get(report, "critical_count") == Number(criticals)
    && Get(report, "major_count") == Number(majors) && Get(report, "minor_count") == Number(minors)
    && Get(report, "findings") == List(findings)
  }

  lemma FlagsAre(checks: map<string, bool>)
    ensures Flags(checks).Keys == checks.Keys && forall k :: k in checks ==> Flags(checks)[k] == Flag(checks[k])
    ensures AllHold(checks) <==> AllYes(Flags(checks))
    ensures forall k :: Holds(checks, k) <==> Yes(Flags(checks), k)
  {
  }

  lemma FlagsWritten(env: Environment, contract: Fields, draft: Fields)
    ensures ChecksWritten(env, contract, draft, Flags(ReviewChecks(env, contract, draft)))
  {
    var checks := ReviewChecks(env, contract, draft);
    assert "contract_digest_valid" != "draft_digest_valid";
    assert checks["contract_digest_valid"] == CarriesHash(env, contract) && checks["draft_digest_valid"] == CarriesHash(env, draft);
    FlagsAre(checks);
    hide SeenOf, Flags, CarriesHash, Sealed;
  }

  lemma ReportBodyIs(env: Environment, kind: string, contract: Fields, checks: map<string, bool>, findings: seq<Finding>)
    requires kind == "RED_TEAM" || kind == "MODEL_JURY"
    ensures ReportWritten(env, ReportBody(env, kind, Get(contract, DIGEST), checks, findings), kind, contract, Flags(checks),
                          Passes(checks, findings), Listed(findings),
                          Severities(findings, "CRITICAL"), Severities(findings, "MAJOR"), Severities(findings, "MINOR"))
  {
    NamesAre();
    hide Passes, Severities, Flags, Listed, Lower, NameOf;
  }

  lemma SealedReport(env: Environment, body: Fields, kind: string, contract: Fields, flags: Fields, status: bool,
                     findings: seq<Json>, criticals: int, majors: int, minors: int)
    requires ReportWritten(env, body, kind, contract, flags, status, findings, criticals, majors, minors)
    ensures ReportWritten(env, Seal(env, body), kind, contract, flags, status, findings, criticals, majors, minors)
    ensures CarriesHash(env, Seal(env, body))
  {
    SealCarries(env, body);
    hide Get, CarriesHash, Seal;
    SealKeeps(env, body, "report_version");
    SealKeeps(env, body, "review_kind");
    SealKeeps(env, body, "reviewer");
    SealKeeps(env, body, "reviewer_source_sha256");
    SealKeeps(env, body, "model_contract_digest");
    SealKeeps(env, body, "checks");
    SealKeeps(env, body, "status");
    SealKeeps(env, body, "critical_count");
    SealKeeps(env, body, "major_count");
    SealKeeps(env, body, "minor_count");
    SealKeeps(env, body, "findings");
  }

  function Limitation(severity: string, code: string): Json {
    Object(map["severity" := Text(severity), "code" := Text(code)])
  }

  // The accepted limitations, in the order the Red Team lists them.
  function Limitations(): seq<Json> {
    [ Limitation("MAJOR", "PROVISIONAL_ECOLOGICAL_COEFFICIENTS"), Limitation("MAJOR", "LOCAL_STABILITY_ONLY"),
      Limitation("MAJOR", "NORMALIZED_TIME_ONLY"), Limitation("MINOR", "INITIAL_STATE_DEPENDENCE"),
      Limitation("MINOR", "NO_PRACTICAL_EXTINCTION_THRESHOLD") ]
  }

  lemma FindingsAre()
    ensures Listed(FINDINGS) == Limitations() && Listed([]) == []
  {
    assert forall i :: 0 <= i < 5 ==> Listed(FINDINGS)[i] == Limitation(FINDINGS[i].severity, FINDINGS[i].code);
  }

  // Red Team: the five accepted limitations, none of them critical; it passes exactly when
  // every check does.
  ghost predicate RedTeamWritten(env: Environment, contract: Fields, draft: Fields, report: Fields) {
    exists flags :: ChecksWritten(env, contract, draft, flags)
      && ReportWritten(env, report, "RED_TEAM", contract, flags, AllYes(flags), Limitations(), 0, 3, 2) && CarriesHash(env, report)
  }

  lemma RedTeamIs(env: Environment, contract: Fields, draft: Fields)
    ensures RedTeamWritten(env, contract, draft, RedTeamReport(env, contract, ReviewChecks(env, contract, draft)))
  {
    var checks := ReviewChecks(env, contract, draft);
    FlagsWritten(env, contract, draft);
    FlagsAre(checks);
    NoCriticalFindings();
    FindingsAre();
    assert Passes(checks, FINDINGS) == AllHold(checks);
    hide ReviewChecks, ChecksWritten, ReportBody, Flags, AllHold, AllYes, Severities, FINDINGS, Seal, CarriesHash, Get, ReportWritten, Passes,
         Listed, Limitations;
    ReportBodyIs(env, "RED_TEAM", contract, checks, FINDINGS);
    SealedReport(env, ReportBody(env, "RED_TEAM", Get(contract, DIGEST), checks, FINDINGS), "RED_TEAM", contract, Flags(checks),
                 AllYes(Flags(checks)), Limitations(), 0, 3, 2);
  }

  // ---- the jury -----------------------------------------------------------------------------------------

  function Quarter(earned: bool): Json {
    Number(if earned then 25 else 0)
  }

  // The four dimensions, a quarter each, by the checks they rest on.
  ghost predicate DimensionsWritten(env: Environment, flags: Fields, dimensions: Fields) {
    && dimensions.Keys == {"scientific_coherence", "mathematical_well_posedness", "problem_relevance", "verification_feasibility"}
    && dimensions["scientific_coherence"]
       == Quarter(Yes(flags, "scientific_obligations_resolved") && Yes(flags, "parasite_semantics_explicit"))
    && dimensions["mathematical_well_posedness"]
       == Quarter(Yes(flags, "model_quality_gate_pass") && Yes(flags, "unit_audit_pass") && Yes(flags, "reference_state_is_equilibrium"))
    && dimensions["problem_relevance"]
       == Quarter(env.targets == {"Q1", "Q2", "Q3", "Q4", "Q5"} && Yes(flags, "structural_comparator_pairs_complete"))
    && dimensions["verification_feasibility"]
       == Quarter(Yes(flags, "policy_metric_metadata_complete") && Yes(flags, "policy_scenario_metadata_complete")
                  && Yes(flags, "jacobian_spectrum_is_recomputed"))
  }

  function PointsIn(dimensions: Fields, key: string): int {
    if key in dimensions && dimensions[key].Number? then dimensions[key].n else 0
  }

  function TotalOf(dimensions: Fields): int {
    PointsIn(dimensions, "scientific_coherence") + PointsIn(dimensions, "mathematical_well_posedness")
    + PointsIn(dimensions, "problem_relevance") + PointsIn(dimensions, "verification_feasibility")
  }

  // The jury's report: its own check is the score of 85, and the score is the sum of the dimensions.
  ghost predicate JuryWritten(env: Environment, contract: Fields, draft: Fields, report: Fields) {
    exists flags, dimensions ::
      && ChecksWritten(env, contract, draft, flags) && DimensionsWritten(env, flags, dimensions)
      && JuryFields(env, contract, report, flags, dimensions, TotalOf(dimensions), TotalOf(dimensions) >= 85)
      && CarriesHash(env, report)
  }

  ghost predicate JuryFields(env: Environment, contract: Fields, report: Fields, flags: Fields, dimensions: Fields, total: int, reached: bool) {
    && ReportWritten(env, report, "MODEL_JURY", contract, flags["minimum_score_reached" := Flag(reached)], AllYes(flags) && reached, [], 0, 0, 0)
    && Get(report, "score_dimensions") == Object(dimensions) && Get(report, "score") == Number(total)
    && Get(report, "decision") == Text(if AllYes(flags) && reached then "PASS" else "FAIL")
  }

  lemma DimensionFields(score: Score) returns (dimensions: Fields)
    ensures Dimensions(score) == Object(dimensions) && TotalOf(dimensions) == score.Total()
    ensures dimensions.Keys == {"scientific_coherence", "mathematical_well_posedness", "problem_relevance", "verification_feasibility"}
    ensures dimensions["scientific_coherence"] == Number(score.coherence) && dimensions["mathematical_well_posedness"] == Number(score.posedness)
    ensures dimensions["problem_relevance"] == Number(score.relevance) && dimensions["verification_feasibility"] == Number(score.feasibility)
  {
    dimensions := Dimensions(score).fields;
  }

  lemma HeldIsYes(checks: map<string, bool>, key: string)
    ensures Holds(checks, key) <==> Yes(Flags(checks), key)
  {
  }

  lemma ScoresAreQuarters(env: Environment, checks: map<string, bool>)
    ensures var (score, flags) := (JuryScore(env, checks), Flags(checks));
            && Number(score.coherence) == Quarter(Yes(flags, "scientific_obligations_resolved") && Yes(flags, "parasite_semantics_explicit"))
            && Number(score.posedness) == Quarter(Yes(flags, "model_quality_gate_pass") && Yes(flags, "unit_audit_pass")
                                                  && Yes(flags, "reference_state_is_equilibrium"))
            && Number(score.relevance) == Quarter(env.targets == {"Q1", "Q2", "Q3", "Q4", "Q5"}
                                                  && Yes(flags, "structural_comparator_pairs_complete"))
            && Number(score.feasibility) == Quarter(Yes(flags, "policy_metric_metadata_complete")
                                                    && Yes(flags, "policy_scenario_metadata_complete")
                                                    && Yes(flags, "jacobian_spectrum_is_recomputed"))
  {
    HeldIsYes(checks, "scientific_obligations_resolved");
    HeldIsYes(checks, "parasite_semantics_explicit");
    HeldIsYes(checks, "model_quality_gate_pass");
    HeldIsYes(checks, "unit_audit_pass");
    HeldIsYes(checks, "reference_state_is_equilibrium");
    HeldIsYes(checks, "structural_comparator_pairs_complete");
    HeldIsYes(checks, "policy_metric_metadata_complete");
    HeldIsYes(checks, "policy_scenario_metadata_complete");
    HeldIsYes(checks, "jacobian_spectrum_is_recomputed");
    hide Holds, Yes, Flags;
  }

  lemma DimensionsAre(env: Environment, checks: map<string, bool>) returns (dimensions: Fields)
    ensures Dimensions(JuryScore(env, checks)) == Object(dimensions) && TotalOf(dimensions) == JuryScore(env, checks).Total()
    ensures DimensionsWritten(env, Flags(checks), dimensions)
  {
    ScoresAreQuarters(env, checks);
    hide JuryScore, Flags, Yes, Quarter, TotalOf, Dimensions;
    dimensions := DimensionFields(JuryScore(env, checks));
  }

  lemma FlagsGrow(checks: map<string, bool>, key: string, value: bool)
    ensures Flags(checks[key := value]) == Flags(checks)[key := Flag(value)]
  {
  }

  lemma DecidedIs(report: Fields, score: Score)
    ensures var d := Decided(report, score);
            && Get(d, "score_dimensions") == Dimensions(score) && Get(d, "score") == Number(score.Total())
            && Get(d, "decision") == Text(if Get(report, "status") == Text("PASS") && score.Total() >= 85 then "PASS" else "FAIL")
    ensures forall k :: k !in {"score_dimensions", "score", "decision"} ==> Agree(Decided(report, score), report, k)
  {
    hide Dimensions, Score.Total;
  }

  lemma DecidedReport(env: Environment, report: Fields, score: Score, contract: Fields, flags: Fields, status: bool)
    requires ReportWritten(env, report, "MODEL_JURY", contract, flags, status, [], 0, 0, 0)
    ensures ReportWritten(env, Decided(report, score), "MODEL_JURY", contract, flags, status, [], 0, 0, 0)
  {
    DecidedIs(report, score);
    hide Decided;
    var d := Decided(report, score);
    assert Agree(d, report, "reviewer") && Agree(d, report, "report_version");
    assert Agree(d, report, "review_kind") && Agree(d, report, "reviewer_source_sha256");
    assert Agree(d, report, "model_contract_digest") && Agree(d, report, "checks") && Agree(d, report, "status");
    assert Agree(d, report, "findings") && Agree(d, report, "critical_count") && Agree(d, report, "major_count") && Agree(d, report, "minor_count");
  }

  // The report before it is scored: its last check is whether the score was reached.
  lemma UnscoredReport(env: Environment, contract: Fields, checks: map<string, bool>, reached: bool)
    requires "minimum_score_reached" !in checks
    ensures ReportWritten(env, Report(env, "MODEL_JURY", Get(contract, DIGEST), checks["minimum_score_reached" := reached], []), "MODEL_JURY",
                          contract, Flags(checks)["minimum_score_reached" := Flag(reached)], AllYes(Flags(checks)) && reached, [], 0, 0, 0)
  {
    var more := checks["minimum_score_reached" := reached];
    MinimumScoreCheck(checks, reached);
    assert Passes(more, []) <==> AllHold(checks) && reached;
    FlagsAre(checks);
    FlagsGrow(checks, "minimum_score_reached", reached);
    FindingsAre();
    hide ReportBody, Flags, AllHold, AllYes, FINDINGS, Seal, CarriesHash, Get, ReportWritten, Passes, Listed, Limitations;
    ReportBodyIs(env, "MODEL_JURY", contract, more, []);
    SealedReport(env, ReportBody(env, "MODEL_JURY", Get(contract, DIGEST), more, []), "MODEL_JURY", contract,
                 Flags(checks)["minimum_score_reached" := Flag(reached)], AllYes(Flags(checks)) && reached, [], 0, 0, 0);
  }

  lemma ScoredReport(env: Environment, contract: Fields, report: Fields, score: Score, flags: Fields, dimensions: Fields)
    requires Dimensions(score) == Object(dimensions)
    requires ReportWritten(env, report, "MODEL_JURY", contract, flags["minimum_score_reached" := Flag(score.Total() >= 85)],
                           AllYes(flags) && score.Total() >= 85, [], 0, 0, 0)
    ensures var sealed := Seal(env, Decided(report, score));
            JuryFields(env, contract, sealed, flags, dimensions, score.Total(), score.Total() >= 85) && CarriesHash(env, sealed)
  {
    var d, reached := Decided(report, score), score.Total() >= 85;
    var more := flags["minimum_score_reached" := Flag(reached)];
    DecidedReport(env, report, score, contract, more, AllYes(flags) && reached);
    DecidedIs(report, score);
    FailIsNotPass();
    assert Get(report, "status") == Text(if AllYes(flags) && reached then "PASS" else "FAIL");
    hide Decided, Seal, CarriesHash, Get, ReportWritten, Dimensions, AllYes, Score.Total, Agree;
    SealedReport(env, d, "MODEL_JURY", contract, more, AllYes(flags) && reached, [], 0, 0, 0);
    SealKeeps(env, d, "score_dimensions");
    SealKeeps(env, d, "score");
    SealKeeps(env, d, "decision");
  }

  lemma JuryIs(env: Environment, contract: Fields, draft: Fields)
    requires "minimum_score_reached" !in ReviewChecks(env, contract, draft)
    ensures JuryWritten(env, contract, draft, JuryReport(env, contract, ReviewChecks(env, contract, draft)))
  {
    var checks := ReviewChecks(env, contract, draft);
    var score := JuryScore(env, checks);
    FlagsWritten(env, contract, draft);
    hide ReviewChecks, ChecksWritten, Flags, AllYes, Seal, CarriesHash, Get, ReportWritten, Score.Total, JuryScore, Dimensions, DimensionsWritten,
         TotalOf, Decided, Report, JuryFields;
    UnscoredReport(env, contract, checks, score.Total() >= 85);
    var dimensions := DimensionsAre(env, checks);
    ScoredReport(env, contract, Report(env, "MODEL_JURY", Get(contract, DIGEST), checks["minimum_score_reached" := score.Total() >= 85], []),
                 score, Flags(checks), dimensions);
  }

  lemma TotalIsFull(env: Environment, flags: Fields, dimensions: Fields)
    requires DimensionsWritten(env, flags, dimensions) && TotalOf(dimensions) >= 85
    ensures TotalOf(dimensions) == 100
  {
    hide Yes;
  }

  // A jury that passes awards all hundred points.
  lemma PassingScoreIsFull(env: Environment, contract: Fields, draft: Fields, jury: Fields)
    requires JuryWritten(env, contract, draft, jury) && Get(jury, "decision") == Text("PASS")
    ensures Get(jury, "score") == Number(100)
  {
    FailIsNotPass();
    hide ChecksWritten, DimensionsWritten, TotalOf, ReportWritten, CarriesHash, AllYes, Get;
    var flags, dimensions :| ChecksWritten(env, contract, draft, flags) && DimensionsWritten(env, flags, dimensions)
      && JuryFields(env, contract, jury, flags, dimensions, TotalOf(dimensions), TotalOf(dimensions) >= 85);
    TotalIsFull(env, flags, dimensions);
  }

  // ---- a review -----------------------------------------------------------------------------------------

  lemma ReportsAreWritten(env: Environment, files: Files)
    requires Reviewable(env, files) && ChecksAreNamed(env)
    ensures var (contract, draft, after) := (files[ContractFile], files[DraftFile], ReviewOf(env, files).files);
            && RedTeamFile in after && RedTeamWritten(env, contract, draft, after[RedTeamFile])
            && JuryFile in after && JuryWritten(env, contract, draft, after[JuryFile])
  {
    var contract, draft, after := files[ContractFile], files[DraftFile], ReviewOf(env, files).files;
    ChecksHaveNoScore(env, contract, draft);
    var checks := ReviewChecks(env, contract, draft);
    var redTeam, jury := RedTeamReport(env, contract, checks), JuryReport(env, contract, checks);
    ReviewKeepsReports(env, files, redTeam, jury);
    hide ReviewOf, ReviewChecks, RedTeamReport, JuryReport, RedTeamWritten, JuryWritten, ChecksAreNamed, Reviewable;
    RedTeamIs(env, contract, draft);
    JuryIs(env, contract, draft);
  }

  lemma ContractAndDraft(env: Environment, files: Files)
    requires Reviewable(env, files)
    ensures ContractFile in files && DraftFile in files
  {
  }

  lemma ReviewKeepsReports(env: Environment, files: Files, redTeam: Fields, jury: Fields)
    requires Reviewable(env, files) && ChecksAreNamed(env)
    requires redTeam == RedTeamReport(env, files[ContractFile], ChecksOf(env, files))
    requires jury == JuryReport(env, files[ContractFile], ChecksOf(env, files))
    ensures var after := ReviewOf(env, files).files;
            RedTeamFile in after && after[RedTeamFile] == redTeam && JuryFile in after && after[JuryFile] == jury
  {
    ContractAndDraft(env, files);
    hide *;
    if ReviewOf(env, files).outcome == Promoted {
      var r, j, policy := PromotionWrites(env, files);
      Placed(files, r, j, policy, PromotedDraft(env, files[DraftFile], policy, r, j), Summary(env, files[ContractFile], policy, r, j));
    } else {
      var r, j := RejectedReports(env, files);
    }
  }

  // A promotion writes the reviewed draft, policy and summary and leaves contract and archive
  // alone.
  lemma PromotionIsWritten(env: Environment, files: Files)
    requires Reviewable(env, files) && ChecksAreNamed(env) && ReviewOf(env, files).outcome == Promoted
    ensures var (before, after) := (files, ReviewOf(env, files).files);
            && Wrote(after) && ContractFile in after && ArchiveFile in after
            && DraftPromoted(env, before[DraftFile], after[DraftFile], after[PolicyFile], after[RedTeamFile], after[JuryFile])
            && PolicyPromoted(env, before[DraftFile], after[PolicyFile], after[RedTeamFile], after[JuryFile])
            && SummaryPromoted(env, before[ContractFile], after[SummaryFile], after[PolicyFile], after[RedTeamFile], after[JuryFile])
            && after[ContractFile] == before[ContractFile] && after[ArchiveFile] == before[ArchiveFile]
  {
    var contract, draft, after := files[ContractFile], files[DraftFile], ReviewOf(env, files).files;
    var redTeam, jury, policy := PromotionWrites(env, files);
    ReportsAreWritten(env, files);
    ArchiveIsRead(env, files);
    hide ReviewOf, ReviewChecks, RedTeamReport, JuryReport, RedTeamWritten, JuryWritten, ChecksAreNamed, Reviewable, PromotedDraft, Summary, Get,
         Candidate, Sealed, DraftPromoted, PolicyPromoted, SummaryPromoted, CandidatePromoted;
    var promoted, summary := PromotedDraft(env, draft, policy, redTeam, jury), Summary(env, contract, policy, redTeam, jury);
    Placed(files, redTeam, jury, policy, promoted, summary);
    PassingScoreIsFull(env, contract, draft, jury);
    PromotedDraftIs(env, draft, policy, redTeam, jury);
    CandidateIs(draft, redTeam, jury);
    PolicyIs(env, draft, Candidate(draft, redTeam, jury), policy, redTeam, jury);
    SummaryIs(env, contract, policy, redTeam, jury);
  }

  lemma PolicyIs(env: Environment, draft: Fields, c: Fields, policy: Fields, redTeam: Fields, jury: Fields)
    requires env.normalise(c) == Some(policy) && CandidatePromoted(draft, c, redTeam, jury)
    ensures PolicyPromoted(env, draft, policy, redTeam, jury)
  {
    hide CandidatePromoted;
  }

  // A case that cannot be reviewed keeps every file. The archive is what it fails on exactly
  // when the three inputs are there and the archived draft does not carry the digest it is
  // known by, or no longer hashes to it.
  lemma UnreviewableOutcome(env: Environment, files: Files)
    requires !Reviewable(env, files)
    ensures var archiveLost := ContractFile in files && DraftFile in files && ArchiveFile in files
              && (Get(files[ArchiveFile], "content_digest") != Text("650560edde518156a05ed31b2b60357fd06826a60f60008b5c31ae174beb9384")
                  || env.hash(files[ArchiveFile] - {"content_digest"}) != "650560edde518156a05ed31b2b60357fd06826a60f60008b5c31ae174beb9384");
            ReviewOf(env, files) == Review(if archiveLost then ArchiveLost else Malformed, files)
  {
    hide Get, SeenOf, Judged, RedTeamReport, JuryReport, ReviewChecks;
  }
}
