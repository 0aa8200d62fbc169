// When the review promotes, what its artefacts bind, and what a second run does.
module PromotionProperties {
  import opened Results
  import opened Promotion

  // The inputs of a review that gets as far as its reports.
  ghost predicate Reviewable(env: Environment, files: Files) {
    && ContractFile in files && DraftFile in files && ArchiveFile in files
    && Get(files[ArchiveFile], DIGEST) == Text(OLD_DRAFT_DIGEST) && SemanticDigest(env, files[ArchiveFile]) == OLD_DRAFT_DIGEST
    && DIGEST in files[ContractFile] && DIGEST in files[DraftFile]
    && env.readable(files[ContractFile], SeenOf(files[DraftFile]))
  }

  function ChecksOf(env: Environment, files: Files): map<string, bool>
    requires ContractFile in files && DraftFile in files
  {
    ReviewChecks(env, files[ContractFile], files[DraftFile])
  }

  lemma ReportBodyStatus(env: Environment, kind: string, digest: Json, checks: map<string, bool>, findings: seq<Finding>)
    ensures var b := ReportBody(env, kind, digest, checks, findings);
            Get(b, "status") == Verdict(Passes(checks, findings)) && Get(b, "critical_count") == Number(Severities(findings, "CRITICAL"))
  {
    hide Passes, Verdict, Severities, Flags, Listed;
  }

  lemma ReportStatus(env: Environment, kind: string, digest: Json, checks: map<string, bool>, findings: seq<Finding>)
    ensures var r := Report(env, kind, digest, checks, findings);
            && Get(r, "status") == Verdict(Passes(checks, findings))
            && Get(r, "critical_count") == Number(Severities(findings, "CRITICAL"))
            && Sealed(env, r) && DIGEST in r
  {
    hide ReportBody, Passes, Verdict, Severities, Sealed, Seal, Get;
    ReportBodyStatus(env, kind, digest, checks, findings);
    SealVerifies(env, ReportBody(env, kind, digest, checks, findings), Null);
  }

  lemma VerdictIs(passed: bool)
    ensures Verdict(passed) == (if passed then Text("PASS") else Text("FAIL")) && Text("PASS") != Text("FAIL")
  {
    assert "PASS"[0] != "FAIL"[0];
  }

  lemma RedTeamPasses(env: Environment, contract: Fields, checks: map<string, bool>)
    ensures var r := RedTeamReport(env, contract, checks);
            && Get(r, "status") == (if AllHold(checks) then Text("PASS") else Text("FAIL")) && Text("PASS") != Text("FAIL")
            && Get(r, "critical_count") == Number(0) && Sealed(env, r) && DIGEST in r
  {
    NoCriticalFindings();
    VerdictIs(Passes(checks, FINDINGS));
    hide Report, AllHold, Verdict, Severities, Sealed, Get, FINDINGS;
    ReportStatus(env, "RED_TEAM", Get(contract, DIGEST), checks, FINDINGS);
  }

  lemma MinimumScoreCheck(checks: map<string, bool>, reached: bool)
    requires "minimum_score_reached" !in checks
    ensures AllHold(checks["minimum_score_reached" := reached]) <==> AllHold(checks) && reached
  {
    var more := checks["minimum_score_reached" := reached];
    assert forall k :: k in checks ==> k in more && more[k] == checks[k];
    assert more["minimum_score_reached"] == reached;
  }

  lemma DecidedFields(report: Fields, score: Score)
    ensures Get(Decided(report, score), "decision") == Verdict(Get(report, "status") == Text("PASS") && score.Total() >= PASSING_SCORE)
  {
    hide Verdict, Dimensions;
  }

  lemma JuryPasses(env: Environment, contract: Fields, checks: map<string, bool>)
    requires "minimum_score_reached" !in checks
    ensures var r := JuryReport(env, contract, checks);
            && Get(r, "decision") == (if AllHold(checks) && JuryScore(env, checks).Total() >= PASSING_SCORE then Text("PASS") else Text("FAIL"))
            && Sealed(env, r) && DIGEST in r
  {
    var score := JuryScore(env, checks);
    var reached := score.Total() >= PASSING_SCORE;
    MinimumScoreCheck(checks, reached);
    var more := checks["minimum_score_reached" := reached];
    var report := Report(env, "MODEL_JURY", Get(contract, DIGEST), more, []);
    assert Passes(more, []) <==> AllHold(checks) && reached;
    VerdictIs(Passes(more, []));
    hide Report, AllHold, Verdict, Severities, Sealed, Seal, Get, Decided, JuryScore, Passes;
    ReportStatus(env, "MODEL_JURY", Get(contract, DIGEST), more, []);
    DecidedFields(report, score);
    SealVerifies(env, Decided(report, score), Null);
    VerdictIs(Get(report, "status") == Text("PASS") && reached);
  }

  // The review's checks contain the scored ones and not the jury's own.
  ghost predicate ChecksAreNamed(env: Environment) {
    forall contract, seen {:trigger env.others(contract, seen)} ::
      SCORED <= env.others(contract, seen).Keys && "minimum_score_reached" !in env.others(contract, seen)
  }

  // The policy schema accepts the candidate that would carry the digests of these reports.
  predicate PolicyAccepted(env: Environment, files: Files)
    requires ContractFile in files && DraftFile in files
  {
    var contract, checks := files[ContractFile], ChecksOf(env, files);
    env.normalise(Candidate(files[DraftFile], RedTeamReport(env, contract, checks), JuryReport(env, contract, checks))).Some?
  }

  // Every outcome of a reviewable case, by conditions on its inputs: a false check ends with
  // the Red Team, wrong targets with the Jury, and the policy schema has the last word.
  lemma OutcomeIff(env: Environment, files: Files)
    requires Reviewable(env, files) && ChecksAreNamed(env)
    ensures var (outcome, checks) := (ReviewOf(env, files).outcome, ChecksOf(env, files));
            && (outcome == RedTeamRejected <==> !AllHold(checks))
            && (outcome == JuryRejected <==> AllHold(checks) && env.targets != TARGETS)
            && (outcome == PolicyInvalid <==> AllHold(checks) && env.targets == TARGETS && !PolicyAccepted(env, files))
            && (outcome == Promoted <==> AllHold(checks) && env.targets == TARGETS && PolicyAccepted(env, files))
  {
    var contract, draft, checks := files[ContractFile], files[DraftFile], ChecksOf(env, files);
    var redTeam, jury := RedTeamReport(env, contract, checks), JuryReport(env, contract, checks);
    ReviewIsJudged(env, files);
    ChecksHaveNoScore(env, contract, draft);
    ScoredChecks(env, checks);
    hide RedTeamReport, JuryReport, JuryScore, ReviewChecks, AllHold, Get, Candidate, ReviewOf, Reviewable, Judged, ChecksAreNamed;
    RedTeamPasses(env, contract, checks);
    JuryPasses(env, contract, checks);
    JudgedOutcome(env, files, contract, draft, redTeam, jury);
  }

  lemma ScoredChecks(env: Environment, checks: map<string, bool>)
    requires AllHold(checks) ==> SCORED <= checks.Keys
    ensures AllHold(checks) ==> (JuryScore(env, checks).Total() >= PASSING_SCORE <==> env.targets == TARGETS)
  {
    ScoreReachesOnlyAtFull(env, checks);
    hide JuryScore, SCORED;
  }

  // The outcome by what the two reports say and what the schema does with the candidate.
  lemma JudgedOutcome(env: Environment, files: Files, contract: Fields, draft: Fields, redTeam: Fields, jury: Fields)
    requires Get(redTeam, "critical_count") == Number(0)
    ensures var (outcome, policy) := (Judged(env, files, contract, draft, redTeam, jury).outcome, env.normalise(Candidate(draft, redTeam, jury)));
            && (outcome == RedTeamRejected <==> Get(redTeam, "status") != Text("PASS"))
            && (outcome == JuryRejected <==> Get(redTeam, "status") == Text("PASS") && Get(jury, "decision") != Text("PASS"))
            && (outcome == PolicyInvalid <==> Get(redTeam, "status") == Text("PASS") && Get(jury, "decision") == Text("PASS") && policy.None?)
            && (outcome == Promoted <==> Get(redTeam, "status") == Text("PASS") && Get(jury, "decision") == Text("PASS") && policy.Some?)
  {
    hide Get, Candidate, PromotedDraft, Summary;
  }

  // What a promoting judgement has read and written.
  lemma JudgedPromotes(env: Environment, files: Files, contract: Fields, draft: Fields, redTeam: Fields, jury: Fields) returns (policy: Fields)
    requires Judged(env, files, contract, draft, redTeam, jury).outcome == Promoted
    ensures Get(redTeam, "status") == Text("PASS") && Get(redTeam, "critical_count") == Number(0) && Get(jury, "decision") == Text("PASS")
    ensures env.normalise(Candidate(draft, redTeam, jury)) == Some(policy)
    ensures Judged(env, files, contract, draft, redTeam, jury).files
         == files[RedTeamFile := redTeam][JuryFile := jury][PolicyFile := policy][DraftFile := PromotedDraft(env, draft, policy, redTeam, jury)]
                 [SummaryFile := Summary(env, contract, policy, redTeam, jury)]
  {
    hide Get, Candidate, PromotedDraft, Summary;
    policy := env.normalise(Candidate(draft, redTeam, jury)).value;
  }

  // A rejected case keeps its policy, draft and summary but has new reports, one of which
  // says so; a malformed case keeps everything.
  lemma RejectionKeepsPolicy(env: Environment, files: Files)
    requires ChecksAreNamed(env) && ReviewOf(env, files).outcome != Promoted
    ensures var review := ReviewOf(env, files);
            && review.files - {RedTeamFile, JuryFile} == files - {RedTeamFile, JuryFile}
            && (review.outcome in {Malformed, ArchiveLost} ==> review.files == files)
            && (review.outcome == RedTeamRejected ==> RedTeamFile in review.files && Get(review.files[RedTeamFile], "status") == Text("FAIL"))
            && (review.outcome == JuryRejected ==> JuryFile in review.files && Get(review.files[JuryFile], "decision") == Text("FAIL"))
  {
    if Reviewable(env, files) {
      var redTeam, jury := RejectedReports(env, files);
      hide Get, ReviewOf, Reviewable;
      OnlyReportsChange(files, redTeam, jury);
    }
  }

  // The two reports a rejecting review leaves.
  lemma RejectedReports(env: Environment, files: Files) returns (redTeam: Fields, jury: Fields)
    requires ChecksAreNamed(env) && Reviewable(env, files) && ReviewOf(env, files).outcome != Promoted
    ensures ReviewOf(env, files).files == files[RedTeamFile := redTeam][JuryFile := jury]
    ensures redTeam == RedTeamReport(env, files[ContractFile], ChecksOf(env, files))
    ensures jury == JuryReport(env, files[ContractFile], ChecksOf(env, files))
    ensures ReviewOf(env, files).outcome !in {Malformed, ArchiveLost}
    ensures Sealed(env, redTeam) && DIGEST in redTeam && Sealed(env, jury) && DIGEST in jury
    ensures ReviewOf(env, files).outcome == RedTeamRejected ==> Get(redTeam, "status") == Text("FAIL")
    ensures ReviewOf(env, files).outcome == JuryRejected ==> Get(jury, "decision") == Text("FAIL")
  {
    var contract, draft, checks := files[ContractFile], files[DraftFile], ChecksOf(env, files);
    redTeam, jury := RedTeamReport(env, contract, checks), JuryReport(env, contract, checks);
    ReviewIsJudged(env, files);
    ChecksHaveNoScore(env, contract, draft);
    hide RedTeamReport, JuryReport, ReviewChecks, AllHold, Sealed, Get, SCORED, ReviewOf, Reviewable, Judged, SemanticDigest, ChecksAreNamed;
    JudgedRejects(env, files, contract, draft, redTeam, jury);
    RedTeamPasses(env, contract, checks);
    JuryPasses(env, contract, checks);
  }

  lemma ReviewIsJudged(env: Environment, files: Files)
    requires Reviewable(env, files)
    ensures var (contract, draft, checks) := (files[ContractFile], files[DraftFile], ChecksOf(env, files));
            ReviewOf(env, files)
            == Judged(env, files, contract, draft, RedTeamReport(env, contract, checks), JuryReport(env, contract, checks))
  {
    hide Judged, RedTeamReport, JuryReport, ReviewChecks, Get, SemanticDigest, SeenOf;
  }

  lemma JudgedRejects(env: Environment, files: Files, contract: Fields, draft: Fields, redTeam: Fields, jury: Fields)
    requires Judged(env, files, contract, draft, redTeam, jury).outcome != Promoted
    ensures var review := Judged(env, files, contract, draft, redTeam, jury);
            && review.files == files[RedTeamFile := redTeam][JuryFile := jury] && review.outcome !in {Malformed, ArchiveLost}
            && (review.outcome == RedTeamRejected ==> Get(redTeam, "status") != Text("PASS") || Get(redTeam, "critical_count") != Number(0))
            && (review.outcome == JuryRejected ==> Get(jury, "decision") != Text("PASS"))
  {
    hide Get, Candidate, PromotedDraft, Summary;
  }

  lemma ChecksHaveNoScore(env: Environment, contract: Fields, draft: Fields)
    requires ChecksAreNamed(env)
    ensures "minimum_score_reached" !in ReviewChecks(env, contract, draft) && SCORED <= ReviewChecks(env, contract, draft).Keys
  {
  }

  lemma OnlyReportsChange(files: Files, redTeam: Fields, jury: Fields)
    ensures files[RedTeamFile := redTeam][JuryFile := jury] - {RedTeamFile, JuryFile} == files - {RedTeamFile, JuryFile}
  {
  }

  // ---- what promotion writes -----------------------------------------------------------------------

  // The policy schema is an idempotent normaliser that keeps the review's own four fields and
  // does not change what the checks see.
  ghost predicate Normaliser(env: Environment) {
    forall c {:trigger env.normalise(c)} :: env.normalise(c).Some? ==>
      && env.normalise(env.normalise(c).value) == env.normalise(c)
      && KeepsOwnFields(c, env.normalise(c).value)
      && SeesTheSame(env, c, env.normalise(c).value)
  }

  const OWN_FIELDS := {"review_status", "production_eligible", "red_team_report_digest", "model_jury_report_digest"}

  ghost predicate KeepsOwnFields(c: Fields, d: Fields) {
    forall k :: k in OWN_FIELDS && k in c ==> k in d && d[k] == c[k]
  }

  ghost predicate SeesTheSame(env: Environment, c: Fields, d: Fields) {
    forall contract, obligations {:trigger env.others(contract, SeenIn(d, obligations))} {:trigger env.readable(contract, SeenIn(d, obligations))} ::
      && env.others(contract, SeenIn(d, obligations)) == env.others(contract, SeenIn(c, obligations))
      && env.readable(contract, SeenIn(d, obligations)) == env.readable(contract, SeenIn(c, obligations))
  }

  ghost predicate Wrote(files: Files) {
    RedTeamFile in files && JuryFile in files && PolicyFile in files && DraftFile in files && SummaryFile in files
  }

  // Policy, draft and summary carry the digests of exactly the reports on disk.
  ghost predicate Bound(files: Files)
    requires Wrote(files)
  {
    var redTeam, jury := Get(files[RedTeamFile], DIGEST), Get(files[JuryFile], DIGEST);
    forall name :: name in {PolicyFile, DraftFile, SummaryFile} ==>
      Get(files[name], "red_team_report_digest") == redTeam && Get(files[name], "model_jury_report_digest") == jury
  }

  lemma CandidateFields(draft: Fields, redTeam: Fields, jury: Fields)
    ensures var c := Candidate(draft, redTeam, jury);
            && OWN_FIELDS <= c.Keys
            && c["review_status"] == Text("REVIEWED") && c["production_eligible"] == Flag(true)
            && c["red_team_report_digest"] == Get(redTeam, DIGEST) && c["model_jury_report_digest"] == Get(jury, DIGEST)
    ensures SeenIn(Candidate(draft, redTeam, jury), Get(draft, "unresolved_obligations")) == SeenOf(draft)
  {
  }

  lemma DraftBodyFields(env: Environment, draft: Fields, policy: Fields, redTeam: Fields, jury: Fields)
    ensures var d := DraftBody(env, draft, policy, redTeam, jury);
            && Get(d, "red_team_report_digest") == Get(redTeam, DIGEST) && Get(d, "model_jury_report_digest") == Get(jury, DIGEST)
            && Get(d, "production_policy_digest") == Text(env.hash(policy)) && Get(d, "candidate_policy") == Object(policy)
            && Get(d, "unresolved_obligations") == Get(draft, "unresolved_obligations")
  {
  }

  lemma DraftFields(env: Environment, draft: Fields, policy: Fields, redTeam: Fields, jury: Fields)
    ensures var d := PromotedDraft(env, draft, policy, redTeam, jury);
            && Get(d, "red_team_report_digest") == Get(redTeam, DIGEST) && Get(d, "model_jury_report_digest") == Get(jury, DIGEST)
            && Get(d, "production_policy_digest") == Text(env.hash(policy)) && PolicyOf(d) == policy
            && Get(d, "unresolved_obligations") == Get(draft, "unresolved_obligations")
            && Sealed(env, d) && DIGEST in d
  {
    hide DraftBody, Sealed, Seal, Get;
    DraftBodyFields(env, draft, policy, redTeam, jury);
    SealVerifies(env, DraftBody(env, draft, policy, redTeam, jury), Null);
  }

  lemma SummaryBodyFields(env: Environment, contract: Fields, policy: Fields, redTeam: Fields, jury: Fields)
    ensures var s := SummaryBody(env, contract, policy, redTeam, jury);
            && Get(s, "red_team_report_digest") == Get(redTeam, DIGEST) && Get(s, "model_jury_report_digest") == Get(jury, DIGEST)
            && Get(s, "policy_digest") == Text(env.hash(policy))
  {
  }

  lemma SummaryFields(env: Environment, contract: Fields, policy: Fields, redTeam: Fields, jury: Fields)
    ensures var s := Summary(env, contract, policy, redTeam, jury);
            && Get(s, "red_team_report_digest") == Get(redTeam, DIGEST) && Get(s, "model_jury_report_digest") == Get(jury, DIGEST)
            && Get(s, "policy_digest") == Text(env.hash(policy)) && Sealed(env, s)
  {
    hide SummaryBody, Sealed, Seal, Get;
    SummaryBodyFields(env, contract, policy, redTeam, jury);
    SealVerifies(env, SummaryBody(env, contract, policy, redTeam, jury), Null);
  }

  // The artefacts of a promoting review, by name.
  lemma PromotionWrites(env: Environment, files: Files) returns (redTeam: Fields, jury: Fields, policy: Fields)
    requires Reviewable(env, files) && ChecksAreNamed(env) && ReviewOf(env, files).outcome == Promoted
    ensures redTeam == RedTeamReport(env, files[ContractFile], ChecksOf(env, files)) && Get(redTeam, "status") == Text("PASS")
    ensures jury == JuryReport(env, files[ContractFile], ChecksOf(env, files)) && Get(jury, "decision") == Text("PASS")
    ensures Get(redTeam, "critical_count") == Number(0) && Sealed(env, redTeam) && Sealed(env, jury)
    ensures env.normalise(Candidate(files[DraftFile], redTeam, jury)) == Some(policy)
    ensures ReviewOf(env, files).files
         == files[RedTeamFile := redTeam][JuryFile := jury][PolicyFile := policy][DraftFile := PromotedDraft(env, files[DraftFile], policy, redTeam, jury)]
                 [SummaryFile := Summary(env, files[ContractFile], policy, redTeam, jury)]
  {
    var contract, draft, checks := files[ContractFile], files[DraftFile], ChecksOf(env, files);
    redTeam, jury := RedTeamReport(env, contract, checks), JuryReport(env, contract, checks);
    ReviewIsJudged(env, files);
    ChecksHaveNoScore(env, contract, draft);
    hide RedTeamReport, JuryReport, ReviewChecks, AllHold, Candidate, PromotedDraft, Summary, Sealed, Get, ReviewOf, Reviewable, Judged, ChecksAreNamed, SCORED;
    RedTeamPasses(env, contract, checks);
    JuryPasses(env, contract, checks);
    policy := JudgedPromotes(env, files, contract, draft, redTeam, jury);
  }

  // Reports that pass, sealed artefacts that verify, and digests that match what is on disk.
  ghost predicate Certified(env: Environment, files: Files) {
    && Wrote(files) && Bound(files)
    && Sealed(env, files[RedTeamFile]) && Sealed(env, files[JuryFile]) && Sealed(env, files[DraftFile]) && Sealed(env, files[SummaryFile])
    && Get(files[RedTeamFile], "status") == Text("PASS") && Get(files[JuryFile], "decision") == Text("PASS")
    && Get(files[DraftFile], "production_policy_digest") == Text(env.hash(files[PolicyFile]))
    && Get(files[SummaryFile], "policy_digest") == Text(env.hash(files[PolicyFile]))
    && Get(files[PolicyFile], "review_status") == Text("REVIEWED") && Get(files[PolicyFile], "production_eligible") == Flag(true)
  }

  lemma ArtefactsCertify(env: Environment, files: Files, redTeam: Fields, jury: Fields, policy: Fields, draft: Fields, summary: Fields)
    requires Wrote(files) && files[RedTeamFile] == redTeam && files[JuryFile] == jury && files[PolicyFile] == policy
    requires files[DraftFile] == draft && files[SummaryFile] == summary
    requires Sealed(env, redTeam) && Sealed(env, jury) && Sealed(env, draft) && Sealed(env, summary)
    requires Get(redTeam, "status") == Text("PASS") && Get(jury, "decision") == Text("PASS")
    requires Get(draft, "production_policy_digest") == Text(env.hash(policy)) && Get(summary, "policy_digest") == Text(env.hash(policy))
    requires Get(policy, "review_status") == Text("REVIEWED") && Get(policy, "production_eligible") == Flag(true)
    requires forall o :: o in {policy, draft, summary} ==>
               Get(o, "red_team_report_digest") == Get(redTeam, DIGEST) && Get(o, "model_jury_report_digest") == Get(jury, DIGEST)
    ensures Certified(env, files)
  {
    assert policy in {policy, draft, summary} && draft in {policy, draft, summary} && summary in {policy, draft, summary};
    hide Sealed, Get;
  }

  // After a promotion every sealed artefact verifies, and policy, draft and summary carry the
  // digests of exactly the reports that were written.
  lemma PromotionBinds(env: Environment, files: Files)
    requires Reviewable(env, files) && ChecksAreNamed(env) && Normaliser(env) && ReviewOf(env, files).outcome == Promoted
    ensures Certified(env, ReviewOf(env, files).files)
  {
    var contract, draft := files[ContractFile], files[DraftFile];
    var redTeam, jury, policy := PromotionWrites(env, files);
    hide RedTeamReport, JuryReport, ReviewChecks, Candidate, PromotedDraft, Summary, Sealed, ReviewOf, Reviewable, Normaliser, Get, Certified, SeenOf;
    CandidateValues(draft, redTeam, jury);
    DraftFields(env, draft, policy, redTeam, jury);
    SummaryFields(env, contract, policy, redTeam, jury);
    PolicyFields(env, Candidate(draft, redTeam, jury), policy);
    OwnFields();
    hide OWN_FIELDS;
    var promoted, summary := PromotedDraft(env, draft, policy, redTeam, jury), Summary(env, contract, policy, redTeam, jury);
    Placed(files, redTeam, jury, policy, promoted, summary);
    ArtefactsCertify(env, ReviewOf(env, files).files, redTeam, jury, policy, promoted, summary);
  }

  lemma OwnFields()
    ensures "review_status" in OWN_FIELDS && "production_eligible" in OWN_FIELDS
    ensures "red_team_report_digest" in OWN_FIELDS && "model_jury_report_digest" in OWN_FIELDS
  {
  }

  lemma CandidateValues(draft: Fields, redTeam: Fields, jury: Fields)
    ensures var c := Candidate(draft, redTeam, jury);
            && OWN_FIELDS <= c.Keys
            && Get(c, "review_status") == Text("REVIEWED") && Get(c, "production_eligible") == Flag(true)
            && Get(c, "red_team_report_digest") == Get(redTeam, DIGEST) && Get(c, "model_jury_report_digest") == Get(jury, DIGEST)
  {
    CandidateFields(draft, redTeam, jury);
    hide Candidate, PolicyOf, SeenIn, SeenOf;
  }

  lemma Placed(files: Files, redTeam: Fields, jury: Fields, policy: Fields, draft: Fields, summary: Fields)
    ensures var after := files[RedTeamFile := redTeam][JuryFile := jury][PolicyFile := policy][DraftFile := draft][SummaryFile := summary];
            && Wrote(after) && after[RedTeamFile] == redTeam && after[JuryFile] == jury && after[PolicyFile] == policy
            && after[DraftFile] == draft && after[SummaryFile] == summary
            && (ContractFile in files ==> ContractFile in after && after[ContractFile] == files[ContractFile])
            && (ArchiveFile in files ==> ArchiveFile in after && after[ArchiveFile] == files[ArchiveFile])
  {
  }

  lemma PolicyFields(env: Environment, c: Fields, policy: Fields)
    requires Normaliser(env) && env.normalise(c) == Some(policy) && OWN_FIELDS <= c.Keys
    ensures OWN_FIELDS <= policy.Keys && forall k :: k in OWN_FIELDS ==> Get(policy, k) == Get(c, k)
  {
    assert KeepsOwnFields(c, policy);
  }

  // Updating a map with what it already holds changes nothing.
  lemma SameUpdate(o: Fields, k: string, v: Json)
    requires k in o && o[k] == v
    ensures o[k := v] == o
  {
  }

  lemma CandidateAgain(draft: Fields, policy: Fields, redTeam: Fields, jury: Fields)
    requires PolicyOf(draft) == policy && OWN_FIELDS <= policy.Keys
    requires policy["review_status"] == Text("REVIEWED") && policy["production_eligible"] == Flag(true)
    requires policy["red_team_report_digest"] == Get(redTeam, DIGEST) && policy["model_jury_report_digest"] == Get(jury, DIGEST)
    ensures Candidate(draft, redTeam, jury) == policy
  {
    SameUpdate(policy, "review_status", Text("REVIEWED"));
    SameUpdate(policy, "production_eligible", Flag(true));
    SameUpdate(policy, "red_team_report_digest", Get(redTeam, DIGEST));
    SameUpdate(policy, "model_jury_report_digest", Get(jury, DIGEST));
  }

  lemma DraftAgain(env: Environment, draft: Fields, policy: Fields, redTeam: Fields, jury: Fields)
    ensures var d := PromotedDraft(env, draft, policy, redTeam, jury); PromotedDraft(env, d, policy, redTeam, jury) == d
  {
    var d := PromotedDraft(env, draft, policy, redTeam, jury);
    SameUpdate(d, "review_status", Text("REVIEWED"));
    SameUpdate(d, "production_eligible", Flag(true));
    SameUpdate(d, "candidate_policy", Object(policy));
    SameUpdate(d, "promotion_blockers", List([]));
    SameUpdate(d, "red_team_report_digest", Get(redTeam, DIGEST));
    SameUpdate(d, "model_jury_report_digest", Get(jury, DIGEST));
    SameUpdate(d, "production_policy_digest", Text(env.hash(policy)));
    DraftFields(env, draft, policy, redTeam, jury);
    hide Sealed;
    SealAgain(env, d);
  }

  lemma SealAgain(env: Environment, o: Fields)
    requires Sealed(env, o) && DIGEST in o
    ensures Seal(env, o) == o
  {
    SameUpdate(o, DIGEST, Text(SemanticDigest(env, o)));
  }

  // The second review sees what the first one saw.
  lemma SameChecks(env: Environment, contract: Fields, draft: Fields, c: Fields, again: Fields, policy: Fields)
    requires SeenOf(draft) == SeenIn(c, Get(draft, "unresolved_obligations")) && SeesTheSame(env, c, policy)
    requires PolicyOf(again) == policy && Get(again, "unresolved_obligations") == Get(draft, "unresolved_obligations")
    requires Sealed(env, again) && Sealed(env, draft) && env.readable(contract, SeenOf(draft))
    ensures ReviewChecks(env, contract, again) == ReviewChecks(env, contract, draft) && env.readable(contract, SeenOf(again))
  {
    var obligations := Get(draft, "unresolved_obligations");
    assert SeenOf(again) == SeenIn(policy, obligations);
    hide SeenIn, SeenOf, Sealed;
    assert env.others(contract, SeenIn(policy, obligations)) == env.others(contract, SeenIn(c, obligations));
    assert env.readable(contract, SeenIn(policy, obligations)) == env.readable(contract, SeenIn(c, obligations));
  }

  lemma AllHoldSealsDraft(env: Environment, contract: Fields, draft: Fields)
    requires AllHold(ReviewChecks(env, contract, draft))
    ensures Sealed(env, draft)
  {
    assert ReviewChecks(env, contract, draft)["draft_digest_valid"] == Sealed(env, draft);
  }

  // Reviewing the promoted folder again promotes it again and changes no file.
  lemma PromotionIsFixedPoint(env: Environment, files: Files)
    requires Reviewable(env, files) && ChecksAreNamed(env) && Normaliser(env) && ReviewOf(env, files).outcome == Promoted
    ensures ReviewOf(env, ReviewOf(env, files).files) == ReviewOf(env, files)
  {
    var contract, draft := files[ContractFile], files[DraftFile];
    var redTeam, jury, policy := PromotionWrites(env, files);
    var again, summary := PromotedDraft(env, draft, policy, redTeam, jury), Summary(env, contract, policy, redTeam, jury);
    var after := ReviewOf(env, files).files;
    OutcomeIff(env, files);
    AllHoldSealsDraft(env, contract, draft);
    hide RedTeamReport, JuryReport, ReviewChecks, Candidate, PromotedDraft, Summary, Sealed, ReviewOf, Normaliser, Get, SeenOf, AllHold,
         Judged, SemanticDigest, ChecksAreNamed, Reviewable;
    DraftIsReadable(env, files);
    SecondChecks(env, contract, draft, redTeam, jury, policy);
    Placed(files, redTeam, jury, policy, again, summary);
    ReviewableAgain(env, files, after, again);
    ReviewIsJudged(env, after);
    DraftAgain(env, draft, policy, redTeam, jury);
    JudgedAgain(env, after, contract, again, redTeam, jury, policy, summary);
    ReviewIsPair(env, files);
  }

  lemma ReviewIsPair(env: Environment, files: Files)
    ensures ReviewOf(env, files) == Review(ReviewOf(env, files).outcome, ReviewOf(env, files).files)
  {
  }

  lemma DraftIsReadable(env: Environment, files: Files)
    requires Reviewable(env, files)
    ensures env.readable(files[ContractFile], SeenOf(files[DraftFile]))
  {
  }

  lemma ReviewableAgain(env: Environment, files: Files, after: Files, again: Fields)
    requires Reviewable(env, files) && ContractFile in after && DraftFile in after && ArchiveFile in after
    requires after[ContractFile] == files[ContractFile] && after[ArchiveFile] == files[ArchiveFile] && after[DraftFile] == again
    requires DIGEST in again && env.readable(files[ContractFile], SeenOf(again))
    ensures Reviewable(env, after)
  {
  }

  lemma SecondChecks(env: Environment, contract: Fields, draft: Fields, redTeam: Fields, jury: Fields, policy: Fields)
    requires Normaliser(env) && env.normalise(Candidate(draft, redTeam, jury)) == Some(policy)
    requires Sealed(env, draft) && env.readable(contract, SeenOf(draft))
    ensures var again := PromotedDraft(env, draft, policy, redTeam, jury);
            && ReviewChecks(env, contract, again) == ReviewChecks(env, contract, draft) && DIGEST in again && env.readable(contract, SeenOf(again))
            && Candidate(again, redTeam, jury) == policy && env.normalise(policy) == Some(policy)
  {
    var c, again := Candidate(draft, redTeam, jury), PromotedDraft(env, draft, policy, redTeam, jury);
    CandidateFields(draft, redTeam, jury);
    CandidateValues(draft, redTeam, jury);
    DraftFields(env, draft, policy, redTeam, jury);
    assert KeepsOwnFields(c, policy) && SeesTheSame(env, c, policy) && env.normalise(policy) == Some(policy);
    hide ReviewChecks, Candidate, PromotedDraft, Sealed, Normaliser, SeenOf, PolicyOf, SeesTheSame;
    SameChecks(env, contract, draft, c, again, policy);
    CandidateAgain(again, policy, redTeam, jury);
  }

  lemma JudgedAgain(env: Environment, after: Files, contract: Fields, draft: Fields, redTeam: Fields, jury: Fields, policy: Fields, summary: Fields)
    requires Wrote(after) && after[RedTeamFile] == redTeam && after[JuryFile] == jury && after[PolicyFile] == policy
    requires after[DraftFile] == draft && after[SummaryFile] == summary && summary == Summary(env, contract, policy, redTeam, jury)
    requires Get(redTeam, "status") == Text("PASS") && Get(redTeam, "critical_count") == Number(0) && Get(jury, "decision") == Text("PASS")
    requires Candidate(draft, redTeam, jury) == policy && env.normalise(policy) == Some(policy)
    requires PromotedDraft(env, draft, policy, redTeam, jury) == draft
    ensures Judged(env, after, contract, draft, redTeam, jury) == Review(Promoted, after)
  {
    hide Get, Candidate, PromotedDraft, Summary;
    assert after[RedTeamFile := redTeam][JuryFile := jury][PolicyFile := policy][DraftFile := draft][SummaryFile := summary] == after;
  }

  // ---- a review of a folder that was promoted before ------------------------------------------

  // Objects with one digest agree on whether they pass; an injective hash has this property.
  ghost predicate TellsVerdicts(env: Environment) {
    forall x, y {:trigger env.hash(x), env.hash(y)} :: env.hash(x) == env.hash(y) ==> Says(x, "status") == Says(y, "status") && Says(x, "decision") == Says(y, "decision")
  }

  predicate Says(o: Fields, key: string) {
    Get(o, key) == Text("PASS")
  }

  lemma InjectiveTellsVerdicts(env: Environment)
    requires forall x, y :: env.hash(x) == env.hash(y) ==> x == y
    ensures TellsVerdicts(env)
  {
  }

  lemma DifferentSeals(env: Environment, o: Fields, p: Fields, key: string)
    requires TellsVerdicts(env) && Sealed(env, o) && Sealed(env, p)
    requires key in {"status", "decision"} && Says(o, key) != Says(p, key)
    ensures Get(o, DIGEST) != Get(p, DIGEST)
  {
    assert key != DIGEST by { assert |key| != |DIGEST|; }
    assert Get(o - {DIGEST}, key) == Get(o, key) && Get(p - {DIGEST}, key) == Get(p, key);
  }

  lemma FailIsNotPass()
    ensures Text("FAIL") != Text("PASS")
  {
    VerdictIs(true);
  }

  // A rejection after an earlier promotion leaves a policy that no longer binds the reports
  // on disk.
  lemma RejectionLeavesStalePolicy(env: Environment, files: Files)
    requires TellsVerdicts(env) && Reviewable(env, files) && ChecksAreNamed(env) && Certified(env, files)
    requires ReviewOf(env, files).outcome in {RedTeamRejected, JuryRejected}
    ensures Wrote(ReviewOf(env, files).files) && !Bound(ReviewOf(env, files).files)
    ensures ReviewOf(env, files).files[PolicyFile] == files[PolicyFile]
  {
    var redTeam, jury := RejectedReports(env, files);
    FailIsNotPass();
    hide ReviewOf, Reviewable, SemanticDigest, ChecksAreNamed, Sealed, Bound, Get, RedTeamReport, JuryReport, ReviewChecks, TellsVerdicts;
    if ReviewOf(env, files).outcome == RedTeamRejected {
      DifferentSeals(env, redTeam, files[RedTeamFile], "status");
    } else {
      DifferentSeals(env, jury, files[JuryFile], "decision");
    }
    ReportsReplaced(files, redTeam, jury);
  }

  // Replacing the reports keeps a policy bound exactly when their digests stay the same.
  lemma ReportsReplaced(files: Files, redTeam: Fields, jury: Fields)
    requires Wrote(files) && Bound(files)
    ensures var after := files[RedTeamFile := redTeam][JuryFile := jury];
            && Wrote(after) && after[PolicyFile] == files[PolicyFile]
            && (Bound(after) <==> Get(redTeam, DIGEST) == Get(files[RedTeamFile], DIGEST) && Get(jury, DIGEST) == Get(files[JuryFile], DIGEST))
  {
    hide Get;
    var after := files[RedTeamFile := redTeam][JuryFile := jury];
    assert PolicyFile in {PolicyFile, DraftFile, SummaryFile};
    assert after[PolicyFile] == files[PolicyFile] && after[DraftFile] == files[DraftFile] && after[SummaryFile] == files[SummaryFile];
    assert after[RedTeamFile] == redTeam && after[JuryFile] == jury;
  }

  // The reports this review writes carry the digests already on disk.
  ghost predicate SameReports(env: Environment, files: Files)
    requires Wrote(files) && ContractFile in files
  {
    var contract, checks := files[ContractFile], ChecksOf(env, files);
    && Get(RedTeamReport(env, contract, checks), DIGEST) == Get(files[RedTeamFile], DIGEST)
    && Get(JuryReport(env, contract, checks), DIGEST) == Get(files[JuryFile], DIGEST)
  }

  // A review of a promoted folder leaves policy, draft and summary bound to the reports on disk
  // if and only if it cannot be performed at all, or every check still holds for Q1 to Q5 and
  // either the schema accepts the new policy or the reports come out with the digests they had.
  lemma PolicyStaysBoundIff(env: Environment, files: Files)
    requires TellsVerdicts(env) && ChecksAreNamed(env) && Normaliser(env) && Certified(env, files)
    ensures Wrote(ReviewOf(env, files).files)
    ensures Bound(ReviewOf(env, files).files)
            <==> (Reviewable(env, files) ==>
                    AllHold(ChecksOf(env, files)) && env.targets == TARGETS && (PolicyAccepted(env, files) || SameReports(env, files)))
  {
    if Reviewable(env, files) {
      OutcomeIff(env, files);
      ReviewedStaysBoundIff(env, files);
    } else {
      UnreviewableKeepsFiles(env, files);
    }
  }

  lemma UnreviewableKeepsFiles(env: Environment, files: Files)
    requires !Reviewable(env, files)
    ensures ReviewOf(env, files).files == files && ReviewOf(env, files).outcome in {Malformed, ArchiveLost}
  {
    hide Get, SemanticDigest, SeenOf, Judged, RedTeamReport, JuryReport, ReviewChecks;
  }

  // The same by outcome, for reviews that reach their reports.
  lemma ReviewedStaysBoundIff(env: Environment, files: Files)
    requires TellsVerdicts(env) && ChecksAreNamed(env) && Normaliser(env) && Certified(env, files) && Reviewable(env, files)
    ensures var review := ReviewOf(env, files);
            && Wrote(review.files)
            && review.outcome in {RedTeamRejected, JuryRejected, PolicyInvalid, Promoted}
            && (Bound(review.files) <==> review.outcome == Promoted || (review.outcome == PolicyInvalid && SameReports(env, files)))
  {
    if ReviewOf(env, files).outcome == Promoted {
      PromotionBinds(env, files);
    } else {
      var redTeam, jury := RejectedReports(env, files);
      if ReviewOf(env, files).outcome in {RedTeamRejected, JuryRejected} { RejectionLeavesStalePolicy(env, files); }
      hide ReviewOf, Reviewable, ChecksAreNamed, Normaliser, Bound, Get, RedTeamReport, JuryReport, ReviewChecks, TellsVerdicts;
      ReportsReplaced(files, redTeam, jury);
    }
  }

  // ---- a concrete folder ------------------------------------------------------------------------

  // Reviewing a promoted folder again after its contract was altered and not sealed anew.
  lemma AlteredContractBreaksBinding(env: Environment, files: Files, contract: Fields)
    requires TellsVerdicts(env) && ChecksAreNamed(env) && Certified(env, files) && Reviewable(env, files[ContractFile := contract])
    requires !Sealed(env, contract)
    ensures var review := ReviewOf(env, files[ContractFile := contract]);
            review.outcome == RedTeamRejected && Wrote(review.files) && !Bound(review.files)
  {
    var altered := files[ContractFile := contract];
    ContractIsNoReport(env, files, contract);
    UnsealedContractFails(env, contract, files[DraftFile]);
    hide Certified, Sealed, Reviewable, ReviewChecks, ReviewOf, Bound;
    OutcomeIff(env, altered);
    RejectionLeavesStalePolicy(env, altered);
  }

  lemma ContractIsNoReport(env: Environment, files: Files, contract: Fields)
    requires Certified(env, files)
    ensures var altered := files[ContractFile := contract]; Certified(env, altered) && altered[DraftFile] == files[DraftFile]
  {
    hide Get, Sealed;
    var altered := files[ContractFile := contract];
    assert forall name :: name in files && name != ContractFile ==> name in altered && altered[name] == files[name];
  }

  lemma UnsealedContractFails(env: Environment, contract: Fields, draft: Fields)
    requires !Sealed(env, contract)
    ensures !AllHold(ReviewChecks(env, contract, draft))
  {
    assert "contract_digest_valid" != "draft_digest_valid";
    assert !ReviewChecks(env, contract, draft)["contract_digest_valid"];
  }

  const SEALED: Fields := map[DIGEST := Text(OLD_DRAFT_DIGEST)]
  const UNSEALED: Fields := map[DIGEST := Text("")]
  const FOLDER: Files := map[ContractFile := SEALED, DraftFile := SEALED, ArchiveFile := SEALED]

  function VerdictHash(o: Fields): string {
    if o == map[] then OLD_DRAFT_DIGEST
    else (if Says(o, "status") then "s" else "-") + (if Says(o, "decision") then "d" else "-")
  }

  const LENIENT := Environment(
    VerdictHash, (contract: Fields, seen: Seen) => map k | k in SCORED :: true, (contract: Fields, seen: Seen) => true,
    TARGETS, (policy: Fields) => Some(policy), "")

  lemma LenientEnvironment()
    ensures TellsVerdicts(LENIENT) && ChecksAreNamed(LENIENT) && Normaliser(LENIENT)
    ensures LENIENT.targets == TARGETS && forall contract, seen :: LENIENT.readable(contract, seen)
  {
    assert |OLD_DRAFT_DIGEST| == 64;
    forall x, y | VerdictHash(x) == VerdictHash(y)
      ensures Says(x, "status") == Says(y, "status") && Says(x, "decision") == Says(y, "decision")
    {
      SameVerdicts(x, y);
    }
  }

  lemma SameVerdicts(x: Fields, y: Fields)
    requires VerdictHash(x) == VerdictHash(y)
    ensures Says(x, "status") == Says(y, "status") && Says(x, "decision") == Says(y, "decision")
  {
    assert |OLD_DRAFT_DIGEST| == 64;
    hide OLD_DRAFT_DIGEST;
    if x != map[] && y != map[] {
      assert VerdictHash(x)[0] == VerdictHash(y)[0] && VerdictHash(x)[1] == VerdictHash(y)[1];
    }
  }

  lemma FolderIsReviewable()
    ensures Reviewable(LENIENT, FOLDER) && AllHold(ChecksOf(LENIENT, FOLDER)) && PolicyAccepted(LENIENT, FOLDER)
    ensures DIGEST in UNSEALED && !Sealed(LENIENT, UNSEALED)
  {
    assert SEALED - {DIGEST} == map[] && UNSEALED - {DIGEST} == map[];
    assert Sealed(LENIENT, SEALED);
    assert |OLD_DRAFT_DIGEST| == 64;
    hide OLD_DRAFT_DIGEST;
  }

  lemma PromotedIsReviewable(env: Environment, files: Files, contract: Fields)
    requires Reviewable(env, files) && ChecksAreNamed(env) && ReviewOf(env, files).outcome == Promoted
    requires DIGEST in contract && forall c, seen :: env.readable(c, seen)
    ensures Reviewable(env, ReviewOf(env, files).files[ContractFile := contract])
  {
    var redTeam, jury, policy := PromotionWrites(env, files);
    var draft := PromotedDraft(env, files[DraftFile], policy, redTeam, jury);
    var summary := Summary(env, files[ContractFile], policy, redTeam, jury);
    ArchiveIsRead(env, files);
    hide ReviewOf, Reviewable, PromotedDraft, Summary, RedTeamReport, JuryReport, ReviewChecks, Candidate, Get, SemanticDigest, SeenOf,
         ChecksAreNamed, Sealed;
    DraftFields(env, files[DraftFile], policy, redTeam, jury);
    Placed(files, redTeam, jury, policy, draft, summary);
    OtherContract(env, files, ReviewOf(env, files).files, contract);
  }

  lemma ArchiveIsRead(env: Environment, files: Files)
    requires Reviewable(env, files)
    ensures ArchiveFile in files
  {
  }

  lemma OtherContract(env: Environment, files: Files, after: Files, contract: Fields)
    requires ArchiveFile in files && ArchiveFile in after && after[ArchiveFile] == files[ArchiveFile]
    requires DraftFile in after && DIGEST in after[DraftFile] && DIGEST in contract
    requires Reviewable(env, files) && forall c, seen :: env.readable(c, seen)
    ensures Reviewable(env, after[ContractFile := contract])
  {
    hide Get, SemanticDigest, SeenOf;
  }

  // A folder that promotes, and whose policy is stale after the contract was altered.
  lemma PromotedFolderCanGoStale()
    ensures var promoted := ReviewOf(LENIENT, FOLDER);
            && promoted.outcome == Promoted && Certified(LENIENT, promoted.files)
            && var review := ReviewOf(LENIENT, promoted.files[ContractFile := UNSEALED]);
               review.outcome == RedTeamRejected && Wrote(review.files) && !Bound(review.files)
  {
    var promoted := ReviewOf(LENIENT, FOLDER);
    LenientEnvironment();
    FolderIsReviewable();
    hide LENIENT, FOLDER, SEALED, UNSEALED, Certified, Sealed, Bound, ReviewOf, Reviewable, ChecksOf, PolicyAccepted, SCORED, TellsVerdicts, ChecksAreNamed, Normaliser;
    OutcomeIff(LENIENT, FOLDER);
    PromotionBinds(LENIENT, FOLDER);
    PromotedIsReviewable(LENIENT, FOLDER, UNSEALED);
    AlteredContractBreaksBinding(LENIENT, promoted.files, UNSEALED);
  }
}
