// On exactly which schemas the modelled upgrades succeed.
module Applicability {
  import opened Results
  import opened SchemaSteps
  import opened RevisionTables
  import opened Revisions
  import opened RoundTrips

  predicate Has(s: Schema, table: string, column: string) {
    table in s.tables && column in s.tables[table].columns
  }

  predicate HasAll(s: Schema, needs: set<(string, string)>) {
    forall p :: p in needs ==> Has(s, p.0, p.1)
  }

  predicate Absent(s: Schema, names: set<string>) {
    s.tables.Keys !! names
  }

  // ---- one table -------------------------------------------------------------------------------

  // What holds of a table whatever schema it is added to.
  ghost predicate WellMade(b: TableBlock) {
    && KeysResolve(b.table) && NoRepeats(b.indexed) && (forall c :: c in b.indexed ==> c in b.table.columns)
    && forall k :: k in b.references ==>
         k.owner == b.name && k.target != b.name && HasColumns(b.table, k.columns) && |k.targetColumns| == 1
  }

  // The column a reference points at.
  function Target(k: ForeignKey): (string, string) {
    (k.target, if k.targetColumns == [] then "" else k.targetColumns[0])
  }

  lemma FitsIff(b: TableBlock, s: Schema)
    requires WellMade(b)
    ensures Fits(b, s) <==> b.name !in s.tables && forall k :: k in b.references ==> Has(s, Target(k).0, Target(k).1)
  {
    var t := s.(tables := s.tables[b.name := b.table]);
    forall k | k in b.references
      ensures Resolves(t, k) <==> Has(s, Target(k).0, Target(k).1)
    {
      assert forall c :: c in k.targetColumns <==> c == k.targetColumns[0];
    }
  }

  // ---- a series of tables ----------------------------------------------------------------------

  function Names(bs: seq<TableBlock>): set<string> {
    set b | b in bs :: b.name
  }

  // A reference to a column of a table before the i-th.
  ghost predicate RefersBack(bs: seq<TableBlock>, i: nat, k: ForeignKey)
    requires i <= |bs|
  {
    exists j :: 0 <= j < i && bs[j].name == k.target && Target(k).1 in bs[j].table.columns
  }

  ghost predicate Used(bs: seq<TableBlock>, p: (string, string)) {
    exists b, k :: b in bs && k in b.references && Target(k) == p
  }

  // Tables that refer to earlier ones and, outside the series, to the needed columns.
  ghost predicate Series(bs: seq<TableBlock>, needs: set<(string, string)>) {
    && DistinctNames(bs)
    && (forall b :: b in bs ==> WellMade(b))
    && (forall i, k :: 0 <= i < |bs| && k in bs[i].references ==> Target(k) in needs || RefersBack(bs, i, k))
    && (forall p :: p in needs ==> p.0 !in Names(bs) && Used(bs, p))
  }

  function Built(bs: seq<TableBlock>, i: nat, s: Schema): Schema
    requires i <= |bs|
  {
    if i == 0 then s else WithBlock(Built(bs, i - 1, s), bs[i - 1])
  }

  // The tables after the first i of the series.
  ghost predicate Extended(bs: seq<TableBlock>, i: nat, s: Schema, t: Schema)
    requires i <= |bs|
  {
    && (forall j :: 0 <= j < i ==> bs[j].name in t.tables && t.tables[bs[j].name] == bs[j].table)
    && (forall n :: n !in Names(bs[..i]) ==> (n in t.tables <==> n in s.tables))
    && (forall n :: n !in Names(bs[..i]) && n in s.tables ==> t.tables[n] == s.tables[n])
  }

  lemma NamesSnoc(bs: seq<TableBlock>, i: nat)
    requires i < |bs|
    ensures Names(bs[..i + 1]) == Names(bs[..i]) + {bs[i].name}
  {
    assert bs[..i + 1] == bs[..i] + [bs[i]];
  }

  ghost predicate DistinctNames(bs: seq<TableBlock>) {
    forall i, j :: 0 <= i < j < |bs| ==> bs[i].name != bs[j].name
  }

  lemma ExtendedNext(bs: seq<TableBlock>, i: nat, s: Schema, t: Schema)
    requires i < |bs| && DistinctNames(bs) && Extended(bs, i, s, t)
    ensures Extended(bs, i + 1, s, WithBlock(t, bs[i]))
  {
    NamesSnoc(bs, i);
    hide Names;
  }

  lemma NothingExtended(bs: seq<TableBlock>, s: Schema)
    ensures Extended(bs, 0, s, s)
  {
  }

  lemma {:induction false} BuiltIsExtended(bs: seq<TableBlock>, i: nat, s: Schema)
    requires i <= |bs| && DistinctNames(bs)
    ensures Extended(bs, i, s, Built(bs, i, s))
    decreases i
  {
    hide Extended, WithBlock, DistinctNames;
    if i == 0 {
      NothingExtended(bs, s);
    } else {
      BuiltIsExtended(bs, i - 1, s);
      ExtendedNext(bs, i - 1, s, Built(bs, i - 1, s));
    }
  }

  lemma NotYet(bs: seq<TableBlock>, i: nat)
    requires i < |bs| && DistinctNames(bs)
    ensures bs[i].name !in Names(bs[..i]) && Names(bs[..i]) <= Names(bs)
  {
    assert forall b :: b in bs[..i] ==> b in bs;
  }

  lemma TargetIsThere(bs: seq<TableBlock>, needs: set<(string, string)>, i: nat, s: Schema, t: Schema, k: ForeignKey)
    requires i < |bs| && Series(bs, needs) && Extended(bs, i, s, t) && k in bs[i].references
    ensures Has(t, Target(k).0, Target(k).1) <==> (Target(k) in needs ==> Has(s, Target(k).0, Target(k).1))
  {
    NotYet(bs, i);
    hide WellMade, Names, Used;
    if Target(k) !in needs { assert RefersBack(bs, i, k); }
  }

  lemma TableFits(bs: seq<TableBlock>, needs: set<(string, string)>, i: nat, s: Schema)
    requires i < |bs| && Series(bs, needs)
    ensures Fits(bs[i], Built(bs, i, s)) <==> Provided(bs[i], needs, s)
  {
    var t := Built(bs, i, s);
    BuiltIsExtended(bs, i, s);
    assert bs[i] in bs;
    FitsIff(bs[i], t);
    NotYet(bs, i);
    assert bs[i].name in t.tables <==> bs[i].name in s.tables;
    hide Fits, WellMade, Built, Names, Used, Target, Series, Extended, Has;
    forall k | k in bs[i].references
      ensures Has(t, Target(k).0, Target(k).1) <==> (Target(k) in needs ==> Has(s, Target(k).0, Target(k).1))
    {
      TargetIsThere(bs, needs, i, s, t, k);
    }
  }

  // The name is free and the needed columns the table refers to are there.
  ghost predicate Provided(b: TableBlock, needs: set<(string, string)>, s: Schema) {
    b.name !in s.tables && forall k :: k in b.references && Target(k) in needs ==> Has(s, Target(k).0, Target(k).1)
  }

  lemma {:induction false} RestFits(bs: seq<TableBlock>, needs: set<(string, string)>, i: nat, s: Schema)
    requires i <= |bs| && Series(bs, needs)
    ensures AllFit(bs[i..], Built(bs, i, s)) <==>
              forall j :: i <= j < |bs| ==> Provided(bs[j], needs, s)
    decreases |bs| - i
  {
    if i < |bs| {
      assert bs[i..][0] == bs[i] && bs[i..][1..] == bs[i + 1..];
      TableFits(bs, needs, i, s);
      hide Fits, Series, Provided;
      RestFits(bs, needs, i + 1, s);
    }
  }

  // A series of tables can be created exactly when none of its names is taken and every column it
  // refers to outside the series is there; then the schema has the new tables and is otherwise
  // as before.
  lemma SeriesSucceedsIff(bs: seq<TableBlock>, needs: set<(string, string)>, s: Schema)
    requires WellFormed(s) && Series(bs, needs)
    ensures Run(TableSteps(bs), s).Some? <==> Absent(s, Names(bs)) && HasAll(s, needs)
    ensures Run(TableSteps(bs), s).Some? ==> Run(TableSteps(bs), s).value == Built(bs, |bs|, s)
  {
    TablesSucceedIff(bs, s);
    RestFits(bs, needs, 0, s);
    assert bs[0..] == bs;
    hide WellFormed, AllFit, Built, TableSteps, Run, Series, Provided, Absent, HasAll;
    NeedsAre(bs, needs, s);
    if Run(TableSteps(bs), s).Some? { RunIsBuilt(bs, 0, s); }
  }

  lemma NeedsAre(bs: seq<TableBlock>, needs: set<(string, string)>, s: Schema)
    requires Series(bs, needs)
    ensures (forall j :: 0 <= j < |bs| ==> Provided(bs[j], needs, s)) <==> Absent(s, Names(bs)) && HasAll(s, needs)
  {
    hide Target, Has, WellMade, RefersBack;
    assert forall j :: 0 <= j < |bs| ==> bs[j].name in Names(bs);
  }

  lemma {:induction false} RunIsBuilt(bs: seq<TableBlock>, i: nat, s: Schema)
    requires i <= |bs| && WellFormed(Built(bs, i, s)) && Run(TableSteps(bs[i..]), Built(bs, i, s)).Some?
    ensures Run(TableSteps(bs[i..]), Built(bs, i, s)).value == Built(bs, |bs|, s)
    decreases |bs| - i
  {
    if i < |bs| {
      var t := Built(bs, i, s);
      assert bs[i..][0] == bs[i] && bs[i..][1..] == bs[i + 1..];
      hide WellFormed, Fits, WithBlock, BlockSteps;
      RunConcat(BlockSteps(bs[i]), TableSteps(bs[i + 1..]), t);
      BlockSucceedsIff(bs[i], t);
      RunKeepsWellFormed(BlockSteps(bs[i]), t);
      RunIsBuilt(bs, i + 1, s);
    }
  }

  // ---- the tables of the revisions ---------------------------------------------------------------

  lemma FilesMade()
    ensures WellMade(Files())
  {
  }

  lemma ArtifactsMade()
    ensures WellMade(Artifacts())
  {
  }

  lemma DatasetsMade()
    ensures WellMade(Datasets())
  {
  }

  lemma DataProfilesMade()
    ensures WellMade(DataProfiles())
  {
  }

  lemma ExecutionRecordsMade()
    ensures WellMade(ExecutionRecords())
  {
  }

  lemma ValidationRunsMade()
    ensures WellMade(ValidationRuns())
  {
  }

  lemma SensitivityRunsMade()
    ensures WellMade(SensitivityRuns())
  {
  }

  lemma RobustnessRunsMade()
    ensures WellMade(RobustnessRuns())
  {
  }

  lemma VerificationExperimentsMade()
    ensures WellMade(VerificationExperiments())
  {
  }

  lemma RedTeamReportsMade()
    ensures WellMade(RedTeamReports())
  {
  }

  lemma RepairCyclesMade()
    ensures WellMade(RepairCycles())
  {
  }

  lemma ProviderEndpointsMade()
    ensures WellMade(ProviderEndpoints())
  {
  }

  lemma ModelProfilesMade()
    ensures WellMade(ModelProfiles())
  {
  }

  lemma CapabilityProbeRunsMade()
    ensures WellMade(CapabilityProbeRuns())
  {
  }

  lemma AgentRoutePoliciesMade()
    ensures WellMade(AgentRoutePolicies())
  {
  }

  // ---- revision 0003 ----------------------------------------------------------------------------

  function Names0003(): set<string> {
    {"files", "artifacts", "datasets", "data_profiles", "execution_records"}
  }

  function Needs0003(): set<(string, string)> {
    {("problems", "id"), ("projects", "id")}
  }

  lemma NamesAre0003()
    ensures Names(Tables0003()) == Names0003()
  {
    var bs := Tables0003();
    assert bs[0].name == "files" && bs[1].name == "artifacts" && bs[2].name == "datasets" && bs[3].name == "data_profiles" && bs[4].name == "execution_records";
  }

  lemma NamesDiffer0003()
    ensures DistinctNames(Tables0003()) && forall p :: p in Needs0003() ==> p.0 !in Names0003()
  {
  }

  lemma FilesRefer(k: ForeignKey)
    requires k in FilesKeys()
    ensures Target(k) in Needs0003() || RefersBack(Tables0003(), 0, k)
  {
    var bs := Tables0003();
  }

  lemma ArtifactsRefer(k: ForeignKey)
    requires k in ArtifactsKeys()
    ensures Target(k) in Needs0003() || RefersBack(Tables0003(), 1, k)
  {
    var bs := Tables0003();
    assert bs[0].name == "files" && "id" in bs[0].table.columns;
  }

  lemma DatasetsRefer(k: ForeignKey)
    requires k in DatasetsKeys()
    ensures Target(k) in Needs0003() || RefersBack(Tables0003(), 2, k)
  {
    var bs := Tables0003();
    assert bs[0].name == "files" && "id" in bs[0].table.columns;
  }

  lemma DataProfilesRefer(k: ForeignKey)
    requires k in DataProfilesKeys()
    ensures Target(k) in Needs0003() || RefersBack(Tables0003(), 3, k)
  {
    var bs := Tables0003();
    assert bs[2].name == "datasets" && "id" in bs[2].table.columns;
    assert bs[0].name == "files" && "id" in bs[0].table.columns;
  }

  lemma ExecutionRecordsRefer(k: ForeignKey)
    requires k in ExecutionRecordsKeys()
    ensures Target(k) in Needs0003() || RefersBack(Tables0003(), 4, k)
  {
    var bs := Tables0003();
  }

  lemma NeedsAreUsed0003()
    ensures forall p :: p in Needs0003() ==> Used(Tables0003(), p)
  {
    var bs := Tables0003();
    assert Files() in bs && Reference("", "files", "problem_id", "problems", "id", "CASCADE") in Files().references;
    assert Target(Reference("", "files", "problem_id", "problems", "id", "CASCADE")) == ("problems", "id");
    assert Files() in bs && Reference("", "files", "project_id", "projects", "id", "CASCADE") in Files().references;
    assert Target(Reference("", "files", "project_id", "projects", "id", "CASCADE")) == ("projects", "id");
  }

  lemma Series0003()
    ensures Series(Tables0003(), Needs0003())
  {
    var bs := Tables0003();
    NamesAre0003();
    NamesDiffer0003();
    NeedsAreUsed0003();
    FilesMade();
    ArtifactsMade();
    DatasetsMade();
    DataProfilesMade();
    ExecutionRecordsMade();
    hide WellMade, Used, Target, Names, Needs0003, Names0003, RefersBack, DistinctNames;
    forall i, k | 0 <= i < |bs| && k in bs[i].references
      ensures Target(k) in Needs0003() || RefersBack(bs, i, k)
    {
      if i == 0 {
        FilesRefer(k);
      } else if i == 1 {
        ArtifactsRefer(k);
      } else if i == 2 {
        DatasetsRefer(k);
      } else if i == 3 {
        DataProfilesRefer(k);
      } else if i == 4 {
        ExecutionRecordsRefer(k);
      }
    }
  }

  // ---- revision 0006 ----------------------------------------------------------------------------

  function Names0006(): set<string> {
    {"validation_runs", "sensitivity_runs", "robustness_runs", "verification_experiments", "red_team_reports", "repair_cycles"}
  }

  function Needs0006(): set<(string, string)> {
    {("execution_records", "id"), ("mathematical_models", "id"), ("problems", "id"), ("projects", "id"), ("results", "id"), ("solver_runs", "id"), ("agent_runs", "id")}
  }

  lemma NamesAre0006()
    ensures Names(Tables0006()) == Names0006()
  {
    var bs := Tables0006();
    assert bs[0].name == "validation_runs" && bs[1].name == "sensitivity_runs" && bs[2].name == "robustness_runs" && bs[3].name == "verification_experiments" && bs[4].name == "red_team_reports" && bs[5].name == "repair_cycles";
  }

  lemma NamesDiffer0006()
    ensures DistinctNames(Tables0006()) && forall p :: p in Needs0006() ==> p.0 !in Names0006()
  {
  }

  lemma ValidationRunsRefer(k: ForeignKey)
    requires k in ValidationRunsKeys()
    ensures Target(k) in Needs0006() || RefersBack(Tables0006(), 0, k)
  {
    var bs := Tables0006();
  }

  lemma SensitivityRunsRefer(k: ForeignKey)
    requires k in SensitivityRunsKeys()
    ensures Target(k) in Needs0006() || RefersBack(Tables0006(), 1, k)
  {
    var bs := Tables0006();
    assert bs[0].name == "validation_runs" && "id" in bs[0].table.columns;
  }

  lemma RobustnessRunsRefer(k: ForeignKey)
    requires k in RobustnessRunsKeys()
    ensures Target(k) in Needs0006() || RefersBack(Tables0006(), 2, k)
  {
    var bs := Tables0006();
    assert bs[1].name == "sensitivity_runs" && "id" in bs[1].table.columns;
    assert bs[0].name == "validation_runs" && "id" in bs[0].table.columns;
  }

  lemma VerificationExperimentsRefer(k: ForeignKey)
    requires k in VerificationExperimentsKeys()
    ensures Target(k) in Needs0006() || RefersBack(Tables0006(), 3, k)
  {
    var bs := Tables0006();
    assert bs[2].name == "robustness_runs" && "id" in bs[2].table.columns;
    assert bs[1].name == "sensitivity_runs" && "id" in bs[1].table.columns;
  }

  lemma RedTeamReportsRefer(k: ForeignKey)
    requires k in RedTeamReportsKeys()
    ensures Target(k) in Needs0006() || RefersBack(Tables0006(), 4, k)
  {
    var bs := Tables0006();
    assert bs[2].name == "robustness_runs" && "id" in bs[2].table.columns;
    assert bs[1].name == "sensitivity_runs" && "id" in bs[1].table.columns;
    assert bs[0].name == "validation_runs" && "id" in bs[0].table.columns;
  }

  lemma RepairCyclesRefer(k: ForeignKey)
    requires k in RepairCyclesKeys()
    ensures Target(k) in Needs0006() || RefersBack(Tables0006(), 5, k)
  {
    var bs := Tables0006();
    assert bs[4].name == "red_team_reports" && "id" in bs[4].table.columns;
  }

  lemma NeedsAreUsed0006()
    ensures forall p :: p in Needs0006() ==> Used(Tables0006(), p)
  {
    var bs := Tables0006();
    assert ValidationRuns() in bs && Reference("", "validation_runs", "execution_record_id", "execution_records", "id", "RESTRICT") in ValidationRuns().references;
    assert Target(Reference("", "validation_runs", "execution_record_id", "execution_records", "id", "RESTRICT")) == ("execution_records", "id");
    assert ValidationRuns() in bs && Reference("", "validation_runs", "mathematical_model_record_id", "mathematical_models", "id", "RESTRICT") in ValidationRuns().references;
    assert Target(Reference("", "validation_runs", "mathematical_model_record_id", "mathematical_models", "id", "RESTRICT")) == ("mathematical_models", "id");
    assert ValidationRuns() in bs && Reference("", "validation_runs", "problem_id", "problems", "id", "CASCADE") in ValidationRuns().references;
    assert Target(Reference("", "validation_runs", "problem_id", "problems", "id", "CASCADE")) == ("problems", "id");
    assert ValidationRuns() in bs && Reference("", "validation_runs", "project_id", "projects", "id", "CASCADE") in ValidationRuns().references;
    assert Target(Reference("", "validation_runs", "project_id", "projects", "id", "CASCADE")) == ("projects", "id");
    assert ValidationRuns() in bs && Reference("", "validation_runs", "result_id", "results", "id", "RESTRICT") in ValidationRuns().references;
    assert Target(Reference("", "validation_runs", "result_id", "results", "id", "RESTRICT")) == ("results", "id");
    assert ValidationRuns() in bs && Reference("", "validation_runs", "solver_run_id", "solver_runs", "id", "RESTRICT") in ValidationRuns().references;
    assert Target(Reference("", "validation_runs", "solver_run_id", "solver_runs", "id", "RESTRICT")) == ("solver_runs", "id");
    assert RedTeamReports() in bs && Reference("", "red_team_reports", "reviewer_agent_run_id", "agent_runs", "id", "RESTRICT") in RedTeamReports().references;
    assert Target(Reference("", "red_team_reports", "reviewer_agent_run_id", "agent_runs", "id", "RESTRICT")) == ("agent_runs", "id");
  }

  lemma Series0006()
    ensures Series(Tables0006(), Needs0006())
  {
    var bs := Tables0006();
    NamesAre0006();
    NamesDiffer0006();
    NeedsAreUsed0006();
    ValidationRunsMade();
    SensitivityRunsMade();
    RobustnessRunsMade();
    VerificationExperimentsMade();
    RedTeamReportsMade();
    RepairCyclesMade();
    hide WellMade, Used, Target, Names, Needs0006, Names0006, RefersBack, DistinctNames;
    forall i, k | 0 <= i < |bs| && k in bs[i].references
      ensures Target(k) in Needs0006() || RefersBack(bs, i, k)
    {
      if i == 0 {
        ValidationRunsRefer(k);
      } else if i == 1 {
        SensitivityRunsRefer(k);
      } else if i == 2 {
        RobustnessRunsRefer(k);
      } else if i == 3 {
        VerificationExperimentsRefer(k);
      } else if i == 4 {
        RedTeamReportsRefer(k);
      } else if i == 5 {
        RepairCyclesRefer(k);
      }
    }
  }

  // ---- revision 0010 ----------------------------------------------------------------------------

  function Names0010(): set<string> {
    {"provider_endpoints", "model_profiles", "capability_probe_runs", "agent_route_policies"}
  }

  function Needs0010(): set<(string, string)> {
    {}
  }

  lemma NamesAre0010()
    ensures Names(Tables0010()) == Names0010()
  {
    var bs := Tables0010();
    assert bs[0].name == "provider_endpoints" && bs[1].name == "model_profiles" && bs[2].name == "capability_probe_runs" && bs[3].name == "agent_route_policies";
  }

  lemma NamesDiffer0010()
    ensures DistinctNames(Tables0010()) && forall p :: p in Needs0010() ==> p.0 !in Names0010()
  {
  }

  lemma ModelProfilesRefer(k: ForeignKey)
    requires k in ModelProfilesKeys()
    ensures Target(k) in Needs0010() || RefersBack(Tables0010(), 1, k)
  {
    var bs := Tables0010();
    assert bs[0].name == "provider_endpoints" && "provider_id" in bs[0].table.columns;
  }

  lemma CapabilityProbeRunsRefer(k: ForeignKey)
    requires k in CapabilityProbeRunsKeys()
    ensures Target(k) in Needs0010() || RefersBack(Tables0010(), 2, k)
  {
    var bs := Tables0010();
    assert bs[0].name == "provider_endpoints" && "provider_id" in bs[0].table.columns;
    assert bs[1].name == "model_profiles" && "model_id" in bs[1].table.columns;
  }

  lemma AgentRoutePoliciesRefer(k: ForeignKey)
    requires k in AgentRoutePoliciesKeys()
    ensures Target(k) in Needs0010() || RefersBack(Tables0010(), 3, k)
  {
    var bs := Tables0010();
    assert bs[1].name == "model_profiles" && "model_id" in bs[1].table.columns;
  }

  lemma NeedsAreUsed0010()
    ensures forall p :: p in Needs0010() ==> Used(Tables0010(), p)
  {
    var bs := Tables0010();
  }

  lemma Series0010()
    ensures Series(Tables0010(), Needs0010())
  {
    var bs := Tables0010();
    NamesAre0010();
    NamesDiffer0010();
    NeedsAreUsed0010();
    ProviderEndpointsMade();
    ModelProfilesMade();
    CapabilityProbeRunsMade();
    AgentRoutePoliciesMade();
    hide WellMade, Used, Target, Names, Needs0010, Names0010, RefersBack, DistinctNames;
    forall i, k | 0 <= i < |bs| && k in bs[i].references
      ensures Target(k) in Needs0010() || RefersBack(bs, i, k)
    {
      if i == 1 {
        ModelProfilesRefer(k);
      } else if i == 2 {
        CapabilityProbeRunsRefer(k);
      } else if i == 3 {
        AgentRoutePoliciesRefer(k);
      }
    }
  }

  // ---- when the revisions succeed ------------------------------------------------------------------

  predicate Ready0006(s: Schema) {
    Absent(s, Names0006()) && HasAll(s, Needs0006())
  }

  // Revision 0006 applies exactly when its six tables are new and the tables it refers to exist.
  lemma Upgrade0006SucceedsIff(s: Schema)
    requires WellFormed(s)
    ensures Run(Upgrade0006(), s).Some? <==> Ready0006(s)
  {
    NamesAre0006();
    Series0006();
    hide WellFormed, Tables0006, Names, Names0006, Needs0006, Series, Built;
    SeriesSucceedsIff(Tables0006(), Needs0006(), s);
  }

  predicate Ready0003(s: Schema) {
    Absent(s, Names0003()) && HasAll(s, Needs0003())
  }

  // Every foreign key after a series was there before or belongs to one of its tables.
  lemma {:induction false} BuiltKeys(bs: seq<TableBlock>, i: nat, s: Schema)
    requires i <= |bs|
    ensures forall k :: k in Built(bs, i, s).foreignKeys ==> k in s.foreignKeys || exists b :: b in bs && k in b.references
  {
    if i > 0 {
      BuiltKeys(bs, i - 1, s);
      assert bs[i - 1] in bs;
    }
  }

  lemma Unnamed0003(b: TableBlock, k: ForeignKey)
    requires b in Tables0003() && k in b.references
    ensures k.name != LATE_KEY.name
  {
    assert |k.name| == 0;
  }

  lemma LateColumns()
    ensures "execution_run_id" in ArtifactsTable().columns && "id" in ExecutionRecordsTable().columns
    ensures Tables0003()[1].name == "artifacts" && Tables0003()[1].table == ArtifactsTable()
    ensures Tables0003()[4].name == "execution_records" && Tables0003()[4].table == ExecutionRecordsTable()
  {
  }

  lemma LateKeyResolves(s: Schema, t: Schema)
    requires Extended(Tables0003(), 5, s, t)
    ensures Resolves(t, LATE_KEY)
  {
    LateColumns();
    hide Names, Tables0003, ArtifactsTable, ExecutionRecordsTable;
  }

  lemma OldKeysElsewhere(s: Schema, k: ForeignKey)
    requires WellFormed(s) && Absent(s, Names0003()) && k in s.foreignKeys
    ensures k.owner != "artifacts"
  {
    assert Resolves(s, k);
    assert "artifacts" in Names0003();
  }

  lemma NewKeyFits(k: ForeignKey, t: Schema)
    requires Resolves(t, k) && forall j :: j in t.foreignKeys && j.owner == k.owner ==> j.name != k.name
    ensures Apply(AddForeignKey(k), t).Some?
  {
  }

  lemma LateKeyIsNew(bs: seq<TableBlock>, s: Schema, t: Schema, k: ForeignKey)
    requires bs == Tables0003() && t == Built(bs, 5, s) && WellFormed(s) && Absent(s, Names0003())
    requires k in t.foreignKeys && k.owner == LATE_KEY.owner
    ensures k.name != LATE_KEY.name
  {
    assert |bs| == 5;
    hide *;
    BuiltKeys(bs, 5, s);
    if k in s.foreignKeys {
      OldKeysElsewhere(s, k);
      assert false by { LateOwner(); }
    } else {
      var b :| b in bs && k in b.references;
      Unnamed0003(b, k);
    }
  }

  lemma LateOwner()
    ensures LATE_KEY.owner == "artifacts"
  {
  }

  lemma LateKeyFits(bs: seq<TableBlock>, s: Schema, t: Schema)
    requires bs == Tables0003() && t == Built(bs, 5, s) && WellFormed(s) && Absent(s, Names0003())
    ensures Apply(AddForeignKey(LATE_KEY), t).Some?
  {
    NamesDiffer0003();
    assert |bs| == 5;
    hide *;
    BuiltIsExtended(bs, 5, s);
    LateKeyResolves(s, t);
    forall k | k in t.foreignKeys && k.owner == LATE_KEY.owner
      ensures k.name != LATE_KEY.name
    {
      LateKeyIsNew(bs, s, t, k);
    }
    NewKeyFits(LATE_KEY, t);
  }

  // Revision 0003 applies exactly when its five tables are new and problems and projects exist;
  // the late key is never refused.
  lemma Upgrade0003SucceedsIff(s: Schema)
    requires WellFormed(s)
    ensures Run(Upgrade0003(), s).Some? <==> Ready0003(s)
  {
    NamesAre0003();
    Series0003();
    assert |Tables0003()| == 5;
    hide WellFormed, Tables0003, Names, Names0003, Needs0003, Series, Built, Apply, Run, TableSteps;
    SeriesSucceedsIff(Tables0003(), Needs0003(), s);
    RunConcat(TableSteps(Tables0003()), [AddForeignKey(LATE_KEY)], s);
    if Run(TableSteps(Tables0003()), s).Some? {
      LateKeyFits(Tables0003(), s, Built(Tables0003(), 5, s));
      RunOne(AddForeignKey(LATE_KEY), Built(Tables0003(), 5, s));
    }
  }

  // ---- revision 0010: columns on existing tables ---------------------------------------------------

  // The table is there without any of the columns.
  predicate Free(s: Schema, table: string, columns: seq<Traced>) {
    table in s.tables && forall i :: 0 <= i < |columns| ==> columns[i].column !in s.tables[table].columns
  }

  lemma TraceStepIff(table: string, t: Traced, s: Schema)
    requires WellFormed(s)
    ensures Run(TraceStep(table, t), s).Some? <==> table in s.tables && t.column !in s.tables[table].columns
    ensures Run(TraceStep(table, t), s).Some? ==>
              Run(TraceStep(table, t), s).value.tables
              == s.tables[table := s.tables[table].(columns := s.tables[table].columns[t.column := Optional(t.kind)])]
  {
    var add, index := AddColumn(table, t.column, Optional(t.kind)), CreateIndex(Index(table, t.column));
    if t.indexed {
      assert TraceStep(table, t) == [add, index];
      RunTwo(add, index, s);
    } else {
      assert TraceStep(table, t) == [add];
      RunOne(add, s);
    }
  }

  lemma {:induction false} TraceSucceedsIff(table: string, columns: seq<Traced>, s: Schema)
    requires WellFormed(s) && table in s.tables && forall i, j :: 0 <= i < j < |columns| ==> columns[i].column != columns[j].column
    ensures Run(TraceSteps(table, columns), s).Some? <==> Free(s, table, columns)
    ensures Run(TraceSteps(table, columns), s).Some? ==>
              var t := Run(TraceSteps(table, columns), s).value; t.tables - {table} == s.tables - {table}
  {
    if columns != [] {
      RunConcat(TraceStep(table, columns[0]), TraceSteps(table, columns[1..]), s);
      TraceStepIff(table, columns[0], s);
      hide TraceStep, WellFormed;
      if Run(TraceStep(table, columns[0]), s).Some? {
        var t := Run(TraceStep(table, columns[0]), s).value;
        RunKeepsWellFormed(TraceStep(table, columns[0]), s);
        TraceSucceedsIff(table, columns[1..], t);
        hide Run, TraceSteps;
        FreeRest(table, columns, s, t);
      }
    }
  }

  lemma FreeRest(table: string, columns: seq<Traced>, s: Schema, t: Schema)
    requires columns != [] && table in s.tables && columns[0].column !in s.tables[table].columns
    requires forall i, j :: 0 <= i < j < |columns| ==> columns[i].column != columns[j].column
    requires t.tables == s.tables[table := s.tables[table].(columns := s.tables[table].columns[columns[0].column := Optional(columns[0].kind)])]
    ensures Free(t, table, columns[1..]) <==> Free(s, table, columns)
    ensures t.tables - {table} == s.tables - {table}
  {
    assert forall i :: 0 <= i < |columns[1..]| ==> columns[1..][i] == columns[i + 1];
    if Free(t, table, columns[1..]) {
      forall i | 0 <= i < |columns|
        ensures columns[i].column !in s.tables[table].columns
      {
        if i > 0 { assert columns[i] == columns[1..][i - 1]; }
      }
    }
  }

  lemma TraceColumnsDiffer()
    ensures forall i, j :: 0 <= i < j < |AgentColumns()| ==> AgentColumns()[i].column != AgentColumns()[j].column
    ensures forall i, j :: 0 <= i < j < |BenchmarkColumns()| ==> BenchmarkColumns()[i].column != BenchmarkColumns()[j].column
  {
  }

  predicate Ready0010(s: Schema) {
    Absent(s, Names0010()) && Free(s, "agent_runs", AgentColumns()) && Free(s, "benchmark_runs", BenchmarkColumns())
  }

  lemma TracedAreNotNew()
    ensures "agent_runs" !in Names0010() && "benchmark_runs" !in Names0010()
  {
  }

  lemma TracedAreOld(bs: seq<TableBlock>, s: Schema, t: Schema)
    requires |bs| == 4 && Extended(bs, 4, s, t) && Names(bs) == Names0010()
    ensures forall n :: n in {"agent_runs", "benchmark_runs"} ==>
              (n in t.tables <==> n in s.tables) && (n in s.tables ==> t.tables[n] == s.tables[n])
  {
    assert bs[..4] == bs;
    TracedAreNotNew();
    hide Names, Names0010;
  }

  lemma SameFree(s: Schema, t: Schema, table: string, columns: seq<Traced>)
    requires (table in t.tables <==> table in s.tables) && (table in s.tables ==> t.tables[table] == s.tables[table])
    ensures Free(t, table, columns) <==> Free(s, table, columns)
  {
  }

  lemma {:induction false} TraceNeedsTable(table: string, columns: seq<Traced>, s: Schema)
    requires columns != [] && table !in s.tables
    ensures Run(TraceSteps(table, columns), s).None?
  {
    RunConcat(TraceStep(table, columns[0]), TraceSteps(table, columns[1..]), s);
    assert TraceStep(table, columns[0])[0] == AddColumn(table, columns[0].column, Optional(columns[0].kind));
  }

  // Both tables are extended when each lacks the columns it gets.
  lemma TracesSucceedIff(t: Schema)
    requires WellFormed(t)
    ensures Run(TraceSteps("agent_runs", AgentColumns()) + TraceSteps("benchmark_runs", BenchmarkColumns()), t).Some?
            <==> Free(t, "agent_runs", AgentColumns()) && Free(t, "benchmark_runs", BenchmarkColumns())
  {
    var agent, benchmark := TraceSteps("agent_runs", AgentColumns()), TraceSteps("benchmark_runs", BenchmarkColumns());
    TraceColumnsDiffer();
    assert "agent_runs" != "benchmark_runs" && AgentColumns() != [] && BenchmarkColumns() != [];
    hide TraceSteps, AgentColumns, BenchmarkColumns, Run, WellFormed;
    RunConcat(agent, benchmark, t);
    if "agent_runs" !in t.tables {
      TraceNeedsTable("agent_runs", AgentColumns(), t);
    } else {
      TraceSucceedsIff("agent_runs", AgentColumns(), t);
      if Run(agent, t).Some? { SecondTrace(t, Run(agent, t).value); }
    }
  }

  lemma SecondTrace(t: Schema, u: Schema)
    requires WellFormed(t) && u.tables - {"agent_runs"} == t.tables - {"agent_runs"}
    requires Run(TraceSteps("agent_runs", AgentColumns()), t) == Some(u)
    ensures Run(TraceSteps("benchmark_runs", BenchmarkColumns()), u).Some? <==> Free(t, "benchmark_runs", BenchmarkColumns())
  {
    TraceColumnsDiffer();
    assert "agent_runs" != "benchmark_runs" && BenchmarkColumns() != [];
    assert "benchmark_runs" in u.tables <==> "benchmark_runs" in u.tables - {"agent_runs"};
    assert "benchmark_runs" in t.tables <==> "benchmark_runs" in t.tables - {"agent_runs"};
    assert "benchmark_runs" in t.tables ==> u.tables["benchmark_runs"] == (u.tables - {"agent_runs"})["benchmark_runs"];
    hide TraceSteps, AgentColumns, BenchmarkColumns, Run, WellFormed;
    RunKeepsWellFormed(TraceSteps("agent_runs", AgentColumns()), t);
    if "benchmark_runs" in u.tables {
      TraceSucceedsIff("benchmark_runs", BenchmarkColumns(), u);
      SameFree(t, u, "benchmark_runs", BenchmarkColumns());
    } else {
      TraceNeedsTable("benchmark_runs", BenchmarkColumns(), u);
    }
  }

  // Revision 0010 applies exactly when its four tables are new and the two run tables exist
  // without the trace columns.
  lemma Upgrade0010SucceedsIff(s: Schema)
    requires WellFormed(s)
    ensures Run(Upgrade0010(), s).Some? <==> Ready0010(s)
  {
    NamesAre0010();
    Series0010();
    assert |Tables0010()| == 4 && HasAll(s, Needs0010());
    var bs, traces := Tables0010(), TraceSteps("agent_runs", AgentColumns()) + TraceSteps("benchmark_runs", BenchmarkColumns());
    hide WellFormed, Tables0010, Names, Names0010, Needs0010, Built, Run, TableSteps, TraceSteps, AgentColumns, BenchmarkColumns, Free, HasAll,
         Extended, WellMade, RefersBack, Used;
    SeriesSucceedsIff(bs, Needs0010(), s);
    RunConcat(TableSteps(bs), traces, s);
    if Run(TableSteps(bs), s).Some? {
      var t := Built(bs, 4, s);
      BuiltIsExtended(bs, 4, s);
      TracedAreOld(bs, s, t);
      RunKeepsWellFormed(TableSteps(bs), s);
      TracesSucceedIff(t);
      SameFree(s, t, "agent_runs", AgentColumns());
      SameFree(s, t, "benchmark_runs", BenchmarkColumns());
    }
  }

  // ---- revision 0005: columns, a key and indexes on existing tables ---------------------------------

  predicate IsFresh(s: Schema, a: Addition) {
    a.NewColumn? ==> a.table in s.tables && a.column !in s.tables[a.table].columns
  }

  ghost predicate DistinctColumns(as_: seq<Addition>) {
    && (forall a :: a in as_ ==> a.NewColumn?)
    && forall i, j :: 0 <= i < j < |as_| ==> !(as_[i].table == as_[j].table && as_[i].column == as_[j].column)
  }

  ghost predicate AllFresh(as_: seq<Addition>, s: Schema) {
    forall a :: a in as_ ==> IsFresh(s, a)
  }

  // The same schema but for columns; exactly those of the additions are new.
  ghost predicate Widened(as_: seq<Addition>, s: Schema, t: Schema) {
    && t.tables.Keys == s.tables.Keys && t.foreignKeys == s.foreignKeys && t.indexes == s.indexes
    && forall n, c :: Has(t, n, c) <==> Has(s, n, c) || Adds(as_, n, c)
  }

  ghost predicate Adds(as_: seq<Addition>, table: string, column: string) {
    exists a :: a in as_ && a.NewColumn? && a.table == table && a.column == column
  }

  lemma OneColumn(a: Addition, s: Schema)
    requires a.NewColumn?
    ensures Apply(PlainAddition(a), s).Some? <==> IsFresh(s, a)
    ensures IsFresh(s, a) ==> Widened([a], s, Apply(PlainAddition(a), s).value)
  {
    if IsFresh(s, a) {
      var t := Apply(PlainAddition(a), s).value;
      forall n, c
        ensures Has(t, n, c) <==> Has(s, n, c) || (n == a.table && c == a.column)
      {
      }
      assert forall n, c :: Adds([a], n, c) <==> n == a.table && c == a.column;
    }
  }

  lemma WidenedTwice(first: Addition, rest: seq<Addition>, s: Schema, t: Schema, u: Schema)
    requires Widened([first], s, t) && Widened(rest, t, u)
    ensures Widened([first] + rest, s, u)
  {
    hide Has;
    forall n, c
      ensures Adds([first] + rest, n, c) <==> Adds([first], n, c) || Adds(rest, n, c)
    {
    }
  }

  lemma FreshRest(as_: seq<Addition>, s: Schema, t: Schema)
    requires as_ != [] && DistinctColumns(as_) && Widened([as_[0]], s, t) && IsFresh(s, as_[0])
    ensures AllFresh(as_[1..], t) <==> AllFresh(as_, s)
  {
    assert as_ == [as_[0]] + as_[1..];
    forall a | a in as_[1..]
      ensures IsFresh(t, a) <==> IsFresh(s, a)
    {
      var j :| 0 <= j < |as_[1..]| && as_[1..][j] == a;
      assert as_[j + 1] == a && a in as_ && as_[0] in as_;
      assert Adds([as_[0]], a.table, a.column) <==> false;
      assert Has(t, a.table, a.column) <==> Has(s, a.table, a.column);
    }
  }

  lemma PlainUnfold(as_: seq<Addition>, s: Schema)
    requires as_ != []
    ensures Run(PlainAdditions(as_), s)
         == match Apply(PlainAddition(as_[0]), s) case None => None case Some(t) => Run(PlainAdditions(as_[1..]), t)
  {
    assert PlainAdditions(as_)[1..] == PlainAdditions(as_[1..]);
    hide Apply, PlainAddition;
  }

  lemma DistinctRest(as_: seq<Addition>)
    requires as_ != [] && DistinctColumns(as_)
    ensures as_[0] in as_ && as_[0].NewColumn? && DistinctColumns(as_[1..]) && as_ == [as_[0]] + as_[1..]
  {
    assert forall a :: a in as_[1..] ==> a in as_;
  }

  // Columns can be added exactly when each table is there without the column it gets.
  lemma {:induction false} ColumnsSucceedIff(as_: seq<Addition>, s: Schema)
    requires DistinctColumns(as_)
    ensures Run(PlainAdditions(as_), s).Some? <==> AllFresh(as_, s)
    ensures Run(PlainAdditions(as_), s).Some? ==> Widened(as_, s, Run(PlainAdditions(as_), s).value)
  {
    if as_ == [] {
      assert Widened([], s, s);
    } else {
      DistinctRest(as_);
      PlainUnfold(as_, s);
      OneColumn(as_[0], s);
      hide Apply, PlainAddition, PlainAdditions, Run, Widened, IsFresh, DistinctColumns;
      if IsFresh(s, as_[0]) {
        var t := Apply(PlainAddition(as_[0]), s).value;
        FreshRest(as_, s, t);
        hide AllFresh;
        ColumnsSucceedIff(as_[1..], t);
        if Run(PlainAdditions(as_[1..]), t).Some? { WidenedTwice(as_[0], as_[1..], s, t, Run(PlainAdditions(as_[1..]), t).value); }
      }
    }
  }

  lemma {:induction false} PlainConcat(a: seq<Addition>, b: seq<Addition>)
    ensures PlainAdditions(a + b) == PlainAdditions(a) + PlainAdditions(b)
  {
    if a == [] {
      assert a + b == b;
    } else {
      assert (a + b)[0] == a[0] && (a + b)[1..] == a[1..] + b;
      PlainConcat(a[1..], b);
    }
  }

  // ---- indexes over several tables ----------------------------------------------------------------

  ghost predicate Indexable(ds: seq<Dropped>, s: Schema) {
    forall d :: d in ds ==> d.name in s.tables && NoRepeats(d.columns)
                            && (forall c :: c in d.columns ==> Has(s, d.name, c) && Index(d.name, c) !in s.indexes)
  }

  lemma {:induction false} IndexesSucceed(ds: seq<Dropped>, s: Schema)
    requires Indexable(ds, s) && forall i, j :: 0 <= i < j < |ds| ==> ds[i].name != ds[j].name
    ensures Run(AllIndexes(ds), s).Some?
  {
    if ds != [] {
      var first := IndexSteps(ds[0].name, ds[0].columns);
      assert ds[0] in ds && forall d :: d in ds[1..] ==> d in ds;
      RunConcat(first, AllIndexes(ds[1..]), s);
      IndexesSucceedIff(ds[0].name, ds[0].columns, s);
      var t := Run(first, s).value;
      forall d | d in ds[1..]
        ensures d.name != ds[0].name
      {
        var j :| 0 <= j < |ds[1..]| && ds[1..][j] == d;
        assert ds[j + 1] == d;
      }
      hide NoRepeats, Run;
      assert Indexable(ds[1..], t);
      IndexesSucceed(ds[1..], t);
    }
  }

  // ---- revision 0005 as a whole ----------------------------------------------------------------------

  function First0005(): seq<Addition> {
    Additions0005()[..8]
  }

  function Last0005(): seq<Addition> {
    Additions0005()[9..]
  }

  ghost predicate Ready0005(s: Schema) {
    && AllFresh(Additions0005(), s) && Has(s, "agent_runs", "id")
    && forall k :: k in s.foreignKeys && k.owner == GENERATOR_KEY.owner ==> k.name != GENERATOR_KEY.name
  }

  lemma Slices(as_: seq<Addition>)
    requires |as_| == 14
    ensures as_ == as_[..8] + ([as_[8]] + as_[9..])
  {
  }

  lemma Split0005()
    ensures Additions0005() == First0005() + ([NewKey(GENERATOR_KEY)] + Last0005())
  {
    Slices(Additions0005());
  }

  // The tables the two parts widen.
  lemma Tables0005(i: nat)
    requires i < 14 && i != 8
    ensures var a := Additions0005()[i];
            && a.NewColumn? && a.table != "agent_runs"
            && (i < 8 <==> a.table in {"execution_records", "mathematical_models", "generated_programs"})
  {
  }

  lemma AddedAt(as_: seq<Addition>, i: nat)
    requires i < |as_| && as_[i].NewColumn?
    ensures Adds(as_, as_[i].table, as_[i].column)
  {
    assert as_[i] in as_;
  }

  lemma FirstAdds(table: string, column: string)
    requires Adds(First0005(), table, column)
    ensures table in {"execution_records", "mathematical_models", "generated_programs"} && table != "agent_runs"
  {
    var as_ := First0005();
    var a :| a in as_ && a.NewColumn? && a.table == table && a.column == column;
    var i :| 0 <= i < |as_| && as_[i] == a;
    assert |as_| == 8 && as_[i] == Additions0005()[i];
    hide Additions0005, First0005, Adds;
    Tables0005(i);
  }

  lemma KeyColumn()
    ensures Adds(First0005(), "generated_programs", "generator_agent_run_id")
  {
    assert First0005()[7] == Additions0005()[7];
    AddedAt(First0005(), 7);
  }

  lemma LastIsElsewhere(a: Addition)
    requires a in Last0005()
    ensures a.NewColumn? && !Adds(First0005(), a.table, a.column)
  {
    var as_ := Last0005();
    var i :| 0 <= i < |as_| && as_[i] == a;
    assert |as_| == 5 && a == Additions0005()[i + 9];
    hide Additions0005, First0005, Last0005, Adds;
    Tables0005(i + 9);
    if Adds(First0005(), a.table, a.column) { FirstAdds(a.table, a.column); }
  }

  lemma Distinct0005()
    ensures DistinctColumns(First0005()) && DistinctColumns(Last0005())
  {
  }

  lemma KeySucceedsIff(as_: seq<Addition>, s: Schema, t: Schema)
    requires Widened(as_, s, t)
    requires Adds(as_, "generated_programs", "generator_agent_run_id") && !Adds(as_, "agent_runs", "id")
    ensures Apply(AddForeignKey(GENERATOR_KEY), t).Some?
            <==> Has(s, "agent_runs", "id") && forall k :: k in s.foreignKeys && k.owner == GENERATOR_KEY.owner ==> k.name != GENERATOR_KEY.name
  {
    assert Has(t, "generated_programs", "generator_agent_run_id");
    assert Has(t, "agent_runs", "id") <==> Has(s, "agent_runs", "id");
    hide Adds;
    assert Resolves(t, GENERATOR_KEY) <==> Has(t, "agent_runs", "id");
  }

  lemma OthersStayFresh(as_: seq<Addition>, bs: seq<Addition>, s: Schema, t: Schema)
    requires Widened(as_, s, t) && forall b :: b in bs ==> b.NewColumn? && !Adds(as_, b.table, b.column)
    ensures AllFresh(bs, t) <==> AllFresh(bs, s)
  {
    forall b | b in bs
      ensures IsFresh(t, b) <==> IsFresh(s, b)
    {
      assert Has(t, b.table, b.column) <==> Has(s, b.table, b.column);
    }
    hide IsFresh;
  }

  // Where the additions list an indexed column.
  function PlaceOf(d: nat, c: nat): (i: nat)
    requires d < 5 && c < |Indexed0005()[d].columns|
    ensures i < 14 && i != 8 && Additions0005()[i] == NewColumn(Indexed0005()[d].name, Indexed0005()[d].columns[c],
                                                                Additions0005()[i].definition, Additions0005()[i].backfillOnly)
  {
    match d
    case 0 => c
    case 1 => 4
    case 2 => c + 5
    case 3 => c + 9
    case 4 => 13
  }

  lemma AddedInPart(i: nat)
    requires i < 14 && i != 8
    ensures var a := Additions0005()[i];
            a.NewColumn? && (Adds(First0005(), a.table, a.column) || Adds(Last0005(), a.table, a.column))
  {
    Tables0005(i);
    assert |Additions0005()| == 14;
    assert i < 8 ==> First0005()[i] == Additions0005()[i];
    assert i > 8 ==> Last0005()[i - 9] == Additions0005()[i];
    var as_ := Additions0005();
    hide Additions0005, Adds;
    if i < 8 { AddedAt(First0005(), i); } else { AddedAt(Last0005(), i - 9); }
  }

  lemma Indexed0005AreAdded(d: Dropped, c: string)
    requires d in Indexed0005() && c in d.columns
    ensures Adds(First0005(), d.name, c) || Adds(Last0005(), d.name, c)
  {
    var k :| 0 <= k < |Indexed0005()| && Indexed0005()[k] == d;
    var j :| 0 <= j < |d.columns| && d.columns[j] == c;
    assert |Indexed0005()| == 5;
    hide Indexed0005, Additions0005, First0005, Last0005, Adds, PlaceOf;
    AddedInPart(PlaceOf(k, j));
  }

  lemma Indexed0005AreDistinct()
    ensures forall i, j :: 0 <= i < j < 5 ==> Indexed0005()[i].name != Indexed0005()[j].name
    ensures forall d :: d in Indexed0005() ==> NoRepeats(d.columns)
  {
  }

  lemma PlainOne(a: Addition)
    ensures PlainAdditions([a]) == [PlainAddition(a)]
  {
    assert [a][1..] == [];
  }

  // The revision in four parts: columns, the key, more columns, indexes.
  lemma Parts0005()
    ensures Plain0005() == PlainAdditions(First0005()) + ([AddForeignKey(GENERATOR_KEY)] + (PlainAdditions(Last0005()) + AllIndexes(Indexed0005())))
  {
    Split0005();
    var key := [NewKey(GENERATOR_KEY)];
    PlainOne(NewKey(GENERATOR_KEY));
    hide Additions0005, First0005, Last0005, Indexed0005, PlainAdditions, AllIndexes;
    PlainConcat(First0005(), key + Last0005());
    PlainConcat(key, Last0005());
  }

  lemma FreshParts(s: Schema)
    ensures AllFresh(Additions0005(), s) <==> AllFresh(First0005(), s) && AllFresh(Last0005(), s)
  {
    Split0005();
    assert IsFresh(s, NewKey(GENERATOR_KEY));
    hide Additions0005, First0005, Last0005, IsFresh;
  }

  // After all columns every index can be created.
  lemma LastIndexes(s: Schema, t: Schema, u: Schema)
    requires WellFormed(s) && AllFresh(Additions0005(), s)
    requires t.indexes == s.indexes && (forall n, c :: Has(t, n, c) <==> Has(s, n, c) || Adds(First0005(), n, c))
    requires Widened(Last0005(), t, u)
    ensures Run(AllIndexes(Indexed0005()), u).Some?
  {
    var ds := Indexed0005();
    Indexed0005AreDistinct();
    assert |ds| == 5;
    forall d, c | d in ds && c in d.columns
      ensures Has(u, d.name, c) && Index(d.name, c) !in u.indexes
    {
      Indexed0005AreAdded(d, c);
      hide Additions0005, First0005, Last0005, Indexed0005, Adds, Has, IsFresh;
      assert Has(u, d.name, c);
      AddedWasFresh(s, d.name, c);
    }
    forall d | d in ds
      ensures d.name in u.tables
    {
      hide Additions0005, First0005, Last0005, Adds, IsFresh;
      var k :| 0 <= k < |ds| && ds[k] == d;
      assert |d.columns| > 0 && d.columns[0] in d.columns;
      assert Has(u, d.name, d.columns[0]);
    }
    hide Additions0005, First0005, Last0005, Indexed0005, Adds, Has, IsFresh, NoRepeats, Run;
    IndexesSucceed(ds, u);
  }

  lemma AddedWasFresh(s: Schema, table: string, column: string)
    requires WellFormed(s) && AllFresh(Additions0005(), s) && (Adds(First0005(), table, column) || Adds(Last0005(), table, column))
    ensures !Has(s, table, column) && Index(table, column) !in s.indexes
  {
    FreshParts(s);
    hide Additions0005, First0005, Last0005;
    if Adds(First0005(), table, column) {
      var a :| a in First0005() && a.NewColumn? && a.table == table && a.column == column;
      assert IsFresh(s, a);
    } else {
      var a :| a in Last0005() && a.NewColumn? && a.table == table && a.column == column;
      assert IsFresh(s, a);
    }
  }

  lemma KeyAdded(s: Schema, t: Schema, u: Schema)
    requires Widened(First0005(), s, t) && Apply(AddForeignKey(GENERATOR_KEY), t) == Some(u)
    ensures u.tables == t.tables && u.indexes == s.indexes && forall n, c :: Has(u, n, c) <==> Has(s, n, c) || Adds(First0005(), n, c)
  {
    hide Adds, First0005, Resolves;
  }

  // Revision 0005 applies exactly when each table is there without the columns it gets, the
  // referenced agent runs exist, and the key's name is free.
  lemma Upgrade0005SucceedsIff(s: Schema)
    requires WellFormed(s)
    ensures Run(Upgrade0005(), s).Some? <==> Ready0005(s)
  {
    Upgrade0005IsPlain(s);
    Parts0005();
    Distinct0005();
    FreshParts(s);
    KeyColumn();
    hide Additions0005, First0005, Last0005, Indexed0005, PlainAdditions, AllIndexes, Plain0005, Upgrade0005, Run, Apply, WellFormed, Widened,
         AllFresh, Adds, Has, DistinctColumns;
    var key := AddForeignKey(GENERATOR_KEY);
    var rest := PlainAdditions(Last0005()) + AllIndexes(Indexed0005());
    RunConcat(PlainAdditions(First0005()), [key] + rest, s);
    ColumnsSucceedIff(First0005(), s);
    if Run(PlainAdditions(First0005()), s).Some? {
      var t := Run(PlainAdditions(First0005()), s).value;
      if Adds(First0005(), "agent_runs", "id") { FirstAdds("agent_runs", "id"); }
      KeySucceedsIff(First0005(), s, t);
      FirstStep(key, rest, t);
      if Apply(key, t).Some? { RestOf0005(s, t, Apply(key, t).value); }
    }
  }

  lemma RestOf0005(s: Schema, t: Schema, u: Schema)
    requires WellFormed(s) && AllFresh(First0005(), s) && Widened(First0005(), s, t) && Apply(AddForeignKey(GENERATOR_KEY), t) == Some(u)
    ensures Run(PlainAdditions(Last0005()) + AllIndexes(Indexed0005()), u).Some? <==> AllFresh(Last0005(), s)
  {
    Distinct0005();
    FreshParts(s);
    forall b | b in Last0005() ensures b.NewColumn? && !Adds(First0005(), b.table, b.column) { LastIsElsewhere(b); }
    KeyAdded(s, t, u);
    OthersStayFresh(First0005(), Last0005(), s, t);
    assert AllFresh(Last0005(), u) <==> AllFresh(Last0005(), t);
    hide Additions0005, First0005, Last0005, Indexed0005, PlainAdditions, AllIndexes, Run, Apply, WellFormed, Widened,
         AllFresh, Adds, Has, DistinctColumns;
    RunConcat(PlainAdditions(Last0005()), AllIndexes(Indexed0005()), u);
    ColumnsSucceedIff(Last0005(), u);
    if Run(PlainAdditions(Last0005()), u).Some? { LastIndexes(s, u, Run(PlainAdditions(Last0005()), u).value); }
  }

  // ---- schemas on which they apply --------------------------------------------------------------------

  // Tables with an identifier column only.
  function Bare(names: set<string>): Schema {
    Schema(map n | n in names :: Table(map["id" := Required("Uuid")], {["id"]}), {}, {})
  }

  lemma BareIsWellFormed(names: set<string>)
    ensures WellFormed(Bare(names))
  {
  }

  lemma BareIsReady0003()
    ensures Ready0003(Bare({"problems", "projects"}))
  {
  }

  lemma BareIsReady0005()
    ensures Ready0005(Bare({"execution_records", "mathematical_models", "generated_programs", "solver_runs", "results", "agent_runs"}))
  {
  }

  lemma BareIsReady0006()
    ensures Ready0006(Bare({"problems", "projects", "mathematical_models", "results", "solver_runs", "execution_records", "agent_runs"}))
  {
  }

  lemma BareIsReady0010()
    ensures Ready0010(Bare({"agent_runs", "benchmark_runs"}))
  {
  }

  // ---- all four ------------------------------------------------------------------------------------------

  datatype Revision = R0003 | R0005 | R0006 | R0010

  function UpgradeSteps(r: Revision): seq<Step> {
    match r case R0003 => Upgrade0003() case R0005 => Upgrade0005() case R0006 => Upgrade0006() case R0010 => Upgrade0010()
  }

  function DowngradeSteps(r: Revision): seq<Step> {
    match r case R0003 => Downgrade0003() case R0005 => Downgrade0005() case R0006 => Downgrade0006() case R0010 => Downgrade0010()
  }

  ghost predicate Ready(r: Revision, s: Schema) {
    match r case R0003 => Ready0003(s) case R0005 => Ready0005(s) case R0006 => Ready0006(s) case R0010 => Ready0010(s)
  }

  // A revision applies exactly to the schemas that are ready for it, and its downgrade then gives
  // the schema back.
  lemma AppliesAndReturns(r: Revision, s: Schema)
    requires WellFormed(s)
    ensures Run(UpgradeSteps(r), s).Some? <==> Ready(r, s)
    ensures Ready(r, s) ==> Run(DowngradeSteps(r), Run(UpgradeSteps(r), s).value) == Some(s)
  {
    hide Run, WellFormed, Ready0003, Ready0005, Ready0006, Ready0010, Upgrade0003, Upgrade0005, Upgrade0006, Upgrade0010,
         Downgrade0003, Downgrade0005, Downgrade0006, Downgrade0010;
    match r
    case R0003 =>
      Upgrade0003SucceedsIff(s);
      RoundTrip0003();
    case R0005 =>
      Upgrade0005SucceedsIff(s);
      RoundTrip0005();
    case R0006 =>
      Upgrade0006SucceedsIff(s);
      RoundTrip0006();
    case R0010 =>
      Upgrade0010SucceedsIff(s);
      RoundTrip0010();
  }

  // Each of the four applies to some schema.
  lemma AppliesSomewhere(r: Revision) returns (s: Schema)
    ensures WellFormed(s) && Ready(r, s) && Run(UpgradeSteps(r), s).Some?
  {
    hide Run, WellFormed, Ready0003, Ready0005, Ready0006, Ready0010, Upgrade0003, Upgrade0005, Upgrade0006, Upgrade0010, Bare;
    var names :=
      match r
      case R0003 => {"problems", "projects"}
      case R0005 => {"execution_records", "mathematical_models", "generated_programs", "solver_runs", "results", "agent_runs"}
      case R0006 => {"problems", "projects", "mathematical_models", "results", "solver_runs", "execution_records", "agent_runs"}
      case R0010 => {"agent_runs", "benchmark_runs"};
    s := Bare(names);
    BareIsWellFormed(names);
    match r {
      case R0003 => BareIsReady0003();
      case R0005 => BareIsReady0005();
      case R0006 => BareIsReady0006();
      case R0010 => BareIsReady0010();
    }
    AppliesAndReturns(r, s);
  }
}
