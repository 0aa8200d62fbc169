// The tables the modelled revisions create, with their keys, references and indexed columns,
// and the tables and index columns their downgrades name.  A foreign key the revision leaves
// unnamed has the empty name.
module RevisionTables {
  import opened Results
  import opened SchemaSteps

  // A table with the indexes created right after it.
  datatype TableBlock = TableBlock(name: string, table: Table, references: set<ForeignKey>, indexed: seq<string>)

  // A table to drop, and the columns whose indexes are dropped before it.
  datatype Dropped = Dropped(name: string, columns: seq<string>)

  function Required(kind: string): Column {
    Column(kind, false, None)
  }

  function Optional(kind: string): Column {
    Column(kind, true, None)
  }

  function Reference(name: string, owner: string, column: string, target: string, targetColumn: string, onDelete: string): ForeignKey {
    ForeignKey(name, owner, [column], target, [targetColumn], onDelete)
  }

  // ---- revision 0003 ----------------------------------------------------------------------

  function FilesTable(): Table {
    Table(map[
      "id" := Required("Uuid"), "project_id" := Required("Uuid"), "problem_id" := Required("Uuid"),
      "original_name" := Required("String(255)"), "safe_name" := Required("String(255)"),
      "extension" := Required("String(20)"), "kind" := Required("String(32)"),
      "declared_mime_type" := Optional("String(255)"), "detected_mime_type" := Required("String(255)"),
      "size_bytes" := Required("BigInteger"), "sha256" := Required("String(64)"),
      "storage_key" := Required("String(1000)"), "status" := Required("String(32)"),
      "validation_warnings" := Required("Jsonb"), "parser_name" := Optional("String(100)"),
      "parser_version" := Optional("String(100)"), "error" := Optional("Text"), "created_at" := Required("Timestamp")],
      {["id"], ["storage_key"]})
  }

  function FilesKeys(): set<ForeignKey> {
    {
      Reference("", "files", "problem_id", "problems", "id", "CASCADE"),
      Reference("", "files", "project_id", "projects", "id", "CASCADE")}
  }

  function Files(): TableBlock {
    TableBlock("files", FilesTable(), FilesKeys(),
      ["problem_id", "project_id", "sha256"])
  }

  function ArtifactsTable(): Table {
    Table(map[
      "id" := Required("Uuid"), "project_id" := Required("Uuid"), "problem_id" := Required("Uuid"),
      "source_file_id" := Optional("Uuid"), "execution_run_id" := Optional("Uuid"), "kind" := Required("String(64)"),
      "name" := Required("String(255)"), "mime_type" := Required("String(255)"),
      "size_bytes" := Required("BigInteger"), "sha256" := Required("String(64)"),
      "storage_key" := Required("String(1000)"), "metadata" := Required("Jsonb"),
      "created_at" := Required("Timestamp")],
      {["id"], ["storage_key"]})
  }

  function ArtifactsKeys(): set<ForeignKey> {
    {
      Reference("", "artifacts", "problem_id", "problems", "id", "CASCADE"),
      Reference("", "artifacts", "project_id", "projects", "id", "CASCADE"),
      Reference("", "artifacts", "source_file_id", "files", "id", "CASCADE")}
  }

  function Artifacts(): TableBlock {
    TableBlock("artifacts", ArtifactsTable(), ArtifactsKeys(),
      ["execution_run_id", "problem_id", "project_id", "sha256", "source_file_id"])
  }

  function DatasetsTable(): Table {
    Table(map[
      "id" := Required("Uuid"), "project_id" := Required("Uuid"), "problem_id" := Required("Uuid"),
      "source_file_id" := Required("Uuid"), "name" := Required("String(255)"),
      "sheet_name" := Optional("String(255)"), "layer" := Required("String(32)"),
      "row_count" := Required("BigInteger"), "column_count" := Required("Integer"), "columns" := Required("Jsonb"),
      "created_at" := Required("Timestamp")],
      {["id"]})
  }

  function DatasetsKeys(): set<ForeignKey> {
    {
      Reference("", "datasets", "problem_id", "problems", "id", "CASCADE"),
      Reference("", "datasets", "project_id", "projects", "id", "CASCADE"),
      Reference("", "datasets", "source_file_id", "files", "id", "CASCADE")}
  }

  function Datasets(): TableBlock {
    TableBlock("datasets", DatasetsTable(), DatasetsKeys(),
      ["problem_id", "project_id", "source_file_id"])
  }

  function DataProfilesTable(): Table {
    Table(map[
      "id" := Required("Uuid"), "project_id" := Required("Uuid"), "problem_id" := Required("Uuid"),
      "dataset_id" := Required("Uuid"), "source_file_id" := Required("Uuid"), "profile_json" := Required("Jsonb"),
      "generated_at" := Required("Timestamp")],
      {["id"], ["dataset_id"]})
  }

  function DataProfilesKeys(): set<ForeignKey> {
    {
      Reference("", "data_profiles", "dataset_id", "datasets", "id", "CASCADE"),
      Reference("", "data_profiles", "problem_id", "problems", "id", "CASCADE"),
      Reference("", "data_profiles", "project_id", "projects", "id", "CASCADE"),
      Reference("", "data_profiles", "source_file_id", "files", "id", "CASCADE")}
  }

  function DataProfiles(): TableBlock {
    TableBlock("data_profiles", DataProfilesTable(), DataProfilesKeys(),
      ["problem_id", "project_id", "source_file_id"])
  }

  function ExecutionRecordsTable(): Table {
    Table(map[
      "id" := Required("Uuid"), "project_id" := Required("Uuid"), "problem_id" := Required("Uuid"),
      "code_hash" := Required("String(64)"), "image" := Required("String(255)"),
      "image_id" := Optional("String(255)"), "start_time" := Required("Timestamp"),
      "end_time" := Required("Timestamp"), "runtime_seconds" := Required("Float"), "status" := Required("String(32)"),
      "exit_code" := Optional("Integer"), "is_mock" := Required("Boolean"), "record_json" := Required("Jsonb")],
      {["id"]})
  }

  function ExecutionRecordsKeys(): set<ForeignKey> {
    {
      Reference("", "execution_records", "problem_id", "problems", "id", "CASCADE"),
      Reference("", "execution_records", "project_id", "projects", "id", "CASCADE")}
  }

  function ExecutionRecords(): TableBlock {
    TableBlock("execution_records", ExecutionRecordsTable(), ExecutionRecordsKeys(),
      ["code_hash", "problem_id", "project_id", "status"])
  }

  // In creation order.
  function Tables0003(): seq<TableBlock> {
    [Files(), Artifacts(), Datasets(), DataProfiles(), ExecutionRecords()]
  }

  // ---- revision 0006 ----------------------------------------------------------------------

  function ValidationRunsTable(): Table {
    Table(map[
      "id" := Required("Uuid"), "project_id" := Required("Uuid"), "problem_id" := Required("Uuid"),
      "mathematical_model_record_id" := Required("Uuid"), "model_id" := Required("Uuid"),
      "model_version" := Required("Integer"), "model_digest" := Required("String(64)"),
      "result_id" := Required("Uuid"), "solver_run_id" := Required("Uuid"), "execution_record_id" := Required("Uuid"),
      "status" := Required("String(32)"), "report_json" := Required("Jsonb"), "created_at" := Required("Timestamp")],
      {["id"]})
  }

  function ValidationRunsKeys(): set<ForeignKey> {
    {
      Reference("", "validation_runs", "execution_record_id", "execution_records", "id", "RESTRICT"),
      Reference("", "validation_runs", "mathematical_model_record_id", "mathematical_models", "id", "RESTRICT"),
      Reference("", "validation_runs", "problem_id", "problems", "id", "CASCADE"),
      Reference("", "validation_runs", "project_id", "projects", "id", "CASCADE"),
      Reference("", "validation_runs", "result_id", "results", "id", "RESTRICT"),
      Reference("", "validation_runs", "solver_run_id", "solver_runs", "id", "RESTRICT")}
  }

  function ValidationRuns(): TableBlock {
    TableBlock("validation_runs", ValidationRunsTable(), ValidationRunsKeys(),
      ["project_id", "problem_id", "mathematical_model_record_id", "model_id", "model_digest", "result_id",
       "solver_run_id", "execution_record_id", "status"])
  }

  function SensitivityRunsTable(): Table {
    Table(map[
      "id" := Required("Uuid"), "project_id" := Required("Uuid"), "problem_id" := Required("Uuid"),
      "mathematical_model_record_id" := Required("Uuid"), "model_id" := Required("Uuid"),
      "model_version" := Required("Integer"), "model_digest" := Required("String(64)"),
      "result_id" := Required("Uuid"), "validation_run_id" := Required("Uuid"), "status" := Required("String(32)"),
      "config_json" := Required("Jsonb"), "report_json" := Required("Jsonb"), "created_at" := Required("Timestamp")],
      {["id"]})
  }

  function SensitivityRunsKeys(): set<ForeignKey> {
    {
      Reference("", "sensitivity_runs", "mathematical_model_record_id", "mathematical_models", "id", "RESTRICT"),
      Reference("", "sensitivity_runs", "problem_id", "problems", "id", "CASCADE"),
      Reference("", "sensitivity_runs", "project_id", "projects", "id", "CASCADE"),
      Reference("", "sensitivity_runs", "result_id", "results", "id", "RESTRICT"),
      Reference("", "sensitivity_runs", "validation_run_id", "validation_runs", "id", "RESTRICT")}
  }

  function SensitivityRuns(): TableBlock {
    TableBlock("sensitivity_runs", SensitivityRunsTable(), SensitivityRunsKeys(),
      ["project_id", "problem_id", "mathematical_model_record_id", "model_id", "model_digest", "result_id",
       "validation_run_id", "status"])
  }

  function RobustnessRunsTable(): Table {
    Table(map[
      "id" := Required("Uuid"), "project_id" := Required("Uuid"), "problem_id" := Required("Uuid"),
      "mathematical_model_record_id" := Required("Uuid"), "model_id" := Required("Uuid"),
      "model_version" := Required("Integer"), "model_digest" := Required("String(64)"),
      "result_id" := Required("Uuid"), "validation_run_id" := Required("Uuid"),
      "sensitivity_run_id" := Required("Uuid"), "method" := Required("String(32)"),
      "status" := Required("String(32)"), "config_json" := Required("Jsonb"), "report_json" := Required("Jsonb"),
      "created_at" := Required("Timestamp")],
      {["id"]})
  }

  function RobustnessRunsKeys(): set<ForeignKey> {
    {
      Reference("", "robustness_runs", "mathematical_model_record_id", "mathematical_models", "id", "RESTRICT"),
      Reference("", "robustness_runs", "problem_id", "problems", "id", "CASCADE"),
      Reference("", "robustness_runs", "project_id", "projects", "id", "CASCADE"),
      Reference("", "robustness_runs", "result_id", "results", "id", "RESTRICT"),
      Reference("", "robustness_runs", "sensitivity_run_id", "sensitivity_runs", "id", "RESTRICT"),
      Reference("", "robustness_runs", "validation_run_id", "validation_runs", "id", "RESTRICT")}
  }

  function RobustnessRuns(): TableBlock {
    TableBlock("robustness_runs", RobustnessRunsTable(), RobustnessRunsKeys(),
      ["project_id", "problem_id", "mathematical_model_record_id", "model_id", "model_digest", "result_id",
       "validation_run_id", "sensitivity_run_id", "method", "status"])
  }

  function VerificationExperimentsTable(): Table {
    Table(map[
      "id" := Required("Uuid"), "project_id" := Required("Uuid"), "problem_id" := Required("Uuid"),
      "mathematical_model_record_id" := Required("Uuid"), "sensitivity_run_id" := Optional("Uuid"),
      "robustness_run_id" := Optional("Uuid"), "execution_record_id" := Optional("Uuid"),
      "experiment_type" := Required("String(64)"), "base_model_digest" := Required("String(64)"),
      "scenario_model_digest" := Required("String(64)"), "solver" := Optional("String(32)"),
      "solver_status" := Optional("String(32)"), "status" := Required("String(32)"), "objective" := Optional("Float"),
      "perturbation_json" := Required("Jsonb"), "program_json" := Optional("Jsonb"),
      "solver_result_json" := Optional("Jsonb"), "record_json" := Required("Jsonb"),
      "created_at" := Column("Timestamp", false, Some("now()"))],
      {["id"], ["execution_record_id"]})
  }

  function VerificationExperimentsKeys(): set<ForeignKey> {
    {
      Reference("", "verification_experiments", "execution_record_id", "execution_records", "id", "RESTRICT"),
      Reference("", "verification_experiments", "mathematical_model_record_id", "mathematical_models", "id", "RESTRICT"),
      Reference("", "verification_experiments", "problem_id", "problems", "id", "CASCADE"),
      Reference("", "verification_experiments", "project_id", "projects", "id", "CASCADE"),
      Reference("", "verification_experiments", "robustness_run_id", "robustness_runs", "id", "CASCADE"),
      Reference("", "verification_experiments", "sensitivity_run_id", "sensitivity_runs", "id", "CASCADE")}
  }

  function VerificationExperiments(): TableBlock {
    TableBlock("verification_experiments", VerificationExperimentsTable(), VerificationExperimentsKeys(),
      ["project_id", "problem_id", "mathematical_model_record_id", "sensitivity_run_id", "robustness_run_id",
       "experiment_type", "base_model_digest", "scenario_model_digest", "solver", "solver_status", "status"])
  }

  function RedTeamReportsTable(): Table {
    Table(map[
      "id" := Required("Uuid"), "project_id" := Required("Uuid"), "problem_id" := Required("Uuid"),
      "mathematical_model_record_id" := Required("Uuid"), "model_id" := Required("Uuid"),
      "model_version" := Required("Integer"), "model_digest" := Required("String(64)"),
      "result_id" := Required("Uuid"), "validation_run_id" := Required("Uuid"),
      "sensitivity_run_id" := Required("Uuid"), "robustness_run_id" := Required("Uuid"),
      "reviewer_agent_run_id" := Required("Uuid"), "status" := Required("String(32)"),
      "critical_count" := Required("Integer"), "major_count" := Required("Integer"),
      "minor_count" := Required("Integer"), "review_is_mock" := Required("Boolean"),
      "report_json" := Required("Jsonb"), "created_at" := Required("Timestamp")],
      {["id"]})
  }

  function RedTeamReportsKeys(): set<ForeignKey> {
    {
      Reference("", "red_team_reports", "mathematical_model_record_id", "mathematical_models", "id", "RESTRICT"),
      Reference("", "red_team_reports", "problem_id", "problems", "id", "CASCADE"),
      Reference("", "red_team_reports", "project_id", "projects", "id", "CASCADE"),
      Reference("", "red_team_reports", "result_id", "results", "id", "RESTRICT"),
      Reference("", "red_team_reports", "reviewer_agent_run_id", "agent_runs", "id", "RESTRICT"),
      Reference("", "red_team_reports", "robustness_run_id", "robustness_runs", "id", "RESTRICT"),
      Reference("", "red_team_reports", "sensitivity_run_id", "sensitivity_runs", "id", "RESTRICT"),
      Reference("", "red_team_reports", "validation_run_id", "validation_runs", "id", "RESTRICT")}
  }

  function RedTeamReports(): TableBlock {
    TableBlock("red_team_reports", RedTeamReportsTable(), RedTeamReportsKeys(),
      ["project_id", "problem_id", "mathematical_model_record_id", "model_id", "model_digest", "result_id",
       "validation_run_id", "sensitivity_run_id", "robustness_run_id", "reviewer_agent_run_id", "status"])
  }

  function RepairCyclesTable(): Table {
    Table(map[
      "id" := Required("Uuid"), "project_id" := Required("Uuid"), "problem_id" := Required("Uuid"),
      "stable_model_id" := Required("Uuid"), "source_model_record_id" := Required("Uuid"),
      "target_model_record_id" := Optional("Uuid"), "red_team_report_id" := Required("Uuid"),
      "agent_run_id" := Required("Uuid"), "repair_cycle" := Required("Integer"), "status" := Required("String(32)"),
      "is_mock" := Required("Boolean"), "record_json" := Required("Jsonb"), "created_at" := Required("Timestamp")],
      {["id"], ["stable_model_id", "repair_cycle"]})
  }

  function RepairCyclesKeys(): set<ForeignKey> {
    {
      Reference("", "repair_cycles", "agent_run_id", "agent_runs", "id", "RESTRICT"),
      Reference("", "repair_cycles", "problem_id", "problems", "id", "CASCADE"),
      Reference("", "repair_cycles", "project_id", "projects", "id", "CASCADE"),
      Reference("", "repair_cycles", "red_team_report_id", "red_team_reports", "id", "RESTRICT"),
      Reference("", "repair_cycles", "source_model_record_id", "mathematical_models", "id", "RESTRICT"),
      Reference("", "repair_cycles", "target_model_record_id", "mathematical_models", "id", "RESTRICT")}
  }

  function RepairCycles(): TableBlock {
    TableBlock("repair_cycles", RepairCyclesTable(), RepairCyclesKeys(),
      ["project_id", "problem_id", "stable_model_id", "source_model_record_id", "target_model_record_id",
       "red_team_report_id", "agent_run_id", "status"])
  }

  // In creation order.
  function Tables0006(): seq<TableBlock> {
    [ValidationRuns(), SensitivityRuns(), RobustnessRuns(), VerificationExperiments(), RedTeamReports(), RepairCycles()]
  }

  // ---- revision 0010 ----------------------------------------------------------------------

  function ProviderEndpointsTable(): Table {
    Table(map[
      "provider_id" := Required("String(100)"), "display_name" := Required("String(255)"),
      "protocol" := Required("String(50)"), "base_url" := Required("String(2048)"),
      "credential_ref" := Optional("String(132)"), "enabled" := Required("Boolean"),
      "trust_level" := Required("String(40)"), "timeout_seconds" := Required("Float"),
      "connect_timeout_seconds" := Required("Float"), "max_response_bytes" := Required("BigInteger"),
      "verify_tls" := Required("Boolean"), "allow_redirects" := Required("Boolean"),
      "additional_headers" := Required("Jsonb"), "metadata" := Required("Jsonb"),
      "health_status" := Required("String(32)"), "consecutive_failures" := Required("Integer"),
      "cooldown_until" := Optional("Timestamp"), "config_digest" := Required("String(64)"),
      "created_at" := Required("Timestamp"), "updated_at" := Required("Timestamp")],
      {["provider_id"]})
  }

  function ProviderEndpointsKeys(): set<ForeignKey> {
    {}
  }

  function ProviderEndpoints(): TableBlock {
    TableBlock("provider_endpoints", ProviderEndpointsTable(), ProviderEndpointsKeys(),
      ["protocol", "enabled", "trust_level", "health_status", "config_digest"])
  }

  function ModelProfilesTable(): Table {
    Table(map[
      "model_id" := Required("String(100)"), "provider_id" := Required("String(100)"),
      "display_name" := Required("String(255)"), "remote_model" := Required("String(500)"),
      "enabled" := Required("Boolean"), "quality_tier" := Required("String(32)"),
      "quality_tier_source" := Required("String(32)"), "declared_capabilities" := Required("Jsonb"),
      "observed_capabilities" := Required("Jsonb"), "structured_output_strategy" := Required("String(40)"),
      "tool_calling_strategy" := Required("String(32)"), "reasoning_mapping" := Required("Jsonb"),
      "context_window" := Optional("Integer"), "max_output_tokens" := Optional("Integer"),
      "pricing" := Required("Jsonb"), "trust_level" := Required("String(40)"), "configuration" := Required("Jsonb"),
      "config_digest" := Required("String(64)"), "created_at" := Required("Timestamp"),
      "updated_at" := Required("Timestamp")],
      {["model_id"]})
  }

  function ModelProfilesKeys(): set<ForeignKey> {
    {
      Reference("fk_model_profiles_provider_id_provider_endpoints", "model_profiles", "provider_id", "provider_endpoints", "provider_id", "RESTRICT")}
  }

  function ModelProfiles(): TableBlock {
    TableBlock("model_profiles", ModelProfilesTable(), ModelProfilesKeys(),
      ["provider_id", "enabled", "quality_tier", "trust_level", "config_digest"])
  }

  function CapabilityProbeRunsTable(): Table {
    Table(map[
      "id" := Required("Uuid"), "provider_id" := Required("String(100)"), "model_id" := Required("String(100)"),
      "provider_config_digest" := Required("String(64)"), "model_config_digest" := Required("String(64)"),
      "probe_digest" := Required("String(64)"), "capabilities" := Required("Jsonb"),
      "authentication_status" := Required("String(32)"), "latency_ms" := Required("Integer"),
      "usage" := Required("Jsonb"), "errors" := Required("Jsonb"), "performed_at" := Required("Timestamp")],
      {["id"]})
  }

  function CapabilityProbeRunsKeys(): set<ForeignKey> {
    {
      Reference("fk_capability_probe_runs_provider_id_provider_endpoints", "capability_probe_runs", "provider_id", "provider_endpoints", "provider_id", "RESTRICT"),
      Reference("fk_capability_probe_runs_model_id_model_profiles", "capability_probe_runs", "model_id", "model_profiles", "model_id", "RESTRICT")}
  }

  function CapabilityProbeRuns(): TableBlock {
    TableBlock("capability_probe_runs", CapabilityProbeRunsTable(), CapabilityProbeRunsKeys(),
      ["provider_id", "model_id", "provider_config_digest", "model_config_digest", "probe_digest",
       "authentication_status"])
  }

  function AgentRoutePoliciesTable(): Table {
    Table(map[
      "agent_name" := Required("String(100)"), "primary_model_id" := Required("String(100)"),
      "fallback_model_ids" := Required("Jsonb"), "updated_at" := Required("Timestamp")],
      {["agent_name"]})
  }

  function AgentRoutePoliciesKeys(): set<ForeignKey> {
    {
      Reference("fk_agent_route_policies_primary_model_id_model_profiles", "agent_route_policies", "primary_model_id", "model_profiles", "model_id", "RESTRICT")}
  }

  function AgentRoutePolicies(): TableBlock {
    TableBlock("agent_route_policies", AgentRoutePoliciesTable(), AgentRoutePoliciesKeys(),
      ["primary_model_id"])
  }

  // In creation order.
  function Tables0010(): seq<TableBlock> {
    [ProviderEndpoints(), ModelProfiles(), CapabilityProbeRuns(), AgentRoutePolicies()]
  }

  // ---- what the downgrades name ----------------------------------------

  // Revision 0003 lists index columns in the order they are dropped.
  function Drops0003(): seq<Dropped> {
    [
      Dropped("execution_records",
        ["status", "project_id", "problem_id", "code_hash"]),
      Dropped("data_profiles",
        ["source_file_id", "project_id", "problem_id"]),
      Dropped("datasets",
        ["source_file_id", "project_id", "problem_id"]),
      Dropped("artifacts",
        ["source_file_id", "sha256", "project_id", "problem_id", "execution_run_id"]),
      Dropped("files",
        ["sha256", "project_id", "problem_id"])]
  }

  // Revision 0006 lists them in creation order and drops them from the last to the first.
  function Drops0006(): seq<Dropped> {
    [
      Dropped("repair_cycles",
        ["project_id", "problem_id", "stable_model_id", "source_model_record_id", "target_model_record_id",
         "red_team_report_id", "agent_run_id", "status"]),
      Dropped("red_team_reports",
        ["project_id", "problem_id", "mathematical_model_record_id", "model_id", "model_digest", "result_id",
         "validation_run_id", "sensitivity_run_id", "robustness_run_id", "reviewer_agent_run_id", "status"]),
      Dropped("verification_experiments",
        ["project_id", "problem_id", "mathematical_model_record_id", "sensitivity_run_id", "robustness_run_id",
         "experiment_type", "base_model_digest", "scenario_model_digest", "solver", "solver_status", "status"]),
      Dropped("robustness_runs",
        ["project_id", "problem_id", "mathematical_model_record_id", "model_id", "model_digest", "result_id",
         "validation_run_id", "sensitivity_run_id", "method", "status"]),
      Dropped("sensitivity_runs",
        ["project_id", "problem_id", "mathematical_model_record_id", "model_id", "model_digest", "result_id",
         "validation_run_id", "status"]),
      Dropped("validation_runs",
        ["project_id", "problem_id", "mathematical_model_record_id", "model_id", "model_digest", "result_id",
         "solver_run_id", "execution_record_id", "status"])]
  }
}
