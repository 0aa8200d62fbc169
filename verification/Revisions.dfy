// Four revisions as step lists and as the loops that perform them, and their round trips.
module Revisions {
  import opened Results
  import opened SchemaSteps
  import opened RevisionTables

  // ---- step lists ------------------------------------------------------------------------------

  function IndexSteps(table: string, columns: seq<string>): seq<Step> {
    if columns == [] then [] else [CreateIndex(Index(table, columns[0]))] + IndexSteps(table, columns[1..])
  }

  function IndexDrops(table: string, columns: seq<string>): seq<Step> {
    if columns == [] then [] else [DropIndex(Index(table, columns[0]))] + IndexDrops(table, columns[1..])
  }

  function Reversed<T>(s: seq<T>): (r: seq<T>)
    ensures |r| == |s|
  {
    if s == [] then [] else Reversed(s[1..]) + [s[0]]
  }

  function BlockSteps(b: TableBlock): seq<Step> {
    [CreateTable(b.name, b.table, b.references)] + IndexSteps(b.name, b.indexed)
  }

  function TableSteps(bs: seq<TableBlock>): seq<Step> {
    if bs == [] then [] else BlockSteps(bs[0]) + TableSteps(bs[1..])
  }

  // Indexes in the order named, then the table.
  function DropSteps(ds: seq<Dropped>): seq<Step> {
    if ds == [] then [] else IndexDrops(ds[0].name, ds[0].columns) + [DropTable(ds[0].name)] + DropSteps(ds[1..])
  }

  // Indexes from the last to the first named, then the table.
  function ReversedDropSteps(ds: seq<Dropped>): seq<Step> {
    if ds == [] then []
    else IndexDrops(ds[0].name, Reversed(ds[0].columns)) + [DropTable(ds[0].name)] + ReversedDropSteps(ds[1..])
  }

  function TableDrops(names: seq<string>): seq<Step> {
    if names == [] then [] else [DropTable(names[0])] + TableDrops(names[1..])
  }

  // ---- revision 0003 -----------------------------------------------------------------------------

  const LATE_KEY := ForeignKey("fk_artifacts_execution_run_id_execution_records", "artifacts", ["execution_run_id"],
                               "execution_records", ["id"], "CASCADE")

  function Upgrade0003(): seq<Step> {
    TableSteps(Tables0003()) + [AddForeignKey(LATE_KEY)]
  }

  function Downgrade0003(): seq<Step> {
    [DropForeignKey("artifacts", "fk_artifacts_execution_run_id_execution_records")] + DropSteps(Drops0003())
  }

  // ---- revision 0005 -----------------------------------------------------------------------------

  // A column to add, with a default that is removed again when it only serves existing rows,
  // or a foreign key.
  datatype Addition = NewColumn(table: string, column: string, definition: Column, backfillOnly: bool) | NewKey(key: ForeignKey)

  const UNKNOWN_DIGEST := "0000000000000000000000000000000000000000000000000000000000000000"
  const ADAPTER := "DETERMINISTIC_SOLVER_ADAPTER"
  const GENERATOR_KEY := ForeignKey("fk_generated_programs_generator_agent_run_id_agent_runs", "generated_programs",
                                    ["generator_agent_run_id"], "agent_runs", ["id"], "RESTRICT")

  function Additions0005(): seq<Addition> {
    [ NewColumn("execution_records", "execution_origin", Column("String(48)", false, Some("USER_CODE")), false),
      NewColumn("execution_records", "model_digest", Optional("String(64)"), false),
      NewColumn("execution_records", "executed_bundle_hash", Optional("String(64)"), false),
      NewColumn("execution_records", "generated_program_id", Optional("Uuid"), false),
      NewColumn("mathematical_models", "model_digest", Column("String(64)", false, Some(UNKNOWN_DIGEST)), true),
      NewColumn("generated_programs", "model_digest", Column("String(64)", false, Some(UNKNOWN_DIGEST)), true),
      NewColumn("generated_programs", "execution_origin", Column("String(48)", false, Some(ADAPTER)), false),
      NewColumn("generated_programs", "generator_agent_run_id", Optional("Uuid"), false),
      NewKey(GENERATOR_KEY),
      NewColumn("solver_runs", "model_digest", Column("String(64)", false, Some(UNKNOWN_DIGEST)), true),
      NewColumn("solver_runs", "execution_origin", Column("String(48)", false, Some(ADAPTER)), false),
      NewColumn("solver_runs", "routing_decision_id", Optional("Uuid"), false),
      NewColumn("solver_runs", "routing_json", Column("Jsonb", false, Some("{}")), true),
      NewColumn("results", "model_digest", Column("String(64)", false, Some(UNKNOWN_DIGEST)), true)]
  }

  function Indexed0005(): seq<Dropped> {
    [ Dropped("execution_records", ["execution_origin", "model_digest", "executed_bundle_hash", "generated_program_id"]),
      Dropped("mathematical_models", ["model_digest"]),
      Dropped("generated_programs", ["model_digest", "execution_origin", "generator_agent_run_id"]),
      Dropped("solver_runs", ["model_digest", "execution_origin", "routing_decision_id"]),
      Dropped("results", ["model_digest"])]
  }

  function AdditionSteps(a: Addition): seq<Step> {
    match a
    case NewColumn(t, c, d, backfillOnly) =>
      if backfillOnly then [AddColumn(t, c, d), SetDefault(t, c, None)] else [AddColumn(t, c, d)]
    case NewKey(k) => [AddForeignKey(k)]
  }

  function AllAdditions(as_: seq<Addition>): seq<Step> {
    if as_ == [] then [] else AdditionSteps(as_[0]) + AllAdditions(as_[1..])
  }

  function AllIndexes(ds: seq<Dropped>): seq<Step> {
    if ds == [] then [] else IndexSteps(ds[0].name, ds[0].columns) + AllIndexes(ds[1..])
  }

  function AllIndexDrops(ds: seq<Dropped>): seq<Step> {
    if ds == [] then [] else IndexDrops(ds[0].name, ds[0].columns) + AllIndexDrops(ds[1..])
  }

  function Upgrade0005(): seq<Step> {
    AllAdditions(Additions0005()) + AllIndexes(Indexed0005())
  }

  function Unindexed0005(): seq<Dropped> {
    [ Dropped("results", ["model_digest"]),
      Dropped("solver_runs", ["routing_decision_id", "execution_origin", "model_digest"]),
      Dropped("generated_programs", ["generator_agent_run_id", "execution_origin", "model_digest"]),
      Dropped("mathematical_models", ["model_digest"]),
      Dropped("execution_records", ["generated_program_id", "executed_bundle_hash", "model_digest", "execution_origin"])]
  }

  function Removals0005(): seq<Step> {
    [ DropColumn("results", "model_digest"),
      DropColumn("solver_runs", "routing_json"),
      DropColumn("solver_runs", "routing_decision_id"),
      DropColumn("solver_runs", "execution_origin"),
      DropColumn("solver_runs", "model_digest"),
      DropForeignKey("generated_programs", "fk_generated_programs_generator_agent_run_id_agent_runs"),
      DropColumn("generated_programs", "generator_agent_run_id"),
      DropColumn("generated_programs", "execution_origin"),
      DropColumn("generated_programs", "model_digest"),
      DropColumn("mathematical_models", "model_digest"),
      DropColumn("execution_records", "generated_program_id"),
      DropColumn("execution_records", "executed_bundle_hash"),
      DropColumn("execution_records", "model_digest"),
      DropColumn("execution_records", "execution_origin")]
  }

  function Downgrade0005(): seq<Step> {
    AllIndexDrops(Unindexed0005()) + Removals0005()
  }

  // ---- revision 0006 -----------------------------------------------------------------------------

  function Upgrade0006(): seq<Step> {
    TableSteps(Tables0006())
  }

  function Downgrade0006(): seq<Step> {
    ReversedDropSteps(Drops0006())
  }

  // ---- revision 0010 -----------------------------------------------------------------------------

  datatype Traced = Traced(column: string, kind: string, indexed: bool)

  function AgentColumns(): seq<Traced> {
    [ Traced("provider_id", "String(100)", true), Traced("provider_config_digest", "String(64)", true),
      Traced("model_id", "String(100)", true), Traced("remote_model", "String(500)", false),
      Traced("model_config_digest", "String(64)", true), Traced("protocol", "String(50)", false),
      Traced("structured_output_mode", "String(40)", false), Traced("reasoning_requested", "String(32)", false),
      Traced("reasoning_effective", "String(100)", false), Traced("endpoint_trust", "String(40)", false)]
  }

  function BenchmarkColumns(): seq<Traced> {
    [ Traced("provider_id", "String(100)", true), Traced("provider_config_digest", "String(64)", true),
      Traced("model_id", "String(100)", true), Traced("model_config_digest", "String(64)", true),
      Traced("protocol", "String(50)", false), Traced("endpoint_trust", "String(40)", false),
      Traced("model_identity_confidence", "String(40)", false)]
  }

  // The columns the downgrade names, and the indexed ones among them.
  function AgentNames(): seq<string> {
    ["provider_id", "provider_config_digest", "model_id", "remote_model", "model_config_digest", "protocol",
     "structured_output_mode", "reasoning_requested", "reasoning_effective", "endpoint_trust"]
  }

  function BenchmarkNames(): seq<string> {
    ["provider_id", "provider_config_digest", "model_id", "model_config_digest", "protocol", "endpoint_trust",
     "model_identity_confidence"]
  }

  function IndexedNames(): set<string> {
    {"provider_id", "provider_config_digest", "model_id", "model_config_digest"}
  }

  function TraceStep(table: string, t: Traced): seq<Step> {
    [AddColumn(table, t.column, Optional(t.kind))] + if t.indexed then [CreateIndex(Index(table, t.column))] else []
  }

  function TraceSteps(table: string, columns: seq<Traced>): seq<Step> {
    if columns == [] then [] else TraceStep(table, columns[0]) + TraceSteps(table, columns[1..])
  }

  function UntraceStep(table: string, name: string, indexed: set<string>): seq<Step> {
    (if name in indexed then [DropIndex(Index(table, name))] else []) + [DropColumn(table, name)]
  }

  // From the last column to the first.
  function UntraceSteps(table: string, names: seq<string>, indexed: set<string>): seq<Step> {
    if names == [] then [] else UntraceSteps(table, names[1..], indexed) + UntraceStep(table, names[0], indexed)
  }

  function Upgrade0010(): seq<Step> {
    TableSteps(Tables0010()) + (TraceSteps("agent_runs", AgentColumns()) + TraceSteps("benchmark_runs", BenchmarkColumns()))
  }

  function Downgrade0010(): seq<Step> {
    (UntraceSteps("benchmark_runs", BenchmarkNames(), IndexedNames()) + UntraceSteps("agent_runs", AgentNames(), IndexedNames()))
    + TableDrops(["agent_route_policies", "capability_probe_runs", "model_profiles", "provider_endpoints"])
  }

  // ---- lists of building steps and their inverses ------------------------------------------------

  ghost predicate AllBuild(steps: seq<Step>) {
    forall x :: x in steps ==> Builds(x)
  }

  lemma {:induction false} IndexStepsBuild(table: string, columns: seq<string>)
    ensures AllBuild(IndexSteps(table, columns)) && Undo(IndexSteps(table, columns)) == IndexDrops(table, Reversed(columns))
  {
    if columns != [] {
      IndexStepsBuild(table, columns[1..]);
      var steps := IndexSteps(table, columns);
      assert steps[1..] == IndexSteps(table, columns[1..]);
      IndexDropsSnoc(table, Reversed(columns[1..]), columns[0]);
    }
  }

  lemma {:induction false} IndexDropsSnoc(table: string, columns: seq<string>, last: string)
    ensures IndexDrops(table, columns + [last]) == IndexDrops(table, columns) + [DropIndex(Index(table, last))]
  {
    if columns == [] {
      assert [] + [last] == [last] && [last][1..] == [];
    } else {
      assert (columns + [last])[1..] == columns[1..] + [last];
      IndexDropsSnoc(table, columns[1..], last);
    }
  }

  // The tables in the opposite order, each with its indexes in the opposite order.
  function DroppedOf(bs: seq<TableBlock>): seq<Dropped> {
    if bs == [] then [] else DroppedOf(bs[1..]) + [Dropped(bs[0].name, Reversed(bs[0].indexed))]
  }

  lemma {:induction false} DropStepsSnoc(ds: seq<Dropped>, d: Dropped)
    ensures DropSteps(ds + [d]) == DropSteps(ds) + (IndexDrops(d.name, d.columns) + [DropTable(d.name)])
  {
    if ds == [] {
      assert [] + [d] == [d] && [d][1..] == [];
    } else {
      assert (ds + [d])[1..] == ds[1..] + [d];
      DropStepsSnoc(ds[1..], d);
    }
  }

  lemma BlockUndone(b: TableBlock)
    ensures AllBuild(BlockSteps(b)) && Undo(BlockSteps(b)) == IndexDrops(b.name, Reversed(b.indexed)) + [DropTable(b.name)]
  {
    IndexStepsBuild(b.name, b.indexed);
    var steps := BlockSteps(b);
    assert steps[1..] == IndexSteps(b.name, b.indexed);
  }

  // Undoing a series of tables drops them in the opposite order, indexes first.
  lemma {:induction false} TablesUndone(bs: seq<TableBlock>)
    ensures AllBuild(TableSteps(bs)) && Undo(TableSteps(bs)) == DropSteps(DroppedOf(bs))
  {
    if bs != [] {
      BlockUndone(bs[0]);
      TablesUndone(bs[1..]);
      hide BlockSteps, Builds, Inverse;
      UndoConcat(BlockSteps(bs[0]), TableSteps(bs[1..]));
      DropStepsSnoc(DroppedOf(bs[1..]), Dropped(bs[0].name, Reversed(bs[0].indexed)));
    }
  }
}
