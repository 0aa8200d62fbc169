// Every modelled downgrade restores exactly the schema its upgrade started from, alone and
// in a chain with other reversible revisions.
module RoundTrips {
  import opened Results
  import opened SchemaSteps
  import opened RevisionTables
  import opened Revisions

  lemma BuildsConcat(a: seq<Step>, b: seq<Step>)
    requires AllBuild(a) && AllBuild(b)
    ensures AllBuild(a + b)
  {
    hide Builds;
  }

  // ---- revision 0003: the late foreign key goes first -----------------------------------------

  lemma Drops0003Match()
    ensures Drops0003() == DroppedOf(Tables0003())
  {
    hide FilesTable, ArtifactsTable, DatasetsTable, DataProfilesTable, ExecutionRecordsTable,
         FilesKeys, ArtifactsKeys, DatasetsKeys, DataProfilesKeys, ExecutionRecordsKeys;
    Dropped5(Files(), Artifacts(), Datasets(), DataProfiles(), ExecutionRecords());
    Reversed3("problem_id", "project_id", "sha256");
    Reversed3("problem_id", "project_id", "source_file_id");
    Reversed5("execution_run_id", "problem_id", "project_id", "sha256", "source_file_id");
    Reversed4("code_hash", "problem_id", "project_id", "status");
  }

  lemma Reversed3(a: string, b: string, c: string)
    ensures Reversed([a, b, c]) == [c, b, a]
  {
    assert [a, b, c][1..] == [b, c] && [b, c][1..] == [c] && [c][1..] == [];
    assert Reversed([c]) == [c];
    assert Reversed([b, c]) == [c, b];
  }

  lemma Reversed4(a: string, b: string, c: string, d: string)
    ensures Reversed([a, b, c, d]) == [d, c, b, a]
  {
    assert [a, b, c, d][1..] == [b, c, d];
    Reversed3(b, c, d);
  }

  lemma Reversed5(a: string, b: string, c: string, d: string, e: string)
    ensures Reversed([a, b, c, d, e]) == [e, d, c, b, a]
  {
    assert [a, b, c, d, e][1..] == [b, c, d, e];
    Reversed4(b, c, d, e);
  }

  function DroppedBlock(b: TableBlock): Dropped {
    Dropped(b.name, Reversed(b.indexed))
  }

  lemma Dropped4(a: TableBlock, b: TableBlock, c: TableBlock, d: TableBlock)
    ensures DroppedOf([a, b, c, d]) == [DroppedBlock(d), DroppedBlock(c), DroppedBlock(b), DroppedBlock(a)]
  {
    assert [a, b, c, d][1..] == [b, c, d] && [b, c, d][1..] == [c, d] && [c, d][1..] == [d] && [d][1..] == [];
    assert DroppedOf([d]) == [DroppedBlock(d)];
    assert DroppedOf([c, d]) == [DroppedBlock(d), DroppedBlock(c)];
  }

  lemma Dropped5(a: TableBlock, b: TableBlock, c: TableBlock, d: TableBlock, e: TableBlock)
    ensures DroppedOf([a, b, c, d, e]) == [DroppedBlock(e), DroppedBlock(d), DroppedBlock(c), DroppedBlock(b), DroppedBlock(a)]
  {
    assert [a, b, c, d, e][1..] == [b, c, d, e];
    Dropped4(b, c, d, e);
  }

  lemma Dropped6(a: TableBlock, b: TableBlock, c: TableBlock, d: TableBlock, e: TableBlock, f: TableBlock)
    ensures DroppedOf([a, b, c, d, e, f])
         == [DroppedBlock(f), DroppedBlock(e), DroppedBlock(d), DroppedBlock(c), DroppedBlock(b), DroppedBlock(a)]
  {
    assert [a, b, c, d, e, f][1..] == [b, c, d, e, f];
    Dropped5(b, c, d, e, f);
  }

  lemma Undo0003()
    ensures AllBuild(Upgrade0003()) && Downgrade0003() == Undo(Upgrade0003())
  {
    TablesUndone(Tables0003());
    Drops0003Match();
    hide TableSteps, DropSteps, Tables0003, Drops0003, DroppedOf;
    var late := [AddForeignKey(LATE_KEY)];
    assert late[1..] == [];
    assert Undo(late) == [DropForeignKey(LATE_KEY.owner, LATE_KEY.name)];
    BuildsConcat(TableSteps(Tables0003()), late);
    UndoConcat(TableSteps(Tables0003()), late);
  }

  lemma RoundTrip0003()
    ensures Reverses(Upgrade0003(), Downgrade0003())
  {
    Undo0003();
    hide Upgrade0003, Downgrade0003;
    UndoReverses(Upgrade0003());
  }

  // ---- revision 0006: tables with indexes, dropped in reverse ----------------------------------

  function WithReversedColumns(ds: seq<Dropped>): (r: seq<Dropped>)
    ensures |r| == |ds|
  {
    if ds == [] then [] else [Dropped(ds[0].name, Reversed(ds[0].columns))] + WithReversedColumns(ds[1..])
  }

  lemma {:induction false} ReversedDropStepsAre(ds: seq<Dropped>)
    ensures ReversedDropSteps(ds) == DropSteps(WithReversedColumns(ds))
  {
    if ds != [] {
      ReversedDropStepsAre(ds[1..]);
      assert WithReversedColumns(ds)[1..] == WithReversedColumns(ds[1..]);
    }
  }

  // Both halves of the revision name the same columns for each table.
  lemma Drops0006Match()
    ensures WithReversedColumns(Drops0006()) == DroppedOf(Tables0006())
  {
    hide ValidationRunsTable, SensitivityRunsTable, RobustnessRunsTable, VerificationExperimentsTable, RedTeamReportsTable, RepairCyclesTable,
         ValidationRunsKeys, SensitivityRunsKeys, RobustnessRunsKeys, VerificationExperimentsKeys, RedTeamReportsKeys, RepairCyclesKeys, Reversed;
    Dropped6(ValidationRuns(), SensitivityRuns(), RobustnessRuns(), VerificationExperiments(), RedTeamReports(), RepairCycles());
    var ds := Drops0006();
    assert ds[0] == Dropped(RepairCycles().name, RepairCycles().indexed);
    assert ds[1] == Dropped(RedTeamReports().name, RedTeamReports().indexed);
    assert ds[2] == Dropped(VerificationExperiments().name, VerificationExperiments().indexed);
    assert ds[3] == Dropped(RobustnessRuns().name, RobustnessRuns().indexed);
    assert ds[4] == Dropped(SensitivityRuns().name, SensitivityRuns().indexed);
    assert ds[5] == Dropped(ValidationRuns().name, ValidationRuns().indexed);
    hide Drops0006, ValidationRuns, SensitivityRuns, RobustnessRuns, VerificationExperiments, RedTeamReports, RepairCycles, WithReversedColumns, DroppedOf;
    WithReversed6(ds);
  }

  lemma WithReversed6(ds: seq<Dropped>)
    requires |ds| == 6
    ensures WithReversedColumns(ds) == [
      Dropped(ds[0].name, Reversed(ds[0].columns)), Dropped(ds[1].name, Reversed(ds[1].columns)),
      Dropped(ds[2].name, Reversed(ds[2].columns)), Dropped(ds[3].name, Reversed(ds[3].columns)),
      Dropped(ds[4].name, Reversed(ds[4].columns)), Dropped(ds[5].name, Reversed(ds[5].columns))]
  {
    hide Reversed;
    assert ds[1..][1..] == ds[2..] && ds[2..][1..] == ds[3..] && ds[3..][1..] == ds[4..] && ds[4..][1..] == ds[5..] && ds[5..][1..] == [];
    assert WithReversedColumns(ds[5..]) == [Dropped(ds[5].name, Reversed(ds[5].columns))];
    assert WithReversedColumns(ds[4..]) == [Dropped(ds[4].name, Reversed(ds[4].columns)), Dropped(ds[5].name, Reversed(ds[5].columns))];
    assert WithReversedColumns(ds[3..]) == [Dropped(ds[3].name, Reversed(ds[3].columns))] + WithReversedColumns(ds[4..]);
    assert WithReversedColumns(ds[2..]) == [Dropped(ds[2].name, Reversed(ds[2].columns))] + WithReversedColumns(ds[3..]);
  }

  lemma RoundTrip0006()
    ensures Reverses(Upgrade0006(), Downgrade0006())
  {
    TablesUndone(Tables0006());
    ReversedDropStepsAre(Drops0006());
    Drops0006Match();
    hide TableSteps, DropSteps, Tables0006, Drops0006, DroppedOf, WithReversedColumns, ReversedDropSteps, Undo;
    UndoReverses(Upgrade0006());
  }

  // ---- revision 0005: columns whose default only serves existing rows ---------------------------

  function PlainAddition(a: Addition): Step {
    match a
    case NewColumn(t, c, d, backfillOnly) => AddColumn(t, c, if backfillOnly then d.(default := None) else d)
    case NewKey(k) => AddForeignKey(k)
  }

  function PlainAdditions(as_: seq<Addition>): seq<Step> {
    if as_ == [] then [] else [PlainAddition(as_[0])] + PlainAdditions(as_[1..])
  }

  lemma AdditionIsPlain(a: Addition, s: Schema)
    ensures Run(AdditionSteps(a), s) == Apply(PlainAddition(a), s)
  {
    match a
    case NewColumn(t, c, d, backfillOnly) =>
      if backfillOnly {
        BackfillIsPlain(t, c, d, s);
      } else {
        RunOne(AddColumn(t, c, d), s);
      }
    case NewKey(k) => RunOne(AddForeignKey(k), s);
  }

  // Adding with temporary defaults is adding without them.
  lemma {:induction false} AdditionsArePlain(as_: seq<Addition>, s: Schema)
    ensures Run(AllAdditions(as_), s) == Run(PlainAdditions(as_), s)
  {
    if as_ != [] {
      hide Apply, PlainAddition, AdditionSteps;
      RunConcat(AdditionSteps(as_[0]), AllAdditions(as_[1..]), s);
      AdditionIsPlain(as_[0], s);
      assert PlainAdditions(as_)[1..] == PlainAdditions(as_[1..]);
      if Apply(PlainAddition(as_[0]), s).Some? {
        AdditionsArePlain(as_[1..], Apply(PlainAddition(as_[0]), s).value);
      }
    }
  }

  function Removals(as_: seq<Addition>): seq<Step> {
    if as_ == [] then []
    else Removals(as_[1..]) + [match as_[0] case NewColumn(t, c, _, _) => DropColumn(t, c) case NewKey(k) => DropForeignKey(k.owner, k.name)]
  }

  lemma {:induction false} PlainAdditionsUndone(as_: seq<Addition>)
    ensures AllBuild(PlainAdditions(as_)) && Undo(PlainAdditions(as_)) == Removals(as_)
  {
    if as_ != [] {
      PlainAdditionsUndone(as_[1..]);
      assert PlainAdditions(as_)[1..] == PlainAdditions(as_[1..]);
    }
  }

  lemma {:induction false} AllIndexesUndone(ds: seq<Dropped>)
    ensures AllBuild(AllIndexes(ds)) && Undo(AllIndexes(ds)) == AllIndexDrops(WithReversedColumns(Backwards(ds)))
  {
    if ds != [] {
      IndexStepsBuild(ds[0].name, ds[0].columns);
      AllIndexesUndone(ds[1..]);
      hide Builds, Inverse;
      BuildsConcat(IndexSteps(ds[0].name, ds[0].columns), AllIndexes(ds[1..]));
      UndoConcat(IndexSteps(ds[0].name, ds[0].columns), AllIndexes(ds[1..]));
      ReversedColumnsSnoc(Backwards(ds[1..]), ds[0]);
      AllIndexDropsSnoc(WithReversedColumns(Backwards(ds[1..])), Dropped(ds[0].name, Reversed(ds[0].columns)));
    }
  }

  function Backwards(ds: seq<Dropped>): seq<Dropped> {
    if ds == [] then [] else Backwards(ds[1..]) + [ds[0]]
  }

  lemma {:induction false} ReversedColumnsSnoc(ds: seq<Dropped>, d: Dropped)
    ensures WithReversedColumns(ds + [d]) == WithReversedColumns(ds) + [Dropped(d.name, Reversed(d.columns))]
  {
    if ds == [] {
      assert [] + [d] == [d] && [d][1..] == [];
    } else {
      assert (ds + [d])[1..] == ds[1..] + [d];
      ReversedColumnsSnoc(ds[1..], d);
    }
  }

  lemma {:induction false} AllIndexDropsSnoc(ds: seq<Dropped>, d: Dropped)
    ensures AllIndexDrops(ds + [d]) == AllIndexDrops(ds) + IndexDrops(d.name, d.columns)
  {
    if ds == [] {
      assert [] + [d] == [d] && [d][1..] == [];
    } else {
      assert (ds + [d])[1..] == ds[1..] + [d];
      AllIndexDropsSnoc(ds[1..], d);
    }
  }

  // Wherever two upgrades behave alike, what reverses one reverses the other.
  lemma SameBehaviourReverses(up: seq<Step>, plain: seq<Step>, down: seq<Step>)
    requires (forall s {:trigger Run(up, s)} :: Run(up, s) == Run(plain, s)) && Reverses(plain, down)
    ensures Reverses(up, down)
  {
    hide Run, WellFormed;
  }

  lemma Unindexed0005Match()
    ensures Unindexed0005() == WithReversedColumns(Backwards(Indexed0005()))
  {
    var ds := Indexed0005();
    Backwards5(ds);
    Reversed3("model_digest", "execution_origin", "generator_agent_run_id");
    Reversed3("model_digest", "execution_origin", "routing_decision_id");
    Reversed4("execution_origin", "model_digest", "executed_bundle_hash", "generated_program_id");
    assert ["model_digest"][1..] == [];
    assert Reversed(["model_digest"]) == ["model_digest"];
    hide Reversed, Backwards;
    WithReversed5([ds[4], ds[3], ds[2], ds[1], ds[0]]);
  }

  lemma Backwards5(ds: seq<Dropped>)
    requires |ds| == 5
    ensures Backwards(ds) == [ds[4], ds[3], ds[2], ds[1], ds[0]]
  {
    assert ds[1..][1..] == ds[2..] && ds[2..][1..] == ds[3..] && ds[3..][1..] == ds[4..] && ds[4..][1..] == [];
    assert Backwards(ds[4..]) == [ds[4]];
    assert Backwards(ds[3..]) == [ds[4], ds[3]];
    assert Backwards(ds[2..]) == [ds[4], ds[3], ds[2]];
  }

  lemma WithReversed5(ds: seq<Dropped>)
    requires |ds| == 5
    ensures WithReversedColumns(ds) == [
      Dropped(ds[0].name, Reversed(ds[0].columns)), Dropped(ds[1].name, Reversed(ds[1].columns)),
      Dropped(ds[2].name, Reversed(ds[2].columns)), Dropped(ds[3].name, Reversed(ds[3].columns)),
      Dropped(ds[4].name, Reversed(ds[4].columns))]
  {
    hide Reversed;
    assert ds[1..][1..] == ds[2..] && ds[2..][1..] == ds[3..] && ds[3..][1..] == ds[4..] && ds[4..][1..] == [];
    assert WithReversedColumns(ds[4..]) == [Dropped(ds[4].name, Reversed(ds[4].columns))];
    assert WithReversedColumns(ds[3..]) == [Dropped(ds[3].name, Reversed(ds[3].columns))] + WithReversedColumns(ds[4..]);
    assert WithReversedColumns(ds[2..]) == [Dropped(ds[2].name, Reversed(ds[2].columns))] + WithReversedColumns(ds[3..]);
  }

  lemma RemovalsConcat(a: seq<Addition>, b: seq<Addition>)
    ensures Removals(a + b) == Removals(b) + Removals(a)
  {
    if a == [] {
      assert a + b == b;
    } else {
      assert (a + b)[1..] == a[1..] + b && (a + b)[0] == a[0];
      RemovalsConcat(a[1..], b);
    }
  }

  function Removal(a: Addition): Step {
    match a case NewColumn(t, c, _, _) => DropColumn(t, c) case NewKey(k) => DropForeignKey(k.owner, k.name)
  }

  lemma Removals4(a: Addition, b: Addition, c: Addition, d: Addition)
    ensures Removals([a, b, c, d]) == [Removal(d), Removal(c), Removal(b), Removal(a)]
  {
    assert [a, b, c, d][1..] == [b, c, d] && [b, c, d][1..] == [c, d] && [c, d][1..] == [d] && [d][1..] == [];
    assert Removals([d]) == [Removal(d)];
    assert Removals([c, d]) == [Removal(d), Removal(c)];
    assert Removals([b, c, d]) == [Removal(d), Removal(c), Removal(b)];
  }

  lemma Removals5(a: Addition, b: Addition, c: Addition, d: Addition, e: Addition)
    ensures Removals([a, b, c, d, e]) == [Removal(e), Removal(d), Removal(c), Removal(b), Removal(a)]
  {
    assert [a, b, c, d, e][1..] == [b, c, d, e];
    Removals4(b, c, d, e);
  }

  lemma Removals14(as_: seq<Addition>)
    requires |as_| == 14
    ensures Removals(as_) == [
      Removal(as_[13]), Removal(as_[12]), Removal(as_[11]), Removal(as_[10]), Removal(as_[9]), Removal(as_[8]), Removal(as_[7]),
      Removal(as_[6]), Removal(as_[5]), Removal(as_[4]), Removal(as_[3]), Removal(as_[2]), Removal(as_[1]), Removal(as_[0])]
  {
    hide Removals, Removal;
    Removals5(as_[0], as_[1], as_[2], as_[3], as_[4]);
    Removals4(as_[5], as_[6], as_[7], as_[8]);
    Removals5(as_[9], as_[10], as_[11], as_[12], as_[13]);
    var a, b, c := [as_[0], as_[1], as_[2], as_[3], as_[4]], [as_[5], as_[6], as_[7], as_[8]], [as_[9], as_[10], as_[11], as_[12], as_[13]];
    RemovalsConcat(b, c);
    RemovalsConcat(a, b + c);
    assert as_ == a + (b + c);
  }

  lemma Removals0005Match()
    ensures Removals0005() == Removals(Additions0005())
  {
    hide Removals;
    Removals14(Additions0005());
  }

  function Plain0005(): seq<Step> {
    PlainAdditions(Additions0005()) + AllIndexes(Indexed0005())
  }

  lemma Upgrade0005IsPlain(s: Schema)
    ensures Run(Upgrade0005(), s) == Run(Plain0005(), s)
  {
    hide Additions0005, Indexed0005, AllAdditions, AllIndexes, PlainAdditions, Run;
    RunConcat(AllAdditions(Additions0005()), AllIndexes(Indexed0005()), s);
    RunConcat(PlainAdditions(Additions0005()), AllIndexes(Indexed0005()), s);
    AdditionsArePlain(Additions0005(), s);
  }

  lemma Undo0005()
    ensures AllBuild(Plain0005()) && Downgrade0005() == Undo(Plain0005())
  {
    Removals0005Match();
    Unindexed0005Match();
    hide Additions0005, Indexed0005, AllIndexes, PlainAdditions, Unindexed0005, Removals0005, Removals, AllIndexDrops, Undo, Builds,
         Backwards, WithReversedColumns;
    PlainAdditionsUndone(Additions0005());
    AllIndexesUndone(Indexed0005());
    BuildsConcat(PlainAdditions(Additions0005()), AllIndexes(Indexed0005()));
    UndoConcat(PlainAdditions(Additions0005()), AllIndexes(Indexed0005()));
  }

  lemma RoundTrip0005()
    ensures Reverses(Upgrade0005(), Downgrade0005())
  {
    Undo0005();
    hide Upgrade0005, Downgrade0005, Plain0005, Undo, Run, WellFormed;
    UndoReverses(Plain0005());
    forall s
      ensures Run(Upgrade0005(), s) == Run(Plain0005(), s)
    {
      Upgrade0005IsPlain(s);
    }
    SameBehaviourReverses(Upgrade0005(), Plain0005(), Downgrade0005());
  }

  // ---- revision 0010: tables dropped with their indexes ------------------------------------------

  lemma {:induction false} TraceUndone(table: string, columns: seq<Traced>, names: seq<string>, indexed: set<string>)
    requires |names| == |columns| && forall i :: 0 <= i < |columns| ==> names[i] == columns[i].column
    requires forall i :: 0 <= i < |columns| ==> (columns[i].indexed <==> names[i] in indexed)
    ensures AllBuild(TraceSteps(table, columns)) && Undo(TraceSteps(table, columns)) == UntraceSteps(table, names, indexed)
  {
    if columns != [] {
      TraceUndone(table, columns[1..], names[1..], indexed);
      TraceStepUndone(table, columns[0], indexed);
      hide TraceStep, UntraceStep, Builds, Inverse;
      BuildsConcat(TraceStep(table, columns[0]), TraceSteps(table, columns[1..]));
      UndoConcat(TraceStep(table, columns[0]), TraceSteps(table, columns[1..]));
    }
  }

  lemma TraceStepUndone(table: string, t: Traced, indexed: set<string>)
    requires t.indexed <==> t.column in indexed
    ensures AllBuild(TraceStep(table, t)) && Undo(TraceStep(table, t)) == UntraceStep(table, t.column, indexed)
  {
    var add, index := AddColumn(table, t.column, Optional(t.kind)), CreateIndex(Index(table, t.column));
    if t.indexed {
      assert TraceStep(table, t) == [add, index] && [add, index][1..] == [index] && [index][1..] == [];
      assert Undo([index]) == [Inverse(index)];
    } else {
      assert TraceStep(table, t) == [add] && [add][1..] == [];
    }
  }

  // Dropping all indexes of a table and then the table is dropping the table.
  lemma {:induction false} IndexDropsAbsorbed(name: string, columns: seq<string>, s: Schema)
    requires Run(IndexDrops(name, columns) + [DropTable(name)], s).Some?
    ensures Run(IndexDrops(name, columns) + [DropTable(name)], s) == Apply(DropTable(name), s)
  {
    if columns == [] {
      assert IndexDrops(name, columns) + [DropTable(name)] == [DropTable(name)];
      RunOne(DropTable(name), s);
    } else {
      var i := Index(name, columns[0]);
      var rest := IndexDrops(name, columns[1..]) + [DropTable(name)];
      assert IndexDrops(name, columns) + [DropTable(name)] == [DropIndex(i)] + rest;
      hide IndexDrops;
      FirstStep(DropIndex(i), rest, s);
      IndexDropsAbsorbed(name, columns[1..], Apply(DropIndex(i), s).value);
      DropIndexIsAbsorbed(i, s);
      RunTwo(DropIndex(i), DropTable(name), s);
    }
  }

  lemma FirstStep(x: Step, rest: seq<Step>, s: Schema)
    ensures Run([x] + rest, s) == match Apply(x, s) case None => None case Some(t) => Run(rest, t)
  {
    assert ([x] + rest)[1..] == rest;
    hide Apply;
  }

  function NamesOf(ds: seq<Dropped>): seq<string> {
    if ds == [] then [] else [ds[0].name] + NamesOf(ds[1..])
  }

  // Leaving out the index drops before table drops changes nothing.
  lemma {:induction false} DropStepsAbsorbed(ds: seq<Dropped>, s: Schema)
    requires Run(DropSteps(ds), s).Some?
    ensures Run(TableDrops(NamesOf(ds)), s) == Run(DropSteps(ds), s)
  {
    if ds != [] {
      var first, rest := IndexDrops(ds[0].name, ds[0].columns) + [DropTable(ds[0].name)], DropSteps(ds[1..]);
      assert NamesOf(ds)[1..] == NamesOf(ds[1..]);
      hide Apply, IndexDrops;
      RunConcat(first, rest, s);
      IndexDropsAbsorbed(ds[0].name, ds[0].columns, s);
      DropStepsAbsorbed(ds[1..], Apply(DropTable(ds[0].name), s).value);
      FirstStep(DropTable(ds[0].name), TableDrops(NamesOf(ds[1..])), s);
      assert TableDrops(NamesOf(ds)) == [DropTable(ds[0].name)] + TableDrops(NamesOf(ds[1..]));
    }
  }

  // Tables and their indexes are reversed by dropping the tables alone.
  lemma TablesReversedByDrops(bs: seq<TableBlock>)
    ensures Reverses(TableSteps(bs), TableDrops(NamesOf(DroppedOf(bs))))
  {
    TablesUndone(bs);
    hide Run, Undo, TableSteps, DropSteps, DroppedOf, NamesOf, TableDrops, WellFormed, Builds;
    forall s | WellFormed(s) && Run(TableSteps(bs), s).Some?
      ensures Run(TableDrops(NamesOf(DroppedOf(bs))), Run(TableSteps(bs), s).value) == Some(s)
    {
      UndoRestores(TableSteps(bs), s);
      DropStepsAbsorbed(DroppedOf(bs), Run(TableSteps(bs), s).value);
    }
  }

  lemma Names0010Match()
    ensures NamesOf(DroppedOf(Tables0010())) == ["agent_route_policies", "capability_probe_runs", "model_profiles", "provider_endpoints"]
  {
    hide ProviderEndpointsTable, ModelProfilesTable, CapabilityProbeRunsTable, AgentRoutePoliciesTable,
         ProviderEndpointsKeys, ModelProfilesKeys, CapabilityProbeRunsKeys, AgentRoutePoliciesKeys, Reversed;
    Dropped4(ProviderEndpoints(), ModelProfiles(), CapabilityProbeRuns(), AgentRoutePolicies());
    hide DroppedOf;
    Names4(DroppedBlock(AgentRoutePolicies()), DroppedBlock(CapabilityProbeRuns()), DroppedBlock(ModelProfiles()), DroppedBlock(ProviderEndpoints()));
  }

  lemma Names4(a: Dropped, b: Dropped, c: Dropped, d: Dropped)
    ensures NamesOf([a, b, c, d]) == [a.name, b.name, c.name, d.name]
  {
    assert [a, b, c, d][1..] == [b, c, d] && [b, c, d][1..] == [c, d] && [c, d][1..] == [d] && [d][1..] == [];
    assert NamesOf([d]) == [d.name];
    assert NamesOf([c, d]) == [c.name, d.name];
  }

  lemma TraceColumnsMatch()
    ensures |AgentNames()| == |AgentColumns()| && |BenchmarkNames()| == |BenchmarkColumns()|
    ensures forall i :: 0 <= i < |AgentColumns()| ==>
              AgentNames()[i] == AgentColumns()[i].column && (AgentColumns()[i].indexed <==> AgentNames()[i] in IndexedNames())
    ensures forall i :: 0 <= i < |BenchmarkColumns()| ==>
              BenchmarkNames()[i] == BenchmarkColumns()[i].column && (BenchmarkColumns()[i].indexed <==> BenchmarkNames()[i] in IndexedNames())
  {
    Unindexed("remote_model");
    Unindexed("protocol");
    Unindexed("structured_output_mode");
    Unindexed("reasoning_requested");
    Unindexed("reasoning_effective");
    Unindexed("endpoint_trust");
    Unindexed("model_identity_confidence");
  }

  // Names of other lengths than the indexed ones, or differing in a character.
  lemma Unindexed(name: string)
    requires |name| !in {8, 11, 19, 22} || (|name| == 22 && name[0] == 's') || (|name| == 19 && name[0] == 'r') || (|name| == 8 && name[0] == 'p')
    ensures name !in IndexedNames()
  {
    assert |"provider_id"| == 11 && |"provider_config_digest"| == 22 && |"model_id"| == 8 && |"model_config_digest"| == 19;
    assert "model_id"[0] == 'm' && "model_config_digest"[0] == 'm' && "provider_config_digest"[0] == 'p';
  }

  lemma TraceRoundTrip(up: seq<Step>, nextUp: seq<Step>)
    requires AllBuild(up) && AllBuild(nextUp)
    ensures Reverses(up + nextUp, Undo(nextUp) + Undo(up))
  {
    hide Undo, Builds, Run, WellFormed, Reverses;
    UndoReverses(up);
    UndoReverses(nextUp);
    ReversesCompose(up, Undo(up), nextUp, Undo(nextUp));
  }

  lemma TablesRoundTrip0010()
    ensures Reverses(TableSteps(Tables0010()), TableDrops(["agent_route_policies", "capability_probe_runs", "model_profiles", "provider_endpoints"]))
  {
    Names0010Match();
    hide TableSteps, TableDrops, Tables0010, Reverses, NamesOf, DroppedOf;
    TablesReversedByDrops(Tables0010());
  }

  lemma RoundTrip0010()
    ensures Reverses(Upgrade0010(), Downgrade0010())
  {
    TraceColumnsMatch();
    hide TraceSteps, UntraceSteps, TableSteps, TableDrops, Tables0010, AgentColumns, AgentNames, BenchmarkColumns, BenchmarkNames, IndexedNames,
         Undo, Builds, Run, WellFormed, Reverses;
    TraceUndone("agent_runs", AgentColumns(), AgentNames(), IndexedNames());
    TraceUndone("benchmark_runs", BenchmarkColumns(), BenchmarkNames(), IndexedNames());
    var agent, benchmark := TraceSteps("agent_runs", AgentColumns()), TraceSteps("benchmark_runs", BenchmarkColumns());
    TraceRoundTrip(agent, benchmark);
    TablesRoundTrip0010();
    ReversesCompose(TableSteps(Tables0010()), TableDrops(["agent_route_policies", "capability_probe_runs", "model_profiles", "provider_endpoints"]),
                    agent + benchmark, Undo(benchmark) + Undo(agent));
  }

  // ---- when table creation succeeds --------------------------------------------------------------

  ghost predicate NoRepeats(columns: seq<string>) {
    forall i, j :: 0 <= i < j < |columns| ==> columns[i] != columns[j]
  }

  // What must hold of a schema for a table and its indexes to be created.
  ghost predicate Fits(b: TableBlock, s: Schema) {
    && b.name !in s.tables && KeysResolve(b.table)
    && (forall k :: k in b.references ==> k.owner == b.name && Resolves(s.(tables := s.tables[b.name := b.table]), k))
    && NoRepeats(b.indexed) && forall c :: c in b.indexed ==> c in b.table.columns
  }

  function WithBlock(s: Schema, b: TableBlock): Schema {
    Schema(s.tables[b.name := b.table], s.foreignKeys + b.references, s.indexes + set c | c in b.indexed :: Index(b.name, c))
  }

  lemma {:induction false} IndexesSucceedIff(table: string, columns: seq<string>, s: Schema)
    requires table in s.tables
    ensures Run(IndexSteps(table, columns), s).Some?
            <==> NoRepeats(columns) && forall c :: c in columns ==> Index(table, c) !in s.indexes && c in s.tables[table].columns
    ensures Run(IndexSteps(table, columns), s).Some? ==>
              Run(IndexSteps(table, columns), s).value == s.(indexes := s.indexes + set c | c in columns :: Index(table, c))
  {
    if columns == [] {
      assert s.indexes + (set c | c in columns :: Index(table, c)) == s.indexes;
    } else {
      var i := Index(table, columns[0]);
      FirstStep(CreateIndex(i), IndexSteps(table, columns[1..]), s);
      assert columns == [columns[0]] + columns[1..];
      if Apply(CreateIndex(i), s).Some? {
        var t := Apply(CreateIndex(i), s).value;
        IndexesSucceedIff(table, columns[1..], t);
        assert s.indexes + (set c | c in columns :: Index(table, c)) == t.indexes + set c | c in columns[1..] :: Index(table, c);
        RepeatsAtHead(columns);
      }
    }
  }

  lemma RepeatsAtHead(columns: seq<string>)
    requires columns != []
    ensures NoRepeats(columns) <==> columns[0] !in columns[1..] && NoRepeats(columns[1..])
  {
    if columns[0] !in columns[1..] && NoRepeats(columns[1..]) {
      forall i, j | 0 <= i < j < |columns|
        ensures columns[i] != columns[j]
      {
        assert columns[j] == columns[1..][j - 1];
        if i > 0 { assert columns[i] == columns[1..][i - 1]; }
      }
    }
  }

  lemma CreateSucceedsIff(b: TableBlock, s: Schema)
    ensures Apply(CreateTable(b.name, b.table, b.references), s).Some? <==>
            && b.name !in s.tables && KeysResolve(b.table)
            && (forall k :: k in b.references ==> k.owner == b.name && Resolves(s.(tables := s.tables[b.name := b.table]), k))
  {
    var t := Schema(s.tables[b.name := b.table], s.foreignKeys + b.references, s.indexes);
    forall k
      ensures Resolves(t, k) <==> Resolves(s.(tables := s.tables[b.name := b.table]), k)
    {
    }
  }

  // A table with its indexes can be created exactly when it fits, and then nothing else changes.
  lemma BlockSucceedsIff(b: TableBlock, s: Schema)
    requires WellFormed(s)
    ensures Run(BlockSteps(b), s).Some? <==> Fits(b, s)
    ensures Fits(b, s) ==> Run(BlockSteps(b), s) == Some(WithBlock(s, b))
  {
    var create := CreateTable(b.name, b.table, b.references);
    FirstStep(create, IndexSteps(b.name, b.indexed), s);
    CreateSucceedsIff(b, s);
    if Apply(create, s).Some? {
      var t := Apply(create, s).value;
      assert forall c :: Index(b.name, c) !in s.indexes;
      IndexesSucceedIff(b.name, b.indexed, t);
    }
  }

  // Every table of a revision fits the schema left by the tables before it.
  ghost predicate AllFit(bs: seq<TableBlock>, s: Schema) {
    bs == [] || (Fits(bs[0], s) && AllFit(bs[1..], WithBlock(s, bs[0])))
  }

  // A table-creating revision succeeds exactly when its tables fit one after another.
  lemma {:induction false} TablesSucceedIff(bs: seq<TableBlock>, s: Schema)
    requires WellFormed(s)
    ensures Run(TableSteps(bs), s).Some? <==> AllFit(bs, s)
  {
    if bs != [] {
      hide Fits, WithBlock, BlockSteps, WellFormed, Apply;
      RunConcat(BlockSteps(bs[0]), TableSteps(bs[1..]), s);
      BlockSucceedsIff(bs[0], s);
      if Fits(bs[0], s) {
        RunKeepsWellFormed(BlockSteps(bs[0]), s);
        TablesSucceedIff(bs[1..], WithBlock(s, bs[0]));
      }
    }
  }

  // ---- the chain ---------------------------------------------------------------------------------

  // Upgrading through all modelled revisions, with any reversible revisions between them, and
  // downgrading again restores the schema; no step of the way down is refused.
  lemma ChainRoundTrip(up4: seq<Step>, down4: seq<Step>, up7to9: seq<Step>, down7to9: seq<Step>)
    requires Reverses(up4, down4) && Reverses(up7to9, down7to9)
    ensures Reverses(Upgrade0003() + (up4 + (Upgrade0005() + (Upgrade0006() + (up7to9 + Upgrade0010())))),
                     ((((Downgrade0010() + down7to9) + Downgrade0006()) + Downgrade0005()) + down4) + Downgrade0003())
  {
    hide Upgrade0003, Upgrade0005, Upgrade0006, Upgrade0010, Downgrade0003, Downgrade0005, Downgrade0006, Downgrade0010, Reverses;
    RoundTrip0003();
    RoundTrip0005();
    RoundTrip0006();
    RoundTrip0010();
    ReversesCompose(up7to9, down7to9, Upgrade0010(), Downgrade0010());
    ReversesCompose(Upgrade0006(), Downgrade0006(), up7to9 + Upgrade0010(), Downgrade0010() + down7to9);
    ReversesCompose(Upgrade0005(), Downgrade0005(), Upgrade0006() + (up7to9 + Upgrade0010()), (Downgrade0010() + down7to9) + Downgrade0006());
    ReversesCompose(up4, down4, Upgrade0005() + (Upgrade0006() + (up7to9 + Upgrade0010())),
                    ((Downgrade0010() + down7to9) + Downgrade0006()) + Downgrade0005());
    ReversesCompose(Upgrade0003(), Downgrade0003(), up4 + (Upgrade0005() + (Upgrade0006() + (up7to9 + Upgrade0010()))),
                    (((Downgrade0010() + down7to9) + Downgrade0006()) + Downgrade0005()) + down4);
  }
}
