// The migrations as they run: loops over tables, columns and indexes against one database.
module Migrator {
  import opened Results
  import opened SchemaSteps
  import opened RevisionTables
  import opened Revisions
  import opened Applicability

  // The effect of steps on a database whose transaction may already have been aborted.
  function Then(state: Option<Schema>, steps: seq<Step>): Option<Schema> {
    match state case None => None case Some(s) => Run(steps, s)
  }

  lemma ThenConcat(state: Option<Schema>, a: seq<Step>, b: seq<Step>)
    ensures Then(state, a + b) == Then(Then(state, a), b)
  {
    hide Run;
    if state.Some? { RunConcat(a, b, state.value); }
  }

  lemma ThenNothing(state: Option<Schema>)
    ensures Then(state, []) == state
  {
  }

  lemma ThenOne(state: Option<Schema>, x: Step)
    ensures Then(state, [x]) == match state case None => None case Some(s) => Apply(x, s)
  {
    if state.Some? { RunOne(x, state.value); }
    hide Apply, Run;
  }

  lemma {:induction false} IndexStepsSnoc(table: string, columns: seq<string>, last: string)
    ensures IndexSteps(table, columns + [last]) == IndexSteps(table, columns) + [CreateIndex(Index(table, last))]
  {
    if columns == [] {
      assert [] + [last] == [last] && [last][1..] == [];
    } else {
      assert (columns + [last])[1..] == columns[1..] + [last];
      IndexStepsSnoc(table, columns[1..], last);
    }
  }

  lemma {:induction false} TableStepsSnoc(bs: seq<TableBlock>, b: TableBlock)
    ensures TableSteps(bs + [b]) == TableSteps(bs) + BlockSteps(b)
  {
    hide BlockSteps;
    if bs == [] {
      assert [] + [b] == [b] && [b][1..] == [];
    } else {
      assert (bs + [b])[1..] == bs[1..] + [b];
      TableStepsSnoc(bs[1..], b);
    }
  }

  lemma {:induction false} ReversedDropStepsSnoc(ds: seq<Dropped>, d: Dropped)
    ensures ReversedDropSteps(ds + [d]) == ReversedDropSteps(ds) + (IndexDrops(d.name, Reversed(d.columns)) + [DropTable(d.name)])
  {
    hide Reversed, IndexDrops;
    if ds == [] {
      assert [] + [d] == [d] && [d][1..] == [];
    } else {
      assert (ds + [d])[1..] == ds[1..] + [d];
      ReversedDropStepsSnoc(ds[1..], d);
    }
  }

  lemma {:induction false} DropStepsNext(ds: seq<Dropped>, i: nat)
    requires i < |ds|
    ensures DropSteps(ds[..i + 1]) == DropSteps(ds[..i]) + (IndexDrops(ds[i].name, ds[i].columns) + [DropTable(ds[i].name)])
  {
    assert ds[..i + 1] == ds[..i] + [ds[i]];
    DropStepsSnoc(ds[..i], ds[i]);
  }

  lemma {:induction false} AllIndexesSnoc(ds: seq<Dropped>, d: Dropped)
    ensures AllIndexes(ds + [d]) == AllIndexes(ds) + IndexSteps(d.name, d.columns)
    ensures AllIndexDrops(ds + [d]) == AllIndexDrops(ds) + IndexDrops(d.name, d.columns)
  {
    hide IndexSteps, IndexDrops;
    if ds == [] {
      assert [] + [d] == [d] && [d][1..] == [];
    } else {
      assert (ds + [d])[1..] == ds[1..] + [d];
      AllIndexesSnoc(ds[1..], d);
    }
  }

  lemma {:induction false} TraceStepsSnoc(table: string, columns: seq<Traced>, last: Traced)
    ensures TraceSteps(table, columns + [last]) == TraceSteps(table, columns) + TraceStep(table, last)
  {
    hide TraceStep;
    if columns == [] {
      assert [] + [last] == [last] && [last][1..] == [];
    } else {
      assert (columns + [last])[1..] == columns[1..] + [last];
      TraceStepsSnoc(table, columns[1..], last);
    }
  }

  lemma {:induction false} ReversedIsBackwards(columns: seq<string>, i: nat)
    requires i < |columns|
    ensures Reversed(columns)[|columns| - 1 - i] == columns[i]
  {
    if i > 0 { ReversedIsBackwards(columns[1..], i - 1); }
  }

  lemma UntraceUnfold(table: string, names: seq<string>, indexed: set<string>, i: nat)
    requires i < |names|
    ensures UntraceSteps(table, names[i..], indexed) == UntraceSteps(table, names[i + 1..], indexed) + UntraceStep(table, names[i], indexed)
  {
    assert names[i..][1..] == names[i + 1..];
  }

  class Database {
    var schema: Option<Schema>

    constructor (initial: Schema)
      ensures schema == Some(initial)
    {
      schema := Some(initial);
    }

    // A refused step aborts the transaction.
    method Execute(step: Step)
      modifies this
      ensures schema == Then(old(schema), [step])
    {
      ThenOne(schema, step);
      schema := if schema.Some? then Apply(step, schema.value) else None;
    }

    method CreateIndexes(table: string, columns: seq<string>)
      modifies this
      ensures schema == Then(old(schema), IndexSteps(table, columns))
    {
      for i := 0 to |columns|
        invariant schema == Then(old(schema), IndexSteps(table, columns[..i]))
      {
        IndexStepsSnoc(table, columns[..i], columns[i]);
        ThenConcat(old(schema), IndexSteps(table, columns[..i]), [CreateIndex(Index(table, columns[i]))]);
        assert columns[..i + 1] == columns[..i] + [columns[i]];
        Execute(CreateIndex(Index(table, columns[i])));
      }
      assert columns[..|columns|] == columns;
    }

    // The columns in the order given.
    method DropListedIndexes(table: string, columns: seq<string>)
      modifies this
      ensures schema == Then(old(schema), IndexDrops(table, columns))
    {
      for i := 0 to |columns|
        invariant schema == Then(old(schema), IndexDrops(table, columns[..i]))
      {
        IndexDropsSnoc(table, columns[..i], columns[i]);
        ThenConcat(old(schema), IndexDrops(table, columns[..i]), [DropIndex(Index(table, columns[i]))]);
        assert columns[..i + 1] == columns[..i] + [columns[i]];
        Execute(DropIndex(Index(table, columns[i])));
      }
      assert columns[..|columns|] == columns;
    }

    // From the last column to the first.
    method DropIndexes(table: string, columns: seq<string>)
      modifies this
      ensures schema == Then(old(schema), IndexDrops(table, Reversed(columns)))
    {
      var i := |columns|;
      while i > 0
        invariant 0 <= i <= |columns|
        invariant schema == Then(old(schema), IndexDrops(table, Reversed(columns)[..|columns| - i]))
      {
        i := i - 1;
        var r := Reversed(columns);
        var k := |columns| - 1 - i;
        ReversedIsBackwards(columns, i);
        assert r[..k + 1] == r[..k] + [columns[i]];
        IndexDropsSnoc(table, r[..k], columns[i]);
        ThenConcat(old(schema), IndexDrops(table, r[..k]), [DropIndex(Index(table, columns[i]))]);
        Execute(DropIndex(Index(table, columns[i])));
      }
      assert Reversed(columns)[..|columns|] == Reversed(columns);
    }

    method CreateTables(blocks: seq<TableBlock>)
      modifies this
      ensures schema == Then(old(schema), TableSteps(blocks))
    {
      for i := 0 to |blocks|
        invariant schema == Then(old(schema), TableSteps(blocks[..i]))
      {
        var b := blocks[i];
        assert blocks[..i + 1] == blocks[..i] + [b];
        TableStepsSnoc(blocks[..i], b);
        ThenConcat(old(schema), TableSteps(blocks[..i]), BlockSteps(b));
        ThenConcat(schema, [CreateTable(b.name, b.table, b.references)], IndexSteps(b.name, b.indexed));
        Execute(CreateTable(b.name, b.table, b.references));
        CreateIndexes(b.name, b.indexed);
      }
      assert blocks[..|blocks|] == blocks;
    }

    method ExecuteAll(steps: seq<Step>)
      modifies this
      ensures schema == Then(old(schema), steps)
    {
      for i := 0 to |steps|
        invariant schema == Then(old(schema), steps[..i])
      {
        assert steps[..i + 1] == steps[..i] + [steps[i]];
        ThenConcat(old(schema), steps[..i], [steps[i]]);
        Execute(steps[i]);
      }
      assert steps[..|steps|] == steps;
    }

    // Revision 0003: the reference from artifacts to execution records comes last.
    method Upgrade3()
      modifies this
      ensures schema == Then(old(schema), Upgrade0003())
    {
      ThenConcat(schema, TableSteps(Tables0003()), [AddForeignKey(LATE_KEY)]);
      hide TableSteps, Tables0003, Then;
      CreateTables(Tables0003());
      Execute(AddForeignKey(LATE_KEY));
    }

    method Downgrade3()
      modifies this
      ensures schema == Then(old(schema), Downgrade0003())
    {
      var ds, first := Drops0003(), DropForeignKey("artifacts", "fk_artifacts_execution_run_id_execution_records");
      ThenConcat(schema, [first], DropSteps(ds));
      hide Drops0003;
      Execute(first);
      ghost var before := schema;
      for i := 0 to |ds|
        invariant schema == Then(before, DropSteps(ds[..i]))
      {
        var d := ds[i];
        DropStepsNext(ds, i);
        ThenConcat(before, DropSteps(ds[..i]), IndexDrops(d.name, d.columns) + [DropTable(d.name)]);
        ThenConcat(schema, IndexDrops(d.name, d.columns), [DropTable(d.name)]);
        DropListedIndexes(d.name, d.columns);
        Execute(DropTable(d.name));
      }
      assert ds[..|ds|] == ds;
    }

    // Revision 0005: the columns and the key one by one, then the indexes table by table.
    method Upgrade5()
      modifies this
      ensures schema == Then(old(schema), Upgrade0005())
    {
      var ds := Indexed0005();
      ThenConcat(schema, AllAdditions(Additions0005()), AllIndexes(ds));
      ThenNothing(Then(schema, AllAdditions(Additions0005())));
      hide AllAdditions, Additions0005, Indexed0005, IndexSteps, Then;
      ExecuteAll(AllAdditions(Additions0005()));
      ghost var before := schema;
      for i := 0 to |ds|
        invariant schema == Then(before, AllIndexes(ds[..i]))
      {
        assert ds[..i + 1] == ds[..i] + [ds[i]];
        AllIndexesSnoc(ds[..i], ds[i]);
        ThenConcat(before, AllIndexes(ds[..i]), IndexSteps(ds[i].name, ds[i].columns));
        CreateIndexes(ds[i].name, ds[i].columns);
      }
      assert ds[..|ds|] == ds;
    }

    method Downgrade5()
      modifies this
      ensures schema == Then(old(schema), Downgrade0005())
    {
      var ds := Unindexed0005();
      ThenConcat(schema, AllIndexDrops(ds), Removals0005());
      ThenNothing(schema);
      hide Unindexed0005, Removals0005, IndexDrops, Then;
      ghost var before := schema;
      for i := 0 to |ds|
        invariant schema == Then(before, AllIndexDrops(ds[..i]))
      {
        assert ds[..i + 1] == ds[..i] + [ds[i]];
        AllIndexesSnoc(ds[..i], ds[i]);
        ThenConcat(before, AllIndexDrops(ds[..i]), IndexDrops(ds[i].name, ds[i].columns));
        DropListedIndexes(ds[i].name, ds[i].columns);
      }
      assert ds[..|ds|] == ds;
      ExecuteAll(Removals0005());
    }

    // Revision 0006.
    method Upgrade6()
      modifies this
      ensures schema == Then(old(schema), Upgrade0006())
    {
      CreateTables(Tables0006());
    }

    method Downgrade6()
      modifies this
      ensures schema == Then(old(schema), Downgrade0006())
    {
      var ds := Drops0006();
      hide Drops0006;
      for i := 0 to |ds|
        invariant schema == Then(old(schema), ReversedDropSteps(ds[..i]))
      {
        var d := ds[i];
        assert ds[..i + 1] == ds[..i] + [d];
        ReversedDropStepsSnoc(ds[..i], d);
        ThenConcat(old(schema), ReversedDropSteps(ds[..i]), IndexDrops(d.name, Reversed(d.columns)) + [DropTable(d.name)]);
        ThenConcat(schema, IndexDrops(d.name, Reversed(d.columns)), [DropTable(d.name)]);
        DropIndexes(d.name, d.columns);
        Execute(DropTable(d.name));
      }
      assert ds[..|ds|] == ds;
    }

    // Revision 0010: each column, and its index when it has one.
    method AddTraceColumns(table: string, columns: seq<Traced>)
      modifies this
      ensures schema == Then(old(schema), TraceSteps(table, columns))
    {
      for i := 0 to |columns|
        invariant schema == Then(old(schema), TraceSteps(table, columns[..i]))
      {
        var t := columns[i];
        assert columns[..i + 1] == columns[..i] + [t];
        TraceStepsSnoc(table, columns[..i], t);
        ThenConcat(old(schema), TraceSteps(table, columns[..i]), TraceStep(table, t));
        ThenConcat(schema, [AddColumn(table, t.column, Optional(t.kind))], [CreateIndex(Index(table, t.column))]);
        Execute(AddColumn(table, t.column, Optional(t.kind)));
        if t.indexed {
          Execute(CreateIndex(Index(table, t.column)));
        } else {
          assert TraceStep(table, t) == [AddColumn(table, t.column, Optional(t.kind))];
        }
      }
      assert columns[..|columns|] == columns;
    }

    method DropTraceColumns(table: string, names: seq<string>, indexed: set<string>)
      modifies this
      ensures schema == Then(old(schema), UntraceSteps(table, names, indexed))
    {
      var i := |names|;
      while i > 0
        invariant 0 <= i <= |names|
        invariant schema == Then(old(schema), UntraceSteps(table, names[i..], indexed))
      {
        i := i - 1;
        var name := names[i];
        UntraceUnfold(table, names, indexed, i);
        ThenConcat(old(schema), UntraceSteps(table, names[i + 1..], indexed), UntraceStep(table, name, indexed));
        ThenConcat(schema, [DropIndex(Index(table, name))], [DropColumn(table, name)]);
        if name in indexed {
          Execute(DropIndex(Index(table, name)));
        } else {
          assert UntraceStep(table, name, indexed) == [DropColumn(table, name)];
        }
        Execute(DropColumn(table, name));
      }
      assert names[0..] == names;
    }

    method Upgrade10()
      modifies this
      ensures schema == Then(old(schema), Upgrade0010())
    {
      var agent, benchmark := TraceSteps("agent_runs", AgentColumns()), TraceSteps("benchmark_runs", BenchmarkColumns());
      ThenConcat(schema, TableSteps(Tables0010()), agent + benchmark);
      ThenConcat(Then(schema, TableSteps(Tables0010())), agent, benchmark);
      hide TraceSteps, TableSteps, AgentColumns, BenchmarkColumns, Tables0010, Then;
      CreateTables(Tables0010());
      AddTraceColumns("agent_runs", AgentColumns());
      AddTraceColumns("benchmark_runs", BenchmarkColumns());
    }

    method Downgrade10()
      modifies this
      ensures schema == Then(old(schema), Downgrade0010())
    {
      var benchmark, agent := UntraceSteps("benchmark_runs", BenchmarkNames(), IndexedNames()), UntraceSteps("agent_runs", AgentNames(), IndexedNames());
      var names := ["agent_route_policies", "capability_probe_runs", "model_profiles", "provider_endpoints"];
      ThenConcat(schema, benchmark + agent, TableDrops(names));
      ThenConcat(schema, benchmark, agent);
      hide UntraceSteps, AgentNames, BenchmarkNames, IndexedNames, Then;
      DropTraceColumns("benchmark_runs", BenchmarkNames(), IndexedNames());
      DropTraceColumns("agent_runs", AgentNames(), IndexedNames());
      DropTables(names);
    }

    method Upgrade(r: Revision)
      modifies this
      ensures schema == Then(old(schema), UpgradeSteps(r))
    {
      hide Then, Upgrade0003, Upgrade0005, Upgrade0006, Upgrade0010;
      match r {
        case R0003 => Upgrade3();
        case R0005 => Upgrade5();
        case R0006 => Upgrade6();
        case R0010 => Upgrade10();
      }
    }

    method Downgrade(r: Revision)
      modifies this
      ensures schema == Then(old(schema), DowngradeSteps(r))
    {
      hide Then, Downgrade0003, Downgrade0005, Downgrade0006, Downgrade0010;
      match r {
        case R0003 => Downgrade3();
        case R0005 => Downgrade5();
        case R0006 => Downgrade6();
        case R0010 => Downgrade10();
      }
    }

    // Up and down again: the database is back where it was, unless the revision did not apply.
    method UpgradeAndDowngrade(r: Revision) returns (applied: bool)
      requires schema.Some? && WellFormed(schema.value)
      modifies this
      ensures applied <==> Ready(r, old(schema).value)
      ensures applied ==> schema == old(schema)
      ensures !applied ==> schema == None
    {
      hide Run, Ready, WellFormed, UpgradeSteps, DowngradeSteps;
      AppliesAndReturns(r, schema.value);
      Upgrade(r);
      applied := schema.Some?;
      if applied {
        Downgrade(r);
      }
    }

    method DropTables(names: seq<string>)
      modifies this
      ensures schema == Then(old(schema), TableDrops(names))
    {
      for i := 0 to |names|
        invariant schema == Then(old(schema), TableDrops(names[..i]))
      {
        assert names[..i + 1] == names[..i] + [names[i]];
        TableDropsSnoc(names[..i], names[i]);
        ThenConcat(old(schema), TableDrops(names[..i]), [DropTable(names[i])]);
        Execute(DropTable(names[i]));
      }
      assert names[..|names|] == names;
    }
  }

  lemma {:induction false} TableDropsSnoc(names: seq<string>, last: string)
    ensures TableDrops(names + [last]) == TableDrops(names) + [DropTable(last)]
  {
    if names == [] {
      assert [] + [last] == [last] && [last][1..] == [];
    } else {
      assert (names + [last])[1..] == names[1..] + [last];
      TableDropsSnoc(names[1..], last);
    }
  }
}
