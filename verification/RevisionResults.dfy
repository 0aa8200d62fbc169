// The schema each modelled upgrade leaves behind.
module RevisionResults {
  import opened Results
  import opened SchemaSteps
  import opened RevisionTables
  import opened Revisions
  import opened RoundTrips

  // ---- tables --------------------------------------------------------------------------------

  // The tables are new and as given, with their references, the further keys and one index for
  // each indexed column; everything else is as before.
  ghost predicate Made(bs: seq<TableBlock>, keys: set<ForeignKey>, s: Schema, t: Schema) {
    && t.tables.Keys == s.tables.Keys + (set b | b in bs :: b.name)
    && (forall n :: n in s.tables ==> t.tables[n] == s.tables[n])
    && (forall b :: b in bs ==> b.name !in s.tables && t.tables[b.name] == b.table)
    && t.foreignKeys == s.foreignKeys + keys + (set b, k | b in bs && k in b.references :: k)
    && t.indexes == s.indexes + (set b, c | b in bs && c in b.indexed :: Index(b.name, c))
  }

  lemma HeadAndRest<T>(xs: seq<T>)
    requires xs != []
    ensures forall x :: x in xs <==> x == xs[0] || x in xs[1..]
  {
    assert xs == [xs[0]] + xs[1..];
  }

  lemma PartsOfTables(bs: seq<TableBlock>)
    requires bs != []
    ensures (set b | b in bs :: b.name) == {bs[0].name} + (set b | b in bs[1..] :: b.name)
    ensures (set b, k | b in bs && k in b.references :: k) == bs[0].references + (set b, k | b in bs[1..] && k in b.references :: k)
    ensures (set b, c | b in bs && c in b.indexed :: Index(b.name, c))
         == (set c | c in bs[0].indexed :: Index(bs[0].name, c)) + (set b, c | b in bs[1..] && c in b.indexed :: Index(b.name, c))
  {
    HeadAndRest(bs);
  }

  lemma OneMoreTable(bs: seq<TableBlock>, s: Schema, u: Schema, t: Schema)
    requires bs != [] && bs[0].name !in s.tables && u == WithBlock(s, bs[0]) && Made(bs[1..], {}, u, t)
    ensures Made(bs, {}, s, t)
  {
    HeadAndRest(bs);
    PartsOfTables(bs);
  }

  lemma {:induction false} TablesAreMade(bs: seq<TableBlock>, s: Schema, t: Schema)
    requires WellFormed(s) && Run(TableSteps(bs), s) == Some(t)
    ensures Made(bs, {}, s, t)
  {
    if bs != [] {
      RunConcat(BlockSteps(bs[0]), TableSteps(bs[1..]), s);
      BlockSucceedsIff(bs[0], s);
      RunKeepsWellFormed(BlockSteps(bs[0]), s);
      var u := WithBlock(s, bs[0]);
      hide BlockSteps, WellFormed, WithBlock, Made, Run;
      TablesAreMade(bs[1..], u, t);
      OneMoreTable(bs, s, u, t);
    }
  }

  lemma OneMoreKey(bs: seq<TableBlock>, s: Schema, u: Schema, t: Schema, k: ForeignKey)
    requires Made(bs, {}, s, u) && Apply(AddForeignKey(k), u) == Some(t)
    ensures Made(bs, {k}, s, t)
  {
    hide Resolves;
  }

  lemma UpgradesAre()
    ensures Upgrade0003() == TableSteps(Tables0003()) + [AddForeignKey(LATE_KEY)]
    ensures LATE_KEY == ForeignKey("fk_artifacts_execution_run_id_execution_records", "artifacts", ["execution_run_id"],
                                   "execution_records", ["id"], "CASCADE")
    ensures Upgrade0006() == TableSteps(Tables0006())
    ensures Upgrade0010() == TableSteps(Tables0010()) + (TraceSteps("agent_runs", AgentColumns()) + TraceSteps("benchmark_runs", BenchmarkColumns()))
  {
    hide TableSteps, TraceSteps, Tables0003, Tables0006, Tables0010, AgentColumns, BenchmarkColumns;
  }

  lemma TablesAre()
    ensures Tables0003() == [Files(), Artifacts(), Datasets(), DataProfiles(), ExecutionRecords()]
    ensures Tables0006() == [ValidationRuns(), SensitivityRuns(), RobustnessRuns(), VerificationExperiments(), RedTeamReports(), RepairCycles()]
    ensures Tables0010() == [ProviderEndpoints(), ModelProfiles(), CapabilityProbeRuns(), AgentRoutePolicies()]
  {
    hide Files, Artifacts, Datasets, DataProfiles, ExecutionRecords, ValidationRuns, SensitivityRuns, RobustnessRuns, VerificationExperiments,
         RedTeamReports, RepairCycles, ProviderEndpoints, ModelProfiles, CapabilityProbeRuns, AgentRoutePolicies;
  }

  // Revision 0003 makes five tables and the one key between two of them that has to wait.
  lemma Result0003(s: Schema, t: Schema)
    requires WellFormed(s) && Run(Upgrade0003(), s) == Some(t)
    ensures Made([Files(), Artifacts(), Datasets(), DataProfiles(), ExecutionRecords()],
                 {ForeignKey("fk_artifacts_execution_run_id_execution_records", "artifacts", ["execution_run_id"],
                             "execution_records", ["id"], "CASCADE")}, s, t)
  {
    hide *;
    TablesAre();
    UpgradesAre();
    RunConcat(TableSteps(Tables0003()), [AddForeignKey(LATE_KEY)], s);
    var u := Run(TableSteps(Tables0003()), s).value;
    RunOne(AddForeignKey(LATE_KEY), u);
    TablesAreMade(Tables0003(), s, u);
    OneMoreKey(Tables0003(), s, u, t, LATE_KEY);
  }

  lemma Result0006(s: Schema, t: Schema)
    requires WellFormed(s) && Run(Upgrade0006(), s) == Some(t)
    ensures Made([ValidationRuns(), SensitivityRuns(), RobustnessRuns(), VerificationExperiments(), RedTeamReports(), RepairCycles()], {}, s, t)
  {
    hide *;
    TablesAre();
    UpgradesAre();
    TablesAreMade(Tables0006(), s, t);
  }

  // ---- columns, keys and indexes ---------------------------------------------------------------

  predicate Defined(s: Schema, table: string, column: string, d: Column) {
    table in s.tables && column in s.tables[table].columns && s.tables[table].columns[column] == d
  }

  // The same tables with exactly these columns, keys and indexes more.
  ghost predicate Gained(columns: set<(string, string, Column)>, keys: set<ForeignKey>, indexes: set<Index>, s: Schema, t: Schema) {
    && t.tables.Keys == s.tables.Keys && (forall n :: n in s.tables ==> t.tables[n].keys == s.tables[n].keys)
    && (forall n, c, d :: Defined(t, n, c, d) <==> Defined(s, n, c, d) || (n, c, d) in columns)
    && t.foreignKeys == s.foreignKeys + keys && t.indexes == s.indexes + indexes
  }

  ghost predicate Extends(steps: seq<Step>) {
    forall x :: x in steps ==> x.AddColumn? || x.AddForeignKey? || x.CreateIndex?
  }

  function ColumnsIn(steps: seq<Step>): set<(string, string, Column)> {
    set x | x in steps && x.AddColumn? :: (x.name, x.column, x.definition)
  }

  function KeysIn(steps: seq<Step>): set<ForeignKey> {
    set x | x in steps && x.AddForeignKey? :: x.key
  }

  function IndexesIn(steps: seq<Step>): set<Index> {
    set x | x in steps && x.CreateIndex? :: x.index
  }

  lemma PartsConcat(a: seq<Step>, b: seq<Step>)
    ensures ColumnsIn(a + b) == ColumnsIn(a) + ColumnsIn(b)
    ensures KeysIn(a + b) == KeysIn(a) + KeysIn(b)
    ensures IndexesIn(a + b) == IndexesIn(a) + IndexesIn(b)
    ensures Extends(a) && Extends(b) ==> Extends(a + b)
  {
    assert forall x :: x in a + b <==> x in a || x in b;
  }

  lemma StepGains(x: Step, s: Schema, t: Schema)
    requires Extends([x]) && Apply(x, s) == Some(t)
    ensures Gained(ColumnsIn([x]), KeysIn([x]), IndexesIn([x]), s, t)
  {
    assert x in [x] && forall y :: y in [x] <==> y == x;
    assert x.AddColumn? ==> ColumnsIn([x]) == {(x.name, x.column, x.definition)} && KeysIn([x]) == {} && IndexesIn([x]) == {};
    assert x.AddForeignKey? ==> ColumnsIn([x]) == {} && KeysIn([x]) == {x.key} && IndexesIn([x]) == {};
    assert x.CreateIndex? ==> ColumnsIn([x]) == {} && KeysIn([x]) == {} && IndexesIn([x]) == {x.index};
  }

  lemma GainedTwice(c: set<(string, string, Column)>, k: set<ForeignKey>, i: set<Index>,
                    d: set<(string, string, Column)>, l: set<ForeignKey>, j: set<Index>,
                    s: Schema, u: Schema, t: Schema)
    requires Gained(c, k, i, s, u) && Gained(d, l, j, u, t)
    ensures Gained(c + d, k + l, i + j, s, t)
  {
    hide Defined;
  }

  lemma {:induction false} StepsGain(steps: seq<Step>, s: Schema, t: Schema)
    requires Extends(steps) && Run(steps, s) == Some(t)
    ensures Gained(ColumnsIn(steps), KeysIn(steps), IndexesIn(steps), s, t)
  {
    if steps != [] {
      var x, rest := steps[0], steps[1..];
      assert steps == [x] + rest && x in steps && Extends([x]) && Extends(rest);
      var u := Apply(x, s).value;
      PartsConcat([x], rest);
      hide Apply, Gained, ColumnsIn, KeysIn, IndexesIn, Extends;
      StepGains(x, s, u);
      StepsGain(rest, u, t);
      GainedTwice(ColumnsIn([x]), KeysIn([x]), IndexesIn([x]), ColumnsIn(rest), KeysIn(rest), IndexesIn(rest), s, u, t);
    }
  }

  // ---- revision 0005 -----------------------------------------------------------------------------

  lemma {:induction false} PlainAt(as_: seq<Addition>)
    ensures |PlainAdditions(as_)| == |as_| && forall i :: 0 <= i < |as_| ==> PlainAdditions(as_)[i] == PlainAddition(as_[i])
  {
    if as_ != [] {
      hide PlainAddition;
      PlainAt(as_[1..]);
      assert forall i :: 0 < i < |as_| ==> PlainAdditions(as_)[i] == PlainAdditions(as_[1..])[i - 1];
    }
  }

  lemma {:induction false} IndexStepsIn(table: string, columns: seq<string>)
    ensures var steps := IndexSteps(table, columns);
            && Extends(steps) && ColumnsIn(steps) == {} && KeysIn(steps) == {} && IndexesIn(steps) == set c | c in columns :: Index(table, c)
  {
    if columns != [] {
      IndexStepsIn(table, columns[1..]);
      var x := CreateIndex(Index(table, columns[0]));
      PartsConcat([x], IndexSteps(table, columns[1..]));
      assert columns == [columns[0]] + columns[1..];
      assert forall c :: c in columns <==> c == columns[0] || c in columns[1..];
      assert forall y :: y in [x] <==> y == x;
    }
  }

  lemma {:induction false} AllIndexesIn(ds: seq<Dropped>)
    ensures var steps := AllIndexes(ds);
            && Extends(steps) && ColumnsIn(steps) == {} && KeysIn(steps) == {}
            && IndexesIn(steps) == set d, c | d in ds && c in d.columns :: Index(d.name, c)
  {
    if ds != [] {
      AllIndexesIn(ds[1..]);
      IndexStepsIn(ds[0].name, ds[0].columns);
      PartsConcat(IndexSteps(ds[0].name, ds[0].columns), AllIndexes(ds[1..]));
      assert ds == [ds[0]] + ds[1..];
      assert forall d :: d in ds <==> d == ds[0] || d in ds[1..];
      hide IndexSteps, ColumnsIn, KeysIn, Extends;
    }
  }

  // The columns as they are in the end: every digest and the routing is required and has no
  // default, only the three origins keep theirs.
  function Columns0005(): seq<(string, string, Column)> {
    [ ("execution_records", "execution_origin", Column("String(48)", false, Some("USER_CODE"))),
      ("execution_records", "model_digest", Column("String(64)", true, None)),
      ("execution_records", "executed_bundle_hash", Column("String(64)", true, None)),
      ("execution_records", "generated_program_id", Column("Uuid", true, None)),
      ("mathematical_models", "model_digest", Column("String(64)", false, None)),
      ("generated_programs", "model_digest", Column("String(64)", false, None)),
      ("generated_programs", "execution_origin", Column("String(48)", false, Some("DETERMINISTIC_SOLVER_ADAPTER"))),
      ("generated_programs", "generator_agent_run_id", Column("Uuid", true, None)),
      ("solver_runs", "model_digest", Column("String(64)", false, None)),
      ("solver_runs", "execution_origin", Column("String(48)", false, Some("DETERMINISTIC_SOLVER_ADAPTER"))),
      ("solver_runs", "routing_decision_id", Column("Uuid", true, None)),
      ("solver_runs", "routing_json", Column("Jsonb", false, None)),
      ("results", "model_digest", Column("String(64)", false, None)) ]
  }

  function Key0005(): ForeignKey {
    ForeignKey("fk_generated_programs_generator_agent_run_id_agent_runs", "generated_programs",
               ["generator_agent_run_id"], "agent_runs", ["id"], "RESTRICT")
  }

  function Indexes0005(): seq<Index> {
    [ Index("execution_records", "execution_origin"), Index("execution_records", "model_digest"),
      Index("execution_records", "executed_bundle_hash"), Index("execution_records", "generated_program_id"),
      Index("mathematical_models", "model_digest"),
      Index("generated_programs", "model_digest"), Index("generated_programs", "execution_origin"),
      Index("generated_programs", "generator_agent_run_id"),
      Index("solver_runs", "model_digest"), Index("solver_runs", "execution_origin"), Index("solver_runs", "routing_decision_id"),
      Index("results", "model_digest") ]
  }

  function Elements<T>(xs: seq<T>): set<T> {
    set x | x in xs
  }

  // The i-th addition is the key or one of the columns.
  lemma AdditionAt(i: nat)
    requires i < 14
    ensures |Additions0005()| == 14 && |Columns0005()| == 13
    ensures var x := PlainAddition(Additions0005()[i]);
            if i == 8 then x == AddForeignKey(Key0005())
            else var c := Columns0005()[if i < 8 then i else i - 1]; x == AddColumn(c.0, c.1, c.2)
  {
  }

  function AddOf(c: (string, string, Column)): Step {
    AddColumn(c.0, c.1, c.2)
  }

  lemma ColumnsOnly(steps: seq<Step>, cs: seq<(string, string, Column)>)
    requires |steps| == |cs| && forall i :: 0 <= i < |cs| ==> steps[i] == AddOf(cs[i])
    ensures Extends(steps) && ColumnsIn(steps) == Elements(cs) && KeysIn(steps) == {} && IndexesIn(steps) == {}
  {
    forall c | c in cs
      ensures c in ColumnsIn(steps)
    {
      var j :| 0 <= j < |cs| && cs[j] == c;
      assert steps[j] in steps;
    }
  }

  lemma KeyOnly(k: ForeignKey)
    ensures var steps := [AddForeignKey(k)];
            Extends(steps) && ColumnsIn(steps) == {} && KeysIn(steps) == {k} && IndexesIn(steps) == {}
  {
    assert AddForeignKey(k) in [AddForeignKey(k)];
  }

  lemma Split14<T>(xs: seq<T>)
    requires |xs| == 14
    ensures xs == xs[..8] + ([xs[8]] + xs[9..])
  {
  }

  lemma Split13<T>(xs: seq<T>)
    requires |xs| == 13
    ensures Elements(xs) == Elements(xs[..8]) + Elements(xs[8..])
  {
    assert xs == xs[..8] + xs[8..];
  }

  lemma AddedColumns()
    ensures var steps := PlainAdditions(Additions0005());
            && Extends(steps) && ColumnsIn(steps) == Elements(Columns0005()) && KeysIn(steps) == {Key0005()} && IndexesIn(steps) == {}
  {
    hide *;
    var as_, cs, steps := Additions0005(), Columns0005(), PlainAdditions(Additions0005());
    PlainAt(as_);
    AdditionAt(8);
    forall i | 0 <= i < 8 ensures steps[..8][i] == AddOf(cs[..8][i]) { AddsColumn(i); }
    forall i | 0 <= i < 5 ensures steps[9..][i] == AddOf(cs[8..][i]) { AddsColumn(i + 9); }
    ColumnsOnly(steps[..8], cs[..8]);
    ColumnsOnly(steps[9..], cs[8..]);
    KeyOnly(Key0005());
    Split14(steps);
    Split13(cs);
    PartsConcat([steps[8]], steps[9..]);
    PartsConcat(steps[..8], [steps[8]] + steps[9..]);
    NoMore({Key0005()});
    NoMore<Index>({});
    NoMore(Elements(cs[8..]));
  }

  lemma AddsColumn(i: nat)
    requires i < 14 && i != 8
    ensures |Additions0005()| == 14 && |Columns0005()| == 13
    ensures PlainAddition(Additions0005()[i]) == AddOf(Columns0005()[if i < 8 then i else i - 1])
  {
    AdditionAt(i);
    hide Additions0005, Columns0005, PlainAddition;
  }

  // Where the list of indexes has the j-th column of the k-th table.
  function PlaceOf(k: nat, j: nat): nat {
    j + match k case 0 => 0 case 1 => 4 case 2 => 5 case 3 => 8 case _ => 11
  }

  lemma IndexAt(k: nat, j: nat)
    requires k < 5 && j < |Indexed0005()[k].columns|
    ensures PlaceOf(k, j) < 12 && Indexes0005()[PlaceOf(k, j)] == Index(Indexed0005()[k].name, Indexed0005()[k].columns[j])
  {
  }

  lemma IndexFrom(p: nat) returns (k: nat, j: nat)
    requires p < 12
    ensures k < 5 && j < |Indexed0005()[k].columns| && Indexes0005()[p] == Index(Indexed0005()[k].name, Indexed0005()[k].columns[j])
  {
    k := if p < 4 then 0 else if p < 5 then 1 else if p < 8 then 2 else if p < 11 then 3 else 4;
    j := p - if p < 4 then 0 else if p < 5 then 4 else if p < 8 then 5 else if p < 11 then 8 else 11;
  }

  lemma AddedIndexes()
    ensures (set d, c | d in Indexed0005() && c in d.columns :: Index(d.name, c)) == Elements(Indexes0005())
  {
    var ds, is_ := Indexed0005(), Indexes0005();
    assert |ds| == 5 && |is_| == 12;
    hide Indexed0005, Indexes0005, PlaceOf;
    forall d, c | d in ds && c in d.columns
      ensures Index(d.name, c) in is_
    {
      var k :| 0 <= k < 5 && ds[k] == d;
      var j :| 0 <= j < |d.columns| && d.columns[j] == c;
      IndexAt(k, j);
    }
    forall i | i in is_
      ensures exists d, c :: d in ds && c in d.columns && i == Index(d.name, c)
    {
      var p :| 0 <= p < 12 && is_[p] == i;
      var k, j := IndexFrom(p);
      assert ds[k] in ds && ds[k].columns[j] in ds[k].columns;
    }
  }

  lemma NoMore<T>(xs: set<T>)
    ensures xs + {} == xs && {} + xs == xs
  {
  }

  lemma PlainIs()
    ensures Plain0005() == PlainAdditions(Additions0005()) + AllIndexes(Indexed0005())
  {
    hide PlainAdditions, Additions0005, AllIndexes, Indexed0005;
  }

  // Revision 0005 leaves thirteen more columns, one more key and twelve more indexes; the
  // defaults that only served existing rows are gone.
  lemma Result0005(s: Schema, t: Schema)
    requires Run(Upgrade0005(), s) == Some(t)
    ensures Gained(Elements(Columns0005()), {Key0005()}, Elements(Indexes0005()), s, t)
  {
    hide *;
    Upgrade0005IsPlain(s);
    AddedColumns();
    AddedIndexes();
    AllIndexesIn(Indexed0005());
    PartsConcat(PlainAdditions(Additions0005()), AllIndexes(Indexed0005()));
    NoMore(Elements(Columns0005()));
    NoMore({Key0005()});
    NoMore(Elements(Indexes0005()));
    PlainIs();
    StepsGain(Plain0005(), s, t);
  }

  // ---- revision 0010 -----------------------------------------------------------------------------

  lemma TraceStepIn(table: string, t: Traced)
    ensures var steps := TraceStep(table, t);
            && Extends(steps) && ColumnsIn(steps) == {(table, t.column, Column(t.kind, true, None))} && KeysIn(steps) == {}
            && IndexesIn(steps) == if t.indexed then {Index(table, t.column)} else {}
  {
    var x, y := AddColumn(table, t.column, Optional(t.kind)), CreateIndex(Index(table, t.column));
    assert TraceStep(table, t) == if t.indexed then [x, y] else [x];
    assert forall z :: z in TraceStep(table, t) <==> z == x || (t.indexed && z == y);
    assert x in TraceStep(table, t) && (t.indexed ==> y in TraceStep(table, t));
  }

  function TraceColumns(table: string, columns: seq<Traced>): set<(string, string, Column)> {
    set t | t in columns :: (table, t.column, Column(t.kind, true, None))
  }

  function TraceIndexes(table: string, columns: seq<Traced>): set<Index> {
    set t | t in columns && t.indexed :: Index(table, t.column)
  }

  lemma {:induction false} TraceStepsIn(table: string, columns: seq<Traced>)
    ensures var steps := TraceSteps(table, columns);
            && Extends(steps) && ColumnsIn(steps) == TraceColumns(table, columns) && KeysIn(steps) == {}
            && IndexesIn(steps) == TraceIndexes(table, columns)
  {
    if columns != [] {
      TraceStepsIn(table, columns[1..]);
      TraceStepIn(table, columns[0]);
      PartsConcat(TraceStep(table, columns[0]), TraceSteps(table, columns[1..]));
      assert columns == [columns[0]] + columns[1..];
      assert forall t :: t in columns <==> t == columns[0] || t in columns[1..];
      hide TraceStep, ColumnsIn, KeysIn, IndexesIn, Extends;
    }
  }

  // Revision 0010 makes four tables and gives the two run tables optional trace columns, the
  // provider and model ones of them indexed.
  lemma Result0010(s: Schema, t: Schema) returns (u: Schema)
    requires WellFormed(s) && Run(Upgrade0010(), s) == Some(t)
    ensures Made([ProviderEndpoints(), ModelProfiles(), CapabilityProbeRuns(), AgentRoutePolicies()], {}, s, u)
    ensures Gained(TraceColumns("agent_runs", AgentColumns()) + TraceColumns("benchmark_runs", BenchmarkColumns()), {},
                   TraceIndexes("agent_runs", AgentColumns()) + TraceIndexes("benchmark_runs", BenchmarkColumns()), u, t)
  {
    hide *;
    TablesAre();
    UpgradesAre();
    var agent, benchmark := TraceSteps("agent_runs", AgentColumns()), TraceSteps("benchmark_runs", BenchmarkColumns());
    TraceStepsIn("agent_runs", AgentColumns());
    TraceStepsIn("benchmark_runs", BenchmarkColumns());
    PartsConcat(agent, benchmark);
    NoMore<ForeignKey>({});
    RunConcat(TableSteps(Tables0010()), agent + benchmark, s);
    u := Run(TableSteps(Tables0010()), s).value;
    TablesAreMade(Tables0010(), s, u);
    StepsGain(agent + benchmark, u, t);
  }
}
