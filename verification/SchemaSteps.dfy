// Database schemas and the steps migrations are made of.  A step that the database would
// refuse has no result.
module SchemaSteps {
  import opened Results

  datatype Column = Column(kind: string, nullable: bool, default: Option<string>)

  datatype Table = Table(columns: map<string, Column>, keys: set<seq<string>>)

  datatype ForeignKey = ForeignKey(name: string, owner: string, columns: seq<string>,
                                   target: string, targetColumns: seq<string>, onDelete: string)

  // The index ix_{table}_{column}.
  datatype Index = Index(table: string, column: string)

  datatype Schema = Schema(tables: map<string, Table>, foreignKeys: set<ForeignKey>, indexes: set<Index>)

  datatype Step =
    | CreateTable(name: string, table: Table, references: set<ForeignKey>)
    | DropTable(name: string)
    | AddColumn(name: string, column: string, definition: Column)
    | DropColumn(name: string, column: string)
    | SetDefault(name: string, column: string, default: Option<string>)
    | CreateIndex(index: Index)
    | DropIndex(index: Index)
    | AddForeignKey(key: ForeignKey)
    | DropForeignKey(owner: string, keyName: string)

  predicate HasColumns(t: Table, columns: seq<string>) {
    forall c :: c in columns ==> c in t.columns
  }

  predicate Resolves(s: Schema, k: ForeignKey) {
    && k.owner in s.tables && k.target in s.tables
    && HasColumns(s.tables[k.owner], k.columns) && HasColumns(s.tables[k.target], k.targetColumns)
  }

  predicate KeysResolve(t: Table) {
    forall k :: k in t.keys ==> HasColumns(t, k)
  }

  // No dangling reference, index or key.
  ghost predicate WellFormed(s: Schema) {
    && (forall k :: k in s.foreignKeys ==> Resolves(s, k))
    && (forall i :: i in s.indexes ==> i.table in s.tables && i.column in s.tables[i.table].columns)
    && (forall t :: t in s.tables ==> KeysResolve(s.tables[t]))
  }

  // Keys of other tables that refer to table t.
  predicate Referenced(s: Schema, t: string) {
    exists k :: k in s.foreignKeys && k.target == t && k.owner != t
  }

  predicate ColumnReferenced(s: Schema, t: string, c: string) {
    exists k :: k in s.foreignKeys && k.target == t && c in k.targetColumns
  }

  function Apply(step: Step, s: Schema): Option<Schema> {
    match step
    case CreateTable(name, table, references) =>
      var t := Schema(s.tables[name := table], s.foreignKeys + references, s.indexes);
      if name in s.tables || !KeysResolve(table) || (exists k :: k in references && (k.owner != name || !Resolves(t, k))) then None
      else Some(t)
    case DropTable(name) =>
      if name !in s.tables || Referenced(s, name) then None
      else Some(Schema(s.tables - {name}, (set k | k in s.foreignKeys && k.owner != name), (set i | i in s.indexes && i.table != name)))
    case AddColumn(name, column, definition) =>
      if name !in s.tables || column in s.tables[name].columns then None
      else Some(s.(tables := s.tables[name := s.tables[name].(columns := s.tables[name].columns[column := definition])]))
    case DropColumn(name, column) =>
      if name !in s.tables || column !in s.tables[name].columns || ColumnReferenced(s, name, column) then None
      else
        var t := s.tables[name];
        Some(Schema(s.tables[name := Table(t.columns - {column}, (set k | k in t.keys && column !in k))],
                    (set k | k in s.foreignKeys && !(k.owner == name && column in k.columns)),
                    s.indexes - {Index(name, column)}))
    case SetDefault(name, column, default) =>
      if name !in s.tables || column !in s.tables[name].columns then None
      else
        var t := s.tables[name];
        Some(s.(tables := s.tables[name := t.(columns := t.columns[column := t.columns[column].(default := default)])]))
    case CreateIndex(i) =>
      if i in s.indexes || i.table !in s.tables || i.column !in s.tables[i.table].columns then None
      else Some(s.(indexes := s.indexes + {i}))
    case DropIndex(i) =>
      if i !in s.indexes then None else Some(s.(indexes := s.indexes - {i}))
    case AddForeignKey(k) =>
      if !Resolves(s, k) || (exists j :: j in s.foreignKeys && j.owner == k.owner && j.name == k.name) then None
      else Some(s.(foreignKeys := s.foreignKeys + {k}))
    case DropForeignKey(owner, keyName) =>
      if exists j :: j in s.foreignKeys && j.owner == owner && j.name == keyName then
        Some(s.(foreignKeys := set j | j in s.foreignKeys && !(j.owner == owner && j.name == keyName)))
      else None
  }

  function Run(steps: seq<Step>, s: Schema): Option<Schema> {
    if steps == [] then Some(s)
    else
      match Apply(steps[0], s)
      case None => None
      case Some(t) => Run(steps[1..], t)
  }

  lemma {:induction false} RunConcat(a: seq<Step>, b: seq<Step>, s: Schema)
    ensures Run(a + b, s) == match Run(a, s) case None => None case Some(t) => Run(b, t)
  {
    if a == [] {
      assert a + b == b;
    } else {
      assert (a + b)[0] == a[0] && (a + b)[1..] == a[1..] + b;
      if Apply(a[0], s).Some? { RunConcat(a[1..], b, Apply(a[0], s).value); }
    }
  }

  // ---- steps that build ------------------------------------------------------------------------

  predicate Builds(step: Step) {
    step.CreateTable? || step.AddColumn? || step.CreateIndex? || step.AddForeignKey?
  }

  function Inverse(step: Step): Step
    requires Builds(step)
  {
    match step
    case CreateTable(name, _, _) => DropTable(name)
    case AddColumn(name, column, _) => DropColumn(name, column)
    case CreateIndex(i) => DropIndex(i)
    case AddForeignKey(k) => DropForeignKey(k.owner, k.name)
  }

  // The inverses, last step first.
  function Undo(steps: seq<Step>): seq<Step>
    requires forall x :: x in steps ==> Builds(x)
  {
    if steps == [] then [] else Undo(steps[1..]) + [Inverse(steps[0])]
  }

  lemma {:induction false} UndoConcat(a: seq<Step>, b: seq<Step>)
    requires forall x :: x in a + b ==> Builds(x)
    ensures (forall x :: x in a ==> Builds(x)) && (forall x :: x in b ==> Builds(x))
    ensures Undo(a + b) == Undo(b) + Undo(a)
  {
    assert forall x :: x in a ==> x in a + b;
    assert forall x :: x in b ==> x in a + b;
    if a == [] {
      assert a + b == b;
    } else {
      assert (a + b)[0] == a[0] && (a + b)[1..] == a[1..] + b;
      UndoConcat(a[1..], b);
    }
  }

  lemma ApplyKeepsWellFormed(step: Step, s: Schema)
    requires WellFormed(s) && Apply(step, s).Some?
    ensures WellFormed(Apply(step, s).value)
  {
    var t := Apply(step, s).value;
    match step
    case CreateTable(_, _, _) =>
      forall k | k in t.foreignKeys ensures Resolves(t, k) { if k in s.foreignKeys { assert Resolves(s, k); } }
    case DropTable(_) =>
      forall k | k in t.foreignKeys ensures Resolves(t, k) { assert Resolves(s, k); }
    case AddColumn(_, _, _) =>
      forall k | k in t.foreignKeys ensures Resolves(t, k) { assert Resolves(s, k); }
      forall n | n in t.tables ensures KeysResolve(t.tables[n]) { assert KeysResolve(s.tables[n]); }
    case DropColumn(_, _) =>
      forall k | k in t.foreignKeys ensures Resolves(t, k) { assert Resolves(s, k); }
      forall n | n in t.tables ensures KeysResolve(t.tables[n]) { assert KeysResolve(s.tables[n]); }
    case SetDefault(_, _, _) =>
      forall k | k in t.foreignKeys ensures Resolves(t, k) { assert Resolves(s, k); }
      forall n | n in t.tables ensures KeysResolve(t.tables[n]) { assert KeysResolve(s.tables[n]); }
    case CreateIndex(_) =>
      forall k | k in t.foreignKeys ensures Resolves(t, k) { assert Resolves(s, k); }
    case DropIndex(_) =>
      forall k | k in t.foreignKeys ensures Resolves(t, k) { assert Resolves(s, k); }
    case AddForeignKey(_) =>
      forall k | k in t.foreignKeys ensures Resolves(t, k) { if k in s.foreignKeys { assert Resolves(s, k); } }
    case DropForeignKey(_, _) =>
      forall k | k in t.foreignKeys ensures Resolves(t, k) { assert Resolves(s, k); }
  }

  // Each building step is undone by its inverse; the inverse is never refused.
  lemma InverseUndoes(step: Step, s: Schema)
    requires WellFormed(s) && Builds(step) && Apply(step, s).Some?
    ensures Apply(Inverse(step), Apply(step, s).value) == Some(s)
  {
    match step
    case CreateTable(name, table, references) => TableUndone(name, table, references, s);
    case AddColumn(name, column, definition) => ColumnUndone(name, column, definition, s);
    case CreateIndex(i) =>
      assert (s.indexes + {i}) - {i} == s.indexes;
    case AddForeignKey(k) => KeyUndone(k, s);
  }

  lemma TableUndone(name: string, table: Table, references: set<ForeignKey>, s: Schema)
    requires WellFormed(s) && Apply(CreateTable(name, table, references), s).Some?
    ensures Apply(DropTable(name), Apply(CreateTable(name, table, references), s).value) == Some(s)
  {
    var t := Apply(CreateTable(name, table, references), s).value;
    forall k | k in s.foreignKeys
      ensures k.owner != name && k.target != name
    {
      assert Resolves(s, k);
    }
    assert !Referenced(t, name);
    assert t.tables - {name} == s.tables;
    assert (set k | k in t.foreignKeys && k.owner != name) == s.foreignKeys;
    assert (set i | i in t.indexes && i.table != name) == s.indexes;
  }

  lemma ColumnUndone(name: string, column: string, definition: Column, s: Schema)
    requires WellFormed(s) && Apply(AddColumn(name, column, definition), s).Some?
    ensures Apply(DropColumn(name, column), Apply(AddColumn(name, column, definition), s).value) == Some(s)
  {
    var t := Apply(AddColumn(name, column, definition), s).value;
    forall k | k in s.foreignKeys
      ensures !(k.owner == name && column in k.columns) && !(k.target == name && column in k.targetColumns)
    {
      assert Resolves(s, k);
    }
    assert !ColumnReferenced(t, name, column);
    assert KeysResolve(s.tables[name]);
    var table := s.tables[name];
    assert t.tables[name].columns - {column} == table.columns;
    assert (set k | k in table.keys && column !in k) == table.keys;
    assert (set k | k in t.foreignKeys && !(k.owner == name && column in k.columns)) == s.foreignKeys;
    assert t.indexes - {Index(name, column)} == s.indexes;
    assert t.tables[name := table] == s.tables;
    assert Table(t.tables[name].columns - {column}, (set k | k in t.tables[name].keys && column !in k)) == table;
  }

  lemma KeyUndone(k: ForeignKey, s: Schema)
    requires Apply(AddForeignKey(k), s).Some?
    ensures Apply(DropForeignKey(k.owner, k.name), Apply(AddForeignKey(k), s).value) == Some(s)
  {
    var t := Apply(AddForeignKey(k), s).value;
    assert k in t.foreignKeys;
    assert (set j | j in t.foreignKeys && !(j.owner == k.owner && j.name == k.name)) == s.foreignKeys;
  }

  lemma {:induction false} RunKeepsWellFormed(steps: seq<Step>, s: Schema)
    requires WellFormed(s) && Run(steps, s).Some?
    ensures WellFormed(Run(steps, s).value)
  {
    if steps != [] {
      hide Apply, WellFormed;
      ApplyKeepsWellFormed(steps[0], s);
      RunKeepsWellFormed(steps[1..], Apply(steps[0], s).value);
    }
  }

  // Building steps followed by their inverses in reverse order give back the schema.
  lemma {:induction false} UndoRestores(steps: seq<Step>, s: Schema)
    requires WellFormed(s) && (forall x :: x in steps ==> Builds(x)) && Run(steps, s).Some?
    ensures Run(Undo(steps), Run(steps, s).value) == Some(s)
  {
    if steps != [] {
      hide Apply, WellFormed, Builds, Inverse;
      assert steps[0] in steps && forall x :: x in steps[1..] ==> x in steps;
      var t := Apply(steps[0], s).value;
      ApplyKeepsWellFormed(steps[0], s);
      UndoRestores(steps[1..], t);
      InverseUndoes(steps[0], s);
      RunConcat(Undo(steps[1..]), [Inverse(steps[0])], Run(steps, s).value);
      assert [Inverse(steps[0])][1..] == [];
    }
  }

  // ---- revisions -----------------------------------------------------------------------------

  // Wherever the upgrade succeeds, the downgrade succeeds and restores the schema.
  ghost predicate Reverses(up: seq<Step>, down: seq<Step>) {
    forall s {:trigger Run(up, s)} :: WellFormed(s) && Run(up, s).Some? ==> Run(down, Run(up, s).value) == Some(s)
  }

  lemma UndoReverses(steps: seq<Step>)
    requires forall x :: x in steps ==> Builds(x)
    ensures Reverses(steps, Undo(steps))
  {
    hide Apply, WellFormed, Builds, Inverse, Undo, Run;
    forall s | WellFormed(s) && Run(steps, s).Some?
      ensures Run(Undo(steps), Run(steps, s).value) == Some(s)
    {
      UndoRestores(steps, s);
    }
  }

  // Reversible revisions compose: upgrading through both and downgrading in the opposite
  // order restores the schema.
  lemma ReversesCompose(up: seq<Step>, down: seq<Step>, nextUp: seq<Step>, nextDown: seq<Step>)
    requires Reverses(up, down) && Reverses(nextUp, nextDown)
    ensures Reverses(up + nextUp, nextDown + down)
  {
    hide Apply, Run;
    forall s | WellFormed(s) && Run(up + nextUp, s).Some?
      ensures Run(nextDown + down, Run(up + nextUp, s).value) == Some(s)
    {
      hide WellFormed;
      RunConcat(up, nextUp, s);
      var t := Run(up, s).value;
      RunKeepsWellFormed(up, s);
      RunConcat(nextDown, down, Run(up + nextUp, s).value);
    }
  }

  // ---- steps a later drop makes redundant ----------------------------------------------------

  lemma RunOne(x: Step, s: Schema)
    ensures Run([x], s) == Apply(x, s)
  {
    assert [x][1..] == [];
    hide Apply;
  }

  lemma RunTwo(x: Step, y: Step, s: Schema)
    ensures Run([x, y], s) == match Apply(x, s) case None => None case Some(t) => Apply(y, t)
  {
    assert [x, y][1..] == [y] && [y][1..] == [];
    if Apply(x, s).Some? { assert Run([y], Apply(x, s).value) == Apply(y, Apply(x, s).value); }
  }

  // Dropping a table drops its indexes, so dropping one of them first makes no difference.
  lemma DropIndexIsAbsorbed(i: Index, s: Schema)
    requires i in s.indexes
    ensures Run([DropIndex(i), DropTable(i.table)], s) == Apply(DropTable(i.table), s)
  {
    RunTwo(DropIndex(i), DropTable(i.table), s);
    var t := Apply(DropIndex(i), s).value;
    assert (set j | j in t.indexes && j.table != i.table) == (set j | j in s.indexes && j.table != i.table);
    assert Referenced(t, i.table) <==> Referenced(s, i.table);
  }

  // A column added with a temporary default is, once the default is removed, a column added
  // without one.
  lemma BackfillIsPlain(name: string, column: string, definition: Column, s: Schema)
    ensures Run([AddColumn(name, column, definition), SetDefault(name, column, None)], s)
         == Apply(AddColumn(name, column, definition.(default := None)), s)
  {
    RunTwo(AddColumn(name, column, definition), SetDefault(name, column, None), s);
    if name in s.tables && column !in s.tables[name].columns {
      var t := s.tables[name];
      var added := Apply(AddColumn(name, column, definition), s).value;
      assert t.columns[column := definition][column := definition.(default := None)] == t.columns[column := definition.(default := None)];
      var plain := t.(columns := t.columns[column := definition.(default := None)]);
      assert added.tables[name := plain] == s.tables[name := plain];
    }
  }
}
