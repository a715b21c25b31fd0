/**
 SQLite alters a table in place when only whole columns come and go, and
 otherwise rebuilds it. Its statements run on a database of several tables.
 */
module DesignSqlite {
  import opened Prelude
  import opened Engines
  import opened Design
  import opened DesignExec

  // ------------------------------------------------------------------ the plan

  datatype Sql =
    | Create(shape: TableDesign)
    | Copy(source: string, target: string, pairs: seq<(string, string)>)
    | DropTable(name: string)
    | RenameTo(name: string, to: string)
    | OnTable(table: string, step: Step)
    | CheckForeignKeys

  /** `InPlace` statements share one transaction; a rebuild's body stands between its own BEGIN and COMMIT. */
  datatype SqlitePlan = InPlace(body: seq<Sql>) | Rebuild(body: seq<Sql>)

  predicate SimpleColumn(was: seq<ColumnDef>, n: ColumnDef) {
    if n.original.None? then n.generated.None? || !n.generatedStored
    else Lookup(was, n.original).Some? && SameDefinition(Lookup(was, n.original).value, n)
  }

  predicate SimpleColumns(was: TableDesign, next: TableDesign) {
    forall i :: 0 <= i < |next.columns| ==> SimpleColumn(was.columns, next.columns[i])
  }

  /** The originals of the kept columns, in the new order. */
  function Originals(cs: seq<ColumnDef>): seq<string> {
    if cs == [] then []
    else (if cs[0].original.Some? then [cs[0].original.value] else []) + Originals(cs[1..])
  }

  /** The kept columns, in the loaded order. */
  function StillThere(was: seq<ColumnDef>, kept: seq<string>): seq<string> {
    if was == [] then [] else (if was[0].name in kept then [was[0].name] else []) + StillThere(was[1..], kept)
  }

  function FirstNew(cs: seq<ColumnDef>): (n: nat)
    ensures n <= |cs|
    ensures n < |cs| ==> cs[n].original.None?
    ensures forall i :: 0 <= i < n ==> cs[i].original.Some?
  {
    if cs == [] || cs[0].original.None? then 0 else 1 + FirstNew(cs[1..])
  }

  predicate OrderKept(was: TableDesign, next: TableDesign) {
    && Originals(next.columns) == StillThere(was.columns, Originals(next.columns))
    && forall i :: FirstNew(next.columns) <= i < |next.columns| ==> next.columns[i].original.None?
  }

  predicate AnyForeignKey(news: seq<ForeignKeyDef>, o: ForeignKeyDef) {
    exists i :: 0 <= i < |news| && SameForeignKey(o, news[i])
  }

  predicate AnyCheck(news: seq<CheckDef>, o: CheckDef) {
    exists i :: 0 <= i < |news| && SameCheck(o, news[i])
  }

  predicate NoStructureChange(was: TableDesign, next: TableDesign) {
    && was.primaryKey == next.primaryKey
    && |was.foreignKeys| == |next.foreignKeys|
    && (forall i :: 0 <= i < |was.foreignKeys| ==> AnyForeignKey(next.foreignKeys, was.foreignKeys[i]))
    && |was.checks| == |next.checks|
    && (forall i :: 0 <= i < |was.checks| ==> AnyCheck(next.checks, was.checks[i]))
  }

  predicate Shortcut(was: TableDesign, next: TableDesign) {
    SimpleColumns(was, next) && OrderKept(was, next) && NoStructureChange(was, next)
  }

  function AddOrRename(cs: seq<ColumnDef>): seq<Step> {
    if cs == [] then []
    else
      (if cs[0].original.None? then [AddColumn(cs[0], Anywhere)]
       else When(cs[0].original.value != cs[0].name, RenameColumn(cs[0].original.value, cs[0].name)))
      + AddOrRename(cs[1..])
  }

  /** In place, a trigger's text is sent even when it is blank. */
  function AddTriggerTexts(xs: seq<TriggerDef>): seq<Step> {
    if xs == [] then [] else [AddTrigger(xs[0])] + AddTriggerTexts(xs[1..])
  }

  /** The steps on the table under its new name. */
  function InPlaceSteps(was: TableDesign, next: TableDesign): seq<Step> {
    DropColumns(Sqlite, was.columns, next.columns)
    + AddOrRename(next.columns)
    + DropIndexes(Sqlite, Removed(IX, was.indexes, next.indexes))
    + AddIndexes(Added(IX, was.indexes, next.indexes))
    + DropTriggers(Removed(TR, was.triggers, next.triggers))
    + AddTriggerTexts(Added(TR, was.triggers, next.triggers))
  }

  function On(table: string, steps: seq<Step>): seq<Sql> {
    if steps == [] then [] else [OnTable(table, steps[0])] + On(table, steps[1..])
  }

  function InPlaceBody(was: TableDesign, next: TableDesign): seq<Sql> {
    (if OldName(was, next) != next.name then [RenameTo(OldName(was, next), next.name)] else [])
    + On(next.name, InPlaceSteps(was, next))
  }

  const TEMP: string := "_reach_new_"

  function TempName(next: TableDesign): string {
    TEMP + next.name
  }

  /** The table as the rebuild first creates it. */
  function Shape(next: TableDesign): TableDesign {
    next.(name := TempName(next), originalName := None, indexes := [], triggers := [])
  }

  /** Is the value of this new column copied from the loaded table? */
  predicate IsCopied(was: seq<ColumnDef>, n: ColumnDef) {
    n.generated.None? && Lookup(was, n.original).Some? && Lookup(was, n.original).value.generated.None?
  }

  /** From and to, for every column that is copied. */
  function CopiedPairs(was: seq<ColumnDef>, cs: seq<ColumnDef>): seq<(string, string)> {
    if cs == [] then []
    else (if IsCopied(was, cs[0]) then [(cs[0].original.value, cs[0].name)] else []) + CopiedPairs(was, cs[1..])
  }

  function RebuildBody(was: TableDesign, next: TableDesign): seq<Sql> {
    var pairs := CopiedPairs(was.columns, next.columns);
    [Create(Shape(next))]
    + (if pairs == [] then [] else [Copy(OldName(was, next), TempName(next), pairs)])
    + [DropTable(OldName(was, next)), RenameTo(TempName(next), next.name)]
    + On(next.name, AddIndexes(next.indexes) + AddTriggers(next.triggers))
    + [CheckForeignKeys]
  }

  function AlterSqlite(was: TableDesign, next: TableDesign): Result<SqlitePlan, DesignError> {
    var valid :- Validate(next);
    if Shortcut(was, next) then Ok(InPlace(InPlaceBody(was, next)))
    else
      var shape :- Validate(Shape(next));
      Ok(Rebuild(RebuildBody(was, next)))
  }

  // ------------------------------------------------------------------ the database's side

  type Db = map<string, Tbl>

  /** A renamed table takes along the foreign keys that refer to it; there is but one schema. */
  function Retarget(t: Tbl, name: string, to: string): Tbl {
    t.(fks := RetargetKeys(true, t.fks, None, name, to))
  }

  function RetargetAll(db: Db, name: string, to: string): Db {
    map k | k in db :: Retarget(db[k], name, to)
  }

  /** Foreign keys after these steps on the table they refer to: they follow a column that is renamed. */
  function FollowKeys(fks: map<string, ForeignKeyBody>, table: string, steps: seq<Step>): map<string, ForeignKeyBody>
    decreases |steps|
  {
    if steps == [] then fks
    else
      var s := steps[0];
      FollowKeys(if s.RenameColumn? then RetargetColumn(true, fks, None, table, s.name, s.to)
        else fks, table, steps[1..])
  }

  function Follow(t: Tbl, table: string, steps: seq<Step>): Tbl {
    t.(fks := FollowKeys(t.fks, table, steps))
  }

  function FollowAll(db: Db, table: string, steps: seq<Step>): Db {
    map k | k in db :: Follow(db[k], table, steps)
  }

  predicate RefersToTable(t: Tbl, name: string) {
    exists k :: k in t.fks && PointsAt(true, t.fks[k], None, name)
  }

  /** A table or an index of the database bears this name; SQLite compares names without case. */
  predicate NameTaken(db: Db, name: string) {
    exists k :: k in db && (Lower(k) == Lower(name) || IndexLike(db[k], name))
  }

  /** No two columns are called alike. */
  predicate ColumnsOneCase(cs: seq<ColumnDef>) {
    forall i, j :: 0 <= i < j < |cs| ==> Lower(cs[i].name) != Lower(cs[j].name)
  }

  /** No other table, nor an index of one, bears this name. */
  predicate FreeElsewhere(db: Db, table: string, name: string) {
    forall k :: k in db && k != table ==> Lower(k) != Lower(name) && !IndexLike(db[k], name)
  }

  predicate TriggerFreeElsewhere(db: Db, table: string, name: string) {
    forall k :: k in db && k != table ==> !TriggerLike(db[k], name)
  }

  /** What a step makes is called like nothing of another table. */
  predicate StepFreeElsewhere(db: Db, table: string, s: Step) {
    && (s.AddIndex? ==> FreeElsewhere(db, table, s.index.name))
    && (s.AddTrigger? ==> TriggerFreeElsewhere(db, table, s.trigger.name))
  }

  predicate AllFreeElsewhere(db: Db, table: string, steps: seq<Step>) {
    forall i :: 0 <= i < |steps| ==> StepFreeElsewhere(db, table, steps[i])
  }

  /** A column may hold these values: a NOT NULL one holds no NULL, unless SQLite assigns the value itself. */
  predicate Accepts(a: Attr, values: seq<Value>) {
    a.notNull && !a.identity && a.generated.None? ==> forall i :: 0 <= i < |values| ==> values[i].Some?
  }

  /** What INSERT … SELECT puts in a column of the target. */
  function CopiedInto(t: Tbl, source: Tbl, pairs: seq<(string, string)>, name: string): seq<Value>
    requires name in t.cols
  {
    if pairs == [] then Fill(t.cols[name].attr, source.count)
    else if pairs[0].1 == name && pairs[0].0 in source.cols then source.cols[pairs[0].0].values
    else CopiedInto(t, source, pairs[1..], name)
  }

  function CopyRows(t: Tbl, source: Tbl, pairs: seq<(string, string)>): Option<Tbl> {
    if !(forall i :: 0 <= i < |pairs| ==> pairs[i].0 in source.cols && pairs[i].1 in t.cols)
      || !(forall q :: q in t.cols ==> Accepts(t.cols[q].attr, CopiedInto(t, source, pairs, q)))
    then None
    else Some(t.(count := t.count + source.count,
                 cols := map q | q in t.cols :: t.cols[q].(values := t.cols[q].values
                   + CopiedInto(t, source, pairs, q))))
  }

  function ExecSql(db: Db, enforced: bool, s: Sql): Option<Db> {
    match s
    case Create(shape) =>
      if NameTaken(db, shape.name) || shape.columns == [] || !ColumnsOneCase(shape.columns) then None
      else Some(db[shape.name := TableOf(Sqlite, shape, map[], 0)])
    case Copy(source, target, pairs) =>
      if source !in db || target !in db then None
      else
        var u := CopyRows(db[target], db[source], pairs);
        if u.None? then None else Some(db[target := u.value])
    case DropTable(name) =>
      // With foreign keys enforced the drop deletes rows first, and what refers to them decides what happens.
      if name !in db || (enforced && exists k :: k in db && k != name && RefersToTable(db[k], name)) then None
      else Some(db - {name})
    case RenameTo(name, to) =>
      if name !in db || NameTaken(db, to) then None
      else
        var u := RetargetAll(db, name, to);
        Some((u - {name})[to := u[name].(name := to)])
    case OnTable(table, step) =>
      if table !in db || !StepFreeElsewhere(db, table, step) then None
      else
        var u := Exec(Sqlite, db[table], step);
        if u.None? then None else Some(FollowAll(db, table, [step])[table := u.value])
    case CheckForeignKeys => Some(db)
  }

  function RunSql(db: Db, enforced: bool, body: seq<Sql>): Option<Db>
    decreases |body|
  {
    if body == [] then Some(db)
    else
      match ExecSql(db, enforced, body[0])
      case None => None
      case Some(d) => RunSql(d, enforced, body[1..])
  }

  lemma {:induction false} RunSqlAppend(db: Db, enforced: bool, a: seq<Sql>, b: seq<Sql>)
    ensures RunSql(db, enforced, a + b) ==
      match RunSql(db, enforced, a) case None => None case Some(d) => RunSql(d, enforced, b)
    decreases |a|
  {
    hide ExecSql;
    if a == [] {
      assert a + b == b;
    } else {
      assert (a + b)[1..] == a[1..] + b;
      var d := ExecSql(db, enforced, a[0]);
      if d.Some? {
        RunSqlAppend(d.value, enforced, a[1..], b);
      }
    }
  }

  lemma RunSqlOne(db: Db, enforced: bool, s: Sql)
    ensures RunSql(db, enforced, [s]) == ExecSql(db, enforced, s)
  {
    hide ExecSql;
    assert [s][1..] == [];
    var d := ExecSql(db, enforced, s);
    if d.Some? {
      assert RunSql(d.value, enforced, []) == d;
    }
  }

  lemma FollowOne(fks: map<string, ForeignKeyBody>, table: string, steps: seq<Step>)
    requires steps != []
    ensures FollowKeys(FollowKeys(fks, table, [steps[0]]), table, steps[1..]) == FollowKeys(fks, table, steps)
  {
    hide RetargetColumn;
    assert [steps[0]][1..] == [];
    var s := steps[0];
    var mid := if s.RenameColumn? then RetargetColumn(true, fks, None, table, s.name, s.to) else fks;
    assert FollowKeys(fks, table, [s]) == FollowKeys(mid, table, []);
  }

  lemma FollowAllOne(db: Db, table: string, steps: seq<Step>, u: Tbl, v: Tbl)
    requires steps != []
    ensures FollowAll(FollowAll(db, table, [steps[0]])[table := u], table, steps[1..])[table := v] ==
      FollowAll(db, table, steps)[table := v]
  {
    hide FollowKeys;
    forall k | k in db
      ensures Follow(Follow(db[k], table, [steps[0]]), table, steps[1..]) == Follow(db[k], table, steps)
    {
      FollowOne(db[k].fks, table, steps);
    }
  }

  lemma FreeElsewhereStill(db: Db, table: string, s: Step, u: Tbl, rest: seq<Step>)
    requires table in db && AllFreeElsewhere(db, table, rest)
    ensures AllFreeElsewhere(FollowAll(db, table, [s])[table := u], table, rest)
  {
    hide FollowKeys;
    var mid := FollowAll(db, table, [s])[table := u];
    forall i | 0 <= i < |rest|
      ensures StepFreeElsewhere(mid, table, rest[i])
    {
      assert StepFreeElsewhere(db, table, rest[i]);
    }
  }

  /** Steps on one table touch that table and the foreign keys that refer to it. */
  lemma {:induction false} RunOn(db: Db, enforced: bool, table: string, steps: seq<Step>)
    requires table in db && AllFreeElsewhere(db, table, steps)
    ensures RunSql(db, enforced, On(table, steps)) ==
      match Run(Sqlite, steps, db[table])
      case None => None
      case Some(u) => Some(FollowAll(db, table, steps)[table := u])
    decreases |steps|
  {
    hide Exec, FollowAll, StepFreeElsewhere, AllFreeElsewhere;
    if steps == [] {
      FollowNothing(db, table);
      assert db[table := db[table]] == db;
    } else {
      assert On(table, steps)[1..] == On(table, steps[1..]);
      FreeHead(db, table, steps);
      var u := Exec(Sqlite, db[table], steps[0]);
      if u.Some? {
        var mid := FollowAll(db, table, [steps[0]])[table := u.value];
        FreeElsewhereStill(db, table, steps[0], u.value, steps[1..]);
        RunOn(mid, enforced, table, steps[1..]);
        var v := Run(Sqlite, steps[1..], u.value);
        if v.Some? {
          FollowAllOne(db, table, steps, u.value, v.value);
        }
      }
    }
  }

  lemma FreeHead(db: Db, table: string, steps: seq<Step>)
    requires steps != [] && AllFreeElsewhere(db, table, steps)
    ensures StepFreeElsewhere(db, table, steps[0]) && AllFreeElsewhere(db, table, steps[1..])
  {
    hide StepFreeElsewhere;
    forall i | 0 <= i < |steps[1..]|
      ensures StepFreeElsewhere(db, table, steps[1..][i])
    {
      assert steps[1..][i] == steps[i + 1];
    }
  }

  lemma FollowNothing(db: Db, table: string)
    ensures FollowAll(db, table, []) == db
  {
    forall k | k in db
      ensures Follow(db[k], table, []) == db[k]
    {
    }
  }

  lemma RetargetIdle(t: Tbl, name: string, to: string)
    requires !RefersToTable(t, name)
    ensures Retarget(t, name, to) == t
  {
    assert RetargetKeys(true, t.fks, None, name, to) == t.fks;
  }

  lemma RetargetAllIdle(db: Db, name: string, to: string)
    requires forall k :: k in db ==> !RefersToTable(db[k], name)
    ensures RetargetAll(db, name, to) == db
  {
    hide Retarget, RefersToTable;
    forall k | k in db
      ensures RetargetAll(db, name, to)[k] == db[k]
    {
      RetargetIdle(db[k], name, to);
    }
  }
}
