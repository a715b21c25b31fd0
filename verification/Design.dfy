/**
 The table designer: what a table looks like while it is edited, and the DDL
 steps from the loaded table to the edited one. `original` is what a part was
 called when loaded, so that renaming it is not mistaken for making it anew.
 */
module Design {
  import opened Prelude
  import opened Engines
  import opened Numbers

  datatype ColumnDef = ColumnDef(
    original: Option<string>, name: string, dataType: string, length: Option<nat>, scale: Option<nat>, notNull: bool,
    initial: Option<string>, autoIncrement: bool, comment: Option<string>, collation: Option<string>, unsigned: bool,
    onUpdate: Option<string>, generated: Option<string>, generatedStored: bool, defaultConstraint: Option<string>)

  datatype IndexColumn = IndexColumn(name: string, descending: bool, length: Option<nat>)

  datatype IndexDef = IndexDef(
    original: Option<string>, name: string, columns: seq<IndexColumn>, unique: bool, constraint: bool,
    kind: Option<string>, whereClause: Option<string>, comment: Option<string>)

  datatype ForeignKeyDef = ForeignKeyDef(
    original: Option<string>, name: string, columns: seq<string>, refSchema: Option<string>, refTable: string,
    refColumns: seq<string>, onDelete: Option<string>, onUpdate: Option<string>)

  datatype CheckDef = CheckDef(original: Option<string>, name: string, expression: string)

  datatype TriggerDef = TriggerDef(original: Option<string>, name: string, definition: string)

  datatype TableOptions = TableOptions(
    engine: Option<string>, charset: Option<string>, collation: Option<string>, autoIncrement: Option<nat>)

  datatype TableDesign = TableDesign(
    schema: Option<string>, originalName: Option<string>, name: string, columns: seq<ColumnDef>,
      primaryKey: seq<string>,
    primaryKeyName: Option<string>, indexes: seq<IndexDef>, foreignKeys: seq<ForeignKeyDef>, checks: seq<CheckDef>,
    triggers: seq<TriggerDef>, comment: Option<string>, options: TableOptions)

  datatype DesignError =
    | NoTableName | NoColumns | NoColumnName | NoColumnType | DuplicateColumn | KeyNotAColumn
    | UnnamedKey | CannotRegenerate

  // ------------------------------------------------------------------ texts

  function NonEmpty(s: Option<string>): Option<string> {
    if s.Some? && s.value != "" then s else None
  }

  function NonBlank(s: Option<string>): Option<string> {
    if s.Some? && !IsBlank(s.value) then s else None
  }

  /** The type as the engine is told it, length and scale included. */
  function TypeSql(c: ColumnDef): string {
    Trim(c.dataType) +
    if c.length.Some? && c.scale.Some? then "(" + Number(c.length.value) + "," + Number(c.scale.value) + ")"
    else if c.length.Some? then "(" + Number(c.length.value) + ")"
    else ""
  }

  function LowerOpt(s: Option<string>): Option<string> {
    if s.Some? then Some(Lower(s.value)) else None
  }

  /** A referential action; `NO ACTION` is the same as none. */
  function Action(s: Option<string>): Option<string> {
    if s.Some? && Upper(s.value) != "NO ACTION" then Some(Upper(s.value)) else None
  }

  // ------------------------------------------------------------------ comparing parts

  predicate SameDefinition(a: ColumnDef, b: ColumnDef) {
    && Lower(TypeSql(a)) == Lower(TypeSql(b))
    && a.notNull == b.notNull
    && a.initial == b.initial
    && a.autoIncrement == b.autoIncrement
    && a.collation == b.collation
    && a.unsigned == b.unsigned
    && a.onUpdate == b.onUpdate
    && a.generated == b.generated
    && a.generatedStored == b.generatedStored
  }

  predicate SameIndex(a: IndexDef, b: IndexDef) {
    && a.name == b.name
    && a.columns == b.columns
    && a.unique == b.unique
    && a.constraint == b.constraint
    && LowerOpt(a.kind) == LowerOpt(b.kind)
    && a.whereClause == b.whereClause
    && a.comment == b.comment
  }

  predicate SameForeignKey(a: ForeignKeyDef, b: ForeignKeyDef) {
    && a.name == b.name
    && a.columns == b.columns
    && a.refSchema == b.refSchema
    && a.refTable == b.refTable
    && a.refColumns == b.refColumns
    && Action(a.onDelete) == Action(b.onDelete)
    && Action(a.onUpdate) == Action(b.onUpdate)
  }

  predicate SameCheck(a: CheckDef, b: CheckDef) {
    a.expression == b.expression && a.name == b.name
  }

  predicate SameTrigger(a: TriggerDef, b: TriggerDef) {
    Trim(a.definition) == Trim(b.definition)
  }

  // ------------------------------------------------------------------ the parts of a table, seen alike

  /** What the four kinds of named part have in common: a name, the name when loaded, and a notion of sameness. */
  datatype Kind<!T, !B> = Kind(name: T -> string, original: T -> Option<string>, same: (T, T) -> bool, body: T -> B)

  /** Was this part of the old design kept unchanged in the new one? */
  predicate Kept<T, B>(k: Kind<T, B>, news: seq<T>, o: T) {
    exists i :: 0 <= i < |news| && k.original(news[i]) == Some(k.name(o)) && k.same(o, news[i])
  }

  /** Is this part of the new design one the old design already had? */
  predicate Unchanged<T, B>(k: Kind<T, B>, olds: seq<T>, n: T) {
    exists i :: 0 <= i < |olds| && k.original(n) == Some(k.name(olds[i])) && k.same(olds[i], n)
  }

  /** The parts to drop. */
  function Removed<T, B>(k: Kind<T, B>, olds: seq<T>, news: seq<T>): seq<T> {
    if olds == [] then []
    else (if Kept(k, news, olds[0]) then [] else [olds[0]]) + Removed(k, olds[1..], news)
  }

  /** The parts to add. */
  function Added<T, B>(k: Kind<T, B>, olds: seq<T>, news: seq<T>): seq<T> {
    if news == [] then []
    else (if Unchanged(k, olds, news[0]) then [] else [news[0]]) + Added(k, olds, news[1..])
  }

  // ------------------------------------------------------------------ steps

  /** Where a MySQL column is put. */
  datatype Position = Anywhere | First | After(column: string)

  datatype Step =
    | RenameTable(to: string)
    | DropConstraint(name: string)
    | DropForeignKey(name: string)
    | DropIndex(name: string)
    | DropCheck(name: string)
    | DropTrigger(name: string)
    | DropPrimaryKey
    | DropDefault(constraint: string)
    | DropColumn(name: string)
    | AddColumn(column: ColumnDef, position: Position)
    | RenameColumn(name: string, to: string)
    | ChangeColumn(name: string, column: ColumnDef, position: Position)
    | SetType(name: string, ty: string, collation: Option<string>)
    | SetNotNull(name: string, notNull: bool)
    | SetDefault(name: string, value: Option<string>)
    | SetIdentity(name: string, identity: bool)
    | SetComment(name: string, comment: Option<string>)
    | AlterColumn(name: string, ty: string, collation: Option<string>, notNull: bool)
    | AddDefault(name: string, initial: string)
    | AddPrimaryKey(keyName: Option<string>, columns: seq<string>)
    | AddCheck(check: CheckDef)
    | AddIndex(index: IndexDef)
    | AddForeignKey(key: ForeignKeyDef)
    | AddTrigger(trigger: TriggerDef)
    | SetTableComment(comment: Option<string>)
    | SetOptions(options: TableOptions, text: Option<string>)

  datatype Plan = Plan(steps: seq<Step>, transactional: bool)

  // ------------------------------------------------------------------ validation

  /** The columns one after the other, with the names already seen. */
  function ValidateColumns(cs: seq<ColumnDef>, seen: set<string>): Result<(), DesignError> {
    if cs == [] then Ok(())
    else if IsBlank(cs[0].name) then Err(NoColumnName)
    else if IsBlank(cs[0].dataType) && cs[0].generated.None? then Err(NoColumnType)
    else if Lower(cs[0].name) in seen then Err(DuplicateColumn)
    else ValidateColumns(cs[1..], seen + {Lower(cs[0].name)})
  }

  predicate IsColumn(t: TableDesign, name: string) {
    exists i :: 0 <= i < |t.columns| && t.columns[i].name == name
  }

  function Validate(t: TableDesign): Result<(), DesignError> {
    if IsBlank(t.name) then Err(NoTableName)
    else if t.columns == [] then Err(NoColumns)
    else
      var columns :- ValidateColumns(t.columns, {});
      if forall i :: 0 <= i < |t.primaryKey| ==> IsColumn(t, t.primaryKey[i]) then Ok(()) else Err(KeyNotAColumn)
  }

  // ------------------------------------------------------------------ the plan

  const FK: Kind<ForeignKeyDef, ForeignKeyBody> :=
    Kind((x: ForeignKeyDef) => x.name, (x: ForeignKeyDef) => x.original,
         (a: ForeignKeyDef, b: ForeignKeyDef) => SameForeignKey(a, b), (x: ForeignKeyDef) => BodyOfForeignKey(x))

  const IX: Kind<IndexDef, IndexBody> :=
    Kind((x: IndexDef) => x.name, (x: IndexDef) => x.original,
         (a: IndexDef, b: IndexDef) => SameIndex(a, b), (x: IndexDef) => BodyOfIndex(x))

  const CK: Kind<CheckDef, string> :=
    Kind((x: CheckDef) => x.name, (x: CheckDef) => x.original,
         (a: CheckDef, b: CheckDef) => SameCheck(a, b), (x: CheckDef) => x.expression)

  const TR: Kind<TriggerDef, string> :=
    Kind((x: TriggerDef) => x.name, (x: TriggerDef) => x.original,
         (a: TriggerDef, b: TriggerDef) => SameTrigger(a, b), (x: TriggerDef) => Trim(x.definition))

  /** A foreign key as the database keeps it. */
  datatype ForeignKeyBody = ForeignKeyBody(
    columns: seq<string>, refSchema: Option<string>, refTable: string, refColumns: seq<string>,
      onDelete: Option<string>, onUpdate: Option<string>)

  function BodyOfForeignKey(x: ForeignKeyDef): ForeignKeyBody {
    ForeignKeyBody(x.columns, NonEmpty(x.refSchema), x.refTable, x.refColumns, NonEmpty(Action(x.onDelete)),
      NonEmpty(Action(x.onUpdate)))
  }

  /** An index as the database keeps it. */
  datatype IndexBody = IndexBody(
    columns: seq<IndexColumn>, unique: bool, constraint: bool, kind: Option<string>, whereClause: Option<string>,
      comment: Option<string>)

  function BodyOfIndex(x: IndexDef): IndexBody {
    IndexBody(x.columns, x.unique, x.constraint, LowerOpt(x.kind), NonBlank(x.whereClause), NonEmpty(x.comment))
  }

  predicate KeepsConstraints(e: Engine) {
    e.Postgres? || e.Mssql?
  }

  function DropForeignKeys(e: Engine, xs: seq<ForeignKeyDef>): seq<Step> {
    if xs == [] then []
    else
      var s := if e.IsMysqlFamily() then DropForeignKey(xs[0].name) else DropConstraint(xs[0].name);
      [s] + DropForeignKeys(e, xs[1..])
  }

  function DropIndexStep(e: Engine, x: IndexDef): Step {
    if x.constraint && KeepsConstraints(e) then DropConstraint(x.name) else DropIndex(x.name)
  }

  function DropIndexes(e: Engine, xs: seq<IndexDef>): seq<Step> {
    if xs == [] then [] else [DropIndexStep(e, xs[0])] + DropIndexes(e, xs[1..])
  }

  function DropChecks(e: Engine, xs: seq<CheckDef>): seq<Step> {
    if xs == [] then []
    else [if e.Mysql? then DropCheck(xs[0].name) else DropConstraint(xs[0].name)] + DropChecks(e, xs[1..])
  }

  function DropTriggers(xs: seq<TriggerDef>): seq<Step> {
    if xs == [] then [] else [DropTrigger(xs[0].name)] + DropTriggers(xs[1..])
  }

  function DropKey(e: Engine, was: TableDesign, next: TableDesign): Result<seq<Step>, DesignError> {
    if was.primaryKey == next.primaryKey || was.primaryKey == [] then Ok([])
    else if e.IsMysqlFamily() then Ok([DropPrimaryKey])
    else if was.primaryKeyName.Some? then Ok([DropConstraint(was.primaryKeyName.value)])
    else Err(UnnamedKey)
  }

  /** Does a column of `news` carry the loaded column `name`? */
  predicate IsKept(news: seq<ColumnDef>, name: string) {
    exists i :: 0 <= i < |news| && news[i].original == Some(name)
  }

  function DropColumns(e: Engine, olds: seq<ColumnDef>, news: seq<ColumnDef>): seq<Step> {
    if olds == [] then []
    else
      (if IsKept(news, olds[0].name) then []
       else (if e.Mssql? && olds[0].defaultConstraint.Some? then [DropDefault(olds[0].defaultConstraint.value)] else [])
            + [DropColumn(olds[0].name)])
      + DropColumns(e, olds[1..], news)
  }

  /** The offset of the column called `name`, or the length of the list. */
  function ColumnAt(cs: seq<ColumnDef>, name: string): (n: nat)
    ensures n <= |cs|
    ensures n < |cs| ==> cs[n].name == name
    ensures forall i :: 0 <= i < n ==> cs[i].name != name
  {
    if cs == [] || cs[0].name == name then 0 else 1 + ColumnAt(cs[1..], name)
  }

  function Lookup(cs: seq<ColumnDef>, name: Option<string>): Option<ColumnDef> {
    if name.None? || ColumnAt(cs, name.value) == |cs| then None else Some(cs[ColumnAt(cs, name.value)])
  }

  /** The comment step PostgreSQL and SQL Server need. */
  function CommentChange(was: Option<string>, next: Option<string>): bool {
    NonEmpty(was) != NonEmpty(next)
  }

  function CommentSteps(e: Engine, name: string, was: Option<string>, next: Option<string>): seq<Step> {
    if KeepsConstraints(e) && CommentChange(was, next) then [SetComment(name, NonEmpty(next))] else []
  }

  function When(b: bool, s: Step): seq<Step> {
    if b then [s] else []
  }

  function AlterMysql(o: ColumnDef, n: ColumnDef, position: Position): seq<Step> {
    When(o.name != n.name || !SameDefinition(o, n) || o.comment != n.comment || position != Anywhere,
      ChangeColumn(o.name, n, position))
  }

  predicate SameType(o: ColumnDef, n: ColumnDef) {
    Lower(TypeSql(o)) == Lower(TypeSql(n)) && o.collation == n.collation
  }

  function AlterPostgres(o: ColumnDef, n: ColumnDef): Result<seq<Step>, DesignError> {
    if o.generated != n.generated || o.generatedStored != n.generatedStored then Err(CannotRegenerate)
    else Ok(
      When(o.name != n.name, RenameColumn(o.name, n.name))
      + When(!SameType(o, n), SetType(n.name, TypeSql(n), NonEmpty(n.collation)))
      + When(o.notNull != n.notNull, SetNotNull(n.name, n.notNull))
      + When(o.initial != n.initial, SetDefault(n.name, NonBlank(n.initial)))
      + When(o.autoIncrement != n.autoIncrement, SetIdentity(n.name, n.autoIncrement))
      + CommentSteps(Postgres, n.name, o.comment, n.comment))
  }

  function AlterMssql(o: ColumnDef, n: ColumnDef): Result<seq<Step>, DesignError> {
    if o.autoIncrement != n.autoIncrement || o.generated != n.generated then Err(CannotRegenerate)
    else Ok(
      When(o.name != n.name, RenameColumn(o.name, n.name))
      + When(!SameType(o, n) || o.notNull != n.notNull,
        AlterColumn(n.name, TypeSql(n), NonEmpty(n.collation), n.notNull))
      + (if o.initial == n.initial then []
         else (if o.defaultConstraint.Some? then [DropDefault(o.defaultConstraint.value)] else [])
              + (if NonBlank(n.initial).Some? then [AddDefault(n.name, NonBlank(n.initial).value)] else []))
      + CommentSteps(Mssql, n.name, o.comment, n.comment))
  }

  function AlterOne(e: Engine, o: ColumnDef, n: ColumnDef, position: Position): Result<seq<Step>, DesignError> {
    if e.IsMysqlFamily() then Ok(AlterMysql(o, n, position))
    else if e.Mssql? then AlterMssql(o, n)
    else AlterPostgres(o, n)
  }

  /**
   The name of the column before `pos` in the loaded table: `Some(None)` when it stood
   first, `None` when it is new.
   */
  function OldPrevious(was: seq<ColumnDef>, c: ColumnDef): Option<Option<string>> {
    if c.original.None? || ColumnAt(was, c.original.value) == |was| then None
    else
      var i := ColumnAt(was, c.original.value);
      Some(if i == 0 then None else Some(was[i - 1].name))
  }

  /** Where MySQL is told to put a column: nowhere in particular unless it was moved, or is new and not the last. */
  function MysqlPosition(e: Engine, was: seq<ColumnDef>, news: seq<ColumnDef>, pos: nat): Position
    requires pos < |news|
  {
    if !e.IsMysqlFamily() then Anywhere
    else
      var before := OldPrevious(was, news[pos]);
      var moved := before.Some? && (if pos == 0 then before.value.Some? else before.value != news[pos - 1].original);
      var newNotLast := news[pos].original.None? && pos + 1 < |news|;
      if !moved && !newNotLast then Anywhere
      else if pos == 0 then First
      else After(news[pos - 1].name)
  }

  /** The steps for the column at `pos`. */
  function ColumnSteps(e: Engine, was: seq<ColumnDef>, news: seq<ColumnDef>, pos: nat): Result<seq<Step>, DesignError>
    requires pos < |news|
  {
    var n, position := news[pos], MysqlPosition(e, was, news, pos);
    match Lookup(was, n.original)
    case None => Ok([AddColumn(n, position)] + CommentSteps(e, n.name, None, n.comment))
    case Some(o) => AlterOne(e, o, n, position)
  }

  /** The steps for every column from `pos` on. */
  function AlterColumns(e: Engine, was: seq<ColumnDef>, news: seq<ColumnDef>, pos: nat): Result<seq<Step>, DesignError>
    requires pos <= |news|
    decreases |news| - pos
  {
    if pos == |news| then Ok([])
    else
      var first :- ColumnSteps(e, was, news, pos);
      var rest :- AlterColumns(e, was, news, pos + 1);
      Ok(first + rest)
  }

  function AddKey(e: Engine, was: TableDesign, next: TableDesign): seq<Step> {
    When(was.primaryKey != next.primaryKey && next.primaryKey != [],
         AddPrimaryKey(if KeepsConstraints(e) then NonEmpty(next.primaryKeyName) else None, next.primaryKey))
  }

  function AddChecks(xs: seq<CheckDef>): seq<Step> {
    if xs == [] then [] else [AddCheck(xs[0])] + AddChecks(xs[1..])
  }

  function AddIndexes(xs: seq<IndexDef>): seq<Step> {
    if xs == [] then [] else [AddIndex(xs[0])] + AddIndexes(xs[1..])
  }

  function AddForeignKeys(xs: seq<ForeignKeyDef>): seq<Step> {
    if xs == [] then [] else [AddForeignKey(xs[0])] + AddForeignKeys(xs[1..])
  }

  /** Triggers are created from their text; one without any is not. */
  function AddTriggers(xs: seq<TriggerDef>): seq<Step> {
    if xs == [] then [] else When(!IsBlank(xs[0].definition), AddTrigger(xs[0])) + AddTriggers(xs[1..])
  }

  /** MySQL restates the options that changed. */
  function OptionsChange(was: TableDesign, next: TableDesign): seq<Step> {
    var o, n := was.options, next.options;
    var engine := if o.engine != n.engine then NonEmpty(n.engine) else None;
    var charsetChanged := o.charset != n.charset || o.collation != n.collation;
    var charset := if charsetChanged then NonEmpty(n.charset) else None;
    var collation := if charsetChanged then NonEmpty(n.collation) else None;
    var autoIncrement := if o.autoIncrement != n.autoIncrement then n.autoIncrement else None;
    var comment := if was.comment != next.comment then Some(if next.comment.Some? then next.comment.value else "")
      else None;
    When(engine.Some? || charset.Some? || collation.Some? || autoIncrement.Some? || comment.Some?,
         SetOptions(TableOptions(engine, charset, collation, autoIncrement), comment))
  }

  function TableComment(e: Engine, was: TableDesign, next: TableDesign): seq<Step> {
    if e.IsMysqlFamily() then OptionsChange(was, next)
    else When(KeepsConstraints(e) && CommentChange(was.comment, next.comment), SetTableComment(NonEmpty(next.comment)))
  }

  function OldName(was: TableDesign, next: TableDesign): string {
    if next.originalName.Some? then next.originalName.value else was.name
  }

  /** The drops of every changed foreign key, index, check and trigger, which precede those of columns. */
  function DropParts(e: Engine, was: TableDesign, next: TableDesign): seq<Step> {
    DropForeignKeys(e, Removed(FK, was.foreignKeys, next.foreignKeys))
    + DropIndexes(e, Removed(IX, was.indexes, next.indexes))
    + DropChecks(e, Removed(CK, was.checks, next.checks))
    + DropTriggers(Removed(TR, was.triggers, next.triggers))
  }

  function AddParts(e: Engine, was: TableDesign, next: TableDesign): seq<Step> {
    AddKey(e, was, next)
    + AddChecks(Added(CK, was.checks, next.checks))
    + AddIndexes(Added(IX, was.indexes, next.indexes))
    + AddForeignKeys(Added(FK, was.foreignKeys, next.foreignKeys))
    + AddTriggers(Added(TR, was.triggers, next.triggers))
  }

  /** The steps that turn `was` into `next`, on every engine but SQLite. */
  function AlterSteps(e: Engine, was: TableDesign, next: TableDesign): Result<seq<Step>, DesignError> {
    var dropKey :- DropKey(e, was, next);
    var columns :- AlterColumns(e, was.columns, next.columns, 0);
    Ok(When(OldName(was, next) != next.name, RenameTable(next.name))
       + DropParts(e, was, next) + dropKey
       + DropColumns(e, was.columns, next.columns) + columns
       + AddParts(e, was, next) + TableComment(e, was, next))
  }

  function AlterTable(e: Engine, was: TableDesign, next: TableDesign): Result<Plan, DesignError> {
    var valid :- Validate(next);
    var steps :- AlterSteps(e, was, next);
    Ok(Plan(steps, KeepsConstraints(e)))
  }
}
