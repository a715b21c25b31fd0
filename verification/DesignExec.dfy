/**
 A database's side of a plan: an abstract table with its rows, and what each
 DDL step does to it. A step that the database would refuse yields `None`.
 Rows are kept by column: `values[i]` is the value row `i` has there.
 */
module DesignExec {
  import opened Prelude
  import opened Engines
  import opened Design

  type Value = Option<string>

  /**
   A column's definition as the database keeps it; a blank default or comment is none,
   types are folded to lower case.
   */
  datatype Attr = Attr(
    ty: string, notNull: bool, initial: Option<string>, identity: bool, comment: Option<string>,
      collation: Option<string>,
    generated: Option<string>, stored: bool, unsigned: bool, onUpdate: Option<string>, defaultName: Option<string>)

  datatype Column = Column(attr: Attr, values: seq<Value>)

  datatype Key = Key(name: Option<string>, columns: seq<string>)

  /**
   `folds` is whether names are compared without case; `former` is the name a
   rename took away: nothing bears it now.
   */
  datatype Tbl = Tbl(
    folds: bool, schema: Option<string>, former: Option<string>, name: string,
    order: seq<string>, cols: map<string, Column>,
      count: nat, key: Option<Key>,
    indexes: map<string, IndexBody>, fks: map<string, ForeignKeyBody>, checks: map<string, string>,
    triggers: map<string, string>, comment: Option<string>, options: TableOptions)

  // ------------------------------------------------------------------ definitions

  const INTEGER: string := "integer"

  /**
   `inline` marks SQLite's single auto-incrementing key column. A computed column
   of SQL Server has no type of its own; there a default is a named constraint.
   */
  function AttrOf(e: Engine, c: ColumnDef, inline: bool): Attr {
    var generated := NonBlank(c.generated);
    var computed := e.Mssql? && generated.Some?;
    var initial := if generated.Some? then None else NonBlank(c.initial);
    Attr(
      if inline then INTEGER else if computed then "" else Lower(TypeSql(c)),
      !computed && c.notNull,
      initial,
      if e.Sqlite? then inline else !computed && c.autoIncrement,
      if e.Sqlite? then None else NonEmpty(c.comment),
      if computed then None else NonEmpty(c.collation),
      generated,
      generated.Some? && (e.Postgres? || c.generatedStored),
      e.IsMysqlFamily() && c.unsigned,
      if e.IsMysqlFamily() then NonEmpty(c.onUpdate) else None,
      if e.Mssql? && initial.Some? then c.defaultConstraint else None)
  }

  /** The name SQL Server is given for a default. */
  function DefaultName(table: string, column: string): string {
    "DF_" + table + "_" + column
  }

  /** A column as ADD COLUMN makes it: comments are set apart, except on MySQL. */
  function AddedAttr(e: Engine, table: string, c: ColumnDef): Attr {
    var a := AttrOf(e, c, false);
    if e.Mssql? then a.(comment := None, defaultName := if a.initial.Some? then Some(DefaultName(table, c.name))
      else None)
    else if KeepsConstraints(e) then a.(comment := None)
    else a
  }

  /** What a row gets in a column it has no value for; the text of the default stands for its value. */
  function Fill(a: Attr, count: nat): seq<Value> {
    seq(count, i => a.initial)
  }

  /** The values a column of a new design holds: those of the column it was, or its default in every row. */
  function Held(n: ColumnDef, vals: map<string, seq<Value>>, count: nat): seq<Value> {
    if n.original.Some? && n.original.value in vals then vals[n.original.value] else Defaults(n, count)
  }

  function Defaults(n: ColumnDef, count: nat): seq<Value> {
    seq(count, i => if NonBlank(n.generated).Some? then None else NonBlank(n.initial))
  }

  lemma FillIsDefaults(e: Engine, n: ColumnDef, inline: bool, count: nat)
    ensures Fill(AttrOf(e, n, inline), count) == Defaults(n, count)
  {
  }

  /** What every column of the new design holds. */
  function Carried(news: seq<ColumnDef>, vals: map<string, seq<Value>>, count: nat): map<string, seq<Value>> {
    if news == [] then map[] else Carried(news[1..], vals, count)[news[0].name := Held(news[0], vals, count)]
  }

  // ------------------------------------------------------------------ dependents

  predicate IndexUses(b: IndexBody, name: string) {
    exists i :: 0 <= i < |b.columns| && b.columns[i].name == name
  }

  /** A key, index or foreign key refers to the column. */
  predicate Used(t: Tbl, name: string) {
    || (t.key.Some? && name in t.key.value.columns)
    || (exists k :: k in t.indexes && IndexUses(t.indexes[k], name))
    || (exists k :: k in t.fks && name in t.fks[k].columns)
  }

  // ------------------------------------------------------------------ references from a table to itself

  predicate Same(folds: bool, a: string, b: string) {
    if folds then Lower(a) == Lower(b) else a == b
  }

  /** The key refers to the table of that schema and name; one without a schema means its own. */
  predicate PointsAt(folds: bool, b: ForeignKeyBody, schema: Option<string>, name: string) {
    Same(folds, b.refTable, name) && (b.refSchema.None? || b.refSchema == schema)
  }

  predicate ToItself(t: Tbl, b: ForeignKeyBody) {
    PointsAt(t.folds, b, t.schema, t.name)
  }

  /** References follow a table that is renamed. */
  function RetargetKeys(folds: bool, fks: map<string, ForeignKeyBody>, schema: Option<string>, name: string,
    to: string): map<string, ForeignKeyBody>
  {
    map k | k in fks :: if PointsAt(folds, fks[k], schema, name) then fks[k].(refTable := to) else fks[k]
  }

  function Swapped(folds: bool, names: seq<string>, name: string, to: string): (r: seq<string>)
    ensures |r| == |names|
    ensures forall i :: 0 <= i < |names| ==> r[i] == if Same(folds, names[i], name) then to else names[i]
  {
    seq(|names|, i requires 0 <= i < |names| => if Same(folds, names[i], name) then to else names[i])
  }

  /** And a column of it that is. */
  function RetargetColumn(folds: bool, fks: map<string, ForeignKeyBody>, schema: Option<string>, table: string,
    name: string, to: string): map<string, ForeignKeyBody>
  {
    map k | k in fks ::
      if PointsAt(folds, fks[k], schema, table) then fks[k].(refColumns := Swapped(folds, fks[k].refColumns, name, to))
      else fks[k]
  }

  /** The same names, in any order. */
  predicate SameNames(a: seq<string>, b: seq<string>) {
    |a| == |b| && (forall x :: x in a ==> x in b) && (forall x :: x in b ==> x in a)
  }

  function IndexNames(b: IndexBody): (r: seq<string>)
    ensures |r| == |b.columns|
    ensures forall i :: 0 <= i < |r| ==> r[i] == b.columns[i].name
  {
    seq(|b.columns|, i requires 0 <= i < |b.columns| => b.columns[i].name)
  }

  /** An index no two rows agree on. */
  predicate KeyIndex(b: IndexBody) {
    b.constraint || (b.unique && b.whereClause.None?)
  }

  /** On MySQL any index that begins with the columns can be referred to, elsewhere a key of exactly these. */
  predicate Serves(e: Engine, key: bool, columns: seq<string>, names: seq<string>) {
    if e.IsMysqlFamily() then names <= columns else key && SameNames(columns, names)
  }

  predicate Served(e: Engine, key: Option<Key>, indexes: map<string, IndexBody>, names: seq<string>) {
    || (key.Some? && Serves(e, true, key.value.columns, names))
    || (exists k :: k in indexes && Serves(e, KeyIndex(indexes[k]), IndexNames(indexes[k]), names))
  }

  /** Every reference of the table to itself has the key or index it needs. */
  predicate AllServed(e: Engine, t: Tbl) {
    forall k :: k in t.fks && ToItself(t, t.fks[k]) ==> Served(e, t.key, t.indexes, t.fks[k].refColumns)
  }

  /** A reference of the table to itself needs a key of exactly these columns. */
  predicate Needed(t: Tbl, names: seq<string>) {
    exists k :: k in t.fks && ToItself(t, t.fks[k]) && SameNames(names, t.fks[k].refColumns)
  }

  predicate Mentions(folds: bool, names: seq<string>, name: string) {
    exists i :: 0 <= i < |names| && Same(folds, names[i], name)
  }

  /** A reference of the table to itself is to this column. */
  predicate Referred(t: Tbl, name: string) {
    exists k :: k in t.fks && ToItself(t, t.fks[k]) && Mentions(t.folds, t.fks[k].refColumns, name)
  }

  predicate PointedAt(t: Tbl, name: string) {
    exists k :: k in t.fks && PointsAt(t.folds, t.fks[k], t.schema, name)
  }

  /** A foreign key the database would refuse: to a table that is gone, or to columns of its own that are no key. */
  predicate Unfounded(e: Engine, t: Tbl, b: ForeignKeyBody) {
    || (t.former.Some? && PointsAt(t.folds, b, t.schema, t.former.value))
    || (ToItself(t, b) && !Served(e, t.key, t.indexes, b.refColumns))
  }

  predicate IndexFits(t: Tbl, b: IndexBody) {
    forall i :: 0 <= i < |b.columns| ==> b.columns[i].name in t.cols
  }

  predicate ColumnsExist(t: Tbl, names: seq<string>) {
    forall i :: 0 <= i < |names| ==> names[i] in t.cols
  }

  // ------------------------------------------------------------------ names

  /** PostgreSQL and SQL Server keep all of a table's constraints under one set of names. */
  predicate ConstraintTaken(t: Tbl, name: string) {
    || name in t.fks || name in t.checks
    || (name in t.indexes && t.indexes[name].constraint)
    || (t.key.Some? && t.key.value.name == Some(name))
  }

  /**
   An index may not be called this. PostgreSQL names tables, indexes and keys
   apart from one another, SQLite tables and indexes, and without case.
   */
  predicate IndexTaken(e: Engine, t: Tbl, name: string) {
    || name in t.indexes
    || (KeepsConstraints(e) && t.key.Some? && t.key.value.name == Some(name))
    || (e.Postgres? && name == t.name)
    || (e.Sqlite? && (Lower(name) == Lower(t.name) || IndexLike(t, name)))
  }

  /** An index of the table bears this name, but for case. */
  predicate IndexLike(t: Tbl, name: string) {
    exists k :: k in t.indexes && Lower(k) == Lower(name)
  }

  predicate TriggerLike(t: Tbl, name: string) {
    exists k :: k in t.triggers && Lower(k) == Lower(name)
  }

  /** The table may not be called this: a foreign key knows another table of that name, or a part of its own has it. */
  predicate TableTaken(e: Engine, t: Tbl, name: string) {
    || PointedAt(t, name)
    || (e.Postgres? && (name in t.indexes || (t.key.Some? && t.key.value.name == Some(name))))
  }

  /** SQLite compares column names without case, too. */
  predicate ColumnLike(e: Engine, t: Tbl, name: string, but: Option<string>) {
    e.Sqlite? && exists q :: q in t.cols && Some(q) != but && Lower(q) == Lower(name)
  }

  // ------------------------------------------------------------------ what can be written at all

  predicate NamesDiffer(names: seq<string>) {
    forall i, j :: 0 <= i < j < |names| ==> names[i] != names[j]
  }

  /** PostgreSQL has no nameless part; a UNIQUE constraint names each column once and gives no direction. */
  predicate IndexOk(e: Engine, name: string, b: IndexBody) {
    e.Postgres? ==>
      && name != "" && b.columns != []
      && (b.constraint ==> NamesDiffer(IndexNames(b)) && forall i :: 0 <= i < |b.columns| ==> !b.columns[i].descending)
  }

  predicate CheckOk(e: Engine, x: CheckDef) {
    e.Postgres? ==> x.name != "" && !IsBlank(x.expression)
  }

  predicate KeyOk(e: Engine, columns: seq<string>) {
    e.Postgres? ==> NamesDiffer(columns)
  }

  predicate ForeignKeyOk(e: Engine, name: string, b: ForeignKeyBody) {
    && |b.columns| == |b.refColumns|
    && (e.Postgres? ==> name != "" && b.columns != [] && NamesDiffer(b.refColumns))
  }

  /** There is a type before any length. */
  predicate Typed(ty: string) {
    ty != "" && ty[0] != '('
  }

  // ------------------------------------------------------------------ order

  /** The offset of a name in the order, or its length. */
  function Place(order: seq<string>, name: string): (n: nat)
    ensures n <= |order|
    ensures n < |order| ==> order[n] == name
    ensures forall i :: 0 <= i < n ==> order[i] != name
  {
    if order == [] || order[0] == name then 0 else 1 + Place(order[1..], name)
  }

  function Without(order: seq<string>, name: string): seq<string> {
    if order == [] then []
    else (if order[0] == name then [] else [order[0]]) + Without(order[1..], name)
  }

  function Replaced(order: seq<string>, name: string, to: string): (r: seq<string>)
    ensures |r| == |order|
    ensures forall i :: 0 <= i < |order| ==> r[i] == if order[i] == name then to else order[i]
  {
    seq(|order|, i requires 0 <= i < |order| => if order[i] == name then to else order[i])
  }

  function Insert(order: seq<string>, name: string, position: Position): seq<string> {
    match position
    case Anywhere => order + [name]
    case First => [name] + order
    case After(p) =>
      var n := Place(order, p);
      if n == |order| then order + [name] else order[..n + 1] + [name] + order[n + 1..]
  }

  predicate PositionOk(t: Tbl, name: string, position: Position) {
    position.After? ==> position.column in t.cols && position.column != name
  }

  // ------------------------------------------------------------------ renaming

  function RenameIndexColumns(cs: seq<IndexColumn>, name: string, to: string): seq<IndexColumn> {
    if cs == [] then []
    else [if cs[0].name == name then cs[0].(name := to) else cs[0]] + RenameIndexColumns(cs[1..], name, to)
  }

  /** The engine itself carries a rename into the parts that refer to the column. */
  function RenamedParts(t: Tbl, name: string, to: string): Tbl {
    t.(key := if t.key.Some? then Some(t.key.value.(columns := Replaced(t.key.value.columns, name, to))) else None,
       indexes := map k | k in t.indexes :: t.indexes[k].(columns :=
         RenameIndexColumns(t.indexes[k].columns, name, to)),
       fks := RetargetColumn(t.folds, RenameKeyColumns(t.fks, name, to), t.schema, t.name, name, to))
  }

  function RenameKeyColumns(fks: map<string, ForeignKeyBody>, name: string, to: string): map<string, ForeignKeyBody> {
    map k | k in fks :: fks[k].(columns := Replaced(fks[k].columns, name, to))
  }

  function Renamed(t: Tbl, name: string, to: string): Tbl
    requires name in t.cols
  {
    if name == to then t
    else
      RenamedParts(t, name, to).(
        order := Replaced(t.order, name, to),
        cols := (t.cols - {name})[to := t.cols[name]])
  }

  // ------------------------------------------------------------------ columns

  function WithAttr(t: Tbl, name: string, a: Attr): Tbl
    requires name in t.cols
  {
    t.(cols := t.cols[name := t.cols[name].(attr := a)])
  }

  /** What an ALTER COLUMN of one column makes of its definition; `None` when it is refused. */
  function AlterAttr(e: Engine, t: Tbl, a: Attr, s: Step): Option<Attr> {
    match s
    case SetType(_, ty, collation) =>
      // The change is written with USING, which a generated column does not take.
      if a.generated.Some? || !Typed(Lower(ty)) || (a.identity && !Counts(Lower(ty))) then None
      else Some(a.(ty := Lower(ty), collation := collation))
    case SetNotNull(name, notNull) =>
      // A key or identity column stays NOT NULL.
      if !notNull && (a.identity || (t.key.Some? && name in t.key.value.columns)) then None
        else Some(a.(notNull := notNull))
    case SetDefault(_, value) =>
      // An identity or generated column has no default to set or drop.
      if a.identity || a.generated.Some? then None else Some(a.(initial := value))
    case SetIdentity(_, identity) =>
      if identity && (a.identity || !a.notNull || a.initial.Some? || a.generated.Some? || !Counts(a.ty)) then None
        else Some(a.(identity := identity))
    case SetComment(_, comment) => Some(a.(comment := comment))
    case AlterColumn(name, ty, collation, notNull) =>
      // A key or identity column stays NOT NULL; a computed column has no type to alter.
      if a.generated.Some? || (!notNull && (a.identity || (t.key.Some? && name in t.key.value.columns))) then None
      else Some(a.(ty := Lower(ty), collation := collation, notNull := notNull))
    case AddDefault(name, initial) =>
      if a.initial.Some? || a.generated.Some? || a.identity then None
      else Some(a.(initial := Some(initial), defaultName := Some(DefaultName(t.name, name))))
    case _ => Some(a)
  }

  predicate AltersColumn(s: Step) {
    s.SetType? || s.SetNotNull? || s.SetDefault? || s.SetIdentity? || s.SetComment? || s.AlterColumn? || s.AddDefault?
  }

  /** A type PostgreSQL takes for an identity column. */
  predicate Counts(ty: string) {
    ty in {"smallint", "integer", "bigint", "int", "int2", "int4", "int8"}
  }

  /**
   A new column is acceptable. PostgreSQL: it has a type, and an identity column
   is a whole number, NOT NULL, and neither has a default nor is generated.
   SQLite: a NOT NULL column has a default or is generated.
   */
  predicate AttrOk(e: Engine, a: Attr) {
    && (e.Postgres? ==> Typed(a.ty))
    && (e.Postgres? && a.identity ==> Counts(a.ty) && a.notNull && a.initial.None? && a.generated.None?)
    && (e.Sqlite? && a.notNull ==> a.initial.Some? || a.generated.Some?)
  }

  /** Some column's default goes by this name. */
  predicate HasDefault(t: Tbl, constraint: string) {
    exists q :: q in t.cols && t.cols[q].attr.defaultName == Some(constraint)
  }

  /** A default added would bear the name of another. */
  predicate DefaultTaken(t: Tbl, s: Step) {
    match s
    case AddDefault(name, _) => HasDefault(t, DefaultName(t.name, name))
    case _ => false
  }

  function WithoutDefault(c: Column, constraint: string): Column {
    if c.attr.defaultName == Some(constraint) then c.(attr := c.attr.(initial := None, defaultName := None)) else c
  }

  function ExecColumn(e: Engine, t: Tbl, s: Step): Option<Tbl> {
    match s
    case DropDefault(constraint) =>
      if !HasDefault(t, constraint) then None
      else Some(t.(cols := map q | q in t.cols :: WithoutDefault(t.cols[q], constraint)))
    case DropColumn(name) =>
      if name !in t.cols || Used(t, name) || (!e.Sqlite? && Referred(t, name))
        || (!e.Postgres? && |t.order| <= 1) || (e.Mssql? && t.cols[name].attr.defaultName.Some?) then None
      else Some(t.(order := Without(t.order, name), cols := t.cols - {name}))
    case AddColumn(c, position) =>
      var a := AddedAttr(e, t.name, c);
      if c.name in t.cols || ColumnLike(e, t, c.name, None) || !PositionOk(t, c.name, position) || !AttrOk(e, a)
        || (e.Mssql? && a.defaultName.Some? && HasDefault(t, a.defaultName.value)) then None
      else Some(t.(order := Insert(t.order, c.name, position), cols := t.cols[c.name := Column(a, Fill(a, t.count))]))
    case RenameColumn(name, to) =>
      if name !in t.cols || to in t.cols || ColumnLike(e, t, to, Some(name)) then None else Some(Renamed(t, name, to))
    case ChangeColumn(name, c, position) =>
      if name !in t.cols || (name != c.name && c.name in t.cols) then None
      else
        var u := Renamed(t, name, c.name);
        if !PositionOk(u, c.name, position) then None
        else
          var order := if position.Anywhere? then u.order else Insert(Without(u.order, c.name), c.name, position);
          Some(WithAttr(u, c.name, AttrOf(e, c, false)).(order := order))
    case _ =>
      if AltersColumn(s) then
        if s.name !in t.cols || DefaultTaken(t, s) then None
        else
          match AlterAttr(e, t, t.cols[s.name].attr, s)
          case None => None
          case Some(a) => Some(WithAttr(t, s.name, a))
      else Some(t)
  }

  // ------------------------------------------------------------------ named parts

  /**
   What a reference of the table to itself needs is not dropped: PostgreSQL and
   SQL Server keep the key it depends on, MySQL some index that will do.
   */
  predicate LetsGo(e: Engine, t: Tbl, names: seq<string>, u: Tbl) {
    && (KeepsConstraints(e) ==> !Needed(t, names))
    && (e.IsMysqlFamily() ==> AllServed(e, u))
  }

  function ExecDropKey(e: Engine, t: Tbl): Option<Tbl> {
    if t.key.Some? && LetsGo(e, t, t.key.value.columns, t.(key := None)) then Some(t.(key := None)) else None
  }

  function ExecDropIndex(e: Engine, t: Tbl, name: string): Option<Tbl> {
    if name !in t.indexes then None
    else
      var u := t.(indexes := t.indexes - {name});
      if !LetsGo(e, t, IndexNames(t.indexes[name]), u) && (KeyIndex(t.indexes[name]) || e.IsMysqlFamily()) then None
        else Some(u)
  }

  function ExecDropConstraint(e: Engine, t: Tbl, name: string): Option<Tbl> {
    if name in t.fks then Some(t.(fks := t.fks - {name}))
    else if name in t.checks then Some(t.(checks := t.checks - {name}))
    else if t.key.Some? && t.key.value.name == Some(name) then ExecDropKey(e, t)
    else if name in t.indexes && t.indexes[name].constraint then ExecDropIndex(e, t, name)
    else None
  }

  function ExecDrop(e: Engine, t: Tbl, s: Step): Option<Tbl> {
    match s
    case DropConstraint(name) => ExecDropConstraint(e, t, name)
    case DropForeignKey(name) => if name in t.fks then Some(t.(fks := t.fks - {name})) else None
    case DropIndex(name) =>
      if KeepsConstraints(e) && name in t.indexes && t.indexes[name].constraint then None else ExecDropIndex(e, t, name)
    case DropCheck(name) => if name in t.checks then Some(t.(checks := t.checks - {name})) else None
    case DropTrigger(name) => if name in t.triggers then Some(t.(triggers := t.triggers - {name})) else None
    case DropPrimaryKey => ExecDropKey(e, t)
    case _ => Some(t)
  }

  /** MySQL makes an index for a foreign key when none begins with its columns. */
  function KeyIndexFor(columns: seq<string>): IndexBody {
    IndexBody(Ascending(columns), false, false, None, None, None)
  }

  function Ascending(columns: seq<string>): (r: seq<IndexColumn>)
    ensures |r| == |columns|
    ensures forall i :: 0 <= i < |r| ==> r[i] == IndexColumn(columns[i], false, None)
  {
    seq(|columns|, i requires 0 <= i < |columns| => IndexColumn(columns[i], false, None))
  }

  predicate NeedsIndex(e: Engine, key: Option<Key>, indexes: map<string, IndexBody>, columns: seq<string>) {
    e.IsMysqlFamily() && !Served(e, key, indexes, columns)
  }

  function ExecAdd(e: Engine, t: Tbl, s: Step): Option<Tbl> {
    match s
    case AddPrimaryKey(name, columns) =>
      if t.key.Some? || !ColumnsExist(t, columns) || !KeyOk(e, columns)
        || (name.Some? && KeepsConstraints(e) && (ConstraintTaken(t, name.value) || IndexTaken(e, t, name.value)))
      then None else Some(t.(key := Some(Key(name, columns))))
    case AddCheck(x) =>
      if x.name in t.checks || (KeepsConstraints(e) && ConstraintTaken(t, x.name)) || !CheckOk(e, x) then None
      else Some(t.(checks := t.checks[x.name := x.expression]))
    case AddIndex(x) =>
      if IndexTaken(e, t, x.name) || (KeepsConstraints(e) && x.constraint && ConstraintTaken(t, x.name))
        || !IndexFits(t, BodyOfIndex(x)) || !IndexOk(e, x.name, BodyOfIndex(x))
      then None else Some(t.(indexes := t.indexes[x.name := BodyOfIndex(x)]))
    case AddForeignKey(x) =>
      var b, needs := BodyOfForeignKey(x), NeedsIndex(e, t.key, t.indexes, x.columns);
      if x.name in t.fks || (KeepsConstraints(e) && ConstraintTaken(t, x.name)) || !ColumnsExist(t, x.columns)
        || !ForeignKeyOk(e, x.name, b) || Unfounded(e, t, b) || (needs && x.name in t.indexes) then None
      else
        Some(t.(fks := t.fks[x.name := b],
          indexes := if needs then t.indexes[x.name := KeyIndexFor(x.columns)] else t.indexes))
    case AddTrigger(x) =>
      if x.name in t.triggers || (e.Sqlite? && TriggerLike(t, x.name)) then None
      else Some(t.(triggers := t.triggers[x.name := Trim(x.definition)]))
    case _ => Some(t)
  }

  predicate OfColumns(s: Step) {
    s.DropDefault? || s.DropColumn? || s.AddColumn? || s.RenameColumn? || s.ChangeColumn? || AltersColumn(s)
  }

  predicate OfDrops(s: Step) {
    s.DropConstraint? || s.DropForeignKey? || s.DropIndex? || s.DropCheck? || s.DropTrigger? || s.DropPrimaryKey?
  }

  predicate OfAdds(s: Step) {
    s.AddPrimaryKey? || s.AddCheck? || s.AddIndex? || s.AddForeignKey? || s.AddTrigger?
  }

  function ExecRename(e: Engine, t: Tbl, to: string): Option<Tbl> {
    if TableTaken(e, t, to) then None
    else Some(t.(name := to, former := Some(t.name), fks := RetargetKeys(t.folds, t.fks, t.schema, t.name, to)))
  }

  /**
   Storage options after a statement that names some: those it names replace those
   there were. A character set or a collation settles the other one too, as MySQL
   does: one that is not named is the one the engine has for it.
   */
  function Restated(o: TableOptions, s: TableOptions): TableOptions {
    var text := if s.charset.Some? || s.collation.Some? then s else o;
    TableOptions(if s.engine.Some? then s.engine else o.engine, text.charset, text.collation,
      if s.autoIncrement.Some? then s.autoIncrement else o.autoIncrement)
  }

  /** One step. */
  function Exec(e: Engine, t: Tbl, s: Step): Option<Tbl> {
    if OfColumns(s) then ExecColumn(e, t, s)
    else if OfDrops(s) then ExecDrop(e, t, s)
    else if OfAdds(s) then ExecAdd(e, t, s)
    else
      match s
      case RenameTable(to) => ExecRename(e, t, to)
      case SetTableComment(comment) => Some(t.(comment := comment))
      case SetOptions(options, text) =>
        Some(t.(options := Restated(t.options, options), comment := if text.Some? then NonEmpty(text) else t.comment))
      case _ => Some(t)
  }

  /** The steps in order; `None` as soon as one is refused. */
  function Run(e: Engine, steps: seq<Step>, t: Tbl): Option<Tbl> {
    if steps == [] then Some(t)
    else
      match Exec(e, t, steps[0])
      case None => None
      case Some(u) => Run(e, steps[1..], u)
  }

  lemma {:induction false} RunAppend(e: Engine, a: seq<Step>, b: seq<Step>, t: Tbl)
    ensures Run(e, a + b, t) == match Run(e, a, t) case None => None case Some(u) => Run(e, b, u)
  {
    hide Exec;
    if a == [] {
      assert a + b == b;
    } else {
      assert (a + b)[1..] == a[1..] + b;
      var u := Exec(e, t, a[0]);
      if u.Some? {
        RunAppend(e, a[1..], b, u.value);
      }
    }
  }

  lemma RunNothing(e: Engine, t: Tbl)
    ensures Run(e, [], t) == Some(t)
  {
  }

  lemma RunWhen(e: Engine, b: bool, s: Step, t: Tbl)
    ensures Run(e, When(b, s), t) == if b then Exec(e, t, s) else Some(t)
  {
    hide Exec;
    if b {
      assert [s][1..] == [];
      var u := Exec(e, t, s);
      if u.Some? {
        assert Run(e, [], u.value) == u;
      }
    }
  }

  // ------------------------------------------------------------------ the table a design describes

  /** The named parts of a list, by name. */
  function Bodies<T, B>(k: Kind<T, B>, xs: seq<T>): map<string, B> {
    if xs == [] then map[] else Bodies(k, xs[1..])[k.name(xs[0]) := k.body(xs[0])]
  }

  function NamesOf(cs: seq<ColumnDef>): (r: seq<string>)
    ensures |r| == |cs|
    ensures forall i :: 0 <= i < |cs| ==> r[i] == cs[i].name
  {
    seq(|cs|, i requires 0 <= i < |cs| => cs[i].name)
  }

  /** SQLite declares a single auto-incrementing key column inline. */
  function InlineKey(e: Engine, t: TableDesign): Option<string> {
    if e.Sqlite? && |t.primaryKey| == 1
       && exists i :: 0 <= i < |t.columns| && t.columns[i].name == t.primaryKey[0] && t.columns[i].autoIncrement
    then Some(t.primaryKey[0]) else None
  }

  function KeyOf(e: Engine, t: TableDesign): Option<Key> {
    if t.primaryKey == [] then None
    else Some(Key(if KeepsConstraints(e) then NonEmpty(t.primaryKeyName) else None, t.primaryKey))
  }

  /** Triggers with no text do not exist. */
  function RealTriggers(xs: seq<TriggerDef>): seq<TriggerDef> {
    if xs == [] then [] else (if IsBlank(xs[0].definition) then [] else [xs[0]]) + RealTriggers(xs[1..])
  }

  /** The columns of a design, given what each holds. */
  function ColumnsOf(e: Engine, t: TableDesign, cs: seq<ColumnDef>,
      values: map<string, seq<Value>>): map<string, Column> {
    if cs == [] then map[]
    else
      var a := AttrOf(e, cs[0], InlineKey(e, t) == Some(cs[0].name));
      ColumnsOf(e, t, cs[1..], values)[cs[0].name := Column(a, if cs[0].name in values then values[cs[0].name] else [])]
  }

  const NO_OPTIONS := TableOptions(None, None, None, None)

  /** Only MySQL and MariaDB have storage options; an empty one is none. */
  function OptionsOf(e: Engine, d: TableDesign): TableOptions {
    if e.IsMysqlFamily() then
      TableOptions(NonEmpty(d.options.engine), NonEmpty(d.options.charset), NonEmpty(d.options.collation),
        d.options.autoIncrement)
    else NO_OPTIONS
  }

  /** The table a design describes, holding `count` rows. */
  function TableOf(e: Engine, t: TableDesign, values: map<string, seq<Value>>, count: nat): Tbl {
    Tbl(e.Sqlite?, if e.Sqlite? then None else NonEmpty(t.schema), None, t.name, NamesOf(t.columns),
      ColumnsOf(e, t, t.columns, values), count, KeyOf(e, t),
        Bodies(IX, t.indexes), Bodies(FK, t.foreignKeys), Bodies(CK, t.checks), Bodies(TR, RealTriggers(t.triggers)),
        if e.Sqlite? then None else NonEmpty(t.comment), OptionsOf(e, t))
  }
}
