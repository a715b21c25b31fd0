/** The settings of the MySQL and SQL Server results can be met, by plans that are not empty. */
module DesignElsewhere {
  import opened Prelude
  import opened Engines
  import opened Design
  import opened DesignExec
  import opened DesignParts
  import opened DesignValid
  import opened DesignMoves
  import opened DesignPostgres
  import opened DesignReferences
  import opened DesignPhases
  import opened DesignAdds
  import opened DesignReach
  import opened DesignKept
  import opened DesignPlacement
  import opened DesignMysql
  import opened DesignDefaults
  import opened DesignMssql
  import opened DesignExample
  import opened DesignRefused

  /** With no parts but a key that stays, the plan is the steps for the columns. */
  lemma OnlyColumns(e: Engine, was: TableDesign, next: TableDesign)
    requires was.indexes == [] && was.foreignKeys == [] && was.checks == [] && was.triggers == []
    requires next == was.(columns := next.columns) && was.originalName.None?
    requires DropColumns(e, was.columns, next.columns) == []
    ensures AlterSteps(e, was, next) == AlterColumns(e, was.columns, next.columns, 0)
  {
    hide AlterColumns, DropColumns, NonEmpty;
    var none: seq<Step> := [];
    assert DropParts(e, was, next) == none;
    assert AddParts(e, was, next) == none;
    assert TableComment(e, was, next) == none;
    var r := AlterColumns(e, was.columns, next.columns, 0);
    if r.Ok? {
      assert none + none + none + none + r.value + none + none == r.value;
    }
  }

  lemma BothKept(e: Engine, second: ColumnDef, news: seq<ColumnDef>)
    requires IsKept(news, "a") && IsKept(news, second.name)
    ensures DropColumns(e, Two(second).columns, news) == []
  {
    hide IsKept;
    var cs := Two(second).columns;
    assert cs[1..] == [cs[1]] && cs[1..][1..] == [];
    var none: seq<Step> := [];
    assert DropColumns(e, cs[1..], news) == none + DropColumns(e, [], news);
    assert none + none == none;
  }

  // ------------------------------------------------------------------ MySQL: two columns change places

  function First(): ColumnDef {
    Col(Some("a"), "a", true, None)
  }

  function Turned(): TableDesign {
    Two(Strict()).(columns := [Strict(), First()])
  }

  lemma TurnedSteps()
    ensures AlterSteps(Mysql, Two(Strict()), Turned()) ==
      Ok([ChangeColumn("b", Strict(), Position.First), ChangeColumn("a", First(), After("b"))])
  {
    hide SameDefinition;
    Letters();
    var was, news := Two(Strict()).columns, Turned().columns;
    TwoLookedUp(Strict());
    assert news[0].original == Some("b") && news[1].original == Some("a");
    BothKept(Mysql, Strict(), news);
    OnlyColumns(Mysql, Two(Strict()), Turned());
    assert ColumnAt(was, "a") == 0 && ColumnAt(was, "b") == 1 by { TwoAt(Strict()); }
    assert ColumnSteps(Mysql, was, news, 0) == Ok([ChangeColumn("b", Strict(), Position.First)]);
    assert ColumnSteps(Mysql, was, news, 1) == Ok([ChangeColumn("a", First(), After("b"))]);
    var x, y := ChangeColumn("b", Strict(), Position.First), ChangeColumn("a", First(), After("b"));
    BothSteps(Mysql, was, news, [x], [y]);
    assert [x] + [y] == [x, y];
  }

  lemma BothSteps(e: Engine, was: seq<ColumnDef>, news: seq<ColumnDef>, a: seq<Step>, b: seq<Step>)
    requires |news| == 2 && ColumnSteps(e, was, news, 0) == Ok(a) && ColumnSteps(e, was, news, 1) == Ok(b)
    ensures AlterColumns(e, was, news, 0) == Ok(a + b)
  {
    hide ColumnSteps;
    assert AlterColumns(e, was, news, 2) == Ok([]);
    assert b + [] == b;
    assert AlterColumns(e, was, news, 1) == Ok(b);
  }

  lemma TwoAt(second: ColumnDef)
    requires second.name == "b"
    ensures ColumnAt(Two(second).columns, "a") == 0 && ColumnAt(Two(second).columns, "b") == 1
  {
    Letters();
    var cs := Two(second).columns;
    assert cs[0].name == "a" && cs[1].name == "b";
  }

  lemma TurnedSound()
    ensures SoundEdit(Two(Strict()), Turned())
  {
    hide HasColumn;
    Letters();
    TwoSound(Strict());
    TwoColumns(Strict(), "a");
    TwoColumns(Strict(), "b");
    var n := Turned().columns;
    assert n[0].name == "b" && n[1].name == "a";
    NameThere(n, 1);
    OneKey(n, "a");
  }

  lemma TurnedValid()
    ensures Validate(Turned()).Ok?
  {
    hide IsBlank, Lower, Validate;
    DesignAccepts.ValidMeans(Turned());
    NotBlank("t");
    NotBlank("a");
    NotBlank("b");
    IntNotBlank();
    Letters();
    Lowered();
    assert Turned().columns[1].name == "a";
    assert IsColumn(Turned(), "a");
  }

  lemma ChangeRuns(t: Tbl, name: string, c: ColumnDef, p: Position)
    requires name in t.cols && c.name == name && PositionOk(t, name, p)
    ensures var r := Exec(Mysql, t, ChangeColumn(name, c, p)); r.Some? && r.value.cols.Keys == t.cols.Keys
  {
    hide AttrOf, Insert, Without;
  }

  lemma TwoSteps(e: Engine, a: Step, b: Step, t: Tbl)
    requires Exec(e, t, a).Some? && Exec(e, Exec(e, t, a).value, b).Some?
    ensures Run(e, [a, b], t).Some?
  {
    hide Exec;
    assert [a, b][1..] == [b] && [b][1..] == [];
    var u := Exec(e, t, a).value;
    var v := Exec(e, u, b);
    assert Run(e, [], v.value) == v;
  }

  lemma TwoThere(e: Engine, second: ColumnDef, vals: map<string, seq<Value>>, count: nat)
    ensures TableOf(e, Two(second), vals, count).cols.Keys == {"a", second.name}
  {
    hide AttrOf, HasColumn, InlineKey;
    var d := Two(second);
    forall q
      ensures q in TableOf(e, d, vals, count).cols <==> q == "a" || q == second.name
    {
      ColumnsOfKeys(e, d, d.columns, vals, q);
      TwoColumns(second, q);
    }
  }

  /** MySQL: the plan is two steps, runs through, gives the new design, and each column stands where it was put. */
  lemma MysqlRuns(vals: map<string, seq<Value>>, count: nat)
    requires vals.Keys == {"a", "b"}
    ensures AlterTable(Mysql, Two(Strict()), Turned()).Ok?
      && |AlterTable(Mysql, Two(Strict()), Turned()).value.steps| == 2
    ensures var r := Run(Mysql, AlterTable(Mysql, Two(Strict()), Turned()).value.steps,
      TableOf(Mysql, Two(Strict()), vals, count));
      r.Some? && Leads(r.value.order, "b") && Behind(r.value.order, "b", "a")
      && r.value.cols == TableOf(Mysql, Reached(Two(Strict()), Turned()), Carried(Turned().columns, vals, count),
        count).cols
  {
    hide Run, Exec, TableOf, Validate, AlterSteps, SoundEdit, Carried, Reached, Grown, Leads, Behind, KeysServed,
      ChecksApart;
    var was, next := Two(Strict()), Turned();
    var t := TableOf(Mysql, was, vals, count);
    TurnedSteps();
    TurnedValid();
    TurnedSound();
    TwoThere(Mysql, Strict(), vals, count);
    Letters();
    ChangeRuns(t, "b", Strict(), Position.First);
    var u := Exec(Mysql, t, ChangeColumn("b", Strict(), Position.First)).value;
    ChangeRuns(u, "a", First(), After("b"));
    TwoSteps(Mysql, ChangeColumn("b", Strict(), Position.First), ChangeColumn("a", First(), After("b")), t);
    MysqlSetting(vals);
    PlanGives(Mysql, was, next, vals, count);
    TurnedPlaces();
    assert NamesDistinct(was.columns) && NamesDistinct(next.columns) && Fresh(was.columns, next.columns) by {
      SoundEditParts(was, next);
      SoundColumns(was);
      SoundColumns(next);
    }
    PlacementHolds(Mysql, was, next, vals, count, 0);
    PlacementHolds(Mysql, was, next, vals, count, 1);
  }

  lemma TurnedPlaces()
    ensures MysqlPosition(Mysql, Two(Strict()).columns, Turned().columns, 0) == Position.First
    ensures MysqlPosition(Mysql, Two(Strict()).columns, Turned().columns, 1) == After("b")
  {
    Letters();
    TwoAt(Strict());
    var news := Turned().columns;
    assert news[0].original == Some("b") && news[1].original == Some("a") && news[0].name == "b";
  }

  lemma MysqlSetting(vals: map<string, seq<Value>>)
    requires vals.Keys == {"a", "b"}
    ensures LoadedRows(Two(Strict()), vals) && ChecksApart(Two(Strict())) && KeysServed(Mysql, Two(Strict()))
  {
    hide ColumnsOf, HasColumn, Served;
    TwoSound(Strict());
    forall q
      ensures q in vals <==> HasColumn(Two(Strict()).columns, q)
    {
      TwoColumns(Strict(), q);
    }
    assert Bodies(FK, []) == map[];
  }

  // ------------------------------------------------------------------ SQL Server: one column renamed, one added

  function Extra(): ColumnDef {
    Col(None, "e", true, Some("0"))
  }

  function Called(): ColumnDef {
    Col(Some("b"), "d", true, None)
  }

  function Extended(): TableDesign {
    Two(Strict()).(columns := [First(), Called(), Extra()])
  }

  lemma ExtendedSteps()
    ensures AlterSteps(Mssql, Two(Strict()), Extended()) == Ok([RenameColumn("b", "d"), AddColumn(Extra(), Anywhere)])
  {
    hide TypeSql, Lower, NonBlank;
    Letters();
    var was, news := Two(Strict()).columns, Extended().columns;
    TwoLookedUp(Strict());
    assert news[0].original == Some("a") && news[1].original == Some("b");
    BothKept(Mssql, Strict(), news);
    OnlyColumns(Mssql, Two(Strict()), Extended());
    var none: seq<Step> := [];
    SameTypes(Strict(), Called());
    NoneIsEmpty();
    assert AlterMssql(First(), First()).value == none by { FlipAlters(First(), false); }
    assert AlterMssql(Strict(), Called()).value == [RenameColumn("b", "d")] + none + none + none;
    assert [RenameColumn("b", "d")] + none + none + none == [RenameColumn("b", "d")];
    assert ColumnSteps(Mssql, was, news, 0) == Ok(none) by { assert First().(generatedStored := false) == First(); }
    assert ColumnSteps(Mssql, was, news, 1) == Ok([RenameColumn("b", "d")]);
    assert ColumnSteps(Mssql, was, news, 2) == Ok([AddColumn(Extra(), Anywhere)] + none);
    assert [AddColumn(Extra(), Anywhere)] + none == [AddColumn(Extra(), Anywhere)];
    ThreeSteps(was, news, none, [RenameColumn("b", "d")], [AddColumn(Extra(), Anywhere)]);
    assert none + ([RenameColumn("b", "d")] + [AddColumn(Extra(), Anywhere)])
      == [RenameColumn("b", "d"), AddColumn(Extra(), Anywhere)];
  }

  lemma ThreeSteps(was: seq<ColumnDef>, news: seq<ColumnDef>, a: seq<Step>, b: seq<Step>, c: seq<Step>)
    requires |news| == 3
    requires ColumnSteps(Mssql, was, news, 0) == Ok(a) && ColumnSteps(Mssql, was, news, 1) == Ok(b)
      && ColumnSteps(Mssql, was, news, 2) == Ok(c)
    ensures AlterColumns(Mssql, was, news, 0) == Ok(a + (b + c))
  {
    hide ColumnSteps;
    assert AlterColumns(Mssql, was, news, 3) == Ok([]);
    assert c + [] == c;
    assert AlterColumns(Mssql, was, news, 2) == Ok(c);
    assert AlterColumns(Mssql, was, news, 1) == Ok(b + c);
  }

  lemma ExtendedSound()
    ensures SoundEdit(Two(Strict()), Extended())
  {
    hide HasColumn;
    Letters();
    TwoSound(Strict());
    TwoColumns(Strict(), "a");
    TwoColumns(Strict(), "b");
    TwoColumns(Strict(), "d");
    TwoColumns(Strict(), "e");
    var n := Extended().columns;
    assert n[0].name == "a" && n[1].name == "d" && n[2].name == "e";
    NameThere(n, 0);
    OneKey(n, "a");
  }

  lemma ExtendedValid()
    ensures Validate(Extended()).Ok?
  {
    hide IsBlank, Lower, Validate;
    DesignAccepts.ValidMeans(Extended());
    NotBlank("t");
    NotBlank("a");
    NotBlank("d");
    NotBlank("e");
    IntNotBlank();
    Letters();
    Lowered();
    assert Extended().columns[0].name == "a";
    assert IsColumn(Extended(), "a");
  }

  lemma NoDefaults(vals: map<string, seq<Value>>, count: nat)
    ensures var t := TableOf(Mssql, Two(Strict()), vals, count);
      && t.cols.Keys == {"a", "b"} && t.fks == map[]
      && forall q :: q in t.cols ==> t.cols[q].attr.defaultName.None?
  {
    hide TypeSql, Lower;
    Letters();
    NoneBlankHere();
    TwoThere(Mssql, Strict(), vals, count);
    var d := Two(Strict());
    TwoSound(Strict());
    ColumnsOfAt(Mssql, d, d.columns, vals, 0);
    ColumnsOfAt(Mssql, d, d.columns, vals, 1);
    assert Bodies(FK, []) == map[];
  }

  lemma RenameThenAdd(t: Tbl)
    requires "b" in t.cols && t.cols.Keys == {"a", "b"} && forall q :: q in t.cols ==> t.cols[q].attr.defaultName.None?
    ensures Run(Mssql, [RenameColumn("b", "d"), AddColumn(Extra(), Anywhere)], t).Some?
  {
    hide AttrOf, RenamedParts;
    Letters();
    var u := Renamed(t, "b", "d");
    assert Exec(Mssql, t, RenameColumn("b", "d")) == Some(u);
    assert u.cols.Keys == {"a", "d"};
    assert forall q :: q in u.cols ==> u.cols[q].attr.defaultName.None?;
    assert Exec(Mssql, u, AddColumn(Extra(), Anywhere)).Some?;
    TwoSteps(Mssql, RenameColumn("b", "d"), AddColumn(Extra(), Anywhere), t);
  }

  lemma MssqlSetting(vals: map<string, seq<Value>>)
    requires vals.Keys == {"a", "b"}
    ensures MsPlanned(Two(Strict()), Extended(), vals)
  {
    hide SoundEdit, MsSound, KeysServed, NonBlank, HasColumn, Reached;
    ExtendedSound();
    MysqlSetting(vals);
    NoneBlankHere();
    MssqlSounds();
  }

  lemma MssqlSounds()
    ensures MsSound(Two(Strict())) && MsSound(Reached(Two(Strict()), Extended())) && KeysServed(Mssql, Two(Strict()))
  {
    hide NamesApart, Dressed, ColumnsOf, Served;
    Letters();
    BareApart(Two(Strict()));
    BareApart(Extended());
    NamesApartSame(Two(Strict()), TableOf(Postgres, Two(Strict()), map[], 0), TableOf(Mssql, Two(Strict()), map[], 0));
    NamesApartSame(Extended(), TableOf(Postgres, Extended(), map[], 0), TableOf(Mssql, Extended(), map[], 0));
    assert |"k"| == 1 && |""| == 0;
    assert Reached(Two(Strict()), Extended()) == Extended();
    assert Bodies(FK, []) == map[];
  }

  /** SQL Server: the plan is two steps, runs through, and leaves the settled design. */
  lemma MssqlRuns(vals: map<string, seq<Value>>, count: nat)
    requires vals.Keys == {"a", "b"}
    ensures AlterTable(Mssql, Two(Strict()), Extended()).Ok?
      && |AlterTable(Mssql, Two(Strict()), Extended()).value.steps| == 2
    ensures var r := Run(Mssql, AlterTable(Mssql, Two(Strict()), Extended()).value.steps,
        TableOf(Mssql, Two(Strict()), vals, count));
      && r.Some?
      && r.value.cols == TableOf(Mssql, Settled(Two(Strict()), Extended()),
           Carried(Extended().columns, vals, count), count).cols
  {
    hide Run, TableOf, Validate, AlterSteps, Carried, Settled, MsPlanned;
    ExtendedSteps();
    ExtendedValid();
    NoDefaults(vals, count);
    RenameThenAdd(TableOf(Mssql, Two(Strict()), vals, count));
    MssqlSetting(vals);
    PlanSettles(Two(Strict()), Extended(), vals, count);
  }
}
