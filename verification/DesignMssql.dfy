/**
 SQL Server: a plan that runs through leaves the new design, each default under
 the name it then has, except that a computed column stays as persisted as it was.
 */
module DesignMssql {
  import opened Prelude
  import opened Engines
  import opened Design
  import opened DesignExec
  import opened DesignParts
  import opened DesignValid
  import opened DesignColumns
  import opened DesignMoves
  import opened DesignPostgres
  import opened DesignReferences
  import opened DesignPhases
  import opened DesignAdds
  import opened DesignReach
  import opened DesignKept
  import opened DesignMysql
  import opened DesignDefaults
  import opened DesignUnchanged

  // ------------------------------------------------------------------ the design that is left

  function SettledColumns(table: string, was: seq<ColumnDef>, news: seq<ColumnDef>): (r: seq<ColumnDef>)
    ensures |r| == |news|
    ensures forall i :: 0 <= i < |news| ==> r[i] == Settle(table, Lookup(was, news[i].original), news[i])
  {
    seq(|news|, i requires 0 <= i < |news| => Settle(table, Lookup(was, news[i].original), news[i]))
  }

  /** The design as it would be loaded after the plan. */
  function Settled(was: TableDesign, next: TableDesign): TableDesign {
    Reached(was, next).(columns := SettledColumns(next.name, was.columns, next.columns))
  }

  lemma SettledNames(table: string, was: seq<ColumnDef>, news: seq<ColumnDef>)
    ensures NamesDistinct(news) ==> NamesDistinct(SettledColumns(table, was, news))
    ensures forall q :: HasColumn(SettledColumns(table, was, news), q) <==> HasColumn(news, q)
  {
    hide Settle, Lookup;
    var r := SettledColumns(table, was, news);
    forall i | 0 <= i < |news|
      ensures r[i].name == news[i].name
    {
      SettleNames(table, Lookup(was, news[i].original), news[i]);
    }
  }

  lemma SettleNames(table: string, o: Option<ColumnDef>, n: ColumnDef)
    ensures Settle(table, o, n).name == n.name && Settle(table, o, n).original == n.original
  {
  }

  // ------------------------------------------------------------------ dropping columns

  /** The columns of a list are in the table as loaded. */
  ghost predicate LoadedIn(t: Tbl, cs: seq<ColumnDef>) {
    forall i :: 0 <= i < |cs| ==> cs[i].name in t.cols && t.cols[cs[i].name].attr == AttrOf(Mssql, cs[i], false)
  }

  lemma NameOfDefault(c: ColumnDef)
    requires KnownDefault(c)
    ensures AttrOf(Mssql, c, false).defaultName == c.defaultConstraint
  {
  }

  /** A column goes, its default first. */
  lemma ColumnDropped(t: Tbl, c: ColumnDef)
    requires KnownDefault(c) && DefaultsApart(t.cols) && c.name in t.cols
      && t.cols[c.name].attr == AttrOf(Mssql, c, false)
    requires var steps := (if c.defaultConstraint.Some? then [DropDefault(c.defaultConstraint.value)] else [])
      + [DropColumn(c.name)];
      Run(Mssql, steps, t).Some?
    ensures var steps := (if c.defaultConstraint.Some? then [DropDefault(c.defaultConstraint.value)] else [])
      + [DropColumn(c.name)];
      Run(Mssql, steps, t) == Some(t.(order := Without(t.order, c.name), cols := t.cols - {c.name}))
  {
    hide Run, AttrOf, KnownDefault, DefaultsApart, Used, Without, HasDefault;
    var first := if c.defaultConstraint.Some? then [DropDefault(c.defaultConstraint.value)] else [];
    SplitRun(Mssql, first, [DropColumn(c.name)], t);
    NameOfDefault(c);
    if c.defaultConstraint.Some? {
      OneRun(Mssql, DropDefault(c.defaultConstraint.value), t);
      DefaultDropped(t, c.name, c.defaultConstraint.value);
      var u := Run(Mssql, first, t).value;
      OneRun(Mssql, DropColumn(c.name), u);
      assert u.cols - {c.name} == t.cols - {c.name};
    } else {
      RunNothing(Mssql, t);
      OneRun(Mssql, DropColumn(c.name), t);
    }
  }

  lemma KnownTail(cs: seq<ColumnDef>)
    requires KnownDefaults(cs) && cs != []
    ensures KnownDefault(cs[0]) && KnownDefaults(cs[1..])
  {
    hide KnownDefault;
    assert forall i :: 0 <= i < |cs[1..]| ==> cs[1..][i] == cs[i + 1];
  }

  lemma ApartLess(cols: map<string, Column>, name: string)
    requires DefaultsApart(cols)
    ensures DefaultsApart(cols - {name})
  {
  }

  lemma LoadedTail(t: Tbl, mid: Tbl, cs: seq<ColumnDef>)
    requires NamesDistinct(cs) && cs != [] && LoadedIn(t, cs)
      && (mid.cols == t.cols || mid.cols == t.cols - {cs[0].name})
    ensures LoadedIn(mid, cs[1..])
  {
    hide AttrOf;
    NamesTail(cs);
    forall i | 0 <= i < |cs[1..]|
      ensures cs[1..][i].name in mid.cols && mid.cols[cs[1..][i].name].attr == AttrOf(Mssql, cs[1..][i], false)
    {
      assert cs[1..][i] == cs[i + 1];
    }
  }

  lemma DropsCons(olds: seq<ColumnDef>, news: seq<ColumnDef>)
    requires olds != []
    ensures DropColumns(Mssql, olds, news) ==
      if IsKept(news, olds[0].name) then DropColumns(Mssql, olds[1..], news)
      else
        (if olds[0].defaultConstraint.Some? then [DropDefault(olds[0].defaultConstraint.value)] else [])
        + [DropColumn(olds[0].name)] + DropColumns(Mssql, olds[1..], news)
    ensures DroppedNames(olds, news) ==
      (if IsKept(news, olds[0].name) then {} else {olds[0].name}) + DroppedNames(olds[1..], news)
  {
    hide IsKept;
    var rest := DropColumns(Mssql, olds[1..], news);
    assert [] + rest == rest;
  }

  lemma {:induction false} MssqlColumnsDropped(olds: seq<ColumnDef>, news: seq<ColumnDef>, t: Tbl)
    requires NamesDistinct(olds) && KnownDefaults(olds) && LoadedIn(t, olds) && DefaultsApart(t.cols)
    requires Run(Mssql, DropColumns(Mssql, olds, news), t).Some?
    ensures var u := Run(Mssql, DropColumns(Mssql, olds, news), t).value;
      SameBut(t, u) && u.cols == t.cols - DroppedNames(olds, news) && DefaultsApart(u.cols)
    decreases |olds|
  {
    hide Run, IsKept, AttrOf, KnownDefaults, KnownDefault, DefaultsApart, Without, DropColumns, DroppedNames, LoadedIn,
      NamesDistinct;
    if olds == [] {
      NoDrops(news);
      RunNothing(Mssql, t);
      assert t.cols - {} == t.cols;
    } else {
      var rest := DropColumns(Mssql, olds[1..], news);
      DropsCons(olds, news);
      KnownTail(olds);
      NamesTail(olds);
      FirstLoaded(t, olds);
      var mid := t;
      if !IsKept(news, olds[0].name) {
        var steps := (if olds[0].defaultConstraint.Some? then [DropDefault(olds[0].defaultConstraint.value)] else [])
          + [DropColumn(olds[0].name)];
        SplitRun(Mssql, steps, rest, t);
        ColumnDropped(t, olds[0]);
        mid := t.(order := Without(t.order, olds[0].name), cols := t.cols - {olds[0].name});
        ApartLess(t.cols, olds[0].name);
      }
      LoadedTail(t, mid, olds);
      MssqlColumnsDropped(olds[1..], news, mid);
      assert mid.cols - DroppedNames(olds[1..], news) == t.cols - DroppedNames(olds, news);
    }
  }

  lemma NoDrops(news: seq<ColumnDef>)
    ensures DropColumns(Mssql, [], news) == [] && DroppedNames([], news) == {}
  {
  }

  lemma FirstLoaded(t: Tbl, cs: seq<ColumnDef>)
    requires cs != [] && LoadedIn(t, cs)
    ensures cs[0].name in t.cols && t.cols[cs[0].name].attr == AttrOf(Mssql, cs[0], false)
  {
    hide AttrOf;
  }

  // ------------------------------------------------------------------ columns

  /** The columns the plan leaves. */
  function Left(was: TableDesign, next: TableDesign, vals: map<string, seq<Value>>, count: nat): map<string, Column> {
    Full(Mssql, Settled(was, next), Carried(next.columns, vals, count))
  }

  lemma LeftAt(was: TableDesign, next: TableDesign, vals: map<string, seq<Value>>, count: nat, j: nat)
    requires NamesDistinct(next.columns) && j < |next.columns|
    ensures var n := next.columns[j];
      n.name in Left(was, next, vals, count)
      && Left(was, next, vals, count)[n.name]
        == Column(AttrOf(Mssql, Settle(next.name, Lookup(was.columns, n.original), n), false), Held(n, vals, count))
  {
    hide AttrOf, Full, Carried, Held, Settle, Lookup, NamesDistinct;
    SettledNames(next.name, was.columns, next.columns);
    SettleNames(next.name, Lookup(was.columns, next.columns[j].original), next.columns[j]);
    CarriedAt(next.columns, vals, count, j);
    FullAt(Mssql, Settled(was, next), Carried(next.columns, vals, count), j);
  }

  /** The setting of the column steps. */
  ghost predicate Stage(was: TableDesign, next: TableDesign, vals: map<string, seq<Value>>, t: Tbl) {
    && NamesDistinct(was.columns) && NamesDistinct(next.columns) && Fresh(was.columns, next.columns)
    && KeysAre(vals, was.columns) && KnownDefaults(was.columns) && RefersTo(t, next.columns) && t.name == next.name
  }

  lemma StageBut(was: TableDesign, next: TableDesign, vals: map<string, seq<Value>>, t: Tbl, u: Tbl)
    requires Stage(was, next, vals, t) && SameBut(t, u)
    ensures Stage(was, next, vals, u)
  {
    hide Stable, NamesDistinct, Fresh, HasColumn, KnownDefaults;
  }

  lemma KnownAt(cs: seq<ColumnDef>, i: nat)
    requires KnownDefaults(cs) && i < |cs|
    ensures KnownDefault(cs[i])
  {
  }

  lemma KeptSettles(was: TableDesign, next: TableDesign, vals: map<string, seq<Value>>, pos: nat, t: Tbl)
    requires Stage(was, next, vals, t) && pos < |next.columns| && next.columns[pos].original.Some?
    requires Moving(Full(Mssql, was, vals), Left(was, next, vals, t.count), next.columns, pos, t.cols)
      && DefaultsApart(t.cols)
    requires ColumnSteps(Mssql, was.columns, next.columns, pos).Ok?
    requires Run(Mssql, ColumnSteps(Mssql, was.columns, next.columns, pos).value, t).Some?
    ensures var u := Run(Mssql, ColumnSteps(Mssql, was.columns, next.columns, pos).value, t).value;
      SameBut(t, u) && Moving(Full(Mssql, was, vals), Left(was, next, vals, t.count), next.columns, pos + 1, u.cols)
        && DefaultsApart(u.cols)
  {
    hide Run, AttrOf, NamesDistinct, Fresh, RefersTo, Lookup, MysqlPosition, Full, Left, Carried, Held, Done, Waiting,
      HasColumn, Renamed, Settle, AlterMssql,
      KnownDefault, KnownDefaults, DefaultsApart, ForColumns;
    var n, start, goal := next.columns[pos], Full(Mssql, was, vals), Left(was, next, vals, t.count);
    LookupFresh(was.columns, next.columns, pos);
    var o := Lookup(was.columns, n.original).value;
    var i :| 0 <= i < |was.columns| && was.columns[i] == o;
    NameThere(was.columns, i);
    FullAt(Mssql, was, vals, i);
    KnownAt(was.columns, i);
    LeftAt(was, next, vals, t.count, pos);
    HeldIs(n, vals, t.count);
    assert Agrees(start, o.name, t.cols);
    RenameIdle(was.columns, next.columns, pos, t);
    AlterSettles(t, o, n);
    StepsForColumns(o, n);
    RunKeepsApart(AlterMssql(o, n).value, t);
    var u := WithAttr(Renamed(t, o.name, n.name), n.name, AttrOf(Mssql, Settle(t.name, Some(o), n), false));
    assert u.cols == (t.cols - {o.name})[n.name := goal[n.name]];
    MoveOn(was.columns, next.columns, start, goal, pos, t.cols, u.cols);
  }

  lemma AddedSettles(was: TableDesign, next: TableDesign, vals: map<string, seq<Value>>, pos: nat, t: Tbl)
    requires Stage(was, next, vals, t) && pos < |next.columns| && next.columns[pos].original.None?
    requires Moving(Full(Mssql, was, vals), Left(was, next, vals, t.count), next.columns, pos, t.cols)
      && DefaultsApart(t.cols)
    requires ColumnSteps(Mssql, was.columns, next.columns, pos).Ok?
    requires Run(Mssql, ColumnSteps(Mssql, was.columns, next.columns, pos).value, t).Some?
    ensures var u := Run(Mssql, ColumnSteps(Mssql, was.columns, next.columns, pos).value, t).value;
      SameBut(t, u) && Moving(Full(Mssql, was, vals), Left(was, next, vals, t.count), next.columns, pos + 1, u.cols)
        && DefaultsApart(u.cols)
  {
    hide Run, AttrOf, NamesDistinct, Fresh, RefersTo, Full, Left, Carried, Held, Fill, Defaults, Moving, Settle,
      KnownDefaults, DefaultsApart, ForColumns;
    var n, start, goal := next.columns[pos], Full(Mssql, was, vals), Left(was, next, vals, t.count);
    AddSettles(t, n);
    AddsForColumns(n);
    RunKeepsApart([AddColumn(n, Anywhere)] + CommentSteps(Mssql, n.name, None, n.comment), t);
    LeftAt(was, next, vals, t.count, pos);
    HeldIs(n, vals, t.count);
    SettledFill(t.name, n, t.count);
    var a := AttrOf(Mssql, Settle(t.name, None, n), false);
    var u := t.(order := t.order + [n.name], cols := t.cols[n.name := Column(a, Fill(a, t.count))]);
    assert t.cols - {} == t.cols;
    MoveOn(was.columns, next.columns, start, goal, pos, t.cols, u.cols);
  }

  lemma SettledFill(table: string, n: ColumnDef, count: nat)
    ensures Fill(AttrOf(Mssql, Settle(table, None, n), false), count) == Defaults(n, count)
  {
    hide TypeSql, DefaultName;
    FillIsDefaults(Mssql, Settle(table, None, n), false, count);
  }

  lemma {:induction false} ColumnsSettle(was: TableDesign, next: TableDesign, vals: map<string, seq<Value>>, pos: nat,
      t: Tbl)
    requires Stage(was, next, vals, t) && pos <= |next.columns|
    requires Moving(Full(Mssql, was, vals), Left(was, next, vals, t.count), next.columns, pos, t.cols)
      && DefaultsApart(t.cols)
    requires AlterColumns(Mssql, was.columns, next.columns, pos).Ok?
      && Run(Mssql, AlterColumns(Mssql, was.columns, next.columns, pos).value, t).Some?
    ensures var u := Run(Mssql, AlterColumns(Mssql, was.columns, next.columns, pos).value, t).value;
      SameBut(t, u) && Moving(Full(Mssql, was, vals), Left(was, next, vals, t.count), next.columns, |next.columns|,
        u.cols) && DefaultsApart(u.cols)
    decreases |next.columns| - pos
  {
    hide Run, ColumnSteps, Moving, Full, Left, Stage, DefaultsApart;
    if pos == |next.columns| {
      RunNothing(Mssql, t);
    } else {
      var first, rest := ColumnSteps(Mssql, was.columns, next.columns, pos).value,
        AlterColumns(Mssql, was.columns, next.columns, pos + 1).value;
      SplitRun(Mssql, first, rest, t);
      if next.columns[pos].original.Some? {
        KeptSettles(was, next, vals, pos, t);
      } else {
        AddedSettles(was, next, vals, pos, t);
      }
      var u := Run(Mssql, first, t).value;
      StageBut(was, next, vals, t, u);
      ColumnsSettle(was, next, vals, pos + 1, u);
    }
  }

  // ------------------------------------------------------------------ the plan

  /** What SQL Server accepts as a table: names apart. */
  predicate MsSound(d: TableDesign) {
    NamesApart(Dressed(d, TableOf(Mssql, d, map[], 0))) && d.primaryKeyName != Some("")
  }

  lemma MsSoundParts(d: TableDesign, t: Tbl)
    requires MsSound(d)
    ensures NamesApart(Dressed(d, t)) && d.primaryKeyName != Some("")
  {
    hide NamesApart;
    NamesApartSame(d, TableOf(Mssql, d, map[], 0), t);
  }

  lemma FullIsLoaded(was: TableDesign, vals: map<string, seq<Value>>, t: Tbl)
    requires NamesDistinct(was.columns) && KeysAre(vals, was.columns) && KnownDefaults(was.columns)
      && t.cols == Full(Mssql, was, vals)
    ensures LoadedIn(t, was.columns) && DefaultsApart(t.cols)
  {
    hide AttrOf, Full, KnownDefault, HasColumn, NamesDistinct;
    forall i | 0 <= i < |was.columns|
      ensures was.columns[i].name in t.cols && t.cols[was.columns[i].name].attr == AttrOf(Mssql, was.columns[i], false)
    {
      NameThere(was.columns, i);
      FullAt(Mssql, was, vals, i);
    }
    FullKeys(Mssql, was, vals);
    ColumnsApart(was.columns, t.cols);
  }

  lemma ColumnsApart(cs: seq<ColumnDef>, cols: map<string, Column>)
    requires KnownDefaults(cs) && KeysAre(cols, cs)
    requires forall i :: 0 <= i < |cs| ==> cs[i].name in cols && cols[cs[i].name].attr == AttrOf(Mssql, cs[i], false)
    ensures DefaultsApart(cols)
  {
    hide AttrOf, KnownDefault;
    forall p, q | p in cols && q in cols && p != q && cols[p].attr.defaultName.Some?
      ensures cols[p].attr.defaultName != cols[q].attr.defaultName
    {
      assert HasColumn(cs, p) && HasColumn(cs, q);
      var i :| 0 <= i < |cs| && cs[i].name == p;
      var j :| 0 <= j < |cs| && cs[j].name == q;
      NameOfDefault(cs[i]);
      NameOfDefault(cs[j]);
      assert cs[if i < j then i else j].defaultConstraint.Some? ==> cs[i].defaultConstraint != cs[j].defaultConstraint;
    }
  }

  /** The setting of a plan: two sound designs of one table, what its columns hold, and its defaults known by name. */
  ghost predicate MsPlanned(was: TableDesign, next: TableDesign, vals: map<string, seq<Value>>) {
    && SoundEdit(was, next) && MsSound(was) && MsSound(Reached(was, next)) && KeysServed(Mssql, was)
    && LoadedRows(was, vals) && KnownDefaults(was.columns)
  }

  /** Before the drops of columns. */
  lemma MssqlBared(was: TableDesign, next: TableDesign, vals: map<string, seq<Value>>, count: nat)
    requires MsPlanned(was, next, vals) && DropKey(Mssql, was, next).Ok?
    requires Run(Mssql,
      When(OldName(was, next) != next.name, RenameTable(next.name)) + DropParts(Mssql, was, next)
        + DropKey(Mssql, was, next).value, TableOf(Mssql, was, vals, count)).Some?
    ensures Run(Mssql,
      When(OldName(was, next) != next.name, RenameTable(next.name)) + DropParts(Mssql, was, next)
        + DropKey(Mssql, was, next).value, TableOf(Mssql, was, vals, count))
      == Some(Bared(Mssql, was, next, vals, count))
    ensures RefersTo(Bared(Mssql, was, next, vals, count), next.columns)
    ensures Bared(Mssql, was, next, vals, count).cols == Full(Mssql, was, vals)
      && Bared(Mssql, was, next, vals, count).name == next.name
    ensures Bared(Mssql, was, next, vals, count).count == count
  {
    hide Run, DropParts, DropKey, SoundEdit, Bared, TableOf, Retitled, NameFree, NameUnshared, KeysLetGo, Stripped,
      NamesApart,
      KeysServed, KnownDefaults, LoadedRows, KeepsConstraints;
    assert KeepsConstraints(Mssql) by { MssqlKeeps(); }
    NamesApartSame(was, TableOf(Mssql, was, map[], 0), TableOf(Postgres, was, map[], 0));
    PartsGo(Mssql, was, next, vals, count);
    PartsGoFrom(Mssql, was, next, vals, count);
    BaredRefers(Mssql, was, next, vals, count);
    BaredRest(was, next, vals, count);
  }

  lemma MssqlKeeps()
    ensures KeepsConstraints(Mssql)
  {
  }

  lemma BaredRest(was: TableDesign, next: TableDesign, vals: map<string, seq<Value>>, count: nat)
    ensures Bared(Mssql, was, next, vals, count).cols == Full(Mssql, was, vals)
    ensures Bared(Mssql, was, next, vals, count).name == next.name
      && Bared(Mssql, was, next, vals, count).count == count
  {
    hide Bodies, ColumnsOf, Surviving, KeptKeys, LoadedKeys, KeyOf, RealTriggers;
  }

  lemma RestSame(t: Tbl, u: Tbl, v: Tbl)
    requires SameBut(t, u) && SameBut(u, v)
    ensures SameBut(t, v)
  {
  }

  /**
   SQL Server, fresh names: when a plan has run through, the table is the settled
   design, kept columns with the values they had and new ones with their default.
   */
  lemma PlanSettles(was: TableDesign, next: TableDesign, vals: map<string, seq<Value>>, count: nat)
    requires MsPlanned(was, next, vals)
    requires AlterTable(Mssql, was, next).Ok?
      && Run(Mssql, AlterTable(Mssql, was, next).value.steps, TableOf(Mssql, was, vals, count)).Some?
    ensures var r := Run(Mssql, AlterTable(Mssql, was, next).value.steps, TableOf(Mssql, was, vals, count)).value;
      r == TableOf(Mssql, Settled(was, next), Carried(next.columns, vals, count), count).(order := r.order,
        former := r.former) && DefaultsApart(r.cols)
  {
    hide Run, Validate, DropParts, DropKey, DropColumns, AlterColumns, AddParts, TableComment, TableOf, SoundEdit,
      Bodies, Surviving, Moving, Full, Left, Carried,
      KeysAre, KeyOf, RealTriggers, RefersTo, Fresh, DroppedNames, MsSound, KnownDefaults, DefaultsApart, NamesApart,
        LoadedIn, Bared, Reached, Dressed, ReadyForAdds,
      AddsAccepted, KeysServed, NamesDistinct, Settled, SameBut;
    var p, c := When(OldName(was, next) != next.name, RenameTable(next.name)) + DropParts(Mssql, was, next),
      DropKey(Mssql, was, next).value;
    var d, f := DropColumns(Mssql, was.columns, next.columns), AlterColumns(Mssql, was.columns, next.columns, 0).value;
    var g, h := AddParts(Mssql, was, next), TableComment(Mssql, was, next);
    var t0 := TableOf(Mssql, was, vals, count);
    SoundEditParts(was, next);
    SoundColumns(was);
    SoundColumns(next);
    SplitRun(Mssql, p + c + d + f + g, h, t0);
    SplitRun(Mssql, p + c + d + f, g, t0);
    SplitRun(Mssql, p + c + d, f, t0);
    SplitRun(Mssql, p + c, d, t0);
    MssqlBared(was, next, vals, count);
    var t3 := Bared(Mssql, was, next, vals, count);
    FullIsLoaded(was, vals, t3);
    MssqlColumnsDropped(was.columns, next.columns, t3);
    var t4 := Run(Mssql, d, t3).value;
    RefersSame(t3, t4, next.columns);
    var start, goal := Full(Mssql, was, vals), Left(was, next, vals, count);
    FullKeys(Mssql, was, vals);
    LeftKeys(was, next, vals, count);
    MovingBegins(was.columns, next.columns, start, goal, t4.cols);
    SameNumbers(t3, t4);
    ColumnsSettle(was, next, vals, 0, t4);
    var t5 := Run(Mssql, f, t4).value;
    MovingEnds(next.columns, start, goal, t5.cols);
    RestSame(t3, t4, t5);
    SameNumbers(t3, t5);
    LeftHasAll(was, next, vals, t5);
    ReadyAfter(Mssql, was, next, vals, count, t5);
    ReadyNames(was, next, t5);
    MsSoundParts(Reached(was, next), t5);
    AddPartsRun(Mssql, was, next, t5);
    var t6 := Dressed(Reached(was, next), t5);
    DressedRest(Reached(was, next), t5);
    TableCommentRun(Mssql, was, next, t6);
    SettledIs(was, next, vals, count, t5);
    DressedCols(Reached(was, next), t5, NonEmpty(next.comment));
  }

  lemma DressedCols(d: TableDesign, t: Tbl, comment: Option<string>)
    ensures Dressed(d, t).(comment := comment).cols == t.cols && Dressed(d, t).(comment := comment).order == t.order
    ensures Dressed(d, t).(comment := comment).former == t.former
  {
  }

  lemma LeftKeys(was: TableDesign, next: TableDesign, vals: map<string, seq<Value>>, count: nat)
    ensures KeysAre(Left(was, next, vals, count), next.columns)
  {
    hide Full, Carried, HasColumn;
    SettledNames(next.name, was.columns, next.columns);
    FullKeys(Mssql, Settled(was, next), Carried(next.columns, vals, count));
  }

  lemma LeftHasAll(was: TableDesign, next: TableDesign, vals: map<string, seq<Value>>, t: Tbl)
    requires t.cols == Left(was, next, vals, t.count)
    ensures HasAll(t, next.columns)
  {
    hide Left;
    LeftKeys(was, next, vals, t.count);
  }

  lemma SettledIs(was: TableDesign, next: TableDesign, vals: map<string, seq<Value>>, count: nat, t: Tbl)
    requires t.cols == Left(was, next, vals, count) && t.count == count && t.name == next.name
    requires !t.folds && t.schema == NonEmpty(was.schema) && was.schema == next.schema && t.options == NO_OPTIONS
    ensures Dressed(Reached(was, next), t).(comment := NonEmpty(next.comment))
      == TableOf(Mssql, Settled(was, next), Carried(next.columns, vals, count), count).(order := t.order,
        former := t.former)
  {
    hide Bodies, ColumnsOf, RealTriggers, Carried, SettledColumns, AllFollowed, NonEmpty;
  }

  // ------------------------------------------------------------------ what the settled design differs in

  /** Every kept computed column stays as persisted as it was. */
  predicate PersistedKept(was: seq<ColumnDef>, news: seq<ColumnDef>) {
    forall j :: 0 <= j < |news| ==> StaysPersisted(Lookup(was, news[j].original), news[j])
  }

  predicate StaysPersisted(o: Option<ColumnDef>, n: ColumnDef) {
    o.Some? && NonBlank(n.generated).Some? ==> o.value.generatedStored == n.generatedStored
  }

  function Unnamed(c: Column): Column {
    c.(attr := c.attr.(defaultName := None))
  }

  function UnnamedColumns(cols: map<string, Column>): map<string, Column> {
    map q | q in cols :: Unnamed(cols[q])
  }

  /** The table without the names of its defaults. */
  function UnnamedDefaults(t: Tbl): Tbl {
    t.(cols := UnnamedColumns(t.cols))
  }

  lemma SettledAttr(table: string, o: Option<ColumnDef>, n: ColumnDef)
    ensures var a, b := AttrOf(Mssql, Settle(table, o, n), false), AttrOf(Mssql, n, false);
      a.(defaultName := None) == b.(defaultName := None) <==> StaysPersisted(o, n)
  {
    hide TypeSql, DefaultName, Lower, NonBlank, NonEmpty;
    SettledType(table, o, n);
  }

  lemma UnnamedAt(was: TableDesign, next: TableDesign, vals: map<string, seq<Value>>, count: nat, j: nat)
    requires NamesDistinct(next.columns) && j < |next.columns|
    ensures var n, l, g := next.columns[j], Left(was, next, vals, count),
      Full(Mssql, Reached(was, next), Carried(next.columns, vals, count));
      n.name in l && n.name in g && (Unnamed(l[n.name]) == Unnamed(g[n.name]) <==>
        StaysPersisted(Lookup(was.columns, n.original), n))
  {
    hide AttrOf, Full, Left, Carried, Held, Settle, Lookup, NamesDistinct, StaysPersisted;
    LeftAt(was, next, vals, count, j);
    CarriedAt(next.columns, vals, count, j);
    FullAt(Mssql, Reached(was, next), Carried(next.columns, vals, count), j);
    SettledAttr(next.name, Lookup(was.columns, next.columns[j].original), next.columns[j]);
  }

  lemma UnnamedSame(was: TableDesign, next: TableDesign, vals: map<string, seq<Value>>, count: nat)
    requires NamesDistinct(next.columns)
    ensures UnnamedColumns(Left(was, next, vals, count)) ==
      UnnamedColumns(Full(Mssql, Reached(was, next), Carried(next.columns, vals, count)))
      <==> PersistedKept(was.columns, next.columns)
  {
    hide Full, Left, Carried, Lookup, NamesDistinct, StaysPersisted, Unnamed;
    var l, g := Left(was, next, vals, count), Full(Mssql, Reached(was, next), Carried(next.columns, vals, count));
    LeftKeys(was, next, vals, count);
    FullKeys(Mssql, Reached(was, next), Carried(next.columns, vals, count));
    if PersistedKept(was.columns, next.columns) {
      forall q | q in l
        ensures q in g && Unnamed(l[q]) == Unnamed(g[q])
      {
        assert HasColumn(next.columns, q);
        var j :| 0 <= j < |next.columns| && next.columns[j].name == q;
        UnnamedAt(was, next, vals, count, j);
      }
      assert forall q :: q in g ==> q in l;
    } else {
      var j :| 0 <= j < |next.columns|
        && !StaysPersisted(Lookup(was.columns, next.columns[j].original), next.columns[j]);
      UnnamedAt(was, next, vals, count, j);
      var q := next.columns[j].name;
      assert UnnamedColumns(l)[q] == Unnamed(l[q]) && UnnamedColumns(g)[q] == Unnamed(g[q]);
    }
  }

  /**
   Up to the names of defaults, what is left is the new design exactly when no
   kept computed column was to be made persisted or not: that edit is lost.
   */
  lemma PersistedDecides(was: TableDesign, next: TableDesign, vals: map<string, seq<Value>>, count: nat)
    requires MsPlanned(was, next, vals)
    requires AlterTable(Mssql, was, next).Ok?
      && Run(Mssql, AlterTable(Mssql, was, next).value.steps, TableOf(Mssql, was, vals, count)).Some?
    ensures var r := Run(Mssql, AlterTable(Mssql, was, next).value.steps, TableOf(Mssql, was, vals, count)).value;
      UnnamedDefaults(r) == UnnamedDefaults(TableOf(Mssql, Reached(was, next), Carried(next.columns, vals, count),
        count).(order := r.order, former := r.former))
      <==> PersistedKept(was.columns, next.columns)
  {
    hide Run, AlterTable, SoundEdit, MsSound, Carried, KnownDefaults, LoadedRows, DefaultsApart, Bodies, ColumnsOf,
      UnnamedColumns, SettledColumns, PersistedKept, RealTriggers;
    PlanSettles(was, next, vals, count);
    SoundEditParts(was, next);
    SoundColumns(next);
    UnnamedSame(was, next, vals, count);
  }

  // ------------------------------------------------------------------ the edit that is lost

  /** Columns that differ in nothing but whether they are persisted. */
  predicate Flips(was: seq<ColumnDef>, news: seq<ColumnDef>) {
    |news| == |was| && forall i :: 0 <= i < |was| ==> news[i] == was[i].(generatedStored := news[i].generatedStored)
  }

  lemma FlipAlters(o: ColumnDef, stored: bool)
    ensures AlterMssql(o, o.(generatedStored := stored)) == Ok([])
  {
    hide TypeSql, Lower, NonBlank, NonEmpty;
    var n := o.(generatedStored := stored);
    FlipType(o, stored);
    var none: seq<Step> := [];
    assert none + none == none;
    assert CommentSteps(Mssql, n.name, o.comment, n.comment) == none;
    assert AlterMssql(o, n).value == none;
  }

  lemma FlipType(o: ColumnDef, stored: bool)
    ensures SameType(o, o.(generatedStored := stored))
  {
    hide Lower;
  }

  lemma {:induction false} FlipSteps(was: seq<ColumnDef>, news: seq<ColumnDef>, pos: nat)
    requires OwnColumns(was) && Flips(was, news) && pos <= |news|
    ensures AlterColumns(Mssql, was, news, pos) == Ok([])
    decreases |news| - pos
  {
    hide AlterMssql, OwnColumns, Lookup;
    if pos < |news| {
      NoMove(Mssql, was, pos);
      FlipAlters(was[pos], news[pos].generatedStored);
      FlipSteps(was, news, pos + 1);
      var none: seq<Step> := [];
      assert none + none == none;
    }
  }

  lemma {:induction false} FlipDrops(was: seq<ColumnDef>, news: seq<ColumnDef>, i: nat)
    requires OwnColumns(was) && Flips(was, news) && i <= |was|
    ensures DropColumns(Mssql, was[i..], news) == []
    decreases |was| - i
  {
    if i < |was| {
      assert was[i..][0] == was[i] && was[i..][1..] == was[i + 1..];
      assert news[i].original == Some(was[i].name);
      assert IsKept(news, was[i].name);
      FlipDrops(was, news, i + 1);
    }
  }

  /**
   Persisting computed columns of a loaded design, or ceasing to, is an empty plan,
   whatever else the design holds.
   */
  lemma PersistingIsLost(d: TableDesign, news: seq<ColumnDef>)
    requires AsLoaded(d) && Flips(d.columns, news) && Validate(d.(columns := news)).Ok?
    ensures AlterTable(Mssql, d, d.(columns := news)) == Ok(Plan([], true))
  {
    hide Validate, AlterColumns, DropColumns, NonEmpty, Flips, Removed, Added, AsLoaded;
    var next := d.(columns := news);
    assert OwnColumns(d.columns) by { ColumnsOwn(d); }
    NoParts(Mssql, d);
    assert DropParts(Mssql, d, next) == DropParts(Mssql, d, d) && AddParts(Mssql, d, next) == AddParts(Mssql, d, d);
    FlipSteps(d.columns, news, 0);
    assert d.columns[0..] == d.columns;
    FlipDrops(d.columns, news, 0);
    assert TableComment(Mssql, d, next) == [];
    assert DropKey(Mssql, d, next) == Ok([]);
    assert When(OldName(d, next) != next.name, RenameTable(next.name)) == [] by { OwnTableName(d); }
    var none: seq<Step> := [];
    assert none + none + none + none + none + none + none == none;
  }

  lemma ColumnsOwn(d: TableDesign)
    requires AsLoaded(d)
    ensures OwnColumns(d.columns)
  {
  }

  lemma OwnTableName(d: TableDesign)
    requires AsLoaded(d)
    ensures OldName(d, d) == d.name
  {
  }

  // ------------------------------------------------------------------ and again

  lemma {:induction false} StepsOk(was: seq<ColumnDef>, news: seq<ColumnDef>, pos: nat, j: nat)
    requires pos <= j < |news| && AlterColumns(Mssql, was, news, pos).Ok?
    ensures ColumnSteps(Mssql, was, news, j).Ok?
    decreases j - pos
  {
    hide ColumnSteps;
    if pos < j {
      StepsOk(was, news, pos + 1, j);
    }
  }

  lemma SettledKnown(table: string, was: seq<ColumnDef>, news: seq<ColumnDef>, j: nat)
    requires NamesDistinct(was) && Fresh(was, news) && KnownDefaults(was) && j < |news|
      && ColumnSteps(Mssql, was, news, j).Ok?
    ensures KnownDefault(Settle(table, Lookup(was, news[j].original), news[j]))
  {
    hide NonBlank, DefaultName, Fresh, NamesDistinct, Lookup, AlterMssql;
    LookupFresh(was, news, j);
    if news[j].original.Some? {
      var o := Lookup(was, news[j].original).value;
      StepsAre(o, news[j]);
      var i :| 0 <= i < |was| && was[i] == o;
      KnownAt(was, i);
    }
  }

  /** A design loaded after a plan is again one whose defaults are known, so plans can follow one another. */
  lemma SettledAgain(was: TableDesign, next: TableDesign, vals: map<string, seq<Value>>, count: nat)
    requires MsPlanned(was, next, vals)
    requires AlterTable(Mssql, was, next).Ok?
      && Run(Mssql, AlterTable(Mssql, was, next).value.steps, TableOf(Mssql, was, vals, count)).Some?
    ensures KnownDefaults(Settled(was, next).columns)
  {
    hide Run, SoundEdit, MsSound, Carried, KnownDefault, LoadedRows, Bodies, RealTriggers, Validate, DropParts,
      DropKey, DropColumns, AddParts, TableComment,
      Lookup, Settle, AttrOf, Fresh, NamesDistinct, ColumnSteps, Left, KnownDefaults, ColumnsOf, AlterColumns;
    PlanSettles(was, next, vals, count);
    SoundEditParts(was, next);
    SoundColumns(was);
    SoundColumns(next);
    var cs := Settled(was, next).columns;
    forall j | 0 <= j < |cs|
      ensures KnownDefault(cs[j]) && cs[j].name == next.columns[j].name
    {
      StepsOk(was.columns, next.columns, 0, j);
      SettledKnown(next.name, was.columns, next.columns, j);
      SettleNames(next.name, Lookup(was.columns, next.columns[j].original), next.columns[j]);
    }
    forall i, j | 0 <= i < j < |cs| && cs[i].defaultConstraint.Some?
      ensures cs[i].defaultConstraint != cs[j].defaultConstraint
    {
      LeftAt(was, next, vals, count, i);
      LeftAt(was, next, vals, count, j);
      NameOfDefault(cs[i]);
      NameOfDefault(cs[j]);
      NamesDiffer(next.columns, i, j);
      LeftIs(was, next, vals, count);
    }
    AllKnown(cs);
  }

  lemma NamesDiffer(cs: seq<ColumnDef>, i: nat, j: nat)
    requires NamesDistinct(cs) && i < j < |cs|
    ensures cs[i].name != cs[j].name
  {
  }

  lemma LeftIs(was: TableDesign, next: TableDesign, vals: map<string, seq<Value>>, count: nat)
    ensures TableOf(Mssql, Settled(was, next), Carried(next.columns, vals, count), count).cols ==
      Left(was, next, vals, count)
  {
    hide ColumnsOf, Bodies, RealTriggers, Carried;
  }

  lemma AllKnown(cs: seq<ColumnDef>)
    requires forall j :: 0 <= j < |cs| ==> KnownDefault(cs[j])
    requires forall i, j :: 0 <= i < j < |cs| && cs[i].defaultConstraint.Some? ==>
      cs[i].defaultConstraint != cs[j].defaultConstraint
    ensures KnownDefaults(cs)
  {
  }
}
