/**
 On every engine: whatever else a plan does, when it runs through each kept column
 holds what it held and each new one its default.
 */
module DesignKept {
  import opened Prelude
  import opened Engines
  import opened Design
  import opened DesignExec
  import opened DesignValid
  import opened DesignMoves
  import opened DesignReach
  import DesignInPlace
  import opened DesignSqlite
  import opened DesignRebuild
  import opened DesignRebuildRun

  /** The rows, column by column. */
  function Rows(t: Tbl): map<string, seq<Value>> {
    map q | q in t.cols :: t.cols[q].values
  }

  /** A step that leaves every row alone. */
  predicate Still(s: Step) {
    !(s.DropColumn? || s.AddColumn? || s.RenameColumn? || s.ChangeColumn?)
  }

  predicate AllStill(steps: seq<Step>) {
    forall i :: 0 <= i < |steps| ==> Still(steps[i])
  }

  lemma RowsSame(t: Tbl, u: Tbl)
    requires t.cols.Keys == u.cols.Keys && forall q :: q in t.cols ==> t.cols[q].values == u.cols[q].values
    ensures Rows(t) == Rows(u)
  {
  }

  /** Altering a column or dropping a default leaves every value. */
  lemma AlterNotRows(e: Engine, t: Tbl, s: Step)
    requires (AltersColumn(s) || s.DropDefault?) && ExecColumn(e, t, s).Some?
    ensures var u := ExecColumn(e, t, s).value;
      && u.count == t.count && u.cols.Keys == t.cols.Keys
      && forall q :: q in t.cols ==> u.cols[q].values == t.cols[q].values
  {
    hide AlterAttr, HasDefault, DefaultTaken;
  }

  lemma StillStep(e: Engine, t: Tbl, s: Step)
    requires Still(s) && Exec(e, t, s).Some?
    ensures var u := Exec(e, t, s).value; Rows(u) == Rows(t) && u.count == t.count
  {
    hide ExecColumn, ExecDrop, ExecAdd, ExecRename, Rows;
    var u := Exec(e, t, s).value;
    if AltersColumn(s) || s.DropDefault? {
      AlterNotRows(e, t, s);
    } else {
      NotColumns(e, t, s);
    }
    RowsSame(t, u);
  }

  lemma DropNotColumns(e: Engine, t: Tbl, name: string)
    ensures ExecDropIndex(e, t, name).Some? ==>
      var u := ExecDropIndex(e, t, name).value; u.cols == t.cols && u.count == t.count
    ensures ExecDropKey(e, t).Some? ==> var u := ExecDropKey(e, t).value; u.cols == t.cols && u.count == t.count
  {
    hide LetsGo, KeyIndex, IndexNames;
  }

  lemma DropsNotColumns(e: Engine, t: Tbl, s: Step)
    requires OfDrops(s) && ExecDrop(e, t, s).Some?
    ensures var u := ExecDrop(e, t, s).value; u.cols == t.cols && u.count == t.count
  {
    hide ExecDropIndex, ExecDropKey;
    if s.DropIndex? || s.DropConstraint? {
      DropNotColumns(e, t, s.name);
    } else {
      DropNotColumns(e, t, "");
    }
  }

  lemma AddsNotColumns(e: Engine, t: Tbl, s: Step)
    requires OfAdds(s) && ExecAdd(e, t, s).Some?
    ensures var u := ExecAdd(e, t, s).value; u.cols == t.cols && u.count == t.count
  {
    hide ConstraintTaken, IndexTaken, IndexFits, ColumnsExist, Unfounded, BodyOfForeignKey, BodyOfIndex;
  }

  lemma NotColumns(e: Engine, t: Tbl, s: Step)
    requires Still(s) && !AltersColumn(s) && !s.DropDefault? && Exec(e, t, s).Some?
    ensures var u := Exec(e, t, s).value; u.cols == t.cols && u.count == t.count
  {
    hide ExecColumn, ExecDrop, ExecAdd, RetargetKeys, PointedAt;
    if OfDrops(s) {
      DropsNotColumns(e, t, s);
    } else if OfAdds(s) {
      AddsNotColumns(e, t, s);
    }
  }

  lemma {:induction false} StillRun(e: Engine, steps: seq<Step>, t: Tbl)
    requires AllStill(steps) && Run(e, steps, t).Some?
    ensures var u := Run(e, steps, t).value; Rows(u) == Rows(t) && u.count == t.count
    decreases |steps|
  {
    hide Exec, Rows;
    if steps != [] {
      assert Still(steps[0]);
      StillStep(e, t, steps[0]);
      StillRun(e, steps[1..], Exec(e, t, steps[0]).value);
    }
  }

  lemma RenameRows(e: Engine, t: Tbl, s: Step, name: string, to: string)
    requires (s.RenameColumn? && s.name == name && s.to == to) || (s.ChangeColumn? && s.name == name
      && s.column.name == to)
    requires Exec(e, t, s).Some?
    ensures var u := Exec(e, t, s).value;
      name in Rows(t) && Rows(u) == (Rows(t) - {name})[to := Rows(t)[name]] && u.count == t.count
  {
    hide AttrOf, PositionOk, RetargetColumn, RenameKeyColumns, Insert, Without;
    var u := Exec(e, t, s).value;
    forall q
      ensures q in Rows(u) <==> q in (Rows(t) - {name})[to := Rows(t)[name]]
      ensures q in Rows(u) ==> Rows(u)[q] == (Rows(t) - {name})[to := Rows(t)[name]][q]
    {
    }
    assert Rows(u) == (Rows(t) - {name})[to := Rows(t)[name]];
  }

  lemma AddRows(e: Engine, t: Tbl, c: ColumnDef, p: Position)
    requires Exec(e, t, AddColumn(c, p)).Some?
    ensures var u := Exec(e, t, AddColumn(c, p)).value;
      Rows(u) == Rows(t)[c.name := Defaults(c, t.count)] && u.count == t.count && c.name !in t.cols
  {
    hide AttrOf, PositionOk, AttrOk, Fill, Defaults, Insert;
    FillIsDefaults(e, c, false, t.count);
    AddedFill(e, t.name, c, t.count);
    var u := Exec(e, t, AddColumn(c, p)).value;
    forall q
      ensures q in Rows(u) <==> q in Rows(t)[c.name := Defaults(c, t.count)]
      ensures q in Rows(u) ==> Rows(u)[q] == Rows(t)[c.name := Defaults(c, t.count)][q]
    {
    }
  }

  lemma AddedFill(e: Engine, table: string, c: ColumnDef, count: nat)
    ensures Fill(AddedAttr(e, table, c), count) == Fill(AttrOf(e, c, false), count)
  {
    hide AttrOf;
  }

  lemma DropRows(e: Engine, t: Tbl, name: string)
    requires Exec(e, t, DropColumn(name)).Some?
    ensures var u := Exec(e, t, DropColumn(name)).value; Rows(u) == Rows(t) - {name} && u.count == t.count
  {
    hide Used, Without;
  }

  // ------------------------------------------------------------------ the phases

  lemma SplitRun(e: Engine, a: seq<Step>, b: seq<Step>, t: Tbl)
    requires Run(e, a + b, t).Some?
    ensures Run(e, a, t).Some? && Run(e, b, Run(e, a, t).value) == Run(e, a + b, t)
  {
    hide Run;
    RunAppend(e, a, b, t);
  }

  lemma OneRun(e: Engine, s: Step, t: Tbl)
    requires Run(e, [s], t).Some?
    ensures Exec(e, t, s) == Run(e, [s], t)
  {
    hide Exec;
    assert [s][1..] == [];
    var u := Exec(e, t, s);
    assert u.Some? && Run(e, [], u.value) == u;
  }

  lemma StillAppend(a: seq<Step>, b: seq<Step>)
    requires AllStill(a) && AllStill(b)
    ensures AllStill(a + b)
  {
  }

  lemma {:induction false} DropColumnsRows(e: Engine, olds: seq<ColumnDef>, news: seq<ColumnDef>, t: Tbl)
    requires Run(e, DropColumns(e, olds, news), t).Some?
    ensures var u := Run(e, DropColumns(e, olds, news), t).value;
      Rows(u) == Rows(t) - DroppedNames(olds, news) && u.count == t.count
    decreases |olds|
  {
    hide Run, Exec, Rows, IsKept;
    if olds == [] {
      assert Rows(t) - {} == Rows(t);
      RunNothing(e, t);
    } else {
      var rest := DropColumns(e, olds[1..], news);
      if IsKept(news, olds[0].name) {
        assert [] + rest == rest;
        DropColumnsRows(e, olds[1..], news, t);
      } else {
        var before := if e.Mssql? && olds[0].defaultConstraint.Some? then
          [DropDefault(olds[0].defaultConstraint.value)] else [];
        assert DropColumns(e, olds, news) == before + ([DropColumn(olds[0].name)] + rest);
        SplitRun(e, before, [DropColumn(olds[0].name)] + rest, t);
        StillRun(e, before, t);
        var t1 := Run(e, before, t).value;
        SplitRun(e, [DropColumn(olds[0].name)], rest, t1);
        OneRun(e, DropColumn(olds[0].name), t1);
        DropRows(e, t1, olds[0].name);
        var t2 := Run(e, [DropColumn(olds[0].name)], t1).value;
        DropColumnsRows(e, olds[1..], news, t2);
        assert (Rows(t) - {olds[0].name}) - DroppedNames(olds[1..], news) == Rows(t) - DroppedNames(olds, news);
      }
    }
  }

  lemma WhenStill(b: bool, s: Step)
    requires Still(s)
    ensures AllStill(When(b, s))
  {
  }

  lemma CommentStill(e: Engine, name: string, was: Option<string>, next: Option<string>)
    ensures AllStill(CommentSteps(e, name, was, next))
  {
  }

  lemma BothStill(a: seq<Step>, b: seq<Step>)
    requires AllStill(a) && AllStill(b)
    ensures AllStill(a + b)
  {
    hide Still;
  }

  lemma PostgresSplits(o: ColumnDef, n: ColumnDef) returns (rest: seq<Step>)
    requires AlterPostgres(o, n).Ok?
    ensures AlterPostgres(o, n).value == When(o.name != n.name, RenameColumn(o.name, n.name)) + rest && AllStill(rest)
  {
    hide TypeSql, Lower, NonBlank, NonEmpty, SameType, When, CommentSteps, AllStill;
    CommentStill(Postgres, n.name, o.comment, n.comment);
    var rename, note := When(o.name != n.name, RenameColumn(o.name, n.name)),
      CommentSteps(Postgres, n.name, o.comment, n.comment);
    var a, b := When(!SameType(o, n), SetType(n.name, TypeSql(n), NonEmpty(n.collation))),
      When(o.notNull != n.notNull, SetNotNull(n.name, n.notNull));
    var c, d := When(o.initial != n.initial, SetDefault(n.name, NonBlank(n.initial))),
      When(o.autoIncrement != n.autoIncrement, SetIdentity(n.name, n.autoIncrement));
    WhenStill(!SameType(o, n), SetType(n.name, TypeSql(n), NonEmpty(n.collation)));
    WhenStill(o.notNull != n.notNull, SetNotNull(n.name, n.notNull));
    WhenStill(o.initial != n.initial, SetDefault(n.name, NonBlank(n.initial)));
    WhenStill(o.autoIncrement != n.autoIncrement, SetIdentity(n.name, n.autoIncrement));
    BothStill(a, b);
    BothStill(a + b, c);
    BothStill(a + b + c, d);
    BothStill(a + b + c + d, note);
    rest := a + b + c + d + note;
    assert AlterPostgres(o, n).value == rename + rest;
  }

  lemma MssqlSplits(o: ColumnDef, n: ColumnDef) returns (rest: seq<Step>)
    requires AlterMssql(o, n).Ok?
    ensures AlterMssql(o, n).value == When(o.name != n.name, RenameColumn(o.name, n.name)) + rest && AllStill(rest)
  {
    hide TypeSql, Lower, NonBlank, NonEmpty, SameType, When, CommentSteps, AllStill;
    CommentStill(Mssql, n.name, o.comment, n.comment);
    var rename, note := When(o.name != n.name, RenameColumn(o.name, n.name)),
      CommentSteps(Mssql, n.name, o.comment, n.comment);
    var a := When(!SameType(o, n) || o.notNull != n.notNull,
      AlterColumn(n.name, TypeSql(n), NonEmpty(n.collation), n.notNull));
    WhenStill(!SameType(o, n) || o.notNull != n.notNull,
      AlterColumn(n.name, TypeSql(n), NonEmpty(n.collation), n.notNull));
    var b := if o.initial == n.initial then []
      else (if o.defaultConstraint.Some? then [DropDefault(o.defaultConstraint.value)] else [])
           + (if NonBlank(n.initial).Some? then [AddDefault(n.name, NonBlank(n.initial).value)] else []);
    assert AllStill(b) by { DefaultsStill(o, n); }
    BothStill(a, b);
    BothStill(a + b, note);
    rest := a + b + note;
    assert AlterMssql(o, n).value == rename + rest;
  }

  lemma DefaultsStill(o: ColumnDef, n: ColumnDef)
    ensures AllStill(
      if o.initial == n.initial then []
      else (if o.defaultConstraint.Some? then [DropDefault(o.defaultConstraint.value)] else [])
           + (if NonBlank(n.initial).Some? then [AddDefault(n.name, NonBlank(n.initial).value)] else []))
  {
    hide NonBlank;
  }

  /** A kept column's steps: possibly a rename, and otherwise nothing that touches rows. */
  lemma AlterSplits(e: Engine, o: ColumnDef, n: ColumnDef, p: Position) returns (rest: seq<Step>)
    requires AlterOne(e, o, n, p).Ok? && (e.Postgres? || e.Mssql?)
    ensures AlterOne(e, o, n, p).value == When(o.name != n.name, RenameColumn(o.name, n.name)) + rest && AllStill(rest)
  {
    hide AlterPostgres, AlterMssql, When, AllStill;
    if e.Postgres? {
      rest := PostgresSplits(o, n);
    } else {
      rest := MssqlSplits(o, n);
    }
  }

  /** The column at its turn: its rows move to its new name. */
  lemma AlterRows(e: Engine, o: ColumnDef, n: ColumnDef, p: Position, t: Tbl)
    requires !e.Sqlite? && !e.Redis? && AlterOne(e, o, n, p).Ok? && Run(e, AlterOne(e, o, n, p).value, t).Some?
      && o.name in Rows(t)
    ensures var u := Run(e, AlterOne(e, o, n, p).value, t).value;
      Rows(u) == (Rows(t) - {o.name})[n.name := Rows(t)[o.name]] && u.count == t.count
  {
    hide Run, Exec, Rows, SameDefinition, AlterPostgres, AlterMssql;
    assert (Rows(t) - {o.name})[o.name := Rows(t)[o.name]] == Rows(t);
    if e.IsMysqlFamily() {
      var c := o.name != n.name || !SameDefinition(o, n) || o.comment != n.comment || p != Anywhere;
      RunWhen(e, c, ChangeColumn(o.name, n, p), t);
      if c {
        RenameRows(e, t, ChangeColumn(o.name, n, p), o.name, n.name);
      }
    } else {
      var rest := AlterSplits(e, o, n, p);
      SplitRun(e, When(o.name != n.name, RenameColumn(o.name, n.name)), rest, t);
      RunWhen(e, o.name != n.name, RenameColumn(o.name, n.name), t);
      if o.name != n.name {
        RenameRows(e, t, RenameColumn(o.name, n.name), o.name, n.name);
      }
      StillRun(e, rest, Run(e, When(o.name != n.name, RenameColumn(o.name, n.name)), t).value);
    }
  }

  /** A row set that starts as loaded and must end as designed. */
  ghost predicate Travels(was: seq<ColumnDef>, news: seq<ColumnDef>, vals: map<string, seq<Value>>, count: nat) {
    NamesDistinct(was) && NamesDistinct(news) && Fresh(was, news) && KeysAre(vals, was)
  }

  lemma ColumnRows(e: Engine, was: seq<ColumnDef>, news: seq<ColumnDef>, vals: map<string, seq<Value>>, pos: nat,
      t: Tbl)
    requires !e.Sqlite? && !e.Redis? && pos < |news| && Travels(was, news, vals, t.count)
    requires Moving(vals, Carried(news, vals, t.count), news, pos, Rows(t))
    requires ColumnSteps(e, was, news, pos).Ok? && Run(e, ColumnSteps(e, was, news, pos).value, t).Some?
    ensures var u := Run(e, ColumnSteps(e, was, news, pos).value, t).value;
      Moving(vals, Carried(news, vals, t.count), news, pos + 1, Rows(u)) && u.count == t.count
  {
    hide Run, Rows, AlterOne, NamesDistinct, Fresh, Carried, Lookup, MysqlPosition, Defaults, Done, Waiting;
    var n, goal := news[pos], Carried(news, vals, t.count);
    LookupFresh(was, news, pos);
    CarriedAt(news, vals, t.count, pos);
    HeldIs(n, vals, t.count);
    var u := Run(e, ColumnSteps(e, was, news, pos).value, t).value;
    if n.original.Some? {
      var o := Lookup(was, n.original).value;
      assert Agrees(vals, o.name, Rows(t));
      AlterRows(e, o, n, MysqlPosition(e, was, news, pos), t);
    } else {
      var add, note := AddColumn(n, MysqlPosition(e, was, news, pos)), CommentSteps(e, n.name, None, n.comment);
      SplitRun(e, [add], note, t);
      OneRun(e, add, t);
      AddRows(e, t, n, MysqlPosition(e, was, news, pos));
      CommentStill(e, n.name, None, n.comment);
      StillRun(e, note, Run(e, [add], t).value);
      assert Rows(t) - {} == Rows(t);
    }
    MoveOn(was, news, vals, goal, pos, Rows(t), Rows(u));
  }

  lemma HeldIs(n: ColumnDef, vals: map<string, seq<Value>>, count: nat)
    ensures n.original.Some? && n.original.value in vals ==> Held(n, vals, count) == vals[n.original.value]
    ensures n.original.None? ==> Held(n, vals, count) == Defaults(n, count)
  {
  }

  lemma {:induction false} ColumnsRows(e: Engine, was: seq<ColumnDef>, news: seq<ColumnDef>,
      vals: map<string, seq<Value>>, pos: nat, t: Tbl)
    requires !e.Sqlite? && !e.Redis? && pos <= |news| && Travels(was, news, vals, t.count)
    requires Moving(vals, Carried(news, vals, t.count), news, pos, Rows(t))
    requires AlterColumns(e, was, news, pos).Ok? && Run(e, AlterColumns(e, was, news, pos).value, t).Some?
    ensures var u := Run(e, AlterColumns(e, was, news, pos).value, t).value;
      Moving(vals, Carried(news, vals, t.count), news, |news|, Rows(u)) && u.count == t.count
    decreases |news| - pos
  {
    hide Run, Rows, ColumnSteps, Moving, Carried, Travels;
    if pos == |news| {
      RunNothing(e, t);
    } else {
      var first, rest := ColumnSteps(e, was, news, pos).value, AlterColumns(e, was, news, pos + 1).value;
      SplitRun(e, first, rest, t);
      ColumnRows(e, was, news, vals, pos, t);
      ColumnsRows(e, was, news, vals, pos + 1, Run(e, first, t).value);
    }
  }

  // ------------------------------------------------------------------ everything else leaves rows alone

  lemma {:induction false} DropForeignKeysStill(e: Engine, xs: seq<ForeignKeyDef>)
    ensures AllStill(DropForeignKeys(e, xs))
  {
    if xs != [] {
      DropForeignKeysStill(e, xs[1..]);
    }
  }

  lemma {:induction false} DropIndexesStill(e: Engine, xs: seq<IndexDef>)
    ensures AllStill(DropIndexes(e, xs))
  {
    if xs != [] {
      DropIndexesStill(e, xs[1..]);
    }
  }

  lemma {:induction false} DropChecksStill(e: Engine, xs: seq<CheckDef>)
    ensures AllStill(DropChecks(e, xs))
  {
    if xs != [] {
      DropChecksStill(e, xs[1..]);
    }
  }

  lemma {:induction false} DropTriggersStill(xs: seq<TriggerDef>)
    ensures AllStill(DropTriggers(xs))
  {
    if xs != [] {
      DropTriggersStill(xs[1..]);
    }
  }

  lemma DropPartsStill(e: Engine, was: TableDesign, next: TableDesign)
    ensures AllStill(DropParts(e, was, next))
  {
    hide AllStill, Removed;
    var a, b := DropForeignKeys(e, Removed(FK, was.foreignKeys, next.foreignKeys)),
      DropIndexes(e, Removed(IX, was.indexes, next.indexes));
    var c, d := DropChecks(e, Removed(CK, was.checks, next.checks)),
      DropTriggers(Removed(TR, was.triggers, next.triggers));
    DropForeignKeysStill(e, Removed(FK, was.foreignKeys, next.foreignKeys));
    DropIndexesStill(e, Removed(IX, was.indexes, next.indexes));
    DropChecksStill(e, Removed(CK, was.checks, next.checks));
    DropTriggersStill(Removed(TR, was.triggers, next.triggers));
    StillAppend(a, b);
    StillAppend(a + b, c);
    StillAppend(a + b + c, d);
  }

  lemma {:induction false} AddChecksStill(xs: seq<CheckDef>)
    ensures AllStill(AddChecks(xs))
  {
    if xs != [] {
      AddChecksStill(xs[1..]);
    }
  }

  lemma {:induction false} AddIndexesStill(xs: seq<IndexDef>)
    ensures AllStill(AddIndexes(xs))
  {
    if xs != [] {
      AddIndexesStill(xs[1..]);
    }
  }

  lemma {:induction false} AddForeignKeysStill(xs: seq<ForeignKeyDef>)
    ensures AllStill(AddForeignKeys(xs))
  {
    if xs != [] {
      AddForeignKeysStill(xs[1..]);
    }
  }

  lemma {:induction false} AddTriggersStill(xs: seq<TriggerDef>)
    ensures AllStill(AddTriggers(xs))
  {
    hide IsBlank;
    if xs != [] {
      AddTriggersStill(xs[1..]);
      WhenStill(!IsBlank(xs[0].definition), AddTrigger(xs[0]));
      StillAppend(When(!IsBlank(xs[0].definition), AddTrigger(xs[0])), AddTriggers(xs[1..]));
    }
  }

  lemma AddPartsStill(e: Engine, was: TableDesign, next: TableDesign)
    ensures AllStill(AddParts(e, was, next))
  {
    hide AllStill, Added, AddKey, AddChecks, AddIndexes, AddForeignKeys, AddTriggers;
    var a, b, c := AddKey(e, was, next), AddChecks(Added(CK, was.checks, next.checks)),
      AddIndexes(Added(IX, was.indexes, next.indexes));
    var d, g := AddForeignKeys(Added(FK, was.foreignKeys, next.foreignKeys)),
      AddTriggers(Added(TR, was.triggers, next.triggers));
    AddKeyStill(e, was, next);
    AddChecksStill(Added(CK, was.checks, next.checks));
    AddIndexesStill(Added(IX, was.indexes, next.indexes));
    AddForeignKeysStill(Added(FK, was.foreignKeys, next.foreignKeys));
    AddTriggersStill(Added(TR, was.triggers, next.triggers));
    StillAppend(a, b);
    StillAppend(a + b, c);
    StillAppend(a + b + c, d);
    StillAppend(a + b + c + d, g);
  }

  lemma AddKeyStill(e: Engine, was: TableDesign, next: TableDesign)
    ensures AllStill(AddKey(e, was, next))
  {
  }

  lemma TableCommentStill(e: Engine, was: TableDesign, next: TableDesign)
    ensures AllStill(TableComment(e, was, next))
  {
  }

  lemma DropKeyStill(e: Engine, was: TableDesign, next: TableDesign)
    requires DropKey(e, was, next).Ok?
    ensures AllStill(DropKey(e, was, next).value)
  {
  }

  // ------------------------------------------------------------------ the plan

  /** The loaded rows: one list of values for every loaded column, and no others. */
  ghost predicate LoadedRows(was: TableDesign, vals: map<string, seq<Value>>) {
    NamesDistinct(was.columns) && KeysAre(vals, was.columns)
  }

  lemma RowsOfTable(e: Engine, was: TableDesign, vals: map<string, seq<Value>>, count: nat)
    requires LoadedRows(was, vals)
    ensures Rows(TableOf(e, was, vals, count)) == vals
  {
    hide ColumnsOf, NamesDistinct, HasColumn;
    var t := TableOf(e, was, vals, count);
    forall q
      ensures (q in Rows(t) <==> q in vals) && (q in Rows(t) ==> Rows(t)[q] == vals[q])
    {
      ColumnsOfKeys(e, was, was.columns, vals, q);
      if q in vals {
        var i := ColumnOffset(was.columns, q);
        ColumnsOfAt(e, was, was.columns, vals, i);
      }
    }
  }

  /**
   PostgreSQL, MySQL, MariaDB and SQL Server, with fresh names: if the plan runs
   through, every row is still there, each kept column holds under its new name
   exactly what it held under the old one, and each new column its default.
   */
  lemma PlanKeepsRows(e: Engine, was: TableDesign, next: TableDesign, vals: map<string, seq<Value>>, count: nat)
    requires !e.Sqlite? && !e.Redis? && LoadedRows(was, vals) && NamesDistinct(next.columns)
      && Fresh(was.columns, next.columns)
    requires AlterTable(e, was, next).Ok?
      && Run(e, AlterTable(e, was, next).value.steps, TableOf(e, was, vals, count)).Some?
    ensures var u := Run(e, AlterTable(e, was, next).value.steps, TableOf(e, was, vals, count)).value;
      Rows(u) == Carried(next.columns, vals, count) && u.count == count
  {
    hide Run, Rows, Carried, Moving, NamesDistinct, Fresh, KeysAre, Validate, DropParts, DropKey, DropColumns,
      AlterColumns, AddParts, TableComment, TableOf, AllStill, DroppedNames;
    var a, b, c := When(OldName(was, next) != next.name, RenameTable(next.name)), DropParts(e, was, next),
      DropKey(e, was, next).value;
    var d, f := DropColumns(e, was.columns, next.columns), AlterColumns(e, was.columns, next.columns, 0).value;
    var g, h := AddParts(e, was, next), TableComment(e, was, next);
    var t0, before, after := TableOf(e, was, vals, count), a + b + c, g + h;
    assert AlterTable(e, was, next).value.steps == before + (d + (f + after));
    CountOf(e, was, vals, count);
    RowsOfTable(e, was, vals, count);
    WhenStill(OldName(was, next) != next.name, RenameTable(next.name));
    DropPartsStill(e, was, next);
    DropKeyStill(e, was, next);
    StillAppend(a, b);
    StillAppend(a + b, c);
    SplitRun(e, before, d + (f + after), t0);
    StillRun(e, before, t0);
    var t1 := Run(e, before, t0).value;
    SplitRun(e, d, f + after, t1);
    DropColumnsRows(e, was.columns, next.columns, t1);
    var t2 := Run(e, d, t1).value;
    MovingBegins(was.columns, next.columns, vals, Carried(next.columns, vals, count), Rows(t2));
    SplitRun(e, f, after, t2);
    ColumnsRows(e, was.columns, next.columns, vals, 0, t2);
    var t3 := Run(e, f, t2).value;
    CarriedKeys(next.columns, vals, count);
    MovingEnds(next.columns, vals, Carried(next.columns, vals, count), Rows(t3));
    AddPartsStill(e, was, next);
    TableCommentStill(e, was, next);
    StillAppend(g, h);
    StillRun(e, after, t3);
  }

  lemma CountOf(e: Engine, was: TableDesign, vals: map<string, seq<Value>>, count: nat)
    ensures TableOf(e, was, vals, count).count == count
  {
  }

  lemma {:induction false} CarriedKey(cs: seq<ColumnDef>, vals: map<string, seq<Value>>, count: nat, q: string)
    ensures q in Carried(cs, vals, count) <==> HasColumn(cs, q)
  {
    hide Held;
    if cs != [] {
      CarriedKey(cs[1..], vals, count, q);
      HasColumnTail(cs, q);
    }
  }

  lemma CarriedKeys(cs: seq<ColumnDef>, vals: map<string, seq<Value>>, count: nat)
    ensures KeysAre(Carried(cs, vals, count), cs)
  {
    hide Carried, HasColumn;
    forall q
      ensures q in Carried(cs, vals, count) <==> HasColumn(cs, q)
    {
      CarriedKey(cs, vals, count, q);
    }
  }

  // ------------------------------------------------------------------ SQLite

  lemma StepRows(was: seq<ColumnDef>, news: seq<ColumnDef>, vals: map<string, seq<Value>>, pos: nat, t: Tbl)
    requires pos < |news| && Travels(was, news, vals, t.count)
    requires Moving(vals, Carried(news, vals, t.count), news, pos, Rows(t))
      && Run(Sqlite, AddOrRename([news[pos]]), t).Some?
    ensures var u := Run(Sqlite, AddOrRename([news[pos]]), t).value;
      Moving(vals, Carried(news, vals, t.count), news, pos + 1, Rows(u)) && u.count == t.count
  {
    hide Run, Rows, NamesDistinct, Fresh, Carried, Defaults, Done, Waiting;
    var n, goal := news[pos], Carried(news, vals, t.count);
    DesignInPlace.StepOf(n);
    CarriedAt(news, vals, t.count, pos);
    HeldIs(n, vals, t.count);
    var u := Run(Sqlite, AddOrRename([n]), t).value;
    if n.original.Some? {
      var q := n.original.value;
      assert Agrees(vals, q, Rows(t));
      assert (Rows(t) - {q})[q := Rows(t)[q]] == Rows(t);
      if q != n.name {
        OneRun(Sqlite, RenameColumn(q, n.name), t);
        RenameRows(Sqlite, t, RenameColumn(q, n.name), q, n.name);
      } else {
        RunNothing(Sqlite, t);
      }
    } else {
      OneRun(Sqlite, AddColumn(n, Anywhere), t);
      AddRows(Sqlite, t, n, Anywhere);
      assert Rows(t) - {} == Rows(t);
    }
    MoveOn(was, news, vals, goal, pos, Rows(t), Rows(u));
  }

  lemma {:induction false} StepsRows(was: seq<ColumnDef>, news: seq<ColumnDef>, vals: map<string, seq<Value>>,
      pos: nat, t: Tbl)
    requires pos <= |news| && Travels(was, news, vals, t.count)
    requires Moving(vals, Carried(news, vals, t.count), news, pos, Rows(t))
      && Run(Sqlite, AddOrRename(news[pos..]), t).Some?
    ensures var u := Run(Sqlite, AddOrRename(news[pos..]), t).value;
      Moving(vals, Carried(news, vals, t.count), news, |news|, Rows(u)) && u.count == t.count
    decreases |news| - pos
  {
    hide Run, Rows, Moving, Carried, Travels;
    if pos == |news| {
      assert news[pos..] == [];
      RunNothing(Sqlite, t);
    } else {
      assert news[pos..][1..] == news[pos + 1..] && news[pos..][0] == news[pos];
      DesignInPlace.StepOf(news[pos]);
      var first, rest := AddOrRename([news[pos]]), AddOrRename(news[pos + 1..]);
      assert AddOrRename(news[pos..]) == first + rest;
      SplitRun(Sqlite, first, rest, t);
      StepRows(was, news, vals, pos, t);
      StepsRows(was, news, vals, pos + 1, Run(Sqlite, first, t).value);
    }
  }

  lemma {:induction false} AddTriggerTextsStill(xs: seq<TriggerDef>)
    ensures AllStill(AddTriggerTexts(xs))
  {
    if xs != [] {
      AddTriggerTextsStill(xs[1..]);
    }
  }

  /** SQLite in place, whatever the columns. */
  lemma InPlaceKeepsRows(was: TableDesign, next: TableDesign, vals: map<string, seq<Value>>, t: Tbl)
    requires LoadedRows(was, vals) && NamesDistinct(next.columns) && Fresh(was.columns, next.columns)
    requires Rows(t) == vals && Run(Sqlite, InPlaceSteps(was, next), t).Some?
    ensures var u := Run(Sqlite, InPlaceSteps(was, next), t).value;
      Rows(u) == Carried(next.columns, vals, t.count) && u.count == t.count
  {
    hide Run, Rows, Carried, Moving, NamesDistinct, Fresh, KeysAre, DropColumns, AddOrRename, AllStill, DroppedNames,
      DropIndexes, AddIndexes, DropTriggers, AddTriggerTexts;
    var d, f := DropColumns(Sqlite, was.columns, next.columns), AddOrRename(next.columns);
    var a, b := DropIndexes(Sqlite, Removed(IX, was.indexes, next.indexes)),
      AddIndexes(Added(IX, was.indexes, next.indexes));
    var c, g := DropTriggers(Removed(TR, was.triggers, next.triggers)),
      AddTriggerTexts(Added(TR, was.triggers, next.triggers));
    var after := a + b + c + g;
    assert InPlaceSteps(was, next) == d + (f + after);
    SplitRun(Sqlite, d, f + after, t);
    DropColumnsRows(Sqlite, was.columns, next.columns, t);
    var t1 := Run(Sqlite, d, t).value;
    MovingBegins(was.columns, next.columns, vals, Carried(next.columns, vals, t.count), Rows(t1));
    SplitRun(Sqlite, f, after, t1);
    assert next.columns[0..] == next.columns;
    StepsRows(was.columns, next.columns, vals, 0, t1);
    var t2 := Run(Sqlite, f, t1).value;
    CarriedKeys(next.columns, vals, t.count);
    MovingEnds(next.columns, vals, Carried(next.columns, vals, t.count), Rows(t2));
    DropIndexesStill(Sqlite, Removed(IX, was.indexes, next.indexes));
    AddIndexesStill(Added(IX, was.indexes, next.indexes));
    DropTriggersStill(Removed(TR, was.triggers, next.triggers));
    AddTriggerTextsStill(Added(TR, was.triggers, next.triggers));
    StillAppend(a, b);
    StillAppend(a + b, c);
    StillAppend(a + b + c, g);
    StillRun(Sqlite, after, t2);
  }

  /**
   SQLite's rebuild keeps the rows, and every ordinary kept column's values,
   exactly when it copies a column at all (or there are no rows to lose).
   */
  lemma RebuildKeepsRows(was: TableDesign, next: TableDesign, vals: map<string, seq<Value>>, count: nat, db: Db)
    requires Rebuildable(was, next, vals, count, db) && RunSql(db, false, RebuildBody(was, next)).Some?
    ensures var d := RunSql(db, false, RebuildBody(was, next)).value;
      && next.name in d
      && (d[next.name].count == count <==>
        count == 0 || exists j :: 0 <= j < |next.columns| && IsCopied(was.columns, next.columns[j]))
      && (forall j :: 0 <= j < |next.columns| && IsCopied(was.columns, next.columns[j]) ==>
            next.columns[j].name in d[next.name].cols
              && d[next.name].cols[next.columns[j].name].values == vals[next.columns[j].original.value])
  {
    hide RunSql, RebuildBody, TableOf, AllRefilled, CopiedPairs, Fillable, SoundTable, Unreferenced, IsCopied,
      ColumnsOf;
    RebuildRuns(was, next, vals, count, db);
    var d := RunSql(db, false, RebuildBody(was, next)).value;
    KeysDistinct(next);
    KeysDistinct(was);
    CountOf(Sqlite, next, AllRefilled(was.columns, next.columns, vals, count), count);
    CountOf(Sqlite, next, map[], 0);
    NameOfTable(next, AllRefilled(was.columns, next.columns, vals, count), count);
    NameOfTable(next, map[], 0);
    PairsMeanCopies(was.columns, next.columns);
    forall j | 0 <= j < |next.columns| && IsCopied(was.columns, next.columns[j])
      ensures next.columns[j].original.Some? && next.columns[j].original.value in vals
      ensures next.columns[j].name in d[next.name].cols
        && d[next.name].cols[next.columns[j].name].values == vals[next.columns[j].original.value]
    {
      CopiedKeeps(was, next, vals, count, j);
    }
  }

  lemma CopiedKeeps(was: TableDesign, next: TableDesign, vals: map<string, seq<Value>>, count: nat, j: nat)
    requires NamesDistinct(was.columns) && NamesDistinct(next.columns) && Loaded(was, vals) && j < |next.columns|
      && IsCopied(was.columns, next.columns[j])
    ensures var t := TableOf(Sqlite, next, AllRefilled(was.columns, next.columns, vals, count), count); var n :=
      next.columns[j];
      n.original.Some? && n.original.value in vals && n.name in t.cols
        && t.cols[n.name].values == vals[n.original.value]
  {
    hide AllRefilled, ColumnsOf, AttrOf, IsCopied;
    AllRefilledAt(was.columns, next.columns, vals, count, j);
    ColumnsOfAt(Sqlite, next, next.columns, AllRefilled(was.columns, next.columns, vals, count), j);
    CopiedSource(was, next.columns[j], vals, count);
  }

  lemma {:induction false} PairsMeanCopies(was: seq<ColumnDef>, cs: seq<ColumnDef>)
    ensures CopiedPairs(was, cs) != [] <==> exists j :: 0 <= j < |cs| && IsCopied(was, cs[j])
  {
    hide IsCopied;
    if cs != [] {
      PairsMeanCopies(was, cs[1..]);
      if exists j :: 0 <= j < |cs[1..]| && IsCopied(was, cs[1..][j]) {
        var j :| 0 <= j < |cs[1..]| && IsCopied(was, cs[1..][j]);
        assert IsCopied(was, cs[j + 1]);
      }
      if exists j :: 0 <= j < |cs| && IsCopied(was, cs[j]) {
        var j :| 0 <= j < |cs| && IsCopied(was, cs[j]);
        if j > 0 {
          assert IsCopied(was, cs[1..][j - 1]);
        } else {
          CopiedHasOrigin(was, cs[0]);
        }
      }
    }
  }
}
