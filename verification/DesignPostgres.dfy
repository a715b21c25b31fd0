/** PostgreSQL: the steps for the columns, one column after the other. */
module DesignPostgres {
  import opened Prelude
  import opened Engines
  import opened Design
  import opened DesignExec
  import opened DesignParts
  import opened DesignValid
  import opened DesignColumns
  import opened DesignMoves

  // ------------------------------------------------------------------ renaming what nothing refers to

  lemma {:induction false} RenameIndexIdle(cs: seq<IndexColumn>, name: string, to: string)
    requires forall i :: 0 <= i < |cs| ==> cs[i].name != name
    ensures RenameIndexColumns(cs, name, to) == cs
  {
    if cs != [] {
      RenameIndexIdle(cs[1..], name, to);
    }
  }

  lemma RenamedIdle(t: Tbl, name: string, to: string)
    requires !Used(t, name) && !Referred(t, name)
    ensures RenamedParts(t, name, to) == t
  {
    var u := RenamedParts(t, name, to);
    if t.key.Some? {
      assert Replaced(t.key.value.columns, name, to) == t.key.value.columns;
    }
    forall k | k in t.indexes
      ensures u.indexes[k] == t.indexes[k]
    {
      assert !IndexUses(t.indexes[k], name);
      RenameIndexIdle(t.indexes[k].columns, name, to);
    }
    assert u.indexes == t.indexes;
    forall k | k in t.fks
      ensures u.fks[k] == t.fks[k]
    {
      assert Replaced(t.fks[k].columns, name, to) == t.fks[k].columns;
      if ToItself(t, t.fks[k]) {
        assert Swapped(t.folds, t.fks[k].refColumns, name, to) == t.fks[k].refColumns;
      }
    }
    assert u.fks == t.fks;
  }

  /** The same table, except for its columns and their order. */
  predicate SameBut(t: Tbl, u: Tbl) {
    u == t.(order := u.order, cols := u.cols)
  }

  /** A rename leaves everything that refers to columns alone: nothing refers to one that is renamed. */
  lemma RenameIdle(was: seq<ColumnDef>, news: seq<ColumnDef>, pos: nat, t: Tbl)
    requires Fresh(was, news) && RefersTo(t, news) && pos < |news| && news[pos].original.Some?
    requires news[pos].original.value in t.cols
    ensures var q, n := news[pos].original.value, news[pos].name;
      SameBut(t, Renamed(t, q, n)) && (t.cols - {q})[n := t.cols[q]] == Renamed(t, q, n).cols
  {
    hide RenamedParts, Fresh, RefersTo, Used, Referred;
    var q, n := news[pos].original.value, news[pos].name;
    if q != n {
      RenamedIsUnstable(was, news, pos);
      if Used(t, q) || Referred(t, q) {
        UsedIsStable(t, news, q);
      }
      RenamedIdle(t, q, n);
    }
  }

  // ------------------------------------------------------------------ what each column starts and ends as

  predicate PgColumns(cs: seq<ColumnDef>) {
    forall i :: 0 <= i < |cs| ==> PgColumn(cs[i])
  }

  lemma PgColumnAt(cs: seq<ColumnDef>, c: ColumnDef)
    requires PgColumns(cs) && c in cs
    ensures PgColumn(c)
  {
  }

  /** Key columns are NOT NULL. */
  predicate KeyNotNull(t: Tbl, news: seq<ColumnDef>) {
    t.key.Some? ==> forall j :: 0 <= j < |news| && news[j].name in t.key.value.columns ==> news[j].notNull
  }

  lemma KeyColumn(t: Tbl, news: seq<ColumnDef>, pos: nat)
    requires KeyNotNull(t, news) && pos < |news|
    ensures t.key.Some? && news[pos].name in t.key.value.columns ==> news[pos].notNull
  {
  }

  /** A column of the new design: as defined there, holding what it held, or its default in every row. */
  function Target(n: ColumnDef, vals: map<string, seq<Value>>, count: nat): Column {
    Column(AttrOf(Postgres, n, false), Held(n, vals, count))
  }

  ghost predicate StartsAs(was: seq<ColumnDef>, vals: map<string, seq<Value>>, start: map<string, Column>) {
    forall c :: c in was ==>
      && c.name in start && c.name in vals
      && start[c.name] == Column(AttrOf(Postgres, c, false), vals[c.name])
  }

  ghost predicate EndsAs(news: seq<ColumnDef>, vals: map<string, seq<Value>>, count: nat, goal: map<string, Column>) {
    forall c :: c in news ==> c.name in goal && goal[c.name] == Target(c, vals, count)
  }

  /**
   The setting of the column steps: two lists with fresh names, the columns they stand
   for, and what refers to them.
   */
  ghost predicate Steady(was: seq<ColumnDef>, news: seq<ColumnDef>, vals: map<string, seq<Value>>,
      start: map<string, Column>, goal: map<string, Column>, t: Tbl) {
    && NamesDistinct(was) && NamesDistinct(news) && Fresh(was, news) && PgColumns(was) && PgColumns(news)
    && StartsAs(was, vals, start) && EndsAs(news, vals, t.count, goal)
    && RefersTo(t, news) && KeyNotNull(t, news)
  }

  lemma SteadyBut(was: seq<ColumnDef>, news: seq<ColumnDef>, vals: map<string, seq<Value>>, start: map<string, Column>,
      goal: map<string, Column>, t: Tbl, u: Tbl)
    requires Steady(was, news, vals, start, goal, t) && SameBut(t, u)
    ensures Steady(was, news, vals, start, goal, u)
  {
    hide PgColumns, Fresh, NamesDistinct, Stable, StartsAs, EndsAs;
  }

  // ------------------------------------------------------------------ one column of the plan

  predicate SafeAt(was: seq<ColumnDef>, n: ColumnDef) {
    Lookup(was, n.original).Some? ==> SafeEdit(Lookup(was, n.original).value, n)
  }

  lemma StepKept(was: seq<ColumnDef>, news: seq<ColumnDef>, vals: map<string, seq<Value>>, start: map<string, Column>,
      goal: map<string, Column>, pos: nat, t: Tbl)
    returns (u: Tbl)
    requires Steady(was, news, vals, start, goal, t) && Moving(start, goal, news, pos, t.cols) && pos < |news|
    requires news[pos].original.Some? && ColumnSteps(Postgres, was, news, pos).Ok?
    ensures Run(Postgres, ColumnSteps(Postgres, was, news, pos).value, t) == if SafeAt(was, news[pos]) then Some(u)
      else None
    ensures SafeAt(was, news[pos]) ==> Moving(start, goal, news, pos + 1, u.cols) && SameBut(t, u)
  {
    hide AttrOf, Run, AlterPostgres, SafeEdit, Fill, PgColumn, PgColumns, RefersTo, KeyNotNull, Fresh, Renamed,
      NamesDistinct, Done, Waiting, Lookup;
    var n := news[pos];
    LookupFresh(was, news, pos);
    var o := Lookup(was, n.original).value;
    assert Agrees(start, o.name, t.cols);
    PgColumnAt(was, o);
    PgColumnAt(news, n);
    if o.name != n.name {
      NameIsFree(was, news, start, goal, pos, t.cols);
    }
    RenameIdle(was, news, pos, t);
    KeyColumn(t, news, pos);
    AlterRuns(t, o, n);
    var moved := Renamed(t, o.name, n.name);
    u := WithAttr(moved, n.name, AttrOf(Postgres, n, false));
    assert u.cols == (t.cols - {o.name})[n.name := Target(n, vals, t.count)];
    MoveOn(was, news, start, goal, pos, t.cols, u.cols);
  }

  lemma AddRuns(t: Tbl, n: ColumnDef)
    requires PgColumn(n) && n.name !in t.cols
    ensures Run(Postgres, [AddColumn(n, Anywhere)] + CommentSteps(Postgres, n.name, None, n.comment), t)
      == Some(t.(order := t.order + [n.name],
                 cols := t.cols[n.name := Column(AttrOf(Postgres, n, false),
                   Fill(AttrOf(Postgres, n, false), t.count))]))
  {
    hide TypeSql, Lower, NonBlank, NonEmpty, Counts, Run, Used, Referred;
    var add, note := AddColumn(n, Anywhere), SetComment(n.name, NonEmpty(n.comment));
    var changes := CommentChange(None, n.comment);
    NoneIsEmpty();
    WhenIs(true, add);
    WhenIs(changes, note);
    RunAppend(Postgres, [add], CommentSteps(Postgres, n.name, None, n.comment), t);
    RunWhen(Postgres, true, add, t);
    var a := AttrOf(Postgres, n, false);
    var u := t.(order := t.order + [n.name], cols := t.cols[n.name := Column(a.(comment := None), Fill(a, t.count))]);
    FillSame(a, t.count);
    assert Exec(Postgres, t, add) == Some(u);
    RunWhen(Postgres, changes, note, u);
    assert u.cols[n.name := Column(a, Fill(a, t.count))] == t.cols[n.name := Column(a, Fill(a, t.count))];
  }

  lemma NoneIsEmpty()
    ensures NonEmpty(None) == None
  {
  }

  lemma FillSame(a: Attr, count: nat)
    ensures Fill(a.(comment := None), count) == Fill(a, count)
  {
  }

  lemma StepAdded(was: seq<ColumnDef>, news: seq<ColumnDef>, vals: map<string, seq<Value>>, start: map<string, Column>,
      goal: map<string, Column>, pos: nat, t: Tbl)
    returns (u: Tbl)
    requires Steady(was, news, vals, start, goal, t) && Moving(start, goal, news, pos, t.cols) && pos < |news|
      && news[pos].original.None?
    ensures ColumnSteps(Postgres, was, news, pos).Ok? && SafeAt(was, news[pos])
    ensures Run(Postgres, ColumnSteps(Postgres, was, news, pos).value, t) == Some(u)
    ensures Moving(start, goal, news, pos + 1, u.cols) && SameBut(t, u)
  {
    hide AttrOf, Run, AlterPostgres, SafeEdit, Fill, Defaults, Used, RefersTo, PgColumn, Moving;
    var n := news[pos];
    NameIsFree(was, news, start, goal, pos, t.cols);
    PgColumnAt(news, n);
    AddRuns(t, n);
    u := t.(order := t.order + [n.name],
            cols := t.cols[n.name := Column(AttrOf(Postgres, n, false), Fill(AttrOf(Postgres, n, false), t.count))]);
    assert t.cols - {} == t.cols;
    FillIsDefaults(Postgres, n, false, t.count);
    MoveOn(was, news, start, goal, pos, t.cols, u.cols);
  }

  // ------------------------------------------------------------------ every column

  predicate SafeFrom(was: seq<ColumnDef>, news: seq<ColumnDef>, pos: nat) {
    forall j :: pos <= j < |news| ==> SafeAt(was, news[j])
  }

  /** The column steps run through exactly when every edit is safe, and then every column is as designed. */
  lemma {:induction false} ColumnsRun(
    was: seq<ColumnDef>, news: seq<ColumnDef>, vals: map<string, seq<Value>>, start: map<string, Column>,
      goal: map<string, Column>, pos: nat, t: Tbl)
    returns (u: Tbl)
    requires Steady(was, news, vals, start, goal, t) && pos <= |news| && Moving(start, goal, news, pos, t.cols)
    requires AlterColumns(Postgres, was, news, pos).Ok?
    ensures Run(Postgres, AlterColumns(Postgres, was, news, pos).value, t) == if SafeFrom(was, news, pos) then Some(u)
      else None
    ensures SafeFrom(was, news, pos) ==> Moving(start, goal, news, |news|, u.cols) && SameBut(t, u)
    decreases |news| - pos
  {
    hide Run, Exec, ColumnSteps, Moving, SafeAt, Steady;
    u := t;
    if pos == |news| {
      RunNothing(Postgres, t);
    } else {
      var first := ColumnSteps(Postgres, was, news, pos).value;
      var rest := AlterColumns(Postgres, was, news, pos + 1).value;
      RunAppend(Postgres, first, rest, t);
      var mid: Tbl;
      if news[pos].original.Some? {
        mid := StepKept(was, news, vals, start, goal, pos, t);
      } else {
        mid := StepAdded(was, news, vals, start, goal, pos, t);
      }
      if SafeAt(was, news[pos]) {
        SteadyBut(was, news, vals, start, goal, t, mid);
        u := ColumnsRun(was, news, vals, start, goal, pos + 1, mid);
      }
    }
  }
}
