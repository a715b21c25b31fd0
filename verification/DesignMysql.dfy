/** MySQL and MariaDB: a plan that runs through leaves the new design, however its statements were committed. */
module DesignMysql {
  import opened Prelude
  import opened Engines
  import opened Design
  import opened DesignExec
  import opened DesignParts
  import opened DesignValid
  import opened DesignMoves
  import opened DesignPostgres
  import opened DesignReferences
  import opened DesignPhases
  import opened DesignAdds
  import opened DesignReach
  import opened DesignKept

  // ------------------------------------------------------------------ what drops leave

  lemma ConsRun(e: Engine, s: Step, rest: seq<Step>, t: Tbl)
    requires Run(e, [s] + rest, t).Some?
    ensures Exec(e, t, s).Some? && Run(e, [s] + rest, t) == Run(e, rest, Exec(e, t, s).value)
  {
    hide Exec;
    assert ([s] + rest)[1..] == rest;
  }

  lemma {:induction false} ForeignKeysDropped(e: Engine, xs: seq<ForeignKeyDef>, t: Tbl)
    requires e.IsMysqlFamily() && Run(e, DropForeignKeys(e, xs), t).Some?
    ensures Run(e, DropForeignKeys(e, xs), t) == Some(t.(fks := t.fks - NameSet(FK, xs)))
    decreases |xs|
  {
    hide Run, NameSet;
    if xs == [] {
      NoNames(FK, t.fks);
      RunNothing(e, t);
    } else {
      ConsRun(e, DropForeignKey(xs[0].name), DropForeignKeys(e, xs[1..]), t);
      ForeignKeysDropped(e, xs[1..], t.(fks := t.fks - {xs[0].name}));
      LessNames(FK, t.fks, xs);
    }
  }

  lemma IndexDropped(e: Engine, x: IndexDef, t: Tbl)
    requires e.IsMysqlFamily() && Exec(e, t, DropIndexStep(e, x)).Some?
    ensures Exec(e, t, DropIndexStep(e, x)) == Some(t.(indexes := t.indexes - {x.name}))
  {
    hide LetsGo, KeyIndex, IndexNames;
  }

  lemma {:induction false} IndexesDropped(e: Engine, xs: seq<IndexDef>, t: Tbl)
    requires e.IsMysqlFamily() && Run(e, DropIndexes(e, xs), t).Some?
    ensures Run(e, DropIndexes(e, xs), t) == Some(t.(indexes := t.indexes - NameSet(IX, xs)))
    decreases |xs|
  {
    hide Run, Exec, NameSet;
    if xs == [] {
      NoNames(IX, t.indexes);
      RunNothing(e, t);
    } else {
      ConsRun(e, DropIndexStep(e, xs[0]), DropIndexes(e, xs[1..]), t);
      IndexDropped(e, xs[0], t);
      IndexesDropped(e, xs[1..], t.(indexes := t.indexes - {xs[0].name}));
      LessNames(IX, t.indexes, xs);
    }
  }

  /** MariaDB drops a check as any constraint, so no foreign key may share a check's name. */
  lemma {:induction false} ChecksDropped(e: Engine, xs: seq<CheckDef>, t: Tbl)
    requires e.IsMysqlFamily() && Run(e, DropChecks(e, xs), t).Some?
    requires e.Mariadb? ==> t.key.Some? ==> t.key.value.name.None?
    requires e.Mariadb? ==> forall i :: 0 <= i < |xs| ==>
      xs[i].name !in t.fks && !(xs[i].name in t.indexes && t.indexes[xs[i].name].constraint)
    ensures Run(e, DropChecks(e, xs), t) == Some(t.(checks := t.checks - NameSet(CK, xs)))
    decreases |xs|
  {
    hide Run, NameSet, ExecDropIndex, ExecDropKey;
    if xs == [] {
      NoNames(CK, t.checks);
      RunNothing(e, t);
    } else {
      ConsRun(e, if e.Mysql? then DropCheck(xs[0].name) else DropConstraint(xs[0].name), DropChecks(e, xs[1..]), t);
      var u := t.(checks := t.checks - {xs[0].name});
      forall i | 0 <= i < |xs[1..]|
        ensures e.Mariadb? ==>
          xs[1..][i].name !in t.fks && !(xs[1..][i].name in t.indexes && t.indexes[xs[1..][i].name].constraint)
      {
        assert xs[1..][i] == xs[i + 1];
      }
      ChecksDropped(e, xs[1..], u);
      LessNames(CK, t.checks, xs);
    }
  }

  lemma {:induction false} TriggersDropped(e: Engine, xs: seq<TriggerDef>, t: Tbl)
    requires Run(e, DropTriggers(xs), t).Some?
    ensures Run(e, DropTriggers(xs), t) == Some(t.(triggers := t.triggers - NameSet(TR, xs)))
    decreases |xs|
  {
    hide Run, NameSet;
    if xs == [] {
      NoNames(TR, t.triggers);
      RunNothing(e, t);
    } else {
      ConsRun(e, DropTrigger(xs[0].name), DropTriggers(xs[1..]), t);
      TriggersDropped(e, xs[1..], t.(triggers := t.triggers - {xs[0].name}));
      LessNames(TR, t.triggers, xs);
    }
  }

  /** No check shares its name with a foreign key or a constraint index. */
  predicate ChecksApart(d: TableDesign) {
    forall i :: 0 <= i < |d.checks| ==>
      d.checks[i].name !in Bodies(FK, d.foreignKeys)
      && !(d.checks[i].name in Bodies(IX, d.indexes) && Bodies(IX, d.indexes)[d.checks[i].name].constraint)
  }

  lemma PartsDropped(e: Engine, was: TableDesign, next: TableDesign, t: Tbl)
    requires e.IsMysqlFamily() && HasParts(was, next, t) && t.key == KeyOf(e, was) && ChecksApart(was)
    requires Run(e, DropParts(e, was, next), t).Some?
    ensures Run(e, DropParts(e, was, next), t) == Some(Stripped(was, next, t))
  {
    hide Run, NameSet, Bodies, Removed, KeptKeys;
    var a, b := DropForeignKeys(e, Removed(FK, was.foreignKeys, next.foreignKeys)),
      DropIndexes(e, Removed(IX, was.indexes, next.indexes));
    var cs := Removed(CK, was.checks, next.checks);
    var c, d := DropChecks(e, cs), DropTriggers(Removed(TR, was.triggers, next.triggers));
    SplitRun(e, a + b + c, d, t);
    SplitRun(e, a + b, c, t);
    SplitRun(e, a, b, t);
    ForeignKeysDropped(e, Removed(FK, was.foreignKeys, next.foreignKeys), t);
    KeptKeysAre(was, next);
    var t1 := t.(fks := KeptKeys(was, next));
    IndexesDropped(e, Removed(IX, was.indexes, next.indexes), t1);
    var t2 := t1.(indexes := Surviving(IX, was.indexes, next.indexes));
    forall i | 0 <= i < |cs|
      ensures cs[i].name !in t2.fks && !(cs[i].name in t2.indexes && t2.indexes[cs[i].name].constraint)
    {
      RemovedIs(CK, was.checks, next.checks, cs[i]);
      var j :| 0 <= j < |was.checks| && was.checks[j] == cs[i];
      KeptNames(was, next, cs[i].name);
    }
    ChecksDropped(e, cs, t2);
    TriggersDropped(e, Removed(TR, was.triggers, next.triggers), t2.(checks := Surviving(CK, was.checks, next.checks)));
  }

  lemma KeptNames(was: TableDesign, next: TableDesign, q: string)
    ensures q in KeptKeys(was, next) ==> q in Bodies(FK, was.foreignKeys)
  {
    hide Bodies, Removed, NameSet;
  }

  lemma {:induction false} ColumnsDropped(e: Engine, olds: seq<ColumnDef>, news: seq<ColumnDef>, t: Tbl)
    requires e.IsMysqlFamily() && Run(e, DropColumns(e, olds, news), t).Some?
    ensures var u := Run(e, DropColumns(e, olds, news), t).value;
      SameBut(t, u) && u.cols == t.cols - DroppedNames(olds, news)
    decreases |olds|
  {
    hide Run, IsKept, Used, Referred;
    if olds == [] {
      RunNothing(e, t);
      assert t.cols - {} == t.cols;
    } else {
      var rest := DropColumns(e, olds[1..], news);
      if IsKept(news, olds[0].name) {
        assert [] + rest == rest;
        ColumnsDropped(e, olds[1..], news, t);
      } else {
        assert DropColumns(e, olds, news) == [DropColumn(olds[0].name)] + rest;
        ConsRun(e, DropColumn(olds[0].name), rest, t);
        ColumnsDropped(e, olds[1..], news, Exec(e, t, DropColumn(olds[0].name)).value);
        assert (t.cols - {olds[0].name}) - DroppedNames(olds[1..], news) == t.cols - DroppedNames(olds, news);
      }
    }
  }

  // ------------------------------------------------------------------ columns

  /** The columns of a design on this engine. */
  function Full(e: Engine, d: TableDesign, vals: map<string, seq<Value>>): map<string, Column> {
    ColumnsOf(e, d, d.columns, vals)
  }

  lemma FullAt(e: Engine, d: TableDesign, vals: map<string, seq<Value>>, j: nat)
    requires !e.Sqlite? && NamesDistinct(d.columns) && j < |d.columns| && d.columns[j].name in vals
    ensures d.columns[j].name in Full(e, d, vals)
      && Full(e, d, vals)[d.columns[j].name] == Column(AttrOf(e, d.columns[j], false), vals[d.columns[j].name])
  {
    hide AttrOf, ColumnsOf;
    ColumnsOfAt(e, d, d.columns, vals, j);
  }

  /** A column the plan leaves alone is already as designed. */
  lemma SameColumn(e: Engine, o: ColumnDef, n: ColumnDef)
    requires e.IsMysqlFamily() && SameDefinition(o, n) && o.comment == n.comment
    ensures AttrOf(e, o, false) == AttrOf(e, n, false)
  {
    hide Lower, TypeSql;
  }

  lemma ChangeGives(e: Engine, t: Tbl, o: ColumnDef, n: ColumnDef, p: Position)
    requires e.IsMysqlFamily() && Exec(e, t, ChangeColumn(o.name, n, p)).Some?
    requires SameBut(t, Renamed(t, o.name, n.name))
    ensures var u := Exec(e, t, ChangeColumn(o.name, n, p)).value;
      o.name in t.cols && SameBut(t, u)
        && u.cols == (t.cols - {o.name})[n.name := Column(AttrOf(e, n, false), t.cols[o.name].values)]
  {
    hide AttrOf, PositionOk, Insert, Without, RenamedParts;
    var u := Exec(e, t, ChangeColumn(o.name, n, p)).value;
    assert u.cols == (t.cols - {o.name})[n.name := Column(AttrOf(e, n, false), t.cols[o.name].values)];
  }

  /** The setting of the column steps. */
  ghost predicate Setting(e: Engine, was: TableDesign, next: TableDesign, vals: map<string, seq<Value>>, t: Tbl) {
    && e.IsMysqlFamily() && NamesDistinct(was.columns) && NamesDistinct(next.columns)
    && Fresh(was.columns, next.columns)
    && KeysAre(vals, was.columns) && RefersTo(t, next.columns)
  }

  lemma KeptStep(e: Engine, was: TableDesign, next: TableDesign, vals: map<string, seq<Value>>, pos: nat, t: Tbl)
    requires Setting(e, was, next, vals, t) && pos < |next.columns| && next.columns[pos].original.Some?
    requires Moving(Full(e, was, vals), Full(e, next, Carried(next.columns, vals, t.count)), next.columns, pos, t.cols)
    requires Run(e, ColumnSteps(e, was.columns, next.columns, pos).value, t).Some?
    ensures var u := Run(e, ColumnSteps(e, was.columns, next.columns, pos).value, t).value;
      SameBut(t, u) && Moving(Full(e, was, vals), Full(e, next, Carried(next.columns, vals, t.count)), next.columns,
        pos + 1, u.cols)
  {
    hide Run, Exec, AttrOf, NamesDistinct, Fresh, RefersTo, Lookup, MysqlPosition, SameDefinition, Full, Carried, Held,
      Done, Waiting, HasColumn, Renamed;
    var n, start, goal := next.columns[pos], Full(e, was, vals), Full(e, next, Carried(next.columns, vals, t.count));
    LookupFresh(was.columns, next.columns, pos);
    var o := Lookup(was.columns, n.original).value;
    var i :| 0 <= i < |was.columns| && was.columns[i] == o;
    NameThere(was.columns, i);
    FullAt(e, was, vals, i);
    CarriedAt(next.columns, vals, t.count, pos);
    FullAt(e, next, Carried(next.columns, vals, t.count), pos);
    HeldIs(n, vals, t.count);
    assert Agrees(start, o.name, t.cols);
    RenameIdle(was.columns, next.columns, pos, t);
    var p := MysqlPosition(e, was.columns, next.columns, pos);
    var c := o.name != n.name || !SameDefinition(o, n) || o.comment != n.comment || p != Anywhere;
    RunWhen(e, c, ChangeColumn(o.name, n, p), t);
    var u := Run(e, ColumnSteps(e, was.columns, next.columns, pos).value, t).value;
    if c {
      ChangeGives(e, t, o, n, p);
    } else {
      SameColumn(e, o, n);
      assert (t.cols - {o.name})[o.name := t.cols[o.name]] == t.cols;
    }
    MoveOn(was.columns, next.columns, start, goal, pos, t.cols, u.cols);
  }

  lemma NameThere(cs: seq<ColumnDef>, i: nat)
    requires i < |cs|
    ensures HasColumn(cs, cs[i].name)
  {
  }

  lemma AddGives(e: Engine, t: Tbl, n: ColumnDef, p: Position)
    requires e.IsMysqlFamily() && Exec(e, t, AddColumn(n, p)).Some?
    ensures var u := Exec(e, t, AddColumn(n, p)).value;
      SameBut(t, u) && u.cols == t.cols[n.name := Column(AttrOf(e, n, false), Fill(AttrOf(e, n, false), t.count))]
  {
    hide AttrOf, PositionOk, Insert, AttrOk, Fill;
  }

  lemma AddedStep(e: Engine, was: TableDesign, next: TableDesign, vals: map<string, seq<Value>>, pos: nat, t: Tbl)
    requires Setting(e, was, next, vals, t) && pos < |next.columns| && next.columns[pos].original.None?
    requires Moving(Full(e, was, vals), Full(e, next, Carried(next.columns, vals, t.count)), next.columns, pos, t.cols)
    requires ColumnSteps(e, was.columns, next.columns, pos).Ok?
      && Run(e, ColumnSteps(e, was.columns, next.columns, pos).value, t).Some?
    ensures var u := Run(e, ColumnSteps(e, was.columns, next.columns, pos).value, t).value;
      SameBut(t, u) && Moving(Full(e, was, vals), Full(e, next, Carried(next.columns, vals, t.count)), next.columns,
        pos + 1, u.cols)
  {
    hide Run, Exec, AttrOf, NamesDistinct, Fresh, RefersTo, MysqlPosition, Full, Carried, Held, Fill, Defaults, Moving;
    var n, start, goal := next.columns[pos], Full(e, was, vals), Full(e, next, Carried(next.columns, vals, t.count));
    var p := MysqlPosition(e, was.columns, next.columns, pos);
    assert [AddColumn(n, p)] + [] == [AddColumn(n, p)];
    OneRun(e, AddColumn(n, p), t);
    AddGives(e, t, n, p);
    CarriedAt(next.columns, vals, t.count, pos);
    FullAt(e, next, Carried(next.columns, vals, t.count), pos);
    HeldIs(n, vals, t.count);
    FillIsDefaults(e, n, false, t.count);
    var u := Exec(e, t, AddColumn(n, p)).value;
    assert t.cols - {} == t.cols;
    MoveOn(was.columns, next.columns, start, goal, pos, t.cols, u.cols);
  }

  lemma SettingBut(e: Engine, was: TableDesign, next: TableDesign, vals: map<string, seq<Value>>, t: Tbl, u: Tbl)
    requires Setting(e, was, next, vals, t) && SameBut(t, u)
    ensures Setting(e, was, next, vals, u)
  {
    hide Stable, NamesDistinct, Fresh, HasColumn;
  }

  lemma {:induction false} ColumnsGiven(e: Engine, was: TableDesign, next: TableDesign, vals: map<string, seq<Value>>,
      pos: nat, t: Tbl)
    requires Setting(e, was, next, vals, t) && pos <= |next.columns|
    requires Moving(Full(e, was, vals), Full(e, next, Carried(next.columns, vals, t.count)), next.columns, pos, t.cols)
    requires AlterColumns(e, was.columns, next.columns, pos).Ok?
      && Run(e, AlterColumns(e, was.columns, next.columns, pos).value, t).Some?
    ensures var u := Run(e, AlterColumns(e, was.columns, next.columns, pos).value, t).value;
      SameBut(t, u) && Moving(Full(e, was, vals), Full(e, next, Carried(next.columns, vals, t.count)), next.columns,
        |next.columns|, u.cols)
    decreases |next.columns| - pos
  {
    hide Run, ColumnSteps, Moving, Full, Carried, Setting, SameBut;
    if pos == |next.columns| {
      RunNothing(e, t);
      SameThrough(t, t, t);
    } else {
      var first, rest := ColumnSteps(e, was.columns, next.columns, pos).value,
        AlterColumns(e, was.columns, next.columns, pos + 1).value;
      SplitRun(e, first, rest, t);
      if next.columns[pos].original.Some? {
        KeptStep(e, was, next, vals, pos, t);
      } else {
        AddedStep(e, was, next, vals, pos, t);
      }
      var u := Run(e, first, t).value;
      SettingBut(e, was, next, vals, t, u);
      SameNumbers(t, u);
      ColumnsGiven(e, was, next, vals, pos + 1, u);
      SameThrough(t, u, Run(e, rest, u).value);
    }
  }

  lemma SameNumbers(t: Tbl, u: Tbl)
    requires SameBut(t, u)
    ensures t.name == u.name && t.count == u.count
  {
  }

  lemma SameThrough(t: Tbl, u: Tbl, v: Tbl)
    requires t == u || SameBut(t, u)
    requires u == v || SameBut(u, v)
    ensures SameBut(t, v)
  {
  }

  // ------------------------------------------------------------------ what adds leave

  lemma {:induction false} ChecksAdded(e: Engine, xs: seq<CheckDef>, t: Tbl)
    requires Distinct(CK, xs) && Run(e, AddChecks(xs), t).Some?
    ensures Run(e, AddChecks(xs), t) == Some(t.(checks := t.checks + Bodies(CK, xs)))
    decreases |xs|
  {
    hide Run, Distinct, Bodies, ConstraintTaken;
    if xs == [] {
      NoBodies(CK, t.checks);
      RunNothing(e, t);
    } else {
      MoreBodies(CK, t.checks, xs);
      ConsRun(e, AddCheck(xs[0]), AddChecks(xs[1..]), t);
      ChecksAdded(e, xs[1..], t.(checks := t.checks[xs[0].name := xs[0].expression]));
    }
  }

  lemma {:induction false} IndexesAdded(e: Engine, xs: seq<IndexDef>, t: Tbl)
    requires Distinct(IX, xs) && Run(e, AddIndexes(xs), t).Some?
    ensures Run(e, AddIndexes(xs), t) == Some(t.(indexes := t.indexes + Bodies(IX, xs)))
    decreases |xs|
  {
    hide Run, Distinct, Bodies, ConstraintTaken, IndexTaken, IndexFits, BodyOfIndex;
    if xs == [] {
      NoBodies(IX, t.indexes);
      RunNothing(e, t);
    } else {
      MoreBodies(IX, t.indexes, xs);
      ConsRun(e, AddIndex(xs[0]), AddIndexes(xs[1..]), t);
      IndexesAdded(e, xs[1..], t.(indexes := t.indexes[xs[0].name := BodyOfIndex(xs[0])]));
    }
  }

  /** The indexes once these foreign keys are added: one more for each that finds none beginning with its columns. */
  function WithKeyIndexes(e: Engine, key: Option<Key>, indexes: map<string, IndexBody>, xs: seq<ForeignKeyDef>):
    map<string, IndexBody>
    decreases |xs|
  {
    if xs == [] then indexes
    else
      WithKeyIndexes(e, key,
        if NeedsIndex(e, key, indexes, xs[0].columns) then indexes[xs[0].name := KeyIndexFor(xs[0].columns)]
          else indexes,
        xs[1..])
  }

  lemma ForeignKeyAdded(e: Engine, x: ForeignKeyDef, t: Tbl)
    requires Exec(e, t, AddForeignKey(x)).Some?
    ensures Exec(e, t, AddForeignKey(x)) ==
      Some(t.(fks := t.fks[x.name := BodyOfForeignKey(x)],
        indexes := if NeedsIndex(e, t.key, t.indexes, x.columns) then t.indexes[x.name := KeyIndexFor(x.columns)]
          else t.indexes))
  {
    hide ConstraintTaken, ColumnsExist, BodyOfForeignKey, Unfounded, ForeignKeyOk, NeedsIndex;
  }

  lemma {:induction false} ForeignKeysAdded(e: Engine, xs: seq<ForeignKeyDef>, t: Tbl)
    requires Distinct(FK, xs) && Run(e, AddForeignKeys(xs), t).Some?
    ensures Run(e, AddForeignKeys(xs), t) ==
      Some(t.(fks := t.fks + Bodies(FK, xs), indexes := WithKeyIndexes(e, t.key, t.indexes, xs)))
    decreases |xs|
  {
    hide Run, Exec, Distinct, Bodies, BodyOfForeignKey, NeedsIndex;
    if xs == [] {
      NoBodies(FK, t.fks);
      RunNothing(e, t);
    } else {
      MoreBodies(FK, t.fks, xs);
      ConsRun(e, AddForeignKey(xs[0]), AddForeignKeys(xs[1..]), t);
      ForeignKeyAdded(e, xs[0], t);
      ForeignKeysAdded(e, xs[1..], Exec(e, t, AddForeignKey(xs[0])).value);
    }
  }

  /** Every foreign key of the list finds an index, or the key, that begins with its columns. */
  predicate AllIndexed(e: Engine, key: Option<Key>, indexes: map<string, IndexBody>, xs: seq<ForeignKeyDef>) {
    forall i :: 0 <= i < |xs| ==> Served(e, key, indexes, xs[i].columns)
  }

  lemma {:induction false} OtherNameStays(e: Engine, key: Option<Key>, indexes: map<string, IndexBody>,
    xs: seq<ForeignKeyDef>, name: string)
    requires name in indexes && forall i :: 0 <= i < |xs| ==> xs[i].name != name
    ensures var r := WithKeyIndexes(e, key, indexes, xs); name in r && r[name] == indexes[name]
    decreases |xs|
  {
    hide NeedsIndex;
    if xs != [] {
      assert xs[0].name != name;
      forall i | 0 <= i < |xs[1..]|
        ensures xs[1..][i].name != name
      {
        assert xs[1..][i] == xs[i + 1];
      }
      OtherNameStays(e, key,
        if NeedsIndex(e, key, indexes, xs[0].columns) then indexes[xs[0].name := KeyIndexFor(xs[0].columns)]
          else indexes,
        xs[1..], name);
    }
  }

  /** The index MySQL makes for a foreign key would have served it. */
  lemma MadeIndexServes(e: Engine, key: Option<Key>, indexes: map<string, IndexBody>, x: ForeignKeyDef)
    requires e.IsMysqlFamily()
    ensures x.name in indexes && indexes[x.name] == KeyIndexFor(x.columns) ==> Served(e, key, indexes, x.columns)
  {
    if x.name in indexes && indexes[x.name] == KeyIndexFor(x.columns) {
      assert IndexNames(indexes[x.name]) == x.columns;
      assert Serves(e, KeyIndex(indexes[x.name]), IndexNames(indexes[x.name]), x.columns);
    }
  }

  /** MySQL adds no index of its own exactly when every added foreign key has one already. */
  lemma {:induction false} NoIndexMade(e: Engine, key: Option<Key>, indexes: map<string, IndexBody>,
    xs: seq<ForeignKeyDef>)
    requires e.IsMysqlFamily() && Distinct(FK, xs)
    ensures WithKeyIndexes(e, key, indexes, xs) == indexes <==> AllIndexed(e, key, indexes, xs)
    decreases |xs|
  {
    hide Served, Distinct;
    if xs != [] {
      DistinctTail(FK, xs);
      InNameSet(FK, xs[1..], xs[0].name);
      if Served(e, key, indexes, xs[0].columns) {
        NoIndexMade(e, key, indexes, xs[1..]);
        IndexedTail(e, key, indexes, xs);
      } else {
        MadeIndexServes(e, key, indexes, xs[0]);
        var mid := indexes[xs[0].name := KeyIndexFor(xs[0].columns)];
        forall i | 0 <= i < |xs[1..]|
          ensures xs[1..][i].name != xs[0].name
        {
          assert FK.name(xs[1..][i]) == xs[1..][i].name && xs[1..][i] in xs[1..];
        }
        OtherNameStays(e, key, mid, xs[1..], xs[0].name);
      }
    }
  }

  lemma IndexedTail(e: Engine, key: Option<Key>, indexes: map<string, IndexBody>, xs: seq<ForeignKeyDef>)
    requires xs != []
    ensures AllIndexed(e, key, indexes, xs) <==>
      Served(e, key, indexes, xs[0].columns) && AllIndexed(e, key, indexes, xs[1..])
  {
    hide Served;
    assert forall i :: 0 <= i < |xs[1..]| ==> xs[1..][i] == xs[i + 1];
    if Served(e, key, indexes, xs[0].columns) && AllIndexed(e, key, indexes, xs[1..]) {
      forall i | 0 <= i < |xs|
        ensures Served(e, key, indexes, xs[i].columns)
      {
        if i > 0 {
          assert Served(e, key, indexes, xs[1..][i - 1].columns);
        }
      }
    }
  }

  lemma {:induction false} TriggersAdded(e: Engine, xs: seq<TriggerDef>, t: Tbl)
    requires Distinct(TR, xs) && NoneBlank(xs) && Run(e, AddTriggers(xs), t).Some?
    ensures Run(e, AddTriggers(xs), t) == Some(t.(triggers := t.triggers + Bodies(TR, xs)))
    decreases |xs|
  {
    hide Run, Distinct, Bodies, IsBlank, Trim;
    if xs == [] {
      NoBodies(TR, t.triggers);
      RunNothing(e, t);
    } else {
      assert !IsBlank(xs[0].definition);
      MoreBodies(TR, t.triggers, xs);
      ConsRun(e, AddTrigger(xs[0]), AddTriggers(xs[1..]), t);
      TriggersAdded(e, xs[1..], t.(triggers := t.triggers[xs[0].name := Trim(xs[0].definition)]));
    }
  }

  lemma KeyAdded(e: Engine, was: TableDesign, next: TableDesign, t: Tbl)
    requires e.IsMysqlFamily() && t.key == (if was.primaryKey == next.primaryKey then KeyOf(e, was) else None)
    requires Run(e, AddKey(e, was, next), t).Some?
    ensures Run(e, AddKey(e, was, next), t) == Some(t.(key := KeyOf(e, next)))
  {
    hide Run, ColumnsExist;
    var changed := was.primaryKey != next.primaryKey && next.primaryKey != [];
    RunWhen(e, changed, AddPrimaryKey(None, next.primaryKey), t);
  }

  /** The indexes of the new design, and those MySQL makes for the foreign keys the plan adds. */
  function Grown(e: Engine, was: TableDesign, next: TableDesign): map<string, IndexBody> {
    WithKeyIndexes(e, KeyOf(e, next), Bodies(IX, next.indexes), Added(FK, was.foreignKeys, next.foreignKeys))
  }

  lemma PartsAdded(e: Engine, was: TableDesign, next: TableDesign, t: Tbl)
    requires e.IsMysqlFamily() && SoundEdit(was, next) && t == Stripped(was, next, t)
    requires t.key == (if was.primaryKey == next.primaryKey then KeyOf(e, was) else None)
    requires Run(e, AddParts(e, was, next), t).Some?
    ensures Run(e, AddParts(e, was, next), t) == Some(t.(
      key := KeyOf(e, next), fks := Bodies(FK, Reached(was, next).foreignKeys), indexes := Grown(e, was, next),
      checks := Bodies(CK, next.checks), triggers := Bodies(TR, RealTriggers(next.triggers))))
  {
    hide Run, Distinct, Bodies, Surviving, Added, KeptKeys, AllFollowed, SoundTable, Fresh, KeyOf, RealTriggers,
      IsBlank, WithKeyIndexes, AddKey, AddChecks, AddIndexes, AddForeignKeys, AddTriggers;
    var a, b, c := AddKey(e, was, next), AddChecks(Added(CK, was.checks, next.checks)),
      AddIndexes(Added(IX, was.indexes, next.indexes));
    var d, g := AddForeignKeys(Added(FK, was.foreignKeys, next.foreignKeys)),
      AddTriggers(Added(TR, was.triggers, next.triggers));
    SoundEditParts(was, next);
    DistinctParts(was);
    DistinctParts(next);
    PartsCoherent(was, next);
    AddedDistinct(CK, was.checks, next.checks);
    AddedDistinct(IX, was.indexes, next.indexes);
    AddedDistinct(FK, was.foreignKeys, next.foreignKeys);
    PartsReplaced(CK, was.checks, next.checks);
    PartsReplaced(IX, was.indexes, next.indexes);
    KeysReached(was, next);
    TriggersReplaced(was.triggers, next.triggers);
    SplitRun(e, a + b + c + d, g, t);
    SplitRun(e, a + b + c, d, t);
    SplitRun(e, a + b, c, t);
    SplitRun(e, a, b, t);
    KeyAdded(e, was, next, t);
    var t1 := t.(key := KeyOf(e, next));
    ChecksAdded(e, Added(CK, was.checks, next.checks), t1);
    var t2 := t1.(checks := Bodies(CK, next.checks));
    IndexesAdded(e, Added(IX, was.indexes, next.indexes), t2);
    var t3 := t2.(indexes := Bodies(IX, next.indexes));
    ForeignKeysAdded(e, Added(FK, was.foreignKeys, next.foreignKeys), t3);
    var t4 := t3.(fks := Bodies(FK, Reached(was, next).foreignKeys), indexes := Grown(e, was, next));
    AddTriggersReal(Added(TR, was.triggers, next.triggers));
    AllReal(Added(TR, was.triggers, next.triggers));
    TriggersAdded(e, RealTriggers(Added(TR, was.triggers, next.triggers)), t4);
  }

  lemma DistinctParts(d: TableDesign)
    requires SoundTable(d)
    ensures NamesDistinct(d.columns) && Distinct(IX, d.indexes) && Distinct(FK, d.foreignKeys) && Distinct(CK, d.checks)
      && Distinct(TR, d.triggers)
  {
  }

  // ------------------------------------------------------------------ the plan

  lemma KeyDropped(e: Engine, was: TableDesign, next: TableDesign, t: Tbl)
    requires e.IsMysqlFamily() && t.key == KeyOf(e, was) && Run(e, DropKey(e, was, next).value, t).Some?
    ensures Run(e, DropKey(e, was, next).value, t) ==
      Some(t.(key := if was.primaryKey == next.primaryKey then t.key else None))
  {
    hide Run;
    if was.primaryKey != next.primaryKey && was.primaryKey != [] {
      OneRun(e, DropPrimaryKey, t);
    } else {
      RunNothing(e, t);
    }
  }

  lemma OptionsRun(e: Engine, options: TableOptions, text: Option<string>, t: Tbl)
    ensures Run(e, [SetOptions(options, text)], t) ==
      Some(t.(options := Restated(t.options, options), comment := if text.Some? then NonEmpty(text) else t.comment))
  {
    hide Run, ExecColumn, ExecDrop, ExecAdd, Restated;
    RunWhen(e, true, SetOptions(options, text), t);
  }

  lemma BlankText(text: Option<string>)
    ensures NonEmpty(Some(if text.Some? then text.value else "")) == NonEmpty(text)
  {
  }

  /**
   The storage options a plan leaves: those the new design names, and otherwise
   those the table was loaded with. A character set and a collation go together.
   */
  function OptionsLeft(o: TableOptions, n: TableOptions): TableOptions {
    var text := if NonEmpty(n.charset).Some? || NonEmpty(n.collation).Some? then n else o;
    TableOptions(if NonEmpty(n.engine).Some? then n.engine else NonEmpty(o.engine),
      NonEmpty(text.charset), NonEmpty(text.collation),
      if n.autoIncrement.Some? then n.autoIncrement else o.autoIncrement)
  }

  /**
   An option cannot be given up: they are as designed exactly when the new design still
   names what the old one did.
   */
  lemma OptionsDesigned(e: Engine, was: TableDesign, next: TableDesign)
    requires e.IsMysqlFamily()
    ensures var o, n := was.options, next.options;
      OptionsLeft(o, n) == OptionsOf(e, next) <==>
        && (NonEmpty(o.engine).Some? ==> NonEmpty(n.engine).Some?)
        && (NonEmpty(o.charset).Some? || NonEmpty(o.collation).Some? ==>
              NonEmpty(n.charset).Some? || NonEmpty(n.collation).Some?)
        && (o.autoIncrement.Some? ==> n.autoIncrement.Some?)
  {
  }

  lemma OptionsGiven(e: Engine, was: TableDesign, next: TableDesign, t: Tbl)
    requires e.IsMysqlFamily() && t.comment == NonEmpty(was.comment) && t.options == OptionsOf(e, was)
    ensures Run(e, TableComment(e, was, next), t) ==
      Some(t.(comment := NonEmpty(next.comment), options := OptionsLeft(was.options, next.options)))
  {
    hide Run;
    BlankText(next.comment);
    var plan := TableComment(e, was, next);
    if plan == [] {
      RunNothing(e, t);
    } else {
      assert plan == [plan[0]] && plan[0].SetOptions?;
      OptionsRun(e, plan[0].options, plan[0].text, t);
    }
  }

  /** A plan that runs through has renamed the table, and finds the loaded parts under its new name. */
  lemma LoadedIs(e: Engine, was: TableDesign, next: TableDesign, vals: map<string, seq<Value>>, count: nat)
    requires e.IsMysqlFamily() && SoundEdit(was, next)
    requires Run(e, When(OldName(was, next) != next.name, RenameTable(next.name)), TableOf(e, was, vals, count)).Some?
    ensures var t := Retitled(e, was, next, vals, count);
      NameFree(was, next) && NameUnshared(e, was, next)
        && Run(e, When(OldName(was, next) != next.name, RenameTable(next.name)),
        TableOf(e, was, vals, count)) == Some(t)
      && HasParts(was, next, t) && t.key == KeyOf(e, was) && t.cols == Full(e, was, vals)
      && t.comment == NonEmpty(was.comment) && t.options == OptionsOf(e, was) && t.count == count
  {
    hide Run, Bodies, ColumnsOf, IsBlank, NamesOf, SoundEdit, LoadedKeys, HasParts, NameFree, NameUnshared,
      RealTriggers;
    LoadedRuns(e, was, next, vals, count);
  }

  lemma FullSame(e: Engine, a: TableDesign, b: TableDesign, vals: map<string, seq<Value>>)
    requires !e.Sqlite? && a.columns == b.columns
    ensures Full(e, a, vals) == Full(e, b, vals)
  {
    SameColumnsOf(e, a, b, a.columns, vals);
  }

  /**
   MySQL and MariaDB, fresh names: when a plan has run through, the table is the
   reached design, column by column and part by part, kept columns with the values
   they had and new ones with their default; its indexes are those designed and
   those MySQL makes itself for foreign keys that find none, and its storage options
   those the new design names, otherwise those there were.
   */
  lemma PlanGives(e: Engine, was: TableDesign, next: TableDesign, vals: map<string, seq<Value>>, count: nat)
    requires e.IsMysqlFamily() && SoundEdit(was, next) && LoadedRows(was, vals) && ChecksApart(was)
      && KeysServed(e, was)
    requires AlterTable(e, was, next).Ok?
      && Run(e, AlterTable(e, was, next).value.steps, TableOf(e, was, vals, count)).Some?
    ensures var r := Run(e, AlterTable(e, was, next).value.steps, TableOf(e, was, vals, count)).value;
      r == TableOf(e, Reached(was, next), Carried(next.columns, vals, count), count).(
        order := r.order, former := r.former, indexes := Grown(e, was, next),
        options := OptionsLeft(was.options, next.options))
  {
    hide Grown, Run, Validate, DropParts, DropKey, DropColumns, AlterColumns, AddParts, TableComment, TableOf,
      SoundEdit,
      Bodies, Surviving, Moving, Full, Carried,
      KeysAre, ChecksApart, KeyOf, RealTriggers, RefersTo, Fresh, DroppedNames, NameFree, NameUnshared, KeysServed,
        KeptKeys,
        LoadedKeys, AllFollowed;
    var a, b, c := When(OldName(was, next) != next.name, RenameTable(next.name)), DropParts(e, was, next),
      DropKey(e, was, next).value;
    var d, f := DropColumns(e, was.columns, next.columns), AlterColumns(e, was.columns, next.columns, 0).value;
    var g, h := AddParts(e, was, next), TableComment(e, was, next);
    var t0 := TableOf(e, was, vals, count);
    var t1 := Retitled(e, was, next, vals, count);
    SoundEditParts(was, next);
    DistinctParts(next);
    SplitRun(e, a + b + c + d + f + g, h, t0);
    SplitRun(e, a + b + c + d + f, g, t0);
    SplitRun(e, a + b + c + d, f, t0);
    SplitRun(e, a + b + c, d, t0);
    SplitRun(e, a + b, c, t0);
    SplitRun(e, a, b, t0);
    LoadedIs(e, was, next, vals, count);
    PartsDropped(e, was, next, t1);
    var t2 := Stripped(was, next, t1);
    KeyDropped(e, was, next, t2);
    var t3 := Bared(e, was, next, vals, count);
    RunAppend(e, b, c, t1);
    BaredRefers(e, was, next, vals, count);
    ColumnsDropped(e, was.columns, next.columns, t3);
    var t4 := Run(e, d, t3).value;
    RefersSame(t3, t4, next.columns);
    var start, goal := Full(e, was, vals), Full(e, next, Carried(next.columns, vals, count));
    FullKeys(e, was, vals);
    FullKeys(e, next, Carried(next.columns, vals, count));
    MovingBegins(was.columns, next.columns, start, goal, t4.cols);
    ColumnsGiven(e, was, next, vals, 0, t4);
    var t5 := Run(e, f, t4).value;
    MovingEnds(next.columns, start, goal, t5.cols);
    PartsAdded(e, was, next, t5);
    var t6 := Run(e, g, t5).value;
    OptionsGiven(e, was, next, t6);
    FullSame(e, next, Reached(was, next), Carried(next.columns, vals, count));
    KeyNoName(e, was, next);
    SchemaSame(was, next);
    DesignIs(e, Reached(was, next), Carried(next.columns, vals, count), count,
      t6.(comment := NonEmpty(next.comment), options := OptionsLeft(was.options, next.options)));
  }

  /**
   The table left has exactly the designed indexes when every added foreign key finds
   one that begins with its columns.
   */
  lemma GrownIsDesigned(e: Engine, was: TableDesign, next: TableDesign)
    requires e.IsMysqlFamily() && SoundEdit(was, next)
    ensures Grown(e, was, next) == Bodies(IX, next.indexes) <==>
      forall i :: 0 <= i < |next.foreignKeys| && !Unchanged(FK, was.foreignKeys, next.foreignKeys[i]) ==>
        Served(e, KeyOf(e, next), Bodies(IX, next.indexes), next.foreignKeys[i].columns)
  {
    hide SoundTable, Fresh, Bodies, Added, Unchanged, Served, KeyOf, WithKeyIndexes, Distinct;
    SoundEditParts(was, next);
    DistinctParts(next);
    var xs := Added(FK, was.foreignKeys, next.foreignKeys);
    AddedDistinct(FK, was.foreignKeys, next.foreignKeys);
    NoIndexMade(e, KeyOf(e, next), Bodies(IX, next.indexes), xs);
    forall x: ForeignKeyDef
      ensures x in xs <==> x in next.foreignKeys && !Unchanged(FK, was.foreignKeys, x)
    {
      AddedIs(FK, was.foreignKeys, next.foreignKeys, x);
    }
    assert AllIndexed(e, KeyOf(e, next), Bodies(IX, next.indexes), xs) <==>
      forall x :: x in xs ==> Served(e, KeyOf(e, next), Bodies(IX, next.indexes), x.columns);
  }

  lemma KeyNoName(e: Engine, was: TableDesign, next: TableDesign)
    requires e.IsMysqlFamily()
    ensures KeyOf(e, Reached(was, next)) == KeyOf(e, next)
  {
    hide AllFollowed;
  }

  lemma SchemaSame(was: TableDesign, next: TableDesign)
    requires SoundEdit(was, next)
    ensures was.schema == next.schema
  {
    hide SoundTable, Fresh;
  }

  lemma FullKeys(e: Engine, d: TableDesign, vals: map<string, seq<Value>>)
    ensures KeysAre(Full(e, d, vals), d.columns)
  {
    hide ColumnsOf;
    ColumnsOfAll(e, d, vals);
  }

  lemma DesignIs(e: Engine, d: TableDesign, vals: map<string, seq<Value>>, count: nat, r: Tbl)
    requires e.IsMysqlFamily() && r.name == d.name && r.schema == NonEmpty(d.schema) && r.cols == Full(e, d, vals)
      && r.count == count && r.comment == NonEmpty(d.comment)
    requires !r.folds && r.key == KeyOf(e, d) && r.fks == Bodies(FK, d.foreignKeys)
    requires r.checks == Bodies(CK, d.checks) && r.triggers == Bodies(TR, RealTriggers(d.triggers))
    ensures r == TableOf(e, d, vals, count).(order := r.order, former := r.former, indexes := r.indexes,
      options := r.options)
  {
    hide Bodies, ColumnsOf, RealTriggers, KeyOf;
  }
}
