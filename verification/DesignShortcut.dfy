/** SQLite's shortcut refines the rebuild: altering in place leaves the database a rebuild would leave. */
module DesignShortcut {
  import opened Prelude
  import opened Engines
  import opened Design
  import opened DesignExec
  import opened DesignParts
  import opened DesignValid
  import opened DesignMoves
  import opened DesignPostgres
  import opened DesignPhases
  import opened DesignAdds
  import opened DesignReach
  import opened DesignSqlite
  import opened DesignFolds
  import opened DesignInPlace
  import opened DesignRebuild
  import opened DesignRebuildRun

  // ------------------------------------------------------------------ constraints that did not change

  lemma {:induction false} NameSetSize<T, B>(k: Kind<T, B>, xs: seq<T>)
    requires Distinct(k, xs)
    ensures |NameSet(k, xs)| == |xs|
  {
    hide Distinct;
    if xs != [] {
      DistinctTail(k, xs);
      NameSetSize(k, xs[1..]);
    }
  }

  lemma SubsetSize(a: set<string>, b: set<string>)
    requires a <= b && |a| == |b|
    ensures a == b
  {
    assert b == a + (b - a);
    assert |b| == |a| + |b - a|;
  }

  /** As many parts as before, and every old one still there under its name: then they are the same parts. */
  lemma SameParts<T, B>(k: Kind<T, B>, olds: seq<T>, news: seq<T>)
    requires Distinct(k, olds) && Distinct(k, news) && |olds| == |news|
    requires forall o :: o in olds ==> exists n :: n in news && k.name(n) == k.name(o) && k.body(n) == k.body(o)
    ensures Bodies(k, olds) == Bodies(k, news)
  {
    hide Distinct, Bodies, NameSet;
    BodiesKeys(k, olds);
    BodiesKeys(k, news);
    NameSetSize(k, olds);
    NameSetSize(k, news);
    forall q | q in NameSet(k, olds)
      ensures q in NameSet(k, news) && Bodies(k, olds)[q] == Bodies(k, news)[q]
    {
      InNameSet(k, olds, q);
      InNameSet(k, news, q);
      var o :| o in olds && k.name(o) == q;
      var n :| n in news && k.name(n) == k.name(o) && k.body(n) == k.body(o);
      BodyOf(k, olds, o);
      BodyOf(k, news, n);
    }
    SubsetSize(NameSet(k, olds), NameSet(k, news));
  }

  lemma SameForeignKeyBody(o: ForeignKeyDef, n: ForeignKeyDef)
    requires SameForeignKey(o, n)
    ensures FK.name(n) == FK.name(o) && FK.body(n) == FK.body(o)
  {
    hide Upper;
  }

  lemma ConstraintsSame(was: TableDesign, next: TableDesign)
    requires SoundEdit(was, next) && NoStructureChange(was, next)
    ensures Bodies(FK, was.foreignKeys) == Bodies(FK, next.foreignKeys)
    ensures Bodies(CK, was.checks) == Bodies(CK, next.checks)
    ensures KeyOf(Sqlite, was) == KeyOf(Sqlite, next)
  {
    hide Bodies, Distinct, Fresh, SameForeignKey, SameCheck;
    forall o | o in was.foreignKeys
      ensures exists n :: n in next.foreignKeys && FK.name(n) == FK.name(o) && FK.body(n) == FK.body(o)
    {
      var i :| 0 <= i < |was.foreignKeys| && was.foreignKeys[i] == o;
      assert AnyForeignKey(next.foreignKeys, was.foreignKeys[i]);
      var j :| 0 <= j < |next.foreignKeys| && SameForeignKey(o, next.foreignKeys[j]);
      SameForeignKeyBody(o, next.foreignKeys[j]);
    }
    SameParts(FK, was.foreignKeys, next.foreignKeys);
    forall o | o in was.checks
      ensures exists n :: n in next.checks && CK.name(n) == CK.name(o) && CK.body(n) == CK.body(o)
    {
      var i :| 0 <= i < |was.checks| && was.checks[i] == o;
      assert AnyCheck(next.checks, was.checks[i]);
      var j :| 0 <= j < |next.checks| && SameCheck(o, next.checks[j]);
      SameCheckBody(o, next.checks[j]);
    }
    SameParts(CK, was.checks, next.checks);
  }

  lemma SameCheckBody(o: CheckDef, n: CheckDef)
    requires SameCheck(o, n)
    ensures CK.name(n) == CK.name(o) && CK.body(n) == CK.body(o)
  {
  }

  /** A foreign key both designs have refers to columns that stay what they are. */
  lemma ForeignKeysStable(was: TableDesign, next: TableDesign, k: string, n: string)
    requires SoundEdit(was, next) && NoStructureChange(was, next)
    requires k in Bodies(FK, was.foreignKeys) && n in Bodies(FK, was.foreignKeys)[k].columns
    ensures Stable(next.columns, n)
  {
    hide Bodies, Distinct, Fresh, SameForeignKey, Stable, Upper;
    BodiesKeys(FK, was.foreignKeys);
    NameSetAt(FK, was.foreignKeys, k);
    var i :| 0 <= i < |was.foreignKeys| && FK.name(was.foreignKeys[i]) == k;
    BodiesAt(FK, was.foreignKeys, i);
    assert AnyForeignKey(next.foreignKeys, was.foreignKeys[i]);
    var j :| 0 <= j < |next.foreignKeys| && SameForeignKey(was.foreignKeys[i], next.foreignKeys[j]);
    SameForeignKeyBody(was.foreignKeys[i], next.foreignKeys[j]);
    BodyColumns(was.foreignKeys[i]);
    BodyColumns(next.foreignKeys[j]);
    InAllColumns(was.columns, was.foreignKeys[i].columns, n);
    InAllColumns(next.columns, next.foreignKeys[j].columns, n);
    BothMeansStable(was.columns, next.columns, n);
  }

  lemma BodyColumns(x: ForeignKeyDef)
    ensures FK.body(x).columns == x.columns
  {
  }

  lemma InAllColumns(cs: seq<ColumnDef>, names: seq<string>, n: string)
    requires AllColumns(cs, names) && n in names
    ensures HasColumn(cs, n)
  {
    var i :| 0 <= i < |names| && names[i] == n;
    assert HasColumn(cs, names[i]);
  }

  // ------------------------------------------------------------------ columns

  predicate KeepsOne(next: TableDesign) {
    exists i :: 0 <= i < |next.columns| && next.columns[i].original.Some?
  }

  /** No column is generated, and at least one is kept. */
  predicate Ordinary(was: TableDesign, next: TableDesign) {
    && (forall i :: 0 <= i < |was.columns| ==> was.columns[i].generated.None?)
    && (forall i :: 0 <= i < |next.columns| ==> next.columns[i].generated.None?)
    && KeepsOne(next)
  }

  /** The key column keeps its name and definition. */
  lemma KeyColumnStays(was: TableDesign, next: TableDesign, p: string)
    requires SoundEdit(was, next) && Shortcut(was, next) && was.primaryKey == [p]
    ensures Lookup(was.columns, Some(p)).Some? && HasColumn(was.columns, p)
    ensures exists k ::
      0 <= k < |next.columns| && next.columns[k].name == p && next.columns[k].original == Some(p)
      && SameDefinition(Lookup(was.columns, Some(p)).value, next.columns[k])
  {
    hide SameDefinition, Distinct, Fresh;
    assert was.primaryKey[0] == p;
    assert HasColumn(was.columns, was.primaryKey[0]);
    SameKeyStable(was, next, p);
    var k :| 0 <= k < |next.columns| && next.columns[k].name == p && next.columns[k].original == Some(p);
    assert SimpleColumn(was.columns, next.columns[k]);
  }

  lemma InlineSame(was: TableDesign, next: TableDesign)
    requires SoundEdit(was, next) && Shortcut(was, next)
    ensures InlineKey(Sqlite, was) == InlineKey(Sqlite, next)
  {
    hide SameDefinition, Fresh, Shortcut;
    assert was.primaryKey == next.primaryKey by { SamePrimaryKey(was, next); }
    if |was.primaryKey| == 1 {
      var p := was.primaryKey[0];
      KeyColumnStays(was, next, p);
      var k :| 0 <= k < |next.columns| && next.columns[k].name == p && next.columns[k].original == Some(p)
        && SameDefinition(Lookup(was.columns, Some(p)).value, next.columns[k]);
      DefinitionAuto(Lookup(was.columns, Some(p)).value, next.columns[k]);
      InlineAt(was, p, ColumnAt(was.columns, p));
      InlineAt(next, p, k);
    }
  }

  lemma SamePrimaryKey(was: TableDesign, next: TableDesign)
    requires Shortcut(was, next)
    ensures was.primaryKey == next.primaryKey
  {
  }

  lemma DefinitionAuto(a: ColumnDef, b: ColumnDef)
    requires SameDefinition(a, b)
    ensures a.autoIncrement == b.autoIncrement
  {
  }

  /** Only the one column of that name decides whether the key is inline. */
  lemma InlineAt(d: TableDesign, p: string, k: nat)
    requires NamesDistinct(d.columns) && d.primaryKey == [p] && k < |d.columns| && d.columns[k].name == p
    ensures InlineKey(Sqlite, d) == if d.columns[k].autoIncrement then Some(p) else None
  {
    forall i | 0 <= i < |d.columns| && d.columns[i].name == p
      ensures i == k
    {
    }
  }

  lemma SameAttr(o: ColumnDef, n: ColumnDef, inline: bool)
    requires SameDefinition(o, n)
    ensures AttrOf(Sqlite, o, inline) == AttrOf(Sqlite, n, inline)
  {
    hide Lower, TypeSql;
  }

  /** A kept column is inline in both designs or in neither; a new one never is. */
  lemma InlineAgrees(was: TableDesign, next: TableDesign, j: nat)
    requires SoundEdit(was, next) && Shortcut(was, next) && j < |next.columns|
    ensures InlineKey(Sqlite, next) == Some(next.columns[j].name) ==>
      next.columns[j].original == Some(next.columns[j].name)
    ensures next.columns[j].original.Some? ==>
      (InlineKey(Sqlite, was) == Some(next.columns[j].original.value) <==>
        InlineKey(Sqlite, next) == Some(next.columns[j].name))
  {
    hide SameDefinition, Shortcut, Distinct;
    InlineSame(was, next);
    if InlineKey(Sqlite, next).Some? {
      var p := InlineKey(Sqlite, next).value;
      SamePrimaryKey(was, next);
      assert was.primaryKey == [p];
      KeyColumnStays(was, next, p);
      var k :| 0 <= k < |next.columns| && next.columns[k].name == p && next.columns[k].original == Some(p);
      if k != j {
        NameNotOrigin(was.columns, next.columns, j, k);
      }
    }
  }

  lemma MatchesHere(was: TableDesign, next: TableDesign, vals: map<string, seq<Value>>, count: nat, j: nat)
    requires SoundEdit(was, next) && Shortcut(was, next) && Loaded(was, vals) && j < |next.columns|
    ensures MatchesAt(next.columns[j], ColumnsOf(Sqlite, was, was.columns, vals),
                      ColumnsOf(Sqlite, next, next.columns, Carried(next.columns, vals, count)), count)
  {
    hide AttrOf, ColumnsOf, Carried, InlineKey, SameDefinition, Distinct, Defaults, Fill, OrderKept, NoStructureChange,
      Fresh;
    var n, start, goal := next.columns[j], ColumnsOf(Sqlite, was, was.columns, vals),
      ColumnsOf(Sqlite, next, next.columns, Carried(next.columns, vals, count));
    InlineAgrees(was, next, j);
    CarriedAt(next.columns, vals, count, j);
    ColumnsOfAt(Sqlite, next, next.columns, Carried(next.columns, vals, count), j);
    if n.original.Some? {
      assert SimpleColumn(was.columns, n);
      LookupFresh(was.columns, next.columns, j);
      var o := Lookup(was.columns, n.original).value;
      var i :| 0 <= i < |was.columns| && was.columns[i] == o;
      ColumnsOfAt(Sqlite, was, was.columns, vals, i);
      SameAttr(o, n, InlineKey(Sqlite, was) == Some(o.name));
    } else {
      FillIsDefaults(Sqlite, n, false, count);
    }
  }

  lemma MatchesAll(was: TableDesign, next: TableDesign, vals: map<string, seq<Value>>, count: nat)
    requires SoundEdit(was, next) && Shortcut(was, next) && Loaded(was, vals)
    ensures Matches(next.columns, ColumnsOf(Sqlite, was, was.columns, vals),
      ColumnsOf(Sqlite, next, next.columns, Carried(next.columns, vals, count)), count)
  {
    hide SoundEdit, Shortcut, ColumnsOf, Carried, MatchesAt;
    forall c | c in next.columns
      ensures MatchesAt(c, ColumnsOf(Sqlite, was, was.columns, vals),
        ColumnsOf(Sqlite, next, next.columns, Carried(next.columns, vals, count)), count)
    {
      var j :| 0 <= j < |next.columns| && next.columns[j] == c;
      MatchesHere(was, next, vals, count, j);
    }
  }

  // ------------------------------------------------------------------ indexes and triggers

  predicate AllNamed(xs: seq<IndexDef>, t: Tbl) {
    forall i :: 0 <= i < |xs| ==> xs[i].name in t.indexes
  }

  lemma {:induction false} DropNamedRun(xs: seq<IndexDef>, t: Tbl)
    requires Distinct(IX, xs) && AllNamed(xs, t)
    ensures Run(Sqlite, DropIndexes(Sqlite, xs), t) == Some(t.(indexes := t.indexes - NameSet(IX, xs)))
    decreases |xs|
  {
    hide Run, Distinct, NameSet;
    if xs == [] {
      NoNames(IX, t.indexes);
      RunNothing(Sqlite, t);
    } else {
      DistinctTail(IX, xs);
      assert xs[0].name in t.indexes;
      var u := t.(indexes := t.indexes - {xs[0].name});
      RunOne(Sqlite, DropIndexStep(Sqlite, xs[0]), DropIndexes(Sqlite, xs[1..]), t, u);
      NameSetRest(xs);
      assert AllNamed(xs[1..], u) by {
        forall i | 0 <= i < |xs[1..]|
          ensures xs[1..][i].name in u.indexes
        {
          assert xs[i + 1].name in t.indexes;
        }
      }
      DropNamedRun(xs[1..], u);
      LessNames(IX, t.indexes, xs);
    }
  }

  lemma NameSetRest(xs: seq<IndexDef>)
    requires Distinct(IX, xs) && xs != []
    ensures forall i :: 0 <= i < |xs[1..]| ==> xs[1..][i].name != xs[0].name
  {
    forall i | 0 <= i < |xs[1..]|
      ensures xs[1..][i].name != xs[0].name
    {
      assert IX.name(xs[0]) != IX.name(xs[i + 1]);
    }
  }

  /** Dropping the indexes that changed leaves exactly those that did not, whatever renames did to the others. */
  lemma IndexDropsRun(was: TableDesign, next: TableDesign, t: Tbl)
    requires SoundEdit(was, next)
    requires IndexesKept(Surviving(IX, was.indexes, next.indexes), Bodies(IX, was.indexes).Keys, t)
    ensures Run(Sqlite, DropIndexes(Sqlite, Removed(IX, was.indexes, next.indexes)), t)
      == Some(t.(indexes := Surviving(IX, was.indexes, next.indexes)))
  {
    hide Run, Distinct, NameSet, Bodies, Removed, Fresh;
    var xs := Removed(IX, was.indexes, next.indexes);
    RemovedPresent(IX, was.indexes, next.indexes);
    forall i | 0 <= i < |xs|
      ensures xs[i].name in t.indexes
    {
      assert IX.name(xs[i]) in Bodies(IX, was.indexes);
    }
    DropNamedRun(xs, t);
    assert t.indexes - NameSet(IX, xs) == Surviving(IX, was.indexes, next.indexes);
  }

  /** No index is to be called what the table is, and no two are to differ in case only. */
  ghost predicate IndexNamesOk(d: TableDesign) {
    (forall x :: x in d.indexes ==> Lower(x.name) != Lower(d.name)) && OneCase(IX, d.indexes)
  }

  lemma OpenMeans(was: TableDesign, next: TableDesign, t: Tbl)
    requires SoundEdit(was, next) && t.indexes == Surviving(IX, was.indexes, next.indexes) && t.name == next.name
    requires OneCase(IX, was.indexes) && forall x :: x in was.indexes ==> Lower(x.name) != Lower(next.name)
    ensures IndexesOpen(t, Added(IX, was.indexes, next.indexes)) <==> IndexNamesOk(next)
  {
    hide Distinct, Bodies, Surviving, Added, Fresh, Lower, OneCase, NoneLike;
    var added := Added(IX, was.indexes, next.indexes);
    PartsCoherent(was, next);
    OneCaseMeans(IX, was.indexes, next.indexes);
    forall x: IndexDef
      ensures x in added ==> x in next.indexes
      ensures x in next.indexes && x !in added ==> exists o :: o in was.indexes && IX.name(o) == IX.name(x)
    {
      AddedIs(IX, was.indexes, next.indexes, x);
      if x in next.indexes && x !in added {
        SurvivorNamed(IX, was.indexes, next.indexes, x);
      }
    }
    assert forall x: IndexDef :: IX.name(x) == x.name;
    if forall x :: x in added ==> Lower(x.name) != Lower(next.name) {
      forall x | x in next.indexes
        ensures Lower(x.name) != Lower(next.name)
      {
        if x !in added {
          var o :| o in was.indexes && IX.name(o) == IX.name(x);
          assert o.name == x.name;
        }
      }
    }
  }

  lemma IndexAddsRun(was: TableDesign, next: TableDesign, t: Tbl)
    requires SoundEdit(was, next) && t.indexes == Surviving(IX, was.indexes, next.indexes) && HasAll(t, next.columns)
    requires t.name == next.name
    requires OneCase(IX, was.indexes) && forall x :: x in was.indexes ==> Lower(x.name) != Lower(next.name)
    ensures Run(Sqlite, AddIndexes(Added(IX, was.indexes, next.indexes)), t) ==
      if IndexNamesOk(next) then Some(t.(indexes := Bodies(IX, next.indexes))) else None
  {
    hide Run, Distinct, Bodies, Surviving, Added, HasAll, Fresh, Lower, OneCase, IndexesOpen, IndexNamesOk;
    var xs := Added(IX, was.indexes, next.indexes);
    PartsCoherent(was, next);
    AddedDistinct(IX, was.indexes, next.indexes);
    forall i | 0 <= i < |xs|
      ensures IndexFits(t, BodyOfIndex(xs[i]))
    {
      AddedAreFree(IX, was.indexes, next.indexes, xs[i]);
      var j :| 0 <= j < |next.indexes| && next.indexes[j] == xs[i];
      assert IndexColumnsExist(next.columns, next.indexes[j]);
      IndexesFit(t, next.columns, xs[i]);
    }
    AddIndexesLite(xs, t);
    OpenMeans(was, next, t);
    PartsReplaced(IX, was.indexes, next.indexes);
  }

  lemma {:induction false} TextsAreTriggers(xs: seq<TriggerDef>)
    requires NoneBlank(xs)
    ensures AddTriggerTexts(xs) == AddTriggers(xs)
  {
    hide IsBlank;
    if xs != [] {
      assert !IsBlank(xs[0].definition);
      TextsAreTriggers(xs[1..]);
    }
  }

  lemma AddedNoneBlank(olds: seq<TriggerDef>, news: seq<TriggerDef>)
    requires NoneBlank(news)
    ensures NoneBlank(Added(TR, olds, news)) && RealTriggers(Added(TR, olds, news)) == Added(TR, olds, news)
      && RealTriggers(news) == news
  {
    hide IsBlank, Added;
    var xs := Added(TR, olds, news);
    forall i | 0 <= i < |xs|
      ensures !IsBlank(xs[i].definition)
    {
      AddedIs(TR, olds, news, xs[i]);
      var j :| 0 <= j < |news| && news[j] == xs[i];
    }
    RealOfReal(xs);
    RealOfReal(news);
  }

  lemma TriggersRun(was: TableDesign, next: TableDesign, t: Tbl)
    requires SoundEdit(was, next) && NoneBlank(next.triggers) && t.triggers == Bodies(TR, was.triggers)
    requires OneCase(TR, was.triggers)
    ensures Run(Sqlite, DropTriggers(Removed(TR, was.triggers, next.triggers))
      + AddTriggerTexts(Added(TR, was.triggers, next.triggers)), t)
      == if OneCase(TR, next.triggers) then Some(t.(triggers := Bodies(TR, next.triggers))) else None
  {
    hide Run, Distinct, Bodies, Added, Removed, IsBlank, RealTriggers, NameSet, OneCase, NoneLike, Lower;
    var olds, news := was.triggers, next.triggers;
    SoundEditParts(was, next);
    PartsCoherent(was, next);
    RemovedPresent(TR, olds, news);
    DropTriggersRun(Sqlite, Removed(TR, olds, news), t);
    var u := t.(triggers := Surviving(TR, olds, news));
    AddedNoneBlank(olds, news);
    TextsAreTriggers(Added(TR, olds, news));
    TriggersReplaced(olds, news);
    OneCaseMeans(TR, olds, news);
    AddTriggersLite(Added(TR, olds, news), u);
    RunAppend(Sqlite, DropTriggers(Removed(TR, olds, news)), AddTriggerTexts(Added(TR, olds, news)), t);
  }

  // ------------------------------------------------------------------ the table

  /** No dropped column is indexed, and every added column may be added. */
  predicate ColumnsOk(was: TableDesign, next: TableDesign) {
    DropsFree(was.columns, next.columns, TableOf(Sqlite, was, map[], 0)) && AddsOk(next.columns, 0)
  }

  /** The new name differs from the old one in more than case, and from those of the table's indexes. */
  ghost predicate RenameOk(was: TableDesign, next: TableDesign) {
    was.name == next.name
    || (Lower(was.name) != Lower(next.name) && forall x :: x in was.indexes ==> Lower(x.name) != Lower(next.name))
  }

  /** Nothing stands in the way of altering in place. */
  ghost predicate InPlaceOk(was: TableDesign, next: TableDesign) {
    RenameOk(was, next) && ColumnsOk(was, next) && NamesOfOneCase(next)
  }

  /** The loaded table, perhaps already renamed and with foreign keys that refer to it renamed along. */
  ghost predicate IsLoaded(was: TableDesign, next: TableDesign, vals: map<string, seq<Value>>, count: nat, t: Tbl) {
    && t == TableOf(Sqlite, was, vals, count).(name := t.name, fks := t.fks)
    && (forall k, n :: k in t.fks && n in t.fks[k].columns ==> Stable(next.columns, n))
  }

  lemma KeepsAColumn(was: TableDesign, next: TableDesign)
    requires SoundEdit(was, next) && Shortcut(was, next) && KeepsOne(next)
    ensures StillThere(was.columns, Originals(next.columns)) != []
  {
    hide SimpleColumns, NoStructureChange, SoundEdit, StillThere;
    var i :| 0 <= i < |next.columns| && next.columns[i].original.Some?;
    OriginIsKept(next.columns, i);
    OriginalsAre(next.columns, next.columns[i].original.value);
  }

  lemma LoadedStart(was: TableDesign, next: TableDesign, vals: map<string, seq<Value>>, count: nat, t: Tbl)
    requires SoundEdit(was, next) && Shortcut(was, next) && IsLoaded(was, next, vals, count, t)
    ensures KeysStable(t, next.columns) && KeptStable(Surviving(IX, was.indexes, next.indexes), next.columns)
    ensures t.order == [] + NamesOf(was.columns) && AllThere(was.columns, t, []) && KeysAre(t.cols, was.columns)
    ensures t.cols == ColumnsOf(Sqlite, was, was.columns, vals) && t.indexes == Bodies(IX, was.indexes)
    ensures DropsFree(was.columns, next.columns, t) ==
      DropsFree(was.columns, next.columns, TableOf(Sqlite, was, map[], 0))
  {
    hide ColumnsOf, Bodies, Stable, SimpleColumns, OrderKept, Fresh, IsKept, Surviving, HasColumn, IndexedIn;
    ColumnsOfAll(Sqlite, was, vals);
    SamePrimaryKey(was, next);
    if t.key.Some? {
      forall n | n in t.key.value.columns
        ensures Stable(next.columns, n)
      {
        SameKeyStable(was, next, n);
      }
    }
    forall k, n | k in Surviving(IX, was.indexes, next.indexes)
      && IndexUses(Surviving(IX, was.indexes, next.indexes)[k], n)
      ensures Stable(next.columns, n)
    {
      SurvivingIndexesStable(was, next, k, n);
    }
    forall i | 0 <= i < |was.columns|
      ensures was.columns[i].name in t.cols
    {
      HasItself(was.columns, i);
    }
    DropsFreeSame(was.columns, next.columns, t, TableOf(Sqlite, was, map[], 0));
  }

  /** Drops and column steps together. */
  lemma ColumnPhase(was: TableDesign, next: TableDesign, vals: map<string, seq<Value>>, count: nat,
      t: Tbl) returns (u: Tbl)
    requires FreshInCase(was.columns, next.columns)
    requires SoundEdit(was, next) && Shortcut(was, next) && KeepsOne(next) && Loaded(was, vals)
      && IsLoaded(was, next, vals, count, t)
    ensures Run(Sqlite, DropColumns(Sqlite, was.columns, next.columns) + AddOrRename(next.columns), t) ==
      if ColumnsOk(was, next) then Some(u) else None
    ensures ColumnsOk(was, next) ==>
      && SameRest(t, u) && u.cols == ColumnsOf(Sqlite, next, next.columns, Carried(next.columns, vals, count))
      && u.order == NamesOf(next.columns)
      && IndexesKept(Surviving(IX, was.indexes, next.indexes), Bodies(IX, was.indexes).Keys, u)
      && u.fks == FollowKeys(t.fks, t.name, AddOrRename(next.columns))
  {
    hide FreshInCase, FollowKeys, Run, ColumnsOf, Carried, Bodies, Surviving, SoundTable, Fresh, SimpleColumns,
      NoStructureChange,
      KeepsOne, Loaded, Moving, Matches,
      DropsFree, AddsOk, KeysStable, KeptStable, AllThere, NamesOf, Originals, StillThere, DropColumns, AddOrRename,
        NamesDistinct, DroppedNames, IsLoaded, FirstNew;
    SoundEditParts(was, next);
    SoundColumns(was);
    SoundColumns(next);
    KeepsAColumn(was, next);
    LoadedStart(was, next, vals, count, t);
    assert [] + StillThere(was.columns, Originals(next.columns)) == StillThere(was.columns, Originals(next.columns));
    var mid := ColumnDropsRun([], was.columns, next.columns, t);
    RunAppend(Sqlite, DropColumns(Sqlite, was.columns, next.columns), AddOrRename(next.columns), t);
    u := mid;
    if DropsFree(was.columns, next.columns, t) {
      var start, goal := ColumnsOf(Sqlite, was, was.columns, vals),
        ColumnsOf(Sqlite, next, next.columns, Carried(next.columns, vals, count));
      var kept, all := Surviving(IX, was.indexes, next.indexes), Bodies(IX, was.indexes).Keys;
      LoadedCount(was, next, vals, count, t);
      MovingBegins(was.columns, next.columns, start, goal, mid.cols);
      MatchesAll(was, next, vals, count);
      KeysStableBut(t, mid, next.columns);
      SurvivingIsSub(was, next);
      OrderStarts(next.columns);
      u := ColumnsRunInPlace(was.columns, next.columns, start, goal, kept, all, 0, mid);
      assert next.columns[0..] == next.columns;
      if AddsOk(next.columns, 0) {
        ColumnsOfAll(Sqlite, next, Carried(next.columns, vals, count));
        MovingEnds(next.columns, start, goal, u.cols);
      }
    }
  }

  lemma LoadedCount(was: TableDesign, next: TableDesign, vals: map<string, seq<Value>>, count: nat, t: Tbl)
    requires IsLoaded(was, next, vals, count, t)
    ensures t.count == count && t.schema == None && t.folds
  {
  }

  lemma SurvivingIsSub(was: TableDesign, next: TableDesign)
    ensures SubMap(Surviving(IX, was.indexes, next.indexes), Bodies(IX, was.indexes))
  {
    hide Bodies, Removed, NameSet;
  }

  lemma OrderStarts(news: seq<ColumnDef>)
    ensures OrderAt(news, 0) == Originals(news)
  {
    assert news[..0] == [] && news[0..] == news;
    assert [] + Originals(news) == Originals(news);
  }

  /**
   The whole table: the steps run through exactly when nothing is in the way, and then
   it is the new design, rows and order included.
   */
  lemma InPlaceTable(was: TableDesign, next: TableDesign, vals: map<string, seq<Value>>, count: nat, t: Tbl)
    requires SoundEdit(was, next) && Shortcut(was, next) && KeepsOne(next) && NoneBlank(next.triggers)
    requires Loaded(was, vals) && IsLoaded(was, next, vals, count, t) && t.name == next.name
    requires FreshInCase(was.columns, next.columns) && NamesOfOneCase(was)
    requires forall x :: x in was.indexes ==> Lower(x.name) != Lower(next.name)
    ensures Run(Sqlite, InPlaceSteps(was, next), t) ==
      if ColumnsOk(was, next) && NamesOfOneCase(next) then
        Some(TableOf(Sqlite, next, Carried(next.columns, vals, count),
        count).(fks := FollowKeys(t.fks, t.name, AddOrRename(next.columns)))) else None
  {
    hide FollowKeys, Run, ColumnsOf, Carried, Bodies, Surviving, SoundTable, Fresh, SimpleColumns, OrderKept, KeepsOne,
      Loaded, DropColumns, AddOrRename, DropIndexes, AddIndexes,
      DropTriggers, AddTriggerTexts, ColumnsOk, NoneBlank, FreshInCase, OneCase, Lower, Distinct, IndexesKept, NamesOf;
    var olds, news := was.columns, next.columns;
    SoundEditParts(was, next);
    var a, b := DropColumns(Sqlite, olds, news) + AddOrRename(news),
      DropIndexes(Sqlite, Removed(IX, was.indexes, next.indexes));
    var c := AddIndexes(Added(IX, was.indexes, next.indexes));
    var d, e := DropTriggers(Removed(TR, was.triggers, next.triggers)),
      AddTriggerTexts(Added(TR, was.triggers, next.triggers));
    assert InPlaceSteps(was, next) == a + b + c + (d + e);
    var t1 := ColumnPhase(was, next, vals, count, t);
    RunAppend(Sqlite, a + b + c, d + e, t);
    RunAppend(Sqlite, a + b, c, t);
    RunAppend(Sqlite, a, b, t);
    if ColumnsOk(was, next) {
      IndexDropsRun(was, next, t1);
      var t2 := t1.(indexes := Surviving(IX, was.indexes, next.indexes));
      ColumnsAllThere(next, Carried(news, vals, count), t2);
      IndexAddsRun(was, next, t2);
      var t3 := t2.(indexes := Bodies(IX, next.indexes));
      RealLoaded(was, next, vals, count, t);
      RealOfReal(was.triggers);
      TriggersRun(was, next, t3);
      ConstraintsSame(was, next);
      RealOfReal(next.triggers);
    }
  }

  lemma ColumnsAllThere(next: TableDesign, vals: map<string, seq<Value>>, t: Tbl)
    requires t.cols == ColumnsOf(Sqlite, next, next.columns, vals)
    ensures HasAll(t, next.columns)
  {
    hide ColumnsOf, HasColumn;
    ColumnsOfAll(Sqlite, next, vals);
    forall i | 0 <= i < |next.columns|
      ensures next.columns[i].name in t.cols
    {
      HasItself(next.columns, i);
    }
  }

  lemma RealLoaded(was: TableDesign, next: TableDesign, vals: map<string, seq<Value>>, count: nat, t: Tbl)
    requires SoundEdit(was, next) && IsLoaded(was, next, vals, count, t)
    ensures t.triggers == Bodies(TR, was.triggers)
  {
    hide ColumnsOf, Bodies, SoundTable, Fresh, IsBlank;
    SoundEditParts(was, next);
    RealOfReal(was.triggers);
  }
}
