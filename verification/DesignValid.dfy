/** What makes a pair of designs a proper edit of one table. */
module DesignValid {
  import opened Prelude
  import opened Engines
  import opened Design
  import opened DesignExec
  import opened DesignParts

  predicate NamesDistinct(cs: seq<ColumnDef>) {
    forall i, j :: 0 <= i < j < |cs| ==> cs[i].name != cs[j].name
  }

  predicate HasColumn(cs: seq<ColumnDef>, name: string) {
    exists i :: 0 <= i < |cs| && cs[i].name == name
  }

  /**
   Fresh names: originals exist and are distinct, and a column that bears a
   loaded column's name is that column.
   */
  predicate Fresh(was: seq<ColumnDef>, news: seq<ColumnDef>) {
    && (forall i :: 0 <= i < |news| && news[i].original.Some? ==> HasColumn(was, news[i].original.value))
    && (forall i, j :: 0 <= i < j < |news| && news[i].original.Some? ==> news[i].original != news[j].original)
    && (forall i :: 0 <= i < |news| && HasColumn(was, news[i].name) ==> news[i].original == Some(news[i].name))
  }

  /** A loaded column that keeps its name. */
  predicate Stable(news: seq<ColumnDef>, name: string) {
    exists i :: 0 <= i < |news| && news[i].name == name && news[i].original == Some(name)
  }

  predicate AllColumns(cs: seq<ColumnDef>, names: seq<string>) {
    forall i :: 0 <= i < |names| ==> HasColumn(cs, names[i])
  }

  predicate IndexColumnsExist(cs: seq<ColumnDef>, x: IndexDef) {
    forall i :: 0 <= i < |x.columns| ==> HasColumn(cs, x.columns[i].name)
  }

  /** Names are distinct, and keys, indexes and foreign keys refer to columns of the table. */
  predicate SoundTable(t: TableDesign) {
    && NamesDistinct(t.columns)
    && AllColumns(t.columns, t.primaryKey)
    && (forall i :: 0 <= i < |t.indexes| ==> IndexColumnsExist(t.columns, t.indexes[i]))
    && (forall i :: 0 <= i < |t.foreignKeys| ==> AllColumns(t.columns, t.foreignKeys[i].columns))
    && Distinct(IX, t.indexes) && Distinct(FK, t.foreignKeys) && Distinct(CK, t.checks) && Distinct(TR, t.triggers)
  }

  /** Two designs of the same table. A trigger's name is part of its text. */
  predicate SoundEdit(was: TableDesign, next: TableDesign) {
    && SoundTable(was) && SoundTable(next)
    && Fresh(was.columns, next.columns)
    && (next.originalName == None || next.originalName == Some(was.name)) && was.schema == next.schema
    && (forall i :: 0 <= i < |was.triggers| ==> !IsBlank(was.triggers[i].definition))
    && (forall i, j ::
          0 <= i < |was.triggers| && 0 <= j < |next.triggers| && SameTrigger(was.triggers[i], next.triggers[j]) ==>
          was.triggers[i].name == next.triggers[j].name)
  }

  // ------------------------------------------------------------------ kept parts refer to stable columns

  lemma BothMeansStable(was: seq<ColumnDef>, news: seq<ColumnDef>, name: string)
    requires Fresh(was, news) && HasColumn(was, name) && HasColumn(news, name)
    ensures Stable(news, name)
  {
    var i :| 0 <= i < |news| && news[i].name == name;
    assert news[i].original == Some(name);
  }

  /** Everything in the table that refers to a column of it refers to one that stays what it is. */
  ghost predicate RefersTo(t: Tbl, news: seq<ColumnDef>) {
    && !t.folds
    && (t.key.Some? ==> forall n :: n in t.key.value.columns ==> Stable(news, n))
    && (forall k, n :: k in t.indexes && IndexUses(t.indexes[k], n) ==> Stable(news, n))
    && (forall k, n :: k in t.fks && n in t.fks[k].columns ==> Stable(news, n))
    && (forall k, n :: k in t.fks && ToItself(t, t.fks[k]) && n in t.fks[k].refColumns ==> Stable(news, n))
  }

  lemma PartsCoherent(was: TableDesign, next: TableDesign)
    requires SoundEdit(was, next)
    ensures Coherent(FK, was.foreignKeys, next.foreignKeys) && Coherent(IX, was.indexes, next.indexes)
    ensures Coherent(CK, was.checks, next.checks) && Coherent(TR, was.triggers, next.triggers)
  {
    hide Upper, Lower, Trim;
  }

  lemma SurvivingIndexesStable(was: TableDesign, next: TableDesign, k: string, n: string)
    requires SoundEdit(was, next)
    requires k in Surviving(IX, was.indexes, next.indexes) && IndexUses(Surviving(IX, was.indexes, next.indexes)[k], n)
    ensures Stable(next.columns, n)
  {
    hide Surviving, Bodies;
    PartsCoherent(was, next);
    SurvivorsAreNew(IX, was.indexes, next.indexes, k);
    var x :| x in next.indexes && IX.name(x) == k && Unchanged(IX, was.indexes, x);
    BodyOf(IX, next.indexes, x);
    var j :| 0 <= j < |next.indexes| && next.indexes[j] == x;
    var i :| 0 <= i < |was.indexes| && IX.same(was.indexes[i], x);
    var c :| 0 <= c < |x.columns| && x.columns[c].name == n;
    assert was.indexes[i].columns == x.columns;
    assert IndexColumnsExist(was.columns, was.indexes[i]) && IndexColumnsExist(next.columns, next.indexes[j]);
    assert HasColumn(was.columns, was.indexes[i].columns[c].name);
    BothMeansStable(was.columns, next.columns, n);
  }

  lemma SurvivingKeysStable(was: TableDesign, next: TableDesign, k: string, n: string)
    requires SoundEdit(was, next)
    requires k in Surviving(FK, was.foreignKeys, next.foreignKeys)
      && n in Surviving(FK, was.foreignKeys, next.foreignKeys)[k].columns
    ensures Stable(next.columns, n)
  {
    hide Surviving, Bodies;
    PartsCoherent(was, next);
    SurvivorsAreNew(FK, was.foreignKeys, next.foreignKeys, k);
    var x :| x in next.foreignKeys && FK.name(x) == k && Unchanged(FK, was.foreignKeys, x);
    BodyOf(FK, next.foreignKeys, x);
    var j :| 0 <= j < |next.foreignKeys| && next.foreignKeys[j] == x;
    var i :| 0 <= i < |was.foreignKeys| && FK.same(was.foreignKeys[i], x);
    var c :| 0 <= c < |x.columns| && x.columns[c] == n;
    assert was.foreignKeys[i].columns == x.columns;
    assert AllColumns(was.columns, was.foreignKeys[i].columns) && AllColumns(next.columns, next.foreignKeys[j].columns);
    assert HasColumn(was.columns, was.foreignKeys[i].columns[c]);
    BothMeansStable(was.columns, next.columns, n);
  }

  lemma SameKeyStable(was: TableDesign, next: TableDesign, n: string)
    requires SoundEdit(was, next) && was.primaryKey == next.primaryKey && n in was.primaryKey
    ensures Stable(next.columns, n)
  {
    var i :| 0 <= i < |was.primaryKey| && was.primaryKey[i] == n;
    assert HasColumn(was.columns, was.primaryKey[i]) && HasColumn(next.columns, next.primaryKey[i]);
    BothMeansStable(was.columns, next.columns, n);
  }

  /** What a reference of the table to itself needs is made of stable columns, so the reference is to such columns. */
  lemma ServedIsStable(e: Engine, was: TableDesign, next: TableDesign, t: Tbl, names: seq<string>, n: string)
    requires SoundEdit(was, next) && t.indexes == Surviving(IX, was.indexes, next.indexes)
    requires t.key.Some? ==> was.primaryKey == next.primaryKey && t.key.value.columns == was.primaryKey
    requires Served(e, t.key, t.indexes, names) && n in names
    ensures Stable(next.columns, n)
  {
    hide Surviving, SoundEdit, Stable, KeyIndex;
    if t.key.Some? && Serves(e, true, t.key.value.columns, names) {
      SameKeyStable(was, next, n);
    } else {
      var k :| k in t.indexes && Serves(e, KeyIndex(t.indexes[k]), IndexNames(t.indexes[k]), names);
      assert n in IndexNames(t.indexes[k]);
      assert IndexUses(t.indexes[k], n);
      SurvivingIndexesStable(was, next, k, n);
    }
  }

  /** What is left after the drops refers only to stable columns. */
  lemma SurvivorsStable(e: Engine, was: TableDesign, next: TableDesign, t: Tbl)
    requires SoundEdit(was, next) && AllServed(e, t) && !t.folds
    requires t.indexes == Surviving(IX, was.indexes, next.indexes)
    requires t.fks ==
      RetargetKeys(false, Surviving(FK, was.foreignKeys, next.foreignKeys), t.schema, was.name, next.name)
    requires t.key.Some? ==> was.primaryKey == next.primaryKey && t.key.value.columns == was.primaryKey
    ensures RefersTo(t, next.columns)
  {
    hide Surviving, SoundEdit, Stable, Served;
    forall k, n | k in t.indexes && IndexUses(t.indexes[k], n)
      ensures Stable(next.columns, n)
    {
      SurvivingIndexesStable(was, next, k, n);
    }
    forall k, n | k in t.fks && n in t.fks[k].columns
      ensures Stable(next.columns, n)
    {
      SurvivingKeysStable(was, next, k, n);
    }
    forall k, n | k in t.fks && ToItself(t, t.fks[k]) && n in t.fks[k].refColumns
      ensures Stable(next.columns, n)
    {
      ServedIsStable(e, was, next, t, t.fks[k].refColumns, n);
    }
    if t.key.Some? {
      forall n | n in t.key.value.columns
        ensures Stable(next.columns, n)
      {
        SameKeyStable(was, next, n);
      }
    }
  }

  /** A stable column is kept, and under its own name. */
  lemma StableIsKept(was: seq<ColumnDef>, news: seq<ColumnDef>, name: string)
    requires Stable(news, name)
    ensures IsKept(news, name)
  {
  }

  lemma UsedIsStable(t: Tbl, news: seq<ColumnDef>, name: string)
    requires RefersTo(t, news) && (Used(t, name) || Referred(t, name))
    ensures Stable(news, name)
  {
  }
}
