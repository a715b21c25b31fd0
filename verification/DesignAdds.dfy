/** PostgreSQL and SQL Server: the adds at the end of a plan leave exactly the parts the new design names. */
module DesignAdds {
  import opened Prelude
  import opened Engines
  import opened Design
  import opened DesignExec
  import opened DesignParts
  import opened DesignValid
  import opened DesignReferences
  import opened DesignPhases

  // ------------------------------------------------------------------ what survives, and what is added

  lemma SurvivingSub<T, B>(k: Kind<T, B>, olds: seq<T>, news: seq<T>)
    requires Distinct(k, olds) && Distinct(k, news) && Coherent(k, olds, news)
    ensures SubMap(Surviving(k, olds, news), Bodies(k, news))
  {
    hide Surviving, Bodies, Coherent, Distinct;
    forall q | q in Surviving(k, olds, news)
      ensures q in Bodies(k, news) && Bodies(k, news)[q] == Surviving(k, olds, news)[q]
    {
      SurvivorsAreNew(k, olds, news, q);
    }
  }

  lemma RealTriggersIn(xs: seq<TriggerDef>, x: TriggerDef)
    ensures x in RealTriggers(xs) <==> x in xs && !IsBlank(x.definition)
  {
    hide IsBlank;
    if xs != [] {
      RealTriggersIn(xs[1..], x);
    }
  }

  lemma {:induction false} RealTriggersDistinct(xs: seq<TriggerDef>)
    requires Distinct(TR, xs)
    ensures Distinct(TR, RealTriggers(xs))
  {
    hide IsBlank;
    if xs != [] {
      DistinctTail(TR, xs);
      RealTriggersDistinct(xs[1..]);
      var rest := RealTriggers(xs[1..]);
      InNameSet(TR, xs[1..], xs[0].name);
      forall y | y in rest
        ensures TR.name(y) != TR.name(xs[0])
      {
        RealTriggersIn(xs[1..], y);
      }
      DistinctCons(TR, xs[0], rest);
      assert [] + rest == rest;
    }
  }

  /** Dropping the blank ones before or after choosing what to add makes no difference. */
  lemma {:induction false} AddedReal(olds: seq<TriggerDef>, news: seq<TriggerDef>)
    ensures RealTriggers(Added(TR, olds, news)) == Added(TR, olds, RealTriggers(news))
  {
    hide IsBlank, Unchanged;
    if news != [] {
      AddedReal(olds, news[1..]);
      var x, rest, solid := news[0], Added(TR, olds, news[1..]), RealTriggers(news[1..]);
      assert ([x] + rest)[1..] == rest && ([x] + solid)[1..] == solid;
      assert [] + rest == rest && [] + solid == solid && [] + RealTriggers(rest) == RealTriggers(rest);
    }
  }

  predicate NoneBlank(xs: seq<TriggerDef>) {
    forall i :: 0 <= i < |xs| ==> !IsBlank(xs[i].definition)
  }

  lemma KeptReal(o: TriggerDef, news: seq<TriggerDef>)
    requires !IsBlank(o.definition)
    ensures Kept(TR, news, o) <==> Kept(TR, RealTriggers(news), o)
  {
    hide Trim;
    if Kept(TR, news, o) {
      var i :| 0 <= i < |news| && TR.original(news[i]) == Some(TR.name(o)) && TR.same(o, news[i]);
      RealTriggersIn(news, news[i]);
      var j :| 0 <= j < |RealTriggers(news)| && RealTriggers(news)[j] == news[i];
      assert Kept(TR, RealTriggers(news), o);
    }
    if Kept(TR, RealTriggers(news), o) {
      var j :| 0 <= j < |RealTriggers(news)| && TR.original(RealTriggers(news)[j]) == Some(TR.name(o))
        && TR.same(o, RealTriggers(news)[j]);
      RealTriggersIn(news, RealTriggers(news)[j]);
      var i :| 0 <= i < |news| && news[i] == RealTriggers(news)[j];
      assert Kept(TR, news, o);
    }
  }

  lemma {:induction false} RemovedReal(olds: seq<TriggerDef>, news: seq<TriggerDef>)
    requires NoneBlank(olds)
    ensures Removed(TR, olds, news) == Removed(TR, olds, RealTriggers(news))
  {
    hide IsBlank, Kept;
    if olds != [] {
      assert !IsBlank(olds[0].definition);
      KeptReal(olds[0], news);
      RemovedReal(olds[1..], news);
    }
  }

  /** All the triggers the new design has text for, and no others. */
  lemma TriggersReplaced(olds: seq<TriggerDef>, news: seq<TriggerDef>)
    requires Distinct(TR, olds) && Distinct(TR, news) && Coherent(TR, olds, news) && NoneBlank(olds)
    ensures Surviving(TR, olds, news) + Bodies(TR, RealTriggers(Added(TR, olds, news))) ==
      Bodies(TR, RealTriggers(news))
    ensures Distinct(TR, RealTriggers(Added(TR, olds, news)))
    ensures forall i :: 0 <= i < |RealTriggers(Added(TR, olds, news))| ==>
      var x := RealTriggers(Added(TR, olds, news))[i]; x.name !in Surviving(TR, olds, news) && !IsBlank(x.definition)
  {
    hide Bodies, IsBlank, NoneBlank, Removed, Added, NameSet;
    var solid := RealTriggers(news);
    RealTriggersDistinct(news);
    AddedReal(olds, news);
    RemovedReal(olds, news);
    forall i, j | 0 <= i < |olds| && 0 <= j < |solid| && TR.original(solid[j]) == Some(TR.name(olds[i]))
      && TR.same(olds[i], solid[j])
      ensures TR.name(olds[i]) == TR.name(solid[j]) && TR.body(olds[i]) == TR.body(solid[j])
    {
      RealTriggersIn(news, solid[j]);
      var m :| 0 <= m < |news| && news[m] == solid[j];
    }
    PartsReplaced(TR, olds, solid);
    AddedDistinct(TR, olds, solid);
    var added := RealTriggers(Added(TR, olds, news));
    forall i | 0 <= i < |added|
      ensures added[i].name !in Surviving(TR, olds, news) && !IsBlank(added[i].definition)
    {
      AddedAreFree(TR, olds, solid, added[i]);
      RealTriggersIn(Added(TR, olds, news), added[i]);
    }
  }

  // ------------------------------------------------------------------ the adds, one kind after the other

  /** A table with the parts of a design. */
  function Dressed(d: TableDesign, t: Tbl): Tbl {
    t.(key := KeyOf(Postgres, d), fks := Bodies(FK, d.foreignKeys), indexes := Bodies(IX, d.indexes),
       checks := Bodies(CK, d.checks), triggers := Bodies(TR, RealTriggers(d.triggers)))
  }

  predicate HasAll(t: Tbl, cs: seq<ColumnDef>) {
    forall i :: 0 <= i < |cs| ==> cs[i].name in t.cols
  }

  lemma ColumnsFit(t: Tbl, cs: seq<ColumnDef>, names: seq<string>)
    requires HasAll(t, cs) && AllColumns(cs, names)
    ensures ColumnsExist(t, names)
  {
    forall i | 0 <= i < |names|
      ensures names[i] in t.cols
    {
      assert HasColumn(cs, names[i]);
    }
  }

  lemma IndexesFit(t: Tbl, cs: seq<ColumnDef>, x: IndexDef)
    requires HasAll(t, cs) && IndexColumnsExist(cs, x)
    ensures IndexFits(t, BodyOfIndex(x))
  {
    forall i | 0 <= i < |x.columns|
      ensures x.columns[i].name in t.cols
    {
      assert HasColumn(cs, x.columns[i].name);
    }
  }

  lemma AddKeyRun(e: Engine, was: TableDesign, next: TableDesign, t: Tbl)
    requires KeepsConstraints(e)
    requires SoundTable(next) && HasAll(t, next.columns) && t.name == next.name
    requires t.key == if was.primaryKey == next.primaryKey then KeyOf(Postgres, was) else None
    requires var f := Dressed(Reached(was, next), t); PartOf(t, f) && NamesApart(f)
    ensures Run(e, AddKey(e, was, next), t) ==
      if KeyAccepted(e, was, next) then Some(t.(key := KeyOf(Postgres, Reached(was, next)))) else None
  {
    hide Run, Distinct, Bodies, NamesApart, PartOf, ConstraintTaken, KeyOk, AllFollowed;
    var changed := was.primaryKey != next.primaryKey && next.primaryKey != [];
    RunWhen(e, changed, AddPrimaryKey(NonEmpty(next.primaryKeyName), next.primaryKey), t);
    if changed {
      ColumnsFit(t, next.columns, next.primaryKey);
      if NonEmpty(next.primaryKeyName).Some? {
        KeyIsFree(t, Dressed(Reached(was, next), t), next.primaryKeyName.value);
      }
    }
  }

  lemma AddedChecksOk(e: Engine, was: TableDesign, next: TableDesign)
    ensures AllChecksOk(e, Added(CK, was.checks, next.checks)) <==> ChecksAccepted(e, was, next)
  {
    hide Added, Unchanged, CheckOk;
    var xs := Added(CK, was.checks, next.checks);
    forall x: CheckDef
      ensures x in xs <==> x in next.checks && !Unchanged(CK, was.checks, x)
    {
      AddedIs(CK, was.checks, next.checks, x);
    }
    assert AllChecksOk(e, xs) <==> forall x :: x in xs ==> CheckOk(e, x);
    assert ChecksAccepted(e, was, next) <==>
      forall x :: x in next.checks && !Unchanged(CK, was.checks, x) ==> CheckOk(e, x);
  }

  lemma AddChecksReach(e: Engine, was: TableDesign, next: TableDesign, t: Tbl, f: Tbl)
    requires KeepsConstraints(e)
    requires SoundEdit(was, next) && t.checks == Surviving(CK, was.checks, next.checks)
    requires PartOf(t, f) && NamesApart(f) && f.checks == Bodies(CK, next.checks)
    ensures Run(e, AddChecks(Added(CK, was.checks, next.checks)), t) ==
      if ChecksAccepted(e, was, next) then Some(t.(checks := f.checks)) else None
  {
    hide Run, Distinct, Bodies, NamesApart, PartOf, ConstraintTaken, Surviving, Added, AllChecksOk, ChecksAccepted;
    var xs := Added(CK, was.checks, next.checks);
    PartsCoherent(was, next);
    AddedDistinct(CK, was.checks, next.checks);
    forall i | 0 <= i < |xs|
      ensures !ConstraintTaken(t, xs[i].name)
    {
      AddedAreFree(CK, was.checks, next.checks, xs[i]);
      CheckIsFree(t, f, xs[i].name);
    }
    AddChecksRun(e, xs, t);
    AddedChecksOk(e, was, next);
    PartsReplaced(CK, was.checks, next.checks);
  }

  lemma AddedAccepted(e: Engine, was: TableDesign, next: TableDesign)
    ensures AllAccepted(e, next.name, Added(IX, was.indexes, next.indexes)) <==> IndexesAccepted(e, was, next)
  {
    hide Added, Unchanged, IndexAccepted;
    var xs := Added(IX, was.indexes, next.indexes);
    forall x: IndexDef
      ensures x in xs <==> x in next.indexes && !Unchanged(IX, was.indexes, x)
    {
      AddedIs(IX, was.indexes, next.indexes, x);
    }
    assert AllAccepted(e, next.name, xs) <==> forall x :: x in xs ==> IndexAccepted(e, next.name, x);
    assert IndexesAccepted(e, was, next) <==>
      forall x :: x in next.indexes && !Unchanged(IX, was.indexes, x) ==> IndexAccepted(e, next.name, x);
  }

  lemma AddIndexesReach(e: Engine, was: TableDesign, next: TableDesign, t: Tbl, f: Tbl)
    requires KeepsConstraints(e) && t.name == next.name
    requires SoundEdit(was, next) && t.indexes == Surviving(IX, was.indexes, next.indexes) && HasAll(t, next.columns)
    requires PartOf(t, f) && NamesApart(f) && f.indexes == Bodies(IX, next.indexes)
    ensures Run(e, AddIndexes(Added(IX, was.indexes, next.indexes)), t) ==
      if IndexesAccepted(e, was, next) then Some(t.(indexes := f.indexes)) else None
  {
    hide Run, Distinct, Bodies, NamesApart, PartOf, ConstraintTaken, Borne, Surviving, Added, AllAccepted,
      IndexesAccepted;
    var xs := Added(IX, was.indexes, next.indexes);
    PartsCoherent(was, next);
    AddedDistinct(IX, was.indexes, next.indexes);
    forall i | 0 <= i < |xs|
      ensures !Borne(t, xs[i].name) && (xs[i].constraint ==> !ConstraintTaken(t, xs[i].name))
        && IndexFits(t, BodyOfIndex(xs[i]))
    {
      AddedAreFree(IX, was.indexes, next.indexes, xs[i]);
      IndexIsFree(t, f, xs[i].name);
      var j :| 0 <= j < |next.indexes| && next.indexes[j] == xs[i];
      assert IndexColumnsExist(next.columns, next.indexes[j]);
      IndexesFit(t, next.columns, xs[i]);
    }
    AddIndexesRun(e, xs, t);
    AddedAccepted(e, was, next);
    PartsReplaced(IX, was.indexes, next.indexes);
  }

  lemma AddedFounded(e: Engine, was: TableDesign, next: TableDesign, t: Tbl)
    requires !t.folds && t.name == next.name && t.schema == NonEmpty(was.schema)
    requires t.former == (if was.name == next.name then None else Some(was.name))
    requires t.key == KeyOf(e, Reached(was, next)) && t.indexes == Bodies(IX, next.indexes)
    ensures AllFounded(e, t, Added(FK, was.foreignKeys, next.foreignKeys)) <==> AddsFounded(e, was, next)
  {
    hide Added, Unchanged, BodyOfForeignKey, Unfounded, Founded, Reached, Bodies, ForeignKeyOk;
    var xs := Added(FK, was.foreignKeys, next.foreignKeys);
    forall x: ForeignKeyDef
      ensures Taken(e, t, x) == Founded(e, was, next, x)
      ensures x in xs <==> x in next.foreignKeys && !Unchanged(FK, was.foreignKeys, x)
    {
      UnfoundedMeans(e, was, next, t, x);
      AddedIs(FK, was.foreignKeys, next.foreignKeys, x);
    }
    hide Taken;
    assert AllFounded(e, t, xs) <==> forall x :: x in xs ==> Taken(e, t, x);
    assert AddsFounded(e, was, next) <==>
      forall x :: x in next.foreignKeys && !Unchanged(FK, was.foreignKeys, x) ==> Founded(e, was, next, x);
  }

  lemma AddForeignKeysReach(e: Engine, was: TableDesign, next: TableDesign, t: Tbl, f: Tbl)
    requires KeepsConstraints(e)
    requires SoundEdit(was, next) && t.fks == KeptKeys(was, next) && HasAll(t, next.columns)
    requires !t.folds && t.name == next.name && t.schema == NonEmpty(was.schema)
      && t.former == (if was.name == next.name then None else Some(was.name))
    requires t.key == KeyOf(e, Reached(was, next)) && t.indexes == Bodies(IX, next.indexes)
    requires PartOf(t, f) && NamesApart(f) && f.fks == Bodies(FK, Reached(was, next).foreignKeys)
    ensures Run(e, AddForeignKeys(Added(FK, was.foreignKeys, next.foreignKeys)), t) ==
      if AddsFounded(e, was, next) then Some(t.(fks := f.fks)) else None
  {
    hide Run, Distinct, Bodies, NamesApart, PartOf, ConstraintTaken, IndexTaken, Surviving, Added, KeptKeys, Reached,
      AllFounded, AddsFounded, KeyOf;
    var xs := Added(FK, was.foreignKeys, next.foreignKeys);
    PartsCoherent(was, next);
    AddedDistinct(FK, was.foreignKeys, next.foreignKeys);
    forall i | 0 <= i < |xs|
      ensures !ConstraintTaken(t, xs[i].name) && ColumnsExist(t, xs[i].columns)
    {
      AddedKeyIsFree(was, next, xs[i]);
      ForeignKeyIsFree(t, f, xs[i].name);
      var j :| 0 <= j < |next.foreignKeys| && next.foreignKeys[j] == xs[i];
      assert AllColumns(next.columns, next.foreignKeys[j].columns);
      ColumnsFit(t, next.columns, xs[i].columns);
    }
    AddForeignKeysRun(e, xs, t);
    AddedFounded(e, was, next, t);
    KeysReached(was, next);
  }

  lemma AddedKeyIsFree(was: TableDesign, next: TableDesign, x: ForeignKeyDef)
    requires SoundEdit(was, next) && x in Added(FK, was.foreignKeys, next.foreignKeys)
    ensures x.name !in KeptKeys(was, next) && x.name in Bodies(FK, Reached(was, next).foreignKeys)
      && x in next.foreignKeys
  {
    hide Bodies, Surviving, Added, Distinct, SoundTable, Fresh, Reached;
    SoundParts(was);
    SoundParts(next);
    PartsCoherent(was, next);
    AddedAreFree(FK, was.foreignKeys, next.foreignKeys, x);
    ReachedNames(was, next, x.name);
  }

  lemma AddTriggersReach(e: Engine, was: TableDesign, next: TableDesign, t: Tbl)
    requires KeepsConstraints(e)
    requires SoundEdit(was, next) && t.triggers == Surviving(TR, was.triggers, next.triggers)
    ensures Run(e, AddTriggers(Added(TR, was.triggers, next.triggers)), t) ==
      Some(t.(triggers := Bodies(TR, RealTriggers(next.triggers))))
  {
    hide Run, Distinct, Bodies, Surviving, Added, IsBlank, RealTriggers;
    PartsCoherent(was, next);
    TriggersReplaced(was.triggers, next.triggers);
    AddTriggersReal(Added(TR, was.triggers, next.triggers));
    AddTriggersRun(e, RealTriggers(Added(TR, was.triggers, next.triggers)), t);
  }

  /** What the table looks like when the adds begin. */
  ghost predicate ReadyForAdds(was: TableDesign, next: TableDesign, t: Tbl) {
    && t == Stripped(was, next, t)
    && t.key == (if was.primaryKey == next.primaryKey then KeyOf(Postgres, was) else None)
    && HasAll(t, next.columns)
    && !t.folds && t.name == next.name && t.schema == NonEmpty(was.schema)
    && t.former == (if was.name == next.name then None else Some(was.name))
  }

  lemma KeptSub(was: TableDesign, next: TableDesign)
    requires SoundEdit(was, next)
    ensures SubMap(KeptKeys(was, next), Bodies(FK, Reached(was, next).foreignKeys))
  {
    hide Bodies, Surviving, Added, Distinct, SoundTable, Fresh, Reached;
    SoundParts(was);
    SoundParts(next);
    PartsCoherent(was, next);
    KeysReached(was, next);
    var added := Added(FK, was.foreignKeys, next.foreignKeys);
    forall k | k in KeptKeys(was, next)
      ensures k !in Bodies(FK, added)
    {
      BodiesKeys(FK, added);
      InNameSet(FK, added, k);
      if k in Bodies(FK, added) {
        var x :| x in added && FK.name(x) == k;
        AddedAreFree(FK, was.foreignKeys, next.foreignKeys, x);
      }
    }
  }

  lemma ReadyIsPart(was: TableDesign, next: TableDesign, t: Tbl)
    requires SoundEdit(was, next) && ReadyForAdds(was, next, t)
    ensures PartOf(t, Dressed(Reached(was, next), t))
  {
    hide Bodies, Surviving, Distinct, KeptKeys, AllFollowed;
    PartsCoherent(was, next);
    KeptSub(was, next);
    SurvivingSub(CK, was.checks, next.checks);
    SurvivingSub(IX, was.indexes, next.indexes);
  }

  /**
   The adds go through exactly when every foreign key added has something to refer to,
   and leave the reached design's parts.
   */
  lemma AddPartsRun(e: Engine, was: TableDesign, next: TableDesign, t: Tbl)
    requires KeepsConstraints(e)
    requires SoundEdit(was, next) && ReadyForAdds(was, next, t) && NamesApart(Dressed(Reached(was, next), t))
    ensures Run(e, AddParts(e, was, next), t) == if AddsAccepted(e, was, next) then Some(Dressed(Reached(was, next), t))
      else None
  {
    hide Run, Distinct, Bodies, Surviving, Added, NamesApart, RealTriggers, KeyOf, SoundEdit, SoundTable, AddKey,
      AddChecks, AddIndexes, AddForeignKeys, AddTriggers,
      AddsFounded, KeyAccepted, ChecksAccepted, IndexesAccepted, AllFollowed, KeptKeys;
    assert SoundTable(next) by { SoundEditParts(was, next); }
    var f := Dressed(Reached(was, next), t);
    ReadyIsPart(was, next, t);
    KeySame(e, Reached(was, next));
    var t1 := t.(key := f.key);
    var t2 := t1.(checks := f.checks);
    var t3 := t2.(indexes := f.indexes);
    var t4 := t3.(fks := f.fks);
    AddKeyRun(e, was, next, t);
    AddChecksReach(e, was, next, t1, f);
    AddIndexesReach(e, was, next, t2, f);
    AddForeignKeysReach(e, was, next, t3, f);
    AddTriggersReach(e, was, next, t4);
    var a, b, c := AddKey(e, was, next), AddChecks(Added(CK, was.checks, next.checks)),
      AddIndexes(Added(IX, was.indexes, next.indexes));
    var d, g := AddForeignKeys(Added(FK, was.foreignKeys, next.foreignKeys)),
      AddTriggers(Added(TR, was.triggers, next.triggers));
    RunAppend(e, a + b + c + d, g, t);
    RunAppend(e, a + b + c, d, t);
    RunAppend(e, a + b, c, t);
    RunAppend(e, a, b, t);
  }

  lemma KeySame(e: Engine, d: TableDesign)
    requires KeepsConstraints(e)
    ensures KeyOf(e, d) == KeyOf(Postgres, d)
  {
  }

  lemma SoundEditParts(was: TableDesign, next: TableDesign)
    requires SoundEdit(was, next)
    ensures SoundTable(was) && SoundTable(next) && Fresh(was.columns, next.columns) && OldName(was, next) == was.name
      && NoneBlank(was.triggers)
  {
  }
}
