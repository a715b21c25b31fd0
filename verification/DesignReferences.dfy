/**
 References from a table to itself: what renaming the table makes of them, and what a
 plan may not take from under them.
 */
module DesignReferences {
  import opened Prelude
  import opened Engines
  import opened Design
  import opened DesignExec
  import opened DesignParts
  import opened DesignValid

  // ------------------------------------------------------------------ following the table

  /** The key refers to the designed table, by that name of it. */
  predicate OfTable(d: TableDesign, name: string, x: ForeignKeyDef) {
    PointsAt(false, BodyOfForeignKey(x), NonEmpty(d.schema), name)
  }

  /** A kept reference of the table to itself follows it to its new name, whatever the design says. */
  function Followed(was: TableDesign, next: TableDesign, x: ForeignKeyDef): ForeignKeyDef {
    if Unchanged(FK, was.foreignKeys, x) && OfTable(was, was.name, x) then x.(refTable := next.name) else x
  }

  function AllFollowed(was: TableDesign, next: TableDesign, xs: seq<ForeignKeyDef>): (r: seq<ForeignKeyDef>)
    ensures |r| == |xs|
    ensures forall i :: 0 <= i < |xs| ==> r[i] == Followed(was, next, xs[i])
  {
    seq(|xs|, i requires 0 <= i < |xs| => Followed(was, next, xs[i]))
  }

  /** The design a plan reaches: an unchanged key keeps its name, a kept reference of the table to itself stays one. */
  function Reached(was: TableDesign, next: TableDesign): TableDesign {
    next.(primaryKeyName := if was.primaryKey == next.primaryKey then was.primaryKeyName else next.primaryKeyName,
          foreignKeys := AllFollowed(was, next, next.foreignKeys))
  }

  /** The loaded foreign keys once the table has its new name. */
  function LoadedKeys(was: TableDesign, next: TableDesign): map<string, ForeignKeyBody> {
    RetargetKeys(false, Bodies(FK, was.foreignKeys), NonEmpty(was.schema), was.name, next.name)
  }

  /** And those of them that are kept. */
  function KeptKeys(was: TableDesign, next: TableDesign): map<string, ForeignKeyBody> {
    RetargetKeys(false, Surviving(FK, was.foreignKeys, next.foreignKeys), NonEmpty(was.schema), was.name, next.name)
  }

  lemma KeptKeysAre(was: TableDesign, next: TableDesign)
    ensures LoadedKeys(was, next) - NameSet(FK, Removed(FK, was.foreignKeys, next.foreignKeys)) == KeptKeys(was, next)
  {
    hide Bodies, NameSet, Removed, PointsAt;
  }

  lemma FollowedDistinct(was: TableDesign, next: TableDesign)
    requires Distinct(FK, next.foreignKeys)
    ensures Distinct(FK, Reached(was, next).foreignKeys)
  {
    var xs, ys := next.foreignKeys, Reached(was, next).foreignKeys;
    hide Followed;
    forall i | 0 <= i < |ys|
      ensures FK.name(ys[i]) == FK.name(xs[i])
    {
      FollowedName(was, next, xs[i]);
    }
    assert forall i, j :: 0 <= i < j < |xs| ==> FK.name(xs[i]) != FK.name(xs[j]);
  }

  lemma FollowedName(was: TableDesign, next: TableDesign, x: ForeignKeyDef)
    ensures Followed(was, next, x).name == x.name
  {
  }

  lemma FollowedBody(was: TableDesign, next: TableDesign, x: ForeignKeyDef)
    ensures BodyOfForeignKey(Followed(was, next, x)) ==
      if Unchanged(FK, was.foreignKeys, x)
        && OfTable(was, was.name, x) then BodyOfForeignKey(x).(refTable := next.name) else BodyOfForeignKey(x)
  {
    hide Unchanged, Action, NonEmpty;
  }

  /** The keys of the reached design: those kept, following the table, and those added as they are. */
  lemma KeysReached(was: TableDesign, next: TableDesign)
    requires SoundEdit(was, next)
    ensures KeptKeys(was, next) + Bodies(FK, Added(FK, was.foreignKeys, next.foreignKeys)) ==
      Bodies(FK, Reached(was, next).foreignKeys)
  {
    hide Bodies, Surviving, Added, Distinct, SoundTable, Fresh, Followed, PointsAt;
    var olds, news, reached := was.foreignKeys, next.foreignKeys, Reached(was, next).foreignKeys;
    var added := Added(FK, olds, news);
    var l, r := KeptKeys(was, next) + Bodies(FK, added), Bodies(FK, reached);
    SoundParts(was);
    SoundParts(next);
    PartsCoherent(was, next);
    FollowedDistinct(was, next);
    AddedDistinct(FK, olds, news);
    PartsReplaced(FK, olds, news);
    forall q
      ensures (q in l <==> q in r) && (q in l ==> l[q] == r[q])
    {
      ReachedNames(was, next, q);
      BodiesKeys(FK, added);
      BodiesKeys(FK, news);
      if q in l {
        InNameSet(FK, news, q);
        var x :| x in news && FK.name(x) == q;
        KeyReached(was, next, x);
      }
    }
  }

  lemma ReachedNames(was: TableDesign, next: TableDesign, q: string)
    ensures q in Bodies(FK, Reached(was, next).foreignKeys) <==> q in Bodies(FK, next.foreignKeys)
  {
    hide Bodies, Followed;
    var xs, ys := next.foreignKeys, Reached(was, next).foreignKeys;
    BodiesKeys(FK, xs);
    BodiesKeys(FK, ys);
    NameSetAt(FK, xs, q);
    NameSetAt(FK, ys, q);
    forall i | 0 <= i < |xs|
      ensures FK.name(ys[i]) == FK.name(xs[i])
    {
      FollowedName(was, next, xs[i]);
    }
  }

  lemma KeyReached(was: TableDesign, next: TableDesign, x: ForeignKeyDef)
    requires SoundEdit(was, next) && x in next.foreignKeys
    ensures var l := KeptKeys(was, next) + Bodies(FK, Added(FK, was.foreignKeys, next.foreignKeys));
      x.name in l && x.name in Bodies(FK, Reached(was, next).foreignKeys)
        && l[x.name] == Bodies(FK, Reached(was, next).foreignKeys)[x.name]
  {
    hide Bodies, Surviving, Added, Distinct, SoundTable, Fresh, Followed, PointsAt;
    var olds, news, reached := was.foreignKeys, next.foreignKeys, Reached(was, next).foreignKeys;
    var added := Added(FK, olds, news);
    SoundParts(was);
    SoundParts(next);
    PartsCoherent(was, next);
    var j :| 0 <= j < |news| && news[j] == x;
    FollowedDistinct(was, next);
    BodiesAt(FK, reached, j);
    FollowedName(was, next, x);
    FollowedBody(was, next, x);
    AddedIs(FK, olds, news, x);
    BodyOf(FK, news, x);
    AddedDistinct(FK, olds, news);
    BodiesKeys(FK, added);
    InNameSet(FK, added, x.name);
    if x in added {
      BodyOf(FK, added, x);
    } else {
      forall y | y in added
        ensures FK.name(y) != x.name
      {
        AddedIs(FK, olds, news, y);
        if FK.name(y) == FK.name(x) {
          SameName(FK, news, x, y);
        }
      }
      NotAddedSurvives(FK, olds, news, x);
      SurvivorsAreNew(FK, olds, news, x.name);
      assert KeptKeys(was, next)[x.name] == if OfTable(was, was.name, x) then
        BodyOfForeignKey(x).(refTable := next.name) else BodyOfForeignKey(x);
    }
  }

  lemma SoundParts(d: TableDesign)
    requires SoundTable(d)
    ensures NamesDistinct(d.columns) && Distinct(IX, d.indexes) && Distinct(FK, d.foreignKeys) && Distinct(CK, d.checks)
      && Distinct(TR, d.triggers)
  {
  }

  /**
   The plan reaches the new design itself exactly when the name stays or no reference
   of the table to itself is kept.
   */
  lemma ReachedIsNext(was: TableDesign, next: TableDesign)
    requires SoundEdit(was, next)
    ensures Bodies(FK, Reached(was, next).foreignKeys) == Bodies(FK, next.foreignKeys) <==> ReferencesStay(was, next)
  {
    hide Bodies, SoundTable, Fresh, Followed, Unchanged, PointsAt, OfTable, Distinct;
    var xs, ys := next.foreignKeys, Reached(was, next).foreignKeys;
    SoundParts(next);
    FollowedDistinct(was, next);
    if ReferencesStay(was, next) {
      forall i | 0 <= i < |xs|
        ensures ys[i] == xs[i]
      {
        StaysPut(was, next, xs[i]);
      }
      assert ys == xs;
    } else {
      var i :| 0 <= i < |xs| && Unchanged(FK, was.foreignKeys, xs[i]) && OfTable(was, was.name, xs[i]);
      BodiesAt(FK, xs, i);
      BodiesAt(FK, ys, i);
      FollowedName(was, next, xs[i]);
      FollowedBody(was, next, xs[i]);
      OfTableName(was, xs[i]);
    }
  }

  predicate ReferencesStay(was: TableDesign, next: TableDesign) {
    was.name == next.name
    || forall i :: 0 <= i < |next.foreignKeys| && Unchanged(FK, was.foreignKeys, next.foreignKeys[i]) ==>
      !OfTable(was, was.name, next.foreignKeys[i])
  }

  lemma StaysPut(was: TableDesign, next: TableDesign, x: ForeignKeyDef)
    requires was.name == next.name || !(Unchanged(FK, was.foreignKeys, x) && OfTable(was, was.name, x))
    ensures Followed(was, next, x) == x
  {
    hide Unchanged;
  }

  lemma OfTableName(d: TableDesign, x: ForeignKeyDef)
    requires OfTable(d, d.name, x)
    ensures BodyOfForeignKey(x).refTable == d.name
  {
  }

  // ------------------------------------------------------------------ no reference loses its key

  lemma ServedLess(e: Engine, t: Tbl, u: Tbl)
    requires AllServed(e, t) && u.folds == t.folds && u.schema == t.schema && u.name == t.name && u.key == t.key
      && u.indexes == t.indexes
    requires forall k :: k in u.fks ==> k in t.fks && u.fks[k] == t.fks[k]
    ensures AllServed(e, u)
  {
    hide Served;
  }

  lemma KeyGoes(e: Engine, t: Tbl)
    requires AllServed(e, t) && KeepsConstraints(e) && t.key.Some? && !Needed(t, t.key.value.columns)
    ensures AllServed(e, t.(key := None))
  {
    hide KeyIndex, SameNames;
  }

  lemma IndexGoes(e: Engine, t: Tbl, name: string)
    requires AllServed(e, t) && KeepsConstraints(e) && name in t.indexes
    requires KeyIndex(t.indexes[name]) ==> !Needed(t, IndexNames(t.indexes[name]))
    ensures AllServed(e, t.(indexes := t.indexes - {name}))
  {
    hide KeyIndex, SameNames;
    var u := t.(indexes := t.indexes - {name});
    forall k | k in u.fks && ToItself(u, u.fks[k])
      ensures Served(e, u.key, u.indexes, u.fks[k].refColumns)
    {
      var names := u.fks[k].refColumns;
      assert Served(e, t.key, t.indexes, names);
      if !(t.key.Some? && Serves(e, true, t.key.value.columns, names)) {
        var x :| x in t.indexes && Serves(e, KeyIndex(t.indexes[x]), IndexNames(t.indexes[x]), names);
        assert x != name;
        assert x in u.indexes;
      }
    }
  }

  lemma KeyDropServed(e: Engine, t: Tbl)
    requires AllServed(e, t) && (KeepsConstraints(e) || e.IsMysqlFamily()) && ExecDropKey(e, t).Some?
    ensures AllServed(e, ExecDropKey(e, t).value)
  {
    hide AllServed, Needed;
    if KeepsConstraints(e) {
      KeyGoes(e, t);
    }
  }

  lemma IndexDropServed(e: Engine, t: Tbl, name: string)
    requires AllServed(e, t) && (KeepsConstraints(e) || e.IsMysqlFamily()) && ExecDropIndex(e, t, name).Some?
    ensures AllServed(e, ExecDropIndex(e, t, name).value)
  {
    hide AllServed, Needed, KeyIndex;
    if KeepsConstraints(e) {
      IndexGoes(e, t, name);
    }
  }

  lemma ConstraintDropServed(e: Engine, t: Tbl, name: string)
    requires AllServed(e, t) && (KeepsConstraints(e) || e.IsMysqlFamily()) && ExecDropConstraint(e, t, name).Some?
    ensures AllServed(e, ExecDropConstraint(e, t, name).value)
  {
    hide AllServed, ExecDropKey, ExecDropIndex;
    if name in t.fks || name in t.checks {
      ServedLess(e, t, ExecDropConstraint(e, t, name).value);
    } else if t.key.Some? && t.key.value.name == Some(name) {
      KeyDropServed(e, t);
    } else {
      IndexDropServed(e, t, name);
    }
  }

  /** No drop ever takes the key from under a reference of the table to itself. */
  lemma DropKeepsServed(e: Engine, t: Tbl, s: Step)
    requires OfDrops(s) && AllServed(e, t) && (KeepsConstraints(e) || e.IsMysqlFamily()) && ExecDrop(e, t, s).Some?
    ensures AllServed(e, ExecDrop(e, t, s).value)
  {
    hide AllServed, ExecDropKey, ExecDropIndex, ExecDropConstraint;
    if s.DropConstraint? {
      ConstraintDropServed(e, t, s.name);
    } else if s.DropIndex? {
      IndexDropServed(e, t, s.name);
    } else if s.DropPrimaryKey? {
      KeyDropServed(e, t);
    } else {
      ServedLess(e, t, ExecDrop(e, t, s).value);
    }
  }

  predicate AllDrops(steps: seq<Step>) {
    forall i :: 0 <= i < |steps| ==> OfDrops(steps[i])
  }

  lemma {:induction false} DropsKeepServed(e: Engine, steps: seq<Step>, t: Tbl)
    requires AllDrops(steps) && AllServed(e, t) && (KeepsConstraints(e) || e.IsMysqlFamily()) && Run(e, steps, t).Some?
    ensures AllServed(e, Run(e, steps, t).value)
    decreases |steps|
  {
    hide AllServed, ExecDrop;
    if steps != [] {
      assert OfDrops(steps[0]);
      DropKeepsServed(e, t, steps[0]);
      forall i | 0 <= i < |steps[1..]|
        ensures OfDrops(steps[1..][i])
      {
        assert steps[1..][i] == steps[i + 1];
      }
      DropsKeepServed(e, steps[1..], Exec(e, t, steps[0]).value);
    }
  }

  lemma {:induction false} ForeignKeyDrops(e: Engine, xs: seq<ForeignKeyDef>)
    ensures AllDrops(DropForeignKeys(e, xs))
  {
    if xs != [] {
      ForeignKeyDrops(e, xs[1..]);
    }
  }

  lemma {:induction false} IndexDrops(e: Engine, xs: seq<IndexDef>)
    ensures AllDrops(DropIndexes(e, xs))
  {
    if xs != [] {
      IndexDrops(e, xs[1..]);
    }
  }

  lemma {:induction false} CheckDrops(e: Engine, xs: seq<CheckDef>)
    ensures AllDrops(DropChecks(e, xs))
  {
    if xs != [] {
      CheckDrops(e, xs[1..]);
    }
  }

  lemma {:induction false} TriggerDrops(xs: seq<TriggerDef>)
    ensures AllDrops(DropTriggers(xs))
  {
    if xs != [] {
      TriggerDrops(xs[1..]);
    }
  }

  lemma DropsAreDrops(e: Engine, was: TableDesign, next: TableDesign)
    ensures AllDrops(DropParts(e, was, next))
    ensures DropKey(e, was, next).Ok? ==> AllDrops(DropKey(e, was, next).value)
  {
    hide Removed, DropForeignKeys, DropIndexes, DropChecks, DropTriggers;
    ForeignKeyDrops(e, Removed(FK, was.foreignKeys, next.foreignKeys));
    IndexDrops(e, Removed(IX, was.indexes, next.indexes));
    CheckDrops(e, Removed(CK, was.checks, next.checks));
    TriggerDrops(Removed(TR, was.triggers, next.triggers));
  }

  // ------------------------------------------------------------------ what a plan may do

  /** The new name is not that of a table some foreign key refers to. */
  predicate NameFree(was: TableDesign, next: TableDesign) {
    was.name == next.name || forall i :: 0 <= i < |was.foreignKeys| ==> !OfTable(was, next.name, was.foreignKeys[i])
  }

  /** Nor, on PostgreSQL, that of an index or the key the table has when it is renamed. */
  predicate NameUnshared(e: Engine, was: TableDesign, next: TableDesign) {
    e.Postgres? && was.name != next.name ==>
      && (forall i :: 0 <= i < |was.indexes| ==> was.indexes[i].name != next.name)
      && (was.primaryKey != [] ==> NonEmpty(was.primaryKeyName) != Some(next.name))
  }

  /** A kept reference of the table to itself is to exactly these columns. */
  predicate KeyNeeded(was: TableDesign, next: TableDesign, names: seq<string>) {
    exists i :: 0 <= i < |was.foreignKeys| && Kept(FK, next.foreignKeys, was.foreignKeys[i])
      && OfTable(was, was.name, was.foreignKeys[i])
      && SameNames(names, was.foreignKeys[i].refColumns)
  }

  /** No key is dropped that a kept reference of the table to itself needs. */
  predicate KeysLetGo(was: TableDesign, next: TableDesign) {
    && (was.primaryKey != next.primaryKey && was.primaryKey != [] ==> !KeyNeeded(was, next, was.primaryKey))
    && IndexesLetGo(was, next)
  }

  predicate IndexesLetGo(was: TableDesign, next: TableDesign) {
    forall i :: 0 <= i < |was.indexes| && !Kept(IX, next.indexes, was.indexes[i]) ==>
      IndexLetGo(was, next, was.indexes[i])
  }

  predicate IndexLetGo(was: TableDesign, next: TableDesign, x: IndexDef) {
    KeyIndex(BodyOfIndex(x)) ==> !KeyNeeded(was, next, IndexNames(BodyOfIndex(x)))
  }

  /**
   Every foreign key added is even, refers to a table that is there, and within the
   table to a key the new design has.
   */
  predicate AddsFounded(e: Engine, was: TableDesign, next: TableDesign) {
    forall i :: 0 <= i < |next.foreignKeys| && !Unchanged(FK, was.foreignKeys, next.foreignKeys[i]) ==>
      Founded(e, was, next, next.foreignKeys[i])
  }

  predicate Founded(e: Engine, was: TableDesign, next: TableDesign, x: ForeignKeyDef) {
    && ForeignKeyOk(e, x.name, BodyOfForeignKey(x))
    && (was.name != next.name ==> !OfTable(was, was.name, x))
    && (OfTable(was, next.name, x) ==> Served(e, KeyOf(e, Reached(was, next)), Bodies(IX, next.indexes), x.refColumns))
  }

  /** Everything the plan adds can be made, and has what it needs. */
  predicate AddsAccepted(e: Engine, was: TableDesign, next: TableDesign) {
    && KeyAccepted(e, was, next) && ChecksAccepted(e, was, next) && IndexesAccepted(e, was, next)
    && AddsFounded(e, was, next)
  }

  /** On PostgreSQL a new key names each column once, and is not called what the table is called. */
  predicate KeyAccepted(e: Engine, was: TableDesign, next: TableDesign) {
    was.primaryKey != next.primaryKey && next.primaryKey != [] ==>
      KeyOk(e, next.primaryKey) && (e.Postgres? ==> NonEmpty(next.primaryKeyName) != Some(next.name))
  }

  predicate ChecksAccepted(e: Engine, was: TableDesign, next: TableDesign) {
    forall i :: 0 <= i < |next.checks| && !Unchanged(CK, was.checks, next.checks[i]) ==> CheckOk(e, next.checks[i])
  }

  predicate IndexesAccepted(e: Engine, was: TableDesign, next: TableDesign) {
    forall i :: 0 <= i < |next.indexes| && !Unchanged(IX, was.indexes, next.indexes[i]) ==>
      IndexAccepted(e, next.name, next.indexes[i])
  }

  predicate IndexAccepted(e: Engine, table: string, x: IndexDef) {
    IndexOk(e, x.name, BodyOfIndex(x)) && (e.Postgres? ==> x.name != table)
  }

  lemma TableTakenMeans(e: Engine, was: TableDesign, next: TableDesign, t: Tbl)
    requires SoundEdit(was, next) && was.name != next.name && !t.folds && t.schema == NonEmpty(was.schema)
    requires t.fks == Bodies(FK, was.foreignKeys) && t.indexes == Bodies(IX, was.indexes) && t.key == KeyOf(e, was)
    ensures TableTaken(e, t, next.name) <==> !(NameFree(was, next) && NameUnshared(e, was, next))
  {
    hide Bodies, SoundTable, Fresh, PointsAt, OfTable, PointedAt;
    SoundParts(was);
    PointedMeans(was, next.name, t);
    BodiesKeys(IX, was.indexes);
    NameSetAt(IX, was.indexes, next.name);
    assert next.name in t.indexes <==> exists i :: 0 <= i < |was.indexes| && IX.name(was.indexes[i]) == next.name;
  }

  lemma RenameRuns(e: Engine, was: TableDesign, next: TableDesign, t: Tbl)
    requires SoundEdit(was, next) && t.name == was.name && t.schema == NonEmpty(was.schema) && !t.folds
    requires t.fks == Bodies(FK, was.foreignKeys) && t.former == None
    requires t.indexes == Bodies(IX, was.indexes) && t.key == KeyOf(e, was)
    ensures Run(e, When(was.name != next.name, RenameTable(next.name)), t) ==
      if NameFree(was, next) && NameUnshared(e, was, next) then
        Some(t.(name := next.name, former := if was.name == next.name then None else Some(was.name),
          fks := LoadedKeys(was, next)))
      else None
  {
    hide Run, Bodies, SoundTable, Fresh, PointsAt, OfTable, TableTaken, KeyOf;
    RunWhen(e, was.name != next.name, RenameTable(next.name), t);
    if was.name != next.name {
      TableTakenMeans(e, was, next, t);
    } else {
      LoadedIdle(was, next);
    }
  }

  /** The loaded table is one whose references to itself have the keys they need. */
  ghost predicate KeysServed(e: Engine, d: TableDesign) {
    AllServed(e, TableOf(e, d, map[], 0))
  }

  lemma LoadedServed(e: Engine, was: TableDesign, next: TableDesign, t: Tbl)
    requires SoundEdit(was, next) && NameFree(was, next) && KeysServed(e, was) && !e.Sqlite?
    requires !t.folds && t.name == next.name && t.schema == NonEmpty(was.schema) && t.fks == LoadedKeys(was, next)
    requires t.key == KeyOf(e, was) && t.indexes == Bodies(IX, was.indexes)
    ensures AllServed(e, t)
  {
    hide Bodies, SoundTable, Fresh, PointsAt, Served, KeyOf, ColumnsOf, RealTriggers, NameFree;
    SoundParts(was);
    var t0 := TableOf(e, was, map[], 0);
    forall k | k in t.fks && ToItself(t, t.fks[k])
      ensures Served(e, t.key, t.indexes, t.fks[k].refColumns)
    {
      if !ToItself(t0, t0.fks[k]) {
        OtherNotItself(was, next, t0, k);
      }
    }
  }

  lemma OtherNotItself(was: TableDesign, next: TableDesign, t: Tbl, k: string)
    requires NameFree(was, next) && Distinct(FK, was.foreignKeys)
    requires !t.folds && t.name == was.name && t.schema == NonEmpty(was.schema) && t.fks == Bodies(FK, was.foreignKeys)
    requires k in t.fks && !ToItself(t, t.fks[k])
    ensures !PointsAt(false, t.fks[k], t.schema, next.name)
  {
    hide Bodies, PointsAt;
    PointedMeans(was, next.name, t);
  }

  lemma LoadedIdle(was: TableDesign, next: TableDesign)
    requires was.name == next.name
    ensures LoadedKeys(was, next) == Bodies(FK, was.foreignKeys)
  {
    hide Bodies;
    var m := Bodies(FK, was.foreignKeys);
    forall k | k in m
      ensures LoadedKeys(was, next)[k] == m[k]
    {
    }
  }

  lemma PointedMeans(was: TableDesign, name: string, t: Tbl)
    requires !t.folds && Distinct(FK, was.foreignKeys) && t.schema == NonEmpty(was.schema)
      && t.fks == Bodies(FK, was.foreignKeys)
    ensures PointedAt(t, name) <==> exists i :: 0 <= i < |was.foreignKeys| && OfTable(was, name, was.foreignKeys[i])
  {
    hide Bodies, PointsAt, Distinct;
    if PointedAt(t, name) {
      var k :| k in t.fks && PointsAt(false, t.fks[k], t.schema, name);
      BodiesKeys(FK, was.foreignKeys);
      InNameSet(FK, was.foreignKeys, k);
      var x :| x in was.foreignKeys && FK.name(x) == k;
      BodyOf(FK, was.foreignKeys, x);
      var i :| 0 <= i < |was.foreignKeys| && was.foreignKeys[i] == x;
      assert OfTable(was, name, was.foreignKeys[i]);
    }
    if i :| 0 <= i < |was.foreignKeys| && OfTable(was, name, was.foreignKeys[i]) {
      BodiesAt(FK, was.foreignKeys, i);
    }
  }

  lemma NeededMeans(was: TableDesign, next: TableDesign, t: Tbl, names: seq<string>)
    requires SoundEdit(was, next) && NameFree(was, next)
    requires !t.folds && t.name == next.name && t.schema == NonEmpty(was.schema) && t.fks == KeptKeys(was, next)
    ensures Needed(t, names) <==> KeyNeeded(was, next, names)
  {
    hide Bodies, Surviving, SoundTable, Fresh, Distinct, SameNames, PointsAt, Kept;
    SoundParts(was);
    if Needed(t, names) {
      var k :| k in t.fks && ToItself(t, t.fks[k]) && SameNames(names, t.fks[k].refColumns);
      var i := KeptAt(was, next, k);
      assert SameNames(names, was.foreignKeys[i].refColumns);
      assert OfTable(was, was.name, was.foreignKeys[i]);
    }
    if KeyNeeded(was, next, names) {
      var i :| 0 <= i < |was.foreignKeys| && Kept(FK, next.foreignKeys, was.foreignKeys[i])
        && OfTable(was, was.name, was.foreignKeys[i])
        && SameNames(names, was.foreignKeys[i].refColumns);
      AtKept(was, next, i);
      var k := was.foreignKeys[i].name;
      PointsAtNew(was, next, was.foreignKeys[i]);
      assert k in t.fks && ToItself(t, t.fks[k]) && SameNames(names, t.fks[k].refColumns);
    }
  }

  lemma PointsAtNew(was: TableDesign, next: TableDesign, x: ForeignKeyDef)
    requires OfTable(was, was.name, x)
    ensures PointsAt(false, BodyOfForeignKey(x).(refTable := next.name), NonEmpty(was.schema), next.name)
  {
  }

  /** A kept key in the list. */
  lemma KeptAt(was: TableDesign, next: TableDesign, k: string) returns (i: nat)
    requires Distinct(FK, was.foreignKeys) && k in KeptKeys(was, next)
    ensures i < |was.foreignKeys| && was.foreignKeys[i].name == k && Kept(FK, next.foreignKeys, was.foreignKeys[i])
    ensures KeptKeys(was, next)[k] ==
      if OfTable(was, was.name, was.foreignKeys[i]) then BodyOfForeignKey(was.foreignKeys[i]).(refTable := next.name)
        else BodyOfForeignKey(was.foreignKeys[i])
  {
    hide Bodies, Distinct, PointsAt, Kept, Removed;
    var olds, news := was.foreignKeys, next.foreignKeys;
    BodiesKeys(FK, olds);
    InNameSet(FK, olds, k);
    var x :| x in olds && FK.name(x) == k;
    i :| 0 <= i < |olds| && olds[i] == x;
    BodyOf(FK, olds, x);
    RemovedIs(FK, olds, news, x);
    InNameSet(FK, Removed(FK, olds, news), k);
  }

  lemma AtKept(was: TableDesign, next: TableDesign, i: nat)
    requires Distinct(FK, was.foreignKeys) && i < |was.foreignKeys| && Kept(FK, next.foreignKeys, was.foreignKeys[i])
    ensures var k := was.foreignKeys[i].name;
      k in KeptKeys(was, next) && KeptKeys(was, next)[k] ==
        if OfTable(was, was.name, was.foreignKeys[i]) then BodyOfForeignKey(was.foreignKeys[i]).(refTable := next.name)
          else BodyOfForeignKey(was.foreignKeys[i])
  {
    hide Bodies, Distinct, PointsAt, Kept, Removed;
    var olds, news, x := was.foreignKeys, next.foreignKeys, was.foreignKeys[i];
    BodyOf(FK, olds, x);
    InNameSet(FK, Removed(FK, olds, news), x.name);
    if x.name in NameSet(FK, Removed(FK, olds, news)) {
      var y :| y in Removed(FK, olds, news) && FK.name(y) == x.name;
      RemovedIs(FK, olds, news, y);
      SameName(FK, olds, y, x);
    }
  }

  lemma UnfoundedMeans(e: Engine, was: TableDesign, next: TableDesign, t: Tbl, x: ForeignKeyDef)
    requires !t.folds && t.name == next.name && t.schema == NonEmpty(was.schema)
    requires t.former == (if was.name == next.name then None else Some(was.name))
    requires t.key == KeyOf(e, Reached(was, next)) && t.indexes == Bodies(IX, next.indexes)
    ensures !Unfounded(e, t, BodyOfForeignKey(x)) && ForeignKeyOk(e, x.name, BodyOfForeignKey(x)) <==>
      Founded(e, was, next, x)
  {
    hide Bodies, PointsAt, Served, KeyOf, Followed, ForeignKeyOk;
    BodyRefs(x);
  }

  lemma BodyRefs(x: ForeignKeyDef)
    ensures BodyOfForeignKey(x).refColumns == x.refColumns
  {
  }
}
