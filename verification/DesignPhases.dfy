/**
 The named parts where constraints share one set of names, on PostgreSQL and SQL
 Server: the drops at the start of a plan and the adds at its end all find what they
 need.
 */
module DesignPhases {
  import opened Prelude
  import opened Engines
  import opened Design
  import opened DesignExec
  import opened DesignParts
  import opened DesignValid
  import opened DesignReferences

  // ------------------------------------------------------------------ names

  /** No two constraints share a name, and no index is called what the key is. */
  predicate NamesApart(t: Tbl) {
    && (forall k :: k in t.fks ==> k !in t.checks)
    && (forall k :: k in t.indexes && t.indexes[k].constraint ==> k !in t.fks && k !in t.checks)
    && (t.key.Some? && t.key.value.name.Some? ==>
          var k := t.key.value.name.value; k !in t.fks && k !in t.checks && k !in t.indexes)
  }

  predicate SubMap<B(==)>(a: map<string, B>, b: map<string, B>) {
    forall k :: k in a ==> k in b && a[k] == b[k]
  }

  /** Every named part of `t` is one of `u`. */
  predicate PartOf(t: Tbl, u: Tbl) {
    && SubMap(t.fks, u.fks) && SubMap(t.checks, u.checks) && SubMap(t.indexes, u.indexes)
    && (t.key.None? || t.key == u.key)
  }

  lemma PartApart(t: Tbl, u: Tbl)
    requires PartOf(t, u) && NamesApart(u)
    ensures NamesApart(t)
  {
  }

  lemma CheckIsFree(t: Tbl, u: Tbl, name: string)
    requires PartOf(t, u) && NamesApart(u) && name in u.checks && name !in t.checks
    ensures !ConstraintTaken(t, name)
  {
  }

  lemma ForeignKeyIsFree(t: Tbl, u: Tbl, name: string)
    requires PartOf(t, u) && NamesApart(u) && name in u.fks && name !in t.fks
    ensures !ConstraintTaken(t, name)
  {
  }

  /** An index or the key of the table bears this name. */
  predicate Borne(t: Tbl, name: string) {
    name in t.indexes || (t.key.Some? && t.key.value.name == Some(name))
  }

  lemma IndexIsFree(t: Tbl, u: Tbl, name: string)
    requires PartOf(t, u) && NamesApart(u) && name in u.indexes && name !in t.indexes
    ensures !Borne(t, name) && (u.indexes[name].constraint ==> !ConstraintTaken(t, name))
  {
  }

  lemma KeyIsFree(t: Tbl, u: Tbl, name: string)
    requires PartOf(t, u) && NamesApart(u) && t.key.None? && u.key.Some? && u.key.value.name == Some(name)
    ensures !Borne(t, name) && !ConstraintTaken(t, name)
  {
  }

  // ------------------------------------------------------------------ drops

  lemma RunOne(e: Engine, s: Step, rest: seq<Step>, t: Tbl, u: Tbl)
    requires Exec(e, t, s) == Some(u)
    ensures Run(e, [s] + rest, t) == Run(e, rest, u)
  {
    hide Exec;
    assert ([s] + rest)[1..] == rest;
  }

  lemma LessNames<T, B>(k: Kind<T, B>, m: map<string, B>, xs: seq<T>)
    requires xs != []
    ensures (m - {k.name(xs[0])}) - NameSet(k, xs[1..]) == m - NameSet(k, xs)
  {
  }

  lemma NoNames<T, B>(k: Kind<T, B>, m: map<string, B>)
    ensures m - NameSet(k, []) == m
  {
  }

  /** The parts of a list, all there under their names. */
  predicate Present<T, B(==)>(k: Kind<T, B>, xs: seq<T>, m: map<string, B>) {
    forall i :: 0 <= i < |xs| ==> k.name(xs[i]) in m && m[k.name(xs[i])] == k.body(xs[i])
  }

  lemma PresentTail<T, B>(k: Kind<T, B>, xs: seq<T>, m: map<string, B>)
    requires Distinct(k, xs) && xs != [] && Present(k, xs, m)
    ensures Present(k, xs[1..], m - {k.name(xs[0])}) && Distinct(k, xs[1..])
    ensures k.name(xs[0]) in m && m[k.name(xs[0])] == k.body(xs[0])
  {
    DistinctTail(k, xs);
    forall i | 0 <= i < |xs[1..]|
      ensures k.name(xs[1..][i]) in m - {k.name(xs[0])} && m[k.name(xs[1..][i])] == k.body(xs[1..][i])
    {
      assert xs[1..][i] == xs[i + 1];
      assert k.name(xs[0]) != k.name(xs[i + 1]);
    }
  }

  lemma RunRefused(e: Engine, s: Step, rest: seq<Step>, t: Tbl)
    requires Exec(e, t, s) == None
    ensures Run(e, [s] + rest, t) == None
  {
    hide Exec;
  }

  /** The parts of a list, all there by name. */
  predicate Named<T, B>(k: Kind<T, B>, xs: seq<T>, m: map<string, B>) {
    forall i :: 0 <= i < |xs| ==> k.name(xs[i]) in m
  }

  lemma NamedTail<T, B>(k: Kind<T, B>, xs: seq<T>, m: map<string, B>)
    requires Distinct(k, xs) && xs != [] && Named(k, xs, m)
    ensures Named(k, xs[1..], m - {k.name(xs[0])}) && Distinct(k, xs[1..]) && k.name(xs[0]) in m
  {
    DistinctTail(k, xs);
    forall i | 0 <= i < |xs[1..]|
      ensures k.name(xs[1..][i]) in m - {k.name(xs[0])}
    {
      assert k.name(xs[i + 1]) in m && k.name(xs[0]) != k.name(xs[i + 1]);
    }
  }

  lemma {:induction false} DropForeignKeysRun(e: Engine, xs: seq<ForeignKeyDef>, t: Tbl)
    requires KeepsConstraints(e)
    requires Distinct(FK, xs) && Named(FK, xs, t.fks)
    ensures Run(e, DropForeignKeys(e, xs), t) == Some(t.(fks := t.fks - NameSet(FK, xs)))
    decreases |xs|
  {
    hide Run, Distinct, Named, NameSet;
    if xs == [] {
      NoNames(FK, t.fks);
      RunNothing(e, t);
    } else {
      NamedTail(FK, xs, t.fks);
      var u := t.(fks := t.fks - {xs[0].name});
      RunOne(e, DropConstraint(xs[0].name), DropForeignKeys(e, xs[1..]), t, u);
      DropForeignKeysRun(e, xs[1..], u);
      LessNames(FK, t.fks, xs);
    }
  }

  /** None of these indexes is a key some reference of the table to itself needs. */
  predicate NoneNeeded(t: Tbl, xs: seq<IndexDef>) {
    forall i :: 0 <= i < |xs| ==> NotNeeded(t, BodyOfIndex(xs[i]))
  }

  predicate NotNeeded(t: Tbl, b: IndexBody) {
    KeyIndex(b) ==> !Needed(t, IndexNames(b))
  }

  lemma NoneNeededTail(t: Tbl, u: Tbl, xs: seq<IndexDef>)
    requires xs != [] && u.fks == t.fks && u.name == t.name && u.schema == t.schema && u.folds == t.folds
    ensures NoneNeeded(t, xs) <==> NotNeeded(t, BodyOfIndex(xs[0])) && NoneNeeded(u, xs[1..])
  {
    hide BodyOfIndex, KeyIndex;
    forall b: IndexBody
      ensures NotNeeded(t, b) == NotNeeded(u, b)
    {
      NeededSame(t, u, b);
    }
    if NotNeeded(t, BodyOfIndex(xs[0])) && NoneNeeded(u, xs[1..]) {
      forall i | 0 <= i < |xs|
        ensures NotNeeded(t, BodyOfIndex(xs[i]))
      {
        if i > 0 {
          assert NotNeeded(u, BodyOfIndex(xs[1..][i - 1]));
        }
      }
    }
    if NoneNeeded(t, xs) {
      forall i | 0 <= i < |xs[1..]|
        ensures NotNeeded(u, BodyOfIndex(xs[1..][i]))
      {
        assert NotNeeded(t, BodyOfIndex(xs[i + 1]));
      }
    }
  }

  lemma NeededSame(t: Tbl, u: Tbl, b: IndexBody)
    requires u.fks == t.fks && u.name == t.name && u.schema == t.schema && u.folds == t.folds
    ensures NotNeeded(t, b) == NotNeeded(u, b)
  {
  }

  lemma DropIndexMeans(e: Engine, x: IndexDef, t: Tbl)
    requires KeepsConstraints(e) && NamesApart(t) && x.name in t.indexes && t.indexes[x.name] == BodyOfIndex(x)
    ensures Exec(e, t, DropIndexStep(e, x)) == if NotNeeded(t, BodyOfIndex(x)) then
      Some(t.(indexes := t.indexes - {x.name})) else None
  {
    hide Needed, NonBlank, LowerOpt;
  }

  lemma {:induction false} DropIndexesRun(e: Engine, xs: seq<IndexDef>, t: Tbl)
    requires KeepsConstraints(e) && NamesApart(t)
    requires Distinct(IX, xs) && Present(IX, xs, t.indexes)
    ensures Run(e, DropIndexes(e, xs), t) == if NoneNeeded(t, xs) then Some(t.(indexes := t.indexes - NameSet(IX, xs)))
      else None
    decreases |xs|
  {
    hide Run, Exec, Distinct, Present, NameSet, NoneNeeded, NotNeeded;
    if xs == [] {
      NoNames(IX, t.indexes);
      RunNothing(e, t);
      assert NoneNeeded(t, []) by { NoneOfNone(t); }
    } else {
      PresentTail(IX, xs, t.indexes);
      DropIndexMeans(e, xs[0], t);
      var u := t.(indexes := t.indexes - {xs[0].name});
      NoneNeededTail(t, u, xs);
      if NotNeeded(t, BodyOfIndex(xs[0])) {
        RunOne(e, DropIndexStep(e, xs[0]), DropIndexes(e, xs[1..]), t, u);
        DropIndexesRun(e, xs[1..], u);
        LessNames(IX, t.indexes, xs);
      } else {
        RunRefused(e, DropIndexStep(e, xs[0]), DropIndexes(e, xs[1..]), t);
      }
    }
  }

  lemma NoneOfNone(t: Tbl)
    ensures NoneNeeded(t, [])
  {
  }

  lemma {:induction false} DropChecksRun(e: Engine, xs: seq<CheckDef>, t: Tbl)
    requires KeepsConstraints(e)
    requires Distinct(CK, xs) && Present(CK, xs, t.checks) && NamesApart(t)
    ensures Run(e, DropChecks(e, xs), t) == Some(t.(checks := t.checks - NameSet(CK, xs)))
    decreases |xs|
  {
    hide Run, Distinct, Present, NameSet;
    if xs == [] {
      NoNames(CK, t.checks);
      RunNothing(e, t);
    } else {
      PresentTail(CK, xs, t.checks);
      var u := t.(checks := t.checks - {xs[0].name});
      RunOne(e, DropConstraint(xs[0].name), DropChecks(e, xs[1..]), t, u);
      DropChecksRun(e, xs[1..], u);
      LessNames(CK, t.checks, xs);
    }
  }

  lemma {:induction false} DropTriggersRun(e: Engine, xs: seq<TriggerDef>, t: Tbl)
    requires Distinct(TR, xs) && Present(TR, xs, t.triggers)
    ensures Run(e, DropTriggers(xs), t) == Some(t.(triggers := t.triggers - NameSet(TR, xs)))
    decreases |xs|
  {
    hide Run, Distinct, Present, NameSet;
    if xs == [] {
      NoNames(TR, t.triggers);
      RunNothing(e, t);
    } else {
      PresentTail(TR, xs, t.triggers);
      var u := t.(triggers := t.triggers - {xs[0].name});
      RunOne(e, DropTrigger(xs[0].name), DropTriggers(xs[1..]), t, u);
      DropTriggersRun(e, xs[1..], u);
      LessNames(TR, t.triggers, xs);
    }
  }

  lemma RemovedPresent<T, B>(k: Kind<T, B>, olds: seq<T>, news: seq<T>)
    requires Distinct(k, olds)
    ensures Distinct(k, Removed(k, olds, news)) && Present(k, Removed(k, olds, news), Bodies(k, olds))
  {
    hide Distinct, Bodies;
    RemovedDistinct(k, olds, news);
    var xs := Removed(k, olds, news);
    forall i | 0 <= i < |xs|
      ensures k.name(xs[i]) in Bodies(k, olds) && Bodies(k, olds)[k.name(xs[i])] == k.body(xs[i])
    {
      RemovedIs(k, olds, news, xs[i]);
      BodyOf(k, olds, xs[i]);
    }
  }

  /** The table once everything that changed is dropped, the key apart. */
  function Stripped(was: TableDesign, next: TableDesign, t: Tbl): Tbl {
    t.(fks := KeptKeys(was, next),
       indexes := Surviving(IX, was.indexes, next.indexes),
       checks := Surviving(CK, was.checks, next.checks),
       triggers := Surviving(TR, was.triggers, next.triggers))
  }

  /** The loaded parts, under the table's new name. */
  ghost predicate HasParts(was: TableDesign, next: TableDesign, t: Tbl) {
    && !t.folds
    && t.name == next.name && t.schema == NonEmpty(was.schema)
    && t.fks == LoadedKeys(was, next) && t.indexes == Bodies(IX, was.indexes)
    && t.checks == Bodies(CK, was.checks) && t.triggers == Bodies(TR, was.triggers)
  }

  lemma RemovedNamed(was: TableDesign, next: TableDesign)
    requires Distinct(FK, was.foreignKeys)
    ensures Distinct(FK, Removed(FK, was.foreignKeys, next.foreignKeys))
    ensures Named(FK, Removed(FK, was.foreignKeys, next.foreignKeys), LoadedKeys(was, next))
  {
    hide Distinct, Bodies, Removed;
    RemovedPresent(FK, was.foreignKeys, next.foreignKeys);
  }

  lemma RemovedNotNeeded(was: TableDesign, next: TableDesign, t: Tbl)
    requires SoundEdit(was, next) && NameFree(was, next)
    requires !t.folds && t.name == next.name && t.schema == NonEmpty(was.schema) && t.fks == KeptKeys(was, next)
    ensures NoneNeeded(t, Removed(IX, was.indexes, next.indexes)) <==> IndexesLetGo(was, next)
  {
    hide Removed, SoundEdit, Kept, BodyOfIndex, KeyIndex, NameFree, Needed, KeyNeeded, KeptKeys;
    var xs := Removed(IX, was.indexes, next.indexes);
    forall x: IndexDef
      ensures NotNeeded(t, BodyOfIndex(x)) == IndexLetGo(was, next, x)
        && (x in xs <==> x in was.indexes && !Kept(IX, next.indexes, x))
    {
      NeededMeans(was, next, t, IndexNames(BodyOfIndex(x)));
      RemovedIs(IX, was.indexes, next.indexes, x);
    }
    assert NoneNeeded(t, xs) <==> forall x :: x in xs ==> NotNeeded(t, BodyOfIndex(x));
    assert IndexesLetGo(was, next) <==>
      forall x :: x in was.indexes && !Kept(IX, next.indexes, x) ==> IndexLetGo(was, next, x);
  }

  /** Every drop finds what it names, and goes through exactly when no reference of the table to itself needs it. */
  lemma DropPartsRun(e: Engine, was: TableDesign, next: TableDesign, t: Tbl)
    requires KeepsConstraints(e)
    requires SoundEdit(was, next) && NameFree(was, next) && HasParts(was, next, t) && NamesApart(t)
    ensures Run(e, DropParts(e, was, next), t) == if IndexesLetGo(was, next) then Some(Stripped(was, next, t)) else None
  {
    hide Run, Distinct, Present, Named, NameSet, Bodies, Removed, SoundTable, Fresh, NameFree, KeptKeys, LoadedKeys,
      NoneNeeded, IndexesLetGo;
    var a, b := DropForeignKeys(e, Removed(FK, was.foreignKeys, next.foreignKeys)),
      DropIndexes(e, Removed(IX, was.indexes, next.indexes));
    var c, d := DropChecks(e, Removed(CK, was.checks, next.checks)),
      DropTriggers(Removed(TR, was.triggers, next.triggers));
    SoundParts(was);
    RemovedNamed(was, next);
    RemovedPresent(IX, was.indexes, next.indexes);
    RemovedPresent(CK, was.checks, next.checks);
    RemovedPresent(TR, was.triggers, next.triggers);
    KeptKeysAre(was, next);
    var t1 := t.(fks := KeptKeys(was, next));
    var t2 := t1.(indexes := Surviving(IX, was.indexes, next.indexes));
    var t3 := t2.(checks := Surviving(CK, was.checks, next.checks));
    LessKeys(t, t1);
    PartApart(t1, t);
    PartApart(t2, t1);
    RemovedNotNeeded(was, next, t1);
    DropForeignKeysRun(e, Removed(FK, was.foreignKeys, next.foreignKeys), t);
    DropIndexesRun(e, Removed(IX, was.indexes, next.indexes), t1);
    DropChecksRun(e, Removed(CK, was.checks, next.checks), t2);
    DropTriggersRun(e, Removed(TR, was.triggers, next.triggers), t3);
    RunAppend(e, a + b + c, d, t);
    RunAppend(e, a + b, c, t);
    RunAppend(e, a, b, t);
  }

  lemma LessKeys(t: Tbl, u: Tbl)
    requires u == t.(fks := u.fks) && exists names: set<string> :: u.fks == t.fks - names
    ensures PartOf(u, t)
  {
  }

  // ------------------------------------------------------------------ adds

  lemma MoreBodies<T, B>(k: Kind<T, B>, m: map<string, B>, xs: seq<T>)
    requires Distinct(k, xs) && xs != []
    ensures m[k.name(xs[0]) := k.body(xs[0])] + Bodies(k, xs[1..]) == m + Bodies(k, xs)
    ensures Distinct(k, xs[1..]) && forall i :: 0 <= i < |xs[1..]| ==> k.name(xs[1..][i]) != k.name(xs[0])
  {
    DistinctTail(k, xs);
    BodiesKeys(k, xs[1..]);
    forall i | 0 <= i < |xs[1..]|
      ensures k.name(xs[1..][i]) != k.name(xs[0])
    {
      assert k.name(xs[0]) != k.name(xs[i + 1]);
    }
  }

  lemma NoBodies<T, B>(k: Kind<T, B>, m: map<string, B>)
    ensures m + Bodies(k, []) == m
  {
  }

  predicate ChecksFree(t: Tbl, xs: seq<CheckDef>) {
    forall i :: 0 <= i < |xs| ==> !ConstraintTaken(t, xs[i].name)
  }

  predicate AllChecksOk(e: Engine, xs: seq<CheckDef>) {
    forall i :: 0 <= i < |xs| ==> CheckOk(e, xs[i])
  }

  lemma AllChecksTail(e: Engine, xs: seq<CheckDef>)
    requires xs != []
    ensures AllChecksOk(e, xs) <==> CheckOk(e, xs[0]) && AllChecksOk(e, xs[1..])
  {
    hide CheckOk;
    assert forall i :: 0 <= i < |xs[1..]| ==> xs[1..][i] == xs[i + 1];
    if CheckOk(e, xs[0]) && AllChecksOk(e, xs[1..]) {
      forall i | 0 <= i < |xs|
        ensures CheckOk(e, xs[i])
      {
        if i > 0 {
          assert CheckOk(e, xs[1..][i - 1]);
        }
      }
    }
  }

  lemma {:induction false} AddChecksRun(e: Engine, xs: seq<CheckDef>, t: Tbl)
    requires KeepsConstraints(e)
    requires Distinct(CK, xs) && ChecksFree(t, xs)
    ensures Run(e, AddChecks(xs), t) == if AllChecksOk(e, xs) then Some(t.(checks := t.checks + Bodies(CK, xs)))
      else None
    decreases |xs|
  {
    hide Run, Distinct, Bodies, AllChecksOk, CheckOk;
    if xs == [] {
      NoBodies(CK, t.checks);
      RunNothing(e, t);
      assert AllChecksOk(e, []) by { NoChecks(e); }
    } else {
      MoreBodies(CK, t.checks, xs);
      AllChecksTail(e, xs);
      assert !ConstraintTaken(t, xs[0].name);
      var u := t.(checks := t.checks[xs[0].name := xs[0].expression]);
      if CheckOk(e, xs[0]) {
        RunOne(e, AddCheck(xs[0]), AddChecks(xs[1..]), t, u);
        forall i | 0 <= i < |xs[1..]|
          ensures !ConstraintTaken(u, xs[1..][i].name)
        {
          assert !ConstraintTaken(t, xs[i + 1].name) && CK.name(xs[1..][i]) != CK.name(xs[0]);
        }
        AddChecksRun(e, xs[1..], u);
      } else {
        RunRefused(e, AddCheck(xs[0]), AddChecks(xs[1..]), t);
      }
    }
  }

  lemma NoChecks(e: Engine)
    ensures AllChecksOk(e, [])
  {
  }

  predicate IndexesFree(t: Tbl, xs: seq<IndexDef>) {
    forall i :: 0 <= i < |xs| ==>
      !Borne(t, xs[i].name) && (xs[i].constraint ==> !ConstraintTaken(t, xs[i].name))
        && IndexFits(t, BodyOfIndex(xs[i]))
  }

  predicate AllAccepted(e: Engine, table: string, xs: seq<IndexDef>) {
    forall i :: 0 <= i < |xs| ==> IndexAccepted(e, table, xs[i])
  }

  lemma AllAcceptedTail(e: Engine, table: string, xs: seq<IndexDef>)
    requires xs != []
    ensures AllAccepted(e, table, xs) <==> IndexAccepted(e, table, xs[0]) && AllAccepted(e, table, xs[1..])
  {
    hide IndexAccepted;
    assert forall i :: 0 <= i < |xs[1..]| ==> xs[1..][i] == xs[i + 1];
    if IndexAccepted(e, table, xs[0]) && AllAccepted(e, table, xs[1..]) {
      forall i | 0 <= i < |xs|
        ensures IndexAccepted(e, table, xs[i])
      {
        if i > 0 {
          assert IndexAccepted(e, table, xs[1..][i - 1]);
        }
      }
    }
  }

  lemma AddIndexMeans(e: Engine, x: IndexDef, t: Tbl)
    requires KeepsConstraints(e) && !Borne(t, x.name) && (x.constraint ==> !ConstraintTaken(t, x.name))
    requires IndexFits(t, BodyOfIndex(x))
    ensures Exec(e, t, AddIndex(x)) ==
      if IndexAccepted(e, t.name, x) then Some(t.(indexes := t.indexes[x.name := BodyOfIndex(x)])) else None
  {
    hide BodyOfIndex, IndexOk, IndexFits, ConstraintTaken;
  }

  lemma IndexesFreeTail(t: Tbl, u: Tbl, xs: seq<IndexDef>)
    requires Distinct(IX, xs) && xs != [] && IndexesFree(t, xs)
    requires u == t.(indexes := t.indexes[xs[0].name := BodyOfIndex(xs[0])])
    ensures IndexesFree(u, xs[1..])
  {
    hide BodyOfIndex;
    forall i | 0 <= i < |xs[1..]|
      ensures !Borne(u, xs[1..][i].name) && (xs[1..][i].constraint ==> !ConstraintTaken(u, xs[1..][i].name))
        && IndexFits(u, BodyOfIndex(xs[1..][i]))
    {
      assert !Borne(t, xs[i + 1].name) && IX.name(xs[0]) != IX.name(xs[i + 1]);
    }
  }

  lemma {:induction false} AddIndexesRun(e: Engine, xs: seq<IndexDef>, t: Tbl)
    requires KeepsConstraints(e) && Distinct(IX, xs) && IndexesFree(t, xs)
    ensures Run(e, AddIndexes(xs), t) ==
      if AllAccepted(e, t.name, xs) then Some(t.(indexes := t.indexes + Bodies(IX, xs))) else None
    decreases |xs|
  {
    hide Run, Exec, Distinct, Bodies, BodyOfIndex, AllAccepted, IndexAccepted, Borne, ConstraintTaken, IndexFits;
    if xs == [] {
      NoBodies(IX, t.indexes);
      RunNothing(e, t);
      assert AllAccepted(e, t.name, []) by { NoIndexes(e, t.name); }
    } else {
      MoreBodies(IX, t.indexes, xs);
      AllAcceptedTail(e, t.name, xs);
      assert !Borne(t, xs[0].name) && (xs[0].constraint ==> !ConstraintTaken(t, xs[0].name));
      AddIndexMeans(e, xs[0], t);
      var u := t.(indexes := t.indexes[xs[0].name := BodyOfIndex(xs[0])]);
      if IndexAccepted(e, t.name, xs[0]) {
        RunOne(e, AddIndex(xs[0]), AddIndexes(xs[1..]), t, u);
        IndexesFreeTail(t, u, xs);
        AddIndexesRun(e, xs[1..], u);
      } else {
        RunRefused(e, AddIndex(xs[0]), AddIndexes(xs[1..]), t);
      }
    }
  }

  lemma NoIndexes(e: Engine, table: string)
    ensures AllAccepted(e, table, [])
  {
  }

  predicate ForeignKeysFree(t: Tbl, xs: seq<ForeignKeyDef>) {
    forall i :: 0 <= i < |xs| ==> !ConstraintTaken(t, xs[i].name) && ColumnsExist(t, xs[i].columns)
  }

  /** The database takes every one of these foreign keys. */
  predicate AllFounded(e: Engine, t: Tbl, xs: seq<ForeignKeyDef>) {
    forall i :: 0 <= i < |xs| ==> Taken(e, t, xs[i])
  }

  predicate Taken(e: Engine, t: Tbl, x: ForeignKeyDef) {
    !Unfounded(e, t, BodyOfForeignKey(x)) && ForeignKeyOk(e, x.name, BodyOfForeignKey(x))
  }

  lemma AllFoundedTail(e: Engine, t: Tbl, u: Tbl, xs: seq<ForeignKeyDef>)
    requires xs != [] && u == t.(fks := u.fks)
    ensures AllFounded(e, t, xs) <==> Taken(e, t, xs[0]) && AllFounded(e, u, xs[1..])
  {
    forall x: ForeignKeyDef
      ensures Taken(e, t, x) == Taken(e, u, x)
    {
      UnfoundedSame(e, t, u, BodyOfForeignKey(x));
    }
    hide Taken;
    if Taken(e, t, xs[0]) && AllFounded(e, u, xs[1..]) {
      forall i | 0 <= i < |xs|
        ensures Taken(e, t, xs[i])
      {
        if i > 0 {
          assert Taken(e, u, xs[1..][i - 1]);
        }
      }
    }
    if AllFounded(e, t, xs) {
      forall i | 0 <= i < |xs[1..]|
        ensures Taken(e, u, xs[1..][i])
      {
        assert Taken(e, t, xs[i + 1]);
      }
    }
  }

  lemma UnfoundedSame(e: Engine, t: Tbl, u: Tbl, b: ForeignKeyBody)
    requires u == t.(fks := u.fks)
    ensures Unfounded(e, t, b) == Unfounded(e, u, b)
  {
    hide Served;
  }

  lemma ForeignKeysFreeTail(t: Tbl, u: Tbl, xs: seq<ForeignKeyDef>)
    requires Distinct(FK, xs) && xs != [] && ForeignKeysFree(t, xs)
    requires u == t.(fks := t.fks[xs[0].name := BodyOfForeignKey(xs[0])])
    ensures ForeignKeysFree(u, xs[1..])
  {
    hide BodyOfForeignKey;
    forall i | 0 <= i < |xs[1..]|
      ensures !ConstraintTaken(u, xs[1..][i].name) && ColumnsExist(u, xs[1..][i].columns)
    {
      assert !ConstraintTaken(t, xs[i + 1].name) && FK.name(xs[0]) != FK.name(xs[i + 1]);
    }
  }

  lemma AddKeyMeans(e: Engine, x: ForeignKeyDef, t: Tbl)
    requires KeepsConstraints(e) && !ConstraintTaken(t, x.name) && ColumnsExist(t, x.columns)
    ensures Exec(e, t, AddForeignKey(x)) ==
      if Taken(e, t, x) then Some(t.(fks := t.fks[x.name := BodyOfForeignKey(x)])) else None
  {
    hide BodyOfForeignKey, Unfounded, ForeignKeyOk, ColumnsExist, Served;
  }

  lemma {:induction false} AddForeignKeysRun(e: Engine, xs: seq<ForeignKeyDef>, t: Tbl)
    requires KeepsConstraints(e)
    requires Distinct(FK, xs) && ForeignKeysFree(t, xs)
    ensures Run(e, AddForeignKeys(xs), t) ==
      if AllFounded(e, t, xs) then Some(t.(fks := t.fks + Bodies(FK, xs))) else None
    decreases |xs|
  {
    hide Run, Exec, Distinct, Bodies, BodyOfForeignKey, AllFounded, Taken;
    if xs == [] {
      NoBodies(FK, t.fks);
      RunNothing(e, t);
      FoundedNone(e, t);
    } else {
      MoreBodies(FK, t.fks, xs);
      assert !ConstraintTaken(t, xs[0].name) && ColumnsExist(t, xs[0].columns);
      var u := t.(fks := t.fks[xs[0].name := BodyOfForeignKey(xs[0])]);
      AllFoundedTail(e, t, u, xs);
      AddKeyMeans(e, xs[0], t);
      if Taken(e, t, xs[0]) {
        RunOne(e, AddForeignKey(xs[0]), AddForeignKeys(xs[1..]), t, u);
        ForeignKeysFreeTail(t, u, xs);
        AddForeignKeysRun(e, xs[1..], u);
      } else {
        RunRefused(e, AddForeignKey(xs[0]), AddForeignKeys(xs[1..]), t);
      }
    }
  }

  lemma FoundedNone(e: Engine, t: Tbl)
    ensures AllFounded(e, t, [])
  {
  }

  /** Blank triggers make no step. */
  lemma {:induction false} AddTriggersReal(xs: seq<TriggerDef>)
    ensures AddTriggers(xs) == AddTriggers(RealTriggers(xs))
  {
    hide IsBlank;
    if xs != [] {
      AddTriggersReal(xs[1..]);
      var rest := RealTriggers(xs[1..]);
      if IsBlank(xs[0].definition) {
        assert [] + rest == rest;
        assert [] + AddTriggers(xs[1..]) == AddTriggers(xs[1..]);
      } else {
        assert ([xs[0]] + rest)[1..] == rest;
      }
    }
  }

  lemma {:induction false} AllReal(xs: seq<TriggerDef>)
    ensures forall i :: 0 <= i < |RealTriggers(xs)| ==> !IsBlank(RealTriggers(xs)[i].definition)
  {
    hide IsBlank;
    if xs != [] {
      AllReal(xs[1..]);
    }
  }

  predicate TriggersFree(t: Tbl, xs: seq<TriggerDef>) {
    forall i :: 0 <= i < |xs| ==> xs[i].name !in t.triggers && !IsBlank(xs[i].definition)
  }

  lemma {:induction false} AddTriggersRun(e: Engine, xs: seq<TriggerDef>, t: Tbl)
    requires !e.Sqlite? && Distinct(TR, xs) && TriggersFree(t, xs)
    ensures Run(e, AddTriggers(xs), t) == Some(t.(triggers := t.triggers + Bodies(TR, xs)))
    decreases |xs|
  {
    hide Run, Distinct, Bodies, Trim, IsBlank;
    if xs == [] {
      NoBodies(TR, t.triggers);
      RunNothing(e, t);
    } else {
      MoreBodies(TR, t.triggers, xs);
      assert xs[0].name !in t.triggers && !IsBlank(xs[0].definition);
      var u := t.(triggers := t.triggers[xs[0].name := Trim(xs[0].definition)]);
      RunOne(e, AddTrigger(xs[0]), AddTriggers(xs[1..]), t, u);
      forall i | 0 <= i < |xs[1..]|
        ensures xs[1..][i].name !in u.triggers && !IsBlank(xs[1..][i].definition)
      {
        assert xs[i + 1].name !in t.triggers && TR.name(xs[1..][i]) != TR.name(xs[0]);
      }
      AddTriggersRun(e, xs[1..], u);
    }
  }
}
