/**
 PostgreSQL: the plan runs through exactly when every kept column's edit is one the
 engine accepts, and then the table is the new design.
 */
module DesignReach {
  import opened Prelude
  import opened Engines
  import opened Design
  import opened DesignExec
  import opened DesignParts
  import opened DesignValid
  import opened DesignColumns
  import opened DesignMoves
  import opened DesignPostgres
  import opened DesignReferences
  import opened DesignPhases
  import opened DesignAdds

  // ------------------------------------------------------------------ the columns of a described table

  lemma {:induction false} ColumnsOfKeys(e: Engine, t: TableDesign, cs: seq<ColumnDef>, vals: map<string, seq<Value>>,
      q: string)
    ensures q in ColumnsOf(e, t, cs, vals) <==> HasColumn(cs, q)
  {
    hide AttrOf, InlineKey;
    if cs != [] {
      ColumnsOfKeys(e, t, cs[1..], vals, q);
      HasColumnTail(cs, q);
    }
  }

  lemma {:induction false} ColumnsOfAt(e: Engine, t: TableDesign, cs: seq<ColumnDef>, vals: map<string, seq<Value>>,
      i: nat)
    requires NamesDistinct(cs) && i < |cs|
    ensures cs[i].name in ColumnsOf(e, t, cs, vals)
    ensures ColumnsOf(e, t, cs, vals)[cs[i].name] ==
      Column(AttrOf(e, cs[i], InlineKey(e, t) == Some(cs[i].name)), if cs[i].name in vals then vals[cs[i].name] else [])
  {
    hide AttrOf, InlineKey;
    if i > 0 {
      assert cs[0].name != cs[i].name;
      NamesTail(cs);
      ColumnsOfAt(e, t, cs[1..], vals, i - 1);
    }
  }

  // ------------------------------------------------------------------ dropping columns

  lemma RefersSame(t: Tbl, u: Tbl, news: seq<ColumnDef>)
    requires RefersTo(t, news) && SameBut(t, u)
    ensures RefersTo(u, news)
  {
    hide Stable;
  }

  lemma DropOne(t: Tbl, news: seq<ColumnDef>, name: string)
    requires RefersTo(t, news) && name in t.cols && !IsKept(news, name)
    ensures Exec(Postgres, t, DropColumn(name)) == Some(t.(order := Without(t.order, name), cols := t.cols - {name}))
  {
    hide RefersTo, IsKept, Used, Referred;
    if Used(t, name) || Referred(t, name) {
      UsedIsStable(t, news, name);
      StableIsKept([], news, name);
    }
  }

  /** Whatever is dropped is there to be dropped, and nothing refers to it any more. */
  lemma {:induction false} DropColumnsRun(olds: seq<ColumnDef>, news: seq<ColumnDef>, t: Tbl) returns (u: Tbl)
    requires RefersTo(t, news) && NamesDistinct(olds) && HasAll(t, olds)
    ensures Run(Postgres, DropColumns(Postgres, olds, news), t) == Some(u)
    ensures SameBut(t, u) && u.cols == t.cols - DroppedNames(olds, news)
    decreases |olds|
  {
    hide Run, RefersTo, IsKept, Exec;
    u := t;
    if olds == [] {
      RunNothing(Postgres, t);
    } else {
      var rest := DropColumns(Postgres, olds[1..], news);
      assert olds[0].name in t.cols;
      var mid := t;
      if !IsKept(news, olds[0].name) {
        DropOne(t, news, olds[0].name);
        mid := t.(order := Without(t.order, olds[0].name), cols := t.cols - {olds[0].name});
        RunOne(Postgres, DropColumn(olds[0].name), rest, t, mid);
        RefersSame(t, mid, news);
        assert [] + [DropColumn(olds[0].name)] == [DropColumn(olds[0].name)];
      } else {
        assert [] + rest == rest;
      }
      NamesTail(olds);
      forall i | 0 <= i < |olds[1..]|
        ensures olds[1..][i].name in mid.cols
      {
        assert olds[i + 1].name in t.cols;
      }
      u := DropColumnsRun(olds[1..], news, mid);
    }
  }

  // ------------------------------------------------------------------ from the loaded columns to the new ones

  lemma ColumnsOfAll(e: Engine, d: TableDesign, vals: map<string, seq<Value>>)
    ensures KeysAre(ColumnsOf(e, d, d.columns, vals), d.columns)
  {
    hide ColumnsOf, HasColumn;
    forall q
      ensures q in ColumnsOf(e, d, d.columns, vals) <==> HasColumn(d.columns, q)
    {
      ColumnsOfKeys(e, d, d.columns, vals, q);
    }
  }

  lemma StartsAsLoaded(was: TableDesign, vals: map<string, seq<Value>>)
    requires NamesDistinct(was.columns) && forall i :: 0 <= i < |was.columns| ==> was.columns[i].name in vals
    ensures StartsAs(was.columns, vals, ColumnsOf(Postgres, was, was.columns, vals))
  {
    hide AttrOf, ColumnsOf, NamesDistinct;
    forall c | c in was.columns
      ensures c.name in ColumnsOf(Postgres, was, was.columns, vals) && c.name in vals
      ensures ColumnsOf(Postgres, was, was.columns, vals)[c.name] == Column(AttrOf(Postgres, c, false), vals[c.name])
    {
      var i :| 0 <= i < |was.columns| && was.columns[i] == c;
      ColumnsOfAt(Postgres, was, was.columns, vals, i);
    }
  }

  lemma {:induction false} CarriedAt(news: seq<ColumnDef>, vals: map<string, seq<Value>>, count: nat, j: nat)
    requires NamesDistinct(news) && j < |news|
    ensures news[j].name in Carried(news, vals, count)
      && Carried(news, vals, count)[news[j].name] == Held(news[j], vals, count)
  {
    hide Held;
    if j > 0 {
      assert news[0].name != news[j].name;
      NamesTail(news);
      CarriedAt(news[1..], vals, count, j - 1);
    }
  }

  /** The columns of the new design. */
  function Goal(d: TableDesign, vals: map<string, seq<Value>>, count: nat): map<string, Column> {
    ColumnsOf(Postgres, d, d.columns, Carried(d.columns, vals, count))
  }

  lemma EndsAsDesigned(d: TableDesign, vals: map<string, seq<Value>>, count: nat)
    requires NamesDistinct(d.columns)
    ensures EndsAs(d.columns, vals, count, Goal(d, vals, count))
  {
    hide AttrOf, Held, ColumnsOf, Carried, NamesDistinct;
    forall c | c in d.columns
      ensures c.name in Goal(d, vals, count) && Goal(d, vals, count)[c.name] == Target(c, vals, count)
    {
      var j :| 0 <= j < |d.columns| && d.columns[j] == c;
      ColumnsOfAt(Postgres, d, d.columns, Carried(d.columns, vals, count), j);
      CarriedAt(d.columns, vals, count, j);
    }
  }

  // ------------------------------------------------------------------ the whole plan

  /** What PostgreSQL accepts as a table: key columns NOT NULL, names apart. */
  predicate PgSound(d: TableDesign) {
    && PgColumns(d.columns)
    && (forall j :: 0 <= j < |d.columns| && d.columns[j].name in d.primaryKey ==> d.columns[j].notNull)
    && NamesApart(Dressed(d, TableOf(Postgres, d, map[], 0)))
    && d.primaryKeyName != Some("")
  }

  lemma {:induction false} RealOfReal(xs: seq<TriggerDef>)
    requires NoneBlank(xs)
    ensures RealTriggers(xs) == xs
  {
    hide IsBlank;
    if xs != [] {
      assert !IsBlank(xs[0].definition);
      RealOfReal(xs[1..]);
    }
  }

  lemma NamesApartSame(d: TableDesign, t: Tbl, u: Tbl)
    requires NamesApart(Dressed(d, t))
    ensures NamesApart(Dressed(d, u))
  {
    hide Bodies, RealTriggers;
  }

  lemma PgSoundParts(d: TableDesign, t: Tbl)
    requires PgSound(d)
    ensures PgColumns(d.columns) && NamesApart(Dressed(d, t)) && d.primaryKeyName != Some("")
  {
    hide PgColumns, NamesApart;
    NamesApartSame(d, TableOf(Postgres, d, map[], 0), t);
  }

  /** The loaded table, under its new name. */
  function Retitled(e: Engine, was: TableDesign, next: TableDesign, vals: map<string, seq<Value>>, count: nat): Tbl {
    TableOf(e, was, vals, count).(
      name := next.name, former := if was.name == next.name then None else Some(was.name), fks := LoadedKeys(was, next))
  }

  lemma LoadedRuns(e: Engine, was: TableDesign, next: TableDesign, vals: map<string, seq<Value>>, count: nat)
    requires SoundEdit(was, next) && !e.Sqlite?
    ensures Run(e, When(OldName(was, next) != next.name, RenameTable(next.name)), TableOf(e, was, vals, count)) ==
      if NameFree(was, next) && NameUnshared(e, was, next) then Some(Retitled(e, was, next, vals, count)) else None
    ensures HasParts(was, next, Retitled(e, was, next, vals, count))
  {
    hide Run, Bodies, ColumnsOf, IsBlank, NamesOf, SoundTable, Fresh, NameFree, NameUnshared, LoadedKeys, KeyOf;
    SoundEditParts(was, next);
    RealOfReal(was.triggers);
    RenameRuns(e, was, next, TableOf(e, was, vals, count));
  }

  lemma LoadedApart(was: TableDesign, next: TableDesign, t: Tbl)
    requires HasParts(was, next, t) && t.key == KeyOf(Postgres, was) && NamesApart(Dressed(was, t))
    ensures NamesApart(t)
  {
    hide Bodies, KeyOf;
  }

  /** The key is not dropped, or no reference of the table to itself needs it. */
  predicate KeyLetsGo(was: TableDesign, next: TableDesign) {
    was.primaryKey != next.primaryKey && was.primaryKey != [] ==> !KeyNeeded(was, next, was.primaryKey)
  }

  /**
   Dropping the key finds it by its name, and goes through exactly when no reference of
   the table to itself needs it.
   */
  lemma DropKeyRun(e: Engine, was: TableDesign, next: TableDesign, t: Tbl)
    requires KeepsConstraints(e) && SoundEdit(was, next) && NameFree(was, next)
    requires DropKey(e, was, next).Ok? && was.primaryKeyName != Some("")
    requires !t.folds && t.name == next.name && t.schema == NonEmpty(was.schema) && t.fks == KeptKeys(was, next)
    requires t.key == KeyOf(Postgres, was) && NamesApart(t)
    ensures Run(e, DropKey(e, was, next).value, t) ==
      if KeyLetsGo(was, next) then Some(t.(key := if was.primaryKey == next.primaryKey then t.key else None)) else None
  {
    hide Run, Needed, KeyNeeded, SoundEdit, NameFree, KeptKeys;
    var drops := was.primaryKey != next.primaryKey && was.primaryKey != [];
    if drops {
      var s := DropConstraint(was.primaryKeyName.value);
      assert DropKey(e, was, next).value == [s];
      RunWhen(e, true, s, t);
      WhenIs(true, s);
      NeededMeans(was, next, t, was.primaryKey);
    } else {
      RunNothing(e, t);
    }
  }

  lemma KeyIsNotNull(was: TableDesign, next: TableDesign, t: Tbl)
    requires PgSound(Reached(was, next)) && (t.key.Some? ==> t.key.value.columns == next.primaryKey)
    ensures KeyNotNull(t, next.columns) && PgColumns(next.columns)
  {
    hide PgColumns, NamesApart;
  }

  lemma TableCommentRun(e: Engine, was: TableDesign, next: TableDesign, t: Tbl)
    requires KeepsConstraints(e)
    requires t.comment == NonEmpty(was.comment)
    ensures Run(e, TableComment(e, was, next), t) == Some(t.(comment := NonEmpty(next.comment)))
  {
    hide Run;
    RunWhen(e, CommentChange(was.comment, next.comment), SetTableComment(NonEmpty(next.comment)), t);
  }

  /** The table after every drop but those of columns. */
  function Bared(e: Engine, was: TableDesign, next: TableDesign, vals: map<string, seq<Value>>, count: nat): Tbl {
    var t := Stripped(was, next, Retitled(e, was, next, vals, count));
    t.(key := if was.primaryKey == next.primaryKey then t.key else None)
  }

  /** The rename and the drops of parts run exactly when the name is free and every key dropped may go. */
  lemma PartsGo(e: Engine, was: TableDesign, next: TableDesign, vals: map<string, seq<Value>>, count: nat)
    requires KeepsConstraints(e) && SoundEdit(was, next) && DropKey(e, was, next).Ok? && was.primaryKeyName != Some("")
    requires NamesApart(Dressed(was, TableOf(Postgres, was, map[], 0)))
    ensures Run(e,
      When(OldName(was, next) != next.name, RenameTable(next.name)) + DropParts(e, was, next)
        + DropKey(e, was, next).value, TableOf(e, was, vals, count))
      == if NameFree(was, next) && NameUnshared(e, was, next)
        && KeysLetGo(was, next) then Some(Bared(e, was, next, vals, count)) else None
  {
    hide Run, Bodies, ColumnsOf, SoundEdit, NamesApart, DropParts, DropKey, Surviving, KeptKeys, LoadedKeys, NameFree,
      NameUnshared,
      IndexesLetGo, KeyNeeded, RealTriggers;
    var a, b, c := When(OldName(was, next) != next.name, RenameTable(next.name)), DropParts(e, was, next),
      DropKey(e, was, next).value;
    var t0, t1 := TableOf(e, was, vals, count), Retitled(e, was, next, vals, count);
    RunAppend(e, a + b, c, t0);
    RunAppend(e, a, b, t0);
    LoadedRuns(e, was, next, vals, count);
    if NameFree(was, next) && NameUnshared(e, was, next) {
      KeySame(e, was);
      NamesApartSame(was, TableOf(Postgres, was, map[], 0), t1);
      LoadedApart(was, next, t1);
      DropPartsRun(e, was, next, t1);
      var t2 := Stripped(was, next, t1);
      StrippedApart(was, next, t1);
      DropKeyRun(e, was, next, t2);
    }
  }

  /** What is left after the drops refers only to columns that stay. */
  lemma BaredRefers(e: Engine, was: TableDesign, next: TableDesign, vals: map<string, seq<Value>>, count: nat)
    requires (KeepsConstraints(e) || e.IsMysqlFamily()) && SoundEdit(was, next) && KeysServed(e, was)
      && DropKey(e, was, next).Ok?
    requires NameFree(was, next)
    requires Run(e, DropParts(e, was, next) + DropKey(e, was, next).value, Retitled(e, was, next, vals, count)) ==
      Some(Bared(e, was, next, vals, count))
    ensures RefersTo(Bared(e, was, next, vals, count), next.columns)
  {
    hide Run, Bodies, ColumnsOf, SoundEdit, DropParts, DropKey, Surviving, LoadedKeys, NameFree, RealTriggers,
      AllServed, AllDrops, KeysServed;
    var t1, t3 := Retitled(e, was, next, vals, count), Bared(e, was, next, vals, count);
    LoadedServed(e, was, next, t1);
    DropsAreDrops(e, was, next);
    BothDrops(DropParts(e, was, next), DropKey(e, was, next).value);
    DropsKeepServed(e, DropParts(e, was, next) + DropKey(e, was, next).value, t1);
    KeyColumns(e, was);
    SurvivorsStable(e, was, next, t3);
  }

  lemma BothDrops(a: seq<Step>, b: seq<Step>)
    requires AllDrops(a) && AllDrops(b)
    ensures AllDrops(a + b)
  {
  }

  lemma KeyColumns(e: Engine, d: TableDesign)
    ensures KeyOf(e, d).Some? ==> KeyOf(e, d).value.columns == d.primaryKey
  {
  }

  lemma PartsGoFrom(e: Engine, was: TableDesign, next: TableDesign, vals: map<string, seq<Value>>, count: nat)
    requires !e.Sqlite? && SoundEdit(was, next) && DropKey(e, was, next).Ok?
      && NameFree(was, next) && NameUnshared(e, was, next)
    ensures Run(e,
      When(OldName(was, next) != next.name, RenameTable(next.name)) + DropParts(e, was, next)
        + DropKey(e, was, next).value, TableOf(e, was, vals, count))
      == Run(e, DropParts(e, was, next) + DropKey(e, was, next).value, Retitled(e, was, next, vals, count))
  {
    hide Run, SoundEdit, DropParts, DropKey, NameFree, NameUnshared, Retitled, TableOf;
    var a, b, c := When(OldName(was, next) != next.name, RenameTable(next.name)), DropParts(e, was, next),
      DropKey(e, was, next).value;
    LoadedRuns(e, was, next, vals, count);
    RunAppend(e, a, b + c, TableOf(e, was, vals, count));
    assert a + (b + c) == a + b + c;
  }

  /** The table when the column steps begin. */
  lemma DropsRun(was: TableDesign, next: TableDesign, vals: map<string, seq<Value>>, count: nat) returns (u: Tbl)
    requires SoundEdit(was, next) && PgSound(was) && PgSound(Reached(was, next)) && KeysServed(Postgres, was)
      && DropKey(Postgres, was, next).Ok?
    requires forall i :: 0 <= i < |was.columns| ==> was.columns[i].name in vals
    ensures Run(Postgres,
      When(OldName(was, next) != next.name, RenameTable(next.name)) + DropParts(Postgres, was, next)
        + DropKey(Postgres, was, next).value
        + DropColumns(Postgres, was.columns, next.columns),
      TableOf(Postgres, was, vals, count)) == if NameFree(was, next) && NameUnshared(Postgres, was, next)
        && KeysLetGo(was, next) then Some(u) else None
    ensures NameFree(was, next) && NameUnshared(Postgres, was, next) && KeysLetGo(was, next) ==>
      var start, goal := ColumnsOf(Postgres, was, was.columns, vals), Goal(Reached(was, next), vals, count);
      Steady(was.columns, next.columns, vals, start, goal, u) && Moving(start, goal, next.columns, 0, u.cols)
      && SameBut(Bared(Postgres, was, next, vals, count), u)
  {
    hide Run, Bodies, ColumnsOf, PgSound, NamesOf, SoundEdit, NamesApart, RefersTo, KeyNotNull, PgColumns, Moving,
      NamesDistinct, StartsAs, EndsAs, Goal,
      DropParts, DropKey, DropColumns, Surviving, DroppedNames, KeptKeys, LoadedKeys, NameFree, NameUnshared,
        KeysLetGo, KeyOf,
        Fresh, SoundTable, KeysServed, RealTriggers, AllFollowed;
    var t0 := TableOf(Postgres, was, vals, count);
    var drops := When(OldName(was, next) != next.name, RenameTable(next.name)) + DropParts(Postgres, was, next)
      + DropKey(Postgres, was, next).value;
    u := t0;
    SoundEditParts(was, next);
    PgSoundParts(was, t0);
    PgSoundParts(was, TableOf(Postgres, was, map[], 0));
    PartsGo(Postgres, was, next, vals, count);
    RunAppend(Postgres, drops, DropColumns(Postgres, was.columns, next.columns), t0);
    if NameFree(was, next) && NameUnshared(Postgres, was, next) && KeysLetGo(was, next) {
      PartsGoFrom(Postgres, was, next, vals, count);
      BaredRefers(Postgres, was, next, vals, count);
      var t3 := Bared(Postgres, was, next, vals, count);
      SoundColumns(was);
      SoundColumns(next);
      forall i | 0 <= i < |was.columns|
        ensures was.columns[i].name in t3.cols
      {
        ColumnsOfKeys(Postgres, was, was.columns, vals, was.columns[i].name);
      }
      u := DropColumnsRun(was.columns, next.columns, t3);
      RefersSame(t3, u, next.columns);
      ColumnsOfAll(Postgres, was, vals);
      MovingBegins(was.columns, next.columns, ColumnsOf(Postgres, was, was.columns, vals),
        Goal(Reached(was, next), vals, count), u.cols);
      StartsAsLoaded(was, vals);
      EndsAsDesigned(Reached(was, next), vals, count);
      KeyColumns(Postgres, was);
      KeyIsNotNull(was, next, u);
    }
  }

  lemma SoundColumns(d: TableDesign)
    requires SoundTable(d)
    ensures NamesDistinct(d.columns)
  {
  }

  lemma StrippedApart(was: TableDesign, next: TableDesign, t: Tbl)
    requires HasParts(was, next, t) && NamesApart(t)
    ensures NamesApart(Stripped(was, next, t))
  {
    hide Bodies, NameSet, Removed;
  }

  /** Every kept column is edited in a way PostgreSQL can follow. */
  predicate AllSafe(was: TableDesign, next: TableDesign) {
    SafeFrom(was.columns, next.columns, 0)
  }

  /**
   What PostgreSQL demands of an edit, told from the two designs: the new name
   is free, no key is dropped that a kept reference of the table to itself needs,
   every column's edit is safe, and every part added is one it takes.
   */
  predicate Feasible(was: TableDesign, next: TableDesign) {
    && NameFree(was, next) && NameUnshared(Postgres, was, next) && KeysLetGo(was, next)
    && AllSafe(was, next) && AddsAccepted(Postgres, was, next)
  }

  /** The setting of a plan: two sound designs of one table, and what its columns hold. */
  ghost predicate Planned(was: TableDesign, next: TableDesign, vals: map<string, seq<Value>>) {
    && SoundEdit(was, next) && PgSound(was) && PgSound(Reached(was, next)) && KeysServed(Postgres, was)
    && forall i :: 0 <= i < |was.columns| ==> was.columns[i].name in vals
  }

  lemma ReadyAfter(e: Engine, was: TableDesign, next: TableDesign, vals: map<string, seq<Value>>, count: nat, t: Tbl)
    requires KeepsConstraints(e) && SameBut(Bared(e, was, next, vals, count), t) && HasAll(t, next.columns)
    ensures ReadyForAdds(was, next, t) && t.comment == NonEmpty(was.comment) && t.count == count
    ensures t.options == NO_OPTIONS
  {
    hide Bodies, ColumnsOf, Surviving, KeptKeys, LoadedKeys, KeyOf, RealTriggers, HasAll, NonEmpty;
    KeySame(e, was);
  }

  lemma ReachedTable(was: TableDesign, next: TableDesign, vals: map<string, seq<Value>>, count: nat, t: Tbl)
    requires t.cols == Goal(Reached(was, next), vals, count) && t.count == count && was.schema == next.schema
    requires !t.folds && t.name == next.name && t.schema == NonEmpty(was.schema) && t.options == NO_OPTIONS
    ensures Dressed(Reached(was, next), t).(comment := NonEmpty(next.comment))
      == TableOf(Postgres, Reached(was, next), Carried(next.columns, vals, count), count).(order := t.order,
        former := t.former)
  {
    hide Bodies, ColumnsOf, KeyOf, RealTriggers, Carried, NonEmpty, AllFollowed;
  }

  /**
   PostgreSQL, any edit with fresh names: when a plan is made, running it on the
   loaded table succeeds exactly when the edit is feasible, and the table it then
   leaves is the reached design, each kept column with the values it had, each new
   one with its default.
   */
  lemma PlanReaches(was: TableDesign, next: TableDesign, vals: map<string, seq<Value>>, count: nat) returns (r: Tbl)
    requires Planned(was, next, vals) && AlterTable(Postgres, was, next).Ok?
    ensures Run(Postgres, AlterTable(Postgres, was, next).value.steps, TableOf(Postgres, was, vals, count))
      == if Feasible(was, next) then Some(r) else None
    ensures Feasible(was, next) ==>
      r == TableOf(Postgres, Reached(was, next), Carried(next.columns, vals, count), count).(order := r.order,
        former := r.former)
  {
    hide Run, Bodies, ColumnsOf, PgSound, SoundEdit, SoundTable, NamesApart, Steady, Moving, AlterColumns, SafeFrom,
      Bared, ReadyForAdds,
      DropParts, DropKey, DropColumns, AddParts, TableComment, Surviving, Validate, Carried, KeyOf, RealTriggers,
        HasAll, NameFree, NameUnshared, KeysLetGo, AddsAccepted,
      Reached, Dressed, Goal;
    var columns := AlterColumns(Postgres, was.columns, next.columns, 0).value;
    var drops := When(OldName(was, next) != next.name, RenameTable(next.name)) + DropParts(Postgres, was, next)
      + DropKey(Postgres, was, next).value
      + DropColumns(Postgres, was.columns, next.columns);
    var t0 := TableOf(Postgres, was, vals, count);
    var t1 := DropsRun(was, next, vals, count);
    RunAppend(Postgres, drops, columns, t0);
    RunAppend(Postgres, drops + columns, AddParts(Postgres, was, next), t0);
    RunAppend(Postgres, drops + columns + AddParts(Postgres, was, next), TableComment(Postgres, was, next), t0);
    r := t0;
    if NameFree(was, next) && NameUnshared(Postgres, was, next) && KeysLetGo(was, next) {
      var start, goal := ColumnsOf(Postgres, was, was.columns, vals), Goal(Reached(was, next), vals, count);
      var t2 := ColumnsRun(was.columns, next.columns, vals, start, goal, 0, t1);
      if AllSafe(was, next) {
        SoundEditParts(was, next);
        SoundColumns(next);
        GoalKeys(was, next, vals, count);
        MovingEnds(next.columns, start, goal, t2.cols);
        SameCount(Bared(Postgres, was, next, vals, count), t1, t2);
        GoalThere(was, next, vals, count, t2);
        ReadyAfter(Postgres, was, next, vals, count, t2);
        ReadyNames(was, next, t2);
        PgSoundParts(Reached(was, next), t2);
        AddPartsRun(Postgres, was, next, t2);
        var t3 := Dressed(Reached(was, next), t2);
        DressedRest(Reached(was, next), t2);
        TableCommentRun(Postgres, was, next, t3);
        ReachedTable(was, next, vals, count, t2);
        r := t3.(comment := NonEmpty(next.comment));
      }
    }
  }

  lemma SameCount(t: Tbl, u: Tbl, v: Tbl)
    requires SameBut(t, u) && SameBut(u, v)
    ensures SameBut(t, v)
  {
  }

  lemma GoalKeys(was: TableDesign, next: TableDesign, vals: map<string, seq<Value>>, count: nat)
    ensures KeysAre(Goal(Reached(was, next), vals, count), next.columns)
  {
    hide ColumnsOf, Carried, AllFollowed;
    ColumnsOfAll(Postgres, Reached(was, next), Carried(next.columns, vals, count));
  }

  lemma GoalThere(was: TableDesign, next: TableDesign, vals: map<string, seq<Value>>, count: nat, t: Tbl)
    requires t.cols == Goal(Reached(was, next), vals, count)
    ensures HasAll(t, next.columns)
  {
    hide Goal, Reached;
    GoalKeys(was, next, vals, count);
  }

  lemma ReadyNames(was: TableDesign, next: TableDesign, t: Tbl)
    requires SoundEdit(was, next) && ReadyForAdds(was, next, t)
    ensures !t.folds && t.name == next.name && t.schema == NonEmpty(was.schema) && was.schema == next.schema
  {
    hide Bodies, Surviving, KeptKeys, KeyOf, HasAll, SoundTable, Fresh;
  }

  lemma DressedRest(d: TableDesign, t: Tbl)
    ensures Dressed(d, t).comment == t.comment && Dressed(d, t).order == t.order && Dressed(d, t).former == t.former
  {
  }

  /** The table left is the new design itself exactly when it keeps its name or no reference of it to itself is kept. */
  lemma ReachesNext(was: TableDesign, next: TableDesign, vals: map<string, seq<Value>>, count: nat)
    requires SoundEdit(was, next)
    ensures TableOf(Postgres, Reached(was, next), vals, count) ==
      TableOf(Postgres, next.(primaryKeyName := Reached(was, next).primaryKeyName), vals, count)
      <==> ReferencesStay(was, next)
  {
    hide Bodies, KeyOf, RealTriggers, AllFollowed, SoundEdit, ReferencesStay;
    SameColumnsOf(Postgres, Reached(was, next), next.(primaryKeyName := Reached(was, next).primaryKeyName),
      next.columns, vals);
    SameKeyOf(Reached(was, next), next.(primaryKeyName := Reached(was, next).primaryKeyName));
    ReachedIsNext(was, next);
  }

  lemma SameKeyOf(a: TableDesign, b: TableDesign)
    requires a.primaryKey == b.primaryKey && a.primaryKeyName == b.primaryKeyName
    ensures KeyOf(Postgres, a) == KeyOf(Postgres, b)
  {
  }

  lemma {:induction false} SameColumnsOf(e: Engine, a: TableDesign, b: TableDesign, cs: seq<ColumnDef>,
      vals: map<string, seq<Value>>)
    requires !e.Sqlite?
    ensures ColumnsOf(e, a, cs, vals) == ColumnsOf(e, b, cs, vals)
  {
    hide AttrOf;
    if cs != [] {
      SameColumnsOf(e, a, b, cs[1..], vals);
    }
  }
}
