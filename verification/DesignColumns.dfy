/**
 One column altered in place on PostgreSQL: the steps make the new definition exactly
 when they leave identity and generated columns alone.
 */
module DesignColumns {
  import opened Prelude
  import opened Engines
  import opened Design
  import opened DesignExec
  import opened DesignValid

  // ------------------------------------------------------------------ steps that alter one column

  /** The steps all alter the column `name`. */
  predicate Alters(steps: seq<Step>, name: string) {
    forall i :: 0 <= i < |steps| ==> AltersColumn(steps[i]) && !steps[i].AddDefault? && steps[i].name == name
  }

  /** What they make of its definition. */
  function RunAttr(e: Engine, t: Tbl, a: Attr, steps: seq<Step>): Option<Attr>
    decreases |steps|
  {
    if steps == [] then Some(a)
    else
      match AlterAttr(e, t, a, steps[0])
      case None => None
      case Some(b) => RunAttr(e, t, b, steps[1..])
  }

  lemma AlterAttrKey(e: Engine, t: Tbl, u: Tbl, a: Attr, s: Step)
    requires t.key == u.key && t.name == u.name
    ensures AlterAttr(e, t, a, s) == AlterAttr(e, u, a, s)
  {
  }

  lemma {:induction false} RunAttrKey(e: Engine, t: Tbl, u: Tbl, a: Attr, steps: seq<Step>)
    requires t.key == u.key && t.name == u.name
    ensures RunAttr(e, t, a, steps) == RunAttr(e, u, a, steps)
    decreases |steps|
  {
    hide AlterAttr;
    if steps != [] {
      AlterAttrKey(e, t, u, a, steps[0]);
      var b := AlterAttr(e, t, a, steps[0]);
      if b.Some? {
        RunAttrKey(e, t, u, b.value, steps[1..]);
      }
    }
  }

  lemma ExecAlters(e: Engine, t: Tbl, s: Step)
    requires AltersColumn(s) && !s.AddDefault? && s.name in t.cols
    ensures Exec(e, t, s) ==
      match AlterAttr(e, t, t.cols[s.name].attr, s)
      case None => None
      case Some(a) => Some(WithAttr(t, s.name, a))
  {
    hide AlterAttr;
  }

  /** Running them touches that definition and nothing else. */
  lemma {:induction false} RunColumn(e: Engine, steps: seq<Step>, name: string, t: Tbl)
    requires Alters(steps, name) && name in t.cols
    ensures Run(e, steps, t) ==
      match RunAttr(e, t, t.cols[name].attr, steps)
      case None => None
      case Some(a) => Some(WithAttr(t, name, a))
  {
    hide AlterAttr, Exec;
    if steps == [] {
      assert t.cols[name := t.cols[name]] == t.cols;
    } else {
      assert AltersColumn(steps[0]) && !steps[0].AddDefault? && steps[0].name == name;
      ExecAlters(e, t, steps[0]);
      var b := AlterAttr(e, t, t.cols[name].attr, steps[0]);
      assert forall i :: 0 <= i < |steps[1..]| ==> steps[1..][i] == steps[i + 1];
      if b.Some? {
        var u := WithAttr(t, name, b.value);
        RunColumn(e, steps[1..], name, u);
        RunAttrKey(e, t, u, b.value, steps[1..]);
        var r := RunAttr(e, u, b.value, steps[1..]);
        if r.Some? {
          assert WithAttr(u, name, r.value) == WithAttr(t, name, r.value);
        }
      }
    }
  }

  lemma {:induction false} RunAttrAppend(e: Engine, t: Tbl, a: Attr, x: seq<Step>, y: seq<Step>)
    ensures RunAttr(e, t, a, x + y) ==
      match RunAttr(e, t, a, x)
      case None => None
      case Some(b) => RunAttr(e, t, b, y)
    decreases |x|
  {
    hide AlterAttr;
    if x == [] {
      assert x + y == y;
    } else {
      assert (x + y)[1..] == x[1..] + y;
      var b := AlterAttr(e, t, a, x[0]);
      if b.Some? {
        RunAttrAppend(e, t, b.value, x[1..], y);
      }
    }
  }

  lemma RunAttrWhen(e: Engine, t: Tbl, a: Attr, b: bool, s: Step)
    ensures RunAttr(e, t, a, When(b, s)) == if b then AlterAttr(e, t, a, s) else Some(a)
  {
    hide AlterAttr;
    if b {
      assert [s][1..] == [];
    }
  }

  // ------------------------------------------------------------------ the PostgreSQL steps

  /**
   What PostgreSQL accepts: every column has a type, an identity column is a whole
   number and NOT NULL, an identity or generated column has no default.
   */
  predicate PgColumn(c: ColumnDef) {
    && Typed(Lower(TypeSql(c)))
    && (c.autoIncrement ==> Counts(Lower(TypeSql(c))) && c.notNull && NonBlank(c.initial).None?)
    && (c.autoIncrement ==> NonBlank(c.generated).None?)
    && (NonBlank(c.generated).Some? ==> NonBlank(c.initial).None?)
  }

  /**
   The edits of a kept column PostgreSQL can follow in this order: while a column
   is an identity column it stays a whole number and NOT NULL and its default is
   not touched, and neither type nor default of a generated column ever is.
   */
  predicate SafeEdit(o: ColumnDef, n: ColumnDef) {
    && SafeType(o, n)
    && (o.autoIncrement || NonBlank(o.generated).Some? ==> o.initial == n.initial)
  }

  predicate SafeType(o: ColumnDef, n: ColumnDef) {
    && (o.autoIncrement ==> Counts(Lower(TypeSql(n))) && n.notNull)
    && (NonBlank(o.generated).Some? ==> SameType(o, n))
  }

  function AlterSteps1(o: ColumnDef, n: ColumnDef): seq<Step> {
    When(!SameType(o, n), SetType(n.name, TypeSql(n), NonEmpty(n.collation)))
    + When(o.notNull != n.notNull, SetNotNull(n.name, n.notNull))
  }

  function AlterSteps2(o: ColumnDef, n: ColumnDef): seq<Step> {
    When(o.initial != n.initial, SetDefault(n.name, NonBlank(n.initial)))
    + When(o.autoIncrement != n.autoIncrement, SetIdentity(n.name, n.autoIncrement))
    + CommentSteps(Postgres, n.name, o.comment, n.comment)
  }

  lemma StepsSplit(o: ColumnDef, n: ColumnDef)
    requires AlterPostgres(o, n).Ok?
    ensures AlterPostgres(o, n).value ==
      When(o.name != n.name, RenameColumn(o.name, n.name)) + (AlterSteps1(o, n) + AlterSteps2(o, n))
    ensures Alters(AlterSteps1(o, n) + AlterSteps2(o, n), n.name)
  {
    hide TypeSql, Lower, NonBlank, NonEmpty, SameType, When, CommentChange;
    var w0 := When(o.name != n.name, RenameColumn(o.name, n.name));
    var w1 := When(!SameType(o, n), SetType(n.name, TypeSql(n), NonEmpty(n.collation)));
    var w2 := When(o.notNull != n.notNull, SetNotNull(n.name, n.notNull));
    var w3 := When(o.initial != n.initial, SetDefault(n.name, NonBlank(n.initial)));
    var w4 := When(o.autoIncrement != n.autoIncrement, SetIdentity(n.name, n.autoIncrement));
    var w5 := CommentSteps(Postgres, n.name, o.comment, n.comment);
    assert w0 + w1 + w2 + w3 + w4 + w5 == w0 + ((w1 + w2) + (w3 + w4 + w5));
    AltersWhen(!SameType(o, n), SetType(n.name, TypeSql(n), NonEmpty(n.collation)));
    AltersWhen(o.notNull != n.notNull, SetNotNull(n.name, n.notNull));
    AltersWhen(o.initial != n.initial, SetDefault(n.name, NonBlank(n.initial)));
    AltersWhen(o.autoIncrement != n.autoIncrement, SetIdentity(n.name, n.autoIncrement));
  }

  lemma AltersWhen(b: bool, s: Step)
    requires AltersColumn(s) && !s.AddDefault?
    ensures Alters(When(b, s), s.name)
  {
  }

  /** The definition after type and nullability, before the rest. */
  function Halfway(a: Attr, n: ColumnDef): Attr {
    a.(ty := Lower(TypeSql(n)), collation := NonEmpty(n.collation), notNull := n.notNull)
  }

  lemma FirstHalf(t: Tbl, o: ColumnDef, n: ColumnDef)
    requires PgColumn(o) && PgColumn(n)
    requires t.key.Some? && n.name in t.key.value.columns ==> n.notNull
    ensures RunAttr(Postgres, t, AttrOf(Postgres, o, false), AlterSteps1(o, n)) ==
      if SafeType(o, n) then Some(Halfway(AttrOf(Postgres, o, false), n)) else None
  {
    hide TypeSql, Lower, NonBlank, NonEmpty, RunAttr, When, Counts, Typed;
    var a := AttrOf(Postgres, o, false);
    var s1, s2 := SetType(n.name, TypeSql(n), NonEmpty(n.collation)), SetNotNull(n.name, n.notNull);
    RunAttrAppend(Postgres, t, a, When(!SameType(o, n), s1), When(o.notNull != n.notNull, s2));
    RunAttrWhen(Postgres, t, a, !SameType(o, n), s1);
    var b := a.(ty := Lower(TypeSql(n)), collation := NonEmpty(n.collation));
    if (o.autoIncrement && !Counts(Lower(TypeSql(n)))) || (NonBlank(o.generated).Some? && !SameType(o, n)) {
      assert !SameType(o, n);
    } else {
      assert RunAttr(Postgres, t, a, When(!SameType(o, n), s1)) == Some(b);
    }
    RunAttrWhen(Postgres, t, b, o.notNull != n.notNull, s2);
  }

  lemma SecondHalf(t: Tbl, o: ColumnDef, n: ColumnDef)
    requires PgColumn(o) && PgColumn(n) && o.generated == n.generated
    requires SafeType(o, n)
    ensures RunAttr(Postgres, t, Halfway(AttrOf(Postgres, o, false), n), AlterSteps2(o, n)) ==
      if SafeEdit(o, n) then Some(AttrOf(Postgres, n, false)) else None
  {
    hide TypeSql, Lower, NonBlank, NonEmpty, RunAttr, When, Counts, Typed, SafeType;
    var a := Halfway(AttrOf(Postgres, o, false), n);
    var s3, s4 := SetDefault(n.name, NonBlank(n.initial)), SetIdentity(n.name, n.autoIncrement);
    var w3, w4 := When(o.initial != n.initial, s3), When(o.autoIncrement != n.autoIncrement, s4);
    var w5 := CommentSteps(Postgres, n.name, o.comment, n.comment);
    RunAttrAppend(Postgres, t, a, w3 + w4, w5);
    RunAttrAppend(Postgres, t, a, w3, w4);
    RunAttrWhen(Postgres, t, a, o.initial != n.initial, s3);
    if SafeEdit(o, n) {
      var b := a.(initial := if NonBlank(n.generated).Some? then None else NonBlank(n.initial));
      assert RunAttr(Postgres, t, a, w3) == Some(b);
      RunAttrWhen(Postgres, t, b, o.autoIncrement != n.autoIncrement, s4);
      var c := b.(identity := n.autoIncrement);
      assert RunAttr(Postgres, t, b, w4) == Some(c);
      var changes := CommentChange(o.comment, n.comment);
      assert w5 == When(changes, SetComment(n.name, NonEmpty(n.comment))) by { WhenIs(changes,
        SetComment(n.name, NonEmpty(n.comment))); }
      RunAttrWhen(Postgres, t, c, changes, SetComment(n.name, NonEmpty(n.comment)));
    }
  }

  lemma WhenIs(b: bool, s: Step)
    ensures When(b, s) == if b then [s] else []
  {
  }

  /**
   Running a column's steps: its new name, its new definition, its old values; or a
   refusal, exactly when the edit is unsafe.
   */
  lemma AlterRuns(t: Tbl, o: ColumnDef, n: ColumnDef)
    requires PgColumn(o) && PgColumn(n) && AlterPostgres(o, n).Ok?
    requires o.name in t.cols && t.cols[o.name].attr == AttrOf(Postgres, o, false)
    requires o.name != n.name ==> n.name !in t.cols
    requires Renamed(t, o.name, n.name).key == t.key
    requires t.key.Some? && n.name in t.key.value.columns ==> n.notNull
    ensures Run(Postgres, AlterPostgres(o, n).value, t) ==
      if SafeEdit(o, n) then Some(WithAttr(Renamed(t, o.name, n.name), n.name, AttrOf(Postgres, n, false))) else None
  {
    hide TypeSql, Lower, NonBlank, NonEmpty, Counts, PgColumn, SafeType, RunAttr, When, Run, AttrOf, AlterSteps1,
      AlterSteps2,
      AlterPostgres, RenamedParts;
    StepsSplit(o, n);
    var rename, alter := When(o.name != n.name, RenameColumn(o.name, n.name)), AlterSteps1(o, n) + AlterSteps2(o, n);
    RunAppend(Postgres, rename, alter, t);
    RunWhen(Postgres, o.name != n.name, RenameColumn(o.name, n.name), t);
    var u := Renamed(t, o.name, n.name);
    assert Run(Postgres, rename, t) == Some(u);
    var a := AttrOf(Postgres, o, false);
    assert n.name in u.cols && u.cols[n.name].attr == a;
    RunColumn(Postgres, alter, n.name, u);
    RunAttrAppend(Postgres, u, a, AlterSteps1(o, n), AlterSteps2(o, n));
    FirstHalf(u, o, n);
    SameGenerated(o, n);
    if SafeType(o, n) {
      SecondHalf(u, o, n);
    }
  }

  lemma SameGenerated(o: ColumnDef, n: ColumnDef)
    requires AlterPostgres(o, n).Ok?
    ensures o.generated == n.generated && o.generatedStored == n.generatedStored
  {
  }
}
