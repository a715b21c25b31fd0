/**
 SQL Server: defaults are constraints with names of their own; one column altered in
 place, its default dropped by name and added under a new one.
 */
module DesignDefaults {
  import opened Prelude
  import opened Engines
  import opened Design
  import opened DesignExec
  import opened DesignValid
  import opened DesignColumns
  import opened DesignMoves
  import opened DesignPostgres
  import opened DesignKept

  // ------------------------------------------------------------------ named defaults

  /** A loaded column knows the constraint its default is. */
  predicate KnownDefault(c: ColumnDef) {
    c.defaultConstraint.Some? <==> NonBlank(c.generated).None? && NonBlank(c.initial).Some?
  }

  /** Every column does, and no two of them name the same one. */
  predicate KnownDefaults(cs: seq<ColumnDef>) {
    && (forall i :: 0 <= i < |cs| ==> KnownDefault(cs[i]))
    && (forall i, j :: 0 <= i < j < |cs| && cs[i].defaultConstraint.Some? ==>
      cs[i].defaultConstraint != cs[j].defaultConstraint)
  }

  /** No two defaults of a table share a name. */
  predicate DefaultsApart(cols: map<string, Column>) {
    forall p, q :: p in cols && q in cols && p != q && cols[p].attr.defaultName.Some? ==>
      cols[p].attr.defaultName != cols[q].attr.defaultName
  }

  lemma ApartWith(cols: map<string, Column>, name: string, c: Column)
    requires DefaultsApart(cols)
    requires c.attr.defaultName.Some? ==> forall q :: q in cols && q != name ==>
      cols[q].attr.defaultName != c.attr.defaultName
    ensures DefaultsApart(cols[name := c])
  {
  }

  lemma ApartRenamed(t: Tbl, name: string, to: string)
    requires DefaultsApart(t.cols) && name in t.cols && to !in t.cols
    ensures DefaultsApart(Renamed(t, name, to).cols)
  {
    hide RenamedParts;
    var rest := t.cols - {name};
    ApartWith(rest, to, t.cols[name]);
  }

  lemma ApartWithout(t: Tbl, constraint: string)
    requires DefaultsApart(t.cols)
    ensures DefaultsApart(map q | q in t.cols :: WithoutDefault(t.cols[q], constraint))
  {
  }

  lemma AlterAttrName(t: Tbl, a: Attr, s: Step)
    requires AlterAttr(Mssql, t, a, s).Some?
    ensures AlterAttr(Mssql, t, a, s).value.defaultName == if s.AddDefault? then Some(DefaultName(t.name, s.name))
      else a.defaultName
  {
    hide Lower, DefaultName;
  }

  lemma AlteredApart(t: Tbl, s: Step)
    requires DefaultsApart(t.cols) && AltersColumn(s) && ExecColumn(Mssql, t, s).Some?
    ensures DefaultsApart(ExecColumn(Mssql, t, s).value.cols)
  {
    hide AlterAttr, DefaultName;
    var a := AlterAttr(Mssql, t, t.cols[s.name].attr, s).value;
    AlterAttrName(t, t.cols[s.name].attr, s);
    ApartWith(t.cols, s.name, t.cols[s.name].(attr := a));
  }

  lemma AddedApart(t: Tbl, c: ColumnDef, p: Position)
    requires DefaultsApart(t.cols) && ExecColumn(Mssql, t, AddColumn(c, p)).Some?
    ensures DefaultsApart(ExecColumn(Mssql, t, AddColumn(c, p)).value.cols)
  {
    hide PositionOk, AttrOk, Insert, AddedAttr;
    var a := AddedAttr(Mssql, t.name, c);
    ApartWith(t.cols, c.name, Column(a, Fill(a, t.count)));
  }

  /** Nothing a plan does to columns ever gives two defaults one name. */
  lemma StepKeepsApart(t: Tbl, s: Step)
    requires DefaultsApart(t.cols) && OfColumns(s) && !s.ChangeColumn? && ExecColumn(Mssql, t, s).Some?
    ensures DefaultsApart(ExecColumn(Mssql, t, s).value.cols)
  {
    hide Used, AttrOf, Renamed, AlterAttr, PositionOk, AttrOk, Insert, DefaultName, AddedAttr, WithAttr;
    if AltersColumn(s) {
      AlteredApart(t, s);
    } else if s.AddColumn? {
      AddedApart(t, s.column, s.position);
    } else if s.RenameColumn? {
      ApartRenamed(t, s.name, s.to);
    } else if s.DropDefault? {
      ApartWithout(t, s.constraint);
    }
  }

  /** The steps a plan has for a column. */
  predicate ForColumns(steps: seq<Step>) {
    forall i :: 0 <= i < |steps| ==> OfColumns(steps[i]) && !steps[i].ChangeColumn?
  }

  lemma {:induction false} RunKeepsApart(steps: seq<Step>, t: Tbl)
    requires ForColumns(steps) && DefaultsApart(t.cols) && Run(Mssql, steps, t).Some?
    ensures DefaultsApart(Run(Mssql, steps, t).value.cols)
    decreases |steps|
  {
    hide ExecColumn, DefaultsApart;
    if steps != [] {
      assert OfColumns(steps[0]) && !steps[0].ChangeColumn?;
      StepKeepsApart(t, steps[0]);
      forall i | 0 <= i < |steps[1..]|
        ensures OfColumns(steps[1..][i]) && !steps[1..][i].ChangeColumn?
      {
        assert steps[1..][i] == steps[i + 1];
      }
      RunKeepsApart(steps[1..], Exec(Mssql, t, steps[0]).value);
    }
  }

  // ------------------------------------------------------------------ one column altered

  /** The column as it is once its steps have run: persisted as it was, its default under its old name or a new one. */
  function Settle(table: string, o: Option<ColumnDef>, n: ColumnDef): ColumnDef {
    n.(generatedStored := if o.Some? then o.value.generatedStored else n.generatedStored,
       defaultConstraint :=
         if NonBlank(n.generated).Some? || NonBlank(n.initial).None? then None
         else if o.Some? && o.value.initial == n.initial then o.value.defaultConstraint
         else Some(DefaultName(table, n.name)))
  }

  lemma SettledType(table: string, o: Option<ColumnDef>, n: ColumnDef)
    ensures TypeSql(Settle(table, o, n)) == TypeSql(n)
  {
  }

  function DefaultSteps(o: ColumnDef, n: ColumnDef): seq<Step> {
    if o.initial == n.initial then []
    else (if o.defaultConstraint.Some? then [DropDefault(o.defaultConstraint.value)] else [])
         + (if NonBlank(n.initial).Some? then [AddDefault(n.name, NonBlank(n.initial).value)] else [])
  }

  lemma StepsAre(o: ColumnDef, n: ColumnDef)
    requires AlterMssql(o, n).Ok?
    ensures o.autoIncrement == n.autoIncrement && o.generated == n.generated
    ensures AlterMssql(o, n).value ==
      When(o.name != n.name, RenameColumn(o.name, n.name))
      + (When(!SameType(o, n) || o.notNull != n.notNull,
        AlterColumn(n.name, TypeSql(n), NonEmpty(n.collation), n.notNull))
         + (DefaultSteps(o, n) + CommentSteps(Mssql, n.name, o.comment, n.comment)))
  {
    hide TypeSql, Lower, NonBlank, NonEmpty, SameType, When, CommentChange;
    var w0 := When(o.name != n.name, RenameColumn(o.name, n.name));
    var w1 := When(!SameType(o, n) || o.notNull != n.notNull,
      AlterColumn(n.name, TypeSql(n), NonEmpty(n.collation), n.notNull));
    var w2, w3 := DefaultSteps(o, n), CommentSteps(Mssql, n.name, o.comment, n.comment);
    assert w0 + w1 + w2 + w3 == w0 + (w1 + (w2 + w3));
  }

  lemma ForBoth(a: seq<Step>, b: seq<Step>)
    requires ForColumns(a) && ForColumns(b)
    ensures ForColumns(a + b)
  {
  }

  lemma ForWhen(b: bool, s: Step)
    requires OfColumns(s) && !s.ChangeColumn?
    ensures ForColumns(When(b, s))
  {
  }

  lemma StepsForColumns(o: ColumnDef, n: ColumnDef)
    requires AlterMssql(o, n).Ok?
    ensures ForColumns(AlterMssql(o, n).value)
  {
    hide TypeSql, Lower, NonBlank, NonEmpty, SameType, When, CommentChange, AlterMssql, ForColumns;
    StepsAre(o, n);
    var w0 := When(o.name != n.name, RenameColumn(o.name, n.name));
    var w1 := When(!SameType(o, n) || o.notNull != n.notNull,
      AlterColumn(n.name, TypeSql(n), NonEmpty(n.collation), n.notNull));
    var w2, w3 := DefaultSteps(o, n), CommentSteps(Mssql, n.name, o.comment, n.comment);
    ForWhen(o.name != n.name, RenameColumn(o.name, n.name));
    ForWhen(!SameType(o, n) || o.notNull != n.notNull,
      AlterColumn(n.name, TypeSql(n), NonEmpty(n.collation), n.notNull));
    assert ForColumns(w2) by { DefaultsForColumns(o, n); }
    assert ForColumns(w3) by { CommentsForColumns(n.name, o.comment, n.comment); }
    ForBoth(w2, w3);
    ForBoth(w1, w2 + w3);
    ForBoth(w0, w1 + (w2 + w3));
  }

  lemma DefaultsForColumns(o: ColumnDef, n: ColumnDef)
    ensures ForColumns(DefaultSteps(o, n))
  {
    hide NonBlank;
  }

  lemma CommentsForColumns(name: string, was: Option<string>, next: Option<string>)
    ensures ForColumns(CommentSteps(Mssql, name, was, next))
  {
  }

  /** The definition once type, collation and nullability are as designed. */
  function Typed(o: ColumnDef, n: ColumnDef): Attr {
    var a := AttrOf(Mssql, o, false);
    AttrOf(Mssql, n, false).(initial := a.initial, comment := a.comment, stored := a.stored,
      defaultName := a.defaultName)
  }

  /** The definition once the default is, too. */
  function Defaulted(table: string, o: ColumnDef, n: ColumnDef): Attr {
    AttrOf(Mssql, Settle(table, Some(o), n), false).(comment := NonEmpty(o.comment))
  }

  lemma TypeGiven(t: Tbl, o: ColumnDef, n: ColumnDef)
    requires AlterMssql(o, n).Ok? && n.name in t.cols && t.cols[n.name].attr == AttrOf(Mssql, o, false)
    requires var s := When(!SameType(o, n) || o.notNull != n.notNull,
      AlterColumn(n.name, TypeSql(n), NonEmpty(n.collation), n.notNull));
      Run(Mssql, s, t).Some?
    ensures var s := When(!SameType(o, n) || o.notNull != n.notNull,
      AlterColumn(n.name, TypeSql(n), NonEmpty(n.collation), n.notNull));
      Run(Mssql, s, t) == Some(WithAttr(t, n.name, Typed(o, n)))
  {
    hide TypeSql, Lower, NonBlank, NonEmpty, Run, When;
    var s := AlterColumn(n.name, TypeSql(n), NonEmpty(n.collation), n.notNull);
    RunWhen(Mssql, !SameType(o, n) || o.notNull != n.notNull, s, t);
    assert t.cols[n.name := t.cols[n.name]] == t.cols;
  }

  /** Dropping the default of one column leaves those of all others. */
  lemma DefaultDropped(t: Tbl, name: string, constraint: string)
    requires DefaultsApart(t.cols) && name in t.cols && t.cols[name].attr.defaultName == Some(constraint)
    ensures Exec(Mssql, t, DropDefault(constraint)) ==
      Some(WithAttr(t, name, t.cols[name].attr.(initial := None, defaultName := None)))
  {
    var a := t.cols[name].attr.(initial := None, defaultName := None);
    var u := t.(cols := map q | q in t.cols :: WithoutDefault(t.cols[q], constraint));
    assert HasDefault(t, constraint);
    assert u.cols == t.cols[name := t.cols[name].(attr := a)];
  }

  /** The definition with no default. */
  function Bare(o: ColumnDef, n: ColumnDef): Attr {
    Typed(o, n).(initial := None, defaultName := None)
  }

  lemma DefaultKept(table: string, o: ColumnDef, n: ColumnDef)
    requires o.initial == n.initial && o.generated == n.generated
    ensures Typed(o, n) == Defaulted(table, o, n)
  {
    hide TypeSql, Lower, NonBlank, NonEmpty, DefaultName;
    SettledType(table, Some(o), n);
  }

  lemma DefaultMade(table: string, o: ColumnDef, n: ColumnDef)
    requires o.initial != n.initial && o.generated == n.generated && NonBlank(n.generated).None?
      && NonBlank(n.initial).Some?
    ensures Bare(o, n).(initial := NonBlank(n.initial), defaultName := Some(DefaultName(table, n.name))) ==
      Defaulted(table, o, n)
  {
    hide TypeSql, Lower, NonBlank, NonEmpty, DefaultName;
    SettledType(table, Some(o), n);
  }

  lemma DefaultAbsent(table: string, o: ColumnDef, n: ColumnDef)
    requires o.generated == n.generated && NonBlank(n.initial).None?
    ensures Bare(o, n) == Defaulted(table, o, n)
  {
    hide TypeSql, Lower, NonBlank, NonEmpty, DefaultName;
    SettledType(table, Some(o), n);
  }

  lemma OldDefaultGone(t: Tbl, o: ColumnDef, n: ColumnDef)
    requires KnownDefault(o) && n.name in t.cols && t.cols[n.name].attr == Typed(o, n) && DefaultsApart(t.cols)
    ensures Run(Mssql, if o.defaultConstraint.Some? then [DropDefault(o.defaultConstraint.value)] else [], t) ==
      Some(WithAttr(t, n.name, Bare(o, n)))
  {
    hide TypeSql, Lower, NonBlank, NonEmpty, Run, Exec, DefaultsApart;
    if o.defaultConstraint.Some? {
      var s := DropDefault(o.defaultConstraint.value);
      DefaultDropped(t, n.name, o.defaultConstraint.value);
      WhenIs(true, s);
      RunWhen(Mssql, true, s, t);
    } else {
      RunNothing(Mssql, t);
      assert t.cols[n.name := t.cols[n.name]] == t.cols;
    }
  }

  lemma NewDefaultMade(t: Tbl, o: ColumnDef, n: ColumnDef)
    requires o.initial != n.initial && o.generated == n.generated && n.name in t.cols
      && t.cols[n.name].attr == Bare(o, n)
    requires var add := if NonBlank(n.initial).Some? then [AddDefault(n.name, NonBlank(n.initial).value)]
      else []; Run(Mssql, add, t).Some?
    ensures var add := if NonBlank(n.initial).Some? then [AddDefault(n.name, NonBlank(n.initial).value)] else [];
      Run(Mssql, add, t) == Some(WithAttr(t, n.name, Defaulted(t.name, o, n)))
  {
    hide NonBlank, Run, Bare, Defaulted, DefaultName, HasDefault;
    if NonBlank(n.initial).Some? {
      OneRun(Mssql, AddDefault(n.name, NonBlank(n.initial).value), t);
      BareIs(o, n);
      DefaultMade(t.name, o, n);
    } else {
      RunNothing(Mssql, t);
      DefaultAbsent(t.name, o, n);
      assert t.cols[n.name := t.cols[n.name]] == t.cols;
    }
  }

  lemma BareIs(o: ColumnDef, n: ColumnDef)
    ensures Bare(o, n).generated == NonBlank(n.generated)
  {
  }

  lemma DefaultGiven(t: Tbl, o: ColumnDef, n: ColumnDef)
    requires KnownDefault(o) && AlterMssql(o, n).Ok? && n.name in t.cols && t.cols[n.name].attr == Typed(o, n)
    requires DefaultsApart(t.cols) && Run(Mssql, DefaultSteps(o, n), t).Some?
    ensures Run(Mssql, DefaultSteps(o, n), t) == Some(WithAttr(t, n.name, Defaulted(t.name, o, n)))
  {
    hide NonBlank, Run, DefaultsApart, Typed, Bare, Defaulted, KnownDefault, AlterMssql;
    StepsAre(o, n);
    if o.initial == n.initial {
      RunNothing(Mssql, t);
      DefaultKept(t.name, o, n);
      assert t.cols[n.name := t.cols[n.name]] == t.cols;
    } else {
      var drop := if o.defaultConstraint.Some? then [DropDefault(o.defaultConstraint.value)] else [];
      var add := if NonBlank(n.initial).Some? then [AddDefault(n.name, NonBlank(n.initial).value)] else [];
      SplitRun(Mssql, drop, add, t);
      OldDefaultGone(t, o, n);
      var u := WithAttr(t, n.name, Bare(o, n));
      NewDefaultMade(u, o, n);
      SetTwice(t, n.name, Bare(o, n), Defaulted(t.name, o, n));
    }
  }

  lemma CommentSet(t: Tbl, o: ColumnDef, n: ColumnDef)
    requires n.name in t.cols && t.cols[n.name].attr == Defaulted(t.name, o, n)
    ensures Run(Mssql, CommentSteps(Mssql, n.name, o.comment, n.comment), t) ==
      Some(WithAttr(t, n.name, AttrOf(Mssql, Settle(t.name, Some(o), n), false)))
  {
    hide TypeSql, Lower, NonBlank, NonEmpty, Run, DefaultName;
    var s, changes := SetComment(n.name, NonEmpty(n.comment)), CommentChange(o.comment, n.comment);
    WhenIs(changes, s);
    RunWhen(Mssql, changes, s, t);
    assert t.cols[n.name := t.cols[n.name]] == t.cols;
  }

  lemma SetTwice(t: Tbl, name: string, a: Attr, b: Attr)
    requires name in t.cols
    ensures WithAttr(WithAttr(t, name, a), name, b) == WithAttr(t, name, b)
  {
  }

  /** A kept column's steps: its new name, its settled definition, its old values. */
  lemma AlterSettles(t: Tbl, o: ColumnDef, n: ColumnDef)
    requires KnownDefault(o) && AlterMssql(o, n).Ok? && DefaultsApart(t.cols)
    requires o.name in t.cols && t.cols[o.name].attr == AttrOf(Mssql, o, false)
    requires SameBut(t, Renamed(t, o.name, n.name)) && Run(Mssql, AlterMssql(o, n).value, t).Some?
    ensures Run(Mssql, AlterMssql(o, n).value, t) ==
      Some(WithAttr(Renamed(t, o.name, n.name), n.name, AttrOf(Mssql, Settle(t.name, Some(o), n), false)))
  {
    hide TypeSql, Lower, NonBlank, NonEmpty, Run, When, AttrOf, Typed, Defaulted, Settle, DefaultSteps, CommentSteps,
      SameType, RenamedParts, AlterMssql, DefaultsApart;
    var w0 := When(o.name != n.name, RenameColumn(o.name, n.name));
    var w1 := When(!SameType(o, n) || o.notNull != n.notNull,
      AlterColumn(n.name, TypeSql(n), NonEmpty(n.collation), n.notNull));
    var w2, w3 := DefaultSteps(o, n), CommentSteps(Mssql, n.name, o.comment, n.comment);
    StepsAre(o, n);
    SplitRun(Mssql, w0, w1 + (w2 + w3), t);
    RunWhen(Mssql, o.name != n.name, RenameColumn(o.name, n.name), t);
    var u := Renamed(t, o.name, n.name);
    if o.name != n.name {
      ApartRenamed(t, o.name, n.name);
    }
    SplitRun(Mssql, w1, w2 + w3, u);
    TypeGiven(u, o, n);
    var u1 := WithAttr(u, n.name, Typed(o, n));
    TypedName(o, n);
    SameNameApart(u, n.name, Typed(o, n));
    SplitRun(Mssql, w2, w3, u1);
    DefaultGiven(u1, o, n);
    var u2 := WithAttr(u1, n.name, Defaulted(u1.name, o, n));
    CommentSet(u2, o, n);
    SetTwice(u, n.name, Typed(o, n), Defaulted(t.name, o, n));
    SetTwice(u, n.name, Defaulted(t.name, o, n), AttrOf(Mssql, Settle(t.name, Some(o), n), false));
  }

  lemma TypedName(o: ColumnDef, n: ColumnDef)
    ensures Typed(o, n).defaultName == AttrOf(Mssql, o, false).defaultName
  {
  }

  lemma SameNameApart(t: Tbl, name: string, a: Attr)
    requires DefaultsApart(t.cols) && name in t.cols && a.defaultName == t.cols[name].attr.defaultName
    ensures DefaultsApart(WithAttr(t, name, a).cols)
  {
    ApartWith(t.cols, name, t.cols[name].(attr := a));
  }

  lemma AddedIsSettled(table: string, n: ColumnDef)
    ensures AddedAttr(Mssql, table, n) == AttrOf(Mssql, Settle(table, None, n), false).(comment := None)
  {
    hide TypeSql, Lower, NonBlank, NonEmpty, DefaultName;
    SettledType(table, None, n);
  }

  lemma AddGiven(t: Tbl, n: ColumnDef)
    requires Exec(Mssql, t, AddColumn(n, Anywhere)).Some?
    ensures var a := AddedAttr(Mssql, t.name, n);
      Exec(Mssql, t, AddColumn(n, Anywhere)) ==
        Some(t.(order := t.order + [n.name], cols := t.cols[n.name := Column(a, Fill(a, t.count))]))
  {
    hide AddedAttr, HasDefault, Fill, AttrOk;
  }

  lemma NoteGiven(t: Tbl, n: ColumnDef, a: Attr)
    requires n.name in t.cols && t.cols[n.name].attr == a.(comment := None) && a.comment == NonEmpty(n.comment)
    ensures Run(Mssql, CommentSteps(Mssql, n.name, None, n.comment), t) == Some(WithAttr(t, n.name, a))
  {
    hide NonEmpty, Run;
    var note, changes := SetComment(n.name, NonEmpty(n.comment)), CommentChange(None, n.comment);
    NoneIsEmpty();
    WhenIs(changes, note);
    RunWhen(Mssql, changes, note, t);
    assert t.cols[n.name := t.cols[n.name]] == t.cols;
  }

  lemma SettledComment(table: string, n: ColumnDef)
    ensures AttrOf(Mssql, Settle(table, None, n), false).comment == NonEmpty(n.comment)
  {
  }

  /** An added column's steps. */
  lemma AddSettles(t: Tbl, n: ColumnDef)
    requires Run(Mssql, [AddColumn(n, Anywhere)] + CommentSteps(Mssql, n.name, None, n.comment), t).Some?
    ensures var a := AttrOf(Mssql, Settle(t.name, None, n), false);
      Run(Mssql, [AddColumn(n, Anywhere)] + CommentSteps(Mssql, n.name, None, n.comment), t) ==
        Some(t.(order := t.order + [n.name], cols := t.cols[n.name := Column(a, Fill(a, t.count))]))
  {
    hide AttrOf, Settle, AddedAttr, CommentSteps, Exec, Run, Fill;
    var add := AddColumn(n, Anywhere);
    SplitRun(Mssql, [add], CommentSteps(Mssql, n.name, None, n.comment), t);
    OneRun(Mssql, add, t);
    AddGiven(t, n);
    var a := AttrOf(Mssql, Settle(t.name, None, n), false);
    AddedIsSettled(t.name, n);
    FillSame(a, t.count);
    SettledComment(t.name, n);
    var u := t.(order := t.order + [n.name], cols := t.cols[n.name := Column(a.(comment := None), Fill(a, t.count))]);
    NoteGiven(u, n, a);
    assert u.cols[n.name := Column(a, Fill(a, t.count))] == t.cols[n.name := Column(a, Fill(a, t.count))];
  }

  lemma AddsForColumns(n: ColumnDef)
    ensures ForColumns([AddColumn(n, Anywhere)] + CommentSteps(Mssql, n.name, None, n.comment))
  {
  }
}
