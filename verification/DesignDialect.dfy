/**
 An engine is only told what it has a statement for, and what a definition says
 of a type or a referential action can be read back from the text it is told.
 */
module DesignDialect {
  import opened Prelude
  import opened Numbers
  import opened Engines
  import opened Design
  import opened DesignSqlite

  // ------------------------------------------------------------------ statements

  /**
   The engine has a statement for the step: MySQL drops a check with DROP CHECK,
   MariaDB as a constraint; only they restate a whole column, and place it.
   */
  predicate Says(e: Engine, s: Step) {
    match s
    case DropConstraint(_) => e.Postgres? || e.Mssql? || e.Mariadb?
    case DropForeignKey(_) => e.Mysql? || e.Mariadb?
    case DropCheck(_) => e.Mysql?
    case DropPrimaryKey => e.Mysql? || e.Mariadb?
    case DropDefault(_) => e.Mssql?
    case AddColumn(_, position) => position.Anywhere? || e.Mysql? || e.Mariadb?
    case RenameColumn(_, _) => e.Postgres? || e.Mssql? || e.Sqlite?
    case ChangeColumn(_, _, _) => e.Mysql? || e.Mariadb?
    case SetType(_, _, _) => e.Postgres?
    case SetNotNull(_, _) => e.Postgres?
    case SetDefault(_, _) => e.Postgres?
    case SetIdentity(_, _) => e.Postgres?
    case SetComment(_, _) => e.Postgres? || e.Mssql?
    case AlterColumn(_, _, _, _) => e.Mssql?
    case AddDefault(_, _) => e.Mssql?
    case AddPrimaryKey(name, _) => !e.Sqlite? && (name.Some? ==> e.Postgres? || e.Mssql?)
    case AddCheck(_) => !e.Sqlite?
    case AddForeignKey(_) => !e.Sqlite?
    case SetTableComment(_) => e.Postgres? || e.Mssql?
    case SetOptions(_, _) => e.Mysql? || e.Mariadb?
    case _ => true
  }

  predicate AllSaid(e: Engine, steps: seq<Step>) {
    forall i :: 0 <= i < |steps| ==> Says(e, steps[i])
  }

  lemma SaidBoth(e: Engine, a: seq<Step>, b: seq<Step>)
    requires AllSaid(e, a) && AllSaid(e, b)
    ensures AllSaid(e, a + b)
  {
    hide Says;
  }

  lemma SaidWhen(e: Engine, b: bool, s: Step)
    requires b ==> Says(e, s)
    ensures AllSaid(e, When(b, s))
  {
    hide Says;
  }

  /** The engines that alter a table statement by statement. */
  predicate Alters(e: Engine) {
    e.Postgres? || e.Mssql? || e.Mysql? || e.Mariadb?
  }

  lemma {:induction false} ForeignKeysSaid(e: Engine, xs: seq<ForeignKeyDef>)
    requires Alters(e)
    ensures AllSaid(e, DropForeignKeys(e, xs)) && AllSaid(e, AddForeignKeys(xs))
  {
    if xs != [] {
      ForeignKeysSaid(e, xs[1..]);
    }
  }

  lemma {:induction false} IndexesSaid(e: Engine, xs: seq<IndexDef>)
    requires Alters(e) || e.Sqlite?
    ensures AllSaid(e, DropIndexes(e, xs)) && AllSaid(e, AddIndexes(xs))
  {
    if xs != [] {
      IndexesSaid(e, xs[1..]);
    }
  }

  lemma {:induction false} ChecksSaid(e: Engine, xs: seq<CheckDef>)
    requires Alters(e)
    ensures AllSaid(e, DropChecks(e, xs)) && AllSaid(e, AddChecks(xs))
  {
    if xs != [] {
      ChecksSaid(e, xs[1..]);
    }
  }

  lemma TriggersSaid(e: Engine, xs: seq<TriggerDef>)
    ensures AllSaid(e, DropTriggers(xs)) && AllSaid(e, AddTriggers(xs)) && AllSaid(e, AddTriggerTexts(xs))
  {
    hide AllSaid, DropTriggers, AddTriggers, AddTriggerTexts;
    TriggerDropsSaid(e, xs);
    TriggerAddsSaid(e, xs);
    TriggerTextsSaid(e, xs);
  }

  lemma {:induction false} TriggerDropsSaid(e: Engine, xs: seq<TriggerDef>)
    ensures AllSaid(e, DropTriggers(xs))
  {
    if xs != [] {
      TriggerDropsSaid(e, xs[1..]);
    }
  }

  lemma {:induction false} TriggerAddsSaid(e: Engine, xs: seq<TriggerDef>)
    ensures AllSaid(e, AddTriggers(xs))
  {
    hide IsBlank;
    if xs != [] {
      TriggerAddsSaid(e, xs[1..]);
    }
  }

  lemma {:induction false} TriggerTextsSaid(e: Engine, xs: seq<TriggerDef>)
    ensures AllSaid(e, AddTriggerTexts(xs))
  {
    if xs != [] {
      TriggerTextsSaid(e, xs[1..]);
    }
  }

  lemma {:induction false} ColumnDropsSaid(e: Engine, olds: seq<ColumnDef>, news: seq<ColumnDef>)
    ensures AllSaid(e, DropColumns(e, olds, news))
  {
    hide IsKept;
    if olds != [] {
      ColumnDropsSaid(e, olds[1..], news);
    }
  }

  lemma {:induction false} AddOrRenameSaid(cs: seq<ColumnDef>)
    ensures AllSaid(Sqlite, AddOrRename(cs))
  {
    if cs != [] {
      AddOrRenameSaid(cs[1..]);
    }
  }

  lemma AlterMysqlSaid(e: Engine, o: ColumnDef, n: ColumnDef, p: Position)
    requires e.Mysql? || e.Mariadb?
    ensures AllSaid(e, AlterMysql(o, n, p))
  {
    hide SameDefinition;
  }

  lemma CommentSaid(e: Engine, name: string, was: Option<string>, next: Option<string>)
    ensures AllSaid(e, CommentSteps(e, name, was, next))
  {
    hide CommentChange, NonEmpty;
  }

  lemma AlterPostgresSaid(o: ColumnDef, n: ColumnDef)
    requires AlterPostgres(o, n).Ok?
    ensures AllSaid(Postgres, AlterPostgres(o, n).value)
  {
    var e := Postgres;
    var a, b := When(o.name != n.name, RenameColumn(o.name, n.name)),
      When(!SameType(o, n), SetType(n.name, TypeSql(n), NonEmpty(n.collation)));
    var c, d := When(o.notNull != n.notNull, SetNotNull(n.name, n.notNull)),
      When(o.initial != n.initial, SetDefault(n.name, NonBlank(n.initial)));
    var f, g := When(o.autoIncrement != n.autoIncrement, SetIdentity(n.name, n.autoIncrement)),
      CommentSteps(e, n.name, o.comment, n.comment);
    SaidWhen(e, o.name != n.name, RenameColumn(o.name, n.name));
    SaidWhen(e, !SameType(o, n), SetType(n.name, TypeSql(n), NonEmpty(n.collation)));
    SaidWhen(e, o.notNull != n.notNull, SetNotNull(n.name, n.notNull));
    SaidWhen(e, o.initial != n.initial, SetDefault(n.name, NonBlank(n.initial)));
    SaidWhen(e, o.autoIncrement != n.autoIncrement, SetIdentity(n.name, n.autoIncrement));
    CommentSaid(e, n.name, o.comment, n.comment);
    hide Says, AllSaid, When, SameType, TypeSql, NonEmpty, NonBlank, CommentSteps;
    SaidBoth(e, a, b);
    SaidBoth(e, a + b, c);
    SaidBoth(e, a + b + c, d);
    SaidBoth(e, a + b + c + d, f);
    SaidBoth(e, a + b + c + d + f, g);
  }

  lemma AlterMssqlSaid(o: ColumnDef, n: ColumnDef)
    requires AlterMssql(o, n).Ok?
    ensures AllSaid(Mssql, AlterMssql(o, n).value)
  {
    hide SameType, CommentSteps, NonEmpty, NonBlank, TypeSql;
    var e := Mssql;
    var a, b := When(o.name != n.name, RenameColumn(o.name, n.name)),
      When(!SameType(o, n) || o.notNull != n.notNull,
        AlterColumn(n.name, TypeSql(n), NonEmpty(n.collation), n.notNull));
    var c := if o.initial == n.initial then []
      else (if o.defaultConstraint.Some? then [DropDefault(o.defaultConstraint.value)] else [])
           + (if NonBlank(n.initial).Some? then [AddDefault(n.name, NonBlank(n.initial).value)] else []);
    assert AllSaid(e, a) && AllSaid(e, b) && AllSaid(e, c);
    CommentSaid(e, n.name, o.comment, n.comment);
    hide Says, AllSaid, When;
    SaidBoth(e, a, b);
    SaidBoth(e, a + b, c);
    SaidBoth(e, a + b + c, CommentSteps(e, n.name, o.comment, n.comment));
  }

  lemma ColumnSaid(e: Engine, was: seq<ColumnDef>, news: seq<ColumnDef>, pos: nat)
    requires Alters(e) && pos < |news| && ColumnSteps(e, was, news, pos).Ok?
    ensures AllSaid(e, ColumnSteps(e, was, news, pos).value)
  {
    hide Lookup, CommentSteps, AlterMysql, AlterPostgres, AlterMssql, OldPrevious;
    var n, p, loaded := news[pos], MysqlPosition(e, was, news, pos), Lookup(was, news[pos].original);
    assert !(e.Mysql? || e.Mariadb?) ==> p.Anywhere?;
    hide MysqlPosition;
    if loaded.None? {
      CommentSaid(e, n.name, None, n.comment);
    } else if e.Postgres? {
      AlterPostgresSaid(loaded.value, n);
    } else if e.Mssql? {
      AlterMssqlSaid(loaded.value, n);
    } else {
      AlterMysqlSaid(e, loaded.value, n, p);
    }
  }

  lemma {:induction false} ColumnsSaid(e: Engine, was: seq<ColumnDef>, news: seq<ColumnDef>, pos: nat)
    requires Alters(e) && pos <= |news| && AlterColumns(e, was, news, pos).Ok?
    ensures AllSaid(e, AlterColumns(e, was, news, pos).value)
    decreases |news| - pos
  {
    hide ColumnSteps, Says;
    if pos < |news| {
      ColumnSaid(e, was, news, pos);
      ColumnsSaid(e, was, news, pos + 1);
      SaidBoth(e, ColumnSteps(e, was, news, pos).value, AlterColumns(e, was, news, pos + 1).value);
    }
  }

  lemma KeySaid(e: Engine, was: TableDesign, next: TableDesign)
    requires Alters(e)
    ensures DropKey(e, was, next).Ok? ==> AllSaid(e, DropKey(e, was, next).value)
    ensures AllSaid(e, AddKey(e, was, next)) && AllSaid(e, TableComment(e, was, next))
  {
    hide NonEmpty, CommentChange;
  }

  lemma PartsSaid(e: Engine, was: TableDesign, next: TableDesign)
    requires Alters(e)
    ensures AllSaid(e, DropParts(e, was, next)) && AllSaid(e, AddParts(e, was, next))
  {
    hide Says, AllSaid, Removed, Added, DropForeignKeys, DropIndexes, DropChecks, DropTriggers, AddForeignKeys,
      AddIndexes,
      AddChecks, AddTriggers, AddKey;
    var fks, ixs := Removed(FK, was.foreignKeys, next.foreignKeys), Removed(IX, was.indexes, next.indexes);
    var cks, trs := Removed(CK, was.checks, next.checks), Removed(TR, was.triggers, next.triggers);
    ForeignKeysSaid(e, fks);
    IndexesSaid(e, ixs);
    ChecksSaid(e, cks);
    TriggersSaid(e, trs);
    SaidBoth(e, DropForeignKeys(e, fks), DropIndexes(e, ixs));
    SaidBoth(e, DropForeignKeys(e, fks) + DropIndexes(e, ixs), DropChecks(e, cks));
    SaidBoth(e, DropForeignKeys(e, fks) + DropIndexes(e, ixs) + DropChecks(e, cks), DropTriggers(trs));
    KeySaid(e, was, next);
    AddedSaid(e, AddKey(e, was, next), Added(CK, was.checks, next.checks), Added(IX, was.indexes, next.indexes),
      Added(FK, was.foreignKeys, next.foreignKeys), Added(TR, was.triggers, next.triggers));
  }

  lemma AddedSaid(e: Engine, key: seq<Step>, cks: seq<CheckDef>, ixs: seq<IndexDef>, fks: seq<ForeignKeyDef>,
    trs: seq<TriggerDef>)
    requires Alters(e) && AllSaid(e, key)
    ensures AllSaid(e, key + AddChecks(cks) + AddIndexes(ixs) + AddForeignKeys(fks) + AddTriggers(trs))
  {
    hide Says, AllSaid, AddForeignKeys, AddIndexes, AddChecks, AddTriggers;
    ChecksSaid(e, cks);
    IndexesSaid(e, ixs);
    ForeignKeysSaid(e, fks);
    TriggersSaid(e, trs);
    SaidBoth(e, key, AddChecks(cks));
    SaidBoth(e, key + AddChecks(cks), AddIndexes(ixs));
    SaidBoth(e, key + AddChecks(cks) + AddIndexes(ixs), AddForeignKeys(fks));
    SaidBoth(e, key + AddChecks(cks) + AddIndexes(ixs) + AddForeignKeys(fks), AddTriggers(trs));
  }

  /** Every step of a plan is one its engine has a statement for. */
  lemma PlanIsSaid(e: Engine, was: TableDesign, next: TableDesign)
    requires Alters(e) && AlterTable(e, was, next).Ok?
    ensures AllSaid(e, AlterTable(e, was, next).value.steps)
  {
    hide Says, AllSaid, DropParts, AddParts, DropKey, DropColumns, AlterColumns, TableComment, Validate, OldName, When;
    var head := When(OldName(was, next) != next.name, RenameTable(next.name));
    var drops, key := DropParts(e, was, next), DropKey(e, was, next).value;
    var gone, columns := DropColumns(e, was.columns, next.columns), AlterColumns(e, was.columns, next.columns, 0).value;
    assert Says(e, RenameTable(next.name)) by { RenameSaid(e, next.name); }
    SaidWhen(e, OldName(was, next) != next.name, RenameTable(next.name));
    PartsSaid(e, was, next);
    KeySaid(e, was, next);
    ColumnDropsSaid(e, was.columns, next.columns);
    ColumnsSaid(e, was.columns, next.columns, 0);
    SaidBoth(e, head, drops);
    SaidBoth(e, head + drops, key);
    SaidBoth(e, head + drops + key, gone);
    SaidBoth(e, head + drops + key + gone, columns);
    SaidBoth(e, head + drops + key + gone + columns, AddParts(e, was, next));
    SaidBoth(e, head + drops + key + gone + columns + AddParts(e, was, next), TableComment(e, was, next));
  }

  lemma RenameSaid(e: Engine, to: string)
    ensures Says(e, RenameTable(to))
  {
  }

  /** So is every step SQLite takes on a table, in place or after a rebuild. */
  lemma SqliteIsSaid(was: TableDesign, next: TableDesign)
    ensures AllSaid(Sqlite, InPlaceSteps(was, next))
    ensures AllSaid(Sqlite, AddIndexes(next.indexes) + AddTriggers(next.triggers))
  {
    hide Says, AllSaid, Removed, Added, DropIndexes, DropTriggers, AddIndexes, AddTriggers, AddTriggerTexts,
      DropColumns,
      AddOrRename;
    var e := Sqlite;
    var a, b := DropColumns(e, was.columns, next.columns), AddOrRename(next.columns);
    var ixs, added := Removed(IX, was.indexes, next.indexes), Added(IX, was.indexes, next.indexes);
    var trs, texts := Removed(TR, was.triggers, next.triggers), Added(TR, was.triggers, next.triggers);
    ColumnDropsSaid(e, was.columns, next.columns);
    AddOrRenameSaid(next.columns);
    IndexesSaid(e, ixs);
    IndexesSaid(e, added);
    TriggersSaid(e, trs);
    TriggersSaid(e, texts);
    SaidBoth(e, a, b);
    SaidBoth(e, a + b, DropIndexes(e, ixs));
    SaidBoth(e, a + b + DropIndexes(e, ixs), AddIndexes(added));
    SaidBoth(e, a + b + DropIndexes(e, ixs) + AddIndexes(added), DropTriggers(trs));
    SaidBoth(e, a + b + DropIndexes(e, ixs) + AddIndexes(added) + DropTriggers(trs), AddTriggerTexts(texts));
    IndexesSaid(e, next.indexes);
    TriggersSaid(e, next.triggers);
    SaidBoth(e, AddIndexes(next.indexes), AddTriggers(next.triggers));
  }

  // ------------------------------------------------------------------ triggers on SQLite

  lemma {:induction false} OnHas(table: string, steps: seq<Step>, s: Step)
    ensures OnTable(table, s) in On(table, steps) <==> s in steps
  {
    if steps != [] {
      OnHas(table, steps[1..], s);
    }
  }

  lemma {:induction false} TextsHave(xs: seq<TriggerDef>, x: TriggerDef)
    ensures AddTrigger(x) in AddTriggerTexts(xs) <==> x in xs
    ensures AddTrigger(x) in AddTriggers(xs) <==> x in xs && !IsBlank(x.definition)
  {
    hide IsBlank;
    if xs != [] {
      TextsHave(xs[1..], x);
    }
  }

  lemma {:induction false} IndexesHave(xs: seq<IndexDef>, x: TriggerDef)
    ensures AddTrigger(x) !in AddIndexes(xs)
  {
    if xs != [] {
      IndexesHave(xs[1..], x);
    }
  }

  /** In place every trigger added is sent, blank or not; a rebuild sends just those that are not. */
  lemma TriggersSent(was: TableDesign, next: TableDesign, x: TriggerDef)
    ensures x in Added(TR, was.triggers, next.triggers) ==> OnTable(next.name, AddTrigger(x)) in InPlaceBody(was, next)
    ensures OnTable(next.name, AddTrigger(x)) in RebuildBody(was, next) <==>
      x in next.triggers && !IsBlank(x.definition)
  {
    hide IsBlank, Removed, Added, DropIndexes, DropTriggers, AddIndexes, AddTriggers, AddTriggerTexts, DropColumns,
      AddOrRename, On, CopiedPairs, OldName;
    var added := Added(TR, was.triggers, next.triggers);
    TextsHave(added, x);
    OnHas(next.name, InPlaceSteps(was, next), AddTrigger(x));
    TextsHave(next.triggers, x);
    IndexesHave(next.indexes, x);
    OnHas(next.name, AddIndexes(next.indexes) + AddTriggers(next.triggers), AddTrigger(x));
  }

  // ------------------------------------------------------------------ types

  /** A type as an engine reads it: its name, and a length and a scale in brackets. */
  datatype Type = Type(name: string, length: Option<nat>, scale: Option<nat>)

  function ReadType(s: string): Option<Type> {
    match Find(s, "(")
    case None => Some(Type(s, None, None))
    case Some(open) =>
      if s[|s| - 1] != ')' then None
      else
        var inner := s[open + 1..|s| - 1];
        match Find(inner, ",")
        case None =>
          var length := ReadNumber(inner);
          if length.None? then None else Some(Type(s[..open], length, None))
        case Some(comma) =>
          var length, scale := ReadNumber(inner[..comma]), ReadNumber(inner[comma + 1..]);
          if length.None? || scale.None? then None else Some(Type(s[..open], length, scale))
  }

  lemma SignFound(a: string, sign: char, b: string)
    requires sign !in a
    ensures Find(a + [sign] + b, [sign]) == Some(|a|)
  {
    hide Find;
    var s := a + [sign] + b;
    assert s[|a|..] == [sign] + b;
    forall j | 0 <= j < |a|
      ensures !([sign] <= s[j..])
    {
      assert s[j..][0] == a[j];
    }
  }

  lemma SignAbsent(a: string, sign: char)
    requires sign !in a
    ensures Find(a, [sign]).None?
  {
    hide Find;
    forall j | 0 <= j <= |a|
      ensures !([sign] <= a[j..])
    {
      if j < |a| {
        assert a[j..][0] == a[j];
      }
    }
  }

  lemma {:induction false} NoSignInNumber(n: nat, sign: char)
    requires sign == ',' || sign == '('
    ensures sign !in Number(n)
    decreases n
  {
    if n >= 10 {
      NoSignInNumber(n / 10, sign);
    }
  }

  lemma ReadInner(name: string, inner: string)
    requires '(' !in name
    ensures var s := name + "(" + inner + ")";
      Find(s, "(") == Some(|name|) && s[..|name|] == name && s[|name| + 1..|s| - 1] == inner && s[|s| - 1] == ')'
  {
    hide Find;
    var s := name + "(" + inner + ")";
    assert s == name + "(" + (inner + ")");
    SignFound(name, '(', inner + ")");
  }

  /** The engine reads the type, length and scale of the design; a scale without a length is not written. */
  lemma TypeReadsBack(c: ColumnDef)
    requires '(' !in c.dataType
    ensures ReadType(TypeSql(c)) == Some(Type(Trim(c.dataType), c.length, if c.length.Some? then c.scale else None))
  {
    hide Find, Number, ReadNumber, Trim;
    var name := Trim(c.dataType);
    TrimHolds(c.dataType, '(');
    match c.length {
      case None =>
        SignAbsent(name, '(');
        assert TypeSql(c) == name;
      case Some(l) =>
        NumberReads(l);
        NoSignInNumber(l, ',');
        match c.scale {
          case None =>
            assert TypeSql(c) == name + "(" + Number(l) + ")";
            ReadInner(name, Number(l));
            SignAbsent(Number(l), ',');
          case Some(k) =>
            var inner := Number(l) + "," + Number(k);
            assert TypeSql(c) == name + "(" + inner + ")";
            ReadInner(name, inner);
            NumberReads(k);
            SignFound(Number(l), ',', Number(k));
            assert inner[..|Number(l)|] == Number(l) && inner[|Number(l)| + 1..] == Number(k);
        }
    }
  }

  lemma TrimHolds(s: string, c: char)
    requires c !in s
    ensures c !in Trim(s)
  {
    hide LeadSpace, SolidLen;
  }

  // ------------------------------------------------------------------ referential actions

  predicate SameWord(a: string, b: string) {
    |a| == |b| && forall i :: 0 <= i < |a| ==> UpperChar(a[i]) == UpperChar(b[i])
  }

  lemma {:induction false} UpperMeans(a: string, b: string)
    ensures Upper(a) == Upper(b) <==> SameWord(a, b)
  {
    if a != "" && b != "" {
      UpperMeans(a[1..], b[1..]);
      assert Upper(a)[0] == UpperChar(a[0]) && Upper(a)[1..] == Upper(a[1..]);
      assert Upper(b)[0] == UpperChar(b[0]) && Upper(b)[1..] == Upper(b[1..]);
      assert Upper(a) == [Upper(a)[0]] + Upper(a)[1..] && Upper(b) == [Upper(b)[0]] + Upper(b)[1..];
      if SameWord(a[1..], b[1..]) && UpperChar(a[0]) == UpperChar(b[0]) {
        forall i | 0 <= i < |a|
          ensures UpperChar(a[i]) == UpperChar(b[i])
        {
          if i > 0 {
            assert a[1..][i - 1] == a[i] && b[1..][i - 1] == b[i];
          }
        }
      }
    }
  }

  /** No action, spelt out or not. */
  predicate NoAction(s: Option<string>) {
    s.None? || SameWord(s.value, "NO ACTION")
  }

  /**
   Two definitions of a foreign key are taken for the same exactly when they agree,
   where actions agree if neither is one, or they are the same word, case aside.
   */
  lemma ForeignKeySame(a: ForeignKeyDef, b: ForeignKeyDef)
    ensures SameForeignKey(a, b) <==>
      && a.name == b.name && a.columns == b.columns && a.refSchema == b.refSchema && a.refTable == b.refTable
      && a.refColumns == b.refColumns
      && ActionsAgree(a.onDelete, b.onDelete) && ActionsAgree(a.onUpdate, b.onUpdate)
  {
    hide Action, ActionsAgree;
    ActionMeans(a.onDelete, b.onDelete);
    ActionMeans(a.onUpdate, b.onUpdate);
  }

  predicate ActionsAgree(a: Option<string>, b: Option<string>) {
    if NoAction(a) || NoAction(b) then NoAction(a) && NoAction(b) else SameWord(a.value, b.value)
  }

  lemma ActionMeans(a: Option<string>, b: Option<string>)
    ensures Action(a) == Action(b) <==> ActionsAgree(a, b)
    ensures Action(a).None? <==> NoAction(a)
    ensures Action(a).Some? ==> SameWord(Action(a).value, a.value)
  {
    hide Upper, SameWord;
    UpperFixed("NO ACTION");
    NoActionIs(a);
    NoActionIs(b);
    if a.Some? && b.Some? {
      UpperMeans(a.value, b.value);
    }
    if a.Some? {
      UpperAgain(a.value);
    }
  }

  lemma NoActionIs(a: Option<string>)
    ensures a.Some? ==> (Upper(a.value) == "NO ACTION" <==> SameWord(a.value, "NO ACTION"))
  {
    hide Upper, SameWord;
    if a.Some? {
      UpperFixed("NO ACTION");
      UpperMeans(a.value, "NO ACTION");
    }
  }

  lemma {:induction false} UpperFixed(s: string)
    requires forall i :: 0 <= i < |s| ==> UpperChar(s[i]) == s[i]
    ensures Upper(s) == s
  {
    if s != "" {
      UpperFixed(s[1..]);
    }
  }

  lemma {:induction false} UpperAgain(s: string)
    ensures SameWord(Upper(s), s)
  {
    if s != "" {
      UpperAgain(s[1..]);
      forall i | 0 <= i < |s|
        ensures UpperChar(Upper(s)[i]) == UpperChar(s[i])
      {
        if i > 0 {
          assert s[1..][i - 1] == s[i] && Upper(s)[i] == Upper(s[1..])[i - 1];
        }
      }
    }
  }
}
