/** Small edits whose plan the engine refuses, or that leave something else than was designed. */
module DesignRefused {
  import opened Prelude
  import opened Engines
  import opened Design
  import opened DesignExec
  import opened DesignParts
  import opened DesignValid
  import opened DesignColumns
  import opened DesignMoves
  import opened DesignPostgres
  import opened DesignReferences
  import opened DesignPhases
  import opened DesignAdds
  import opened DesignReach
  import opened DesignAccepts
  import opened DesignFolds
  import opened DesignSqlite
  import opened DesignInPlace
  import opened DesignRebuild
  import opened DesignRebuildRun
  import opened DesignShortcut
  import opened DesignRefine
  import opened DesignExample

  // ------------------------------------------------------------------ small designs

  function Two(second: ColumnDef): TableDesign {
    Shaped("t", [Col(Some("a"), "a", true, None), second], [])
  }

  lemma TwoColumns(second: ColumnDef, q: string)
    ensures HasColumn(Two(second).columns, q) <==> q == "a" || q == second.name
  {
    var cs := Two(second).columns;
    assert cs[0].name == "a" && cs[1].name == second.name;
  }

  lemma TwoSound(second: ColumnDef)
    requires second.name == "b"
    ensures SoundTable(Two(second))
  {
    Letters();
    TwoColumns(second, "a");
    OneKey(Two(second).columns, "a");
  }

  /** Two versions of the second column. */
  lemma TwoFresh(o: ColumnDef, n: ColumnDef)
    requires o.name == "b" && n.name == "b" && n.original == Some("b")
    ensures Fresh(Two(o).columns, Two(n).columns) && SoundEdit(Two(o), Two(n))
  {
    hide HasColumn, SoundTable;
    Letters();
    TwoSound(o);
    TwoSound(n);
    TwoColumns(o, "a");
    TwoColumns(o, "b");
  }

  lemma TwoValid(d: TableDesign, second: ColumnDef)
    requires d.columns == Two(second).columns && d.name == "t" && d.primaryKey in {["a"], ["a", "b"]}
    requires second.name == "b" && second.dataType == "int"
    ensures Validate(d).Ok?
  {
    hide IsBlank, Lower, Validate;
    ValidMeans(d);
    NotBlank("t");
    NotBlank("a");
    NotBlank("b");
    IntNotBlank();
    LowerOne('a');
    LowerOne('b');
    assert d.columns[0].name == "a" && d.columns[1].name == "b";
    assert IsColumn(d, "a") && IsColumn(d, "b");
  }

  lemma TwoLookedUp(o: ColumnDef)
    requires o.name == "b"
    ensures Lookup(Two(o).columns, Some("a")) == Some(Two(o).columns[0]) && Lookup(Two(o).columns, Some("b")) == Some(o)
  {
    hide Lookup;
    Letters();
    LookupFinds(Two(o).columns, 0);
    LookupFinds(Two(o).columns, 1);
  }

  lemma BareApart(d: TableDesign)
    requires d.indexes == [] && d.checks == [] && d.primaryKeyName == Some("k")
    requires forall i :: 0 <= i < |d.foreignKeys| ==> d.foreignKeys[i].name != "k"
    ensures NamesApart(Dressed(d, TableOf(Postgres, d, map[], 0)))
  {
    hide ColumnsOf, BodyOfForeignKey;
    assert Bodies(IX, []) == map[] && Bodies(CK, []) == map[];
    BodiesKeys(FK, d.foreignKeys);
    NameSetAt(FK, d.foreignKeys, "k");
  }

  // ------------------------------------------------------------------ PostgreSQL: no identity, no NOT NULL

  function Counter(): ColumnDef {
    Col(Some("b"), "b", true, None).(autoIncrement := true)
  }

  function Plain(): ColumnDef {
    Col(Some("b"), "b", false, None)
  }

  lemma IntCounts()
    ensures Counts(Lower(TypeSql(Counter())))
  {
    hide Lower, TypeSql;
    IntIs(Counter());
  }

  lemma CounterColumns()
    ensures PgColumn(Counter()) && PgColumns(Two(Counter()).columns) && PgColumns(Two(Plain()).columns)
  {
    hide Counts, Lower, TypeSql, NonBlank, Typed;
    NoneBlankHere();
    IntCounts();
    IntIs(Counter());
    IntTyped();
    PlainColumn(Some("a"), "a", true, None);
    PlainColumn(Some("b"), "b", false, None);
  }

  lemma CounterReached()
    ensures Reached(Two(Counter()), Two(Plain())) == Two(Plain())
  {
    hide Counter, Plain;
  }

  lemma TwoPgSound(second: ColumnDef)
    requires PgColumns(Two(second).columns) && second.name == "b"
    ensures PgSound(Two(second))
  {
    hide NamesApart, Dressed, PgColumns, TableOf, Col;
    Letters();
    BareApart(Two(second));
    assert |"k"| == 1 && |""| == 0;
    FirstNotNull(second);
  }

  lemma FirstNotNull(second: ColumnDef)
    requires second.name == "b"
    ensures forall j :: 0 <= j < 2 && Two(second).columns[j].name in Two(second).primaryKey ==>
      Two(second).columns[j].notNull
  {
    Letters();
  }

  lemma CounterSound()
    ensures PgSound(Two(Counter())) && PgSound(Reached(Two(Counter()), Two(Plain())))
  {
    hide PgSound, PgColumns, Reached;
    CounterColumns();
    TwoPgSound(Counter());
    TwoPgSound(Plain());
    CounterReached();
  }

  lemma NotSafe()
    ensures !AllSafe(Two(Counter()), Two(Plain()))
  {
    hide Lookup, Counts, Lower, TypeSql, NonBlank;
    TwoLookedUp(Counter());
    var was, next := Two(Counter()), Two(Plain());
    assert !SafeEdit(Counter(), Plain());
    assert !SafeAt(was.columns, next.columns[1]);
  }

  lemma TwoGeneration(o: ColumnDef, n: ColumnDef)
    requires o.name == "b" && n.original == Some("b") && o.generated == n.generated
      && o.generatedStored == n.generatedStored
    ensures forall j :: 0 <= j < 2 ==> SameGeneration(Two(o).columns, Two(n).columns[j])
  {
    hide Lookup;
    TwoLookedUp(o);
  }

  lemma CounterPlanned(vals: map<string, seq<Value>>)
    requires "a" in vals && "b" in vals
    ensures Planned(Two(Counter()), Two(Plain()), vals)
  {
    hide SoundEdit, PgSound, KeysServed, Reached;
    TwoFresh(Counter(), Plain());
    CounterSound();
    NoReferences(Two(Counter()));
  }

  /** Ceasing to be an identity column and to be NOT NULL at once: the plan begins with the second, which is refused. */
  lemma IdentityIsNotNullable(vals: map<string, seq<Value>>, count: nat)
    requires "a" in vals && "b" in vals
    ensures AlterTable(Postgres, Two(Counter()), Two(Plain())).Ok? && !AllSafe(Two(Counter()), Two(Plain()))
    ensures Run(Postgres, AlterTable(Postgres, Two(Counter()), Two(Plain())).value.steps,
      TableOf(Postgres, Two(Counter()), vals, count)) == None
  {
    hide Run, AlterTable, TableOf, Validate, SoundEdit, Planned, AllSafe, SameGeneration, NameFree, NameUnshared,
      KeysLetGo,
      AddsAccepted;
    var was, next := Two(Counter()), Two(Plain());
    CounterPlanned(vals);
    TwoFresh(Counter(), Plain());
    TwoValid(next, Plain());
    TwoGeneration(Counter(), Plain());
    PostgresPlans(was, next);
    NotSafe();
    var r := PlanReaches(was, next, vals, count);
  }

  // ------------------------------------------------------------------ PostgreSQL: a table that refers to itself

  function Parent(): ForeignKeyDef {
    ForeignKeyDef(Some("f"), "f", ["b"], None, "t", ["a"], None, None)
  }

  function Strict(): ColumnDef {
    Col(Some("b"), "b", true, None)
  }

  function Tree(): TableDesign {
    Two(Strict()).(foreignKeys := [Parent()])
  }

  /** Its key made wider, its reference to itself kept. */
  function Wider(): TableDesign {
    Tree().(primaryKey := ["a", "b"])
  }

  lemma TreeColumns()
    ensures AllColumns(Tree().columns, ["a"]) && AllColumns(Tree().columns, ["b"])
      && AllColumns(Tree().columns, ["a", "b"])
  {
    hide HasColumn;
    TwoColumns(Strict(), "a");
    TwoColumns(Strict(), "b");
  }

  lemma TreeSound()
    ensures SoundEdit(Tree(), Wider())
  {
    hide HasColumn, AllColumns;
    TwoFresh(Strict(), Strict());
    TreeColumns();
  }

  lemma KeptParent()
    ensures Kept(FK, [Parent()], Parent()) && Unchanged(FK, [Parent()], Parent()) && OfTable(Tree(), "t", Parent())
  {
    hide Action, NonEmpty;
    assert [Parent()][0] == Parent();
    assert SameForeignKey(Parent(), Parent());
    NoneIsEmpty();
    assert NonEmpty(None) == None;
  }

  lemma TreeServed()
    ensures KeysServed(Postgres, Tree())
  {
    hide ColumnsOf, BodyOfForeignKey;
    var t := TableOf(Postgres, Tree(), map[], 0);
    assert [Parent()][1..] == [] && t.fks == map["f" := BodyOfForeignKey(Parent())];
    assert t.key.value.columns == ["a"];
    assert BodyOfForeignKey(Parent()).refColumns == ["a"] by { ParentBody(); }
    assert Served(Postgres, t.key, t.indexes, ["a"]);
  }

  lemma ParentBody()
    ensures BodyOfForeignKey(Parent()).refColumns == ["a"]
  {
  }

  lemma TreeReached()
    ensures Reached(Tree(), Wider()) == Wider()
  {
    hide Unchanged, OfTable;
    KeptParent();
    assert Reached(Tree(), Wider()).foreignKeys == [Parent()];
  }

  lemma TreeApart()
    ensures NamesApart(Dressed(Tree(), TableOf(Postgres, Tree(), map[], 0)))
      && NamesApart(Dressed(Wider(), TableOf(Postgres, Wider(), map[], 0)))
  {
    hide NamesApart, Dressed, TableOf;
    assert "f"[0] == 'f' && "k"[0] == 'k' && "f" != "k";
    BareApart(Tree());
    BareApart(Wider());
  }

  lemma TreeColumnsOk()
    ensures PgColumns(Two(Strict()).columns)
  {
    hide PgColumn, Col;
    PlainColumn(Some("a"), "a", true, None);
    PlainColumn(Some("b"), "b", true, None);
  }

  lemma TreePgSound()
    ensures PgSound(Tree()) && PgSound(Reached(Tree(), Wider()))
  {
    hide NamesApart, Dressed, PgColumns, Reached, TableOf;
    TreeColumnsOk();
    TreeReached();
    TreeApart();
    assert |"k"| == 1 && |""| == 0;
  }

  lemma KeyIsNeeded()
    ensures !KeysLetGo(Tree(), Wider())
  {
    hide Kept, OfTable, IndexesLetGo;
    KeptParent();
    var was, next := Tree(), Wider();
    assert was.foreignKeys[0] == Parent() && SameNames(["a"], was.foreignKeys[0].refColumns);
    assert KeyNeeded(was, next, ["a"]);
    assert |["a"]| != |["a", "b"]|;
  }

  lemma TreePlanned(vals: map<string, seq<Value>>)
    requires "a" in vals && "b" in vals
    ensures Planned(Tree(), Wider(), vals)
  {
    hide SoundEdit, PgSound, KeysServed, Reached;
    TreeSound();
    TreePgSound();
    TreeServed();
  }

  /** The key cannot go while a kept reference of the table to itself needs it. */
  lemma ReferencedKeyStays(vals: map<string, seq<Value>>, count: nat)
    requires "a" in vals && "b" in vals
    ensures AlterTable(Postgres, Tree(), Wider()).Ok? && !KeysLetGo(Tree(), Wider())
    ensures Run(Postgres, AlterTable(Postgres, Tree(), Wider()).value.steps, TableOf(Postgres, Tree(), vals, count)) ==
      None
  {
    hide Run, AlterTable, TableOf, Validate, SoundEdit, Planned, AllSafe, SameGeneration, NameFree, NameUnshared,
      KeysLetGo,
      AddsAccepted;
    var was, next := Tree(), Wider();
    TreePlanned(vals);
    TreeSound();
    TwoValid(next, Strict());
    TwoGeneration(Strict(), Strict());
    PostgresPlans(was, next);
    KeyIsNeeded();
    var r := PlanReaches(was, next, vals, count);
  }

  /** Renamed, the table takes its reference to itself along, and so is not the table designed. */
  lemma ReferenceFollows(vals: map<string, seq<Value>>, count: nat)
    ensures var next := Tree().(name := "u", originalName := Some("t"));
      TableOf(Postgres, Reached(Tree(), next), vals, count) != TableOf(Postgres, next, vals, count)
  {
    hide TableOf, SoundTable, Fresh, Unchanged, OfTable;
    var next := Tree().(name := "u", originalName := Some("t"));
    TreeSound();
    SoundNamed(Tree(), "u");
    SoundOriginal(Tree().(name := "u"), Some("t"));
    Letters();
    KeptParent();
    assert next.foreignKeys[0] == Parent();
    assert !ReferencesStay(Tree(), next);
    ReachesNext(Tree(), next, vals, count);
    assert next.(primaryKeyName := Reached(Tree(), next).primaryKeyName) == next;
  }

  lemma SoundOriginal(d: TableDesign, originalName: Option<string>)
    requires SoundTable(d)
    ensures SoundTable(d.(originalName := originalName))
  {
    hide NamesDistinct, AllColumns, IndexColumnsExist, Distinct;
  }

  // ------------------------------------------------------------------ PostgreSQL: a table called like its index

  /** The loaded example, renamed to the name of its index. */
  function Indexlike(): TableDesign {
    Was().(name := "i", originalName := Some("t"))
  }

  lemma OwnFresh()
    ensures Fresh(Was().columns, Was().columns)
  {
    hide HasColumn;
    Letters();
    Columns("a");
    Columns("b");
    Columns("c");
    assert Was().columns[0].name == "a" && Was().columns[1].name == "b" && Was().columns[2].name == "c";
  }

  lemma IndexlikeSound()
    ensures SoundEdit(Was(), Indexlike())
  {
    hide SoundTable, Fresh;
    SoundTables();
    OwnFresh();
    SoundNamed(Was(), "i");
    SoundOriginal(Was().(name := "i"), Some("t"));
  }

  lemma IndexlikePlanned(vals: map<string, seq<Value>>)
    requires "a" in vals && "b" in vals && "c" in vals
    ensures Planned(Was(), Indexlike(), vals)
  {
    hide SoundEdit, PgSound, KeysServed;
    IndexlikeSound();
    IsPgSound();
    NoReferences(Was());
    assert PgSound(Reached(Was(), Indexlike())) by { IndexlikePg(); }
  }

  lemma IndexlikePg()
    ensures PgSound(Reached(Was(), Indexlike()))
  {
    hide PgColumns, NamesApart, Dressed, TableOf;
    PgHere();
    KeyHere();
    Letters();
    ApartHere(Indexlike(), Indexlike().indexes[0]);
    assert |"k"| == 1 && |""| == 0;
    assert Reached(Was(), Indexlike()) == Indexlike();
  }

  lemma IndexlikeValid()
    ensures Validate(Indexlike()).Ok?
  {
    hide IsBlank, Lower, Validate, LowerDistinct, IsColumn, ColumnNamed, Col;
    IsValid();
    ValidMeans(Was());
    ValidMeans(Indexlike());
    NotBlank("i");
    KeyIsColumn();
    SameIsColumn(Was(), Indexlike(), "a");
  }

  lemma SameIsColumn(d: TableDesign, f: TableDesign, name: string)
    requires d.columns == f.columns
    ensures IsColumn(d, name) == IsColumn(f, name)
  {
  }

  lemma OwnGeneration()
    ensures forall j :: 0 <= j < 3 ==> SameGeneration(Was().columns, Was().columns[j])
  {
    hide Lookup;
    LookedUp();
    NamesApartHere();
    LookupFinds(Was().columns, 2);
  }

  /** On PostgreSQL a table cannot be renamed to the name of its own index. */
  lemma IndexNameIsTaken(vals: map<string, seq<Value>>, count: nat)
    requires "a" in vals && "b" in vals && "c" in vals
    ensures AlterTable(Postgres, Was(), Indexlike()).Ok? && !NameUnshared(Postgres, Was(), Indexlike())
    ensures Run(Postgres, AlterTable(Postgres, Was(), Indexlike()).value.steps,
      TableOf(Postgres, Was(), vals, count)) ==
      None
  {
    hide Run, AlterTable, TableOf, Validate, SoundEdit, Planned, AllSafe, SameGeneration, NameFree, KeysLetGo,
      AddsAccepted;
    IndexlikePlanned(vals);
    IndexlikeSound();
    IndexlikeValid();
    OwnGeneration();
    PostgresPlans(Was(), Indexlike());
    Letters();
    assert Was().indexes[0].name == "i" && "t"[0] == 't' && "i"[0] == 'i';
    var r := PlanReaches(Was(), Indexlike(), vals, count);
  }

  // ------------------------------------------------------------------ SQLite: a rename that changes case only

  /** A database of one table has its names to itself. */
  lemma AloneOpen(t: Tbl, next: TableDesign, name: string)
    ensures NamesOpen(map["t" := t], "t", next)
    ensures NameTaken(map["t" := t], name) <==> Lower("t") == Lower(name) || IndexLike(t, name)
  {
    hide Lower, IndexLike;
    var db := map["t" := t];
    if Lower("t") == Lower(name) || IndexLike(t, name) {
      assert "t" in db && db["t"] == t;
    }
  }

  lemma NotTemp(d: TableDesign, vals: map<string, seq<Value>>, count: nat, next: TableDesign)
    requires |next.name| == 1 && forall x :: x in d.indexes ==> |x.name| == 1
    ensures !NameTaken(map["t" := TableOf(Sqlite, d, vals, count)], TempName(next))
  {
    hide Lower, TableOf, IndexLike;
    AloneOpen(TableOf(Sqlite, d, vals, count), next, TempName(next));
    OneLetter("t", next);
    OwnIndexLike(d, vals, count, TempName(next));
    forall x | x in d.indexes
      ensures Lower(x.name) != Lower(TempName(next))
    {
      OneLetter(x.name, next);
    }
  }

  /** The same table, its name in capitals. */
  function Capital(): TableDesign {
    Two(Plain()).(name := "T", originalName := Some("t"))
  }

  lemma CapitalShortcut()
    ensures SoundEdit(Two(Plain()), Capital()) && Shortcut(Two(Plain()), Capital()) && Ordinary(Two(Plain()), Capital())
  {
    hide Lookup, Lower, TypeSql, SoundTable, Fresh;
    var was, n := Two(Plain()), Capital().columns;
    TwoFresh(Plain(), Plain());
    SoundNamed(was, "T");
    SoundOriginal(was.(name := "T"), Some("t"));
    TwoLookedUp(Plain());
    SameTypes(n[0], n[0]);
    assert SimpleColumn(was.columns, n[0]) && SimpleColumn(was.columns, n[1]);
    assert n[1..] == [n[1]] && n[1..][1..] == [];
    assert Originals(n[1..]) == ["b"];
    assert Originals(n) == ["a", "b"];
    assert StillThere(n[1..], ["a", "b"]) == ["b"];
    assert StillThere(n, ["a", "b"]) == ["a", "b"];
    assert FirstNew(n) == 2;
    assert n[0].original.Some?;
  }

  lemma CapitalCase()
    ensures Lower("T") == "t" && Lower("t") == "t" && "T" != "t"
    ensures NamesOfOneCase(Two(Plain())) && NamesOfOneCase(Capital()) && !RenameOk(Two(Plain()), Capital())
    ensures FreshInCase(Two(Plain()).columns, Capital().columns)
  {
    hide Lower;
    Letters();
    Lowered();
    LowerOne('T');
    assert "T"[0] == 'T' && "t"[0] == 't';
    assert RealTriggers([]) == [];
    var w := Two(Plain()).columns;
    assert w[0].name == "a" && w[1].name == "b";
  }

  lemma CapitalColumns()
    ensures ColumnsOk(Two(Plain()), Capital())
  {
    hide ColumnsOf, AttrOf;
    var was := Two(Plain());
    assert TableOf(Sqlite, was, map[], 0).indexes == map[];
  }

  lemma FreshApart(was: seq<ColumnDef>, news: seq<ColumnDef>)
    requires FreshInCase(was, news)
    ensures ColumnsOneCase(news)
  {
    hide Lower;
  }

  lemma CapitalSettings(vals: map<string, seq<Value>>, count: nat)
    requires "a" in vals && "b" in vals
    ensures var db := map["t" := TableOf(Sqlite, Two(Plain()), vals, count)];
      Alterable(Two(Plain()), Capital(), vals, count, db) && Rebuildable(Two(Plain()), Capital(), vals, count, db)
  {
    hide TableOf, SoundTable, Fresh, Shortcut, KeepsOne, NamesOfOneCase, FreshInCase, NamesOpen, NameTaken, TempName,
      Lower, RenameOk, ColumnsOneCase;
    var was, next := Two(Plain()), Capital();
    CapitalShortcut();
    CapitalCase();
    assert ColumnsOneCase(next.columns) by { FreshApart(was.columns, next.columns); }
    AloneOpen(TableOf(Sqlite, was, vals, count), next, TempName(next));
    NotTemp(was, vals, count, next);
    NoForeignKeys(was, vals, count, TempName(next));
  }

  /** SQLite refuses in place to change the case of a name only, where the rebuild does it. */
  lemma CaseIsNotChanged(vals: map<string, seq<Value>>, count: nat)
    requires "a" in vals && "b" in vals && OwnRows(Two(Plain()), vals)
    ensures var db := map["t" := TableOf(Sqlite, Two(Plain()), vals, count)];
      && Shortcut(Two(Plain()), Capital())
      && RunSql(db, false, InPlaceBody(Two(Plain()), Capital())) == None
      && RunSql(db, false, RebuildBody(Two(Plain()), Capital())).Some?
  {
    hide RunSql, InPlaceBody, RebuildBody, TableOf, Alterable, Rebuildable, OwnRows, ColumnsOk, RenameOk,
      NamesOfOneCase, Carried;
    CapitalSettings(vals, count);
    CapitalCase();
    CapitalColumns();
    CapitalShortcut();
    RenameDecides(Two(Plain()), Capital(), vals, count, map["t" := TableOf(Sqlite, Two(Plain()), vals, count)]);
  }

  // ------------------------------------------------------------------ SQLite: an indexed column dropped in place

  /** The loaded example without `b` and its index. */
  function Trimmed(): TableDesign {
    Shaped("t", [Col(Some("a"), "a", true, None), Col(Some("c"), "c", false, None)], [])
  }

  lemma TrimmedSound()
    ensures SoundEdit(Was(), Trimmed()) && OrderKept(Was(), Trimmed())
  {
    hide HasColumn, SoundTable;
    Letters();
    SoundTables();
    Columns("a");
    Columns("c");
    var n, w := Trimmed().columns, Was().columns;
    assert n[0].name == "a" && n[1].name == "c";
    assert HasColumn(n, "a") by { TwoColumns(n[1], "a"); }
    OneKey(n, "a");
    assert SoundTable(Trimmed()) by { TrimmedTable(); }
    assert n[1..] == [n[1]] && n[1..][1..] == [];
    assert Originals(n[1..]) == ["c"];
    assert Originals(n) == ["a", "c"];
    assert w[1..] == [w[1], w[2]] && w[1..][1..] == [w[2]] && w[1..][1..][1..] == [];
    assert StillThere([w[2]], ["a", "c"]) == ["c"];
    assert StillThere(w[1..], ["a", "c"]) == ["c"];
    assert StillThere(w, ["a", "c"]) == ["a", "c"];
    assert FirstNew(n) == 2;
  }

  lemma TrimmedTable()
    ensures SoundTable(Trimmed())
  {
    Letters();
    TwoColumns(Trimmed().columns[1], "a");
    OneKey(Trimmed().columns, "a");
  }

  lemma TrimmedShortcut()
    ensures Shortcut(Was(), Trimmed()) && Ordinary(Was(), Trimmed())
  {
    hide Lookup, Lower, TypeSql, OrderKept;
    TrimmedSound();
    LookedUp();
    NamesApartHere();
    LookupFinds(Was().columns, 2);
    var n := Trimmed().columns;
    SameTypes(Was().columns[0], n[0]);
    SameTypes(Was().columns[2], n[1]);
    assert SimpleColumn(Was().columns, n[0]) && SimpleColumn(Was().columns, n[1]);
    assert n[0].original.Some?;
  }

  lemma TrimmedCase()
    ensures NamesOfOneCase(Was()) && FreshInCase(Was().columns, Trimmed().columns)
  {
    hide Lower, NamesOfOneCase;
    CaseHere(false);
    Letters();
    Lowered();
    var w, n := Was().columns, Trimmed().columns;
    assert w[0].name == "a" && w[1].name == "b" && w[2].name == "c" && n[0].name == "a" && n[1].name == "c";
  }

  /** SQLite's plan drops the column before its index, so the statements are refused. */
  lemma IndexedColumnStays(vals: map<string, seq<Value>>, count: nat, enforced: bool)
    requires "a" in vals && "b" in vals && "c" in vals
    ensures Shortcut(Was(), Trimmed())
    ensures RunSql(map["t" := TableOf(Sqlite, Was(), vals, count)], enforced, InPlaceBody(Was(), Trimmed())) == None
  {
    hide RunSql, InPlaceBody, TableOf, SoundEdit, Shortcut, Ordinary, DropsFree, AddsOk, NamesOfOneCase, FreshInCase,
      NamesOpen, RenameOk;
    TrimmedSound();
    TrimmedShortcut();
    TrimmedCase();
    IndexInTheWay();
    AloneOpen(TableOf(Sqlite, Was(), vals, count), Trimmed(), "t");
    InPlaceRuns(Was(), Trimmed(), vals, count, map["t" := TableOf(Sqlite, Was(), vals, count)], enforced);
  }

  lemma IndexInTheWay()
    ensures !DropsFree(Was().columns, Trimmed().columns, TableOf(Sqlite, Was(), map[], 0))
  {
    hide ColumnsOf, IsKept;
    Letters();
    var t := TableOf(Sqlite, Was(), map[], 0);
    OneBody(Was().indexes[0]);
    assert t.indexes == map["i" := BodyOfIndex(Was().indexes[0])];
    assert t.indexes["i"].columns[0].name == "b";
    assert IndexUses(t.indexes["i"], "b");
    assert Was().columns[1].name == "b" && IndexedIn(t, "b");
    assert !IsKept(Trimmed().columns, "b") by { NotKeptHere(); }
  }

  lemma NotKeptHere()
    ensures !IsKept(Trimmed().columns, "b")
  {
    Letters();
    assert Trimmed().columns[0].original == Some("a") && Trimmed().columns[1].original == Some("c");
  }

  // ------------------------------------------------------------------ SQLite: a rebuild that copies nothing

  function Single(original: Option<string>, name: string): TableDesign {
    Shaped("t", [Col(original, name, true, Some("0"))], []).(primaryKey := [name])
  }

  lemma SingleSound(original: Option<string>, name: string)
    ensures SoundTable(Single(original, name))
  {
    var d := Single(original, name);
    assert d.columns[0].name == name;
    assert HasColumn(d.columns, name);
    OneKey(d.columns, name);
  }

  lemma NothingCopied()
    ensures CopiedPairs(Single(Some("a"), "a").columns, Single(None, "b").columns) == []
  {
    var was, cs := Single(Some("a"), "a").columns, Single(None, "b").columns;
    assert cs[1..] == [] && !IsCopied(was, cs[0]);
    assert CopiedPairs(was, cs[1..]) == [];
  }

  lemma SingleCase(original: Option<string>, name: string)
    ensures NamesOfOneCase(Single(original, name))
  {
    assert RealTriggers([]) == [];
  }

  /** The only column replaced by another: no shortcut, and the rebuild leaves no row. */
  lemma RowsAreLost(vals: map<string, seq<Value>>, count: nat)
    requires "a" in vals
    ensures var was, next := Single(Some("a"), "a"), Single(None, "b");
      !Shortcut(was, next)
      && RunSql(map["t" := TableOf(Sqlite, was, vals, count)], false, RebuildBody(was, next)) ==
        Some(map["t" := TableOf(Sqlite, next, map[], 0)])
  {
    hide RunSql, RebuildBody, TableOf, SoundTable, CopiedPairs, TempName, NamesOfOneCase, NamesOpen, NameTaken, Lower;
    var was, next := Single(Some("a"), "a"), Single(None, "b");
    Letters();
    assert was.primaryKey[0] != next.primaryKey[0];
    SingleSound(Some("a"), "a");
    SingleSound(None, "b");
    NothingCopied();
    SingleCase(None, "b");
    var db := map["t" := TableOf(Sqlite, was, vals, count)];
    AloneOpen(TableOf(Sqlite, was, vals, count), next, TempName(next));
    NotTemp(was, vals, count, next);
    NoForeignKeys(was, vals, count, TempName(next));
    RebuildRuns(was, next, vals, count, db);
    assert TableOf(Sqlite, next, map[], 0).name == "t" by { NamesOfTables(next, next, map[], 0); }
    assert Replacing(db, "t", TableOf(Sqlite, next, map[], 0)) == map["t" := TableOf(Sqlite, next, map[], 0)];
  }
}
