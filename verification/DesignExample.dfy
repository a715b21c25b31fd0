/**
 The settings of the main results can be met: one edit that renames, drops, adds and
 re-indexes, on PostgreSQL and on SQLite.
 */
module DesignExample {
  import opened Prelude
  import opened Engines
  import opened Design
  import opened DesignExec
  import opened DesignParts
  import opened DesignValid
  import opened DesignColumns
  import opened DesignMoves
  import opened DesignPostgres
  import opened DesignReferences
  import opened DesignPhases
  import opened DesignAdds
  import opened DesignReach
  import opened DesignAccepts
  import opened DesignFolds
  import opened DesignSqlite
  import opened DesignInPlace
  import opened DesignRebuild
  import opened DesignRebuildRun
  import opened DesignShortcut
  import opened DesignRefine

  function Col(original: Option<string>, name: string, notNull: bool, initial: Option<string>): ColumnDef {
    ColumnDef(original, name, "int", None, None, notNull, initial, false, None, None, false, None, None, false, None)
  }

  function Index(original: Option<string>, name: string, column: string): IndexDef {
    IndexDef(original, name, [IndexColumn(column, false, None)], false, false, None, None, None)
  }

  function Shaped(name: string, columns: seq<ColumnDef>, indexes: seq<IndexDef>): TableDesign {
    TableDesign(None, None, name, columns, ["a"], Some("k"), indexes, [], [], [], None,
      TableOptions(None, None, None, None))
  }

  /** As loaded: a key `a`, two more columns, an index on the second. */
  function Was(): TableDesign {
    Shaped("t", [Col(Some("a"), "a", true, None), Col(Some("b"), "b", false, None), Col(Some("c"), "c", false, None)],
      [Index(Some("i"), "i", "b")])
  }

  /** As edited: `b` renamed to `d` and indexed anew, `c` dropped, `e` added. */
  function Next(): TableDesign {
    Shaped("t", [Col(Some("a"), "a", true, None), Col(Some("b"), "d", false, None), Col(None, "e", true, Some("0"))],
      [Index(None, "j", "d")]).(originalName := Some("t"))
  }

  lemma Letters()
    ensures "a" != "b" && "a" != "c" && "a" != "d" && "a" != "e" && "b" != "c" && "b" != "d" && "b" != "e" && "c" != "d"
      && "c" != "e" && "d" != "e"
    ensures "i" != "j" && "i" != "k" && "j" != "k" && "t" != "u" && "t" != "o" && "u" != "o"
  {
    assert "a"[0] == 'a' && "b"[0] == 'b' && "c"[0] == 'c' && "d"[0] == 'd' && "e"[0] == 'e';
    assert "i"[0] == 'i' && "j"[0] == 'j' && "k"[0] == 'k' && "t"[0] == 't' && "u"[0] == 'u' && "o"[0] == 'o';
  }

  lemma Columns(q: string)
    ensures HasColumn(Was().columns, q) <==> q == "a" || q == "b" || q == "c"
    ensures HasColumn(Next().columns, q) <==> q == "a" || q == "d" || q == "e"
  {
    var w, n := Was().columns, Next().columns;
    assert w[0].name == "a" && w[1].name == "b" && w[2].name == "c";
    assert n[0].name == "a" && n[1].name == "d" && n[2].name == "e";
  }

  lemma NamesApartHere()
    ensures NamesDistinct(Was().columns) && NamesDistinct(Next().columns)
  {
    Letters();
  }

  lemma FreshHere()
    ensures Fresh(Was().columns, Next().columns)
  {
    hide HasColumn;
    Letters();
    Columns("a");
    Columns("b");
    Columns("d");
    Columns("e");
  }

  lemma OneIndex(cs: seq<ColumnDef>, x: IndexDef, column: string)
    requires x.columns == [IndexColumn(column, false, None)] && HasColumn(cs, column)
    ensures IndexColumnsExist(cs, x)
  {
    hide HasColumn;
  }

  lemma OneKey(cs: seq<ColumnDef>, column: string)
    requires HasColumn(cs, column)
    ensures AllColumns(cs, [column])
  {
    hide HasColumn;
  }

  lemma SoundTables()
    ensures SoundTable(Was()) && SoundTable(Next())
  {
    hide HasColumn, NamesDistinct, IndexColumnsExist, AllColumns;
    NamesApartHere();
    Columns("a");
    Columns("b");
    Columns("d");
    OneIndex(Was().columns, Was().indexes[0], "b");
    OneIndex(Next().columns, Next().indexes[0], "d");
    OneKey(Was().columns, "a");
    OneKey(Next().columns, "a");
  }

  lemma IsSound()
    ensures SoundEdit(Was(), Next())
  {
    hide SoundTable, Fresh;
    SoundTables();
    FreshHere();
  }

  lemma NotBlank(s: string)
    requires s != "" && !IsTrimSpace(s[0])
    ensures !IsBlank(s)
  {
    assert LeadSpace(s) == 0;
    assert TrimStart(s) == s;
    if SolidLen(s) == 0 {
      assert false;
    }
  }

  lemma ColumnOk(original: Option<string>, c: char, notNull: bool, initial: Option<string>)
    requires !IsTrimSpace(c)
    ensures ColumnNamed(Col(original, [c], notNull, initial))
  {
    hide IsBlank, IsTrimSpace;
    NotBlank([c]);
    IntNotBlank();
  }

  lemma IntNotBlank()
    ensures !IsBlank("int")
  {
    NotBlank("int");
  }

  lemma LowerHere()
    ensures LowerDistinct(Was().columns) && LowerDistinct(Next().columns)
  {
    hide Lower;
    LowerOne('a');
    LowerOne('b');
    LowerOne('c');
    LowerOne('d');
    LowerOne('e');
  }

  lemma KeyIsColumn()
    ensures IsColumn(Was(), "a") && IsColumn(Next(), "a")
  {
    assert Was().columns[0].name == "a" && Next().columns[0].name == "a";
  }

  lemma IsValid()
    ensures Validate(Was()).Ok? && Validate(Next()).Ok?
  {
    hide IsBlank, Lower, Validate, LowerDistinct, IsColumn, ColumnNamed, Col;
    ValidMeans(Was());
    ValidMeans(Next());
    NotBlank("t");
    ColumnOk(Some("a"), 'a', true, None);
    ColumnOk(Some("b"), 'b', false, None);
    ColumnOk(Some("c"), 'c', false, None);
    ColumnOk(Some("b"), 'd', false, None);
    ColumnOk(None, 'e', true, Some("0"));
    LowerHere();
    KeyIsColumn();
  }

  lemma LowerOne(c: char)
    ensures Lower([c]) == [LowerChar(c)]
  {
  }

  lemma IntIs(c: ColumnDef)
    requires c.dataType == "int" && c.length.None?
    ensures TypeSql(c) == "int" && Lower("int") == "int"
  {
    assert Trim("int") == "int" by {
      assert LeadSpace("int") == 0;
      assert TrimStart("int") == "int";
      assert SolidLen("int") == 3;
    }
    assert Lower("t") == "t" && Lower("nt") == "nt";
  }

  lemma IntTyped()
    ensures Typed("int")
  {
    assert "int"[0] == 'i';
  }

  lemma PlainColumn(original: Option<string>, name: string, notNull: bool, initial: Option<string>)
    ensures PgColumn(Col(original, name, notNull, initial))
  {
    hide NonBlank, TypeSql, Lower, Typed;
    NoneBlankHere();
    IntIs(Col(original, name, notNull, initial));
    IntTyped();
  }

  lemma PgHere()
    ensures PgColumns(Was().columns) && PgColumns(Next().columns)
  {
    hide PgColumn, Col;
    PlainColumn(Some("a"), "a", true, None);
    PlainColumn(Some("b"), "b", false, None);
    PlainColumn(Some("c"), "c", false, None);
    PlainColumn(Some("b"), "d", false, None);
    PlainColumn(None, "e", true, Some("0"));
  }

  lemma NoneBlankHere()
    ensures NonBlank(None) == None
  {
  }

  lemma KeyHere()
    ensures forall j :: 0 <= j < 3 && Was().columns[j].name in Was().primaryKey ==> Was().columns[j].notNull
    ensures forall j :: 0 <= j < 3 && Next().columns[j].name in Next().primaryKey ==> Next().columns[j].notNull
  {
    Letters();
  }

  lemma ApartHere(d: TableDesign, x: IndexDef)
    requires d.indexes == [x] && !x.constraint && d.foreignKeys == [] && d.checks == [] && d.primaryKeyName == Some("k")
      && x.name != "k"
    ensures NamesApart(Dressed(d, TableOf(Postgres, d, map[], 0)))
  {
    hide ColumnsOf, BodyOfIndex;
    OneBody(x);
    assert BodyOfIndex(x).constraint == x.constraint by { BodyFlag(x); }
    assert Bodies(FK, []) == map[] && Bodies(CK, []) == map[];
  }

  lemma BodyFlag(x: IndexDef)
    ensures BodyOfIndex(x).constraint == x.constraint
  {
  }

  lemma IsPgSound()
    ensures PgSound(Was()) && PgSound(Reached(Was(), Next()))
  {
    hide PgColumns, NamesApart, Dressed;
    PgHere();
    KeyHere();
    Letters();
    ApartHere(Was(), Was().indexes[0]);
    ApartHere(Next(), Next().indexes[0]);
    assert |"k"| == 1 && |""| == 0;
    assert Reached(Was(), Next()) == Next();
  }

  lemma OneBody(x: IndexDef)
    ensures Bodies(IX, [x]) == map[x.name := BodyOfIndex(x)]
  {
    assert [x][1..] == [];
  }

  lemma LookedUp()
    ensures Lookup(Was().columns, Some("a")) == Some(Was().columns[0])
      && Lookup(Was().columns, Some("b")) == Some(Was().columns[1])
  {
    hide Lookup, NamesDistinct;
    NamesApartHere();
    LookupFinds(Was().columns, 0);
    LookupFinds(Was().columns, 1);
  }

  /** No foreign keys, so nothing depends on one. */
  lemma NoReferences(d: TableDesign)
    requires d.foreignKeys == []
    ensures KeysServed(Postgres, d)
  {
    hide ColumnsOf, Served, BodyOfIndex;
    assert Bodies(FK, []) == map[];
  }

  lemma FeasibleHere()
    requires AllSafe(Was(), Next())
    ensures Feasible(Was(), Next())
  {
    hide AllSafe, IndexNames, SameNames;
  }

  lemma PlannedHere(vals: map<string, seq<Value>>)
    requires "a" in vals && "b" in vals && "c" in vals
    ensures Planned(Was(), Next(), vals)
  {
    hide SoundEdit, PgSound, Reached, KeysServed;
    IsSound();
    IsPgSound();
    NoReferences(Was());
  }

  /** PostgreSQL: the edit gets a plan and is feasible, so the plan reaches the new design. */
  lemma PostgresRuns(vals: map<string, seq<Value>>, count: nat) returns (r: Tbl)
    requires "a" in vals && "b" in vals && "c" in vals
    ensures AlterTable(Postgres, Was(), Next()).Ok?
    ensures Run(Postgres, AlterTable(Postgres, Was(), Next()).value.steps, TableOf(Postgres, Was(), vals, count)) ==
      Some(r)
    ensures "d" in r.cols && r.cols["d"].values == vals["b"] && "c" !in r.cols && "e" in r.cols && r.count == count
  {
    hide Run, AlterTable, TableOf, Validate, Carried, SoundEdit, PgSound, Reached, AllSafe, SameGeneration, Planned,
      Feasible;
    IsSound();
    IsValid();
    GenerationHere();
    PostgresPlans(Was(), Next());
    PlannedHere(vals);
    r := PlanReaches(Was(), Next(), vals, count);
    Reads(vals, count);
    FeasibleHere();
  }

  lemma GenerationHere()
    ensures forall j :: 0 <= j < 3 ==> SameGeneration(Was().columns, Next().columns[j])
  {
    hide Lookup;
    LookedUp();
    NothingLookedUp();
  }

  lemma NothingLookedUp()
    ensures Lookup(Was().columns, None) == None
  {
  }

  lemma Reads(vals: map<string, seq<Value>>, count: nat)
    requires "a" in vals && "b" in vals && "c" in vals
    ensures AllSafe(Was(), Next())
    ensures var t := TableOf(Postgres, Reached(Was(), Next()), Carried(Next().columns, vals, count), count);
      "d" in t.cols && t.cols["d"].values == vals["b"] && "c" !in t.cols && "e" in t.cols && t.count == count
  {
    hide AttrOf, ColumnsOf, Carried, Lookup, NamesDistinct, HasColumn;
    LookedUp();
    NothingLookedUp();
    NamesApartHere();
    Letters();
    Columns("c");
    Columns("e");
    var d := Reached(Was(), Next());
    CarriedAt(Next().columns, vals, count, 1);
    ColumnsOfAt(Postgres, d, d.columns, Carried(Next().columns, vals, count), 1);
    ColumnsOfKeys(Postgres, d, d.columns, Carried(Next().columns, vals, count), "c");
    ColumnsOfKeys(Postgres, d, d.columns, Carried(Next().columns, vals, count), "e");
  }

  // ------------------------------------------------------------------ SQLite

  /** A key of another table, to one column of this one. */
  function Referring(column: string): ForeignKeyBody {
    ForeignKeyBody(["a"], None, "t", [column], None, None)
  }

  function Other(): TableDesign {
    Shaped("o", [Col(None, "a", true, None)], [])
  }

  /** A database with the table, and another that may refer to a column of it. */
  function Database(vals: map<string, seq<Value>>, count: nat, refers: Option<string>): Db {
    var other := TableOf(Sqlite, Other(), map[], 0);
    map["t" := TableOf(Sqlite, Was(), vals, count),
        "o" := if refers.Some? then other.(fks := map["f" := Referring(refers.value)]) else other]
  }

  /** The same edit, with the table perhaps renamed to `u`. */
  function Moved(moved: bool): TableDesign {
    if moved then Next().(name := "u") else Next()
  }

  lemma SoundStill(moved: bool)
    ensures SoundEdit(Was(), Moved(moved))
  {
    hide SoundTable, Fresh;
    IsSound();
    SoundNamed(Next(), "u");
  }

  lemma SoundNamed(d: TableDesign, name: string)
    requires SoundTable(d)
    ensures SoundTable(d.(name := name))
  {
    hide NamesDistinct, AllColumns, IndexColumnsExist, Distinct;
  }

  lemma SimpleHere(moved: bool)
    ensures SimpleColumns(Was(), Moved(moved))
  {
    hide Lookup, Lower, TypeSql;
    LookedUp();
    var n := Moved(moved).columns;
    SameTypes(Was().columns[0], n[0]);
    SameTypes(Was().columns[1], n[1]);
    assert SimpleColumn(Was().columns, n[0]) && SimpleColumn(Was().columns, n[1]) && SimpleColumn(Was().columns, n[2]);
  }

  lemma SameTypes(a: ColumnDef, b: ColumnDef)
    requires a.dataType == b.dataType && a.length == b.length && a.scale == b.scale
    ensures TypeSql(a) == TypeSql(b)
  {
  }

  lemma StillSound(moved: bool)
    ensures SoundEdit(Was(), Moved(moved)) && Shortcut(Was(), Moved(moved)) && Ordinary(Was(), Moved(moved))
      && NoneBlank(Moved(moved).triggers)
  {
    hide SoundEdit, SimpleColumns, OrderKept;
    SoundStill(moved);
    SimpleHere(moved);
    KeptOrder(moved);
    assert Moved(moved).columns[0].original.Some?;
  }

  lemma ThreeOriginals(a: ColumnDef, b: ColumnDef, c: ColumnDef)
    requires a.original == Some("a") && b.original == Some("b") && c.original == None
    ensures Originals([a, b, c]) == ["a", "b"] && FirstNew([a, b, c]) == 2
  {
    var n := [a, b, c];
    assert n[1..] == [b, c] && [b, c][1..] == [c] && [c][1..] == [];
    assert Originals([c]) == [];
    assert Originals([b, c]) == ["b"];
  }

  lemma ThreeStillThere(a: ColumnDef, b: ColumnDef, c: ColumnDef)
    requires a.name == "a" && b.name == "b" && c.name == "c"
    ensures StillThere([a, b, c], ["a", "b"]) == ["a", "b"]
  {
    Letters();
    var w := [a, b, c];
    assert w[1..] == [b, c] && [b, c][1..] == [c] && [c][1..] == [];
    assert StillThere([c], ["a", "b"]) == [];
    assert StillThere([b, c], ["a", "b"]) == ["b"];
  }

  lemma KeptOrder(moved: bool)
    ensures OrderKept(Was(), Moved(moved))
  {
    hide Originals, StillThere, FirstNew, Col;
    var n, w := Moved(moved).columns, Was().columns;
    assert n == [n[0], n[1], n[2]] && w == [w[0], w[1], w[2]];
    ColIs(Some("a"), "a", true, None);
    ColIs(Some("b"), "b", false, None);
    ColIs(Some("c"), "c", false, None);
    ColIs(Some("b"), "d", false, None);
    ColIs(None, "e", true, Some("0"));
    ThreeOriginals(n[0], n[1], n[2]);
    ThreeStillThere(w[0], w[1], w[2]);
  }

  lemma ColIs(original: Option<string>, name: string, notNull: bool, initial: Option<string>)
    ensures Col(original, name, notNull, initial).original == original
      && Col(original, name, notNull, initial).name == name
  {
  }

  lemma Lowered()
    ensures Lower("a") == "a" && Lower("b") == "b" && Lower("c") == "c" && Lower("d") == "d" && Lower("e") == "e"
    ensures Lower("i") == "i" && Lower("j") == "j" && Lower("t") == "t" && Lower("u") == "u" && Lower("o") == "o"
  {
    hide Lower;
    LowerOne('a');
    LowerOne('b');
    LowerOne('c');
    LowerOne('d');
    LowerOne('e');
    LowerOne('i');
    LowerOne('j');
    LowerOne('t');
    LowerOne('u');
    LowerOne('o');
  }

  lemma OneIndexCase(d: TableDesign)
    requires |d.indexes| == 1 && d.triggers == [] && Lower(d.indexes[0].name) != Lower(d.name)
    ensures NamesOfOneCase(d)
  {
    hide Lower;
    assert RealTriggers([]) == [];
  }

  lemma CaseHere(moved: bool)
    ensures NamesOfOneCase(Was()) && NamesOfOneCase(Moved(moved)) && RenameOk(Was(), Moved(moved))
    ensures FreshInCase(Was().columns, Moved(moved).columns)
  {
    hide Lower, NamesOfOneCase;
    Letters();
    Lowered();
    OneIndexCase(Was());
    OneIndexCase(Moved(moved));
    var w, n := Was().columns, Moved(moved).columns;
    assert w[0].name == "a" && w[1].name == "b" && w[2].name == "c";
    assert n[0].name == "a" && n[1].name == "d" && n[2].name == "e" && n[0].original == Some("a");
  }

  lemma ColumnsInTheClear(moved: bool)
    ensures ColumnsOk(Was(), Moved(moved))
  {
    hide TypeSql, Lower, ColumnsOf, Trim;
    var t := TableOf(Sqlite, Was(), map[], 0);
    OneBody(Was().indexes[0]);
    assert t.indexes == map["i" := BodyOfIndex(Was().indexes[0])];
    assert "b"[0] == 'b' && "c"[0] == 'c';
    assert !IndexedIn(t, "c");
    var n := Moved(moved).columns;
    assert n[0].original == Some("a") && n[1].original == Some("b");
    assert IsKept(n, "a") && IsKept(n, "b");
    NotBlank("0");
    assert NonBlank(Some("0")) == Some("0");
  }

  lemma NothingInTheWay(moved: bool)
    ensures InPlaceOk(Was(), Moved(moved))
  {
    hide ColumnsOk, RenameOk, NamesOfOneCase;
    ColumnsInTheClear(moved);
    CaseHere(moved);
  }

  lemma OneLetter(s: string, d: TableDesign)
    requires |s| == 1 && |d.name| == 1
    ensures s != TempName(d) && Lower(s) != Lower(TempName(d))
  {
    hide Lower;
    assert |TempName(d)| == |TEMP| + |d.name| && |TEMP| == 11;
  }

  lemma NoForeignKeys(d: TableDesign, vals: map<string, seq<Value>>, count: nat, name: string)
    requires d.foreignKeys == []
    ensures !RefersToTable(TableOf(Sqlite, d, vals, count), name) && TableOf(Sqlite, d, vals, count).fks == map[]
  {
    hide ColumnsOf;
    assert Bodies(FK, []) == map[];
  }

  lemma TempUnreferenced(vals: map<string, seq<Value>>, count: nat, refers: Option<string>, name: string)
    requires Lower(name) != Lower("t")
    ensures Unreferenced(Database(vals, count, refers), name)
  {
    hide TableOf, Lower;
    Letters();
    NoForeignKeys(Was(), vals, count, name);
    NoForeignKeys(Other(), map[], 0, name);
  }

  lemma OtherFree(vals: map<string, seq<Value>>, count: nat, refers: Option<string>, name: string)
    requires Lower(name) != Lower("o")
    ensures FreeElsewhere(Database(vals, count, refers), "t", name)
    ensures Lower(name) != Lower("t") && Lower(name) != Lower("i") ==> !NameTaken(Database(vals, count, refers), name)
  {
    hide TableOf, Lower;
    Letters();
    OwnIndexLike(Was(), vals, count, name);
    OwnIndexLike(Other(), map[], 0, name);
    var db := Database(vals, count, refers);
    assert db["o"].indexes == TableOf(Sqlite, Other(), map[], 0).indexes;
    assert Was().indexes[0].name == "i";
  }

  lemma OpenHere(vals: map<string, seq<Value>>, count: nat, refers: Option<string>, moved: bool)
    ensures NamesOpen(Database(vals, count, refers), "t", Moved(moved))
  {
    hide FreeElsewhere, TriggerFreeElsewhere, Lower, Database;
    Letters();
    Lowered();
    OtherFree(vals, count, refers, Moved(moved).name);
    OtherFree(vals, count, refers, "j");
    var d := Moved(moved);
    assert |d.indexes| == 1 && d.indexes[0].name == "j" && d.triggers == [];
    forall x | x in d.indexes
      ensures x.name == "j"
    {
    }
  }

  /** The other table is affected when the table is renamed, or the column it refers to. */
  lemma WhoIsAffected(vals: map<string, seq<Value>>, count: nat, refers: Option<string>, moved: bool)
    ensures NoneAffected(Database(vals, count, refers), Was(), Moved(moved)) <==>
      refers.None? || (!moved && Lower(refers.value) != "b")
  {
    hide TableOf, RenamedAway;
    Letters();
    var db, next := Database(vals, count, refers), Moved(moved);
    NoForeignKeys(Was(), vals, count, "t");
    NoForeignKeys(Other(), map[], 0, "t");
    assert KeysUnaffected(db["t"].fks, Was(), next);
    if refers.Some? {
      var f := Referring(refers.value);
      assert db["o"].fks == map["f" := f];
      OneRenamed(next, refers.value);
      assert Unaffected(f, Was(), next) <==> !moved && Lower(refers.value) != "b" by {
        assert f.refColumns[0] == refers.value;
      }
      assert "f" in db["o"].fks;
      assert KeysUnaffected(db["o"].fks, Was(), next) <==> Unaffected(f, Was(), next);
    }
  }

  lemma OneRenamed(d: TableDesign, name: string)
    requires d.columns == Next().columns
    ensures RenamedAway(d.columns, name) <==> Lower(name) == "b"
  {
    hide Lower;
    Letters();
    Lowered();
    var c := d.columns;
    assert c[0].original == Some("a") && c[0].name == "a" && c[1].original == Some("b") && c[1].name == "d";
    assert c[2].original == None;
  }

  lemma TableHere(vals: map<string, seq<Value>>, count: nat, refers: Option<string>)
    ensures var db := Database(vals, count, refers); "t" in db && db["t"] == TableOf(Sqlite, Was(), vals, count)
  {
    hide TableOf;
    Letters();
  }

  lemma ColumnsApartHere(moved: bool)
    ensures Moved(moved).columns != [] && ColumnsOneCase(Moved(moved).columns)
  {
    hide Lower;
    CaseHere(moved);
  }

  lemma RebuildSetting(vals: map<string, seq<Value>>, count: nat, refers: Option<string>, moved: bool)
    requires "a" in vals && "b" in vals && "c" in vals
    ensures Rebuildable(Was(), Moved(moved), vals, count, Database(vals, count, refers))
  {
    hide TableOf, SoundTable, SoundEdit, Unreferenced, TempName, NameTaken, NamesOpen, Lower, ColumnsOneCase, Database;
    ColumnsApartHere(moved);
    assert Was().name == "t";
    TableHere(vals, count, refers);
    SoundStill(moved);
    SoundEditParts(Was(), Moved(moved));
    Letters();
    OneLetter("t", Moved(moved));
    OneLetter("o", Moved(moved));
    OneLetter("i", Moved(moved));
    OtherFree(vals, count, refers, TempName(Moved(moved)));
    OpenHere(vals, count, refers, moved);
    TempUnreferenced(vals, count, refers, TempName(Moved(moved)));
  }

  /**
   SQLite: in place and rebuilt, the edit runs through and leaves the same table.
   The databases are equal but where the other table refers to the renamed table,
   or to the renamed column of the table.
   */
  lemma SqliteRuns(vals: map<string, seq<Value>>, count: nat, refers: Option<string>, moved: bool)
    requires "a" in vals && "b" in vals && "c" in vals && OwnRows(Was(), vals)
    ensures var db := Database(vals, count, refers);
      var inPlace, rebuilt := RunSql(db, false, InPlaceBody(Was(), Moved(moved))),
        RunSql(db, false, RebuildBody(Was(), Moved(moved)));
      inPlace.Some? && rebuilt.Some? && (inPlace == rebuilt <==> refers.None? || (!moved && Lower(refers.value) != "b"))
  {
    hide NamesOpen, FreshInCase, NamesOfOneCase, Lower, RunSql, InPlaceBody, RebuildBody, TableOf, InPlaceOk,
      SoundEdit, Shortcut, KeepsOne, NoneBlank, Rebuildable,
      OwnRows, NoneAffected, Carried;
    StillSound(moved);
    NothingInTheWay(moved);
    CaseHere(moved);
    OpenHere(vals, count, refers, moved);
    RebuildSetting(vals, count, refers, moved);
    WhoIsAffected(vals, count, refers, moved);
    var db := Database(vals, count, refers);
    Letters();
    assert Moved(moved).name == (if moved then "u" else "t") && Was().name == "t" && "u" !in db && "t" in db;
    ShortcutRefines(Was(), Moved(moved), vals, count, db);
  }
}
