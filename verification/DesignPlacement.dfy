/** MySQL and MariaDB: a column given FIRST or AFTER stands there when the whole plan has run. */
module DesignPlacement {
  import opened Prelude
  import opened Engines
  import opened Design
  import opened DesignExec
  import opened DesignValid
  import opened DesignMoves
  import opened DesignKept
  import DesignReach

  /** `b` stands directly behind `a`. */
  predicate Behind(order: seq<string>, a: string, b: string) {
    exists i :: 0 <= i < |order| - 1 && order[i] == a && order[i + 1] == b
  }

  predicate Leads(order: seq<string>, a: string) {
    order != [] && order[0] == a
  }

  // ------------------------------------------------------------------ what one change of the order keeps

  lemma BehindAt(order: seq<string>, i: nat)
    requires i + 1 < |order|
    ensures Behind(order, order[i], order[i + 1])
  {
  }

  lemma ReplacedKeeps(order: seq<string>, a: string, b: string, q: string, to: string)
    requires q != a && q != b
    ensures Behind(order, a, b) ==> Behind(Replaced(order, q, to), a, b)
    ensures Leads(order, a) ==> Leads(Replaced(order, q, to), a)
  {
    if Behind(order, a, b) {
      var i :| 0 <= i < |order| - 1 && order[i] == a && order[i + 1] == b;
      BehindAt(Replaced(order, q, to), i);
    }
  }

  lemma {:induction false} WithoutKeeps(order: seq<string>, a: string, b: string, x: string)
    requires x != a && x != b
    ensures Behind(order, a, b) ==> Behind(Without(order, x), a, b)
    ensures Leads(order, a) ==> Leads(Without(order, x), a)
  {
    if order != [] {
      WithoutKeeps(order[1..], a, b, x);
      var rest := Without(order[1..], x);
      if Behind(order, a, b) {
        var i :| 0 <= i < |order| - 1 && order[i] == a && order[i + 1] == b;
        if i == 0 {
          assert order[1..] != [] && order[1..][0] == b;
          WithoutFirst(order[1..], b, x);
          assert Without(order, x) == [a] + rest;
          BehindAt(Without(order, x), 0);
        } else {
          assert order[1..][i - 1] == a && order[1..][i] == b;
          BehindAt(order[1..], i - 1);
          BehindCons(if order[0] == x then [] else [order[0]], rest, a, b);
        }
      }
    }
  }

  lemma WithoutFirst(order: seq<string>, b: string, x: string)
    requires Leads(order, b) && x != b
    ensures Leads(Without(order, x), b)
  {
  }

  lemma BehindCons(front: seq<string>, order: seq<string>, a: string, b: string)
    requires Behind(order, a, b)
    ensures Behind(front + order, a, b)
  {
    var i :| 0 <= i < |order| - 1 && order[i] == a && order[i + 1] == b;
    BehindAt(front + order, |front| + i);
  }

  lemma InsertKeeps(order: seq<string>, a: string, b: string, x: string, p: Position)
    requires p.After? ==> p.column != a
    requires !p.First?
    ensures Behind(order, a, b) ==> Behind(Insert(order, x, p), a, b)
  {
    var all := Insert(order, x, p);
    if Behind(order, a, b) {
      var i :| 0 <= i < |order| - 1 && order[i] == a && order[i + 1] == b;
      var n := if p.After? then Place(order, p.column) else |order|;
      assert i != n;
      if i < n {
        assert all[i] == a && all[i + 1] == b;
        BehindAt(all, i);
      } else {
        assert all[i + 1] == a && all[i + 2] == b;
        BehindAt(all, i + 1);
      }
    }
  }

  lemma InsertLeads(order: seq<string>, a: string, x: string, p: Position)
    requires !p.First?
    ensures Leads(order, a) ==> Leads(Insert(order, x, p), a)
  {
  }

  lemma InsertPlaces(order: seq<string>, x: string, p: Position)
    requires p.After? ==> p.column in order
    ensures p.After? ==> Behind(Insert(order, x, p), p.column, x)
    ensures p.First? ==> Leads(Insert(order, x, p), x)
  {
    if p.After? {
      var n := Place(order, p.column);
      assert n < |order|;
      BehindAt(Insert(order, x, p), n);
    }
  }

  lemma InsertHas(order: seq<string>, x: string, p: Position, q: string)
    ensures q in Insert(order, x, p) <==> q == x || q in order
  {
    match p
    case Anywhere =>
    case First =>
    case After(c) =>
      var n := Place(order, c);
      if n < |order| {
        assert order == order[..n + 1] + order[n + 1..];
      }
  }

  lemma {:induction false} WithoutHas(order: seq<string>, x: string, q: string)
    ensures q in Without(order, x) <==> q != x && q in order
  {
    if order != [] {
      WithoutHas(order[1..], x, q);
    }
  }

  lemma ReplacedHas(order: seq<string>, x: string, to: string, q: string)
    ensures q in order && q != x ==> q in Replaced(order, x, to)
    ensures x in order ==> to in Replaced(order, x, to)
  {
    if q in order && q != x {
      var i :| 0 <= i < |order| && order[i] == q;
      assert Replaced(order, x, to)[i] == q;
    }
    if x in order {
      var i :| 0 <= i < |order| && order[i] == x;
      assert Replaced(order, x, to)[i] == to;
    }
  }

  // ------------------------------------------------------------------ every column has its place

  ghost predicate Covers(t: Tbl) {
    forall q :: q in t.cols ==> q in t.order
  }

  lemma StillOrder(e: Engine, t: Tbl, s: Step)
    requires Still(s) && Exec(e, t, s).Some?
    ensures var u := Exec(e, t, s).value; u.order == t.order && u.cols.Keys == t.cols.Keys
  {
    hide AlterAttr, ConstraintTaken, IndexTaken, IndexFits, ColumnsExist;
    if !AltersColumn(s) && !s.DropDefault? {
      NotColumns(e, t, s);
      StillOrderRest(e, t, s);
    }
  }

  lemma StillOrderRest(e: Engine, t: Tbl, s: Step)
    requires Still(s) && !AltersColumn(s) && !s.DropDefault? && Exec(e, t, s).Some?
    ensures Exec(e, t, s).value.order == t.order
  {
    hide ExecColumn, ExecDrop, ExecAdd, RetargetKeys, TableTaken;
    if OfDrops(s) {
      DropsNotOrder(e, t, s);
    } else if OfAdds(s) {
      AddsNotOrder(e, t, s);
    }
  }

  lemma DropsNotOrder(e: Engine, t: Tbl, s: Step)
    requires OfDrops(s) && ExecDrop(e, t, s).Some?
    ensures ExecDrop(e, t, s).value.order == t.order
  {
    hide LetsGo, KeyIndex, IndexNames;
  }

  lemma AddsNotOrder(e: Engine, t: Tbl, s: Step)
    requires OfAdds(s) && ExecAdd(e, t, s).Some?
    ensures ExecAdd(e, t, s).value.order == t.order
  {
    hide ConstraintTaken, IndexTaken, IndexFits, ColumnsExist, Unfounded, BodyOfForeignKey, BodyOfIndex, NeedsIndex,
      IndexOk, CheckOk, KeyOk, ForeignKeyOk;
  }

  lemma {:induction false} StillOrders(e: Engine, steps: seq<Step>, t: Tbl)
    requires AllStill(steps) && Run(e, steps, t).Some?
    ensures var u := Run(e, steps, t).value; u.order == t.order && u.cols.Keys == t.cols.Keys
    decreases |steps|
  {
    hide Exec;
    if steps != [] {
      assert Still(steps[0]);
      StillOrder(e, t, steps[0]);
      StillOrders(e, steps[1..], Exec(e, t, steps[0]).value);
    }
  }

  lemma {:induction false} DropsCover(e: Engine, olds: seq<ColumnDef>, news: seq<ColumnDef>, t: Tbl)
    requires e.IsMysqlFamily() && Covers(t) && Run(e, DropColumns(e, olds, news), t).Some?
    ensures Covers(Run(e, DropColumns(e, olds, news), t).value)
    decreases |olds|
  {
    hide Run, Exec, IsKept, Covers;
    if olds == [] {
      RunNothing(e, t);
    } else {
      var rest := DropColumns(e, olds[1..], news);
      if IsKept(news, olds[0].name) {
        assert [] + rest == rest;
        DropsCover(e, olds[1..], news, t);
      } else {
        assert DropColumns(e, olds, news) == [DropColumn(olds[0].name)] + rest;
        SplitRun(e, [DropColumn(olds[0].name)], rest, t);
        OneRun(e, DropColumn(olds[0].name), t);
        DropCovers(e, t, olds[0].name);
        DropsCover(e, olds[1..], news, Run(e, [DropColumn(olds[0].name)], t).value);
      }
    }
  }

  lemma DropCovers(e: Engine, t: Tbl, name: string)
    requires Covers(t) && Exec(e, t, DropColumn(name)).Some?
    ensures Covers(Exec(e, t, DropColumn(name)).value)
  {
    hide Used;
    var u := Exec(e, t, DropColumn(name)).value;
    forall q | q in u.cols
      ensures q in u.order
    {
      WithoutHas(t.order, name, q);
    }
  }

  // ------------------------------------------------------------------ one column

  /** The column at `j` stands where its clause said. */
  predicate Stands(order: seq<string>, e: Engine, was: seq<ColumnDef>, news: seq<ColumnDef>, j: nat)
    requires j < |news|
  {
    match MysqlPosition(e, was, news, j)
    case Anywhere => true
    case First => Leads(order, news[j].name)
    case After(p) => Behind(order, p, news[j].name)
  }

  predicate Placed(order: seq<string>, e: Engine, was: seq<ColumnDef>, news: seq<ColumnDef>, pos: nat)
    requires pos <= |news|
  {
    forall j :: 0 <= j < pos ==> Stands(order, e, was, news, j)
  }

  lemma PositionIs(e: Engine, was: seq<ColumnDef>, news: seq<ColumnDef>, j: nat)
    requires j < |news|
    ensures var p := MysqlPosition(e, was, news, j);
      (p.First? ==> j == 0) && (p.After? ==> j > 0 && p.column == news[j - 1].name)
  {
  }

  lemma StandsMeans(order: seq<string>, e: Engine, was: seq<ColumnDef>, news: seq<ColumnDef>, j: nat)
    requires j < |news|
    ensures Stands(order, e, was, news, j) <==>
      MysqlPosition(e, was, news, j).Anywhere? || (if j == 0 then Leads(order, news[j].name)
        else Behind(order, news[j - 1].name, news[j].name))
  {
    hide Behind, Leads;
    PositionIs(e, was, news, j);
  }

  /** A rename of the column at `pos` leaves the earlier ones standing. */
  lemma PlacedReplaced(e: Engine, was: seq<ColumnDef>, news: seq<ColumnDef>, pos: nat, order: seq<string>)
    requires NamesDistinct(news) && Fresh(was, news) && pos < |news| && news[pos].original.Some?
      && Placed(order, e, was, news, pos)
    ensures Placed(Replaced(order, news[pos].original.value, news[pos].name), e, was, news, pos)
  {
    hide Fresh, MysqlPosition, Behind, Leads, Stands;
    var q, n := news[pos].original.value, news[pos].name;
    var end := Replaced(order, q, n);
    forall j | 0 <= j < pos
      ensures Stands(end, e, was, news, j)
    {
      assert Stands(order, e, was, news, j);
      StandsMeans(order, e, was, news, j);
      StandsMeans(end, e, was, news, j);
      NotInTheWay(was, news, pos, q, j);
      if j > 0 {
        NotInTheWay(was, news, pos, q, j - 1);
      }
      ReplacedKeeps(order, if j > 0 then news[j - 1].name else news[j].name, news[j].name, q, n);
    }
  }

  lemma NamesDiffer(news: seq<ColumnDef>, i: nat, j: nat)
    requires NamesDistinct(news) && i < j < |news|
    ensures news[i].name != news[j].name
  {
  }

  /** So does taking it out of the order. */
  lemma PlacedWithout(e: Engine, was: seq<ColumnDef>, news: seq<ColumnDef>, pos: nat, order: seq<string>)
    requires NamesDistinct(news) && pos < |news| && Placed(order, e, was, news, pos)
    ensures Placed(Without(order, news[pos].name), e, was, news, pos)
  {
    hide MysqlPosition, Behind, Leads, Stands, Without;
    var n := news[pos].name;
    var end := Without(order, n);
    forall j | 0 <= j < pos
      ensures Stands(end, e, was, news, j)
    {
      assert Stands(order, e, was, news, j);
      StandsMeans(order, e, was, news, j);
      StandsMeans(end, e, was, news, j);
      NamesDiffer(news, j, pos);
      WithoutKeeps(order, if j > 0 then news[j - 1].name else news[j].name, news[j].name, n);
    }
  }

  /** And so does putting it where it belongs: behind its own predecessor, never between two earlier ones. */
  lemma PlacedInsert(e: Engine, was: seq<ColumnDef>, news: seq<ColumnDef>, pos: nat, order: seq<string>)
    requires NamesDistinct(news) && pos < |news| && Placed(order, e, was, news, pos)
    requires var p := MysqlPosition(e, was, news, pos); p.After? ==> p.column in order
    ensures Placed(Insert(order, news[pos].name, MysqlPosition(e, was, news, pos)), e, was, news, pos + 1)
  {
    hide MysqlPosition, Behind, Leads, Stands, Insert;
    var n, p := news[pos].name, MysqlPosition(e, was, news, pos);
    var end := Insert(order, n, p);
    PositionIs(e, was, news, pos);
    InsertPlaces(order, n, p);
    forall j | 0 <= j < pos + 1
      ensures Stands(end, e, was, news, j)
    {
      StandsMeans(end, e, was, news, j);
      if j < pos {
        assert Stands(order, e, was, news, j);
        StandsMeans(order, e, was, news, j);
        if j > 0 {
          NamesDiffer(news, j - 1, pos - 1);
          InsertKeeps(order, news[j - 1].name, news[j].name, n, p);
        }
        InsertLeads(order, news[j].name, n, p);
      }
    }
  }

  lemma NotInTheWay(was: seq<ColumnDef>, news: seq<ColumnDef>, pos: nat, q: string, j: nat)
    requires NamesDistinct(news) && Fresh(was, news) && j < pos < |news|
    requires q == if news[pos].original.Some? then news[pos].original.value else news[pos].name
    ensures news[j].name != q && news[j].name != news[pos].name
  {
    if news[pos].original.Some? {
      NameNotOrigin(was, news, j, pos);
    }
  }

  lemma PlacedAnywhere(e: Engine, was: seq<ColumnDef>, news: seq<ColumnDef>, pos: nat, order: seq<string>)
    requires pos < |news| && Placed(order, e, was, news, pos) && MysqlPosition(e, was, news, pos).Anywhere?
    ensures Placed(order, e, was, news, pos + 1)
  {
    hide MysqlPosition, Behind, Leads;
  }

  /** A kept column, renamed or moved or neither. */
  lemma KeptPlaced(e: Engine, was: seq<ColumnDef>, news: seq<ColumnDef>, pos: nat, t: Tbl)
    requires e.IsMysqlFamily() && NamesDistinct(was) && NamesDistinct(news) && Fresh(was, news) && pos < |news|
      && news[pos].original.Some?
    requires Covers(t) && Placed(t.order, e, was, news, pos) && ColumnSteps(e, was, news, pos).Ok?
      && Run(e, ColumnSteps(e, was, news, pos).value, t).Some?
    ensures var u := Run(e, ColumnSteps(e, was, news, pos).value, t).value;
      Covers(u) && Placed(u.order, e, was, news, pos + 1)
  {
    hide Run, NamesDistinct, Fresh, MysqlPosition, SameDefinition, Lookup, Placed, Covers, Exec;
    var n, p := news[pos], MysqlPosition(e, was, news, pos);
    LookupFresh(was, news, pos);
    var o := Lookup(was, n.original).value;
    var c := o.name != n.name || !SameDefinition(o, n) || o.comment != n.comment || p != Anywhere;
    RunWhen(e, c, ChangeColumn(o.name, n, p), t);
    if c {
      ChangeOrder(e, t, o.name, n, p);
      var renamed := if o.name == n.name then t.order else Replaced(t.order, o.name, n.name);
      if o.name != n.name {
        PlacedReplaced(e, was, news, pos, t.order);
      }
      if p.Anywhere? {
        PlacedAnywhere(e, was, news, pos, renamed);
      } else {
        PlacedWithout(e, was, news, pos, renamed);
        PlacedInsert(e, was, news, pos, Without(renamed, n.name));
      }
    } else {
      PlacedAnywhere(e, was, news, pos, t.order);
    }
  }

  /** What CHANGE COLUMN makes of the order, and that every column still has a place. */
  lemma ChangeOrder(e: Engine, t: Tbl, name: string, c: ColumnDef, p: Position)
    requires Covers(t) && Exec(e, t, ChangeColumn(name, c, p)).Some?
    ensures var u := Exec(e, t, ChangeColumn(name, c, p)).value;
      var renamed := if name == c.name then t.order else Replaced(t.order, name, c.name);
      && u.order == (if p.Anywhere? then renamed else Insert(Without(renamed, c.name), c.name, p))
      && (p.After? ==> p.column in Without(renamed, c.name))
      && Covers(u)
  {
    hide AttrOf, Insert, Without;
    var u := Exec(e, t, ChangeColumn(name, c, p)).value;
    var v := Renamed(t, name, c.name);
    var renamed := if name == c.name then t.order else Replaced(t.order, name, c.name);
    assert v.order == renamed;
    forall q | q in v.cols
      ensures q in renamed
    {
      ReplacedHas(t.order, name, c.name, q);
    }
    if p.After? {
      WithoutHas(renamed, c.name, p.column);
    }
    assert u.cols.Keys == v.cols.Keys;
    forall q | q in u.cols
      ensures q in u.order
    {
      WithoutHas(renamed, c.name, q);
      InsertHas(Without(renamed, c.name), c.name, p, q);
    }
  }

  /** A new column. */
  lemma AddedPlaced(e: Engine, was: seq<ColumnDef>, news: seq<ColumnDef>, pos: nat, t: Tbl)
    requires e.IsMysqlFamily() && NamesDistinct(was) && NamesDistinct(news) && Fresh(was, news) && pos < |news|
      && news[pos].original.None?
    requires Covers(t) && Placed(t.order, e, was, news, pos) && ColumnSteps(e, was, news, pos).Ok?
      && Run(e, ColumnSteps(e, was, news, pos).value, t).Some?
    ensures var u := Run(e, ColumnSteps(e, was, news, pos).value, t).value;
      Covers(u) && Placed(u.order, e, was, news, pos + 1)
  {
    hide Run, NamesDistinct, Fresh, MysqlPosition, Placed, Covers, Exec;
    var n, p := news[pos], MysqlPosition(e, was, news, pos);
    assert [AddColumn(n, p)] + [] == [AddColumn(n, p)];
    OneRun(e, AddColumn(n, p), t);
    AddOrder(e, t, n, p);
    PlacedInsert(e, was, news, pos, t.order);
  }

  lemma AddOrder(e: Engine, t: Tbl, c: ColumnDef, p: Position)
    requires Covers(t) && Exec(e, t, AddColumn(c, p)).Some?
    ensures var u := Exec(e, t, AddColumn(c, p)).value;
      u.order == Insert(t.order, c.name, p) && (p.After? ==> p.column in t.order) && Covers(u)
  {
    hide AttrOf, Insert, Fill, AttrOk;
    var u := Exec(e, t, AddColumn(c, p)).value;
    forall q | q in u.cols
      ensures q in u.order
    {
      InsertHas(t.order, c.name, p, q);
    }
  }

  // ------------------------------------------------------------------ the plan

  lemma {:induction false} ColumnsPlaced(e: Engine, was: seq<ColumnDef>, news: seq<ColumnDef>, pos: nat, t: Tbl)
    requires e.IsMysqlFamily() && NamesDistinct(was) && NamesDistinct(news) && Fresh(was, news) && pos <= |news|
    requires Covers(t) && Placed(t.order, e, was, news, pos) && AlterColumns(e, was, news, pos).Ok?
      && Run(e, AlterColumns(e, was, news, pos).value, t).Some?
    ensures Placed(Run(e, AlterColumns(e, was, news, pos).value, t).value.order, e, was, news, |news|)
    decreases |news| - pos
  {
    hide Run, ColumnSteps, Placed, Covers, NamesDistinct, Fresh;
    if pos == |news| {
      RunNothing(e, t);
    } else {
      var first, rest := ColumnSteps(e, was, news, pos).value, AlterColumns(e, was, news, pos + 1).value;
      SplitRun(e, first, rest, t);
      if news[pos].original.Some? {
        KeptPlaced(e, was, news, pos, t);
      } else {
        AddedPlaced(e, was, news, pos, t);
      }
      ColumnsPlaced(e, was, news, pos + 1, Run(e, first, t).value);
    }
  }

  lemma LoadedCovers(e: Engine, was: TableDesign, vals: map<string, seq<Value>>, count: nat, t: Tbl)
    requires t.order == NamesOf(was.columns) && t.cols.Keys == TableOf(e, was, vals, count).cols.Keys
    ensures Covers(t)
  {
    hide ColumnsOf;
    forall q | q in t.cols
      ensures q in t.order
    {
      DesignReach.ColumnsOfKeys(e, was, was.columns, vals, q);
      var i :| 0 <= i < |was.columns| && was.columns[i].name == q;
      assert NamesOf(was.columns)[i] == q;
    }
  }

  /**
   With fresh names: when the whole plan has run, every column the plan gave
   FIRST stands first, and every column it gave AFTER stands directly behind its
   designed predecessor. No later step breaks an adjacency already made.
   */
  lemma PlacementHolds(e: Engine, was: TableDesign, next: TableDesign, vals: map<string, seq<Value>>, count: nat,
      pos: nat)
    requires e.IsMysqlFamily() && NamesDistinct(was.columns) && NamesDistinct(next.columns)
      && Fresh(was.columns, next.columns)
    requires AlterTable(e, was, next).Ok?
      && Run(e, AlterTable(e, was, next).value.steps, TableOf(e, was, vals, count)).Some? && pos < |next.columns|
    ensures var order := Run(e, AlterTable(e, was, next).value.steps, TableOf(e, was, vals, count)).value.order;
      var p := MysqlPosition(e, was.columns, next.columns, pos);
      && (p.First? ==> pos == 0 && Leads(order, next.columns[0].name))
      && (p.After? ==> pos > 0 && Behind(order, next.columns[pos - 1].name, next.columns[pos].name))
  {
    hide Run, NamesDistinct, Fresh, Validate, DropParts, DropKey, DropColumns, AlterColumns, AddParts, TableComment,
      TableOf, AllStill, Placed, Covers, MysqlPosition, Behind, Leads;
    var a, b, c := When(OldName(was, next) != next.name, RenameTable(next.name)), DropParts(e, was, next),
      DropKey(e, was, next).value;
    var d, f := DropColumns(e, was.columns, next.columns), AlterColumns(e, was.columns, next.columns, 0).value;
    var g, h := AddParts(e, was, next), TableComment(e, was, next);
    var t0, before, after := TableOf(e, was, vals, count), a + b + c, g + h;
    assert AlterTable(e, was, next).value.steps == before + (d + (f + after));
    WhenStill(OldName(was, next) != next.name, RenameTable(next.name));
    DropPartsStill(e, was, next);
    DropKeyStill(e, was, next);
    StillAppend(a, b);
    StillAppend(a + b, c);
    SplitRun(e, before, d + (f + after), t0);
    StillOrders(e, before, t0);
    var t1 := Run(e, before, t0).value;
    OrderOfTable(e, was, vals, count);
    LoadedCovers(e, was, vals, count, t1);
    SplitRun(e, d, f + after, t1);
    DropsCover(e, was.columns, next.columns, t1);
    var t2 := Run(e, d, t1).value;
    SplitRun(e, f, after, t2);
    PlacedNone(t2.order, e, was.columns, next.columns);
    ColumnsPlaced(e, was.columns, next.columns, 0, t2);
    var t3 := Run(e, f, t2).value;
    AddPartsStill(e, was, next);
    TableCommentStill(e, was, next);
    StillAppend(g, h);
    StillOrders(e, after, t3);
    PlacedAt(t3.order, e, was.columns, next.columns, pos);
    StandsMeans(t3.order, e, was.columns, next.columns, pos);
    PositionIs(e, was.columns, next.columns, pos);
  }

  lemma OrderOfTable(e: Engine, was: TableDesign, vals: map<string, seq<Value>>, count: nat)
    ensures TableOf(e, was, vals, count).order == NamesOf(was.columns)
  {
  }

  lemma PlacedNone(order: seq<string>, e: Engine, was: seq<ColumnDef>, news: seq<ColumnDef>)
    ensures Placed(order, e, was, news, 0)
  {
  }

  lemma PlacedAt(order: seq<string>, e: Engine, was: seq<ColumnDef>, news: seq<ColumnDef>, pos: nat)
    requires pos < |news| && Placed(order, e, was, news, |news|)
    ensures Stands(order, e, was, news, pos)
  {
    hide Stands;
  }
}
