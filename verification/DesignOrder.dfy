/**
 MySQL and MariaDB: the order a plan leaves the columns in. Columns that stay behind
 their old neighbour are given no position and keep their order among themselves, all
 others stand behind their designed predecessor.
 */
module DesignOrder {
  import opened Prelude
  import opened Engines
  import opened Design
  import opened DesignExec
  import opened DesignValid
  import opened DesignMoves
  import opened DesignKept
  import opened DesignPlacement
  import opened DesignReach
  import opened DesignAdds
  import opened DesignReferences
  import opened DesignMysql

  /** `a` stands somewhere before `b`. */
  predicate Ahead(order: seq<string>, a: string, b: string) {
    exists i, j :: 0 <= i < j < |order| && order[i] == a && order[j] == b
  }

  predicate Trails(order: seq<string>, a: string) {
    order != [] && order[|order| - 1] == a
  }

  // ------------------------------------------------------------------ what one change of the order keeps

  lemma AheadAt(order: seq<string>, i: nat, j: nat)
    requires i < j < |order|
    ensures Ahead(order, order[i], order[j])
  {
  }

  function Called(x: string, q: string, to: string): string {
    if x == q then to else x
  }

  lemma ReplacedAhead(order: seq<string>, a: string, b: string, q: string, to: string)
    requires Ahead(order, a, b)
    ensures Ahead(Replaced(order, q, to), Called(a, q, to), Called(b, q, to))
  {
    var i, j :| 0 <= i < j < |order| && order[i] == a && order[j] == b;
    AheadAt(Replaced(order, q, to), i, j);
  }

  lemma AheadCons(x: string, order: seq<string>, a: string, b: string)
    ensures Ahead([x] + order, a, b) <==> (x == a && b in order) || Ahead(order, a, b)
  {
    var all := [x] + order;
    if Ahead(order, a, b) {
      var i, j :| 0 <= i < j < |order| && order[i] == a && order[j] == b;
      AheadAt(all, i + 1, j + 1);
    }
    if x == a && b in order {
      var j :| 0 <= j < |order| && order[j] == b;
      AheadAt(all, 0, j + 1);
    }
    if Ahead(all, a, b) {
      var i, j :| 0 <= i < j < |all| && all[i] == a && all[j] == b;
      assert order[j - 1] == b;
      if i > 0 {
        AheadAt(order, i - 1, j - 1);
      }
    }
  }

  lemma {:induction false} WithoutAhead(order: seq<string>, a: string, b: string, x: string)
    requires x != a && x != b && Ahead(order, a, b)
    ensures Ahead(Without(order, x), a, b)
  {
    hide Ahead;
    AheadTail(order, a, b);
    if Ahead(order[1..], a, b) {
      WithoutAhead(order[1..], a, b, x);
    }
    WithoutHas(order[1..], x, b);
    if order[0] == x {
      assert Without(order, x) == Without(order[1..], x);
    } else {
      AheadCons(order[0], Without(order[1..], x), a, b);
    }
  }

  lemma AheadTail(order: seq<string>, a: string, b: string)
    requires Ahead(order, a, b)
    ensures order != [] && ((order[0] == a && b in order[1..]) || Ahead(order[1..], a, b))
  {
    assert order == [order[0]] + order[1..];
    AheadCons(order[0], order[1..], a, b);
  }

  lemma InsertAhead(order: seq<string>, a: string, b: string, x: string, p: Position)
    requires Ahead(order, a, b)
    ensures Ahead(Insert(order, x, p), a, b)
  {
    var i, j :| 0 <= i < j < |order| && order[i] == a && order[j] == b;
    var all := Insert(order, x, p);
    var n := if p.After? then Place(order, p.column) + 1 else if p.First? then 0 else |order|;
    var i', j' := if i < n then i else i + 1, if j < n then j else j + 1;
    assert all[i'] == a && all[j'] == b;
    AheadAt(all, i', j');
  }

  /** No name stands in the order twice. */
  predicate Once(order: seq<string>) {
    DesignExec.NamesDiffer(order)
  }

  lemma OnceAhead(order: seq<string>, a: string, b: string)
    requires Once(order) && Ahead(order, a, b)
    ensures !Ahead(order, b, a)
  {
    var i, j :| 0 <= i < j < |order| && order[i] == a && order[j] == b;
    forall k, l | 0 <= k < l < |order|
      ensures !(order[k] == b && order[l] == a)
    {
      assert order[k] == b ==> k == j;
    }
  }

  lemma ReplacedOnce(order: seq<string>, q: string, to: string)
    requires Once(order) && (q == to || to !in order)
    ensures Once(Replaced(order, q, to))
  {
  }

  lemma {:induction false} WithoutOnce(order: seq<string>, x: string)
    requires Once(order)
    ensures Once(Without(order, x))
  {
    if order != [] {
      var rest := order[1..];
      forall i, j | 0 <= i < j < |rest|
        ensures rest[i] != rest[j]
      {
        assert rest[i] == order[i + 1] && rest[j] == order[j + 1];
      }
      WithoutOnce(rest, x);
      WithoutHas(rest, x, order[0]);
      assert forall i :: 0 <= i < |rest| ==> rest[i] == order[i + 1];
    }
  }

  lemma InsertOnce(order: seq<string>, x: string, p: Position)
    requires Once(order) && x !in order
    ensures Once(Insert(order, x, p))
  {
    var all := Insert(order, x, p);
    var n := if p.After? && Place(order, p.column) < |order| then Place(order, p.column) + 1 else if p.First? then 0
      else |order|;
    assert all == order[..n] + [x] + order[n..];
    forall i, j | 0 <= i < j < |all|
      ensures all[i] != all[j]
    {
      assert all[i] == if i < n then order[i] else if i == n then x else order[i - 1];
      assert all[j] == if j < n then order[j] else if j == n then x else order[j - 1];
    }
  }

  // ------------------------------------------------------------------ one column's turn

  /** Every column has one place. */
  ghost predicate Neat(t: Tbl) {
    Covers(t) && Once(t.order) && forall q :: q in t.order ==> q in t.cols
  }

  /** What a column's steps make of the order. */
  function TurnedOrder(e: Engine, was: seq<ColumnDef>, news: seq<ColumnDef>, pos: nat, order: seq<string>): seq<string>
    requires pos < |news|
  {
    var n, p := news[pos].name, MysqlPosition(e, was, news, pos);
    match news[pos].original
    case None => Insert(order, n, p)
    case Some(o) =>
      var renamed := if o == n then order else Replaced(order, o, n);
      if p.Anywhere? then renamed else Insert(Without(renamed, n), n, p)
  }

  lemma KeptTurns(e: Engine, was: seq<ColumnDef>, news: seq<ColumnDef>, pos: nat, t: Tbl)
    requires e.IsMysqlFamily() && NamesDistinct(was) && Fresh(was, news) && pos < |news| && news[pos].original.Some?
    requires Neat(t) && ColumnSteps(e, was, news, pos).Ok? && Run(e, ColumnSteps(e, was, news, pos).value, t).Some?
    ensures var u := Run(e, ColumnSteps(e, was, news, pos).value, t).value;
      Neat(u) && u.order == TurnedOrder(e, was, news, pos, t.order)
  {
    hide Run, NamesDistinct, Fresh, MysqlPosition, SameDefinition, Lookup, Covers, Exec, Insert, Without, Once;
    var n, p := news[pos], MysqlPosition(e, was, news, pos);
    LookupFresh(was, news, pos);
    var o := Lookup(was, n.original).value;
    var c := o.name != n.name || !SameDefinition(o, n) || o.comment != n.comment || p != Anywhere;
    RunWhen(e, c, ChangeColumn(o.name, n, p), t);
    if c {
      ChangeOrder(e, t, o.name, n, p);
      ChangeNeat(e, t, o.name, n, p);
    }
  }

  lemma ChangeNeat(e: Engine, t: Tbl, name: string, c: ColumnDef, p: Position)
    requires Neat(t) && Exec(e, t, ChangeColumn(name, c, p)).Some?
    ensures Neat(Exec(e, t, ChangeColumn(name, c, p)).value)
  {
    hide AttrOf, Insert, Without, Once, Covers;
    ChangeOrder(e, t, name, c, p);
    var u, v := Exec(e, t, ChangeColumn(name, c, p)).value, Renamed(t, name, c.name);
    var renamed := v.order;
    assert renamed == if name == c.name then t.order else Replaced(t.order, name, c.name);
    assert u.cols.Keys == v.cols.Keys;
    ReplacedOnce(t.order, name, c.name);
    WithoutOnce(renamed, c.name);
    WithoutHas(renamed, c.name, c.name);
    InsertOnce(Without(renamed, c.name), c.name, p);
    forall q | q in u.order
      ensures q in u.cols
    {
      WithoutHas(renamed, c.name, q);
      InsertHas(Without(renamed, c.name), c.name, p, q);
      assert q in renamed || q == c.name;
    }
  }

  lemma AddedTurns(e: Engine, was: seq<ColumnDef>, news: seq<ColumnDef>, pos: nat, t: Tbl)
    requires e.IsMysqlFamily() && NamesDistinct(was) && Fresh(was, news) && pos < |news| && news[pos].original.None?
    requires Neat(t) && ColumnSteps(e, was, news, pos).Ok? && Run(e, ColumnSteps(e, was, news, pos).value, t).Some?
    ensures var u := Run(e, ColumnSteps(e, was, news, pos).value, t).value;
      Neat(u) && u.order == TurnedOrder(e, was, news, pos, t.order)
  {
    hide Run, NamesDistinct, Fresh, MysqlPosition, Covers, Exec, Once, Insert;
    var n, p := news[pos], MysqlPosition(e, was, news, pos);
    assert [AddColumn(n, p)] + [] == [AddColumn(n, p)];
    OneRun(e, AddColumn(n, p), t);
    AddOrder(e, t, n, p);
    AddNeat(e, t, n, p);
  }

  lemma AddNeat(e: Engine, t: Tbl, c: ColumnDef, p: Position)
    requires Neat(t) && Exec(e, t, AddColumn(c, p)).Some?
    ensures Neat(Exec(e, t, AddColumn(c, p)).value)
  {
    hide AttrOf, Insert, Fill, AttrOk, Once, Covers;
    AddOrder(e, t, c, p);
    var u := Exec(e, t, AddColumn(c, p)).value;
    InsertOnce(t.order, c.name, p);
    forall q | q in u.order
      ensures q in u.cols
    {
      InsertHas(t.order, c.name, p, q);
    }
  }

  // ------------------------------------------------------------------ columns that are given no position

  predicate Unplaced(e: Engine, was: seq<ColumnDef>, news: seq<ColumnDef>, j: nat) {
    j < |news| && news[j].original.Some? && MysqlPosition(e, was, news, j).Anywhere?
  }

  /** What the column is called before the turn of the one at `pos`. */
  function NowCalled(news: seq<ColumnDef>, j: nat, pos: nat): string
    requires j < |news| && news[j].original.Some?
  {
    if j < pos then news[j].name else news[j].original.value
  }

  lemma OtherName(was: seq<ColumnDef>, news: seq<ColumnDef>, j: nat, pos: nat)
    requires NamesDistinct(news) && Fresh(was, news) && j < |news| && pos < |news| && news[j].original.Some?
    requires j != pos
    ensures NowCalled(news, j, pos) == NowCalled(news, j, pos + 1)
    ensures NowCalled(news, j, pos) != news[pos].name && news[pos].original != Some(NowCalled(news, j, pos))
  {
    hide Fresh;
    if news[pos].original.Some? {
      NameNotOrigin(was, news, j, pos);
    }
    NameNotOrigin(was, news, pos, j);
    assert news[j].name != news[pos].name;
  }

  /** Its turn, or another's: two of them stay in their order. */
  lemma TurnAhead(e: Engine, was: seq<ColumnDef>, news: seq<ColumnDef>, pos: nat, order: seq<string>, i: nat, j: nat)
    requires NamesDistinct(news) && Fresh(was, news) && pos < |news| && i != j
    requires Unplaced(e, was, news, i) && Unplaced(e, was, news, j)
    requires Ahead(order, NowCalled(news, i, pos), NowCalled(news, j, pos))
    ensures Ahead(TurnedOrder(e, was, news, pos, order), NowCalled(news, i, pos + 1), NowCalled(news, j, pos + 1))
  {
    hide Fresh, NamesDistinct, MysqlPosition, Ahead, Insert, Without;
    var a, b := NowCalled(news, i, pos), NowCalled(news, j, pos);
    var a', b' := NowCalled(news, i, pos + 1), NowCalled(news, j, pos + 1);
    var n, p := news[pos].name, MysqlPosition(e, was, news, pos);
    if i != pos {
      OtherName(was, news, i, pos);
    }
    if j != pos {
      OtherName(was, news, j, pos);
    }
    match news[pos].original
    case None => InsertAhead(order, a, b, n, p);
    case Some(o) =>
      assert Called(a, o, n) == a' && Called(b, o, n) == b';
      ReplacedAhead(order, a, b, o, n);
      var renamed := if o == n then order else Replaced(order, o, n);
      assert Ahead(renamed, a', b');
      if !p.Anywhere? {
        WithoutAhead(renamed, a', b', n);
        InsertAhead(Without(renamed, n), a', b', n, p);
      }
  }

  // ------------------------------------------------------------------ all turns

  predicate StoodAhead(was: seq<ColumnDef>, news: seq<ColumnDef>, i: nat, j: nat) {
    && i < |news| && j < |news| && news[i].original.Some? && news[j].original.Some?
    && ColumnAt(was, news[i].original.value) < ColumnAt(was, news[j].original.value)
  }

  /** Any two columns without a position stand in the order they had. */
  ghost predicate InOldOrder(e: Engine, was: seq<ColumnDef>, news: seq<ColumnDef>, pos: nat, order: seq<string>) {
    forall i: nat, j: nat :: Unplaced(e, was, news, i) && Unplaced(e, was, news, j) && StoodAhead(was, news, i, j) ==>
      Ahead(order, NowCalled(news, i, pos), NowCalled(news, j, pos))
  }

  lemma TurnInOrder(e: Engine, was: seq<ColumnDef>, news: seq<ColumnDef>, pos: nat, order: seq<string>)
    requires NamesDistinct(news) && Fresh(was, news) && pos < |news| && InOldOrder(e, was, news, pos, order)
    ensures InOldOrder(e, was, news, pos + 1, TurnedOrder(e, was, news, pos, order))
  {
    hide Fresh, NamesDistinct, MysqlPosition, Ahead, TurnedOrder, NowCalled;
    forall i: nat, j: nat | Unplaced(e, was, news, i) && Unplaced(e, was, news, j) && StoodAhead(was, news, i, j)
      ensures Ahead(TurnedOrder(e, was, news, pos, order), NowCalled(news, i, pos + 1), NowCalled(news, j, pos + 1))
    {
      TurnAhead(e, was, news, pos, order, i, j);
    }
  }

  /** A new column without a position is the last, and ends up last. */
  ghost predicate LastTrails(e: Engine, was: seq<ColumnDef>, news: seq<ColumnDef>, order: seq<string>) {
    forall j: nat :: j < |news| && news[j].original.None? && MysqlPosition(e, was, news, j).Anywhere? ==>
      j == |news| - 1 && Trails(order, news[j].name)
  }

  lemma LastTurn(e: Engine, was: seq<ColumnDef>, news: seq<ColumnDef>, pos: nat, order: seq<string>)
    requires e.IsMysqlFamily() && pos + 1 == |news|
    ensures LastTrails(e, was, news, TurnedOrder(e, was, news, pos, order))
  {
    hide OldPrevious;
  }

  lemma {:induction false} ColumnsTurned(e: Engine, was: seq<ColumnDef>, news: seq<ColumnDef>, pos: nat, t: Tbl)
    requires e.IsMysqlFamily() && NamesDistinct(was) && NamesDistinct(news) && Fresh(was, news) && pos < |news|
    requires Neat(t) && InOldOrder(e, was, news, pos, t.order) && AlterColumns(e, was, news, pos).Ok?
      && Run(e, AlterColumns(e, was, news, pos).value, t).Some?
    ensures var u := Run(e, AlterColumns(e, was, news, pos).value, t).value;
      Neat(u) && InOldOrder(e, was, news, |news|, u.order) && LastTrails(e, was, news, u.order)
    decreases |news| - pos
  {
    hide Run, ColumnSteps, Neat, InOldOrder, LastTrails, NamesDistinct, Fresh, TurnedOrder;
    var first, rest := ColumnSteps(e, was, news, pos).value, AlterColumns(e, was, news, pos + 1).value;
    SplitRun(e, first, rest, t);
    if news[pos].original.Some? {
      KeptTurns(e, was, news, pos, t);
    } else {
      AddedTurns(e, was, news, pos, t);
    }
    TurnInOrder(e, was, news, pos, t.order);
    var u := Run(e, first, t).value;
    if pos + 1 == |news| {
      RunNothing(e, u);
      LastTurn(e, was, news, pos, t.order);
    } else {
      ColumnsTurned(e, was, news, pos + 1, u);
    }
  }

  // ------------------------------------------------------------------ columns that go

  lemma DropOrders(e: Engine, t: Tbl, name: string)
    requires Neat(t) && Exec(e, t, DropColumn(name)).Some?
    ensures var u := Exec(e, t, DropColumn(name)).value; Neat(u) && u.order == Without(t.order, name)
  {
    hide Used, Referred, Once, Covers, Without;
    DropCovers(e, t, name);
    WithoutOnce(t.order, name);
    var u := Exec(e, t, DropColumn(name)).value;
    forall q | q in u.order
      ensures q in u.cols
    {
      WithoutHas(t.order, name, q);
    }
  }

  ghost predicate KeptAhead(news: seq<ColumnDef>, before: seq<string>, after: seq<string>) {
    forall a, b :: IsKept(news, a) && IsKept(news, b) && Ahead(before, a, b) ==> Ahead(after, a, b)
  }

  lemma {:induction false} DropsOrder(e: Engine, olds: seq<ColumnDef>, news: seq<ColumnDef>, t: Tbl)
    requires e.IsMysqlFamily() && Neat(t) && Run(e, DropColumns(e, olds, news), t).Some?
    ensures var u := Run(e, DropColumns(e, olds, news), t).value; Neat(u) && KeptAhead(news, t.order, u.order)
    decreases |olds|
  {
    hide Run, Exec, IsKept, Neat, Ahead, Without;
    if olds == [] {
      RunNothing(e, t);
    } else {
      var rest := DropColumns(e, olds[1..], news);
      if IsKept(news, olds[0].name) {
        assert [] + rest == rest;
        DropsOrder(e, olds[1..], news, t);
      } else {
        assert DropColumns(e, olds, news) == [DropColumn(olds[0].name)] + rest;
        SplitRun(e, [DropColumn(olds[0].name)], rest, t);
        OneRun(e, DropColumn(olds[0].name), t);
        DropOrders(e, t, olds[0].name);
        var u := Run(e, [DropColumn(olds[0].name)], t).value;
        DropsOrder(e, olds[1..], news, u);
        forall a, b | IsKept(news, a) && IsKept(news, b) && Ahead(t.order, a, b)
          ensures Ahead(u.order, a, b)
        {
          WithoutAhead(t.order, a, b, olds[0].name);
        }
      }
    }
  }

  lemma LoadedNeat(e: Engine, was: TableDesign, vals: map<string, seq<Value>>, count: nat, t: Tbl)
    requires NamesDistinct(was.columns)
    requires t.order == NamesOf(was.columns) && t.cols.Keys == TableOf(e, was, vals, count).cols.Keys
    ensures Neat(t)
  {
    hide ColumnsOf, Covers;
    LoadedCovers(e, was, vals, count, t);
    forall q | q in t.order
      ensures q in t.cols
    {
      DesignReach.ColumnsOfKeys(e, was, was.columns, vals, q);
    }
  }

  lemma LoadedInOrder(e: Engine, was: seq<ColumnDef>, news: seq<ColumnDef>, order: seq<string>)
    requires Fresh(was, news) && KeptAhead(news, NamesOf(was), order)
    ensures InOldOrder(e, was, news, 0, order)
  {
    hide Ahead, MysqlPosition;
    forall i: nat, j: nat | Unplaced(e, was, news, i) && Unplaced(e, was, news, j) && StoodAhead(was, news, i, j)
      ensures Ahead(order, NowCalled(news, i, 0), NowCalled(news, j, 0))
    {
      var a, b := news[i].original.value, news[j].original.value;
      assert IsKept(news, a) && IsKept(news, b);
      ColumnAtHas(was, b);
      AheadAt(NamesOf(was), ColumnAt(was, a), ColumnAt(was, b));
    }
  }

  lemma ColumnAtHas(cs: seq<ColumnDef>, name: string)
    requires HasColumn(cs, name)
    ensures ColumnAt(cs, name) < |cs|
  {
  }

  // ------------------------------------------------------------------ when that is the designed order

  /** The columns that are given no position stand, in the new design, in the order they had. */
  predicate UnplacedInOrder(e: Engine, was: seq<ColumnDef>, news: seq<ColumnDef>) {
    forall i, j :: 0 <= i < j < |news| && Unplaced(e, was, news, i) && Unplaced(e, was, news, j) ==>
      StoodAhead(was, news, i, j)
  }

  /**
   A kept column that stands behind its old neighbour; one that stood first has none,
   and a new one counts as none.
   */
  predicate Stays(was: seq<ColumnDef>, news: seq<ColumnDef>, j: nat) {
    && j < |news| && news[j].original.Some?
    && var at := ColumnAt(was, news[j].original.value);
       if j == 0 || news[j - 1].original.None? then at == 0
       else ColumnAt(was, news[j - 1].original.value) + 1 == at
  }

  /** All those that stay stand, in the new design, in the order they had. */
  predicate StayInOrder(was: seq<ColumnDef>, news: seq<ColumnDef>) {
    forall i, j :: 0 <= i < j < |news| && Stays(was, news, i) && Stays(was, news, j) ==> StoodAhead(was, news, i, j)
  }

  /** A kept column is given no position exactly when it stays, a new one exactly when it is the last. */
  lemma PositionMeans(e: Engine, was: seq<ColumnDef>, news: seq<ColumnDef>, j: nat)
    requires e.IsMysqlFamily() && NamesDistinct(was) && Fresh(was, news) && j < |news|
    ensures MysqlPosition(e, was, news, j).Anywhere? <==>
      if news[j].original.Some? then Stays(was, news, j) else j == |news| - 1
  {
    hide Fresh, NamesDistinct;
    if news[j].original.Some? {
      OriginIn(was, news, j);
      var at := ColumnAt(was, news[j].original.value);
      if j > 0 && news[j - 1].original.Some? {
        OriginIn(was, news, j - 1);
        if at > 0 && was[at - 1].name == news[j - 1].original.value {
          AtItsName(was, at - 1);
        }
      }
    }
  }

  lemma OriginIn(was: seq<ColumnDef>, news: seq<ColumnDef>, j: nat)
    requires Fresh(was, news) && j < |news| && news[j].original.Some?
    ensures ColumnAt(was, news[j].original.value) < |was|
  {
    ColumnAtHas(was, news[j].original.value);
  }

  lemma InOrderAlike(e: Engine, was: seq<ColumnDef>, news: seq<ColumnDef>)
    requires e.IsMysqlFamily() && NamesDistinct(was) && Fresh(was, news)
    ensures UnplacedInOrder(e, was, news) <==> StayInOrder(was, news)
  {
    hide Fresh, NamesDistinct, MysqlPosition;
    forall j | 0 <= j < |news|
      ensures Unplaced(e, was, news, j) <==> Stays(was, news, j)
    {
      PositionMeans(e, was, news, j);
    }
  }

  /** What is known of the order left. */
  ghost predicate Settled(e: Engine, was: seq<ColumnDef>, news: seq<ColumnDef>, order: seq<string>) {
    && Once(order) && (forall q :: q in order <==> HasColumn(news, q))
    && Placed(order, e, was, news, |news|)
    && InOldOrder(e, was, news, |news|, order) && LastTrails(e, was, news, order)
  }

  predicate RightUpTo(news: seq<ColumnDef>, order: seq<string>, k: nat) {
    k <= |news| && k <= |order| && forall i :: 0 <= i < k ==> order[i] == news[i].name
  }

  lemma OnceAt(order: seq<string>, i: nat, j: nat)
    requires Once(order) && i < |order| && j < |order| && order[i] == order[j]
    ensures i == j
  {
  }

  lemma BehindNext(order: seq<string>, i: nat, b: string)
    requires Once(order) && i < |order| && Behind(order, order[i], b)
    ensures i + 1 < |order| && order[i + 1] == b
  {
    hide Once;
    var k :| 0 <= k < |order| - 1 && order[k] == order[i] && order[k + 1] == b;
    OnceAt(order, i, k);
  }

  lemma BehindPrevious(order: seq<string>, i: nat, a: string)
    requires Once(order) && i < |order| && Behind(order, a, order[i])
    ensures i > 0 && order[i - 1] == a
  {
    hide Once;
    var k :| 0 <= k < |order| - 1 && order[k] == a && order[k + 1] == order[i];
    OnceAt(order, i, k + 1);
  }

  /** A column with a position stands where it should as soon as those before it do. */
  lemma PlacedNext(e: Engine, was: seq<ColumnDef>, news: seq<ColumnDef>, order: seq<string>, k: nat)
    requires Settled(e, was, news, order) && RightUpTo(news, order, k) && k < |news|
    requires !MysqlPosition(e, was, news, k).Anywhere?
    ensures k < |order| && order[k] == news[k].name
  {
    hide Once, MysqlPosition, Behind, InOldOrder, LastTrails, Placed;
    PlacedAt(order, e, was, news, k);
    StandsMeans(order, e, was, news, k);
    if k > 0 {
      BehindNext(order, k - 1, news[k].name);
    }
  }

  lemma NameIs(news: seq<ColumnDef>, i: nat, j: nat)
    requires NamesDistinct(news) && i < |news| && j < |news| && news[i].name == news[j].name
    ensures i == j
  {
  }

  /** Only the column itself, or one without a position, can stand behind those in place. */
  lemma NextIsFree(e: Engine, was: seq<ColumnDef>, news: seq<ColumnDef>, order: seq<string>, k: nat, m: nat)
    requires NamesDistinct(news) && Settled(e, was, news, order) && RightUpTo(news, order, k)
    requires k < |order| && k < m < |news| && order[k] == news[m].name
    ensures MysqlPosition(e, was, news, m).Anywhere?
  {
    hide Once, MysqlPosition, Behind, InOldOrder, LastTrails, Placed, NamesDistinct;
    PlacedAt(order, e, was, news, m);
    StandsMeans(order, e, was, news, m);
    if Behind(order, news[m - 1].name, news[m].name) {
      BehindPrevious(order, k, news[m - 1].name);
      NameIs(news, k - 1, m - 1);
    }
  }

  lemma HasPlace(news: seq<ColumnDef>, order: seq<string>, k: nat) returns (x: nat)
    requires NamesDistinct(news) && RightUpTo(news, order, k) && k < |news| && news[k].name in order
    ensures k <= x < |order| && order[x] == news[k].name
  {
    x :| 0 <= x < |order| && order[x] == news[k].name;
    if x < k {
      NameIs(news, x, k);
    }
  }

  lemma StandsFor(news: seq<ColumnDef>, order: seq<string>, k: nat) returns (m: nat)
    requires Once(order) && RightUpTo(news, order, k) && k < |order| && HasColumn(news, order[k])
    ensures k <= m < |news| && order[k] == news[m].name
  {
    hide Once;
    m :| 0 <= m < |news| && news[m].name == order[k];
    if m < k {
      OnceAt(order, m, k);
    }
  }

  /** Of two columns without a position the one designed first stands first. */
  lemma FreeInOrder(e: Engine, was: seq<ColumnDef>, news: seq<ColumnDef>, order: seq<string>, k: nat, m: nat, x: nat)
    requires Settled(e, was, news, order) && UnplacedInOrder(e, was, news)
    requires k < m < |news| && k < x < |order| && order[x] == news[k].name
    requires order[k] == news[m].name
    ensures !(Unplaced(e, was, news, k) && Unplaced(e, was, news, m))
  {
    hide Once, MysqlPosition, Ahead, LastTrails, Placed;
    if Unplaced(e, was, news, k) && Unplaced(e, was, news, m) {
      assert StoodAhead(was, news, k, m);
      AheadAt(order, k, x);
      OnceAhead(order, news[m].name, news[k].name);
    }
  }

  lemma NextRight(e: Engine, was: seq<ColumnDef>, news: seq<ColumnDef>, order: seq<string>, k: nat)
    requires NamesDistinct(news) && Settled(e, was, news, order) && UnplacedInOrder(e, was, news)
    requires RightUpTo(news, order, k) && k < |news|
    ensures RightUpTo(news, order, k + 1)
  {
    hide Once, MysqlPosition, InOldOrder, Placed, NamesDistinct, UnplacedInOrder;
    assert HasColumn(news, news[k].name);
    if !MysqlPosition(e, was, news, k).Anywhere? {
      PlacedNext(e, was, news, order, k);
    } else {
      var x := HasPlace(news, order, k);
      assert order[k] in order;
      var m := StandsFor(news, order, k);
      if m > k {
        NextIsFree(e, was, news, order, k, m);
        if x > k {
          FreeInOrder(e, was, news, order, k, m, x);
          LastIsLast(e, was, news, order, k, m);
        } else {
          NameIs(news, k, m);
        }
      }
    }
  }

  lemma LastIsLast(e: Engine, was: seq<ColumnDef>, news: seq<ColumnDef>, order: seq<string>, k: nat, m: nat)
    requires Settled(e, was, news, order) && k < m < |news| && k + 1 < |order| && order[k] == news[m].name
    requires MysqlPosition(e, was, news, k).Anywhere? && MysqlPosition(e, was, news, m).Anywhere?
    ensures Unplaced(e, was, news, k) && Unplaced(e, was, news, m)
  {
    hide Once, MysqlPosition, InOldOrder, Placed;
    if news[m].original.None? {
      OnceAt(order, k, |order| - 1);
    }
  }

  lemma {:induction false} AllRight(e: Engine, was: seq<ColumnDef>, news: seq<ColumnDef>, order: seq<string>, k: nat)
    requires NamesDistinct(news) && Settled(e, was, news, order) && UnplacedInOrder(e, was, news)
    requires RightUpTo(news, order, k)
    ensures RightUpTo(news, order, |news|)
    decreases |news| - k
  {
    hide Settled, UnplacedInOrder, NamesDistinct;
    if k < |news| {
      NextRight(e, was, news, order, k);
      AllRight(e, was, news, order, k + 1);
    }
  }

  lemma RightIsAll(news: seq<ColumnDef>, order: seq<string>)
    requires Once(order) && RightUpTo(news, order, |news|) && forall q :: q in order ==> HasColumn(news, q)
    ensures order == NamesOf(news)
  {
    hide Once;
    if |order| > |news| {
      assert order[|news|] in order;
      var m := StandsFor(news, order, |news|);
    }
  }

  /** A settled order is the designed one exactly when the columns without a position are in order. */
  lemma OrderDecided(e: Engine, was: seq<ColumnDef>, news: seq<ColumnDef>, order: seq<string>)
    requires NamesDistinct(was) && NamesDistinct(news) && Fresh(was, news) && Settled(e, was, news, order)
    ensures order == NamesOf(news) <==> UnplacedInOrder(e, was, news)
  {
    hide Once, MysqlPosition, Placed, NamesDistinct, Ahead, LastTrails, Fresh;
    if UnplacedInOrder(e, was, news) {
      AllRight(e, was, news, order, 0);
      RightIsAll(news, order);
    }
    if order == NamesOf(news) {
      forall i, j | 0 <= i < j < |news| && Unplaced(e, was, news, i) && Unplaced(e, was, news, j)
        ensures StoodAhead(was, news, i, j)
      {
        OriginsApart(was, news, i, j);
        AheadAt(order, i, j);
        OnceAhead(order, news[i].name, news[j].name);
        assert !StoodAhead(was, news, j, i);
      }
    }
  }

  lemma OriginsApart(was: seq<ColumnDef>, news: seq<ColumnDef>, i: nat, j: nat)
    requires Fresh(was, news) && i < j < |news| && news[i].original.Some? && news[j].original.Some?
    ensures ColumnAt(was, news[i].original.value) != ColumnAt(was, news[j].original.value)
  {
    ColumnAtHas(was, news[i].original.value);
    ColumnAtHas(was, news[j].original.value);
    NameNotOrigin(was, news, i, j);
  }

  // ------------------------------------------------------------------ the plan

  lemma OrderSettled(e: Engine, was: TableDesign, next: TableDesign, vals: map<string, seq<Value>>, count: nat)
    requires e.IsMysqlFamily() && NamesDistinct(was.columns) && NamesDistinct(next.columns)
      && Fresh(was.columns, next.columns) && next.columns != []
    requires AlterTable(e, was, next).Ok?
      && Run(e, AlterTable(e, was, next).value.steps, TableOf(e, was, vals, count)).Some?
    ensures var r := Run(e, AlterTable(e, was, next).value.steps, TableOf(e, was, vals, count)).value;
      && Neat(r) && InOldOrder(e, was.columns, next.columns, |next.columns|, r.order)
      && LastTrails(e, was.columns, next.columns, r.order)
  {
    hide Run, NamesDistinct, Fresh, Validate, DropParts, DropKey, DropColumns, AlterColumns, AddParts, TableComment,
      TableOf, AllStill, Neat, InOldOrder, LastTrails, KeptAhead;
    var a, b, c := When(OldName(was, next) != next.name, RenameTable(next.name)), DropParts(e, was, next),
      DropKey(e, was, next).value;
    var d, f := DropColumns(e, was.columns, next.columns), AlterColumns(e, was.columns, next.columns, 0).value;
    var g, h := AddParts(e, was, next), TableComment(e, was, next);
    var t0, before, after := TableOf(e, was, vals, count), a + b + c, g + h;
    assert AlterTable(e, was, next).value.steps == before + (d + (f + after));
    WhenStill(OldName(was, next) != next.name, RenameTable(next.name));
    DropPartsStill(e, was, next);
    DropKeyStill(e, was, next);
    StillAppend(a, b);
    StillAppend(a + b, c);
    SplitRun(e, before, d + (f + after), t0);
    StillOrders(e, before, t0);
    var t1 := Run(e, before, t0).value;
    OrderOfTable(e, was, vals, count);
    LoadedNeat(e, was, vals, count, t1);
    SplitRun(e, d, f + after, t1);
    DropsOrder(e, was.columns, next.columns, t1);
    var t2 := Run(e, d, t1).value;
    SplitRun(e, f, after, t2);
    LoadedInOrder(e, was.columns, next.columns, t2.order);
    ColumnsTurned(e, was.columns, next.columns, 0, t2);
    var t3 := Run(e, f, t2).value;
    AddPartsStill(e, was, next);
    TableCommentStill(e, was, next);
    StillAppend(g, h);
    StillOrders(e, after, t3);
    StillNeat(t3, Run(e, after, t3).value);
  }

  lemma StillNeat(t: Tbl, u: Tbl)
    requires Neat(t) && u.order == t.order && u.cols.Keys == t.cols.Keys
    ensures Neat(u)
  {
    hide Once;
  }

  lemma AllPlaced(e: Engine, was: TableDesign, next: TableDesign, vals: map<string, seq<Value>>, count: nat)
    requires e.IsMysqlFamily() && NamesDistinct(was.columns) && NamesDistinct(next.columns)
      && Fresh(was.columns, next.columns)
    requires AlterTable(e, was, next).Ok?
      && Run(e, AlterTable(e, was, next).value.steps, TableOf(e, was, vals, count)).Some?
    ensures Placed(Run(e, AlterTable(e, was, next).value.steps, TableOf(e, was, vals, count)).value.order, e,
      was.columns,
      next.columns, |next.columns|)
  {
    hide Run, NamesDistinct, Fresh, AlterTable, TableOf, MysqlPosition, Behind, Leads, Stands;
    var order := Run(e, AlterTable(e, was, next).value.steps, TableOf(e, was, vals, count)).value.order;
    forall j | 0 <= j < |next.columns|
      ensures Stands(order, e, was.columns, next.columns, j)
    {
      PlacementHolds(e, was, next, vals, count, j);
      StandsMeans(order, e, was.columns, next.columns, j);
      PositionIs(e, was.columns, next.columns, j);
    }
  }

  /**
   MySQL and MariaDB, fresh names: a plan that has run through leaves each designed
   column in the order once, and nothing else; that is the designed order exactly
   when the columns that stay behind their old neighbour keep their order.
   */
  lemma OrderLeft(e: Engine, was: TableDesign, next: TableDesign, vals: map<string, seq<Value>>, count: nat)
    requires e.IsMysqlFamily() && SoundEdit(was, next) && LoadedRows(was, vals) && ChecksApart(was)
      && KeysServed(e, was)
    requires AlterTable(e, was, next).Ok?
      && Run(e, AlterTable(e, was, next).value.steps, TableOf(e, was, vals, count)).Some?
    ensures var order := Run(e, AlterTable(e, was, next).value.steps, TableOf(e, was, vals, count)).value.order;
      && Once(order) && (forall q :: q in order <==> HasColumn(next.columns, q))
      && (order == NamesOf(next.columns) <==> StayInOrder(was.columns, next.columns))
  {
    hide Run, SoundEdit, LoadedRows, ChecksApart, KeysServed, TableOf, NamesDistinct, Fresh, StayInOrder,
      UnplacedInOrder, Once, Placed,
      InOldOrder, LastTrails, Grown, Reached, Carried, AlterSteps;
    SoundEditParts(was, next);
    SoundColumns(was);
    SoundColumns(next);
    PlanGives(e, was, next, vals, count);
    OrderSettled(e, was, next, vals, count);
    AllPlaced(e, was, next, vals, count);
    var r := Run(e, AlterTable(e, was, next).value.steps, TableOf(e, was, vals, count)).value;
    forall q
      ensures q in r.order <==> HasColumn(next.columns, q)
    {
      ReachedColumns(e, was, next, vals, count, q);
    }
    OrderDecided(e, was.columns, next.columns, r.order);
    InOrderAlike(e, was.columns, next.columns);
  }

  lemma ReachedColumns(e: Engine, was: TableDesign, next: TableDesign, vals: map<string, seq<Value>>, count: nat,
    q: string)
    ensures q in TableOf(e, Reached(was, next), Carried(next.columns, vals, count), count).cols <==>
      HasColumn(next.columns, q)
  {
    hide ColumnsOf, Carried;
    ColumnsOfKeys(e, Reached(was, next), next.columns, Carried(next.columns, vals, count), q);
  }

  /** The name the column had, and still has. */
  predicate Keeps(c: ColumnDef, name: string) {
    c.name == name && c.original == Some(name)
  }

  /** Two halves of four columns change places: the plan moves two of them, and so leaves another order. */
  lemma HalvesSwapped(was: seq<ColumnDef>, news: seq<ColumnDef>)
    requires |was| == 4 && NamesDistinct(was) && |news| == 4
    requires forall i :: 0 <= i < 4 ==> Keeps(news[i], was[(i + 2) % 4].name)
    ensures !StayInOrder(was, news)
  {
    hide NamesDistinct;
    forall i | 0 <= i < 4
      ensures ColumnAt(was, was[i].name) == i
    {
      AtItsName(was, i);
    }
    assert Keeps(news[0], was[2].name) && Keeps(news[1], was[3].name);
    assert Keeps(news[2], was[0].name) && Keeps(news[3], was[1].name);
    assert Stays(was, news, 1) && Stays(was, news, 3) && !StoodAhead(was, news, 1, 3);
  }

  lemma AtItsName(was: seq<ColumnDef>, i: nat)
    requires NamesDistinct(was) && i < |was|
    ensures ColumnAt(was, was[i].name) == i
  {
    hide ColumnAt;
    ColumnAtHas(was, was[i].name);
    NameIs(was, ColumnAt(was, was[i].name), i);
  }
}
