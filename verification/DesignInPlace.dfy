/** SQLite in place: the steps give the table the new design describes, columns in the same order and rows included. */
module DesignInPlace {
  import opened Prelude
  import opened Engines
  import opened Design
  import opened DesignExec
  import opened DesignParts
  import opened DesignValid
  import opened DesignMoves
  import opened DesignPostgres
  import opened DesignPhases
  import opened DesignReach
  import opened DesignSqlite
  import opened DesignFolds

  // ------------------------------------------------------------------ order

  lemma WithoutAbsent(order: seq<string>, x: string)
    requires x !in order
    ensures Without(order, x) == order
  {
    if order != [] {
      WithoutAbsent(order[1..], x);
    }
  }

  lemma {:induction false} WithoutMiddle(a: seq<string>, x: string, b: seq<string>)
    requires x !in a && x !in b
    ensures Without(a + [x] + b, x) == a + b
  {
    var all := a + [x] + b;
    if a == [] {
      assert all[1..] == b;
      WithoutAbsent(b, x);
      assert [] + b == b;
    } else {
      assert all[1..] == a[1..] + [x] + b;
      WithoutMiddle(a[1..], x, b);
      assert [a[0]] + (a[1..] + b) == a + b;
    }
  }

  lemma ReplacedMiddle(a: seq<string>, x: string, b: seq<string>, to: string)
    requires x !in a && x !in b
    ensures Replaced(a + [x] + b, x, to) == a + [to] + b
  {
    var all := a + [x] + b;
    forall i | 0 <= i < |all|
      ensures Replaced(all, x, to)[i] == (a + [to] + b)[i]
    {
      if i < |a| {
        assert all[i] == a[i];
      } else if i > |a| {
        assert all[i] == b[i - |a| - 1];
      }
    }
  }

  lemma NamesOfCons(cs: seq<ColumnDef>)
    requires cs != []
    ensures NamesOf(cs) == [cs[0].name] + NamesOf(cs[1..])
  {
  }

  lemma {:induction false} OriginalsAre(cs: seq<ColumnDef>, q: string)
    ensures q in Originals(cs) <==> IsKept(cs, q)
  {
    if cs != [] {
      OriginalsAre(cs[1..], q);
      if IsKept(cs, q) {
        var i :| 0 <= i < |cs| && cs[i].original == Some(q);
        if i > 0 {
          assert cs[1..][i - 1].original == Some(q);
        }
      }
      if IsKept(cs[1..], q) {
        var i :| 0 <= i < |cs[1..]| && cs[1..][i].original == Some(q);
        assert cs[i + 1].original == Some(q);
      }
    }
  }

  lemma {:induction false} NoOriginals(cs: seq<ColumnDef>)
    requires forall i :: 0 <= i < |cs| ==> cs[i].original.None?
    ensures Originals(cs) == []
  {
    if cs != [] {
      assert cs[0].original.None?;
      NoOriginals(cs[1..]);
    }
  }

  lemma {:induction false} StillThereFits(olds: seq<ColumnDef>, kept: seq<string>)
    ensures |StillThere(olds, kept)| <= |olds|
  {
    if olds != [] {
      StillThereFits(olds[1..], kept);
    }
  }

  // ------------------------------------------------------------------ dropping columns

  /** No dropped column is part of an index. */
  predicate DropsFree(olds: seq<ColumnDef>, news: seq<ColumnDef>, t: Tbl) {
    forall i :: 0 <= i < |olds| && !IsKept(news, olds[i].name) ==> !IndexedIn(t, olds[i].name)
  }

  predicate IndexedIn(t: Tbl, name: string) {
    exists k :: k in t.indexes && IndexUses(t.indexes[k], name)
  }

  /** Apart from its indexes, everything refers to stable columns. */
  ghost predicate KeysStable(t: Tbl, news: seq<ColumnDef>) {
    && (t.key.Some? ==> forall n :: n in t.key.value.columns ==> Stable(news, n))
    && (forall k, n :: k in t.fks && n in t.fks[k].columns ==> Stable(news, n))
  }

  lemma DropOne(t: Tbl, news: seq<ColumnDef>, name: string)
    requires KeysStable(t, news) && name in t.cols && !IsKept(news, name) && |t.order| > 1
    ensures Exec(Sqlite, t, DropColumn(name)) ==
      if IndexedIn(t, name) then None else Some(t.(order := Without(t.order, name), cols := t.cols - {name}))
  {
    hide IsKept, IndexUses, Stable, Referred;
    if Stable(news, name) {
      StableIsKept([], news, name);
    }
  }

  lemma OrderKeeps(prefix: seq<string>, olds: seq<ColumnDef>, kept: seq<string>)
    requires olds != [] && olds[0].name in kept
    ensures prefix + NamesOf(olds) == (prefix + [olds[0].name]) + NamesOf(olds[1..])
    ensures prefix + StillThere(olds, kept) == (prefix + [olds[0].name]) + StillThere(olds[1..], kept)
  {
    NamesOfCons(olds);
  }

  lemma OrderDrops(prefix: seq<string>, olds: seq<ColumnDef>, kept: seq<string>)
    requires NamesDistinct(olds) && olds != [] && olds[0].name !in kept && olds[0].name !in prefix
    requires prefix + StillThere(olds, kept) != []
    ensures StillThere(olds, kept) == StillThere(olds[1..], kept) && |prefix + NamesOf(olds)| > 1
    ensures Without(prefix + NamesOf(olds), olds[0].name) == prefix + NamesOf(olds[1..])
  {
    NamesOfCons(olds);
    NamesTail(olds);
    StillThereFits(olds[1..], kept);
    assert [] + StillThere(olds[1..], kept) == StillThere(olds[1..], kept);
    assert prefix + NamesOf(olds) == prefix + [olds[0].name] + NamesOf(olds[1..]);
    WithoutMiddle(prefix, olds[0].name, NamesOf(olds[1..]));
  }

  predicate AllThere(olds: seq<ColumnDef>, t: Tbl, prefix: seq<string>) {
    forall i :: 0 <= i < |olds| ==> olds[i].name in t.cols && olds[i].name !in prefix
  }

  lemma AllThereTail(olds: seq<ColumnDef>, t: Tbl, prefix: seq<string>)
    requires NamesDistinct(olds) && olds != [] && AllThere(olds, t, prefix)
    ensures AllThere(olds[1..], t, prefix + [olds[0].name])
      && AllThere(olds[1..], t.(cols := t.cols - {olds[0].name}), prefix)
    ensures NamesDistinct(olds[1..]) && olds[0].name in t.cols && olds[0].name !in prefix
  {
    NamesTail(olds);
    forall i | 0 <= i < |olds[1..]|
      ensures olds[1..][i].name in t.cols && olds[1..][i].name !in prefix
    {
      assert olds[i + 1].name in t.cols;
    }
  }

  lemma DropColumnsCons(olds: seq<ColumnDef>, news: seq<ColumnDef>)
    requires olds != []
    ensures DropColumns(Sqlite, olds, news) ==
      if IsKept(news, olds[0].name) then DropColumns(Sqlite, olds[1..], news)
      else [DropColumn(olds[0].name)] + DropColumns(Sqlite, olds[1..], news)
    ensures DroppedNames(olds, news) ==
      (if IsKept(news, olds[0].name) then {} else {olds[0].name}) + DroppedNames(olds[1..], news)
  {
    hide IsKept;
    var rest := DropColumns(Sqlite, olds[1..], news);
    assert [] + rest == rest;
    assert [] + [DropColumn(olds[0].name)] == [DropColumn(olds[0].name)];
  }

  /** The drops go through exactly when no index is in the way, and leave the kept columns in their order. */
  lemma {:induction false} ColumnDropsRun(prefix: seq<string>, olds: seq<ColumnDef>, news: seq<ColumnDef>,
      t: Tbl) returns (u: Tbl)
    requires KeysStable(t, news) && NamesDistinct(olds) && t.order == prefix + NamesOf(olds)
    requires AllThere(olds, t, prefix)
    requires prefix + StillThere(olds, Originals(news)) != []
    ensures Run(Sqlite, DropColumns(Sqlite, olds, news), t) == if DropsFree(olds, news, t) then Some(u) else None
    ensures DropsFree(olds, news, t) ==>
      SameBut(t, u) && u.cols == t.cols - DroppedNames(olds, news)
        && u.order == prefix + StillThere(olds, Originals(news))
    decreases |olds|
  {
    hide Run, KeysStable, IsKept, Exec, IndexedIn, NamesDistinct, Originals, StillThere, NamesOf, AllThere, DropsFree,
      DropColumns, DroppedNames, Without;
    u := t;
    if olds == [] {
      DropsNothing(prefix, news, t);
    } else {
      var x := olds[0].name;
      AllThereTail(olds, t, prefix);
      OriginalsAre(news, x);
      DropColumnsCons(olds, news);
      DropsFreeTail(olds, news, t);
      if IsKept(news, x) {
        OrderKeeps(prefix, olds, Originals(news));
        u := ColumnDropsRun(prefix + [x], olds[1..], news, t);
      } else {
        OrderDrops(prefix, olds, Originals(news));
        DropOne(t, news, x);
        var mid := t.(order := Without(t.order, x), cols := t.cols - {x});
        if IndexedIn(t, x) {
          RunRefused(Sqlite, DropColumn(x), DropColumns(Sqlite, olds[1..], news), t);
        } else {
          RunOne(Sqlite, DropColumn(x), DropColumns(Sqlite, olds[1..], news), t, mid);
          KeysStableBut(t, mid, news);
          AllThereBut(olds[1..], t.(cols := t.cols - {x}), mid, prefix);
          u := ColumnDropsRun(prefix, olds[1..], news, mid);
          DropsFreeSame(olds[1..], news, t, mid);
        }
      }
    }
  }

  lemma AllThereBut(olds: seq<ColumnDef>, t: Tbl, u: Tbl, prefix: seq<string>)
    requires AllThere(olds, t, prefix) && t.cols == u.cols
    ensures AllThere(olds, u, prefix)
  {
  }

  lemma DropsNothing(prefix: seq<string>, news: seq<ColumnDef>, t: Tbl)
    requires t.order == prefix + NamesOf([])
    ensures Run(Sqlite, DropColumns(Sqlite, [], news), t) == Some(t) && DropsFree([], news, t)
    ensures t.cols == t.cols - DroppedNames([], news) && t.order == prefix + StillThere([], Originals(news))
  {
    RunNothing(Sqlite, t);
  }

  lemma DropsFreeTail(olds: seq<ColumnDef>, news: seq<ColumnDef>, t: Tbl)
    requires olds != []
    ensures DropsFree(olds, news, t) <==>
      (IsKept(news, olds[0].name) || !IndexedIn(t, olds[0].name)) && DropsFree(olds[1..], news, t)
  {
    hide IsKept, IndexedIn;
    if (IsKept(news, olds[0].name) || !IndexedIn(t, olds[0].name)) && DropsFree(olds[1..], news, t) {
      forall i | 0 <= i < |olds| && !IsKept(news, olds[i].name)
        ensures !IndexedIn(t, olds[i].name)
      {
        if i > 0 {
          assert !IsKept(news, olds[1..][i - 1].name);
        }
      }
    }
    if DropsFree(olds, news, t) {
      forall i | 0 <= i < |olds[1..]| && !IsKept(news, olds[1..][i].name)
        ensures !IndexedIn(t, olds[1..][i].name)
      {
        assert !IsKept(news, olds[i + 1].name);
      }
    }
  }

  lemma DropsFreeSame(olds: seq<ColumnDef>, news: seq<ColumnDef>, t: Tbl, u: Tbl)
    requires t.indexes == u.indexes
    ensures DropsFree(olds, news, t) == DropsFree(olds, news, u)
  {
    hide IsKept, IndexUses;
  }

  /** The same foreign keys, but perhaps for what they refer to. */
  predicate SameChildren(a: map<string, ForeignKeyBody>, b: map<string, ForeignKeyBody>) {
    forall k :: k in b ==> k in a && b[k].columns == a[k].columns
  }

  lemma KeysStableBut(t: Tbl, u: Tbl, news: seq<ColumnDef>)
    requires KeysStable(t, news) && t.key == u.key && SameChildren(t.fks, u.fks)
    ensures KeysStable(u, news)
  {
    hide Stable;
  }

  // ------------------------------------------------------------------ adding and renaming columns

  /** The order half way: new names first, then the originals still to come. */
  function OrderAt(news: seq<ColumnDef>, pos: nat): seq<string>
    requires pos <= |news|
  {
    NamesOf(news[..pos]) + Originals(news[pos..])
  }

  /** A renamed column passes its name on to the indexes that are to be dropped; those that stay are not touched. */
  ghost predicate IndexesKept(kept: map<string, IndexBody>, all: set<string>, t: Tbl) {
    SubMap(kept, t.indexes) && t.indexes.Keys == all
  }

  ghost predicate KeptStable(kept: map<string, IndexBody>, news: seq<ColumnDef>) {
    forall k, n :: k in kept && IndexUses(kept[k], n) ==> Stable(news, n)
  }

  lemma RenameKeepsIndexes(kept: map<string, IndexBody>, t: Tbl, name: string, to: string)
    requires SubMap(kept, t.indexes) && forall k :: k in kept ==> !IndexUses(kept[k], name)
    ensures SubMap(kept, RenamedParts(t, name, to).indexes) && RenamedParts(t, name, to).indexes.Keys == t.indexes.Keys
  {
    forall k | k in kept
      ensures RenamedParts(t, name, to).indexes[k] == kept[k]
    {
      assert !IndexUses(kept[k], name);
      RenameIndexIdle(kept[k].columns, name, to);
    }
  }

  lemma RenameKeepsKeys(t: Tbl, name: string, to: string)
    requires !(t.key.Some? && name in t.key.value.columns) && !(exists k :: k in t.fks && name in t.fks[k].columns)
    ensures RenamedParts(t, name, to).key == t.key
      && RenamedParts(t, name, to).fks == RetargetColumn(t.folds, t.fks, t.schema, t.name, name, to)
  {
    if t.key.Some? {
      assert Replaced(t.key.value.columns, name, to) == t.key.value.columns;
    }
    var fks := RenameKeyColumns(t.fks, name, to);
    forall k | k in t.fks
      ensures fks[k] == t.fks[k]
    {
      assert Replaced(t.fks[k].columns, name, to) == t.fks[k].columns;
    }
    assert fks == t.fks;
  }

  lemma RetargetKeepsChildren(folds: bool, fks: map<string, ForeignKeyBody>, schema: Option<string>, table: string,
      name: string,
      to: string)
    ensures SameChildren(fks, RetargetColumn(folds, fks, schema, table, name, to))
  {
  }

  /**
   The same table, except for its columns, their order, the columns of its indexes, and
   what its foreign keys refer to.
   */
  predicate SameRest(t: Tbl, u: Tbl) {
    u == t.(order := u.order, cols := u.cols, indexes := u.indexes, fks := u.fks)
  }

  ghost predicate Calm(kept: map<string, IndexBody>, all: set<string>, news: seq<ColumnDef>, t: Tbl) {
    KeysStable(t, news) && KeptStable(kept, news) && IndexesKept(kept, all, t)
  }

  /** Renaming a column that is kept. */
  lemma RenameRuns(was: seq<ColumnDef>, news: seq<ColumnDef>, kept: map<string, IndexBody>, all: set<string>, pos: nat,
      t: Tbl)
    requires Fresh(was, news) && pos < |news| && news[pos].original.Some? && news[pos].original.value != news[pos].name
    requires news[pos].original.value in t.cols && Calm(kept, all, news, t)
    ensures var u := Renamed(t, news[pos].original.value, news[pos].name);
      SameRest(t, u) && Calm(kept, all, news, u)
        && u.fks == RetargetColumn(t.folds, t.fks, t.schema, t.name, news[pos].original.value, news[pos].name)
  {
    hide RenamedParts, Fresh, Stable, IndexUses, RetargetColumn;
    var q, n := news[pos].original.value, news[pos].name;
    RenamedIsUnstable(was, news, pos);
    RenameKeepsIndexes(kept, t, q, n);
    RenameKeepsKeys(t, q, n);
    assert RenamedParts(t, q, n) == t.(key := RenamedParts(t, q, n).key, indexes := RenamedParts(t, q, n).indexes,
      fks := RenamedParts(t, q, n).fks) by { RenamedPartsOnly(t, q, n); }
    RetargetKeepsChildren(t.folds, t.fks, t.schema, t.name, q, n);
    KeysStableBut(t, Renamed(t, q, n), news);
  }

  lemma RenamedPartsOnly(t: Tbl, name: string, to: string)
    ensures RenamedParts(t, name, to) ==
      t.(key := RenamedParts(t, name, to).key, indexes := RenamedParts(t, name, to).indexes,
        fks := RenamedParts(t, name, to).fks)
  {
  }

  lemma OrderRenamed(was: seq<ColumnDef>, news: seq<ColumnDef>, pos: nat)
    requires Fresh(was, news) && pos < |news| && news[pos].original.Some?
    ensures Replaced(OrderAt(news, pos), news[pos].original.value, news[pos].name) == OrderAt(news, pos + 1)
    ensures news[pos].original.value == news[pos].name ==> OrderAt(news, pos) == OrderAt(news, pos + 1)
  {
    hide Fresh;
    var q, a, b := news[pos].original.value, NamesOf(news[..pos]), Originals(news[pos + 1..]);
    assert news[pos..][0] == news[pos] && news[pos..][1..] == news[pos + 1..];
    assert OrderAt(news, pos) == a + [q] + b;
    forall i | 0 <= i < pos
      ensures a[i] != q
    {
      NameNotOrigin(was, news, i, pos);
    }
    OriginalsAre(news[pos + 1..], q);
    var tail := news[pos + 1..];
    forall i | 0 <= i < |tail|
      ensures tail[i].original != Some(q)
    {
      NameNotOrigin(was, news, pos + 1 + i, pos);
    }
    ReplacedMiddle(a, q, b, news[pos].name);
    assert NamesOf(news[..pos + 1]) == a + [news[pos].name];
  }

  lemma RestIsNew(news: seq<ColumnDef>, pos: nat)
    requires pos < |news| && news[pos].original.None?
    requires forall i :: FirstNew(news) <= i < |news| ==> news[i].original.None?
    ensures forall i :: 0 <= i < |news[pos..]| ==> news[pos..][i].original.None?
  {
    assert FirstNew(news) <= pos;
    var n := FirstNew(news);
    forall i | 0 <= i < |news[pos..]|
      ensures news[pos..][i].original.None?
    {
      assert n <= pos + i < |news| && news[pos..][i] == news[pos + i];
    }
  }

  lemma OrderAdded(news: seq<ColumnDef>, pos: nat)
    requires pos < |news| && news[pos].original.None?
    requires forall i :: 0 <= i < |news[pos..]| ==> news[pos..][i].original.None?
    ensures OrderAt(news, pos) + [news[pos].name] == OrderAt(news, pos + 1)
  {
    hide Originals;
    NoOriginals(news[pos..]);
    assert news[pos..][1..] == news[pos + 1..];
    NoOriginals(news[pos + 1..]);
    assert NamesOf(news[..pos + 1]) == NamesOf(news[..pos]) + [news[pos].name];
  }

  predicate AddsOk(news: seq<ColumnDef>, pos: nat) {
    forall i :: pos <= i < |news| && news[i].original.None? ==> AttrOk(Sqlite, AttrOf(Sqlite, news[i], false))
  }

  /** What the columns start and end as: kept ones the same, new ones with their default in every row. */
  ghost predicate Matches(news: seq<ColumnDef>, start: map<string, Column>, goal: map<string, Column>, count: nat) {
    forall c :: c in news ==> MatchesAt(c, start, goal, count)
  }

  predicate MatchesAt(c: ColumnDef, start: map<string, Column>, goal: map<string, Column>, count: nat) {
    && c.name in goal
    && (c.original.Some? ==> c.original.value in start && goal[c.name] == start[c.original.value])
    && (c.original.None? ==> goal[c.name] == Column(AttrOf(Sqlite, c, false), Fill(AttrOf(Sqlite, c, false), count)))
  }

  lemma StepRuns(was: seq<ColumnDef>, news: seq<ColumnDef>, start: map<string, Column>, goal: map<string, Column>,
                 kept: map<string, IndexBody>, all: set<string>, pos: nat, t: Tbl, rest: seq<Step>) returns (u: Tbl)
    requires FreshInCase(was, news)
    requires NamesDistinct(news) && Fresh(was, news) && Matches(news, start, goal, t.count) && pos < |news|
    requires forall i :: FirstNew(news) <= i < |news| ==> news[i].original.None?
    requires Moving(start, goal, news, pos, t.cols) && t.order == OrderAt(news, pos) && Calm(kept, all, news, t)
      && t.schema == None && t.folds
    ensures Run(Sqlite, AddOrRename([news[pos]]) + rest, t) ==
      if news[pos].original.None? && !AttrOk(Sqlite, AttrOf(Sqlite, news[pos], false)) then None
        else Run(Sqlite, rest, u)
    ensures SameRest(t, u) && Moving(start, goal, news, pos + 1, u.cols) && u.order == OrderAt(news, pos + 1)
      && Calm(kept, all, news, u)
    ensures u.fks == FollowKeys(t.fks, t.name, AddOrRename([news[pos]]))
  {
    hide RetargetColumn, FreshInCase, ColumnLike, Run, Fresh, Moving, OrderAt, Calm, AttrOf, AttrOk, Fill,
      NamesDistinct, FirstNew, Renamed;
    var n := news[pos];
    assert n in news;
    assert MatchesAt(n, start, goal, t.count);
    StepOf(n);
    FollowsStep(t.fks, t.name, n);
    if n.original.None? {
      NameIsFree(was, news, start, goal, pos, t.cols);
      RestIsNew(news, pos);
      OrderAdded(news, pos);
      var c := goal[n.name];
      u := t.(order := t.order + [n.name], cols := t.cols[n.name := c]);
      NoneAlike(was, news, start, goal, pos, t, None);
      AddExec(t, n);
      if AttrOk(Sqlite, AttrOf(Sqlite, n, false)) {
        RunOne(Sqlite, AddColumn(n, Anywhere), rest, t, u);
      } else {
        RunRefused(Sqlite, AddColumn(n, Anywhere), rest, t);
      }
      assert t.cols - {} == t.cols;
      MoveOn(was, news, start, goal, pos, t.cols, u.cols);
      CalmBut(kept, all, news, t, u);
    } else {
      var q := n.original.value;
      OrderRenamed(was, news, pos);
      MovingAt(start, goal, news, pos, t.cols);
      if q == n.name {
        u := t;
        assert [] + rest == rest;
        assert (t.cols - {q})[q := t.cols[q]] == t.cols;
        MoveOn(was, news, start, goal, pos, t.cols, u.cols);
      } else {
        NameIsFree(was, news, start, goal, pos, t.cols);
        RenameRuns(was, news, kept, all, pos, t);
        u := Renamed(t, q, n.name);
        NoneAlike(was, news, start, goal, pos, t, Some(q));
        RenameExec(t, q, n.name);
        RunOne(Sqlite, RenameColumn(q, n.name), rest, t, u);
        MoveOn(was, news, start, goal, pos, t.cols, u.cols);
      }
    }
  }

  /** A name about to be given is that of no other column, in whatever case. */
  lemma NoneAlike(was: seq<ColumnDef>, news: seq<ColumnDef>, start: map<string, Column>, goal: map<string, Column>,
    pos: nat, t: Tbl, but: Option<string>)
    requires Fresh(was, news) && FreshInCase(was, news) && Moving(start, goal, news, pos, t.cols) && pos < |news|
    requires but == news[pos].original
    ensures !ColumnLike(Sqlite, t, news[pos].name, but)
  {
    hide Fresh, FreshInCase, Moving, Lower;
    forall q | q in t.cols && Some(q) != but
      ensures Lower(q) != Lower(news[pos].name)
    {
      NameIsOpen(was, news, start, goal, pos, t.cols, q);
    }
  }

  lemma FollowsStep(fks: map<string, ForeignKeyBody>, table: string, n: ColumnDef)
    ensures FollowKeys(fks, table, AddOrRename([n])) ==
      if n.original.Some? && n.original.value != n.name then
        RetargetColumn(true, fks, None, table, n.original.value, n.name)
        else fks
  {
    hide RetargetColumn;
    StepOf(n);
    if n.original.None? {
      FollowLast(fks, table, AddColumn(n, Anywhere));
    } else if n.original.value != n.name {
      FollowLast(fks, table, RenameColumn(n.original.value, n.name));
    }
  }

  lemma FollowLast(fks: map<string, ForeignKeyBody>, table: string, s: Step)
    ensures FollowKeys(fks, table, [s]) == if s.RenameColumn? then RetargetColumn(true, fks, None, table, s.name, s.to)
      else fks
  {
    hide RetargetColumn;
    assert [s][1..] == [];
    var next := if s.RenameColumn? then RetargetColumn(true, fks, None, table, s.name, s.to) else fks;
    assert FollowKeys(next, table, []) == next;
  }

  lemma {:induction false} FollowAppend(fks: map<string, ForeignKeyBody>, table: string, a: seq<Step>, b: seq<Step>)
    ensures FollowKeys(fks, table, a + b) == FollowKeys(FollowKeys(fks, table, a), table, b)
    decreases |a|
  {
    hide RetargetColumn;
    if a == [] {
      assert a + b == b;
    } else {
      assert (a + b)[1..] == a[1..] + b;
      var s := a[0];
      FollowAppend(if s.RenameColumn? then RetargetColumn(true, fks, None, table, s.name, s.to)
        else fks, table, a[1..], b);
    }
  }

  lemma StepOf(n: ColumnDef)
    ensures AddOrRename([n]) ==
      if n.original.None? then [AddColumn(n, Anywhere)]
      else if n.original.value != n.name then [RenameColumn(n.original.value, n.name)] else []
  {
    assert [n][1..] == [];
    assert AddOrRename([]) == [];
  }

  lemma AddExec(t: Tbl, n: ColumnDef)
    requires n.name !in t.cols && !ColumnLike(Sqlite, t, n.name, None)
    ensures Exec(Sqlite, t, AddColumn(n, Anywhere)) ==
      var a := AttrOf(Sqlite, n, false);
      if AttrOk(Sqlite, a) then Some(t.(order := t.order + [n.name],
        cols := t.cols[n.name := Column(a, Fill(a, t.count))])) else None
  {
    hide AttrOf, AttrOk, Fill, ColumnLike;
  }

  lemma RenameExec(t: Tbl, q: string, to: string)
    requires q in t.cols && to !in t.cols && q != to && !ColumnLike(Sqlite, t, to, Some(q))
    ensures Exec(Sqlite, t, RenameColumn(q, to)) == Some(Renamed(t, q, to))
    ensures Renamed(t, q, to).order == Replaced(t.order, q, to)
      && Renamed(t, q, to).cols == (t.cols - {q})[to := t.cols[q]]
  {
    hide RenamedParts, ColumnLike;
  }

  lemma MovingAt(start: map<string, Column>, goal: map<string, Column>, news: seq<ColumnDef>, pos: nat,
      cols: map<string, Column>)
    requires Moving(start, goal, news, pos, cols) && pos < |news| && news[pos].original.Some?
    ensures var q := news[pos].original.value; q in cols && q in start && cols[q] == start[q]
  {
    hide Done, Waiting;
    assert Agrees(start, news[pos].original.value, cols);
  }

  lemma CalmBut(kept: map<string, IndexBody>, all: set<string>, news: seq<ColumnDef>, t: Tbl, u: Tbl)
    requires Calm(kept, all, news, t) && t.key == u.key && t.fks == u.fks && t.indexes == u.indexes
    ensures Calm(kept, all, news, u)
  {
    hide Stable, IndexUses;
  }

  lemma AddOrRenameCons(news: seq<ColumnDef>, pos: nat)
    requires pos < |news|
    ensures AddOrRename(news[pos..]) == AddOrRename([news[pos]]) + AddOrRename(news[pos + 1..])
  {
    StepOf(news[pos]);
    assert news[pos..][1..] == news[pos + 1..];
  }

  lemma {:induction false} ColumnsRunInPlace(
    was: seq<ColumnDef>, news: seq<ColumnDef>, start: map<string, Column>, goal: map<string, Column>,
    kept: map<string, IndexBody>, all: set<string>, pos: nat, t: Tbl) returns (u: Tbl)
    requires FreshInCase(was, news)
    requires NamesDistinct(news) && Fresh(was, news) && Matches(news, start, goal, t.count) && pos <= |news|
    requires forall i :: FirstNew(news) <= i < |news| ==> news[i].original.None?
    requires Moving(start, goal, news, pos, t.cols) && t.order == OrderAt(news, pos) && Calm(kept, all, news, t)
      && t.schema == None && t.folds
    ensures Run(Sqlite, AddOrRename(news[pos..]), t) == if AddsOk(news, pos) then Some(u) else None
    ensures AddsOk(news, pos) ==>
      SameRest(t, u) && Moving(start, goal, news, |news|, u.cols) && u.order == NamesOf(news)
        && Calm(kept, all, news, u)
      && u.fks == FollowKeys(t.fks, t.name, AddOrRename(news[pos..]))
    decreases |news| - pos
  {
    hide FreshInCase, FollowKeys, Run, Fresh, Moving, Calm, AttrOf, AttrOk, Matches, NamesDistinct, FirstNew;
    u := t;
    if pos == |news| {
      assert news[pos..] == [] && news[..pos] == news;
      RunNothing(Sqlite, t);
      FollowNone(t.fks, t.name);
    } else {
      AddOrRenameCons(news, pos);
      var mid := StepRuns(was, news, start, goal, kept, all, pos, t, AddOrRename(news[pos + 1..]));
      FollowAppend(t.fks, t.name, AddOrRename([news[pos]]), AddOrRename(news[pos + 1..]));
      u := ColumnsRunInPlace(was, news, start, goal, kept, all, pos + 1, mid);
    }
  }

  lemma FollowNone(fks: map<string, ForeignKeyBody>, table: string)
    ensures AddOrRename([]) == [] && FollowKeys(fks, table, []) == fks
  {
  }
}
