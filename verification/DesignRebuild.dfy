/** SQLite's rebuild: what it leaves behind, and that a failure anywhere before its end leaves everything as it was. */
module DesignRebuild {
  import opened Prelude
  import opened Engines
  import opened Design
  import opened DesignExec
  import opened DesignParts
  import opened DesignValid
  import opened DesignMoves
  import opened DesignPhases
  import opened DesignAdds
  import opened DesignReach
  import opened DesignSqlite
  import opened Transactions

  // ------------------------------------------------------------------ copying the rows

  /** What a column of the new table holds: the old values when it is copied, its default otherwise. */
  function Refilled(was: seq<ColumnDef>, n: ColumnDef, vals: map<string, seq<Value>>, count: nat): seq<Value> {
    if IsCopied(was, n) && n.original.value in vals then vals[n.original.value] else Defaults(n, count)
  }

  function AllRefilled(was: seq<ColumnDef>, news: seq<ColumnDef>, vals: map<string, seq<Value>>,
      count: nat): map<string, seq<Value>> {
    if news == [] then map[] else AllRefilled(was, news[1..], vals,
      count)[news[0].name := Refilled(was, news[0], vals, count)]
  }

  lemma {:induction false} AllRefilledAt(was: seq<ColumnDef>, news: seq<ColumnDef>, vals: map<string, seq<Value>>,
      count: nat, j: nat)
    requires NamesDistinct(news) && j < |news|
    ensures news[j].name in AllRefilled(was, news, vals, count)
    ensures AllRefilled(was, news, vals, count)[news[j].name] == Refilled(was, news[j], vals, count)
    decreases j
  {
    hide Refilled;
    if j > 0 {
      assert news[0].name != news[j].name;
      NamesTail(news);
      AllRefilledAt(was, news[1..], vals, count, j - 1);
    }
  }

  /** Every NOT NULL column of the new table gets a value in every row. */
  predicate Fillable(was: TableDesign, next: TableDesign, vals: map<string, seq<Value>>, count: nat) {
    forall j :: 0 <= j < |next.columns| ==>
      Accepts(AttrOf(Sqlite, next.columns[j], InlineKey(Sqlite, next) == Some(next.columns[j].name)),
        Refilled(was.columns, next.columns[j], vals, count))
  }

  predicate Loaded(was: TableDesign, vals: map<string, seq<Value>>) {
    forall i :: 0 <= i < |was.columns| ==> was.columns[i].name in vals
  }

  lemma CopiedSource(was: TableDesign, n: ColumnDef, vals: map<string, seq<Value>>, count: nat)
    requires NamesDistinct(was.columns) && Loaded(was, vals) && IsCopied(was.columns, n)
    ensures n.original.Some? && n.original.value in TableOf(Sqlite, was, vals, count).cols
    ensures TableOf(Sqlite, was, vals, count).cols[n.original.value].values == vals[n.original.value]
    ensures n.original.value in vals
  {
    hide AttrOf, ColumnsOf;
    var i := ColumnAt(was.columns, n.original.value);
    assert was.columns[i].name == n.original.value;
    ColumnsOfAt(Sqlite, was, was.columns, vals, i);
  }

  /** The pairs give each new column the values of the one column it was. */
  lemma {:induction false} CopiedIntoIs(was: TableDesign, cs: seq<ColumnDef>, j: nat, vals: map<string, seq<Value>>,
      count: nat, t: Tbl)
    requires NamesDistinct(was.columns) && Loaded(was, vals) && NamesDistinct(cs) && j < |cs| && cs[j].name in t.cols
    ensures CopiedInto(t, TableOf(Sqlite, was, vals, count), CopiedPairs(was.columns, cs), cs[j].name) ==
      if IsCopied(was.columns, cs[j]) then vals[cs[j].original.value] else Fill(t.cols[cs[j].name].attr, count)
    decreases |cs|
  {
    hide AttrOf, ColumnsOf, IsCopied, Fill, Loaded, Lookup;
    NamesTail(cs);
    var rest := CopiedPairs(was.columns, cs[1..]);
    if IsCopied(was.columns, cs[0]) {
      CopiedSource(was, cs[0], vals, count);
      assert ([(cs[0].original.value, cs[0].name)] + rest)[1..] == rest;
    } else {
      assert [] + rest == rest;
    }
    if j > 0 {
      assert cs[0].name != cs[j].name;
      CopiedIntoIs(was, cs[1..], j - 1, vals, count, t);
    } else {
      NoPairFor(was.columns, cs[1..], cs[0].name, t, TableOf(Sqlite, was, vals, count));
    }
  }

  lemma {:induction false} NoPairFor(was: seq<ColumnDef>, cs: seq<ColumnDef>, name: string, t: Tbl, source: Tbl)
    requires name in t.cols && forall i :: 0 <= i < |cs| ==> cs[i].name != name
    ensures CopiedInto(t, source, CopiedPairs(was, cs), name) == Fill(t.cols[name].attr, source.count)
    decreases |cs|
  {
    hide IsCopied, Fill;
    if cs != [] {
      var rest := CopiedPairs(was, cs[1..]);
      assert cs[0].name != name;
      NoPairFor(was, cs[1..], name, t, source);
      if IsCopied(was, cs[0]) {
        CopiedHasOrigin(was, cs[0]);
        assert ([(cs[0].original.value, cs[0].name)] + rest)[1..] == rest;
      } else {
        assert [] + rest == rest;
      }
    }
  }

  lemma CopiedHasOrigin(was: seq<ColumnDef>, n: ColumnDef)
    requires IsCopied(was, n)
    ensures n.original.Some?
  {
  }

  lemma {:induction false} PairsAre(was: TableDesign, cs: seq<ColumnDef>, vals: map<string, seq<Value>>, count: nat,
      i: nat)
    requires NamesDistinct(was.columns) && Loaded(was, vals) && i < |CopiedPairs(was.columns, cs)|
    ensures CopiedPairs(was.columns, cs)[i].0 in TableOf(Sqlite, was, vals, count).cols
      && HasColumn(cs, CopiedPairs(was.columns, cs)[i].1)
    decreases |cs|
  {
    hide AttrOf, ColumnsOf, IsCopied, Fill, Loaded, Lookup;
    HasColumnTail(cs, CopiedPairs(was.columns, cs)[i].1);
    if IsCopied(was.columns, cs[0]) {
      CopiedSource(was, cs[0], vals, count);
      if i > 0 {
        PairsAre(was, cs[1..], vals, count, i - 1);
      }
    } else {
      PairsAre(was, cs[1..], vals, count, i);
    }
  }

  /** The new table just created, and the same with the rows. */
  function Empty(next: TableDesign): Tbl {
    TableOf(Sqlite, Shape(next), map[], 0)
  }

  function Filled(was: TableDesign, next: TableDesign, vals: map<string, seq<Value>>, count: nat): Tbl {
    TableOf(Sqlite, Shape(next), AllRefilled(was.columns, next.columns, vals, count), count)
  }

  lemma ColumnOfBoth(was: TableDesign, next: TableDesign, vals: map<string, seq<Value>>, count: nat, j: nat)
    requires NamesDistinct(was.columns) && NamesDistinct(next.columns) && Loaded(was, vals) && j < |next.columns|
    ensures var n := next.columns[j]; var a := AttrOf(Sqlite, n, InlineKey(Sqlite, next) == Some(n.name));
      && n.name in Empty(next).cols && Empty(next).cols[n.name] == Column(a, [])
      && n.name in Filled(was, next, vals, count).cols
      && Filled(was, next, vals, count).cols[n.name] == Column(a, Refilled(was.columns, n, vals, count))
      && CopiedInto(Empty(next), TableOf(Sqlite, was, vals, count), CopiedPairs(was.columns, next.columns), n.name) ==
        Refilled(was.columns, n, vals, count)
  {
    hide AttrOf, ColumnsOf, IsCopied, AllRefilled, Defaults, Fill, CopiedInto, CopiedPairs, Loaded;
    var n := next.columns[j];
    assert InlineKey(Sqlite, Shape(next)) == InlineKey(Sqlite, next);
    ColumnsOfAt(Sqlite, Shape(next), next.columns, map[], j);
    ColumnsOfAt(Sqlite, Shape(next), next.columns, AllRefilled(was.columns, next.columns, vals, count), j);
    AllRefilledAt(was.columns, next.columns, vals, count, j);
    CopiedIntoIs(was, next.columns, j, vals, count, Empty(next));
    FillIsDefaults(Sqlite, n, InlineKey(Sqlite, next) == Some(n.name), count);
    if IsCopied(was.columns, n) {
      CopiedSource(was, n, vals, count);
    }
  }

  /** The columns of the new table before and after the copy. */
  lemma CopiedColumn(was: TableDesign, next: TableDesign, vals: map<string, seq<Value>>, count: nat, q: string)
    requires NamesDistinct(was.columns) && NamesDistinct(next.columns) && Loaded(was, vals)
    ensures var t, s, f := Empty(next), TableOf(Sqlite, was, vals, count), Filled(was, next, vals, count);
      && (q in t.cols <==> q in f.cols)
      && (q in t.cols ==> t.cols[q].(values := t.cols[q].values
        + CopiedInto(t, s, CopiedPairs(was.columns, next.columns), q)) == f.cols[q])
  {
    hide AttrOf, ColumnsOf, CopiedInto, CopiedPairs, Loaded, Refilled, NamesDistinct, InlineKey, HasColumn, AllRefilled;
    ColumnsOfAll(Sqlite, Shape(next), map[]);
    ColumnsOfAll(Sqlite, Shape(next), AllRefilled(was.columns, next.columns, vals, count));
    if q in Empty(next).cols {
      var j := ColumnOffset(next.columns, q);
      ColumnOfBoth(was, next, vals, count, j);
      assert [] + Refilled(was.columns, next.columns[j], vals, count) ==
        Refilled(was.columns, next.columns[j], vals, count);
    }
  }

  lemma CopiesThere(was: TableDesign, next: TableDesign, vals: map<string, seq<Value>>, count: nat)
    requires NamesDistinct(was.columns) && NamesDistinct(next.columns) && Loaded(was, vals)
    ensures var pairs := CopiedPairs(was.columns, next.columns);
      forall i :: 0 <= i < |pairs| ==>
        pairs[i].0 in TableOf(Sqlite, was, vals, count).cols && pairs[i].1 in Empty(next).cols
  {
    hide AttrOf, ColumnsOf, CopiedPairs, Loaded, NamesDistinct, HasColumn;
    ColumnsOfAll(Sqlite, Shape(next), map[]);
    var pairs := CopiedPairs(was.columns, next.columns);
    forall i | 0 <= i < |pairs|
      ensures pairs[i].0 in TableOf(Sqlite, was, vals, count).cols && pairs[i].1 in Empty(next).cols
    {
      PairsAre(was, next.columns, vals, count, i);
    }
  }

  /** Nothing but the columns and the row count changes when rows are copied. */
  lemma FilledRest(was: TableDesign, next: TableDesign, vals: map<string, seq<Value>>, count: nat)
    ensures var t, f := Empty(next), Filled(was, next, vals, count);
      f == t.(cols := f.cols, count := count) && t.count == 0
  {
    hide ColumnsOf, Bodies, KeyOf, NamesOf;
  }

  /**
   INSERT … SELECT runs exactly when every NOT NULL column gets its values, and then
   every column holds what it should.
   */
  lemma CopyRuns(was: TableDesign, next: TableDesign, vals: map<string, seq<Value>>, count: nat)
    requires NamesDistinct(was.columns) && NamesDistinct(next.columns) && Loaded(was, vals)
    ensures CopyRows(Empty(next), TableOf(Sqlite, was, vals, count), CopiedPairs(was.columns, next.columns)) ==
      if Fillable(was, next, vals, count) then Some(Filled(was, next, vals, count)) else None
  {
    hide CopiedInto, CopiedPairs, Loaded, Accepts, NamesDistinct, Empty, Filled, Fillable, ColumnsOf;
    var t, s, pairs := Empty(next), TableOf(Sqlite, was, vals, count), CopiedPairs(was.columns, next.columns);
    var f := Filled(was, next, vals, count);
    CopiesThere(was, next, vals, count);
    FillableIs(was, next, vals, count);
    FilledRest(was, next, vals, count);
    if Fillable(was, next, vals, count) {
      var cols := map q | q in t.cols :: t.cols[q].(values := t.cols[q].values + CopiedInto(t, s, pairs, q));
      forall q
        ensures (q in cols <==> q in f.cols) && (q in cols ==> cols[q] == f.cols[q])
      {
        CopiedColumn(was, next, vals, count, q);
      }
      assert cols == f.cols;
    }
  }

  lemma ColumnOffset(cs: seq<ColumnDef>, q: string) returns (j: nat)
    requires HasColumn(cs, q)
    ensures j < |cs| && cs[j].name == q
  {
    var i :| 0 <= i < |cs| && cs[i].name == q;
    j := i;
  }

  lemma FillableIs(was: TableDesign, next: TableDesign, vals: map<string, seq<Value>>, count: nat)
    requires NamesDistinct(was.columns) && NamesDistinct(next.columns) && Loaded(was, vals)
    ensures var t, s, pairs := Empty(next), TableOf(Sqlite, was, vals, count), CopiedPairs(was.columns, next.columns);
      (forall q :: q in t.cols ==> Accepts(t.cols[q].attr, CopiedInto(t, s, pairs, q))) <==>
        Fillable(was, next, vals, count)
  {
    hide AttrOf, ColumnsOf, CopiedInto, CopiedPairs, Loaded, Accepts, Refilled, NamesDistinct, InlineKey, HasColumn,
      Filled;
    var t, s, pairs := Empty(next), TableOf(Sqlite, was, vals, count), CopiedPairs(was.columns, next.columns);
    ColumnsOfAll(Sqlite, Shape(next), map[]);
    if forall q :: q in t.cols ==> Accepts(t.cols[q].attr, CopiedInto(t, s, pairs, q)) {
      forall j | 0 <= j < |next.columns|
        ensures Accepts(AttrOf(Sqlite, next.columns[j], InlineKey(Sqlite, next) == Some(next.columns[j].name)),
          Refilled(was.columns, next.columns[j], vals, count))
      {
        ColumnOfBoth(was, next, vals, count, j);
        assert Accepts(t.cols[next.columns[j].name].attr, CopiedInto(t, s, pairs, next.columns[j].name));
      }
    }
    if Fillable(was, next, vals, count) {
      forall q | q in t.cols
        ensures Accepts(t.cols[q].attr, CopiedInto(t, s, pairs, q))
      {
        var j := ColumnOffset(next.columns, q);
        ColumnOfBoth(was, next, vals, count, j);
      }
    }
  }
}
