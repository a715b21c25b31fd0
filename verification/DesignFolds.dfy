/** SQLite compares names without case: what that means for the indexes, triggers and columns of one table. */
module DesignFolds {
  import opened Prelude
  import opened Engines
  import opened Design
  import opened DesignExec
  import opened DesignParts
  import opened DesignValid
  import opened DesignMoves
  import opened DesignPhases
  import opened DesignAdds

  // ------------------------------------------------------------------ parts

  /** No two of these names differ in case only. */
  ghost predicate OneCase<T, B>(k: Kind<T, B>, xs: seq<T>) {
    forall x, y :: x in xs && y in xs && Lower(k.name(x)) == Lower(k.name(y)) ==> k.name(x) == k.name(y)
  }

  /** No name of the map is, but for case, that of one of the parts. */
  ghost predicate NoneLike<T, B>(k: Kind<T, B>, m: map<string, B>, xs: seq<T>) {
    forall q, x :: q in m && x in xs ==> Lower(q) != Lower(k.name(x))
  }

  lemma SurvivorNamed<T, B>(k: Kind<T, B>, olds: seq<T>, news: seq<T>, n: T)
    requires Distinct(k, olds) && Distinct(k, news) && Coherent(k, olds, news)
    requires n in news && n !in Added(k, olds, news)
    ensures k.name(n) in Surviving(k, olds, news) && exists o :: o in olds && k.name(o) == k.name(n)
  {
    hide Surviving, Bodies, Added, Coherent;
    NotAddedSurvives(k, olds, news, n);
    SurvivorsAreNew(k, olds, news, k.name(n));
    BodiesKeys(k, olds);
    InNameSet(k, olds, k.name(n));
  }

  /** The new parts are of one case exactly when the added ones are, among themselves and against those that survive. */
  lemma OneCaseMeans<T, B>(k: Kind<T, B>, olds: seq<T>, news: seq<T>)
    requires Distinct(k, olds) && Distinct(k, news) && Coherent(k, olds, news) && OneCase(k, olds)
    ensures OneCase(k, news) <==>
      OneCase(k, Added(k, olds, news)) && NoneLike(k, Surviving(k, olds, news), Added(k, olds, news))
  {
    hide Surviving, Bodies, Distinct, Coherent, Lower, Added;
    var added, left := Added(k, olds, news), Surviving(k, olds, news);
    forall x: T
      ensures x in added ==> x in news && k.name(x) !in left
      ensures x in news && x !in added ==> k.name(x) in left && exists o :: o in olds && k.name(o) == k.name(x)
    {
      if x in added {
        AddedAreFree(k, olds, news, x);
      } else if x in news {
        SurvivorNamed(k, olds, news, x);
      }
    }
    forall q | q in left
      ensures exists n :: n in news && k.name(n) == q
    {
      SurvivorsAreNew(k, olds, news, q);
    }
    if OneCase(k, added) && NoneLike(k, left, added) {
      forall x, y | x in news && y in news && Lower(k.name(x)) == Lower(k.name(y))
        ensures k.name(x) == k.name(y)
      {
        if x !in added && y !in added {
          var a :| a in olds && k.name(a) == k.name(x);
          var b :| b in olds && k.name(b) == k.name(y);
        }
      }
    }
    if OneCase(k, news) {
      forall q, x | q in left && x in added
        ensures Lower(q) != Lower(k.name(x))
      {
        var n :| n in news && k.name(n) == q;
      }
    }
  }

  /** The first of the parts taken on, the rest must be unlike it, too. */
  lemma OpenTail<T, B>(k: Kind<T, B>, m: map<string, B>, xs: seq<T>, b: B)
    requires Distinct(k, xs) && xs != []
    ensures NoneLike(k, m, xs) && OneCase(k, xs) <==>
      (forall q :: q in m ==> Lower(q) != Lower(k.name(xs[0])))
      && NoneLike(k, m[k.name(xs[0]) := b], xs[1..]) && OneCase(k, xs[1..])
  {
    hide Lower, Distinct;
    DistinctTail(k, xs);
    var first, rest, grown := k.name(xs[0]), xs[1..], m[k.name(xs[0]) := b];
    InNameSet(k, rest, first);
    assert forall x :: x in xs <==> x == xs[0] || x in rest;
    if NoneLike(k, m, xs) && OneCase(k, xs) {
      assert xs[0] in xs;
      forall q, x | q in grown && x in rest
        ensures Lower(q) != Lower(k.name(x))
      {
      }
    }
    if (forall q :: q in m ==> Lower(q) != Lower(first)) && NoneLike(k, grown, rest) && OneCase(k, rest) {
      assert first in grown;
      forall q, x | q in m && x in xs
        ensures Lower(q) != Lower(k.name(x))
      {
        assert q in grown;
      }
      forall x, y | x in xs && y in xs && Lower(k.name(x)) == Lower(k.name(y))
        ensures k.name(x) == k.name(y)
      {
      }
    }
  }

  // ------------------------------------------------------------------ indexes

  predicate AllFit(t: Tbl, xs: seq<IndexDef>) {
    forall i :: 0 <= i < |xs| ==> IndexFits(t, BodyOfIndex(xs[i]))
  }

  /** SQLite takes these indexes: none is called what the table, an index of it or another of them is called. */
  ghost predicate IndexesOpen(t: Tbl, xs: seq<IndexDef>) {
    && (forall x :: x in xs ==> Lower(x.name) != Lower(t.name))
    && NoneLike(IX, t.indexes, xs) && OneCase(IX, xs)
  }

  lemma TakenMeans(t: Tbl, name: string)
    ensures IndexTaken(Sqlite, t, name) <==>
      Lower(name) == Lower(t.name) || exists q :: q in t.indexes && Lower(q) == Lower(name)
  {
    hide Lower;
  }

  lemma IndexesOpenTail(t: Tbl, u: Tbl, xs: seq<IndexDef>)
    requires Distinct(IX, xs) && xs != [] && u == t.(indexes := t.indexes[xs[0].name := BodyOfIndex(xs[0])])
    ensures IndexesOpen(t, xs) <==> !IndexTaken(Sqlite, t, xs[0].name) && IndexesOpen(u, xs[1..])
  {
    hide Lower, BodyOfIndex, Distinct, IndexTaken, NoneLike, OneCase;
    TakenMeans(t, xs[0].name);
    OpenTail(IX, t.indexes, xs, BodyOfIndex(xs[0]));
    assert IX.name(xs[0]) == xs[0].name;
    assert forall x :: x in xs <==> x == xs[0] || x in xs[1..];
  }

  lemma {:induction false} AddIndexesLite(xs: seq<IndexDef>, t: Tbl)
    requires Distinct(IX, xs) && AllFit(t, xs)
    ensures Run(Sqlite, AddIndexes(xs), t) ==
      if IndexesOpen(t, xs) then Some(t.(indexes := t.indexes + Bodies(IX, xs))) else None
    decreases |xs|
  {
    hide Run, Distinct, Bodies, BodyOfIndex, IndexesOpen, IndexTaken, IndexFits;
    if xs == [] {
      NoBodies(IX, t.indexes);
      RunNothing(Sqlite, t);
      assert IndexesOpen(t, []) by { NothingOpen(t); }
    } else {
      MoreBodies(IX, t.indexes, xs);
      var u := t.(indexes := t.indexes[xs[0].name := BodyOfIndex(xs[0])]);
      IndexesOpenTail(t, u, xs);
      assert IndexFits(t, BodyOfIndex(xs[0]));
      if IndexTaken(Sqlite, t, xs[0].name) {
        RunRefused(Sqlite, AddIndex(xs[0]), AddIndexes(xs[1..]), t);
      } else {
        RunOne(Sqlite, AddIndex(xs[0]), AddIndexes(xs[1..]), t, u);
        FitTail(t, u, xs);
        AddIndexesLite(xs[1..], u);
      }
    }
  }

  lemma NothingOpen(t: Tbl)
    ensures IndexesOpen(t, [])
  {
  }

  lemma FitTail(t: Tbl, u: Tbl, xs: seq<IndexDef>)
    requires xs != [] && AllFit(t, xs) && u.cols == t.cols
    ensures AllFit(u, xs[1..])
  {
    hide BodyOfIndex;
    forall i | 0 <= i < |xs[1..]|
      ensures IndexFits(u, BodyOfIndex(xs[1..][i]))
    {
      assert IndexFits(t, BodyOfIndex(xs[i + 1]));
    }
  }

  // ------------------------------------------------------------------ triggers

  ghost predicate TriggersOpen(t: Tbl, xs: seq<TriggerDef>) {
    NoneLike(TR, t.triggers, xs) && OneCase(TR, xs)
  }

  lemma TriggersOpenTail(t: Tbl, u: Tbl, xs: seq<TriggerDef>)
    requires Distinct(TR, xs) && xs != [] && u == t.(triggers := t.triggers[xs[0].name := Trim(xs[0].definition)])
    ensures TriggersOpen(t, xs) <==> !TriggerLike(t, xs[0].name) && TriggersOpen(u, xs[1..])
  {
    hide Lower, Trim, Distinct, NoneLike, OneCase;
    OpenTail(TR, t.triggers, xs, Trim(xs[0].definition));
    assert TR.name(xs[0]) == xs[0].name;
  }

  lemma {:induction false} AddTriggersLite(xs: seq<TriggerDef>, t: Tbl)
    requires Distinct(TR, xs) && NoneBlank(xs)
    ensures Run(Sqlite, AddTriggers(xs), t) ==
      if TriggersOpen(t, xs) then Some(t.(triggers := t.triggers + Bodies(TR, xs))) else None
    decreases |xs|
  {
    hide Run, Distinct, Bodies, TriggersOpen, TriggerLike, IsBlank, Trim;
    if xs == [] {
      NoBodies(TR, t.triggers);
      RunNothing(Sqlite, t);
      assert TriggersOpen(t, []) by { NoTriggersOpen(t); }
    } else {
      MoreBodies(TR, t.triggers, xs);
      var u := t.(triggers := t.triggers[xs[0].name := Trim(xs[0].definition)]);
      TriggersOpenTail(t, u, xs);
      assert !IsBlank(xs[0].definition);
      if TriggerLike(t, xs[0].name) {
        RunRefused(Sqlite, AddTrigger(xs[0]), AddTriggers(xs[1..]), t);
      } else {
        NotLikeNotThere(t, xs[0].name);
        RunOne(Sqlite, AddTrigger(xs[0]), AddTriggers(xs[1..]), t, u);
        AddTriggersLite(xs[1..], u);
      }
    }
  }

  lemma NotLikeNotThere(t: Tbl, name: string)
    ensures name in t.triggers ==> TriggerLike(t, name)
  {
  }

  lemma NoTriggersOpen(t: Tbl)
    ensures TriggersOpen(t, [])
  {
  }

  // ------------------------------------------------------------------ the names of a design

  /** What SQLite asks of a table's names: no index is called what the table is, and no two differ in case only. */
  ghost predicate NamesOfOneCase(d: TableDesign) {
    && (forall x :: x in d.indexes ==> Lower(x.name) != Lower(d.name))
    && OneCase(IX, d.indexes) && OneCase(TR, RealTriggers(d.triggers))
  }

  /**
   Fresh names as SQLite sees them: no two columns differ in case only, and a new
   one is called like a loaded one only if it is that column.
   */
  predicate FreshInCase(was: seq<ColumnDef>, news: seq<ColumnDef>) {
    && (forall i, j :: 0 <= i < j < |was| ==> Lower(was[i].name) != Lower(was[j].name))
    && (forall i, j :: 0 <= i < j < |news| ==> Lower(news[i].name) != Lower(news[j].name))
    && (forall i, j :: 0 <= i < |news| && 0 <= j < |was| && Lower(news[i].name) == Lower(was[j].name) ==>
          news[i].original == Some(was[j].name))
  }

  /** While a column waits its turn, no other column bears its new name, in whatever case. */
  lemma NameIsOpen<C>(was: seq<ColumnDef>, news: seq<ColumnDef>, start: map<string, C>, goal: map<string, C>, pos: nat,
    cols: map<string, C>, q: string)
    requires Fresh(was, news) && FreshInCase(was, news) && Moving(start, goal, news, pos, cols) && pos < |news|
    requires q in cols && Some(q) != news[pos].original
    ensures Lower(q) != Lower(news[pos].name)
  {
    hide Agrees, Lower;
    if !Done(news, pos, q) {
      var j :| pos <= j < |news| && news[j].original == Some(q);
      assert HasColumn(was, q);
      var i :| 0 <= i < |was| && was[i].name == q;
    }
  }
}
