/** Dropping the parts that changed and adding the new ones leaves exactly the new parts. */
module DesignParts {
  import opened Prelude
  import opened Design
  import opened DesignExec

  predicate Distinct<T, B>(k: Kind<T, B>, xs: seq<T>) {
    forall i, j :: 0 <= i < j < |xs| ==> k.name(xs[i]) != k.name(xs[j])
  }

  function NameSet<T, B>(k: Kind<T, B>, xs: seq<T>): set<string> {
    if xs == [] then {} else {k.name(xs[0])} + NameSet(k, xs[1..])
  }

  lemma {:induction false} NameSetAt<T, B>(k: Kind<T, B>, xs: seq<T>, q: string)
    ensures q in NameSet(k, xs) <==> exists i :: 0 <= i < |xs| && k.name(xs[i]) == q
  {
    if xs != [] {
      NameSetAt(k, xs[1..], q);
      if q in NameSet(k, xs[1..]) {
        var i :| 0 <= i < |xs[1..]| && k.name(xs[1..][i]) == q;
        assert k.name(xs[i + 1]) == q;
      }
      if exists i :: 0 <= i < |xs| && k.name(xs[i]) == q {
        var i :| 0 <= i < |xs| && k.name(xs[i]) == q;
        if i > 0 {
          assert k.name(xs[1..][i - 1]) == q;
        }
      }
    }
  }

  lemma DistinctTail<T, B>(k: Kind<T, B>, xs: seq<T>)
    requires Distinct(k, xs) && xs != []
    ensures Distinct(k, xs[1..]) && k.name(xs[0]) !in NameSet(k, xs[1..])
  {
    NameSetAt(k, xs[1..], k.name(xs[0]));
    forall i, j | 0 <= i < j < |xs[1..]|
      ensures k.name(xs[1..][i]) != k.name(xs[1..][j])
    {
      assert k.name(xs[i + 1]) != k.name(xs[j + 1]);
    }
    forall i | 0 <= i < |xs[1..]|
      ensures k.name(xs[1..][i]) != k.name(xs[0])
    {
      assert k.name(xs[0]) != k.name(xs[i + 1]);
    }
  }

  lemma {:induction false} BodiesKeys<T, B>(k: Kind<T, B>, xs: seq<T>)
    ensures Bodies(k, xs).Keys == NameSet(k, xs)
  {
    if xs != [] {
      BodiesKeys(k, xs[1..]);
    }
  }

  lemma {:induction false} BodiesAt<T, B>(k: Kind<T, B>, xs: seq<T>, i: nat)
    requires Distinct(k, xs) && i < |xs|
    ensures k.name(xs[i]) in Bodies(k, xs) && Bodies(k, xs)[k.name(xs[i])] == k.body(xs[i])
  {
    if i > 0 {
      DistinctTail(k, xs);
      BodiesAt(k, xs[1..], i - 1);
      assert k.name(xs[0]) != k.name(xs[i]);
    }
  }

  // ------------------------------------------------------------------ what is dropped and what is added

  lemma {:induction false} RemovedIs<T, B>(k: Kind<T, B>, olds: seq<T>, news: seq<T>, x: T)
    ensures x in Removed(k, olds, news) <==> x in olds && !Kept(k, news, x)
  {
    hide Kept;
    if olds != [] {
      RemovedIs(k, olds[1..], news, x);
    }
  }

  lemma {:induction false} AddedIs<T, B>(k: Kind<T, B>, olds: seq<T>, news: seq<T>, x: T)
    ensures x in Added(k, olds, news) <==> x in news && !Unchanged(k, olds, x)
  {
    hide Unchanged;
    if news != [] {
      AddedIs(k, olds, news[1..], x);
    }
  }

  /** Names are distinct, said of elements rather than offsets. */
  lemma SameName<T, B>(k: Kind<T, B>, xs: seq<T>, x: T, y: T)
    requires Distinct(k, xs) && x in xs && y in xs && k.name(x) == k.name(y)
    ensures x == y
  {
    var i :| 0 <= i < |xs| && xs[i] == x;
    var j :| 0 <= j < |xs| && xs[j] == y;
    assert i == j;
  }

  lemma InNameSet<T, B>(k: Kind<T, B>, xs: seq<T>, q: string)
    ensures q in NameSet(k, xs) <==> exists x :: x in xs && k.name(x) == q
  {
    NameSetAt(k, xs, q);
    if exists x :: x in xs && k.name(x) == q {
      var x :| x in xs && k.name(x) == q;
      var i :| 0 <= i < |xs| && xs[i] == x;
      assert k.name(xs[i]) == q;
    }
  }

  lemma BodyOf<T, B>(k: Kind<T, B>, xs: seq<T>, x: T)
    requires Distinct(k, xs) && x in xs
    ensures k.name(x) in Bodies(k, xs) && Bodies(k, xs)[k.name(x)] == k.body(x)
  {
    var i :| 0 <= i < |xs| && xs[i] == x;
    BodiesAt(k, xs, i);
  }

  /** A part that counts as kept has its name and body in both designs. */
  ghost predicate Coherent<T, B>(k: Kind<T, B>, olds: seq<T>, news: seq<T>) {
    forall i, j ::
      0 <= i < |olds| && 0 <= j < |news| && k.original(news[j]) == Some(k.name(olds[i])) && k.same(olds[i], news[j]) ==>
      k.name(olds[i]) == k.name(news[j]) && k.body(olds[i]) == k.body(news[j])
  }

  /** The parts left once the changed ones are dropped. */
  function Surviving<T, B>(k: Kind<T, B>, olds: seq<T>, news: seq<T>): map<string, B> {
    Bodies(k, olds) - NameSet(k, Removed(k, olds, news))
  }

  /** What survives is part of the new design. */
  lemma SurvivorsAreNew<T, B>(k: Kind<T, B>, olds: seq<T>, news: seq<T>, q: string)
    requires Distinct(k, olds) && Distinct(k, news) && Coherent(k, olds, news)
    requires q in Surviving(k, olds, news)
    ensures q in Bodies(k, news) && Bodies(k, news)[q] == Surviving(k, olds, news)[q]
    ensures q in Bodies(k, olds) && exists n :: n in news && k.name(n) == q && Unchanged(k, olds, n)
  {
    hide Bodies, NameSet, Removed;
    BodiesKeys(k, olds);
    InNameSet(k, olds, q);
    var o :| o in olds && k.name(o) == q;
    var i :| 0 <= i < |olds| && olds[i] == o;
    RemovedIs(k, olds, news, o);
    InNameSet(k, Removed(k, olds, news), q);
    assert Kept(k, news, o);
    var j :| 0 <= j < |news| && k.original(news[j]) == Some(k.name(o)) && k.same(o, news[j]);
    BodyOf(k, olds, o);
    BodyOf(k, news, news[j]);
    assert Unchanged(k, olds, news[j]);
  }

  /** Nothing added has a name already in use. */
  lemma AddedAreFree<T, B>(k: Kind<T, B>, olds: seq<T>, news: seq<T>, n: T)
    requires Distinct(k, olds) && Distinct(k, news) && Coherent(k, olds, news)
    requires n in Added(k, olds, news)
    ensures k.name(n) !in Surviving(k, olds, news)
    ensures n in news && k.name(n) in Bodies(k, news) && Bodies(k, news)[k.name(n)] == k.body(n)
  {
    hide Bodies, Surviving;
    AddedIs(k, olds, news, n);
    BodyOf(k, news, n);
    if k.name(n) in Surviving(k, olds, news) {
      SurvivorsAreNew(k, olds, news, k.name(n));
      var m :| m in news && k.name(m) == k.name(n) && Unchanged(k, olds, m);
      SameName(k, news, m, n);
    }
  }

  lemma {:induction false} AddedDistinct<T, B>(k: Kind<T, B>, olds: seq<T>, news: seq<T>)
    requires Distinct(k, news)
    ensures Distinct(k, Added(k, olds, news))
  {
    hide Unchanged;
    if news != [] {
      DistinctTail(k, news);
      AddedDistinct(k, olds, news[1..]);
      var rest := Added(k, olds, news[1..]);
      InNameSet(k, news[1..], k.name(news[0]));
      forall y | y in rest
        ensures k.name(y) != k.name(news[0])
      {
        AddedIs(k, olds, news[1..], y);
      }
      DistinctCons(k, news[0], rest);
      assert [] + rest == rest;
    }
  }

  lemma DistinctCons<T, B>(k: Kind<T, B>, x: T, rest: seq<T>)
    requires Distinct(k, rest) && forall y :: y in rest ==> k.name(y) != k.name(x)
    ensures Distinct(k, [x] + rest)
  {
    var all := [x] + rest;
    forall i, j | 0 <= i < j < |all|
      ensures k.name(all[i]) != k.name(all[j])
    {
      assert all[j] == rest[j - 1] && rest[j - 1] in rest;
      if i > 0 {
        assert all[i] == rest[i - 1];
      }
    }
  }

  lemma {:induction false} RemovedDistinct<T, B>(k: Kind<T, B>, olds: seq<T>, news: seq<T>)
    requires Distinct(k, olds)
    ensures Distinct(k, Removed(k, olds, news))
  {
    hide Kept;
    if olds != [] {
      DistinctTail(k, olds);
      RemovedDistinct(k, olds[1..], news);
      var rest := Removed(k, olds[1..], news);
      InNameSet(k, olds[1..], k.name(olds[0]));
      forall y | y in rest
        ensures k.name(y) != k.name(olds[0])
      {
        RemovedIs(k, olds[1..], news, y);
      }
      DistinctCons(k, olds[0], rest);
      assert [] + rest == rest;
    }
  }

  /** Dropping what changed and adding what is new yields the new parts, and no others. */
  lemma PartsReplaced<T, B>(k: Kind<T, B>, olds: seq<T>, news: seq<T>)
    requires Distinct(k, olds) && Distinct(k, news) && Coherent(k, olds, news)
    ensures Surviving(k, olds, news) + Bodies(k, Added(k, olds, news)) == Bodies(k, news)
  {
    hide Bodies, Surviving, Added, Distinct;
    var added := Added(k, olds, news);
    var l, r := Surviving(k, olds, news) + Bodies(k, added), Bodies(k, news);
    AddedDistinct(k, olds, news);
    forall q
      ensures (q in l <==> q in r) && (q in l ==> l[q] == r[q])
    {
      BodiesKeys(k, added);
      BodiesKeys(k, news);
      InNameSet(k, added, q);
      InNameSet(k, news, q);
      if q in Bodies(k, added) {
        var n :| n in added && k.name(n) == q;
        AddedIs(k, olds, news, n);
        BodyOf(k, added, n);
        BodyOf(k, news, n);
      } else if q in Surviving(k, olds, news) {
        SurvivorsAreNew(k, olds, news, q);
      } else if q in r {
        var n :| n in news && k.name(n) == q;
        NotAddedSurvives(k, olds, news, n);
      }
    }
  }

  lemma NotAddedSurvives<T, B>(k: Kind<T, B>, olds: seq<T>, news: seq<T>, n: T)
    requires Distinct(k, olds) && Distinct(k, news) && Coherent(k, olds, news)
    requires n in news && n !in Added(k, olds, news)
    ensures k.name(n) in Surviving(k, olds, news)
  {
    hide Bodies, Removed;
    AddedIs(k, olds, news, n);
    assert Unchanged(k, olds, n);
    var i :| 0 <= i < |olds| && k.original(n) == Some(k.name(olds[i])) && k.same(olds[i], n);
    var j :| 0 <= j < |news| && news[j] == n;
    assert k.original(news[j]) == Some(k.name(olds[i])) && k.same(olds[i], news[j]);
    assert k.name(olds[i]) == k.name(n);
    assert Kept(k, news, olds[i]);
    BodyOf(k, olds, olds[i]);
    InNameSet(k, Removed(k, olds, news), k.name(n));
    forall x | x in Removed(k, olds, news)
      ensures k.name(x) != k.name(n)
    {
      RemovedIs(k, olds, news, x);
      if k.name(x) == k.name(n) {
        SameName(k, olds, x, olds[i]);
      }
    }
  }
}
