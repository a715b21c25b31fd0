/**
 The columns of a table while a plan works through them, one after the other:
 those before the current one are as designed, those after it as loaded. With
 fresh names no column ever gets in another's way.
 */
module DesignMoves {
  import opened Prelude
  import opened Design
  import opened DesignValid

  lemma NamesTail(cs: seq<ColumnDef>)
    requires NamesDistinct(cs) && cs != []
    ensures NamesDistinct(cs[1..]) && forall i :: 0 <= i < |cs[1..]| ==> cs[1..][i].name != cs[0].name
  {
    forall a, b | 0 <= a < b < |cs[1..]|
      ensures cs[1..][a].name != cs[1..][b].name
    {
      assert cs[a + 1].name != cs[b + 1].name;
    }
    forall i | 0 <= i < |cs[1..]|
      ensures cs[1..][i].name != cs[0].name
    {
      assert cs[0].name != cs[i + 1].name;
    }
  }

  lemma HasColumnTail(cs: seq<ColumnDef>, q: string)
    requires cs != []
    ensures HasColumn(cs, q) <==> cs[0].name == q || HasColumn(cs[1..], q)
  {
    if HasColumn(cs, q) {
      var i :| 0 <= i < |cs| && cs[i].name == q;
      if i > 0 {
        assert cs[1..][i - 1] == cs[i];
      }
    }
  }

  lemma LookupFinds(cs: seq<ColumnDef>, i: nat)
    requires NamesDistinct(cs) && i < |cs|
    ensures Lookup(cs, Some(cs[i].name)) == Some(cs[i])
  {
    var k := ColumnAt(cs, cs[i].name);
    assert k < |cs| && cs[k].name == cs[i].name;
    assert k == i;
  }

  /** With fresh names, a column either is kept, and then its loaded form is found, or is new. */
  lemma LookupFresh(was: seq<ColumnDef>, news: seq<ColumnDef>, j: nat)
    requires NamesDistinct(was) && Fresh(was, news) && j < |news|
    ensures news[j].original.Some? <==> Lookup(was, news[j].original).Some?
    ensures news[j].original.Some? ==>
      var o := Lookup(was, news[j].original).value; o.name == news[j].original.value && o in was
  {
    if news[j].original.Some? {
      var i :| 0 <= i < |was| && was[i].name == news[j].original.value;
      LookupFinds(was, i);
    }
  }

  /** The name of one column is never the original of another. */
  lemma NameNotOrigin(was: seq<ColumnDef>, news: seq<ColumnDef>, i: nat, j: nat)
    requires Fresh(was, news) && i < |news| && j < |news| && i != j && news[j].original.Some?
    ensures news[i].name != news[j].original.value && news[i].original != news[j].original
  {
    assert HasColumn(was, news[j].original.value);
    var lo, hi := if i < j then i else j, if i < j then j else i;
    assert news[lo].original.Some? ==> news[lo].original != news[hi].original;
  }

  lemma RenamedIsUnstable(was: seq<ColumnDef>, news: seq<ColumnDef>, j: nat)
    requires Fresh(was, news) && j < |news| && news[j].original.Some? && news[j].original.value != news[j].name
    ensures !Stable(news, news[j].original.value)
  {
    forall i | 0 <= i < |news| && news[i].original == news[j].original
      ensures i == j
    {
    }
  }

  // ------------------------------------------------------------------ the loaded columns nothing carries on

  function DroppedNames(olds: seq<ColumnDef>, news: seq<ColumnDef>): set<string> {
    if olds == [] then {}
    else (if IsKept(news, olds[0].name) then {} else {olds[0].name}) + DroppedNames(olds[1..], news)
  }

  lemma {:induction false} DroppedIs(olds: seq<ColumnDef>, news: seq<ColumnDef>, q: string)
    ensures q in DroppedNames(olds, news) <==> HasColumn(olds, q) && !IsKept(news, q)
  {
    hide IsKept;
    if olds != [] {
      DroppedIs(olds[1..], news, q);
      HasColumnTail(olds, q);
    }
  }

  // ------------------------------------------------------------------ half way through the columns

  predicate Done(news: seq<ColumnDef>, pos: nat, q: string) {
    exists j :: 0 <= j < pos && j < |news| && news[j].name == q
  }

  predicate Waiting(news: seq<ColumnDef>, pos: nat, q: string) {
    exists j :: pos <= j < |news| && news[j].original == Some(q)
  }

  /** `cols` has under `q` what `m` has. */
  predicate Agrees<C(==)>(m: map<string, C>, q: string, cols: map<string, C>) {
    q in cols && q in m && cols[q] == m[q]
  }

  /** Columns before `pos` are as in `goal`, those from `pos` on still as in `start`, and there are no others. */
  ghost predicate Moving<C>(start: map<string, C>, goal: map<string, C>, news: seq<ColumnDef>, pos: nat,
      cols: map<string, C>) {
    && pos <= |news|
    && (forall j :: 0 <= j < pos ==> Agrees(goal, news[j].name, cols))
    && (forall j :: pos <= j < |news| && news[j].original.Some? ==> Agrees(start, news[j].original.value, cols))
    && (forall q :: q in cols ==> Done(news, pos, q) || Waiting(news, pos, q))
  }

  /** A new name is not in use while its column waits its turn. */
  lemma NameIsFree<C>(was: seq<ColumnDef>, news: seq<ColumnDef>, start: map<string, C>, goal: map<string, C>, pos: nat,
      cols: map<string, C>)
    requires NamesDistinct(news) && Fresh(was, news)
    requires Moving(start, goal, news, pos, cols) && pos < |news|
    requires news[pos].original != Some(news[pos].name)
    ensures news[pos].name !in cols
  {
    hide Fresh, Agrees;
    var q := news[pos].name;
    forall j | pos <= j < |news|
      ensures news[j].original != Some(q)
    {
      if j != pos && news[j].original.Some? {
        NameNotOrigin(was, news, pos, j);
      }
    }
    assert !Waiting(news, pos, q) && !Done(news, pos, q);
  }

  /** The name given up by the column at `pos`. */
  function Gone(news: seq<ColumnDef>, pos: nat): set<string>
    requires pos < |news|
  {
    if news[pos].original.Some? then {news[pos].original.value} else {}
  }

  /** Moving on by one column: those before and after it are untouched, and it is now as designed. */
  lemma MoveOn<C>(was: seq<ColumnDef>, news: seq<ColumnDef>, start: map<string, C>, goal: map<string, C>, pos: nat,
      cols: map<string, C>, after: map<string, C>)
    requires NamesDistinct(news) && Fresh(was, news)
    requires Moving(start, goal, news, pos, cols) && pos < |news| && news[pos].name in goal
    requires after == (cols - Gone(news, pos))[news[pos].name := goal[news[pos].name]]
    ensures Moving(start, goal, news, pos + 1, after)
  {
    hide Fresh, Agrees, Done, Waiting;
    var n := news[pos];
    forall j | 0 <= j < pos + 1
      ensures Agrees(goal, news[j].name, after)
    {
      if j < pos {
        assert Agrees(goal, news[j].name, cols);
        if n.original.Some? {
          NameNotOrigin(was, news, j, pos);
        }
        AgreesIn(goal, news[j].name, cols, after);
      } else {
        AgreesIs(goal, n.name, after);
      }
    }
    forall j | pos + 1 <= j < |news| && news[j].original.Some?
      ensures Agrees(start, news[j].original.value, after)
    {
      assert Agrees(start, news[j].original.value, cols);
      NameNotOrigin(was, news, pos, j);
      AgreesIn(start, news[j].original.value, cols, after);
    }
    forall q | q in after
      ensures Done(news, pos + 1, q) || Waiting(news, pos + 1, q)
    {
      if q != n.name {
        assert Done(news, pos, q) || Waiting(news, pos, q);
        WaitingMoves(news, pos, q);
      } else {
        DoneIs(news, pos);
      }
    }
  }

  lemma AgreesIn<C>(m: map<string, C>, q: string, cols: map<string, C>, after: map<string, C>)
    requires Agrees(m, q, cols)
    requires q in cols ==> q in after && after[q] == cols[q]
    ensures Agrees(m, q, after)
  {
  }

  lemma AgreesIs<C>(m: map<string, C>, q: string, cols: map<string, C>)
    requires q in cols && q in m && cols[q] == m[q]
    ensures Agrees(m, q, cols)
  {
  }

  lemma WaitingMoves(news: seq<ColumnDef>, pos: nat, q: string)
    requires pos < |news| && q !in Gone(news, pos)
    requires Done(news, pos, q) || Waiting(news, pos, q)
    ensures Done(news, pos + 1, q) || Waiting(news, pos + 1, q)
  {
  }

  lemma DoneIs(news: seq<ColumnDef>, pos: nat)
    requires pos < |news|
    ensures Done(news, pos + 1, news[pos].name)
  {
    assert news[pos].name == news[pos].name;
  }

  lemma DoneHas(news: seq<ColumnDef>, q: string)
    requires Done(news, |news|, q) || Waiting(news, |news|, q)
    ensures HasColumn(news, q)
  {
  }

  lemma KeptWaits(news: seq<ColumnDef>, q: string)
    requires IsKept(news, q)
    ensures Waiting(news, 0, q)
  {
  }

  lemma OriginIsKept(news: seq<ColumnDef>, j: nat)
    requires j < |news| && news[j].original.Some?
    ensures IsKept(news, news[j].original.value)
  {
  }

  /** A map holds exactly the columns of a list. */
  ghost predicate KeysAre<C>(m: map<string, C>, cs: seq<ColumnDef>) {
    forall q :: q in m <==> HasColumn(cs, q)
  }

  /** After the drops, exactly the columns still to be worked on are there, as loaded. */
  lemma MovingBegins<C>(was: seq<ColumnDef>, news: seq<ColumnDef>, start: map<string, C>, goal: map<string, C>,
      cols: map<string, C>)
    requires Fresh(was, news) && KeysAre(start, was)
    requires cols == start - DroppedNames(was, news)
    ensures Moving(start, goal, news, 0, cols)
  {
    hide DroppedNames, IsKept, Waiting, Done, HasColumn;
    forall j | 0 <= j < |news| && news[j].original.Some?
      ensures Agrees(start, news[j].original.value, cols)
    {
      OriginIsKept(news, j);
      DroppedIs(was, news, news[j].original.value);
    }
    forall q | q in cols
      ensures Waiting(news, 0, q)
    {
      DroppedIs(was, news, q);
      KeptWaits(news, q);
    }
  }

  /** After the last column, the columns are those designed. */
  lemma MovingEnds<C>(news: seq<ColumnDef>, start: map<string, C>, goal: map<string, C>, cols: map<string, C>)
    requires Moving(start, goal, news, |news|, cols) && KeysAre(goal, news)
    ensures cols == goal
  {
    hide Agrees, Done, Waiting;
    forall q
      ensures (q in cols <==> q in goal) && (q in goal ==> cols[q] == goal[q])
    {
      if q in cols {
        DoneHas(news, q);
      }
      if q in goal {
        var j :| 0 <= j < |news| && news[j].name == q;
        assert Agrees(goal, news[j].name, cols);
        AgreesOut(goal, q, cols);
      }
    }
  }

  lemma AgreesOut<C>(m: map<string, C>, q: string, cols: map<string, C>)
    requires Agrees(m, q, cols)
    ensures q in cols && q in m && cols[q] == m[q]
  {
  }
}
