/** The loops that send statements over a session, each tied to what `Transactions` says of it. */
module Sessions {
  import opened Prelude
  import opened Transactions
  import opened Dialect

  class Session<S> {
    var conn: Conn<S>
    var faults: seq<bool>

    constructor (state: S, enforced: bool, faults: seq<bool>)
      ensures View() == Link(Conn(state, None, enforced), faults)
    {
      this.conn := Conn(state, None, enforced);
      this.faults := faults;
    }

    function View(): Link<S>
      reads this
    {
      Link(conn, faults)
    }

    /** One statement. */
    method Run(s: Statement<S>) returns (ok: bool, affected: Option<nat>)
      modifies this
      ensures var sent := Send(old(View()), s); View() == sent.link && ok == sent.ok && affected == sent.affected
    {
      var r := Perform(conn, s);
      var lost := faults != [] && faults[0];
      faults := if faults == [] then [] else faults[1..];
      if lost || r.None? {
        return false, None;
      }
      conn := r.value.0;
      return true, r.value.1;
    }

    /**
     The row edits of the grid, each with its statement: an UPDATE or DELETE that
     matches nothing counts as a failure. `failed` is the edit that failed, when
     one did. Saved means that every statement ran and no UPDATE or DELETE
     reported that it matched no row; if nothing is lost and one does, or is
     refused, then it is the one that failed and all is as before.
     */
    method ApplyEdits(edits: seq<RowEdit>, statements: seq<Statement<S>>) returns (ok: bool, failed: Option<nat>)
      requires |edits| == |statements| && forall i :: 0 <= i < |statements| ==> statements[i].Work?
      modifies this
      ensures (View(), ok) == Transact(old(View()), EditItems(edits, statements))
      ensures old(conn.saved).None? ==>
        var n := Survive(EditItems(edits, statements), old(conn.state), old(conn.enforced), Rest(old(faults), 1));
        failed == if !Faulty(old(faults), 0) && n < |edits| then Some(n) else None
      ensures ok && old(conn.saved).None? ==>
        && (forall i :: 0 <= i < |edits| ==> Takes(edits, statements, i, old(conn.state), old(conn.enforced)))
        && After(statements, old(conn.state), old(conn.enforced)) == Some(conn.state) && conn.saved.None?
      ensures !ok && old(conn.saved).None? && Quiet(old(faults)) ==>
        && failed.Some? && failed.value < |edits| && conn.state == old(conn.state) && conn.saved.None?
        && (forall i :: 0 <= i < failed.value ==> Takes(edits, statements, i, old(conn.state), old(conn.enforced)))
        && !Takes(edits, statements, failed.value, old(conn.state), old(conn.enforced))
    {
      hide Takes, After, SendAll, Survive, Underway, Send;
      ghost var items := EditItems(edits, statements);
      if conn.saved.None? {
        EditsMean(View(), edits, statements);
      }
      SendControl(View(), Begin);
      var begun, none0 := Run(Begin);
      if !begun {
        return false, None;
      }
      ghost var start := View();
      UnderwayFirst(start, items);
      var i := 0;
      while i < |statements|
        invariant 0 <= i <= |statements|
        invariant Underway(start, items, i, View())
      {
        UnderwayNext(start, items, i, View());
        var sent, affected := Run(statements[i]);
        if !sent || (affected == Some(0) && !edits[i].Insert?) {
          var undone, none1 := Run(Rollback);
          return false, Some(i);
        }
        i := i + 1;
      }
      UnderwayLast(start, items, View());
      var done, none2 := Run(Commit);
      return done, None;
    }

    /**
     A list of statements in one transaction: it answers true when all of them
     ran, and when nothing is lost it answers false only for one that is refused.
     */
    method RunInTransaction(statements: seq<Statement<S>>) returns (ok: bool)
      requires forall i :: 0 <= i < |statements| ==> statements[i].Work?
      modifies this
      ensures (View(), ok) == Transact(old(View()), Plain(statements))
      ensures ok && old(conn.saved).None? ==>
        After(statements, old(conn.state), old(conn.enforced)) == Some(conn.state) && conn.saved.None?
      ensures !ok && old(conn.saved).None? && Quiet(old(faults)) ==>
        && After(statements, old(conn.state), old(conn.enforced)).None?
        && conn.state == old(conn.state) && conn.saved.None?
    {
      if conn.saved.None? {
        PlainMeans(View(), statements);
      }
      var begun, none0 := Run(Begin);
      if !begun {
        return false;
      }
      ghost var start := View();
      var i := 0;
      while i < |statements|
        invariant 0 <= i <= |statements|
        invariant SendAll(start, Plain(statements)) == SendAll(View(), Plain(statements[i..]))
      {
        assert statements[i..][0] == statements[i] && statements[i..][1..] == statements[i + 1..];
        PlainStep(statements[i..]);
        ghost var before := View();
        var sent, affected := Run(statements[i]);
        if !sent {
          assert SendAll(before, Plain(statements[i..])) == (View(), false);
          var undone, none1 := Run(Rollback);
          return false;
        }
        i := i + 1;
      }
      assert statements[i..] == [];
      var done, none2 := Run(Commit);
      return done;
    }

    /** The statements of a plan that manages its own transaction, with SQLite's clean-up. */
    method ApplyDesign(sqlite: bool, statements: seq<Statement<S>>) returns (ok: bool)
      modifies this
      ensures (View(), ok) == ApplyPlan(old(View()), sqlite, Plain(statements))
    {
      ghost var start := View();
      var i := 0;
      while i < |statements|
        invariant 0 <= i <= |statements|
        invariant SendAll(start, Plain(statements)) == SendAll(View(), Plain(statements[i..]))
      {
        assert statements[i..][0] == statements[i] && statements[i..][1..] == statements[i + 1..];
        PlainStep(statements[i..]);
        ghost var before := View();
        var sent, affected := Run(statements[i]);
        if !sent {
          assert SendAll(before, Plain(statements[i..])) == (View(), false);
          if sqlite {
            var undone, none1 := Run(Rollback);
            var on, none2 := Run(Enforce(true));
          }
          return false;
        }
        i := i + 1;
      }
      assert statements[i..] == [];
      return true;
    }
  }

  /** Each edit's statement; all but inserts must match a row. */
  function EditItems<S>(edits: seq<RowEdit>, statements: seq<Statement<S>>): (r: seq<Item<S>>)
    requires |edits| == |statements|
    ensures |r| == |edits|
    ensures forall i :: 0 <= i < |r| ==> r[i] == Item(statements[i], !edits[i].Insert?)
  {
    seq(|edits|, i requires 0 <= i < |edits| => Item(statements[i], !edits[i].Insert?))
  }

  /** The first `i` items have been sent and did what they must. */
  ghost predicate Underway<S>(start: Link<S>, items: seq<Item<S>>, i: nat, now: Link<S>) {
    && i <= |items| && SendAll(start, items) == SendAll(now, items[i..])
    && Survive(items, start.conn.state, start.conn.enforced, start.faults)
       == i + Survive(items[i..], now.conn.state, now.conn.enforced, now.faults)
  }

  lemma UnderwayFirst<S>(start: Link<S>, items: seq<Item<S>>)
    ensures Underway(start, items, 0, start)
  {
    assert items[0..] == items;
  }

  lemma UnderwayNext<S>(start: Link<S>, items: seq<Item<S>>, i: nat, now: Link<S>)
    requires i < |items| && items[i].statement.Work? && Underway(start, items, i, now)
    ensures var r := Send(now, items[i].statement);
      if r.ok && !Missed(items[i].must, r.affected) then Underway(start, items, i + 1, r.link)
      else
        && SendAll(start, items) == (r.link, false)
        && Survive(items, start.conn.state, start.conn.enforced, start.faults) == i
  {
    hide Send;
    assert items[i..][0] == items[i] && items[i..][1..] == items[i + 1..];
    SendWork(now, items[i]);
  }

  lemma UnderwayLast<S>(start: Link<S>, items: seq<Item<S>>, now: Link<S>)
    requires Underway(start, items, |items|, now)
    ensures SendAll(start, items) == (now, true)
    ensures Survive(items, start.conn.state, start.conn.enforced, start.faults) == |items|
  {
    assert items[|items|..] == [];
  }

  /**
   The statement of an edit, run after those before it, is not refused, and unless it
   inserts a row it does not report that it matched none.
   */
  predicate Takes<S>(edits: seq<RowEdit>, statements: seq<Statement<S>>, i: nat, state: S, enforced: bool)
    requires i < |edits|
  {
    var r := Ran(statements, i, state, enforced);
    r.Some? && (edits[i].Insert? || r.value.affected != Some(0))
  }

  /** What `ApplyEdits` promises, of the transaction it is. */
  lemma EditsMean<S>(l: Link<S>, edits: seq<RowEdit>, statements: seq<Statement<S>>)
    requires |edits| == |statements| && forall i :: 0 <= i < |statements| ==> statements[i].Work?
    requires l.conn.saved.None?
    ensures var items := EditItems(edits, statements); var r := Transact(l, items);
      var n := Survive(items, l.conn.state, l.conn.enforced, Rest(l.faults, 1));
      && (forall i :: 0 <= i < n ==> Takes(edits, statements, i, l.conn.state, l.conn.enforced))
      && (r.1 ==> n == |edits| && r.0.conn.saved.None?)
      && (r.1 ==> After(statements, l.conn.state, l.conn.enforced) == Some(r.0.conn.state))
      && (!r.1 && Quiet(l.faults) ==>
            && n < |edits| && !Faulty(l.faults, 0) && r.0.conn.state == l.conn.state && r.0.conn.saved.None?
            && !Takes(edits, statements, n, l.conn.state, l.conn.enforced))
  {
    hide Transact, Survive, Applied, Ran, After;
    var items := EditItems(edits, statements);
    assert AllWork(items);
    assert StatementsOf(items) == statements;
    AllOrNothing(l, items);
    SurviveMeans(items, l.conn.state, l.conn.enforced, Rest(l.faults, 1));
    assert forall i :: 0 <= i < |items| ==>
      Succeeds(items, i, l.conn.state, l.conn.enforced) == Takes(edits, statements, i, l.conn.state, l.conn.enforced);
    if Quiet(l.faults) {
      QuietTransaction(l, items);
    }
  }

  /** Statements that need not match a row. */
  function Plain<S>(statements: seq<Statement<S>>): seq<Item<S>> {
    if statements == [] then [] else [Item(statements[0], false)] + Plain(statements[1..])
  }

  lemma PlainStep<S>(statements: seq<Statement<S>>)
    requires statements != []
    ensures Plain(statements)[0] == Item(statements[0], false) && Plain(statements)[1..] == Plain(statements[1..])
  {
  }

  lemma {:induction false} PlainIs<S>(statements: seq<Statement<S>>)
    ensures |Plain(statements)| == |statements|
    ensures forall i :: 0 <= i < |statements| ==> Plain(statements)[i] == Item(statements[i], false)
  {
    if statements != [] {
      PlainIs(statements[1..]);
    }
  }

  /** What `RunInTransaction` promises, of the transaction it is. */
  lemma PlainMeans<S>(l: Link<S>, statements: seq<Statement<S>>)
    requires l.conn.saved.None? && forall i :: 0 <= i < |statements| ==> statements[i].Work?
    ensures var r := Transact(l, Plain(statements));
      && (r.1 ==> r.0.conn.saved.None?)
      && (r.1 ==> After(statements, l.conn.state, l.conn.enforced) == Some(r.0.conn.state))
      && (!r.1 && Quiet(l.faults) ==>
            && After(statements, l.conn.state, l.conn.enforced).None?
            && r.0.conn.state == l.conn.state && r.0.conn.saved.None?)
  {
    hide Transact, Survive, Applied, Ran, After, Plain;
    var items := Plain(statements);
    PlainIs(statements);
    assert AllWork(items);
    assert StatementsOf(items) == statements;
    AllOrNothing(l, items);
    SurviveMeans(items, l.conn.state, l.conn.enforced, Rest(l.faults, 1));
    assert forall i :: 0 <= i < |items| ==>
      Succeeds(items, i, l.conn.state, l.conn.enforced) == Ran(statements, i, l.conn.state, l.conn.enforced).Some?;
    if Quiet(l.faults) {
      QuietTransaction(l, items);
      if !Transact(l, items).1 {
        RefusedBefore(statements, Survive(items, l.conn.state, l.conn.enforced, Rest(l.faults, 1)), l.conn.state,
          l.conn.enforced);
      }
    }
  }
}
