/**
 A session that runs statements against a database which may refuse any of
 them, or lose any of them to a fault, and the three loops that must leave
 nothing half done: a list of statements in one transaction, the grid's row
 edits, and a design plan that manages its own transaction.
 */
module Transactions {
  import opened Prelude

  /** What a statement that ran did: the new state and, when the driver says, how many rows it touched. */
  datatype Outcome<S> = Outcome(state: S, affected: Option<nat>)

  datatype Statement<!S> =
    | Begin
    | Commit
    | Rollback
    | Enforce(on: bool)
    | Work(effect: (S, bool) -> Option<Outcome<S>>)

  /** `saved` is the state to return to while a transaction is open; `enforced` is whether foreign keys are. */
  datatype Conn<S> = Conn(state: S, saved: Option<S>, enforced: bool)

  /** What everyone else sees. */
  function Committed<S>(c: Conn<S>): S {
    if c.saved.Some? then c.saved.value else c.state
  }

  /** One statement; `None` when it is refused. Enforcement cannot change inside a transaction. */
  function Perform<S>(c: Conn<S>, s: Statement<S>): Option<(Conn<S>, Option<nat>)> {
    match s
    case Begin => if c.saved.Some? then None else Some((c.(saved := Some(c.state)), None))
    case Commit => if c.saved.None? then None else Some((c.(saved := None), None))
    case Rollback => if c.saved.None? then None else Some((c.(state := c.saved.value, saved := None), None))
    case Enforce(on) => Some((if c.saved.Some? then c else c.(enforced := on), None))
    case Work(effect) =>
      match effect(c.state, c.enforced)
      case None => None
      case Some(o) => Some((c.(state := o.state), o.affected))
  }

  /** A connection and the faults still to come: the i-th statement from now is lost when `faults[i]`. */
  datatype Link<S> = Link(conn: Conn<S>, faults: seq<bool>)

  predicate Faulty(faults: seq<bool>, i: nat) {
    i < |faults| && faults[i]
  }

  /** Nothing is lost. */
  predicate Quiet(faults: seq<bool>) {
    forall i :: 0 <= i < |faults| ==> !faults[i]
  }

  /** The faults left once `k` statements have been sent. */
  function Rest(faults: seq<bool>, k: nat): seq<bool> {
    if |faults| < k then [] else faults[k..]
  }

  /** The outcome of sending one statement. */
  datatype Sent<S> = Sent(link: Link<S>, ok: bool, affected: Option<nat>)

  function Send<S>(l: Link<S>, s: Statement<S>): Sent<S> {
    var r := Perform(l.conn, s);
    if Faulty(l.faults, 0) || r.None? then Sent(l.(faults := Rest(l.faults, 1)), false, None)
    else Sent(Link(r.value.0, Rest(l.faults, 1)), true, r.value.1)
  }

  /** Did a statement that ran do too little? An UPDATE or DELETE must match a row. */
  predicate Missed(must: bool, affected: Option<nat>) {
    must && affected == Some(0)
  }

  /** A statement, and whether it must match a row. */
  datatype Item<!S> = Item(statement: Statement<S>, must: bool)

  /** The statements one by one, up to the first that fails. */
  function SendAll<S>(l: Link<S>, items: seq<Item<S>>): (Link<S>, bool)
    decreases |items|
  {
    if items == [] then (l, true)
    else
      var r := Send(l, items[0].statement);
      if !r.ok || Missed(items[0].must, r.affected) then (r.link, false) else SendAll(r.link, items[1..])
  }

  /** All of them in one transaction, rolled back at the first failure. */
  function Transact<S>(l: Link<S>, items: seq<Item<S>>): (Link<S>, bool) {
    var begun := Send(l, Begin);
    if !begun.ok then (begun.link, false)
    else
      var body := SendAll(begun.link, items);
      if !body.1 then (Send(body.0, Rollback).link, false)
      else
        var done := Send(body.0, Commit);
        (done.link, done.ok)
  }

  /** The statements of a plan that manages its own transaction; SQLite then cleans up after a failure. */
  function ApplyPlan<S>(l: Link<S>, sqlite: bool, items: seq<Item<S>>): (Link<S>, bool) {
    var r := SendAll(l, items);
    if r.1 || !sqlite then r else (Send(Send(r.0, Rollback).link, Enforce(true)).link, false)
  }

  // ------------------------------------------------------------------ what the statements mean

  predicate AllWork<S>(items: seq<Item<S>>) {
    forall i :: 0 <= i < |items| ==> items[i].statement.Work?
  }

  /** The state after every item took effect, in order; `None` when one is refused or misses. */
  function Applied<S>(items: seq<Item<S>>, state: S, enforced: bool): Option<S>
    decreases |items|
  {
    if items == [] then Some(state)
    else if !items[0].statement.Work? then None
    else
      match items[0].statement.effect(state, enforced)
      case None => None
      case Some(o) => if Missed(items[0].must, o.affected) then None else Applied(items[1..], o.state, enforced)
  }

  /** How many items run before one fails, by refusal, by missing its row, or by a fault. */
  function Survive<S>(items: seq<Item<S>>, state: S, enforced: bool, faults: seq<bool>): (n: nat)
    ensures n <= |items|
    decreases |items|
  {
    if items == [] || !items[0].statement.Work? || Faulty(faults, 0) then 0
    else
      match items[0].statement.effect(state, enforced)
      case None => 0
      case Some(o) =>
        if Missed(items[0].must, o.affected) then 0
        else 1 + Survive(items[1..], o.state, enforced, Rest(faults, 1))
  }

  // ------------------------------------------------------------------ the outcomes themselves

  /** What the database says to statement `i` once all before it have run; `None` when one up to it is refused. */
  function Ran<S>(statements: seq<Statement<S>>, i: nat, state: S, enforced: bool): Option<Outcome<S>>
    decreases i
  {
    if i >= |statements| || !statements[0].Work? then None
    else
      match statements[0].effect(state, enforced)
      case None => None
      case Some(o) => if i == 0 then Some(o) else Ran(statements[1..], i - 1, o.state, enforced)
  }

  /** The state all the statements lead to, when none is refused. */
  function After<S>(statements: seq<Statement<S>>, state: S, enforced: bool): Option<S> {
    if statements == [] then Some(state)
    else
      match Ran(statements, |statements| - 1, state, enforced)
      case None => None
      case Some(o) => Some(o.state)
  }

  /** A statement that is refused keeps all after it from running. */
  lemma {:induction false} RefusedBefore<S>(statements: seq<Statement<S>>, i: nat, state: S, enforced: bool)
    requires i < |statements| && Ran(statements, i, state, enforced).None?
    ensures After(statements, state, enforced).None?
    decreases i
  {
    if i > 0 && statements[0].Work? {
      var o := statements[0].effect(state, enforced);
      if o.Some? {
        RefusedBefore(statements[1..], i - 1, o.value.state, enforced);
      }
    }
  }

  function StatementsOf<S>(items: seq<Item<S>>): (r: seq<Statement<S>>)
    ensures |r| == |items| && forall i :: 0 <= i < |r| ==> r[i] == items[i].statement
  {
    if items == [] then [] else [items[0].statement] + StatementsOf(items[1..])
  }

  /** The statement runs, after those before it, and does not report that it matched nothing where it must match. */
  predicate Succeeds<S>(items: seq<Item<S>>, i: nat, state: S, enforced: bool)
    requires i < |items|
  {
    var r := Ran(StatementsOf(items), i, state, enforced);
    r.Some? && !(items[i].must && r.value.affected == Some(0))
  }

  lemma SucceedsNext<S>(items: seq<Item<S>>, i: nat, state: S, enforced: bool)
    requires 0 < i < |items| && items[0].statement.Work? && items[0].statement.effect(state, enforced).Some?
    ensures Succeeds(items, i, state, enforced) ==
      Succeeds(items[1..], i - 1, items[0].statement.effect(state, enforced).value.state, enforced)
  {
    assert StatementsOf(items)[1..] == StatementsOf(items[1..]);
    assert items[i] == items[1..][i - 1];
  }

  lemma SucceedsFirst<S>(items: seq<Item<S>>, state: S, enforced: bool)
    requires items != [] && items[0].statement.Work?
    ensures var o := items[0].statement.effect(state, enforced);
      Succeeds(items, 0, state, enforced) == (o.Some? && !Missed(items[0].must, o.value.affected))
  {
  }

  lemma AppliedNext<S>(items: seq<Item<S>>, state: S, enforced: bool)
    requires items != [] && items[0].statement.Work? && items[0].statement.effect(state, enforced).Some?
    requires !Missed(items[0].must, items[0].statement.effect(state, enforced).value.affected)
    ensures var next := items[0].statement.effect(state, enforced).value.state;
      && Applied(items, state, enforced) == Applied(items[1..], next, enforced)
      && After(StatementsOf(items), state, enforced) == After(StatementsOf(items[1..]), next, enforced)
  {
    hide Applied, Missed;
    AppliedStep(items, state, enforced);
    assert StatementsOf(items)[1..] == StatementsOf(items[1..]);
  }

  lemma AppliedStep<S>(items: seq<Item<S>>, state: S, enforced: bool)
    requires items != [] && items[0].statement.Work? && items[0].statement.effect(state, enforced).Some?
    requires !Missed(items[0].must, items[0].statement.effect(state, enforced).value.affected)
    ensures Applied(items, state, enforced) ==
      Applied(items[1..], items[0].statement.effect(state, enforced).value.state, enforced)
  {
  }

  /**
   The statements that survive are those that run, one after the other, and of
   which none that must match a row reports that it matched none; without
   faults the next one is refused or reports just that.
   */
  lemma {:induction false} SurviveMeans<S>(items: seq<Item<S>>, state: S, enforced: bool, faults: seq<bool>)
    requires AllWork(items)
    ensures var n := Survive(items, state, enforced, faults);
      && (forall i :: 0 <= i < n ==> Succeeds(items, i, state, enforced))
      && (n < |items| && Quiet(faults) ==> !Succeeds(items, n, state, enforced))
      && (n == |items| ==> Applied(items, state, enforced) == After(StatementsOf(items), state, enforced))
    decreases |items|
  {
    hide Succeeds, Applied, After, Missed;
    if items == [] {
      NothingApplied<S>(state, enforced);
    } else {
      assert items[0].statement.Work?;
      SucceedsFirst(items, state, enforced);
      var o := items[0].statement.effect(state, enforced);
      if !Faulty(faults, 0) && o.Some? && !Missed(items[0].must, o.value.affected) {
        SurviveMeans(items[1..], o.value.state, enforced, Rest(faults, 1));
        AppliedNext(items, state, enforced);
        forall i | 0 < i < |items|
          ensures Succeeds(items, i, state, enforced) == Succeeds(items[1..], i - 1, o.value.state, enforced)
        {
          SucceedsNext(items, i, state, enforced);
        }
      }
    }
  }

  lemma NothingApplied<S>(state: S, enforced: bool)
    ensures Applied<S>([], state, enforced) == After<S>(StatementsOf([]), state, enforced)
  {
  }

  // ------------------------------------------------------------------ all or nothing

  lemma RestAt(faults: seq<bool>, k: nat, i: nat)
    ensures Faulty(Rest(faults, k), i) <==> Faulty(faults, k + i)
    ensures Rest(Rest(faults, k), i) == Rest(faults, k + i)
  {
  }

  lemma SendWork<S>(l: Link<S>, item: Item<S>)
    requires item.statement.Work?
    ensures var r := Send(l, item.statement); var o := item.statement.effect(l.conn.state, l.conn.enforced);
      && r.link.faults == Rest(l.faults, 1)
      && (r.ok <==> !Faulty(l.faults, 0) && o.Some?)
      && r.link.conn == (if r.ok then l.conn.(state := o.value.state) else l.conn)
      && (r.ok ==> r.affected == o.value.affected)
  {
  }

  /** Work inside a transaction keeps the way back and the enforcement, and stops exactly where something fails. */
  lemma {:induction false} SendAllWorks<S>(l: Link<S>, items: seq<Item<S>>)
    requires AllWork(items)
    ensures var r := SendAll(l, items); var n := Survive(items, l.conn.state, l.conn.enforced, l.faults);
      && r.0.conn.saved == l.conn.saved && r.0.conn.enforced == l.conn.enforced
      && (r.1 <==> n == |items|)
      && (r.1 ==> Applied(items, l.conn.state, l.conn.enforced) == Some(r.0.conn.state))
      && r.0.faults == Rest(l.faults, if r.1 then n else n + 1)
    decreases |items|
  {
    hide Send, Rest, Faulty;
    if items == [] {
      RestNone(l.faults);
    } else {
      var r := Send(l, items[0].statement);
      assert items[0].statement.Work?;
      SendWork(l, items[0]);
      if r.ok && !Missed(items[0].must, r.affected) {
        SendAllWorks(r.link, items[1..]);
        var n := Survive(items[1..], r.link.conn.state, r.link.conn.enforced, r.link.faults);
        RestAt(l.faults, 1, n);
        RestAt(l.faults, 1, n + 1);
      }
    }
  }

  /** Statements that stop half way leave what those before the one that failed have done. */
  lemma {:induction false} SendAllLeaves<S>(l: Link<S>, items: seq<Item<S>>)
    requires AllWork(items) && forall i :: 0 <= i < |items| ==> !items[i].must
    ensures var r := SendAll(l, items); var n := Survive(items, l.conn.state, l.conn.enforced, l.faults);
      Applied(items[..n], l.conn.state, l.conn.enforced) == Some(r.0.conn.state)
    decreases |items|
  {
    hide Send, Rest, Faulty;
    if items != [] {
      var r := Send(l, items[0].statement);
      assert items[0].statement.Work?;
      SendWork(l, items[0]);
      if r.ok {
        SendAllLeaves(r.link, items[1..]);
        var n := Survive(items, l.conn.state, l.conn.enforced, l.faults);
        assert items[..n][1..] == items[1..][..n - 1];
      }
    }
  }

  lemma RestNone(faults: seq<bool>)
    ensures Rest(faults, 0) == faults
  {
  }

  lemma SendControl<S>(l: Link<S>, s: Statement<S>)
    requires !s.Work?
    ensures var r := Send(l, s);
      && r.affected.None? && r.link.faults == Rest(l.faults, 1)
      && (!r.ok ==> r.link.conn == l.conn)
      && (r.ok <==>
            && !Faulty(l.faults, 0) && (s.Begin? ==> l.conn.saved.None?)
            && (s.Commit? || s.Rollback? ==> l.conn.saved.Some?))
      && (r.ok && s.Begin? ==> r.link.conn == l.conn.(saved := Some(l.conn.state)))
      && (r.ok && s.Commit? ==> r.link.conn == l.conn.(saved := None))
      && (r.ok && s.Rollback? ==> r.link.conn == l.conn.(state := l.conn.saved.value, saved := None))
      && (r.ok && s.Enforce? ==> r.link.conn == if l.conn.saved.Some? then l.conn else l.conn.(enforced := s.on))
  {
  }

  /**
   Whatever fails, what others see is either the whole list applied in order or
   the state from before; and a transaction is left open exactly when the
   statement that should have closed it, COMMIT or ROLLBACK, was itself lost.
   */
  lemma AllOrNothing<S>(l: Link<S>, items: seq<Item<S>>)
    requires AllWork(items) && l.conn.saved.None?
    ensures var r := Transact(l, items); var n := Survive(items, l.conn.state, l.conn.enforced, Rest(l.faults, 1));
      var begun := !Faulty(l.faults, 0);
      && (r.1 ==> Applied(items, l.conn.state, l.conn.enforced) == Some(r.0.conn.state) && r.0.conn.saved.None?)
      && (!r.1 ==> Committed(r.0.conn) == l.conn.state)
      && (r.1 <==> begun && n == |items| && !Faulty(l.faults, n + 1))
      && (r.0.conn.saved.Some? <==> begun && Faulty(l.faults, if n == |items| then n + 1 else n + 2))
      && r.0.conn.enforced == l.conn.enforced
  {
    hide Send, SendAll, Survive, Applied, Rest, Faulty;
    var begun := Send(l, Begin);
    SendControl(l, Begin);
    if begun.ok {
      SendAllWorks(begun.link, items);
      var body := SendAll(begun.link, items);
      var n := Survive(items, l.conn.state, l.conn.enforced, Rest(l.faults, 1));
      var used := if body.1 then n else n + 1;
      RestAt(l.faults, 1, used);
      RestAt(l.faults, 1 + used, 0);
      SendControl(body.0, if body.1 then Commit else Rollback);
    }
  }

  /** Without faults a transaction fails only for the statements' own sake, and never stays open. */
  lemma QuietTransaction<S>(l: Link<S>, items: seq<Item<S>>)
    requires AllWork(items) && l.conn.saved.None? && Quiet(l.faults)
    ensures var r := Transact(l, items);
      && r.0.conn.saved.None?
      && (r.1 <==> Applied(items, l.conn.state, l.conn.enforced).Some?)
      && r.0.conn.state == (if r.1 then Applied(items, l.conn.state, l.conn.enforced).value else l.conn.state)
  {
    hide Transact, Survive, Applied, AllWork;
    AllOrNothing(l, items);
    QuietSurvive(items, l.conn.state, l.conn.enforced, Rest(l.faults, 1));
  }

  lemma {:induction false} QuietSurvive<S>(items: seq<Item<S>>, state: S, enforced: bool, faults: seq<bool>)
    requires AllWork(items) && Quiet(faults)
    ensures Survive(items, state, enforced, faults) == |items| <==> Applied(items, state, enforced).Some?
    decreases |items|
  {
    if items != [] {
      assert items[0].statement.Work? && !Faulty(faults, 0);
      var o := items[0].statement.effect(state, enforced);
      if o.Some? && !Missed(items[0].must, o.value.affected) {
        QuietSurvive(items[1..], o.value.state, enforced, Rest(faults, 1));
      }
    }
  }

  // ------------------------------------------------------------------ a plan that manages its own transaction

  /** Foreign keys off, then everything in one transaction, then foreign keys on. */
  function Wrapped<S>(body: seq<Item<S>>): seq<Item<S>> {
    [Item(Enforce(false), false), Item(Begin, false)] + body + [Item(Commit, false), Item(Enforce(true), false)]
  }

  lemma {:induction false} SendAllAppend<S>(l: Link<S>, a: seq<Item<S>>, b: seq<Item<S>>)
    ensures SendAll(l, a + b) == var r := SendAll(l, a); if r.1 then SendAll(r.0, b) else r
    decreases |a|
  {
    hide Send;
    if a == [] {
      assert a + b == b;
    } else {
      assert (a + b)[1..] == a[1..] + b;
      var r := Send(l, a[0].statement);
      SendAllAppend(r.link, a[1..], b);
    }
  }

  lemma SendTwo<S>(l: Link<S>, a: Item<S>, b: Item<S>)
    ensures SendAll(l, [a, b]) ==
      var r := Send(l, a.statement);
      if !r.ok || Missed(a.must, r.affected) then (r.link, false)
      else
        var s := Send(r.link, b.statement);
        (s.link, s.ok && !Missed(b.must, s.affected))
  {
    hide Send;
    var r := Send(l, a.statement).link;
    assert [a, b][1..] == [b];
    SendOne(r, b);
  }

  lemma SendOne<S>(l: Link<S>, a: Item<S>)
    ensures SendAll(l, [a]) == var r := Send(l, a.statement); (r.link, r.ok && !Missed(a.must, r.affected))
  {
    hide Send;
    assert [a][1..] == [];
    var r := Send(l, a.statement);
    assert SendAll(r.link, []) == (r.link, true);
  }

  /** How many statements have been sent when the plan stops. */
  function StopsAfter<S>(l: Link<S>, body: seq<Item<S>>): nat {
    var n := Survive(body, l.conn.state, false, Rest(l.faults, 2));
    if Faulty(l.faults, 0) then 1
    else if Faulty(l.faults, 1) then 2
    else if n < |body| || Faulty(l.faults, n + 2) then n + 3
    else n + 4
  }

  /**
   The plan succeeds exactly when nothing in it is refused or lost, and then
   everything took effect. When any step up to and including COMMIT fails, and
   the clean-up itself gets through, the state is the one from before, no
   transaction is open and foreign keys are enforced. When only the last step
   fails, the change is already in place.
   */
  lemma WrappedIsAtomic<S>(l: Link<S>, body: seq<Item<S>>)
    requires AllWork(body) && l.conn.saved.None?
    ensures var r := ApplyPlan(l, true, Wrapped(body));
      var n := Survive(body, l.conn.state, false, Rest(l.faults, 2));
      var off, begun, committed := !Faulty(l.faults, 0), !Faulty(l.faults, 1), n == |body| && !Faulty(l.faults, n + 2);
      && (r.1 <==> off && begun && committed && !Faulty(l.faults, n + 3))
      && (off && begun && committed ==>
            Applied(body, l.conn.state, false) == Some(r.0.conn.state) && r.0.conn.saved.None?)
      && (!(off && begun && committed) ==> Committed(r.0.conn) == l.conn.state)
      && (r.1 ==> r.0.conn.enforced)
      && (!r.1 && !Faulty(l.faults, StopsAfter(l, body)) && !Faulty(l.faults, StopsAfter(l, body) + 1) ==>
            r.0.conn.saved.None? && r.0.conn.enforced)
  {
    hide Send, SendAll, Survive, Applied, Rest, Faulty, Wrapped, AllWork;
    var r := SendAll(l, Wrapped(body));
    WrappedRuns(l, body);
    CleanUp(r.0);
    var k := StopsAfter(l, body);
    RestAt(l.faults, k, 0);
    RestAt(l.faults, k, 1);
  }

  /** The plan itself, before any clean-up. */
  lemma WrappedRuns<S>(l: Link<S>, body: seq<Item<S>>)
    requires AllWork(body) && l.conn.saved.None?
    ensures var r := SendAll(l, Wrapped(body)); var n := Survive(body, l.conn.state, false, Rest(l.faults, 2));
      var off, begun, committed := !Faulty(l.faults, 0), !Faulty(l.faults, 1), n == |body| && !Faulty(l.faults, n + 2);
      && (r.1 <==> off && begun && committed && !Faulty(l.faults, n + 3))
      && (off && begun && committed ==>
            Applied(body, l.conn.state, false) == Some(r.0.conn.state) && r.0.conn.saved.None?)
      && (!(off && begun && committed) ==> Committed(r.0.conn) == l.conn.state)
      && (r.1 ==> r.0.conn.enforced)
      && r.0.faults == Rest(l.faults, StopsAfter(l, body))
  {
    hide Send, SendAll, Survive, Applied, Rest, Faulty, AllWork;
    var two, last := [Item(Enforce(false), false), Item(Begin, false)],
      [Item(Commit, false), Item(Enforce(true), false)];
    SendAllAppend(l, two + body, last);
    SendAllAppend(l, two, body);
    SendTwo(l, two[0], two[1]);
    SendControl(l, Enforce(false));
    var a := Send(l, Enforce(false)).link;
    SendControl(a, Begin);
    RestAt(l.faults, 1, 0);
    RestAt(l.faults, 1, 1);
    var begun := SendAll(l, two);
    if begun.1 {
      SendAllWorks(begun.0, body);
      var mid := SendAll(begun.0, body);
      var n := Survive(body, l.conn.state, false, Rest(l.faults, 2));
      RestAt(l.faults, 2, n + 1);
      if mid.1 {
        RestAt(l.faults, 2, n);
        RestAt(l.faults, n + 2, 0);
        RestAt(l.faults, n + 2, 1);
        RestAt(l.faults, n + 3, 0);
        RestAt(l.faults, n + 3, 1);
        SendTwo(mid.0, last[0], last[1]);
        SendControl(mid.0, Commit);
        var c := Send(mid.0, Commit).link;
        SendControl(c, Enforce(true));
      }
    }
  }

  /** ROLLBACK and then enforcement, each allowed to fail. */
  lemma CleanUp<S>(l: Link<S>)
    ensures var a := Send(l, Rollback).link; var b := Send(a, Enforce(true)).link;
      && Committed(b.conn) == Committed(l.conn)
      && (!Faulty(l.faults, 0) ==> b.conn.saved.None? && b.conn.state == Committed(l.conn))
      && (!Faulty(l.faults, 0) && !Faulty(l.faults, 1) ==> b.conn.enforced)
      && (l.conn.saved.None? ==> b.conn.saved.None? && b.conn.state == l.conn.state)
  {
    hide Send, Rest, Faulty;
    SendControl(l, Rollback);
    var a := Send(l, Rollback).link;
    SendControl(a, Enforce(true));
    RestAt(l.faults, 1, 0);
  }
}
