/**
 Applying a design over a session, under any failure: on SQLite in place or by
 rebuilding, elsewhere step by step, in one transaction where the engine has them for DDL.
 */
module DesignApply {
  import opened Prelude
  import opened Engines
  import opened Design
  import opened DesignExec
  import opened DesignSqlite
  import opened DesignRebuildRun
  import opened Transactions
  import opened Sessions

  /** The plan's statements as the session runs them. */
  function Works(body: seq<Sql>): seq<Statement<Db>> {
    if body == [] then [] else [Work(Effect(body[0]))] + Works(body[1..])
  }

  function RebuildStatements(body: seq<Sql>): seq<Statement<Db>> {
    [Enforce(false), Begin] + Works(body) + [Commit, Enforce(true)]
  }

  lemma {:induction false} WorksArePlain(body: seq<Sql>)
    ensures Plain(Works(body)) == Items(body) && |Works(body)| == |body|
    ensures forall i :: 0 <= i < |Works(body)| ==> Works(body)[i].Work?
  {
    if body != [] {
      WorksArePlain(body[1..]);
      assert ([Work(Effect(body[0]))] + Works(body[1..]))[1..] == Works(body[1..]);
    }
  }

  lemma {:induction false} PlainAppend<S>(a: seq<Statement<S>>, b: seq<Statement<S>>)
    ensures Plain(a + b) == Plain(a) + Plain(b)
  {
    if a == [] {
      assert a + b == b;
    } else {
      assert (a + b)[1..] == a[1..] + b;
      PlainAppend(a[1..], b);
    }
  }

  lemma PlainTwo<S>(a: Statement<S>, b: Statement<S>)
    ensures Plain([a, b]) == [Item(a, false), Item(b, false)]
  {
    assert [a, b][1..] == [b] && [b][1..] == [];
    assert Plain([b]) == [Item(b, false)] + Plain<S>([]);
  }

  lemma RebuildIsWrapped(body: seq<Sql>)
    ensures Plain(RebuildStatements(body)) == Wrapped(Items(body))
  {
    hide Plain, Items, Works;
    var on: Statement<Db>, off: Statement<Db> := Enforce(true), Enforce(false);
    PlainAppend([off, Begin] + Works(body), [Commit, on]);
    PlainAppend([off, Begin], Works(body));
    PlainTwo(off, Begin);
    PlainTwo(Commit, on);
    WorksArePlain(body);
  }

  /** What a plan does to the database when nothing fails. */
  function Effected(p: SqlitePlan, db: Db, enforced: bool): Option<Db> {
    RunSql(db, p.InPlace? && enforced, p.body)
  }

  /**
   Whatever fails and wherever: on success the plan's whole effect is in place
   and no transaction is open; on an error everyone sees the database as it was,
   except when a rebuild got its COMMIT through and only foreign keys could not
   be switched back on, and then the whole effect is in place.
   */
  method Apply(session: Session<Db>, was: TableDesign, next: TableDesign) returns (r: Result<bool, DesignError>)
    requires session.conn.saved.None?
    modifies session
    ensures r.Err? <==> AlterSqlite(was, next).Err?
    ensures r.Err? ==> session.conn == old(session.conn)
    ensures r == Ok(true) ==>
      session.conn.saved.None? && Effected(AlterSqlite(was, next).value, old(session.conn.state),
        old(session.conn.enforced)) == Some(session.conn.state)
    ensures r == Ok(false) ==>
      || Committed(session.conn) == old(session.conn.state)
      || (AlterSqlite(was, next).value.Rebuild? && session.conn.saved.None?
          && Effected(AlterSqlite(was, next).value, old(session.conn.state), old(session.conn.enforced)) ==
            Some(session.conn.state))
    ensures r == Ok(true) && AlterSqlite(was, next).value.Rebuild? ==> session.conn.enforced
  {
    hide AlterSqlite, RunSql, Transact, ApplyPlan, Wrapped, Survive, Applied, Plain, Items, Works, StopsAfter;
    var plan := AlterSqlite(was, next);
    if plan.Err? {
      return Err(plan.error);
    }
    var body := plan.value.body;
    WorksArePlain(body);
    ItemsWork(body);
    ghost var before := session.View();
    var ok: bool;
    if plan.value.InPlace? {
      AllOrNothing(before, Items(body));
      ItemsApply(body, before.conn.state, before.conn.enforced);
      ok := session.RunInTransaction(Works(body));
    } else {
      RebuildIsWrapped(body);
      WrappedIsAtomic(before, Items(body));
      ItemsApply(body, before.conn.state, false);
      ok := session.ApplyDesign(true, RebuildStatements(body));
    }
    return Ok(ok);
  }

  // ------------------------------------------------------------------ the other engines

  function StepEffect(e: Engine, s: Step): (Tbl, bool) -> Option<Transactions.Outcome<Tbl>> {
    (t, enforced) =>
      match Exec(e, t, s)
      case None => None
      case Some(u) => Some(Transactions.Outcome(u, None))
  }

  function StepWorks(e: Engine, steps: seq<Step>): seq<Statement<Tbl>> {
    if steps == [] then [] else [Work(StepEffect(e, steps[0]))] + StepWorks(e, steps[1..])
  }

  lemma {:induction false} StepsAreWork(e: Engine, steps: seq<Step>)
    ensures |StepWorks(e, steps)| == |steps| && forall i :: 0 <= i < |steps| ==> StepWorks(e, steps)[i].Work?
    ensures AllWork(Plain(StepWorks(e, steps))) && |Plain(StepWorks(e, steps))| == |steps|
    ensures forall i :: 0 <= i < |steps| ==> !Plain(StepWorks(e, steps))[i].must
  {
    hide StepEffect;
    if steps != [] {
      StepsAreWork(e, steps[1..]);
      assert StepWorks(e, steps)[1..] == StepWorks(e, steps[1..]);
      PlainIs(StepWorks(e, steps));
    } else {
      assert Plain(StepWorks(e, steps)) == [];
    }
  }

  lemma StepsCons(e: Engine, steps: seq<Step>)
    requires steps != []
    ensures Plain(StepWorks(e, steps)) == [Item(Work(StepEffect(e, steps[0])), false)] + Plain(StepWorks(e, steps[1..]))
  {
    hide StepEffect;
    assert StepWorks(e, steps)[1..] == StepWorks(e, steps[1..]);
  }

  lemma {:induction false} StepsApply(e: Engine, steps: seq<Step>, t: Tbl, enforced: bool)
    ensures Applied(Plain(StepWorks(e, steps)), t, enforced) == Run(e, steps, t)
    decreases |steps|
  {
    hide Exec, Plain, StepWorks;
    if steps == [] {
      assert Plain(StepWorks(e, steps)) == [] by { NoSteps(e); }
    } else {
      var items, rest := Plain(StepWorks(e, steps)), Plain(StepWorks(e, steps[1..]));
      StepsCons(e, steps);
      assert items[1..] == rest && items[0].statement == Work(StepEffect(e, steps[0]));
      var u := Exec(e, t, steps[0]);
      if u.Some? {
        StepsApply(e, steps[1..], u.value, enforced);
      }
    }
  }

  lemma NoSteps(e: Engine)
    ensures Plain(StepWorks(e, [])) == []
  {
  }

  lemma {:induction false} StepsPrefix(e: Engine, steps: seq<Step>, n: nat)
    requires n <= |steps|
    ensures |Plain(StepWorks(e, steps))| == |steps|
      && Plain(StepWorks(e, steps))[..n] == Plain(StepWorks(e, steps[..n]))
    decreases |steps|
  {
    hide StepEffect, Plain, StepWorks;
    StepsAreWork(e, steps);
    if n == 0 {
      NoSteps(e);
      assert steps[..0] == [];
    } else {
      StepsPrefix(e, steps[1..], n - 1);
      StepsCons(e, steps);
      StepsCons(e, steps[..n]);
      assert steps[..n][1..] == steps[1..][..n - 1];
    }
  }

  /** Steps sent one by one, each in a transaction of its own. */
  lemma OneByOne(e: Engine, l: Link<Tbl>, steps: seq<Step>)
    requires l.conn.saved.None?
    ensures var r := ApplyPlan(l, false, Plain(StepWorks(e, steps)));
      && r.0.conn.saved.None?
      && (r.1 ==> Run(e, steps, l.conn.state) == Some(r.0.conn.state))
      && (!r.1 ==> exists k :: 0 <= k < |steps| && Run(e, steps[..k], l.conn.state) == Some(r.0.conn.state))
  {
    hide SendAll, Survive, Applied, Run, Plain, StepWorks;
    var items := Plain(StepWorks(e, steps));
    StepsAreWork(e, steps);
    SendAllWorks(l, items);
    SendAllLeaves(l, items);
    var n := Survive(items, l.conn.state, l.conn.enforced, l.faults);
    StepsPrefix(e, steps, n);
    StepsApply(e, steps[..n], l.conn.state, l.conn.enforced);
    assert steps[..|steps|] == steps;
  }

  /**
   The other engines. On success every step has been made. On an error PostgreSQL
   and SQL Server show the table as it was; MySQL, which commits each step, shows
   it as the steps before the one that failed have left it.
   */
  method ApplySteps(e: Engine, session: Session<Tbl>, was: TableDesign, next: TableDesign)
    returns (r: Result<bool, DesignError>)
    requires !e.Sqlite? && session.conn.saved.None?
    modifies session
    ensures r.Err? <==> AlterTable(e, was, next).Err?
    ensures r.Err? ==> session.conn == old(session.conn)
    ensures r == Ok(true) ==>
      session.conn.saved.None?
      && Run(e, AlterTable(e, was, next).value.steps, old(session.conn.state)) == Some(session.conn.state)
    ensures r == Ok(false) && (e.Postgres? || e.Mssql?) ==> Committed(session.conn) == old(session.conn.state)
    ensures r == Ok(false) && e.IsMysqlFamily() ==>
      var steps := AlterTable(e, was, next).value.steps;
      session.conn.saved.None? && exists k ::
        0 <= k < |steps| && Run(e, steps[..k], old(session.conn.state)) == Some(session.conn.state)
  {
    hide AlterSteps, Validate, Run, Transact, ApplyPlan, Survive, Applied, Plain, StepWorks;
    var plan := AlterTable(e, was, next);
    if plan.Err? {
      return Err(plan.error);
    }
    var steps := plan.value.steps;
    StepsAreWork(e, steps);
    ghost var before := session.View();
    var ok: bool;
    if plan.value.transactional {
      AllOrNothing(before, Plain(StepWorks(e, steps)));
      StepsApply(e, steps, before.conn.state, before.conn.enforced);
      ok := session.RunInTransaction(StepWorks(e, steps));
    } else {
      OneByOne(e, before, steps);
      ok := session.ApplyDesign(false, StepWorks(e, steps));
    }
    return Ok(ok);
  }
}
