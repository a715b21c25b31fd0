/**
 What stands between a script and the server: its statements classified, and held
 back or refused by the connection's settings.
 */
module Gate {
  import opened Prelude
  import opened Engines
  import opened Guard
  import opened Dialect
  import opened RowEditText

  datatype Statement = Statement(sql: string, risk: Risk)

  datatype Settings = Settings(readOnly: bool, production: bool)

  datatype GateError = ReadOnly(sql: string)

  // ------------------------------------------------------------------ risk

  function Rank(r: Risk): nat {
    match r
    case Read => 0
    case Session => 1
    case Write => 2
    case Danger(_) => 3
  }

  /** The first of the worst. */
  function Worst(e: Engine, sqls: seq<string>, worst: Risk): Risk {
    if sqls == [] then worst
    else
      var r := Classify(e, sqls[0]);
      Worst(e, sqls[1..], if Rank(r) > Rank(worst) then r else worst)
  }

  /** On SQL Server the risk of a batch is the greatest among the statements in it. */
  function ClassifyBatch(e: Engine, sql: string): Risk {
    if e.Mssql? then Worst(e, Split(Postgres, sql), Read) else Classify(e, sql)
  }

  function Classified(e: Engine, sqls: seq<string>): seq<Statement> {
    if sqls == [] then [] else [Statement(sqls[0], ClassifyBatch(e, sqls[0]))] + Classified(e, sqls[1..])
  }

  function Analyze(e: Engine, script: string): seq<Statement> {
    Classified(e, Split(e, script))
  }

  /** A batch is at least as risky as each of its statements, and no riskier than one of them. */
  lemma {:induction false} WorstBounds(e: Engine, sqls: seq<string>, worst: Risk)
    ensures Rank(Worst(e, sqls, worst)) >= Rank(worst)
    ensures forall i :: 0 <= i < |sqls| ==> Rank(Worst(e, sqls, worst)) >= Rank(Classify(e, sqls[i]))
    ensures Worst(e, sqls, worst) == worst
      || exists i :: 0 <= i < |sqls| && Worst(e, sqls, worst) == Classify(e, sqls[i])
    decreases |sqls|
  {
    hide Classify, Rank;
    if sqls != [] {
      var r := Classify(e, sqls[0]);
      var next := if Rank(r) > Rank(worst) then r else worst;
      WorstBounds(e, sqls[1..], next);
      forall i | 0 <= i < |sqls|
        ensures Rank(Worst(e, sqls, worst)) >= Rank(Classify(e, sqls[i]))
      {
        if i > 0 {
          assert sqls[i] == sqls[1..][i - 1];
        }
      }
      if Worst(e, sqls[1..], next) != next {
        var i :| 0 <= i < |sqls[1..]| && Worst(e, sqls[1..], next) == Classify(e, sqls[1..][i]);
        assert sqls[i + 1] == sqls[1..][i];
      }
    }
  }

  /**
   A batch for SQL Server is dangerous exactly when a statement in it is; if none
   is, it is a write when one is a write, about the session when one is, and
   otherwise a read.
   */
  lemma BatchMeans(sql: string)
    ensures var sqls, r := Split(Postgres, sql), ClassifyBatch(Mssql, sql);
      && (r.Danger? <==> exists i :: 0 <= i < |sqls| && Classify(Mssql, sqls[i]).Danger?)
      && (r.Write? <==> !r.Danger? && exists i :: 0 <= i < |sqls| && Classify(Mssql, sqls[i]).Write?)
      && (r.Session? <==>
            !r.Danger? && !r.Write? && exists i :: 0 <= i < |sqls| && Classify(Mssql, sqls[i]).Session?)
  {
    hide Classify, Split, Worst;
    WorstBounds(Mssql, Split(Postgres, sql), Read);
  }

  // ------------------------------------------------------------------ the gate

  predicate Harmless(r: Risk) {
    r.Read? || r.Session?
  }

  predicate Risky(c: Settings, r: Risk) {
    r.Danger? || (c.production && r.Write?)
  }

  function Held(c: Settings, sts: seq<Statement>): seq<Statement> {
    if sts == [] then [] else (if Risky(c, sts[0].risk) then [sts[0]] else []) + Held(c, sts[1..])
  }

  /** What a read-only connection lets through. */
  predicate Quiet(sts: seq<Statement>) {
    forall i :: 0 <= i < |sts| ==> sts[i].risk.Read? || sts[i].risk.Session?
  }

  /**
   `Ok(None)` lets the script run; `Ok(Some(held))` asks first. A read-only
   connection refuses the first statement that is neither a read nor about the
   session. Unasked, nothing dangerous runs, and nothing that writes in production.
   */
  method Check(c: Settings, sts: seq<Statement>, confirmed: bool) returns (r: Result<Option<seq<Statement>>, GateError>)
    ensures r.Err? <==> c.readOnly && !Quiet(sts)
    ensures r == Ok(None) <==>
      && (c.readOnly ==> Quiet(sts))
      && (confirmed || forall i :: 0 <= i < |sts| ==>
            !sts[i].risk.Danger? && (c.production ==> !sts[i].risk.Write?))
    ensures r.Ok? && r.value.Some? ==> r.value.value == Held(c, sts) != [] && !confirmed
    ensures r.Err? ==>
      exists i ::
        && 0 <= i < |sts| && !Quiet([sts[i]]) && r.error.sql == sts[i].sql && Quiet(sts[..i])
  {
    hide Held, Risky, Harmless;
    if c.readOnly {
      var i := 0;
      while i < |sts|
        invariant 0 <= i <= |sts|
        invariant forall j :: 0 <= j < i ==> Harmless(sts[j].risk)
      {
        if !Harmless(sts[i].risk) {
          HarmlessMeans(sts, i);
          return Err(ReadOnly(sts[i].sql));
        }
        i := i + 1;
      }
      AllHarmless(sts);
    }
    RiskyMeans(c);
    if confirmed {
      return Ok(None);
    }
    var risky: seq<Statement> := [];
    var i := 0;
    assert sts[0..] == sts && [] + Held(c, sts) == Held(c, sts);
    while i < |sts|
      invariant 0 <= i <= |sts|
      invariant Held(c, sts) == risky + Held(c, sts[i..])
    {
      HeldStep(c, sts, i, risky);
      if Risky(c, sts[i].risk) {
        risky := risky + [sts[i]];
      }
      i := i + 1;
    }
    assert sts[i..] == [] && risky + [] == risky;
    assert Held(c, []) == [] by { NothingHeld(c, []); }
    NothingHeld(c, sts);
    return Ok(if risky == [] then None else Some(risky));
  }

  lemma AllHarmless(sts: seq<Statement>)
    ensures Quiet(sts) <==> forall i :: 0 <= i < |sts| ==> Harmless(sts[i].risk)
  {
  }

  /** The first statement that is not harmless. */
  lemma HarmlessMeans(sts: seq<Statement>, i: nat)
    requires i < |sts| && !Harmless(sts[i].risk) && forall j :: 0 <= j < i ==> Harmless(sts[j].risk)
    ensures !Quiet(sts) && !Quiet([sts[i]]) && Quiet(sts[..i])
  {
    assert [sts[i]][0] == sts[i];
  }

  lemma RiskyMeans(c: Settings)
    ensures forall r :: Risky(c, r) <==> r.Danger? || (c.production && r.Write?)
  {
  }

  /** These are the positions of the statements to ask about. */
  ghost predicate Asked(c: Settings, sts: seq<Statement>, at: seq<nat>) {
    forall k: nat :: k in at <==> k < |sts| && (sts[k].risk.Danger? || (c.production && sts[k].risk.Write?))
  }

  lemma AskedCons(c: Settings, sts: seq<Statement>, at: seq<nat>, up: seq<nat>)
    requires sts != [] && Asked(c, sts[1..], at)
    requires Shifted(at, up)
    ensures Asked(c, sts, (if Risky(c, sts[0].risk) then [0] else []) + up)
  {
    var all := (if Risky(c, sts[0].risk) then [0] else []) + up;
    forall k: nat
      ensures k in all <==> k < |sts| && (sts[k].risk.Danger? || (c.production && sts[k].risk.Write?))
    {
      if k > 0 {
        ShiftedIn(at, up, k - 1);
        assert k < |sts| ==> sts[k] == sts[1..][k - 1];
      } else {
        ShiftedIn(at, up, 0);
      }
    }
  }

  /** Held back are just the dangerous statements and, in production, those that write, in their order. */
  lemma {:induction false} HeldMeans(c: Settings, sts: seq<Statement>) returns (at: seq<nat>)
    ensures Picked(sts, Held(c, sts), at) && Asked(c, sts, at)
  {
    if sts == [] {
      at := [];
    } else {
      hide Asked, Risky, Picked;
      var rest := HeldMeans(c, sts[1..]);
      var up := seq(|rest|, i requires 0 <= i < |rest| => rest[i] + 1);
      AskedCons(c, sts, rest, up);
      PickedCons(sts, Held(c, sts[1..]), rest, up, Risky(c, sts[0].risk));
      at := (if Risky(c, sts[0].risk) then [0] else []) + up;
    }
  }

  lemma HeldStep(c: Settings, sts: seq<Statement>, i: nat, before: seq<Statement>)
    requires i < |sts|
    ensures before + Held(c, sts[i..]) ==
      (if Risky(c, sts[i].risk) then before + [sts[i]] else before) + Held(c, sts[i + 1..])
  {
    assert sts[i..][0] == sts[i] && sts[i..][1..] == sts[i + 1..];
    assert [] + Held(c, sts[i + 1..]) == Held(c, sts[i + 1..]);
  }

  lemma {:induction false} NothingHeld(c: Settings, sts: seq<Statement>)
    ensures Held(c, sts) == [] <==> forall i :: 0 <= i < |sts| ==> !Risky(c, sts[i].risk)
  {
    hide Risky;
    if sts != [] {
      NothingHeld(c, sts[1..]);
      if Held(c, sts) == [] {
        forall i | 0 <= i < |sts|
          ensures !Risky(c, sts[i].risk)
        {
          if i > 0 {
            assert sts[i] == sts[1..][i - 1];
          }
        }
      }
      if forall i :: 0 <= i < |sts| ==> !Risky(c, sts[i].risk) {
        assert forall i :: 0 <= i < |sts[1..]| ==> sts[1..][i] == sts[i + 1];
        assert [] + Held(c, sts[1..]) == Held(c, sts[1..]);
      }
    }
  }

  // ------------------------------------------------------------------ the grid's own statements

  /**
   On every engine but SQL Server, whose batches are taken apart differently:
   the statement of a row edit, sent as a script, is one statement and a write.
   A connection in production asks about it, a read-only one refuses it, any
   other lets it run.
   */
  lemma EditAtTheGate(e: Engine, schema: Option<string>, table: string, edit: RowEdit, c: Settings)
    requires !e.Mssql? && EditSql(e, schema, table, edit).Ok?
    ensures var sql := EditSql(e, schema, table, edit).value; var sts := Analyze(e, sql);
      && sts == [Statement(sql, Write)]
      && (Held(c, sts) == [] <==> !c.production)
      && !Harmless(sts[0].risk)
  {
    hide EditSql, Split, Classify;
    EditIsOneWrite(e, schema, table, edit);
    var sql := EditSql(e, schema, table, edit).value;
    assert [sql][1..] == [];
    assert Classified(e, [sql]) == [Statement(sql, Write)] + Classified(e, []);
    var sts := Analyze(e, sql);
    assert sts == [Statement(sql, Write)] && sts[1..] == [];
    assert Held(c, sts[1..]) == [];
  }
}
