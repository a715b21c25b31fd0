/** When a design is accepted, and when PostgreSQL gets a plan. */
module DesignAccepts {
  import opened Prelude
  import opened Engines
  import opened Design
  import opened DesignValid
  import opened DesignMoves

  // ------------------------------------------------------------------ validation

  predicate ColumnNamed(c: ColumnDef) {
    !IsBlank(c.name) && (!IsBlank(c.dataType) || c.generated.Some?)
  }

  predicate LowerDistinct(cs: seq<ColumnDef>) {
    forall i, j :: 0 <= i < j < |cs| ==> Lower(cs[i].name) != Lower(cs[j].name)
  }

  lemma {:induction false} ColumnsValid(cs: seq<ColumnDef>, seen: set<string>)
    ensures ValidateColumns(cs, seen).Ok? <==>
      (forall i :: 0 <= i < |cs| ==> ColumnNamed(cs[i]) && Lower(cs[i].name) !in seen) && LowerDistinct(cs)
  {
    hide IsBlank, Lower;
    if cs != [] {
      var x, rest := Lower(cs[0].name), cs[1..];
      ColumnsValid(rest, seen + {x});
      LowerDistinctCons(cs);
      assert forall i :: 0 <= i < |rest| ==> rest[i] == cs[i + 1];
      if forall i :: 0 <= i < |cs| ==> ColumnNamed(cs[i]) && Lower(cs[i].name) !in seen {
        forall i | 0 <= i < |rest|
          ensures ColumnNamed(rest[i]) && Lower(rest[i].name) !in seen
        {
          assert ColumnNamed(cs[i + 1]);
        }
      }
      if ColumnNamed(cs[0]) && x !in seen
        && (forall i :: 0 <= i < |rest| ==> ColumnNamed(rest[i]) && Lower(rest[i].name) !in seen) {
        forall i | 0 <= i < |cs|
          ensures ColumnNamed(cs[i]) && Lower(cs[i].name) !in seen
        {
          if i > 0 {
            assert ColumnNamed(rest[i - 1]);
          }
        }
      }
    }
  }

  lemma LowerDistinctCons(cs: seq<ColumnDef>)
    requires cs != []
    ensures LowerDistinct(cs) <==> LowerDistinct(cs[1..]) && forall i :: 0 <= i < |cs[1..]| ==>
      Lower(cs[1..][i].name) != Lower(cs[0].name)
  {
    hide Lower;
    var rest := cs[1..];
    if LowerDistinct(cs) {
      forall i, j | 0 <= i < j < |rest|
        ensures Lower(rest[i].name) != Lower(rest[j].name)
      {
        assert Lower(cs[i + 1].name) != Lower(cs[j + 1].name);
      }
      forall i | 0 <= i < |rest|
        ensures Lower(rest[i].name) != Lower(cs[0].name)
      {
        assert Lower(cs[0].name) != Lower(cs[i + 1].name);
      }
    }
    if LowerDistinct(rest) && forall i :: 0 <= i < |rest| ==> Lower(rest[i].name) != Lower(cs[0].name) {
      forall i, j | 0 <= i < j < |cs|
        ensures Lower(cs[i].name) != Lower(cs[j].name)
      {
        assert Lower(rest[j - 1].name) != Lower(cs[0].name);
        if i > 0 {
          assert Lower(rest[i - 1].name) != Lower(rest[j - 1].name);
        }
      }
    }
  }

  /**
   A design is accepted exactly when it and its columns are named, every column has a
   type or is generated, no two names differ in case alone, and the key names columns.
   */
  lemma ValidMeans(t: TableDesign)
    ensures Validate(t).Ok? <==>
      && !IsBlank(t.name) && t.columns != []
      && (forall i :: 0 <= i < |t.columns| ==> ColumnNamed(t.columns[i]))
      && LowerDistinct(t.columns)
      && (forall i :: 0 <= i < |t.primaryKey| ==> IsColumn(t, t.primaryKey[i]))
  {
    hide ValidateColumns, IsBlank, LowerDistinct, ColumnNamed;
    ColumnsValid(t.columns, {});
  }

  // ------------------------------------------------------------------ which error

  /** A column without a name or type, or called like one before it. */
  predicate BadAt(cs: seq<ColumnDef>, i: nat)
    requires i < |cs|
  {
    !ColumnNamed(cs[i]) || exists j :: 0 <= j < i && Lower(cs[j].name) == Lower(cs[i].name)
  }

  predicate FirstBad(cs: seq<ColumnDef>, i: nat) {
    i < |cs| && BadAt(cs, i) && forall j :: 0 <= j < i ==> !BadAt(cs, j)
  }

  function Fault(c: ColumnDef): DesignError {
    if IsBlank(c.name) then NoColumnName else if !ColumnNamed(c) then NoColumnType else DuplicateColumn
  }

  predicate NoneBad(cs: seq<ColumnDef>) {
    cs != [] && forall i :: 0 <= i < |cs| ==> !BadAt(cs, i)
  }

  predicate MissesKey(t: TableDesign) {
    exists i :: 0 <= i < |t.primaryKey| && !IsColumn(t, t.primaryKey[i])
  }

  ghost predicate SeenBefore(cs: seq<ColumnDef>, k: nat, seen: set<string>)
    requires k <= |cs|
  {
    forall x :: x in seen <==> exists j :: 0 <= j < k && Lower(cs[j].name) == x
  }

  lemma SeenNext(cs: seq<ColumnDef>, k: nat, seen: set<string>)
    requires k < |cs| && SeenBefore(cs, k, seen)
    ensures SeenBefore(cs, k + 1, seen + {Lower(cs[k].name)})
  {
    hide Lower;
    var more := seen + {Lower(cs[k].name)};
    forall x | x in more
      ensures exists j :: 0 <= j < k + 1 && Lower(cs[j].name) == x
    {
      if x !in seen {
        assert Lower(cs[k].name) == x;
      }
    }
  }

  lemma {:induction false} FirstFault(cs: seq<ColumnDef>, k: nat, i: nat, seen: set<string>)
    requires FirstBad(cs, i) && k <= i && SeenBefore(cs, k, seen)
    ensures ValidateColumns(cs[k..], seen) == Err(Fault(cs[i]))
    decreases i - k
  {
    hide IsBlank, Lower;
    assert cs[k..][0] == cs[k] && cs[k..][1..] == cs[k + 1..];
    if k < i {
      assert !BadAt(cs, k);
      SeenNext(cs, k, seen);
      FirstFault(cs, k + 1, i, seen + {Lower(cs[k].name)});
    }
  }

  /** What a refused design is told: the first thing wrong with it, table, then columns in order, then key. */
  lemma FaultsMean(t: TableDesign)
    ensures IsBlank(t.name) ==> Validate(t) == Err(NoTableName)
    ensures !IsBlank(t.name) && t.columns == [] ==> Validate(t) == Err(NoColumns)
    ensures !IsBlank(t.name) ==>
      forall i: nat :: FirstBad(t.columns, i) ==> Validate(t) == Err(Fault(t.columns[i]))
    ensures !IsBlank(t.name) && NoneBad(t.columns) && MissesKey(t) ==> Validate(t) == Err(KeyNotAColumn)
  {
    hide ValidateColumns, IsBlank, Lower, Fault, ColumnNamed;
    assert t.columns[0..] == t.columns;
    forall i: nat | FirstBad(t.columns, i)
      ensures ValidateColumns(t.columns, {}) == Err(Fault(t.columns[i]))
    {
      FirstFault(t.columns, 0, i, {});
    }
    ColumnsValid(t.columns, {});
    if NoneBad(t.columns) {
      forall i, j | 0 <= i < j < |t.columns|
        ensures Lower(t.columns[i].name) != Lower(t.columns[j].name)
      {
        assert !BadAt(t.columns, j);
      }
      assert forall i :: 0 <= i < |t.columns| ==> !BadAt(t.columns, i) && ColumnNamed(t.columns[i]);
    }
  }

  // ------------------------------------------------------------------ PostgreSQL

  predicate SameGeneration(was: seq<ColumnDef>, n: ColumnDef) {
    Lookup(was, n.original).Some? ==>
      Lookup(was, n.original).value.generated == n.generated
        && Lookup(was, n.original).value.generatedStored == n.generatedStored
  }

  lemma {:induction false} ColumnsPlanned(was: seq<ColumnDef>, news: seq<ColumnDef>, pos: nat)
    requires pos <= |news|
    ensures AlterColumns(Postgres, was, news, pos).Ok? <==>
      forall j :: pos <= j < |news| ==> SameGeneration(was, news[j])
    decreases |news| - pos
  {
    hide ColumnSteps, SameGeneration;
    if pos < |news| {
      ColumnPlanned(was, news, pos);
      ColumnsPlanned(was, news, pos + 1);
    }
  }

  lemma ColumnPlanned(was: seq<ColumnDef>, news: seq<ColumnDef>, pos: nat)
    requires pos < |news|
    ensures ColumnSteps(Postgres, was, news, pos).Ok? <==> SameGeneration(was, news[pos])
  {
    hide Lookup, CommentSteps, When, SameType;
  }

  /**
   PostgreSQL gets a plan exactly when the new design is valid, a key to be dropped has
   a name, and no kept column changes how it is generated.
   */
  lemma PostgresPlans(was: TableDesign, next: TableDesign)
    ensures AlterTable(Postgres, was, next).Ok? <==>
      && Validate(next).Ok?
      && (was.primaryKey == next.primaryKey || was.primaryKey == [] || was.primaryKeyName.Some?)
      && (forall j :: 0 <= j < |next.columns| ==> SameGeneration(was.columns, next.columns[j]))
  {
    hide Validate, AlterColumns, SameGeneration, DropParts, DropColumns, AddParts, TableComment;
    ColumnsPlanned(was.columns, next.columns, 0);
  }

  // ------------------------------------------------------------------ the other engines

  /** MySQL and MariaDB get one for every valid design. */
  lemma MysqlPlans(e: Engine, was: TableDesign, next: TableDesign)
    requires e.IsMysqlFamily()
    ensures AlterTable(e, was, next).Ok? <==> Validate(next).Ok?
  {
    hide Validate, AlterColumns, DropParts, DropColumns, AddParts, TableComment;
    MysqlColumnsPlanned(e, was.columns, next.columns, 0);
  }

  lemma {:induction false} MysqlColumnsPlanned(e: Engine, was: seq<ColumnDef>, news: seq<ColumnDef>, pos: nat)
    requires e.IsMysqlFamily() && pos <= |news|
    ensures AlterColumns(e, was, news, pos).Ok?
    decreases |news| - pos
  {
    hide Lookup, CommentSteps, AlterMysql, MysqlPosition;
    if pos < |news| {
      MysqlColumnsPlanned(e, was, news, pos + 1);
    }
  }

  predicate SameKind(was: seq<ColumnDef>, n: ColumnDef) {
    Lookup(was, n.original).Some? ==>
      Lookup(was, n.original).value.generated == n.generated
        && Lookup(was, n.original).value.autoIncrement == n.autoIncrement
  }

  lemma {:induction false} MssqlColumnsPlanned(was: seq<ColumnDef>, news: seq<ColumnDef>, pos: nat)
    requires pos <= |news|
    ensures AlterColumns(Mssql, was, news, pos).Ok? <==>
      forall j :: pos <= j < |news| ==> SameKind(was, news[j])
    decreases |news| - pos
  {
    hide ColumnSteps, SameKind;
    if pos < |news| {
      MssqlColumnPlanned(was, news, pos);
      MssqlColumnsPlanned(was, news, pos + 1);
    }
  }

  lemma MssqlColumnPlanned(was: seq<ColumnDef>, news: seq<ColumnDef>, pos: nat)
    requires pos < |news|
    ensures ColumnSteps(Mssql, was, news, pos).Ok? <==> SameKind(was, news[pos])
  {
    hide Lookup, CommentSteps, When, SameType;
  }

  /** SQL Server, when besides no kept column becomes an identity or stops being one, or changes its expression. */
  lemma MssqlPlans(was: TableDesign, next: TableDesign)
    ensures AlterTable(Mssql, was, next).Ok? <==>
      && Validate(next).Ok?
      && (was.primaryKey == next.primaryKey || was.primaryKey == [] || was.primaryKeyName.Some?)
      && (forall j :: 0 <= j < |next.columns| ==> SameKind(was.columns, next.columns[j]))
  {
    hide Validate, AlterColumns, SameKind, DropParts, DropColumns, AddParts, TableComment;
    MssqlColumnsPlanned(was.columns, next.columns, 0);
  }
}
