/**
 Dumping a table's rows as SQL, a page at a time and a hundred rows to a
 statement, and running such a file back in.
 */
module Backup {
  import opened Prelude
  import opened Engines
  import opened Guard
  import GuardLexer
  import opened Dialect
  import opened SqlReader

  const PAGE: nat := 1000
  const ROWS_PER_INSERT: nat := 100

  datatype Column = Column(name: string, generated: bool, autoIncrement: bool)

  /** A table as the dump sees it. `types` are the type names of the columns a page returns. */
  datatype Table = Table(schema: Option<string>, name: string, columns: seq<Column>, types: seq<string>)

  /** What ends a statement in a dump. */
  function EndOf(e: Engine): string {
    if e.Mssql? then "\nGO\n" else ";\n"
  }

  predicate Contains(s: string, pat: string) {
    Find(s, pat).Some?
  }

  predicate IsBinary(e: Engine, typeName: string) {
    var t := Lower(typeName);
    match e
    case Mysql => Contains(t, "blob") || Contains(t, "binary")
    case Mariadb => Contains(t, "blob") || Contains(t, "binary")
    case Mssql => Contains(t, "binary") || t == "image" || "bigvarbin" <= t || "bigbinary" <= t
    case Sqlite => t == "blob"
    case _ => false
  }

  predicate IsHexValue(e: Engine, typeName: string, v: Value) {
    v.Some? && "0x" <= v.value && IsBinary(e, typeName)
  }

  /** What an INSERT says for a value; text in hexadecimal stands for a binary one. */
  function ValueSql(e: Engine, typeName: string, v: Value): string {
    if IsHexValue(e, typeName, v) then
      if e.Sqlite? then "X'" + v.value[2..] + "'" else v.value
    else Literal(e, v)
  }

  function TypeAt(t: Table, i: nat): string {
    if i < |t.types| then t.types[i] else ""
  }

  function DumpedColumns(columns: seq<Column>): seq<string> {
    if columns == [] then []
    else (if columns[0].generated then [] else [columns[0].name]) + DumpedColumns(columns[1..])
  }

  function NamesOf(columns: seq<Column>): (r: seq<string>)
    ensures |r| == |columns| && forall i :: 0 <= i < |r| ==> r[i] == columns[i].name
  {
    if columns == [] then [] else [columns[0].name] + NamesOf(columns[1..])
  }

  /** The positions of the columns the database does not compute itself. */
  ghost predicate Uncomputed(columns: seq<Column>, at: seq<nat>) {
    forall k: nat :: k in at <==> k < |columns| && !columns[k].generated
  }

  lemma UncomputedCons(columns: seq<Column>, at: seq<nat>, up: seq<nat>)
    requires columns != [] && Uncomputed(columns[1..], at) && Shifted(at, up)
    ensures Uncomputed(columns, (if columns[0].generated then [] else [0]) + up)
  {
    var all := (if columns[0].generated then [] else [0]) + up;
    forall k: nat
      ensures k in all <==> k < |columns| && !columns[k].generated
    {
      if k > 0 {
        ShiftedIn(at, up, k - 1);
        assert k < |columns| ==> columns[k] == columns[1..][k - 1];
      } else {
        ShiftedIn(at, up, 0);
      }
    }
  }

  /** What is dumped are the names of just those columns, each once for every such column and in their order. */
  lemma {:induction false} DumpedMeans(columns: seq<Column>) returns (at: seq<nat>)
    ensures Picked(NamesOf(columns), DumpedColumns(columns), at) && Uncomputed(columns, at)
  {
    if columns == [] {
      at := [];
    } else {
      hide Uncomputed, Picked;
      var rest := DumpedMeans(columns[1..]);
      var up := seq(|rest|, i requires 0 <= i < |rest| => rest[i] + 1);
      UncomputedCons(columns, rest, up);
      PickedCons(NamesOf(columns), DumpedColumns(columns[1..]), rest, up, !columns[0].generated);
      at := (if columns[0].generated then [] else [0]) + up;
    }
  }

  function ColumnList(e: Engine, names: seq<string>): string {
    Join(Map((n: string) => Ident(e, n), names), ", ")
  }

  /** The values of one row from column `i` on. */
  function RowValues(e: Engine, t: Table, row: Row, i: nat): seq<string> {
    if row == [] then [] else [ValueSql(e, TypeAt(t, i), row[0])] + RowValues(e, t, row[1..], i + 1)
  }

  function RowText(e: Engine, t: Table, row: Row): string {
    "(" + Join(RowValues(e, t, row, 0), ", ") + ")"
  }

  function RowTexts(e: Engine, t: Table, rows: seq<Row>): seq<string> {
    if rows == [] then [] else [RowText(e, t, rows[0])] + RowTexts(e, t, rows[1..])
  }

  function InsertRows(target: string, cols: string, values: string): string {
    "INSERT INTO " + target + " (" + cols + ") VALUES\n  " + values
  }

  /** One INSERT for a chunk of rows. */
  function ChunkSql(e: Engine, t: Table, chunk: seq<Row>): string {
    InsertRows(Qualified(e, t.schema, t.name), ColumnList(e, DumpedColumns(t.columns)),
      Join(RowTexts(e, t, chunk), ",\n  "))
  }

  function Chunks(rows: seq<Row>, size: nat): seq<seq<Row>>
    requires size > 0
  {
    if rows == [] then []
    else if |rows| <= size then [rows]
    else [rows[..size]] + Chunks(rows[size..], size)
  }

  /** What a page query returns from a table that stays as it is. */
  function PageOf(rows: seq<Row>, limit: nat, offset: nat): seq<Row> {
    if offset >= |rows| then [] else rows[offset..Min(offset + limit, |rows|)]
  }

  /** The chunks of every page from `offset` on. */
  function PagedChunks(rows: seq<Row>, offset: nat): seq<seq<Row>>
    decreases |rows| - offset
  {
    if offset >= |rows| then []
    else Chunks(PageOf(rows, PAGE, offset), ROWS_PER_INSERT) + PagedChunks(rows, offset + PAGE)
  }

  function ChunkTexts(e: Engine, t: Table, chunks: seq<seq<Row>>): string {
    if chunks == [] then "" else ChunkSql(e, t, chunks[0]) + EndOf(e) + ChunkTexts(e, t, chunks[1..])
  }

  predicate HasIdentity(e: Engine, t: Table) {
    e.Mssql? && exists i :: 0 <= i < |t.columns| && t.columns[i].autoIncrement
  }

  function IdentityInsert(e: Engine, t: Table, state: string): string {
    "SET IDENTITY_INSERT " + Qualified(e, t.schema, t.name) + " " + state
  }

  /** The text a dump of `rows` writes. */
  function DumpText(e: Engine, t: Table, rows: seq<Row>): string {
    if DumpedColumns(t.columns) == [] then ""
    else
      var body := ChunkTexts(e, t, PagedChunks(rows, 0));
      if HasIdentity(e, t) then
        IdentityInsert(e, t, "ON") + EndOf(e) + body + IdentityInsert(e, t, "OFF") + EndOf(e)
      else body
  }

  // ------------------------------------------------------------------ the loops

  method WriteChunks(e: Engine, t: Table, page: seq<Row>) returns (out: string)
    ensures out == ChunkTexts(e, t, Chunks(page, ROWS_PER_INSERT))
  {
    out := "";
    var rest := page;
    while rest != []
      invariant out + ChunkTexts(e, t, Chunks(rest, ROWS_PER_INSERT)) == ChunkTexts(e, t, Chunks(page, ROWS_PER_INSERT))
      decreases |rest|
    {
      hide ChunkSql, Chunks, ChunkTexts, EndOf;
      var n := Min(ROWS_PER_INSERT, |rest|);
      ChunkTextsStep(e, t, rest, ROWS_PER_INSERT);
      out := out + (ChunkSql(e, t, rest[..n]) + EndOf(e));
      rest := rest[n..];
    }
  }

  lemma ChunksStep(rows: seq<Row>, size: nat)
    requires size > 0 && rows != []
    ensures var n := Min(size, |rows|); Chunks(rows, size) == [rows[..n]] + Chunks(rows[n..], size)
  {
    if |rows| <= size {
      assert rows[..|rows|] == rows && rows[|rows|..] == [];
    }
  }

  lemma ChunkTextsStep(e: Engine, t: Table, rows: seq<Row>, size: nat)
    requires size > 0 && rows != []
    ensures var n := Min(size, |rows|);
      ChunkTexts(e, t, Chunks(rows, size))
      == ChunkSql(e, t, rows[..n]) + EndOf(e) + ChunkTexts(e, t, Chunks(rows[n..], size))
  {
    hide ChunkSql, Chunks, EndOf;
    var n := Min(size, |rows|);
    ChunksStep(rows, size);
    assert Chunks(rows, size)[1..] == Chunks(rows[n..], size);
  }

  lemma {:induction false} ChunkTextsAppend(e: Engine, t: Table, a: seq<seq<Row>>, b: seq<seq<Row>>)
    ensures ChunkTexts(e, t, a + b) == ChunkTexts(e, t, a) + ChunkTexts(e, t, b)
  {
    hide ChunkSql, EndOf;
    if a == [] {
      assert a + b == b;
    } else {
      assert (a + b)[1..] == a[1..] + b;
      ChunkTextsAppend(e, t, a[1..], b);
    }
  }

  /** The paging loop. Answers the text written and the number of rows. */
  method DumpRows(e: Engine, t: Table, rows: seq<Row>) returns (out: string, total: nat)
    ensures out == DumpText(e, t, rows)
    ensures total == if DumpedColumns(t.columns) == [] then 0 else |rows|
  {
    hide ChunkTexts, Chunks, IdentityInsert, EndOf, DumpedColumns;
    out, total := "", 0;
    if DumpedColumns(t.columns) == [] {
      return;
    }
    var identity := HasIdentity(e, t);
    if identity {
      out := IdentityInsert(e, t, "ON") + EndOf(e);
    }
    ghost var head := out;
    ghost var all := PagedChunks(rows, 0);
    var offset := 0;
    NoChunks(e, t);
    while true
      invariant out + ChunkTexts(e, t, PagedChunks(rows, offset)) == head + ChunkTexts(e, t, all)
      invariant total == Min(offset, |rows|)
      decreases |rows| + 1 - offset
    {
      var page := PageOf(rows, PAGE, offset);
      if page == [] {
        break;
      }
      var text := WriteChunks(e, t, page);
      ChunkTextsAppend(e, t, Chunks(page, ROWS_PER_INSERT), PagedChunks(rows, offset + PAGE));
      out := out + text;
      total := total + |page|;
      offset := offset + PAGE;
      if |page| < PAGE {
        break;
      }
    }
    assert PagedChunks(rows, offset) == [];
    assert out == head + ChunkTexts(e, t, all);
    if identity {
      out := out + IdentityInsert(e, t, "OFF") + EndOf(e);
    }
  }

  lemma NoChunks(e: Engine, t: Table)
    ensures ChunkTexts(e, t, []) == ""
  {
  }

  // ------------------------------------------------------------------ restoring

  datatype Summary = Summary(statements: nat, rows: nat, failed: seq<nat>)

  datatype RestoreError = Stopped(at: nat, total: nat) | Failed(statement: nat)

  /** What running a statement does to the database: the rows it touched, or a refusal. */
  type Executor<!D> = (D, string) -> Option<(D, nat)>

  /** The statements from number `i` on, run in order. */
  function RunAll<D>(exec: Executor<D>, stmts: seq<string>, i: nat, keepGoing: bool, stopAt: Option<nat>, db: D,
      s: Summary)
    : (D, Result<Summary, RestoreError>)
    requires i <= |stmts|
    decreases |stmts| - i
  {
    if i == |stmts| then (db, Ok(s))
    else if stopAt == Some(i) then (db, Err(Stopped(i, |stmts|)))
    else
      match exec(db, stmts[i])
      case Some((db', n)) => RunAll(exec, stmts, i + 1, keepGoing, stopAt, db',
        s.(statements := s.statements + 1, rows := s.rows + n))
      case None =>
        if keepGoing then RunAll(exec, stmts, i + 1, keepGoing, stopAt, db, s.(failed := s.failed + [i + 1]))
        else (db, Err(Failed(i + 1)))
  }

  /** Runs a script statement by statement; the user may stop it before statement `stopAt`. */
  method Restore<D>(e: Engine, exec: Executor<D>, script: string, keepGoing: bool, stopAt: Option<nat>, db0: D)
    returns (db: D, r: Result<Summary, RestoreError>)
    ensures (db, r) == RunAll(exec, Split(e, script), 0, keepGoing, stopAt, db0, Summary(0, 0, []))
  {
    hide *;
    var stmts := Split(e, script);
    db := db0;
    var s := Summary(0, 0, []);
    ghost var goal := RunAll(exec, stmts, 0, keepGoing, stopAt, db, s);
    for i := 0 to |stmts|
      invariant RunAll(exec, stmts, i, keepGoing, stopAt, db, s) == goal
    {
      RunStep(exec, stmts, i, keepGoing, stopAt, db, s);
      if stopAt == Some(i) {
        return db, Err(Stopped(i, |stmts|));
      }
      var outcome := exec(db, stmts[i]);
      if outcome.Some? {
        db, s := outcome.value.0, s.(statements := s.statements + 1, rows := s.rows + outcome.value.1);
      } else {
        if !keepGoing {
          return db, Err(Failed(i + 1));
        }
        s := s.(failed := s.failed + [i + 1]);
      }
    }
    RunDone(exec, stmts, keepGoing, stopAt, db, s);
    return db, Ok(s);
  }

  lemma RunStep<D>(exec: Executor<D>, stmts: seq<string>, i: nat, keepGoing: bool, stopAt: Option<nat>, db: D,
      s: Summary)
    requires i < |stmts|
    ensures RunAll(exec, stmts, i, keepGoing, stopAt, db, s) ==
      if stopAt == Some(i) then (db, Err(Stopped(i, |stmts|)))
      else if exec(db, stmts[i]).Some? then
        var (db', n) := exec(db, stmts[i]).value;
        RunAll(exec, stmts, i + 1, keepGoing, stopAt, db', s.(statements := s.statements + 1, rows := s.rows + n))
      else if keepGoing then RunAll(exec, stmts, i + 1, keepGoing, stopAt, db, s.(failed := s.failed + [i + 1]))
      else (db, Err(Failed(i + 1)))
  {
  }

  lemma RunDone<D>(exec: Executor<D>, stmts: seq<string>, keepGoing: bool, stopAt: Option<nat>, db: D, s: Summary)
    ensures RunAll(exec, stmts, |stmts|, keepGoing, stopAt, db, s) == (db, Ok(s))
  {
  }

  /** The database once `i` statements have been sent and failures passed over. */
  function StateAt<D>(exec: Executor<D>, stmts: seq<string>, db: D, i: nat): D
    requires i <= |stmts|
  {
    if i == 0 then db
    else
      var before := StateAt(exec, stmts, db, i - 1);
      match exec(before, stmts[i - 1])
      case None => before
      case Some(r) => r.0
  }

  /** What the database says to statement `i` then. */
  function Answer<D>(exec: Executor<D>, stmts: seq<string>, db: D, i: nat): Option<(D, nat)>
    requires i < |stmts|
  {
    exec(StateAt(exec, stmts, db, i), stmts[i])
  }

  /** The outcome of the statements from number `i` on, all of them sent. */
  function Tally<D>(exec: Executor<D>, stmts: seq<string>, db: D, i: nat): Summary
    requires i <= |stmts|
    decreases |stmts| - i
  {
    if i == |stmts| then Summary(0, 0, [])
    else
      var rest := Tally(exec, stmts, db, i + 1);
      match Answer(exec, stmts, db, i)
      case None => rest.(failed := [i + 1] + rest.failed)
      case Some(r) => rest.(statements := rest.statements + 1, rows := rest.rows + r.1)
  }

  /** Does the run end before statement `i`? */
  predicate Ends<D>(exec: Executor<D>, stmts: seq<string>, db: D, i: nat, keepGoing: bool, stopAt: Option<nat>)
    requires i < |stmts|
  {
    stopAt == Some(i) || (!keepGoing && Answer(exec, stmts, db, i).None?)
  }

  function Together(a: Summary, b: Summary): Summary {
    Summary(a.statements + b.statements, a.rows + b.rows, a.failed + b.failed)
  }

  lemma {:induction false} RunFrom<D>(exec: Executor<D>, stmts: seq<string>, db: D, i: nat, keepGoing: bool,
    stopAt: Option<nat>, s: Summary) returns (k: nat)
    requires i <= |stmts|
    ensures i <= k <= |stmts| && forall j :: i <= j < k ==> !Ends(exec, stmts, db, j, keepGoing, stopAt)
    ensures var r := RunAll(exec, stmts, i, keepGoing, stopAt, StateAt(exec, stmts, db, i), s);
      && r.0 == StateAt(exec, stmts, db, k)
      && (k < |stmts| ==> Ends(exec, stmts, db, k, keepGoing, stopAt))
      && (k < |stmts| ==>
            r.1 == Err(if stopAt == Some(k) then Stopped(k, |stmts|) else Failed(k + 1)))
      && (k == |stmts| ==> r.1 == Ok(Together(s, Tally(exec, stmts, db, i))))
    decreases |stmts| - i
  {
    hide RunAll;
    var now := StateAt(exec, stmts, db, i);
    k := i;
    if i == |stmts| {
      RunDone(exec, stmts, keepGoing, stopAt, now, s);
      assert s.failed + [] == s.failed;
    } else {
      RunStep(exec, stmts, i, keepGoing, stopAt, now, s);
      var r := Answer(exec, stmts, db, i);
      if !Ends(exec, stmts, db, i, keepGoing, stopAt) {
        var sum := if r.Some? then s.(statements := s.statements + 1, rows := s.rows + r.value.1)
          else s.(failed := s.failed + [i + 1]);
        k := RunFrom(exec, stmts, db, i + 1, keepGoing, stopAt, sum);
        var rest := Tally(exec, stmts, db, i + 1);
        assert (s.failed + [i + 1]) + rest.failed == s.failed + ([i + 1] + rest.failed);
      }
    }
  }

  /**
   A restore ends before the statement the user stops it at, or at the first that
   fails unless it is to go on; what ran before stays. When it reaches the end it
   counts every statement that ran and the rows, and names every one that failed.
   */
  lemma RestoreMeans<D>(exec: Executor<D>, stmts: seq<string>, keepGoing: bool, stopAt: Option<nat>, db: D)
    returns (k: nat)
    ensures k <= |stmts| && forall j :: 0 <= j < k ==> !Ends(exec, stmts, db, j, keepGoing, stopAt)
    ensures var r := RunAll(exec, stmts, 0, keepGoing, stopAt, db, Summary(0, 0, []));
      && r.0 == StateAt(exec, stmts, db, k)
      && (k < |stmts| ==> Ends(exec, stmts, db, k, keepGoing, stopAt))
      && (k < |stmts| ==>
            r.1 == Err(if stopAt == Some(k) then Stopped(k, |stmts|) else Failed(k + 1)))
      && (k == |stmts| ==> r.1 == Ok(Tally(exec, stmts, db, 0)))
  {
    hide RunAll, Tally, Ends;
    k := RunFrom(exec, stmts, db, 0, keepGoing, stopAt, Summary(0, 0, []));
    assert [] + Tally(exec, stmts, db, 0).failed == Tally(exec, stmts, db, 0).failed;
  }
}
