/** How names and values are quoted, and what SQL a row edit becomes. */
module Dialect {
  import opened Prelude
  import opened Engines

  /** `s` with every `q` written twice. */
  function Doubled(s: string, q: char): string {
    if s == "" then "" else (if s[0] == q then [q, q] else [s[0]]) + Doubled(s[1..], q)
  }

  function OpenQuote(e: Engine): char {
    if e.IsMysqlFamily() then '`' else if e.Mssql? then '[' else '"'
  }

  function CloseQuote(e: Engine): char {
    if e.Mssql? then ']' else OpenQuote(e)
  }

  /** A quoted identifier. */
  function Ident(e: Engine, name: string): string {
    [OpenQuote(e)] + Doubled(name, CloseQuote(e)) + [CloseQuote(e)]
  }

  /** A table's name, after that of its schema if it has one. */
  function Qualified(e: Engine, schema: Option<string>, table: string): string {
    if schema.Some? && schema.value != "" then Ident(e, schema.value) + "." + Ident(e, table) else Ident(e, table)
  }

  /** The body of a string literal. MySQL treats a backslash as an escape. */
  function LiteralBody(e: Engine, v: string): string {
    if e.IsMysqlFamily() then Doubled(Doubled(v, '\\'), '\'') else Doubled(v, '\'')
  }

  /** What stands for a value in a statement. */
  function Literal(e: Engine, value: Option<string>): string {
    if value.None? then "NULL"
    else (if e.Mssql? then "N'" else "'") + LiteralBody(e, value.value) + "'"
  }

  datatype Cell = Cell(column: string, value: Option<string>)

  datatype RowEdit =
    | Update(key: seq<Cell>, values: seq<Cell>)
    | Insert(values: seq<Cell>)
    | Delete(key: seq<Cell>)

  function KeyTerm(e: Engine, c: Cell): string {
    if c.value.Some? then Ident(e, c.column) + " = " + Literal(e, c.value) else Ident(e, c.column) + " IS NULL"
  }

  function Assignment(e: Engine, c: Cell): string {
    Ident(e, c.column) + " = " + Literal(e, c.value)
  }

  datatype EditError = NoKey | NothingChanged

  /** Refuses an empty key, so no edit becomes an unfiltered statement. */
  function KeyFilter(e: Engine, key: seq<Cell>): Result<string, EditError> {
    if key == [] then Err(NoKey) else Ok(Join(Map((c: Cell) => KeyTerm(e, c), key), " AND "))
  }

  function Sets(e: Engine, values: seq<Cell>): string {
    Join(Map((c: Cell) => Assignment(e, c), values), ", ")
  }

  function Names(e: Engine, values: seq<Cell>): string {
    Join(Map((c: Cell) => Ident(e, c.column), values), ", ")
  }

  function Values(e: Engine, values: seq<Cell>): string {
    Join(Map((c: Cell) => Literal(e, c.value), values), ", ")
  }

  function UpdateSql(t: string, sets: string, filter: string): string {
    "UPDATE " + t + " SET " + sets + " WHERE " + filter
  }

  function InsertSql(t: string, cols: string, vals: string): string {
    "INSERT INTO " + t + " (" + cols + ") VALUES (" + vals + ")"
  }

  function InsertDefaultsSql(e: Engine, t: string): string {
    if e.IsMysqlFamily() then "INSERT INTO " + t + " () VALUES ()" else "INSERT INTO " + t + " DEFAULT VALUES"
  }

  function DeleteSql(t: string, filter: string): string {
    "DELETE FROM " + t + " WHERE " + filter
  }

  function EditSql(e: Engine, schema: Option<string>, table: string, edit: RowEdit): Result<string, EditError> {
    var t := Qualified(e, schema, table);
    match edit
    case Update(key, values) =>
      if values == [] then Err(NothingChanged)
      else
        var filter :- KeyFilter(e, key);
        Ok(UpdateSql(t, Sets(e, values), filter))
    case Insert(values) =>
      if values == [] then Ok(InsertDefaultsSql(e, t)) else Ok(InsertSql(t, Names(e, values), Values(e, values)))
    case Delete(key) =>
      var filter :- KeyFilter(e, key);
      Ok(DeleteSql(t, filter))
  }

  /** One statement for each edit; an edit for which there is none is an error for the whole list. */
  function RowEdits(e: Engine, schema: Option<string>, table: string,
      edits: seq<RowEdit>): Result<seq<string>, EditError> {
    if edits == [] then Ok([])
    else
      var first :- EditSql(e, schema, table, edits[0]);
      var rest :- RowEdits(e, schema, table, edits[1..]);
      Ok([first] + rest)
  }
}
