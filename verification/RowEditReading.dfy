/** The statement of a row edit, read back by a database's own reader, is that edit: its table, its cells, its row. */
module RowEditReading {
  import opened Prelude
  import opened Engines
  import opened Guard
  import opened Dialect
  import opened SqlText
  import opened SqlPrinting
  import opened RowEditText
  import opened SqlReader
  import Backup
  import opened DumpRoundTrip

  // ------------------------------------------------------------------ reading

  /** A value that is no binary literal. */
  function ReadText(e: Engine, ts: seq<Token>): (r: Option<Parsed<Value>>)
    ensures r.Some? ==> |r.value.rest| < |ts|
  {
    match ReadValue(e, ts)
    case None => None
    case Some(v) =>
      match v.value
      case Nothing => Some(Parsed(None, v.rest))
      case Words(text) => Some(Parsed(Some(text), v.rest))
      case Bytes(_) => None
  }

  /** `name = value`. */
  function ReadAssignment(e: Engine, ts: seq<Token>): (r: Option<Parsed<Cell>>)
    ensures r.Some? ==> |r.value.rest| < |ts|
  {
    if |ts| < 2 || ReadName(e, ts[0]).None? || ts[1].text != "=" then None
    else
      match ReadText(e, ts[2..])
      case None => None
      case Some(v) => Some(Parsed(Cell(ReadName(e, ts[0]).value, v.value), v.rest))
  }

  /** `name = value` or `name IS NULL`; `= NULL` would pick no row at all. */
  function ReadTerm(e: Engine, ts: seq<Token>): (r: Option<Parsed<Cell>>)
    ensures r.Some? ==> |r.value.rest| < |ts|
  {
    if |ts| > 2 && ReadName(e, ts[0]).Some? && IsWord(ts[1..], "is") && IsWord(ts[2..], "null") then
      Some(Parsed(Cell(ReadName(e, ts[0]).value, None), ts[3..]))
    else
      var r := ReadAssignment(e, ts);
      if r.Some? && r.value.value.value.Some? then r else None
  }

  function ReadAssignments(e: Engine, ts: seq<Token>): Option<Parsed<seq<Cell>>>
    decreases |ts|
  {
    match ReadAssignment(e, ts)
    case None => None
    case Some(c) =>
      if !IsSign(c.rest, ",") then Some(Parsed([c.value], c.rest))
      else
        match ReadAssignments(e, c.rest[1..])
        case None => None
        case Some(cs) => Some(Parsed([c.value] + cs.value, cs.rest))
  }

  /** Terms joined by AND, to the end of the statement. */
  function ReadFilter(e: Engine, ts: seq<Token>): Option<seq<Cell>>
    decreases |ts|
  {
    match ReadTerm(e, ts)
    case None => None
    case Some(c) =>
      if c.rest == [] then Some([c.value])
      else if !IsWord(c.rest, "and") then None
      else
        match ReadFilter(e, c.rest[1..])
        case None => None
        case Some(cs) => Some([c.value] + cs)
  }

  type Edited = (Option<string>, string, RowEdit)

  function ReadUpdate(e: Engine, ts: seq<Token>): Option<Edited> {
    if !IsWord(ts, "update") then None
    else
      match ReadTable(e, ts[1..])
      case None => None
      case Some(t) =>
        if !IsWord(t.rest, "set") then None
        else
          match ReadAssignments(e, t.rest[1..])
          case None => None
          case Some(sets) =>
            if !IsWord(sets.rest, "where") then None
            else
              match ReadFilter(e, sets.rest[1..])
              case None => None
              case Some(filter) => Some((t.value.0, t.value.1, Update(filter, sets.value)))
  }

  function ReadDelete(e: Engine, ts: seq<Token>): Option<Edited> {
    if !IsWord(ts, "delete") || !IsWord(ts[1..], "from") then None
    else
      match ReadTable(e, ts[2..])
      case None => None
      case Some(t) =>
        if !IsWord(t.rest, "where") then None
        else
          match ReadFilter(e, t.rest[1..])
          case None => None
          case Some(filter) => Some((t.value.0, t.value.1, Delete(filter)))
  }

  /** The cells a row of an INSERT fills. */
  function CellsOf(names: seq<string>, values: seq<Stored>): Option<seq<Cell>> {
    if names == [] && values == [] then Some([])
    else if names == [] || values == [] || values[0].Bytes? then None
    else
      match CellsOf(names[1..], values[1..])
      case None => None
      case Some(cs) => Some([Cell(names[0], if values[0].Nothing? then None else Some(values[0].text))] + cs)
  }

  /** An INSERT of defaults alone: MySQL writes two empty lists. */
  predicate AllDefaults(e: Engine, ts: seq<Token>) {
    if e.IsMysqlFamily() then
      && |ts| == 5 && ts[0].text == "(" && ts[1].text == ")" && ts[2].tok == Word("values")
      && ts[3].text == "(" && ts[4].text == ")"
    else |ts| == 2 && ts[0].tok == Word("default") && ts[1].tok == Word("values")
  }

  function ReadNewRow(e: Engine, ts: seq<Token>): Option<Edited> {
    match ReadInsert(e, ts)
    case Some(ins) =>
      if |ins.rows| != 1 || CellsOf(ins.columns, ins.rows[0]).None? then None
      else Some((ins.schema, ins.table, Insert(CellsOf(ins.columns, ins.rows[0]).value)))
    case None =>
      if !IsWord(ts, "insert") || !IsWord(ts[1..], "into") then None
      else
        match ReadTable(e, ts[2..])
        case None => None
        case Some(t) => if AllDefaults(e, t.rest) then Some((t.value.0, t.value.1, Insert([]))) else None
  }

  /** What a database takes a statement for: a table, and the rows and cells of it that change. */
  function ReadEdit(e: Engine, ts: seq<Token>): Option<Edited> {
    if IsWord(ts, "update") then ReadUpdate(e, ts)
    else if IsWord(ts, "delete") then ReadDelete(e, ts)
    else ReadNewRow(e, ts)
  }

  // ------------------------------------------------------------------ cells

  const EQUALS_TOKEN: seq<Token> := [Token(Other, "=")]

  lemma TextReadsBack(e: Engine, v: Value, rest: seq<Token>)
    ensures ReadText(e, TokensOf(LiteralPieces(e, v)) + rest) == Some(Parsed(v, rest))
  {
    hide ReadValue, TokensOf, LiteralPieces;
    LiteralReadsBack(e, v, rest);
  }

  lemma EqualsTokens()
    ensures TokensOf(EQUALS) == EQUALS_TOKEN
  {
    assert EQUALS[1..] == [Sym('='), Sp(' ')] && EQUALS[1..][1..] == [Sp(' ')] && [Sp(' ')][1..] == [];
  }

  lemma AssignmentTokens(e: Engine, c: Cell)
    ensures TokensOf(AssignmentPieces(e, c))
      == [Token(Other, Ident(e, c.column))] + (EQUALS_TOKEN + TokensOf(LiteralPieces(e, c.value)))
  {
    hide TokensOf, Ident, LiteralPieces;
    NameReadsBack(e, c.column);
    EqualsTokens();
    TokensOfAppend([NamePiece(e, c.column)] + EQUALS, LiteralPieces(e, c.value));
    TokensOfAppend([NamePiece(e, c.column)], EQUALS);
  }

  lemma AssignmentReadsBack(e: Engine, c: Cell, rest: seq<Token>)
    ensures ReadAssignment(e, TokensOf(AssignmentPieces(e, c)) + rest) == Some(Parsed(c, rest))
    ensures var ts := TokensOf(AssignmentPieces(e, c)) + rest; |ts| > 1 && !IsWord(ts[1..], "is")
  {
    hide TokensOf, Ident, LiteralPieces, ReadText, ReadName, AssignmentPieces;
    AssignmentTokens(e, c);
    NameReadsBack(e, c.column);
    TextReadsBack(e, c.value, rest);
    var ts := TokensOf(AssignmentPieces(e, c)) + rest;
    assert ts[1] == Token(Other, "=") && ts[1..][0] == ts[1];
    assert ts[2..] == TokensOf(LiteralPieces(e, c.value)) + rest;
  }

  lemma LowerIS()
    ensures Lower("IS") == "is"
  {
    hide Lower;
    LowerIs("IS", "is");
  }

  lemma LowerAND()
    ensures Lower("AND") == "and"
  {
    hide Lower;
    LowerIs("AND", "and");
  }

  lemma PaddedTokens(w: string)
    ensures TokensOf(Padded(w)) == [Token(Word(Lower(w)), w)]
  {
    hide Lower;
    WordTokens(w);
    assert Padded(w)[1..] == Leading(w);
  }

  lemma TermReadsBack(e: Engine, c: Cell, rest: seq<Token>)
    ensures ReadTerm(e, TokensOf(KeyPieces(e, c)) + rest) == Some(Parsed(c, rest))
  {
    hide TokensOf, Ident, LiteralPieces, ReadAssignment, ReadName, AssignmentPieces, Lower, Padded;
    var ts := TokensOf(KeyPieces(e, c)) + rest;
    if c.value.Some? {
      AssignmentReadsBack(e, c, rest);
    } else {
      LowerIS();
      LowerNULL();
      NameReadsBack(e, c.column);
      PaddedTokens("IS");
      TokensOfOne(Kw("NULL"));
      TokensOfAppend([NamePiece(e, c.column)] + Padded("IS"), [Kw("NULL")]);
      TokensOfAppend([NamePiece(e, c.column)], Padded("IS"));
      assert ts == [Token(Other, Ident(e, c.column)), Token(Word("is"), "IS"), Token(Word("null"), "NULL")] + rest;
      assert ts[1..][0] == Token(Word("is"), "IS") && ts[2..][0] == Token(Word("null"), "NULL") && ts[3..] == rest;
    }
  }

  lemma Counts(e: Engine, cells: seq<Cell>)
    ensures |SetsPieces(e, cells)| == |cells| && |KeysPieces(e, cells)| == |cells|
    ensures |LiteralsPieces(e, cells)| == |cells|
  {
    hide AssignmentPieces, KeyPieces, LiteralPieces;
  }

  /** The last assignment of a list. */
  lemma LastAssignment(e: Engine, c: Cell, rest: seq<Token>)
    requires !IsSign(rest, ",")
    ensures ReadAssignments(e, TokensOf(AssignmentPieces(e, c)) + rest) == Some(Parsed([c], rest))
  {
    hide TokensOf, ReadAssignment, AssignmentPieces;
    AssignmentReadsBack(e, c, rest);
  }

  /** An assignment and those behind it. */
  lemma AssignmentThen(e: Engine, c: Cell, tail: seq<Token>)
    ensures ReadAssignments(e, TokensOf(AssignmentPieces(e, c)) + (COMMA_TOKEN + tail)) ==
      match ReadAssignments(e, tail)
      case None => None
      case Some(cs) => Some(Parsed([c] + cs.value, cs.rest))
  {
    hide TokensOf, ReadAssignment, AssignmentPieces;
    AssignmentReadsBack(e, c, COMMA_TOKEN + tail);
    assert (COMMA_TOKEN + tail)[1..] == tail;
  }

  lemma {:induction false} AssignmentsReadBack(e: Engine, cells: seq<Cell>, rest: seq<Token>)
    requires cells != [] && !IsSign(rest, ",")
    ensures ReadAssignments(e, TokensOf(Joined(SetsPieces(e, cells), COMMA)) + rest) == Some(Parsed(cells, rest))
    decreases |cells|
  {
    hide TokensOf, Joined, ReadAssignments, AssignmentPieces, IsSign;
    var items := SetsPieces(e, cells);
    Counts(e, cells);
    JoinedTokens(items, COMMA);
    CommaTokens();
    var ts := TokensOf(Joined(items, COMMA)) + rest;
    if |cells| == 1 {
      LastAssignment(e, cells[0], rest);
      assert [cells[0]] == cells;
      assert ts == TokensOf(items[0]) + rest;
    } else {
      assert items[1..] == SetsPieces(e, cells[1..]);
      var tail := TokensOf(Joined(SetsPieces(e, cells[1..]), COMMA)) + rest;
      assert ts == TokensOf(items[0]) + (COMMA_TOKEN + tail);
      AssignmentThen(e, cells[0], tail);
      AssignmentsReadBack(e, cells[1..], rest);
      assert [cells[0]] + cells[1..] == cells;
    }
  }

  const AND_TOKEN: seq<Token> := [Token(Word("and"), "AND")]

  lemma {:induction false} FilterReadsBack(e: Engine, cells: seq<Cell>)
    requires cells != []
    ensures ReadFilter(e, TokensOf(Joined(KeysPieces(e, cells), Padded("AND")))) == Some(cells)
    decreases |cells|
  {
    hide TokensOf, Joined, ReadTerm, KeyPieces, Lower, Padded;
    var items := KeysPieces(e, cells);
    Counts(e, cells);
    JoinedTokens(items, Padded("AND"));
    PaddedTokens("AND");
    LowerAND();
    var ts := TokensOf(Joined(items, Padded("AND")));
    if |cells| == 1 {
      TermReadsBack(e, cells[0], []);
      assert [cells[0]] == cells;
      assert ts == TokensOf(items[0]) + [];
    } else {
      assert items[1..] == KeysPieces(e, cells[1..]);
      var tail := TokensOf(Joined(KeysPieces(e, cells[1..]), Padded("AND")));
      assert ts == TokensOf(items[0]) + (AND_TOKEN + tail);
      TermReadsBack(e, cells[0], AND_TOKEN + tail);
      assert (AND_TOKEN + tail)[1..] == tail;
      FilterReadsBack(e, cells[1..]);
      assert [cells[0]] + cells[1..] == cells;
    }
  }

  // ------------------------------------------------------------------ the statements

  /** The table of an edit, as the helpers of the dump take it. */
  function Named(schema: Option<string>, table: string): Backup.Table {
    Backup.Table(schema, table, [], [])
  }

  lemma UpdateReadsBack(e: Engine, schema: Option<string>, table: string, key: seq<Cell>, values: seq<Cell>)
    requires key != [] && values != []
    ensures ReadUpdate(e, TokensOf(EditPieces(e, schema, table, Update(key, values))))
      == Some((SchemaOf(Named(schema, table)), table, Update(key, values)))
  {
    hide TokensOf, Joined, QualifiedPieces, SetsPieces, KeysPieces, ReadTable, ReadAssignments, ReadFilter, Lower,
      Leading, Padded, SchemaOf;
    LowerUPDATE();
    LowerSET();
    LowerWHERE();
    WordTokens("UPDATE");
    PaddedTokens("SET");
    PaddedTokens("WHERE");
    var q, sets, keys := QualifiedPieces(e, schema, table), Joined(SetsPieces(e, values), COMMA),
      Joined(KeysPieces(e, key), Padded("AND"));
    var a := Leading("UPDATE") + q;
    var b := a + Padded("SET") + sets;
    TokensOfAppend(Leading("UPDATE"), q);
    TokensOfAppend(a, Padded("SET"));
    TokensOfAppend(a + Padded("SET"), sets);
    TokensOfAppend(b, Padded("WHERE"));
    TokensOfAppend(b + Padded("WHERE"), keys);
    var r2 := [Token(Word("where"), "WHERE")] + TokensOf(keys);
    var r1 := [Token(Word("set"), "SET")] + (TokensOf(sets) + r2);
    var ts := TokensOf(EditPieces(e, schema, table, Update(key, values)));
    assert ts == [Token(Word("update"), "UPDATE")] + (TokensOf(q) + r1);
    assert ts[1..] == TokensOf(q) + r1 && r1[1..] == TokensOf(sets) + r2 && r2[1..] == TokensOf(keys);
    TableReadsBack(e, Named(schema, table), r1);
    AssignmentsReadBack(e, values, r2);
    FilterReadsBack(e, key);
  }

  lemma LowerFROM()
    ensures Lower("FROM") == "from"
  {
    hide Lower;
    LowerIs("FROM", "from");
  }

  lemma DeleteReadsBack(e: Engine, schema: Option<string>, table: string, key: seq<Cell>)
    requires key != []
    ensures ReadDelete(e, TokensOf(EditPieces(e, schema, table, Delete(key))))
      == Some((SchemaOf(Named(schema, table)), table, Delete(key)))
    ensures IsWord(TokensOf(EditPieces(e, schema, table, Delete(key))), "delete")
  {
    hide TokensOf, Joined, QualifiedPieces, KeysPieces, ReadTable, ReadFilter, Lower, Leading, Padded, SchemaOf;
    LowerDELETE();
    LowerFROM();
    LowerWHERE();
    WordTokens("DELETE");
    WordTokens("FROM");
    PaddedTokens("WHERE");
    var q, keys := QualifiedPieces(e, schema, table), Joined(KeysPieces(e, key), Padded("AND"));
    var a := Leading("DELETE") + Leading("FROM");
    TokensOfAppend(Leading("DELETE"), Leading("FROM"));
    TokensOfAppend(a, q);
    TokensOfAppend(a + q, Padded("WHERE"));
    TokensOfAppend(a + q + Padded("WHERE"), keys);
    var r := [Token(Word("where"), "WHERE")] + TokensOf(keys);
    var ts := TokensOf(EditPieces(e, schema, table, Delete(key)));
    assert ts == [Token(Word("delete"), "DELETE"), Token(Word("from"), "FROM")] + (TokensOf(q) + r);
    assert ts[1..][0] == Token(Word("from"), "FROM") && ts[2..] == TokensOf(q) + r && r[1..] == TokensOf(keys);
    TableReadsBack(e, Named(schema, table), r);
    FilterReadsBack(e, key);
  }

  // ------------------------------------------------------------------ a new row

  function StoredOf(v: Value): Stored {
    if v.None? then Nothing else Words(v.value)
  }

  function NamesOf(cells: seq<Cell>): seq<string> {
    if cells == [] then [] else [cells[0].column] + NamesOf(cells[1..])
  }

  function ValuesOf(cells: seq<Cell>): seq<Stored> {
    if cells == [] then []
    else [StoredOf(cells[0].value)] + ValuesOf(cells[1..])
  }

  lemma {:induction false} CellsBack(cells: seq<Cell>)
    ensures CellsOf(NamesOf(cells), ValuesOf(cells)) == Some(cells)
  {
    if cells != [] {
      CellsBack(cells[1..]);
      assert [cells[0]] + cells[1..] == cells;
    }
  }

  lemma {:induction false} SameNames(e: Engine, cells: seq<Cell>)
    ensures NamesPieces(e, cells) == ColumnsPieces(e, NamesOf(cells)) && |NamesOf(cells)| == |cells|
  {
    hide NamePiece;
    if cells != [] {
      SameNames(e, cells[1..]);
      assert NamesOf(cells)[1..] == NamesOf(cells[1..]);
    }
  }

  /** One value, and then what follows it. */
  lemma ValueThen(e: Engine, v: Value, sign: seq<Token>, tail: seq<Token>)
    requires sign == CLOSE_TOKEN || sign == COMMA_TOKEN
    ensures ReadValues(e, TokensOf(LiteralPieces(e, v)) + (sign + tail)) ==
      if sign == CLOSE_TOKEN then Some(Parsed([StoredOf(v)], tail))
      else
        match ReadValues(e, tail)
        case None => None
        case Some(vs) => Some(Parsed([StoredOf(v)] + vs.value, vs.rest))
  {
    hide TokensOf, ReadValue, LiteralPieces;
    LiteralReadsBack(e, v, sign + tail);
    assert (sign + tail)[1..] == tail;
  }

  lemma {:induction false} LiteralsReadBack(e: Engine, cells: seq<Cell>, rest: seq<Token>)
    requires cells != []
    ensures ReadValues(e, TokensOf(Joined(LiteralsPieces(e, cells), COMMA)) + CLOSE_TOKEN + rest)
      == Some(Parsed(ValuesOf(cells), rest))
    decreases |cells|
  {
    hide TokensOf, Joined, ReadValues, LiteralPieces;
    var items := LiteralsPieces(e, cells);
    Counts(e, cells);
    JoinedTokens(items, COMMA);
    CommaTokens();
    var ts := TokensOf(Joined(items, COMMA)) + CLOSE_TOKEN + rest;
    if |cells| == 1 {
      assert ts == TokensOf(items[0]) + (CLOSE_TOKEN + rest);
      ValueThen(e, cells[0].value, CLOSE_TOKEN, rest);
      assert ValuesOf(cells) == [StoredOf(cells[0].value)];
    } else {
      assert items[1..] == LiteralsPieces(e, cells[1..]);
      var tail := TokensOf(Joined(LiteralsPieces(e, cells[1..]), COMMA)) + CLOSE_TOKEN + rest;
      assert ts == TokensOf(items[0]) + (COMMA_TOKEN + tail);
      ValueThen(e, cells[0].value, COMMA_TOKEN, tail);
      SignsDiffer();
      LiteralsReadBack(e, cells[1..], rest);
    }
  }

  lemma RowReadsBackOne(e: Engine, cells: seq<Cell>)
    requires cells != []
    ensures ReadRows(e, OPEN_TOKEN + (TokensOf(Joined(LiteralsPieces(e, cells), COMMA)) + CLOSE_TOKEN))
      == Some([ValuesOf(cells)])
  {
    hide TokensOf, Joined, LiteralsPieces, ReadValues;
    var inner := TokensOf(Joined(LiteralsPieces(e, cells), COMMA)) + CLOSE_TOKEN;
    LiteralsReadBack(e, cells, []);
    assert inner + [] == inner;
    assert (OPEN_TOKEN + inner)[1..] == inner;
  }

  lemma HeadTokens(e: Engine, schema: Option<string>, table: string)
    ensures TokensOf(InsertHead(e, schema, table))
      == [Token(Word("insert"), "INSERT"), Token(Word("into"), "INTO")] + TokensOf(QualifiedPieces(e, schema, table))
  {
    hide TokensOf, QualifiedPieces, Lower, Leading;
    LowerINSERT();
    LowerINTO();
    WordTokens("INSERT");
    WordTokens("INTO");
    TokensOfAppend(Leading("INSERT"), Leading("INTO"));
    TokensOfAppend(Leading("INSERT") + Leading("INTO"), QualifiedPieces(e, schema, table));
  }

  lemma InsertReadsBack(e: Engine, schema: Option<string>, table: string, cells: seq<Cell>)
    requires cells != []
    ensures ReadInsert(e, TokensOf(EditPieces(e, schema, table, Insert(cells))))
      == Some(Insertion(SchemaOf(Named(schema, table)), table, NamesOf(cells), [ValuesOf(cells)]))
  {
    hide TokensOf, Joined, QualifiedPieces, NamesPieces, LiteralsPieces, ColumnsPieces, ReadTable, ReadNames, ReadRows,
      Lower, InsertHead, Trailing, SchemaOf;
    LowerVALUES();
    HeadTokens(e, schema, table);
    WordTokens("VALUES");
    CommaTokens();
    SameNames(e, cells);
    var q, names, values := QualifiedPieces(e, schema, table), Joined(NamesPieces(e, cells), COMMA),
      Joined(LiteralsPieces(e, cells), COMMA);
    var a := InsertHead(e, schema, table);
    var b := a + OPEN_LIST + names + CLOSE_LIST + Trailing("VALUES");
    TokensOfAppend(a, OPEN_LIST);
    TokensOfAppend(a + OPEN_LIST, names);
    TokensOfAppend(a + OPEN_LIST + names, CLOSE_LIST);
    TokensOfAppend(a + OPEN_LIST + names + CLOSE_LIST, Trailing("VALUES"));
    TokensOfAppend(b, OPEN_LIST);
    TokensOfAppend(b + OPEN_LIST, values);
    TokensOfAppend(b + OPEN_LIST + values, CLOSE_LIST);
    var row := OPEN_TOKEN + (TokensOf(values) + CLOSE_TOKEN);
    var r3 := [Token(Word("values"), "VALUES")] + row;
    var r2 := TokensOf(names) + CLOSE_TOKEN + r3;
    var r1 := OPEN_TOKEN + r2;
    var ts := TokensOf(EditPieces(e, schema, table, Insert(cells)));
    assert ts == [Token(Word("insert"), "INSERT"), Token(Word("into"), "INTO")] + (TokensOf(q) + r1);
    assert ts[1..][0] == Token(Word("into"), "INTO") && ts[2..] == TokensOf(q) + r1;
    assert r1[1..] == r2 && r3[1..] == row;
    TableReadsBack(e, Named(schema, table), r1);
    NamesReadBack(e, NamesOf(cells), r3);
    RowReadsBackOne(e, cells);
  }

  lemma LowerDEFAULT()
    ensures Lower("DEFAULT") == "default"
  {
    hide Lower;
    LowerIs("DEFAULT", "default");
  }

  /** What follows the table's name in an INSERT of defaults. */
  function DefaultsTail(e: Engine): seq<Piece> {
    if e.IsMysqlFamily() then [Sp(' ')] + EMPTY_LIST + Padded("VALUES") + EMPTY_LIST
    else Padded("DEFAULT") + [Kw("VALUES")]
  }

  lemma DefaultsTokens(e: Engine)
    ensures AllDefaults(e, TokensOf(DefaultsTail(e))) && TokensOf(DefaultsTail(e))[0].text != "."
    ensures |TokensOf(DefaultsTail(e))| == 2 ==> TokensOf(DefaultsTail(e))[0].text != "("
    ensures |TokensOf(DefaultsTail(e))| == 5 ==> ReadName(e, TokensOf(DefaultsTail(e))[1]).None?
  {
    hide TokensOf, Lower, Padded;
    LowerVALUES();
    if e.IsMysqlFamily() {
      PaddedTokens("VALUES");
      EmptyTokens();
      TokensOfAppend([Sp(' ')] + EMPTY_LIST + Padded("VALUES"), EMPTY_LIST);
      TokensOfAppend([Sp(' ')] + EMPTY_LIST, Padded("VALUES"));
      TokensOfAppend([Sp(' ')], EMPTY_LIST);
    } else {
      LowerDEFAULT();
      PaddedTokens("DEFAULT");
      TokensOfOne(Kw("VALUES"));
      TokensOfAppend(Padded("DEFAULT"), [Kw("VALUES")]);
    }
  }

  lemma EmptyTokens()
    ensures TokensOf(EMPTY_LIST) == [Token(Open, "("), Token(Close, ")")] && TokensOf([Sp(' ')]) == []
  {
    assert EMPTY_LIST[1..] == [Sym(')')] && [Sym(')')][1..] == [] && [Sp(' ')][1..] == [];
  }

  lemma DefaultsReadBack(e: Engine, schema: Option<string>, table: string)
    ensures ReadNewRow(e, TokensOf(EditPieces(e, schema, table, Insert([]))))
      == Some((SchemaOf(Named(schema, table)), table, Insert([])))
  {
    hide TokensOf, QualifiedPieces, ReadTable, ReadRows, ReadName, Lower, InsertHead, DefaultsTail, SchemaOf,
      AllDefaults, Padded;
    HeadTokens(e, schema, table);
    DefaultsTokens(e);
    var a, q, rest := InsertHead(e, schema, table), QualifiedPieces(e, schema, table), TokensOf(DefaultsTail(e));
    DefaultsPieces(e, schema, table);
    TokensOfAppend(a, DefaultsTail(e));
    TableReadsBack(e, Named(schema, table), rest);
    var ts := TokensOf(EditPieces(e, schema, table, Insert([])));
    assert ts == [Token(Word("insert"), "INSERT"), Token(Word("into"), "INTO")] + (TokensOf(q) + rest);
    assert ts[1..][0] == Token(Word("into"), "INTO") && ts[2..] == TokensOf(q) + rest;
    DefaultsShort(e, rest);
    assert ReadInsert(e, ts).None? by {
      if |rest| == 5 {
        assert rest[1..][0] == rest[1];
      }
    }
  }

  lemma DefaultsShort(e: Engine, ts: seq<Token>)
    requires AllDefaults(e, ts)
    ensures |ts| == 2 || |ts| == 5
  {
  }

  lemma DefaultsPieces(e: Engine, schema: Option<string>, table: string)
    ensures EditPieces(e, schema, table, Insert([])) == InsertHead(e, schema, table) + DefaultsTail(e)
  {
    hide InsertHead, Padded;
    var a := InsertHead(e, schema, table);
    if e.IsMysqlFamily() {
      assert a + [Sp(' ')] + EMPTY_LIST + Padded("VALUES") + EMPTY_LIST
        == a + ([Sp(' ')] + EMPTY_LIST + Padded("VALUES") + EMPTY_LIST);
    } else {
      assert a + Padded("DEFAULT") + [Kw("VALUES")] == a + (Padded("DEFAULT") + [Kw("VALUES")]);
    }
  }

  /**
   Whatever names and values hold, the statement written for an edit sets, adds or
   removes just what the edit says: the database reads the very table, the cells
   with their values, and the row picked by its key, NULLs included.
   */
  lemma EditReadsBack(e: Engine, schema: Option<string>, table: string, edit: RowEdit)
    requires EditSql(e, schema, table, edit).Ok?
    ensures ReadEdit(e, Tokens(e, EditSql(e, schema, table, edit).value))
      == Some((if schema == Some("") then None else schema, table, edit))
  {
    hide EditPieces, Tokens, TokensOf, ReadUpdate, ReadDelete, ReadNewRow, Render, Flat, Firm, WellFormed, NoEnd,
      KindsOf, UpdateSql, DeleteSql, InsertSql, InsertDefaultsSql, Sets, Names, Values, Join, Qualified, Lower;
    EditText(e, schema, table, edit);
    var ps := EditPieces(e, schema, table, edit);
    ReadPrinted(e, ps);
    FirstToken(ps, Verb(edit));
    LowerUPDATE();
    LowerDELETE();
    LowerINSERT();
    match edit
    case Update(key, values) => UpdateReadsBack(e, schema, table, key, values);
    case Delete(key) => DeleteReadsBack(e, schema, table, key);
    case Insert(values) => NewRowReadsBack(e, schema, table, values);
  }

  lemma FirstToken(ps: seq<Piece>, w: string)
    requires ps != [] && ps[0] == Kw(w)
    ensures TokensOf(ps) != [] && TokensOf(ps)[0] == Token(Word(Lower(w)), w)
  {
    hide Lower;
  }

  lemma NewRowReadsBack(e: Engine, schema: Option<string>, table: string, values: seq<Cell>)
    ensures ReadNewRow(e, TokensOf(EditPieces(e, schema, table, Insert(values))))
      == Some((SchemaOf(Named(schema, table)), table, Insert(values)))
  {
    hide EditPieces, TokensOf, ReadInsert, CellsOf, SchemaOf, NamesOf, ValuesOf;
    if values == [] {
      DefaultsReadBack(e, schema, table);
    } else {
      InsertReadsBack(e, schema, table, values);
      CellsBack(values);
    }
  }
}
