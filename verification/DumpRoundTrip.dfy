/** Restoring a dump of a table's rows gives back exactly those rows, each once and in order. */
module DumpRoundTrip {
  import opened Prelude
  import opened Engines
  import opened Guard
  import opened Dialect
  import opened SqlText
  import opened SqlPrinting
  import opened RowEditText
  import opened SqlScript
  import opened SqlReader
  import opened Backup

  // ------------------------------------------------------------------ the statements as pieces

  const ROW_BREAK: seq<Piece> := [Sym(','), Sp('\n'), Sp(' '), Sp(' ')]
  const FIRST_ROW: seq<Piece> := [Sp('\n'), Sp(' '), Sp(' ')]
  const ROW_OPEN: seq<Piece> := [Sym('(')]

  function ColumnsPieces(e: Engine, names: seq<string>): seq<seq<Piece>> {
    if names == [] then [] else [[NamePiece(e, names[0])]] + ColumnsPieces(e, names[1..])
  }

  /** A value: a binary one as it is written, any other as a literal. */
  function ValuePieces(e: Engine, typeName: string, v: Value): seq<Piece> {
    if !IsHexValue(e, typeName, v) then LiteralPieces(e, v)
    else if e.Sqlite? then [Kw("X"), Quoted('\'', v.value[2..], '\'')]
    else [Sym('0'), Kw(v.value[1..])]
  }

  function RowItems(e: Engine, t: Table, row: Row, k: nat): seq<seq<Piece>> {
    if row == [] then [] else [ValuePieces(e, TypeAt(t, k), row[0])] + RowItems(e, t, row[1..], k + 1)
  }

  function RowPieces(e: Engine, t: Table, row: Row): seq<Piece> {
    ROW_OPEN + Joined(RowItems(e, t, row, 0), COMMA) + CLOSE_LIST
  }

  function RowsPieces(e: Engine, t: Table, rows: seq<Row>): seq<seq<Piece>> {
    if rows == [] then [] else [RowPieces(e, t, rows[0])] + RowsPieces(e, t, rows[1..])
  }

  function ChunkPieces(e: Engine, t: Table, chunk: seq<Row>): seq<Piece> {
    InsertHead(e, t.schema, t.name) + OPEN_LIST + Joined(ColumnsPieces(e, DumpedColumns(t.columns)), COMMA) + CLOSE_LIST
    + Trailing("VALUES") + FIRST_ROW + Joined(RowsPieces(e, t, chunk), ROW_BREAK)
  }

  function ChunksPieces(e: Engine, t: Table, chunks: seq<seq<Row>>): seq<seq<Piece>> {
    if chunks == [] then [] else [ChunkPieces(e, t, chunks[0])] + ChunksPieces(e, t, chunks[1..])
  }

  function IdentityPieces(e: Engine, t: Table, state: string): seq<Piece> {
    Leading("SET") + Leading("IDENTITY_INSERT") + QualifiedPieces(e, t.schema, t.name) + Trailing(state)
  }

  /** The statements of a dump. */
  function DumpPieces(e: Engine, t: Table, rows: seq<Row>): seq<seq<Piece>> {
    if DumpedColumns(t.columns) == [] then []
    else
      var body := ChunksPieces(e, t, PagedChunks(rows, 0));
      if HasIdentity(e, t) then [IdentityPieces(e, t, "ON")] + body + [IdentityPieces(e, t, "OFF")] else body
  }

  // ------------------------------------------------------------------ what a dump can carry

  /** Text in hexadecimal in a binary column is that of whole bytes, as the drivers show them. */
  predicate Clean(e: Engine, typeName: string, v: Value) {
    IsHexValue(e, typeName, v) ==> IsHex(v.value[2..]) && (e.IsMysqlFamily() ==> |v.value| > 2)
  }

  /** One value for each dumped column. */
  predicate CleanRow(e: Engine, t: Table, row: Row) {
    |row| == |DumpedColumns(t.columns)| && CleanFrom(e, t, row, 0)
  }

  predicate CleanRows(e: Engine, t: Table, rows: seq<Row>) {
    forall i :: 0 <= i < |rows| ==> CleanRow(e, t, rows[i])
  }

  /** The values from column `k` on. */
  predicate CleanFrom(e: Engine, t: Table, row: Row, k: nat) {
    forall i :: 0 <= i < |row| ==> Clean(e, TypeAt(t, k + i), row[i])
  }

  lemma CleanRest(e: Engine, t: Table, row: Row, k: nat)
    requires CleanFrom(e, t, row, k) && row != []
    ensures Clean(e, TypeAt(t, k), row[0]) && CleanFrom(e, t, row[1..], k + 1)
  {
    hide Clean, TypeAt;
    assert Clean(e, TypeAt(t, k + 0), row[0]);
    forall i | 0 <= i < |row[1..]|
      ensures Clean(e, TypeAt(t, k + 1 + i), row[1..][i])
    {
      assert Clean(e, TypeAt(t, k + (i + 1)), row[i + 1]);
    }
  }

  // ------------------------------------------------------------------ their texts

  lemma {:induction false} ColumnsList(e: Engine, names: seq<string>)
    ensures ListOf(e, ColumnsPieces(e, names), Map((n: string) => Ident(e, n), names))
    ensures |ColumnsPieces(e, names)| == |names|
  {
    if names != [] {
      hide Part, Flat, Firm, Render, ListOf, Ident, NamePiece;
      ColumnsList(e, names[1..]);
      NamePart(e, names[0]);
      ListCons(e, [NamePiece(e, names[0])], ColumnsPieces(e, names[1..]), Ident(e, names[0]),
        Map((n: string) => Ident(e, n), names[1..]));
    }
  }

  lemma {:induction false} DigitsSealed(s: string)
    requires forall c :: c in s ==> IsDigit(c) || 'a' <= c <= 'f'
    ensures Sealed(s, '\'', false)
  {
    if s != "" {
      assert s[0] in s;
      DigitsSealed(s[1..]);
    }
  }

  lemma DigitsKeyword(digits: string)
    requires IsHex(digits)
    ensures IsKeyword("x" + digits) && IsKeyword("X")
  {
    var w := "x" + digits;
    assert w[0] == 'x';
    forall c | c in w
      ensures IsWordPart(c)
    {
      if c != 'x' {
        assert c in digits;
      }
    }
  }

  lemma PairPart(e: Engine, a: Piece, b: Piece)
    requires PieceOk(e, a) && PieceOk(e, b) && Fits(a, Head(Text(b)))
    requires (a.Kw? || a == Sym('0')) && (b.Kw? || b.Quoted?)
    ensures Part(e, [a, b]) && Firm([a, b]) && Flat([a, b]) && Render([a, b]) == Text(a) + Text(b)
  {
    hide PieceOk, Text;
    assert [a, b][1..] == [b];
    OneWell(e, b);
  }

  lemma BytesPart(e: Engine, typeName: string, v: Value)
    requires Clean(e, typeName, v) && IsHexValue(e, typeName, v)
    ensures var ps := ValuePieces(e, typeName, v);
      Part(e, ps) && Firm(ps) && Flat(ps) && Render(ps) == ValueSql(e, typeName, v)
  {
    hide IsBinary, IsHex, IsKeyword, Sealed, Part, Firm, Flat, Render;
    var digits := v.value[2..];
    assert v.value == "0" + v.value[1..] && v.value[1..] == "x" + digits;
    DigitsKeyword(digits);
    if e.Sqlite? {
      HexDigits(digits);
      DigitsSealed(digits);
      PairPart(e, Kw("X"), Quoted('\'', digits, '\''));
      assert "X" + (['\''] + digits + ['\'']) == "X'" + digits + "'";
    } else {
      PairPart(e, Sym('0'), Kw(v.value[1..]));
    }
  }

  lemma HexDigits(s: string)
    requires IsHex(s)
    ensures forall c :: c in s ==> IsDigit(c) || 'a' <= c <= 'f'
  {
  }

  lemma ValuePart(e: Engine, typeName: string, v: Value)
    requires Clean(e, typeName, v)
    ensures var ps := ValuePieces(e, typeName, v);
      Part(e, ps) && Firm(ps) && Flat(ps) && Render(ps) == ValueSql(e, typeName, v)
  {
    hide Clean, IsHexValue, Part, Firm, Flat, Render, Literal, LiteralPieces;
    if IsHexValue(e, typeName, v) {
      BytesPart(e, typeName, v);
    } else {
      LiteralPart(e, v);
    }
  }

  lemma {:induction false} RowList(e: Engine, t: Table, row: Row, k: nat)
    requires CleanFrom(e, t, row, k)
    ensures ListOf(e, RowItems(e, t, row, k), RowValues(e, t, row, k))
    ensures |RowItems(e, t, row, k)| == |row|
  {
    if row != [] {
      hide Part, Flat, Firm, Render, ListOf, ValueSql, ValuePieces, Clean, CleanFrom;
      CleanRest(e, t, row, k);
      RowList(e, t, row[1..], k + 1);
      ValuePart(e, TypeAt(t, k), row[0]);
      ListCons(e, ValuePieces(e, TypeAt(t, k), row[0]), RowItems(e, t, row[1..], k + 1),
        ValueSql(e, TypeAt(t, k), row[0]), RowValues(e, t, row[1..], k + 1));
    }
  }

  lemma FixedParts(e: Engine)
    ensures Part(e, ROW_BREAK) && Render(ROW_BREAK) == ",\n  " && Breaks(HeadOf(ROW_BREAK, None))
    ensures Part(e, FIRST_ROW) && Render(FIRST_ROW) == "\n  " && Breaks(HeadOf(FIRST_ROW, None))
    ensures Part(e, ROW_OPEN) && Render(ROW_OPEN) == "("
  {
  }

  lemma RowPart(e: Engine, t: Table, row: Row)
    requires CleanRow(e, t, row) && row != []
    ensures Part(e, RowPieces(e, t, row)) && Firm(RowPieces(e, t, row))
      && Render(RowPieces(e, t, row)) == RowText(e, t, row)
  {
    hide Render, KindsOf, Flat, WellFormed, Join, Joined, RowItems, RowValues, CleanFrom;
    FixedParts(e);
    ListParts(e);
    RowList(e, t, row, 0);
    var items := RowItems(e, t, row, 0);
    CommaList(e, items, RowValues(e, t, row, 0));
    Attach(e, ROW_OPEN, Joined(items, COMMA));
    Attach(e, ROW_OPEN + Joined(items, COMMA), CLOSE_LIST);
  }

  /** Parts that end in something other than white space, with their texts. */
  predicate FirmList(e: Engine, items: seq<seq<Piece>>, texts: seq<string>) {
    && Parts(e, items)
    && (forall i :: 0 <= i < |items| ==> Firm(items[i]))
    && Renders(items) == texts
  }

  lemma FirmCons(e: Engine, item: seq<Piece>, items: seq<seq<Piece>>, text: string, texts: seq<string>)
    requires FirmList(e, items, texts) && Part(e, item) && Firm(item) && Render(item) == text
    ensures FirmList(e, [item] + items, [text] + texts)
  {
    hide Part, Firm, Render;
    assert ([item] + items)[1..] == items;
  }

  lemma CleanTail(e: Engine, t: Table, rows: seq<Row>)
    requires CleanRows(e, t, rows) && rows != []
    ensures CleanRow(e, t, rows[0]) && CleanRows(e, t, rows[1..])
  {
    assert forall i :: 0 <= i < |rows[1..]| ==> rows[1..][i] == rows[i + 1];
  }

  lemma {:induction false} RowsList(e: Engine, t: Table, rows: seq<Row>)
    requires CleanRows(e, t, rows) && DumpedColumns(t.columns) != []
    ensures FirmList(e, RowsPieces(e, t, rows), RowTexts(e, t, rows)) && |RowsPieces(e, t, rows)| == |rows|
  {
    if rows != [] {
      hide FirmList, RowPieces, RowText, DumpedColumns, CleanRows, CleanFrom, Part, Firm, Render;
      CleanTail(e, t, rows);
      RowsList(e, t, rows[1..]);
      RowPart(e, t, rows[0]);
      FirmCons(e, RowPieces(e, t, rows[0]), RowsPieces(e, t, rows[1..]), RowText(e, t, rows[0]),
        RowTexts(e, t, rows[1..]));
    }
  }

  lemma ChunkWords(target: string, cols: string, values: string)
    ensures ("INSERT INTO " + target) + " (" + cols + ")" + (" " + "VALUES") + "\n  " + values ==
      InsertRows(target, cols, values)
  {
    var a := ("INSERT INTO " + target) + " (" + cols;
    assert ")" + (" " + "VALUES") + "\n  " == ") VALUES\n  ";
    assert a + ")" + (" " + "VALUES") + "\n  " == a + (")" + (" " + "VALUES") + "\n  ");
  }

  /** A chunk's statement: well-formed, and exactly the text written. */
  lemma ChunkPart(e: Engine, t: Table, chunk: seq<Row>)
    requires CleanRows(e, t, chunk) && chunk != [] && DumpedColumns(t.columns) != []
    ensures Sentence(e, ChunkPieces(e, t, chunk), "INSERT") && Render(ChunkPieces(e, t, chunk)) == ChunkSql(e, t, chunk)
  {
    hide Render, KindsOf, Flat, WellFormed, IsKeyword, Qualified, InsertHead, Join, Joined, Ident, InsertRows,
      RowTexts, RowsPieces,
      ColumnsPieces, DumpedColumns, CleanRows;
    Keywords();
    InsertHeadPart(e, t.schema, t.name);
    ListParts(e);
    FixedParts(e);
    WordParts(e, "VALUES");
    var names := DumpedColumns(t.columns);
    ColumnsList(e, names);
    CommaList(e, ColumnsPieces(e, names), Map((n: string) => Ident(e, n), names));
    RowsList(e, t, chunk);
    AttachAll(e, RowsPieces(e, t, chunk), ROW_BREAK);
    var cols, rows := Joined(ColumnsPieces(e, names), COMMA), Joined(RowsPieces(e, t, chunk), ROW_BREAK);
    var a := InsertHead(e, t.schema, t.name);
    Attach(e, a, OPEN_LIST);
    Attach(e, a + OPEN_LIST, cols);
    var b := a + OPEN_LIST + cols;
    Attach(e, b, CLOSE_LIST);
    Attach(e, b + CLOSE_LIST, Trailing("VALUES"));
    Attach(e, b + CLOSE_LIST + Trailing("VALUES"), FIRST_ROW);
    var c := b + CLOSE_LIST + Trailing("VALUES") + FIRST_ROW;
    Attach(e, c, rows);
    ChunkWords(Qualified(e, t.schema, t.name), Render(cols), Render(rows));
  }

  lemma IdentityPart(e: Engine, t: Table, state: string)
    requires IsKeyword(state)
    ensures Sentence(e, IdentityPieces(e, t, state), "SET")
      && Render(IdentityPieces(e, t, state)) == IdentityInsert(e, t, state)
  {
    hide Render, KindsOf, Flat, WellFormed, IsKeyword, Qualified, QualifiedPieces, Leading, Trailing, IdentityInsert,
      Lower;
    Keywords();
    WordParts(e, "SET");
    WordParts(e, "IDENTITY_INSERT");
    WordParts(e, state);
    QualifiedPart(e, t.schema, t.name);
    var q := QualifiedPieces(e, t.schema, t.name);
    var a := Leading("SET") + Leading("IDENTITY_INSERT");
    Attach(e, Leading("SET"), Leading("IDENTITY_INSERT"));
    Attach(e, a, q);
    Attach(e, a + q, Trailing(state));
    IdentityWords(e, t, state);
  }

  lemma IdentityWords(e: Engine, t: Table, state: string)
    ensures ("SET" + " ") + ("IDENTITY_INSERT" + " ") + Qualified(e, t.schema, t.name) + (" " + state) ==
      IdentityInsert(e, t, state)
  {
    hide Qualified;
    assert ("SET" + " ") + ("IDENTITY_INSERT" + " ") == "SET IDENTITY_INSERT ";
  }

  // ------------------------------------------------------------------ chunks and pages

  /** Cutting into chunks loses nothing, keeps the order, and leaves no chunk empty. */
  lemma {:induction false} ChunksJoin(rows: seq<Row>, size: nat)
    requires size > 0
    ensures Concat(Chunks(rows, size)) == rows
    ensures forall i :: 0 <= i < |Chunks(rows, size)| ==> Chunks(rows, size)[i] != [] && |Chunks(rows, size)[i]| <= size
    decreases |rows|
  {
    if rows != [] {
      if |rows| <= size {
        assert Concat([rows][1..]) == [];
      } else {
        ChunksJoin(rows[size..], size);
        var cs := Chunks(rows, size);
        assert cs[1..] == Chunks(rows[size..], size);
        assert forall i :: 0 < i < |cs| ==> cs[i] == cs[1..][i - 1];
      }
    }
  }

  /** Every chunk but the last is full; so is the last when the rows are a multiple of a chunk. */
  predicate Full(chunks: seq<seq<Row>>, last: bool) {
    forall i :: 0 <= i < (if last then |chunks| else |chunks| - 1) ==> |chunks[i]| == ROWS_PER_INSERT
  }

  lemma {:induction false} ChunksFull(rows: seq<Row>)
    ensures Full(Chunks(rows, ROWS_PER_INSERT), |rows| % ROWS_PER_INSERT == 0)
    decreases |rows|
  {
    if |rows| > ROWS_PER_INSERT {
      var rest := rows[ROWS_PER_INSERT..];
      ChunksFull(rest);
      var cs := Chunks(rows, ROWS_PER_INSERT);
      assert |rest| % ROWS_PER_INSERT == |rows| % ROWS_PER_INSERT;
      assert cs[1..] == Chunks(rest, ROWS_PER_INSERT);
      assert forall i :: 0 < i < |cs| ==> cs[i] == cs[1..][i - 1];
    }
  }

  lemma FullAppend(a: seq<seq<Row>>, b: seq<seq<Row>>)
    requires Full(a, true) && Full(b, false)
    ensures Full(a + b, false)
  {
  }

  /** Whatever the pages, every INSERT but the last takes a hundred rows. */
  lemma {:induction false} PagesFull(rows: seq<Row>, offset: nat)
    ensures Full(PagedChunks(rows, offset), false)
    decreases |rows| - offset
  {
    hide Chunks, PageOf, Full;
    if offset < |rows| {
      var page := PageOf(rows, PAGE, offset);
      var a, b := Chunks(page, ROWS_PER_INSERT), PagedChunks(rows, offset + PAGE);
      ChunksFull(page);
      if offset + PAGE >= |rows| {
        assert a + b == a;
        FullWeaker(a);
      } else {
        PageSize(rows, offset);
        PagesFull(rows, offset + PAGE);
        FullAppend(a, b);
      }
    } else {
      FullNone();
    }
  }

  lemma PageSize(rows: seq<Row>, offset: nat)
    requires offset + PAGE < |rows|
    ensures |PageOf(rows, PAGE, offset)| % ROWS_PER_INSERT == 0
  {
  }

  lemma FullWeaker(chunks: seq<seq<Row>>)
    requires Full(chunks, true) || Full(chunks, false)
    ensures Full(chunks, false)
  {
  }

  lemma FullNone()
    ensures Full([], false)
  {
  }

  lemma PageRest(rows: seq<Row>, offset: nat)
    requires offset < |rows|
    ensures PageOf(rows, PAGE, offset) + (if offset + PAGE >= |rows| then [] else rows[offset + PAGE..]) ==
      rows[offset..]
  {
  }

  predicate NoneEmpty(chunks: seq<seq<Row>>) {
    forall i :: 0 <= i < |chunks| ==> chunks[i] != []
  }

  lemma NoneEmptyAppend(a: seq<seq<Row>>, b: seq<seq<Row>>)
    requires NoneEmpty(a) && NoneEmpty(b)
    ensures NoneEmpty(a + b)
  {
  }

  /** Across page and chunk boundaries every row is written once, in order. */
  lemma {:induction false} PagesJoin(rows: seq<Row>, offset: nat)
    ensures Concat(PagedChunks(rows, offset)) == if offset >= |rows| then [] else rows[offset..]
    ensures NoneEmpty(PagedChunks(rows, offset))
    decreases |rows| - offset
  {
    hide Chunks, PageOf, NoneEmpty, Concat;
    if offset < |rows| {
      var page := PageOf(rows, PAGE, offset);
      var a, b := Chunks(page, ROWS_PER_INSERT), PagedChunks(rows, offset + PAGE);
      ChunksJoin(page, ROWS_PER_INSERT);
      PagesJoin(rows, offset + PAGE);
      ConcatAppend(a, b);
      NoneEmptyChunks(page);
      NoneEmptyAppend(a, b);
      PageRest(rows, offset);
    } else {
      NoneEmptyNil();
    }
  }

  lemma NoneEmptyChunks(rows: seq<Row>)
    ensures NoneEmpty(Chunks(rows, ROWS_PER_INSERT))
  {
    ChunksJoin(rows, ROWS_PER_INSERT);
  }

  lemma NoneEmptyNil()
    ensures NoneEmpty([]) && Concat<Value>([]) == [] && Concat<Row>([]) == []
  {
  }

  // ------------------------------------------------------------------ the dump as a script

  predicate CleanChunks(e: Engine, t: Table, chunks: seq<seq<Row>>) {
    forall i :: 0 <= i < |chunks| ==> chunks[i] != [] && CleanRows(e, t, chunks[i])
  }

  lemma {:induction false} CleanConcat(e: Engine, t: Table, chunks: seq<seq<Row>>)
    requires CleanRows(e, t, Concat(chunks)) && NoneEmpty(chunks)
    ensures CleanChunks(e, t, chunks)
  {
    hide CleanRow;
    if chunks != [] {
      var all, rest := Concat(chunks), Concat(chunks[1..]);
      assert forall i :: 0 <= i < |chunks[0]| ==> all[i] == chunks[0][i];
      assert forall i :: 0 <= i < |rest| ==> rest[i] == all[|chunks[0]| + i];
      assert forall i :: 0 <= i < |chunks[1..]| ==> chunks[1..][i] == chunks[i + 1];
      CleanConcat(e, t, chunks[1..]);
      assert forall i :: 0 < i < |chunks| ==> chunks[i] == chunks[1..][i - 1];
    }
  }

  lemma SentenceOrdinary(e: Engine, ps: seq<Piece>, w: string)
    requires Sentence(e, ps, w) && Lower(w) != "create"
    ensures Ordinary(e, ps)
  {
  }

  lemma VerbsAreNotCreate()
    ensures Lower("INSERT") != "create" && Lower("SET") != "create"
  {
    hide Lower;
    LowerINSERT();
    LowerSET();
  }

  lemma ChunkOrdinary(e: Engine, t: Table, chunk: seq<Row>)
    requires CleanRows(e, t, chunk) && chunk != [] && DumpedColumns(t.columns) != []
    ensures Ordinary(e, ChunkPieces(e, t, chunk)) && Render(ChunkPieces(e, t, chunk)) == ChunkSql(e, t, chunk)
  {
    hide *;
    ChunkPart(e, t, chunk);
    VerbsAreNotCreate();
    SentenceOrdinary(e, ChunkPieces(e, t, chunk), "INSERT");
  }

  lemma {:induction false} ChunksScript(e: Engine, t: Table, chunks: seq<seq<Row>>)
    requires CleanChunks(e, t, chunks) && DumpedColumns(t.columns) != []
    ensures AllOrdinary(e, ChunksPieces(e, t, chunks)) && |ChunksPieces(e, t, chunks)| == |chunks|
    ensures ScriptText(e, ChunksPieces(e, t, chunks)) == ChunkTexts(e, t, chunks)
  {
    if chunks != [] {
      hide ChunkPieces, ChunkSql, Ordinary, AllOrdinary, CleanRows, DumpedColumns, Render, EndOf;
      assert forall i :: 0 <= i < |chunks[1..]| ==> chunks[1..][i] == chunks[i + 1];
      assert chunks[0] != [] && CleanRows(e, t, chunks[0]);
      ChunksScript(e, t, chunks[1..]);
      ChunkOrdinary(e, t, chunks[0]);
      OrdinaryCons(e, ChunkPieces(e, t, chunks[0]), ChunksPieces(e, t, chunks[1..]));
    }
  }

  lemma OrdinaryCons(e: Engine, ps: seq<Piece>, rest: seq<seq<Piece>>)
    requires Ordinary(e, ps) && AllOrdinary(e, rest)
    ensures AllOrdinary(e, [ps] + rest) && ScriptText(e, [ps] + rest) == Render(ps) + EndOf(e) + ScriptText(e, rest)
  {
    hide Ordinary, Render, EndOf;
    assert ([ps] + rest)[1..] == rest;
  }

  lemma {:induction false} ScriptAppend(e: Engine, a: seq<seq<Piece>>, b: seq<seq<Piece>>)
    ensures ScriptText(e, a + b) == ScriptText(e, a) + ScriptText(e, b)
  {
    hide Render, EndOf;
    if a == [] {
      assert a + b == b;
    } else {
      assert (a + b)[1..] == a[1..] + b;
      ScriptAppend(e, a[1..], b);
    }
  }

  lemma OneScript(e: Engine, ps: seq<Piece>)
    ensures ScriptText(e, [ps]) == Render(ps) + EndOf(e)
  {
    hide Render, EndOf;
    assert [ps][1..] == [];
  }

  /** The text of a dump is its statements, printed. */
  lemma DumpScript(e: Engine, t: Table, rows: seq<Row>)
    requires CleanRows(e, t, rows)
    ensures AllOrdinary(e, DumpPieces(e, t, rows)) && ScriptText(e, DumpPieces(e, t, rows)) == DumpText(e, t, rows)
  {
    hide Render, Ordinary, CleanRows, PagedChunks, ChunksPieces, ChunkTexts, IdentityPieces, IdentityInsert, EndOf,
      HasIdentity, ScriptText, Sentence, Lower;
    NothingPrinted(e, "");
    if DumpedColumns(t.columns) != [] {
      PagesJoin(rows, 0);
      assert rows[0..] == rows;
      var chunks := PagedChunks(rows, 0);
      NoRows(e, t, rows);
      CleanConcat(e, t, chunks);
      ChunksScript(e, t, chunks);
      if HasIdentity(e, t) {
        var on, off, body := IdentityPieces(e, t, "ON"), IdentityPieces(e, t, "OFF"), ChunksPieces(e, t, chunks);
        Keywords();
        IdentityPart(e, t, "ON");
        IdentityPart(e, t, "OFF");
        VerbsAreNotCreate();
        assert AllOrdinary(e, body);
        SentenceOrdinary(e, on, "SET");
        SentenceOrdinary(e, off, "SET");
        OneScript(e, on);
        OneScript(e, off);
          ScriptAppend(e, [on] + body, [off]);
        ScriptAppend(e, [on], body);
        var x := IdentityInsert(e, t, "ON") + EndOf(e) + ChunkTexts(e, t, chunks);
        assert x + (IdentityInsert(e, t, "OFF") + EndOf(e)) == x + IdentityInsert(e, t, "OFF") + EndOf(e);
      }
    }
  }

  lemma NoRows(e: Engine, t: Table, rows: seq<Row>)
    ensures (if 0 >= |rows| then [] else rows[0..]) == rows
  {
  }

  // ------------------------------------------------------------------ reading the statements back

  const CLOSE_TOKEN: seq<Token> := [Token(Close, ")")]
  const COMMA_TOKEN: seq<Token> := [Token(Other, ",")]
  const OPEN_TOKEN: seq<Token> := [Token(Open, "(")]

  lemma StringReadsBack(e: Engine, v: string)
    ensures Text(StringPiece(e, v)) == "'" + LiteralBody(e, v) + "'"
    ensures ReadString(e, Token(Other, Text(StringPiece(e, v)))) == Some(v)
  {
    hide LiteralBody, StringValue;
    StringValueBack(e, v);
    assert Inside("'" + LiteralBody(e, v) + "'") == LiteralBody(e, v);
  }

  lemma TokensOfOne(p: Piece)
    requires !p.Sp? && !p.GoLine?
    ensures TokensOf([p]) == [Token(KindOf(p)[0], Text(p))]
  {
    hide Text, Lower;
    assert [p][1..] == [];
  }

  /** What the database holds once it has read a value back: text in hexadecimal in a binary column is bytes. */
  function Kept(e: Engine, typeName: string, v: Value): Stored {
    if v.None? then Nothing
    else if IsHexValue(e, typeName, v) then Bytes(v.value[2..])
    else Words(v.value)
  }

  lemma LiteralReadsBack(e: Engine, v: Value, rest: seq<Token>)
    ensures ReadValue(e, TokensOf(LiteralPieces(e, v)) + rest)
      == Some(Parsed(if v.None? then Nothing else Words(v.value), rest))
  {
    hide TokensOf, LiteralBody, StringValue, ReadString, Lower, IsHex;
    LowerNULL();
    LowerN();
    if v.None? {
      TokensOfOne(Kw("NULL"));
    } else {
      var p := StringPiece(e, v.value);
      StringReadsBack(e, v.value);
      TokensOfOne(p);
      if e.Mssql? {
        TokensOfOne(Kw("N"));
        TokensOfAppend([Kw("N")], [p]);
        assert LiteralPieces(e, v) == [Kw("N")] + [p];
        var ts := TokensOf(LiteralPieces(e, v)) + rest;
        assert ts[2..] == rest;
      }
    }
  }

  lemma BytesReadBack(e: Engine, typeName: string, v: Value, rest: seq<Token>)
    requires Clean(e, typeName, v) && IsHexValue(e, typeName, v)
    ensures ReadValue(e, TokensOf(ValuePieces(e, typeName, v)) + rest) == Some(Parsed(Bytes(v.value[2..]), rest))
  {
    hide TokensOf, IsHex, IsBinary, Lower, ReadString;
    var digits := v.value[2..];
    assert v.value[1..] == "x" + digits;
    var ps := ValuePieces(e, typeName, v);
    assert ps == [ps[0]] + [ps[1]];
    TokensOfAppend([ps[0]], [ps[1]]);
    TokensOfOne(ps[0]);
    TokensOfOne(ps[1]);
    var ts := TokensOf(ps) + rest;
    assert ts[0] == Token(KindOf(ps[0])[0], Text(ps[0])) && ts[1] == Token(KindOf(ps[1])[0], Text(ps[1]));
    assert ts[2..] == rest;
    LowerX();
    BinaryEngine(e, typeName);
    if e.Sqlite? {
      assert Text(ps[1]) == ['\''] + digits + ['\''];
      assert Inside(ts[1].text) == digits;
      assert ReadBytes(e, ts) == Some(digits);
    } else {
      assert ts[1].text[1..] == digits;
      assert ReadBytes(e, ts) == Some(digits);
    }
  }

  lemma BinaryEngine(e: Engine, typeName: string)
    requires IsBinary(e, typeName)
    ensures e.Sqlite? || e.IsMysqlFamily() || e.Mssql?
  {
  }

  lemma LowerX()
    ensures Lower("X") == "x"
  {
    hide Lower;
    LowerIs("X", "x");
  }

  lemma ValueReadsBack(e: Engine, typeName: string, v: Value, rest: seq<Token>)
    requires Clean(e, typeName, v)
    ensures ReadValue(e, TokensOf(ValuePieces(e, typeName, v)) + rest) == Some(Parsed(Kept(e, typeName, v), rest))
  {
    hide TokensOf, ReadValue, IsHexValue, Clean, LiteralPieces;
    if IsHexValue(e, typeName, v) {
      assert v.Some? by { HexIsSome(e, typeName, v); }
      BytesReadBack(e, typeName, v, rest);
    } else {
      LiteralReadsBack(e, v, rest);
    }
  }

  lemma HexIsSome(e: Engine, typeName: string, v: Value)
    requires IsHexValue(e, typeName, v)
    ensures v.Some?
  {
  }

  lemma CommaTokens()
    ensures TokensOf(COMMA) == COMMA_TOKEN && TokensOf(ROW_BREAK) == COMMA_TOKEN && TokensOf(FIRST_ROW) == []
    ensures TokensOf(ROW_OPEN) == OPEN_TOKEN && TokensOf(CLOSE_LIST) == CLOSE_TOKEN && TokensOf(OPEN_LIST) == OPEN_TOKEN
  {
    assert TokensOf([Sp(' ')]) == [] && TokensOf([Sp(' '), Sp(' ')]) == []
      && TokensOf([Sp('\n'), Sp(' '), Sp(' ')]) == [];
    assert COMMA[1..] == [Sp(' ')] && ROW_BREAK[1..] == [Sp('\n'), Sp(' '), Sp(' ')];
    assert ROW_OPEN[1..] == [] && CLOSE_LIST[1..] == [] && OPEN_LIST[1..] == [Sym('(')] && [Sym('(')][1..] == [];
  }

  lemma ItemCounts(e: Engine, t: Table, row: Row, k: nat, names: seq<string>, rows: seq<Row>)
    ensures |RowItems(e, t, row, k)| == |row| && |ColumnsPieces(e, names)| == |names|
      && |RowsPieces(e, t, rows)| == |rows|
    decreases |row| + |names| + |rows|
  {
    hide ValuePieces, NamePiece, RowPieces;
    if row != [] {
      ItemCounts(e, t, row[1..], k + 1, [], []);
    }
    if names != [] {
      ItemCounts(e, t, [], k, names[1..], []);
    }
    if rows != [] {
      ItemCounts(e, t, [], k, [], rows[1..]);
    }
  }

  /** The tokens of a joined list of two or more. */
  lemma JoinedTokens(items: seq<seq<Piece>>, sep: seq<Piece>)
    requires items != []
    ensures TokensOf(Joined(items, sep))
      == TokensOf(items[0]) + (if |items| == 1 then [] else TokensOf(sep) + TokensOf(Joined(items[1..], sep)))
  {
    hide TokensOf;
    if |items| == 1 {
      assert TokensOf(items[0]) + [] == TokensOf(items[0]);
    } else {
      var rest := Joined(items[1..], sep);
      TokensOfAppend(items[0] + sep, rest);
      TokensOfAppend(items[0], sep);
      assert TokensOf(items[0]) + TokensOf(sep) + TokensOf(rest) == TokensOf(items[0])
        + (TokensOf(sep) + TokensOf(rest));
    }
  }

  /** What the database makes of a row, from column `k` on. */
  function KeptRow(e: Engine, t: Table, row: Row, k: nat): (r: seq<Stored>)
    ensures |r| == |row|
  {
    if row == [] then [] else [Kept(e, TypeAt(t, k), row[0])] + KeptRow(e, t, row[1..], k + 1)
  }

  lemma {:induction false} KeptRowAt(e: Engine, t: Table, row: Row, k: nat)
    ensures forall i :: 0 <= i < |row| ==> KeptRow(e, t, row, k)[i] == Kept(e, TypeAt(t, k + i), row[i])
  {
    hide Kept, TypeAt;
    if row != [] {
      KeptRowAt(e, t, row[1..], k + 1);
      forall i | 0 <= i < |row|
        ensures KeptRow(e, t, row, k)[i] == Kept(e, TypeAt(t, k + i), row[i])
      {
        if i > 0 {
          assert row[i] == row[1..][i - 1];
          assert Kept(e, TypeAt(t, k + 1 + (i - 1)), row[i]) == KeptRow(e, t, row, k)[i];
        }
      }
    }
  }

  function KeptRows(e: Engine, t: Table, rows: seq<Row>): (r: seq<seq<Stored>>)
    ensures |r| == |rows|
    ensures forall i :: 0 <= i < |r| ==> r[i] == KeptRow(e, t, rows[i], 0)
  {
    if rows == [] then [] else [KeptRow(e, t, rows[0], 0)] + KeptRows(e, t, rows[1..])
  }

  lemma {:induction false} RowReadsBack(e: Engine, t: Table, row: Row, k: nat, rest: seq<Token>)
    requires row != [] && CleanFrom(e, t, row, k)
    ensures ReadValues(e, TokensOf(Joined(RowItems(e, t, row, k), COMMA)) + CLOSE_TOKEN + rest)
      == Some(Parsed(KeptRow(e, t, row, k), rest))
    decreases |row|
  {
    hide TokensOf, Joined, ReadValue, ValuePieces, Clean, CleanFrom, Kept;
    var items := RowItems(e, t, row, k);
    ItemCounts(e, t, row, k, [], []);
    JoinedTokens(items, COMMA);
    CommaTokens();
    CleanRest(e, t, row, k);
    var ts := TokensOf(Joined(items, COMMA)) + CLOSE_TOKEN + rest;
    if |row| == 1 {
      assert ts == TokensOf(items[0]) + (CLOSE_TOKEN + rest);
      ValueReadsBack(e, TypeAt(t, k), row[0], CLOSE_TOKEN + rest);
      assert (CLOSE_TOKEN + rest)[1..] == rest;
      assert KeptRow(e, t, row, k) == [Kept(e, TypeAt(t, k), row[0])];
    } else {
      assert items[1..] == RowItems(e, t, row[1..], k + 1);
      var tail := TokensOf(Joined(RowItems(e, t, row[1..], k + 1), COMMA)) + CLOSE_TOKEN + rest;
      assert ts == TokensOf(items[0]) + (COMMA_TOKEN + tail);
      ValueReadsBack(e, TypeAt(t, k), row[0], COMMA_TOKEN + tail);
      assert (COMMA_TOKEN + tail)[1..] == tail;
      RowReadsBack(e, t, row[1..], k + 1, rest);
    }
  }

  lemma AfterOne(a: seq<Token>, b: seq<Token>, c: seq<Token>)
    requires |a| == 1 && |b| == 1
    ensures (a + (b + c))[0] == a[0] && (a + (b + c))[1..] == b + c && (b + c)[0] == b[0] && (b + c)[1..] == c
  {
    assert (a + (b + c))[1..] == b + c;
  }

  /** A name, and then what follows it. */
  lemma NameThen(e: Engine, name: seq<Token>, sign: seq<Token>, tail: seq<Token>)
    requires |name| == 1 && |sign| == 1 && ReadName(e, name[0]).Some?
    requires sign == CLOSE_TOKEN || sign == COMMA_TOKEN
    ensures ReadNames(e, name + (sign + tail)) ==
      if sign == CLOSE_TOKEN then Some(Parsed([ReadName(e, name[0]).value], tail))
      else
        match ReadNames(e, tail)
        case None => None
        case Some(ns) => Some(Parsed([ReadName(e, name[0]).value] + ns.value, ns.rest))
  {
    hide ReadName;
    AfterOne(name, sign, tail);
  }

  lemma {:induction false} NamesReadBack(e: Engine, names: seq<string>, rest: seq<Token>)
    requires names != []
    ensures ReadNames(e, TokensOf(Joined(ColumnsPieces(e, names), COMMA)) + CLOSE_TOKEN + rest) ==
      Some(Parsed(names, rest))
    decreases |names|
  {
    hide TokensOf, Joined, ReadName, NamePiece, Ident, ReadNames;
    var items := ColumnsPieces(e, names);
    ColumnsList(e, names);
    JoinedTokens(items, COMMA);
    CommaTokens();
    NameReadsBack(e, names[0]);
    var ts := TokensOf(Joined(items, COMMA)) + CLOSE_TOKEN + rest;
    if |names| == 1 {
      assert ts == TokensOf(items[0]) + (CLOSE_TOKEN + rest);
      NameThen(e, TokensOf(items[0]), CLOSE_TOKEN, rest);
      assert [names[0]] == names;
    } else {
      assert items[1..] == ColumnsPieces(e, names[1..]);
      var tail := TokensOf(Joined(ColumnsPieces(e, names[1..]), COMMA)) + CLOSE_TOKEN + rest;
      assert ts == TokensOf(items[0]) + (COMMA_TOKEN + tail);
      NamesReadBack(e, names[1..], rest);
      NameThen(e, TokensOf(items[0]), COMMA_TOKEN, tail);
      SignsDiffer();
      assert [names[0]] + names[1..] == names;
    }
  }

  lemma SignsDiffer()
    ensures CLOSE_TOKEN != COMMA_TOKEN
  {
    assert CLOSE_TOKEN[0] != COMMA_TOKEN[0];
  }

  lemma RowTokens(e: Engine, t: Table, row: Row)
    ensures TokensOf(RowPieces(e, t, row))
      == OPEN_TOKEN + (TokensOf(Joined(RowItems(e, t, row, 0), COMMA)) + CLOSE_TOKEN)
  {
    hide TokensOf, Joined;
    CommaTokens();
    var items := Joined(RowItems(e, t, row, 0), COMMA);
    TokensOfAppend(ROW_OPEN + items, CLOSE_LIST);
    TokensOfAppend(ROW_OPEN, items);
  }

  lemma {:induction false} RowsReadBack(e: Engine, t: Table, rows: seq<Row>)
    requires rows != [] && CleanRows(e, t, rows) && DumpedColumns(t.columns) != []
    ensures ReadRows(e, TokensOf(Joined(RowsPieces(e, t, rows), ROW_BREAK))) == Some(KeptRows(e, t, rows))
    decreases |rows|
  {
    hide TokensOf, Joined, ReadValues, RowPieces, RowItems, KeptRow, CleanRows, CleanFrom, DumpedColumns;
    var items := RowsPieces(e, t, rows);
    ItemCounts(e, t, [], 0, [], rows);
    JoinedTokens(items, ROW_BREAK);
    CommaTokens();
    RowTokens(e, t, rows[0]);
    CleanTail(e, t, rows);
    var inner := TokensOf(Joined(RowItems(e, t, rows[0], 0), COMMA)) + CLOSE_TOKEN;
    var ts := TokensOf(Joined(items, ROW_BREAK));
    if |rows| == 1 {
      assert ts == OPEN_TOKEN + inner;
      assert ts[1..] == inner;
      RowReadsBack(e, t, rows[0], 0, []);
      assert inner + [] == inner;
      assert KeptRows(e, t, rows) == [KeptRow(e, t, rows[0], 0)];
    } else {
      assert items[1..] == RowsPieces(e, t, rows[1..]);
      var tail := TokensOf(Joined(RowsPieces(e, t, rows[1..]), ROW_BREAK));
      assert ts == OPEN_TOKEN + inner + (COMMA_TOKEN + tail);
      assert ts[1..] == inner + (COMMA_TOKEN + tail);
      RowReadsBack(e, t, rows[0], 0, COMMA_TOKEN + tail);
      assert (COMMA_TOKEN + tail)[1..] == tail;
      RowsReadBack(e, t, rows[1..]);
    }
  }

  function SchemaOf(t: Table): Option<string> {
    if t.schema.Some? && t.schema.value != "" then t.schema else None
  }

  lemma TableReadsBack(e: Engine, t: Table, rest: seq<Token>)
    requires rest == [] || rest[0].text != "."
    ensures ReadTable(e, TokensOf(QualifiedPieces(e, t.schema, t.name)) + rest) ==
      Some(Parsed((SchemaOf(t), t.name), rest))
  {
    hide Ident, ReadName, NamePiece;
    NameReadsBack(e, t.name);
    var qs := QualifiedPieces(e, t.schema, t.name);
    var ts := TokensOf(qs) + rest;
    if SchemaOf(t).Some? {
      NameReadsBack(e, t.schema.value);
      TokensOfOne(Sym('.'));
      var a, b, c := [NamePiece(e, t.schema.value)], [Sym('.')], [NamePiece(e, t.name)];
      assert qs == a + b + c;
      TokensOfAppend(a + b, c);
      TokensOfAppend(a, b);
      assert ts[3..] == rest;
    } else {
      assert ts[1..] == rest;
    }
  }

  lemma WordTokens(w: string)
    ensures TokensOf(Leading(w)) == [Token(Word(Lower(w)), w)] && TokensOf(Trailing(w)) == [Token(Word(Lower(w)), w)]
  {
    hide Lower;
    assert Leading(w)[1..] == [Sp(' ')] && [Sp(' ')][1..] == [] && Trailing(w)[1..] == [Kw(w)] && [Kw(w)][1..] == [];
  }

  /** The tokens of a chunk's statement, in the order a reader meets them. */
  lemma ChunkTokens(e: Engine, t: Table, chunk: seq<Row>)
    ensures TokensOf(ChunkPieces(e, t, chunk))
      == [Token(Word("insert"), "INSERT"), Token(Word("into"), "INTO")]
       + (TokensOf(QualifiedPieces(e, t.schema, t.name))
       + (OPEN_TOKEN
       + (TokensOf(Joined(ColumnsPieces(e, DumpedColumns(t.columns)), COMMA)) + CLOSE_TOKEN
       + ([Token(Word("values"), "VALUES")] + TokensOf(Joined(RowsPieces(e, t, chunk), ROW_BREAK))))))
  {
    hide TokensOf, Joined, Leading, Trailing, QualifiedPieces, DumpedColumns, ColumnsPieces, RowsPieces, Lower;
    CommaTokens();
    WordTokens("INSERT");
    WordTokens("INTO");
    WordTokens("VALUES");
    LowerINSERT();
    LowerINTO();
    LowerVALUES();
    var head, q := Leading("INSERT") + Leading("INTO"), QualifiedPieces(e, t.schema, t.name);
    var cols, rows := Joined(ColumnsPieces(e, DumpedColumns(t.columns)), COMMA),
      Joined(RowsPieces(e, t, chunk), ROW_BREAK);
    TokensOfAppend(Leading("INSERT"), Leading("INTO"));
    TokensOfAppend(head, q);
    var a := head + q;
    TokensOfAppend(a, OPEN_LIST);
    TokensOfAppend(a + OPEN_LIST, cols);
    var b := a + OPEN_LIST + cols;
    TokensOfAppend(b, CLOSE_LIST);
    TokensOfAppend(b + CLOSE_LIST, Trailing("VALUES"));
    var c := b + CLOSE_LIST + Trailing("VALUES");
    TokensOfAppend(c, FIRST_ROW);
    TokensOfAppend(c + FIRST_ROW, rows);
  }

  /** A database reads a chunk's statement as an insertion of exactly that chunk, bytes as bytes. */
  lemma ChunkReadsBack(e: Engine, t: Table, chunk: seq<Row>)
    requires CleanRows(e, t, chunk) && chunk != [] && DumpedColumns(t.columns) != []
    ensures ReadInsert(e, Tokens(e, ChunkSql(e, t, chunk)))
      == Some(Insertion(SchemaOf(t), t.name, DumpedColumns(t.columns), KeptRows(e, t, chunk)))
  {
    hide TokensOf, Joined, QualifiedPieces, DumpedColumns, ColumnsPieces, RowsPieces, ReadTable, ReadNames, ReadRows,
      Tokens,
      ChunkSql, CleanRows, ChunkPieces, SchemaOf, WellFormed, Render;
    ChunkPart(e, t, chunk);
    ReadPrinted(e, ChunkPieces(e, t, chunk));
    ChunkTokens(e, t, chunk);
    var names := DumpedColumns(t.columns);
    var rows := TokensOf(Joined(RowsPieces(e, t, chunk), ROW_BREAK));
    var r3 := [Token(Word("values"), "VALUES")] + rows;
    var r2 := TokensOf(Joined(ColumnsPieces(e, names), COMMA)) + CLOSE_TOKEN + r3;
    var r1 := OPEN_TOKEN + r2;
    TableReadsBack(e, t, r1);
    NamesReadBack(e, names, r3);
    RowsReadBack(e, t, chunk);
    var ts := Tokens(e, ChunkSql(e, t, chunk));
    assert ts[1..][0] == Token(Word("into"), "INTO");
    assert ts[2..] == TokensOf(QualifiedPieces(e, t.schema, t.name)) + r1;
    assert r1[1..] == r2 && r3[1..] == rows;
  }

  // ------------------------------------------------------------------ the table restored into

  /** A row as the table holds it; what the database computes itself is not part of it. */
  type Held = map<string, Stored>

  /** The rows of the table, and whether SQL Server now takes values for its identity column. */
  datatype Place = Place(rows: seq<Held>, identity: bool)

  predicate Distinct(names: seq<string>) {
    forall i, j :: 0 <= i < j < |names| ==> names[i] != names[j]
  }

  predicate DistinctColumns(t: Table) {
    forall i, j :: 0 <= i < j < |t.columns| ==> t.columns[i].name != t.columns[j].name
  }

  /** A column of the table that is not computed. */
  predicate Storable(t: Table, n: string) {
    exists i :: 0 <= i < |t.columns| && t.columns[i].name == n && !t.columns[i].generated
  }

  predicate Numbered(t: Table) {
    exists i :: 0 <= i < |t.columns| && t.columns[i].autoIncrement
  }

  function HeldOf(names: seq<string>, values: seq<Stored>): Held {
    if names == [] || values == [] then map[] else HeldOf(names[1..], values[1..])[names[0] := values[0]]
  }

  function HeldAll(names: seq<string>, rows: seq<seq<Stored>>): (r: seq<Held>)
    ensures |r| == |rows| && forall i :: 0 <= i < |r| ==> r[i] == HeldOf(names, rows[i])
  {
    if rows == [] then [] else [HeldOf(names, rows[0])] + HeldAll(names, rows[1..])
  }

  /**
   An INSERT the table takes: it names every column that is not computed, once,
   and no other, and has a value for each; on SQL Server it has at most 1000 rows
   and an identity column is open to values.
   */
  predicate Accepts(e: Engine, t: Table, identity: bool, ins: Insertion) {
    && ins.schema == SchemaOf(t) && ins.table == t.name && Distinct(ins.columns)
    && (forall n :: n in ins.columns ==> Storable(t, n))
    && (forall i :: 0 <= i < |t.columns| && !t.columns[i].generated ==> t.columns[i].name in ins.columns)
    && (forall i :: 0 <= i < |ins.rows| ==> |ins.rows[i]| == |ins.columns|)
    && (e.Mssql? ==> |ins.rows| <= 1000 && (Numbered(t) ==> identity))
  }

  /** `SET IDENTITY_INSERT` for a table, and whether it is switched on. */
  function ReadSwitch(e: Engine, ts: seq<Token>): Option<(Option<string>, string, bool)> {
    if !IsWord(ts, "set") || !IsWord(ts[1..], "identity_insert") then None
    else
      match ReadTable(e, ts[2..])
      case None => None
      case Some(t) =>
        if |t.rest| == 1 && IsWord(t.rest, "on") then Some((t.value.0, t.value.1, true))
        else if |t.rest| == 1 && IsWord(t.rest, "off") then Some((t.value.0, t.value.1, false))
        else None
  }

  /**
   The database: it runs an INSERT that the table takes and, on SQL Server, the
   switch of a table that has an identity column; it refuses anything else.
   */
  function RunInsert(e: Engine, t: Table, place: Place, sql: string): Option<(Place, nat)> {
    var ts := Tokens(e, sql);
    match ReadSwitch(e, ts)
    case Some(s) =>
      if e.Mssql? && Numbered(t) && s.0 == SchemaOf(t) && s.1 == t.name then Some((place.(identity := s.2), 0))
        else None
    case None =>
      match ReadInsert(e, ts)
      case None => None
      case Some(ins) =>
        if Accepts(e, t, place.identity, ins)
        then Some((place.(rows := place.rows + HeldAll(ins.columns, ins.rows)), |ins.rows|))
        else None
  }

  function Runner(e: Engine, t: Table): Executor<Place> {
    (place: Place, sql: string) => RunInsert(e, t, place, sql)
  }

  // ------------------------------------------------------------------ running a dump

  /** Each statement of the list runs, and together they add `added` and leave the switch at `off`. */
  predicate Adds(e: Engine, t: Table, on: bool, sqls: seq<string>, added: seq<Held>, off: bool)
    decreases |sqls|
  {
    if sqls == [] then added == [] && on == off
    else
      var r := RunInsert(e, t, Place([], on), sqls[0]);
      && r.Some? && r.value.1 == |r.value.0.rows| && r.value.0.rows <= added
      && Adds(e, t, r.value.0.identity, sqls[1..], added[|r.value.0.rows|..], off)
  }

  lemma AddsNone(e: Engine, t: Table, on: bool)
    ensures Adds(e, t, on, [], [], on)
  {
  }

  lemma AddsStep(e: Engine, t: Table, on: bool, sqls: seq<string>, added: seq<Held>, off: bool)
    requires sqls != []
    ensures var r := RunInsert(e, t, Place([], on), sqls[0]);
      Adds(e, t, on, sqls, added, off) <==>
        && r.Some? && r.value.1 == |r.value.0.rows| && r.value.0.rows <= added
        && Adds(e, t, r.value.0.identity, sqls[1..], added[|r.value.0.rows|..], off)
  {
    hide RunInsert;
  }

  lemma RunFrame(e: Engine, t: Table, place: Place, sql: string)
    ensures var r, q := RunInsert(e, t, place, sql), RunInsert(e, t, Place([], place.identity), sql);
      (r.Some? <==> q.Some?)
      && (r.Some? ==> r.value == (Place(place.rows + q.value.0.rows, q.value.0.identity), q.value.1))
  {
    hide Tokens, ReadInsert, ReadSwitch, SchemaOf, Accepts, Numbered;
    assert place.rows + [] == place.rows;
    var i := ReadInsert(e, Tokens(e, sql));
    if i.Some? {
      assert [] + HeldAll(i.value.columns, i.value.rows) == HeldAll(i.value.columns, i.value.rows);
    }
  }

  lemma AddsNothing(e: Engine, t: Table, on: bool, added: seq<Held>, off: bool)
    requires Adds(e, t, on, [], added, off)
    ensures added == [] && on == off
  {
  }

  lemma {:induction false} RunAdds(e: Engine, t: Table, sqls: seq<string>, i: nat, keepGoing: bool, place: Place,
      added: seq<Held>, off: bool, s: Summary)
    requires i <= |sqls| && Adds(e, t, place.identity, sqls[i..], added, off)
    ensures RunAll(Runner(e, t), sqls, i, keepGoing, None, place, s)
      == (Place(place.rows + added, off), Ok(Summary(s.statements + |sqls| - i, s.rows + |added|, s.failed)))
    decreases |sqls| - i
  {
    hide RunInsert, RunAll, Adds;
    var exec := Runner(e, t);
    if i == |sqls| {
      AddsNothing(e, t, place.identity, added, off);
      RunDone(exec, sqls, keepGoing, None, place, s);
      assert place.rows + [] == place.rows;
    } else {
      AddsStep(e, t, place.identity, sqls[i..], added, off);
      assert sqls[i..][0] == sqls[i] && sqls[i..][1..] == sqls[i + 1..];
      RunFrame(e, t, place, sqls[i]);
      RunStep(exec, sqls, i, keepGoing, None, place, s);
      assert exec(place, sqls[i]) == RunInsert(e, t, place, sqls[i]);
      var first := RunInsert(e, t, Place([], place.identity), sqls[i]).value;
      var rows := first.0.rows;
      var next := Place(place.rows + rows, first.0.identity);
      var s' := s.(statements := s.statements + 1, rows := s.rows + first.1);
      RunAdds(e, t, sqls, i + 1, keepGoing, next, added[|rows|..], off, s');
      assert place.rows + rows + added[|rows|..] == place.rows + added;
    }
  }

  lemma {:induction false} AddsAppend(e: Engine, t: Table, on: bool, a: seq<string>, x: seq<Held>, mid: bool,
      b: seq<string>, y: seq<Held>, off: bool)
    requires Adds(e, t, on, a, x, mid) && Adds(e, t, mid, b, y, off)
    ensures Adds(e, t, on, a + b, x + y, off)
    decreases |a|
  {
    hide RunInsert;
    if a == [] {
      assert a + b == b && x + y == y;
    } else {
      var first := RunInsert(e, t, Place([], on), a[0]).value.0;
      assert (a + b)[1..] == a[1..] + b;
      AddsAppend(e, t, first.identity, a[1..], x[|first.rows|..], mid, b, y, off);
      assert (x + y)[|first.rows|..] == x[|first.rows|..] + y;
    }
  }

  lemma {:induction false} RendersAppend(a: seq<seq<Piece>>, b: seq<seq<Piece>>)
    ensures Renders(a + b) == Renders(a) + Renders(b)
  {
    hide Render;
    if a == [] {
      assert a + b == b;
    } else {
      assert (a + b)[1..] == a[1..] + b;
      RendersAppend(a[1..], b);
    }
  }

  /** The columns a dump names are those the table wants named. */
  lemma NamesWanted(t: Table)
    requires DistinctColumns(t)
    ensures var names := DumpedColumns(t.columns);
      && Distinct(names) && (forall n :: n in names <==> Storable(t, n))
      && forall i :: 0 <= i < |t.columns| && !t.columns[i].generated ==> t.columns[i].name in names
  {
    hide DumpedColumns;
    var names := DumpedColumns(t.columns);
    var at := DumpedMeans(t.columns);
    forall i | 0 <= i < |t.columns| && !t.columns[i].generated
      ensures t.columns[i].name in names
    {
      assert i in at;
      var k :| 0 <= k < |at| && at[k] == i;
      assert names[k] == t.columns[i].name;
    }
    forall n | n in names
      ensures Storable(t, n)
    {
      var k :| 0 <= k < |names| && names[k] == n;
      assert at[k] in at;
    }
  }

  /** The switch stands as an INSERT of the dump needs it. */
  predicate Admits(e: Engine, t: Table, on: bool) {
    e.Mssql? && Numbered(t) ==> on
  }

  /** What a dump's rows are once restored. */
  function Restored(e: Engine, t: Table, rows: seq<Row>): (r: seq<Held>)
    ensures |r| == |rows|
  {
    HeldAll(DumpedColumns(t.columns), KeptRows(e, t, rows))
  }

  lemma RestoredAppend(e: Engine, t: Table, a: seq<Row>, b: seq<Row>)
    ensures Restored(e, t, a + b) == Restored(e, t, a) + Restored(e, t, b)
  {
    hide HeldOf, KeptRow, DumpedColumns;
  }

  lemma ChunkRuns(e: Engine, t: Table, on: bool, chunk: seq<Row>)
    requires CleanRows(e, t, chunk) && chunk != [] && |chunk| <= ROWS_PER_INSERT && DumpedColumns(t.columns) != []
    requires DistinctColumns(t) && Admits(e, t, on)
    ensures RunInsert(e, t, Place([], on), ChunkSql(e, t, chunk))
      == Some((Place(Restored(e, t, chunk), on), |chunk|))
  {
    hide ReadInsert, Tokens, ChunkSql, DumpedColumns, SchemaOf, HeldAll, KeptRow, ReadSwitch, Storable, Distinct,
      CleanFrom, Numbered;
    ChunkReadsBack(e, t, chunk);
    InsertIsNoSwitch(e, Tokens(e, ChunkSql(e, t, chunk)));
    NamesWanted(t);
    var ins := ReadInsert(e, Tokens(e, ChunkSql(e, t, chunk))).value;
    forall i | 0 <= i < |ins.rows|
      ensures |ins.rows[i]| == |ins.columns|
    {
      assert CleanRow(e, t, chunk[i]);
      assert ins.rows[i] == KeptRow(e, t, chunk[i], 0);
    }
    assert Accepts(e, t, on, ins);
    assert [] + Restored(e, t, chunk) == Restored(e, t, chunk);
  }

  lemma InsertIsNoSwitch(e: Engine, ts: seq<Token>)
    requires ReadInsert(e, ts).Some?
    ensures ReadSwitch(e, ts).None?
  {
    hide ReadTable, ReadNames, ReadRows;
  }

  predicate Small(chunks: seq<seq<Row>>) {
    forall i :: 0 <= i < |chunks| ==> |chunks[i]| <= ROWS_PER_INSERT
  }

  lemma TailChunks(e: Engine, t: Table, chunks: seq<seq<Row>>)
    requires CleanChunks(e, t, chunks) && Small(chunks) && chunks != []
    ensures CleanChunks(e, t, chunks[1..]) && Small(chunks[1..])
    ensures CleanRows(e, t, chunks[0]) && chunks[0] != [] && |chunks[0]| <= ROWS_PER_INSERT
  {
    assert forall i :: 0 <= i < |chunks[1..]| ==> chunks[1..][i] == chunks[i + 1];
  }

  /** One more statement that runs. */
  lemma AddsCons(e: Engine, t: Table, on: bool, sql: string, first: seq<Held>, sqls: seq<string>, rest: seq<Held>)
    requires RunInsert(e, t, Place([], on), sql) == Some((Place(first, on), |first|)) && Adds(e, t, on, sqls, rest, on)
    ensures Adds(e, t, on, [sql] + sqls, first + rest, on)
  {
    hide RunInsert, Adds;
    assert ([sql] + sqls)[1..] == sqls && (first + rest)[|first|..] == rest;
    AddsStep(e, t, on, [sql] + sqls, first + rest, on);
  }

  lemma {:induction false} ChunksAdd(e: Engine, t: Table, on: bool, chunks: seq<seq<Row>>)
    requires CleanChunks(e, t, chunks) && Small(chunks) && DumpedColumns(t.columns) != []
    requires DistinctColumns(t) && Admits(e, t, on)
    ensures Adds(e, t, on, Renders(ChunksPieces(e, t, chunks)), Restored(e, t, Concat(chunks)), on)
  {
    hide RunInsert, CleanRows, CleanChunks, Small, DumpedColumns, DistinctColumns, Admits, ChunkPieces, ChunkSql,
      Render,
      Adds, Ordinary, Restored;
    if chunks != [] {
      TailChunks(e, t, chunks);
      ChunksAdd(e, t, on, chunks[1..]);
      ChunkOrdinary(e, t, chunks[0]);
      ChunkRuns(e, t, on, chunks[0]);
      RestoredAppend(e, t, chunks[0], Concat(chunks[1..]));
      AddsCons(e, t, on, ChunkSql(e, t, chunks[0]), Restored(e, t, chunks[0]), Renders(ChunksPieces(e, t, chunks[1..])),
        Restored(e, t, Concat(chunks[1..])));
    } else {
      AddsNone(e, t, on);
      NoneRestored(e, t);
    }
  }

  lemma NoneRestored(e: Engine, t: Table)
    ensures Restored(e, t, []) == []
  {
  }

  lemma LowerON()
    ensures Lower("ON") == "on"
  {
    hide Lower;
    LowerIs("ON", "on");
  }

  lemma LowerOFF()
    ensures Lower("OFF") == "off"
  {
    hide Lower;
    LowerIs("OFF", "off");
  }

  lemma LowerIDENTITY_INSERT()
    ensures Lower("IDENTITY_INSERT") == "identity_insert"
  {
    hide Lower;
    LowerIs("IDENTITY_INSERT", "identity_insert");
  }

  /** The switch, read back. */
  lemma SwitchReadsBack(e: Engine, t: Table, state: string)
    requires state == "ON" || state == "OFF"
    ensures ReadSwitch(e, Tokens(e, IdentityInsert(e, t, state))) == Some((SchemaOf(t), t.name, state == "ON"))
  {
    hide ReadTable, Tokens, TokensOf, SchemaOf, IdentityInsert, Lower, IsKeyword, Leading, Trailing, QualifiedPieces,
      Render;
    Keywords();
    IdentityPart(e, t, state);
    ReadPrinted(e, IdentityPieces(e, t, state));
    LowerSET();
    LowerIDENTITY_INSERT();
    LowerON();
    LowerOFF();
    WordTokens("SET");
    WordTokens("IDENTITY_INSERT");
    WordTokens(state);
    var q := QualifiedPieces(e, t.schema, t.name);
    var a := Leading("SET") + Leading("IDENTITY_INSERT");
    TokensOfAppend(Leading("SET"), Leading("IDENTITY_INSERT"));
    TokensOfAppend(a, q);
    TokensOfAppend(a + q, Trailing(state));
    var last := [Token(Word(Lower(state)), state)];
    var ts := Tokens(e, IdentityInsert(e, t, state));
    assert ts == [Token(Word("set"), "SET"), Token(Word("identity_insert"), "IDENTITY_INSERT")] + (TokensOf(q) + last);
    TableReadsBack(e, t, last);
    assert ts[1..][0] == Token(Word("identity_insert"), "IDENTITY_INSERT");
    assert ts[2..] == TokensOf(q) + last;
  }

  lemma SwitchAdds(e: Engine, t: Table, on: bool, state: string)
    requires (state == "ON" || state == "OFF") && e.Mssql? && Numbered(t)
    ensures Adds(e, t, on, Renders([IdentityPieces(e, t, state)]), [], state == "ON")
  {
    hide Render, ReadSwitch, ReadInsert, Tokens, IdentityInsert, IdentityPieces, Numbered, SchemaOf, IsKeyword;
    Keywords();
    IdentityPart(e, t, state);
    SwitchReadsBack(e, t, state);
    var ps := IdentityPieces(e, t, state);
    assert Renders([ps]) == [Render(ps)] && [Render(ps)][1..] == [];
    assert RunInsert(e, t, Place([], on), Render(ps)) == Some((Place([], state == "ON"), 0));
    AddsNone(e, t, state == "ON");
    AddsStep(e, t, on, Renders([ps]), [], state == "ON");
  }

  lemma IdentityIsNumbered(e: Engine, t: Table)
    ensures HasIdentity(e, t) <==> e.Mssql? && Numbered(t)
  {
  }

  /** Run in order on the table, the statements of a dump add exactly its rows. */
  lemma DumpAdds(e: Engine, t: Table, rows: seq<Row>)
    requires CleanRows(e, t, rows) && DumpedColumns(t.columns) != [] && DistinctColumns(t)
    ensures Adds(e, t, false, Renders(DumpPieces(e, t, rows)), Restored(e, t, rows), false)
  {
    hide RunInsert, CleanRows, DumpedColumns, PagedChunks, ChunksPieces, IdentityPieces, Render, HasIdentity, Adds,
      Renders, Restored, Numbered, DistinctColumns;
    PagesJoin(rows, 0);
    PagesSmall(rows, 0);
    NoRows(e, t, rows);
    IdentityIsNumbered(e, t);
    var chunks := PagedChunks(rows, 0);
    CleanConcat(e, t, chunks);
    var numbered := HasIdentity(e, t);
    ChunksAdd(e, t, numbered, chunks);
    if numbered {
      var on, off, body := IdentityPieces(e, t, "ON"), IdentityPieces(e, t, "OFF"), ChunksPieces(e, t, chunks);
      var held := Restored(e, t, rows);
      SwitchAdds(e, t, false, "ON");
      SwitchAdds(e, t, true, "OFF");
      RendersAppend([on], body);
      RendersAppend([on] + body, [off]);
      AddsAppend(e, t, false, Renders([on]), [], true, Renders(body), held, true);
      assert [] + held == held && held + [] == held;
      AddsAppend(e, t, false, Renders([on]) + Renders(body), held, true, Renders([off]), [], false);
    }
  }

  lemma {:induction false} PagesSmall(rows: seq<Row>, offset: nat)
    ensures Small(PagedChunks(rows, offset))
    decreases |rows| - offset
  {
    hide Chunks, PageOf;
    if offset < |rows| {
      ChunksJoin(PageOf(rows, PAGE, offset), ROWS_PER_INSERT);
      PagesSmall(rows, offset + PAGE);
    }
  }

  // ------------------------------------------------------------------ the round trip

  /** What a page shows of a cell. */
  function Shown(v: Stored): Value {
    match v
    case Nothing => None
    case Words(text) => Some(text)
    case Bytes(hex) => Some("0x" + hex)
  }

  /** The row a page query answers, which asks for these columns. */
  function Select(names: seq<string>, h: Held): (r: Row)
    ensures |r| == |names|
  {
    seq(|names|, i requires 0 <= i < |names| => if names[i] in h then Shown(h[names[i]]) else None)
  }

  function SelectAll(t: Table, held: seq<Held>): (r: seq<Row>)
    ensures |r| == |held| && forall i :: 0 <= i < |r| ==> r[i] == Select(DumpedColumns(t.columns), held[i])
  {
    seq(|held|, i requires 0 <= i < |held| => Select(DumpedColumns(t.columns), held[i]))
  }

  /** Every row has a cell for each column that is not computed. */
  ghost predicate Holds(t: Table, held: seq<Held>) {
    forall i :: 0 <= i < |held| ==> forall n :: n in held[i] <==> Storable(t, n)
  }

  /** The value survives a dump: bytes in a binary column, and text that a binary column would not take for bytes. */
  predicate Carried(e: Engine, typeName: string, v: Stored) {
    match v
    case Nothing => true
    case Words(text) => !("0x" <= text && IsBinary(e, typeName))
    case Bytes(_) => IsBinary(e, typeName)
  }

  predicate RowCarried(e: Engine, t: Table, h: Held) {
    var names := DumpedColumns(t.columns);
    forall i :: 0 <= i < |names| && names[i] in h ==> Carried(e, TypeAt(t, i), h[names[i]])
  }

  lemma KeptIfCarried(e: Engine, typeName: string, v: Stored)
    ensures Kept(e, typeName, Shown(v)) == v <==> Carried(e, typeName, v)
  {
    hide IsBinary;
    if v.Bytes? {
      assert ("0x" + v.hex)[2..] == v.hex;
    }
  }

  lemma {:induction false} HeldOfIs(names: seq<string>, values: seq<Stored>)
    requires |names| == |values| && Distinct(names)
    ensures forall n :: n in HeldOf(names, values) <==> n in names
    ensures forall i :: 0 <= i < |names| ==> names[i] in names && HeldOf(names, values)[names[i]] == values[i]
  {
    if names != [] {
      HeldOfIs(names[1..], values[1..]);
      assert forall i :: 0 < i < |names| ==> names[i] == names[1..][i - 1] && values[i] == values[1..][i - 1];
      assert forall i :: 0 < i < |names| ==> names[0] != names[i];
    }
  }

  lemma SameHeld(names: seq<string>, a: Held, b: Held)
    requires forall n :: n in a <==> n in names
    requires forall n :: n in b <==> n in names
    ensures a == b <==> forall i :: 0 <= i < |names| ==> names[i] in a && names[i] in b && a[names[i]] == b[names[i]]
  {
    if forall i :: 0 <= i < |names| ==> names[i] in a && names[i] in b && a[names[i]] == b[names[i]] {
      forall n | n in a
        ensures n in b && a[n] == b[n]
      {
        var i :| 0 <= i < |names| && names[i] == n;
      }
      assert a.Keys == b.Keys;
    } else {
      assert forall i :: 0 <= i < |names| ==> names[i] in names;
    }
  }

  lemma RowRestored(e: Engine, t: Table, h: Held)
    requires DistinctColumns(t) && forall n :: n in h <==> Storable(t, n)
    ensures var names := DumpedColumns(t.columns);
      HeldOf(names, KeptRow(e, t, Select(names, h), 0)) == h <==> RowCarried(e, t, h)
  {
    hide HeldOf, DumpedColumns, Kept, Carried, Storable, Distinct, TypeAt;
    var names := DumpedColumns(t.columns);
    NamesWanted(t);
    var values := KeptRow(e, t, Select(names, h), 0);
    KeptRowAt(e, t, Select(names, h), 0);
    HeldOfIs(names, values);
    var back := HeldOf(names, values);
    forall i | 0 <= i < |names|
      ensures names[i] in h && (back[names[i]] == h[names[i]] <==> Carried(e, TypeAt(t, i), h[names[i]]))
    {
      assert names[i] in names;
      KeptIfCarried(e, TypeAt(t, 0 + i), h[names[i]]);
    }
    SameHeld(names, back, h);
  }

  /**
   The dump and restore round trip. Running a dump back in, on an engine that
   reads SQL for itself and into a table that takes values for just the columns it
   does not compute, runs every statement and restores every row once, in order.
   The rows are those dumped exactly when every cell is one a dump carries.
   */
  lemma DumpThenRestore(e: Engine, t: Table, held: seq<Held>, keepGoing: bool)
    requires DistinctColumns(t) && Holds(t, held) && CleanRows(e, t, SelectAll(t, held))
    requires exists i :: 0 <= i < |t.columns| && !t.columns[i].generated
    ensures var rows := SelectAll(t, held); var stmts := Split(e, DumpText(e, t, rows));
      RunAll(Runner(e, t), stmts, 0, keepGoing, None, Place([], false), Summary(0, 0, []))
        == (Place(Restored(e, t, rows), false), Ok(Summary(|stmts|, |held|, [])))
    ensures Restored(e, t, SelectAll(t, held)) == held <==>
      forall i :: 0 <= i < |held| ==> RowCarried(e, t, held[i])
  {
    hide Split, DumpText, DumpPieces, CleanRows, DumpedColumns, Adds, Renders, RunAll, RowCarried, HeldOf, KeptRow,
      Select, Storable;
    NamesWanted(t);
    var rows := SelectAll(t, held);
    DumpScript(e, t, rows);
    SplitScript(e, DumpPieces(e, t, rows));
    DumpAdds(e, t, rows);
    var stmts := Split(e, DumpText(e, t, rows));
    assert stmts[0..] == stmts;
    RunAdds(e, t, stmts, 0, keepGoing, Place([], false), Restored(e, t, rows), false, Summary(0, 0, []));
    assert [] + Restored(e, t, rows) == Restored(e, t, rows);
    RowsRestored(e, t, held);
  }

  lemma RowsRestored(e: Engine, t: Table, held: seq<Held>)
    requires DistinctColumns(t) && Holds(t, held)
    ensures Restored(e, t, SelectAll(t, held)) == held <==>
      forall i :: 0 <= i < |held| ==> RowCarried(e, t, held[i])
  {
    hide DumpedColumns, RowCarried, HeldOf, KeptRow, Select, Storable, DistinctColumns;
    forall i | 0 <= i < |held|
      ensures Restored(e, t, SelectAll(t, held))[i] == held[i] <==> RowCarried(e, t, held[i])
    {
      RowRestored(e, t, held[i]);
    }
  }

  const BLOB: Table := Table(None, "t", [Column("a", false, false)], ["blob"])

  /** A cell of a binary column whose text begins like bytes does not come back, on any engine with such columns. */
  lemma LookalikeIsBytes(e: Engine)
    requires e.IsMysqlFamily() || e.Sqlite?
    ensures Restored(e, BLOB, SelectAll(BLOB, [map["a" := Words("0xdead")]])) == [map["a" := Bytes("dead")]]
  {
    var v := Some("0xdead");
    assert "0xdead" == "0x" + "dead" && "0xdead"[2..] == "dead";
    BlobIsBinary(e);
    assert IsHexValue(e, "blob", v);
    var names := DumpedColumns(BLOB.columns);
    assert BLOB.columns[1..] == [];
    assert names == ["a"];
    var h: Held := map["a" := Words("0xdead")];
    var row := Select(names, h);
    assert row == [v] && row[1..] == [];
    var values := KeptRow(e, BLOB, row, 0);
    assert values == [Bytes("dead")];
    assert names[1..] == [] && values[1..] == [];
    assert HeldOf(names, values) == map["a" := Bytes("dead")];
    assert SelectAll(BLOB, [h]) == [row];
    assert KeptRows(e, BLOB, [row]) == [values];
  }

  lemma BlobIsBinary(e: Engine)
    requires e.IsMysqlFamily() || e.Sqlite?
    ensures IsBinary(e, "blob")
  {
    hide Lower, Find;
    LowerIs("blob", "blob");
    assert "blob"[0..] == "blob";
  }

  /** The two loops together: what `DumpRows` writes, `Restore` brings back. */
  method CopyRows(e: Engine, t: Table, held: seq<Held>) returns (restored: seq<Held>)
    requires DistinctColumns(t) && Holds(t, held) && CleanRows(e, t, SelectAll(t, held))
    requires forall i :: 0 <= i < |held| ==> RowCarried(e, t, held[i])
    ensures restored == if forall i :: 0 <= i < |t.columns| ==> t.columns[i].generated then [] else held
  {
    var script, _ := DumpRows(e, t, SelectAll(t, held));
    var place, summary := Restore(e, Runner(e, t), script, false, None, Place([], false));
    restored := place.rows;
    NamesWanted(t);
    if forall i :: 0 <= i < |t.columns| ==> t.columns[i].generated {
      NoneDumped(t.columns);
      NothingToSplit(e);
    } else {
      DumpThenRestore(e, t, held, false);
    }
  }

  lemma {:induction false} NoneDumped(columns: seq<Column>)
    requires forall i :: 0 <= i < |columns| ==> columns[i].generated
    ensures DumpedColumns(columns) == []
  {
    if columns != [] {
      NoneDumped(columns[1..]);
    }
  }

  lemma NothingToSplit(e: Engine)
    ensures Split(e, "") == []
  {
    NothingPrinted(e, "");
    SplitScript(e, []);
  }
}
