/** Every statement `RowEdits` writes is exactly one statement, and an ordinary write. */
module RowEditText {
  import opened Prelude
  import opened Engines
  import opened Guard
  import opened GuardLocality
  import opened Dialect
  import opened SqlText
  import opened SqlPrinting

  /** No piece ends a statement. */
  predicate NoEnd(ps: seq<Piece>) {
    forall i :: 0 <= i < |ps| ==> ps[i] != Sym(';') && !ps[i].GoLine?
  }

  /** No piece opens or closes a parenthesis. */
  predicate Flat(ps: seq<Piece>) {
    forall i :: 0 <= i < |ps| ==> ps[i] != Sym('(') && ps[i] != Sym(')')
  }

  /** The last piece is not white space. */
  predicate Firm(ps: seq<Piece>) {
    ps != [] && !ps[|ps| - 1].Sp?
  }

  /** The last piece can stand before anything. */
  predicate EndsOpen(ps: seq<Piece>) {
    ps != [] && (ps[|ps| - 1].Sp? || ps[|ps| - 1].Sym?)
  }

  /** A stretch of a statement. */
  predicate Part(e: Engine, ps: seq<Piece>) {
    ps != [] && WellFormed(e, ps, None) && NoEnd(ps)
  }

  predicate Parts(e: Engine, items: seq<seq<Piece>>) {
    forall i :: 0 <= i < |items| ==> Part(e, items[i])
  }

  // ------------------------------------------------------------------ putting parts together

  lemma Attach(e: Engine, a: seq<Piece>, b: seq<Piece>)
    requires Part(e, a) && Part(e, b)
    requires Breaks(HeadOf(b, None)) || EndsOpen(a)
    ensures Part(e, a + b) && Render(a + b) == Render(a) + Render(b) && KindsOf(a + b) == KindsOf(a) + KindsOf(b)
    ensures Flat(a) && Flat(b) ==> Flat(a + b)
    ensures Firm(b) ==> Firm(a + b)
    ensures EndsOpen(b) ==> EndsOpen(a + b)
    ensures (a + b)[0] == a[0] && (a + b)[|a + b| - 1] == b[|b| - 1]
  {
    hide WellFormed, Render, KindsOf;
    if Breaks(HeadOf(b, None)) {
      Glue(e, a, b);
    } else {
      GlueAfter(e, a, b);
    }
  }

  lemma {:induction false} AttachAll(e: Engine, items: seq<seq<Piece>>, sep: seq<Piece>)
    requires Parts(e, items) && items != []
    requires Part(e, sep) && Breaks(HeadOf(sep, None)) && sep[|sep| - 1].Sp?
    ensures Part(e, Joined(items, sep)) && Render(Joined(items, sep)) == Join(Renders(items), Render(sep))
    ensures (forall i :: 0 <= i < |items| ==> Flat(items[i])) && Flat(sep) ==> Flat(Joined(items, sep))
    ensures (forall i :: 0 <= i < |items| ==> Firm(items[i])) ==> Firm(Joined(items, sep))
  {
    hide WellFormed, Render, KindsOf, Flat;
    if |items| == 1 {
      assert Renders(items) == [Render(items[0])];
      assert Part(e, items[0]);
    } else {
      assert forall i :: 0 <= i < |items[1..]| ==> items[1..][i] == items[i + 1];
      AttachAll(e, items[1..], sep);
      Attach(e, items[0], sep);
      Attach(e, items[0] + sep, Joined(items[1..], sep));
      assert Renders(items)[1..] == Renders(items[1..]);
      RendersLen(items);
    }
  }

  // ------------------------------------------------------------------ the parts of an edit

  const COMMA: seq<Piece> := [Sym(','), Sp(' ')]
  const EQUALS: seq<Piece> := [Sp(' '), Sym('='), Sp(' ')]

  function Padded(w: string): seq<Piece> {
    [Sp(' '), Kw(w), Sp(' ')]
  }

  function Leading(w: string): seq<Piece> {
    [Kw(w), Sp(' ')]
  }

  function Trailing(w: string): seq<Piece> {
    [Sp(' '), Kw(w)]
  }

  function AssignmentPieces(e: Engine, c: Cell): seq<Piece> {
    [NamePiece(e, c.column)] + EQUALS + LiteralPieces(e, c.value)
  }

  function KeyPieces(e: Engine, c: Cell): seq<Piece> {
    if c.value.Some? then AssignmentPieces(e, c) else [NamePiece(e, c.column)] + Padded("IS") + [Kw("NULL")]
  }

  lemma OneWell(e: Engine, p: Piece)
    requires PieceOk(e, p)
    ensures WellFormed(e, [p], None) && Render([p]) == Text(p)
  {
    assert Render([p][1..]) == "";
  }

  lemma NamePart(e: Engine, name: string)
    ensures Part(e, [NamePiece(e, name)]) && Firm([NamePiece(e, name)]) && Flat([NamePiece(e, name)])
      && Render([NamePiece(e, name)]) == Ident(e, name)
  {
    hide Sealed, Doubled;
    NameOk(e, name);
    OneWell(e, NamePiece(e, name));
  }

  lemma LiteralPart(e: Engine, v: Option<string>)
    ensures Part(e, LiteralPieces(e, v)) && Firm(LiteralPieces(e, v)) && Flat(LiteralPieces(e, v))
      && Render(LiteralPieces(e, v)) == Literal(e, v)
  {
    hide Sealed, Doubled, LiteralBody;
    Keywords();
    if v.None? {
      OneWell(e, Kw("NULL"));
    } else {
      StringOk(e, v.value);
      OneWell(e, StringPiece(e, v.value));
      if e.Mssql? {
        var ps := LiteralPieces(e, v);
        assert ps[1..] == [StringPiece(e, v.value)];
        assert Render(ps) == "N" + ("'" + LiteralBody(e, v.value) + "'");
        assert "N" + ("'" + LiteralBody(e, v.value) + "'") == "N'" + LiteralBody(e, v.value) + "'";
      }
    }
  }

  lemma QualifiedPart(e: Engine, schema: Option<string>, table: string)
    ensures Part(e, QualifiedPieces(e, schema, table)) && Firm(QualifiedPieces(e, schema, table))
      && Flat(QualifiedPieces(e, schema, table))
    ensures Render(QualifiedPieces(e, schema, table)) == Qualified(e, schema, table)
  {
    hide Sealed, Doubled, Text, WellFormed, Ident, NamePiece;
    NamePart(e, table);
    if schema.Some? && schema.value != "" {
      NamePart(e, schema.value);
      DotPart(e);
      Attach(e, [NamePiece(e, schema.value)], [Sym('.')]);
      Attach(e, [NamePiece(e, schema.value)] + [Sym('.')], [NamePiece(e, table)]);
      assert QualifiedPieces(e, schema, table) == [NamePiece(e, schema.value)] + [Sym('.')] + [NamePiece(e, table)];
    }
  }

  lemma DotPart(e: Engine)
    ensures Part(e, [Sym('.')]) && Render([Sym('.')]) == "." && Breaks(HeadOf([Sym('.')], None))
  {
  }

  lemma SeparatorParts(e: Engine)
    ensures Part(e, COMMA) && Flat(COMMA) && Render(COMMA) == ", " && Breaks(HeadOf(COMMA, None))
    ensures Part(e, EQUALS) && Flat(EQUALS) && Render(EQUALS) == " = " && Breaks(HeadOf(EQUALS, None))
  {
  }

  lemma WordPart(e: Engine, w: string)
    requires IsKeyword(w)
    ensures Part(e, [Kw(w)]) && Flat([Kw(w)]) && Render([Kw(w)]) == w && KindsOf([Kw(w)]) == [Word(Lower(w))]
  {
    hide Lower, IsKeyword;
    OneWell(e, Kw(w));
    assert KindsOf([Kw(w)][1..]) == [];
  }

  lemma SpacePart(e: Engine)
    ensures Part(e, [Sp(' ')]) && Flat([Sp(' ')]) && Render([Sp(' ')]) == " " && KindsOf([Sp(' ')]) == []
    ensures Breaks(HeadOf([Sp(' ')], None))
  {
    OneWell(e, Sp(' '));
    assert KindsOf([Sp(' ')][1..]) == [];
  }

  /** A keyword with white space around it. */
  lemma WordParts(e: Engine, w: string)
    requires IsKeyword(w)
    ensures Part(e, Leading(w)) && EndsOpen(Leading(w)) && Leading(w)[0] == Kw(w) && Flat(Leading(w))
      && Render(Leading(w)) == w + " " && KindsOf(Leading(w)) == [Word(Lower(w))]
    ensures Part(e, Trailing(w)) && Firm(Trailing(w)) && Flat(Trailing(w)) && Render(Trailing(w)) == " " + w
      && KindsOf(Trailing(w)) == [Word(Lower(w))]
    ensures Part(e, Padded(w)) && EndsOpen(Padded(w)) && Flat(Padded(w)) && Render(Padded(w)) == " " + w + " "
      && KindsOf(Padded(w)) == [Word(Lower(w))]
    ensures Breaks(HeadOf(Trailing(w), None)) && Breaks(HeadOf(Padded(w), None))
  {
    hide Lower, IsKeyword, WellFormed, Render, KindsOf, Flat;
    WordPart(e, w);
    SpacePart(e);
    var sp, kw := [Sp(' ')], [Kw(w)];
    Attach(e, kw, sp);
    Attach(e, sp, kw);
    Attach(e, sp + kw, sp);
    assert Leading(w) == kw + sp && Trailing(w) == sp + kw && Padded(w) == sp + kw + sp;
  }

  lemma AssignmentPart(e: Engine, c: Cell)
    ensures Part(e, AssignmentPieces(e, c)) && Firm(AssignmentPieces(e, c)) && Flat(AssignmentPieces(e, c))
      && Render(AssignmentPieces(e, c)) == Assignment(e, c)
  {
    hide WellFormed, Render, KindsOf, Flat, NamePiece, LiteralPieces, Ident, Literal;
    NamePart(e, c.column);
    SeparatorParts(e);
    LiteralPart(e, c.value);
    Attach(e, [NamePiece(e, c.column)], EQUALS);
    Attach(e, [NamePiece(e, c.column)] + EQUALS, LiteralPieces(e, c.value));
  }

  lemma KeyPart(e: Engine, c: Cell)
    ensures Part(e, KeyPieces(e, c)) && Firm(KeyPieces(e, c)) && Flat(KeyPieces(e, c))
      && Render(KeyPieces(e, c)) == KeyTerm(e, c)
  {
    hide WellFormed, Render, KindsOf, Flat, NamePiece, LiteralPieces, Ident, Literal, IsKeyword;
    if c.value.Some? {
      AssignmentPart(e, c);
    } else {
      var name, none := [NamePiece(e, c.column)], [Kw("NULL")];
      NamePart(e, c.column);
      Keywords();
      WordParts(e, "IS");
      WordPart(e, "NULL");
      Attach(e, name, Padded("IS"));
      Attach(e, name + Padded("IS"), none);
      assert " " + "IS" + " " + "NULL" == " IS NULL";
      assert Ident(e, c.column) + (" " + "IS" + " ") + "NULL" == Ident(e, c.column) + " IS NULL";
    }
  }

  // ------------------------------------------------------------------ lists

  function NamesPieces(e: Engine, values: seq<Cell>): seq<seq<Piece>> {
    if values == [] then [] else [[NamePiece(e, values[0].column)]] + NamesPieces(e, values[1..])
  }

  function LiteralsPieces(e: Engine, values: seq<Cell>): seq<seq<Piece>> {
    if values == [] then [] else [LiteralPieces(e, values[0].value)] + LiteralsPieces(e, values[1..])
  }

  function SetsPieces(e: Engine, values: seq<Cell>): seq<seq<Piece>> {
    if values == [] then [] else [AssignmentPieces(e, values[0])] + SetsPieces(e, values[1..])
  }

  function KeysPieces(e: Engine, key: seq<Cell>): seq<seq<Piece>> {
    if key == [] then [] else [KeyPieces(e, key[0])] + KeysPieces(e, key[1..])
  }

  /** A non-empty list of flat parts, printed with commas. */
  predicate ListOf(e: Engine, items: seq<seq<Piece>>, texts: seq<string>) {
    && Parts(e, items)
    && (forall i :: 0 <= i < |items| ==> Flat(items[i]) && Firm(items[i]))
    && Renders(items) == texts
  }

  lemma ListCons(e: Engine, item: seq<Piece>, items: seq<seq<Piece>>, text: string, texts: seq<string>)
    requires ListOf(e, items, texts) && Part(e, item) && Flat(item) && Firm(item) && Render(item) == text
    ensures ListOf(e, [item] + items, [text] + texts)
  {
    hide Part, Flat, Firm, Render;
    assert ([item] + items)[1..] == items;
  }

  lemma {:induction false} NamesList(e: Engine, values: seq<Cell>)
    ensures ListOf(e, NamesPieces(e, values), Map((c: Cell) => Ident(e, c.column), values))
    ensures |NamesPieces(e, values)| == |values|
  {
    if values != [] {
      hide Part, Flat, Firm, Render, ListOf, Ident, NamePiece;
      NamesList(e, values[1..]);
      NamePart(e, values[0].column);
      ListCons(e, [NamePiece(e, values[0].column)], NamesPieces(e, values[1..]), Ident(e, values[0].column),
        Map((c: Cell) => Ident(e, c.column), values[1..]));
    }
  }

  lemma {:induction false} LiteralsList(e: Engine, values: seq<Cell>)
    ensures ListOf(e, LiteralsPieces(e, values), Map((c: Cell) => Literal(e, c.value), values))
    ensures |LiteralsPieces(e, values)| == |values|
  {
    if values != [] {
      hide Part, Flat, Firm, Render, ListOf, Literal, LiteralPieces;
      LiteralsList(e, values[1..]);
      LiteralPart(e, values[0].value);
      ListCons(e, LiteralPieces(e, values[0].value), LiteralsPieces(e, values[1..]), Literal(e, values[0].value),
        Map((c: Cell) => Literal(e, c.value), values[1..]));
    }
  }

  lemma {:induction false} SetsList(e: Engine, values: seq<Cell>)
    ensures ListOf(e, SetsPieces(e, values), Map((c: Cell) => Assignment(e, c), values))
    ensures |SetsPieces(e, values)| == |values|
  {
    if values != [] {
      hide Part, Flat, Firm, Render, ListOf, Assignment, AssignmentPieces;
      SetsList(e, values[1..]);
      AssignmentPart(e, values[0]);
      ListCons(e, AssignmentPieces(e, values[0]), SetsPieces(e, values[1..]), Assignment(e, values[0]),
        Map((c: Cell) => Assignment(e, c), values[1..]));
    }
  }

  lemma {:induction false} KeysList(e: Engine, key: seq<Cell>)
    ensures ListOf(e, KeysPieces(e, key), Map((c: Cell) => KeyTerm(e, c), key))
    ensures |KeysPieces(e, key)| == |key|
  {
    if key != [] {
      hide Part, Flat, Firm, Render, ListOf, KeyTerm, KeyPieces;
      KeysList(e, key[1..]);
      KeyPart(e, key[0]);
      ListCons(e, KeyPieces(e, key[0]), KeysPieces(e, key[1..]), KeyTerm(e, key[0]),
        Map((c: Cell) => KeyTerm(e, c), key[1..]));
    }
  }

  lemma CommaList(e: Engine, items: seq<seq<Piece>>, texts: seq<string>)
    requires ListOf(e, items, texts) && items != []
    ensures Part(e, Joined(items, COMMA)) && Flat(Joined(items, COMMA)) && Firm(Joined(items, COMMA))
      && Render(Joined(items, COMMA)) == Join(texts, ", ")
  {
    hide Render, KindsOf, Flat, Join, Joined, WellFormed;
    SeparatorParts(e);
    AttachAll(e, items, COMMA);
  }

  lemma AndList(e: Engine, items: seq<seq<Piece>>, texts: seq<string>)
    requires ListOf(e, items, texts) && items != []
    ensures Part(e, Joined(items, Padded("AND"))) && Flat(Joined(items, Padded("AND")))
      && Firm(Joined(items, Padded("AND")))
    ensures Render(Joined(items, Padded("AND"))) == Join(texts, " AND ")
  {
    hide Render, KindsOf, Flat, Join, Joined, WellFormed, IsKeyword;
    Keywords();
    WordParts(e, "AND");
    assert " " + "AND" + " " == " AND ";
    AttachAll(e, items, Padded("AND"));
  }

  // ------------------------------------------------------------------ whole statements

  function InsertHead(e: Engine, schema: Option<string>, table: string): seq<Piece> {
    Leading("INSERT") + Leading("INTO") + QualifiedPieces(e, schema, table)
  }

  const EMPTY_LIST: seq<Piece> := [Sym('('), Sym(')')]
  const OPEN_LIST: seq<Piece> := [Sp(' '), Sym('(')]
  const CLOSE_LIST: seq<Piece> := [Sym(')')]

  lemma ListParts(e: Engine)
    ensures Part(e, EMPTY_LIST) && Render(EMPTY_LIST) == "()" && Breaks(HeadOf(EMPTY_LIST, None))
    ensures Part(e, OPEN_LIST) && Render(OPEN_LIST) == " (" && Breaks(HeadOf(OPEN_LIST, None))
    ensures Part(e, CLOSE_LIST) && Render(CLOSE_LIST) == ")" && Breaks(HeadOf(CLOSE_LIST, None))
  {
  }

  /** `a` begins with the keyword `w` and ends in something other than white space. */
  predicate Sentence(e: Engine, a: seq<Piece>, w: string) {
    Part(e, a) && a[0] == Kw(w) && Firm(a)
  }

  lemma InsertHeadPart(e: Engine, schema: Option<string>, table: string)
    ensures Sentence(e, InsertHead(e, schema, table), "INSERT")
    ensures Render(InsertHead(e, schema, table)) == "INSERT INTO " + Qualified(e, schema, table)
  {
    hide Render, KindsOf, Flat, WellFormed, IsKeyword, Qualified;
    Keywords();
    WordParts(e, "INSERT");
    WordParts(e, "INTO");
    QualifiedPart(e, schema, table);
    Attach(e, Leading("INSERT"), Leading("INTO"));
    Attach(e, Leading("INSERT") + Leading("INTO"), QualifiedPieces(e, schema, table));
    assert ("INSERT" + " ") + ("INTO" + " ") == "INSERT INTO ";
  }

  /** The pieces of one edit; a function of the edit alone. */
  function EditPieces(e: Engine, schema: Option<string>, table: string, edit: RowEdit): seq<Piece> {
    var t := QualifiedPieces(e, schema, table);
    match edit
    case Update(key, values) =>
      Leading("UPDATE") + t + Padded("SET") + Joined(SetsPieces(e, values), COMMA) + Padded("WHERE")
      + Joined(KeysPieces(e, key), Padded("AND"))
    case Insert(values) =>
      if values == [] then
        if e.IsMysqlFamily() then InsertHead(e, schema, table) + [Sp(' ')] + EMPTY_LIST + Padded("VALUES") + EMPTY_LIST
        else InsertHead(e, schema, table) + Padded("DEFAULT") + [Kw("VALUES")]
      else
        InsertHead(e, schema, table) + OPEN_LIST + Joined(NamesPieces(e, values), COMMA) + CLOSE_LIST
          + Trailing("VALUES") + OPEN_LIST
        + Joined(LiteralsPieces(e, values), COMMA) + CLOSE_LIST
    case Delete(key) =>
      Leading("DELETE") + Leading("FROM") + t + Padded("WHERE") + Joined(KeysPieces(e, key), Padded("AND"))
  }

  // The fixed words of each statement, as the parts spell them.

  lemma UpdateWords(t: string, sets: string, filter: string)
    ensures ("UPDATE" + " ") + t + (" " + "SET" + " ") + sets + (" " + "WHERE" + " ") + filter ==
      UpdateSql(t, sets, filter)
  {
    assert "UPDATE" + " " == "UPDATE ";
    assert " " + "SET" + " " == " SET ";
    assert " " + "WHERE" + " " == " WHERE ";
  }

  lemma DeleteWords(t: string, filter: string)
    ensures ("DELETE" + " ") + ("FROM" + " ") + t + (" " + "WHERE" + " ") + filter == DeleteSql(t, filter)
  {
    assert ("DELETE" + " ") + ("FROM" + " ") == "DELETE FROM ";
    assert " " + "WHERE" + " " == " WHERE ";
  }

  lemma InsertWords(t: string, cols: string, vals: string)
    ensures ("INSERT INTO " + t) + " (" + cols + ")" + (" " + "VALUES") + " (" + vals + ")" == InsertSql(t, cols, vals)
  {
    assert ")" + (" " + "VALUES") + " (" == ") VALUES (";
    var a := ("INSERT INTO " + t) + " (" + cols;
    assert a + ")" + (" " + "VALUES") + " (" == a + (")" + (" " + "VALUES") + " (");
  }

  lemma DefaultsWords(e: Engine, t: string)
    ensures e.IsMysqlFamily() ==>
      ("INSERT INTO " + t) + " " + "()" + (" " + "VALUES" + " ") + "()" == InsertDefaultsSql(e, t)
    ensures !e.IsMysqlFamily() ==> ("INSERT INTO " + t) + (" " + "DEFAULT" + " ") + "VALUES" == InsertDefaultsSql(e, t)
  {
    var a := "INSERT INTO " + t;
    assert " " + "()" + (" " + "VALUES" + " ") + "()" == " () VALUES ()";
    assert a + " " + "()" + (" " + "VALUES" + " ") + "()" == a + (" " + "()" + (" " + "VALUES" + " ") + "()");
    assert (" " + "DEFAULT" + " ") + "VALUES" == " DEFAULT VALUES";
    assert a + (" " + "DEFAULT" + " ") + "VALUES" == a + ((" " + "DEFAULT" + " ") + "VALUES");
  }

  lemma UpdateText(e: Engine, schema: Option<string>, table: string, key: seq<Cell>, values: seq<Cell>)
    requires key != [] && values != []
    ensures var ps := EditPieces(e, schema, table, Update(key, values));
      && Sentence(e, ps, "UPDATE") && Flat(ps)
      && Render(ps) == UpdateSql(Qualified(e, schema, table), Sets(e, values), KeyFilter(e, key).value)
      && Word(Lower("WHERE")) in KindsOf(ps)
  {
    hide Render, KindsOf, Flat, WellFormed, IsKeyword, Qualified, Join, Joined, Assignment, KeyTerm, Ident, Lower,
      UpdateSql, QualifiedPieces;
    Keywords();
    WordParts(e, "UPDATE");
    WordParts(e, "SET");
    WordParts(e, "WHERE");
    QualifiedPart(e, schema, table);
    SetsList(e, values);
    KeysList(e, key);
    var sets, keys := Joined(SetsPieces(e, values), COMMA), Joined(KeysPieces(e, key), Padded("AND"));
    CommaList(e, SetsPieces(e, values), Map((c: Cell) => Assignment(e, c), values));
    AndList(e, KeysPieces(e, key), Map((c: Cell) => KeyTerm(e, c), key));
    var t := QualifiedPieces(e, schema, table);
    var a := Leading("UPDATE") + t;
    Attach(e, Leading("UPDATE"), t);
    Attach(e, a, Padded("SET"));
    Attach(e, a + Padded("SET"), sets);
    Attach(e, a + Padded("SET") + sets, Padded("WHERE"));
    Attach(e, a + Padded("SET") + sets + Padded("WHERE"), keys);
    UpdateWords(Render(t), Render(sets), Render(keys));
  }

  lemma DeleteText(e: Engine, schema: Option<string>, table: string, key: seq<Cell>)
    requires key != []
    ensures var ps := EditPieces(e, schema, table, Delete(key));
      && Sentence(e, ps, "DELETE") && Flat(ps)
      && Render(ps) == DeleteSql(Qualified(e, schema, table), KeyFilter(e, key).value)
      && Word(Lower("WHERE")) in KindsOf(ps)
  {
    hide Render, KindsOf, Flat, WellFormed, IsKeyword, Qualified, Join, Joined, KeyTerm, Ident, Lower, DeleteSql,
      QualifiedPieces;
    Keywords();
    WordParts(e, "DELETE");
    WordParts(e, "FROM");
    WordParts(e, "WHERE");
    QualifiedPart(e, schema, table);
    KeysList(e, key);
    var t, keys := QualifiedPieces(e, schema, table), Joined(KeysPieces(e, key), Padded("AND"));
    AndList(e, KeysPieces(e, key), Map((c: Cell) => KeyTerm(e, c), key));
    var a := Leading("DELETE") + Leading("FROM");
    Attach(e, Leading("DELETE"), Leading("FROM"));
    Attach(e, a, t);
    Attach(e, a + t, Padded("WHERE"));
    Attach(e, a + t + Padded("WHERE"), keys);
    DeleteWords(Render(t), Render(keys));
  }

  lemma InsertNothingText(e: Engine, schema: Option<string>, table: string)
    ensures var ps := EditPieces(e, schema, table, Insert([]));
      Sentence(e, ps, "INSERT") && Render(ps) == InsertDefaultsSql(e, Qualified(e, schema, table))
  {
    hide Render, KindsOf, Flat, WellFormed, IsKeyword, Qualified, InsertHead, InsertDefaultsSql;
    Keywords();
    InsertHeadPart(e, schema, table);
    DefaultsWords(e, Qualified(e, schema, table));
    var a := InsertHead(e, schema, table);
    if e.IsMysqlFamily() {
      SpacePart(e);
      ListParts(e);
      WordParts(e, "VALUES");
      Attach(e, a, [Sp(' ')]);
      Attach(e, a + [Sp(' ')], EMPTY_LIST);
      Attach(e, a + [Sp(' ')] + EMPTY_LIST, Padded("VALUES"));
      Attach(e, a + [Sp(' ')] + EMPTY_LIST + Padded("VALUES"), EMPTY_LIST);
    } else {
      WordParts(e, "DEFAULT");
      WordPart(e, "VALUES");
      Attach(e, a, Padded("DEFAULT"));
      Attach(e, a + Padded("DEFAULT"), [Kw("VALUES")]);
    }
  }

  lemma InsertText(e: Engine, schema: Option<string>, table: string, values: seq<Cell>)
    requires values != []
    ensures var ps := EditPieces(e, schema, table, Insert(values));
      Sentence(e, ps, "INSERT") && Render(ps) ==
        InsertSql(Qualified(e, schema, table), Names(e, values), Values(e, values))
  {
    hide Render, KindsOf, Flat, WellFormed, IsKeyword, Qualified, InsertHead, Join, Joined, Literal, Ident, InsertSql;
    Keywords();
    InsertHeadPart(e, schema, table);
    ListParts(e);
    WordParts(e, "VALUES");
    NamesList(e, values);
    LiteralsList(e, values);
    CommaList(e, NamesPieces(e, values), Map((c: Cell) => Ident(e, c.column), values));
    CommaList(e, LiteralsPieces(e, values), Map((c: Cell) => Literal(e, c.value), values));
    var cols, vals := Joined(NamesPieces(e, values), COMMA), Joined(LiteralsPieces(e, values), COMMA);
    var a := InsertHead(e, schema, table);
    Attach(e, a, OPEN_LIST);
    Attach(e, a + OPEN_LIST, cols);
    var b := a + OPEN_LIST + cols;
    Attach(e, b, CLOSE_LIST);
    Attach(e, b + CLOSE_LIST, Trailing("VALUES"));
    Attach(e, b + CLOSE_LIST + Trailing("VALUES"), OPEN_LIST);
    var c := b + CLOSE_LIST + Trailing("VALUES") + OPEN_LIST;
    Attach(e, c, vals);
    Attach(e, c + vals, CLOSE_LIST);
    InsertWords(Qualified(e, schema, table), Render(cols), Render(vals));
  }

  /** The first keyword of an edit. */
  function Verb(edit: RowEdit): string {
    match edit
    case Update(_, _) => "UPDATE"
    case Insert(_) => "INSERT"
    case Delete(_) => "DELETE"
  }

  lemma EditText(e: Engine, schema: Option<string>, table: string, edit: RowEdit)
    requires EditSql(e, schema, table, edit).Ok?
    ensures var ps := EditPieces(e, schema, table, edit);
      && Sentence(e, ps, Verb(edit)) && Render(ps) == EditSql(e, schema, table, edit).value
      && (edit.Insert? || (Flat(ps) && Word(Lower("WHERE")) in KindsOf(ps)))
  {
    hide EditPieces, Sentence, Flat, KindsOf, Render, Qualified, Join, Sets, Names, Values, UpdateSql, InsertSql,
      InsertDefaultsSql, DeleteSql;
    match edit
    case Update(key, values) => UpdateText(e, schema, table, key, values);
    case Delete(key) => DeleteText(e, schema, table, key);
    case Insert(values) =>
      if values == [] {
        InsertNothingText(e, schema, table);
      } else {
        InsertText(e, schema, table, values);
      }
  }

  // ------------------------------------------------------------------ one statement

  predicate NoCutter(ks: seq<Tok>) {
    forall i :: 0 <= i < |ks| ==> !ks[i].End? && !ks[i].Go? && !ks[i].Delimiter?
  }

  lemma {:induction false} NoEndKinds(ps: seq<Piece>)
    requires NoEnd(ps)
    ensures NoCutter(KindsOf(ps))
  {
    if ps != [] {
      assert forall i :: 0 <= i < |ps[1..]| ==> ps[1..][i] == ps[i + 1];
      NoEndKinds(ps[1..]);
    }
  }

  lemma {:induction false} NoCutterNeverCuts(e: Engine, ks: seq<Tok>, tail: seq<Tok>, flow: Flow)
    requires NoCutter(ks)
    ensures NeverCuts(e, ks, tail, flow)
  {
    hide Advance, LoopAhead;
    if ks != [] {
      NoCutterNeverCuts(e, ks[1..], tail, Advance(e, flow, ks[0], LoopAhead(ks[1..] + tail)));
    }
  }

  lemma {:induction false} RenderEnds(e: Engine, ps: seq<Piece>)
    requires Part(e, ps) && Firm(ps)
    ensures Render(ps) != "" && !IsTrimSpace(Render(ps)[|Render(ps)| - 1])
  {
    TextEnd(e, ps[0]);
    if |ps| == 1 {
      OneRender(ps[0]);
      assert ps == [ps[0]];
    } else {
      assert forall i :: 0 <= i < |ps[1..]| ==> ps[1..][i] == ps[i + 1];
      RenderEnds(e, ps[1..]);
    }
  }

  lemma OneRender(p: Piece)
    ensures Render([p]) == Text(p)
  {
    assert Render([p][1..]) == "";
  }

  lemma TextEnd(e: Engine, p: Piece)
    requires PieceOk(e, p) && !p.GoLine?
    ensures Text(p) != "" && (!p.Sp? ==> !IsTrimSpace(Text(p)[0]) && !IsTrimSpace(Text(p)[|Text(p)| - 1]))
  {
    if p.Kw? {
      assert p.word[|p.word| - 1] in p.word;
    }
  }

  lemma FirstKind(ps: seq<Piece>, w: string)
    requires ps != [] && ps[0] == Kw(w)
    ensures KindsOf(ps) != [] && KindsOf(ps)[0] == Word(Lower(w))
  {
  }

  /** A printed sentence, on any engine, splits to exactly itself. */
  lemma SentenceSplits(e: Engine, ps: seq<Piece>, w: string)
    requires Sentence(e, ps, w)
    ensures Split(e, Render(ps)) == [Render(ps)] && LexKinds(e, Render(ps)) == KindsOf(ps)
  {
    hide Split, Lex, Render, KindsOf, NeverCuts, NoCutter, WellFormed, HasWord;
    RenderKinds(e, ps);
    RenderEnds(e, ps);
    SentenceStart(e, ps, w);
    NoEndKinds(ps);
    NoCutterNeverCuts(e, KindsOf(ps), [], FRESH);
    FirstKind(ps, w);
    LexHasWord(e, Render(ps));
    SplitWhole(e, Render(ps));
  }

  lemma LexHasWord(e: Engine, s: string)
    requires LexKinds(e, s) != [] && LexKinds(e, s)[0].Word?
    ensures HasWord(Lex(e, s, 0, INITIAL))
  {
    hide Lex;
    KindsAt(Lex(e, s, 0, INITIAL));
    assert Lex(e, s, 0, INITIAL)[0].tok.Word?;
  }

  lemma SentenceStart(e: Engine, ps: seq<Piece>, w: string)
    requires Sentence(e, ps, w)
    ensures Render(ps) != "" && !IsTrimSpace(Render(ps)[0])
  {
    TextEnd(e, ps[0]);
    assert Render(ps)[0] == Text(ps[0])[0];
  }

  // ------------------------------------------------------------------ an ordinary write

  lemma TopFirst(ks: seq<Tok>, w: string)
    requires ks != [] && ks[0] == Word(w)
    ensures TopWords(ks, 0) != [] && TopWords(ks, 0)[0] == w
  {
  }

  lemma {:induction false} TopFlat(ks: seq<Tok>, w: string)
    requires Word(w) in ks && Open !in ks && Close !in ks
    ensures w in TopWords(ks, 0)
  {
    if ks[0] != Word(w) {
      assert Word(w) in ks[1..];
      TopFlat(ks[1..], w);
    }
  }

  lemma {:induction false} FlatKinds(ps: seq<Piece>)
    requires Flat(ps)
    ensures Open !in KindsOf(ps) && Close !in KindsOf(ps)
  {
    if ps != [] {
      assert forall i :: 0 <= i < |ps[1..]| ==> ps[1..][i] == ps[i + 1];
      FlatKinds(ps[1..]);
    }
  }

  lemma ClassifyFiltered(e: Engine, sql: string)
    requires var words := TopWords(LexKinds(e, sql), 0);
      words != [] && (words[0] == "update" || words[0] == "delete") && "where" in words
    ensures Classify(e, sql) == Write
  {
    hide LexKinds, TopWords;
  }

  lemma ClassifyInsert(e: Engine, sql: string)
    requires var words := TopWords(LexKinds(e, sql), 0); words != [] && words[0] == "insert"
    ensures Classify(e, sql) == Write
  {
    hide LexKinds, TopWords;
  }

  /** Whatever its names and values hold, an edit is one statement and an ordinary write. */
  lemma EditIsOneWrite(e: Engine, schema: Option<string>, table: string, edit: RowEdit)
    requires EditSql(e, schema, table, edit).Ok?
    ensures var sql := EditSql(e, schema, table, edit).value; Split(e, sql) == [sql] && Classify(e, sql) == Write
  {
    hide Split, Lex, Render, KindsOf, Sentence, EditSql, EditPieces, Flat, Classify, TopWords, LexKinds, Lower;
    EditText(e, schema, table, edit);
    var ps, sql := EditPieces(e, schema, table, edit), EditSql(e, schema, table, edit).value;
    SentenceSplits(e, ps, Verb(edit));
    SentenceVerb(e, ps, Verb(edit));
    FirstKind(ps, Verb(edit));
    LowerUPDATE();
    LowerINSERT();
    LowerDELETE();
    LowerWHERE();
    match edit
    case Insert(_) =>
      TopFirst(KindsOf(ps), "insert");
      ClassifyInsert(e, sql);
    case _ =>
      FlatKinds(ps);
      TopFirst(KindsOf(ps), if edit.Update? then "update" else "delete");
      TopFlat(KindsOf(ps), "where");
      ClassifyFiltered(e, sql);
  }

  lemma SentenceVerb(e: Engine, ps: seq<Piece>, w: string)
    requires Sentence(e, ps, w)
    ensures ps != [] && ps[0] == Kw(w)
  {
  }

  predicate Nameable(edit: RowEdit) {
    match edit
    case Update(key, values) => key != [] && values != []
    case Insert(_) => true
    case Delete(key) => key != []
  }

  /**
   Row edits are written exactly when every edit can name its row and changes
   something; then there is one statement an edit, each one splits to exactly
   itself and each is an ordinary write.
   */
  lemma {:induction false} RowEditsAreWrites(e: Engine, schema: Option<string>, table: string, edits: seq<RowEdit>)
    ensures RowEdits(e, schema, table, edits).Ok? <==> forall i :: 0 <= i < |edits| ==> Nameable(edits[i])
    ensures RowEdits(e, schema, table, edits).Ok? ==>
      var sqls := RowEdits(e, schema, table, edits).value;
      && |sqls| == |edits|
      && forall i :: 0 <= i < |sqls| ==> Split(e, sqls[i]) == [sqls[i]] && Classify(e, sqls[i]) == Write
  {
    hide Split, Classify, EditSql;
    if edits != [] {
      EditOk(e, schema, table, edits[0]);
      RowEditsAreWrites(e, schema, table, edits[1..]);
      assert forall i :: 0 <= i < |edits[1..]| ==> edits[1..][i] == edits[i + 1];
      if EditSql(e, schema, table, edits[0]).Ok? {
        EditIsOneWrite(e, schema, table, edits[0]);
      }
    }
  }

  lemma EditOk(e: Engine, schema: Option<string>, table: string, edit: RowEdit)
    ensures EditSql(e, schema, table, edit).Ok? <==> Nameable(edit)
  {
    hide Join, Qualified, Map, Sets, Names, Values, UpdateSql, InsertSql, InsertDefaultsSql, DeleteSql;
  }
}
