/** The names, values and row edits of the dialect, as well-formed piece lists. */
module SqlPrinting {
  import opened Prelude
  import opened Engines
  import opened Guard
  import opened Dialect
  import opened SqlText

  // ------------------------------------------------------------------ names and values

  lemma {:induction false} DoubledSealed(s: string, q: char)
    ensures Sealed(Doubled(s, q), q, false)
  {
    if s != "" {
      DoubledSealed(s[1..], q);
      var d, rest := Doubled(s, q), Doubled(s[1..], q);
      if s[0] == q {
        assert d[2..] == rest;
      } else {
        assert d[1..] == rest;
      }
    }
  }

  /** With backslashes doubled first, quotes doubled second, neither can break out of a MySQL literal. */
  lemma {:induction false} EscapedSealed(v: string)
    ensures Sealed(Doubled(Doubled(v, '\\'), '\''), '\'', true)
  {
    if v != "" {
      EscapedSealed(v[1..]);
      EscapedStep(v);
      var d, rest := Doubled(Doubled(v, '\\'), '\''), Doubled(Doubled(v[1..], '\\'), '\'');
      if v[0] == '\\' || v[0] == '\'' {
        assert d[2..] == rest;
      } else {
        assert d[1..] == rest;
      }
    }
  }

  lemma DoubledCons(c: char, rest: string, q: char)
    ensures Doubled([c] + rest, q) == (if c == q then [q, q] else [c]) + Doubled(rest, q)
  {
    assert ([c] + rest)[1..] == rest;
  }

  /** The two replacements, taken one character at a time. */
  lemma EscapedStep(v: string)
    requires v != ""
    ensures Doubled(Doubled(v, '\\'), '\'')
      == (if v[0] == '\\' || v[0] == '\'' then [v[0], v[0]] else [v[0]]) + Doubled(Doubled(v[1..], '\\'), '\'')
  {
    hide Doubled;
    var rest := Doubled(v[1..], '\\');
    assert v == [v[0]] + v[1..];
    DoubledCons(v[0], v[1..], '\\');
    DoubledCons(v[0], rest, '\'');
    if v[0] == '\\' {
      DoubledCons('\\', ['\\'] + rest, '\'');
      assert ['\\', '\\'] + rest == ['\\'] + (['\\'] + rest);
    }
  }

  function NamePiece(e: Engine, name: string): Piece {
    Quoted(OpenQuote(e), Doubled(name, CloseQuote(e)), CloseQuote(e))
  }

  function QualifiedPieces(e: Engine, schema: Option<string>, table: string): seq<Piece> {
    if schema.Some? && schema.value != ""
    then [NamePiece(e, schema.value), Sym('.'), NamePiece(e, table)]
    else [NamePiece(e, table)]
  }

  function StringPiece(e: Engine, v: string): Piece {
    Quoted('\'', LiteralBody(e, v), '\'')
  }

  function LiteralPieces(e: Engine, value: Option<string>): seq<Piece> {
    if value.None? then [Kw("NULL")]
    else if e.Mssql? then [Kw("N"), StringPiece(e, value.value)]
    else [StringPiece(e, value.value)]
  }

  lemma NameOk(e: Engine, name: string)
    ensures PieceOk(e, NamePiece(e, name)) && Text(NamePiece(e, name)) == Ident(e, name)
  {
    DoubledSealed(name, CloseQuote(e));
  }

  lemma StringOk(e: Engine, v: string)
    ensures PieceOk(e, StringPiece(e, v)) && Text(StringPiece(e, v)) == "'" + LiteralBody(e, v) + "'"
  {
    if e.IsMysqlFamily() {
      EscapedSealed(v);
    } else {
      DoubledSealed(v, '\'');
    }
  }

  // Each keyword on its own: what it is, and its lower-case spelling.

  lemma Keywords1()
    ensures IsKeyword("UPDATE") && IsKeyword("SET") && IsKeyword("WHERE") && IsKeyword("INSERT")
  {
    hide Lower;
  }

  lemma Keywords2()
    ensures IsKeyword("INTO") && IsKeyword("VALUES") && IsKeyword("DEFAULT") && IsKeyword("DELETE")
  {
    hide Lower;
  }

  lemma Keywords3()
    ensures IsKeyword("FROM") && IsKeyword("AND") && IsKeyword("IS") && IsKeyword("NULL")
  {
    hide Lower;
  }

  lemma Keywords4()
    ensures IsKeyword("N") && IsKeyword("IDENTITY_INSERT") && IsKeyword("ON") && IsKeyword("OFF")
  {
    hide Lower;
  }

  lemma Keywords()
    ensures IsKeyword("UPDATE") && IsKeyword("SET") && IsKeyword("WHERE") && IsKeyword("INSERT")
    ensures IsKeyword("INTO") && IsKeyword("VALUES") && IsKeyword("DEFAULT") && IsKeyword("DELETE")
    ensures IsKeyword("FROM") && IsKeyword("AND") && IsKeyword("IS") && IsKeyword("NULL")
    ensures IsKeyword("N") && IsKeyword("IDENTITY_INSERT") && IsKeyword("ON") && IsKeyword("OFF")
  {
    hide IsKeyword;
    Keywords1();
    Keywords2();
    Keywords3();
    Keywords4();
  }

  lemma LowerUPDATE()
    ensures Lower("UPDATE") == "update"
  {
    hide Lower;
    LowerIs("UPDATE", "update");
  }

  lemma LowerSET()
    ensures Lower("SET") == "set"
  {
    hide Lower;
    LowerIs("SET", "set");
  }

  lemma LowerWHERE()
    ensures Lower("WHERE") == "where"
  {
    hide Lower;
    LowerIs("WHERE", "where");
  }

  lemma LowerINSERT()
    ensures Lower("INSERT") == "insert"
  {
    hide Lower;
    LowerIs("INSERT", "insert");
  }

  lemma LowerINTO()
    ensures Lower("INTO") == "into"
  {
    hide Lower;
    LowerIs("INTO", "into");
  }

  lemma LowerVALUES()
    ensures Lower("VALUES") == "values"
  {
    hide Lower;
    LowerIs("VALUES", "values");
  }

  lemma LowerDELETE()
    ensures Lower("DELETE") == "delete"
  {
    hide Lower;
    LowerIs("DELETE", "delete");
  }

  lemma LowerNULL()
    ensures Lower("NULL") == "null"
  {
    hide Lower;
    LowerIs("NULL", "null");
  }

  lemma LowerN()
    ensures Lower("N") == "n"
  {
    hide Lower;
    LowerIs("N", "n");
  }
}
