/**
 A database's reading of an INSERT: its own lexing of names, strings and binary
 literals, written independently of the code that prints them.
 */
module SqlReader {
  import opened Prelude
  import opened Engines
  import opened Guard
  import opened Dialect
  import opened SqlText
  import opened SqlPrinting
  import opened RowEditText

  type Value = Option<string>
  type Row = seq<Value>

  /** What a database holds in a cell: nothing, something it shows as text, or bytes, here in hexadecimal. */
  datatype Stored = Nothing | Words(text: string) | Bytes(hex: string)

  datatype Token = Token(tok: Tok, text: string)

  /** The text a lexeme covers; one that lies outside the statement covers none. */
  function TextOf(sql: string, l: Lexeme): string {
    if l.pos <= l.stop <= |sql| then sql[l.pos..l.stop] else ""
  }

  function TokenTexts(sql: string, toks: seq<Lexeme>): seq<Token> {
    if toks == [] then [] else [Token(toks[0].tok, TextOf(sql, toks[0]))] + TokenTexts(sql, toks[1..])
  }

  /** The tokens of a statement with their texts. */
  function Tokens(e: Engine, sql: string): seq<Token> {
    TokenTexts(sql, Lex(e, sql, 0, INITIAL))
  }

  // ------------------------------------------------------------------ names and strings

  /** The body of a quoted name: a doubled quote stands for one. */
  function Undoubled(s: string, q: char): string
    decreases |s|
  {
    if s == "" then ""
    else if s[0] == q && |s| > 1 && s[1] == q then [q] + Undoubled(s[2..], q)
    else [s[0]] + Undoubled(s[1..], q)
  }

  /** MySQL's escape sequences inside a string; `\%` and `\_` keep their backslash. */
  function MysqlEscape(c: char): string {
    match c
    case 'n' => "\n"
    case 't' => "\t"
    case 'r' => "\r"
    case '0' => [0 as char]
    case 'b' => [8 as char]
    case 'Z' => [26 as char]
    case '%' => "\\%"
    case '_' => "\\_"
    case _ => [c]
  }

  /** The value of a string literal's body. */
  function StringValue(s: string, backslash: bool): string
    decreases |s|
  {
    if s == "" then ""
    else if backslash && s[0] == '\\' && |s| > 1 then MysqlEscape(s[1]) + StringValue(s[2..], backslash)
    else if s[0] == '\'' && |s| > 1 && s[1] == '\'' then "'" + StringValue(s[2..], backslash)
    else [s[0]] + StringValue(s[1..], backslash)
  }

  function Inside(text: string): string {
    if |text| < 2 then "" else text[1..|text| - 1]
  }

  function ReadName(e: Engine, t: Token): Option<string> {
    if t.tok.Other? && t.text != "" && t.text[0] == OpenQuote(e)
    then Some(Undoubled(Inside(t.text), CloseQuote(e))) else None
  }

  function ReadString(e: Engine, t: Token): Option<string> {
    if t.tok.Other? && t.text != "" && t.text[0] == '\''
    then Some(StringValue(Inside(t.text), e.IsMysqlFamily())) else None
  }

  // ------------------------------------------------------------------ lists

  datatype Parsed<T> = Parsed(value: T, rest: seq<Token>)

  predicate IsWord(ts: seq<Token>, w: string) {
    ts != [] && ts[0].tok == Word(w)
  }

  predicate IsSign(ts: seq<Token>, text: string) {
    ts != [] && ts[0].text == text
  }

  /** Whole bytes, two digits each. */
  predicate IsHex(s: string) {
    |s| % 2 == 0 && forall c :: c in s ==> IsDigit(c) || 'a' <= c <= 'f'
  }

  /** The digits of a binary literal: `X'...'` on SQLite, `0x...` on MySQL, where there must be some, and SQL Server. */
  function ReadBytes(e: Engine, ts: seq<Token>): Option<string> {
    if |ts| < 2 then None
    else if e.Sqlite? && ts[0].tok == Word("x") && ts[1].tok.Other? && ts[1].text != "" && ts[1].text[0] == '\''
      && IsHex(Inside(ts[1].text)) then Some(Inside(ts[1].text))
    else if (e.IsMysqlFamily() || e.Mssql?) && ts[0].text == "0" && ts[1].tok.Word? && ts[1].text != ""
      && ts[1].text[0] == 'x' && IsHex(ts[1].text[1..]) && (e.Mssql? || |ts[1].text| > 1) then Some(ts[1].text[1..])
    else None
  }

  /** One value: NULL, a binary literal, a string, or SQL Server's `N'...'`. */
  function ReadValue(e: Engine, ts: seq<Token>): (r: Option<Parsed<Stored>>)
    ensures r.Some? ==> |r.value.rest| < |ts|
  {
    if ts == [] then None
    else if ts[0].tok == Word("null") then Some(Parsed(Nothing, ts[1..]))
    else if ReadBytes(e, ts).Some? then Some(Parsed(Bytes(ReadBytes(e, ts).value), ts[2..]))
    else if e.Mssql? && ts[0].tok == Word("n") && |ts| > 1 && ReadString(e, ts[1]).Some? then
      Some(Parsed(Words(ReadString(e, ts[1]).value), ts[2..]))
    else if ReadString(e, ts[0]).Some? then Some(Parsed(Words(ReadString(e, ts[0]).value), ts[1..]))
    else None
  }

  /** Values up to the closing parenthesis. */
  function ReadValues(e: Engine, ts: seq<Token>): (r: Option<Parsed<seq<Stored>>>)
    ensures r.Some? ==> |r.value.rest| < |ts|
    decreases |ts|
  {
    match ReadValue(e, ts)
    case None => None
    case Some(v) =>
      if IsSign(v.rest, ")") then Some(Parsed([v.value], v.rest[1..]))
      else if IsSign(v.rest, ",") then
        match ReadValues(e, v.rest[1..])
        case None => None
        case Some(vs) => Some(Parsed([v.value] + vs.value, vs.rest))
      else None
  }

  function ReadNames(e: Engine, ts: seq<Token>): (r: Option<Parsed<seq<string>>>)
    ensures r.Some? ==> |r.value.rest| < |ts|
    decreases |ts|
  {
    if ts == [] || ReadName(e, ts[0]).None? then None
    else
      var name, rest := ReadName(e, ts[0]).value, ts[1..];
      if IsSign(rest, ")") then Some(Parsed([name], rest[1..]))
      else if IsSign(rest, ",") then
        match ReadNames(e, rest[1..])
        case None => None
        case Some(ns) => Some(Parsed([name] + ns.value, ns.rest))
      else None
  }

  /** Parenthesised rows to the end of the statement. */
  function ReadRows(e: Engine, ts: seq<Token>): Option<seq<seq<Stored>>>
    decreases |ts|
  {
    if !IsSign(ts, "(") then None
    else
      match ReadValues(e, ts[1..])
      case None => None
      case Some(row) =>
        if row.rest == [] then Some([row.value])
        else if IsSign(row.rest, ",") then
          match ReadRows(e, row.rest[1..])
          case None => None
          case Some(rows) => Some([row.value] + rows)
        else None
  }

  /** An INSERT as a database understands it. */
  datatype Insertion = Insertion(schema: Option<string>, table: string, columns: seq<string>,
    rows: seq<seq<Stored>>)

  function ReadTable(e: Engine, ts: seq<Token>): Option<Parsed<(Option<string>, string)>> {
    if ts == [] || ReadName(e, ts[0]).None? then None
    else if |ts| > 2 && ts[1].text == "." && ReadName(e, ts[2]).Some? then
      Some(Parsed((Some(ReadName(e, ts[0]).value), ReadName(e, ts[2]).value), ts[3..]))
    else Some(Parsed((None, ReadName(e, ts[0]).value), ts[1..]))
  }

  function ReadInsert(e: Engine, ts: seq<Token>): Option<Insertion> {
    if !IsWord(ts, "insert") || !IsWord(ts[1..], "into") then None
    else
      match ReadTable(e, ts[2..])
      case None => None
      case Some(t) =>
        if !IsSign(t.rest, "(") then None
        else
          match ReadNames(e, t.rest[1..])
          case None => None
          case Some(names) =>
            if !IsWord(names.rest, "values") then None
            else
              match ReadRows(e, names.rest[1..])
              case None => None
              case Some(rows) => Some(Insertion(t.value.0, t.value.1, names.value, rows))
  }

  // ------------------------------------------------------------------ reading back what was printed

  function TokensOf(ps: seq<Piece>): seq<Token> {
    if ps == [] then []
    else (if ps[0].Sp? || ps[0].GoLine? then [] else [Token(KindOf(ps[0])[0], Text(ps[0]))]) + TokensOf(ps[1..])
  }

  lemma {:induction false} TokensOfAppend(a: seq<Piece>, b: seq<Piece>)
    ensures TokensOf(a + b) == TokensOf(a) + TokensOf(b)
  {
    hide Text, KindOf;
    if a == [] {
      assert a + b == b;
    } else {
      assert (a + b)[1..] == a[1..] + b;
      TokensOfAppend(a[1..], b);
    }
  }

  lemma PrintedAt(sql: string, base: nat, t: string, rest: string)
    requires base <= |sql| && sql[base..] == t + rest
    ensures base + |t| <= |sql| && sql[base..base + |t|] == t && sql[base + |t|..] == rest
  {
    assert sql[base..][..|t|] == sql[base..base + |t|] && sql[base..][|t|..] == sql[base + |t|..];
  }

  predicate NoGoLine(ps: seq<Piece>) {
    forall i :: 0 <= i < |ps| ==> !ps[i].GoLine?
  }

  lemma NoGoCons(ps: seq<Piece>)
    requires ps != [] && NoGoLine(ps)
    ensures !ps[0].GoLine? && NoGoLine(ps[1..])
  {
  }

  lemma TokensOfCons(ps: seq<Piece>)
    requires ps != [] && !ps[0].GoLine?
    ensures TokensOf(ps) == (if ps[0].Sp? then [] else [Token(KindOf(ps[0])[0], Text(ps[0]))]) + TokensOf(ps[1..])
  {
    hide Text, KindOf;
  }

  lemma {:induction false} PrintedTokens(sql: string, ps: seq<Piece>, base: nat)
    requires base <= |sql| && sql[base..] == Render(ps) && NoGoLine(ps)
    ensures TokenTexts(sql, LexOfAll(ps, base)) == TokensOf(ps)
  {
    if ps != [] {
      hide Text, KindOf, Render, LexOfAll, LexOf, TokenTexts, TokensOf, NoGoLine;
      NoGoCons(ps);
      RenderCons(ps);
      PrintedAt(sql, base, Text(ps[0]), Render(ps[1..]));
      PrintedTokens(sql, ps[1..], base + |Text(ps[0])|);
      LexOfAllCons(ps, base);
      TokenTextsCons(sql, LexOf(ps[0], base), LexOfAll(ps[1..], base + |Text(ps[0])|));
      LexOfText(sql, ps[0], base);
      TokensOfCons(ps);
    }
  }

  lemma LexOfAllCons(ps: seq<Piece>, base: nat)
    requires ps != []
    ensures LexOfAll(ps, base) == LexOf(ps[0], base) + LexOfAll(ps[1..], base + |Text(ps[0])|)
    ensures |LexOf(ps[0], base)| <= 1
  {
    hide Text;
  }

  lemma TokenTextsCons(sql: string, a: seq<Lexeme>, b: seq<Lexeme>)
    requires |a| <= 1
    ensures TokenTexts(sql, a + b) == TokenTexts(sql, a) + TokenTexts(sql, b)
  {
    hide TextOf;
    if a == [] {
      assert a + b == b;
    } else {
      assert (a + b)[1..] == b && a[1..] == [];
    }
  }

  lemma LexOfText(sql: string, p: Piece, base: nat)
    requires base + |Text(p)| <= |sql| && sql[base..base + |Text(p)|] == Text(p) && !p.GoLine?
    ensures TokenTexts(sql, LexOf(p, base)) == if p.Sp? then [] else [Token(KindOf(p)[0], Text(p))]
  {
    hide Text, Lower;
    if !p.Sp? {
      var l := LexOf(p, base);
      assert l == [Lexeme(base, KindOf(p)[0], base + |Text(p)|)] && l[1..] == [];
      assert TextOf(sql, l[0]) == Text(p);
    }
  }

  lemma RenderCons(ps: seq<Piece>)
    requires ps != []
    ensures Render(ps) == Text(ps[0]) + Render(ps[1..])
  {
  }

  /** A printed statement is read as its own pieces. */
  lemma ReadPrinted(e: Engine, ps: seq<Piece>)
    requires Part(e, ps)
    ensures Tokens(e, Render(ps)) == TokensOf(ps)
  {
    hide Lex, LexOfAll, Render, WellFormed, TokensOf, TokenTexts;
    var sql := Render(ps);
    LexRender(e, ps, "", 0, INITIAL);
    assert sql + "" == sql;
    LexNothing(e, |sql|, AfterAll(ps, INITIAL));
    assert LexOfAll(ps, 0) + [] == LexOfAll(ps, 0);
    assert sql[0..] == sql;
    PrintedTokens(sql, ps, 0);
  }

  lemma {:induction false} UndoubledDoubled(s: string, q: char)
    ensures Undoubled(Doubled(s, q), q) == s
  {
    if s != "" {
      UndoubledDoubled(s[1..], q);
      var d, rest := Doubled(s, q), Doubled(s[1..], q);
      if s[0] == q {
        assert d[2..] == rest;
      } else {
        assert d[1..] == rest;
      }
      assert [s[0]] + s[1..] == s;
    }
  }

  lemma {:induction false} StringValueBack(e: Engine, v: string)
    ensures StringValue(LiteralBody(e, v), e.IsMysqlFamily()) == v
  {
    if v != "" {
      StringValueBack(e, v[1..]);
      var d, rest := LiteralBody(e, v), LiteralBody(e, v[1..]);
      EscapedStep(v);
      if v[0] == '\'' || (e.IsMysqlFamily() && v[0] == '\\') {
        assert d[2..] == rest;
      } else {
        assert d[1..] == rest;
      }
      assert [v[0]] + v[1..] == v;
    }
  }

  lemma NameReadsBack(e: Engine, name: string)
    ensures TokensOf([NamePiece(e, name)]) == [Token(Other, Ident(e, name))]
    ensures ReadName(e, Token(Other, Ident(e, name))) == Some(name)
  {
    hide Doubled, Undoubled;
    UndoubledDoubled(name, CloseQuote(e));
    var ps := [NamePiece(e, name)];
    assert ps[1..] == [];
    assert Inside(Ident(e, name)) == Doubled(name, CloseQuote(e));
  }
}
