/** Printing rows as CSV and parsing it (section 2 of RFC 4180). */
module Csv {
  import opened Prelude

  const BOM: char := '\U{FEFF}'
  const QUOTE: char := '"'

  datatype CsvError = NeverEnds(line: nat)

  // ------------------------------------------------------------------ printing

  predicate NeedsQuotes(f: string, d: char) {
    d in f || QUOTE in f || '\n' in f || '\r' in f || (f != "" && (f[0] == ' ' || f[|f| - 1] == ' '))
  }

  function DoubleQuotes(f: string): string {
    if f == "" then "" else (if f[0] == QUOTE then [QUOTE, QUOTE] else [f[0]]) + DoubleQuotes(f[1..])
  }

  function FieldText(f: string, d: char): string {
    if NeedsQuotes(f, d) then [QUOTE] + DoubleQuotes(f) + [QUOTE] else f
  }

  function FieldOf(f: Option<string>): string {
    if f.Some? then f.value else ""
  }

  /** One line, without a line break. */
  function Cells(fields: seq<Option<string>>, d: char): string {
    Join(Texts(fields, d), [d])
  }

  function Line(fields: seq<Option<string>>, d: char): string {
    Cells(fields, d) + "\r\n"
  }

  function Texts(fields: seq<Option<string>>, d: char): seq<string> {
    if fields == [] then [] else [FieldText(FieldOf(fields[0]), d)] + Texts(fields[1..], d)
  }

  function Present(row: seq<string>): seq<Option<string>> {
    if row == [] then [] else [Some(row[0])] + Present(row[1..])
  }

  function PrintAll(rows: seq<seq<string>>, d: char): string {
    if rows == [] then "" else Line(Present(rows[0]), d) + PrintAll(rows[1..], d)
  }

  // ------------------------------------------------------------------ parsing

  datatype State = State(rows: seq<seq<string>>, row: seq<string>, field: string, quoted: bool, start: bool, line: nat)

  const INITIAL := State([], [], "", false, true, 1)

  /** A row with one empty field is an empty line. */
  predicate Blank(row: seq<string>) {
    |row| == 1 && row[0] == ""
  }

  function EndRow(st: State): State {
    var row := st.row + [st.field];
    st.(rows := if Blank(row) then st.rows
      else st.rows + [row], row := [], field := "", start := true, line := st.line + 1)
  }

  /** The next character (two, for a doubled quote) and the state after it. */
  function Take(s: string, st: State, d: char): (r: (State, nat))
    requires s != ""
    ensures 1 <= r.1 <= |s|
  {
    var c := s[0];
    var more := |s| > 1;
    if st.quoted then
      if c == QUOTE && more && s[1] == QUOTE then (st.(field := st.field + [QUOTE]), 2)
      else if c == QUOTE then (st.(quoted := false), 1)
      else (st.(field := st.field + [c], line := if c == '\n' then st.line + 1 else st.line), 1)
    else if c == QUOTE && st.start then (st.(quoted := true, start := false), 1)
    else if c == d then (st.(row := st.row + [st.field], field := "", start := true), 1)
    else if c == '\r' && more && s[1] == '\n' then (st, 1)
    else if c == '\n' || c == '\r' then (EndRow(st), 1)
    else (st.(field := st.field + [c], start := false), 1)
  }

  function Scan(s: string, st: State, d: char): State
    decreases |s|
  {
    if s == "" then st
    else
      var r := Take(s, st, d);
      Scan(s[r.1..], r.0, d)
  }

  function Finish(st: State): Result<seq<seq<string>>, CsvError> {
    if st.quoted then Err(NeverEnds(st.line))
    else if st.field != "" || st.row != [] then Ok(st.rows + [st.row + [st.field]])
    else Ok(st.rows)
  }

  function WithoutBom(text: string): string {
    if text != "" && text[0] == BOM then text[1..] else text
  }

  function ParseText(text: string, d: char): Result<seq<seq<string>>, CsvError> {
    Finish(Scan(WithoutBom(text), INITIAL, d))
  }

  /** The parser's loop, one character at a time. */
  method Parse(text: string, d: char) returns (r: Result<seq<seq<string>>, CsvError>)
    ensures r == ParseText(text, d)
  {
    var s := WithoutBom(text);
    var rows: seq<seq<string>> := [];
    var row: seq<string> := [];
    var field := "";
    var quoted, start, line := false, true, 1;
    var i := 0;
    while i < |s|
      invariant 0 <= i <= |s|
      invariant Scan(s, INITIAL, d) == Scan(s[i..], State(rows, row, field, quoted, start, line), d)
    {
      var c := s[i];
      ghost var rest := s[i..];
      ghost var st := State(rows, row, field, quoted, start, line);
      ghost var eaten := Take(rest, st, d).1;
      assert rest[1..] == s[i + 1..] && rest[0] == c;
      assert i + 1 < |s| ==> rest[1] == s[i + 1] && rest[2..] == s[i + 2..];
      i := i + 1;
      if quoted {
        if c == QUOTE && i < |s| && s[i] == QUOTE {
          i := i + 1;
          field := field + [QUOTE];
        } else if c == QUOTE {
          quoted := false;
        } else {
          if c == '\n' {
            line := line + 1;
          }
          field := field + [c];
        }
      } else if c == QUOTE && start {
        quoted, start := true, false;
      } else if c == d {
        row := row + [field];
        field, start := "", true;
      } else if c == '\r' && i < |s| && s[i] == '\n' {
      } else if c == '\n' || c == '\r' {
        line := line + 1;
        row := row + [field];
        field := "";
        if !(|row| == 1 && row[0] == "") {
          rows := rows + [row];
        }
        row, start := [], true;
      } else {
        field := field + [c];
        start := false;
      }
      assert Take(rest, st, d).0 == State(rows, row, field, quoted, start, line);
    }
    assert s[i..] == "";
    if quoted {
      return Err(NeverEnds(line));
    }
    if field != "" || row != [] {
      row := row + [field];
      rows := rows + [row];
    }
    return Ok(rows);
  }

  // ------------------------------------------------------------------ reading back what was printed

  predicate Separator(d: char) {
    d != QUOTE && d != '\r' && d != '\n'
  }

  function Doubled(c: char): string {
    if c == QUOTE then [QUOTE, QUOTE] else [c]
  }

  lemma QuotedTake(c: char, tail: string, st: State, d: char)
    requires st.quoted
    ensures var all := Doubled(c) + tail; var r := Take(all, st, d);
      r.0 == st.(field := st.field + [c], line := if c == '\n' then st.line + 1 else st.line) && all[r.1..] == tail
  {
  }

  lemma QuotedText(f: string, rest: string)
    requires f != ""
    ensures DoubleQuotes(f) + [QUOTE] + rest == Doubled(f[0]) + (DoubleQuotes(f[1..]) + [QUOTE] + rest)
  {
  }

  /** How many line feeds a field holds. */
  function Feeds(f: string): nat {
    if f == "" then 0 else (if f[0] == '\n' then 1 else 0) + Feeds(f[1..])
  }

  /** Inside quotes: every character comes back, doubled quotes as one; line breaks are counted. */
  lemma {:induction false} ScanQuoted(f: string, rest: string, st: State, d: char)
    requires st.quoted
    ensures Scan(DoubleQuotes(f) + [QUOTE] + rest, st, d) ==
      Scan([QUOTE] + rest, st.(field := st.field + f, line := st.line + Feeds(f)), d)
    decreases |f|
  {
    hide Scan, DoubleQuotes, Take, Doubled;
    if f == "" {
      NoDoubles();
      assert "" + [QUOTE] + rest == [QUOTE] + rest;
      assert st.field + f == st.field;
    } else {
      var tail := DoubleQuotes(f[1..]) + [QUOTE] + rest;
      QuotedText(f, rest);
      QuotedTake(f[0], tail, st, d);
      ScanTake(Doubled(f[0]) + tail, st, d);
      var next := Take(Doubled(f[0]) + tail, st, d).0;
      ScanQuoted(f[1..], rest, next, d);
      assert (st.field + [f[0]]) + f[1..] == st.field + f;
    }
  }

  lemma NoDoubles()
    ensures DoubleQuotes("") == ""
  {
  }

  lemma ScanTake(s: string, st: State, d: char)
    requires s != ""
    ensures Scan(s, st, d) == Scan(s[Take(s, st, d).1..], Take(s, st, d).0, d)
  {
    hide Take;
  }

  predicate Ordinary(c: char, d: char) {
    c != d && c != QUOTE && c != '\n' && c != '\r'
  }

  predicate AllOrdinary(f: string, d: char) {
    forall i :: 0 <= i < |f| ==> Ordinary(f[i], d)
  }

  /** Outside quotes: ordinary characters come back. */
  lemma {:induction false} ScanPlain(f: string, rest: string, st: State, d: char)
    requires !st.quoted && AllOrdinary(f, d)
    ensures Scan(f + rest, st, d) == Scan(rest, st.(field := st.field + f, start := st.start && f == ""), d)
    decreases |f|
  {
    hide Scan;
    if f == "" {
      assert f + rest == rest && st.field + f == st.field;
    } else {
      assert Ordinary(f[0], d);
      ScanTake(f + rest, st, d);
      assert (f + rest)[1..] == f[1..] + rest;
      var next := st.(field := st.field + [f[0]], start := false);
      assert Take(f + rest, st, d) == (next, 1);
      ScanPlain(f[1..], rest, next, d);
      assert (st.field + [f[0]]) + f[1..] == st.field + f;
    }
  }

  lemma NoQuotesNeeded(f: string, d: char)
    requires !NeedsQuotes(f, d)
    ensures AllOrdinary(f, d)
  {
  }

  /** Two states that will behave alike from here on, as long as what comes next ends the field. */
  predicate AfterField(st: State, was: State, f: string) {
    st == was.(field := f, start := st.start, line := was.line + Feeds(f))
  }

  lemma {:induction false} NoFeeds(f: string, d: char)
    requires AllOrdinary(f, d)
    ensures Feeds(f) == 0
  {
    if f != "" {
      assert Ordinary(f[0], d);
      assert forall i :: 0 <= i < |f[1..]| ==> f[1..][i] == f[i + 1];
      NoFeeds(f[1..], d);
    }
  }

  lemma ScanField(f: string, rest: string, st: State, d: char) returns (end: State)
    requires Separator(d) && !st.quoted && st.start && st.field == "" && (rest == "" || rest[0] != QUOTE)
    ensures Scan(FieldText(f, d) + rest, st, d) == Scan(rest, end, d) && AfterField(end, st, f)
  {
    hide Scan;
    if NeedsQuotes(f, d) {
      var all := FieldText(f, d) + rest;
      assert all == [QUOTE] + (DoubleQuotes(f) + [QUOTE] + rest);
      ScanTake(all, st, d);
      var opened1 := st.(quoted := true, start := false);
      assert all[1..] == DoubleQuotes(f) + [QUOTE] + rest;
      ScanQuoted(f, rest, opened1, d);
      var inside := opened1.(field := "" + f, line := st.line + Feeds(f));
      assert "" + f == f;
      ScanTake([QUOTE] + rest, inside, d);
      assert ([QUOTE] + rest)[1..] == rest && (rest != "" ==> ([QUOTE] + rest)[1] == rest[0]);
      end := inside.(quoted := false);
    } else {
      NoQuotesNeeded(f, d);
      NoFeeds(f, d);
      ScanPlain(f, rest, st, d);
      assert "" + f == f;
      end := st.(field := "" + f, start := st.start && f == "");
    }
  }

  /** A row's text read from the start of a row, with the fields already there. */
  lemma {:induction false} ScanRow(row: seq<string>, rest: string, st: State, d: char) returns (end: State)
    requires Separator(d) && row != [] && !st.quoted && st.start && st.field == ""
    ensures Scan(Line(Present(row), d) + rest, st, d) == Scan(rest, end, d)
    ensures end ==
      st.(rows := if Blank(st.row + row) then st.rows else st.rows + [st.row + row], row := [], line := end.line)
    decreases |row|
  {
    hide Scan, Take, FieldText;
    var f, texts := row[0], Texts(Present(row), d);
    assert Present(row)[1..] == Present(row[1..]);
    assert texts[1..] == Texts(Present(row[1..]), d) && texts[0] == FieldText(f, d)
      && |texts| == |row| by { TextsLength(row, d); }
    if |row| == 1 {
      var after := "\r\n" + rest;
      assert Line(Present(row), d) + rest == FieldText(f, d) + after;
      var mid := ScanField(f, after, st, d);
      end := ScanBreak(rest, mid, d);
      assert row == [f];
    } else {
      var tail := Line(Present(row[1..]), d) + rest;
      var after := [d] + tail;
      assert Line(Present(row), d) + rest == FieldText(f, d) + after;
      var mid := ScanField(f, after, st, d);
      ScanDelimiter(tail, mid, d);
      var next := mid.(row := mid.row + [f], field := "", start := true);
      end := ScanRow(row[1..], rest, next, d);
      assert (st.row + [f]) + row[1..] == st.row + row;
    }
  }

  lemma TextsLength(row: seq<string>, d: char)
    ensures |Texts(Present(row), d)| == |row|
  {
    hide FieldText;
    if row != [] {
      assert Present(row)[1..] == Present(row[1..]);
      TextsLength(row[1..], d);
    }
  }

  lemma ScanDelimiter(tail: string, st: State, d: char)
    requires Separator(d) && !st.quoted
    ensures Scan([d] + tail, st, d) == Scan(tail, st.(row := st.row + [st.field], field := "", start := true), d)
  {
    hide Scan;
    ScanTake([d] + tail, st, d);
    assert ([d] + tail)[1..] == tail;
  }

  lemma ScanBreak(rest: string, st: State, d: char) returns (end: State)
    requires Separator(d) && !st.quoted
    ensures Scan("\r\n" + rest, st, d) == Scan(rest, end, d) && end == EndRow(st)
  {
    hide Scan, EndRow;
    var all := "\r\n" + rest;
    ScanTake(all, st, d);
    assert all[1..] == "\n" + rest && all[0] == '\r' && all[1] == '\n';
    assert Take(all, st, d) == (st, 1);
    ScanTake("\n" + rest, st, d);
    assert ("\n" + rest)[1..] == rest;
    end := EndRow(st);
    assert Take("\n" + rest, st, d) == (end, 1);
  }

  // ------------------------------------------------------------------ the round trip

  /** The rows that are not empty lines. */
  function Solid(rows: seq<seq<string>>): seq<seq<string>> {
    if rows == [] then [] else (if rows[0] == [] || Blank(rows[0]) then [] else [rows[0]]) + Solid(rows[1..])
  }

  predicate AllSolid(rows: seq<seq<string>>) {
    forall i :: 0 <= i < |rows| ==> rows[i] != [] && !Blank(rows[i])
  }

  /** One printed row, or an empty line. */
  lemma ScanOne(row: seq<string>, rest: string, st: State, d: char) returns (end: State)
    requires Separator(d) && !st.quoted && st.start && st.field == "" && st.row == []
    ensures Scan(Line(Present(row), d) + rest, st, d) == Scan(rest, end, d)
    ensures end == st.(rows := st.rows + (if row == [] || Blank(row) then [] else [row]), line := end.line)
  {
    hide Scan, EndRow, Line;
    assert st.rows + [] == st.rows;
    if row == [] {
      EmptyLine(d);
      end := ScanBreak(rest, st, d);
      EndOfNothing(st);
    } else {
      end := ScanRow(row, rest, st, d);
      assert [] + row == row;
    }
  }

  lemma {:induction false} ScanRows(rows: seq<seq<string>>, st: State, d: char) returns (end: State)
    requires Separator(d) && !st.quoted && st.start && st.field == "" && st.row == []
    ensures Scan(PrintAll(rows, d), st, d) == end
    ensures end == st.(rows := st.rows + Solid(rows), line := end.line)
    decreases |rows|
  {
    hide Scan, Line, Blank;
    end := st;
    if rows == [] {
      assert st.rows + [] == st.rows;
      ScanNothing(st, d);
    } else {
      var mid := ScanOne(rows[0], PrintAll(rows[1..], d), st, d);
      end := ScanRows(rows[1..], mid, d);
      var first := if rows[0] == [] || Blank(rows[0]) then [] else [rows[0]];
      assert (st.rows + first) + Solid(rows[1..]) == st.rows + (first + Solid(rows[1..]));
    }
  }

  lemma ScanNothing(st: State, d: char)
    ensures Scan("", st, d) == st
  {
  }

  lemma EmptyLine(d: char)
    ensures Line(Present([]), d) == "\r\n"
  {
    assert "" + "\r\n" == "\r\n";
  }

  lemma EndOfNothing(st: State)
    requires st.row == [] && st.field == ""
    ensures EndRow(st) == st.(start := true, line := st.line + 1)
  {
  }

  predicate StartsWithBom(text: string) {
    text != "" && text[0] == BOM
  }

  /** Whatever rows are printed, parsing gives them back, empty lines left out. */
  lemma PrintedParses(rows: seq<seq<string>>, d: char)
    requires Separator(d) && !StartsWithBom(PrintAll(rows, d))
    ensures ParseText(PrintAll(rows, d), d) == Ok(Solid(rows))
  {
    hide Scan, PrintAll;
    var end := ScanRows(rows, INITIAL, d);
    assert [] + Solid(rows) == Solid(rows);
  }

  lemma {:induction false} SolidIsSame(rows: seq<seq<string>>)
    ensures |Solid(rows)| <= |rows|
    ensures Solid(rows) == rows <==> AllSolid(rows)
  {
    if rows != [] {
      SolidIsSame(rows[1..]);
      if AllSolid(rows) {
        assert rows[0] != [] && !Blank(rows[0]);
        assert AllSolid(rows[1..]) by {
          forall i | 0 <= i < |rows[1..]|
            ensures rows[1..][i] != [] && !Blank(rows[1..][i])
          {
            assert rows[1..][i] == rows[i + 1];
          }
        }
        assert [rows[0]] + rows[1..] == rows;
      }
      if Solid(rows) == rows {
        assert |Solid(rows)| == |rows|;
        assert rows[0] != [] && !Blank(rows[0]);
        assert Solid(rows)[1..] == Solid(rows[1..]);
        forall i | 0 <= i < |rows|
          ensures rows[i] != [] && !Blank(rows[i])
        {
          if i > 0 {
            assert rows[1..][i - 1] == rows[i];
          }
        }
      }
    }
  }

  // ------------------------------------------------------------------ a byte order mark

  /** The first row as the parser sees it when the printed text begins with a byte order mark. */
  function Headless(row: seq<string>, d: char): seq<string>
    requires row != []
  {
    if row[0] != "" && row[0][0] == BOM then [row[0][1..]] + row[1..]
    else if d == BOM && |row| > 1 then row[1..]
    else row
  }

  lemma TextsCons(row: seq<string>, d: char)
    requires row != []
    ensures Texts(Present(row), d) == [FieldText(row[0], d)] + Texts(Present(row[1..]), d)
  {
    hide FieldText;
    assert Present(row)[1..] == Present(row[1..]);
  }

  lemma JoinCons(x: string, xs: seq<string>, sep: string)
    ensures Join([x] + xs, sep) == if xs == [] then x else x + sep + Join(xs, sep)
  {
    assert ([x] + xs)[1..] == xs;
  }

  lemma Regroup(a: string, b: string, c: string, e: string)
    ensures (a + b + c) + e == a + (b + (c + e))
  {
  }

  lemma LineStarts(row: seq<string>, d: char)
    requires Separator(d) && row != []
    ensures Line(Present(row), d) ==
      FieldText(row[0], d) + (if |row| == 1 then "\r\n" else [d] + Line(Present(row[1..]), d))
  {
    hide FieldText, Texts, Present, Join;
    var texts := Texts(Present(row[1..]), d);
    TextsCons(row, d);
    TextsLength(row[1..], d);
    JoinCons(FieldText(row[0], d), texts, [d]);
    if |row| > 1 {
      Regroup(FieldText(row[0], d), [d], Join(texts, [d]), "\r\n");
    }
  }

  /** The row's first field begins with the mark and is printed bare; or it is empty and the mark is the delimiter. */
  predicate MarkFirst(row: seq<string>, d: char)
    requires row != []
  {
    if row[0] != "" then row[0][0] == BOM && !NeedsQuotes(row[0], d) else d == BOM && |row| > 1
  }

  predicate BeginsWithMark(rows: seq<seq<string>>, d: char) {
    rows != [] && rows[0] != [] && MarkFirst(rows[0], d)
  }

  /** Exactly then the printed text begins with the mark. */
  lemma BomMeans(row: seq<string>, rest: string, d: char)
    requires Separator(d) && row != []
    ensures StartsWithBom(Line(Present(row), d) + rest) <==> MarkFirst(row, d)
  {
    hide Line, DoubleQuotes, NeedsQuotes;
    LineStarts(row, d);
    EmptyField(d);
    var f := FieldText(row[0], d);
    QuotedStarts(row[0], d);
    if f != "" {
      assert (Line(Present(row), d) + rest)[0] == f[0];
    } else {
      assert (Line(Present(row), d) + rest)[0] == if |row| == 1 then '\r' else d;
    }
  }

  lemma PrintedMark(rows: seq<seq<string>>, d: char)
    requires Separator(d) && AllSolid(rows)
    ensures StartsWithBom(PrintAll(rows, d)) <==> BeginsWithMark(rows, d)
  {
    hide Line, MarkFirst;
    if rows != [] {
      assert rows[0] != [];
      BomMeans(rows[0], PrintAll(rows[1..], d), d);
    }
  }

  lemma QuotedStarts(f: string, d: char)
    ensures if NeedsQuotes(f, d) then FieldText(f, d) != "" && FieldText(f, d)[0] == QUOTE else FieldText(f, d) == f
  {
    hide NeedsQuotes;
  }

  lemma EmptyField(d: char)
    ensures !NeedsQuotes("", d) && FieldText("", d) == ""
  {
  }

  /** Reading on after a field that lost its first character. */
  lemma ScanHeadless(row: seq<string>, rest: string, d: char) returns (end: State)
    requires Separator(d) && row != [] && row[0] != "" && !NeedsQuotes(row[0], d)
    ensures var f := row[0][1..];
      Scan((Line(Present(row), d) + rest)[1..], INITIAL, d) == Scan(rest, end, d)
      && end == INITIAL.(rows := if Blank([f] + row[1..]) then [] else [[f] + row[1..]], line := end.line)
  {
    hide Scan, Take, FieldText, Line;
    var f := row[0][1..];
    LineStarts(row, d);
    PlainField(row[0], d);
    NoQuotesNeeded(row[0], d);
    var after := if |row| == 1 then "\r\n" + rest else [d] + (Line(Present(row[1..]), d) + rest);
    assert (Line(Present(row), d) + rest)[1..] == f + after;
    assert AllOrdinary(f, d) by {
      forall i | 0 <= i < |f|
        ensures Ordinary(f[i], d)
      {
        assert Ordinary(row[0][i + 1], d);
      }
    }
    ScanPlain(f, after, INITIAL, d);
    var mid := INITIAL.(field := "" + f, start := f == "");
    assert "" + f == f;
    if |row| == 1 {
      end := ScanBreak(rest, mid, d);
      assert [f] + row[1..] == [f] && mid.row + [mid.field] == [f];
      assert INITIAL.rows + [[f]] == [[f]];
    } else {
      ScanDelimiter(Line(Present(row[1..]), d) + rest, mid, d);
      var next := mid.(row := mid.row + [f], field := "", start := true);
      assert [] + [f] == [f];
      end := ScanRow(row[1..], rest, next, d);
      assert next.row + row[1..] == [f] + row[1..];
      assert INITIAL.rows + [[f] + row[1..]] == [[f] + row[1..]];
    }
  }

  lemma PlainField(f: string, d: char)
    requires !NeedsQuotes(f, d)
    ensures FieldText(f, d) == f
  {
  }

  /** A printed text that begins with a byte order mark never parses to the rows it came from. */
  lemma BomIsLost(rows: seq<seq<string>>, d: char)
    requires Separator(d) && AllSolid(rows) && StartsWithBom(PrintAll(rows, d))
    ensures ParseText(PrintAll(rows, d), d) != Ok(rows)
  {
    hide Scan, Line, FieldText, NeedsQuotes;
    assert rows != [] && rows[0] != [];
    var row, rest := rows[0], PrintAll(rows[1..], d);
    BomMeans(row, rest, d);
    var first := Headless(row, d);
    var mid: State;
    if row[0] != "" {
      mid := ScanHeadless(row, rest, d);
    } else {
      LineStarts(row, d);
      EmptyField(d);
      assert (Line(Present(row), d) + rest)[1..] == Line(Present(row[1..]), d) + rest;
      mid := ScanRow(row[1..], rest, INITIAL, d);
      assert [] + row[1..] == row[1..];
    }
    var end := ScanRows(rows[1..], mid, d);
    assert ParseText(PrintAll(rows, d), d) == Ok(end.rows);
    assert end.rows == mid.rows + Solid(rows[1..]);
    SolidIsSame(rows[1..]);
    assert mid.rows == [] || mid.rows == [first];
    assert first != row by { HeadlessDiffers(row, d); }
    assert mid.rows == [] ==> |end.rows| <= |rows| - 1;
    assert mid.rows == [first] ==> end.rows[0] == first;
  }

  lemma HeadlessDiffers(row: seq<string>, d: char)
    requires row != [] && ((row[0] != "" && row[0][0] == BOM) || (row[0] == "" && d == BOM && |row| > 1))
    ensures Headless(row, d) != row
  {
    if row[0] != "" {
      assert |Headless(row, d)[0]| == |row[0]| - 1;
    } else {
      assert |Headless(row, d)| == |row| - 1;
    }
  }

  /**
   Printing rows and parsing the text gives the rows back exactly when none of
   them is empty or one lone empty field and the first field of the first does
   not begin with a byte order mark that is printed bare.
   */
  lemma RoundTrip(rows: seq<seq<string>>, d: char)
    requires Separator(d)
    ensures ParseText(PrintAll(rows, d), d) == Ok(rows) <==> AllSolid(rows) && !BeginsWithMark(rows, d)
  {
    hide Scan, PrintAll, ParseText, AllSolid, BeginsWithMark, StartsWithBom;
    SolidIsSame(rows);
    if !AllSolid(rows) {
      ParsedIfBlank(rows, d);
    } else {
      PrintedMark(rows, d);
      if StartsWithBom(PrintAll(rows, d)) {
        BomIsLost(rows, d);
      } else {
        PrintedParses(rows, d);
      }
    }
  }

  // ------------------------------------------------------------------ what parsing yields

  ghost predicate RowsSolid(st: State) {
    AllSolid(st.rows)
  }

  lemma TakeKeepsSolid(s: string, st: State, d: char)
    requires s != "" && RowsSolid(st)
    ensures RowsSolid(Take(s, st, d).0)
  {
  }

  lemma {:induction false} ScanKeepsSolid(s: string, st: State, d: char)
    requires RowsSolid(st)
    ensures RowsSolid(Scan(s, st, d))
    decreases |s|
  {
    hide Take, RowsSolid;
    if s != "" {
      TakeKeepsSolid(s, st, d);
      ScanKeepsSolid(s[Take(s, st, d).1..], Take(s, st, d).0, d);
    }
  }

  /** Parsing never yields an empty row or a row of one empty field. */
  lemma ParsedIsSolid(text: string, d: char)
    requires ParseText(text, d).Ok?
    ensures AllSolid(ParseText(text, d).value)
  {
    hide Scan;
    ScanKeepsSolid(WithoutBom(text), INITIAL, d);
  }

  lemma ParsedIfBlank(rows: seq<seq<string>>, d: char)
    requires !AllSolid(rows)
    ensures ParseText(PrintAll(rows, d), d) != Ok(rows)
  {
    hide ParseText, AllSolid, PrintAll;
    if ParseText(PrintAll(rows, d), d).Ok? {
      ParsedIsSolid(PrintAll(rows, d), d);
    }
  }

  /**
   Printing what was parsed and parsing it again changes nothing, unless the first
   field begins with a byte order mark that is printed bare.
   */
  lemma ReprintIsStable(text: string, d: char)
    requires Separator(d) && ParseText(text, d).Ok?
    ensures var rows := ParseText(text, d).value;
      ParseText(PrintAll(rows, d), d) == Ok(rows) <==> !BeginsWithMark(rows, d)
  {
    hide ParseText, AllSolid, PrintAll, BeginsWithMark;
    ParsedIsSolid(text, d);
    RoundTrip(ParseText(text, d).value, d);
  }

  // ------------------------------------------------------------------ texts written by others

  datatype Break = CrLf | Lf | Cr

  function BreakText(b: Break): string {
    match b
    case CrLf => "\r\n"
    case Lf => "\n"
    case Cr => "\r"
  }

  /** A field as it may be written: in quotes, whether it needs them or not, or bare. */
  datatype Cell = Cell(value: string, quoted: bool)

  function CellText(c: Cell): string {
    if c.quoted then [QUOTE] + DoubleQuotes(c.value) + [QUOTE] else c.value
  }

  /** Bare, a field holds no delimiter and no line break, and no quote at its start. */
  predicate CellOk(c: Cell, d: char) {
    !c.quoted ==>
      (forall i :: 0 <= i < |c.value| ==> c.value[i] != d && c.value[i] != '\r' && c.value[i] != '\n')
      && (c.value != "" ==> c.value[0] != QUOTE)
  }

  function LineText(row: seq<Cell>, d: char): string {
    if row == [] then "" else CellText(row[0]) + (if |row| == 1 then "" else [d] + LineText(row[1..], d))
  }

  function Values(row: seq<Cell>): (r: seq<string>)
    ensures |r| == |row|
  {
    if row == [] then [] else [row[0].value] + Values(row[1..])
  }

  function AllValues(rows: seq<seq<Cell>>): (r: seq<seq<string>>)
    ensures |r| == |rows|
  {
    if rows == [] then [] else [Values(rows[0])] + AllValues(rows[1..])
  }

  /** A line with something on it. */
  predicate LineOk(row: seq<Cell>, d: char) {
    row != [] && !Blank(Values(row)) && forall i :: 0 <= i < |row| ==> CellOk(row[i], d)
  }

  predicate LinesOk(rows: seq<seq<Cell>>, d: char) {
    forall i :: 0 <= i < |rows| ==> LineOk(rows[i], d)
  }

  /** Lines, each with a line break of its own kind. */
  function Written(rows: seq<seq<Cell>>, breaks: seq<Break>, d: char): string
    requires |rows| == |breaks|
  {
    if rows == [] then "" else LineText(rows[0], d) + BreakText(breaks[0]) + Written(rows[1..], breaks[1..], d)
  }

  /** The line feeds inside the fields of a row, and of several. */
  function RowFeeds(row: seq<string>): nat {
    if row == [] then 0 else Feeds(row[0]) + RowFeeds(row[1..])
  }

  function AllFeeds(rows: seq<seq<string>>): nat {
    if rows == [] then 0 else RowFeeds(rows[0]) + AllFeeds(rows[1..])
  }

  /** Bare, everything comes back, quotes included but for one at the start. */
  lemma {:induction false} ScanBare(f: string, rest: string, st: State, d: char)
    requires !st.quoted && (f != "" && st.start ==> f[0] != QUOTE)
    requires forall i :: 0 <= i < |f| ==> f[i] != d && f[i] != '\r' && f[i] != '\n'
    ensures Scan(f + rest, st, d) == Scan(rest, st.(field := st.field + f, start := st.start && f == ""), d)
    ensures Feeds(f) == 0
    decreases |f|
  {
    hide Scan;
    if f == "" {
      assert f + rest == rest && st.field + f == st.field;
    } else {
      ScanTake(f + rest, st, d);
      assert (f + rest)[1..] == f[1..] + rest && (f + rest)[0] == f[0];
      var next := st.(field := st.field + [f[0]], start := false);
      assert Take(f + rest, st, d) == (next, 1);
      ScanBare(f[1..], rest, next, d);
      assert (st.field + [f[0]]) + f[1..] == st.field + f;
    }
  }

  lemma ScanCell(c: Cell, rest: string, st: State, d: char) returns (end: State)
    requires Separator(d) && CellOk(c, d) && !st.quoted && st.start && st.field == ""
      && (rest == "" || rest[0] != QUOTE)
    ensures Scan(CellText(c) + rest, st, d) == Scan(rest, end, d) && AfterField(end, st, c.value)
  {
    hide Scan, DoubleQuotes;
    var f := c.value;
    assert "" + f == f;
    if c.quoted {
      var all := CellText(c) + rest;
      assert all == [QUOTE] + (DoubleQuotes(f) + [QUOTE] + rest);
      ScanTake(all, st, d);
      var opened1 := st.(quoted := true, start := false);
      assert all[1..] == DoubleQuotes(f) + [QUOTE] + rest;
      ScanQuoted(f, rest, opened1, d);
      var inside := opened1.(field := "" + f, line := st.line + Feeds(f));
      ScanTake([QUOTE] + rest, inside, d);
      assert ([QUOTE] + rest)[1..] == rest && (rest != "" ==> ([QUOTE] + rest)[1] == rest[0]);
      end := inside.(quoted := false);
    } else {
      ScanBare(f, rest, st, d);
      end := st.(field := "" + f, start := st.start && f == "");
    }
  }

  /** A row read up to its last field, which is still open. */
  predicate AfterRow(end: State, st: State, values: seq<string>) {
    && end.row + [end.field] == st.row + values
    && end == st.(row := end.row, field := end.field, start := end.start, line := st.line + RowFeeds(values))
  }

  lemma LineCons(row: seq<Cell>, d: char)
    requires row != []
    ensures LineText(row, d) == CellText(row[0]) + (if |row| == 1 then "" else [d] + LineText(row[1..], d))
    ensures Values(row) == [row[0].value] + Values(row[1..])
  {
    hide CellText;
  }

  /** One field more in front. */
  lemma AfterMore(f: string, values: seq<string>, st: State, mid: State, end: State)
    requires AfterField(mid, st, f) && AfterRow(end, mid.(row := mid.row + [f], field := "", start := true), values)
    requires st.field == ""
    ensures AfterRow(end, st, [f] + values)
  {
    hide Feeds;
    assert ([f] + values)[1..] == values;
    assert (st.row + [f]) + values == st.row + ([f] + values);
  }

  lemma AfterOne(f: string, st: State, mid: State)
    requires AfterField(mid, st, f)
    ensures AfterRow(mid, st, [f])
  {
    hide Feeds;
    assert [f][1..] == [];
    assert RowFeeds([f]) == Feeds(f) + RowFeeds([]);
  }

  /** A row's cells, up to whatever ends the line or the text. */
  lemma {:induction false} ScanCells(row: seq<Cell>, rest: string, st: State, d: char) returns (end: State)
    requires Separator(d) && row != [] && !st.quoted && st.start && st.field == ""
    requires forall i :: 0 <= i < |row| ==> CellOk(row[i], d)
    requires rest == "" || rest[0] == '\r' || rest[0] == '\n'
    ensures Scan(LineText(row, d) + rest, st, d) == Scan(rest, end, d) && AfterRow(end, st, Values(row))
    decreases |row|
  {
    hide Scan, Take, CellText, CellOk, Feeds, LineText, Values, AfterRow, RowFeeds;
    var c := row[0];
    LineCons(row, d);
    if |row| == 1 {
      assert LineText(row, d) + rest == CellText(c) + rest;
      end := ScanCell(c, rest, st, d);
      NoValues();
      assert row[1..] == [] && [c.value] + [] == [c.value];
      AfterOne(c.value, st, end);
    } else {
      var tail := LineText(row[1..], d) + rest;
      var after := [d] + tail;
      assert LineText(row, d) + rest == CellText(c) + after;
      var mid := ScanCell(c, after, st, d);
      ScanDelimiter(tail, mid, d);
      var next := mid.(row := mid.row + [c.value], field := "", start := true);
      assert forall i :: 0 <= i < |row[1..]| ==> row[1..][i] == row[i + 1];
      end := ScanCells(row[1..], rest, next, d);
      AfterMore(c.value, Values(row[1..]), st, mid, end);
    }
  }

  lemma NoValues()
    ensures Values([]) == []
  {
  }

  /** The line ends. */
  lemma RowEnds(mid: State, st: State, values: seq<string>)
    requires AfterRow(mid, st, values) && !Blank(values) && st.row == [] && st.start && st.field == ""
    ensures EndRow(mid) == st.(rows := st.rows + [values], line := st.line + RowFeeds(values) + 1)
  {
    hide RowFeeds;
    assert st.row + values == values;
  }

  lemma ScanBreakText(b: Break, rest: string, st: State, d: char)
    requires Separator(d) && !st.quoted && (rest == "" || rest[0] != '\n')
    ensures Scan(BreakText(b) + rest, st, d) == Scan(rest, EndRow(st), d)
  {
    hide Scan, EndRow;
    var all := BreakText(b) + rest;
    if b.CrLf? {
      var _ := ScanBreak(rest, st, d);
    } else {
      assert all[1..] == rest && (rest != "" ==> all[1] == rest[0]);
      ScanTake(all, st, d);
      assert Take(all, st, d) == (EndRow(st), 1);
    }
  }

  /** A line with something on it does not begin with a line feed. */
  lemma SolidStart(row: seq<Cell>, d: char)
    requires Separator(d) && LineOk(row, d)
    ensures LineText(row, d) != "" && LineText(row, d)[0] != '\n'
  {
    hide DoubleQuotes;
    assert CellOk(row[0], d);
  }

  lemma WrittenStart(rows: seq<seq<Cell>>, breaks: seq<Break>, tail: string, d: char)
    requires Separator(d) && |rows| == |breaks| && LinesOk(rows, d) && (tail == "" || tail[0] != '\n')
    ensures var all := Written(rows, breaks, d) + tail; all == "" || all[0] != '\n'
  {
    hide LineText, LineOk;
    if rows == [] {
      assert Written(rows, breaks, d) + tail == tail;
    } else {
      assert LineOk(rows[0], d);
      SolidStart(rows[0], d);
      assert (Written(rows, breaks, d) + tail)[0] == LineText(rows[0], d)[0];
    }
  }

  lemma LinesTail(rows: seq<seq<Cell>>, d: char)
    requires LinesOk(rows, d) && rows != []
    ensures LineOk(rows[0], d) && LinesOk(rows[1..], d)
  {
    hide LineOk;
    assert forall i :: 0 <= i < |rows[1..]| ==> rows[1..][i] == rows[i + 1];
  }

  lemma {:induction false} ScanWritten(rows: seq<seq<Cell>>, breaks: seq<Break>, tail: string, st: State, d: char)
    requires Separator(d) && |rows| == |breaks| && LinesOk(rows, d) && (tail == "" || tail[0] != '\n')
    requires !st.quoted && st.start && st.field == "" && st.row == []
    ensures Scan(Written(rows, breaks, d) + tail, st, d) == Scan(tail, AfterAll(rows, st), d)
    decreases |rows|
  {
    hide Scan, LineText, LinesOk, RowFeeds, BreakText, CellOk, Values, AfterRow, EndRow;
    if rows == [] {
      assert Written(rows, breaks, d) + tail == tail;
    } else {
      LinesTail(rows, d);
      WrittenStart(rows[1..], breaks[1..], tail, d);
      var row, more := rows[0], Written(rows[1..], breaks[1..], d) + tail;
      var after := BreakText(breaks[0]) + more;
      Regrouped(LineText(row, d), BreakText(breaks[0]), Written(rows[1..], breaks[1..], d), tail);
      BreakStarts(breaks[0], more);
      var mid := ScanCells(row, after, st, d);
      assert !mid.quoted by { AfterQuoted(mid, st, Values(row)); }
      ScanBreakText(breaks[0], more, mid, d);
      RowEnds(mid, st, Values(row));
      ScanWritten(rows[1..], breaks[1..], tail, EndRow(mid), d);
    }
  }

  lemma AfterQuoted(mid: State, st: State, values: seq<string>)
    requires AfterRow(mid, st, values)
    ensures mid.quoted == st.quoted
  {
    hide RowFeeds;
  }

  /** The state behind these lines. */
  function AfterAll(rows: seq<seq<Cell>>, st: State): State {
    if rows == [] then st
    else
      AfterAll(rows[1..], st.(rows := st.rows + [Values(rows[0])], line := st.line + RowFeeds(Values(rows[0])) + 1))
  }

  lemma {:induction false} AfterAllIs(rows: seq<seq<Cell>>, st: State)
    ensures var values := AllValues(rows);
      AfterAll(rows, st) == st.(rows := st.rows + values, line := st.line + |rows| + AllFeeds(values))
    decreases |rows|
  {
    hide RowFeeds, Values;
    var values := AllValues(rows);
    if rows == [] {
      assert st.rows + values == st.rows;
    } else {
      var next := st.(rows := st.rows + [Values(rows[0])], line := st.line + RowFeeds(Values(rows[0])) + 1);
      AfterAllIs(rows[1..], next);
      assert values[1..] == AllValues(rows[1..]);
      assert (st.rows + [Values(rows[0])]) + values[1..] == st.rows + values;
    }
  }

  lemma Regrouped(a: string, b: string, c: string, e: string)
    ensures a + b + c + e == a + (b + (c + e))
  {
  }

  lemma BreakStarts(b: Break, rest: string)
    ensures (BreakText(b) + rest)[0] == '\r' || (BreakText(b) + rest)[0] == '\n'
  {
  }

  lemma Unmarked(text: string)
    ensures WithoutBom([BOM] + text) == text
    ensures !StartsWithBom(text) ==> WithoutBom(text) == text
  {
    assert ([BOM] + text)[1..] == text;
  }

  /**
   Lines may end in CR LF, in LF or in CR, each as it likes, and the last line in
   nothing; fields may stand in quotes they do not need, or bare with quotes behind
   their start; a byte order mark may stand in front. The rows are read all the same.
   */
  lemma AnyWriting(rows: seq<seq<Cell>>, breaks: seq<Break>, last: seq<Cell>, d: char)
    requires Separator(d) && |rows| == |breaks| && LinesOk(rows, d) && LineOk(last, d)
    ensures var text := Written(rows, breaks, d);
      && ParseText([BOM] + text, d) == Ok(AllValues(rows))
      && (!StartsWithBom(text) ==> ParseText(text, d) == Ok(AllValues(rows)))
    ensures var text := Written(rows, breaks, d) + LineText(last, d);
      && ParseText([BOM] + text, d) == Ok(AllValues(rows) + [Values(last)])
      && (!StartsWithBom(text) ==> ParseText(text, d) == Ok(AllValues(rows) + [Values(last)]))
  {
    hide Scan, LineText, Written, LinesOk, LineOk, StartsWithBom, WithoutBom, Finish, AllValues, Values;
    var text, tail := Written(rows, breaks, d), LineText(last, d);
    Unmarked(text);
    Unmarked(text + tail);
    WholeLines(rows, breaks, d);
    LastLine(rows, breaks, last, d);
  }

  lemma WholeLines(rows: seq<seq<Cell>>, breaks: seq<Break>, d: char)
    requires Separator(d) && |rows| == |breaks| && LinesOk(rows, d)
    ensures Finish(Scan(Written(rows, breaks, d), INITIAL, d)) == Ok(AllValues(rows))
  {
    hide Scan, Written, LinesOk, AllFeeds, AllValues;
    var text, values := Written(rows, breaks, d), AllValues(rows);
    assert [] + values == values && text + "" == text;
    ScanWritten(rows, breaks, "", INITIAL, d);
    AfterAllIs(rows, INITIAL);
    ScanNothing(AfterAll(rows, INITIAL), d);
  }

  lemma LastLine(rows: seq<seq<Cell>>, breaks: seq<Break>, last: seq<Cell>, d: char)
    requires Separator(d) && |rows| == |breaks| && LinesOk(rows, d) && LineOk(last, d)
    ensures Finish(Scan(Written(rows, breaks, d) + LineText(last, d), INITIAL, d)) ==
      Ok(AllValues(rows) + [Values(last)])
  {
    hide Scan, Written, LineText, LinesOk, AllFeeds, AllValues, Values, AfterRow, CellOk, AfterAll, RowFeeds;
    var tail, values := LineText(last, d), AllValues(rows);
    assert [] + values == values && tail + "" == tail;
    SolidStart(last, d);
    ScanWritten(rows, breaks, tail, INITIAL, d);
    AfterAllIs(rows, INITIAL);
    var st := AfterAll(rows, INITIAL);
    var end := ScanCells(last, "", st, d);
    ScanNothing(end, d);
    TextEnds(end, st, Values(last));
  }

  /** The text ends behind a line that has no line break. */
  lemma TextEnds(end: State, st: State, values: seq<string>)
    requires AfterRow(end, st, values) && !Blank(values) && st.row == [] && !st.quoted
    ensures Finish(end) == Ok(st.rows + [values])
  {
    hide RowFeeds;
    assert st.row + values == values;
  }

  /** A quoted field that never ends is reported with the number of the line the text ends on. */
  lemma NeverEndingField(rows: seq<seq<Cell>>, breaks: seq<Break>, f: string, d: char)
    requires Separator(d) && |rows| == |breaks| && LinesOk(rows, d)
    ensures var text := Written(rows, breaks, d) + ([QUOTE] + DoubleQuotes(f));
      ParseText([BOM] + text, d) == Err(NeverEnds(1 + |rows| + AllFeeds(AllValues(rows)) + Feeds(f)))
  {
    hide Scan, LineText, Written, LinesOk, RowFeeds, AllFeeds, WithoutBom, DoubleQuotes, Take, AllValues, AfterAll;
    var tail := [QUOTE] + DoubleQuotes(f);
    Unmarked(Written(rows, breaks, d) + tail);
    ScanWritten(rows, breaks, tail, INITIAL, d);
    AfterAllIs(rows, INITIAL);
    var st := AfterAll(rows, INITIAL);
    var inside := st.(quoted := true, start := false);
    ScanTake(tail, st, d);
    assert tail[1..] == DoubleQuotes(f);
    assert Take(tail, st, d) == (inside, 1) by { OpenQuote(DoubleQuotes(f), st, d); }
    ScanUnclosed(f, inside, d);
  }

  lemma OpenQuote(rest: string, st: State, d: char)
    requires !st.quoted && st.start
    ensures Take([QUOTE] + rest, st, d) == (st.(quoted := true, start := false), 1)
  {
  }

  lemma {:induction false} ScanUnclosed(f: string, st: State, d: char)
    requires st.quoted
    ensures Scan(DoubleQuotes(f), st, d) == st.(field := st.field + f, line := st.line + Feeds(f))
    decreases |f|
  {
    hide Scan, Take, Doubled;
    if f == "" {
      ScanNothing(st, d);
      assert st.field + f == st.field;
    } else {
      var tail := DoubleQuotes(f[1..]);
      assert DoubleQuotes(f) == Doubled(f[0]) + tail by { DoubledFirst(f); }
      QuotedTake(f[0], tail, st, d);
      ScanTake(Doubled(f[0]) + tail, st, d);
      var next := Take(Doubled(f[0]) + tail, st, d).0;
      ScanUnclosed(f[1..], next, d);
      assert (st.field + [f[0]]) + f[1..] == st.field + f;
    }
  }

  lemma DoubledFirst(f: string)
    requires f != ""
    ensures DoubleQuotes(f) == Doubled(f[0]) + DoubleQuotes(f[1..])
  {
  }
}
