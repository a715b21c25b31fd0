/**
 What the lexer passes over, what it takes for one token, and MySQL's DELIMITER:
 a routine between two DELIMITER lines is split out whole.
 */
module GuardTokens {
  import opened Prelude
  import opened Engines
  import opened Guard
  import opened GuardLocality
  import opened GuardStability
  import opened GuardBodies
  import GuardLexer
  import SqlText
  import SqlScript

  // ------------------------------------------------------------------ comments and strings

  predicate OneLine(s: string) {
    '\n' !in s
  }

  lemma {:induction false} LineOf(s: string, rest: string)
    requires OneLine(s) && (rest == "" || rest[0] == '\n')
    ensures LineLen(s + rest) == |s|
  {
    if s == "" {
      assert s + rest == rest;
    } else {
      assert (s + rest)[1..] == s[1..] + rest;
      LineOf(s[1..], rest);
    }
  }

  /** The engine's marks for a comment to the end of the line: MySQL has one of its own. */
  predicate LineMark(e: Engine, mark: string) {
    mark == "--" || (e.IsMysqlFamily() && mark == "#")
  }

  /** No delimiter of MySQL's client begins like this text. */
  predicate Undelimited(e: Engine, s: string, st: LexState) {
    e.IsMysqlFamily() ==> st.delimiter == ";" || st.delimiter == "" || !(st.delimiter <= s)
  }

  function Quieted(st: LexState): LexState {
    st.(lineStart := false)
  }

  lemma LexOne(e: Engine, s: string, base: nat, st: LexState, n: nat, tok: Option<Tok>, next: LexState)
    requires s != "" && 0 < n <= |s| && Next(e, s, st) == Step(tok, n, next)
    ensures Lex(e, s, base, st)
      == (if tok.Some? then [Lexeme(base, tok.value, base + n)] else []) + Lex(e, s[n..], base + n, next)
  {
    hide Next;
  }

  /** A comment to the end of the line yields nothing, whatever it holds. */
  lemma LineComment(e: Engine, mark: string, body: string, rest: string, base: nat, st: LexState)
    requires LineMark(e, mark) && OneLine(body) && (rest == "" || rest[0] == '\n')
    requires Undelimited(e, mark + body + rest, st)
    ensures Lex(e, mark + body + rest, base, st) == Lex(e, rest, base + |mark + body|, Quieted(st))
  {
    hide Lex, LineLen;
    var s := mark + body + rest;
    assert s == (mark + body) + rest && s[0] == mark[0] && (mark == "--" ==> s[1] == '-');
    LineOf(mark + body, rest);
    assert s[|mark + body|..] == rest;
    LexOne(e, s, base, st, |mark + body|, None, Quieted(st));
    assert [] + Lex(e, rest, base + |mark + body|, Quieted(st)) == Lex(e, rest, base + |mark + body|, Quieted(st));
  }

  /** Elsewhere `#` is a character like any other. */
  lemma HashElsewhere(e: Engine, rest: string, base: nat, st: LexState)
    requires !e.IsMysqlFamily()
    ensures Lex(e, "#" + rest, base, st) == [Lexeme(base, Other, base + 1)] + Lex(e, rest, base + 1, Quieted(st))
  {
    hide Lex;
    var s := "#" + rest;
    assert s[1..] == rest && s[0] == '#';
    LexOne(e, s, base, st, 1, Some(Other), Quieted(st));
  }

  /** The first place where `pat` occurs in `s` is at `k`. */
  predicate FirstAt(s: string, pat: string, k: nat) {
    k <= |s| && pat <= s[k..] && forall j :: 0 <= j < k ==> !(pat <= s[j..])
  }

  lemma FoundAt(s: string, pat: string, k: nat)
    requires FirstAt(s, pat, k)
    ensures Find(s, pat) == Some(k)
  {
    hide Find;
  }

  /** A block comment ends at the first `*` and `/` behind its start, and yields nothing. */
  lemma BlockComment(e: Engine, body: string, rest: string, base: nat, st: LexState)
    requires FirstAt(body + "*/" + rest, "*/", |body|) && Undelimited(e, "/*" + (body + "*/" + rest), st)
    ensures Lex(e, "/*" + (body + "*/" + rest), base, st) == Lex(e, rest, base + |body| + 4, Quieted(st))
  {
    hide Lex, Find;
    var s := "/*" + (body + "*/" + rest);
    assert s[0] == '/' && s[1] == '*' && s[2..] == body + "*/" + rest;
    FoundAt(s[2..], "*/", |body|);
    assert s[|body| + 4..] == rest;
    LexOne(e, s, base, st, |body| + 4, None, Quieted(st));
    assert [] + Lex(e, rest, base + |body| + 4, Quieted(st)) == Lex(e, rest, base + |body| + 4, Quieted(st));
  }

  /** A comment that is never closed takes the rest of the text. */
  lemma OpenComment(e: Engine, body: string, base: nat, st: LexState)
    requires (forall j :: 0 <= j <= |body| ==> !("*/" <= body[j..])) && Undelimited(e, "/*" + body, st)
    ensures Lex(e, "/*" + body, base, st) == []
  {
    hide Lex, Find;
    var s := "/*" + body;
    assert s[0] == '/' && s[1] == '*' && s[2..] == body;
    assert Find(body, "*/").None?;
    LexOne(e, s, base, st, |s|, None, Quieted(st));
    assert s[|s|..] == "";
    LexNil(e, base + |s|, Quieted(st));
  }

  /** What opens a quoted part, and what closes it. */
  predicate Quotes(e: Engine, open: char, close: char) {
    || (open in {'\'', '"', '`'} && close == open)
    || (e.Mssql? && open == '[' && close == ']')
  }

  /** Whether a backslash escapes what follows it: in MySQL's strings, not in its names. */
  predicate Escapes(e: Engine, open: char) {
    (e.Mysql? || e.Mariadb?) && open != '`'
  }

  lemma NextQuoted(e: Engine, s: string, st: LexState, close: char)
    requires s != "" && Quotes(e, s[0], close) && Undelimited(e, s, st)
    ensures Next(e, s, st) == Step(Some(Other), 1 + QuotedTail(s[1..], close, Escapes(e, s[0])), Quieted(st))
  {
    hide QuotedTail, LineLen, CommentLen, DollarLen, NextWord;
  }

  /** A quoted part is one token on its engine, whatever it holds: quotes stand there twice, or escaped. */
  lemma QuotedPart(e: Engine, open: char, close: char, body: string, rest: string, base: nat, st: LexState)
    requires Quotes(e, open, close) && SqlText.Sealed(body, close, Escapes(e, open))
    requires (rest == "" || rest[0] != close) && Undelimited(e, [open] + (body + [close] + rest), st)
    ensures Lex(e, [open] + (body + [close] + rest), base, st)
      == [Lexeme(base, Other, base + |body| + 2)] + Lex(e, rest, base + |body| + 2, Quieted(st))
  {
    hide Lex, Next, QuotedTail, SqlText.Sealed;
    var tail := body + [close] + rest;
    var s, n := [open] + tail, |body| + 2;
    assert s[0] == open && s[1..] == tail && s[n..] == rest;
    NextQuoted(e, s, st, close);
    SqlText.SealedTail(body, close, Escapes(e, open), rest);
    LexOne(e, s, base, st, n, Some(Other), Quieted(st));
  }

  /** One that is never closed takes the rest of the text. */
  lemma NeverClosed(e: Engine, open: char, close: char, body: string, base: nat, st: LexState)
    requires Quotes(e, open, close) && SqlText.Sealed(body, close, Escapes(e, open))
    requires Undelimited(e, [open] + body, st)
    ensures Lex(e, [open] + body, base, st) == [Lexeme(base, Other, base + |body| + 1)]
  {
    hide Lex, Next, QuotedTail, SqlText.Sealed;
    var s := [open] + body;
    assert s[0] == open && s[1..] == body && s[|s|..] == "";
    NextQuoted(e, s, st, close);
    SealedOpen(body, close, Escapes(e, open));
    LexOne(e, s, base, st, |s|, Some(Other), Quieted(st));
    LexNil(e, base + |s|, Quieted(st));
  }

  lemma {:induction false} SealedOpen(body: string, quote: char, backslash: bool)
    requires SqlText.Sealed(body, quote, backslash)
    ensures QuotedTail(body, quote, backslash) == |body|
    decreases |body|
  {
    if body != "" {
      if (backslash && body[0] == '\\') || body[0] == quote {
        SealedOpen(body[2..], quote, backslash);
      } else {
        SealedOpen(body[1..], quote, backslash);
      }
    }
  }

  /** Elsewhere than on SQL Server a bracket is a character like any other. */
  lemma BracketElsewhere(e: Engine, rest: string, base: nat, st: LexState)
    requires !e.Mssql? && Undelimited(e, "[" + rest, st)
    ensures Lex(e, "[" + rest, base, st) == [Lexeme(base, Other, base + 1)] + Lex(e, rest, base + 1, Quieted(st))
  {
    hide Lex;
    var s := "[" + rest;
    assert s[1..] == rest && s[0] == '[';
    LexOne(e, s, base, st, 1, Some(Other), Quieted(st));
  }

  predicate TagName(tag: string) {
    forall i :: 0 <= i < |tag| ==> IsTagChar(tag[i])
  }

  function Tag(tag: string): string {
    "$" + tag + "$"
  }

  lemma TagIsTag(tag: string)
    requires TagName(tag)
    ensures IsTag(Tag(tag)) && |Tag(tag)| == |tag| + 2
  {
    forall i | 1 <= i < |Tag(tag)| - 1
      ensures IsTagChar(Tag(tag)[i])
    {
      assert Tag(tag)[i] == tag[i - 1];
    }
  }

  lemma TagFound(tag: string, rest: string)
    requires TagName(tag)
    ensures FirstAt(tag + "$" + rest, "$", |tag|)
  {
    var s := tag + "$" + rest;
    assert s[|tag|..][0] == '$';
    forall j | 0 <= j < |tag|
      ensures !("$" <= s[j..])
    {
      assert s[j..][0] == tag[j] && IsTagChar(tag[j]);
    }
  }

  lemma DollarIsNext(e: Engine, s: string, st: LexState)
    requires e.Postgres? && s != "" && s[0] == '$' && DollarLen(s).Some?
    ensures Next(e, s, st) == Step(Some(Other), DollarLen(s).value, Quieted(st))
  {
    hide DollarLen, QuotedTail, LineLen, CommentLen, NextWord;
  }

  /** PostgreSQL's dollar-quoted text is one token, up to its own tag, whatever it holds. */
  lemma DollarQuoted(e: Engine, tag: string, body: string, rest: string, base: nat, st: LexState)
    requires e.Postgres? && TagName(tag) && FirstAt(body + Tag(tag) + rest, Tag(tag), |body|)
    ensures var n := |body| + 2 * |Tag(tag)|;
      Lex(e, Tag(tag) + (body + Tag(tag) + rest), base, st)
      == [Lexeme(base, Other, base + n)] + Lex(e, rest, base + n, Quieted(st))
  {
    hide Lex, Find, IsTag, FirstAt, TagName, Next;
    var t, tail := Tag(tag), body + Tag(tag) + rest;
    var s, n := t + tail, |body| + 2 * |t|;
    TagIsTag(tag);
    assert s[1..] == tag + "$" + tail;
    TagFound(tag, tail);
    FoundAt(s[1..], "$", |tag|);
    assert s[..|tag| + 2] == t && s[|tag| + 2..] == tail;
    FoundAt(tail, t, |body|);
    assert s[0] == '$' && s[n..] == rest;
    assert DollarLen(s) == Some(n);
    DollarIsNext(e, s, st);
    LexOne(e, s, base, st, n, Some(Other), Quieted(st));
  }

  // ------------------------------------------------------------------ GO and DELIMITER lines

  predicate IsWordOf(w: string, lower: string) {
    Lower(w) == lower && w != "" && IsWordStart(w[0]) && forall i :: 0 <= i < |w| ==> IsWordPart(w[i])
  }

  lemma WordThen(w: string, rest: string)
    requires (forall i :: 0 <= i < |w| ==> IsWordPart(w[i])) && (rest == "" || !IsWordPart(rest[0]))
    ensures WordLen(w + rest) == |w|
  {
    hide IsWordPart;
    assert forall c :: c in w ==> IsWordPart(c);
    SqlText.KeywordLen(w, rest);
  }

  /** At the start of a line, SQL Server: `GO`, perhaps with a count behind it, is one token as long as the line. */
  lemma GoLine(e: Engine, w: string, tail: string, rest: string, base: nat, st: LexState)
    requires e.Mssql? && st.lineStart && IsWordOf(w, "go") && OneLine(tail) && (rest == "" || rest[0] == '\n')
    requires AllDigits(Trim(tail)) && (tail == "" || !IsWordPart(tail[0]))
    ensures Lex(e, w + tail + rest, base, st)
      == [Lexeme(base, Go, base + |w + tail|)] + Lex(e, rest, base + |w + tail|, Quieted(st))
  {
    hide Lex, LineLen, Trim, AllDigits, WordLen, Lower, IsWordPart;
    var s := w + tail + rest;
    assert s == w + (tail + rest) && s[0] == w[0];
    assert rest != "" ==> !IsWordPart('\n') by { FeedIsNoWord(); }
    WordThen(w, tail + rest);
    LineOf(tail, rest);
    assert s[..|w|] == w && s[|w|..] == tail + rest && s[|w|..|w + tail|] == tail && s[|w + tail|..] == rest;
    NextIsWordHere(e, s, st);
    LexOne(e, s, base, st, |w + tail|, Some(Go), Quieted(st));
  }

  lemma FeedIsNoWord()
    ensures !IsWordPart('\n')
  {
  }

  lemma NextIsWordHere(e: Engine, s: string, st: LexState)
    requires s != "" && IsWordStart(s[0]) && Undelimited(e, s, st)
    ensures Next(e, s, st) == NextWord(e, s, st)
  {
    hide NextWord, QuotedTail, LineLen, CommentLen, DollarLen;
  }

  /** At the start of a line, MySQL: `DELIMITER` and a text make that text end statements from there on. */
  lemma DelimiterLine(e: Engine, w: string, tail: string, rest: string, base: nat, st: LexState)
    requires e.IsMysqlFamily() && st.lineStart && IsWordOf(w, "delimiter") && OneLine(tail)
    requires rest == "" || rest[0] == '\n'
    requires Trim(tail) != "" && (tail == "" || !IsWordPart(tail[0])) && Undelimited(e, w + tail + rest, st)
    ensures Lex(e, w + tail + rest, base, st)
      == [Lexeme(base, Delimiter, base + |w + tail|)]
       + Lex(e, rest, base + |w + tail|, LexState(false, Trim(tail)))
  {
    hide Lex, LineLen, Trim, WordLen, Lower, IsWordPart;
    var s := w + tail + rest;
    assert s == w + (tail + rest) && s[0] == w[0];
    FeedIsNoWord();
    WordThen(w, tail + rest);
    LineOf(tail, rest);
    assert s[..|w|] == w && s[|w|..] == tail + rest && s[|w|..|w + tail|] == tail && s[|w + tail|..] == rest;
    NextIsWordHere(e, s, st);
    LexOne(e, s, base, st, |w + tail|, Some(Delimiter), LexState(false, Trim(tail)));
  }

  /** Then that text ends a statement, and a semicolon does not. */
  lemma OwnDelimiter(e: Engine, rest: string, base: nat, st: LexState)
    requires e.IsMysqlFamily() && st.delimiter != ";" && st.delimiter != "" && !IsLexSpace(st.delimiter[0])
    ensures var n := |st.delimiter|;
      Lex(e, st.delimiter + rest, base, st) == [Lexeme(base, End, base + n)] + Lex(e, rest, base + n, Quieted(st))
    ensures !(st.delimiter <= ";" + rest) ==>
      Lex(e, ";" + rest, base, st) == [Lexeme(base, Other, base + 1)] + Lex(e, rest, base + 1, Quieted(st))
  {
    hide Lex;
    var s, n := st.delimiter + rest, |st.delimiter|;
    assert s[0] == st.delimiter[0] && st.delimiter <= s && s[n..] == rest;
    LexOne(e, s, base, st, n, Some(End), Quieted(st));
    if !(st.delimiter <= ";" + rest) {
      assert (";" + rest)[0] == ';' && (";" + rest)[1..] == rest;
      LexOne(e, ";" + rest, base, st, 1, Some(Other), Quieted(st));
    }
  }

  // ------------------------------------------------------------------ a routine between two DELIMITER lines

  /** The lexer, started at the head of `s`, stops between tokens at offset `k`. */
  predicate StopsAt(e: Engine, s: string, st: LexState, k: nat)
    decreases |s|
  {
    k == 0 || (s != "" && var r := Next(e, s, st); r.len <= k && StopsAt(e, s[r.len..], r.state, k - r.len))
  }

  /** The tokens up to there, and what the lexer then remembers. */
  function TokensTo(e: Engine, s: string, base: nat, st: LexState, k: nat): seq<Lexeme>
    requires StopsAt(e, s, st, k)
    decreases |s|
  {
    if k == 0 then []
    else
      var r := Next(e, s, st);
      Yield(r, base) + TokensTo(e, s[r.len..], base + r.len, r.state, k - r.len)
  }

  function StateTo(e: Engine, s: string, st: LexState, k: nat): LexState
    requires StopsAt(e, s, st, k)
    decreases |s|
  {
    if k == 0 then st
    else
      var r := Next(e, s, st);
      StateTo(e, s[r.len..], r.state, k - r.len)
  }

  predicate NoCutter(toks: seq<Lexeme>) {
    forall i :: 0 <= i < |toks| ==> !toks[i].tok.End? && !toks[i].tok.Go? && !toks[i].tok.Delimiter?
  }

  lemma TokensCons(e: Engine, s: string, base: nat, st: LexState, k: nat)
    requires StopsAt(e, s, st, k) && k > 0
    ensures s != "" && var r := Next(e, s, st);
      && r.len <= k && StopsAt(e, s[r.len..], r.state, k - r.len)
      && TokensTo(e, s, base, st, k) == Yield(r, base) + TokensTo(e, s[r.len..], base + r.len, r.state, k - r.len)
      && StateTo(e, s, st, k) == StateTo(e, s[r.len..], r.state, k - r.len)
  {
    hide Next, Yield;
  }

  lemma TokensNone(e: Engine, s: string, base: nat, st: LexState)
    ensures StopsAt(e, s, st, 0) && TokensTo(e, s, base, st, 0) == [] && StateTo(e, s, st, 0) == st
  {
  }

  lemma LexStopsStep(e: Engine, s: string, base: nat, st: LexState, k: nat, tail: seq<Lexeme>)
    requires StopsAt(e, s, st, k) && k > 0
    requires var r := Next(e, s, st);
      Lex(e, s[r.len..], base + r.len, r.state) == TokensTo(e, s[r.len..], base + r.len, r.state, k - r.len) + tail
    ensures Lex(e, s, base, st) == TokensTo(e, s, base, st, k) + tail
  {
    TokensCons(e, s, base, st, k);
    LexCons(e, s, base, st);
    hide *;
  }

  lemma {:induction false} LexStops(e: Engine, s: string, base: nat, st: LexState, k: nat)
    requires StopsAt(e, s, st, k)
    ensures k <= |s|
    ensures Lex(e, s, base, st) == TokensTo(e, s, base, st, k) + Lex(e, s[k..], base + k, StateTo(e, s, st, k))
    decreases |s|
  {
    hide Next, Lex, Yield;
    if k == 0 {
      TokensNone(e, s, base, st);
      assert s[0..] == s;
    } else {
      TokensCons(e, s, base, st, k);
      hide StopsAt, TokensTo, StateTo;
      var n, next := Next(e, s, st).len, Next(e, s, st).state;
      var rest, m := s[n..], k - n;
      LexStops(e, rest, base + n, next, m);
      assert rest[m..] == s[k..] && base + n + m == base + k;
      LexStopsStep(e, s, base, st, k, Lex(e, rest[m..], base + n + m, StateTo(e, rest, next, m)));
    }
  }

  lemma NoCutterParts(a: seq<Lexeme>, b: seq<Lexeme>)
    requires NoCutter(a + b)
    ensures NoCutter(a) && NoCutter(b)
  {
    assert forall i :: 0 <= i < |a| ==> a[i] == (a + b)[i];
    assert forall i :: 0 <= i < |b| ==> b[i] == (a + b)[|a| + i];
  }

  lemma DelimiterStep(e: Engine, s: string, base: nat, st: LexState, k: nat)
    requires StopsAt(e, s, st, k) && k > 0 && NoCutter(TokensTo(e, s, base, st, k))
    ensures s != "" && var r := Next(e, s, st);
      && r.len <= k && StopsAt(e, s[r.len..], r.state, k - r.len)
      && NoCutter(TokensTo(e, s[r.len..], base + r.len, r.state, k - r.len)) && r.state.delimiter == st.delimiter
      && StateTo(e, s, st, k) == StateTo(e, s[r.len..], r.state, k - r.len)
  {
    hide *;
    TokensCons(e, s, base, st, k);
    var r := Next(e, s, st);
    NoCutterParts(Yield(r, base), TokensTo(e, s[r.len..], base + r.len, r.state, k - r.len));
    KeepsDelimiter(e, s, st);
    SilentOrNot(r, base);
  }

  lemma {:induction false} DelimiterStays(e: Engine, s: string, base: nat, st: LexState, k: nat)
    requires StopsAt(e, s, st, k) && NoCutter(TokensTo(e, s, base, st, k))
    ensures StateTo(e, s, st, k).delimiter == st.delimiter
    decreases |s|
  {
    hide Next, TokensTo, NoCutter;
    if k > 0 {
      DelimiterStep(e, s, base, st, k);
      var r := Next(e, s, st);
      DelimiterStays(e, s[r.len..], base + r.len, r.state, k - r.len);
    }
  }

  lemma SilentOrNot(r: Step, base: nat)
    requires NoCutter(Yield(r, base))
    ensures r.tok.Some? ==> !r.tok.value.Delimiter?
  {
    if r.tok.Some? {
      assert Yield(r, base)[0].tok == r.tok.value;
    }
  }

  lemma KeepsDelimiter(e: Engine, s: string, st: LexState)
    requires s != ""
    ensures var r := Next(e, s, st);
      (r.tok.Some? && r.tok.value.Delimiter?) || r.state.delimiter == st.delimiter
  {
    hide QuotedTail, LineLen, CommentLen, DollarLen, WordLen, Lower, Trim, AllDigits;
  }

  const OPENING: string := "DELIMITER ;;"
  const CLOSING: string := "DELIMITER ;"

  /** What a dump writes for a routine or a trigger of MySQL. */
  function Routine(def: string): string {
    OPENING + "\n" + def + ";;\n" + CLOSING + "\n"
  }

  /** A line break, and what follows it stands at the start of a line. */
  lemma NewLine(e: Engine, rest: string, base: nat, st: LexState)
    ensures Lex(e, "\n" + rest, base, st) == Lex(e, rest, base + 1, st.(lineStart := true))
  {
    hide Lex;
    assert ("\n" + rest)[1..] == rest && ("\n" + rest)[0] == '\n';
    LexOne(e, "\n" + rest, base, st, 1, None, st.(lineStart := true));
    assert [] + Lex(e, rest, base + 1, st.(lineStart := true)) == Lex(e, rest, base + 1, st.(lineStart := true));
  }

  lemma DelimiterWord()
    ensures IsWordOf("DELIMITER", "delimiter")
  {
    hide Lower;
    SqlText.LowerIs("DELIMITER", "delimiter");
  }

  lemma TrimmedSign(sign: string)
    requires sign != "" && !IsTrimSpace(sign[0]) && !IsTrimSpace(sign[|sign| - 1])
    ensures Trim(" " + sign) == sign
  {
    hide Trim, LeadSpace;
    assert IsTrimSpace(' ');
    assert AllTrimSpace(" ") && AllTrimSpace("");
    SqlScript.TrimPadded(" ", sign, "");
    assert " " + sign + "" == " " + sign;
  }

  function AfterOpening(def: string): string {
    def + (";;\n" + CLOSING + "\n")
  }

  const INSIDE := LexState(true, ";;")

  /** The definition is lexed to its end, and no token in it ends a statement: nothing in it is left open. */
  ghost predicate Whole(e: Engine, def: string) {
    StopsAt(e, AfterOpening(def), INSIDE, |def|)
    && NoCutter(TokensTo(e, AfterOpening(def), |OPENING| + 1, INSIDE, |def|))
  }

  /** The tokens of the definition, and the two that end it. */
  function RoutineTokens(e: Engine, def: string): seq<Lexeme>
    requires StopsAt(e, AfterOpening(def), INSIDE, |def|)
  {
    var n := |OPENING| + 1 + |def|;
    TokensTo(e, AfterOpening(def), |OPENING| + 1, INSIDE, |def|)
    + [Lexeme(n, End, n + 2), Lexeme(n + 3, Delimiter, n + 3 + |CLOSING|)]
  }

  lemma RoutineEnd(e: Engine, base: nat, st: LexState)
    requires e.IsMysqlFamily() && st.delimiter == ";;"
    ensures Lex(e, ";;\n" + CLOSING + "\n", base, st)
      == [Lexeme(base, End, base + 2), Lexeme(base + 3, Delimiter, base + 3 + |CLOSING|)]
  {
    hide Lex, Trim;
    var last := CLOSING + "\n";
    assert ";;\n" + CLOSING + "\n" == ";;" + ("\n" + last);
    OwnDelimiter(e, "\n" + last, base, st);
    NewLine(e, last, base + 2, Quieted(st));
    var at := Quieted(st).(lineStart := true);
    DelimiterWord();
    TrimmedSign(";");
    assert " " + ";" == " ;" && "DELIMITER" + " ;" == CLOSING;
    assert !(";;" <= last) by { assert last[0] == 'D'; }
    DelimiterLine(e, "DELIMITER", " ;", "\n", base + 3, at);
    var end := base + 3 + |CLOSING|;
    NewLine(e, "", end, LexState(false, ";"));
    assert "\n" + "" == "\n";
    LexNil(e, end + 1, LexState(true, ";"));
  }

  lemma RoutineOpening(e: Engine, rest: string)
    requires e.IsMysqlFamily()
    ensures Lex(e, OPENING + ("\n" + rest), 0, INITIAL)
      == [Lexeme(0, Delimiter, |OPENING|)] + Lex(e, rest, |OPENING| + 1, INSIDE)
  {
    hide Lex, Trim, IsWordOf;
    DelimiterWord();
    TrimmedSign(";;");
    assert " " + ";;" == " ;;" && "DELIMITER" + " ;;" == OPENING;
    DelimiterLine(e, "DELIMITER", " ;;", "\n" + rest, 0, INITIAL);
    NewLine(e, rest, |OPENING|, LexState(false, ";;"));
  }

  lemma RoutineBody(e: Engine, def: string)
    requires e.IsMysqlFamily() && Whole(e, def)
    ensures Lex(e, AfterOpening(def), |OPENING| + 1, INSIDE) == RoutineTokens(e, def)
  {
    hide Lex, StopsAt, TokensTo, StateTo, NoCutter;
    var s := AfterOpening(def);
    LexStops(e, s, |OPENING| + 1, INSIDE, |def|);
    DelimiterStays(e, s, |OPENING| + 1, INSIDE, |def|);
    assert s[|def|..] == ";;\n" + CLOSING + "\n";
    RoutineEnd(e, |OPENING| + 1 + |def|, StateTo(e, s, INSIDE, |def|));
  }

  lemma RoutineLexes(e: Engine, def: string)
    requires e.IsMysqlFamily() && Whole(e, def)
    ensures Lex(e, Routine(def), 0, INITIAL) == [Lexeme(0, Delimiter, |OPENING|)] + RoutineTokens(e, def)
  {
    hide Lex, Whole, RoutineTokens;
    assert Routine(def) == OPENING + ("\n" + AfterOpening(def));
    RoutineOpening(e, AfterOpening(def));
    RoutineBody(e, def);
  }

  // ------------------------------------------------------------------ split

  /** Does the body of this definition seem unfinished at its end? */
  ghost predicate LeftOpen(e: Engine, def: string)
    requires Whole(e, def)
  {
    var toks := RoutineTokens(e, def);
    |Kinds(toks)| == |toks| && InBody(e, Kinds(toks), |toks| - 2)
  }

  /** A candidate statement that begins with CREATE, between white space. */
  lemma CreateBetween(e: Engine, script: string, from: nat, at: nat, to: nat, t: string)
    requires from <= at && at + |t| <= to <= |script| && script[at..at + |t|] == t && t != ""
    requires AllTrimSpace(script[from..at]) && AllTrimSpace(script[at + |t|..to])
    requires Next(e, t, INITIAL).tok == Some(Word("create")) && !IsTrimSpace(t[|t| - 1])
    ensures StatementIn(e, script, from, to) == [Span(at, at + |t|)]
  {
    hide Next, Trim, LeadSpace, HasWord, Lex, IsTrimSpace, IsWordPart, AllTrimSpace;
    FirstWordIs(e, t);
    WordPartSolid();
    assert IsWordPart(t[0]);
    var w1, w2 := script[from..at], script[at + |t|..to];
    ThreeParts(script, from, at, at + |t|, to);
    SqlScript.TrimPadded(w1, t, w2);
    HasFirstWord(e, t);
    PieceShape(e, script, from, to);
  }

  lemma ThreeParts(s: string, a: nat, b: nat, c: nat, d: nat)
    requires a <= b <= c <= d <= |s|
    ensures s[a..d] == s[a..b] + s[b..c] + s[c..d]
  {
  }

  lemma NothingBetween(e: Engine, script: string, from: nat, to: nat)
    requires from <= to <= |script| && AllTrimSpace(script[from..to])
    ensures StatementIn(e, script, from, to) == []
  {
    hide LeadSpace;
    SqlScript.TrimPositions(script[from..to]);
  }

  lemma RoutineText(def: string)
    ensures var s, n := Routine(def), |OPENING| + 1 + |def|;
      && |s| == n + 3 + |CLOSING| + 1 && s[|OPENING| + 1..n] == def && s[|OPENING| + 1..n + 2] == def + ";;"
      && s[|OPENING|..|OPENING| + 1] == "\n" && s[n + 2..n + 3] == "\n" && s[n + 3 + |CLOSING|..] == "\n"
  {
    var s, n := Routine(def), |OPENING| + 1 + |def|;
    var tail := ";;\n" + CLOSING + "\n";
    assert s == OPENING + "\n" + (def + tail);
    assert s[|OPENING| + 1..] == def + tail;
  }

  lemma DelimiterEnds(e: Engine, toks: seq<Lexeme>)
    requires toks != [] && toks[0].tok.Delimiter?
    ensures FirstEnd(e, Kinds(toks), 0)
  {
    KindsAt(toks);
  }

  /** The two tokens behind the definition: which of them ends the statement. */
  lemma RoutineFirstEnd(e: Engine, def: string)
    requires e.IsMysqlFamily() && Whole(e, def)
    ensures var toks := RoutineTokens(e, def);
      |toks| >= 2 && |Kinds(toks)| == |toks|
      && FirstEnd(e, Kinds(toks), if LeftOpen(e, def) then |toks| - 1 else |toks| - 2)
  {
    hide TokensTo, StopsAt, InBody;
    var toks := RoutineTokens(e, def);
    KindsAt(toks);
    var inner := TokensTo(e, AfterOpening(def), |OPENING| + 1, INSIDE, |def|);
    forall i | 0 <= i < |inner|
      ensures !EndsAt(e, Kinds(toks), i)
    {
      assert toks[i] == inner[i];
    }
  }

  /** The opening line yields nothing. */
  lemma OpeningGone(e: Engine, def: string)
    requires e.IsMysqlFamily() && Whole(e, def)
    ensures var s, toks := Routine(def), RoutineTokens(e, def);
      Ordered(toks, |OPENING|, |s|) && SplitSpans(e, s) == SplitFrom(e, s, toks, |OPENING|, FRESH)
  {
    RoutineLast(e, def);
    hide Lex, StatementIn, SplitFrom, SplitSpans, Ordered, RoutineTokens, FirstEnd, Routine, Whole, StopsAt;
    var script, toks := Routine(def), RoutineTokens(e, def);
    var all := Lex(e, script, 0, INITIAL);
    RoutineLexes(e, def);
    GuardLexer.SplitStart(e, script);
    assert all[1..] == toks && all[0].tok == Delimiter;
    DelimiterEnds(e, all);
    StatementEnds(e, script, all, 0, 0);
    assert script[0..0] == "";
    Spaces();
    NothingBetween(e, script, 0, 0);
  }

  /** Nothing but white space is left behind the closing line. */
  lemma ClosingGone(e: Engine, def: string, start: nat)
    requires var n := |OPENING| + 1 + |def|; start == n + 2 || start == n + 3 + |CLOSING|
    requires var t := Lexeme(|OPENING| + 1 + |def| + 3, Delimiter, |OPENING| + 1 + |def| + 3 + |CLOSING|);
      Ordered(if start < t.pos then [t] else [], start, |Routine(def)|)
    ensures var t := Lexeme(|OPENING| + 1 + |def| + 3, Delimiter, |OPENING| + 1 + |def| + 3 + |CLOSING|);
      SplitFrom(e, Routine(def), if start < t.pos then [t] else [], start, FRESH) == []
  {
    hide StatementIn, SplitFrom, Ordered, FirstEnd, Routine, IsTrimSpace;
    var script, n := Routine(def), |OPENING| + 1 + |def|;
    RoutineText(def);
    Spaces();
    if start == n + 2 {
      var toks := [Lexeme(n + 3, Delimiter, n + 3 + |CLOSING|)];
      DelimiterEnds(e, toks);
      StatementEnds(e, script, toks, start, 0);
      NothingBetween(e, script, n + 2, n + 3);
      assert toks[1..] == [];
    }
    GuardLexer.SplitEnd(e, script, n + 3 + |CLOSING|, FRESH);
    assert script[n + 3 + |CLOSING|..|script|] == script[n + 3 + |CLOSING|..];
    NothingBetween(e, script, n + 3 + |CLOSING|, |script|);
  }

  ghost predicate Created(e: Engine, def: string) {
    e.IsMysqlFamily() && Whole(e, def) && Next(e, def + ";;", INITIAL).tok == Some(Word("create"))
  }

  lemma OpenCandidate(e: Engine, def: string)
    requires Created(e, def)
    ensures var n := |OPENING| + 1 + |def|;
      && n + 3 <= |Routine(def)|
      && StatementIn(e, Routine(def), |OPENING|, n + 3) == [Span(|OPENING| + 1, n + 2)]
  {
    RoutineText(def);
    Spaces();
    var t, n := def + ";;", |OPENING| + 1 + |def|;
    assert |t| == |def| + 2 && t[|t| - 1] == ';';
    hide *;
    CreateBetween(e, Routine(def), |OPENING|, |OPENING| + 1, n + 3, t);
  }

  /** Its body seems unfinished: the span takes the delimiter in. */
  lemma SpanLeftOpen(e: Engine, def: string)
    requires Created(e, def) && LeftOpen(e, def)
    ensures SplitSpans(e, Routine(def)) == [Span(|OPENING| + 1, |OPENING| + 1 + |def| + 2)]
  {
    RoutineLast(e, def);
    OpeningGone(e, def);
    RoutineText(def);
    RoutineFirstEnd(e, def);
    Spaces();
    OpenCandidate(e, def);
    hide *;
    var script, toks := Routine(def), RoutineTokens(e, def);
    var n, k := |OPENING| + 1 + |def|, |toks|;
    StatementEnds(e, script, toks, |OPENING|, k - 1);
    assert toks[k..] == [];
    ClosingGone(e, def, n + 3 + |CLOSING|);
  }

  lemma ClosedCandidate(e: Engine, def: string)
    requires Created(e, def)
    ensures var n := |OPENING| + 1 + |def|;
      n <= |Routine(def)| && |Trim(def)| <= |def|
      && StatementIn(e, Routine(def), |OPENING|, n) == [Span(|OPENING| + 1, |OPENING| + 1 + |Trim(def)|)]
  {
    RoutineText(def);
    Spaces();
    TrimBegins(e, def);
    var s, a, n, m := Routine(def), |OPENING| + 1, |OPENING| + 1 + |def|, |Trim(def)|;
    SliceSlice(s, a, n, 0, m);
    SliceSlice(s, a, n, m, |def|);
    hide *;
    assert def[m..] == def[m..|def|] && def[..m] == def[0..m];
    CreateBetween(e, s, |OPENING|, a, n, Trim(def));
  }

  /** Otherwise the span is the definition, trimmed. */
  lemma SpanClosed(e: Engine, def: string)
    requires Created(e, def) && !LeftOpen(e, def)
    ensures |Trim(def)| <= |def|
    ensures SplitSpans(e, Routine(def)) == [Span(|OPENING| + 1, |OPENING| + 1 + |Trim(def)|)]
  {
    RoutineLast(e, def);
    OpeningGone(e, def);
    RoutineText(def);
    RoutineFirstEnd(e, def);
    Spaces();
    ClosedCandidate(e, def);
    hide *;
    var script, toks := Routine(def), RoutineTokens(e, def);
    var n, k := |OPENING| + 1 + |def|, |toks|;
    StatementEnds(e, script, toks, |OPENING|, k - 2);
    assert toks[k - 1..] == [toks[k - 1]];
    ClosingGone(e, def, n + 2);
  }

  /** A dump takes away the terminators at the end of a definition. */
  function Stripped(s: string): string {
    if s != "" && s[|s| - 1] == ';' then Stripped(s[..|s| - 1]) else s
  }

  function WriteRoutine(def: string): string {
    Routine(Stripped(Trim(def)))
  }

  lemma TrimmedText(e: Engine, def: string)
    requires Created(e, def)
    ensures var s, a := Routine(def), |OPENING| + 1;
      |Trim(def)| <= |def| && a + |def| + 2 <= |s| && s[a..a + |Trim(def)|] == Trim(def)
      && s[a..a + |def| + 2] == def + ";;"
  {
    RoutineText(def);
    TrimBegins(e, def);
    hide *;
    var a := |OPENING| + 1;
    SliceSlice(Routine(def), a, a + |def|, 0, |Trim(def)|);
  }

  lemma OneSpan(e: Engine, script: string, span: Span)
    requires SplitSpans(e, script) == [span]
    ensures span.from <= span.to <= |script| && Split(e, script) == [script[span.from..span.to]]
  {
    hide SplitSpans;
    assert span in SplitSpans(e, script);
  }

  /**
   What a dump writes for a routine of MySQL is split out whole, whatever terminators
   it holds; exactly when its body seems unfinished at the end, the delimiter stays on it.
   */
  lemma RoutineSplits(e: Engine, text: string)
    requires Created(e, Stripped(Trim(text)))
    ensures var def := Stripped(Trim(text));
      Split(e, WriteRoutine(text)) == [if LeftOpen(e, def) then def + ";;" else Trim(def)]
  {
    hide SplitSpans, Whole, LeftOpen, Routine, Trim, Stripped, Split, Next;
    var def, a := Stripped(Trim(text)), |OPENING| + 1;
    TrimmedText(e, def);
    if LeftOpen(e, def) {
      SpanLeftOpen(e, def);
      OneSpan(e, Routine(def), Span(a, a + |def| + 2));
    } else {
      SpanClosed(e, def);
      OneSpan(e, Routine(def), Span(a, a + |Trim(def)|));
    }
  }

  lemma Spaces()
    ensures AllTrimSpace("\n") && AllTrimSpace("") && !IsTrimSpace(';')
  {
  }

  lemma RoutineLast(e: Engine, def: string)
    requires Whole(e, def)
    ensures StopsAt(e, AfterOpening(def), INSIDE, |def|)
    ensures var toks := RoutineTokens(e, def); var n := |OPENING| + 1 + |def|;
      && |toks| >= 2 && toks[|toks| - 2] == Lexeme(n, End, n + 2)
      && toks[|toks| - 1] == Lexeme(n + 3, Delimiter, n + 3 + |CLOSING|)
  {
    hide TokensTo, StopsAt;
  }

  lemma TrimBegins(e: Engine, def: string)
    requires Next(e, def + ";;", INITIAL).tok == Some(Word("create"))
    ensures |Trim(def)| <= |def| && Trim(def) == def[..|Trim(def)|] && AllTrimSpace(def[|Trim(def)|..])
    ensures Trim(def) != "" && !IsTrimSpace(Trim(def)[|Trim(def)| - 1])
    ensures Next(e, Trim(def), INITIAL).tok == Some(Word("create"))
  {
    hide Next, WordLen, Trim, LeadSpace, IsTrimSpace, IsWordPart, AllTrimSpace;
    var s := def + ";;";
    FirstWordIs(e, s);
    SemicolonIsNoWord();
    WordLenWithin(def);
    WordPartSolid();
    assert IsWordPart(def[0]) && IsWordPart(def[5]) by {
      assert s[0] == def[0] && s[5] == def[5];
    }
    TrimShape(def);
    SolidInTrim(def, 0);
    SolidInTrim(def, 5);
    assert s[..|Trim(def)|] == Trim(def);
    FirstWordStays(e, s, |Trim(def)|);
  }

  lemma SemicolonIsNoWord()
    ensures !IsWordPart(';')
  {
  }

  lemma WordLenWithin(def: string)
    ensures WordLen(def + ";;") <= |def|
  {
    hide IsWordPart;
    SemicolonIsNoWord();
    var s, n := def + ";;", WordLen(def + ";;");
    assert s[|def|] == ';';
    assert forall i :: 0 <= i < n ==> IsWordPart(s[i]);
  }
}
