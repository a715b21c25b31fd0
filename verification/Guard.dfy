/**
 Splitting a SQL script into statements and deciding how risky each one is.

 A script is lexed by `Next`, one step at a time; `Lex` is the whole token
 list. `SplitFrom` walks the tokens and cuts the script at terminators. Text is
 a sequence of characters, and offsets count characters.
 */
module Guard {
  import opened Prelude
  import opened Engines

  datatype Tok = Word(text: string) | Open | Close | End | Go | Delimiter | Other

  /** A token and the stretch of text it covers. */
  datatype Lexeme = Lexeme(pos: nat, tok: Tok, stop: nat)


  /** What the lexer remembers between tokens. */
  datatype LexState = LexState(lineStart: bool, delimiter: string)

  const INITIAL := LexState(true, ";")

  /** One lexer step: a token, or text it passes over silently. */
  datatype Step = Step(tok: Option<Tok>, len: nat, state: LexState)

  // ------------------------------------------------------------------ characters

  predicate IsLexSpace(c: char) {
    c == ' ' || c == '\t' || c == '\n' || c == '\r' || c as int == 0x0C
  }

  predicate IsAlpha(c: char) {
    'a' <= c <= 'z' || 'A' <= c <= 'Z'
  }

  predicate IsDigit(c: char) {
    '0' <= c <= '9'
  }

  predicate IsWordStart(c: char) {
    IsAlpha(c) || c == '_'
  }

  predicate IsWordPart(c: char) {
    IsAlpha(c) || IsDigit(c) || c == '_' || c == '$'
  }

  predicate IsTagChar(c: char) {
    IsAlpha(c) || IsDigit(c) || c == '_'
  }

  // ------------------------------------------------------------------ scanners

  /** Length of the text up to and including the closing quote; `s` starts just past the opening one. */
  function QuotedTail(s: string, quote: char, backslash: bool): (n: nat)
    ensures n <= |s|
  {
    if s == "" then 0
    else if backslash && s[0] == '\\' then
      if |s| == 1 then 1 else 2 + QuotedTail(s[2..], quote, backslash)
    else if s[0] == quote then
      if |s| > 1 && s[1] == quote then 2 + QuotedTail(s[2..], quote, backslash) else 1
    else 1 + QuotedTail(s[1..], quote, backslash)
  }

  /** `$`, then letters, digits and underscores, then `$`. */
  predicate IsTag(tag: string) {
    forall i :: 1 <= i < |tag| - 1 ==> IsTagChar(tag[i])
  }

  /** Length of a dollar-quoted string whose opening tag is `n` characters long. */
  function DollarBody(s: string, n: nat): (len: nat)
    requires n <= |s|
    ensures n <= len <= |s|
  {
    match Find(s[n..], s[..n])
    case None => |s|
    case Some(c) => n + c + n
  }

  /** Length of `$tag$ ... $tag$`, or `None` when this `$` opens nothing. */
  function DollarLen(s: string): (r: Option<nat>)
    requires s != "" && s[0] == '$'
    ensures r.Some? ==> 1 <= r.value <= |s|
  {
    match Find(s[1..], "$")
    case None => None
    case Some(k) => if IsTag(s[..k + 2]) then Some(DollarBody(s, k + 2)) else None
  }

  /** Length up to the end of the line, newline excluded. */
  function LineLen(s: string): (n: nat)
    ensures n <= |s|
    ensures forall i :: 0 <= i < n ==> s[i] != '\n'
    ensures n < |s| ==> s[n] == '\n'
  {
    if s == "" || s[0] == '\n' then 0 else 1 + LineLen(s[1..])
  }

  function CommentLen(s: string): (n: nat)
    requires |s| >= 2
    ensures 2 <= n <= |s|
  {
    match Find(s[2..], "*/")
    case None => |s|
    case Some(k) => 2 + k + 2
  }

  function WordLen(s: string): (n: nat)
    ensures n <= |s|
    ensures forall i :: 0 <= i < n ==> IsWordPart(s[i])
    ensures n < |s| ==> !IsWordPart(s[n])
  {
    if s == "" || !IsWordPart(s[0]) then 0 else 1 + WordLen(s[1..])
  }

  predicate AllDigits(s: string) {
    forall c :: c in s ==> IsDigit(c)
  }

  /** A word, or the MySQL `DELIMITER` and SQL Server `GO` lines that begin like one. */
  function NextWord(e: Engine, s: string, st: LexState): (r: Step)
    requires s != "" && IsWordStart(s[0])
    ensures 1 <= r.len <= |s|
    ensures r.tok.Some? && !r.state.lineStart
  {
    var n := WordLen(s);
    var word := Lower(s[..n]);
    var lineEnd := n + LineLen(s[n..]);
    var quiet := st.(lineStart := false);
    if e.IsMysqlFamily() && st.lineStart && word == "delimiter" && Trim(s[n..lineEnd]) != "" then
      Step(Some(Delimiter), lineEnd, quiet.(delimiter := Trim(s[n..lineEnd])))
    else if e.Mssql? && st.lineStart && word == "go" && AllDigits(Trim(s[n..lineEnd])) then
      Step(Some(Go), lineEnd, quiet)
    else
      Step(Some(Word(word)), n, quiet)
  }

  /** One step of the lexer at the head of `s`. */
  function Next(e: Engine, s: string, st: LexState): (r: Step)
    requires s != ""
    ensures 1 <= r.len <= |s|
  {
    var c := s[0];
    var quiet := st.(lineStart := false);
    var mysql := e.IsMysqlFamily();
    if c == '\n' then Step(None, 1, st.(lineStart := true))
    else if IsLexSpace(c) then Step(None, 1, st)
    else if mysql && st.delimiter != ";" && st.delimiter != ""
      && st.delimiter <= s then Step(Some(End), |st.delimiter|, quiet)
    else if (c == '-' && |s| > 1 && s[1] == '-') || (mysql && c == '#') then Step(None, LineLen(s), quiet)
    else if c == '/' && |s| > 1 && s[1] == '*' then Step(None, CommentLen(s), quiet)
    else if c == '\'' || c == '"' then Step(Some(Other), 1 + QuotedTail(s[1..], c, mysql), quiet)
    else if c == '`' then Step(Some(Other), 1 + QuotedTail(s[1..], c, false), quiet)
    else if c == '[' && e.Mssql? then Step(Some(Other), 1 + QuotedTail(s[1..], ']', false), quiet)
    else if c == '$' && e.Postgres? && DollarLen(s).Some? then Step(Some(Other), DollarLen(s).value, quiet)
    else if c == '(' then Step(Some(Open), 1, quiet)
    else if c == ')' then Step(Some(Close), 1, quiet)
    else if c == ';' && (!mysql || st.delimiter == ";") then Step(Some(End), 1, quiet)
    else if IsWordStart(c) then NextWord(e, s, st)
    else Step(Some(Other), 1, quiet)
  }

  /** The token a step yields, if it yields one. */
  function Yield(r: Step, base: nat): seq<Lexeme> {
    if r.tok.Some? then [Lexeme(base, r.tok.value, base + r.len)] else []
  }

  /** Every token of `s`, whose first character stands at offset `base`. */
  function Lex(e: Engine, s: string, base: nat, st: LexState): seq<Lexeme>
    decreases |s|
  {
    if s == "" then []
    else
      var r := Next(e, s, st);
      Yield(r, base) + Lex(e, s[r.len..], base + r.len, r.state)
  }

  predicate HasWord(toks: seq<Lexeme>) {
    exists i :: 0 <= i < |toks| && toks[i].tok.Word?
  }

  // ------------------------------------------------------------------ splitting

  datatype Span = Span(from: nat, to: nat)

  function TextAt(script: string, span: Span): string
    requires span.from <= span.to <= |script|
  {
    script[span.from..span.to]
  }

  /** The statement lying in `script[from..to]`, trimmed; nothing when it holds no word. */
  function StatementIn(e: Engine, script: string, from: nat, to: nat): (r: seq<Span>)
    requires from <= to <= |script|
    ensures forall s :: s in r ==> from <= s.from <= s.to <= to
    ensures |r| <= 1
  {
    var raw := script[from..to];
    var text := Trim(raw);
    if text != "" && HasWord(Lex(e, text, 0, INITIAL))
    then [Span(from + LeadSpace(raw), from + LeadSpace(raw) + |text|)]
    else []
  }

  /** Where the splitter stands inside the current statement. */
  datatype Flow = Flow(first: Option<string>, compound: bool, depth: int)

  const FRESH := Flow(None, false, 0)

  predicate CompoundBodies(e: Engine) {
    e.IsMysqlFamily() || e.Sqlite?
  }

  /** Is the next significant token one of the words that follow `END` in a loop? */
  predicate LoopAhead(toks: seq<Tok>) {
    toks != [] &&
    match toks[0]
    case Word(w) => w in {"if", "loop", "while", "repeat"}
    case Other => false
    case Open => false
    case Close => false
    case _ => LoopAhead(toks[1..])
  }

  function AdvanceWord(e: Engine, flow: Flow, w: string, loopAhead: bool): Flow {
    var first := if flow.first.None? then Some(w) else flow.first;
    var compound := flow.compound ||
      (CompoundBodies(e) && first == Some("create") && flow.depth == 0
        && w in {"trigger", "procedure", "function", "event"});
    var depth :=
      if !compound then flow.depth
      else if w == "begin" || w == "case" then flow.depth + 1
      else if w == "end" && !loopAhead then flow.depth - 1
      else flow.depth;
    Flow(first, compound, depth)
  }

  /** The flow after a token that does not end the statement. */
  function Advance(e: Engine, flow: Flow, tok: Tok, loopAhead: bool): Flow {
    if tok.Word? then AdvanceWord(e, flow, tok.text, loopAhead) else flow
  }

  predicate Cuts(e: Engine, flow: Flow, tok: Tok) {
    || (tok.End? && !e.Mssql? && flow.depth <= 0)
    || tok.Go?
    || tok.Delimiter?
  }

  function Kinds(toks: seq<Lexeme>): seq<Tok> {
    if toks == [] then [] else [toks[0].tok] + Kinds(toks[1..])
  }

  lemma KindsAt(toks: seq<Lexeme>)
    ensures |Kinds(toks)| == |toks|
    ensures forall i :: 0 <= i < |toks| ==> Kinds(toks)[i] == toks[i].tok
  {
  }

  /** Every token lies inside the script, in order, at or after `from`. */
  predicate Ordered(toks: seq<Lexeme>, from: nat, size: nat) {
    if toks == [] then from <= size
    else from <= toks[0].pos < toks[0].stop <= size && Ordered(toks[1..], toks[0].stop, size)
  }

  lemma OrderedWeaken(toks: seq<Lexeme>, from: nat, from': nat, size: nat)
    requires Ordered(toks, from, size) && from' <= from
    ensures Ordered(toks, from', size)
  {
  }

  lemma OrderedYield(r: Step, base: nat, rest: seq<Lexeme>, size: nat)
    requires r.len > 0 && Ordered(rest, base + r.len, size)
    ensures Ordered(Yield(r, base) + rest, base, size)
  {
    OrderedBound(rest, base + r.len, size);
    if r.tok.Some? {
      assert (Yield(r, base) + rest)[1..] == rest;
    } else {
      assert Yield(r, base) + rest == rest;
      OrderedWeaken(rest, base + r.len, base, size);
    }
  }

  lemma OrderedBound(toks: seq<Lexeme>, from: nat, size: nat)
    requires Ordered(toks, from, size)
    ensures from <= size
  {
  }

  lemma {:induction false} LexOrdered(e: Engine, s: string, base: nat, st: LexState)
    ensures Ordered(Lex(e, s, base, st), base, base + |s|)
    decreases |s|
  {
    hide Next, Ordered, Yield;
    if s == "" {
      NoneOrdered(base);
    } else {
      var r := Next(e, s, st);
      LexOrdered(e, s[r.len..], base + r.len, r.state);
      OrderedYield(r, base, Lex(e, s[r.len..], base + r.len, r.state), base + |s|);
    }
  }

  lemma NoneOrdered(from: nat)
    ensures Ordered([], from, from)
  {
  }

  /** The statements cut from the rest of the script, given the tokens still to read. */
  function SplitFrom(e: Engine, script: string, toks: seq<Lexeme>, start: nat, flow: Flow): (r: seq<Span>)
    requires Ordered(toks, start, |script|)
    ensures forall s :: s in r ==> start <= s.from <= s.to <= |script|
    decreases |toks|
  {
    if toks == [] then StatementIn(e, script, start, |script|)
    else if Cuts(e, flow, toks[0].tok) then
      StatementIn(e, script, start, toks[0].pos) + SplitFrom(e, script, toks[1..], toks[0].stop, FRESH)
    else
      OrderedWeaken(toks[1..], toks[0].stop, start, |script|);
      SplitFrom(e, script, toks[1..], start, Advance(e, flow, toks[0].tok, LoopAhead(Kinds(toks[1..]))))
  }

  function SplitSpans(e: Engine, script: string): (r: seq<Span>)
    ensures forall s :: s in r ==> s.from <= s.to <= |script|
  {
    LexOrdered(e, script, 0, INITIAL);
    SplitFrom(e, script, Lex(e, script, 0, INITIAL), 0, FRESH)
  }

  /** The statements of a script, trimmed. */
  function Split(e: Engine, script: string): (r: seq<string>)
    ensures |r| == |SplitSpans(e, script)|
    ensures forall i :: 0 <= i < |r| ==> r[i] == TextAt(script, SplitSpans(e, script)[i])
  {
    var spans := SplitSpans(e, script);
    assert forall i :: 0 <= i < |spans| ==> spans[i] in spans;
    seq(|spans|, i requires 0 <= i < |spans| => TextAt(script, spans[i]))
  }

  // ------------------------------------------------------------------ risk

  /** Why a statement deserves a second look. */
  datatype Reason = Drops(what: string) | Truncates | Unfiltered(verb: string) | AlterDrops

  datatype Risk = Read | Session | Write | Danger(reason: Reason)

  /** Words at parenthesis depth zero or below. */
  function TopWords(toks: seq<Tok>, depth: int): seq<string> {
    if toks == [] then []
    else
      match toks[0]
      case Open => TopWords(toks[1..], depth + 1)
      case Close => TopWords(toks[1..], depth - 1)
      case Word(w) => (if depth <= 0 then [w] else []) + TopWords(toks[1..], depth)
      case _ => TopWords(toks[1..], depth)
  }

  function LexKinds(e: Engine, sql: string): seq<Tok> {
    Kinds(Lex(e, sql, 0, INITIAL))
  }

  const WRITE_VERBS: set<string> := {"insert", "update", "delete", "merge"}
  const EXPLAINED_VERBS: set<string> := {"select", "insert", "update", "delete", "with", "values", "merge", "create"}
  const READ_VERBS: set<string> := {"select", "show", "describe", "desc", "values", "table", "help"}
  const SESSION_VERBS: set<string> :=
    {"begin", "start", "commit", "rollback", "savepoint", "release", "set", "use", "reset", "discard"}

  function FirstVerb(words: seq<string>): (r: Option<string>)
    ensures r.Some? ==> r.value in words && r.value in EXPLAINED_VERBS
  {
    if words == [] then None
    else if words[0] in EXPLAINED_VERBS then Some(words[0])
    else FirstVerb(words[1..])
  }

  /**
   The risk of a single statement. `EXPLAIN ANALYZE` is classified by the text
   that starts at its verb, which is shorter than the statement.
   */
  function Classify(e: Engine, sql: string): Risk
    decreases |sql|, 1
  {
    var words := TopWords(LexKinds(e, sql), 0);
    if words == [] then Read
    else if words[0] in READ_VERBS then
      if words[0] == "select" && "into" in words then Write else Read
    else if words[0] == "explain" then
      if "analyze" in words || "analyse" in words then ClassifyRest(e, sql) else Read
    else if words[0] == "pragma" then
      if '=' in sql then Write else Read
    else if words[0] == "with" then
      if exists i :: 0 <= i < |LexKinds(e, sql)| && LexKinds(e, sql)[i].Word? && LexKinds(e, sql)[i].text in WRITE_VERBS
      then Write else Read
    else if words[0] in SESSION_VERBS then Session
    else if words[0] == "drop" then Danger(Drops(if |words| > 1 then Upper(words[1]) else ""))
    else if words[0] == "truncate" then Danger(Truncates)
    else if words[0] == "delete" || words[0] == "update" then
      if "where" in words then Write else Danger(Unfiltered(Upper(words[0])))
    else if words[0] == "alter" then
      if "drop" in words then Danger(AlterDrops) else Write
    else Write
  }

  /** The verdict on whatever follows `EXPLAIN`'s options. */
  function ClassifyRest(e: Engine, sql: string): Risk
    requires var words := TopWords(LexKinds(e, sql), 0); words != [] && words[0] == "explain"
    decreases |sql|, 0
  {
    match FirstVerb(TopWords(LexKinds(e, sql), 0))
    case None => Write
    case Some(verb) =>
      match Find(Lower(sql), verb)
      case None => Write
      case Some(at) =>
        VerbComesLater(e, sql, verb);
        Classify(e, sql[at..])
  }

  lemma VerbShape(verb: string)
    requires verb in EXPLAINED_VERBS
    ensures |verb| >= 4
    ensures verb[0] in {'s', 'i', 'u', 'd', 'w', 'v', 'm', 'c'}
    ensures verb[0] == 'd' ==> verb[3] == 'e'
  {
  }

  lemma LexHead(e: Engine, s: string)
    requires s != "" && Next(e, s, INITIAL).tok.Some?
    ensures LexKinds(e, s) != [] && LexKinds(e, s)[0] == Next(e, s, INITIAL).tok.value
  {
  }

  lemma TopWordFirst(toks: seq<Tok>)
    requires toks != [] && toks[0].Word?
    ensures TopWords(toks, 0) != [] && TopWords(toks, 0)[0] == toks[0].text
  {
  }

  lemma NextIsWord(e: Engine, s: string)
    requires s != "" && IsAlpha(s[0])
    ensures Next(e, s, INITIAL) == NextWord(e, s, INITIAL)
  {
    hide NextWord;
  }

  lemma NextWordIs(e: Engine, s: string)
    requires s != "" && IsWordStart(s[0])
    ensures var t, w := NextWord(e, s, INITIAL).tok.value, Lower(s[..WordLen(s)]);
      (t.Delimiter? && w == "delimiter") || (t.Go? && w == "go") || t == Word(w)
  {
    hide Lower, Trim, LineLen, AllDigits;
  }

  /** What the head of the text can spell when its first word is `explain`. */
  lemma HeadIsNoVerb(e: Engine, sql: string)
    requires var words := TopWords(LexKinds(e, sql), 0); words != [] && words[0] == "explain"
    requires sql != "" && IsAlpha(sql[0])
    ensures var w := Lower(sql[..WordLen(sql)]); w == "explain" || w == "delimiter" || w == "go"
  {
    hide Next, NextWord, LexKinds, TopWords, Lower;
    NextIsWord(e, sql);
    NextWordIs(e, sql);
    LexHead(e, sql);
    if LexKinds(e, sql)[0].Word? {
      TopWordFirst(LexKinds(e, sql));
    }
  }

  /** A statement whose first word is `explain` does not begin with the explained verb, so `Classify` terminates. */
  lemma VerbComesLater(e: Engine, sql: string, verb: string)
    requires var words := TopWords(LexKinds(e, sql), 0); words != [] && words[0] == "explain"
    requires verb in EXPLAINED_VERBS
    ensures !(verb <= Lower(sql))
  {
    hide Next, Lex, TopWords, LexKinds;
    VerbShape(verb);
    LowerFirst(sql);
    if sql != "" && IsAlpha(sql[0]) {
      HeadIsNoVerb(e, sql);
      LowerPrefix(sql, WordLen(sql));
      var w := Lower(sql[..WordLen(sql)]);
      assert w[0] == Lower(sql)[0];
      if w == "delimiter" {
        assert w[3] == Lower(sql)[3];
      }
    }
  }

  lemma LowerFirst(s: string)
    ensures s != "" ==> Lower(s)[0] == LowerChar(s[0])
  {
  }

  lemma {:induction false} LowerPrefix(s: string, n: nat)
    requires n <= |s|
    ensures Lower(s[..n]) == Lower(s)[..n]
  {
    if n > 0 {
      assert s[..n][1..] == s[1..][..n - 1];
      LowerPrefix(s[1..], n - 1);
    }
  }
}
