/** The lexer and the splitter as they run: a cursor over the script, and a loop over its tokens. */
module GuardLexer {
  import opened Prelude
  import opened Engines
  import opened Guard

  /** Where a quoted text ends, when `i` is inside it. */
  function QuotedEnd(src: string, i: nat, quote: char, backslash: bool): (n: nat)
    requires i <= |src|
    ensures i <= n <= |src|
  {
    i + QuotedTail(src[i..], quote, backslash)
  }

  lemma QuotedEndStep(src: string, i: nat, quote: char, backslash: bool)
    requires i < |src|
    ensures QuotedEnd(src, i, quote, backslash) ==
      if backslash && src[i] == '\\' then QuotedEnd(src, Min(i + 2, |src|), quote, backslash)
      else if src[i] == quote then
        if i + 1 < |src| && src[i + 1] == quote then QuotedEnd(src, i + 2, quote, backslash) else i + 1
      else QuotedEnd(src, i + 1, quote, backslash)
  {
    assert src[i..][1..] == src[i + 1..];
    if i + 1 < |src| {
      assert src[i..][2..] == src[i + 2..];
    }
  }

  lemma QuotedEndStop(src: string, quote: char, backslash: bool)
    ensures QuotedEnd(src, |src|, quote, backslash) == |src|
  {
  }

  /** The end of the line that `i` is on. */
  function LineEnd(src: string, i: nat): (n: nat)
    requires i <= |src|
    ensures i <= n <= |src|
  {
    var newline := Find(src[i..], "\n");
    if newline.Some? then i + newline.value else |src|
  }

  function WordEnd(src: string, i: nat): (n: nat)
    requires i <= |src|
    ensures i <= n <= |src|
  {
    i + WordLen(src[i..])
  }

  /** `NextWord`, read at an offset. */
  lemma NextWordAt(e: Engine, src: string, start: nat, st: LexState)
    requires start < |src| && IsWordStart(src[start])
    ensures
      var i := WordEnd(src, start);
      var lineEnd := LineEnd(src, i);
      var word, line, quiet := Lower(src[start..i]), Trim(src[i..lineEnd]), st.(lineStart := false);
      NextWord(e, src[start..], st) ==
        if e.IsMysqlFamily() && st.lineStart && word == "delimiter" && line != ""
        then Step(Some(Delimiter), lineEnd - start, quiet.(delimiter := line))
        else if e.Mssql? && st.lineStart && word == "go" && AllDigits(line)
        then Step(Some(Go), lineEnd - start, quiet)
        else Step(Some(Word(word)), i - start, quiet)
  {
    hide WordLen, LineLen, Find, Lower, Trim;
    var s := src[start..];
    var n, i := WordLen(s), WordEnd(src, start);
    assert s[..n] == src[start..i] && s[n..] == src[i..];
    LineLenIsFind(src[i..]);
    var m := n + LineLen(s[n..]);
    assert m == LineEnd(src, i) - start;
    assert s[n..m] == src[i..LineEnd(src, i)];
  }

  class Lexer {
    const engine: Engine
    const src: string
    var i: nat
    var lineStart: bool
    var delimiter: string

    constructor (engine: Engine, src: string)
      ensures this.engine == engine && this.src == src
      ensures Valid() && Rest() == Lex(engine, src, 0, INITIAL)
    {
      this.engine, this.src := engine, src;
      i, lineStart, delimiter := 0, true, ";";
      new;
      assert src[0..] == src;
    }

    /** A backslash at the very end can carry the cursor one past the end. */
    ghost predicate Valid()
      reads this
    {
      i <= |src| + 1
    }

    ghost function At(): (n: nat)
      requires Valid()
      reads this
      ensures n <= |src|
    {
      Min(i, |src|)
    }

    ghost function State(): LexState
      reads this
    {
      LexState(lineStart, delimiter)
    }

    /** The tokens still to come. */
    ghost function Rest(): seq<Lexeme>
      requires Valid()
      reads this
    {
      Lex(engine, src[At()..], At(), State())
    }

    /** The step the lexer takes at the cursor. */
    ghost function Here(): (r: Step)
      requires Valid() && i < |src|
      reads this
    {
      Guard.Next(engine, src[i..], State())
    }

    lemma Unfold()
      requires Valid() && i < |src|
      ensures 1 <= Here().len <= |src| - i
      ensures Rest() == Yield(Here(), i) + Lex(engine, src[i + Here().len..], i + Here().len, Here().state)
    {
      hide Guard.Next;
      assert src[i..][Here().len..] == src[i + Here().len..];
    }

    method SkipQuoted(quote: char, backslash: bool)
      requires Valid() && i < |src|
      modifies this`i
      ensures Valid()
      ensures At() == QuotedEnd(src, old(i) + 1, quote, backslash)
    {
      hide QuotedEnd, QuotedTail;
      i := i + 1;
      while i < |src|
        invariant Valid() && old(i) < i
        invariant QuotedEnd(src, At(), quote, backslash) == QuotedEnd(src, old(i) + 1, quote, backslash)
        decreases |src| + 1 - i
      {
        var c := src[i];
        QuotedEndStep(src, i, quote, backslash);
        if backslash && c == '\\' {
          i := i + 2;
          continue;
        }
        if c == quote {
          if i + 1 < |src| && src[i + 1] == quote {
            i := i + 2;
            continue;
          }
          i := i + 1;
          return;
        }
        i := i + 1;
      }
      QuotedEndStop(src, quote, backslash);
    }

    method SkipDollar() returns (opens: bool)
      requires Valid() && i < |src| && src[i] == '$'
      modifies this`i
      ensures Valid()
      ensures var r := DollarLen(src[old(i)..]);
        opens == r.Some? && i == old(i) + (if r.Some? then r.value else 0)
    {
      var rest := src[i..];
      var end := Find(rest[1..], "$");
      if end.None? {
        return false;
      }
      var tag := rest[..end.value + 2];
      if !IsTag(tag) {
        return false;
      }
      var close := Find(rest[|tag|..], tag);
      if close.Some? {
        i := i + |tag| + close.value + |tag|;
      } else {
        i := |src|;
      }
      return true;
    }

    method SkipWord()
      requires Valid() && i < |src|
      modifies this`i
      ensures Valid() && i == WordEnd(src, old(i))
    {
      while i < |src| && IsWordPart(src[i])
        invariant old(i) <= i <= |src|
        invariant WordEnd(src, i) == WordEnd(src, old(i))
      {
        assert src[i..][1..] == src[i + 1..];
        i := i + 1;
      }
    }

    /** A word, or the directive line that begins like one. */
    method ReadWord(atLineStart: bool) returns (tok: Tok)
      requires Valid() && i < |src| && IsWordStart(src[i])
      modifies this`i, this`delimiter
      ensures Valid()
      ensures var r := NextWord(engine, src[old(i)..], LexState(atLineStart, old(delimiter)));
        r.tok == Some(tok) && i == old(i) + r.len && delimiter == r.state.delimiter
    {
      hide WordEnd, LineEnd, NextWord, Lower, Trim;
      var start := i;
      NextWordAt(engine, src, start, LexState(atLineStart, delimiter));
      SkipWord();
      var word := Lower(src[start..i]);
      var lineEnd := LineEnd(src, i);
      var line := Trim(src[i..lineEnd]);
      if engine.IsMysqlFamily() && atLineStart && word == "delimiter" && line != "" {
        delimiter := line;
        i := lineEnd;
        return Delimiter;
      }
      if engine.Mssql? && atLineStart && word == "go" && AllDigits(line) {
        i := lineEnd;
        return Go;
      }
      return Word(word);
    }

    /** Passes over white space or a comment, if the cursor stands on one. */
    method Pass() returns (passed: bool)
      requires Valid() && i < |src|
      modifies this`i, this`lineStart
      ensures Valid()
      ensures passed == old(Here()).tok.None?
      ensures passed ==> i == old(i) + old(Here()).len && State() == old(Here()).state
      ensures !passed ==> i == old(i) && lineStart == old(lineStart)
    {
      hide LineLen, CommentLen, QuotedTail, DollarLen, NextWord;
      var c := src[i];
      var mysql := engine.IsMysqlFamily();
      var after := if i + 1 < |src| then Some(src[i + 1]) else None;
      if c == '\n' {
        lineStart := true;
        i := i + 1;
        return true;
      }
      if IsLexSpace(c) {
        i := i + 1;
        return true;
      }
      if mysql && delimiter != ";" && delimiter != "" && delimiter <= src[i..] {
        return false;
      }
      if (c == '-' && after == Some('-')) || (mysql && c == '#') {
        lineStart := false;
        SkipLine();
        return true;
      }
      if c == '/' && after == Some('*') {
        lineStart := false;
        SkipComment();
        return true;
      }
      return false;
    }

    /** Takes the token the cursor stands on. */
    method Take() returns (l: Lexeme)
      requires Valid() && i < |src| && Here().tok.Some?
      modifies this
      ensures Valid()
      ensures l == Lexeme(old(i), old(Here()).tok.value, At())
      ensures At() == old(i) + old(Here()).len && State() == old(Here()).state
    {
      hide LineLen, CommentLen, QuotedTail, DollarLen, NextWord;
      var start := i;
      var c := src[i];
      var atLineStart := lineStart;
      var mysql := engine.IsMysqlFamily();
      ghost var s := src[start..];
      assert s[1..] == src[start + 1..] && s[0] == c;
      lineStart := false;
      if mysql && delimiter != ";" && delimiter != "" && delimiter <= src[i..] {
        i := i + |delimiter|;
        return Lexeme(start, End, i);
      }
      if c == '\'' || c == '"' {
        SkipQuoted(c, mysql);
        return Lexeme(start, Other, Min(i, |src|));
      }
      if c == '`' {
        SkipQuoted('`', false);
        return Lexeme(start, Other, Min(i, |src|));
      }
      if c == '[' && engine.Mssql? {
        SkipQuoted(']', false);
        return Lexeme(start, Other, Min(i, |src|));
      }
      if c == '$' && engine.Postgres? {
        var opens := SkipDollar();
        if opens {
          return Lexeme(start, Other, i);
        }
      }
      if c == '(' {
        i := i + 1;
        return Lexeme(start, Open, i);
      }
      if c == ')' {
        i := i + 1;
        return Lexeme(start, Close, i);
      }
      if c == ';' && (!mysql || delimiter == ";") {
        i := i + 1;
        return Lexeme(start, End, i);
      }
      if IsWordStart(c) {
        var tok := ReadWord(atLineStart);
        return Lexeme(start, tok, i);
      }
      i := i + 1;
      return Lexeme(start, Other, i);
    }

    /** The next token, or `None` at the end of the script. */
    method Next() returns (r: Option<Lexeme>)
      requires Valid()
      modifies this
      ensures Valid()
      ensures r.None? ==> old(Rest()) == []
      ensures r.Some? ==> old(Rest()) == [r.value] + Rest() && old(At()) < At()
    {
      hide Guard.Next, Lex, Here;
      while i < |src|
        invariant Valid() && old(Rest()) == Rest() && old(At()) <= At()
        decreases |src| + 1 - i
      {
        Unfold();
        var passed := Pass();
        if !passed {
          var l := Take();
          return Some(l);
        }
      }
      AtEnd();
      return None;
    }

    lemma AtEnd()
      requires Valid() && i >= |src|
      ensures Rest() == []
    {
    }

    method SkipLine()
      requires Valid() && i < |src|
      modifies this`i
      ensures Valid() && i == old(i) + LineLen(src[old(i)..])
    {
      while i < |src| && src[i] != '\n'
        invariant old(i) <= i <= |src|
        invariant i + LineLen(src[i..]) == old(i) + LineLen(src[old(i)..])
      {
        assert src[i..][1..] == src[i + 1..];
        i := i + 1;
      }
    }

    method SkipComment()
      requires Valid() && i + 1 < |src|
      modifies this`i
      ensures Valid() && i == old(i) + CommentLen(src[old(i)..])
    {
      assert src[i..][2..] == src[i + 2..];
      var end := Find(src[i + 2..], "*/");
      if end.Some? {
        i := i + 2 + end.value + 2;
      } else {
        i := |src|;
      }
    }
  }

  /** Every token of a script, collected. */
  method Tokens(e: Engine, script: string) returns (toks: seq<Lexeme>)
    ensures toks == Lex(e, script, 0, INITIAL)
  {
    hide Lex;
    var lexer := new Lexer(e, script);
    toks := [];
    while true
      invariant lexer.Valid() && fresh(lexer) && lexer.src == script
      invariant toks + lexer.Rest() == Lex(e, script, 0, INITIAL)
      decreases |script| - lexer.At()
    {
      var t := lexer.Next();
      if t.None? {
        return;
      }
      toks := toks + [t.value];
    }
  }

  /** One turn of the splitting loop. */
  lemma SplitStep(e: Engine, script: string, toks: seq<Lexeme>, start: nat, flow: Flow)
    requires toks != [] && Ordered(toks, start, |script|)
    ensures start <= toks[0].pos < toks[0].stop <= |script|
    ensures Ordered(toks[1..], toks[0].stop, |script|) && Ordered(toks[1..], start, |script|)
    ensures SplitFrom(e, script, toks, start, flow)
      == if Cuts(e, flow, toks[0].tok)
         then StatementIn(e, script, start, toks[0].pos) + SplitFrom(e, script, toks[1..], toks[0].stop, FRESH)
         else SplitFrom(e, script, toks[1..], start, Advance(e, flow, toks[0].tok, LoopAhead(Kinds(toks[1..]))))
  {
    hide StatementIn, Cuts, Advance, LoopAhead, Kinds;
    OrderedWeaken(toks[1..], toks[0].stop, start, |script|);
  }

  lemma SplitEnd(e: Engine, script: string, start: nat, flow: Flow)
    requires Ordered([], start, |script|)
    ensures start <= |script| && SplitFrom(e, script, [], start, flow) == StatementIn(e, script, start, |script|)
  {
  }

  lemma SplitStart(e: Engine, script: string)
    ensures Ordered(Lex(e, script, 0, INITIAL), 0, |script|)
    ensures SplitSpans(e, script) == SplitFrom(e, script, Lex(e, script, 0, INITIAL), 0, FRESH)
  {
    LexOrdered(e, script, 0, INITIAL);
  }

  /** The splitting loop. */
  method SplitLoop(e: Engine, script: string) returns (out: seq<Span>)
    ensures out == SplitSpans(e, script)
  {
    hide *;
    var toks := Tokens(e, script);
    SplitStart(e, script);
    out := [];
    var start, flow := 0, FRESH;
    assert toks[0..] == toks;
    for i := 0 to |toks|
      invariant Ordered(toks[i..], start, |script|)
      invariant out + SplitFrom(e, script, toks[i..], start, flow) == SplitSpans(e, script)
    {
      var t := toks[i];
      assert toks[i..][0] == t && toks[i..][1..] == toks[i + 1..];
      SplitStep(e, script, toks[i..], start, flow);
      if Cuts(e, flow, t.tok) {
        var found := StatementIn(e, script, start, t.pos);
        assert out + (found + SplitFrom(e, script, toks[i + 1..], t.stop, FRESH))
            == (out + found) + SplitFrom(e, script, toks[i + 1..], t.stop, FRESH);
        out := out + found;
        start, flow := t.stop, FRESH;
      } else {
        flow := Advance(e, flow, t.tok, LoopAhead(Kinds(toks[i + 1..])));
      }
    }
    assert toks[|toks|..] == [];
    SplitEnd(e, script, start, flow);
    out := out + StatementIn(e, script, start, |script|);
  }

  lemma {:induction false} LineLenIsFind(s: string)
    ensures var r := Find(s, "\n"); LineLen(s) == if r.Some? then r.value else |s|
  {
    if s != "" && s[0] != '\n' {
      LineLenIsFind(s[1..]);
    }
  }
}
