/**
 Lexing is local, and splitting is stable, on the engines whose lexer keeps no
 memory between tokens (PostgreSQL and SQLite): what a stretch of script lexes
 to does not depend on the text around it, so every word lands in exactly one
 statement and a statement splits to itself.
 */
module GuardLocality {
  import opened Prelude
  import opened Engines
  import opened Guard

  /** Engines with neither `DELIMITER` nor `GO` lines. */
  predicate Plain(e: Engine) {
    !e.IsMysqlFamily() && !e.Mssql?
  }

  // ------------------------------------------------------------------ searching in a prefix

  /** An occurrence that fits in `a` is found there, and one found in `a` is the first in any extension. */
  lemma {:induction false} FindPrefix(a: string, w: string, pat: string)
    requires pat != ""
    ensures var r := Find(a + w, pat); r.Some? && r.value + |pat| <= |a| ==> Find(a, pat) == r
    ensures Find(a, pat).Some? ==> Find(a + w, pat) == Find(a, pat)
  {
    if |pat| <= |a| {
      assert (a + w)[..|pat|] == a[..|pat|];
      assert pat <= a <==> pat <= a + w;
      if !(pat <= a) {
        assert (a + w)[1..] == a[1..] + w;
        FindPrefix(a[1..], w, pat);
      }
    } else {
      assert Find(a, pat).None?;
    }
  }

  lemma {:induction false} QuotedTailPrefix(a: string, w: string, quote: char)
    requires QuotedTail(a + w, quote, false) <= |a|
    ensures QuotedTail(a, quote, false) == QuotedTail(a + w, quote, false)
    decreases |a|
  {
    var s := a + w;
    if a == "" {
      if w != "" {
        assert s[0] == w[0];
      }
    } else if s[0] == quote && |s| > 1 && s[1] == quote {
      assert |a| >= 2;
      assert s[2..] == a[2..] + w;
      QuotedTailPrefix(a[2..], w, quote);
    } else if s[0] != quote {
      assert s[1..] == a[1..] + w;
      QuotedTailPrefix(a[1..], w, quote);
    }
  }

  lemma {:induction false} LineLenPrefix(a: string, w: string)
    ensures LineLen(a) == if LineLen(a + w) <= |a| then LineLen(a + w) else |a|
  {
    if a != "" && a[0] != '\n' {
      assert (a + w)[1..] == a[1..] + w;
      LineLenPrefix(a[1..], w);
    }
  }

  lemma {:induction false} WordLenPrefix(a: string, w: string)
    requires WordLen(a + w) <= |a|
    ensures WordLen(a) == WordLen(a + w)
  {
    if a == "" {
      if w != "" {
        assert (a + w)[0] == w[0];
      }
    } else if IsWordPart(a[0]) {
      assert (a + w)[1..] == a[1..] + w;
      WordLenPrefix(a[1..], w);
    }
  }

  lemma CommentLenPrefix(a: string, w: string)
    requires |a| >= 2
    requires CommentLen(a + w) <= |a|
    ensures CommentLen(a) == CommentLen(a + w)
  {
    assert (a + w)[2..] == a[2..] + w;
    FindPrefix(a[2..], w, "*/");
    if w == "" {
      assert a + w == a;
    }
  }

  lemma DollarBodyPrefix(a: string, w: string, n: nat)
    requires 0 < n <= |a|
    requires DollarBody(a + w, n) <= |a|
    ensures DollarBody(a, n) == DollarBody(a + w, n)
  {
    assert (a + w)[n..] == a[n..] + w;
    assert (a + w)[..n] == a[..n];
    FindPrefix(a[n..], w, a[..n]);
    if w == "" {
      assert a + w == a;
    }
  }

  lemma DollarLenIs(s: string)
    requires s != "" && s[0] == '$'
    ensures DollarLen(s) ==
      var k := Find(s[1..], "$");
      if k.Some? && IsTag(s[..k.value + 2]) then Some(DollarBody(s, k.value + 2)) else None
  {
    hide Find, IsTag, DollarBody;
  }

  lemma DollarLenPrefix(a: string, w: string)
    requires a != "" && a[0] == '$'
    requires DollarLen(a + w).Some? ==> DollarLen(a + w).value <= |a|
    ensures DollarLen(a) == DollarLen(a + w)
  {
    hide DollarLen, Find, IsTag, DollarBody;
    var s := a + w;
    assert s[1..] == a[1..] + w;
    DollarLenIs(a);
    DollarLenIs(s);
    FindPrefix(a[1..], w, "$");
    var k := Find(s[1..], "$");
    if w == "" {
      assert s == a;
    } else if k.Some? && IsTag(s[..k.value + 2]) {
      TagFits(s, k.value + 2);
      assert s[..k.value + 2] == a[..k.value + 2];
      DollarBodyPrefix(a, w, k.value + 2);
    } else if Find(a[1..], "$").Some? {
      assert s[..k.value + 2] == a[..k.value + 2];
    }
  }

  lemma TagFits(s: string, n: nat)
    requires 0 < n <= |s|
    ensures n <= DollarBody(s, n)
  {
  }

  // ------------------------------------------------------------------ one step

  /** A step that stays inside a prefix is the step that prefix takes on its own. */
  lemma NextPrefix(e: Engine, a: string, w: string)
    requires Plain(e) && a != ""
    requires Next(e, a + w, INITIAL).len <= |a|
    ensures Next(e, a, INITIAL).tok == Next(e, a + w, INITIAL).tok
    ensures Next(e, a, INITIAL).len == Next(e, a + w, INITIAL).len
  {
    hide CommentLen, LineLen, QuotedTail, DollarLen, WordLen, Lower, Trim;
    var s := a + w;
    var c := a[0];
    assert s[0] == c;
    assert s[1..] == a[1..] + w;
    if c == '-' && |s| > 1 && s[1] == '-' {
      LineLenPrefix(a, w);
      assert |a| > 1;
    } else if c == '/' && |s| > 1 && s[1] == '*' {
      CommentLenPrefix(a, w);
    } else if c == '\'' || c == '"' || c == '`' {
      QuotedTailPrefix(a[1..], w, c);
    } else if c == '$' && e.Postgres? {
      DollarLenPrefix(a, w);
    } else if IsWordStart(c) {
      WordLenPrefix(a, w);
      assert s[..WordLen(s)] == a[..WordLen(s)];
    }
  }

  /** On a plain engine the lexer's memory makes no difference. */
  lemma NextStateless(e: Engine, s: string, st: LexState)
    requires Plain(e) && s != ""
    ensures Next(e, s, st).tok == Next(e, s, INITIAL).tok
    ensures Next(e, s, st).len == Next(e, s, INITIAL).len
  {
  }

  lemma {:induction false} LexStateless(e: Engine, s: string, base: nat, st: LexState)
    requires Plain(e)
    ensures Lex(e, s, base, st) == Lex(e, s, base, INITIAL)
    decreases |s|
  {
    hide Next;
    if s != "" {
      NextStateless(e, s, st);
      var r, q := Next(e, s, st), Next(e, s, INITIAL);
      LexStateless(e, s[r.len..], base + r.len, r.state);
      LexStateless(e, s[r.len..], base + r.len, q.state);
    }
  }

  /** The token list, written as one step followed by the rest. */
  lemma LexStep(e: Engine, s: string, base: nat)
    requires Plain(e) && s != ""
    ensures var r := Next(e, s, INITIAL);
      Lex(e, s, base, INITIAL) == Yield(r, base) + Lex(e, s[r.len..], base + r.len, INITIAL)
  {
    hide Next;
    var r := Next(e, s, INITIAL);
    LexStateless(e, s[r.len..], base + r.len, r.state);
  }

  lemma {:induction false} KindsAppend(a: seq<Lexeme>, b: seq<Lexeme>)
    ensures Kinds(a + b) == Kinds(a) + Kinds(b)
  {
    if a == [] {
      assert a + b == b;
    } else {
      assert (a + b)[1..] == a[1..] + b;
      KindsAppend(a[1..], b);
    }
  }

  function YieldKind(r: Step): seq<Tok> {
    if r.tok.Some? then [r.tok.value] else []
  }

  lemma KindsStep(e: Engine, s: string, base: nat)
    requires Plain(e) && s != ""
    ensures var r := Next(e, s, INITIAL);
      Kinds(Lex(e, s, base, INITIAL)) == YieldKind(r) + Kinds(Lex(e, s[r.len..], base + r.len, INITIAL))
  {
    hide Next, Lex;
    LexStep(e, s, base);
    var r := Next(e, s, INITIAL);
    KindsAppend(Yield(r, base), Lex(e, s[r.len..], base + r.len, INITIAL));
  }

  lemma LexNil(e: Engine, base: nat, st: LexState)
    ensures Lex(e, "", base, st) == []
    ensures Kinds([]) == []
  {
  }

  /** Moving the text moves its tokens and changes nothing else. */
  lemma {:induction false} KindsShift(e: Engine, s: string, base: nat, base': nat)
    requires Plain(e)
    ensures Kinds(Lex(e, s, base, INITIAL)) == Kinds(Lex(e, s, base', INITIAL))
    decreases |s|
  {
    hide *;
    if s == "" {
      LexNil(e, base, INITIAL);
      LexNil(e, base', INITIAL);
    } else {
      var r := Next(e, s, INITIAL);
      KindsStep(e, s, base);
      KindsStep(e, s, base');
      KindsShift(e, s[r.len..], base + r.len, base' + r.len);
    }
  }

  // ------------------------------------------------------------------ cutting a text in two

  lemma KindsHead(e: Engine, s: string)
    requires Plain(e) && s != ""
    ensures var r := Next(e, s, INITIAL); LexKinds(e, s) == YieldKind(r) + LexKinds(e, s[r.len..])
  {
    hide Next, Lex, Kinds, YieldKind;
    var r := Next(e, s, INITIAL);
    KindsStep(e, s, 0);
    KindsShift(e, s[r.len..], r.len, 0);
  }

  /** The lexer, started at the head of `s`, comes to a stop between tokens at offset `k`. */
  predicate Boundary(e: Engine, s: string, k: nat)
    decreases |s|
  {
    k == 0 || (s != "" && var r := Next(e, s, INITIAL); r.len <= k && Boundary(e, s[r.len..], k - r.len))
  }

  /** At a boundary the token list falls apart into those of the two halves. */
  lemma {:induction false} LexCut(e: Engine, a: string, w: string, base: nat)
    requires Plain(e) && Boundary(e, a + w, |a|)
    ensures Lex(e, a + w, base, INITIAL) == Lex(e, a, base, INITIAL) + Lex(e, w, base + |a|, INITIAL)
    decreases |a|
  {
    hide Next, Lex;
    var s := a + w;
    if a == "" {
      assert s == w;
      LexNil(e, base, INITIAL);
    } else {
      var r := Next(e, s, INITIAL);
      NextPrefix(e, a, w);
      assert s[r.len..] == a[r.len..] + w;
      LexCut(e, a[r.len..], w, base + r.len);
      LexStep(e, s, base);
      LexStep(e, a, base);
    }
  }

  // ------------------------------------------------------------------ trimming

  predicate AllTrimSpace(w: string) {
    forall i :: 0 <= i < |w| ==> IsTrimSpace(w[i])
  }

  predicate AllOther(ks: seq<Tok>) {
    forall i :: 0 <= i < |ks| ==> ks[i].Other?
  }

  /** White space yields no token, or one that is neither a word nor a terminator. */
  lemma NextSpace(e: Engine, s: string)
    requires Plain(e) && s != "" && IsTrimSpace(s[0])
    ensures Next(e, s, INITIAL).len == 1
    ensures AllOther(YieldKind(Next(e, s, INITIAL)))
  {
  }

  lemma {:induction false} SpaceKinds(e: Engine, w: string)
    requires Plain(e) && AllTrimSpace(w)
    ensures AllOther(LexKinds(e, w))
  {
    hide Next, LexKinds, YieldKind;
    if w == "" {
      NoKinds(e);
    } else {
      NextSpace(e, w);
      KindsHead(e, w);
      SpaceKinds(e, w[1..]);
    }
  }

  lemma NoKinds(e: Engine)
    ensures LexKinds(e, "") == []
  {
  }

  /** Leading white space only adds insignificant tokens in front. */
  lemma {:induction false} LeadKinds(e: Engine, s: string, n: nat) returns (pad: seq<Tok>)
    requires Plain(e) && n <= |s| && AllTrimSpace(s[..n])
    ensures AllOther(pad) && LexKinds(e, s) == pad + LexKinds(e, s[n..])
  {
    hide Next, LexKinds, YieldKind;
    if n == 0 {
      pad := [];
      assert s[0..] == s;
    } else {
      assert s[..n][0] == s[0];
      NextSpace(e, s);
      KindsHead(e, s);
      assert s[1..][..n - 1] == s[..n][1..];
      var rest := LeadKinds(e, s[1..], n - 1);
      assert s[1..][n - 1..] == s[n..];
      pad := YieldKind(Next(e, s, INITIAL)) + rest;
    }
  }

  lemma {:induction false} QuotedTailCut(a: string, w: string, quote: char)
    requires AllTrimSpace(w) && !IsTrimSpace(quote)
    requires QuotedTail(a + w, quote, false) > |a|
    ensures QuotedTail(a, quote, false) == |a|
    decreases |a|
  {
    var s := a + w;
    assert forall i :: |a| <= i < |s| ==> s[i] == w[i - |a|];
    if a != "" {
      if s[0] == quote {
        assert |a| > 1 && s[1] == quote;
        assert s[2..] == a[2..] + w;
        QuotedTailCut(a[2..], w, quote);
      } else {
        assert s[1..] == a[1..] + w;
        QuotedTailCut(a[1..], w, quote);
      }
    }
  }

  lemma {:induction false} FindCut(a: string, w: string, pat: string)
    requires pat != "" && !IsTrimSpace(pat[|pat| - 1]) && AllTrimSpace(w)
    ensures Find(a + w, pat) == Find(a, pat)
  {
    FindPrefix(a, w, pat);
    var s := a + w;
    assert forall i :: |a| <= i < |s| ==> s[i] == w[i - |a|];
    var r := Find(s, pat);
    if r.Some? {
      var last := r.value + |pat| - 1;
      assert s[r.value..][|pat| - 1] == s[last];
      assert last < |a|;
    }
  }

  lemma WordLenCut(a: string, w: string)
    requires AllTrimSpace(w)
    ensures WordLen(a + w) <= |a|
  {
    if w != "" {
      assert (a + w)[|a|] == w[0];
    }
  }

  lemma CommentCut(a: string, w: string)
    requires |a| > 1 && AllTrimSpace(w) && CommentLen(a + w) > |a|
    ensures CommentLen(a) == |a|
  {
    assert (a + w)[2..] == a[2..] + w;
    FindCut(a[2..], w, "*/");
  }

  /** Trimming may cut into an unterminated quote or a comment, never into anything else. */
  lemma NextCut(e: Engine, a: string, w: string)
    requires Plain(e) && a != "" && AllTrimSpace(w) && !IsTrimSpace(a[|a| - 1])
    requires Next(e, a + w, INITIAL).len > |a|
    ensures Next(e, a, INITIAL).tok == Next(e, a + w, INITIAL).tok
    ensures AllOther(YieldKind(Next(e, a, INITIAL)))
    ensures Next(e, a, INITIAL).len == |a|
  {
    hide CommentLen, LineLen, QuotedTail, DollarLen, WordLen, Lower, Trim;
    var s := a + w;
    assert forall i :: |a| <= i < |s| ==> s[i] == w[i - |a|];
    var c := a[0];
    assert s[0] == c;
    assert s[1..] == a[1..] + w;
    WordLenCut(a, w);
    if c == '-' && |s| > 1 && s[1] == '-' {
      LineLenPrefix(a, w);
    } else if c == '/' && |s| > 1 && s[1] == '*' {
      assert |a| > 1;
      CommentCut(a, w);
    } else if c == '\'' || c == '"' || c == '`' {
      QuotedTailCut(a[1..], w, c);
    } else if c == '$' && e.Postgres? {
      DollarCut(a, w);
    }
  }

  lemma DollarBodyCut(a: string, w: string, n: nat)
    requires 0 < n <= |a| && AllTrimSpace(w) && !IsTrimSpace(a[n - 1])
    requires DollarBody(a + w, n) > |a|
    ensures DollarBody(a, n) == |a|
  {
    hide Find;
    assert (a + w)[n..] == a[n..] + w;
    assert (a + w)[..n] == a[..n];
    FindCut(a[n..], w, a[..n]);
    FindPrefix(a[n..], w, a[..n]);
  }

  lemma DollarCut(a: string, w: string)
    requires a != "" && a[0] == '$' && AllTrimSpace(w)
    requires DollarLen(a + w).Some? ==> DollarLen(a + w).value > |a|
    ensures DollarLen(a).Some? <==> DollarLen(a + w).Some?
    ensures DollarLen(a).Some? ==> DollarLen(a).value == |a|
  {
    hide Find, DollarBody, IsTag;
    var s := a + w;
    assert s[1..] == a[1..] + w;
    FindCut(a[1..], w, "$");
    var k := Find(a[1..], "$");
    if k.Some? {
      var n := k.value + 2;
      assert s[..n] == a[..n];
      assert a[1..][k.value..][0] == a[n - 1];
      if IsTag(a[..n]) {
        DollarBodyCut(a, w, n);
      }
    }
  }

  lemma AllTrimSuffix(a: string, w: string, n: nat)
    requires AllTrimSpace(w) && |a| <= n <= |a + w|
    ensures AllTrimSpace((a + w)[n..])
  {
    forall i | 0 <= i < |(a + w)[n..]|
      ensures IsTrimSpace((a + w)[n..][i])
    {
      assert (a + w)[n..][i] == w[n + i - |a|];
    }
  }

  /** Trailing white space only adds insignificant tokens behind. */
  lemma {:induction false} TrailKinds(e: Engine, a: string, w: string) returns (pad: seq<Tok>)
    requires Plain(e) && AllTrimSpace(w) && (a != "" ==> !IsTrimSpace(a[|a| - 1]))
    ensures AllOther(pad) && LexKinds(e, a + w) == LexKinds(e, a) + pad
    decreases |a|
  {
    hide Next, LexKinds, YieldKind;
    var s := a + w;
    if a == "" {
      assert s == w;
      NoKinds(e);
      SpaceKinds(e, w);
      pad := LexKinds(e, w);
    } else {
      var r := Next(e, s, INITIAL);
      KindsHead(e, s);
      KindsHead(e, a);
      if r.len <= |a| {
        NextPrefix(e, a, w);
        YieldSame(Next(e, a, INITIAL), r);
        assert s[r.len..] == a[r.len..] + w;
        pad := TrailKinds(e, a[r.len..], w);
      } else {
        NextCut(e, a, w);
        YieldSame(Next(e, a, INITIAL), r);
        AllTrimSuffix(a, w, r.len);
        SpaceKinds(e, s[r.len..]);
        NoKinds(e);
        assert a[|a|..] == "";
        pad := LexKinds(e, s[r.len..]);
      }
    }
  }

  lemma YieldSame(a: Step, b: Step)
    requires a.tok == b.tok
    ensures YieldKind(a) == YieldKind(b)
  {
  }

  lemma TrimShape(raw: string)
    ensures var n := LeadSpace(raw); var t := Trim(raw);
      && n + |t| <= |raw|
      && t == raw[n..n + |t|]
      && AllTrimSpace(raw[..n]) && AllTrimSpace(raw[n + |t|..])
      && (t != "" ==> !IsTrimSpace(t[0]) && !IsTrimSpace(t[|t| - 1]))
  {
    hide LeadSpace, SolidLen;
    var n := LeadSpace(raw);
    var u := raw[n..];
    var m := SolidLen(u);
    assert Trim(raw) == u[..m];
    assert u[..m] == raw[n..n + m];
    assert raw[n + m..] == u[m..];
    if m > 0 {
      assert u[0] == raw[n];
    }
  }

  /** A text and its trimmed form lex alike, up to insignificant tokens at the ends. */
  lemma TrimKinds(e: Engine, raw: string) returns (before: seq<Tok>, after: seq<Tok>)
    requires Plain(e)
    ensures AllOther(before) && AllOther(after)
    ensures LexKinds(e, raw) == before + LexKinds(e, Trim(raw)) + after
  {
    hide LexKinds;
    TrimShape(raw);
    var n, t := LeadSpace(raw), Trim(raw);
    before := LeadKinds(e, raw, n);
    var w := raw[n + |t|..];
    assert raw[n..] == t + w;
    after := TrailKinds(e, t, w);
  }

  // ------------------------------------------------------------------ re-splitting

  /** The walk over `ks` never reaches the end of a statement; `tail` is what lies beyond, for look-ahead. */
  predicate NeverCuts(e: Engine, ks: seq<Tok>, tail: seq<Tok>, flow: Flow) {
    ks == [] || (!Cuts(e, flow, ks[0])
      && NeverCuts(e, ks[1..], tail, Advance(e, flow, ks[0], LoopAhead(ks[1..] + tail))))
  }

  function FlowAfter(e: Engine, ks: seq<Tok>, tail: seq<Tok>, flow: Flow): Flow {
    if ks == [] then flow
    else FlowAfter(e, ks[1..], tail, Advance(e, flow, ks[0], LoopAhead(ks[1..] + tail)))
  }

  predicate AllEnds(ks: seq<Tok>) {
    forall i :: 0 <= i < |ks| ==> ks[i].End? || ks[i].Go? || ks[i].Delimiter?
  }

  lemma {:induction false} LoopAheadTail(ks: seq<Tok>, tail: seq<Tok>)
    ensures LoopAhead(ks + tail) == if AllEnds(ks) then LoopAhead(tail) else LoopAhead(ks)
    ensures AllEnds(ks) ==> !LoopAhead(ks)
  {
    if ks == [] {
      assert ks + tail == tail;
    } else {
      assert (ks + tail)[1..] == ks[1..] + tail;
      LoopAheadTail(ks[1..], tail);
      if ks[0].End? || ks[0].Go? || ks[0].Delimiter? {
        assert AllEnds(ks) == AllEnds(ks[1..]) by {
          assert AllEnds(ks[1..]) ==> forall i :: 1 <= i < |ks| ==> ks[i] == ks[1..][i - 1];
        }
      }
    }
  }

  lemma {:induction false} EndsKeepFlow(e: Engine, ks: seq<Tok>, tail: seq<Tok>, flow: Flow)
    requires AllEnds(ks)
    ensures FlowAfter(e, ks, tail, flow) == flow
  {
    if ks != [] {
      EndsKeepFlow(e, ks[1..], tail, Advance(e, flow, ks[0], LoopAhead(ks[1..] + tail)));
    }
  }

  /**
   A statement's own tokens never end it early, even when the look-ahead past
   `END` can no longer see the text that followed the statement.
   */
  lemma {:induction false} NeverCutsAlone(e: Engine, ks: seq<Tok>, tail: seq<Tok>, flow: Flow)
    requires Plain(e)
    requires NeverCuts(e, ks, tail, flow)
    requires tail == [] || (tail[0].End? && Cuts(e, FlowAfter(e, ks, tail, flow), tail[0]))
    ensures NeverCuts(e, ks, [], flow)
  {
    if ks != [] {
      var rest := ks[1..];
      assert rest + [] == rest;
      LoopAheadTail(rest, tail);
      if !AllEnds(rest) || LoopAhead(rest + tail) == LoopAhead(rest) {
        NeverCutsAlone(e, rest, tail, Advance(e, flow, ks[0], LoopAhead(rest + tail)));
      } else if rest != [] {
        EndsKeepFlow(e, rest, tail, Advance(e, flow, ks[0], LoopAhead(rest + tail)));
        assert false;
      }
    }
  }

  /** Insignificant tokens at the ends change nothing for the walk. */
  lemma {:induction false} NeverCutsPadded(e: Engine, before: seq<Tok>, ks: seq<Tok>, after: seq<Tok>, flow: Flow)
    requires AllOther(before) && AllOther(after)
    requires NeverCuts(e, before + ks + after, [], flow)
    ensures NeverCuts(e, ks, [], flow)
  {
    var all := before + ks + after;
    if before != [] {
      assert all[0].Other?;
      assert all[1..] == before[1..] + ks + after;
      NeverCutsPadded(e, before[1..], ks, after, flow);
    } else {
      assert all == ks + after;
      NeverCutsTrail(e, ks, after, flow);
    }
  }

  lemma {:induction false} NeverCutsTrail(e: Engine, ks: seq<Tok>, after: seq<Tok>, flow: Flow)
    requires AllOther(after)
    requires NeverCuts(e, ks + after, [], flow)
    ensures NeverCuts(e, ks, [], flow)
  {
    if ks != [] {
      var rest := ks[1..];
      assert (ks + after)[1..] == rest + after;
      assert rest + after + [] == rest + after;
      assert rest + [] == rest;
      LoopAheadTail(rest, after);
      assert LoopAhead(after) == false;
      NeverCutsTrail(e, rest, after, Advance(e, flow, ks[0], LoopAhead(rest)));
    }
  }

  /** A walk that never cuts yields the whole text as its only candidate statement. */
  lemma {:induction false} SplitUncut(e: Engine, script: string, toks: seq<Lexeme>, start: nat, flow: Flow)
    requires Ordered(toks, start, |script|)
    requires NeverCuts(e, Kinds(toks), [], flow)
    ensures SplitFrom(e, script, toks, start, flow) == StatementIn(e, script, start, |script|)
    decreases |toks|
  {
    hide StatementIn;
    if toks != [] {
      assert Kinds(toks)[1..] == Kinds(toks[1..]);
      assert Kinds(toks)[1..] + [] == Kinds(toks[1..]);
      OrderedWeaken(toks[1..], toks[0].stop, start, |script|);
      SplitUncut(e, script, toks[1..], start, Advance(e, flow, toks[0].tok, LoopAhead(Kinds(toks[1..]))));
    }
  }

  predicate WordIn(ks: seq<Tok>) {
    exists i :: 0 <= i < |ks| && ks[i].Word?
  }

  lemma HasWordKinds(toks: seq<Lexeme>)
    ensures HasWord(toks) <==> WordIn(Kinds(toks))
  {
    KindsAt(toks);
    if HasWord(toks) {
      var i :| 0 <= i < |toks| && toks[i].tok.Word?;
      assert Kinds(toks)[i].Word?;
    }
  }

  lemma TrimFixed(t: string)
    requires t != "" ==> !IsTrimSpace(t[0]) && !IsTrimSpace(t[|t| - 1])
    ensures LeadSpace(t) == 0 && Trim(t) == t
  {
    assert t[0..] == t;
  }

  /** A trimmed text with a word in it, whose tokens never cut, splits to exactly itself. */
  lemma SplitWhole(e: Engine, t: string)
    requires t != "" && !IsTrimSpace(t[0]) && !IsTrimSpace(t[|t| - 1])
    requires HasWord(Lex(e, t, 0, INITIAL))
    requires NeverCuts(e, LexKinds(e, t), [], FRESH)
    ensures Split(e, t) == [t]
  {
    hide Lex, NeverCuts, HasWord;
    LexOrdered(e, t, 0, INITIAL);
    SplitUncut(e, t, Lex(e, t, 0, INITIAL), 0, FRESH);
    TrimFixed(t);
    assert t[0..|t|] == t;
    assert SplitSpans(e, t) == [Span(0, |t|)];
    assert TextAt(t, Span(0, |t|)) == t;
  }
}
