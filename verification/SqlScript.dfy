/** A script of printed statements, each with its terminator, splits back into exactly those statements. */
module SqlScript {
  import opened Prelude
  import opened Engines
  import opened Guard
  import opened GuardLocality
  import opened GuardStability
  import opened SqlText
  import opened RowEditText
  import Backup

  /** A statement that the splitter takes for an ordinary one. */
  predicate Ordinary(e: Engine, ps: seq<Piece>) {
    Part(e, ps) && Firm(ps) && ps[0].Kw? && Lower(ps[0].word) != "create"
  }

  predicate AllOrdinary(e: Engine, stmts: seq<seq<Piece>>) {
    forall i :: 0 <= i < |stmts| ==> Ordinary(e, stmts[i])
  }

  function ScriptText(e: Engine, stmts: seq<seq<Piece>>): string {
    if stmts == [] then "" else Render(stmts[0]) + Backup.EndOf(e) + ScriptText(e, stmts[1..])
  }

  // ------------------------------------------------------------------ tokens of a statement and its terminator

  lemma EndHead(e: Engine, rest: string)
    ensures Breaks(Head(Backup.EndOf(e) + rest))
  {
    assert (Backup.EndOf(e) + rest)[0] == Backup.EndOf(e)[0];
  }

  lemma AfterSentence(e: Engine, ps: seq<Piece>, st: LexState)
    ensures AfterAll(ps, st).delimiter == st.delimiter
  {
  }

  /** The lexeme of a terminator at offset `base`, and the offset just past it. */
  function EndLexeme(e: Engine, base: nat): Lexeme {
    if e.Mssql? then Lexeme(base + 1, Go, base + 3) else Lexeme(base, End, base + 1)
  }

  lemma LexEnd(e: Engine, rest: string, base: nat, st: LexState)
    requires st.delimiter == ";"
    ensures Lex(e, Backup.EndOf(e) + rest, base, st) ==
      [EndLexeme(e, base)] + Lex(e, rest, base + |Backup.EndOf(e)|, INITIAL)
  {
    hide Lex, PieceOk;
    if e.Mssql? {
      LexGoLine(e, rest, base, st);
    } else {
      LexSemicolon(e, rest, base, st);
      assert ";\n" + rest == ";" + ("\n" + rest);
    }
  }

  lemma LexSemicolon(e: Engine, rest: string, base: nat, st: LexState)
    requires st.delimiter == ";" && !e.Mssql?
    ensures Lex(e, ";" + ("\n" + rest), base, st) == [Lexeme(base, End, base + 1)] + Lex(e, rest, base + 2, INITIAL)
  {
    hide Lex, Next;
    var semi, newline := Sym(';'), Sp('\n');
    assert Text(semi) == ";" && Text(newline) == "\n";
    LexPiece(e, semi, "\n" + rest, base, st);
    LexPiece(e, newline, rest, base + 1, After(semi, st));
    assert After(newline, After(semi, st)) == INITIAL;
  }

  /** The tokens of a statement, its terminator, and whatever follows. */
  lemma LexStatement(e: Engine, ps: seq<Piece>, rest: string, base: nat)
    requires Ordinary(e, ps)
    ensures var n := |Render(ps)|;
      Lex(e, Render(ps) + Backup.EndOf(e) + rest, base, INITIAL)
      == LexOfAll(ps, base) + ([EndLexeme(e, base + n)] + Lex(e, rest, base + n + |Backup.EndOf(e)|, INITIAL))
  {
    hide Lex, WellFormed, Render, LexOfAll, AfterAll, Backup.EndOf, EndLexeme;
    var more := Backup.EndOf(e) + rest;
    EndHead(e, rest);
    ClosedBefore(e, ps, Head(more));
    LexRender(e, ps, more, base, INITIAL);
    AfterSentence(e, ps, INITIAL);
    LexEnd(e, rest, base + |Render(ps)|, AfterAll(ps, INITIAL));
    assert Render(ps) + Backup.EndOf(e) + rest == Render(ps) + more;
  }

  // ------------------------------------------------------------------ walking over a statement

  /** Tokens that never cut are passed over. */
  lemma {:induction false} SplitWalk(e: Engine, script: string, seg: seq<Lexeme>, rest: seq<Lexeme>, start: nat,
      flow: Flow)
    requires Ordered(seg + rest, start, |script|)
    requires NeverCuts(e, Kinds(seg), Kinds(rest), flow)
    ensures Ordered(rest, start, |script|)
    ensures SplitFrom(e, script, seg + rest, start, flow)
      == SplitFrom(e, script, rest, start, FlowAfter(e, Kinds(seg), Kinds(rest), flow))
    decreases |seg|
  {
    hide StatementIn, Cuts, Advance, LoopAhead;
    if seg == [] {
      assert seg + rest == rest;
    } else {
      var all := seg + rest;
      assert all[0] == seg[0] && all[1..] == seg[1..] + rest;
      OrderedWeaken(all[1..], all[0].stop, start, |script|);
      KindsAppend(seg[1..], rest);
      assert Kinds(seg)[0] == seg[0].tok && Kinds(seg)[1..] == Kinds(seg[1..]);
      SplitWalk(e, script, seg[1..], rest, start, Advance(e, flow, seg[0].tok, LoopAhead(Kinds(all[1..]))));
    }
  }

  /** Outside a compound body the depth stays where it is. */
  lemma {:induction false} CalmFlow(e: Engine, ks: seq<Tok>, tail: seq<Tok>, flow: Flow)
    requires flow.first.Some? && flow.first != Some("create") && !flow.compound && flow.depth == 0
    ensures FlowAfter(e, ks, tail, flow) == flow
  {
    hide LoopAhead;
    if ks != [] {
      CalmFlow(e, ks[1..], tail, Advance(e, flow, ks[0], LoopAhead(ks[1..] + tail)));
    }
  }

  lemma CalmStatement(e: Engine, ks: seq<Tok>, tail: seq<Tok>, w: string)
    requires ks != [] && ks[0] == Word(w) && w != "create"
    ensures FlowAfter(e, ks, tail, FRESH).depth == 0
  {
    hide LoopAhead;
    CalmFlow(e, ks[1..], tail, Advance(e, FRESH, ks[0], LoopAhead(ks[1..] + tail)));
  }

  // ------------------------------------------------------------------ trimming

  /** Trimming, described by positions in the original. */
  lemma TrimPositions(s: string)
    ensures var n := LeadSpace(s); var m := n + |Trim(s)|;
      && m <= |s| && Trim(s) == s[n..m]
      && (forall i :: 0 <= i < n || m <= i < |s| ==> IsTrimSpace(s[i]))
      && (n < m ==> !IsTrimSpace(s[n]) && !IsTrimSpace(s[m - 1]))
  {
    hide Trim, LeadSpace;
    TrimShape(s);
    var n := LeadSpace(s);
    var m := n + |Trim(s)|;
    forall i | 0 <= i < n || m <= i < |s|
      ensures IsTrimSpace(s[i])
    {
      if i < n {
        assert s[..n][i] == s[i];
      } else {
        assert s[m..][i - m] == s[i];
      }
    }
    if n < m {
      assert s[n..m][0] == s[n] && s[n..m][m - 1 - n] == s[m - 1];
    }
  }

  /** Two ways to say where the solid part of a text begins and ends. */
  lemma SameEdges(s: string, n: nat, m: nat, p: nat, q: nat)
    requires n <= m <= |s| && p < q <= |s|
    requires forall i :: 0 <= i < n || m <= i < |s| ==> IsTrimSpace(s[i])
    requires n < m ==> !IsTrimSpace(s[n]) && !IsTrimSpace(s[m - 1])
    requires forall i :: 0 <= i < p || q <= i < |s| ==> IsTrimSpace(s[i])
    requires !IsTrimSpace(s[p]) && !IsTrimSpace(s[q - 1])
    ensures n == p && m == q
  {
    hide IsTrimSpace;
    assert n <= p < m && n <= q - 1 < m;
    assert p <= n < q && p <= m - 1 < q;
  }

  lemma PaddedEdges(w1: string, a: string, w2: string)
    requires AllTrimSpace(w1) && AllTrimSpace(w2) && a != ""
    ensures var s, p, q := w1 + a + w2, |w1|, |w1| + |a|;
      && |s| == q + |w2| && s[p..q] == a && s[p] == a[0] && s[q - 1] == a[|a| - 1]
      && (forall i :: 0 <= i < p || q <= i < |s| ==> IsTrimSpace(s[i]))
  {
    hide IsTrimSpace;
    var s, p, q := w1 + a + w2, |w1|, |w1| + |a|;
    forall i | 0 <= i < p || q <= i < |s|
      ensures IsTrimSpace(s[i])
    {
      if i < p {
        assert s[i] == w1[i];
      } else {
        assert s[i] == w2[i - q];
      }
    }
  }

  lemma TrimPadded(w1: string, a: string, w2: string)
    requires AllTrimSpace(w1) && AllTrimSpace(w2)
    requires a != "" && !IsTrimSpace(a[0]) && !IsTrimSpace(a[|a| - 1])
    ensures Trim(w1 + a + w2) == a && LeadSpace(w1 + a + w2) == |w1|
  {
    hide Trim, LeadSpace, IsTrimSpace, AllTrimSpace;
    PaddedEdges(w1, a, w2);
    var s := w1 + a + w2;
    TrimPositions(s);
    SameEdges(s, LeadSpace(s), LeadSpace(s) + |Trim(s)|, |w1|, |w1| + |a|);
  }

  // ------------------------------------------------------------------ the whole script

  /** The candidate statement around a printed one is that statement. */
  lemma PieceIsStatement(e: Engine, script: string, start: nat, o: nat, to: nat, ps: seq<Piece>)
    requires Ordinary(e, ps) && start <= o && o + |Render(ps)| <= to <= |script|
    requires AllTrimSpace(script[start..o]) && AllTrimSpace(script[o + |Render(ps)|..to])
    requires script[o..o + |Render(ps)|] == Render(ps)
    ensures StatementIn(e, script, start, to) == [Span(o, o + |Render(ps)|)]
  {
    hide *;
    var a := Render(ps);
    var w1, w2 := script[start..o], script[o + |a|..to];
    assert script[start..to] == w1 + a + w2;
    OrdinaryParts(e, ps);
    RenderEnds(e, ps);
    StatementStart(e, ps);
    TrimPadded(w1, a, w2);
    RenderKinds(e, ps);
    FirstKind(ps, ps[0].word);
    LexHasWord(e, a);
    PieceShape(e, script, start, to);
  }

  lemma OrdinaryParts(e: Engine, ps: seq<Piece>)
    requires Ordinary(e, ps)
    ensures Part(e, ps) && Firm(ps) && ps != [] && WellFormed(e, ps, None) && ps[0] == Kw(ps[0].word)
  {
  }

  lemma StatementStart(e: Engine, ps: seq<Piece>)
    requires Ordinary(e, ps)
    ensures Render(ps) != "" && !IsTrimSpace(Render(ps)[0])
  {
    hide Lower;
    TextEnd(e, ps[0]);
    assert Render(ps)[0] == Text(ps[0])[0];
  }

  function Texts(script: string, spans: seq<Span>): seq<string>
    requires forall s :: s in spans ==> s.from <= s.to <= |script|
  {
    if spans == [] then []
    else
      assert spans[0] in spans;
      [TextAt(script, spans[0])] + Texts(script, spans[1..])
  }

  lemma TextsSplit(e: Engine, script: string)
    ensures Texts(script, SplitSpans(e, script)) == Split(e, script)
  {
    TextsAll(script, SplitSpans(e, script));
  }

  lemma {:induction false} TextsAll(script: string, spans: seq<Span>)
    requires forall s :: s in spans ==> s.from <= s.to <= |script|
    ensures |Texts(script, spans)| == |spans|
    ensures forall i :: 0 <= i < |spans| ==> spans[i] in spans && Texts(script, spans)[i] == TextAt(script, spans[i])
  {
    if spans != [] {
      assert spans[0] in spans;
      TextsAll(script, spans[1..]);
      forall i | 0 <= i < |spans|
        ensures spans[i] in spans && Texts(script, spans)[i] == TextAt(script, spans[i])
      {
        if i > 0 {
          assert spans[i] == spans[1..][i - 1];
        }
      }
    }
  }

  lemma ScriptCons(e: Engine, stmts: seq<seq<Piece>>)
    requires stmts != []
    ensures ScriptText(e, stmts) == Render(stmts[0]) + Backup.EndOf(e) + ScriptText(e, stmts[1..])
  {
  }

  lemma TextsAppend(script: string, a: Span, rest: seq<Span>)
    requires a.from <= a.to <= |script| && forall s :: s in rest ==> s.from <= s.to <= |script|
    ensures forall s :: s in [a] + rest ==> s.from <= s.to <= |script|
    ensures Texts(script, [a] + rest) == [TextAt(script, a)] + Texts(script, rest)
  {
    assert ([a] + rest)[1..] == rest;
  }

  /** What the splitter does with one printed statement: it yields it and goes on behind the terminator. */
  lemma SplitOne(e: Engine, script: string, start: nat, o: nat, ps: seq<Piece>, rest: seq<Lexeme>)
    requires Ordinary(e, ps) && start <= o && o + |Render(ps)| + |Backup.EndOf(e)| <= |script|
    requires AllTrimSpace(script[start..o]) && script[o..o + |Render(ps)|] == Render(ps)
    requires script[o + |Render(ps)|..o + |Render(ps)| + |Backup.EndOf(e)|] == Backup.EndOf(e)
    requires Ordered(LexOfAll(ps, o) + ([EndLexeme(e, o + |Render(ps)|)] + rest), start, |script|)
    ensures var l := EndLexeme(e, o + |Render(ps)|);
      && Ordered(rest, l.stop, |script|)
      && SplitFrom(e, script, LexOfAll(ps, o) + ([l] + rest), start, FRESH)
         == [Span(o, o + |Render(ps)|)] + SplitFrom(e, script, rest, l.stop, FRESH)
  {
    hide Render, LexOfAll, SplitFrom, StatementIn, KindsOf, NeverCuts, FlowAfter, WellFormed, Lower, AllTrimSpace;
    var n := |Render(ps)|;
    var l := EndLexeme(e, o + n);
    var toks := [l] + rest;
    OrdinaryParts(e, ps);
    LexOfAllKinds(ps, o);
    NoEndKinds(ps);
    NoCutterNeverCuts(e, KindsOf(ps), Kinds(toks), FRESH);
    SplitWalk(e, script, LexOfAll(ps, o), toks, start, FRESH);
    FirstKind(ps, ps[0].word);
    CalmStatement(e, KindsOf(ps), Kinds(toks), Lower(ps[0].word));
    var flow := FlowAfter(e, KindsOf(ps), Kinds(toks), FRESH);
    assert toks[0] == l && toks[1..] == rest;
    SplitAt(e, script, toks, start, flow);
    BeforeEnd(e, script, o + n);
    PieceIsStatement(e, script, start, o, l.pos, ps);
  }

  lemma SplitAt(e: Engine, script: string, toks: seq<Lexeme>, start: nat, flow: Flow)
    requires toks != [] && Ordered(toks, start, |script|) && Cuts(e, flow, toks[0].tok)
    ensures start <= toks[0].pos <= |script| && Ordered(toks[1..], toks[0].stop, |script|)
    ensures SplitFrom(e, script, toks, start, flow)
      == StatementIn(e, script, start, toks[0].pos) + SplitFrom(e, script, toks[1..], toks[0].stop, FRESH)
  {
    hide StatementIn, Cuts;
  }

  /** Between a statement and its terminating token there is at most a line break. */
  lemma BeforeEnd(e: Engine, script: string, p: nat)
    requires p + |Backup.EndOf(e)| <= |script| && script[p..p + |Backup.EndOf(e)|] == Backup.EndOf(e)
    ensures AllTrimSpace(script[p..EndLexeme(e, p).pos])
    ensures AllTrimSpace(script[EndLexeme(e, p).stop..p + |Backup.EndOf(e)|])
  {
    var x := script[p..p + |Backup.EndOf(e)|];
    if e.Mssql? {
      assert script[p] == x[0] && script[p + 3] == x[3];
    } else {
      assert script[p + 1] == x[1];
    }
  }

  /** The splitter, standing before a run of printed statements. */
  lemma {:induction false} SplitRun(e: Engine, script: string, start: nat, o: nat, stmts: seq<seq<Piece>>)
    requires AllOrdinary(e, stmts) && start <= o <= |script|
    requires script[o..] == ScriptText(e, stmts) && AllTrimSpace(script[start..o])
    requires Ordered(Lex(e, script[o..], o, INITIAL), start, |script|)
    ensures var spans := SplitFrom(e, script, Lex(e, script[o..], o, INITIAL), start, FRESH);
      (forall s :: s in spans ==> s.from <= s.to <= |script|) && Texts(script, spans) == Renders(stmts)
    decreases |stmts|
  {
    hide Render, LexOfAll, SplitFrom, Lex, Ordinary, AllTrimSpace, Backup.EndOf, Texts, EndLexeme, ScriptText;
    if stmts == [] {
      NothingPrinted(e, script);
      assert |script[o..]| == 0;
      NoScript(e, script, start, o);
    } else {
      var ps, more := stmts[0], ScriptText(e, stmts[1..]);
      assert forall i :: 0 <= i < |stmts[1..]| ==> stmts[1..][i] == stmts[i + 1];
      ScriptCons(e, stmts);
      var n, k := |Render(ps)|, |Backup.EndOf(e)|;
      LexStatement(e, ps, more, o);
      var p := o + n + k;
      ScriptParts(script, o, Render(ps), Backup.EndOf(e), more);
      var rest := Lex(e, more, p, INITIAL);
      var l := EndLexeme(e, o + n);
      SplitOne(e, script, start, o, ps, rest);
      EndBounds(e, o + n);
      BeforeEnd(e, script, o + n);
      SplitRun(e, script, l.stop, p, stmts[1..]);
      TextsAppend(script, Span(o, o + n), SplitFrom(e, script, rest, l.stop, FRESH));
      assert Renders(stmts) == [Render(ps)] + Renders(stmts[1..]);
    }
  }

  lemma EndBounds(e: Engine, p: nat)
    ensures EndLexeme(e, p).stop <= p + |Backup.EndOf(e)|
  {
  }

  lemma ScriptParts(script: string, o: nat, a: string, b: string, c: string)
    requires o <= |script| && script[o..] == a + b + c
    ensures o + |a| + |b| <= |script| && script[o..o + |a|] == a
    ensures script[o + |a|..o + |a| + |b|] == b && script[o + |a| + |b|..] == c
  {
    var s := script[o..];
    assert s[..|a|] == a && s[|a|..|a| + |b|] == b && s[|a| + |b|..] == c;
  }

  lemma NothingPrinted(e: Engine, script: string)
    ensures ScriptText(e, []) == "" && Texts(script, []) == [] && Renders([]) == []
  {
  }

  lemma NoScript(e: Engine, script: string, start: nat, o: nat)
    requires start <= o == |script| && AllTrimSpace(script[start..o])
    requires Ordered([], start, |script|)
    ensures script[o..] == "" && Lex(e, script[o..], o, INITIAL) == [] && ScriptText(e, []) == ""
    ensures SplitFrom(e, script, [], start, FRESH) == []
  {
    hide LeadSpace;
    var raw := script[start..o];
    TrimPositions(raw);
  }

  /**
   Splitting a dump gives back its statements: each one whole, in order, and
   nothing else, whatever their names and values hold.
   */
  lemma SplitScript(e: Engine, stmts: seq<seq<Piece>>)
    requires AllOrdinary(e, stmts)
    ensures Split(e, ScriptText(e, stmts)) == Renders(stmts)
  {
    hide Lex, SplitFrom, Split, Texts, Renders, Ordinary;
    var script := ScriptText(e, stmts);
    assert script[0..] == script;
    LexOrdered(e, script, 0, INITIAL);
    assert script[0..0] == "";
    SplitRun(e, script, 0, 0, stmts);
    TextsSplit(e, script);
  }
}
