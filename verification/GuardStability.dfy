/**
 The main results about splitting: ordered and trimmed spans, every word in exactly
 one, re-splitting changes nothing.
 */
module GuardStability {
  import opened Prelude
  import opened Engines
  import opened Guard
  import opened GuardLocality

  // ------------------------------------------------------------------ growing a prefix by one step

  lemma {:induction false} BoundarySnoc(e: Engine, s: string, k: nat)
    requires Boundary(e, s, k) && k < |s|
    ensures Boundary(e, s, k + Next(e, s[k..], INITIAL).len)
    decreases k
  {
    hide Next;
    if k == 0 {
      assert s[0..] == s;
    } else {
      var r := Next(e, s, INITIAL);
      BoundarySnoc(e, s[r.len..], k - r.len);
      assert s[r.len..][k - r.len..] == s[k..];
    }
  }

  lemma {:induction false} BoundaryPrefix(e: Engine, s: string, k: nat, m: nat)
    requires Plain(e) && Boundary(e, s, k) && k <= m <= |s|
    ensures Boundary(e, s[..m], k)
    decreases k
  {
    hide Next;
    if k != 0 {
      var r := Next(e, s, INITIAL);
      assert s == s[..m] + s[m..];
      NextPrefix(e, s[..m], s[m..]);
      BoundaryPrefix(e, s[r.len..], k - r.len, m - r.len);
      assert s[r.len..][..m - r.len] == s[..m][r.len..];
    }
  }

  /** The tokens of one step's worth of text. */
  lemma StepText(e: Engine, s: string, base: nat)
    requires Plain(e) && s != ""
    ensures var r := Next(e, s, INITIAL); Lex(e, s[..r.len], base, INITIAL) == Yield(r, base)
  {
    hide Next, Lex;
    var r := Next(e, s, INITIAL);
    var a, w := s[..r.len], s[r.len..];
    assert s == a + w;
    NextPrefix(e, a, w);
    LexStep(e, a, base);
    assert a[r.len..] == "";
    LexNil(e, base + r.len, INITIAL);
  }

  /** Reading one step more appends what that step yields. */
  lemma LexSnoc(e: Engine, s: string, k: nat, base: nat)
    requires Plain(e) && Boundary(e, s, k) && k < |s|
    ensures var r := Next(e, s[k..], INITIAL);
      Lex(e, s[..k + r.len], base, INITIAL) == Lex(e, s[..k], base, INITIAL) + Yield(r, base + k)
  {
    hide Next, Lex, Boundary;
    var r := Next(e, s[k..], INITIAL);
    var a, w := s[..k], s[k..][..r.len];
    assert s[..k + r.len] == a + w;
    BoundaryPrefix(e, s, k, k + r.len);
    LexCut(e, a, w, base);
    StepText(e, s[k..], base + k);
  }

  lemma {:induction false} NeverCutsSnoc(e: Engine, ks: seq<Tok>, t: Tok, tail: seq<Tok>, flow: Flow)
    requires NeverCuts(e, ks, [t] + tail, flow) && !Cuts(e, FlowAfter(e, ks, [t] + tail, flow), t)
    ensures NeverCuts(e, ks + [t], tail, flow)
    ensures FlowAfter(e, ks + [t], tail, flow)
         == Advance(e, FlowAfter(e, ks, [t] + tail, flow), t, LoopAhead(tail))
  {
    if ks == [] {
      assert ks + [t] == [t];
      assert [t][1..] + tail == tail;
    } else {
      assert (ks + [t])[1..] == ks[1..] + [t];
      assert ks[1..] + [t] + tail == ks[1..] + ([t] + tail);
      NeverCutsSnoc(e, ks[1..], t, tail, Advance(e, flow, ks[0], LoopAhead(ks[1..] + ([t] + tail))));
    }
  }

  // ------------------------------------------------------------------ the walk over a script

  /**
   The splitter has read `script[start..p]` since the current statement began,
   has not met its end, and `toks` is what it has left to read.
   */
  ghost predicate Reading(e: Engine, script: string, start: nat, p: nat, toks: seq<Lexeme>, flow: Flow) {
    && start <= p <= |script|
    && toks == Lex(e, script[p..], p, INITIAL)
    && Boundary(e, script[start..], p - start)
    && NeverCuts(e, LexKinds(e, script[start..p]), Kinds(toks), FRESH)
    && flow == FlowAfter(e, LexKinds(e, script[start..p]), Kinds(toks), FRESH)
  }

  lemma StartReading(e: Engine, script: string, p: nat)
    requires p <= |script|
    ensures Reading(e, script, p, p, Lex(e, script[p..], p, INITIAL), FRESH)
  {
    assert script[p..p] == "";
    NoKinds(e);
  }

  /** Reading past a step that ends nothing. */
  lemma KeepReading(e: Engine, script: string, start: nat, p: nat, toks: seq<Lexeme>, flow: Flow)
    requires Plain(e) && Reading(e, script, start, p, toks, flow) && p < |script|
    ensures var r := Next(e, script[p..], INITIAL);
      && Lex(e, script[start..p + r.len], start, INITIAL) == Lex(e, script[start..p], start, INITIAL) + Yield(r, p)
      && (r.tok.None? ==> Reading(e, script, start, p + r.len, toks, flow))
      && (r.tok.Some? ==>
            && toks != [] && toks[0] == Lexeme(p, r.tok.value, p + r.len)
            && toks[1..] == Lex(e, script[p + r.len..], p + r.len, INITIAL)
            && (!Cuts(e, flow, r.tok.value) ==>
                  Reading(e, script, start, p + r.len, toks[1..],
                    Advance(e, flow, r.tok.value, LoopAhead(Kinds(toks[1..]))))))
  {
    hide Next, Lex, NeverCuts, FlowAfter, Advance, Cuts, LoopAhead, Boundary, LexKinds;
    var s, k := script[start..], p - start;
    assert s[k..] == script[p..];
    var r := Next(e, script[p..], INITIAL);
    assert s[..k] == script[start..p] && s[..k + r.len] == script[start..p + r.len];
    LexSnoc(e, s, k, start);
    BoundarySnoc(e, s, k);
    LexStep(e, script[p..], p);
    assert script[p..][r.len..] == script[p + r.len..];
    GrowKinds(e, s, k);
    var done := LexKinds(e, script[start..p]);
    if r.tok.Some? {
      var t := r.tok.value;
      var rest := Lex(e, script[p + r.len..], p + r.len, INITIAL);
      assert toks == [Lexeme(p, t, p + r.len)] + rest;
      assert toks[1..] == rest;
      assert Kinds(toks) == [t] + Kinds(rest);
      if !Cuts(e, flow, t) {
        NeverCutsSnoc(e, done, t, Kinds(rest), FRESH);
      }
    } else {
      assert done + [] == done;
    }
  }

  lemma GrowKinds(e: Engine, s: string, k: nat)
    requires Plain(e) && Boundary(e, s, k) && k < |s|
    ensures var r := Next(e, s[k..], INITIAL); LexKinds(e, s[..k + r.len]) == LexKinds(e, s[..k]) + YieldKind(r)
  {
    hide Next, Lex, Boundary;
    LexSnoc(e, s, k, 0);
    var r := Next(e, s[k..], INITIAL);
    KindsAppend(Lex(e, s[..k], 0, INITIAL), Yield(r, k));
    assert Kinds(Yield(r, k)) == YieldKind(r);
  }

  /** Plain engines have no directive lines. */
  lemma PlainTokens(e: Engine, s: string)
    requires Plain(e) && s != "" && Next(e, s, INITIAL).tok.Some?
    ensures !Next(e, s, INITIAL).tok.value.Go? && !Next(e, s, INITIAL).tok.value.Delimiter?
  {
  }

  // ------------------------------------------------------------------ one statement

  lemma MiddleWord(before: seq<Tok>, ks: seq<Tok>, after: seq<Tok>)
    requires AllOther(before) && AllOther(after)
    ensures WordIn(before + ks + after) <==> WordIn(ks)
  {
    var all := before + ks + after;
    if WordIn(ks) {
      var i :| 0 <= i < |ks| && ks[i].Word?;
      assert all[|before| + i] == ks[i];
    }
    if WordIn(all) {
      var i :| 0 <= i < |all| && all[i].Word?;
      assert |before| <= i < |before| + |ks|;
      assert ks[i - |before|] == all[i];
    }
  }

  /** What a candidate statement is, spelt out. */
  lemma TextShape(script: string, start: nat, p: nat)
    requires start <= p <= |script|
    ensures var raw := script[start..p]; var t := Trim(raw); var n := LeadSpace(raw);
      && n + |t| <= |raw|
      && script[start + n..start + n + |t|] == t
      && (t != "" ==> !IsTrimSpace(t[0]) && !IsTrimSpace(t[|t| - 1]))
  {
    hide Trim;
    var raw := script[start..p];
    TrimShape(raw);
    var n, t := LeadSpace(raw), Trim(raw);
    SliceSlice(script, start, p, n, n + |t|);
  }

  lemma PieceShape(e: Engine, script: string, start: nat, p: nat)
    requires start <= p <= |script|
    ensures var raw := script[start..p]; var t := Trim(raw); var n := LeadSpace(raw);
      && (forall s :: s in StatementIn(e, script, start, p) ==>
            s == Span(start + n, start + n + |t|) && t != "" && HasWord(Lex(e, t, 0, INITIAL)))
      && (t != "" && HasWord(Lex(e, t, 0, INITIAL)) ==>
        StatementIn(e, script, start, p) == [Span(start + n, start + n + |t|)])
  {
    hide Lex, HasWord, Trim;
  }

  /** The tokens of a finished statement never cut, once it is trimmed. */
  lemma PieceNeverCuts(e: Engine, script: string, start: nat, p: nat, toks: seq<Lexeme>, flow: Flow)
    requires Plain(e) && Reading(e, script, start, p, toks, flow)
    requires toks == [] || (toks[0].tok.End? && Cuts(e, flow, toks[0].tok))
    ensures NeverCuts(e, LexKinds(e, Trim(script[start..p])), [], FRESH)
  {
    hide Lex, NeverCuts, FlowAfter, Cuts, Boundary, LexKinds, Kinds, Trim;
    var raw := script[start..p];
    KindsFirst(toks);
    NeverCutsAlone(e, LexKinds(e, raw), Kinds(toks), FRESH);
    var before, after := TrimKinds(e, raw);
    NeverCutsPadded(e, before, LexKinds(e, Trim(raw)), after, FRESH);
  }

  /** A finished statement splits to itself. */
  lemma PieceStable(e: Engine, script: string, start: nat, p: nat, toks: seq<Lexeme>, flow: Flow)
    requires Plain(e) && start <= p && Reading(e, script, start, p, toks, flow)
    requires toks == [] || (toks[0].tok.End? && Cuts(e, flow, toks[0].tok))
    ensures forall s :: s in StatementIn(e, script, start, p) ==> Split(e, TextAt(script, s)) == [TextAt(script, s)]
  {
    hide Lex, NeverCuts, Cuts, LexKinds, HasWord, Split, Trim, StatementIn, Reading;
    Unread(e, script, start, p, toks, flow);
    TextShape(script, start, p);
    PieceShape(e, script, start, p);
    PieceNeverCuts(e, script, start, p, toks, flow);
    var t := Trim(script[start..p]);
    if t != "" && HasWord(Lex(e, t, 0, INITIAL)) {
      SplitWhole(e, t);
    }
  }

  lemma KindsFirst(toks: seq<Lexeme>)
    ensures Kinds(toks) == [] <==> toks == []
    ensures toks != [] ==> Kinds(toks)[0] == toks[0].tok
  {
  }

  /** Every statement cut from the rest of the script splits to itself. */
  lemma {:induction false} RestStable(e: Engine, script: string, start: nat, p: nat, toks: seq<Lexeme>, flow: Flow)
    requires Plain(e) && Reading(e, script, start, p, toks, flow)
    requires Ordered(toks, start, |script|)
    ensures forall s :: s in SplitFrom(e, script, toks, start, flow) ==>
      Split(e, TextAt(script, s)) == [TextAt(script, s)]
    decreases |script| - p
  {
    hide Next, Lex, Reading, StatementIn, Split, Cuts, Advance, LoopAhead, Kinds;
    if p == |script| {
      ReadAll(e, script, start, p, toks, flow);
      PieceStable(e, script, start, p, toks, flow);
    } else {
      Unread(e, script, start, p, toks, flow);
      var r := Next(e, script[p..], INITIAL);
      KeepReading(e, script, start, p, toks, flow);
      if r.tok.None? {
        RestStable(e, script, start, p + r.len, toks, flow);
      } else {
        var t := r.tok.value;
        if Cuts(e, flow, t) {
          PlainTokens(e, script[p..]);
          CutsKind(e, flow, t);
          PieceStable(e, script, start, p, toks, flow);
          StartReading(e, script, p + r.len);
          RestStable(e, script, p + r.len, p + r.len, toks[1..], FRESH);
        } else {
          OrderedWeaken(toks[1..], toks[0].stop, start, |script|);
          RestStable(e, script, start, p + r.len, toks[1..], Advance(e, flow, t, LoopAhead(Kinds(toks[1..]))));
        }
      }
    }
  }

  lemma CutsKind(e: Engine, flow: Flow, t: Tok)
    requires Cuts(e, flow, t) && !t.Go? && !t.Delimiter?
    ensures t.End?
  {
  }

  lemma ReadAll(e: Engine, script: string, start: nat, p: nat, toks: seq<Lexeme>, flow: Flow)
    requires Reading(e, script, start, p, toks, flow) && p == |script|
    ensures toks == [] && start <= p
  {
    assert script[p..] == "";
    LexNil(e, p, INITIAL);
  }

  lemma Unread(e: Engine, script: string, start: nat, p: nat, toks: seq<Lexeme>, flow: Flow)
    requires Reading(e, script, start, p, toks, flow)
    ensures start <= p <= |script|
  {
  }

  /** Re-splitting any statement of a script returns just that statement. */
  lemma SplitIsStable(e: Engine, script: string)
    requires e.Postgres? || e.Sqlite?
    ensures forall t :: t in Split(e, script) ==> Split(e, t) == [t]
  {
    hide Reading, SplitFrom, Lex;
    StartReading(e, script, 0);
    assert script[0..] == script;
    LexOrdered(e, script, 0, INITIAL);
    RestStable(e, script, 0, 0, Lex(e, script, 0, INITIAL), FRESH);
    forall t | t in Split(e, script)
      ensures Split(e, t) == [t]
    {
      var i :| 0 <= i < |Split(e, script)| && Split(e, script)[i] == t;
      assert SplitSpans(e, script)[i] in SplitSpans(e, script);
    }
  }

  // ------------------------------------------------------------------ words

  /** A word token begins and ends with a word character. */
  lemma {:induction false} WordChars(e: Engine, s: string, base: nat, l: Lexeme)
    requires Plain(e) && l in Lex(e, s, base, INITIAL) && l.tok.Word?
    ensures base <= l.pos < l.stop <= base + |s|
    ensures IsWordPart(s[l.pos - base]) && IsWordPart(s[l.stop - 1 - base])
    decreases |s|
  {
    hide Next, Lex;
    if s == "" {
      LexNil(e, base, INITIAL);
    } else {
      LexStep(e, s, base);
      var r := Next(e, s, INITIAL);
      if l in Yield(r, base) {
        StepWord(e, s);
      } else {
        WordChars(e, s[r.len..], base + r.len, l);
      }
    }
  }

  lemma StepWord(e: Engine, s: string)
    requires Plain(e) && s != "" && Next(e, s, INITIAL).tok.Some? && Next(e, s, INITIAL).tok.value.Word?
    ensures IsWordPart(s[0]) && IsWordPart(s[Next(e, s, INITIAL).len - 1])
  {
  }

  predicate Within(l: Lexeme, s: Span) {
    s.from <= l.pos && l.stop <= s.to
  }

  predicate Apart(l: Lexeme, s: Span) {
    l.stop <= s.from || s.to <= l.pos
  }

  /** A word inside a stretch of script that becomes a statement lies in that statement. */
  lemma PieceCovers(e: Engine, script: string, start: nat, p: nat, l: Lexeme)
    requires Plain(e) && start <= p <= |script|
    requires l in Lex(e, script[start..p], start, INITIAL) && l.tok.Word?
    ensures exists s :: s in StatementIn(e, script, start, p) && Within(l, s)
  {
    hide Lex, LexKinds, HasWord, Trim, StatementIn, WordIn, Kinds;
    var raw := script[start..p];
    var t, n := Trim(raw), LeadSpace(raw);
    PieceShape(e, script, start, p);
    WordChars(e, raw, start, l);
    WordPartSolid();
    SolidInTrim(raw, l.pos - start);
    SolidInTrim(raw, l.stop - 1 - start);
    KindsShift(e, raw, start, 0);
    var before, after := TrimKinds(e, raw);
    HasWordAt(Lex(e, raw, start, INITIAL), l);
    HasWordKinds(Lex(e, raw, start, INITIAL));
    LexKindsIs(e, raw);
    MiddleWord(before, LexKinds(e, t), after);
    LexKindsIs(e, t);
    HasWordKinds(Lex(e, t, 0, INITIAL));
    var s := Span(start + n, start + n + |t|);
    assert s in StatementIn(e, script, start, p) && Within(l, s);
  }

  /** A character that trimming spares is in the trimmed text. */
  lemma SolidInTrim(raw: string, i: nat)
    requires i < |raw| && !IsTrimSpace(raw[i])
    ensures LeadSpace(raw) <= i < LeadSpace(raw) + |Trim(raw)|
  {
    hide Trim;
    TrimShape(raw);
    var m := LeadSpace(raw) + |Trim(raw)|;
    forall k | m <= k < |raw|
      ensures IsTrimSpace(raw[k])
    {
      assert raw[m..][k - m] == raw[k];
    }
  }

  lemma WordPartSolid()
    ensures forall c :: IsWordPart(c) ==> !IsTrimSpace(c)
  {
  }

  lemma LexKindsIs(e: Engine, s: string)
    ensures LexKinds(e, s) == Kinds(Lex(e, s, 0, INITIAL))
  {
  }

  lemma HasWordAt(toks: seq<Lexeme>, l: Lexeme)
    requires l in toks && l.tok.Word?
    ensures HasWord(toks)
  {
  }

  lemma {:induction false} RestCovers(e: Engine, script: string, start: nat, p: nat, toks: seq<Lexeme>, flow: Flow,
      l: Lexeme)
    requires Plain(e) && Reading(e, script, start, p, toks, flow)
    requires Ordered(toks, start, |script|)
    requires start <= p <= |script| && (l in Lex(e, script[start..p], start, INITIAL) || l in toks)
    requires l.tok.Word?
    ensures exists s :: s in SplitFrom(e, script, toks, start, flow) && Within(l, s)
    decreases |script| - p
  {
    hide Next, Lex, Reading, StatementIn, Cuts, Advance, LoopAhead, Kinds, Within;
    if p == |script| {
      ReadAll(e, script, start, p, toks, flow);
      PieceCovers(e, script, start, p, l);
    } else {
      Unread(e, script, start, p, toks, flow);
      var r := Next(e, script[p..], INITIAL);
      KeepReading(e, script, start, p, toks, flow);
      if r.tok.None? {
        RestCovers(e, script, start, p + r.len, toks, flow, l);
      } else {
        var t := r.tok.value;
        if Cuts(e, flow, t) {
          var tail := SplitFrom(e, script, toks[1..], toks[0].stop, FRESH);
          NoWordCuts(e, flow, t);
          assert SplitFrom(e, script, toks, start, flow) == StatementIn(e, script, start, p) + tail;
          if l in Lex(e, script[start..p], start, INITIAL) {
            PieceCovers(e, script, start, p, l);
          } else {
            StartReading(e, script, p + r.len);
            RestCovers(e, script, p + r.len, p + r.len, toks[1..], FRESH, l);
          }
        } else {
          OrderedWeaken(toks[1..], toks[0].stop, start, |script|);
          RestCovers(e, script, start, p + r.len, toks[1..], Advance(e, flow, t, LoopAhead(Kinds(toks[1..]))), l);
        }
      }
    }
  }

  lemma NoWordCuts(e: Engine, flow: Flow, t: Tok)
    requires Cuts(e, flow, t)
    ensures !t.Word?
  {
  }

  // ------------------------------------------------------------------ the spans themselves

  /** Increasing, disjoint, and each one trimmed. */
  ghost predicate WellSpaced(script: string, spans: seq<Span>) {
    && (forall s :: s in spans ==>
          s.from < s.to <= |script| && !IsTrimSpace(script[s.from]) && !IsTrimSpace(script[s.to - 1]))
    && (forall i, j :: 0 <= i < j < |spans| ==> spans[i].to <= spans[j].from)
  }

  lemma PieceSpaced(e: Engine, script: string, start: nat, p: nat)
    requires start <= p <= |script|
    ensures WellSpaced(script, StatementIn(e, script, start, p))
  {
    hide Lex, HasWord, Trim, StatementIn;
    TextShape(script, start, p);
    PieceShape(e, script, start, p);
    forall s | s in StatementIn(e, script, start, p)
      ensures s.from < s.to <= |script| && !IsTrimSpace(script[s.from]) && !IsTrimSpace(script[s.to - 1])
    {
      var t := script[s.from..s.to];
      assert t[0] == script[s.from] && t[|t| - 1] == script[s.to - 1];
    }
  }

  lemma SpacedAppend(script: string, a: seq<Span>, b: seq<Span>, mid: nat)
    requires WellSpaced(script, a) && WellSpaced(script, b)
    requires (forall s :: s in a ==> s.to <= mid) && (forall s :: s in b ==> mid <= s.from)
    ensures WellSpaced(script, a + b)
  {
    forall i, j | 0 <= i < j < |a + b|
      ensures (a + b)[i].to <= (a + b)[j].from
    {
      if i < |a| && |a| <= j {
        assert (a + b)[i] == a[i] && a[i] in a;
        assert (a + b)[j] == b[j - |a|] && b[j - |a|] in b;
      }
    }
  }

  lemma {:induction false} RestSpaced(e: Engine, script: string, toks: seq<Lexeme>, start: nat, flow: Flow)
    requires Ordered(toks, start, |script|)
    ensures WellSpaced(script, SplitFrom(e, script, toks, start, flow))
    decreases |toks|
  {
    hide StatementIn, Cuts, Advance, LoopAhead, Kinds, WellSpaced;
    if toks == [] {
      PieceSpaced(e, script, start, |script|);
    } else if Cuts(e, flow, toks[0].tok) {
      PieceSpaced(e, script, start, toks[0].pos);
      RestSpaced(e, script, toks[1..], toks[0].stop, FRESH);
      SpacedAppend(script, StatementIn(e, script, start, toks[0].pos),
        SplitFrom(e, script, toks[1..], toks[0].stop, FRESH), toks[0].stop);
    } else {
      OrderedWeaken(toks[1..], toks[0].stop, start, |script|);
      RestSpaced(e, script, toks[1..], start, Advance(e, flow, toks[0].tok, LoopAhead(Kinds(toks[1..]))));
    }
  }

  /** On every engine the statements of a script are increasing, disjoint and trimmed. */
  lemma SpansAreSpaced(e: Engine, script: string)
    ensures WellSpaced(script, SplitSpans(e, script))
  {
    LexOrdered(e, script, 0, INITIAL);
    RestSpaced(e, script, Lex(e, script, 0, INITIAL), 0, FRESH);
  }

  /** A text that says something: a word stands among its tokens. */
  predicate SaysSomething(e: Engine, text: string) {
    exists l :: l in Lex(e, text, 0, INITIAL) && l.tok.Word?
  }

  lemma PieceSays(e: Engine, script: string, start: nat, p: nat, s: Span)
    requires start <= p <= |script| && s in StatementIn(e, script, start, p)
    ensures s.from <= s.to <= |script| && SaysSomething(e, TextAt(script, s))
  {
    hide Lex, Trim, StatementIn;
    TextShape(script, start, p);
    PieceShape(e, script, start, p);
  }

  lemma {:induction false} RestSays(e: Engine, script: string, toks: seq<Lexeme>, start: nat, flow: Flow, s: Span)
    requires Ordered(toks, start, |script|) && s in SplitFrom(e, script, toks, start, flow)
    ensures s.from <= s.to <= |script| && SaysSomething(e, TextAt(script, s))
    decreases |toks|
  {
    hide StatementIn, Cuts, Advance, LoopAhead, Kinds, SaysSomething;
    if toks == [] {
      PieceSays(e, script, start, |script|, s);
    } else if Cuts(e, flow, toks[0].tok) {
      if s in StatementIn(e, script, start, toks[0].pos) {
        PieceSays(e, script, start, toks[0].pos, s);
      } else {
        RestSays(e, script, toks[1..], toks[0].stop, FRESH, s);
      }
    } else {
      OrderedWeaken(toks[1..], toks[0].stop, start, |script|);
      RestSays(e, script, toks[1..], start, Advance(e, flow, toks[0].tok, LoopAhead(Kinds(toks[1..]))), s);
    }
  }

  /** Nothing is taken for a statement that says nothing: comments, stray terminators, numbers alone. */
  lemma StatementsSay(e: Engine, script: string, i: nat)
    requires i < |Split(e, script)|
    ensures SaysSomething(e, Split(e, script)[i])
  {
    hide SplitFrom, SaysSomething;
    LexOrdered(e, script, 0, INITIAL);
    RestSays(e, script, Lex(e, script, 0, INITIAL), 0, FRESH, SplitSpans(e, script)[i]);
  }

  /** Every word of the script lies in exactly one statement and touches no other. */
  lemma WordsAreCovered(e: Engine, script: string, l: Lexeme)
    requires e.Postgres? || e.Sqlite?
    requires l in Lex(e, script, 0, INITIAL) && l.tok.Word?
    ensures exists i ::
      && 0 <= i < |SplitSpans(e, script)|
      && Within(l, SplitSpans(e, script)[i])
      && (forall j :: 0 <= j < |SplitSpans(e, script)| && j != i ==> Apart(l, SplitSpans(e, script)[j]))
  {
    hide Reading, SplitFrom, Lex;
    StartReading(e, script, 0);
    assert script[0..] == script;
    LexOrdered(e, script, 0, INITIAL);
    RestCovers(e, script, 0, 0, Lex(e, script, 0, INITIAL), FRESH, l);
    SpansAreSpaced(e, script);
    WordChars(e, script, 0, l);
    var spans := SplitSpans(e, script);
    var s :| s in spans && Within(l, s);
    var i :| 0 <= i < |spans| && spans[i] == s;
    forall j | 0 <= j < |spans| && j != i
      ensures Apart(l, spans[j])
    {
    }
  }
}
