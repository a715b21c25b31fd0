/**
 Where statements end, told from the tokens alone: no state is carried along. A
 terminator inside the body of a trigger, procedure, function or event does not
 end the statement.
 */
module GuardBodies {
  import opened Prelude
  import opened Engines
  import opened Guard
  import opened GuardLocality
  import opened GuardStability
  import GuardLexer

  // ------------------------------------------------------------------ the reference

  predicate IsWord(t: Tok, words: set<string>) {
    t.Word? && t.text in words
  }

  /** The first word among the tokens is `w`, and stands before position `j`. */
  predicate Begins(ks: seq<Tok>, j: nat, w: string) {
    exists i :: 0 <= i < j <= |ks| && ks[i] == Word(w) && forall h :: 0 <= h < i ==> !ks[h].Word?
  }

  /** The next significant token from position `q` on is a word that names a loop or a branch. */
  predicate LoopFollows(ks: seq<Tok>, q: nat) {
    exists r ::
      && q <= r < |ks| && IsWord(ks[r], {"if", "loop", "while", "repeat"})
      && forall i :: q <= i < r ==> ks[i].End? || ks[i].Go? || ks[i].Delimiter?
  }

  /** What a token adds to the depth of a body: `END IF` and its like close nothing that was counted. */
  function Nesting(ks: seq<Tok>, i: nat): int
    requires i < |ks|
  {
    if IsWord(ks[i], {"begin", "case"}) then 1
    else if ks[i] == Word("end") && !LoopFollows(ks, i + 1) then -1
    else 0
  }

  /** BEGINs and CASEs less the ENDs that close them, from position `p` up to `j`. */
  function Level(ks: seq<Tok>, p: nat, j: nat): int
    requires j <= |ks|
    decreases j
  {
    if j <= p then 0 else Level(ks, p, j - 1) + Nesting(ks, j - 1)
  }

  /** In a CREATE, position `p` is the first word that names something with a body. */
  predicate Declares(ks: seq<Tok>, p: nat) {
    && p < |ks| && IsWord(ks[p], {"trigger", "procedure", "function", "event"}) && Begins(ks, p, "create")
    && forall q :: 0 <= q < p ==> !IsWord(ks[q], {"trigger", "procedure", "function", "event"})
  }

  predicate InBody(e: Engine, ks: seq<Tok>, j: nat)
    requires j <= |ks|
  {
    (e.IsMysqlFamily() || e.Sqlite?) && exists p :: 0 <= p < j && Declares(ks, p) && Level(ks, p, j) > 0
  }

  /** The statement that begins with these tokens ends at token `j`, if at none before. */
  predicate EndsAt(e: Engine, ks: seq<Tok>, j: nat)
    requires j < |ks|
  {
    ks[j].Go? || ks[j].Delimiter? || (ks[j].End? && !e.Mssql? && !InBody(e, ks, j))
  }

  predicate FirstEnd(e: Engine, ks: seq<Tok>, j: nat) {
    j < |ks| && EndsAt(e, ks, j) && forall i :: 0 <= i < j ==> !EndsAt(e, ks, i)
  }

  // ------------------------------------------------------------------ the walk agrees with it

  /** The flow once `j` tokens of a statement have been read. */
  function FlowAt(e: Engine, ks: seq<Tok>, j: nat): Flow
    requires j <= |ks|
    decreases j
  {
    if j == 0 then FRESH else Advance(e, FlowAt(e, ks, j - 1), ks[j - 1], LoopAhead(ks[j..]))
  }

  lemma {:induction false} LoopAheadMeans(ks: seq<Tok>, q: nat)
    requires q <= |ks|
    ensures LoopAhead(ks[q..]) <==> LoopFollows(ks, q)
    decreases |ks| - q
  {
    if q < |ks| {
      LoopAheadMeans(ks, q + 1);
      assert ks[q..][1..] == ks[q + 1..];
      var t := ks[q];
      if t.End? || t.Go? || t.Delimiter? {
        if LoopFollows(ks, q) {
          var r :| q <= r < |ks| && IsWord(ks[r], {"if", "loop", "while", "repeat"})
            && forall i :: q <= i < r ==> ks[i].End? || ks[i].Go? || ks[i].Delimiter?;
          assert q + 1 <= r;
        }
      } else if LoopFollows(ks, q) {
        var r :| q <= r < |ks| && IsWord(ks[r], {"if", "loop", "while", "repeat"})
          && forall i :: q <= i < r ==> ks[i].End? || ks[i].Go? || ks[i].Delimiter?;
        assert r == q;
      } else {
        assert !IsWord(ks[q], {"if", "loop", "while", "repeat"});
      }
    }
  }

  predicate NoWord(ks: seq<Tok>, j: nat)
    requires j <= |ks|
  {
    forall h :: 0 <= h < j ==> !ks[h].Word?
  }

  ghost predicate FirstIs(ks: seq<Tok>, j: nat, first: Option<string>)
    requires j <= |ks|
  {
    && (first.None? <==> NoWord(ks, j))
    && forall w :: first == Some(w) <==> Begins(ks, j, w)
  }

  predicate Declared(ks: seq<Tok>, j: nat)
    requires j <= |ks|
  {
    exists p :: 0 <= p < j && Declares(ks, p)
  }

  /** The state the splitter carries along, in terms of the tokens read. */
  ghost predicate FlowIs(e: Engine, ks: seq<Tok>, j: nat, flow: Flow)
    requires j <= |ks|
  {
    && FirstIs(ks, j, flow.first)
    && (flow.compound <==> (e.IsMysqlFamily() || e.Sqlite?) && Declared(ks, j))
    && (!flow.compound ==> flow.depth == 0)
    && (forall p :: flow.compound && 0 <= p < j && Declares(ks, p) ==> flow.depth == Level(ks, p, j))
  }

  lemma StepFirst(ks: seq<Tok>, j: nat, first: Option<string>)
    requires j < |ks| && FirstIs(ks, j, first)
    ensures FirstIs(ks, j + 1, if first.None? && ks[j].Word? then Some(ks[j].text) else first)
  {
    var next := if first.None? && ks[j].Word? then Some(ks[j].text) else first;
    forall w
      ensures next == Some(w) <==> Begins(ks, j + 1, w)
    {
      assert first == Some(w) <==> Begins(ks, j, w);
      if Begins(ks, j + 1, w) {
        var i :| 0 <= i < j + 1 <= |ks| && ks[i] == Word(w) && forall h :: 0 <= h < i ==> !ks[h].Word?;
        if i < j {
          assert Begins(ks, j, w);
        }
      }
      if first.None? && ks[j] == Word(w) {
        assert Begins(ks, j + 1, w);
      }
    }
  }

  lemma OneDeclares(ks: seq<Tok>, p: nat, q: nat)
    requires Declares(ks, p) && Declares(ks, q)
    ensures p == q
  {
  }

  lemma DeclaresAt(ks: seq<Tok>, q: nat, i: nat)
    requires q < |ks| && i < |ks| && ks[i] == Word("create") && forall h :: 0 <= h < i ==> !ks[h].Word?
    requires IsWord(ks[q], {"trigger", "procedure", "function", "event"})
    requires forall h :: 0 <= h < q ==> !IsWord(ks[h], {"trigger", "procedure", "function", "event"})
    ensures Declares(ks, q)
  {
    assert i < q;
    assert Begins(ks, q, "create");
  }

  /** Among tokens in which nothing is declared, a word that names something with a body in a CREATE is the first. */
  lemma {:induction false} NoneBefore(ks: seq<Tok>, j: nat, q: nat)
    requires q < j <= |ks| && Begins(ks, j, "create") && !Declared(ks, j)
    ensures !IsWord(ks[q], {"trigger", "procedure", "function", "event"})
    decreases q
  {
    forall h | 0 <= h < q
      ensures !IsWord(ks[h], {"trigger", "procedure", "function", "event"})
    {
      NoneBefore(ks, j, h);
    }
    if IsWord(ks[q], {"trigger", "procedure", "function", "event"}) {
      var i :| 0 <= i < j <= |ks| && ks[i] == Word("create") && forall h :: 0 <= h < i ==> !ks[h].Word?;
      DeclaresAt(ks, q, i);
    }
  }

  lemma StepDeclared(ks: seq<Tok>, j: nat)
    requires j < |ks|
    ensures Declared(ks, j + 1) <==>
      (Declared(ks, j) || (IsWord(ks[j], {"trigger", "procedure", "function", "event"}) && Begins(ks, j, "create")))
  {
    if Declared(ks, j) {
      var p :| 0 <= p < j && Declares(ks, p);
    } else if Begins(ks, j, "create") {
      forall q | 0 <= q < j
        ensures !IsWord(ks[q], {"trigger", "procedure", "function", "event"})
      {
        NoneBefore(ks, j, q);
      }
      assert IsWord(ks[j], {"trigger", "procedure", "function", "event"}) ==> Declares(ks, j);
    }
    if Declared(ks, j + 1) && !Declared(ks, j) {
      var p :| 0 <= p < j + 1 && Declares(ks, p);
      assert p == j;
    }
  }

  lemma StepFlow(e: Engine, ks: seq<Tok>, j: nat, flow: Flow)
    requires j < |ks| && FlowIs(e, ks, j, flow)
    ensures FlowIs(e, ks, j + 1, Advance(e, flow, ks[j], LoopAhead(ks[j + 1..])))
  {
    hide Declares, LoopAhead, LoopFollows, Begins, FirstIs;
    var next := Advance(e, flow, ks[j], LoopAhead(ks[j + 1..]));
    var bodies := {"trigger", "procedure", "function", "event"};
    StepFirst(ks, j, flow.first);
    StepDeclared(ks, j);
    LoopAheadMeans(ks, j + 1);
    FirstCreate(ks, j, flow.first);
    assert next.first == if flow.first.None? && ks[j].Word? then Some(ks[j].text) else flow.first;
    assert next.compound <==>
      (flow.compound || ((e.IsMysqlFamily() || e.Sqlite?) && IsWord(ks[j], bodies) && flow.first == Some("create")));
    forall p | next.compound && 0 <= p < j + 1 && Declares(ks, p)
      ensures next.depth == Level(ks, p, j + 1)
    {
      DeclaringWord(ks, p);
      if flow.compound {
        var q :| 0 <= q < j && Declares(ks, q);
        OneDeclares(ks, p, q);
        assert next.depth == flow.depth + Nesting(ks, j);
      } else {
        assert p == j;
        assert Level(ks, j, j) == 0;
      }
    }
  }

  lemma FirstCreate(ks: seq<Tok>, j: nat, first: Option<string>)
    requires j <= |ks| && FirstIs(ks, j, first)
    ensures first == Some("create") <==> Begins(ks, j, "create")
  {
  }

  lemma DeclaringWord(ks: seq<Tok>, p: nat)
    requires Declares(ks, p)
    ensures p < |ks| && IsWord(ks[p], {"trigger", "procedure", "function", "event"})
  {
  }

  lemma {:induction false} FlowMeans(e: Engine, ks: seq<Tok>, j: nat)
    requires j <= |ks|
    ensures FlowIs(e, ks, j, FlowAt(e, ks, j))
    decreases j
  {
    hide FlowIs, Advance;
    if j == 0 {
      FlowStarts(e, ks);
    } else {
      FlowMeans(e, ks, j - 1);
      StepFlow(e, ks, j - 1, FlowAt(e, ks, j - 1));
    }
  }

  lemma FlowStarts(e: Engine, ks: seq<Tok>)
    ensures FlowIs(e, ks, 0, FRESH)
  {
  }

  lemma CutsMeans(e: Engine, ks: seq<Tok>, j: nat)
    requires j < |ks|
    ensures Cuts(e, FlowAt(e, ks, j), ks[j]) <==> EndsAt(e, ks, j)
  {
    hide FlowAt, Declares, Level, FirstIs;
    FlowMeans(e, ks, j);
    var flow := FlowAt(e, ks, j);
    if flow.compound {
      var p :| 0 <= p < j && Declares(ks, p);
      assert flow.depth == Level(ks, p, j);
      if InBody(e, ks, j) {
        var q :| 0 <= q < j && Declares(ks, q) && Level(ks, q, j) > 0;
        OneDeclares(ks, p, q);
      }
    }
  }

  // ------------------------------------------------------------------ where a statement ends

  lemma {:induction false} WalkTo(e: Engine, script: string, toks: seq<Lexeme>, start: nat, j: nat)
    requires Ordered(toks, start, |script|) && j <= |toks| == |Kinds(toks)|
    requires forall i :: 0 <= i < j ==> !EndsAt(e, Kinds(toks), i)
    ensures Ordered(toks[j..], start, |script|)
    ensures SplitFrom(e, script, toks, start, FRESH)
      == SplitFrom(e, script, toks[j..], start, FlowAt(e, Kinds(toks), j))
    decreases j
  {
    hide StatementIn, EndsAt, Cuts, Advance;
    KindsAt(toks);
    if j == 0 {
      assert toks[0..] == toks;
    } else {
      WalkTo(e, script, toks, start, j - 1);
      var rest := toks[j - 1..];
      assert rest[0] == toks[j - 1] && rest[1..] == toks[j..];
      CutsMeans(e, Kinds(toks), j - 1);
      KindsFrom(toks, j);
      OrderedWeaken(rest[1..], rest[0].stop, start, |script|);
    }
  }

  lemma {:induction false} KindsFrom(toks: seq<Lexeme>, j: nat)
    requires j <= |toks|
    ensures |Kinds(toks)| == |toks| && Kinds(toks)[j..] == Kinds(toks[j..])
  {
    KindsAt(toks);
    KindsAt(toks[j..]);
  }

  /**
   The splitter yields what stands before the first token that ends the statement
   and goes on behind it; if none does, it yields what is left.
   */
  lemma StatementEnds(e: Engine, script: string, toks: seq<Lexeme>, start: nat, j: nat)
    requires Ordered(toks, start, |script|) && FirstEnd(e, Kinds(toks), j)
    ensures |Kinds(toks)| == |toks| && start <= toks[j].pos <= toks[j].stop <= |script|
    ensures Ordered(toks[j + 1..], toks[j].stop, |script|)
    ensures SplitFrom(e, script, toks, start, FRESH)
      == StatementIn(e, script, start, toks[j].pos) + SplitFrom(e, script, toks[j + 1..], toks[j].stop, FRESH)
  {
    hide StatementIn, EndsAt, Cuts, Advance;
    KindsAt(toks);
    WalkTo(e, script, toks, start, j);
    CutsMeans(e, Kinds(toks), j);
    var rest := toks[j..];
    assert rest[0] == toks[j] && rest[1..] == toks[j + 1..];
    OrderedBound(rest[1..], rest[0].stop, |script|);
  }

  lemma NoStatementEnds(e: Engine, script: string, toks: seq<Lexeme>, start: nat)
    requires Ordered(toks, start, |script|)
    requires forall j :: 0 <= j < |Kinds(toks)| ==> !EndsAt(e, Kinds(toks), j)
    ensures start <= |script|
    ensures SplitFrom(e, script, toks, start, FRESH) == StatementIn(e, script, start, |script|)
  {
    hide StatementIn, EndsAt, Cuts, Advance;
    KindsAt(toks);
    WalkTo(e, script, toks, start, |toks|);
    assert toks[|toks|..] == [];
  }

  // ------------------------------------------------------------------ a body is kept whole

  /**
   A CREATE, words before its body among them one that names something with a
   body, BEGIN, a body balanced in BEGIN and CASE and their ENDs, with whatever
   terminators in it, and the END at position `d`.
   */
  predicate HasBody(ks: seq<Tok>, b: nat, d: nat) {
    && 0 < b < d < |ks| && ks[0] == Word("create") && ks[b] == Word("begin")
    && (exists p :: 0 < p < b && IsWord(ks[p], {"trigger", "procedure", "function", "event"}))
    && (forall i :: 0 < i < b ==>
          !ks[i].End? && !ks[i].Go? && !ks[i].Delimiter? && !IsWord(ks[i], {"begin", "case", "end"}))
    && (forall i :: b < i <= d ==> !ks[i].Go? && !ks[i].Delimiter?)
    && (forall j :: b < j <= d ==> Level(ks, b, j) > 0)
    && Level(ks, b, d + 1) == 0
  }

  lemma {:induction false} LevelSplits(ks: seq<Tok>, p: nat, b: nat, j: nat)
    requires p <= b <= j <= |ks|
    ensures Level(ks, p, j) == Level(ks, p, b) + Level(ks, b, j)
    decreases j
  {
    hide Nesting;
    if j > b {
      LevelSplits(ks, p, b, j - 1);
    }
  }

  lemma {:induction false} LevelFlat(ks: seq<Tok>, p: nat, b: nat)
    requires b <= |ks| && forall i :: p <= i < b ==> !IsWord(ks[i], {"begin", "case", "end"})
    ensures Level(ks, p, b) == 0
    decreases b
  {
    hide LoopFollows;
    if p < b {
      LevelFlat(ks, p, b - 1);
    }
  }

  lemma {:induction false} LeastDeclares(ks: seq<Tok>, q: nat) returns (p: nat)
    requires 0 < q < |ks| && ks[0] == Word("create") && IsWord(ks[q], {"trigger", "procedure", "function", "event"})
    ensures 0 < p <= q && Declares(ks, p)
    decreases q
  {
    assert Begins(ks, q, "create");
    if h :| 0 <= h < q && IsWord(ks[h], {"trigger", "procedure", "function", "event"}) {
      p := LeastDeclares(ks, h);
    } else {
      p := q;
    }
  }

  /** No token up to its last END ends such a statement, and the terminator behind it does. */
  lemma BodyEnds(e: Engine, ks: seq<Tok>, b: nat, d: nat)
    requires (e.IsMysqlFamily() || e.Sqlite?) && HasBody(ks, b, d)
    ensures forall j :: 0 <= j <= d ==> !EndsAt(e, ks, j)
    ensures d + 1 < |ks| && ks[d + 1].End? ==> FirstEnd(e, ks, d + 1)
  {
    hide Nesting, Declares;
    var q :| 0 < q < b && IsWord(ks[q], {"trigger", "procedure", "function", "event"});
    var p := LeastDeclares(ks, q);
    LevelFlat(ks, p, b);
    forall j | 0 <= j <= d
      ensures !EndsAt(e, ks, j)
    {
      if j > b {
        LevelSplits(ks, p, b, j);
        assert InBody(e, ks, j);
      }
    }
    if d + 1 < |ks| && ks[d + 1].End? {
      LevelSplits(ks, p, b, d + 1);
      forall r | 0 <= r < d + 1 && Declares(ks, r)
        ensures Level(ks, r, d + 1) <= 0
      {
        OneDeclares(ks, p, r);
      }
      assert !InBody(e, ks, d + 1);
    }
  }

  lemma FirstWordIs(e: Engine, s: string)
    requires s != "" && Next(e, s, INITIAL).tok == Some(Word("create"))
    ensures IsWordStart(s[0]) && WordLen(s) == 6 && Lower(s[..6]) == "create"
  {
    hide Lower, Trim, LineLen, AllDigits, QuotedTail, CommentLen, DollarLen;
  }

  /** A text that begins with CREATE still does when it is cut short behind it. */
  lemma FirstWordStays(e: Engine, s: string, m: nat)
    requires s != "" && Next(e, s, INITIAL).tok == Some(Word("create")) && 6 <= m <= |s|
    ensures Next(e, s[..m], INITIAL).tok == Some(Word("create"))
  {
    hide Next, NextWord, Lower, WordLen;
    FirstWordIs(e, s);
    var a := s[..m];
    assert s == a + s[m..];
    WordLenPrefix(a, s[m..]);
    assert a[..6] == s[..6] && a[0] == s[0];
    AlphaStart(s);
    NextIsWord(e, a);
    NextWordIs(e, a);
    NextWordSays(e, a);
  }

  lemma AlphaStart(s: string)
    requires s != "" && WordLen(s) == 6 && Lower(s[..6]) == "create"
    ensures IsAlpha(s[0])
  {
    assert Lower(s[..6])[0] == LowerChar(s[0]);
  }

  lemma NextWordSays(e: Engine, s: string)
    requires s != "" && IsWordStart(s[0])
    ensures NextWord(e, s, INITIAL).tok.Some?
  {
    hide WordLen, Lower, Trim, LineLen, AllDigits;
  }

  // ------------------------------------------------------------------ moving a text

  function Moved(toks: seq<Lexeme>, k: nat): (r: seq<Lexeme>)
    ensures |r| == |toks|
    ensures forall i :: 0 <= i < |r| ==> r[i] == Lexeme(toks[i].pos + k, toks[i].tok, toks[i].stop + k)
  {
    if toks == [] then []
    else [Lexeme(toks[0].pos + k, toks[0].tok, toks[0].stop + k)] + Moved(toks[1..], k)
  }

  function MovedSpans(spans: seq<Span>, k: nat): (r: seq<Span>)
    ensures |r| == |spans| && forall i :: 0 <= i < |r| ==> r[i] == Span(spans[i].from + k, spans[i].to + k)
  {
    if spans == [] then [] else [Span(spans[0].from + k, spans[0].to + k)] + MovedSpans(spans[1..], k)
  }

  lemma {:induction false} MovedAppend(a: seq<Lexeme>, b: seq<Lexeme>, k: nat)
    ensures Moved(a + b, k) == Moved(a, k) + Moved(b, k)
  {
  }

  lemma LexCons(e: Engine, s: string, base: nat, st: LexState)
    requires s != ""
    ensures var r := Next(e, s, st); Lex(e, s, base, st) == Yield(r, base) + Lex(e, s[r.len..], base + r.len, r.state)
  {
    hide Next;
  }

  lemma YieldMoved(r: Step, base: nat, k: nat)
    ensures Yield(r, base + k) == Moved(Yield(r, base), k) && |Yield(r, base)| <= 1
  {
  }

  lemma {:induction false} LexMoved(e: Engine, s: string, base: nat, k: nat, st: LexState)
    ensures Lex(e, s, base + k, st) == Moved(Lex(e, s, base, st), k)
    decreases |s|
  {
    hide Next, Lex, Yield, Moved;
    if s == "" {
      LexNil(e, base, st);
      LexNil(e, base + k, st);
    } else {
      var r := Next(e, s, st);
      LexCons(e, s, base, st);
      LexCons(e, s, base + k, st);
      LexMoved(e, s[r.len..], base + r.len, k, r.state);
      assert base + k + r.len == base + r.len + k;
      YieldMoved(r, base, k);
      MovedAppend(Yield(r, base), Lex(e, s[r.len..], base + r.len, r.state), k);
    }
  }

  lemma {:induction false} OrderedMoved(toks: seq<Lexeme>, from: nat, size: nat, k: nat)
    requires Ordered(toks, from, size)
    ensures Ordered(Moved(toks, k), from + k, size + k) && Kinds(Moved(toks, k)) == Kinds(toks)
  {
    if toks != [] {
      OrderedMoved(toks[1..], toks[0].stop, size, k);
      assert Moved(toks, k)[1..] == Moved(toks[1..], k);
    }
  }

  lemma StatementMoved(e: Engine, script: string, k: nat, from: nat, to: nat)
    requires k <= |script| && from <= to <= |script| - k
    ensures StatementIn(e, script, from + k, to + k) == MovedSpans(StatementIn(e, script[k..], from, to), k)
  {
    hide Lex, HasWord, Trim;
    assert script[from + k..to + k] == script[k..][from..to];
  }

  lemma MovedSpansAppend(a: seq<Span>, b: seq<Span>, k: nat)
    ensures MovedSpans(a + b, k) == MovedSpans(a, k) + MovedSpans(b, k)
  {
  }

  /** The splitter works alike wherever the text stands. */
  lemma {:induction false} SplitMoved(e: Engine, script: string, k: nat, toks: seq<Lexeme>, start: nat, flow: Flow)
    requires k <= |script| && Ordered(toks, start, |script| - k)
    ensures Ordered(Moved(toks, k), start + k, |script|)
    ensures SplitFrom(e, script, Moved(toks, k), start + k, flow)
      == MovedSpans(SplitFrom(e, script[k..], toks, start, flow), k)
    decreases |toks|
  {
    hide StatementIn, Cuts, Advance, LoopAhead, SplitFrom, Ordered, MovedSpans, Kinds;
    var size := |script| - k;
    OrderedMoved(toks, start, size, k);
    if toks == [] {
      GuardLexer.SplitEnd(e, script[k..], start, flow);
      GuardLexer.SplitEnd(e, script, start + k, flow);
      StatementMoved(e, script, k, start, size);
    } else {
      GuardLexer.SplitStep(e, script[k..], toks, start, flow);
      var t, rest := toks[0], toks[1..];
      assert Moved(toks, k)[1..] == Moved(rest, k);
      OrderedMoved(rest, start, size, k);
      var next := Advance(e, flow, t.tok, LoopAhead(Kinds(rest)));
      if Cuts(e, flow, t.tok) {
        SplitMoved(e, script, k, rest, t.stop, FRESH);
      } else {
        SplitMoved(e, script, k, rest, start, next);
      }
      StepMoved(e, script, k, toks, start, flow);
    }
  }

  /** One step of it. */
  lemma StepMoved(e: Engine, script: string, k: nat, toks: seq<Lexeme>, start: nat, flow: Flow)
    requires k <= |script| && toks != [] && Ordered(toks, start, |script| - k)
    requires Ordered(Moved(toks, k), start + k, |script|)
    requires Kinds(Moved(toks[1..], k)) == Kinds(toks[1..])
    requires Ordered(toks[1..], toks[0].stop, |script| - k) && Ordered(toks[1..], start, |script| - k)
    requires Ordered(Moved(toks[1..], k), toks[0].stop + k, |script|)
    requires Ordered(Moved(toks[1..], k), start + k, |script|)
    requires Cuts(e, flow, toks[0].tok) ==>
      SplitFrom(e, script, Moved(toks[1..], k), toks[0].stop + k, FRESH)
      == MovedSpans(SplitFrom(e, script[k..], toks[1..], toks[0].stop, FRESH), k)
    requires var next := Advance(e, flow, toks[0].tok, LoopAhead(Kinds(toks[1..])));
      !Cuts(e, flow, toks[0].tok) ==>
        SplitFrom(e, script, Moved(toks[1..], k), start + k, next)
        == MovedSpans(SplitFrom(e, script[k..], toks[1..], start, next), k)
    ensures SplitFrom(e, script, Moved(toks, k), start + k, flow)
      == MovedSpans(SplitFrom(e, script[k..], toks, start, flow), k)
  {
    hide StatementIn, Cuts, Advance, LoopAhead, SplitFrom, MovedSpans, Kinds;
    var t, rest := toks[0], toks[1..];
    assert Moved(toks, k)[1..] == Moved(rest, k);
    GuardLexer.SplitStep(e, script[k..], toks, start, flow);
    GuardLexer.SplitStep(e, script, Moved(toks, k), start + k, flow);
    if Cuts(e, flow, t.tok) {
      StatementMoved(e, script, k, start, t.pos);
      MovedSpansAppend(StatementIn(e, script[k..], start, t.pos), SplitFrom(e, script[k..], rest, t.stop, FRESH), k);
    }
  }

  /** Behind a token the lexer goes on with the text behind it. */
  lemma {:induction false} LexBehind(e: Engine, s: string, base: nat, st: LexState, j: nat) returns (next: LexState)
    requires j < |Lex(e, s, base, st)|
    ensures var stop := Lex(e, s, base, st)[j].stop;
      base <= stop <= base + |s| && Lex(e, s, base, st)[j + 1..] == Lex(e, s[stop - base..], stop, next)
    decreases |s|
  {
    hide Next, Lex;
    if s == "" {
      LexNil(e, base, st);
      assert false;
    } else {
      var r := Next(e, s, st);
      LexCons(e, s, base, st);
      var all, head, rest := Lex(e, s, base, st), Yield(r, base), Lex(e, s[r.len..], base + r.len, r.state);
      assert all == head + rest;
      if j < |head| {
        next := r.state;
        assert all[j + 1..] == rest;
      } else {
        next := LexBehind(e, s[r.len..], base + r.len, r.state, j - |head|);
        assert all[j] == rest[j - |head|] && all[j + 1..] == rest[j - |head| + 1..];
        var stop := all[j].stop;
        assert s[r.len..][stop - (base + r.len)..] == s[stop - base..];
      }
    }
  }

  /**
   PostgreSQL and SQLite: what stands behind the first token that ends a statement
   is split as a script of its own.
   */
  lemma RestIsSplit(e: Engine, script: string, j: nat)
    requires Plain(e) && j < |Lex(e, script, 0, INITIAL)|
    ensures var toks := Lex(e, script, 0, INITIAL); var stop := toks[j].stop;
      && stop <= |script| && Ordered(toks[j + 1..], stop, |script|)
      && SplitFrom(e, script, toks[j + 1..], stop, FRESH) == MovedSpans(SplitSpans(e, script[stop..]), stop)
  {
    hide Lex, SplitFrom, SplitSpans, Ordered, Moved;
    var toks := Lex(e, script, 0, INITIAL);
    var next := LexBehind(e, script, 0, INITIAL, j);
    var stop := toks[j].stop;
    var tail := script[stop..];
    LexStateless(e, tail, stop, next);
    LexMoved(e, tail, 0, stop, INITIAL);
    assert toks[j + 1..] == Moved(Lex(e, tail, 0, INITIAL), stop);
    GuardLexer.SplitStart(e, tail);
    assert |tail| == |script| - stop;
    SplitMoved(e, script, stop, Lex(e, tail, 0, INITIAL), 0, FRESH);
    assert 0 + stop == stop;
  }

  // ------------------------------------------------------------------ scripts as texts

  lemma {:induction false} OrderedAt(toks: seq<Lexeme>, from: nat, size: nat, i: nat)
    requires Ordered(toks, from, size) && i < |toks|
    ensures from <= toks[i].pos < toks[i].stop <= size && Ordered(toks[i + 1..], toks[i].stop, size)
  {
    if i == 0 {
      OrderedBound(toks[1..], toks[0].stop, size);
    } else {
      OrderedAt(toks[1..], toks[0].stop, size, i - 1);
      assert toks[i] == toks[1..][i - 1] && toks[1..][i..] == toks[i + 1..];
    }
  }

  lemma {:induction false} TokenBoundary(e: Engine, s: string, base: nat, j: nat)
    requires Plain(e) && j < |Lex(e, s, base, INITIAL)|
    ensures var pos := Lex(e, s, base, INITIAL)[j].pos; base <= pos && Boundary(e, s, pos - base)
    decreases |s|
  {
    hide Next, Lex;
    if s == "" {
      LexNil(e, base, INITIAL);
      assert false;
    } else {
      var r := Next(e, s, INITIAL);
      LexStep(e, s, base);
      var all, head, rest := Lex(e, s, base, INITIAL), Yield(r, base), Lex(e, s[r.len..], base + r.len, INITIAL);
      if j >= |head| {
        TokenBoundary(e, s[r.len..], base + r.len, j - |head|);
        assert all[j] == rest[j - |head|];
      }
    }
  }

  /** The text up to a token has the tokens before it. */
  lemma PrefixKinds(e: Engine, s: string, j: nat)
    requires Plain(e) && j < |Lex(e, s, 0, INITIAL)|
    ensures var toks := Lex(e, s, 0, INITIAL);
      toks[j].pos <= |s| && |Kinds(toks)| == |toks| && LexKinds(e, s[..toks[j].pos]) == Kinds(toks)[..j]
  {
    hide Lex, Boundary, Ordered;
    var toks := Lex(e, s, 0, INITIAL);
    LexOrdered(e, s, 0, INITIAL);
    OrderedAt(toks, 0, |s|, j);
    var p := toks[j].pos;
    TokenBoundary(e, s, 0, j);
    var a, w := s[..p], s[p..];
    assert a + w == s;
    LexCut(e, a, w, 0);
    var left, right := Lex(e, a, 0, INITIAL), Lex(e, w, p, INITIAL);
    LexOrdered(e, a, 0, INITIAL);
    LexOrdered(e, w, p, INITIAL);
    if |left| > j {
      OrderedAt(left, 0, p, j);
      assert false;
    }
    if |left| < j {
      OrderedAt(right, p, |s|, 0);
      assert toks[|left|] == right[0];
      OrderedAt(toks, 0, |s|, |left|);
      var after := toks[|left| + 1..];
      OrderedAt(after, toks[|left|].stop, |s|, j - |left| - 1);
      assert false;
    }
    KindsAppend(left, right);
    KindsAt(toks);
    KindsAt(left);
  }

  /** The statement among these tokens: their text, trimmed, when there is a word in it. */
  lemma StatementText(e: Engine, script: string, to: nat)
    requires Plain(e) && to <= |script|
    ensures var spans := StatementIn(e, script, 0, to);
      if WordIn(LexKinds(e, script[..to]))
      then |spans| == 1 && spans[0].from <= spans[0].to <= |script| && TextAt(script, spans[0]) == Trim(script[..to])
      else spans == []
  {
    hide Lex, WordIn, Trim, StatementIn;
    var raw := script[..to];
    assert script[0..to] == raw;
    var before, after := TrimKinds(e, raw);
    MiddleWord(before, LexKinds(e, Trim(raw)), after);
    HasWordKinds(Lex(e, Trim(raw), 0, INITIAL));
    PieceShape(e, script, 0, to);
    TextShape(script, 0, to);
    if WordIn(LexKinds(e, raw)) {
      assert Trim(raw) != "" by { WordNeedsText(e, Trim(raw)); }
    } else {
      NoStatement(e, script, to);
    }
  }

  lemma WordNeedsText(e: Engine, t: string)
    requires WordIn(LexKinds(e, t))
    ensures t != ""
  {
  }

  lemma NoStatement(e: Engine, script: string, to: nat)
    requires to <= |script| && !HasWord(Lex(e, Trim(script[0..to]), 0, INITIAL))
    ensures StatementIn(e, script, 0, to) == []
  {
    hide Lex, HasWord, Trim;
  }

  function FirstText(text: string, word: bool): seq<string> {
    if word then [Trim(text)] else []
  }

  /**
   PostgreSQL and SQLite: a script is split at the first token that ends a
   statement: its text before that, trimmed, and the statements of what follows.
   */
  lemma SplitCut(e: Engine, script: string, j: nat)
    requires Plain(e) && FirstEnd(e, LexKinds(e, script), j)
    ensures var toks, ks := Lex(e, script, 0, INITIAL), LexKinds(e, script);
      && |toks| == |ks| && toks[j].pos <= toks[j].stop <= |script|
      && Split(e, script) == FirstText(script[..toks[j].pos], WordIn(ks[..j])) + Split(e, script[toks[j].stop..])
  {
    hide Lex, StatementIn, WordIn, FirstEnd, SplitFrom, Ordered, Trim, SplitSpans;
    var toks := Lex(e, script, 0, INITIAL);
    GuardLexer.SplitStart(e, script);
    KindsAt(toks);
    FirstIn(e, Kinds(toks), j);
    StatementEnds(e, script, toks, 0, j);
    PrefixKinds(e, script, j);
    StatementText(e, script, toks[j].pos);
    RestIsSplit(e, script, j);
    SpansRead(e, script, StatementIn(e, script, 0, toks[j].pos), toks[j].stop);
  }

  predicate Inside(spans: seq<Span>, size: nat) {
    forall i :: 0 <= i < |spans| ==> spans[i].from <= spans[i].to <= size
  }

  predicate AreTexts(script: string, spans: seq<Span>, texts: seq<string>) {
    && |texts| == |spans| && Inside(spans, |script|)
    && forall i :: 0 <= i < |spans| ==> texts[i] == TextAt(script, spans[i])
  }

  lemma SplitTexts(e: Engine, script: string)
    ensures AreTexts(script, SplitSpans(e, script), Split(e, script))
  {
    hide SplitSpans, TextAt;
    var spans := SplitSpans(e, script);
    forall i | 0 <= i < |spans|
      ensures spans[i].from <= spans[i].to <= |script|
    {
      assert spans[i] in spans;
    }
  }

  lemma TextsJoin(script: string, first: seq<Span>, stop: nat, rest: seq<Span>, all: seq<string>, texts: seq<string>)
    requires |first| <= 1 && stop <= |script| && Inside(first, |script|)
    requires AreTexts(script, first + MovedSpans(rest, stop), all) && AreTexts(script[stop..], rest, texts)
    ensures all == (if first == [] then [] else [TextAt(script, first[0])]) + texts
  {
    hide TextAt;
    var moved := MovedSpans(rest, stop);
    var head := if first == [] then [] else [TextAt(script, first[0])];
    assert |all| == |head| + |texts|;
    forall i | 0 <= i < |all|
      ensures all[i] == (head + texts)[i]
    {
      assert all[i] == TextAt(script, (first + moved)[i]);
      if i >= |first| {
        assert (first + moved)[i] == moved[i - |first|];
        SameText(script, stop, rest[i - |first|]);
      }
    }
  }

  /** The texts of the first spans, and those of the rest, read where they stand. */
  lemma SpansRead(e: Engine, script: string, first: seq<Span>, stop: nat)
    requires |first| <= 1 && stop <= |script| && Inside(first, |script|)
    requires SplitSpans(e, script) == first + MovedSpans(SplitSpans(e, script[stop..]), stop)
    ensures Split(e, script)
      == (if first == [] then [] else [TextAt(script, first[0])]) + Split(e, script[stop..])
  {
    hide Split, SplitSpans, TextAt, AreTexts, Inside;
    SplitTexts(e, script);
    SplitTexts(e, script[stop..]);
    TextsJoin(script, first, stop, SplitSpans(e, script[stop..]), Split(e, script), Split(e, script[stop..]));
  }

  lemma SameText(script: string, stop: nat, span: Span)
    requires stop <= |script| && span.from <= span.to <= |script| - stop
    ensures TextAt(script, Span(span.from + stop, span.to + stop)) == TextAt(script[stop..], span)
  {
    assert script[span.from + stop..span.to + stop] == script[stop..][span.from..span.to];
  }

  lemma FirstIn(e: Engine, ks: seq<Tok>, j: nat)
    requires FirstEnd(e, ks, j)
    ensures j < |ks|
  {
  }

  /** A script no token of which ends a statement is one statement, if there is a word in it. */
  lemma SplitUncutText(e: Engine, script: string)
    requires Plain(e) && forall j :: 0 <= j < |LexKinds(e, script)| ==> !EndsAt(e, LexKinds(e, script), j)
    ensures Split(e, script) == FirstText(script, WordIn(LexKinds(e, script)))
  {
    hide Lex, StatementIn, WordIn, EndsAt, SplitFrom, Ordered, Trim, SplitSpans;
    var toks := Lex(e, script, 0, INITIAL);
    GuardLexer.SplitStart(e, script);
    assert LexKinds(e, script) == Kinds(toks);
    NoStatementEnds(e, script, toks, 0);
    assert script[..|script|] == script;
    StatementText(e, script, |script|);
  }

  // ------------------------------------------------------------------ bodies as texts

  lemma HasFirstWord(e: Engine, t: string)
    requires t != "" && Next(e, t, INITIAL).tok.Some? && Next(e, t, INITIAL).tok.value.Word?
    ensures HasWord(Lex(e, t, 0, INITIAL))
  {
    hide Next, Lex;
    LexHead(e, t);
    HasWordKinds(Lex(e, t, 0, INITIAL));
    assert WordIn(LexKinds(e, t));
  }

  /** On MySQL too, a text that begins with CREATE has a word in it. */
  lemma CreateHasWord(e: Engine, script: string, m: nat)
    requires script != "" && Next(e, script, INITIAL).tok == Some(Word("create")) && 6 <= m <= |script|
    ensures var n := |Trim(script[..m])|;
      n <= |script| && script[..n] == Trim(script[..m]) && StatementIn(e, script, 0, m) == [Span(0, n)]
  {
    hide Lex, Next, Trim, HasWord, LeadSpace, IsWordPart, IsTrimSpace;
    var raw := script[..m];
    assert script[0..m] == raw;
    FirstWordIs(e, script);
    WordPartSolid();
    assert IsWordPart(script[0]) && IsWordPart(script[5]);
    SolidInTrim(raw, 0);
    SolidInTrim(raw, 5);
    var t := Trim(raw);
    TextShape(script, 0, m);
    assert t == script[..|t|];
    FirstWordStays(e, script, |t|);
    HasFirstWord(e, t);
    PieceShape(e, script, 0, m);
  }

  lemma FirstAmong(ks: seq<Tok>)
    requires ks != [] && ks[0].Word?
    ensures WordIn(ks)
  {
  }

  lemma FirstLexeme(e: Engine, script: string)
    requires script != "" && Next(e, script, INITIAL).tok == Some(Word("create"))
    ensures Lex(e, script, 0, INITIAL) != [] && Lex(e, script, 0, INITIAL)[0] == Lexeme(0, Word("create"), 6)
    ensures LexKinds(e, script) != [] && LexKinds(e, script)[0] == Word("create") && 6 <= |script|
  {
    hide Next, NextWord, Lex;
    FirstWordIs(e, script);
    AlphaStart(script);
    NextIsWord(e, script);
    WordStep(e, script);
    LexCons(e, script, 0, INITIAL);
  }

  lemma WordStep(e: Engine, s: string)
    requires s != "" && IsWordStart(s[0]) && WordLen(s) == 6 && Lower(s[..6]) == "create"
    ensures NextWord(e, s, INITIAL).len == 6
  {
    hide WordLen, Lower, Trim, LineLen, AllDigits;
  }

  /**
   The body of a trigger, procedure, function or event stays in one piece whatever
   terminators it holds: a script that ends with it is one statement, and a
   terminator behind it ends the statement there.
   */
  lemma BodyIsKept(e: Engine, script: string, b: nat, d: nat)
    requires e.IsMysqlFamily() || e.Sqlite?
    requires script != "" && Next(e, script, INITIAL).tok == Some(Word("create"))
    requires HasBody(LexKinds(e, script), b, d)
    requires d + 1 == |LexKinds(e, script)| || LexKinds(e, script)[d + 1].End?
    ensures var toks := Lex(e, script, 0, INITIAL);
      |toks| == |LexKinds(e, script)| && if d + 1 == |toks| then Split(e, script) == [Trim(script)]
      else
        && 6 <= toks[d + 1].pos <= toks[d + 1].stop <= |script| && Split(e, script) != []
        && Split(e, script)[0] == Trim(script[..toks[d + 1].pos])
        && (e.Sqlite? ==> Split(e, script)[1..] == Split(e, script[toks[d + 1].stop..]))
  {
    hide Lex, Next, StatementIn, HasBody, FirstEnd, EndsAt, SplitFrom, Ordered, Trim, SplitSpans, WordIn, Split;
    var toks, ks := Lex(e, script, 0, INITIAL), LexKinds(e, script);
    KindsAt(toks);
    BodyEnds(e, ks, b, d);
    FirstLexeme(e, script);
    BodyLong(ks, b, d);
    if d + 1 == |toks| {
      NoneEnds(e, script);
    } else {
      FirstEnds(e, script, d + 1);
      if e.Sqlite? {
        assert ks[..d + 1][0] == ks[0];
        FirstAmong(ks[..d + 1]);
        SplitCut(e, script, d + 1);
      }
    }
  }

  lemma BodyLong(ks: seq<Tok>, b: nat, d: nat)
    requires HasBody(ks, b, d)
    ensures 0 < d < |ks|
  {
    hide Level;
  }

  /** A CREATE that no token ends. */
  lemma NoneEnds(e: Engine, script: string)
    requires script != "" && Next(e, script, INITIAL).tok == Some(Word("create"))
    requires forall j :: 0 <= j < |LexKinds(e, script)| ==> !EndsAt(e, LexKinds(e, script), j)
    ensures Split(e, script) == [Trim(script)]
  {
    hide Lex, Next, StatementIn, EndsAt, SplitFrom, Ordered, Trim, SplitSpans;
    var toks := Lex(e, script, 0, INITIAL);
    assert Kinds(toks) == LexKinds(e, script);
    GuardLexer.SplitStart(e, script);
    NoStatementEnds(e, script, toks, 0);
    assert script[..|script|] == script;
    FirstLexeme(e, script);
    CreateHasWord(e, script, |script|);
  }

  /** A CREATE that token `j` ends. */
  lemma FirstEnds(e: Engine, script: string, j: nat)
    requires script != "" && Next(e, script, INITIAL).tok == Some(Word("create"))
    requires j > 0 && FirstEnd(e, LexKinds(e, script), j)
    ensures var toks := Lex(e, script, 0, INITIAL);
      && j < |toks| == |LexKinds(e, script)| && 6 <= toks[j].pos <= toks[j].stop <= |script|
      && Split(e, script) != [] && Split(e, script)[0] == Trim(script[..toks[j].pos])
  {
    hide Lex, Next, StatementIn, FirstEnd, SplitFrom, Ordered, Trim, SplitSpans;
    var toks := Lex(e, script, 0, INITIAL);
    assert Kinds(toks) == LexKinds(e, script);
    KindsAt(toks);
    FirstIn(e, Kinds(toks), j);
    GuardLexer.SplitStart(e, script);
    FirstLexeme(e, script);
    OrderedAt(toks, 0, |script|, 0);
    OrderedAt(toks[1..], toks[0].stop, |script|, j - 1);
    assert toks[1..][j - 1] == toks[j];
    StatementEnds(e, script, toks, 0, j);
    CreateHasWord(e, script, toks[j].pos);
  }

  // ------------------------------------------------------------------ bodies that are not closed

  const END_CASE: seq<Tok> := [Word("create"), Word("procedure"), Word("begin"), Word("case"), Word("end"),
    Word("case"),
    End, Word("end"), End, Word("select")]

  const END_THEN_IF: seq<Tok> := [Word("create"), Word("procedure"), Word("begin"), Word("begin"), Word("end"), End,
    Word("if"), Word("end"), Word("if"), End, Word("end"), End, Word("select")]

  lemma OthersLoop(ks: seq<Tok>, q: nat)
    requires q < |ks| && ks[q].Word? && ks[q].text !in {"if", "loop", "while", "repeat"}
    ensures !LoopFollows(ks, q)
  {
  }

  lemma LoopAt(ks: seq<Tok>, q: nat, r: nat)
    requires q <= r < |ks| && IsWord(ks[r], {"if", "loop", "while", "repeat"})
    requires forall i :: q <= i < r ==> ks[i].End?
    ensures LoopFollows(ks, q)
  {
  }

  lemma LevelTo(ks: seq<Tok>, p: nat, j: nat, step: int)
    requires p < j <= |ks| && Nesting(ks, j - 1) == step
    ensures Level(ks, p, j) == Level(ks, p, j - 1) + step
  {
    hide Nesting;
  }

  lemma FirstDeclares(ks: seq<Tok>)
    requires |ks| > 1 && ks[0] == Word("create") && ks[1] == Word("procedure")
    ensures Declares(ks, 1)
  {
    assert Begins(ks, 1, "create");
  }

  /** MySQL closes a CASE statement with END CASE, whose CASE is counted as one more to close: SELECT is swallowed. */
  lemma EndCaseOpens(e: Engine)
    requires e.IsMysqlFamily()
    ensures forall j :: 0 <= j < |END_CASE| ==> !EndsAt(e, END_CASE, j)
  {
    var ks := END_CASE;
    FirstDeclares(ks);
    OthersLoop(ks, 5);
    assert Level(ks, 1, 1) == 0;
    LevelTo(ks, 1, 2, 0);
    LevelTo(ks, 1, 3, 1);
    LevelTo(ks, 1, 4, 1);
    LevelTo(ks, 1, 5, -1);
    LevelTo(ks, 1, 6, 1);
    LevelTo(ks, 1, 7, 0);
    assert Level(ks, 1, 8) >= 1;
    assert InBody(e, ks, 6) && InBody(e, ks, 8);
  }

  lemma EndBeforeIfLevels()
    ensures var ks := END_THEN_IF; Level(ks, 1, 5) == 2 && Level(ks, 1, 9) == 2 && Level(ks, 1, 11) >= 1
  {
    hide LoopFollows, Level;
    var ks := END_THEN_IF;
    LoopAt(ks, 5, 6);
    LoopAt(ks, 8, 8);
    LevelNone(ks, 1);
    LevelTo(ks, 1, 2, 0);
    LevelTo(ks, 1, 3, 1);
    LevelTo(ks, 1, 4, 1);
    LevelTo(ks, 1, 5, 0);
    LevelTo(ks, 1, 6, 0);
    LevelTo(ks, 1, 7, 0);
    LevelTo(ks, 1, 8, 0);
    LevelTo(ks, 1, 9, 0);
    LevelTo(ks, 1, 10, 0);
    LevelTo(ks, 1, 11, Nesting(ks, 10));
  }

  lemma LevelNone(ks: seq<Tok>, p: nat)
    requires p <= |ks|
    ensures Level(ks, p, p) == 0
  {
  }

  /**
   Looking ahead from END passes over the terminator, so a nested block's `END;`
   before an IF is taken for an END IF: the block is never closed.
   */
  lemma EndBeforeIf(e: Engine)
    requires e.IsMysqlFamily()
    ensures forall j :: 0 <= j < |END_THEN_IF| ==> !EndsAt(e, END_THEN_IF, j)
  {
    hide Level, Declares;
    var ks := END_THEN_IF;
    FirstDeclares(ks);
    EndBeforeIfLevels();
    assert InBody(e, ks, 5) && InBody(e, ks, 9) && InBody(e, ks, 11);
  }
}
