/** How risky a statement is, told from its tokens: which words decide, and where they stand. */
module GuardRisk {
  import opened Prelude
  import opened Engines
  import opened Guard
  import opened SqlText
  import GuardLocality

  // ------------------------------------------------------------------ the reference

  function Delta(t: Tok): int {
    if t.Open? then 1 else if t.Close? then -1 else 0
  }

  /** Opening less closing parentheses before token `i`. */
  function Enclosed(ks: seq<Tok>, i: nat): int
    requires i <= |ks|
  {
    if i == 0 then 0
    else Enclosed(ks, i - 1) + Delta(ks[i - 1])
  }

  /** A word that no parenthesis encloses. */
  predicate TopAt(ks: seq<Tok>, i: nat) {
    i < |ks| && ks[i].Word? && Enclosed(ks, i) <= 0
  }

  ghost predicate Has(ks: seq<Tok>, w: string) {
    exists i: nat :: TopAt(ks, i) && ks[i].text == w
  }

  /** The first such word is `w`. */
  ghost predicate Leads(ks: seq<Tok>, w: string) {
    exists i: nat :: TopAt(ks, i) && ks[i].text == w && forall h :: 0 <= h < i ==> !TopAt(ks, h)
  }

  /** The second such word is `w`. */
  ghost predicate Follows(ks: seq<Tok>, w: string) {
    exists i: nat, j: nat ::
      && i < j && TopAt(ks, i) && TopAt(ks, j) && ks[j].text == w
      && forall h :: 0 <= h < j && h != i ==> !TopAt(ks, h)
  }

  /** A word that writes, at any depth. */
  predicate Writing(ks: seq<Tok>) {
    exists i :: 0 <= i < |ks| && ks[i].Word? && ks[i].text in {"insert", "update", "delete", "merge"}
  }

  // ------------------------------------------------------------------ the words the classifier looks at

  lemma {:induction false} EnclosedTail(ks: seq<Tok>, i: nat)
    requires 0 < i <= |ks|
    ensures Enclosed(ks, i) ==
      Delta(ks[0]) + Enclosed(ks[1..], i - 1)
  {
    if i > 1 {
      EnclosedTail(ks, i - 1);
    }
  }

  lemma TopWordsCons(ks: seq<Tok>, depth: int)
    requires ks != []
    ensures TopWords(ks, depth)
      == (if ks[0].Word? && depth <= 0 then [ks[0].text] else []) + TopWords(ks[1..], depth + Delta(ks[0]))
  {
  }

  /** Are these the positions of the words, taken from depth `depth`? */
  ghost predicate Members(ks: seq<Tok>, depth: int, at: seq<nat>) {
    forall i: nat :: i in at <==> i < |ks| && ks[i].Word? && depth + Enclosed(ks, i) <= 0
  }

  /** The positions of the words the classifier collects. */
  ghost predicate Collected(ks: seq<Tok>, depth: int, ws: seq<string>, at: seq<nat>) {
    && |at| == |ws| && (forall i, j :: 0 <= i < j < |at| ==> at[i] < at[j])
    && (forall k :: 0 <= k < |at| ==> at[k] < |ks| && ks[at[k]] == Word(ws[k])) && Members(ks, depth, at)
  }

  lemma MembersCons(ks: seq<Tok>, depth: int, at: seq<nat>, up: seq<nat>)
    requires ks != [] && Members(ks[1..], depth + Delta(ks[0]), at)
    requires Shifted(at, up)
    ensures Members(ks, depth, (if ks[0].Word? && depth <= 0 then [0] else []) + up)
  {
    hide Delta;
    var all := (if ks[0].Word? && depth <= 0 then [0] else []) + up;
    forall i: nat
      ensures i in all <==> i < |ks| && ks[i].Word? && depth + Enclosed(ks, i) <= 0
    {
      if i > 0 {
        ShiftedIn(at, up, i - 1);
        if i < |ks| {
          EnclosedTail(ks, i);
          assert ks[i] == ks[1..][i - 1];
        }
      } else {
        ShiftedIn(at, up, 0);
      }
    }
  }

  lemma CollectedCons(ks: seq<Tok>, depth: int, ws: seq<string>, at: seq<nat>, up: seq<nat>)
    requires ks != [] && Collected(ks[1..], depth + Delta(ks[0]), ws, at)
    requires Shifted(at, up)
    ensures var top := ks[0].Word? && depth <= 0;
      Collected(ks, depth, (if top then [ks[0].text] else []) + ws, (if top then [0] else []) + up)
  {
    hide Members, Enclosed;
    MembersCons(ks, depth, at, up);
  }

  lemma {:induction false} TopWordsAt(ks: seq<Tok>, depth: int) returns (at: seq<nat>)
    ensures Collected(ks, depth, TopWords(ks, depth), at)
    decreases |ks|
  {
    at := [];
    if ks != [] {
      hide Collected, TopWords, Members;
      var rest := TopWordsAt(ks[1..], depth + Delta(ks[0]));
      var up := seq(|rest|, i requires 0 <= i < |rest| => rest[i] + 1);
      CollectedCons(ks, depth, TopWords(ks[1..], depth + Delta(ks[0])), rest, up);
      TopWordsCons(ks, depth);
      at := (if ks[0].Word? && depth <= 0 then [0] else []) + up;
    }
  }

  /** What the collected words say about the tokens. */
  lemma WordsMean(ks: seq<Tok>)
    ensures var ws := TopWords(ks, 0);
      && (forall w :: w in ws <==> Has(ks, w))
      && (ws == [] <==> forall i: nat :: !TopAt(ks, i))
      && (forall w :: ws != [] && ws[0] == w <==> Leads(ks, w))
      && (forall w :: |ws| > 1 && ws[1] == w <==> Follows(ks, w))
  {
    hide Enclosed;
    var ws := TopWords(ks, 0);
    var at := TopWordsAt(ks, 0);
    assert Positions(ks, ws, at);
    WordsHas(ks, ws, at);
    WordsLead(ks, ws, at);
    WordsFollow(ks, ws, at);
  }

  ghost predicate Positions(ks: seq<Tok>, ws: seq<string>, at: seq<nat>) {
    && |at| == |ws| && (forall i, j :: 0 <= i < j < |at| ==> at[i] < at[j])
    && (forall k :: 0 <= k < |at| ==> at[k] < |ks| && ks[at[k]] == Word(ws[k]))
    && forall i: nat :: i in at <==> TopAt(ks, i)
  }

  lemma WordsHas(ks: seq<Tok>, ws: seq<string>, at: seq<nat>)
    requires Positions(ks, ws, at)
    ensures forall w :: w in ws <==> Has(ks, w)
  {
    hide TopAt;
    forall w
      ensures w in ws <==> Has(ks, w)
    {
      if w in ws {
        var k :| 0 <= k < |ws| && ws[k] == w;
        assert at[k] in at && TopAt(ks, at[k]);
      }
      if Has(ks, w) {
        var i: nat :| TopAt(ks, i) && ks[i].text == w;
        assert i in at;
        var k :| 0 <= k < |at| && at[k] == i;
        assert ws[k] == w;
      }
    }
  }

  lemma WordsLead(ks: seq<Tok>, ws: seq<string>, at: seq<nat>)
    requires Positions(ks, ws, at)
    ensures ws == [] <==> forall i: nat :: !TopAt(ks, i)
    ensures forall w :: ws != [] && ws[0] == w <==> Leads(ks, w)
  {
    hide TopAt;
    if ws == [] {
      forall i: nat
        ensures !TopAt(ks, i)
      {
        assert i !in at;
      }
    } else {
      assert at[0] in at && TopAt(ks, at[0]);
      forall h | 0 <= h < at[0]
        ensures !TopAt(ks, h)
      {
        assert h !in at;
      }
      forall w | Leads(ks, w)
        ensures ws[0] == w
      {
        var i: nat :| TopAt(ks, i) && ks[i].text == w && forall h :: 0 <= h < i ==> !TopAt(ks, h);
        assert i == at[0];
      }
    }
  }

  lemma WordsFollow(ks: seq<Tok>, ws: seq<string>, at: seq<nat>)
    requires Positions(ks, ws, at)
    ensures forall w :: |ws| > 1 && ws[1] == w <==> Follows(ks, w)
  {
    hide TopAt;
    forall w
      ensures |ws| > 1 && ws[1] == w <==> Follows(ks, w)
    {
      if |ws| > 1 && ws[1] == w {
        assert at[0] in at && at[1] in at && TopAt(ks, at[0]) && TopAt(ks, at[1]);
        forall h | 0 <= h < at[1] && h != at[0]
          ensures !TopAt(ks, h)
        {
          assert h !in at by { Between(at, h); }
        }
      }
      if Follows(ks, w) {
        var i: nat, j: nat :| i < j && TopAt(ks, i) && TopAt(ks, j) && ks[j].text == w
          && forall h :: 0 <= h < j && h != i ==> !TopAt(ks, h);
        assert i in at && j in at;
        var a :| 0 <= a < |at| && at[a] == i;
        var b :| 0 <= b < |at| && at[b] == j;
        assert a < b;
        assert at[0] in at && at[1] in at && TopAt(ks, at[0]) && TopAt(ks, at[1]);
      }
    }
  }

  lemma Between(at: seq<nat>, h: nat)
    requires |at| > 1 && forall i, j :: 0 <= i < j < |at| ==> at[i] < at[j]
    requires h < at[1] && h != at[0]
    ensures h !in at
  {
    if h in at {
      var k :| 0 <= k < |at| && at[k] == h;
    }
  }

  // ------------------------------------------------------------------ what a statement is taken for

  /**
   Reads, sessions and writes. What follows EXPLAIN ANALYZE is dealt with below,
   what is dangerous further down.
   */
  lemma RiskMeans(e: Engine, sql: string)
    ensures var ks, r := LexKinds(e, sql), Classify(e, sql);
      && ((forall i: nat :: !TopAt(ks, i)) ==> r == Read)
      && (Leads(ks, "select") ==> r == if Has(ks, "into") then Write else Read)
      && (Leads(ks, "explain") && !Has(ks, "analyze") && !Has(ks, "analyse") ==> r == Read)
      && (Leads(ks, "pragma") ==> r == if '=' in sql then Write else Read)
      && (Leads(ks, "with") ==> r == if Writing(ks) then Write else Read)
      && (forall w :: Leads(ks, w) && w in {"show", "describe", "desc", "values", "table", "help"} ==> r == Read)
  {
    hide Has, Leads, Follows, TopAt, TopWords, LexKinds, ClassifyRest;
    WordsMean(LexKinds(e, sql));
  }

  const SESSION_WORDS: set<string> :=
    {"begin", "start", "commit", "rollback", "savepoint", "release", "set", "use", "reset", "discard"}

  const OTHER_WORDS: set<string> :=
    {"select", "show", "describe", "desc", "values", "table", "help", "explain", "pragma", "with"}

  lemma SessionMeans(e: Engine, sql: string, w: string)
    requires Leads(LexKinds(e, sql), w)
    ensures w in SESSION_WORDS ==> Classify(e, sql) == Session
  {
    hide Has, Leads, Follows, TopAt, TopWords, LexKinds, ClassifyRest;
    WordsMean(LexKinds(e, sql));
  }

  /**
   Exactly these statements are dangerous: a DROP, a TRUNCATE, a DELETE or UPDATE
   without a WHERE outside parentheses, an ALTER with a DROP outside parentheses.
   Any other that is no read and no session statement is a write.
   */
  lemma DangerMeans(e: Engine, sql: string)
    requires !Leads(LexKinds(e, sql), "explain")
    ensures var ks, r := LexKinds(e, sql), Classify(e, sql);
      && (r.Danger? <==>
            || Leads(ks, "drop") || Leads(ks, "truncate") || (Leads(ks, "delete") && !Has(ks, "where"))
            || (Leads(ks, "update") && !Has(ks, "where")) || (Leads(ks, "alter") && Has(ks, "drop")))
      && (forall w :: Leads(ks, w) && w !in SESSION_WORDS && w !in OTHER_WORDS ==> r.Danger? || r == Write)
  {
    hide Has, Leads, Follows, TopAt, TopWords, LexKinds, ClassifyRest;
    WordsMean(LexKinds(e, sql));
  }

  /** What a dangerous statement is said to do. */
  lemma ReasonMeans(e: Engine, sql: string)
    ensures var ks, r := LexKinds(e, sql), Classify(e, sql);
      && (forall w :: Leads(ks, "drop") && Follows(ks, w) ==> r == Danger(Drops(Upper(w))))
      && (Leads(ks, "drop") && (forall w :: !Follows(ks, w)) ==> r == Danger(Drops("")))
      && (Leads(ks, "truncate") ==> r == Danger(Truncates))
      && (Leads(ks, "delete") && !Has(ks, "where") ==> r == Danger(Unfiltered(Upper("delete"))))
      && (Leads(ks, "update") && !Has(ks, "where") ==> r == Danger(Unfiltered(Upper("update"))))
      && (Leads(ks, "alter") && Has(ks, "drop") ==> r == Danger(AlterDrops))
  {
    hide Has, Leads, Follows, TopAt, TopWords, LexKinds, ClassifyRest, Upper;
    WordsMean(LexKinds(e, sql));
    var ws := TopWords(LexKinds(e, sql), 0);
    if |ws| > 1 {
      assert Follows(LexKinds(e, sql), ws[1]);
    }
  }

  // ------------------------------------------------------------------ EXPLAIN ANALYZE

  const ANALYZED: string := "EXPLAIN ANALYZE "
  const ANALYZED_LOWER: string := "explain analyze "
  const ANALYZED_PIECES: seq<Piece> := [Kw("EXPLAIN"), Sp(' '), Kw("ANALYZE"), Sp(' ')]

  lemma {:induction false} LowerAppend(a: string, b: string)
    ensures Lower(a + b) == Lower(a) + Lower(b)
  {
    if a == "" {
      assert a + b == b;
    } else {
      assert (a + b)[1..] == a[1..] + b;
      LowerAppend(a[1..], b);
    }
  }

  lemma AnalyzedKeywords()
    ensures IsKeyword("EXPLAIN") && IsKeyword("ANALYZE")
  {
    hide Lower;
  }

  lemma AnalyzedPieces(e: Engine, s: string)
    ensures WellFormed(e, ANALYZED_PIECES, Head(s)) && Render(ANALYZED_PIECES) == ANALYZED
    ensures KindsOf(ANALYZED_PIECES) == [Word("explain"), Word("analyze")]
    ensures AfterAll(ANALYZED_PIECES, INITIAL) == LexState(false, ";")
  {
    hide Lower, IsKeyword;
    AnalyzedKeywords();
    LowerIs("EXPLAIN", "explain");
    LowerIs("ANALYZE", "analyze");
    var ps := ANALYZED_PIECES;
    assert ps[1..] == [Sp(' '), Kw("ANALYZE"), Sp(' ')] && ps[1..][1..] == [Kw("ANALYZE"), Sp(' ')];
    assert ps[1..][1..][1..] == [Sp(' ')] && [Sp(' ')][1..] == [];
    assert WellFormed(e, [Sp(' ')], Head(s)) && WellFormed(e, [Kw("ANALYZE"), Sp(' ')], Head(s));
    assert WellFormed(e, ps[1..], Head(s));
    assert "EXPLAIN" + (" " + ("ANALYZE" + (" " + ""))) == ANALYZED;
  }

  /** No verb of a statement begins inside the words EXPLAIN ANALYZE. */
  lemma NoVerbBefore(verb: string, rest: string, j: nat)
    requires verb in EXPLAINED_VERBS && j < 16
    ensures !(verb <= (ANALYZED_LOWER + rest)[j..])
  {
    VerbShape(verb);
    var t := ANALYZED_LOWER + rest;
    assert t[j] == ANALYZED_LOWER[j] && t[7] == ANALYZED_LOWER[7];
    assert verb[0] == 'i' ==> verb[2] == 's';
    assert t[j..][0] == t[j] && (j == 5 ==> t[j..][2] == t[7]);
  }

  lemma VerbFound(s: string, verb: string)
    requires verb in EXPLAINED_VERBS && verb <= Lower(s)
    ensures Find(Lower(ANALYZED + s), verb) == Some(16)
  {
    hide Lower, Find;
    LowerIs(ANALYZED, ANALYZED_LOWER);
    LowerAppend(ANALYZED, s);
    var t := Lower(ANALYZED + s);
    assert t[16..] == Lower(s);
    forall j | 0 <= j < 16
      ensures !(verb <= t[j..])
    {
      NoVerbBefore(verb, Lower(s), j);
    }
  }

  lemma VerbToken(e: Engine, s: string, base: nat, verb: string)
    requires s != "" && IsWordStart(s[0]) && Lower(s[..WordLen(s)]) == verb && verb in EXPLAINED_VERBS
    ensures var toks := Lex(e, s, base, LexState(false, ";")); toks != [] && toks[0].tok == Word(verb)
  {
    hide Next, NextWord, Lower, WordLen;
    var st := LexState(false, ";");
    SqlText.NextIsWord(e, s, st);
    QuietWord(e, s);
    LexHeadStep(e, s, base, st);
  }

  lemma QuietWord(e: Engine, s: string)
    requires s != "" && IsWordStart(s[0])
    ensures NextWord(e, s, LexState(false, ";")).tok == Some(Word(Lower(s[..WordLen(s)])))
  {
    hide Lower, Trim, LineLen, AllDigits, WordLen;
  }

  /** EXPLAIN ANALYZE, which runs the statement, is as risky as the statement it explains. */
  lemma ExplainAnalyze(e: Engine, s: string)
    requires s != "" && IsWordStart(s[0]) && Lower(s[..WordLen(s)]) in EXPLAINED_VERBS
    ensures Classify(e, ANALYZED + s) == Classify(e, s)
  {
    hide Lex, Lower, WordLen, Find, Kinds, LexOfAll, Render, WellFormed;
    var verb, t, st := Lower(s[..WordLen(s)]), ANALYZED + s, LexState(false, ";");
    AnalyzedPieces(e, s);
    LexRender(e, ANALYZED_PIECES, s, 0, INITIAL);
    var rest := Lex(e, s, 16, st);
    VerbToken(e, s, 16, verb);
    GuardLocality.KindsAppend(LexOfAll(ANALYZED_PIECES, 0), rest);
    LexOfAllKinds(ANALYZED_PIECES, 0);
    KindsAt(rest);
    var ks := LexKinds(e, t);
    assert ks == [Word("explain"), Word("analyze")] + Kinds(rest);
    ExplainedWords(ks, verb);
    LowerPrefix(s, WordLen(s));
    VerbFound(s, verb);
    assert t[16..] == s;
    ExplainedBy(e, t, verb);
  }

  lemma ExplainedWords(ks: seq<Tok>, verb: string)
    requires |ks| > 2 && ks[0] == Word("explain") && ks[1] == Word("analyze") && ks[2] == Word(verb)
    requires verb in EXPLAINED_VERBS
    ensures var ws := TopWords(ks, 0);
      |ws| > 2 && ws[0] == "explain" && ws[1] == "analyze" && FirstVerb(ws) == Some(verb)
  {
    TopWordsCons(ks, 0);
    TopWordsCons(ks[1..], 0);
    TopWordsCons(ks[2..], 0);
    assert ks[1..][1..] == ks[2..];
    var ws := TopWords(ks, 0);
    assert ws[1..] == TopWords(ks[1..], 0) && ws[1..][1..] == TopWords(ks[2..], 0);
    assert ws[1..][1..][0] == verb && FirstVerb(ws[1..][1..]) == Some(verb);
    assert ws[1..][0] == "analyze" && FirstVerb(ws[1..]) == Some(verb);
  }

  /** The classifier goes on at the verb. */
  lemma ExplainedBy(e: Engine, t: string, verb: string)
    requires var ws := TopWords(LexKinds(e, t), 0);
      |ws| > 2 && ws[0] == "explain" && ws[1] == "analyze" && FirstVerb(ws) == Some(verb)
    requires Find(Lower(t), verb) == Some(16)
    ensures 16 <= |t| && Classify(e, t) == Classify(e, t[16..])
  {
    hide LexKinds, TopWords, FirstVerb, Lower, Find;
    var ws := TopWords(LexKinds(e, t), 0);
    assert "analyze" in ws;
  }
}
