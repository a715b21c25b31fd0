/**
 SQL text as a list of pieces: keywords, quoted names and strings, punctuation
 and white space. A well-formed list, printed, lexes back to exactly its pieces.
 */
module SqlText {
  import opened Prelude
  import opened Engines
  import opened Guard
  import opened Dialect
  import GuardLocality

  datatype Piece =
    | Sp(space: char)
    | Kw(word: string)
    | Sym(sym: char)
    | Quoted(open: char, body: string, close: char)
    | GoLine

  function Text(p: Piece): string {
    match p
    case Sp(c) => [c]
    case Kw(w) => w
    case Sym(c) => [c]
    case Quoted(o, b, c) => [o] + b + [c]
    case GoLine => "\nGO\n"
  }

  function Render(ps: seq<Piece>): string {
    if ps == [] then "" else Text(ps[0]) + Render(ps[1..])
  }

  /** Does a backslash escape inside quotes opened by this character? */
  predicate Escapes(e: Engine, open: char) {
    e.IsMysqlFamily() && (open == '\'' || open == '"')
  }

  /** The quoted body holds no quote that would end it early, and no escape that would eat its end. */
  predicate Sealed(body: string, quote: char, backslash: bool) {
    body == "" ||
    (if backslash && body[0] == '\\' then |body| > 1 && Sealed(body[2..], quote, backslash)
     else if body[0] == quote then |body| > 1 && body[1] == quote && Sealed(body[2..], quote, backslash)
     else Sealed(body[1..], quote, backslash))
  }

  /** A word that cannot be taken for a `GO` or `DELIMITER` line. */
  predicate IsKeyword(w: string) {
    && w != "" && IsWordStart(w[0]) && (forall c :: c in w ==> IsWordPart(c))
    && !(|w| == 9 && LowerChar(w[0]) == 'd') && !(|w| == 2 && LowerChar(w[0]) == 'g')
  }

  lemma {:induction false} LowerIs(w: string, l: string)
    requires |w| == |l| && forall i :: 0 <= i < |w| ==> l[i] == LowerChar(w[i])
    ensures Lower(w) == l
  {
    if w != "" {
      LowerIs(w[1..], l[1..]);
    }
  }

  lemma KeywordIsNoDirective(w: string)
    requires IsKeyword(w)
    ensures Lower(w) != "go" && Lower(w) != "delimiter"
  {
    assert Lower(w)[0] == LowerChar(w[0]);
  }

  predicate PieceOk(e: Engine, p: Piece) {
    match p
    case Sp(c) => c == ' ' || c == '\n'
    case Kw(w) => IsKeyword(w)
    case Sym(c) => c in "(),.=;0"
    case Quoted(o, b, c) =>
      && Sealed(b, c, Escapes(e, o))
      && ((o == c && (o == '\'' || o == '"' || o == '`')) || (e.Mssql? && o == '[' && c == ']'))
    case GoLine => e.Mssql?
  }

  /** May this piece stand directly before text that begins with `h`? */
  predicate Fits(p: Piece, h: Option<char>) {
    h.Some? ==> (p.Kw? ==> !IsWordPart(h.value)) && (p.Quoted? ==> h.value != p.close)
  }

  function Head(s: string): Option<char> {
    if s == "" then None else Some(s[0])
  }

  /** What stands first in a non-empty list, or `h` when it is empty. */
  function HeadOf(ps: seq<Piece>, h: Option<char>): Option<char> {
    if ps == [] then h else Head(Text(ps[0]))
  }

  /** Well-formed, when followed by text that begins with `h`. */
  predicate WellFormed(e: Engine, ps: seq<Piece>, h: Option<char>) {
    ps == [] || (
      && PieceOk(e, ps[0])
      && Fits(ps[0], HeadOf(ps[1..], h))
      && WellFormed(e, ps[1..], h))
  }

  // ------------------------------------------------------------------ one piece

  function KindOf(p: Piece): seq<Tok> {
    match p
    case Sp(_) => []
    case Kw(w) => [Word(Lower(w))]
    case Sym(c) => [if c == '(' then Open else if c == ')' then Close else if c == ';' then End else Other]
    case Quoted(_, _, _) => [Other]
    case GoLine => [Go]
  }

  /** The tokens of one piece at offset `base`. */
  function LexOf(p: Piece, base: nat): seq<Lexeme> {
    if p.GoLine? then [Lexeme(base + 1, Go, base + 3)]
    else if p.Sp? then []
    else [Lexeme(base, KindOf(p)[0], base + |Text(p)|)]
  }

  function LexOfAll(ps: seq<Piece>, base: nat): seq<Lexeme> {
    if ps == [] then [] else LexOf(ps[0], base) + LexOfAll(ps[1..], base + |Text(ps[0])|)
  }

  function KindsOf(ps: seq<Piece>): seq<Tok> {
    if ps == [] then [] else KindOf(ps[0]) + KindsOf(ps[1..])
  }

  function After(p: Piece, st: LexState): LexState {
    st.(lineStart := p.GoLine? || (p.Sp? && (p.space == '\n' || st.lineStart)))
  }

  function AfterAll(ps: seq<Piece>, st: LexState): LexState {
    if ps == [] then st else AfterAll(ps[1..], After(ps[0], st))
  }

  lemma {:induction false} SealedTail(body: string, quote: char, backslash: bool, rest: string)
    requires Sealed(body, quote, backslash) && (backslash ==> quote != '\\')
    requires rest == "" || rest[0] != quote
    ensures QuotedTail(body + [quote] + rest, quote, backslash) == |body| + 1
    decreases |body|
  {
    var s := body + [quote] + rest;
    if body == "" {
      assert s == [quote] + rest;
    } else if (backslash && body[0] == '\\') || body[0] == quote {
      assert s[2..] == body[2..] + [quote] + rest;
      SealedTail(body[2..], quote, backslash, rest);
    } else {
      assert s[1..] == body[1..] + [quote] + rest;
      SealedTail(body[1..], quote, backslash, rest);
    }
  }

  lemma KeywordLen(w: string, rest: string)
    requires (forall c :: c in w ==> IsWordPart(c)) && (rest == "" || !IsWordPart(rest[0]))
    ensures WordLen(w + rest) == |w|
  {
    var s, n := w + rest, WordLen(w + rest);
    assert forall i :: 0 <= i < |w| ==> s[i] == w[i] && w[i] in w;
    if rest != "" {
      assert s[|w|] == rest[0];
    }
  }

  lemma NextKeyword(e: Engine, w: string, rest: string, st: LexState)
    requires IsKeyword(w) && (rest == "" || !IsWordPart(rest[0])) && st.delimiter == ";"
    ensures w + rest != "" && Next(e, w + rest, st) == Step(Some(Word(Lower(w))), |w|, st.(lineStart := false))
  {
    hide WordLen, Lower, Next, NextWord;
    KeywordIsNoDirective(w);
    KeywordLen(w, rest);
    var s := w + rest;
    assert s[0] == w[0];
    NextIsWord(e, s, st);
    PlainWord(e, w, s, st);
  }

  lemma PlainWord(e: Engine, w: string, s: string, st: LexState)
    requires s != "" && IsWordStart(s[0]) && w <= s && WordLen(s) == |w|
    requires Lower(w) != "go" && Lower(w) != "delimiter"
    ensures NextWord(e, s, st) == Step(Some(Word(Lower(w))), |w|, st.(lineStart := false))
  {
    hide WordLen, Lower, Trim, LineLen, AllDigits;
    assert s[..|w|] == w;
  }

  lemma NextIsWord(e: Engine, s: string, st: LexState)
    requires s != "" && IsWordStart(s[0]) && st.delimiter == ";"
    ensures Next(e, s, st) == NextWord(e, s, st)
  {
    hide NextWord, QuotedTail, LineLen, CommentLen, DollarLen;
  }

  lemma NextQuoted(e: Engine, p: Piece, rest: string, st: LexState)
    requires p.Quoted? && PieceOk(e, p) && (rest == "" || rest[0] != p.close) && st.delimiter == ";"
    ensures Next(e, Text(p) + rest, st) == Step(Some(Other), |Text(p)|, st.(lineStart := false))
  {
    hide QuotedTail, Sealed;
    var s := Text(p) + rest;
    assert s[0] == p.open;
    assert s[1..] == p.body + [p.close] + rest;
    SealedTail(p.body, p.close, Escapes(e, p.open), rest);
  }

  lemma NextSymbol(e: Engine, p: Piece, rest: string, st: LexState)
    requires (p.Sp? || p.Sym?) && PieceOk(e, p) && st.delimiter == ";"
    ensures Next(e, Text(p) + rest, st) == Step(if p.Sp? then None else Some(KindOf(p)[0]), 1, After(p, st))
  {
    var s := Text(p) + rest;
    assert s[0] == Text(p)[0];
  }

  /** One piece, lexed. */
  lemma LexPiece(e: Engine, p: Piece, rest: string, base: nat, st: LexState)
    requires PieceOk(e, p) && Fits(p, Head(rest)) && st.delimiter == ";"
    ensures Lex(e, Text(p) + rest, base, st) == LexOf(p, base) + Lex(e, rest, base + |Text(p)|, After(p, st))
  {
    hide Next, Lex;
    if p.GoLine? {
      LexGoLine(e, rest, base, st);
    } else {
      var s := Text(p) + rest;
      if p.Kw? {
        NextKeyword(e, p.word, rest, st);
      } else if p.Quoted? {
        NextQuoted(e, p, rest, st);
      } else {
        NextSymbol(e, p, rest, st);
      }
      assert s != "";
      LexHeadStep(e, s, base, st);
      assert s[|Text(p)|..] == rest;
    }
  }

  lemma LexHeadStep(e: Engine, s: string, base: nat, st: LexState)
    requires s != ""
    ensures var r := Next(e, s, st); Lex(e, s, base, st) == Yield(r, base) + Lex(e, s[r.len..], base + r.len, r.state)
  {
    hide Next;
  }

  lemma LexGoLine(e: Engine, rest: string, base: nat, st: LexState)
    requires e.Mssql?
    ensures Lex(e, "\nGO\n" + rest, base, st) == LexOf(GoLine, base) + Lex(e, rest, base + 4, After(GoLine, st))
  {
    hide Next, Lex;
    var s := "\nGO\n" + rest;
    var st1 := st.(lineStart := true);
    NextNewline(e, s, st);
    LexHeadStep(e, s, base, st);
    var t := s[1..];
    NextGo(e, rest, st1);
    assert t == "GO\n" + rest;
    LexHeadStep(e, t, base + 1, st1);
    var u := t[2..];
    assert u == "\n" + rest;
    NextNewline(e, u, st.(lineStart := false));
    LexHeadStep(e, u, base + 3, st.(lineStart := false));
    assert u[1..] == rest;
  }

  lemma NextNewline(e: Engine, s: string, st: LexState)
    requires s != "" && s[0] == '\n'
    ensures Next(e, s, st) == Step(None, 1, st.(lineStart := true))
  {
  }

  lemma NextGo(e: Engine, rest: string, st: LexState)
    requires e.Mssql? && st.lineStart
    ensures Next(e, "GO\n" + rest, st) == Step(Some(Go), 2, st.(lineStart := false))
  {
    hide WordLen, Trim;
    var s := "GO\n" + rest;
    KeywordLen("GO", "\n" + rest);
    assert s == "GO" + ("\n" + rest);
    assert s[0] == 'G' && s[..2] == "GO" && s[2..] == "\n" + rest;
    assert Lower("GO") == "go";
    assert LineLen(s[2..]) == 0;
    TrimEmpty();
    assert s[2..2] == "";
    assert NextWord(e, s, st) == Step(Some(Go), 2, st.(lineStart := false));
  }

  lemma TrimEmpty()
    ensures Trim("") == "" && AllDigits("")
  {
  }

  // ------------------------------------------------------------------ a list of pieces

  lemma {:induction false} HeadRender(ps: seq<Piece>, rest: string)
    requires ps == [] || Text(ps[0]) != ""
    ensures Head(Render(ps) + rest) == if ps == [] then Head(rest) else Head(Text(ps[0]))
  {
    hide Text;
    if ps == [] {
      assert Render(ps) + rest == rest;
    } else {
      assert (Render(ps) + rest)[0] == Text(ps[0])[0];
    }
  }

  lemma TextSolid(e: Engine, p: Piece)
    requires PieceOk(e, p)
    ensures Text(p) != ""
  {
  }

  /** Printed pieces lex back to their own tokens, whatever follows them. */
  lemma {:induction false} LexRender(e: Engine, ps: seq<Piece>, rest: string, base: nat, st: LexState)
    requires WellFormed(e, ps, Head(rest)) && st.delimiter == ";"
    ensures Lex(e, Render(ps) + rest, base, st) ==
      LexOfAll(ps, base) + Lex(e, rest, base + |Render(ps)|, AfterAll(ps, st))
  {
    hide Lex, PieceOk, Text, After, LexOf;
    if ps == [] {
      assert Render(ps) + rest == rest;
    } else {
      var more := Render(ps[1..]) + rest;
      if |ps| > 1 {
        assert ps[1..][0] == ps[1];
        TextSolid(e, ps[1]);
      }
      HeadRender(ps[1..], rest);
      AfterDelimiter(ps[0], st);
      LexPiece(e, ps[0], more, base, st);
      LexRender(e, ps[1..], rest, base + |Text(ps[0])|, After(ps[0], st));
      assert Render(ps) + rest == Text(ps[0]) + more;
    }
  }

  lemma AfterDelimiter(p: Piece, st: LexState)
    ensures After(p, st).delimiter == st.delimiter
  {
  }

  lemma {:induction false} LexOfAllKinds(ps: seq<Piece>, base: nat)
    ensures Kinds(LexOfAll(ps, base)) == KindsOf(ps)
  {
    hide LexOf, KindOf, Text;
    if ps != [] {
      LexOfAllKinds(ps[1..], base + |Text(ps[0])|);
      GuardLocality.KindsAppend(LexOf(ps[0], base), LexOfAll(ps[1..], base + |Text(ps[0])|));
      LexOfKind(ps[0], base);
    }
  }

  lemma LexOfKind(p: Piece, base: nat)
    ensures Kinds(LexOf(p, base)) == KindOf(p)
  {
  }

  /** A printed text lexes to the kinds of its pieces. */
  lemma RenderKinds(e: Engine, ps: seq<Piece>)
    requires WellFormed(e, ps, None)
    ensures LexKinds(e, Render(ps)) == KindsOf(ps)
  {
    hide Lex, LexOfAll, WellFormed;
    LexRender(e, ps, "", 0, INITIAL);
    assert Render(ps) + "" == Render(ps);
    LexNothing(e, |Render(ps)|, AfterAll(ps, INITIAL));
    assert LexOfAll(ps, 0) + [] == LexOfAll(ps, 0);
    LexOfAllKinds(ps, 0);
  }

  lemma LexNothing(e: Engine, base: nat, st: LexState)
    ensures Lex(e, "", base, st) == []
  {
  }

  // ------------------------------------------------------------------ gluing lists together

  lemma {:induction false} RenderAppend(a: seq<Piece>, b: seq<Piece>)
    ensures Render(a + b) == Render(a) + Render(b)
  {
    if a == [] {
      assert a + b == b;
    } else {
      assert (a + b)[1..] == a[1..] + b;
      RenderAppend(a[1..], b);
    }
  }

  lemma {:induction false} KindsOfAppend(a: seq<Piece>, b: seq<Piece>)
    ensures KindsOf(a + b) == KindsOf(a) + KindsOf(b)
  {
    if a == [] {
      assert a + b == b;
    } else {
      assert (a + b)[1..] == a[1..] + b;
      KindsOfAppend(a[1..], b);
    }
  }

  lemma HeadOfAppend(a: seq<Piece>, b: seq<Piece>, h: Option<char>)
    ensures HeadOf(a + b, h) == HeadOf(a, HeadOf(b, h))
  {
    hide Text;
    if a == [] {
      assert a + b == b;
    }
  }

  lemma {:induction false} WellFormedAppend(e: Engine, a: seq<Piece>, b: seq<Piece>, h: Option<char>)
    requires WellFormed(e, a, HeadOf(b, h)) && WellFormed(e, b, h)
    ensures WellFormed(e, a + b, h)
  {
    hide PieceOk, Fits, HeadOf;
    if a == [] {
      assert a + b == b;
    } else {
      assert (a + b)[0] == a[0];
      assert (a + b)[1..] == a[1..] + b;
      HeadOfAppend(a[1..], b, h);
      WellFormedAppend(e, a[1..], b, h);
    }
  }

  /** Characters that can follow any piece. */
  predicate Breaks(h: Option<char>) {
    h.Some? ==> h.value in " \n(),.=;"
  }

  lemma {:induction false} ClosedBefore(e: Engine, ps: seq<Piece>, h: Option<char>)
    requires WellFormed(e, ps, None) && Breaks(h)
    ensures WellFormed(e, ps, h)
  {
    if ps != [] {
      ClosedBefore(e, ps[1..], h);
    }
  }

  /** Two well-formed lists can be put together when the second begins with a separator. */
  lemma Glue(e: Engine, a: seq<Piece>, b: seq<Piece>)
    requires WellFormed(e, a, None) && WellFormed(e, b, None) && Breaks(HeadOf(b, None))
    ensures WellFormed(e, a + b, None)
    ensures Render(a + b) == Render(a) + Render(b) && KindsOf(a + b) == KindsOf(a) + KindsOf(b)
  {
    hide WellFormed, Render, KindsOf;
    ClosedBefore(e, a, HeadOf(b, None));
    WellFormedAppend(e, a, b, None);
    RenderAppend(a, b);
    KindsOfAppend(a, b);
  }

  /** ... or when the first ends with one. */
  lemma GlueAfter(e: Engine, a: seq<Piece>, b: seq<Piece>)
    requires WellFormed(e, a, None) && WellFormed(e, b, None)
    requires a != [] && (a[|a| - 1].Sp? || a[|a| - 1].Sym?)
    ensures WellFormed(e, a + b, None)
    ensures Render(a + b) == Render(a) + Render(b) && KindsOf(a + b) == KindsOf(a) + KindsOf(b)
  {
    hide WellFormed, Render, KindsOf;
    OpenEnd(e, a, HeadOf(b, None));
    WellFormedAppend(e, a, b, None);
    RenderAppend(a, b);
    KindsOfAppend(a, b);
  }

  lemma {:induction false} OpenEnd(e: Engine, a: seq<Piece>, h: Option<char>)
    requires WellFormed(e, a, None)
    requires a != [] && (a[|a| - 1].Sp? || a[|a| - 1].Sym?)
    ensures WellFormed(e, a, h)
  {
    if |a| > 1 {
      OpenEnd(e, a[1..], h);
    }
  }

  /** `items` with the pieces `sep` between neighbours. */
  function Joined(items: seq<seq<Piece>>, sep: seq<Piece>): seq<Piece> {
    if items == [] then []
    else if |items| == 1 then items[0]
    else items[0] + sep + Joined(items[1..], sep)
  }

  function Renders(items: seq<seq<Piece>>): seq<string> {
    if items == [] then [] else [Render(items[0])] + Renders(items[1..])
  }

  lemma RendersLen(items: seq<seq<Piece>>)
    ensures |Renders(items)| == |items|
  {
  }
}
