/** The arguments in a line typed at the Redis console. */
module RedisArgs {
  import opened Prelude

  datatype SplitError = UnclosedDouble | UnclosedSingle | BadEscape(text: string)

  // ------------------------------------------------------------------ the parts of a line

  function HexDigit(c: char): Option<nat> {
    if '0' <= c <= '9' then Some(c as int - 48)
    else if 'a' <= c <= 'f' then Some(c as int - 87)
    else if 'A' <= c <= 'F' then Some(c as int - 55)
    else None
  }

  /** Hexadecimal digits, after an optional plus sign; at most two characters are ever asked for. */
  function HexByte(h: string): Option<nat> {
    if |h| == 1 then HexDigit(h[0])
    else if |h| == 2 && h[0] == '+' then HexDigit(h[1])
    else if |h| == 2 && HexDigit(h[0]).Some?
      && HexDigit(h[1]).Some? then Some(HexDigit(h[0]).value * 16 + HexDigit(h[1]).value)
    else None
  }

  lemma HexByteFits(h: string)
    ensures HexByte(h).Some? ==> HexByte(h).value < 256
  {
  }

  function Named(c: char): char {
    if c == 'n' then '\n' else if c == 't' then '\t' else if c == 'r' then '\r' else c
  }

  /** The rest of a double-quoted part: what it holds and what follows its closing quote. */
  function DoubleQuoted(s: string, cur: string): Result<(string, string), SplitError>
    decreases |s|
  {
    if s == "" then Err(UnclosedDouble)
    else if s[0] == '"' then Ok((cur, s[1..]))
    else if s[0] != '\\' then DoubleQuoted(s[1..], cur + [s[0]])
    else if |s| == 1 then Err(UnclosedDouble)
    else if s[1] != 'x' then DoubleQuoted(s[2..], cur + [Named(s[1])])
    else
      var n := Min(2, |s| - 2);
      var h := s[2..2 + n];
      HexByteFits(h);
      if HexByte(h).None? then Err(BadEscape(h)) else DoubleQuoted(s[2 + n..], cur + [HexByte(h).value as char])
  }

  function SingleQuoted(s: string, cur: string): Result<(string, string), SplitError>
    decreases |s|
  {
    if s == "" then Err(UnclosedSingle)
    else if s[0] == '\'' then Ok((cur, s[1..]))
    else SingleQuoted(s[1..], cur + [s[0]])
  }

  lemma {:induction false} DoubleShrinks(s: string, cur: string)
    requires DoubleQuoted(s, cur).Ok?
    ensures |DoubleQuoted(s, cur).value.1| < |s|
    decreases |s|
  {
    if s != "" && s[0] != '"' {
      if s[0] != '\\' {
        DoubleShrinks(s[1..], cur + [s[0]]);
      } else if s[1] != 'x' {
        DoubleShrinks(s[2..], cur + [Named(s[1])]);
      } else {
        var n := Min(2, |s| - 2);
        HexByteFits(s[2..2 + n]);
        DoubleShrinks(s[2 + n..], cur + [HexByte(s[2..2 + n]).value as char]);
      }
    }
  }

  lemma {:induction false} SingleShrinks(s: string, cur: string)
    requires SingleQuoted(s, cur).Ok?
    ensures |SingleQuoted(s, cur).value.1| < |s|
    decreases |s|
  {
    if s != "" && s[0] != '\'' {
      SingleShrinks(s[1..], cur + [s[0]]);
    }
  }

  function Split(s: string, args: seq<string>, cur: string, inArg: bool): Result<seq<string>, SplitError>
    decreases |s|
  {
    if s == "" then Ok(if inArg then args + [cur] else args)
    else if s[0] == '"' then
      var r :- DoubleQuoted(s[1..], cur);
      DoubleShrinks(s[1..], cur);
      Split(r.1, args, r.0, true)
    else if s[0] == '\'' then
      var r :- SingleQuoted(s[1..], cur);
      SingleShrinks(s[1..], cur);
      Split(r.1, args, r.0, true)
    else if IsTrimSpace(s[0]) then
      if inArg then Split(s[1..], args + [cur], "", false) else Split(s[1..], args, cur, false)
    else Split(s[1..], args, cur + [s[0]], true)
  }

  // ------------------------------------------------------------------ the loops

  /** Reads up to the closing double quote. */
  method ReadDouble(s: string, at: nat, start: string) returns (r: Result<(string, nat), SplitError>)
    requires at <= |s|
    ensures match DoubleQuoted(s[at..], start)
      case Err(e) => r == Err(e)
      case Ok(p) => r.Ok? && r.value.0 == p.0 && at < r.value.1 <= |s| && s[r.value.1..] == p.1
  {
    var i, cur := at, start;
    while true
      invariant at <= i <= |s|
      invariant DoubleQuoted(s[at..], start) == DoubleQuoted(s[i..], cur)
      decreases |s| - i
    {
      ghost var rest := s[i..];
      if i == |s| {
        return Err(UnclosedDouble);
      }
      assert rest[0] == s[i] && rest[1..] == s[i + 1..];
      var c := s[i];
      i := i + 1;
      if c == '"' {
        return Ok((cur, i));
      }
      if c != '\\' {
        cur := cur + [c];
      } else if i == |s| {
        return Err(UnclosedDouble);
      } else {
        var e := s[i];
        assert rest[1] == e && rest[2..] == s[i + 1..];
        i := i + 1;
        if e != 'x' {
          cur := cur + [Named(e)];
        } else {
          var n := Min(2, |s| - i);
          var h := s[i..i + n];
          assert rest[2..2 + n] == h && rest[2 + n..] == s[i + n..];
          HexByteFits(h);
          var b := HexByte(h);
          if b.None? {
            return Err(BadEscape(h));
          }
          i := i + n;
          cur := cur + [b.value as char];
        }
      }
    }
  }

  method ReadSingle(s: string, at: nat, start: string) returns (r: Result<(string, nat), SplitError>)
    requires at <= |s|
    ensures match SingleQuoted(s[at..], start)
      case Err(e) => r == Err(e)
      case Ok(p) => r.Ok? && r.value.0 == p.0 && at < r.value.1 <= |s| && s[r.value.1..] == p.1
  {
    var i, cur := at, start;
    while i < |s|
      invariant at <= i <= |s|
      invariant SingleQuoted(s[at..], start) == SingleQuoted(s[i..], cur)
    {
      ghost var rest := s[i..];
      assert rest[0] == s[i] && rest[1..] == s[i + 1..];
      var c := s[i];
      i := i + 1;
      if c == '\'' {
        return Ok((cur, i));
      }
      cur := cur + [c];
    }
    return Err(UnclosedSingle);
  }

  method SplitArgs(s: string) returns (r: Result<seq<string>, SplitError>)
    ensures r == Split(s, [], "", false)
  {
    hide DoubleQuoted, SingleQuoted;
    var args: seq<string> := [];
    var cur := "";
    var inArg := false;
    var i := 0;
    while i < |s|
      invariant 0 <= i <= |s|
      invariant Split(s, [], "", false) == Split(s[i..], args, cur, inArg)
      decreases |s| - i
    {
      ghost var rest := s[i..];
      assert rest[0] == s[i] && rest[1..] == s[i + 1..];
      var c := s[i];
      i := i + 1;
      if c == '"' {
        var part := ReadDouble(s, i, cur);
        if part.Err? {
          return Err(part.error);
        }
        cur, i, inArg := part.value.0, part.value.1, true;
      } else if c == '\'' {
        var part := ReadSingle(s, i, cur);
        if part.Err? {
          return Err(part.error);
        }
        cur, i, inArg := part.value.0, part.value.1, true;
      } else if IsTrimSpace(c) {
        if inArg {
          args := args + [cur];
          cur := "";
          inArg := false;
        }
      } else {
        inArg := true;
        cur := cur + [c];
      }
    }
    assert s[i..] == "";
    return Ok(if inArg then args + [cur] else args);
  }

  // ------------------------------------------------------------------ writing arguments

  const LOWER_HEX: string := "0123456789abcdef"
  const UPPER_HEX: string := "0123456789ABCDEF"

  function HexOf(n: nat, upper: bool): char
    requires n < 16
  {
    if upper then UPPER_HEX[n] else LOWER_HEX[n]
  }

  /** The ways to write one character between double quotes. */
  datatype Spelling = Itself | Backslashed | Letter | Hex(upper1: bool, upper2: bool) | PlusHex(upper: bool)

  /** The character can be written that way. */
  predicate Spells(how: Spelling, c: char) {
    match how
    case Itself => c != '"' && c != '\\'
    case Backslashed => c != 'n' && c != 't' && c != 'r' && c != 'x'
    case Letter => c == '\n' || c == '\t' || c == '\r'
    case Hex(_, _) => c as int < 256
    case PlusHex(_) => c as int < 16
  }

  function Spelled(how: Spelling, c: char): string
    requires Spells(how, c)
  {
    match how
    case Itself => [c]
    case Backslashed => ['\\', c]
    case Letter => if c == '\n' then "\\n" else if c == '\t' then "\\t" else "\\r"
    case Hex(u, v) => "\\x" + [HexOf(c as int / 16, u), HexOf(c as int % 16, v)]
    case PlusHex(u) => "\\x+" + [HexOf(c as int, u)]
  }

  predicate AllSpell(hows: seq<Spelling>, s: string) {
    |hows| == |s| && forall i :: 0 <= i < |s| ==> Spells(hows[i], s[i])
  }

  function SpelledAll(hows: seq<Spelling>, s: string): string
    requires AllSpell(hows, s)
  {
    if s == "" then "" else Spelled(hows[0], s[0]) + SpelledAll(hows[1..], s[1..])
  }

  /** A stretch of an argument, and three ways to write it. */
  datatype Part = Double(text: string, hows: seq<Spelling>) | Single(text: string) | Bare(text: string)

  predicate PlainChar(c: char) {
    c != '"' && c != '\'' && !IsTrimSpace(c)
  }

  /**
   Single quotes hold anything but a single quote; what stands bare holds neither
   quotes nor white space, and something.
   */
  predicate Writable(p: Part) {
    match p
    case Double(s, hows) => AllSpell(hows, s)
    case Single(s) => '\'' !in s
    case Bare(s) => s != "" && forall i :: 0 <= i < |s| ==> PlainChar(s[i])
  }

  function Written(p: Part): string
    requires Writable(p)
  {
    match p
    case Double(s, hows) => "\"" + SpelledAll(hows, s) + "\""
    case Single(s) => "'" + s + "'"
    case Bare(s) => s
  }

  predicate AllWritable(parts: seq<Part>) {
    forall i :: 0 <= i < |parts| ==> Writable(parts[i])
  }

  /** An argument is written as parts that touch. */
  function WrittenAll(parts: seq<Part>): string
    requires AllWritable(parts)
  {
    if parts == [] then "" else Written(parts[0]) + WrittenAll(parts[1..])
  }

  function TextOf(parts: seq<Part>): string {
    if parts == [] then "" else parts[0].text + TextOf(parts[1..])
  }

  predicate AllSpace(s: string) {
    forall i :: 0 <= i < |s| ==> IsTrimSpace(s[i])
  }

  /** An argument, in one part or more, and the white space behind it. */
  datatype Piece = Piece(parts: seq<Part>, gap: string)

  predicate PieceOk(p: Piece) {
    p.parts != [] && AllWritable(p.parts) && AllSpace(p.gap)
  }

  /** Arguments can be written, gaps are white space, and only the last may be missing. */
  predicate Spaced(pieces: seq<Piece>) {
    && (forall i :: 0 <= i < |pieces| ==> PieceOk(pieces[i]))
    && (forall i :: 0 <= i < |pieces| - 1 ==> pieces[i].gap != "")
  }

  function LineOf(pieces: seq<Piece>): string
    requires Spaced(pieces)
  {
    if pieces == [] then "" else WrittenAll(pieces[0].parts) + pieces[0].gap + LineOf(pieces[1..])
  }

  function ArgsOf(pieces: seq<Piece>): seq<string> {
    if pieces == [] then [] else [TextOf(pieces[0].parts)] + ArgsOf(pieces[1..])
  }

  // ------------------------------------------------------------------ reading them back

  lemma HexReads(n: nat, upper: bool)
    requires n < 16
    ensures HexDigit(HexOf(n, upper)) == Some(n)
  {
    assert n in {0, 1, 2, 3, 4, 5, 6, 7, 8, 9, 10, 11, 12, 13, 14, 15};
  }

  lemma HexNoPlus(n: nat, upper: bool)
    requires n < 16
    ensures HexOf(n, upper) != '+'
  {
    HexReads(n, upper);
  }

  lemma SpelledStep(how: Spelling, c: char, tail: string, cur: string)
    requires Spells(how, c)
    ensures DoubleQuoted(Spelled(how, c) + tail, cur) == DoubleQuoted(tail, cur + [c])
  {
    hide HexOf, HexDigit;
    var all := Spelled(how, c) + tail;
    match how
    case Itself => assert all[0] == c && all[1..] == tail;
    case Backslashed => assert all[0] == '\\' && all[1] == c && all[2..] == tail;
    case Letter => assert all[0] == '\\' && all[2..] == tail;
    case Hex(u, v) =>
      HexReads(c as int / 16, u);
      HexReads(c as int % 16, v);
      HexNoPlus(c as int / 16, u);
      HexStep([HexOf(c as int / 16, u), HexOf(c as int % 16, v)], c, tail, cur);
    case PlusHex(u) =>
      HexReads(c as int, u);
      HexStep(['+', HexOf(c as int, u)], c, tail, cur);
      assert "\\x+" + [HexOf(c as int, u)] == "\\x" + ['+', HexOf(c as int, u)];
  }

  lemma HexStep(h: string, c: char, tail: string, cur: string)
    requires |h| == 2 && HexByte(h) == Some(c as int)
    ensures DoubleQuoted("\\x" + h + tail, cur) == DoubleQuoted(tail, cur + [c])
    ensures "\\x" + h == "\\x" + [h[0]] + [h[1]]
  {
    hide HexByte;
    var all := "\\x" + h + tail;
    assert all[0] == '\\' && all[1] == 'x' && all[2..4] == h && all[4..] == tail;
    HexByteFits(h);
  }

  lemma {:induction false} SpelledReads(hows: seq<Spelling>, s: string, rest: string, cur: string)
    requires AllSpell(hows, s)
    ensures DoubleQuoted(SpelledAll(hows, s) + rest, cur) == DoubleQuoted(rest, cur + s)
    decreases |s|
  {
    hide DoubleQuoted, Spelled, Spells;
    if s == "" {
      assert SpelledAll(hows, s) + rest == rest && cur + s == cur;
    } else {
      var tail := SpelledAll(hows[1..], s[1..]) + rest;
      assert SpelledAll(hows, s) + rest == Spelled(hows[0], s[0]) + tail;
      SpelledStep(hows[0], s[0], tail, cur);
      SpelledReads(hows[1..], s[1..], rest, cur + [s[0]]);
      assert (cur + [s[0]]) + s[1..] == cur + s;
    }
  }

  lemma ClosingQuote(rest: string, cur: string)
    ensures DoubleQuoted("\"" + rest, cur) == Ok((cur, rest))
  {
    assert ("\"" + rest)[1..] == rest;
  }

  lemma {:induction false} SingleReads(s: string, rest: string, cur: string)
    requires '\'' !in s
    ensures SingleQuoted(s + rest, cur) == SingleQuoted(rest, cur + s)
    decreases |s|
  {
    var all := s + rest;
    if s == "" {
      assert all == rest && cur + s == cur;
    } else {
      assert all[0] == s[0] && all[1..] == s[1..] + rest;
      SingleReads(s[1..], rest, cur + [s[0]]);
      assert (cur + [s[0]]) + s[1..] == cur + s;
    }
  }

  lemma {:induction false} BareReads(s: string, rest: string, args: seq<string>, cur: string, inArg: bool)
    requires forall i :: 0 <= i < |s| ==> PlainChar(s[i])
    ensures Split(s + rest, args, cur, inArg) == Split(rest, args, cur + s, inArg || s != "")
    decreases |s|
  {
    hide DoubleQuoted, SingleQuoted;
    if s == "" {
      assert s + rest == rest && cur + s == cur;
    } else {
      assert (s + rest)[0] == s[0] && (s + rest)[1..] == s[1..] + rest;
      assert PlainChar(s[0]);
      BareReads(s[1..], rest, args, cur + [s[0]], true);
      assert (cur + [s[0]]) + s[1..] == cur + s;
    }
  }

  lemma DoublePart(hows: seq<Spelling>, s: string, rest: string, args: seq<string>, cur: string, inArg: bool)
    requires AllSpell(hows, s)
    ensures Split("\"" + SpelledAll(hows, s) + "\"" + rest, args, cur, inArg) == Split(rest, args, cur + s, true)
  {
    hide DoubleQuoted, SingleQuoted, SpelledAll, AllSpell;
    var all := "\"" + SpelledAll(hows, s) + "\"" + rest;
    SpelledReads(hows, s, "\"" + rest, cur);
    ClosingQuote(rest, cur + s);
    assert all[0] == '"' && all[1..] == SpelledAll(hows, s) + ("\"" + rest);
  }

  lemma SinglePart(s: string, rest: string, args: seq<string>, cur: string, inArg: bool)
    requires '\'' !in s
    ensures Split("'" + s + "'" + rest, args, cur, inArg) == Split(rest, args, cur + s, true)
  {
    hide DoubleQuoted;
    var all := "'" + s + "'" + rest;
    SingleReads(s, "'" + rest, cur);
    assert ("'" + rest)[1..] == rest;
    assert all[0] == '\'' && all[1..] == s + ("'" + rest);
  }

  /** A part is read on to what is there of the argument. */
  lemma PartReads(p: Part, rest: string, args: seq<string>, cur: string, inArg: bool)
    requires Writable(p)
    ensures Split(Written(p) + rest, args, cur, inArg) == Split(rest, args, cur + p.text, true)
  {
    hide Split, SpelledAll, AllSpell;
    match p
    case Double(s, hows) => DoublePart(hows, s, rest, args, cur, inArg);
    case Single(s) => SinglePart(s, rest, args, cur, inArg);
    case Bare(s) => BareReads(s, rest, args, cur, inArg);
  }

  lemma {:induction false} PartsRead(parts: seq<Part>, rest: string, args: seq<string>, cur: string, inArg: bool)
    requires AllWritable(parts)
    ensures Split(WrittenAll(parts) + rest, args, cur, inArg)
      == Split(rest, args, cur + TextOf(parts), inArg || parts != [])
    decreases |parts|
  {
    hide Split, Written, Writable;
    if parts == [] {
      assert WrittenAll(parts) + rest == rest && cur + TextOf(parts) == cur;
    } else {
      assert forall i :: 0 <= i < |parts[1..]| ==> parts[1..][i] == parts[i + 1];
      var tail := WrittenAll(parts[1..]) + rest;
      assert WrittenAll(parts) + rest == Written(parts[0]) + tail;
      PartReads(parts[0], tail, args, cur, inArg);
      PartsRead(parts[1..], rest, args, cur + parts[0].text, true);
      assert (cur + parts[0].text) + TextOf(parts[1..]) == cur + TextOf(parts);
    }
  }

  lemma {:induction false} SpaceSkips(gap: string, rest: string, args: seq<string>)
    requires AllSpace(gap)
    ensures Split(gap + rest, args, "", false) == Split(rest, args, "", false)
    decreases |gap|
  {
    hide DoubleQuoted, SingleQuoted, IsTrimSpace;
    if gap == "" {
      assert gap + rest == rest;
    } else {
      assert IsTrimSpace(gap[0]);
      NoQuote(gap[0]);
      assert (gap + rest)[0] == gap[0] && (gap + rest)[1..] == gap[1..] + rest;
      SpaceSkips(gap[1..], rest, args);
    }
  }

  lemma NoQuote(c: char)
    requires IsTrimSpace(c)
    ensures c != '"' && c != '\''
  {
  }

  lemma GapEnds(gap: string, rest: string, args: seq<string>, cur: string)
    requires AllSpace(gap) && gap != ""
    ensures Split(gap + rest, args, cur, true) == Split(rest, args + [cur], "", false)
  {
    hide DoubleQuoted, SingleQuoted, IsTrimSpace;
    assert IsTrimSpace(gap[0]);
    NoQuote(gap[0]);
    assert (gap + rest)[0] == gap[0] && (gap + rest)[1..] == gap[1..] + rest;
    SpaceSkips(gap[1..], rest, args + [cur]);
  }

  lemma SpacedTail(pieces: seq<Piece>)
    requires Spaced(pieces) && pieces != []
    ensures Spaced(pieces[1..]) && PieceOk(pieces[0]) && (|pieces| > 1 ==> pieces[0].gap != "")
  {
    hide PieceOk;
    var rest := pieces[1..];
    assert forall i :: 0 <= i < |rest| ==> rest[i] == pieces[i + 1];
  }

  /** The pieces of a line, each with a gap behind it, and then whatever follows. */
  lemma {:induction false} LineReads(pieces: seq<Piece>, rest: string, args: seq<string>)
    requires Spaced(pieces) && (pieces != [] ==> pieces[|pieces| - 1].gap != "")
    ensures Split(LineOf(pieces) + rest, args, "", false) == Split(rest, args + ArgsOf(pieces), "", false)
    decreases |pieces|
  {
    hide Split, WrittenAll, AllWritable, Spaced, AllSpace;
    if pieces == [] {
      assert LineOf(pieces) + rest == rest && args + ArgsOf(pieces) == args;
    } else {
      SpacedTail(pieces);
      var arg, gap, tail := TextOf(pieces[0].parts), pieces[0].gap, LineOf(pieces[1..]) + rest;
      assert LineOf(pieces) + rest == WrittenAll(pieces[0].parts) + (gap + tail);
      PartsRead(pieces[0].parts, gap + tail, args, "", false);
      assert "" + arg == arg;
      GapEnds(gap, tail, args, arg);
      LineReads(pieces[1..], rest, args + [arg]);
      assert (args + [arg]) + ArgsOf(pieces[1..]) == args + ArgsOf(pieces);
    }
  }

  /** Any list of arguments, each in parts written in any of the three ways, is split back to that list. */
  lemma LineSplits(pieces: seq<Piece>, last: seq<Part>)
    requires Spaced(pieces) && (pieces != [] ==> pieces[|pieces| - 1].gap != "") && AllWritable(last)
    ensures Split(LineOf(pieces) + WrittenAll(last), [], "", false) ==
      Ok(ArgsOf(pieces) + if last == [] then [] else [TextOf(last)])
  {
    hide Split, WrittenAll, AllWritable, Spaced, LineOf;
    LineReads(pieces, WrittenAll(last), []);
    assert [] + ArgsOf(pieces) == ArgsOf(pieces);
    PartsRead(last, "", ArgsOf(pieces), "", false);
    assert WrittenAll(last) + "" == WrittenAll(last) && "" + TextOf(last) == TextOf(last);
    TextEnds(ArgsOf(pieces), TextOf(last), last != []);
    assert ArgsOf(pieces) + [] == ArgsOf(pieces);
    NoText(last);
  }

  lemma NoText(last: seq<Part>)
    ensures last == [] ==> TextOf(last) == ""
  {
  }

  lemma TextEnds(args: seq<string>, cur: string, inArg: bool)
    ensures Split("", args, cur, inArg) == Ok(if inArg then args + [cur] else args)
  {
  }

  // ------------------------------------------------------------------ lines that are refused

  /** A line as far as an argument, some parts of which are read. */
  predicate Begun(pieces: seq<Piece>, parts: seq<Part>) {
    Spaced(pieces) && (pieces != [] ==> pieces[|pieces| - 1].gap != "") && AllWritable(parts)
  }

  lemma BegunReads(pieces: seq<Piece>, parts: seq<Part>, rest: string)
    requires Begun(pieces, parts)
    ensures Split(LineOf(pieces) + WrittenAll(parts) + rest, [], "", false)
      == Split(rest, ArgsOf(pieces), TextOf(parts), parts != [])
  {
    hide Split, WrittenAll, AllWritable, Spaced, LineOf;
    var tail := WrittenAll(parts) + rest;
    assert LineOf(pieces) + WrittenAll(parts) + rest == LineOf(pieces) + tail;
    LineReads(pieces, tail, []);
    assert [] + ArgsOf(pieces) == ArgsOf(pieces);
    PartsRead(parts, rest, ArgsOf(pieces), "", false);
    assert "" + TextOf(parts) == TextOf(parts);
  }

  /** Double quotes that are never closed, even by a backslash at the end. */
  lemma UnclosedDoubles(pieces: seq<Piece>, parts: seq<Part>, hows: seq<Spelling>, s: string)
    requires Begun(pieces, parts) && AllSpell(hows, s)
    ensures var line := LineOf(pieces) + WrittenAll(parts) + ("\"" + SpelledAll(hows, s));
      && Split(line, [], "", false) == Err(UnclosedDouble)
      && Split(line + "\\", [], "", false) == Err(UnclosedDouble)
  {
    hide Split, DoubleQuoted, SpelledAll, AllSpell, LineOf, WrittenAll, Spaced, AllWritable;
    var text, all := SpelledAll(hows, s), "\"" + SpelledAll(hows, s);
    BegunReads(pieces, parts, all);
    BegunReads(pieces, parts, all + "\\");
    var head := LineOf(pieces) + WrittenAll(parts);
    assert head + all + "\\" == head + (all + "\\");
    SpelledReads(hows, s, "", TextOf(parts));
    SpelledReads(hows, s, "\\", TextOf(parts));
    assert text + "" == text && all[1..] == text && (all + "\\")[1..] == text + "\\";
    NeverClosed(TextOf(parts) + s);
    OpensDouble(all, ArgsOf(pieces), TextOf(parts), parts != []);
    OpensDouble(all + "\\", ArgsOf(pieces), TextOf(parts), parts != []);
  }

  lemma NeverClosed(cur: string)
    ensures DoubleQuoted("", cur) == Err(UnclosedDouble) && DoubleQuoted("\\", cur) == Err(UnclosedDouble)
  {
  }

  lemma OpensDouble(s: string, args: seq<string>, cur: string, inArg: bool)
    requires s != "" && s[0] == '"' && DoubleQuoted(s[1..], cur).Err?
    ensures Split(s, args, cur, inArg) == Err(DoubleQuoted(s[1..], cur).error)
  {
    hide DoubleQuoted, SingleQuoted;
  }

  lemma UnclosedSingles(pieces: seq<Piece>, parts: seq<Part>, s: string)
    requires Begun(pieces, parts) && '\'' !in s
    ensures Split(LineOf(pieces) + WrittenAll(parts) + ("'" + s), [], "", false) == Err(UnclosedSingle)
  {
    hide DoubleQuoted, LineOf, WrittenAll, Begun;
    BegunReads(pieces, parts, "'" + s);
    SingleReads(s, "", TextOf(parts));
    assert s + "" == s && ("'" + s)[1..] == s;
    assert SingleQuoted(s, TextOf(parts)) == Err(UnclosedSingle);
  }

  predicate IsHexDigit(c: char) {
    c in LOWER_HEX || c in UPPER_HEX
  }

  /** Two characters, or what is left, that are no hexadecimal byte, a plus sign in front allowed. */
  predicate NoByte(h: string) {
    || h == "" || (|h| == 1 && !IsHexDigit(h[0]))
    || (|h| == 2 && (!IsHexDigit(h[1]) || (!IsHexDigit(h[0]) && h[0] != '+')))
  }

  lemma DigitOrNot(c: char)
    ensures HexDigit(c).Some? <==> IsHexDigit(c)
  {
    if HexDigit(c).Some? {
      var n := HexDigit(c).value;
      if c <= '9' {
        assert LOWER_HEX[n] == c;
      } else if 'a' <= c {
        assert LOWER_HEX[n] == c;
      } else {
        assert UPPER_HEX[n] == c;
      }
    }
  }

  lemma NoByteMeans(h: string)
    requires |h| <= 2
    ensures HexByte(h).None? <==> NoByte(h)
  {
    hide HexDigit, IsHexDigit;
    if |h| > 0 {
      DigitOrNot(h[0]);
    }
    if |h| == 2 {
      DigitOrNot(h[1]);
      PlusIsNoDigit();
    }
  }

  lemma PlusIsNoDigit()
    ensures !IsHexDigit('+')
  {
    DigitOrNot('+');
  }

  /** An escape of anything but a byte is refused, and told with what was read of it. */
  lemma BadEscapes(pieces: seq<Piece>, parts: seq<Part>, hows: seq<Spelling>, s: string, h: string, rest: string)
    requires Begun(pieces, parts) && AllSpell(hows, s)
    requires |h| <= 2 && NoByte(h) && (|h| < 2 ==> rest == "")
    ensures Split(LineOf(pieces) + WrittenAll(parts) + ("\"" + SpelledAll(hows, s) + ("\\x" + h + rest)), [], "", false)
      == Err(BadEscape(h))
  {
    hide Split, DoubleQuoted, SpelledAll, AllSpell, LineOf, WrittenAll, Begun, NoByte, HexByte;
    var text, tail := SpelledAll(hows, s), "\\x" + h + rest;
    var all := "\"" + text + tail;
    BegunReads(pieces, parts, all);
    SpelledReads(hows, s, tail, TextOf(parts));
    assert all[1..] == text + tail && all[0] == '"';
    NoByteMeans(h);
    BadHex(h, rest, TextOf(parts) + s);
    OpensDouble(all, ArgsOf(pieces), TextOf(parts), parts != []);
  }

  lemma BadHex(h: string, rest: string, cur: string)
    requires |h| <= 2 && HexByte(h).None? && (|h| < 2 ==> rest == "")
    ensures DoubleQuoted("\\x" + h + rest, cur) == Err(BadEscape(h))
  {
    hide HexByte;
    var all := "\\x" + h + rest;
    assert all[0] == '\\' && all[1] == 'x';
    assert all[2..2 + Min(2, |all| - 2)] == h;
  }

  // ------------------------------------------------------------------ the plainest way to write arguments

  function EscapeChar(c: char): string {
    if c == '"' || c == '\\' then ['\\', c] else [c]
  }

  function Escape(s: string): string {
    if s == "" then "" else EscapeChar(s[0]) + Escape(s[1..])
  }

  /** Each argument in double quotes with only backslash and double quote escaped, one space between. */
  function Quoted(args: seq<string>): seq<string> {
    if args == [] then [] else ["\"" + Escape(args[0]) + "\""] + Quoted(args[1..])
  }

  lemma {:induction false} EscapeReads(s: string, rest: string, cur: string)
    ensures DoubleQuoted(Escape(s) + rest, cur) == DoubleQuoted(rest, cur + s)
    decreases |s|
  {
    hide DoubleQuoted;
    if s == "" {
      assert Escape(s) + rest == rest && cur + s == cur;
    } else {
      var tail := Escape(s[1..]) + rest;
      assert Escape(s) + rest == EscapeChar(s[0]) + tail;
      SpelledStep(if s[0] == '"' || s[0] == '\\' then Backslashed else Itself, s[0], tail, cur);
      EscapeReads(s[1..], rest, cur + [s[0]]);
      assert (cur + [s[0]]) + s[1..] == cur + s;
    }
  }

  lemma QuotedReads(s: string, rest: string, args: seq<string>)
    ensures Split("\"" + Escape(s) + "\"" + rest, args, "", false) == Split(rest, args, s, true)
  {
    hide DoubleQuoted, SingleQuoted, Escape;
    var all := "\"" + Escape(s) + "\"" + rest;
    EscapeReads(s, "\"" + rest, "");
    ClosingQuote(rest, s);
    assert all[0] == '"' && all[1..] == Escape(s) + ("\"" + rest) && "" + s == s;
  }

  lemma {:induction false} QuotedFrom(args: seq<string>, done: seq<string>)
    ensures Split(Join(Quoted(args), " "), done, "", false) == Ok(done + args)
    decreases |args|
  {
    hide Split, Escape;
    if args == [] {
      TextEnds(done, "", false);
      assert done + args == done;
    } else {
      var first, rest := "\"" + Escape(args[0]) + "\"", Quoted(args[1..]);
      assert Quoted(args)[1..] == rest && Quoted(args)[0] == first;
      if |args| == 1 {
        assert rest == [] && Join(Quoted(args), " ") == first && first + "" == first;
        QuotedReads(args[0], "", done);
        TextEnds(done, args[0], true);
        assert [args[0]] == args;
      } else {
        assert |Quoted(args)| > 1 by { QuotedLength(args); }
        assert Join(Quoted(args), " ") == first + (" " + Join(rest, " "));
        QuotedReads(args[0], " " + Join(rest, " "), done);
        SpaceIsSpace();
        GapEnds(" ", Join(rest, " "), done, args[0]);
        QuotedFrom(args[1..], done + [args[0]]);
        assert (done + [args[0]]) + args[1..] == done + args;
      }
    }
  }

  lemma QuotedLength(args: seq<string>)
    ensures |Quoted(args)| == |args|
  {
    hide Escape;
  }

  lemma SpaceIsSpace()
    ensures IsTrimSpace(' ') && AllSpace(" ")
  {
  }

  /** Empty arguments, line breaks and all: quoted and joined by spaces, every list comes back. */
  lemma QuotedSplits(args: seq<string>)
    ensures Split(Join(Quoted(args), " "), [], "", false) == Ok(args)
  {
    hide Split;
    QuotedFrom(args, []);
    assert [] + args == args;
  }
}
