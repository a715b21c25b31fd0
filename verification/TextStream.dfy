/** The chunked UTF-8 decoder: an unfinished character at the end of a chunk is held back for the next. */
module TextStream {
  import opened Prelude
  import opened Utf8

  // ------------------------------------------------------------------ one push

  /** Is the first thing wrong with these bytes only that they stop too early? */
  predicate Unfinished(b: seq<byte>) {
    ValidUpTo(b) < |b| && First(b[ValidUpTo(b)..]).Incomplete?
  }

  /** What is held back. */
  function HeldBack(b: seq<byte>): seq<byte> {
    if Unfinished(b) then b[ValidUpTo(b)..] else []
  }

  /** What is decoded now. */
  function Ready(b: seq<byte>): seq<byte> {
    if Unfinished(b) then b[..ValidUpTo(b)] else b
  }

  /** Nothing, or the beginning of one character. */
  predicate CanBeHeld(p: seq<byte>) {
    p == [] || First(p).Incomplete?
  }

  class Utf8Stream {
    var pending: seq<byte>

    constructor ()
      ensures pending == []
    {
      pending := [];
    }

    method Push(chunk: seq<byte>) returns (out: string)
      modifies this
      ensures out == Lossy(Ready(old(pending) + chunk)) && pending == HeldBack(old(pending) + chunk)
      ensures Ready(old(pending) + chunk) + pending == old(pending) + chunk
      ensures CanBeHeld(pending) && |pending| <= 3
    {
      var buf := pending + chunk;
      pending := [];
      var good := ValidUpTo(buf);
      HeldIsPrefix(buf);
      if good < |buf| && First(buf[good..]).Incomplete? {
        out := Lossy(buf[..good]);
        pending := buf[good..];
      } else {
        out := Lossy(buf);
      }
    }

    method Flush() returns (out: Option<string>)
      modifies this
      ensures out == (if old(pending) == [] then None else Some(Lossy(old(pending)))) && pending == []
    {
      if pending == [] {
        return None;
      }
      out := Some(Lossy(pending));
      pending := [];
    }
  }

  /** A loop that feeds every chunk in turn, then flushes. */
  method Decode(chunks: seq<seq<byte>>) returns (out: string)
    ensures out == Outputs([], chunks) + Flushed(Remaining([], chunks))
  {
    hide Lossy, First, ValidUpTo, Ready, HeldBack;
    var stream := new Utf8Stream();
    out := "";
    var i := 0;
    while i < |chunks|
      invariant 0 <= i <= |chunks|
      invariant Outputs([], chunks) == out + Outputs(stream.pending, chunks[i..])
      invariant Remaining([], chunks) == Remaining(stream.pending, chunks[i..])
    {
      assert chunks[i..][0] == chunks[i] && chunks[i..][1..] == chunks[i + 1..];
      var text := stream.Push(chunks[i]);
      out := out + text;
      i := i + 1;
    }
    assert chunks[i..] == [];
    var last := stream.Flush();
    if last.Some? {
      out := out + last.value;
    }
  }

  // ------------------------------------------------------------------ runs

  /** Everything the pushes return. */
  function Outputs(pending: seq<byte>, chunks: seq<seq<byte>>): string
    decreases |chunks|
  {
    if chunks == [] then ""
    else Lossy(Ready(pending + chunks[0])) + Outputs(HeldBack(pending + chunks[0]), chunks[1..])
  }

  /** What is still held at the end. */
  function Remaining(pending: seq<byte>, chunks: seq<seq<byte>>): seq<byte>
    decreases |chunks|
  {
    if chunks == [] then pending else Remaining(HeldBack(pending + chunks[0]), chunks[1..])
  }

  function Flushed(pending: seq<byte>): string {
    if pending == [] then "" else Lossy(pending)
  }

  /** The bytes decoded, push by push. */
  function Emitted(pending: seq<byte>, chunks: seq<seq<byte>>): seq<seq<byte>>
    decreases |chunks|
  {
    if chunks == [] then [] else [Ready(pending + chunks[0])] + Emitted(HeldBack(pending + chunks[0]), chunks[1..])
  }

  function LossyAll(parts: seq<seq<byte>>): string {
    if parts == [] then "" else Lossy(parts[0]) + LossyAll(parts[1..])
  }

  // ------------------------------------------------------------------ nothing is lost, and little is held

  /**
   What is held is a proper prefix of one character, so at most three bytes; and with
   what is decoded it makes up what came in.
   */
  lemma HeldIsPrefix(b: seq<byte>)
    ensures Ready(b) + HeldBack(b) == b && CanBeHeld(HeldBack(b)) && |HeldBack(b)| <= 3
  {
    hide First;
    if Unfinished(b) {
      UnfinishedShort(b[ValidUpTo(b)..]);
    }
  }

  lemma UnfinishedShort(p: seq<byte>)
    requires p != [] && First(p).Incomplete?
    ensures |p| <= 3
  {
  }

  /** On any input: the bytes decoded and the bytes held are, in order, exactly the bytes fed. */
  lemma {:induction false} BytesConserved(pending: seq<byte>, chunks: seq<seq<byte>>)
    ensures Concat(Emitted(pending, chunks)) + Remaining(pending, chunks) == pending + Concat(chunks)
    ensures Outputs(pending, chunks) == LossyAll(Emitted(pending, chunks))
    decreases |chunks|
  {
    hide First, Ready, HeldBack, Lossy;
    if chunks != [] {
      var buf := pending + chunks[0];
      HeldIsPrefix(buf);
      var rest := Emitted(HeldBack(buf), chunks[1..]);
      BytesConserved(HeldBack(buf), chunks[1..]);
      assert ([Ready(buf)] + rest)[1..] == rest;
      assert Concat(Emitted(pending, chunks)) == Ready(buf) + Concat(rest);
      assert pending + (chunks[0] + Concat(chunks[1..])) == buf + Concat(chunks[1..]);
      assert (Ready(buf) + Concat(rest)) + Remaining(pending, chunks) == Ready(buf)
        + (Concat(rest) + Remaining(HeldBack(buf), chunks[1..]));
      assert Ready(buf) + (HeldBack(buf) + Concat(chunks[1..])) == (Ready(buf) + HeldBack(buf)) + Concat(chunks[1..]);
    }
  }

  /** After any run what is held is empty or the beginning of some character. */
  lemma {:induction false} HeldAfterAnyRun(pending: seq<byte>, chunks: seq<seq<byte>>)
    requires CanBeHeld(pending)
    ensures var held := Remaining(pending, chunks);
      held == [] || exists c: char :: |held| < |EncodeChar(c)| <= 4 && held == EncodeChar(c)[..|held|]
    decreases |chunks|
  {
    hide First, EncodeChar;
    if chunks == [] {
      if pending != [] {
        var c := IncompleteIsPrefix(pending);
        EncodedLength(c);
      }
    } else {
      HeldIsPrefix(pending + chunks[0]);
      HeldAfterAnyRun(HeldBack(pending + chunks[0]), chunks[1..]);
    }
  }

  lemma EncodedLength(c: char)
    ensures |EncodeChar(c)| <= 4
  {
  }

  // ------------------------------------------------------------------ single bytes

  /** The first item is one byte long. */
  predicate ByteLong(b: seq<byte>)
    requires b != []
  {
    match First(b)
    case Char(_, len) => len == 1
    case Incomplete => |b| == 1
    case Invalid(len) => len == 1
  }

  /** Every item is one byte long: ASCII, or invalid or unfinished on its own. */
  predicate Single(b: seq<byte>) {
    b == [] || (ByteLong(b) && Single(b[1..]))
  }

  function ByteText(b: byte): char {
    if b < 0x80 then b as char else REPLACEMENT
  }

  function BytesText(b: seq<byte>): string {
    if b == [] then "" else [ByteText(b[0])] + BytesText(b[1..])
  }

  lemma {:induction false} BytesTextAppend(a: seq<byte>, b: seq<byte>)
    ensures BytesText(a + b) == BytesText(a) + BytesText(b)
  {
    if a == [] {
      assert a + b == b;
    } else {
      assert (a + b)[1..] == a[1..] + b;
      BytesTextAppend(a[1..], b);
    }
  }

  lemma OneByteFirst(b: seq<byte>)
    requires b != []
      && (match First(b) case Char(_, len) => len == 1 case Incomplete => |b| == 1 case Invalid(len) => len == 1)
    ensures First(b).Char? ==> First(b) == Char(ByteText(b[0]), 1)
    ensures !First(b).Char? ==> ByteText(b[0]) == REPLACEMENT
  {
  }

  lemma {:induction false} SingleText(b: seq<byte>)
    requires Single(b)
    ensures Lossy(b) == BytesText(b)
  {
    hide First, ByteText;
    if b != [] {
      OneByteFirst(b);
      SingleText(b[1..]);
      if |b| == 1 {
        assert b[1..] == [];
        assert Lossy(b[1..]) == "" && BytesText(b[1..]) == "";
      }
    }
  }

  /** Cut anywhere, both halves are still byte by byte. */
  lemma {:induction false} SingleSplits(a: seq<byte>, b: seq<byte>)
    requires Single(a + b)
    ensures Single(a) && Single(b)
  {
    hide First;
    if a == [] {
      assert a + b == b;
    } else {
      assert (a + b)[1..] == a[1..] + b;
      SingleSplits(a[1..], b);
      OneByteSlice(a, b);
    }
  }

  lemma OneByteSlice(a: seq<byte>, b: seq<byte>)
    requires a != []
    requires match First(a + b) case Char(_, len) => len == 1 case Incomplete => |a
      + b| == 1 case Invalid(len) => len == 1
    ensures match First(a) case Char(_, len) => len == 1 case Incomplete => |a| == 1 case Invalid(len) => len == 1
  {
    if |a| > 1 {
      assert (a + b)[1] == a[1];
    }
  }

  // ------------------------------------------------------------------ when chunking does not matter

  /** Up to the first invalid item anything goes; after it only single bytes. */
  predicate Tame(b: seq<byte>) {
    var tail := b[ValidUpTo(b)..];
    tail == [] || (match First(tail) case Char(_,
      _) => true case Incomplete => true case Invalid(len) => Single(tail[len..]))
  }

  lemma ValidIsTame(b: seq<byte>)
    requires Valid(b)
    ensures Tame(b)
  {
  }

  /** What comes first can be dropped when it is valid. */
  lemma TameDrops(a: seq<byte>, b: seq<byte>)
    requires Valid(a) && Tame(a + b)
    ensures Tame(b)
  {
    hide First, Single;
    ValidPrefix(a, b);
    assert (a + b)[|a| + ValidUpTo(b)..] == b[ValidUpTo(b)..];
  }

  lemma SingleIsTame(b: seq<byte>)
    requires Single(b)
    ensures Tame(b)
  {
    hide First, ByteText;
    var n := ValidUpTo(b);
    SingleDrops(b, n);
  }

  lemma {:induction false} SingleDrops(b: seq<byte>, n: nat)
    requires Single(b) && n <= |b|
    ensures Single(b[n..]) && (n < |b| ==> Single(b[n + 1..]) && (First(b[n..]).Invalid? ==> First(b[n..]).len == 1))
  {
    hide First;
    if n > 0 {
      SingleDrops(b[1..], n - 1);
      assert b[1..][n - 1..] == b[n..];
      if n < |b| {
        assert b[1..][n..] == b[n + 1..];
      }
    } else if n < |b| {
      assert b[0..] == b;
    }
  }

  lemma TameAfterInvalid(v: seq<byte>, tail: seq<byte>)
    requires Valid(v) && tail != [] && First(tail).Invalid? && Tame(v + tail)
    ensures Single(tail[First(tail).len..])
  {
    hide First, Single;
    ValidPrefix(v, tail);
    InvalidStops(tail);
    assert (v + tail)[|v|..] == tail;
  }

  lemma LossyInvalid(b: seq<byte>)
    requires b != [] && First(b).Invalid?
    ensures Lossy(b) == [REPLACEMENT] + Lossy(b[First(b).len..])
  {
    hide First;
  }

  lemma SingleTextAppend(w: seq<byte>, more: seq<byte>)
    requires Single(w + more)
    ensures Lossy(w + more) == Lossy(w) + Lossy(more) && Single(more)
  {
    hide Single, Lossy, BytesText, First;
    SingleSplits(w, more);
    SingleText(w + more);
    SingleText(w);
    SingleText(more);
    BytesTextAppend(w, more);
  }

  lemma InvalidFirst(tail: seq<byte>, more: seq<byte>)
    requires tail != [] && First(tail).Invalid? && Single((tail + more)[First(tail).len..])
    ensures Lossy(tail + more) == Lossy(tail) + Lossy(more) && Single(more)
  {
    hide First, Single, Lossy;
    FirstIsLocal(tail, more);
    var k := First(tail).len;
    var w := tail[k..];
    assert (tail + more)[k..] == w + more;
    SingleTextAppend(w, more);
    LossyInvalid(tail + more);
    LossyInvalid(tail);
    assert [REPLACEMENT] + (Lossy(w) + Lossy(more)) == ([REPLACEMENT] + Lossy(w)) + Lossy(more);
  }

  /** When something invalid is met, everything is decoded at once: as if the rest had been there too. */
  lemma InvalidDecodes(v: seq<byte>, tail: seq<byte>, more: seq<byte>)
    requires Valid(v) && tail != [] && First(tail).Invalid? && Tame((v + tail) + more)
    ensures Lossy((v + tail) + more) == Lossy(v + tail) + Lossy(more) && Single(more)
  {
    hide First, Single, Lossy, Tame, ValidUpTo, Valid;
    assert (v + tail) + more == v + (tail + more);
    ValidPrefix(v, tail + more);
    ValidPrefix(v, tail);
    FirstIsLocal(tail, more);
    TameAfterInvalid(v, tail + more);
    InvalidFirst(tail, more);
    assert Lossy(v) + (Lossy(tail) + Lossy(more)) == (Lossy(v) + Lossy(tail)) + Lossy(more);
  }

  /** A push either decodes valid bytes only, or everything it has. */
  lemma PushCases(buf: seq<byte>)
    ensures Unfinished(buf) || Valid(buf) ==> Valid(Ready(buf))
    ensures !Unfinished(buf) && !Valid(buf) ==>
      Ready(buf) == buf && HeldBack(buf) == [] && ValidUpTo(buf) < |buf| && First(buf[ValidUpTo(buf)..]).Invalid?
  {
    hide First, ValidUpTo;
    UpToIsValid(buf);
    assert buf[..|buf|] == buf;
  }

  lemma InvalidStops(b: seq<byte>)
    requires b != [] && First(b).Invalid?
    ensures ValidUpTo(b) == 0
  {
  }

  /**
   For every way of cutting tame bytes, valid ones in particular, the pushes and
   the flush together give the decoding of the whole.
   */
  lemma {:induction false} ChunkingDoesNotMatter(pending: seq<byte>, chunks: seq<seq<byte>>)
    requires CanBeHeld(pending) && Tame(pending + Concat(chunks))
    ensures Outputs(pending, chunks) + Flushed(Remaining(pending, chunks)) == Lossy(pending + Concat(chunks))
    decreases |chunks|
  {
    hide First, Single, Lossy, ValidUpTo, Tame, Ready, HeldBack, Unfinished, Valid, CanBeHeld;
    if chunks == [] {
      assert pending + [] == pending;
      EmptyText();
    } else {
      var buf, more := pending + chunks[0], Concat(chunks[1..]);
      assert pending + Concat(chunks) == buf + more;
      HeldIsPrefix(buf);
      PushCases(buf);
      var ready, held := Ready(buf), HeldBack(buf);
      assert [] + more == more;
      assert buf + more == ready + (held + more);
      if Unfinished(buf) || Valid(buf) {
        ValidPrefix(ready, held + more);
        TameDrops(ready, held + more);
      } else {
        UpToIsValid(buf);
        assert buf == buf[..ValidUpTo(buf)] + buf[ValidUpTo(buf)..];
        InvalidDecodes(buf[..ValidUpTo(buf)], buf[ValidUpTo(buf)..], more);
        SingleIsTame(more);
      }
      ChunkingDoesNotMatter(held, chunks[1..]);
    }
  }

  lemma EmptyText()
    ensures Lossy([]) == ""
  {
  }

  /** Valid bytes, however cut: the pushes concatenate to the text and nothing is left to flush. */
  lemma ValidBytesChunked(s: string, chunks: seq<seq<byte>>)
    requires Concat(chunks) == Encode(s)
    ensures Outputs([], chunks) == s && Remaining([], chunks) == []
  {
    hide First, Single;
    RoundTrip(s);
    assert [] + Concat(chunks) == Encode(s);
    ValidIsTame(Encode(s));
    ChunkingDoesNotMatter([], chunks);
    RemainderUnfinished([], chunks);
    var held := Remaining([], chunks);
    assert Outputs([], chunks) + "" == Outputs([], chunks);
  }

  /** Of valid bytes nothing is held at the end. */
  lemma {:induction false} RemainderUnfinished(pending: seq<byte>, chunks: seq<seq<byte>>)
    requires Valid(pending + Concat(chunks)) && CanBeHeld(pending)
    ensures Remaining(pending, chunks) == []
    decreases |chunks|
  {
    hide First;
    if chunks == [] {
      assert pending + [] == pending;
      ValidNotHeld(pending);
    } else {
      var buf, more := pending + chunks[0], Concat(chunks[1..]);
      assert pending + Concat(chunks) == buf + more;
      HeldIsPrefix(buf);
      NeverInvalid(buf, more);
      UpToIsValid(buf);
      assert buf[..|buf|] == buf;
      assert buf + more == Ready(buf) + (HeldBack(buf) + more);
      ValidPrefix(Ready(buf), HeldBack(buf) + more);
      RemainderUnfinished(HeldBack(buf), chunks[1..]);
    }
  }

  lemma ValidNotHeld(p: seq<byte>)
    requires Valid(p) && CanBeHeld(p)
    ensures p == []
  {
  }

  /** A beginning of valid bytes is valid or unfinished. */
  lemma NeverInvalid(buf: seq<byte>, more: seq<byte>)
    requires Valid(buf + more)
    ensures Valid(buf) || Unfinished(buf)
  {
    hide First;
    var n := ValidUpTo(buf);
    if n < |buf| && !First(buf[n..]).Incomplete? {
      UpToIsValid(buf);
      assert buf + more == buf[..n] + (buf[n..] + more);
      ValidPrefix(buf[..n], buf[n..] + more);
      FirstIsLocal(buf[n..], more);
    }
  }
}
