/** Exactly when chunking does not matter: bytes that are not tame can be cut so that the text changes. */
module TextWild {
  import opened Prelude
  import opened Utf8
  import opened TextStream

  function ItemLength(b: seq<byte>): nat
    requires b != []
  {
    match First(b) case Char(_, len) => len case Incomplete => |b| case Invalid(len) => len
  }

  /** The bytes of an item after its first are continuation bytes, which mean nothing by themselves. */
  lemma RestOfItem(b: seq<byte>, i: nat)
    requires b != [] && 1 <= i < ItemLength(b)
    ensures ItemLength(b) <= |b| && Tail(b[i]) && First(b[i..]) == Invalid(1)
    ensures b[0] >= 0xC2 && First([b[0]]).Incomplete?
  {
  }

  lemma LossyStep(b: seq<byte>)
    requires b != []
    ensures 1 <= ItemLength(b) <= |b| && |Lossy(b)| == 1 + |Lossy(b[ItemLength(b)..])|
  {
    if First(b).Incomplete? {
      assert b[|b|..] == [];
      assert Lossy(b[|b|..]) == "";
    }
  }

  /** Without its first byte an item falls apart, one replacement for every byte left. */
  lemma {:induction false} FallsApart(b: seq<byte>, i: nat)
    requires b != [] && 1 <= i <= ItemLength(b) <= |b|
    ensures |Lossy(b[i..])| == (ItemLength(b) - i) + |Lossy(b[ItemLength(b)..])|
    decreases ItemLength(b) - i
  {
    hide First, ItemLength;
    if i < ItemLength(b) {
      RestOfItem(b, i);
      LossyInvalid(b[i..]);
      assert b[i..][1..] == b[i + 1..];
      FallsApart(b, i + 1);
    }
  }

  lemma SingleLossy(b: seq<byte>)
    requires b != [] && ItemLength(b) == 1
    ensures Lossy(b) == [ByteText(b[0])] + Lossy(b[1..])
  {
    if |b| == 1 {
      assert b[1..] == [] && Lossy(b[1..]) == "";
    }
  }

  lemma SingleSlice(a: seq<byte>, b: seq<byte>)
    requires a != [] && ItemLength(a + b) == 1
    ensures ItemLength(a) == 1
  {
    if |a| > 1 {
      assert (a + b)[1] == a[1];
    }
  }

  /** The first longer item of some bytes begins at `p`, and what decoding up to and into it gives. */
  ghost predicate LongAt(b: seq<byte>, p: nat) {
    && p < |b| && ItemLength(b[p..]) > 1
    && Lossy(b) == BytesText(b[..p]) + Lossy(b[p..])
    && Lossy(b[..p + 1]) == BytesText(b[..p]) + [REPLACEMENT]
  }

  lemma LongHere(b: seq<byte>)
    requires b != [] && ItemLength(b) > 1
    ensures LongAt(b, 0)
  {
    hide First, ByteText, ItemLength;
    LossyStep(b);
    RestOfItem(b, 1);
    assert b[..1] == [b[0]] && b[0..] == b && b[..0] == [];
    assert Lossy([b[0]]) == [REPLACEMENT];
    assert BytesText([]) == "";
  }

  lemma BytesTextCons(b: seq<byte>)
    requires b != []
    ensures BytesText(b) == [ByteText(b[0])] + BytesText(b[1..])
  {
  }

  lemma LongLater(b: seq<byte>, q: nat)
    requires b != [] && ItemLength(b) == 1 && LongAt(b[1..], q)
    ensures LongAt(b, q + 1)
  {
    hide First, ByteText, ItemLength, Lossy, BytesText;
    var rest, p := b[1..], q + 1;
    assert rest[q..] == b[p..];
    SingleLossy(b);
    var upTo := b[..p];
    assert upTo[1..] == rest[..q] && upTo[0] == b[0];
    BytesTextCons(upTo);
    assert [ByteText(b[0])] + (BytesText(rest[..q]) + Lossy(b[p..])) == ([ByteText(b[0])] + BytesText(rest[..q]))
      + Lossy(b[p..]);
    var cut := b[..p + 1];
    assert b == cut + b[p + 1..];
    SingleSlice(cut, b[p + 1..]);
    SingleLossy(cut);
    assert cut[1..] == rest[..q + 1] && cut[0] == b[0];
    assert [ByteText(b[0])] + (BytesText(rest[..q]) + [REPLACEMENT]) == ([ByteText(b[0])] + BytesText(rest[..q]))
      + [REPLACEMENT];
  }

  lemma {:induction false} FirstLong(b: seq<byte>) returns (p: nat)
    requires !Single(b)
    ensures LongAt(b, p)
    decreases |b|
  {
    hide First, ItemLength, LongAt;
    SingleIs(b);
    LossyStep(b);
    if ItemLength(b) > 1 {
      p := 0;
      LongHere(b);
    } else {
      var q := FirstLong(b[1..]);
      p := q + 1;
      LongLater(b, q);
    }
  }

  lemma SingleIs(b: seq<byte>)
    ensures Single(b) <==> b == [] || (ItemLength(b) == 1 && Single(b[1..]))
  {
  }

  lemma InvalidOfSlice(tail: seq<byte>, n: nat)
    requires tail != [] && First(tail).Invalid? && First(tail).len < n <= |tail|
    ensures First(tail[..n]) == First(tail)
  {
  }

  /** One push of bytes whose first fault is an invalid item: all of it is decoded and nothing held. */
  lemma PushesAll(v: seq<byte>, tail: seq<byte>)
    requires Valid(v) && tail != [] && First(tail).Invalid?
    ensures Ready(v + tail) == v + tail && HeldBack(v + tail) == []
      && Lossy(v + tail) == Lossy(v) + [REPLACEMENT] + Lossy(tail[First(tail).len..])
  {
    hide First, Lossy, Valid;
    ValidPrefix(v, tail);
    InvalidStops(tail);
    LossyInvalid(tail);
    assert (v + tail)[|v|..] == tail;
    assert Lossy(v) + ([REPLACEMENT] + Lossy(tail[First(tail).len..])) == Lossy(v) + [REPLACEMENT]
      + Lossy(tail[First(tail).len..]);
  }

  lemma TwoPushes(a: seq<byte>, b: seq<byte>)
    requires HeldBack(a) == [] && HeldBack(b) == []
    ensures Outputs([], [a, b]) == Lossy(Ready(a)) + Lossy(Ready(b)) && Remaining([], [a, b]) == []
  {
    hide Lossy, Ready, HeldBack;
    assert [] + a == a && [] + b == b && [a, b][1..] == [b] && [b][1..] == [];
    assert Outputs([], [b]) == Lossy(Ready(b)) + Outputs([], []);
    assert Remaining([], [b]) == Remaining([], []) == [];
    assert Lossy(Ready(b)) + "" == Lossy(Ready(b));
  }

  lemma NothingIsValid()
    ensures Valid([]) && Lossy([]) == ""
  {
  }

  /** The two pushes when the cut falls inside a longer item that follows an invalid one. */
  lemma CutInside(v: seq<byte>, tail: seq<byte>, p: nat)
    requires Valid(v) && tail != [] && First(tail).Invalid? && LongAt(tail[First(tail).len..], p)
    ensures var n := First(tail).len + p + 1; var a, b := v + tail[..n], tail[n..];
      n <= |tail| && HeldBack(a) == [] && HeldBack(b) == [] && Ready(a) == a && Ready(b) == b
      && |Lossy(a)| + |Lossy(b)| > |Lossy(v + tail)|
  {
    hide First, Lossy, BytesText, Ready, HeldBack, ItemLength, Valid;
    var k := First(tail).len;
    var w, n := tail[k..], k + p + 1;
    var m, front := w[p..], tail[..n];
    assert tail[n..] == m[1..] && front[k..] == w[..p + 1];
    InvalidOfSlice(tail, n);
    PushesAll(v, tail);
    PushesAll(v, front);
    LossyStep(m);
    RestOfItem(m, 1);
    NothingIsValid();
    assert [] + m[1..] == m[1..];
    PushesAll([], m[1..]);
    FallsApart(m, 1);
  }

  /**
   Bytes that are not tame: cutting the first longer item after the invalid one gives
   more replacement characters than decoding the whole.
   */
  lemma WildBytesChunked(b: seq<byte>) returns (cut: nat)
    requires !Tame(b)
    ensures cut <= |b|
      && |Outputs([], [b[..cut], b[cut..]]) + Flushed(Remaining([], [b[..cut], b[cut..]]))| > |Lossy(b)|
  {
    hide First, Lossy, Single, LongAt, Ready, HeldBack, Outputs, Remaining, ValidUpTo;
    var n := ValidUpTo(b);
    var v, tail := b[..n], b[n..];
    UpToIsValid(b);
    var k := First(tail).len;
    var p := FirstLong(tail[k..]);
    CutInside(v, tail, p);
    cut := n + k + p + 1;
    assert b == v + tail && b[..cut] == v + tail[..k + p + 1] && b[cut..] == tail[k + p + 1..];
    TwoPushes(b[..cut], b[cut..]);
  }

  /** Exactly then: the text never depends on how the bytes are cut when, and only when, they are tame. */
  lemma ChunkingMattersExactly(b: seq<byte>)
    ensures Tame(b) <==> forall chunks: seq<seq<byte>> :: Concat(chunks) == b ==>
      Outputs([], chunks) + Flushed(Remaining([], chunks)) == Lossy(b)
  {
    hide Lossy, Tame, Outputs, Flushed, Remaining;
    if Tame(b) {
      forall chunks: seq<seq<byte>> | Concat(chunks) == b
        ensures Outputs([], chunks) + Flushed(Remaining([], chunks)) == Lossy(b)
      {
        assert [] + b == b;
        ChunkingDoesNotMatter([], chunks);
      }
    } else {
      var cut := WildBytesChunked(b);
      var chunks := [b[..cut], b[cut..]];
      ConcatTwo(b[..cut], b[cut..]);
      assert Concat(chunks) == b;
    }
  }

  lemma ConcatTwo(a: seq<byte>, b: seq<byte>)
    ensures Concat([a, b]) == a + b
  {
    assert [a, b][1..] == [b] && [b][1..] == [];
    assert Concat([b]) == b + Concat<byte>([]);
  }
}
