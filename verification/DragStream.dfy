/** A drag's byte stream: reads of any size pull chunks off a channel of any chunk sizes. */
module DragStream {
  import opened Prelude
  import opened Utf8

  /** What arrives on the channel; when it runs dry the sender is gone. A failure is the last message. */
  datatype Message = Chunk(bytes: seq<byte>) | Failed

  datatype Stream = Stream(connected: bool, incoming: seq<Message>, pending: seq<byte>)

  datatype Status = Good | ReadFault

  /** One read: the bytes handed over, what is left, and the code returned. */
  function Pull(s: Stream, want: nat): (seq<byte>, Stream, Status)
    decreases want, |s.incoming|
  {
    if want == 0 then ([], s, Good)
    else if s.pending != [] then
      var take := Min(want, |s.pending|);
      var r := Pull(s.(pending := s.pending[take..]), want - take);
      (s.pending[..take] + r.0, r.1, r.2)
    else if !s.connected || s.incoming == [] then ([], s, Good)
    else
      match s.incoming[0]
      case Failed => ([], s.(connected := false, incoming := s.incoming[1..]), ReadFault)
      case Chunk(bytes) => Pull(s.(pending := bytes, incoming := s.incoming[1..]), want)
  }

  class ChannelStream {
    var connected: bool
    var incoming: seq<Message>
    var pending: seq<byte>
    var read: nat

    constructor (messages: seq<Message>)
      ensures View() == Stream(true, messages, []) && read == 0
    {
      connected, incoming, pending, read := true, messages, [], 0;
    }

    function View(): Stream
      reads this
    {
      Stream(connected, incoming, pending)
    }

    /**
     Fills `out` up to `want` bytes. The position moves only when the read
     succeeds: bytes handed over by a read that then fails are not counted.
     */
    method Read(out: array<byte>, want: nat) returns (written: nat, code: Status)
      requires want <= out.Length
      modifies this, out
      ensures var r := Pull(old(View()), want);
        View() == r.1 && code == r.2 && written == |r.0| <= want && out[..written] == r.0
      ensures out[written..] == old(out[written..])
      ensures read == old(read) + if code.Good? then written else 0
    {
      hide Pull;
      written := 0;
      ghost var total, done := Pull(View(), want), [];
      assert done + total.0 == total.0;
      while written < want
        invariant written <= want && read == old(read)
        invariant out[..written] == done && out[written..] == old(out[written..])
        invariant Rejoins(total, done, Pull(View(), want - written))
        decreases want - written, |incoming|, |pending|
      {
        if pending == [] {
          PullEmpty(View(), want - written);
          if !connected || incoming == [] {
            break;
          }
          var next := incoming[0];
          incoming := incoming[1..];
          if next.Failed? {
            connected := false;
            assert done + [] == done;
            return written, ReadFault;
          }
          pending := next.bytes;
        } else {
          var take := Min(want - written, |pending|);
          PullSome(View(), want - written);
          CopyOut(out, written, pending[..take]);
          RejoinsOn(total, done, pending[..take],
            Pull(Stream(connected, incoming, pending[take..]), want - written - take));
          done := done + pending[..take];
          pending := pending[take..];
          written := written + take;
        }
      }
      if written == want {
        PullNothing(View());
      }
      read := read + written;
      code := Good;
      assert done + [] == done;
    }
  }

  /** A read is what was done of it and the read of the rest. */
  predicate Rejoins(total: (seq<byte>, Stream, Status), done: seq<byte>, rest: (seq<byte>, Stream, Status)) {
    total == (done + rest.0, rest.1, rest.2)
  }

  lemma RejoinsOn(total: (seq<byte>, Stream, Status), done: seq<byte>, part: seq<byte>,
      rest: (seq<byte>, Stream, Status))
    requires Rejoins(total, done, (part + rest.0, rest.1, rest.2))
    ensures Rejoins(total, done + part, rest)
  {
    assert (done + part) + rest.0 == done + (part + rest.0);
  }

  /** Copies bytes to a place in the buffer. */
  method CopyOut(out: array<byte>, at: nat, part: seq<byte>)
    requires at + |part| <= out.Length
    modifies out
    ensures out[..at + |part|] == old(out[..at]) + part && out[at + |part|..] == old(out[at + |part|..])
  {
    var i := 0;
    while i < |part|
      invariant 0 <= i <= |part|
      invariant out[..at] == old(out[..at]) && out[at..at + i] == part[..i]
      invariant out[at + i..] == old(out[at + i..])
    {
      out[at + i] := part[i];
      i := i + 1;
    }
    assert part[..|part|] == part;
    assert out[..at + |part|] == out[..at] + out[at..at + |part|];
  }

  lemma PullNothing(s: Stream)
    ensures Pull(s, 0) == ([], s, Good)
  {
  }

  lemma PullSome(s: Stream, want: nat)
    requires want > 0 && s.pending != []
    ensures var take := Min(want, |s.pending|); var r := Pull(s.(pending := s.pending[take..]), want - take);
      take > 0 && Pull(s, want) == (s.pending[..take] + r.0, r.1, r.2)
  {
  }

  lemma PullEmpty(s: Stream, want: nat)
    requires want > 0 && s.pending == []
    ensures Pull(s, want) ==
      if !s.connected || s.incoming == [] then ([], s, Good)
      else if s.incoming[0].Failed? then ([], s.(connected := false, incoming := s.incoming[1..]), ReadFault)
      else Pull(s.(pending := s.incoming[0].bytes, incoming := s.incoming[1..]), want)
  {
  }

  // ------------------------------------------------------------------ conservation

  /** The bytes that arrive before the channel fails or runs dry. */
  function Arriving(incoming: seq<Message>): seq<byte> {
    if incoming == [] || incoming[0].Failed? then [] else incoming[0].bytes + Arriving(incoming[1..])
  }

  predicate Fails(incoming: seq<Message>) {
    exists i :: 0 <= i < |incoming| && incoming[i].Failed?
  }

  /** Everything that can still be handed over. */
  function Left(s: Stream): seq<byte> {
    s.pending + if s.connected then Arriving(s.incoming) else []
  }

  lemma LeftTake(s: Stream, take: nat)
    requires take <= |s.pending|
    ensures s.pending[..take] + Left(s.(pending := s.pending[take..])) == Left(s)
  {
    assert s.pending == s.pending[..take] + s.pending[take..];
  }

  lemma LeftChunk(s: Stream)
    requires s.pending == [] && s.connected && s.incoming != [] && s.incoming[0].Chunk?
    ensures Left(s.(pending := s.incoming[0].bytes, incoming := s.incoming[1..])) == Left(s)
  {
    assert [] + Arriving(s.incoming) == Arriving(s.incoming);
  }

  lemma LeftDry(s: Stream)
    requires s.pending == [] && (!s.connected || s.incoming == [] || s.incoming[0].Failed?)
    ensures Left(s) == []
  {
  }

  lemma {:induction false} PullKeeps(s: Stream, want: nat)
    ensures var r := Pull(s, want); r.0 + Left(r.1) == Left(s) && |r.0| <= want
    ensures var r := Pull(s, want); r.2.Good? && |r.0| < want ==>
      Left(r.1) == [] && r.1.connected == s.connected && (s.connected ==> r.1.incoming == [])
    ensures var r := Pull(s, want); r.2.ReadFault? ==> s.connected && !r.1.connected && Left(r.1) == [] && |r.0| < want
    decreases want, |s.incoming|
  {
    hide Pull, Left;
    if want == 0 {
      PullNothing(s);
      assert [] + Left(s) == Left(s);
    } else if s.pending != [] {
      PullSome(s, want);
      var take := Min(want, |s.pending|);
      var next := s.(pending := s.pending[take..]);
      PullKeeps(next, want - take);
      var r := Pull(next, want - take);
      assert (s.pending[..take] + r.0) + Left(r.1) == s.pending[..take] + (r.0 + Left(r.1));
      LeftTake(s, take);
    } else {
      PullEmpty(s, want);
      if s.connected && s.incoming != [] && s.incoming[0].Chunk? {
        LeftChunk(s);
        PullKeeps(s.(pending := s.incoming[0].bytes, incoming := s.incoming[1..]), want);
      } else {
        LeftDry(s);
        LeftDry(Pull(s, want).1);
        assert [] + Left(s) == Left(s);
      }
    }
  }

  lemma FailsTail(incoming: seq<Message>)
    requires incoming != [] && incoming[0].Chunk?
    ensures Fails(incoming) <==> Fails(incoming[1..])
  {
    if Fails(incoming) {
      var i :| 0 <= i < |incoming| && incoming[i].Failed?;
      assert incoming[1..][i - 1].Failed?;
    }
    if Fails(incoming[1..]) {
      var i :| 0 <= i < |incoming[1..]| && incoming[1..][i].Failed?;
      assert incoming[i + 1].Failed?;
    }
  }

  /** A read fails exactly when it asks for more than arrived before the transfer failed. */
  lemma {:induction false} FaultWhen(s: Stream, want: nat)
    ensures Pull(s, want).2.ReadFault? <==> s.connected && Fails(s.incoming) && want > |Left(s)|
    decreases want, |s.incoming|
  {
    if want == 0 {
    } else if s.pending != [] {
      var take := Min(want, |s.pending|);
      var next := s.(pending := s.pending[take..]);
      FaultWhen(next, want - take);
      assert |Left(s)| == take + |Left(next)|;
    } else if s.connected && s.incoming != [] {
      if s.incoming[0].Chunk? {
        FaultWhen(s.(pending := s.incoming[0].bytes, incoming := s.incoming[1..]), want);
        FailsTail(s.incoming);
      } else {
        assert Fails(s.incoming);
      }
    }
  }

  // ------------------------------------------------------------------ any run of reads

  /** The results of reads of the given sizes, and what is left. */
  function Reads(s: Stream, wants: seq<nat>): (seq<(seq<byte>, Status)>, Stream)
    decreases |wants|
  {
    if wants == [] then ([], s)
    else
      var r := Pull(s, wants[0]);
      var rest := Reads(r.1, wants[1..]);
      ([(r.0, r.2)] + rest.0, rest.1)
  }

  function Handed(results: seq<(seq<byte>, Status)>): seq<byte> {
    if results == [] then [] else results[0].0 + Handed(results[1..])
  }

  /**
   Whatever the chunks and whatever the read sizes: what was handed out and what is
   left are, in order, exactly the transfer.
   */
  lemma {:induction false} TransferConserved(s: Stream, wants: seq<nat>)
    ensures Handed(Reads(s, wants).0) + Left(Reads(s, wants).1) == Left(s) && |Reads(s, wants).0| == |wants|
    decreases |wants|
  {
    hide Pull, Left;
    if wants == [] {
      assert [] + Left(s) == Left(s);
    } else {
      var r := Pull(s, wants[0]);
      var rest := Reads(r.1, wants[1..]);
      PullKeeps(s, wants[0]);
      TransferConserved(r.1, wants[1..]);
      assert ([(r.0, r.2)] + rest.0)[1..] == rest.0;
      assert (r.0 + Handed(rest.0)) + Left(rest.1) == r.0 + (Handed(rest.0) + Left(rest.1));
    }
  }

  /** The results up to here held no fault. */
  predicate AllGood(results: seq<(seq<byte>, Status)>) {
    forall i :: 0 <= i < |results| ==> results[i].1.Good?
  }

  /**
   Until a fault, a short read means every byte was delivered: when the k-th
   read of a transfer comes back short without a fault, and none before it
   failed, the whole transfer has arrived without failing and been handed out.
   */
  lemma {:induction false} ShortMeansAll(s: Stream, wants: seq<nat>, k: nat)
    requires s.connected && k < |wants| && AllGood(Reads(s, wants[..k + 1]).0)
    requires |Reads(s, wants[..k + 1]).0| == k + 1 && |Reads(s, wants[..k + 1]).0[k].0| < wants[k]
    ensures !Fails(s.incoming) && Handed(Reads(s, wants[..k + 1]).0) == Left(s)
    decreases k
  {
    hide Pull, Left;
    var ws := wants[..k + 1];
    TransferConserved(s, ws);
    var r := Pull(s, ws[0]);
    var rest := Reads(r.1, ws[1..]);
    var all := Reads(s, ws).0;
    assert all == [(r.0, r.2)] + rest.0 && all[1..] == rest.0;
    assert all[0].1.Good?;
    PullKeeps(s, ws[0]);
    FaultWhen(s, ws[0]);
    StaysConnected(s, ws[0]);
    if k == 0 {
      assert ws[1..] == [] && rest.0 == [] && rest.1 == r.1;
      NoneArriving(s, ws[0]);
      assert Handed(all) + [] == Handed(all);
    } else {
      assert wants[1..][..k] == ws[1..];
      TransferConserved(r.1, ws[1..]);
      forall i | 0 <= i < |rest.0|
        ensures rest.0[i].1.Good?
      {
        assert rest.0[i] == all[i + 1];
      }
      assert rest.0[k - 1] == all[k];
      ShortMeansAll(r.1, wants[1..], k - 1);
      assert Handed(all) == r.0 + Handed(rest.0);
    }
  }

  /** A read without a fault neither disconnects the stream nor passes a failure by. */
  lemma {:induction false} StaysConnected(s: Stream, want: nat)
    requires s.connected && Pull(s, want).2.Good?
    ensures Pull(s, want).1.connected && (Fails(Pull(s, want).1.incoming) <==> Fails(s.incoming))
    decreases want, |s.incoming|
  {
    if want == 0 {
    } else if s.pending != [] {
      var take := Min(want, |s.pending|);
      StaysConnected(s.(pending := s.pending[take..]), want - take);
    } else if s.incoming != [] {
      FailsTail(s.incoming);
      StaysConnected(s.(pending := s.incoming[0].bytes, incoming := s.incoming[1..]), want);
    }
  }

  lemma NoneArriving(s: Stream, want: nat)
    requires s.connected && Pull(s, want).2.Good? && |Pull(s, want).0| < want
    ensures !Fails(s.incoming) && Left(Pull(s, want).1) == []
  {
    hide Pull, Left;
    PullKeeps(s, want);
    StaysConnected(s, want);
  }

  // ------------------------------------------------------------------ the position

  /** Where the reads have moved the position: those that failed did not. */
  function Position(results: seq<(seq<byte>, Status)>): nat {
    if results == [] then 0 else (if results[0].1.Good? then |results[0].0| else 0) + Position(results[1..])
  }

  /** Some read begins before `total` bytes are handed over and asks for more than are left of them. */
  predicate Straddles(total: nat, wants: seq<nat>)
    decreases |wants|
  {
    && total > 0 && wants != []
    && (wants[0] > total || Straddles(total - wants[0], wants[1..]))
  }

  lemma ResultsCons(s: Stream, wants: seq<nat>)
    requires wants != []
    ensures var r := Pull(s, wants[0]);
      var all, rest := Reads(s, wants).0, Reads(r.1, wants[1..]).0;
      |Handed(all)| == |r.0| + |Handed(rest)| && Position(all) == (if r.2.Good? then |r.0| else 0) + Position(rest)
  {
    hide Pull;
    var r := Pull(s, wants[0]);
    var rest := Reads(r.1, wants[1..]);
    assert ([(r.0, r.2)] + rest.0)[1..] == rest.0;
  }

  lemma {:induction false} NothingMore(s: Stream, wants: seq<nat>)
    requires Left(s) == [] && !s.connected
    ensures Handed(Reads(s, wants).0) == [] && Position(Reads(s, wants).0) == 0
    decreases |wants|
  {
    hide Pull, Left;
    if wants != [] {
      ResultsCons(s, wants);
      PullKeeps(s, wants[0]);
      FaultWhen(s, wants[0]);
      Disconnected(s, wants[0]);
      assert [] + Left(s) == Left(s);
      NothingMore(Pull(s, wants[0]).1, wants[1..]);
    }
  }

  lemma {:induction false} Disconnected(s: Stream, want: nat)
    requires !s.connected
    ensures !Pull(s, want).1.connected
    decreases want, |s.incoming|
  {
    if want > 0 && s.pending != [] {
      var take := Min(want, |s.pending|);
      Disconnected(s.(pending := s.pending[take..]), want - take);
    }
  }

  /** A read of a transfer that will fail, but not yet: it hands over all it was asked for. */
  lemma FullRead(s: Stream, want: nat)
    requires s.connected && Fails(s.incoming) && want <= |Left(s)|
    ensures var r := Pull(s, want);
      r.2.Good? && |r.0| == want && r.1.connected && Fails(r.1.incoming) && |Left(r.1)| == |Left(s)| - want
  {
    hide Pull, Left, Fails;
    FaultWhen(s, want);
    PullKeeps(s, want);
    StaysConnected(s, want);
    if |Pull(s, want).0| < want {
      NoneArriving(s, want);
    }
  }

  /**
   The position is the number of bytes handed over exactly when no read of a
   transfer that fails began before the last byte that arrives and asked for more.
   */
  lemma {:induction false} PositionIsExact(s: Stream, wants: seq<nat>)
    ensures Position(Reads(s, wants).0) == |Handed(Reads(s, wants).0)| <==>
      !(s.connected && Fails(s.incoming) && Straddles(|Left(s)|, wants))
    ensures Position(Reads(s, wants).0) <= |Handed(Reads(s, wants).0)|
    decreases |wants|
  {
    hide Pull, Left, Fails, Reads, Handed, Position;
    if wants == [] {
      NoReads(s);
    } else {
      ResultsCons(s, wants);
      var r := Pull(s, wants[0]);
      FaultWhen(s, wants[0]);
      PullKeeps(s, wants[0]);
      PositionIsExact(r.1, wants[1..]);
      if s.connected && Fails(s.incoming) {
        if wants[0] <= |Left(s)| {
          FullRead(s, wants[0]);
          StraddlesLater(|Left(s)|, wants);
        } else {
          NothingMore(r.1, wants[1..]);
          assert |r.0| == |Left(s)|;
        }
      } else if s.connected {
        StaysConnected(s, wants[0]);
      } else {
        Disconnected(s, wants[0]);
      }
    }
  }

  lemma StraddlesLater(total: nat, wants: seq<nat>)
    requires wants != [] && wants[0] <= total
    ensures Straddles(total, wants) <==> Straddles(total - wants[0], wants[1..])
  {
  }

  lemma NoReads(s: Stream)
    ensures Handed(Reads(s, []).0) == [] && Position(Reads(s, []).0) == 0
  {
  }

  /**
   Two bytes arrive, then the transfer fails: a read of three hands over both and
   leaves the position where it was.
   */
  lemma PositionFallsBehind(a: byte, b: byte)
    ensures var s := Stream(true, [Chunk([a, b]), Failed], []);
      Handed(Reads(s, [3]).0) == [a, b] && Position(Reads(s, [3]).0) == 0
  {
    var s := Stream(true, [Chunk([a, b]), Failed], []);
    assert s.incoming[1..] == [Failed];
    var t := Stream(true, [Failed], [a, b]);
    assert Pull(Stream(true, [Failed], []), 1) ==
      ([], Stream(false, [], []), ReadFault) by { assert [Failed][1..] == []; }
    assert [a, b][2..] == [] && [a, b][..2] == [a, b];
    assert Pull(t, 3) == ([a, b] + [], Stream(false, [], []), ReadFault);
    assert Pull(s, 3) == Pull(t, 3);
    ResultsCons(s, [3]);
    assert [3][1..] == [];
    NoReads(Stream(false, [], []));
    var r := Pull(s, 3);
    var all := Reads(s, [3]).0;
    assert all == [(r.0, r.2)] + [];
    assert all[1..] == [];
    assert Handed(all) == [a, b] + Handed([]);
  }
}
