/** UTF-8 as section 4 of RFC 3629 defines it, and decoding that replaces what is not valid. */
module Utf8 {
  import opened Prelude

  type byte = b: int | 0 <= b < 256

  const REPLACEMENT: char := '\U{FFFD}'

  // ------------------------------------------------------------------ encoding

  function EncodeChar(c: char): (r: seq<byte>)
    ensures 1 <= |r| <= 4
  {
    var n := c as int;
    if n < 0x80 then [n]
    else if n < 0x800 then [0xC0 + n / 64, 0x80 + n % 64]
    else if n < 0x10000 then [0xE0 + n / 4096, 0x80 + n / 64 % 64, 0x80 + n % 64]
    else [0xF0 + n / 262144, 0x80 + n / 4096 % 64, 0x80 + n / 64 % 64, 0x80 + n % 64]
  }

  function Encode(s: string): seq<byte> {
    if s == "" then [] else EncodeChar(s[0]) + Encode(s[1..])
  }

  // ------------------------------------------------------------------ what stands at the start of some bytes

  /** A whole character; a proper prefix of one, with nothing after it; or bytes that can never become one. */
  datatype Item = Char(c: char, len: nat) | Incomplete | Invalid(len: nat)

  predicate Tail(b: byte) {
    0x80 <= b <= 0xBF
  }

  function Width(b: byte): nat {
    if b < 0x80 then 1
    else if 0xC2 <= b <= 0xDF then 2
    else if 0xE0 <= b <= 0xEF then 3
    else if 0xF0 <= b <= 0xF4 then 4
    else 0
  }

  /**
   May `b` follow the first byte of a longer character? Overlong forms, surrogates and
   what lies past U+10FFFF are out.
   */
  predicate Second(first: byte, b: byte) {
    if first == 0xE0 then 0xA0 <= b <= 0xBF
    else if first == 0xED then 0x80 <= b <= 0x9F
    else if first == 0xF0 then 0x90 <= b <= 0xBF
    else if first == 0xF4 then 0x80 <= b <= 0x8F
    else Tail(b)
  }

  function Code2(a: int, b: int): int {
    (a - 0xC0) * 64 + (b - 0x80)
  }

  function Code3(a: int, b: int, c: int): int {
    (a - 0xE0) * 4096 + (b - 0x80) * 64 + (c - 0x80)
  }

  function Code4(a: int, b: int, c: int, d: int): int {
    (a - 0xF0) * 262144 + (b - 0x80) * 4096 + (c - 0x80) * 64 + (d - 0x80)
  }

  function First(b: seq<byte>): (r: Item)
    requires b != []
    ensures r.Char? ==> 1 <= r.len <= 4 && r.len <= |b|
    ensures r.Invalid? ==> 1 <= r.len <= 3 && r.len <= |b|
    ensures r.Incomplete? ==> |b| <= 3
  {
    var w := Width(b[0]);
    if w == 1 then Char(b[0] as char, 1)
    else if w == 0 then Invalid(1)
    else if |b| == 1 then Incomplete
    else if !Second(b[0], b[1]) then Invalid(1)
    else if w == 2 then Char(Code2(b[0], b[1]) as char, 2)
    else if |b| == 2 then Incomplete
    else if !Tail(b[2]) then Invalid(2)
    else if w == 3 then Char(Code3(b[0], b[1], b[2]) as char, 3)
    else if |b| == 3 then Incomplete
    else if !Tail(b[3]) then Invalid(3)
    else Char(Code4(b[0], b[1], b[2], b[3]) as char, 4)
  }

  lemma Split3(n: int)
    requires 0 <= n
    ensures var a, b, c := n / 4096, n / 64 % 64, n % 64;
      n == a * 4096 + b * 64 + c && 0 <= b < 64 && 0 <= c < 64 && n / 64 == a * 64 + b
  {
  }

  lemma Split4(n: int)
    requires 0 <= n
    ensures var a, b, c, d := n / 262144, n / 4096 % 64, n / 64 % 64, n % 64;
      n == a * 262144 + b * 4096 + c * 64 + d && 0 <= b < 64 && 0 <= c < 64 && 0 <= d < 64
  {
    Split3(n / 64);
  }

  lemma FirstOf3(c: char, rest: seq<byte>)
    requires 0x800 <= c as int < 0x10000
    ensures First(EncodeChar(c) + rest) == Char(c, 3)
  {
    var n := c as int;
    Split3(n);
    var e := EncodeChar(c) + rest;
    assert e[0] == 0xE0 + n / 4096 && e[1] == 0x80 + n / 64 % 64 && e[2] == 0x80 + n % 64;
    assert Code3(e[0], e[1], e[2]) == n;
  }

  lemma FirstOf4(c: char, rest: seq<byte>)
    requires 0x10000 <= c as int
    ensures First(EncodeChar(c) + rest) == Char(c, 4)
  {
    var n := c as int;
    Split4(n);
    var e := EncodeChar(c) + rest;
    assert e[0] == 0xF0 + n / 262144 && e[1] == 0x80 + n / 4096 % 64 && e[2] == 0x80 + n / 64 % 64
      && e[3] == 0x80 + n % 64;
    assert Code4(e[0], e[1], e[2], e[3]) == n;
  }

  /** An encoded character is read back, whatever follows it. */
  lemma FirstOfEncoded(c: char, rest: seq<byte>)
    ensures First(EncodeChar(c) + rest) == Char(c, |EncodeChar(c)|)
  {
    hide First;
    var n := c as int;
    if n < 0x800 {
      FirstOf2(c, rest);
    } else if n < 0x10000 {
      FirstOf3(c, rest);
    } else {
      FirstOf4(c, rest);
    }
  }

  lemma FirstOf2(c: char, rest: seq<byte>)
    requires c as int < 0x800
    ensures First(EncodeChar(c) + rest) == Char(c, |EncodeChar(c)|)
  {
    var n := c as int;
    var e := EncodeChar(c) + rest;
    if n >= 0x80 {
      assert e[0] == 0xC0 + n / 64 && e[1] == 0x80 + n % 64;
      assert Code2(e[0], e[1]) == n;
    }
  }

  lemma Join3(a: int, b: int, c: int)
    requires 0 <= a && 0 <= b < 64 && 0 <= c < 64
    ensures var n := a * 4096 + b * 64 + c; n / 4096 == a && n / 64 % 64 == b && n % 64 == c
  {
    var n := a * 4096 + b * 64 + c;
    assert n / 64 == a * 64 + b;
  }

  lemma Join4(a: int, b: int, c: int, d: int)
    requires 0 <= a && 0 <= b < 64 && 0 <= c < 64 && 0 <= d < 64
    ensures var n := a * 262144 + b * 4096 + c * 64 + d;
      n / 262144 == a && n / 4096 % 64 == b && n / 64 % 64 == c && n % 64 == d
  {
    var n := a * 262144 + b * 4096 + c * 64 + d;
    assert n / 64 == a * 4096 + b * 64 + c;
    Join3(a, b, c);
    assert n / 4096 == n / 64 / 64;
    assert n / 262144 == n / 64 / 4096;
  }

  /** And what is read as a character is that character encoded. */
  lemma EncodedFirst(b: seq<byte>)
    requires b != [] && First(b).Char?
    ensures EncodeChar(First(b).c) == b[..First(b).len]
  {
    var w := Width(b[0]);
    var n := First(b).c as int;
    if w == 2 {
      assert n == Code2(b[0], b[1]);
    } else if w == 3 {
      Join3(b[0] - 0xE0, b[1] - 0x80, b[2] - 0x80);
    } else if w == 4 {
      Join4(b[0] - 0xF0, b[1] - 0x80, b[2] - 0x80, b[3] - 0x80);
    }
  }

  /** Something incomplete is a proper prefix of some character. */
  lemma IncompleteIsPrefix(b: seq<byte>) returns (c: char)
    requires b != [] && First(b).Incomplete?
    ensures |b| < |EncodeChar(c)| && b == EncodeChar(c)[..|b|]
  {
    var w := Width(b[0]);
    var second := if |b| > 1 then b[1] else if b[0] == 0xE0 then 0xA0 else if b[0] == 0xF0 then 0x90 else 0x80;
    var third := if |b| > 2 then b[2] else 0x80;
    var whole := if w == 2 then [b[0], second] else if w == 3 then [b[0], second, third]
      else [b[0], second, third, 0x80];
    assert First(whole).Char?;
    EncodedFirst(whole);
    c := First(whole).c;
    assert whole[..|whole|] == whole;
  }

  /** What follows a whole character or an invalid one does not change it. */
  lemma FirstIsLocal(b: seq<byte>, more: seq<byte>)
    requires b != [] && !First(b).Incomplete?
    ensures First(b + more) == First(b)
  {
  }

  /** Some character's encoding begins with these bytes. */
  ghost predicate Begins(p: seq<byte>) {
    exists c :: p <= EncodeChar(c)
  }

  lemma InvalidNeverBegins(p: seq<byte>)
    requires p != [] && First(p).Invalid?
    ensures !Begins(p)
  {
    hide First;
    forall c | p <= EncodeChar(c)
      ensures false
    {
      FirstIsLocal(p, EncodeChar(c)[|p|..]);
      assert p + EncodeChar(c)[|p|..] == EncodeChar(c) + [];
      FirstOfEncoded(c, []);
    }
  }

  lemma InvalidCut(b: seq<byte>)
    requires b != [] && First(b).Invalid?
    ensures var n := First(b).len;
      if n < |b| && First(b[..n]).Incomplete? then First(b[..n + 1]).Invalid? else n == 1 && First(b[..1]).Invalid?
  {
  }

  /**
   What is replaced by one character is a maximal subpart, as section 3.9 of the
   Unicode Standard recommends: the longest beginning of the bytes that begins some
   character, or one byte when none does.
   */
  lemma InvalidIsMaximal(b: seq<byte>)
    requires b != [] && First(b).Invalid?
    ensures var n := First(b).len;
      if Begins(b[..1]) then n < |b| && Begins(b[..n]) && !Begins(b[..n + 1]) else n == 1
  {
    hide First, EncodeChar;
    var n := First(b).len;
    InvalidCut(b);
    if n < |b| && First(b[..n]).Incomplete? {
      var c := IncompleteIsPrefix(b[..n]);
      assert b[..n] <= EncodeChar(c);
      assert b[..1] <= b[..n];
      InvalidNeverBegins(b[..n + 1]);
    } else {
      InvalidNeverBegins(b[..1]);
    }
  }

  // ------------------------------------------------------------------ whole texts

  /** How many bytes are valid before something is not; what stands there is incomplete, invalid, or nothing. */
  function ValidUpTo(b: seq<byte>): (n: nat)
    ensures n <= |b|
    ensures n < |b| ==> !First(b[n..]).Char?
  {
    if b == [] || !First(b).Char? then 0
    else
      var k := First(b).len;
      var n := ValidUpTo(b[k..]);
      assert b[k..][n..] == b[k + n..];
      k + n
  }

  predicate Valid(b: seq<byte>) {
    ValidUpTo(b) == |b|
  }

  /** Decoding that never fails: a replacement character for each maximal invalid or unfinished part. */
  function Lossy(b: seq<byte>): string {
    if b == [] then ""
    else
      match First(b)
      case Char(c, len) => [c] + Lossy(b[len..])
      case Incomplete => [REPLACEMENT]
      case Invalid(len) => [REPLACEMENT] + Lossy(b[len..])
  }

  /** Encoding yields valid bytes, which decode to the text. */
  lemma {:induction false} RoundTrip(s: string)
    ensures Valid(Encode(s)) && Lossy(Encode(s)) == s
  {
    hide First, EncodeChar;
    if s != "" {
      var e, rest := EncodeChar(s[0]), Encode(s[1..]);
      FirstOfEncoded(s[0], rest);
      assert (e + rest)[|e|..] == rest;
      RoundTrip(s[1..]);
    }
  }

  /** Only encodings are valid: decoding valid bytes and encoding again gives them back. */
  lemma {:induction false} ValidIsEncoded(b: seq<byte>)
    requires Valid(b)
    ensures Encode(Lossy(b)) == b
    decreases |b|
  {
    hide First, EncodeChar;
    if b != [] {
      var k := First(b).len;
      EncodedFirst(b);
      ValidIsEncoded(b[k..]);
      assert ([First(b).c] + Lossy(b[k..]))[1..] == Lossy(b[k..]);
      assert b[..k] + b[k..] == b;
    }
  }

  /** Valid bytes decode by themselves, whatever follows. */
  lemma OneMore(b: seq<byte>)
    requires b != [] && First(b).Char?
    ensures Lossy(b) == [First(b).c] + Lossy(b[First(b).len..])
      && ValidUpTo(b) == First(b).len + ValidUpTo(b[First(b).len..])
    ensures Valid(b) <==> Valid(b[First(b).len..])
  {
    hide First;
  }

  lemma ValidHead(b: seq<byte>)
    requires Valid(b) && b != []
    ensures First(b).Char?
  {
    hide First;
  }

  lemma NothingDecoded()
    ensures Lossy([]) == "" && ValidUpTo([]) == 0
  {
  }

  lemma {:induction false} ValidPrefix(a: seq<byte>, b: seq<byte>)
    requires Valid(a)
    ensures Lossy(a + b) == Lossy(a) + Lossy(b) && ValidUpTo(a + b) == |a| + ValidUpTo(b)
    decreases |a|
  {
    hide First, Lossy, ValidUpTo, Valid;
    if a == [] {
      NothingDecoded();
      assert a + b == b;
    } else {
      ValidHead(a);
      var k := First(a).len;
      FirstIsLocal(a, b);
      assert (a + b)[k..] == a[k..] + b;
      OneMore(a);
      OneMore(a + b);
      ValidPrefix(a[k..], b);
    }
  }

  lemma {:induction false} UpToIsValid(b: seq<byte>)
    ensures Valid(b[..ValidUpTo(b)])
    decreases |b|
  {
    hide First;
    if b != [] && First(b).Char? {
      var k := First(b).len;
      var n := ValidUpTo(b[k..]);
      UpToIsValid(b[k..]);
      var a := b[..k + n];
      FirstOfSlice(b, k + n);
      assert a[k..] == b[k..][..n];
    } else {
      assert b[..0] == [];
    }
  }

  lemma FirstOfSlice(b: seq<byte>, n: nat)
    requires b != [] && First(b).Char? && First(b).len <= n <= |b|
    ensures First(b[..n]) == First(b)
  {
  }
}
