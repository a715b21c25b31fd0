/** Options, results and the text helpers every other module shares. */
module Prelude {

  datatype Option<+T> = None | Some(value: T)

  datatype Result<+T, +E> = Ok(value: T) | Err(error: E) {
    predicate IsFailure() {
      Err?
    }

    function PropagateFailure<U>(): Result<U, E>
      requires Err?
    {
      Err(error)
    }

    function Extract(): T
      requires Ok?
    {
      value
    }
  }

  function Min(a: int, b: int): int {
    if a < b then a else b
  }

  /** The texts of a list, end to end. */
  function Concat<T>(parts: seq<seq<T>>): seq<T> {
    if parts == [] then [] else parts[0] + Concat(parts[1..])
  }

  lemma ConcatAppend<T>(a: seq<seq<T>>, b: seq<seq<T>>)
    ensures Concat(a + b) == Concat(a) + Concat(b)
  {
    if a == [] {
      assert a + b == b;
    } else {
      assert (a + b)[1..] == a[1..] + b;
      ConcatAppend(a[1..], b);
    }
  }

  /** `parts` with `sep` between neighbours. */
  function Join(parts: seq<string>, sep: string): string {
    if parts == [] then ""
    else if |parts| == 1 then parts[0]
    else parts[0] + sep + Join(parts[1..], sep)
  }

  function Map<A, B>(f: A -> B, xs: seq<A>): (r: seq<B>)
    ensures |r| == |xs|
    ensures forall i :: 0 <= i < |xs| ==> r[i] == f(xs[i])
  {
    if xs == [] then [] else [f(xs[0])] + Map(f, xs[1..])
  }

  /** ASCII case folding; other characters are left alone. */
  function LowerChar(c: char): char {
    if 'A' <= c <= 'Z' then ((c as int) + 32) as char else c
  }

  function UpperChar(c: char): char {
    if 'a' <= c <= 'z' then ((c as int) - 32) as char else c
  }

  function Lower(s: string): (r: string)
    ensures |r| == |s|
  {
    if s == "" then "" else [LowerChar(s[0])] + Lower(s[1..])
  }

  function Upper(s: string): (r: string)
    ensures |r| == |s|
  {
    if s == "" then "" else [UpperChar(s[0])] + Upper(s[1..])
  }

  /** Unicode's White_Space property, which is what trimming removes. */
  predicate IsTrimSpace(c: char) {
    var n := c as int;
    || 0x09 <= n <= 0x0D || n == 0x20 || n == 0x85 || n == 0xA0 || n == 0x1680
    || 0x2000 <= n <= 0x200A || n == 0x2028 || n == 0x2029 || n == 0x202F || n == 0x205F || n == 0x3000
  }

  /** How many leading characters trimming removes. */
  function LeadSpace(s: string): (n: nat)
    ensures n <= |s|
    ensures forall i :: 0 <= i < n ==> IsTrimSpace(s[i])
    ensures n < |s| ==> !IsTrimSpace(s[n])
  {
    if s == "" || !IsTrimSpace(s[0]) then 0 else 1 + LeadSpace(s[1..])
  }

  function TrimStart(s: string): string {
    s[LeadSpace(s)..]
  }

  /** How long the text is once its trailing white space is gone. */
  function SolidLen(s: string): (n: nat)
    ensures n <= |s|
    ensures forall i :: n <= i < |s| ==> IsTrimSpace(s[i])
    ensures n > 0 ==> !IsTrimSpace(s[n - 1])
  {
    if s == "" || !IsTrimSpace(s[|s| - 1]) then |s| else SolidLen(s[..|s| - 1])
  }

  function TrimEnd(s: string): string {
    s[..SolidLen(s)]
  }

  function Trim(s: string): string {
    TrimEnd(TrimStart(s))
  }

  predicate IsBlank(s: string) {
    Trim(s) == ""
  }

  /** The offset of the first occurrence of `pat`. */
  function Find(s: string, pat: string): (r: Option<nat>)
    ensures r.Some? ==> r.value + |pat| <= |s| && pat <= s[r.value..]
    ensures r.Some? ==> forall j :: 0 <= j < r.value ==> !(pat <= s[j..])
    ensures r.None? ==> forall j :: 0 <= j <= |s| ==> !(pat <= s[j..])
  {
    if pat <= s then Some(0)
    else if s == "" then None
    else
      var rest := Find(s[1..], pat);
      assert forall j :: 1 <= j <= |s| ==> s[j..] == s[1..][j - 1..];
      if rest.Some? then Some(rest.value + 1) else None
  }

  /** The elements of `ys` are those of `xs` at the positions `at`, in order. */
  ghost predicate Picked<T>(xs: seq<T>, ys: seq<T>, at: seq<nat>) {
    && |at| == |ys| && (forall i :: 0 <= i < |at| ==> at[i] < |xs| && ys[i] == xs[at[i]])
    && forall i, j :: 0 <= i < j < |at| ==> at[i] < at[j]
  }

  /** Positions in the tail of a list, as positions in the list. */
  predicate Shifted(at: seq<nat>, up: seq<nat>) {
    |up| == |at| && forall i :: 0 <= i < |at| ==> up[i] == at[i] + 1
  }

  lemma ShiftedIn(at: seq<nat>, up: seq<nat>, k: nat)
    requires Shifted(at, up)
    ensures k + 1 in up <==> k in at
    ensures 0 !in up
  {
    if k in at {
      var i :| 0 <= i < |at| && at[i] == k;
      assert up[i] == k + 1;
    }
  }

  lemma PickedCons<T>(xs: seq<T>, ys: seq<T>, at: seq<nat>, up: seq<nat>, first: bool)
    requires xs != [] && Picked(xs[1..], ys, at) && Shifted(at, up)
    ensures Picked(xs, (if first then [xs[0]] else []) + ys, (if first then [0] else []) + up)
  {
  }

  lemma SliceSlice<T>(s: seq<T>, a: nat, b: nat, c: nat, d: nat)
    requires a <= b <= |s| && c <= d <= b - a
    ensures s[a..b][c..d] == s[a + c..a + d]
  {
    var l, r := s[a..b][c..d], s[a + c..a + d];
    forall i | 0 <= i < d - c
      ensures l[i] == r[i]
    {
    }
  }
}
