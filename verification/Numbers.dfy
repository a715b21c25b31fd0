/** Numbers in decimal, written and read. */
module Numbers {
  import opened Prelude

  function Digit(n: nat): char
    requires n < 10
  {
    (n + 48) as char
  }

  function Number(n: nat): string {
    if n < 10 then [Digit(n)] else Number(n / 10) + [Digit(n % 10)]
  }

  /** What a digit stands for. */
  function ValueOf(c: char): Option<nat> {
    match c
    case '0' => Some(0)
    case '1' => Some(1)
    case '2' => Some(2)
    case '3' => Some(3)
    case '4' => Some(4)
    case '5' => Some(5)
    case '6' => Some(6)
    case '7' => Some(7)
    case '8' => Some(8)
    case '9' => Some(9)
    case _ => None
  }

  /** A number in decimal; `None` when something else is among the digits, or there are none. */
  function ReadNumber(s: string): Option<nat> {
    if s == "" then None
    else if |s| == 1 then ValueOf(s[0])
    else
      var high, low := ReadNumber(s[..|s| - 1]), ValueOf(s[|s| - 1]);
      if high.Some? && low.Some? then Some(10 * high.value + low.value) else None
  }

  lemma DigitReads(n: nat)
    requires n < 10
    ensures ValueOf(Digit(n)) == Some(n)
  {
    assert n in {0, 1, 2, 3, 4, 5, 6, 7, 8, 9};
  }

  lemma ReadMore(s: string, n: nat)
    requires s != "" && n < 10 && ReadNumber(s).Some?
    ensures ReadNumber(s + [Digit(n)]) == Some(10 * ReadNumber(s).value + n)
  {
    hide Digit, ValueOf;
    DigitReads(n);
    assert (s + [Digit(n)])[..|s|] == s;
  }

  lemma ReadOne(n: nat)
    requires n < 10
    ensures ReadNumber([Digit(n)]) == Some(n)
  {
    hide Digit, ValueOf;
    DigitReads(n);
  }

  lemma {:induction false} NumberReads(n: nat)
    ensures Number(n) != "" && ReadNumber(Number(n)) == Some(n)
    decreases n
  {
    hide Digit, ReadNumber;
    if n < 10 {
      ReadOne(n);
    } else {
      NumberReads(n / 10);
      ReadMore(Number(n / 10), n % 10);
    }
  }
}
