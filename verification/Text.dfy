/** Blank text, joined lines and decimal numerals, as the Go library functions the invoker uses define them. */
module Text {
  /** unicode.IsSpace. */
  predicate IsSpace(c: char) {
    || '\t' <= c <= '\r' || c == ' ' || c == '\U{0085}' || c == '\U{00A0}' || c == '\U{1680}'
    || '\U{2000}' <= c <= '\U{200A}' || c == '\U{2028}' || c == '\U{2029}' || c == '\U{202F}'
    || c == '\U{205F}' || c == '\U{3000}'
  }

  /** strings.TrimSpace(s) == "". */
  predicate Blank(s: string) {
    forall c :: c in s ==> IsSpace(c)
  }

  /** strings.Join(xs, "\n"). */
  function JoinedLines(xs: seq<string>): string {
    if xs == [] then "" else if |xs| == 1 then xs[0] else xs[0] + "\n" + JoinedLines(xs[1..])
  }

  // ----------------------------------------------------------------- numerals

  function Digit(d: nat): char
    requires d < 10
  {
    '0' + d as char
  }

  /** The decimal numeral of n. */
  function Decimal(n: nat): (s: string)
    ensures s != ""
  {
    if n < 10 then [Digit(n)] else Decimal(n / 10) + [Digit(n % 10)]
  }

  /** The number a string of digits denotes. */
  function ValueOf(s: string): int {
    if s == "" then 0 else 10 * ValueOf(s[..|s| - 1]) + (s[|s| - 1] as int - '0' as int)
  }

  /** Reading a numeral back gives the number, so numerals of different numbers differ. */
  lemma {:induction false} DecimalReadsBack(n: nat)
    ensures ValueOf(Decimal(n)) == n
  {
    if n < 10 {
      assert Decimal(n)[..0] == "";
    } else {
      DecimalReadsBack(n / 10);
      assert Decimal(n)[..|Decimal(n)| - 1] == Decimal(n / 10);
    }
  }

  function Pow10(k: nat): nat {
    if k == 0 then 1 else 10 * Pow10(k - 1)
  }

  /** itoa: digits are written into a 20-byte buffer from its end; n is a non-negative 64-bit int. */
  method Itoa(n: int) returns (s: string)
    requires 0 <= n < 0x8000_0000_0000_0000
    ensures s == Decimal(n)
  {
    if n == 0 {
      return "0";
    }
    var b := new char[20];
    var i := b.Length;
    var left := n;
    PowersOf10();
    while left > 0
      invariant 0 <= left
      invariant 0 <= i <= 20
      invariant left < Pow10(i) && (i == 20 ==> left == n)
      invariant left == 0 ==> i < 20
      invariant Decimal(n) == if left == 0 then b[i..] else Decimal(left) + b[i..]
    {
      i := i - 1;
      b[i] := Digit(left % 10);
      left := left / 10;
    }
    s := b[i..];
  }

  lemma PowersOf10()
    ensures Pow10(20) >= 0x8000_0000_0000_0000
  {
    assert Pow10(5) == 100000;
    assert Pow10(10) == 10000000000;
    assert Pow10(15) == 1000000000000000;
  }
}
