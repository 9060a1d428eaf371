/** The kernel's integer printer and parser: itoa, its helper log, and strtoi. */
module NumberText {

  const INT_MAX: int := 0x7FFF_FFFF
  const ZERO: nat := 48

  // ---------------------------------------------------------------- positional notation

  lemma Products(q: int, base: int)
    requires base >= 2
    ensures q >= 1 ==> q * base >= base && q * base >= 2 * q
    ensures q <= -1 ==> q * base <= -base
  {
    if q >= 1 {
      assert q * base >= base;
    } else if q <= -1 {
      assert (-q) * base >= base;
    }
  }

  /** There is one quotient and one remainder. */
  lemma OneQuotient(base: int, q: int, r: int, v: int, d: int)
    requires base >= 2 && 0 <= r < base && 0 <= d < base && base * q + r == base * v + d
    ensures q == v && r == d
  {
    assert base * (q - v) == d - r;
    Products(q - v, base);
  }

  lemma QuotientBounds(n: nat, base: nat, q: int, r: int)
    requires base >= 2 && n == base * q + r && 0 <= r < base
    ensures 0 <= q <= n && (q == 0 <==> n < base) && (n > 0 ==> q < n)
  {
    assert base * q == q * base;
    Products(q, base);
  }

  lemma Quotient(n: nat, base: nat)
    requires base >= 2
    ensures 0 <= n / base <= n && 0 <= n % base < base
    ensures n == (n / base) * base + n % base
    ensures n / base == 0 <==> n < base
    ensures n > 0 ==> n / base < n
  {
    QuotientBounds(n, base, n / base, n % base);
  }

  /** The digits of n, most significant first. */
  function Digits(n: nat, base: nat): (ds: seq<nat>)
    requires base >= 2
    ensures |ds| >= 1
    ensures forall i :: 0 <= i < |ds| ==> ds[i] < base
  {
    if n < base then [n]
    else
      Quotient(n, base);
      Digits(n / base, base) + [n % base]
  }

  /** The number that reading digits ds after a number acc makes. */
  function ValueFrom(acc: nat, ds: seq<nat>, base: nat): nat
    decreases |ds|
  {
    if ds == [] then acc else ValueFrom(acc * base + ds[0], ds[1..], base)
  }

  function Value(ds: seq<nat>, base: nat): nat {
    ValueFrom(0, ds, base)
  }

  lemma {:induction false} ValueAppend(acc: nat, ds: seq<nat>, d: nat, base: nat)
    ensures ValueFrom(acc, ds + [d], base) == ValueFrom(acc, ds, base) * base + d
    decreases |ds|
  {
    if ds != [] {
      assert (ds + [d])[1..] == ds[1..] + [d];
      ValueAppend(acc * base + ds[0], ds[1..], d, base);
    }
  }

  lemma {:induction false} ValueGrows(acc: nat, ds: seq<nat>, base: nat)
    requires base >= 2
    ensures ValueFrom(acc, ds, base) >= acc
    decreases |ds|
  {
    if ds != [] {
      assert acc * base >= acc;
      ValueGrows(acc * base + ds[0], ds[1..], base);
    }
  }

  lemma ValueHead(ds: seq<nat>, base: nat)
    requires base >= 2 && ds != []
    ensures Value(ds, base) == ValueFrom(ds[0], ds[1..], base) >= ds[0]
    ensures |ds| == 1 ==> Value(ds, base) == ds[0]
  {
    assert 0 * base == 0;
    ValueGrows(ds[0], ds[1..], base);
  }

  /** Digits denote the number they were made from. */
  lemma {:induction false} DigitsDenote(n: nat, base: nat)
    requires base >= 2
    ensures Value(Digits(n, base), base) == n
  {
    if n < base {
      ValueHead([n], base);
    } else {
      Quotient(n, base);
      DigitsDenote(n / base, base);
      ValueAppend(0, Digits(n / base, base), n % base, base);
    }
  }

  /** There is no other way to write a number without a leading zero. */
  lemma {:induction false} DigitsUnique(ds: seq<nat>, base: nat)
    requires base >= 2 && ds != [] && (|ds| > 1 ==> ds[0] != 0)
    requires forall i :: 0 <= i < |ds| ==> ds[i] < base
    ensures Digits(Value(ds, base), base) == ds
    decreases |ds|
  {
    hide Digits, ValueFrom;
    var k := |ds| - 1;
    var front, last := ds[..k], ds[k];
    if k == 0 {
      ValueHead(ds, base);
      Quotient(last, base);
      DigitsStep(last, base);
    } else {
      assert front[0] == ds[0] && ds == front + [last];
      var v := Value(front, base);
      DigitsUnique(front, base);
      ValueHead(front, base);
      ValueAppend(0, front, last, base);
      Division(v, last, base);
      DigitsStep(v * base + last, base);
    }
  }

  lemma DigitsStep(n: nat, base: nat)
    requires base >= 2
    ensures n / base >= 0 && n % base >= 0
    ensures Digits(n, base) == if n / base == 0 then [n] else Digits(n / base, base) + [n % base]
  {
    Quotient(n, base);
  }

  lemma Division(v: nat, d: nat, base: nat)
    requires d < base && v >= 1 && base >= 2
    ensures var n := v * base + d; n / base == v && n % base == d && n >= base
  {
    var n := v * base + d;
    OneQuotient(base, n / base, n % base, v, d);
    Products(v, base);
  }

  // ---------------------------------------------------------------- itoa

  /** The character of a digit, as an 8-bit char; letters from 10 on, and beyond Z for digits above 35. */
  function Character(d: nat): char {
    if d > 9 then ((d - 10 + 'A' as nat) % 256) as char else (d + ZERO) as char
  }

  /** Up to base 36 a digit is printed as 0 to 9 or A to Z, and can be told from its character. */
  lemma CharacterIs(d: nat)
    requires d < 36
    ensures if d < 10 then '0' <= Character(d) <= '9' && d == Character(d) as int - 48
            else 'A' <= Character(d) <= 'Z' && d == Character(d) as int - 55
  {
  }

  function Text(ds: seq<nat>): seq<char> {
    seq(|ds|, i requires 0 <= i < |ds| => Character(ds[i]))
  }

  method Log(n: nat, base: nat) returns (count: nat)
    requires base >= 2
    ensures count == |Digits(n, base)|
  {
    count := 1;
    DigitsStep(n, base);
    Quotient(n, base);
    hide Digits;
    var m: nat := n / base;
    while m != 0
      invariant if m == 0 then count == |Digits(n, base)| else count + |Digits(m, base)| == |Digits(n, base)|
    {
      count := count + 1;
      DigitsStep(m, base);
      Quotient(m, base);
      m := m / base;
    }
  }

  /** Writes exactly the digits and the terminator, and nothing behind them. */
  method Itoa(n: nat, buffer: array<char>, base: nat) returns (len: nat)
    requires 2 <= base
    requires buffer.Length > |Digits(n, base)|
    modifies buffer
    ensures len == |Digits(n, base)|
    ensures buffer[..len] == Text(Digits(n, base)) && buffer[len] == '\0'
    ensures buffer[len + 1..] == old(buffer[len + 1..])
  {
    if n == 0 {
      buffer[0] := '0';
      buffer[1] := '\0';
      return 1;
    }
    ghost var ds := Digits(n, base);
    len := Log(n, base);
    hide Digits;
    var m: nat, i := n, 0;
    while m != 0
      invariant 0 <= i <= len == |ds|
      invariant if m == 0 then i == len else i < len && Digits(m, base) == ds[..len - i]
      invariant forall k :: len - i <= k < len ==> buffer[k] == Character(ds[k])
      invariant buffer[len + 1..] == old(buffer[len + 1..])
    {
      DigitsStep(m, base);
      Quotient(m, base);
      var r := m % base;
      assert Digits(m, base)[len - i - 1] == r;
      assert m >= base ==> Digits(m / base, base) == ds[..len - i][..len - i - 1];
      buffer[len - i - 1] := if r > 9 then ((r - 10 + 'A' as nat) % 256) as char else (r + ZERO) as char;
      i := i + 1;
      m := m / base;
    }
    buffer[i] := '\0';
  }

  // ---------------------------------------------------------------- strtoi

  /** What strtoi makes of a text: a number and the place after its last digit, or a signed 32-bit overflow. */
  datatype Parsed = Number(value: nat, end: nat) | Overflow

  predicate IsDigit(c: char) {
    '0' <= c <= '9'
  }

  /** One round of the loop: num * 10 + c, and then minus '0', each in a 32-bit int. */
  predicate Overflows(num: nat, c: char) {
    num * 10 > INT_MAX || num * 10 + c as int > INT_MAX
  }

  /** The loop from place i on with num read so far. */
  function ParseFrom(s: seq<char>, i: nat, num: nat): Parsed
    requires i <= |s|
    decreases |s| - i
  {
    if i == |s| || !IsDigit(s[i]) then Number(num, i)
    else if Overflows(num, s[i]) then Overflow
    else ParseFrom(s, i + 1, num * 10 + s[i] as int - ZERO)
  }

  function Parse(s: seq<char>): Parsed {
    ParseFrom(s, 0, 0)
  }

  /** strtoi on a text with a terminator. */
  method Strtoi(s: seq<char>) returns (p: Parsed)
    requires exists k :: 0 <= k < |s| && !IsDigit(s[k])
    ensures p == Parse(s)
    ensures p.Number? ==> p.end < |s| && !IsDigit(s[p.end]) && forall k :: 0 <= k < p.end ==> IsDigit(s[k])
  {
    ghost var stop :| 0 <= stop < |s| && !IsDigit(s[stop]);
    var num, i := 0, 0;
    while '0' <= s[i] <= '9'
      invariant 0 <= i <= stop && num >= 0
      invariant forall k :: 0 <= k < i ==> IsDigit(s[k])
      invariant ParseFrom(s, i, num) == Parse(s)
      decreases stop - i
    {
      if Overflows(num, s[i]) {
        return Overflow;
      }
      num := num * 10 + s[i] as int - ZERO;
      i := i + 1;
    }
    return Number(num, i);
  }

  lemma {:induction false} ParseDigits(s: seq<char>, i: nat, ds: seq<nat>, num: nat)
    requires i + |ds| < |s| && !IsDigit(s[i + |ds|])
    requires forall k :: 0 <= k < |ds| ==> ds[k] < 10 && s[i + k] == Character(ds[k])
    requires num <= INT_MAX - ZERO
    ensures var v := ValueFrom(num, ds, 10);
            ParseFrom(s, i, num) == if v <= INT_MAX - ZERO then Number(v, i + |ds|) else Overflow
    decreases |ds|
  {
    if ds != [] {
      var next := num * 10 + ds[0];
      ValueGrows(next, ds[1..], 10);
      assert s[i + 0] == Character(ds[0]);
      if next <= INT_MAX - ZERO {
        forall k | 0 <= k < |ds[1..]| ensures s[i + 1 + k] == Character(ds[1..][k]) {
          assert s[i + (k + 1)] == Character(ds[k + 1]);
        }
        ParseDigits(s, i + 1, ds[1..], next);
      }
    }
  }

  /**
   strtoi reads every string of decimal digits right, stopping at the first other character, exactly when the
   number is at most 2^31 - 49; for a larger one the intermediate num * 10 + c overflows.
   */
  lemma StrtoiExact(s: seq<char>, ds: seq<nat>)
    requires |ds| < |s| && !IsDigit(s[|ds|])
    requires forall k :: 0 <= k < |ds| ==> ds[k] < 10 && s[k] == Character(ds[k])
    ensures var v := Value(ds, 10);
            Parse(s) == if v <= 0x8000_0000 - 49 then Number(v, |ds|) else Overflow
  {
    ParseDigits(s, 0, ds, 0);
  }

  /** strtoi undoes itoa for every n up to 2^31 - 49, and overflows for every other n. */
  lemma RoundTrip(n: nat, rest: seq<char>)
    ensures var ds := Digits(n, 10);
            Parse(Text(ds) + ['\0'] + rest) == if n <= 0x8000_0000 - 49 then Number(n, |ds|) else Overflow
  {
    var ds := Digits(n, 10);
    var s := Text(ds) + ['\0'] + rest;
    DigitsDenote(n, 10);
    assert s[|ds|] == '\0';
    assert forall k :: 0 <= k < |ds| ==> s[k] == Text(ds)[k];
    StrtoiExact(s, ds);
  }
}
