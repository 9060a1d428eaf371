/** Powers of two and fixed-width integers, shared by the kernel models. */
module Words {

  const TWO_64: int := 0x1_0000_0000_0000_0000

  function Pow2(n: nat): (r: nat)
    ensures r >= 1
  {
    if n == 0 then 1 else 2 * Pow2(n - 1)
  }

  /** The value of an unsigned 64-bit variable after an arithmetic result x was stored in it. */
  function U64(x: int): (r: nat)
    ensures r < TWO_64
  {
    x % 0x1_0000_0000_0000_0000
  }

  /** The value of a signed 64-bit variable after an arithmetic result x was stored in it. */
  function S64(x: int): (r: int)
    ensures -(TWO_64 / 2) <= r < TWO_64 / 2
  {
    if U64(x) < 0x8000_0000_0000_0000 then U64(x) else U64(x) - TWO_64
  }

  lemma {:induction false} Pow2Monotone(a: nat, b: nat)
    requires a <= b
    ensures Pow2(a) <= Pow2(b)
    ensures a < b ==> 2 * Pow2(a) <= Pow2(b)
    decreases b
  {
    if a < b {
      Pow2Monotone(a, b - 1);
    }
  }

  lemma Pow2Order(a: nat, b: nat)
    ensures a < b ==> 2 * Pow2(a) <= Pow2(b)
    ensures b < a ==> 2 * Pow2(b) <= Pow2(a)
  {
    if a <= b {
      Pow2Monotone(a, b);
    } else {
      Pow2Monotone(b, a);
    }
  }

  lemma {:induction false} Pow2Add(a: nat, b: nat)
    ensures Pow2(a + b) == Pow2(a) * Pow2(b)
    decreases b
  {
    if b > 0 {
      Pow2Add(a, b - 1);
    }
  }
}
