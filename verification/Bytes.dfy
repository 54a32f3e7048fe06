/** Bytes, their bits, and big-endian 16-bit numbers. */
module Bytes {
  type byte = x: int | 0 <= x < 256

  type word = x: int | 0 <= x < 65536

  function Power(n: nat): (r: nat)
    ensures r >= 1
  {
    if n == 0 then 1 else 2 * Power(n - 1)
  }

  /** b & (1 << k) != 0 */
  predicate Bit(b: nat, k: nat) {
    if k == 0 then b % 2 == 1 else Bit(b / 2, k - 1)
  }

  /** b | (1 << k) */
  function SetBit(b: nat, k: nat): nat {
    if k == 0 then (if b % 2 == 1 then b else b + 1) else 2 * SetBit(b / 2, k - 1) + b % 2
  }

  lemma HalfInRange(b: nat, n: nat)
    requires n > 0 && b < Power(n)
    ensures b / 2 < Power(n - 1) && Power(n) == 2 * Power(n - 1) && b == 2 * (b / 2) + b % 2
  {
  }

  lemma {:induction false} SetBitInRange(b: nat, k: nat, n: nat)
    requires k < n && b < Power(n)
    ensures SetBit(b, k) < Power(n)
    decreases k
  {
    HalfInRange(b, n);
    var half := Power(n - 1);
    if k > 0 {
      SetBitInRange(b / 2, k - 1, n - 1);
      var s := SetBit(b / 2, k - 1);
      assert SetBit(b, k) == 2 * s + b % 2 && s < half;
    } else {
      assert SetBit(b, k) <= 2 * (b / 2) + 1;
    }
  }

  lemma PowerEight()
    ensures Power(8) == 256
  {
    assert Power(2) == 4;
    assert Power(4) == 16;
    assert Power(6) == 64;
  }

  /** Numbers below 2^n with the same n bits are equal. */
  lemma {:induction false} BitsDetermine(a: nat, b: nat, n: nat)
    requires a < Power(n) && b < Power(n) && forall k :: 0 <= k < n ==> Bit(a, k) == Bit(b, k)
    ensures a == b
    decreases n
  {
    if n > 0 {
      assert Bit(a, 0) == Bit(b, 0);
      forall k | 0 <= k < n - 1 ensures Bit(a / 2, k) == Bit(b / 2, k) { assert Bit(a, k + 1) == Bit(b, k + 1); }
      HalfInRange(a, n);
      HalfInRange(b, n);
      BitsDetermine(a / 2, b / 2, n - 1);
    }
  }

  function Hi(n: word): byte { n / 256 }

  function Lo(n: word): byte { n % 256 }

  function Word(h: byte, l: byte): word { 256 * h + l }
}
