// The arithmetic of hashtable.h: the bitwise and that picks a chain, and the
// constructor's choice of a table size.
module Masks {
  import opened Counting
  import opened Powers

  // The bitwise and.
  function And(a: nat, b: nat): (r: nat)
    ensures r <= a && r <= b
    decreases a
  {
    if a == 0 || b == 0 then 0 else 2 * And(a / 2, b / 2) + (if a % 2 == 1 && b % 2 == 1 then 1 else 0)
  }

  predicate PowerOfTwo(n: nat)
  {
    n == 1 || (n > 0 && n % 2 == 0 && PowerOfTwo(n / 2))
  }

  lemma {:induction false} AndSelf(a: nat)
    ensures And(a, a) == a
    decreases a
  {
    if a > 0 { AndSelf(a / 2); }
  }

  // What the constructor tests: n & (n - 1).
  lemma {:induction false} PowerOfTwoTest(n: nat)
    requires n > 0
    ensures And(n - 1, n) == 0 <==> PowerOfTwo(n)
    decreases n
  {
    if n > 1 {
      if n % 2 == 0 {
        assert (n - 1) / 2 == n / 2 - 1;
        PowerOfTwoTest(n / 2);
      } else {
        assert (n - 1) / 2 == n / 2;
        AndSelf(n / 2);
      }
    }
  }

  // Masking with a power of two less one is taking the remainder.
  lemma {:induction false} MaskIsModulo(a: nat, n: nat)
    requires PowerOfTwo(n)
    ensures And(a, n - 1) == a % n < n
    decreases n
  {
    if n == 1 {
      assert a % 1 == 0;
    } else {
      assert (n - 1) / 2 == n / 2 - 1;
      MaskIsModulo(a / 2, n / 2);
      Halves(a, n / 2);
    }
  }

  lemma Halves(a: nat, h: nat)
    requires h > 0
    ensures a % (2 * h) == 2 * ((a / 2) % h) + a % 2
  {
    var q, r := (a / 2) / h, (a / 2) % h;
    assert a == 2 * (q * h + r) + a % 2;
    assert a == q * (2 * h) + (2 * r + a % 2);
    Remainder(a, 2 * h, q, 2 * r + a % 2);
  }

  lemma Remainder(a: int, d: int, q: int, r: int)
    requires d > 0 && a == q * d + r && 0 <= r < d
    ensures a % d == r
  {
    var k := a / d - q;
    assert a == (a / d) * d + a % d;
    assert k * d == r - a % d;
    if k > 0 { Times(k, d); }
    if k < 0 { Times(-k, d); }
  }

  lemma Times(k: int, d: int)
    requires k > 0 && d > 0
    ensures k * d >= d
  {}

  function Bits(n: nat): nat
  {
    if n == 0 then 0 else 1 + Bits(n / 2)
  }

  lemma {:induction false} Pow2IsPower(n: nat)
    ensures PowerOfTwo(Pow2(n))
  {
    if n > 0 { Pow2IsPower(n - 1); }
  }

  lemma {:induction false} BitsBound(n: nat)
    ensures n < Pow2(Bits(n)) && (n > 0 ==> Pow2(Bits(n)) <= 2 * n)
    decreases n
  {
    if n > 0 { BitsBound(n / 2); }
  }

  lemma {:induction false} NoPowerBetween(p: nat, q: nat)
    requires PowerOfTwo(p) && PowerOfTwo(q) && p < q
    ensures 2 * p <= q
    decreases q
  {
    if p > 1 { NoPowerBetween(p / 2, q / 2); }
  }

  // The signed shift of the loop that looks for the next power of two.
  function Shifted(n: int, times: nat): int
    decreases times
  {
    if times == 0 then n else Shifted(n / 2, times - 1)
  }

  lemma {:induction false} NegativeNeverShiftsOut(n: int, times: nat)
    requires n < 0
    ensures Shifted(n, times) < 0
    decreases times
  {
    if times > 0 { NegativeNeverShiftsOut(n / 2, times - 1); }
  }

  lemma {:induction false} ShiftsOut(n: nat)
    ensures Shifted(n, Bits(n)) == 0
    decreases n
  {
    if n > 0 { ShiftsOut(n / 2); }
  }

  // A size as the source's 32 bits, and the test of it.
  function Unsigned(n: int): (u: nat)
    requires -0x8000_0000 <= n < 0x8000_0000
  {
    if n < 0 then n + 0x1_0000_0000 else n
  }

  function FirstMask(u: nat): nat
  {
    if u == 0 then 0xFFFF_FFFF else u - 1
  }

  // The call never returns: the loop is entered, and no number of shifts gets
  // to zero.
  ghost predicate NeverReturns(n: int)
    requires -0x8000_0000 <= n < 0x8000_0000
  {
    And(FirstMask(Unsigned(n)), Unsigned(n)) != 0 && forall times: nat :: Shifted(n, times) != 0
  }

  lemma HighBit()
    ensures PowerOfTwo(0x8000_0000)
  {
    Pow2Values();
    Pow2IsPower(31);
  }

  // A negative size passes the test only if it is the least.
  lemma NegativeTest(n: int)
    requires -0x8000_0000 <= n < 0
    ensures And(FirstMask(Unsigned(n)), Unsigned(n)) == 0 <==> n == -0x8000_0000
  {
    var u := Unsigned(n);
    HighBit();
    PowerOfTwoTest(u);
    if PowerOfTwo(u) && n > -0x8000_0000 { NoPowerBetween(0x8000_0000, u); }
    hide And, PowerOfTwo;
  }

  // So exactly the negative sizes other than the least never get a table.
  lemma NeverReturnsExactly(n: int)
    requires -0x8000_0000 <= n < 0x8000_0000
    ensures NeverReturns(n) <==> -0x8000_0000 < n < 0
  {
    if n >= 0 {
      ShiftsOut(n);
    } else {
      NegativeTest(n);
      forall times: nat ensures Shifted(n, times) != 0 { NegativeNeverShiftsOut(n, times); }
    }
    hide And, Shifted;
  }

  // The constructor's choice of size and mask, for every size of 32 bits; None
  // for the calls that never return.
  method ChooseSize(n: int) returns (chosen: Option<(nat, nat)>)
    requires -0x8000_0000 <= n < 0x8000_0000
    ensures chosen.None? <==> NeverReturns(n)
    ensures n > 0 ==> chosen.Some? && PowerOfTwo(chosen.value.0) && chosen.value.1 == chosen.value.0 - 1
    ensures n > 0 ==> n <= chosen.value.0 && forall p: nat :: PowerOfTwo(p) && n <= p ==> chosen.value.0 <= p
    ensures n == 0 ==> chosen == Some((0, 0xFFFF_FFFF))
    ensures n == -0x8000_0000 ==> chosen == Some((0x8000_0000, 0x7FFF_FFFF))
  {
    NeverReturnsExactly(n);
    var size := Unsigned(n);
    var mask := FirstMask(size);
    if n > 0 { PowerOfTwoTest(n); }
    if n < 0 { NegativeTest(n); }
    hide NeverReturns;
    if And(mask, size) != 0 {
      if n < 0 { return None; }
      var cnt := CountBits(n);
      size := Pow2(cnt);
      mask := size - 1;
      BitsBound(n);
      Pow2IsPower(cnt);
    }
    if n > 0 {
      forall p: nat | PowerOfTwo(p) && n <= p ensures size <= p {
        if p < size { NoPowerBetween(p, size); }
      }
    }
    chosen := Some((size, mask));
  }

  // The loop itself.
  method CountBits(n: nat) returns (cnt: nat)
    ensures cnt == Bits(n)
  {
    var tmp := n;
    cnt := 0;
    while tmp != 0
      invariant cnt + Bits(tmp) == Bits(n)
    {
      tmp, cnt := tmp / 2, cnt + 1;
    }
  }
}
