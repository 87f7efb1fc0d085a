/** Exclusive or on natural numbers. */
module Bits {

  function Xor(a: nat, b: nat): nat
    decreases a + b
  {
    if a == 0 && b == 0 then 0 else (a % 2 + b % 2) % 2 + 2 * Xor(a / 2, b / 2)
  }

  function Pow2(n: nat): (p: nat)
    ensures p >= 1
  {
    if n == 0 then 1 else 2 * Pow2(n - 1)
  }

  lemma {:induction false} XorComm(a: nat, b: nat)
    ensures Xor(a, b) == Xor(b, a)
    decreases a + b
  {
    if a + b > 0 { XorComm(a / 2, b / 2); }
  }

  lemma {:induction false} XorZero(a: nat)
    ensures Xor(a, 0) == a && Xor(0, a) == a
  {
    if a > 0 { XorZero(a / 2); }
  }

  lemma {:induction false} XorSelf(a: nat)
    ensures Xor(a, a) == 0
  {
    if a > 0 { XorSelf(a / 2); }
  }

  lemma XorLow(a: nat, b: nat)
    ensures Xor(a, b) % 2 == (a % 2 + b % 2) % 2 && Xor(a, b) / 2 == Xor(a / 2, b / 2)
  {
    if a == 0 && b == 0 {
      assert Xor(a / 2, b / 2) == 0;
    } else {
      var low, high := (a % 2 + b % 2) % 2, Xor(a / 2, b / 2);
      assert Xor(a, b) == low + 2 * high;
      LowHigh(low, high);
    }
  }

  lemma LowHigh(low: nat, high: nat)
    requires low < 2
    ensures (low + 2 * high) % 2 == low && (low + 2 * high) / 2 == high
  {
  }

  lemma SameHalves(x: nat, y: nat)
    requires x % 2 == y % 2 && x / 2 == y / 2
    ensures x == y
  {
  }

  lemma LowAssoc(a: nat, b: nat, c: nat)
    ensures ((a % 2 + b % 2) % 2 + c % 2) % 2 == (a % 2 + (b % 2 + c % 2) % 2) % 2
  {
  }

  lemma {:induction false} XorAssoc(a: nat, b: nat, c: nat)
    ensures Xor(Xor(a, b), c) == Xor(a, Xor(b, c))
    decreases a + b + c
  {
    if a + b + c > 0 {
      XorAssoc(a / 2, b / 2, c / 2);
      XorLow(a, b);
      XorLow(b, c);
      XorLow(Xor(a, b), c);
      XorLow(a, Xor(b, c));
      LowAssoc(a, b, c);
      SameHalves(Xor(Xor(a, b), c), Xor(a, Xor(b, c)));
    }
  }

  lemma XorSwap(a: nat, b: nat, c: nat, d: nat)
    ensures Xor(Xor(a, b), Xor(c, d)) == Xor(Xor(a, c), Xor(b, d))
  {
    XorAssoc(Xor(a, b), c, d);
    XorAssoc(a, b, c);
    XorComm(b, c);
    XorAssoc(a, c, b);
    XorAssoc(Xor(a, c), b, d);
  }

  /** Equal numbers, and only they, cancel. */
  lemma XorCancels(a: nat, b: nat)
    ensures Xor(a, b) == 0 <==> a == b
  {
    XorSelf(a);
    if Xor(a, b) == 0 {
      XorAssoc(a, b, b);
      XorSelf(b);
      XorZero(a);
      XorZero(b);
    }
  }

  /** A number without its `n` low bits, and those bits. */
  function High(a: nat, n: nat): nat
    decreases n
  {
    if n == 0 then a else High(a / 2, n - 1)
  }

  function Low(a: nat, n: nat): nat
    decreases n
  {
    if n == 0 then 0 else a % 2 + 2 * Low(a / 2, n - 1)
  }

  lemma {:induction false} HighLow(a: nat, n: nat)
    ensures a == Low(a, n) + Pow2(n) * High(a, n) && Low(a, n) < Pow2(n)
    decreases n
  {
    if n > 0 {
      HighLow(a / 2, n - 1);
      MulTwo(High(a, n), Pow2(n - 1));
      MulComm(High(a, n), Pow2(n - 1));
      MulComm(High(a, n), Pow2(n));
    }
  }

  /** High and low parts are combined separately. */
  lemma {:induction false} XorParts(a: nat, b: nat, n: nat)
    ensures High(Xor(a, b), n) == Xor(High(a, n), High(b, n))
    ensures Low(Xor(a, b), n) == Xor(Low(a, n), Low(b, n))
    decreases n
  {
    if n == 0 {
      assert Xor(0, 0) == 0;
    } else {
      XorParts(a / 2, b / 2, n - 1);
      XorLow(a, b);
      XorDigits(a % 2, b % 2, Low(a / 2, n - 1), Low(b / 2, n - 1));
    }
  }

  lemma XorDigits(x: nat, y: nat, h: nat, k: nat)
    requires x < 2 && y < 2
    ensures Xor(x + 2 * h, y + 2 * k) == (x + y) % 2 + 2 * Xor(h, k)
  {
    LowHigh(x, h);
    LowHigh(y, k);
    XorLow(x + 2 * h, y + 2 * k);
  }

  /** Small numbers have no high part, and stay small. */
  lemma {:induction false} HighZero(a: nat, n: nat)
    ensures High(a, n) == 0 <==> a < Pow2(n)
    decreases n
  {
    if n > 0 { HighZero(a / 2, n - 1); }
  }

  lemma XorBound(a: nat, b: nat, n: nat)
    requires a < Pow2(n) && b < Pow2(n)
    ensures Xor(a, b) < Pow2(n)
  {
    XorParts(a, b, n);
    HighZero(a, n);
    HighZero(b, n);
    HighZero(Xor(a, b), n);
    assert Xor(0, 0) == 0;
  }

  lemma {:induction false} XorShift(a: nat, b: nat, n: nat)
    ensures Xor(a * Pow2(n), b * Pow2(n)) == Xor(a, b) * Pow2(n)
  {
    if n > 0 {
      var p := Pow2(n - 1);
      XorShift(a, b, n - 1);
      MulTwo(a, p);
      MulTwo(b, p);
      MulTwo(Xor(a, b), p);
      XorDouble(a * p, b * p);
    }
  }

  lemma MulComm(x: nat, y: nat)
    ensures x * y == y * x
  {
  }

  lemma MulTwo(x: nat, p: nat)
    ensures x * (2 * p) == 2 * (x * p)
  {
  }

  lemma XorDouble(a: nat, b: nat)
    ensures Xor(2 * a, 2 * b) == 2 * Xor(a, b)
  {
    if a == 0 && b == 0 {
      assert Xor(0, 0) == 0;
    } else {
      assert (2 * a) / 2 == a && (2 * b) / 2 == b;
    }
  }
}
