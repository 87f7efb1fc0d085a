/** Byte strings, script numbers and script booleans.

    Script numbers are little-endian, sign-and-magnitude and minimally encoded;
    every number a Miniscript script handles is non-negative, so only that half
    of the encoder is needed, while the decoder reads both signs.
 */
module Bytes {

  type Byte = b: int | 0 <= b < 256

  type Bytes = seq<Byte>

  datatype Option<+T> = None | Some(value: T)

  /** The last element first. */
  function Backwards<T>(s: seq<T>): seq<T> {
    seq(|s|, i requires 0 <= i < |s| => s[|s| - 1 - i])
  }

  lemma Assoc<T>(a: seq<T>, b: seq<T>, c: seq<T>)
    ensures (a + b) + c == a + (b + c)
  {
  }

  const TRUE_BYTES: Bytes := [1]
  const FALSE_BYTES: Bytes := []

  /** Operands of script arithmetic are at most this long. */
  const MAX_NUM_SIZE := 4

  /** Numbers below this bound encode into MAX_NUM_SIZE bytes. */
  const NUM_LIMIT := 0x8000_0000

  function BoolBytes(b: bool): Bytes {
    if b then TRUE_BYTES else FALSE_BYTES
  }

  /** Little-endian base-256 digits without trailing zeroes. */
  function Digits(n: nat): Bytes {
    if n == 0 then [] else [n % 256] + Digits(n / 256)
  }

  function DigitsValue(b: Bytes): nat {
    if b == [] then 0 else b[0] + 256 * DigitsValue(b[1..])
  }

  function EncodeNum(n: nat): Bytes {
    var d := Digits(n);
    if d != [] && d[|d| - 1] >= 128 then d + [0] else d
  }

  /** The value of a script number, or None when the operand is too long. */
  function DecodeNum(b: Bytes): Option<int> {
    if |b| > MAX_NUM_SIZE then None
    else if b == [] then Some(0)
    else
      var last := |b| - 1;
      if b[last] >= 128
      then Some(-(DigitsValue(b[last := b[last] - 128]) as int))
      else Some(DigitsValue(b))
  }

  /** The truth value of a stack element: anything but zero and negative zero. */
  predicate CastToBool(b: Bytes) {
    b != [] && ((b[0] != 0 && (|b| > 1 || b[0] != 128)) || CastToBool(b[1..]))
  }

  lemma {:induction false} DigitsRoundTrip(n: nat)
    ensures DigitsValue(Digits(n)) == n
    ensures n > 0 ==> Digits(n) != [] && Digits(n)[|Digits(n)| - 1] != 0
  {
    if n > 0 {
      DigitsRoundTrip(n / 256);
      assert Digits(n)[1..] == Digits(n / 256);
    }
  }

  lemma {:induction false} DigitsValueSnocZero(b: Bytes)
    ensures DigitsValue(b + [0]) == DigitsValue(b)
  {
    if b == [] {
      assert [0][1..] == [];
      assert DigitsValue([0]) == 0;
    } else {
      DigitsValueSnocZero(b[1..]);
      assert (b + [0])[1..] == b[1..] + [0];
    }
  }

  lemma DigitsLength(n: nat)
    requires n < NUM_LIMIT
    ensures |EncodeNum(n)| <= MAX_NUM_SIZE
  {
    var n1, n2, n3 := n / 256, n / 256 / 256, n / 256 / 256 / 256;
    assert n3 < 128;
    if n3 == 0 {
      assert Digits(n3) == [];
      if n2 == 0 {
        if n1 == 0 {
          if n > 0 { assert Digits(n) == [n % 256]; }
        } else {
          assert Digits(n1) == [n1 % 256];
          assert Digits(n) == [n % 256, n1 % 256];
        }
      } else {
        assert Digits(n2) == [n2 % 256];
        assert Digits(n1) == [n1 % 256, n2 % 256];
        assert Digits(n) == [n % 256, n1 % 256, n2 % 256];
      }
    } else {
      assert n3 / 256 == 0;
      assert Digits(n3) == [n3];
      assert Digits(n2) == [n2 % 256, n3];
      assert Digits(n1) == [n1 % 256, n2 % 256, n3];
      assert Digits(n) == [n % 256, n1 % 256, n2 % 256, n3];
    }
  }

  /** Every small number survives the encoding, so encodings are unambiguous. */
  lemma NumRoundTrip(n: nat)
    requires n < NUM_LIMIT
    ensures DecodeNum(EncodeNum(n)) == Some(n)
  {
    DigitsRoundTrip(n);
    DigitsLength(n);
    DigitsValueSnocZero(Digits(n));
  }

  lemma NumInjective(m: nat, n: nat)
    ensures EncodeNum(m) == EncodeNum(n) <==> m == n
  {
    DigitsRoundTrip(m);
    DigitsRoundTrip(n);
    DigitsValueSnocZero(Digits(m));
    DigitsValueSnocZero(Digits(n));
  }

  lemma {:induction false} CastToBoolLast(b: Bytes)
    requires b != [] && b[|b| - 1] != 0 && b[|b| - 1] != 128
    ensures CastToBool(b)
  {
    if |b| > 1 {
      CastToBoolLast(b[1..]);
    }
  }

  lemma {:induction false} CastToBoolPadded(b: Bytes)
    requires b != [] && b[|b| - 1] != 0
    ensures CastToBool(b + [0])
  {
    if |b| > 1 {
      CastToBoolPadded(b[1..]);
      assert (b + [0])[1..] == b[1..] + [0];
    } else {
      assert (b + [0])[0] == b[0];
    }
  }

  /** A script number is true exactly when it is not zero. */
  lemma NumTruth(n: nat)
    ensures CastToBool(EncodeNum(n)) <==> n != 0
  {
    if n > 0 {
      DigitsRoundTrip(n);
      var d := Digits(n);
      if d[|d| - 1] >= 128 {
        CastToBoolPadded(d);
      } else {
        CastToBoolLast(d);
      }
    }
  }

  lemma OneAndZero()
    ensures EncodeNum(1) == TRUE_BYTES && EncodeNum(0) == FALSE_BYTES
    ensures CastToBool(TRUE_BYTES) && !CastToBool(FALSE_BYTES)
    ensures DecodeNum(TRUE_BYTES) == Some(1) && DecodeNum(FALSE_BYTES) == Some(0)
  {
    assert Digits(1) == [1] + Digits(0);
    assert DigitsValue(TRUE_BYTES) == 1 + 256 * DigitsValue(TRUE_BYTES[1..]);
  }
}
