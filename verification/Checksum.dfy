/** The output script descriptor checksum of BIP 380. */
module Checksum {
  import opened Bits

  const CHECKSUM_LENGTH := 8

  /** The position of the printable character number `i`, counted from space to
      tilde: five low bits for the symbol, the rest for the class. */
  function CharMap(i: nat): nat {
    match i
    case 0 => 94 case 1 => 59 case 2 => 92 case 3 => 91 case 4 => 28 case 5 => 29 case 6 => 50 case 7 => 15
    case 8 => 10 case 9 => 11 case 10 => 17 case 11 => 51 case 12 => 14 case 13 => 52 case 14 => 53 case 15 => 16
    case 16 => 0 case 17 => 1 case 18 => 2 case 19 => 3 case 20 => 4 case 21 => 5 case 22 => 6 case 23 => 7
    case 24 => 8 case 25 => 9 case 26 => 27 case 27 => 54 case 28 => 55 case 29 => 56 case 30 => 57 case 31 => 58
    case 32 => 26 case 33 => 82 case 34 => 83 case 35 => 84 case 36 => 85 case 37 => 86 case 38 => 87 case 39 => 88
    case 40 => 89 case 41 => 32 case 42 => 33 case 43 => 34 case 44 => 35 case 45 => 36 case 46 => 37 case 47 => 38
    case 48 => 39 case 49 => 40 case 50 => 41 case 51 => 42 case 52 => 43 case 53 => 44 case 54 => 45 case 55 => 46
    case 56 => 47 case 57 => 48 case 58 => 49 case 59 => 12 case 60 => 93 case 61 => 13 case 62 => 60 case 63 => 61
    case 64 => 90 case 65 => 18 case 66 => 19 case 67 => 20 case 68 => 21 case 69 => 22 case 70 => 23 case 71 => 24
    case 72 => 25 case 73 => 64 case 74 => 65 case 75 => 66 case 76 => 67 case 77 => 68 case 78 => 69 case 79 => 70
    case 80 => 71 case 81 => 72 case 82 => 73 case 83 => 74 case 84 => 75 case 85 => 76 case 86 => 77 case 87 => 78
    case 88 => 79 case 89 => 80 case 90 => 81 case 91 => 30 case 92 => 62 case 93 => 31
    case _ => 63
  }

  /** The printable character at a position. */
  function CharAt(pos: nat): nat {
    match pos
    case 0 => 16 case 1 => 17 case 2 => 18 case 3 => 19 case 4 => 20 case 5 => 21 case 6 => 22 case 7 => 23
    case 8 => 24 case 9 => 25 case 10 => 8 case 11 => 9 case 12 => 59 case 13 => 61 case 14 => 12 case 15 => 7
    case 16 => 15 case 17 => 10 case 18 => 65 case 19 => 66 case 20 => 67 case 21 => 68 case 22 => 69 case 23 => 70
    case 24 => 71 case 25 => 72 case 26 => 32 case 27 => 26 case 28 => 4 case 29 => 5 case 30 => 91 case 31 => 93
    case 32 => 41 case 33 => 42 case 34 => 43 case 35 => 44 case 36 => 45 case 37 => 46 case 38 => 47 case 39 => 48
    case 40 => 49 case 41 => 50 case 42 => 51 case 43 => 52 case 44 => 53 case 45 => 54 case 46 => 55 case 47 => 56
    case 48 => 57 case 49 => 58 case 50 => 6 case 51 => 11 case 52 => 13 case 53 => 14 case 54 => 27 case 55 => 28
    case 56 => 29 case 57 => 30 case 58 => 31 case 59 => 1 case 60 => 62 case 61 => 63 case 62 => 92 case 63 => 94
    case 64 => 73 case 65 => 74 case 66 => 75 case 67 => 76 case 68 => 77 case 69 => 78 case 70 => 79 case 71 => 80
    case 72 => 81 case 73 => 82 case 74 => 83 case 75 => 84 case 76 => 85 case 77 => 86 case 78 => 87 case 79 => 88
    case 80 => 89 case 81 => 90 case 82 => 33 case 83 => 34 case 84 => 35 case 85 => 36 case 86 => 37 case 87 => 38
    case 88 => 39 case 89 => 40 case 90 => 64 case 91 => 3 case 92 => 2 case 93 => 60
    case _ => 0
  }

  lemma CharMapLow(i: nat)
    requires i < 24
    ensures CharMap(i) < 95 && CharAt(CharMap(i)) == i
  {
  }

  lemma CharMapMiddle(i: nat)
    requires 24 <= i < 60
    ensures CharMap(i) < 95 && CharAt(CharMap(i)) == i
  {
  }

  lemma CharMapHigh(i: nat)
    requires 60 <= i < 95
    ensures CharMap(i) < 95 && CharAt(CharMap(i)) == i
  {
  }

  lemma CharMapInverse(i: nat)
    requires i < 95
    ensures CharMap(i) < 95 && CharAt(CharMap(i)) == i
  {
    if i < 24 {
      CharMapLow(i);
    } else if i < 60 {
      CharMapMiddle(i);
    } else {
      CharMapHigh(i);
    }
  }

  /** The bech32 alphabet. */
  function ToChar(v: nat): char {
    match v
    case 0 => 'q' case 1 => 'p' case 2 => 'z' case 3 => 'r' case 4 => 'y' case 5 => '9' case 6 => 'x' case 7 => '8'
    case 8 => 'g' case 9 => 'f' case 10 => '2' case 11 => 't' case 12 => 'v' case 13 => 'd' case 14 => 'w' case 15 => '0'
    case 16 => 's' case 17 => '3' case 18 => 'j' case 19 => 'n' case 20 => '5' case 21 => '4' case 22 => 'k' case 23 => 'h'
    case 24 => 'c' case 25 => 'e' case 26 => '6' case 27 => 'm' case 28 => 'u' case 29 => 'a' case 30 => '7'
    case _ => 'l'
  }

  function FromChar(ch: char): nat {
    match ch
    case 'q' => 0 case 'p' => 1 case 'z' => 2 case 'r' => 3 case 'y' => 4 case '9' => 5 case 'x' => 6 case '8' => 7
    case 'g' => 8 case 'f' => 9 case '2' => 10 case 't' => 11 case 'v' => 12 case 'd' => 13 case 'w' => 14 case '0' => 15
    case 's' => 16 case '3' => 17 case 'j' => 18 case 'n' => 19 case '5' => 20 case '4' => 21 case 'k' => 22 case 'h' => 23
    case 'c' => 24 case 'e' => 25 case '6' => 26 case 'm' => 27 case 'u' => 28 case 'a' => 29 case '7' => 30
    case _ => 31
  }

  lemma ToCharInverse(v: nat)
    requires v < 32
    ensures FromChar(ToChar(v)) == v && ToChar(v) != '#' && IsPrintable(ToChar(v))
  {
  }

  predicate IsPrintable(ch: char) { 32 <= ch as int < 127 }

  /** The generator's coefficients, one for each bit that is shifted out. */
  const GEN: seq<nat> := [0xf5dee51989, 0xa9fdca3312, 0x1bab10e32d, 0x3706b1677a, 0x644d626ffd]

  /** A residue has eight symbols of five bits; TOP is the weight of the first. */
  const RESIDUE_BITS := 40
  const TOP := 0x8_0000_0000

  type Symbol = v: int | 0 <= v < 32

  // ----- residues -----

  predicate Bit(t: nat, i: nat) { High(t, i) % 2 == 1 }

  function Pick(b: bool, g: nat): nat { if b then g else 0 }

  /** What the first `n` of the bits shifted out of a residue put back in. */
  function Reduction(top: nat, n: nat): nat
    requires n <= |GEN|
  {
    if n == 0 then 0 else Xor(Reduction(top, n - 1), Pick(Bit(top, n - 1), GEN[n - 1]))
  }

  /** One symbol into the residue: the first symbol is shifted out. */
  function Step(c: nat, v: nat): nat {
    Xor(Xor((c % TOP) * 32, v), Reduction(c / TOP, |GEN|))
  }

  function Feed(c: nat, symbols: seq<Symbol>): nat
    decreases symbols
  {
    if symbols == [] then c else Feed(Step(c, symbols[0]), symbols[1..])
  }

  // ----- laws of the reduction -----

  lemma Constants()
    ensures Pow2(5) == 32 && Pow2(35) == TOP && Pow2(RESIDUE_BITS) == TOP * 32
  {
    assert Pow2(5) == 32;
    assert Pow2(10) == 1024;
    assert Pow2(15) == 32768;
    assert Pow2(20) == 1048576;
    assert Pow2(25) == 33554432;
    assert Pow2(30) == 1073741824;
    assert Pow2(35) == 34359738368;
    assert Pow2(40) == 1099511627776;
  }

  lemma BitXor(a: nat, b: nat, i: nat)
    ensures Bit(Xor(a, b), i) == (Bit(a, i) != Bit(b, i))
  {
    XorParts(a, b, i);
    XorLow(High(a, i), High(b, i));
    Parity(High(a, i) % 2, High(b, i) % 2);
  }

  lemma Parity(x: nat, y: nat)
    requires x < 2 && y < 2
    ensures (x + y) % 2 == 1 <==> (x == 1) != (y == 1)
  {
  }

  lemma PickXor(a: bool, b: bool, g: nat)
    ensures Xor(Pick(a, g), Pick(b, g)) == Pick(a != b, g)
  {
    XorZero(g);
    XorSelf(g);
    XorSelf(0);
  }

  lemma {:induction false} ReductionXor(a: nat, b: nat, n: nat)
    requires n <= |GEN|
    ensures Xor(Reduction(a, n), Reduction(b, n)) == Reduction(Xor(a, b), n)
  {
    if n == 0 {
      XorSelf(0);
    } else {
      var i := n - 1;
      ReductionXor(a, b, i);
      BitXor(a, b, i);
      PickXor(Bit(a, i), Bit(b, i), GEN[i]);
      XorSwap(Reduction(a, i), Pick(Bit(a, i), GEN[i]), Reduction(b, i), Pick(Bit(b, i), GEN[i]));
    }
  }

  // ----- no difference is lost -----

  lemma Halves(t: nat)
    ensures High(t, 0) == t && High(t, 1) == t / 2 && High(t, 2) == t / 2 / 2
    ensures High(t, 3) == t / 2 / 2 / 2 && High(t, 4) == t / 2 / 2 / 2 / 2
  {
    assert High(t / 2, 0) == t / 2;
    assert High(t / 2, 1) == High(t / 2 / 2, 0);
    assert High(t / 2 / 2, 1) == High(t / 2 / 2 / 2, 0);
    assert High(t, 2) == High(t / 2, 1) && High(t / 2, 2) == High(t / 2 / 2, 1);
    assert High(t, 3) == High(t / 2, 2);
    assert High(t / 2 / 2, 2) == High(t / 2 / 2 / 2, 1) && High(t / 2 / 2 / 2, 1) == High(t / 2 / 2 / 2 / 2, 0);
    assert High(t / 2, 3) == High(t / 2 / 2, 2) && High(t, 4) == High(t / 2, 3);
  }

  /** Sums of low symbols of the generator. */
  function LowThree(b0: bool, b1: bool, b2: bool): nat { Xor(Xor(Pick(b0, 9), Pick(b1, 18)), Pick(b2, 13)) }

  function LowSum(b0: bool, b1: bool, b2: bool, b3: bool): nat { Xor(LowThree(b0, b1, b2), Pick(b3, 26)) }

  lemma LowThrees(b0: bool, b1: bool, b2: bool)
    ensures LowThree(b0, b1, b2) ==
            if b0 then (if b1 then (if b2 then 22 else 27) else (if b2 then 4 else 9))
            else (if b1 then (if b2 then 31 else 18) else (if b2 then 13 else 0))
  {
    XorZero(9);
    XorZero(18);
    XorSelf(0);
    assert Xor(9, 18) == 27;
    var two := Xor(Pick(b0, 9), Pick(b1, 18));
    assert two == if b0 then (if b1 then 27 else 9) else (if b1 then 18 else 0);
    XorZero(two);
    XorZero(13);
    assert Xor(9, 13) == 4 && Xor(18, 13) == 31 && Xor(27, 13) == 22;
  }

  /** The first four are all different from zero and from the fifth one. */
  lemma LowSums(b0: bool, b1: bool, b2: bool, b3: bool)
    ensures LowSum(b0, b1, b2, b3) == 0 ==> !b0 && !b1 && !b2 && !b3
    ensures LowSum(b0, b1, b2, b3) != 29
  {
    LowThrees(b0, b1, b2);
    XorZero(LowThree(b0, b1, b2));
    if b3 { LowFours(LowThree(b0, b1, b2)); }
  }

  lemma LowFours(x: nat)
    requires x != 26 && x != 7
    ensures Xor(x, 26) != 0 && Xor(x, 26) != 29
  {
    XorCancels(x, 26);
    XorAssoc(x, 26, 26);
    XorSelf(26);
    XorZero(x);
    assert Xor(29, 26) == 7;
  }

  lemma LowPick(b: bool, g: nat)
    ensures Low(Pick(b, g), 5) == Pick(b, Low(g, 5))
  {
    assert Low(0, 5) == 0;
  }

  lemma LowGen()
    ensures Low(GEN[0], 5) == 9 && Low(GEN[1], 5) == 18 && Low(GEN[2], 5) == 13
    ensures Low(GEN[3], 5) == 26 && Low(GEN[4], 5) == 29
  {
    assert Low(0xf5dee51989, 5) == 9;
    assert Low(0xa9fdca3312, 5) == 18;
    assert Low(0x1bab10e32d, 5) == 13;
    assert Low(0x3706b1677a, 5) == 26;
    assert Low(0x644d626ffd, 5) == 29;
  }

  lemma LowReductionNext(t: nat, n: nat)
    requires n < |GEN|
    ensures Low(Reduction(t, n + 1), 5) == Xor(Low(Reduction(t, n), 5), Pick(Bit(t, n), Low(GEN[n], 5)))
  {
    XorParts(Reduction(t, n), Pick(Bit(t, n), GEN[n]), 5);
    LowPick(Bit(t, n), GEN[n]);
  }

  lemma LowReduction(t: nat)
    ensures Low(Reduction(t, 5), 5) == Xor(LowSum(Bit(t, 0), Bit(t, 1), Bit(t, 2), Bit(t, 3)), Pick(Bit(t, 4), 29))
  {
    LowGen();
    LowReductionNext(t, 0);
    LowReductionNext(t, 1);
    LowReductionNext(t, 2);
    LowReductionNext(t, 3);
    LowReductionNext(t, 4);
    assert Reduction(t, 0) == 0 && Low(0, 5) == 0;
    XorZero(Pick(Bit(t, 0), 9));
  }

  /** Five bits that put nothing into the low symbol were all zero. */
  lemma ReductionZero(t: nat)
    requires t < 32 && Low(Reduction(t, 5), 5) == 0
    ensures t == 0
  {
    LowReduction(t);
    var low := LowSum(Bit(t, 0), Bit(t, 1), Bit(t, 2), Bit(t, 3));
    XorCancels(low, Pick(Bit(t, 4), 29));
    LowSums(Bit(t, 0), Bit(t, 1), Bit(t, 2), Bit(t, 3));
    Halves(t);
  }

  lemma {:induction false} ReductionOfZero(n: nat)
    requires n <= |GEN|
    ensures Reduction(0, n) == 0
  {
    if n > 0 {
      ReductionOfZero(n - 1);
      HighZero(0, n - 1);
      XorSelf(0);
    }
  }

  // ----- steps -----

  lemma SplitTop(c: nat)
    ensures c / TOP == High(c, 35) && c % TOP == Low(c, 35)
  {
    Constants();
    HighLow(c, 35);
    Quotient(c, High(c, 35), Low(c, 35));
  }

  lemma Quotient(c: nat, high: nat, low: nat)
    requires c == low + TOP * high && low < TOP
    ensures c / TOP == high && c % TOP == low
  {
  }

  lemma SplitLow(c: nat)
    ensures Low(c * 32, 5) == 0
  {
    Constants();
    HighLow(c * 32, 5);
  }

  /** Steps with the same symbol: the difference is moved by one symbol. */
  lemma StepDifference(c: nat, d: nat, v: nat)
    ensures var x := Xor(c, d); Xor(Step(c, v), Step(d, v)) == Xor((x % TOP) * 32, Reduction(x / TOP, |GEN|))
  {
    var x := Xor(c, d);
    SplitTop(c);
    SplitTop(d);
    SplitTop(x);
    XorParts(c, d, 35);
    var a, b := Low(c, 35) * 32, Low(d, 35) * 32;
    XorSwap(Xor(a, v), Reduction(High(c, 35), |GEN|), Xor(b, v), Reduction(High(d, 35), |GEN|));
    XorSwap(a, v, b, v);
    XorSelf(v);
    XorZero(Xor(a, b));
    Constants();
    XorShift(Low(c, 35), Low(d, 35), 5);
    ReductionXor(High(c, 35), High(d, 35), |GEN|);
  }

  predicate IsResidue(c: nat) { c < Pow2(RESIDUE_BITS) }

  lemma TopSmall(x: nat)
    requires IsResidue(x)
    ensures x / TOP < 32
  {
    Constants();
  }

  /** A difference that is moved away entirely was none. */
  lemma DifferenceStays(x: nat)
    requires IsResidue(x) && Xor((x % TOP) * 32, Reduction(x / TOP, |GEN|)) == 0
    ensures x == 0
  {
    var a, r := (x % TOP) * 32, Reduction(x / TOP, |GEN|);
    XorCancels(a, r);
    SplitLow(x % TOP);
    TopSmall(x);
    ReductionZero(x / TOP);
    ReductionOfZero(|GEN|);
  }

  /** Different residues stay different, whatever symbol comes next. */
  lemma StepInjective(c: nat, d: nat, v: nat)
    requires IsResidue(c) && IsResidue(d) && Step(c, v) == Step(d, v)
    ensures c == d
  {
    StepDifference(c, d, v);
    XorSelf(Step(c, v));
    XorBound(c, d, RESIDUE_BITS);
    DifferenceStays(Xor(c, d));
    XorCancels(c, d);
  }

  lemma BelowTop(x: nat)
    requires x < TOP
    ensures x % TOP == x && x / TOP == 0
  {
  }

  /** Residues that differ in low symbols only: the difference is shifted up. */
  lemma StepShifts(c: nat, d: nat, v: nat)
    requires Xor(c, d) < TOP
    ensures Xor(Step(c, v), Step(d, v)) == Xor(c, d) * 32
  {
    StepDifference(c, d, v);
    BelowTop(Xor(c, d));
    ReductionOfZero(|GEN|);
    XorZero(Xor(c, d) * 32);
  }

  /** Different symbols into two residues. */
  lemma StepSymbols(c: nat, d: nat, u: nat, v: nat)
    ensures Xor(Step(c, u), Step(d, v)) == Xor(Xor(Step(c, 0), Step(d, 0)), Xor(u, v))
  {
    SymbolLast(c, u);
    SymbolLast(d, v);
    XorSwap(Step(c, 0), u, Step(d, 0), v);
  }

  lemma SymbolLast(c: nat, v: nat)
    ensures Step(c, v) == Xor(Step(c, 0), v)
  {
    var a, r := (c % TOP) * 32, Reduction(c / TOP, |GEN|);
    XorZero(a);
    XorAssoc(a, v, r);
    XorComm(v, r);
    XorAssoc(a, r, v);
  }

  lemma GenSmall(i: nat)
    requires i < |GEN|
    ensures IsResidue(GEN[i])
  {
    Constants();
  }

  lemma {:induction false} ReductionBound(t: nat, n: nat)
    requires n <= |GEN|
    ensures IsResidue(Reduction(t, n))
  {
    Constants();
    if n > 0 {
      ReductionBound(t, n - 1);
      GenSmall(n - 1);
      XorBound(Reduction(t, n - 1), Pick(Bit(t, n - 1), GEN[n - 1]), RESIDUE_BITS);
    }
  }

  lemma StepBound(c: nat, v: Symbol)
    ensures IsResidue(Step(c, v))
  {
    Constants();
    var a, r := (c % TOP) * 32, Reduction(c / TOP, |GEN|);
    ReductionBound(c / TOP, |GEN|);
    XorBound(a, v, RESIDUE_BITS);
    XorBound(Xor(a, v), r, RESIDUE_BITS);
  }

  lemma {:induction false} FeedBound(c: nat, symbols: seq<Symbol>)
    requires IsResidue(c)
    ensures IsResidue(Feed(c, symbols))
    decreases symbols
  {
    if symbols != [] {
      StepBound(c, symbols[0]);
      FeedBound(Step(c, symbols[0]), symbols[1..]);
    }
  }

  lemma {:induction false} FeedConcat(c: nat, a: seq<Symbol>, b: seq<Symbol>)
    ensures Feed(c, a + b) == Feed(Feed(c, a), b)
    decreases a
  {
    if a == [] {
      assert a + b == b;
    } else {
      FeedConcat(Step(c, a[0]), a[1..], b);
      assert (a + b)[0] == a[0] && (a + b)[1..] == a[1..] + b;
    }
  }

  /** Different residues stay different whatever symbols come next. */
  lemma {:induction false} FeedInjective(c: nat, d: nat, symbols: seq<Symbol>)
    requires IsResidue(c) && IsResidue(d) && Feed(c, symbols) == Feed(d, symbols)
    ensures c == d
    decreases symbols
  {
    if symbols != [] {
      StepBound(c, symbols[0]);
      StepBound(d, symbols[0]);
      FeedInjective(Step(c, symbols[0]), Step(d, symbols[0]), symbols[1..]);
      StepInjective(c, d, symbols[0]);
    }
  }

  /** Streams that differ in exactly one symbol never have the same residue. */
  lemma OneSymbol(c: nat, a: seq<Symbol>, u: Symbol, v: Symbol, b: seq<Symbol>)
    requires IsResidue(c) && u != v
    ensures Feed(c, a + [u] + b) != Feed(c, a + [v] + b)
  {
    FeedConcat(c, a + [u], b);
    FeedConcat(c, a + [v], b);
    FeedConcat(c, a, [u]);
    FeedConcat(c, a, [v]);
    var d := Feed(c, a);
    FeedOne(d, u);
    FeedOne(d, v);
    StepBound(d, u);
    StepBound(d, v);
    if Feed(c, a + [u] + b) == Feed(c, a + [v] + b) {
      FeedInjective(Step(d, u), Step(d, v), b);
      StepSymbols(d, d, u, v);
      XorSelf(Step(d, u));
      XorSelf(Step(d, 0));
      XorZero(Xor(u, v));
      XorCancels(u, v);
    }
  }

  lemma FeedOne(c: nat, v: Symbol)
    ensures Feed(c, [v]) == Step(c, v)
  {
    assert [v][1..] == [];
  }

  // ----- strings -----

  predicate AllPrintable(s: string) { forall i :: 0 <= i < |s| ==> IsPrintable(s[i]) }

  /** A character's position in the map. */
  function CharPos(ch: char): nat
    requires IsPrintable(ch)
  {
    CharMap(ch as int - 32)
  }

  /** Characters are told apart by their positions. */
  lemma CharPosInjective(x: char, y: char)
    requires IsPrintable(x) && IsPrintable(y)
    ensures CharPos(x) < 95 && (CharPos(x) == CharPos(y) <==> x == y)
  {
    CharMapInverse(x as int - 32);
    CharMapInverse(y as int - 32);
  }

  /** The residue, and the classes collected since the last class symbol. */
  datatype EngineState = EngineState(residue: nat, cls: nat, clscount: nat)

  function Pow3(n: nat): nat { if n == 0 then 1 else 3 * Pow3(n - 1) }

  /** The class accumulator is always a valid symbol. */
  predicate Sound(e: EngineState) {
    IsResidue(e.residue) && e.clscount < 3 && e.cls < Pow3(e.clscount)
  }

  lemma Powers3()
    ensures Pow3(0) == 1 && Pow3(1) == 3 && Pow3(2) == 9 && Pow3(3) == 27
  {
    assert Pow3(1) == 3 * Pow3(0);
    assert Pow3(2) == 3 * Pow3(1);
    assert Pow3(3) == 3 * Pow3(2);
  }

  /** One character into the engine: its symbol, and after every third
      character the symbol of three classes. */
  function InputChar(e: EngineState, ch: char): EngineState
    requires IsPrintable(ch)
  {
    InputParts(e, CharPos(ch) % 32, CharPos(ch) / 32)
  }

  function InputParts(e: EngineState, v: nat, high: nat): EngineState {
    if e.clscount + 1 == 3 then EngineState(Step(Step(e.residue, v), e.cls * 3 + high), 0, 0)
    else EngineState(Step(e.residue, v), e.cls * 3 + high, e.clscount + 1)
  }

  function Input(e: EngineState, s: string): EngineState
    requires AllPrintable(s)
    decreases |s|
  {
    if s == [] then e else Input(InputChar(e, s[0]), s[1..])
  }

  lemma InputNext(e: EngineState, s: string, i: nat)
    requires AllPrintable(s) && i < |s|
    ensures Input(e, s[i..]) == Input(InputChar(e, s[i]), s[i + 1..])
  {
    assert s[i..][0] == s[i] && s[i..][1..] == s[i + 1..];
  }

  lemma InputCharSound(e: EngineState, ch: char)
    requires Sound(e) && IsPrintable(ch)
    ensures Sound(InputChar(e, ch)) && e.cls * 3 + CharPos(ch) / 32 < 27
  {
    Powers3();
    CharPosInjective(ch, ch);
    StepBound(e.residue, CharPos(ch) % 32);
    if e.clscount + 1 == 3 { StepBound(Step(e.residue, CharPos(ch) % 32), e.cls * 3 + CharPos(ch) / 32); }
  }

  lemma {:induction false} InputSound(e: EngineState, s: string)
    requires Sound(e) && AllPrintable(s)
    ensures Sound(Input(e, s))
    decreases |s|
  {
    if s != [] {
      InputCharSound(e, s[0]);
      InputSound(InputChar(e, s[0]), s[1..]);
    }
  }

  lemma PrintableConcat(a: string, b: string)
    requires AllPrintable(a) && AllPrintable(b)
    ensures AllPrintable(a + b)
  {
  }

  /** Feeding a string in pieces is feeding it whole. */
  lemma {:induction false} InputConcat(e: EngineState, a: string, b: string)
    requires AllPrintable(a) && AllPrintable(b)
    ensures AllPrintable(a + b) && Input(e, a + b) == Input(Input(e, a), b)
    decreases |a|
  {
    PrintableConcat(a, b);
    if a == [] {
      assert a + b == b;
    } else {
      var rest := a[1..];
      PrintableConcat(rest, b);
      assert (a + b)[0] == a[0] && (a + b)[1..] == rest + b;
      InputConcat(InputChar(e, a[0]), rest, b);
    }
  }

  const START := EngineState(1, 0, 0)

  const TARGET: seq<Symbol> := [0, 0, 0, 0, 0, 0, 0, 1]

  /** The residue that the checksum characters spell out. */
  function FinalResidue(e: EngineState): nat {
    Feed(if e.clscount > 0 then Step(e.residue, e.cls) else e.residue, TARGET)
  }

  /** Symbol number `k` of a residue, counted from the last. */
  function Digit(residue: nat, k: nat): Symbol
    decreases k
  {
    if k == 0 then residue % 32 else Digit(residue / 32, k - 1)
  }

  function CharsOf(residue: nat): string {
    seq(CHECKSUM_LENGTH, i requires 0 <= i < CHECKSUM_LENGTH => ToChar(Digit(residue, CHECKSUM_LENGTH - 1 - i)))
  }

  /** The checksum of a string. */
  function ChecksumOf(s: string): string
    requires AllPrintable(s)
  {
    CharsOf(FinalResidue(Input(START, s)))
  }

  lemma CharsNext(residue: nat, k: nat)
    requires k < CHECKSUM_LENGTH
    ensures CharsOf(residue)[..CHECKSUM_LENGTH - k]
            == CharsOf(residue)[..CHECKSUM_LENGTH - 1 - k] + [ToChar(Digit(residue, k))]
  {
  }

  // ----- the engine -----

  class Engine {
    var residue: nat
    var cls: nat
    var clscount: nat

    ghost function State(): EngineState
      reads this
    {
      EngineState(residue, cls, clscount)
    }

    constructor ()
      ensures State() == START && Sound(State())
    {
      residue, cls, clscount := 1, 0, 0;
      new;
      Constants();
      Powers3();
    }

    method InputFe(v: Symbol)
      modifies this`residue
      ensures residue == Step(old(residue), v)
    {
      residue := Step(residue, v);
    }

    /** One character: its symbol, and every third time the classes. */
    method InputCharacter(ch: char)
      requires IsPrintable(ch) && Sound(State())
      modifies this
      ensures State() == InputChar(old(State()), ch) && Sound(State())
    {
      var pos := CharPos(ch);
      InputCharSound(State(), ch);
      InputFe(pos % 32);
      cls := cls * 3 + pos / 32;
      clscount := clscount + 1;
      if clscount == 3 {
        InputFe(cls);
        cls, clscount := 0, 0;
      }
    }

    method InputUnchecked(s: string)
      requires AllPrintable(s) && Sound(State())
      modifies this
      ensures State() == Input(old(State()), s) && Sound(State())
    {
      for i := 0 to |s|
        invariant Sound(State()) && Input(State(), s[i..]) == Input(old(State()), s)
      {
        InputNext(State(), s, i);
        InputCharacter(s[i]);
      }
      assert s[|s|..] == [];
    }

    /** Rejects characters that descriptors cannot contain. */
    method InputStr(s: string) returns (ok: bool)
      requires Sound(State())
      modifies this
      ensures ok <==> AllPrintable(s)
      ensures if ok then State() == Input(old(State()), s) && Sound(State()) else State() == old(State())
    {
      for i := 0 to |s|
        invariant State() == old(State()) && AllPrintable(s[..i])
      {
        if !IsPrintable(s[i]) { return false; }
        assert s[..i + 1] == s[..i] + [s[i]];
      }
      assert s[..|s|] == s;
      InputUnchecked(s);
      ok := true;
    }

    method InputTarget()
      modifies this`residue
      ensures residue == Feed(old(residue), TARGET)
    {
      for i := 0 to CHECKSUM_LENGTH
        invariant Feed(residue, TARGET[i..]) == Feed(old(residue), TARGET)
      {
        assert TARGET[i..][0] == TARGET[i] && TARGET[i..][1..] == TARGET[i + 1..];
        InputFe(TARGET[i]);
      }
      assert TARGET[CHECKSUM_LENGTH..] == [];
    }

    method ChecksumChars() returns (chars: string)
      requires Sound(State())
      modifies this
      ensures chars == CharsOf(FinalResidue(old(State())))
    {
      Powers3();
      if clscount > 0 { InputFe(cls); }
      InputTarget();
      chars := "";
      var remaining := CHECKSUM_LENGTH;
      while remaining > 0
        invariant 0 <= remaining <= CHECKSUM_LENGTH
        invariant residue == FinalResidue(old(State())) && chars == CharsOf(residue)[..CHECKSUM_LENGTH - remaining]
      {
        remaining := remaining - 1;
        CharsNext(residue, remaining);
        chars := chars + [ToChar(Digit(residue, remaining))];
      }
      assert CharsOf(residue)[..CHECKSUM_LENGTH] == CharsOf(residue);
    }
  }

  // ----- verification -----

  datatype Error =
    | InvalidCharacter(ch: char, pos: nat)
    | InvalidChecksumLength(actual: nat)
    | InvalidChecksum(actualChars: string, expected: string)

  datatype Verified = Ok(s: string) | Err(error: Error)

  /** The position of the last `#` before `n`, or the length of the string. */
  function LastHash(s: string, n: nat): (p: nat)
    requires n <= |s|
    ensures p <= |s|
  {
    if n == 0 then |s| else if s[n - 1] == '#' then n - 1 else LastHash(s, n - 1)
  }

  /** The first unprintable character from `i` on. */
  function FirstBad(s: string, i: nat): (p: nat)
    requires i <= |s|
    ensures i <= p <= |s| && (p < |s| ==> !IsPrintable(s[p])) && forall j :: i <= j < p ==> IsPrintable(s[j])
    decreases |s| - i
  {
    if i == |s| || !IsPrintable(s[i]) then i else FirstBad(s, i + 1)
  }

  /** The string without its checksum, if it has one and it is right. */
  function Verify(s: string): Verified {
    var bad := FirstBad(s, 0);
    if bad < |s| then Err(InvalidCharacter(s[bad], bad))
    else
      var p := LastHash(s, |s|);
      if p == |s| then Ok(s)
      else if |s| - p - 1 != CHECKSUM_LENGTH then Err(InvalidChecksumLength(|s| - p - 1))
      else if s[p + 1..] != ChecksumOf(s[..p]) then Err(InvalidChecksum(s[p + 1..], ChecksumOf(s[..p])))
      else Ok(s[..p])
  }

  lemma FirstBadFrom(s: string, i: nat)
    requires i <= |s| && forall j :: 0 <= j < i ==> IsPrintable(s[j])
    ensures FirstBad(s, 0) == FirstBad(s, i)
  {
  }

  method VerifyChecksum(s: string) returns (r: Verified)
    ensures r == Verify(s)
  {
    var lastHash := |s|;
    for i := 0 to |s|
      invariant forall j :: 0 <= j < i ==> IsPrintable(s[j])
      invariant lastHash == LastHash(s, i)
    {
      if !IsPrintable(s[i]) {
        FirstBadFrom(s, i);
        return Err(InvalidCharacter(s[i], i));
      }
      if s[i] == '#' { lastHash := i; }
    }
    FirstBadFrom(s, |s|);
    if lastHash < |s| {
      var actual := s[lastHash + 1..];
      if |actual| != CHECKSUM_LENGTH { return Err(InvalidChecksumLength(|actual|)); }
      var eng := new Engine();
      eng.InputUnchecked(s[..lastHash]);
      var expected := eng.ChecksumChars();
      if expected != actual { return Err(InvalidChecksum(actual, expected)); }
    }
    assert s[..|s|] == s;
    r := Ok(s[..lastHash]);
  }

  // ----- what verification promises -----

  lemma {:induction false} LastHashOf(s: string, n: nat)
    requires n <= |s|
    ensures var p := LastHash(s, n);
            if p == |s| then (forall j :: 0 <= j < n ==> s[j] != '#')
            else p < n && s[p] == '#' && forall j :: p < j < n ==> s[j] != '#'
  {
    if n > 0 && s[n - 1] != '#' { LastHashOf(s, n - 1); }
  }

  /** Checksum characters are printable and never `#`. */
  lemma CharsPrintable(r: nat, i: nat)
    requires i < CHECKSUM_LENGTH
    ensures CharsOf(r)[i] != '#' && IsPrintable(CharsOf(r)[i])
  {
    ToCharInverse(Digit(r, CHECKSUM_LENGTH - 1 - i));
  }

  lemma ChecksumChars(s: string)
    requires AllPrintable(s)
    ensures |ChecksumOf(s)| == CHECKSUM_LENGTH && AllPrintable(ChecksumOf(s))
    ensures forall i :: 0 <= i < CHECKSUM_LENGTH ==> ChecksumOf(s)[i] != '#'
  {
    var r := FinalResidue(Input(START, s));
    assert ChecksumOf(s) == CharsOf(r);
    forall i | 0 <= i < CHECKSUM_LENGTH
      ensures CharsOf(r)[i] != '#' && IsPrintable(CharsOf(r)[i])
    {
      CharsPrintable(r, i);
    }
  }

  lemma HashPosition(s: string, c: string)
    requires forall i :: 0 <= i < |c| ==> c[i] != '#'
    ensures var all := s + "#" + c; LastHash(all, |all|) == |s| && all[..|s|] == s && all[|s| + 1..] == c
  {
    var all := s + "#" + c;
    LastHashOf(all, |all|);
    assert all[|s|] == '#';
    assert forall j :: |s| < j < |all| ==> all[j] == c[j - |s| - 1];
  }

  /** A printable string followed by `#` and eight characters is accepted, as
      that string, exactly when they are its checksum. */
  lemma VerifyAppended(s: string, c: string)
    requires AllPrintable(s) && AllPrintable(c) && |c| == CHECKSUM_LENGTH
    requires forall i :: 0 <= i < |c| ==> c[i] != '#'
    ensures Verify(s + "#" + c) == Ok(s) <==> c == ChecksumOf(s)
    ensures c != ChecksumOf(s) ==> Verify(s + "#" + c) == Err(InvalidChecksum(c, ChecksumOf(s)))
  {
    var all := s + "#" + c;
    HashPosition(s, c);
    assert AllPrintable(all) by {
      forall i | 0 <= i < |all|
        ensures IsPrintable(all[i])
      {
        if i < |s| { assert all[i] == s[i]; } else if i > |s| { assert all[i] == c[i - |s| - 1]; }
      }
    }
  }

  /** A string with its own checksum is accepted. */
  lemma VerifyOwn(s: string)
    requires AllPrintable(s)
    ensures Verify(s + "#" + ChecksumOf(s)) == Ok(s)
  {
    ChecksumChars(s);
    VerifyAppended(s, ChecksumOf(s));
  }

  // ----- single errors -----

  lemma {:induction false} DigitsDecide(r: nat, t: nat, n: nat)
    requires r < Pow2(5 * n) && t < Pow2(5 * n) && forall k :: 0 <= k < n ==> Digit(r, k) == Digit(t, k)
    ensures r == t
  {
    if n > 0 {
      assert Digit(r, 0) == Digit(t, 0);
      FiveBits(5 * (n - 1));
      forall k | 0 <= k < n - 1
        ensures Digit(r / 32, k) == Digit(t / 32, k)
      {
        assert Digit(r, k + 1) == Digit(t, k + 1);
      }
      DigitsDecide(r / 32, t / 32, n - 1);
    } else {
      assert Pow2(0) == 1;
    }
  }

  lemma FiveBits(m: nat)
    ensures Pow2(m + 5) == 32 * Pow2(m)
  {
    assert Pow2(m + 1) == 2 * Pow2(m);
    assert Pow2(m + 2) == 2 * Pow2(m + 1);
    assert Pow2(m + 3) == 2 * Pow2(m + 2);
    assert Pow2(m + 4) == 2 * Pow2(m + 3);
  }

  /** The checksum characters determine the residue. */
  lemma CharsDecide(r: nat, t: nat)
    requires IsResidue(r) && IsResidue(t) && CharsOf(r) == CharsOf(t)
    ensures r == t
  {
    forall k | 0 <= k < CHECKSUM_LENGTH
      ensures Digit(r, k) == Digit(t, k)
    {
      assert CharsOf(r)[CHECKSUM_LENGTH - 1 - k] == CharsOf(t)[CHECKSUM_LENGTH - 1 - k];
      ToCharInverse(Digit(r, k));
      ToCharInverse(Digit(t, k));
    }
    DigitsDecide(r, t, CHECKSUM_LENGTH);
  }

  /** Two engines that have read strings of the same length, differing in one
      character since the last class symbol. */
  predicate Pending(e: EngineState, f: EngineState) {
    && Sound(e) && Sound(f) && e.clscount == f.clscount && e.clscount >= 1
    && Xor(e.residue, f.residue) < Pow2(5 * e.clscount)
    && (e.residue != f.residue || e.cls != f.cls)
  }

  /** The same once a class symbol has been read. */
  predicate Apart(e: EngineState, f: EngineState) {
    Sound(e) && Sound(f) && e.residue != f.residue && e.cls == f.cls && e.clscount == f.clscount
  }

  /** A shifted difference and a difference of symbols do not cancel. */
  lemma NoCancel(d: nat, u: Symbol, v: Symbol)
    requires d != 0 || u != v
    ensures Xor(d * 32, Xor(u, v)) != 0
  {
    XorCancels(d * 32, Xor(u, v));
    XorCancels(u, v);
    Constants();
    XorBound(u, v, 5);
  }

  lemma SmallPowers()
    ensures Pow2(5) == 32 && Pow2(10) == 1024 && Pow2(15) == 32768 && 32768 * 32 < TOP
  {
  }

  lemma PowerStep(n: nat, d: nat)
    requires d < Pow2(5 * n)
    ensures d * 32 < Pow2(5 * (n + 1))
  {
    FiveBits(5 * n);
  }

  /** Reading a symbol moves the difference up. */
  lemma PendingSymbol(c: nat, d: nat, n: nat, v: Symbol)
    requires IsResidue(c) && IsResidue(d) && n < 3 && Xor(c, d) < Pow2(5 * n)
    ensures Xor(Step(c, v), Step(d, v)) == Xor(c, d) * 32 < Pow2(5 * (n + 1))
    ensures Xor(c, d) < TOP
  {
    SmallPowers();
    assert Pow2(5 * n) <= 1024;
    StepShifts(c, d, v);
    PowerStep(n, Xor(c, d));
  }

  /** Reading two class symbols that differ, or after a difference. */
  lemma PendingClass(c: nat, d: nat, u: Symbol, v: Symbol)
    requires IsResidue(c) && IsResidue(d) && Xor(c, d) < TOP && (c != d || u != v)
    ensures Step(c, u) != Step(d, v)
  {
    StepSymbols(c, d, u, v);
    StepShifts(c, d, 0);
    XorCancels(c, d);
    NoCancel(Xor(c, d), u, v);
    XorSelf(Step(c, u));
  }

  lemma CharParts(ch: char)
    requires IsPrintable(ch)
    ensures CharPos(ch) / 32 < 3
  {
    CharPosInjective(ch, ch);
  }

  lemma ClassSmall(e: EngineState, high: nat)
    requires Sound(e) && high < 3
    ensures e.cls * 3 + high < Pow3(e.clscount + 1) && (e.clscount + 1 <= 3 ==> e.cls * 3 + high < 27)
  {
    Powers3();
  }

  lemma PendingParts(e: EngineState, f: EngineState, v: Symbol, high: nat)
    requires Pending(e, f) && high < 3 && e.clscount + 1 < 3
    ensures Pending(InputParts(e, v, high), InputParts(f, v, high))
  {
    ClassSmall(e, high);
    ClassSmall(f, high);
    StepBound(e.residue, v);
    StepBound(f.residue, v);
    PendingSymbol(e.residue, f.residue, e.clscount, v);
    XorCancels(e.residue, f.residue);
    XorCancels(Step(e.residue, v), Step(f.residue, v));
  }

  lemma PendingEnds(c: nat, d: nat, n: nat, v: Symbol, cls: Symbol, cls': Symbol)
    requires IsResidue(c) && IsResidue(d) && n < 3 && Xor(c, d) < Pow2(5 * n)
    requires c != d || cls != cls'
    ensures Step(Step(c, v), cls) != Step(Step(d, v), cls')
    ensures IsResidue(Step(Step(c, v), cls)) && IsResidue(Step(Step(d, v), cls'))
  {
    PendingSymbol(c, d, n, v);
    var r, t := Step(c, v), Step(d, v);
    StepBound(c, v);
    StepBound(d, v);
    StepBound(r, cls);
    StepBound(t, cls');
    if c != d { StepsDiffer(c, d, v); }
    PowerSmall(n);
    PendingClass(r, t, cls, cls');
  }

  lemma PowerSmall(n: nat)
    requires n < 3
    ensures Pow2(5 * (n + 1)) < TOP
  {
    SmallPowers();
  }

  lemma StepsDiffer(c: nat, d: nat, v: Symbol)
    requires IsResidue(c) && IsResidue(d) && c != d
    ensures Step(c, v) != Step(d, v)
  {
    if Step(c, v) == Step(d, v) { StepInjective(c, d, v); }
  }

  lemma NowApart(r: nat, t: nat)
    requires IsResidue(r) && IsResidue(t) && r != t
    ensures Apart(EngineState(r, 0, 0), EngineState(t, 0, 0))
  {
    Powers3();
  }

  lemma ThirdSymbol(e: EngineState, v: nat, high: nat)
    requires e.clscount + 1 == 3
    ensures InputParts(e, v, high) == EngineState(Step(Step(e.residue, v), e.cls * 3 + high), 0, 0)
  {
  }

  lemma PendingStates(e: EngineState, f: EngineState, v: Symbol, u: Symbol, w: Symbol)
    requires Pending(e, f) && e.clscount < 3 && (e.residue != f.residue || u != w)
    ensures Step(Step(e.residue, v), u) != Step(Step(f.residue, v), w)
    ensures IsResidue(Step(Step(e.residue, v), u)) && IsResidue(Step(Step(f.residue, v), w))
  {
    PendingEnds(e.residue, f.residue, e.clscount, v, u, w);
  }

  lemma ThirdApart(e: EngineState, f: EngineState, v: Symbol, high: nat, r: nat, t: nat)
    requires e.clscount + 1 == 3 && f.clscount + 1 == 3 && IsResidue(r) && IsResidue(t) && r != t
    requires r == Step(Step(e.residue, v), e.cls * 3 + high) && t == Step(Step(f.residue, v), f.cls * 3 + high)
    ensures Apart(InputParts(e, v, high), InputParts(f, v, high))
  {
    ThirdSymbol(e, v, high);
    ThirdSymbol(f, v, high);
    NowApart(r, t);
  }

  lemma ThirdParts(e: EngineState, f: EngineState, v: Symbol, high: nat)
    requires Pending(e, f) && high < 3 && e.clscount + 1 == 3
    ensures Apart(InputParts(e, v, high), InputParts(f, v, high))
  {
    ClassSmall(e, high);
    ClassSmall(f, high);
    var u, w := e.cls * 3 + high, f.cls * 3 + high;
    assert e.residue != f.residue || u != w;
    PendingStates(e, f, v, u, w);
    ThirdApart(e, f, v, high, Step(Step(e.residue, v), u), Step(Step(f.residue, v), w));
  }

  lemma PendingChar(e: EngineState, f: EngineState, ch: char)
    requires Pending(e, f) && IsPrintable(ch)
    ensures Pending(InputChar(e, ch), InputChar(f, ch)) || Apart(InputChar(e, ch), InputChar(f, ch))
  {
    CharParts(ch);
    if e.clscount + 1 == 3 {
      ThirdParts(e, f, CharPos(ch) % 32, CharPos(ch) / 32);
    } else {
      PendingParts(e, f, CharPos(ch) % 32, CharPos(ch) / 32);
    }
  }

  lemma ApartParts(e: EngineState, f: EngineState, v: Symbol, high: nat)
    requires Apart(e, f) && high < 3
    ensures Apart(InputParts(e, v, high), InputParts(f, v, high))
  {
    ClassSmall(e, high);
    ClassSmall(f, high);
    Powers3();
    StepBound(e.residue, v);
    StepBound(f.residue, v);
    StepsDiffer(e.residue, f.residue, v);
    if e.clscount + 1 == 3 {
      StepBound(Step(e.residue, v), e.cls * 3 + high);
      StepBound(Step(f.residue, v), e.cls * 3 + high);
      StepsDiffer(Step(e.residue, v), Step(f.residue, v), e.cls * 3 + high);
    }
  }

  lemma ApartChar(e: EngineState, f: EngineState, ch: char)
    requires Apart(e, f) && IsPrintable(ch)
    ensures Apart(InputChar(e, ch), InputChar(f, ch))
  {
    CharParts(ch);
    ApartParts(e, f, CharPos(ch) % 32, CharPos(ch) / 32);
  }

  /** Two symbols into the same residue. */
  lemma TwoSymbols(c: nat, u: Symbol, v: Symbol)
    requires IsResidue(c)
    ensures IsResidue(Step(c, u)) && IsResidue(Step(c, v))
    ensures Xor(Step(c, u), Step(c, v)) == Xor(u, v) < Pow2(5)
    ensures u != v ==> Step(c, u) != Step(c, v)
  {
    StepBound(c, u);
    StepBound(c, v);
    StepSymbols(c, c, u, v);
    XorSelf(Step(c, 0));
    XorZero(Xor(u, v));
    SmallPowers();
    XorBound(u, v, 5);
    XorCancels(u, v);
    XorCancels(Step(c, u), Step(c, v));
  }

  lemma DifferentEnds(e: EngineState, u: Symbol, g: nat, v: Symbol, h: nat)
    requires Sound(e) && g < 3 && h < 3 && (u != v || g != h) && e.clscount + 1 == 3
    ensures Apart(InputParts(e, u, g), InputParts(e, v, h))
  {
    ClassSmall(e, g);
    ClassSmall(e, h);
    var cls: Symbol, cls': Symbol := e.cls * 3 + g, e.cls * 3 + h;
    TwoSymbols(e.residue, u, v);
    TwoEnds(Step(e.residue, u), Step(e.residue, v), cls, cls');
    ThirdSymbol(e, u, g);
    ThirdSymbol(e, v, h);
    NowApart(Step(Step(e.residue, u), cls), Step(Step(e.residue, v), cls'));
  }

  lemma TwoEnds(r: nat, t: nat, cls: Symbol, cls': Symbol)
    requires IsResidue(r) && IsResidue(t) && Xor(r, t) < Pow2(5) && (r != t || cls != cls')
    ensures Step(r, cls) != Step(t, cls') && IsResidue(Step(r, cls)) && IsResidue(Step(t, cls'))
  {
    SmallPowers();
    StepBound(r, cls);
    StepBound(t, cls');
    PendingClass(r, t, cls, cls');
  }

  lemma DifferentParts(e: EngineState, u: Symbol, g: nat, v: Symbol, h: nat)
    requires Sound(e) && g < 3 && h < 3 && (u != v || g != h) && e.clscount + 1 < 3
    ensures Pending(InputParts(e, u, g), InputParts(e, v, h))
  {
    ClassSmall(e, g);
    ClassSmall(e, h);
    TwoSymbols(e.residue, u, v);
    PowersGrow(e.clscount + 1);
  }

  lemma PowersGrow(n: nat)
    requires 1 <= n < 3
    ensures Pow2(5) <= Pow2(5 * n)
  {
    SmallPowers();
  }

  lemma DifferentPositions(p: nat, q: nat)
    requires p != q
    ensures p % 32 != q % 32 || p / 32 != q / 32
  {
  }

  /** Two different characters into the same engine. */
  lemma FirstDifference(e: EngineState, x: char, y: char)
    requires Sound(e) && IsPrintable(x) && IsPrintable(y) && x != y
    ensures Pending(InputChar(e, x), InputChar(e, y)) || Apart(InputChar(e, x), InputChar(e, y))
  {
    CharPosInjective(x, y);
    CharParts(x);
    CharParts(y);
    DifferentPositions(CharPos(x), CharPos(y));
    if e.clscount + 1 == 3 {
      DifferentEnds(e, CharPos(x) % 32, CharPos(x) / 32, CharPos(y) % 32, CharPos(y) / 32);
    } else {
      DifferentParts(e, CharPos(x) % 32, CharPos(x) / 32, CharPos(y) % 32, CharPos(y) / 32);
    }
  }

  lemma {:induction false} DifferenceKept(e: EngineState, f: EngineState, s: string)
    requires (Pending(e, f) || Apart(e, f)) && AllPrintable(s)
    ensures var e', f' := Input(e, s), Input(f, s); Pending(e', f') || Apart(e', f')
    decreases |s|
  {
    if s != [] {
      if Pending(e, f) { PendingChar(e, f, s[0]); } else { ApartChar(e, f, s[0]); }
      DifferenceKept(InputChar(e, s[0]), InputChar(f, s[0]), s[1..]);
    }
  }

  lemma FinalDifference(e: EngineState, f: EngineState)
    requires Pending(e, f) || Apart(e, f)
    ensures FinalResidue(e) != FinalResidue(f) && IsResidue(FinalResidue(e)) && IsResidue(FinalResidue(f))
  {
    Powers3();
    var c := if e.clscount > 0 then Step(e.residue, e.cls) else e.residue;
    var d := if f.clscount > 0 then Step(f.residue, f.cls) else f.residue;
    if e.clscount > 0 {
      StepBound(e.residue, e.cls);
      StepBound(f.residue, f.cls);
      if Apart(e, f) {
        if c == d { StepInjective(e.residue, f.residue, e.cls); }
      } else {
        PendingSymbol(e.residue, f.residue, e.clscount, 0);
        PendingClass(e.residue, f.residue, e.cls, f.cls);
      }
    }
    FeedBound(c, TARGET);
    FeedBound(d, TARGET);
    if Feed(c, TARGET) == Feed(d, TARGET) { FeedInjective(c, d, TARGET); }
  }

  lemma StartSound()
    ensures Sound(START)
  {
    Constants();
    Powers3();
  }

  /** Changing any one character changes the checksum, however long the string. */
  lemma OneCharacter(a: string, x: char, y: char, b: string)
    requires AllPrintable(a + [x] + b) && AllPrintable(a + [y] + b) && x != y
    ensures ChecksumOf(a + [x] + b) != ChecksumOf(a + [y] + b)
  {
    PrintableParts(a, x, b);
    PrintableParts(a, y, b);
    StartSound();
    var e := Input(START, a);
    InputSound(START, a);
    InputAround(a, x, b);
    InputAround(a, y, b);
    FirstDifference(e, x, y);
    DifferenceKept(InputChar(e, x), InputChar(e, y), b);
    var f, g := Input(InputChar(e, x), b), Input(InputChar(e, y), b);
    FinalDifference(f, g);
    if CharsOf(FinalResidue(f)) == CharsOf(FinalResidue(g)) {
      CharsDecide(FinalResidue(f), FinalResidue(g));
    }
  }

  lemma PrintableParts(a: string, x: char, b: string)
    requires AllPrintable(a + [x] + b)
    ensures AllPrintable(a) && IsPrintable(x) && AllPrintable(b)
  {
    var s := a + [x] + b;
    assert forall i :: 0 <= i < |a| ==> a[i] == s[i];
    assert x == s[|a|];
    assert forall i :: 0 <= i < |b| ==> b[i] == s[|a| + 1 + i];
  }

  lemma InputAround(a: string, x: char, b: string)
    requires AllPrintable(a) && IsPrintable(x) && AllPrintable(b) && AllPrintable(a + [x] + b)
    ensures Input(START, a + [x] + b) == Input(InputChar(Input(START, a), x), b)
  {
    InputConcat(START, a, [x]);
    InputConcat(START, a + [x], b);
    assert [x][1..] == [];
  }

  /** A descriptor with one wrong character and the right one's checksum is
      always refused. */
  lemma OneErrorDetected(a: string, x: char, y: char, b: string)
    requires AllPrintable(a + [x] + b) && AllPrintable(a + [y] + b) && x != y
    ensures Verify(a + [y] + b + "#" + ChecksumOf(a + [x] + b)).Err?
  {
    OneCharacter(a, x, y, b);
    ChecksumChars(a + [x] + b);
    VerifyAppended(a + [y] + b, ChecksumOf(a + [x] + b));
  }
}
