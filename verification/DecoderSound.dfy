/** Whatever the decoder accepts, it has read exactly the tokens of: an
    invariant over both stacks that every step keeps. */
module DecoderSound {
  import opened Bytes
  import opened Script
  import opened Ord
  import opened Terms
  import opened Decoder

  // ----- tokens with envelopes taken apart -----

  /** A token, or an instruction of an envelope. */
  datatype Atom = Tok(tok: Token) | Inner(ins: Instr)

  function Inners(script: seq<Instr>): seq<Atom> {
    seq(|script|, i requires 0 <= i < |script| => Inner(script[i]))
  }

  function SpreadOne(tok: Token): seq<Atom> {
    if tok.Inscription? && tok.script != [] then Inners(tok.script) else [Tok(tok)]
  }

  /** The lexer makes one token of every envelope it sees; where one envelope
      token ends and the next begins is all that this forgets. */
  function Spread(toks: seq<Token>): seq<Atom> {
    if toks == [] then [] else SpreadOne(toks[0]) + Spread(toks[1..])
  }

  predicate SameTokens(a: seq<Token>, b: seq<Token>) { Spread(a) == Spread(b) }

  lemma {:induction false} SpreadConcat(a: seq<Token>, b: seq<Token>)
    ensures Spread(a + b) == Spread(a) + Spread(b)
  {
    if a == [] {
      assert a + b == b;
    } else {
      SpreadConcat(a[1..], b);
      assert (a + b)[0] == a[0] && (a + b)[1..] == a[1..] + b;
      Assoc(SpreadOne(a[0]), Spread(a[1..]), Spread(b));
    }
  }

  function AtomInstrs(atom: Atom): seq<Instr> {
    match atom
    case Tok(t) => Instrs(t)
    case Inner(i) => [i]
  }

  function InstrsOf(atoms: seq<Atom>): seq<Instr> {
    if atoms == [] then [] else AtomInstrs(atoms[0]) + InstrsOf(atoms[1..])
  }

  lemma {:induction false} InstrsOfConcat(a: seq<Atom>, b: seq<Atom>)
    ensures InstrsOf(a + b) == InstrsOf(a) + InstrsOf(b)
  {
    if a == [] {
      assert a + b == b;
    } else {
      InstrsOfConcat(a[1..], b);
      assert (a + b)[0] == a[0] && (a + b)[1..] == a[1..] + b;
      Assoc(AtomInstrs(a[0]), InstrsOf(a[1..]), InstrsOf(b));
    }
  }

  lemma {:induction false} InstrsOfInners(script: seq<Instr>)
    ensures InstrsOf(Inners(script)) == script
  {
    if script != [] {
      InstrsOfInners(script[1..]);
      assert Inners(script)[1..] == Inners(script[1..]);
      assert script == [script[0]] + script[1..];
    }
  }

  lemma {:induction false} FlattenSpread(toks: seq<Token>)
    ensures Flatten(toks) == InstrsOf(Spread(toks))
  {
    if toks != [] {
      FlattenSpread(toks[1..]);
      InstrsOfConcat(SpreadOne(toks[0]), Spread(toks[1..]));
      if toks[0].Inscription? && toks[0].script != [] {
        InstrsOfInners(toks[0].script);
      } else {
        assert SpreadOne(toks[0])[1..] == [];
      }
    }
  }

  predicate NoInscriptions(toks: seq<Token>) { forall i :: 0 <= i < |toks| ==> !toks[i].Inscription? }

  lemma {:induction false} SpreadPlain(toks: seq<Token>)
    requires NoInscriptions(toks)
    ensures |Spread(toks)| == |toks| && forall i :: 0 <= i < |toks| ==> Spread(toks)[i] == Tok(toks[i])
  {
    if toks != [] { SpreadPlain(toks[1..]); }
  }

  /** Equal scripts; and equal tokens when there are no envelopes. */
  lemma SameTokensMeans(a: seq<Token>, b: seq<Token>)
    requires SameTokens(a, b)
    ensures Flatten(a) == Flatten(b)
    ensures NoInscriptions(a) && NoInscriptions(b) ==> a == b
  {
    FlattenSpread(a);
    FlattenSpread(b);
    if NoInscriptions(a) && NoInscriptions(b) {
      SpreadPlain(a);
      SpreadPlain(b);
      forall i | 0 <= i < |a|
        ensures a[i] == b[i]
      {
        assert Tok(a[i]) == Spread(a)[i];
      }
    }
  }

  lemma SameConcat(a: seq<Token>, b: seq<Token>, c: seq<Token>, d: seq<Token>)
    requires SameTokens(a, b) && SameTokens(c, d)
    ensures SameTokens(a + c, b + d)
  {
    SpreadConcat(a, c);
    SpreadConcat(b, d);
  }

  // ----- envelopes -----

  lemma InnersConcat(a: seq<Instr>, b: seq<Instr>)
    ensures Inners(a + b) == Inners(a) + Inners(b)
  {
  }

  lemma EnvelopeTokensConcat(a: seq<Ord.Inscription>, b: seq<Ord.Inscription>)
    ensures EnvelopeTokens(a + b) == EnvelopeTokens(a) + EnvelopeTokens(b)
  {
  }

  lemma {:induction false} SpreadEnvelopes(ins: seq<Ord.Inscription>)
    ensures Spread(EnvelopeTokens(ins)) == Inners(RevealScripts(ins))
  {
    if ins != [] {
      SpreadEnvelopes(ins[1..]);
      assert EnvelopeTokens(ins)[1..] == EnvelopeTokens(ins[1..]);
      InnersConcat(RevealScript(ins[0]), RevealScripts(ins[1..]));
    }
  }

  predicate AllValidated(ins: seq<Ord.Inscription>) { forall i :: 0 <= i < |ins| ==> Validate(ins[i]) }

  /** An accepted envelope token stands for the envelopes of its inscriptions. */
  lemma ParsedEnvelope(dx: Dx, tok: Token)
    requires tok.Inscription? && ParseInscriptions(dx, tok.script).Good?
    ensures SameTokens([tok], EnvelopeTokens(ParseInscriptions(dx, tok.script).value))
  {
    SpreadEnvelopes(ParseInscriptions(dx, tok.script).value);
    assert [tok][1..] == [];
    assert Spread([tok]) == SpreadOne(tok);
  }

  lemma FrontLast(toks: seq<Token>)
    requires toks != []
    ensures toks == Front(toks) + [LastTok(toks)]
  {
  }

  lemma OneMoreEnvelope(front: seq<Token>, tok: Token, rest: seq<Token>, before: seq<Ord.Inscription>, last: seq<Ord.Inscription>)
    requires SameTokens(front, rest + EnvelopeTokens(before)) && SameTokens([tok], EnvelopeTokens(last))
    ensures SameTokens(front + [tok], rest + EnvelopeTokens(before + last))
  {
    SameConcat(front, rest + EnvelopeTokens(before), [tok], EnvelopeTokens(last));
    EnvelopeTokensConcat(before, last);
    Assoc(rest, EnvelopeTokens(before), EnvelopeTokens(last));
  }

  lemma {:induction false} TakenInscriptions(dx: Dx, toks: seq<Token>)
    requires TakeInscriptions(dx, toks).Good?
    ensures var r := TakeInscriptions(dx, toks).value;
            && SameTokens(toks, r.1 + EnvelopeTokens(r.0))
            && AllValidated(r.0) && (EndsInInscription(toks) ==> r.0 != [])
  {
    if EndsInInscription(toks) {
      var tok := LastTok(toks);
      TakenInscriptions(dx, Front(toks));
      var r := TakeInscriptions(dx, Front(toks)).value;
      FrontLast(toks);
      ParsedEnvelope(dx, tok);
      OneMoreEnvelope(Front(toks), tok, r.1, r.0, ParseInscriptions(dx, tok.script).value);
    } else {
      assert toks + EnvelopeTokens([]) == toks;
    }
  }

  // ----- the two stacks fit together -----

  /** Nonterminals that are handled as soon as they are pushed, with their term
      already there. */
  predicate IsDirect(x: NonTerm) { x.DupIf? || x.NonZero? || x.EndIfNotIf? }

  /** The terms a waiting nonterminal will take besides the one it waits for. */
  function Pops(x: NonTerm): nat {
    match x
    case AndV | AndB | OrB | OrD | OrC | EndIfElse => 1
    case Tern => 2
    case ThreshW(_, n) => if n == 0 then 0 else n - 1
    case ThreshE(_, n) => if n == 0 then 0 else n - 1
    case _ => 0
  }

  predicate CanWait(x: NonTerm) {
    !IsDirect(x) && !x.Expression? && !x.WExpression? && (x.ThreshW? || x.ThreshE? ==> x.n >= 1)
  }

  /** Nonterminals that are waiting for a term, with `n` terms on the stack
      besides the one they wait for. An expression waits for the operand to its
      right only below an `and_b` or `or_b`. */
  predicate Waits(nts: seq<NonTerm>, n: nat) { WaitsTo(nts, |nts|, n) }

  /** The same for the lowest `k` nonterminals. */
  predicate WaitsTo(nts: seq<NonTerm>, k: nat, n: nat)
    requires k <= |nts|
  {
    if k == 0 then n == 0
    else if nts[k - 1].Expression? then k > 1 && (nts[k - 2].AndB? || nts[k - 2].OrB?) && WaitsTo(nts, k - 1, n + 1)
    else CanWait(nts[k - 1]) && Pops(nts[k - 1]) <= n && WaitsTo(nts, k - 1, n - Pops(nts[k - 1]))
  }

  /** The same when the top nonterminal is about to be handled. */
  predicate StacksFit(nts: seq<NonTerm>, n: nat) {
    if nts == [] then n == 1
    else
      var k, x := |nts| - 1, nts[|nts| - 1];
      if x.Expression? || x.WExpression? || (x.ThreshW? && x.n == 0) then WaitsTo(nts, k, n)
      else if IsDirect(x) then n >= 1 && WaitsTo(nts, k, n - 1)
      else n >= 1 && Waits(nts, n - 1)
  }

  /** What is above does not matter. */
  lemma {:induction false} WaitsBelow(nts: seq<NonTerm>, x: NonTerm, k: nat, n: nat)
    requires k <= |nts|
    ensures WaitsTo(nts + [x], k, n) == WaitsTo(nts, k, n)
  {
    if k > 0 {
      var top := nts[k - 1];
      assert (nts + [x])[k - 1] == top;
      if top.Expression? {
        WaitsBelow(nts, x, k - 1, n + 1);
      } else if Pops(top) <= n {
        WaitsBelow(nts, x, k - 1, n - Pops(top));
      }
    }
  }

  lemma WaitsOn(nts: seq<NonTerm>, x: NonTerm, n: nat)
    ensures Waits(nts + [x], n) <==>
            if x.Expression? then nts != [] && (nts[|nts| - 1].AndB? || nts[|nts| - 1].OrB?) && Waits(nts, n + 1)
            else CanWait(x) && Pops(x) <= n && Waits(nts, n - Pops(x))
  {
    if x.Expression? {
      WaitsBelow(nts, x, |nts|, n + 1);
    } else if Pops(x) <= n {
      WaitsBelow(nts, x, |nts|, n - Pops(x));
    }
  }

  /** A term on top of the stack, for nonterminals that wait for one. */
  lemma Delivered(nts: seq<NonTerm>, n: nat)
    requires Waits(nts, n)
    ensures StacksFit(nts, n + 1)
  {
  }

  lemma FitsTop(nts: seq<NonTerm>, x: NonTerm, n: nat)
    ensures StacksFit(nts + [x], n) <==>
            if x.Expression? || x.WExpression? || (x.ThreshW? && x.n == 0) then Waits(nts, n)
            else if IsDirect(x) then n >= 1 && Waits(nts, n - 1)
            else n >= 1 && Waits(nts + [x], n - 1)
  {
    WaitsBelow(nts, x, |nts|, n);
    if n >= 1 { WaitsBelow(nts, x, |nts|, n - 1); }
  }

  /** Handling `x`: it finds the terms it takes, and what is left fits. */
  lemma FitsArity(nts: seq<NonTerm>, x: NonTerm, n: nat)
    requires StacksFit(nts + [x], n)
    ensures Arity(x) <= n
    ensures !x.Expression? && !x.WExpression? && !(x.ThreshW? && x.n == 0) ==>
              n >= 1 + Pops(x) && Waits(nts, n - 1 - Pops(x))
    ensures x.Expression? || x.WExpression? || (x.ThreshW? && x.n == 0) ==> Waits(nts, n)
  {
    FitsTop(nts, x, n);
    if n >= 1 { WaitsOn(nts, x, n - 1); }
  }

  predicate IsWrap(x: NonTerm) {
    x.Check? || x.Verify? || x.ZeroNotEqual? || x.InscribePost? || x.Swap? || x.Alt? || x.EndIf?
  }

  /** Everything a shift can push. */
  predicate ShiftShape(s: Shift) {
    || (|s.ts| == 1 && (s.nts == [] || s.nts == [NonTerm.Verify]))
    || (s.ts == [] && |s.nts| == 1 && s.nts[0].ThreshW? && s.nts[0].n == 0)
    || (s.ts == [] && |s.nts| == 2 && s.nts[0] == NonTerm.Verify && s.nts[1].ThreshW? && s.nts[1].n == 0)
    || (s.ts == [] && |s.nts| == 2 && IsWrap(s.nts[0]) && (s.nts[1].Expression? || s.nts[1].WExpression?))
    || (s.ts == [] && |s.nts| == 3 && IsWrap(s.nts[0]) && s.nts[1].MaybeAndV? && s.nts[2].Expression?)
    || (s.ts == [] && |s.nts| == 3 && (s.nts[0].AndB? || s.nts[0].OrB?) && s.nts[1].Expression? && s.nts[2].WExpression?)
  }

  lemma ShiftOpShape(dx: Dx, op: Opcode, toks: seq<Token>)
    ensures var s := ShiftOp(dx, op, toks); s.Good? ==> ShiftShape(s.value)
  {
  }

  lemma ShiftExpressionShape(dx: Dx, toks: seq<Token>)
    ensures var s := ShiftExpression(dx, toks); s.Good? ==> ShiftShape(s.value)
  {
    if toks != [] && LastTok(toks).Op? { ShiftOpShape(dx, LastTok(toks).op, Front(toks)); }
  }

  lemma ShiftWShape(dx: Dx, toks: seq<Token>)
    ensures var s := ShiftW(dx, toks); s.Good? ==> ShiftShape(s.value)
  {
  }

  lemma WaitsWrap(nts: seq<NonTerm>, x: NonTerm, n: nat)
    requires Waits(nts, n) && (IsWrap(x) || x.InscribePre? || x.MaybeAndV?)
    ensures Waits(nts + [x], n)
  {
    WaitsOn(nts, x, n);
  }

  /** A nonterminal that waits, and an expression to wait for. */
  lemma FitsTwo(nts: seq<NonTerm>, xs: seq<NonTerm>, n: nat)
    requires |xs| == 2 && CanWait(xs[0]) && (xs[1].Expression? || xs[1].WExpression?)
    requires Pops(xs[0]) <= n && Waits(nts, n - Pops(xs[0]))
    ensures StacksFit(nts + xs, n)
  {
    WaitsOn(nts, xs[0], n);
    FitsTop(nts + [xs[0]], xs[1], n);
    assert nts + xs == nts + [xs[0]] + [xs[1]];
  }

  lemma FitsThree(nts: seq<NonTerm>, xs: seq<NonTerm>, n: nat)
    requires |xs| == 3 && CanWait(xs[0]) && xs[1].MaybeAndV? && xs[2].Expression?
    requires Pops(xs[0]) <= n && Waits(nts, n - Pops(xs[0]))
    ensures StacksFit(nts + xs, n)
  {
    WaitsOn(nts, xs[0], n);
    WaitsOn(nts + [xs[0]], xs[1], n);
    FitsTop(nts + [xs[0]] + [xs[1]], xs[2], n);
    assert nts + xs == nts + [xs[0]] + [xs[1]] + [xs[2]];
  }

  /** The same with the search for `and_v` operands on top, and one term more. */
  lemma FitsSearch(nts: seq<NonTerm>, xs: seq<NonTerm>, n: nat)
    requires |xs| == 2 && CanWait(xs[0]) && xs[1].MaybeAndV?
    requires Pops(xs[0]) <= n && Waits(nts, n - Pops(xs[0]))
    ensures StacksFit(nts + xs, n + 1)
  {
    WaitsOn(nts, xs[0], n);
    WaitsOn(nts + [xs[0]], xs[1], n);
    Delivered(nts + [xs[0]] + [xs[1]], n);
    assert nts + xs == nts + [xs[0]] + [xs[1]];
  }

  lemma FitsBool(pre: seq<NonTerm>, xs: seq<NonTerm>, n: nat)
    requires Waits(pre, n) && |xs| == 3 && (xs[0].AndB? || xs[0].OrB?) && xs[1].Expression? && xs[2].WExpression?
    ensures StacksFit(pre + xs, n)
  {
    WaitsOn(pre, xs[0], n + 1);
    WaitsOn(pre + [xs[0]], xs[1], n);
    FitsTop(pre + [xs[0]] + [xs[1]], xs[2], n);
    assert pre + xs == pre + [xs[0]] + [xs[1]] + [xs[2]];
  }

  lemma FitsThresh(pre: seq<NonTerm>, xs: seq<NonTerm>, n: nat)
    requires Waits(pre, n) && 1 <= |xs| <= 2 && (|xs| == 2 ==> xs[0].Verify?)
    requires xs[|xs| - 1].ThreshW? && xs[|xs| - 1].n == 0
    ensures StacksFit(pre + xs, n)
  {
    if |xs| == 2 {
      WaitsWrap(pre, xs[0], n);
      FitsTop(pre + [xs[0]], xs[1], n);
      assert pre + xs == pre + [xs[0]] + [xs[1]];
    } else {
      FitsTop(pre, xs[0], n);
      assert xs == [xs[0]];
    }
  }

  lemma FitsLeaf(pre: seq<NonTerm>, xs: seq<NonTerm>, n: nat)
    requires Waits(pre, n) && (xs == [] || xs == [NonTerm.Verify])
    ensures StacksFit(pre + xs, n + 1)
  {
    if xs == [] {
      assert pre + xs == pre;
      Delivered(pre, n);
    } else {
      WaitsWrap(pre, NonTerm.Verify, n);
      Delivered(pre + [NonTerm.Verify], n);
    }
  }

  /** After a shift the stacks still fit. */
  lemma ShiftFits(nts: seq<NonTerm>, n: nat, s: Shift)
    requires Waits(nts, n) && ShiftShape(s)
    ensures StacksFit(nts + [NonTerm.InscribePre] + s.nts, n + |s.ts|)
  {
    WaitsWrap(nts, NonTerm.InscribePre, n);
    PickShape(nts + [NonTerm.InscribePre], n, s);
  }

  lemma PickShape(pre: seq<NonTerm>, n: nat, s: Shift)
    requires Waits(pre, n) && ShiftShape(s)
    ensures StacksFit(pre + s.nts, n + |s.ts|)
  {
    var xs := s.nts;
    if |s.ts| == 1 && (xs == [] || xs == [NonTerm.Verify]) {
      FitsLeaf(pre, xs, n);
    } else if |xs| == 3 {
      if xs[1].MaybeAndV? { FitsThree(pre, xs, n); } else { FitsBool(pre, xs, n); }
    } else if xs[|xs| - 1].ThreshW? {
      FitsThresh(pre, xs, n);
    } else {
      FitsTwo(pre, xs, n);
    }
  }

  // ----- nothing is ever missing from a stack -----

  lemma {:induction false} ExpectNoPanic(toks: seq<Token>, wanted: seq<Token>)
    ensures Expect(toks, wanted) != Bad(Panicked)
  {
    if wanted != [] && toks != [] { ExpectNoPanic(Front(toks), wanted[1..]); }
  }

  lemma {:induction false} TakeInscriptionsNoPanic(dx: Dx, toks: seq<Token>)
    ensures TakeInscriptions(dx, toks) != Bad(Panicked)
  {
    if EndsInInscription(toks) { TakeInscriptionsNoPanic(dx, Front(toks)); }
  }

  lemma {:induction false} TakeKeysNoPanic(dx: Dx, toks: seq<Token>, n: nat)
    ensures TakeKeys(dx, toks, n) != Bad(Panicked)
  {
    if n > 0 && toks != [] { TakeKeysNoPanic(dx, Front(toks), n - 1); }
  }

  lemma {:induction false} TakeSigAddsNoPanic(dx: Dx, toks: seq<Token>)
    ensures TakeSigAdds(dx, toks) != Bad(Panicked)
    decreases |toks|
  {
    if toks != [] && LastTok(toks) == Op(OpCheckSigAdd) {
      var k := TakeKey32(dx, Front(toks));
      if k.Good? { TakeSigAddsNoPanic(dx, k.value.1); }
    }
  }

  lemma ShiftHashNoPanic(image: Bytes, wide: bool, nts: seq<NonTerm>, toks: seq<Token>)
    ensures ShiftHashOp(image, wide, nts, toks) != Bad(Panicked)
  {
    if toks != [] { ExpectNoPanic(Front(toks), SIZE_CHECK); }
  }

  lemma ShiftMultiNoPanic(dx: Dx, toks: seq<Token>)
    ensures ShiftMulti(dx, toks) != Bad(Panicked) && ShiftMultiA(dx, toks) != Bad(Panicked)
  {
    if toks != [] && LastTok(toks).Num? {
      TakeKeysNoPanic(dx, Front(toks), LastTok(toks).n);
      TakeSigAddsNoPanic(dx, Front(toks));
      var r := TakeSigAdds(dx, Front(toks));
      if r.Good? { ExpectNoPanic(r.value.1, [Op(OpCheckSig)]); }
    }
  }

  lemma ShiftOpNoPanic(dx: Dx, op: Opcode, toks: seq<Token>)
    ensures ShiftOp(dx, op, toks) != Bad(Panicked)
  {
    ExpectNoPanic(toks, [Op(OpCheckTemplateVerify)]);
    ShiftMultiNoPanic(dx, toks);
    if toks != [] {
      var rest := Front(toks);
      if LastTok(toks).Hash20? || LastTok(toks).Bytes32? {
        ShiftHashNoPanic(LastTok(toks).bytes, LastTok(toks).Bytes32?, [], rest);
      }
      if rest != [] && (LastTok(rest).Hash20? || LastTok(rest).Bytes32?) {
        ShiftHashNoPanic(LastTok(rest).bytes, LastTok(rest).Bytes32?, [NonTerm.Verify], Front(rest));
      }
    }
  }

  lemma ShiftNoPanic(dx: Dx, toks: seq<Token>)
    ensures ShiftExpression(dx, toks) != Bad(Panicked) && ShiftW(dx, toks) != Bad(Panicked)
  {
    TakeInscriptionsNoPanic(dx, toks);
    if toks != [] && LastTok(toks).Op? { ShiftOpNoPanic(dx, LastTok(toks).op, Front(toks)); }
  }

  ghost predicate Kept(dx: Dx, x: NonTerm, nts: seq<NonTerm>, ts: seq<Term>, toks: seq<Token>) {
    var r := Handle(dx, x, nts, ts, toks);
    r != Bad(Panicked) && (r.Good? ==> StacksFit(r.value.nts, |r.value.ts|))
  }

  lemma StepWrapFits(dx: Dx, x: NonTerm, nts: seq<NonTerm>, ts: seq<Term>, toks: seq<Token>)
    requires Arity(x) == 1 && !x.ThreshE? && ts != [] && Waits(nts, |ts| - 1)
    ensures Kept(dx, x, nts, ts, toks)
  {
    var rest := Below(ts, 1);
    Delivered(nts, |rest|);
    ExpectNoPanic(toks, [Op(OpSwap)]);
    ExpectNoPanic(toks, [Op(OpToAltStack)]);
  }

  lemma StepTwoFits(dx: Dx, x: NonTerm, nts: seq<NonTerm>, ts: seq<Term>, toks: seq<Token>)
    requires (x.AndB? || x.OrB? || x.OrC? || x.OrD?) && |ts| >= 2 && Waits(nts, |ts| - 2)
    ensures Kept(dx, x, nts, ts, toks)
  {
    var rest := Below(ts, 2);
    Delivered(nts, |rest|);
  }

  lemma StepAndVFits(dx: Dx, nts: seq<NonTerm>, ts: seq<Term>, toks: seq<Token>)
    requires |ts| >= 2 && Waits(nts, |ts| - 2)
    ensures Kept(dx, NonTerm.AndV, nts, ts, toks)
  {
    Delivered(nts, |ts| - 2);
    FitsSearch(nts, [NonTerm.AndV, MaybeAndV], |ts| - 1);
  }

  lemma StepElseFits(dx: Dx, nts: seq<NonTerm>, ts: seq<Term>, toks: seq<Token>)
    requires |ts| >= 2 && Waits(nts, |ts| - 2)
    ensures Kept(dx, EndIfElse, nts, ts, toks)
  {
    Delivered(nts, |ts| - 2);
    FitsTwo(nts, [Tern, Expression], |ts|);
  }

  lemma StepManyFits(dx: Dx, x: NonTerm, nts: seq<NonTerm>, ts: seq<Term>, toks: seq<Token>)
    requires (x.Tern? || x.ThreshE?) && 1 <= Arity(x) <= |ts| && Waits(nts, |ts| - Arity(x))
    ensures Kept(dx, x, nts, ts, toks)
  {
    var rest := Below(ts, Arity(x));
    Delivered(nts, |rest|);
  }

  lemma StepThreshFits(dx: Dx, x: NonTerm, nts: seq<NonTerm>, ts: seq<Term>, toks: seq<Token>)
    requires x.ThreshW? && x.n <= |ts| && Waits(nts, |ts| - x.n)
    ensures Kept(dx, x, nts, ts, toks)
  {
    FitsTwo(nts, [ThreshW(x.k, x.n + 1), WExpression], |ts|);
    FitsTwo(nts, [ThreshE(x.k, x.n + 1), Expression], |ts|);
  }

  lemma StepEndIfFits(dx: Dx, x: NonTerm, nts: seq<NonTerm>, ts: seq<Term>, toks: seq<Token>)
    requires x.EndIf? && ts != [] && Waits(nts, |ts| - 1)
    ensures Kept(dx, x, nts, ts, toks)
  {
    if toks != [] { ExpectNoPanic(Front(toks), [Op(OpZeroNotEqual), Op(OpSize)]); }
    FitsThree(nts, [EndIfElse, MaybeAndV, Expression], |ts|);
    FitsTop(nts, EndIfNotIf, |ts|);
    FitsTop(nts, NonTerm.DupIf, |ts|);
    FitsTop(nts, NonTerm.NonZero, |ts|);
  }

  lemma StepNotIfFits(dx: Dx, x: NonTerm, nts: seq<NonTerm>, ts: seq<Term>, toks: seq<Token>)
    requires x.EndIfNotIf? && ts != [] && Waits(nts, |ts| - 1)
    ensures Kept(dx, x, nts, ts, toks)
  {
    FitsTwo(nts, [NonTerm.OrD, Expression], |ts|);
    FitsTwo(nts, [NonTerm.OrC, Expression], |ts|);
  }

  lemma StepSearchFits(dx: Dx, x: NonTerm, nts: seq<NonTerm>, ts: seq<Term>, toks: seq<Token>)
    requires (x.MaybeAndV? || x.InscribePre?) && ts != [] && Waits(nts, |ts| - 1)
    ensures Kept(dx, x, nts, ts, toks)
  {
    Delivered(nts, |ts| - 1);
    FitsTwo(nts, [NonTerm.AndV, Expression], |ts|);
    TakeInscriptionsNoPanic(dx, toks);
  }

  lemma OfShiftFits(nts: seq<NonTerm>, ts: seq<Term>, s: Parse<Shift>)
    requires Waits(nts, |ts|) && s != Bad(Panicked) && (s.Good? ==> ShiftShape(s.value))
    ensures var r := OfShift(nts, ts, s);
            r != Bad(Panicked) && (r.Good? ==> StacksFit(r.value.nts, |r.value.ts|))
  {
    if s.Good? { ShiftFits(nts, |ts|, s.value); }
  }

  lemma StepShiftFits(dx: Dx, x: NonTerm, nts: seq<NonTerm>, ts: seq<Term>, toks: seq<Token>)
    requires (x.Expression? || x.WExpression?) && Waits(nts, |ts|)
    ensures Kept(dx, x, nts, ts, toks)
  {
    ShiftNoPanic(dx, toks);
    if x.Expression? {
      ShiftExpressionShape(dx, toks);
      OfShiftFits(nts, ts, ShiftExpression(dx, toks));
    } else {
      ShiftWShape(dx, toks);
      OfShiftFits(nts, ts, ShiftW(dx, toks));
    }
  }

  /** Every step finds the terms it needs, and leaves stacks that fit. */
  lemma StepFits(dx: Dx, x: NonTerm, nts: seq<NonTerm>, ts: seq<Term>, toks: seq<Token>)
    requires StacksFit(nts + [x], |ts|)
    ensures Kept(dx, x, nts, ts, toks)
  {
    FitsArity(nts, x, |ts|);
    if x.Expression? || x.WExpression? {
      StepShiftFits(dx, x, nts, ts, toks);
    } else if x.ThreshW? {
      StepThreshFits(dx, x, nts, ts, toks);
    } else if x.EndIf? {
      StepEndIfFits(dx, x, nts, ts, toks);
    } else if x.EndIfNotIf? {
      StepNotIfFits(dx, x, nts, ts, toks);
    } else if x.MaybeAndV? || x.InscribePre? {
      StepSearchFits(dx, x, nts, ts, toks);
    } else if x.Tern? || x.ThreshE? {
      FitsCanWait(nts, x, |ts|);
      StepManyFits(dx, x, nts, ts, toks);
    } else if Arity(x) == 1 {
      StepWrapFits(dx, x, nts, ts, toks);
    } else if x.AndV? {
      StepAndVFits(dx, nts, ts, toks);
    } else if x.EndIfElse? {
      StepElseFits(dx, nts, ts, toks);
    } else {
      StepTwoFits(dx, x, nts, ts, toks);
    }
  }

  lemma FitsCanWait(nts: seq<NonTerm>, x: NonTerm, n: nat)
    requires x.ThreshE? || x.Tern?
    requires StacksFit(nts + [x], n)
    ensures CanWait(x)
  {
    FitsTop(nts, x, n);
    if n >= 1 { WaitsOn(nts, x, n - 1); }
  }
}
