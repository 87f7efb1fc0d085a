/** Decoder soundness: a decoded term encodes to the tokens it was read from. */
module DecoderSoundness {
  import opened Script
  import opened Terms
  import opened Decoder
  import opened DecoderSound
  import opened DecoderExact
  import opened DecoderShift

  // ----- no fragment encodes to nothing -----

  lemma {:induction false} SpreadEncode(env: Env, t: Term)
    requires WellFormed(env, t)
    ensures |Spread(Encode(env, t))| >= 1
    decreases t, 0
  {
    match t
    case InscribePre(ins, sub) =>
      SpreadEncode(env, sub);
      SpreadConcat(EnvelopeTokens(ins), Encode(env, sub));
    case InscribePost(ins, sub) =>
      SpreadEncode(env, sub);
      SpreadConcat(Encode(env, sub), EnvelopeTokens(ins));
    case AndV(l, r) =>
      SpreadEncode(env, l);
      SpreadConcat(Encode(env, l), Encode(env, r));
    case Swap(sub) => SpreadHead(Op(OpSwap), Encode(env, sub));
    case _ => SpreadLast(env, t);
  }

  lemma SpreadHead(tok: Token, toks: seq<Token>)
    requires !tok.Inscription?
    ensures |Spread([tok] + toks)| >= 1
  {
    assert ([tok] + toks)[0] == tok;
  }

  /** Most encodings end in an ordinary token. */
  lemma SpreadLast(env: Env, t: Term)
    requires WellFormed(env, t) && !t.InscribePre? && !t.InscribePost? && !t.AndV? && !t.Swap?
    ensures |Spread(Encode(env, t))| >= 1
  {
    var toks := Encode(env, t);
    EndsPlain(env, t);
    FrontLast(toks);
    SpreadConcat(Front(toks), [LastTok(toks)]);
    assert Spread([LastTok(toks)]) == SpreadOne(LastTok(toks)) + Spread([LastTok(toks)][1..]);
  }

  lemma EndsPlain(env: Env, t: Term)
    requires WellFormed(env, t) && !t.InscribePre? && !t.InscribePost? && !t.AndV? && !t.Swap?
    ensures Encode(env, t) != [] && !LastTok(Encode(env, t)).Inscription?
  {
  }

  lemma {:induction false} SpreadAdds(env: Env, subs: seq<Term>)
    requires forall i :: 0 <= i < |subs| ==> WellFormed(env, subs[i])
    ensures |Spread(EncodeAdds(env, subs))| >= |subs|
  {
    if subs != [] {
      SpreadEncode(env, subs[0]);
      SpreadAdds(env, subs[1..]);
      SpreadConcat(Encode(env, subs[0]), [Op(OpAdd)]);
      SpreadConcat(Encode(env, subs[0]) + [Op(OpAdd)], EncodeAdds(env, subs[1..]));
    }
  }

  // ----- the invariant -----

  /** The consumed tokens are those of the two stacks, which fit together and
      hold well-formed terms. */
  ghost predicate Invariant(dx: Dx, all: seq<Token>, nts: seq<NonTerm>, ts: seq<Term>, toks: seq<Token>) {
    && StacksFit(nts, |ts|) && AllWellFormed(dx.env, ts) && PostsValid(nts) && ValidTokens(toks)
    && SameTokens(all, toks + Consumed(dx.env, nts, ts))
  }

  lemma StepSameReduce(dx: Dx, x: NonTerm, nts: seq<NonTerm>, ts: seq<Term>, toks: seq<Token>)
    requires StacksFit(nts + [x], |ts|) && Handle(dx, x, nts, ts, toks).Good?
    requires Arity(x) >= 1
    ensures StepSame(dx, x, nts, ts, toks)
  {
    FitsArity(nts, x, |ts|);
    match x
    case Check => StepWrapSame(dx, x, nts, ts, toks);
    case Verify => StepWrapSame(dx, x, nts, ts, toks);
    case ZeroNotEqual => StepWrapSame(dx, x, nts, ts, toks);
    case InscribePost(_) => StepPostSame(dx, x, nts, ts, toks);
    case Swap => StepWSame(dx, x, nts, ts, toks);
    case Alt => StepWSame(dx, x, nts, ts, toks);
    case DupIf => StepDirectSame(dx, x, nts, ts, toks);
    case NonZero => StepDirectSame(dx, x, nts, ts, toks);
    case AndV => if IsAndV(toks) { StepAndVMore(dx, nts, ts, toks); } else { StepAndVEnd(dx, nts, ts, toks); }
    case AndB => StepBinarySame(dx, x, nts, ts, toks);
    case OrB => StepBinarySame(dx, x, nts, ts, toks);
    case OrC => StepOrElseSame(dx, x, nts, ts, toks);
    case OrD => StepOrElseSame(dx, x, nts, ts, toks);
    case EndIfElse =>
      if LastTok(toks) == Op(OpIf) { StepOrISame(dx, nts, ts, toks); } else { StepTernSame(dx, nts, ts, toks); }
    case Tern => StepAndOrSame(dx, nts, ts, toks);
    case ThreshE(_, _) => StepThreshEnd(dx, x, nts, ts, toks);
  }

  /** Every step keeps the tokens that the state stands for. */
  lemma StepKeepsTokens(dx: Dx, x: NonTerm, nts: seq<NonTerm>, ts: seq<Term>, toks: seq<Token>)
    requires StacksFit(nts + [x], |ts|) && ValidTokens(toks) && Handle(dx, x, nts, ts, toks).Good?
    ensures StepSame(dx, x, nts, ts, toks)
  {
    FitsArity(nts, x, |ts|);
    if x.Expression? || x.WExpression? {
      StepShiftSame(dx, x, nts, ts, toks);
    } else if x.ThreshW? {
      StepThreshSame(dx, x, nts, ts, toks);
    } else if x.EndIf? {
      StepEndIfSame(dx, nts, ts, toks);
    } else if x.EndIfNotIf? {
      StepNotIfSame(dx, nts, ts, toks);
    } else if x.MaybeAndV? {
      StepSearchSame(dx, nts, ts, toks);
    } else if x.InscribePre? {
      StepPreSame(dx, nts, ts, toks);
    } else if x.ThreshE? {
      FitsCanWait(nts, x, |ts|);
      StepSameReduce(dx, x, nts, ts, toks);
    } else {
      StepSameReduce(dx, x, nts, ts, toks);
    }
  }

  // ----- terms stay well formed -----

  lemma ConcatWellFormed(env: Env, ts: seq<Term>, t: Term)
    requires AllWellFormed(env, ts) && WellFormed(env, t)
    ensures AllWellFormed(env, ts + [t])
  {
  }

  lemma BelowWellFormed(env: Env, ts: seq<Term>, n: nat)
    requires AllWellFormed(env, ts) && n <= |ts|
    ensures AllWellFormed(env, Below(ts, n))
  {
  }

  lemma SpreadLength(a: seq<Token>, b: seq<Token>, n: nat, m: nat)
    requires n == |Spread(a)| && m == |Spread(b)|
    ensures |Spread(a + b)| == n + m
  {
    SpreadConcat(a, b);
  }

  /** The parts of a token string have no more instructions than the whole. */
  lemma SpreadParts(toks: seq<Token>, top: seq<Token>, adds: seq<Token>, last: seq<Token>, tail: seq<Token>, n: nat)
    requires n == |Spread(adds)|
    ensures |Spread(toks + (top + (adds + last + tail)))| >= |Spread(top)| + n
  {
    var l, t, h, f := |Spread(last)|, |Spread(tail)|, |Spread(top)|, |Spread(toks)|;
    SpreadLength(adds, last, n, l);
    SpreadLength(adds + last, tail, n + l, t);
    SpreadLength(top, adds + last + tail, h, n + l + t);
    SpreadLength(toks, top + (adds + last + tail), f, h + n + l + t);
  }

  lemma ConsumedThresh(env: Env, nts: seq<NonTerm>, x: NonTerm, ts: seq<Term>, top: seq<Token>, adds: seq<Token>,
                       last: seq<Token>, tail: seq<Token>)
    requires x.ThreshE? && 1 <= x.n <= |ts| && top == Encode(env, TopTerm(ts, 0))
    requires adds == EncodeAdds(env, LastTerms(Below(ts, 1), Pops(x))) && last == [Num(x.k), Op(OpEqual)]
    requires tail == Tail(env, nts, Below(ts, Pops(x) + 1))
    ensures Consumed(env, nts + [x], ts) == top + (adds + last + tail)
  {
    TopWaits(env, nts, x, ts, top, adds + last, Pops(x) + 1, tail);
  }

  lemma LastTermsAmong(ts: seq<Term>, n: nat)
    requires n <= |ts|
    ensures forall i :: 0 <= i < n ==> LastTerms(ts, n)[i] in ts
  {
  }

  /** A threshold has no more children than the script has instructions. */
  lemma ThreshFitsBlock(env: Env, all: seq<Token>, nts: seq<NonTerm>, x: NonTerm, ts: seq<Term>, toks: seq<Token>)
    requires x.ThreshE? && 1 <= x.n <= |ts| && AllWellFormed(env, ts)
    requires SameTokens(all, toks + Consumed(env, nts + [x], ts)) && |Spread(all)| <= MAX_BLOCK_WEIGHT
    ensures x.n <= MAX_BLOCK_WEIGHT
  {
    var rest := LastTerms(Below(ts, 1), Pops(x));
    var adds, last := EncodeAdds(env, rest), [Num(x.k), Op(OpEqual)];
    var top, tail := Encode(env, TopTerm(ts, 0)), Tail(env, nts, Below(ts, Pops(x) + 1));
    ConsumedThresh(env, nts, x, ts, top, adds, last, tail);
    SpreadParts(toks, top, adds, last, tail, |Spread(adds)|);
    LastTermsAmong(Below(ts, 1), Pops(x));
    SpreadAdds(env, rest);
    SpreadEncode(env, TopTerm(ts, 0));
  }

  lemma StepWellFormedReduce(dx: Dx, x: NonTerm, nts: seq<NonTerm>, ts: seq<Term>, toks: seq<Token>)
    requires AllWellFormed(dx.env, ts) && PostsValid(nts + [x]) && ValidTokens(toks)
    requires Arity(x) == 1 && !x.ThreshE? && ts != [] && Handle(dx, x, nts, ts, toks).Good?
    ensures var r := Handle(dx, x, nts, ts, toks).value;
            AllWellFormed(dx.env, r.ts) && PostsValid(r.nts) && ValidTokens(r.toks)
  {
    var r := Handle(dx, x, nts, ts, toks).value;
    BelowWellFormed(dx.env, ts, 1);
    PostsBelow(nts, x);
    if x.Swap? { ExpectOne(toks, Op(OpSwap)); ValidFront(r.toks, [Op(OpSwap)]); }
    if x.Alt? { ExpectOne(toks, Op(OpToAltStack)); ValidFront(r.toks, [Op(OpToAltStack)]); }
    ConcatWellFormed(dx.env, Below(ts, 1), r.ts[|r.ts| - 1]);
  }

  lemma PostsBelow(nts: seq<NonTerm>, x: NonTerm)
    requires PostsValid(nts + [x])
    ensures PostsValid(nts) && (x.InscribePost? ==> ValidInscriptions(x.inscriptions))
  {
    assert (nts + [x])[|nts|] == x;
    assert forall i :: 0 <= i < |nts| ==> (nts + [x])[i] == nts[i];
  }

  lemma StepWellFormedTwo(dx: Dx, x: NonTerm, nts: seq<NonTerm>, ts: seq<Term>, toks: seq<Token>)
    requires AllWellFormed(dx.env, ts) && PostsValid(nts + [x]) && ValidTokens(toks)
    requires Arity(x) == 2 && !x.ThreshE? && |ts| >= 2 && Handle(dx, x, nts, ts, toks).Good?
    ensures var r := Handle(dx, x, nts, ts, toks).value;
            AllWellFormed(dx.env, r.ts) && PostsValid(r.nts) && ValidTokens(r.toks)
  {
    var r := Handle(dx, x, nts, ts, toks).value;
    BelowWellFormed(dx.env, ts, 2);
    PostsBelow(nts, x);
    if r.ts != ts { ConcatWellFormed(dx.env, Below(ts, 2), r.ts[|r.ts| - 1]); }
  }

  lemma WellFormedTern(dx: Dx, nts: seq<NonTerm>, ts: seq<Term>, toks: seq<Token>)
    requires AllWellFormed(dx.env, ts) && |ts| >= 3 && Handle(dx, Tern, nts, ts, toks).Good?
    ensures var r := Handle(dx, Tern, nts, ts, toks).value;
            AllWellFormed(dx.env, r.ts) && r.nts == nts && r.toks == toks
  {
    BelowWellFormed(dx.env, ts, 3);
    ConcatWellFormed(dx.env, Below(ts, 3), Term.AndOr(TopTerm(ts, 0), TopTerm(ts, 2), TopTerm(ts, 1)));
  }

  lemma WellFormedThresh(dx: Dx, x: NonTerm, nts: seq<NonTerm>, ts: seq<Term>, toks: seq<Token>)
    requires AllWellFormed(dx.env, ts) && x.ThreshE? && x.n <= |ts| && x.n <= MAX_BLOCK_WEIGHT
    requires Handle(dx, x, nts, ts, toks).Good?
    ensures var r := Handle(dx, x, nts, ts, toks).value;
            AllWellFormed(dx.env, r.ts) && r.nts == nts && r.toks == toks
  {
    var subs := LastTerms(ts, x.n);
    LastTermsAmong(ts, x.n);
    BelowWellFormed(dx.env, ts, x.n);
    ConcatWellFormed(dx.env, Below(ts, x.n), Term.Thresh(x.k, subs));
  }

  /** A threshold about to be built has its children, and not too many of them. */
  lemma ThreshReady(dx: Dx, all: seq<Token>, x: NonTerm, nts: seq<NonTerm>, ts: seq<Term>, toks: seq<Token>)
    requires Invariant(dx, all, nts + [x], ts, toks) && |Spread(all)| <= MAX_BLOCK_WEIGHT && x.ThreshE?
    ensures x.n <= |ts| && x.n <= MAX_BLOCK_WEIGHT
  {
    FitsArity(nts, x, |ts|);
    FitsCanWait(nts, x, |ts|);
    ThreshFitsBlock(dx.env, all, nts, x, ts, toks);
  }

  lemma StepWellFormedMany(dx: Dx, x: NonTerm, nts: seq<NonTerm>, ts: seq<Term>, toks: seq<Token>)
    requires AllWellFormed(dx.env, ts) && PostsValid(nts + [x]) && ValidTokens(toks) && Arity(x) <= |ts|
    requires (x.Tern? || (x.ThreshE? && x.n <= MAX_BLOCK_WEIGHT)) && Handle(dx, x, nts, ts, toks).Good?
    ensures var r := Handle(dx, x, nts, ts, toks).value;
            AllWellFormed(dx.env, r.ts) && PostsValid(r.nts) && ValidTokens(r.toks)
  {
    PostsBelow(nts, x);
    if x.Tern? { WellFormedTern(dx, nts, ts, toks); } else { WellFormedThresh(dx, x, nts, ts, toks); }
  }

  lemma StepWellFormedPush(dx: Dx, x: NonTerm, nts: seq<NonTerm>, ts: seq<Term>, toks: seq<Token>)
    requires AllWellFormed(dx.env, ts) && PostsValid(nts + [x]) && ValidTokens(toks)
    requires x.MaybeAndV? || x.ThreshW? || x.EndIf? || x.EndIfNotIf?
    requires Handle(dx, x, nts, ts, toks).Good?
    ensures var r := Handle(dx, x, nts, ts, toks).value;
            AllWellFormed(dx.env, r.ts) && PostsValid(r.nts) && ValidTokens(r.toks)
  {
    PostsBelow(nts, x);
    if x.EndIf? && LastTok(toks) == Op(OpIf) && !(Front(toks) != [] && LastTok(Front(toks)) == Op(OpDup)) {
      var wanted := [Op(OpZeroNotEqual), Op(OpSize)];
      ExpectTwo(Front(toks), Op(OpZeroNotEqual), Op(OpSize));
      ValidFront(Expect(Front(toks), wanted).value, [Op(OpSize), Op(OpZeroNotEqual)]);
    }
  }

  lemma StepWellFormedPre(dx: Dx, nts: seq<NonTerm>, ts: seq<Term>, toks: seq<Token>)
    requires AllWellFormed(dx.env, ts) && PostsValid(nts + [NonTerm.InscribePre]) && ValidTokens(toks)
    requires ts != [] && Handle(dx, NonTerm.InscribePre, nts, ts, toks).Good?
    ensures var r := Handle(dx, NonTerm.InscribePre, nts, ts, toks).value;
            AllWellFormed(dx.env, r.ts) && PostsValid(r.nts) && ValidTokens(r.toks)
  {
    PostsBelow(nts, NonTerm.InscribePre);
    if EndsInInscription(toks) {
      TakenInscriptions(dx, toks);
      TakeInscriptionsFront(dx, toks);
      BelowWellFormed(dx.env, ts, 1);
    }
  }

  lemma StepWellFormedShift(dx: Dx, x: NonTerm, nts: seq<NonTerm>, ts: seq<Term>, toks: seq<Token>)
    requires AllWellFormed(dx.env, ts) && PostsValid(nts + [x]) && ValidTokens(toks)
    requires (x.Expression? || x.WExpression?) && Waits(nts, |ts|) && Handle(dx, x, nts, ts, toks).Good?
    ensures var r := Handle(dx, x, nts, ts, toks).value;
            AllWellFormed(dx.env, r.ts) && PostsValid(r.nts) && ValidTokens(r.toks)
  {
    PostsBelow(nts, x);
    StepShiftSame(dx, x, nts, ts, toks);
    var s := (if x.Expression? then ShiftExpression(dx, toks) else ShiftW(dx, toks)).value;
    assert forall i :: 0 <= i < |s.toks| ==> s.toks[i] == toks[i];
  }

  /** Every step keeps the invariant. */
  lemma StepInvariant(dx: Dx, all: seq<Token>, x: NonTerm, nts: seq<NonTerm>, ts: seq<Term>, toks: seq<Token>)
    requires Invariant(dx, all, nts + [x], ts, toks) && |Spread(all)| <= MAX_BLOCK_WEIGHT
    ensures var r := Handle(dx, x, nts, ts, toks);
            r != Bad(Panicked) && (r.Good? ==> Invariant(dx, all, r.value.nts, r.value.ts, r.value.toks))
  {
    StepFits(dx, x, nts, ts, toks);
    FitsArity(nts, x, |ts|);
    if Handle(dx, x, nts, ts, toks).Good? {
      StepKeepsTokens(dx, x, nts, ts, toks);
      if x.Expression? || x.WExpression? {
        StepWellFormedShift(dx, x, nts, ts, toks);
      } else if x.Tern? || x.ThreshE? {
        if x.ThreshE? { ThreshReady(dx, all, x, nts, ts, toks); }
        StepWellFormedMany(dx, x, nts, ts, toks);
      } else if x.InscribePre? {
        StepWellFormedPre(dx, nts, ts, toks);
      } else if Arity(x) == 0 {
        StepWellFormedPush(dx, x, nts, ts, toks);
      } else if Arity(x) == 1 {
        StepWellFormedReduce(dx, x, nts, ts, toks);
      } else {
        StepWellFormedTwo(dx, x, nts, ts, toks);
      }
    }
  }

  /** What a run from stacks with the invariant ends with. */
  predicate SoundEnd(dx: Dx, all: seq<Token>, r: Parse<(seq<Term>, seq<Token>)>) {
    && r != Bad(Panicked)
    && (r.Good? ==>
          && |r.value.0| == 1 && WellFormed(dx.env, r.value.0[0])
          && SameTokens(all, r.value.1 + Encode(dx.env, r.value.0[0])))
  }

  lemma {:induction false} RunSound(dx: Dx, all: seq<Token>, nts: seq<NonTerm>, ts: seq<Term>, toks: seq<Token>)
    requires Invariant(dx, all, nts, ts, toks) && |Spread(all)| <= MAX_BLOCK_WEIGHT
    ensures SoundEnd(dx, all, RunDecode(dx, nts, ts, toks))
    decreases |toks|, Phase(nts, toks), 1
  {
    if nts == [] {
      EndSound(dx, all, ts, toks);
    } else {
      SplitTop(nts);
      RunSoundStep(dx, all, nts[..|nts| - 1], nts[|nts| - 1], ts, toks);
    }
  }

  lemma SplitTop(nts: seq<NonTerm>)
    requires nts != []
    ensures nts[..|nts| - 1] + [nts[|nts| - 1]] == nts
  {
  }

  lemma {:induction false} RunSoundStep(dx: Dx, all: seq<Token>, nts: seq<NonTerm>, x: NonTerm, ts: seq<Term>, toks: seq<Token>)
    requires Invariant(dx, all, nts + [x], ts, toks) && |Spread(all)| <= MAX_BLOCK_WEIGHT
    ensures SoundEnd(dx, all, RunDecode(dx, nts + [x], ts, toks))
    decreases |toks|, Phase(nts + [x], toks), 0
  {
    StepInvariant(dx, all, x, nts, ts, toks);
    StepProgress(dx, x, nts, ts, toks);
    RunStep(dx, nts, x, ts, toks);
    var r := Handle(dx, x, nts, ts, toks);
    if r.Good? { RunSound(dx, all, r.value.nts, r.value.ts, r.value.toks); }
  }

  lemma EndSound(dx: Dx, all: seq<Token>, ts: seq<Term>, toks: seq<Token>)
    requires Invariant(dx, all, [], ts, toks)
    ensures SoundEnd(dx, all, RunDecode(dx, [], ts, toks))
  {
  }

  // ----- soundness -----

  const START: seq<NonTerm> := [MaybeAndV, Expression]

  /** The term a token sequence decodes to, with the tokens left over. */
  function DecodeTokens(dx: Dx, toks: seq<Token>): Parse<(Term, seq<Token>)> {
    var (ts, rest) :- RunDecode(dx, START, [], toks);
    if |ts| != 1 then Bad(Panicked) else Good((ts[0], rest))
  }

  lemma StartInvariant(dx: Dx, toks: seq<Token>)
    requires ValidTokens(toks)
    ensures Invariant(dx, toks, START, [], toks)
  {
    WaitsOn([], MaybeAndV, 0);
    FitsTop([MaybeAndV], Expression, 0);
    assert START == [MaybeAndV] + [Expression] && [MaybeAndV] == [] + [MaybeAndV];
    TopPending(dx.env, [MaybeAndV], Expression, []);
    TailOn(dx.env, [], MaybeAndV, []);
    assert Consumed(dx.env, START, []) == [];
    assert toks + [] == toks;
  }

  /** A decoded term is well formed and encodes to exactly the tokens that were
      consumed; no term is ever missing from a stack. */
  lemma DecodeSound(dx: Dx, toks: seq<Token>)
    requires ValidTokens(toks) && |Spread(toks)| <= MAX_BLOCK_WEIGHT
    ensures var r := DecodeTokens(dx, toks);
            && r != Bad(Panicked)
            && (r.Good? ==>
                  WellFormed(dx.env, r.value.0) && SameTokens(toks, r.value.1 + Encode(dx.env, r.value.0)))
  {
    StartInvariant(dx, toks);
    RunSound(dx, toks, START, [], toks);
  }

  /** When everything was consumed, the term's script is the script that was
      decoded, instruction by instruction. */
  lemma DecodeRoundTrip(dx: Dx, toks: seq<Token>)
    requires ValidTokens(toks) && |Spread(toks)| <= MAX_BLOCK_WEIGHT
    requires DecodeTokens(dx, toks).Good? && DecodeTokens(dx, toks).value.1 == []
    ensures Flatten(Encode(dx.env, DecodeTokens(dx, toks).value.0)) == Flatten(toks)
  {
    DecodeSound(dx, toks);
    WholeMeans(toks, DecodeTokens(dx, toks).value.1, Encode(dx.env, DecodeTokens(dx, toks).value.0));
  }

  lemma WholeMeans(toks: seq<Token>, left: seq<Token>, code: seq<Token>)
    requires SameTokens(toks, left + code) && left == []
    ensures Flatten(code) == Flatten(toks)
  {
    assert left + code == code;
    SameTokensMeans(toks, code);
  }
}
