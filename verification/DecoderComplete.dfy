/** Decoder completeness: from the tokens of a term in canonical shape the
    decoder recovers that term, unless a type check rejects one of its parts. */
module DecoderComplete {
  import opened Bytes
  import opened Script
  import opened Terms
  import opened Decoder
  import opened DecoderSound

  // ----- canonical shapes -----

  /** The shapes an expression is decoded to: no inscriptions, keys only where
      scripts have them, and every `and_v` where one is looked for. */
  predicate Atomic(t: Term)
    decreases t, 0
  {
    match t
    case Check(x) => Atomic(x)
    case Verify(x) => Atomic(x)
    case ZeroNotEqual(x) => Atomic(x)
    case DupIf(x) => Sequence(x)
    case NonZero(x) => Sequence(x)
    case AndB(l, r) => Atomic(l) && WShape(r)
    case OrB(l, r) => Atomic(l) && WShape(r)
    case AndOr(a, b, c) => Atomic(a) && Sequence(b) && Sequence(c)
    case OrD(l, r) => Atomic(l) && Sequence(r)
    case OrC(l, r) => Atomic(l) && Sequence(r)
    case OrI(l, r) => Sequence(l) && Sequence(r)
    case Thresh(_, subs) => subs != [] && Atomic(subs[0]) && forall i :: 1 <= i < |subs| ==> WShape(subs[i])
    case PkH(_) => false
    case InscribePre(_, _) => false
    case InscribePost(_, _) => false
    case Alt(_) => false
    case Swap(_) => false
    case AndV(_, _) => false
    case _ => true
  }

  /** An `and_v` chain nested to the left. */
  predicate Sequence(t: Term)
    decreases t, 1
  {
    if t.AndV? then Sequence(t.left) && Atomic(t.right) else Atomic(t)
  }

  predicate WShape(t: Term)
    decreases t, 2
  {
    (t.Alt? || t.Swap?) && Sequence(t.sub)
  }

  /** Every part of the term that the decoder type checks is accepted. */
  predicate AllAccepted(dx: Dx, t: Term) {
    match t
    case TxTemplate(_) => dx.accepts(t)
    case True | False | PkK(_) | PkH(_) | RawPkH(_) | After(_) | Older(_) | HashLock(_, _) | Multi(_, _) | MultiA(_, _) => true
    case InscribePre(_, x) => AllAccepted(dx, x) && dx.accepts(t)
    case InscribePost(_, x) => AllAccepted(dx, x) && dx.accepts(t)
    case Alt(x) => AllAccepted(dx, x) && dx.accepts(t)
    case Swap(x) => AllAccepted(dx, x) && dx.accepts(t)
    case Check(x) => AllAccepted(dx, x) && dx.accepts(t)
    case DupIf(x) => AllAccepted(dx, x) && dx.accepts(t)
    case Verify(x) => AllAccepted(dx, x) && dx.accepts(t)
    case NonZero(x) => AllAccepted(dx, x) && dx.accepts(t)
    case ZeroNotEqual(x) => AllAccepted(dx, x) && dx.accepts(t)
    case AndV(l, r) => AllAccepted(dx, l) && AllAccepted(dx, r) && dx.accepts(t)
    case AndB(l, r) => AllAccepted(dx, l) && AllAccepted(dx, r) && dx.accepts(t)
    case OrB(l, r) => AllAccepted(dx, l) && AllAccepted(dx, r) && dx.accepts(t)
    case OrD(l, r) => AllAccepted(dx, l) && AllAccepted(dx, r) && dx.accepts(t)
    case OrC(l, r) => AllAccepted(dx, l) && AllAccepted(dx, r) && dx.accepts(t)
    case OrI(l, r) => AllAccepted(dx, l) && AllAccepted(dx, r) && dx.accepts(t)
    case AndOr(a, b, c) => AllAccepted(dx, a) && AllAccepted(dx, b) && AllAccepted(dx, c) && dx.accepts(t)
    case Thresh(_, subs) => (forall i :: 0 <= i < |subs| ==> AllAccepted(dx, subs[i])) && dx.accepts(t)
  }

  // ----- how encodings end -----

  /** Tokens that never end a search for `and_v` or a threshold's children. */
  predicate Ordinary(tok: Token) {
    match tok
    case Op(op) =>
      !op.OpIf? && !op.OpNotIf? && !op.OpElse? && !op.OpToAltStack? && !op.OpSwap? && !op.OpAdd?
      && !op.OpIfDup? && !op.OpFromAltStack?
    case Inscription(_) => false
    case _ => true
  }

  predicate EndsOrdinary(toks: seq<Token>) { toks != [] && Ordinary(LastTok(toks)) }

  lemma LastOf(a: seq<Token>, b: seq<Token>)
    requires b != []
    ensures LastTok(a + b) == LastTok(b) && Front(a + b) == a + Front(b)
  {
  }

  lemma FrontOf(f: seq<Token>, tok: Token)
    ensures f + [tok] != [] && LastTok(f + [tok]) == tok && Front(f + [tok]) == f
  {
  }

  lemma LastIs(a: seq<Token>, b: seq<Token>, tok: Token)
    ensures a + (b + [tok]) == a + b + [tok]
    ensures LastTok(a + (b + [tok])) == tok && Front(a + (b + [tok])) == a + b
  {
    Assoc(a, b, [tok]);
  }

  lemma LeafEnds(env: Env, t: Term)
    requires IsLeaf(t) && WellFormed(env, t)
    ensures EndsOrdinary(Encode(env, t))
    ensures LastTok(Encode(env, t)) == Op(OpEqual) <==> t.HashLock?
  {
  }

  /** Nothing that is decoded as an expression ends in a token that has a meaning
      for the fragment to its right. */
  lemma {:induction false} SequenceEnds(env: Env, t: Term)
    requires Sequence(t) && WellFormed(env, t)
    ensures EndsOrdinary(Encode(env, t))
    ensures Atomic(t) ==> (LastTok(Encode(env, t)) == Op(OpEqual) <==> t.HashLock? || t.Thresh?)
  {
    if t.AndV? {
      SequenceEnds(env, t.right);
      LastOf(Encode(env, t.left), Encode(env, t.right));
    } else if IsLeaf(t) {
      LeafEnds(env, t);
    }
  }

  lemma Continues(a: seq<Token>, b: seq<Token>)
    requires EndsOrdinary(b)
    ensures IsAndV(a + b) && !EndsInInscription(a + b) && EndsOrdinary(a + b)
  {
    LastOf(a, b);
  }

  // ----- leaves -----

  lemma ExpectMore(a: seq<Token>, tok: Token, wanted: seq<Token>)
    requires wanted != [] && wanted[0] == tok
    ensures Expect(a + [tok], wanted) == Expect(a, wanted[1..])
  {
    LastIs(a, [], tok);
    assert Front(a + [tok]) == a;
  }

  lemma ExpectSizes(a: seq<Token>)
    ensures Expect(a + [Op(OpSize), Num(32), Op(OpEqual), Op(OpVerify)], SIZE_CHECK) == Good(a)
  {
    var a1 := a + [Op(OpSize)];
    var a2 := a1 + [Num(32)];
    var a3 := a2 + [Op(OpEqual)];
    assert a + [Op(OpSize), Num(32), Op(OpEqual), Op(OpVerify)] == a3 + [Op(OpVerify)];
    ExpectMore(a3, Op(OpVerify), SIZE_CHECK);
    ExpectMore(a2, Op(OpEqual), SIZE_CHECK[1..]);
    ExpectMore(a1, Num(32), SIZE_CHECK[1..][1..]);
    ExpectMore(a, Op(OpSize), SIZE_CHECK[1..][1..][1..]);
    assert SIZE_CHECK[1..][1..][1..][1..] == [];
  }

  /** The hash of a hash lock and everything to its left. */
  lemma HashTail(toks: seq<Token>, kind: HashKind, image: Bytes, nts: seq<NonTerm>)
    requires |image| == HashSize(kind)
    ensures var all := toks + [Op(OpSize), Num(32), Op(OpEqual), Op(OpVerify), Op(OpHash(kind))];
            ShiftHashOp(image, HashSize(kind) == 32, nts, all) == Good(Shift(nts, [HashLock(kind, image)], toks))
  {
    var check := [Op(OpSize), Num(32), Op(OpEqual), Op(OpVerify)];
    var all := toks + [Op(OpSize), Num(32), Op(OpEqual), Op(OpVerify), Op(OpHash(kind))];
    assert all == toks + check + [Op(OpHash(kind))];
    assert Front(all) == toks + check && LastTok(all) == Op(OpHash(kind));
    ExpectSizes(toks);
  }

  lemma HashSplit(toks: seq<Token>, kind: HashKind, image: Bytes)
    ensures toks + HashTokens(kind, image)
            == toks + [Op(OpSize), Num(32), Op(OpEqual), Op(OpVerify), Op(OpHash(kind))]
               + [HashToken(kind, image)] + [Op(OpEqual)]
  {
  }

  lemma ShiftHashLock(dx: Dx, toks: seq<Token>, t: Term)
    requires t.HashLock? && WellFormed(dx.env, t)
    ensures ShiftExpression(dx, toks + Encode(dx.env, t)) == Good(Shift([], [t], toks))
  {
    var front := toks + [Op(OpSize), Num(32), Op(OpEqual), Op(OpVerify), Op(OpHash(t.kind))];
    var tok := HashToken(t.kind, t.image);
    HashSplit(toks, t.kind, t.image);
    var all := front + [tok] + [Op(OpEqual)];
    assert Front(all) == front + [tok] && LastTok(all) == Op(OpEqual);
    assert Front(front + [tok]) == front && LastTok(front + [tok]) == tok;
    HashTail(toks, t.kind, t.image, []);
  }

  /** The same below a VERIFY. */
  lemma ShiftVerifyHash(dx: Dx, toks: seq<Token>, t: Term)
    requires t.HashLock? && WellFormed(dx.env, t)
    ensures ShiftExpression(dx, toks + (Encode(dx.env, t) + [Op(OpVerify)])) == Good(Shift([NonTerm.Verify], [t], toks))
  {
    var front := toks + [Op(OpSize), Num(32), Op(OpEqual), Op(OpVerify), Op(OpHash(t.kind))];
    var tok := HashToken(t.kind, t.image);
    LastIs(toks, Encode(dx.env, t), Op(OpVerify));
    HashSplit(toks, t.kind, t.image);
    var all := front + [tok] + [Op(OpEqual)];
    assert Front(all) == front + [tok] && LastTok(all) == Op(OpEqual);
    assert Front(front + [tok]) == front && LastTok(front + [tok]) == tok;
    assert Front(front) == toks + [Op(OpSize), Num(32), Op(OpEqual), Op(OpVerify)] && LastTok(front) == Op(OpHash(t.kind));
    assert LastTok(Front(front)) == Op(OpVerify);
    HashTail(toks, t.kind, t.image, [NonTerm.Verify]);
  }

  lemma {:induction false} TakeAllKeys(dx: Dx, toks: seq<Token>, keys: seq<Bytes>)
    requires forall i :: 0 <= i < |keys| ==> IsFullKey(keys[i]) && dx.env.keyOk(keys[i])
    ensures TakeKeys(dx, toks + KeyTokens(keys), |keys|) == Good((keys, toks))
  {
    if keys == [] {
      assert toks + KeyTokens(keys) == toks;
    } else {
      var n := |keys| - 1;
      var before, key := keys[..n], keys[n];
      assert KeyTokens(keys) == KeyTokens(before) + [KeyToken(key)];
      LastIs(toks, KeyTokens(before), KeyToken(key));
      TakeAllKeys(dx, toks, before);
      assert keys == before + [key];
    }
  }

  lemma MultiTokens(toks: seq<Token>, k: Token, keys: seq<Token>, n: Token)
    ensures toks + ([k] + keys + [n, Op(OpCheckMultiSig)]) == toks + [k] + keys + [n] + [Op(OpCheckMultiSig)]
  {
  }

  lemma ShiftAllMulti(dx: Dx, toks: seq<Token>, t: Term)
    requires t.Multi? && WellFormed(dx.env, t)
    ensures ShiftExpression(dx, toks + Encode(dx.env, t)) == Good(Shift([], [t], toks))
  {
    var k, n, keys := Num(t.k), Num(|t.keys|), KeyTokens(t.keys);
    var f := toks + [k] + keys;
    MultiTokens(toks, k, keys, n);
    FrontOf(f + [n], Op(OpCheckMultiSig));
    FrontOf(f, n);
    TakeAllKeys(dx, toks + [k], t.keys);
    FrontOf(toks, k);
  }

  lemma {:induction false} TakeAllSigAdds(dx: Dx, toks: seq<Token>, keys: seq<Bytes>)
    requires toks != [] && LastTok(toks) == Op(OpCheckSig)
    requires forall i :: 0 <= i < |keys| ==> IsXOnlyKey(keys[i]) && dx.env.keyOk(keys[i])
    ensures TakeSigAdds(dx, toks + SigAddTokens(keys)) == Good((keys, toks))
    decreases |keys|
  {
    if keys == [] {
      assert toks + SigAddTokens(keys) == toks;
    } else {
      var n := |keys| - 1;
      var before, key := keys[..n], keys[n];
      assert keys == before + [key];
      SigAddsSnoc(before, key);
      var front := toks + SigAddTokens(before);
      assert toks + SigAddTokens(keys) == front + [KeyToken(key)] + [Op(OpCheckSigAdd)];
      assert Front(front + [KeyToken(key)] + [Op(OpCheckSigAdd)]) == front + [KeyToken(key)];
      assert Front(front + [KeyToken(key)]) == front;
      TakeAllSigAdds(dx, toks, before);
    }
  }

  lemma MultiATokens(toks: seq<Token>, key: Token, adds: seq<Token>, k: Token)
    ensures toks + ([key, Op(OpCheckSig)] + adds + [k, Op(OpNumEqual)]) ==
            toks + [key] + [Op(OpCheckSig)] + adds + [k] + [Op(OpNumEqual)]
  {
  }

  lemma ShiftAllMultiA(dx: Dx, toks: seq<Token>, t: Term)
    requires t.MultiA? && WellFormed(dx.env, t)
    ensures ShiftExpression(dx, toks + Encode(dx.env, t)) == Good(Shift([], [t], toks))
  {
    var k, key, adds := Num(t.k), KeyToken(t.keys[0]), SigAddTokens(t.keys[1..]);
    var first := toks + [key] + [Op(OpCheckSig)];
    MultiATokens(toks, key, adds, k);
    FrontOf(first + adds + [k], Op(OpNumEqual));
    FrontOf(first + adds, k);
    TakeAllSigAdds(dx, first, t.keys[1..]);
    ExpectMore(toks + [key], Op(OpCheckSig), [Op(OpCheckSig)]);
    assert [Op(OpCheckSig)][1..] == [];
    FrontOf(toks, key);
    assert [t.keys[0]] + t.keys[1..] == t.keys;
  }

  lemma EqualVerifyRaw(dx: Dx, toks: seq<Token>, h: Bytes)
    ensures ShiftEqualVerify(dx, toks + [Op(OpDup)] + [Op(OpHash(Hash160))] + [Hash20(h)])
            == Good(Shift([], [RawPkH(h)], toks))
  {
    var f2 := toks + [Op(OpDup)];
    var f1 := f2 + [Op(OpHash(Hash160))];
    FrontOf(f1, Hash20(h));
    FrontOf(f2, Op(OpHash(Hash160)));
    FrontOf(toks, Op(OpDup));
  }

  lemma PkHParts(toks: seq<Token>, h: Bytes)
    ensures toks + PkHTokens(h) ==
            toks + [Op(OpDup)] + [Op(OpHash(Hash160))] + [Hash20(h)] + [Op(OpEqual)] + [Op(OpVerify)]
  {
  }

  lemma ShiftEqualThenVerify(dx: Dx, toks: seq<Token>)
    ensures ShiftExpression(dx, toks + [Op(OpEqual)] + [Op(OpVerify)]) == ShiftEqualVerify(dx, toks)
  {
    FrontOf(toks + [Op(OpEqual)], Op(OpVerify));
    FrontOf(toks, Op(OpEqual));
  }

  lemma ShiftRawPkH(dx: Dx, toks: seq<Token>, t: Term)
    requires t.RawPkH?
    ensures ShiftExpression(dx, toks + Encode(dx.env, t)) == Good(Shift([], [t], toks))
  {
    PkHParts(toks, t.keyHash);
    ShiftEqualThenVerify(dx, toks + [Op(OpDup)] + [Op(OpHash(Hash160))] + [Hash20(t.keyHash)]);
    EqualVerifyRaw(dx, toks, t.keyHash);
  }

  lemma ShiftTime(dx: Dx, toks: seq<Token>, t: Term)
    requires (t.After? || t.Older?) && WellFormed(dx.env, t)
    ensures ShiftExpression(dx, toks + Encode(dx.env, t)) == Good(Shift([], [t], toks))
  {
    var f, op := toks + [Num(t.n)], if t.After? then Op(OpCheckLockTimeVerify) else Op(OpCheckSequenceVerify);
    assert toks + Encode(dx.env, t) == f + [op];
    assert Front(f + [op]) == f && Front(f) == toks;
  }

  lemma ShiftOneToken(dx: Dx, toks: seq<Token>, t: Term)
    requires (t.True? || t.False? || t.PkK?) && WellFormed(dx.env, t)
    ensures ShiftExpression(dx, toks + Encode(dx.env, t)) == Good(Shift([], [t], toks))
  {
    assert Front(toks + Encode(dx.env, t)) == toks;
  }

  lemma ShiftTxTemplate(dx: Dx, toks: seq<Token>, t: Term)
    requires t.TxTemplate?
    ensures ShiftExpression(dx, toks + Encode(dx.env, t))
            == if dx.accepts(t) then Good(Shift([], [t], toks)) else Bad(Rejected)
  {
    var f2 := toks + [Bytes32(t.image)];
    var f1 := f2 + [Op(OpCheckTemplateVerify)];
    assert toks + Encode(dx.env, t) == f1 + [Op(OpDrop)];
    assert Front(f1 + [Op(OpDrop)]) == f1;
    ExpectMore(f2, Op(OpCheckTemplateVerify), [Op(OpCheckTemplateVerify)]);
    assert [Op(OpCheckTemplateVerify)][1..] == [];
    assert Front(f2) == toks;
  }

  lemma ShiftLeaf(dx: Dx, toks: seq<Token>, t: Term)
    requires IsLeaf(t) && !t.PkH? && WellFormed(dx.env, t)
    ensures ShiftExpression(dx, toks + Encode(dx.env, t))
            == if AllAccepted(dx, t) then Good(Shift([], [t], toks)) else Bad(Rejected)
  {
    if t.TxTemplate? {
      ShiftTxTemplate(dx, toks, t);
    } else if t.HashLock? {
      ShiftHashLock(dx, toks, t);
    } else if t.Multi? {
      ShiftAllMulti(dx, toks, t);
    } else if t.MultiA? {
      ShiftAllMultiA(dx, toks, t);
    } else if t.RawPkH? {
      ShiftRawPkH(dx, toks, t);
    } else if t.After? || t.Older? {
      ShiftTime(dx, toks, t);
    } else {
      ShiftOneToken(dx, toks, t);
    }
  }

  // ----- runs -----

  /** What a run does once a term has been decoded, if its checks passed. */
  function Decoded(dx: Dx, ok: bool, nts: seq<NonTerm>, ts: seq<Term>, toks: seq<Token>): Parse<(seq<Term>, seq<Token>)> {
    if ok then RunDecode(dx, nts, ts, toks) else Bad(Rejected)
  }

  lemma RunShift(dx: Dx, nts: seq<NonTerm>, ts: seq<Term>, all: seq<Token>, s: Parse<Shift>)
    requires ShiftExpression(dx, all) == s
    ensures RunDecode(dx, nts + [Expression], ts, all) ==
            if s.Bad? then Bad(s.error)
            else RunDecode(dx, nts + [NonTerm.InscribePre] + s.value.nts, ts + s.value.ts, s.value.toks)
  {
    RunStep(dx, nts, Expression, ts, all);
  }

  /** Without envelopes to the left, a term is passed on. */
  lemma RunPre(dx: Dx, nts: seq<NonTerm>, ts: seq<Term>, toks: seq<Token>)
    requires !EndsInInscription(toks)
    ensures RunDecode(dx, nts + [NonTerm.InscribePre], ts, toks) == RunDecode(dx, nts, ts, toks)
  {
    RunStep(dx, nts, NonTerm.InscribePre, ts, toks);
  }

  /** A reduction, and the InscribePre below it. */
  lemma RunReduced(dx: Dx, nts: seq<NonTerm>, x: NonTerm, ts: seq<Term>, toks: seq<Token>,
                   ts': seq<Term>, t: Term, toks': seq<Token>)
    requires var pre := nts + [NonTerm.InscribePre]; Handle(dx, x, pre, ts, toks) == Reduce(dx, pre, ts', t, toks')
    requires !EndsInInscription(toks')
    ensures RunDecode(dx, nts + [NonTerm.InscribePre] + [x], ts, toks)
            == Decoded(dx, dx.accepts(t), nts, ts' + [t], toks')
  {
    RunStep(dx, nts + [NonTerm.InscribePre], x, ts, toks);
    if dx.accepts(t) { RunPre(dx, nts, ts' + [t], toks'); }
  }

  lemma {:induction false} RunLeaf(dx: Dx, nts: seq<NonTerm>, ts: seq<Term>, toks: seq<Token>, t: Term)
    requires IsLeaf(t) && !t.PkH? && WellFormed(dx.env, t) && !EndsInInscription(toks)
    ensures RunDecode(dx, nts + [Expression], ts, toks + Encode(dx.env, t))
            == Decoded(dx, AllAccepted(dx, t), nts, ts + [t], toks)
  {
    var all := toks + Encode(dx.env, t);
    ShiftLeaf(dx, toks, t);
    RunShift(dx, nts, ts, all, ShiftExpression(dx, all));
    assert nts + [NonTerm.InscribePre] + [] == nts + [NonTerm.InscribePre];
    RunPre(dx, nts, ts + [t], toks);
  }

  lemma OnTop(ts: seq<Term>, t: Term)
    ensures TopTerm(ts + [t], 0) == t && Below(ts + [t], 1) == ts
  {
  }

  lemma OnTopTwo(ts: seq<Term>, r: Term, l: Term)
    ensures var all := ts + [r] + [l]; TopTerm(all, 0) == l && TopTerm(all, 1) == r && Below(all, 2) == ts
  {
  }

  lemma OnTopThree(ts: seq<Term>, c: Term, b: Term, a: Term)
    ensures var all := ts + [c] + [b] + [a];
            TopTerm(all, 0) == a && TopTerm(all, 1) == b && TopTerm(all, 2) == c && Below(all, 3) == ts
  {
  }

  // ----- single steps -----

  /** The term that a wrapper's nonterminal makes. */
  function Wrapped(x: NonTerm, sub: Term): Term
    requires x.Check? || x.Verify? || x.ZeroNotEqual? || x.DupIf? || x.NonZero?
  {
    match x
    case Check => Term.Check(sub)
    case Verify => Term.Verify(sub)
    case ZeroNotEqual => Term.ZeroNotEqual(sub)
    case DupIf => Term.DupIf(sub)
    case NonZero => Term.NonZero(sub)
  }

  lemma ReduceOne(dx: Dx, nts: seq<NonTerm>, x: NonTerm, ts: seq<Term>, sub: Term, toks: seq<Token>)
    requires x.Check? || x.Verify? || x.ZeroNotEqual? || x.DupIf? || x.NonZero?
    requires !EndsInInscription(toks)
    ensures RunDecode(dx, nts + [NonTerm.InscribePre] + [x], ts + [sub], toks)
            == Decoded(dx, dx.accepts(Wrapped(x, sub)), nts, ts + [Wrapped(x, sub)], toks)
  {
    OnTop(ts, sub);
    RunReduced(dx, nts, x, ts + [sub], toks, ts, Wrapped(x, sub), toks);
  }

  /** The term that a connective's nonterminal makes. */
  function Joined(x: NonTerm, l: Term, r: Term): Term
    requires x.AndB? || x.OrB? || x.OrC? || x.OrD?
  {
    match x
    case AndB => Term.AndB(l, r)
    case OrB => Term.OrB(l, r)
    case OrC => Term.OrC(l, r)
    case OrD => Term.OrD(l, r)
  }

  lemma ReduceTwo(dx: Dx, nts: seq<NonTerm>, x: NonTerm, ts: seq<Term>, r: Term, l: Term, toks: seq<Token>)
    requires (x.AndB? || x.OrB? || x.OrC? || x.OrD?) && !EndsInInscription(toks)
    ensures RunDecode(dx, nts + [NonTerm.InscribePre] + [x], ts + [r] + [l], toks)
            == Decoded(dx, dx.accepts(Joined(x, l, r)), nts, ts + [Joined(x, l, r)], toks)
  {
    OnTopTwo(ts, r, l);
    RunReduced(dx, nts, x, ts + [r] + [l], toks, ts, Joined(x, l, r), toks);
  }

  lemma ReduceOrI(dx: Dx, nts: seq<NonTerm>, ts: seq<Term>, r: Term, l: Term, toks: seq<Token>)
    requires !EndsInInscription(toks)
    ensures RunDecode(dx, nts + [NonTerm.InscribePre] + [EndIfElse], ts + [r] + [l], toks + [Op(OpIf)])
            == Decoded(dx, dx.accepts(Term.OrI(l, r)), nts, ts + [Term.OrI(l, r)], toks)
  {
    OnTopTwo(ts, r, l);
    LastIs(toks, [], Op(OpIf));
    assert Front(toks + [Op(OpIf)]) == toks;
    RunReduced(dx, nts, EndIfElse, ts + [r] + [l], toks + [Op(OpIf)], ts, Term.OrI(l, r), toks);
  }

  lemma ReduceAndOr(dx: Dx, nts: seq<NonTerm>, ts: seq<Term>, b: Term, c: Term, a: Term, toks: seq<Token>)
    requires !EndsInInscription(toks)
    ensures RunDecode(dx, nts + [NonTerm.InscribePre] + [Tern], ts + [b] + [c] + [a], toks)
            == Decoded(dx, dx.accepts(Term.AndOr(a, b, c)), nts, ts + [Term.AndOr(a, b, c)], toks)
  {
    OnTopThree(ts, b, c, a);
    RunReduced(dx, nts, Tern, ts + [b] + [c] + [a], toks, ts, Term.AndOr(a, b, c), toks);
  }

  lemma Push2(nts: seq<NonTerm>, x: NonTerm, y: NonTerm)
    ensures nts + [x, y] == nts + [x] + [y]
  {
  }

  lemma Push3(nts: seq<NonTerm>, x: NonTerm, y: NonTerm, z: NonTerm)
    ensures nts + [x, y, z] == nts + [x] + [y] + [z]
  {
  }

  lemma RunHandled(dx: Dx, nts: seq<NonTerm>, x: NonTerm, ts: seq<Term>, toks: seq<Token>, next: PState)
    requires Handle(dx, x, nts, ts, toks) == Good(next)
    ensures RunDecode(dx, nts + [x], ts, toks) == RunDecode(dx, next.nts, next.ts, next.toks)
  {
    RunStep(dx, nts, x, ts, toks);
  }

  lemma StepDup(dx: Dx, nts: seq<NonTerm>, ts: seq<Term>, f: seq<Token>)
    ensures RunDecode(dx, nts + [EndIf], ts, f + [Op(OpDup)] + [Op(OpIf)]) == RunDecode(dx, nts + [NonTerm.DupIf], ts, f)
  {
    FrontOf(f + [Op(OpDup)], Op(OpIf));
    FrontOf(f, Op(OpDup));
    RunStep(dx, nts, EndIf, ts, f + [Op(OpDup)] + [Op(OpIf)]);
  }

  lemma StepSize(dx: Dx, nts: seq<NonTerm>, ts: seq<Term>, f: seq<Token>)
    ensures RunDecode(dx, nts + [EndIf], ts, f + [Op(OpSize)] + [Op(OpZeroNotEqual)] + [Op(OpIf)])
            == RunDecode(dx, nts + [NonTerm.NonZero], ts, f)
  {
    var wanted := [Op(OpZeroNotEqual), Op(OpSize)];
    var f2 := f + [Op(OpSize)] + [Op(OpZeroNotEqual)];
    FrontOf(f2, Op(OpIf));
    FrontOf(f + [Op(OpSize)], Op(OpZeroNotEqual));
    ExpectMore(f + [Op(OpSize)], Op(OpZeroNotEqual), wanted);
    ExpectMore(f, Op(OpSize), wanted[1..]);
    assert wanted[1..][1..] == [];
    RunStep(dx, nts, EndIf, ts, f2 + [Op(OpIf)]);
  }

  lemma StepNotIf(dx: Dx, nts: seq<NonTerm>, ts: seq<Term>, f: seq<Token>)
    ensures RunDecode(dx, nts + [EndIf], ts, f + [Op(OpNotIf)]) == RunDecode(dx, nts + [EndIfNotIf], ts, f)
  {
    FrontOf(f, Op(OpNotIf));
    RunHandled(dx, nts, EndIf, ts, f + [Op(OpNotIf)], PState(nts + [EndIfNotIf], ts, f));
  }

  lemma StepElse(dx: Dx, nts: seq<NonTerm>, ts: seq<Term>, f: seq<Token>)
    ensures RunDecode(dx, nts + [EndIf], ts, f + [Op(OpElse)])
            == RunDecode(dx, nts + [EndIfElse] + [MaybeAndV] + [Expression], ts, f)
  {
    FrontOf(f, Op(OpElse));
    Push3(nts, EndIfElse, MaybeAndV, Expression);
    RunHandled(dx, nts, EndIf, ts, f + [Op(OpElse)], PState(nts + [EndIfElse, MaybeAndV, Expression], ts, f));
  }

  lemma StepIfDup(dx: Dx, nts: seq<NonTerm>, ts: seq<Term>, f: seq<Token>)
    ensures RunDecode(dx, nts + [EndIfNotIf], ts, f + [Op(OpIfDup)])
            == RunDecode(dx, nts + [NonTerm.OrD] + [Expression], ts, f)
  {
    FrontOf(f, Op(OpIfDup));
    Push2(nts, NonTerm.OrD, Expression);
    RunHandled(dx, nts, EndIfNotIf, ts, f + [Op(OpIfDup)], PState(nts + [NonTerm.OrD, Expression], ts, f));
  }

  lemma StepNoIfDup(dx: Dx, nts: seq<NonTerm>, ts: seq<Term>, toks: seq<Token>)
    requires EndsOrdinary(toks)
    ensures RunDecode(dx, nts + [EndIfNotIf], ts, toks) == RunDecode(dx, nts + [NonTerm.OrC] + [Expression], ts, toks)
  {
    Push2(nts, NonTerm.OrC, Expression);
    RunHandled(dx, nts, EndIfNotIf, ts, toks, PState(nts + [NonTerm.OrC, Expression], ts, toks));
  }

  lemma StepTern(dx: Dx, nts: seq<NonTerm>, ts: seq<Term>, f: seq<Token>)
    requires |ts| >= 2
    ensures RunDecode(dx, nts + [EndIfElse], ts, f + [Op(OpNotIf)]) == RunDecode(dx, nts + [Tern] + [Expression], ts, f)
  {
    FrontOf(f, Op(OpNotIf));
    Push2(nts, Tern, Expression);
    RunHandled(dx, nts, EndIfElse, ts, f + [Op(OpNotIf)], PState(nts + [Tern, Expression], ts, f));
  }

  lemma StepAdd(dx: Dx, nts: seq<NonTerm>, k: nat, n: nat, next: nat, ts: seq<Term>, f: seq<Token>)
    requires next == n + 1
    ensures RunDecode(dx, nts + [ThreshW(k, n)], ts, f + [Op(OpAdd)])
            == RunDecode(dx, nts + [ThreshW(k, next)] + [WExpression], ts, f)
  {
    FrontOf(f, Op(OpAdd));
    Push2(nts, ThreshW(k, next), WExpression);
    RunHandled(dx, nts, ThreshW(k, n), ts, f + [Op(OpAdd)], PState(nts + [ThreshW(k, next), WExpression], ts, f));
  }

  lemma StepNoAdd(dx: Dx, nts: seq<NonTerm>, k: nat, n: nat, next: nat, ts: seq<Term>, toks: seq<Token>)
    requires next == n + 1 && EndsOrdinary(toks)
    ensures RunDecode(dx, nts + [ThreshW(k, n)], ts, toks)
            == RunDecode(dx, nts + [ThreshE(k, next)] + [Expression], ts, toks)
  {
    Push2(nts, ThreshE(k, next), Expression);
    RunHandled(dx, nts, ThreshW(k, n), ts, toks, PState(nts + [ThreshE(k, next), Expression], ts, toks));
  }

  lemma StepThreshE(dx: Dx, nts: seq<NonTerm>, k: nat, n: nat, ts: seq<Term>, below: seq<Term>, subs: seq<Term>, toks: seq<Token>)
    requires n <= |ts| && ValidThreshold(k, n, 0) && LastTerms(ts, n) == subs && Below(ts, n) == below
    ensures RunDecode(dx, nts + [ThreshE(k, n)], ts, toks)
            == Decoded(dx, dx.accepts(Term.Thresh(k, subs)), nts, below + [Term.Thresh(k, subs)], toks)
  {
    RunStep(dx, nts, ThreshE(k, n), ts, toks);
  }

  /** An opcode at the end that announces a wrapper. */
  lemma ShiftWrapper(dx: Dx, nts: seq<NonTerm>, ts: seq<Term>, f: seq<Token>, x: NonTerm, op: Opcode)
    requires (x.Check? && op.OpCheckSig?) || (x.ZeroNotEqual? && op.OpZeroNotEqual?)
             || (x.Verify? && op.OpVerify? && f != [] && LastTok(f) != Op(OpEqual))
    ensures RunDecode(dx, nts + [Expression], ts, f + [Op(op)])
            == RunDecode(dx, nts + [NonTerm.InscribePre] + [x] + [Expression], ts, f)
  {
    FrontOf(f, Op(op));
    RunShift(dx, nts, ts, f + [Op(op)], Good(Shift([x, Expression], [], f)));
    Push2(nts + [NonTerm.InscribePre], x, Expression);
    assert ts + [] == ts;
  }

  lemma ShiftBool(dx: Dx, nts: seq<NonTerm>, ts: seq<Term>, f: seq<Token>, x: NonTerm, op: Opcode)
    requires (x.AndB? && op.OpBoolAnd?) || (x.OrB? && op.OpBoolOr?)
    ensures RunDecode(dx, nts + [Expression], ts, f + [Op(op)])
            == RunDecode(dx, nts + [NonTerm.InscribePre] + [x] + [Expression] + [WExpression], ts, f)
  {
    FrontOf(f, Op(op));
    RunShift(dx, nts, ts, f + [Op(op)], Good(Shift([x, Expression, WExpression], [], f)));
    Push3(nts + [NonTerm.InscribePre], x, Expression, WExpression);
    assert ts + [] == ts;
  }

  /** `c:`, `v:` and `n:` around an expression. */
  lemma {:induction false} RunWrapped(dx: Dx, nts: seq<NonTerm>, ts: seq<Term>, toks: seq<Token>, t: Term, x: NonTerm, op: Opcode)
    requires Atomic(t) && WellFormed(dx.env, t) && !EndsInInscription(toks)
    requires (t.Check? && x.Check? && op.OpCheckSig?) || (t.ZeroNotEqual? && x.ZeroNotEqual? && op.OpZeroNotEqual?)
             || (t.Verify? && x.Verify? && op.OpVerify? && !t.sub.HashLock? && !t.sub.Thresh?)
    ensures RunDecode(dx, nts + [Expression], ts, toks + Encode(dx.env, t))
            == Decoded(dx, AllAccepted(dx, t), nts, ts + [t], toks)
    decreases t, 0
  {
    var sub := t.sub;
    var code := Encode(dx.env, sub);
    LastIs(toks, code, Op(op));
    SequenceEnds(dx.env, sub);
    LastOf(toks, code);
    ShiftWrapper(dx, nts, ts, toks + code, x, op);
    RunAtomic(dx, nts + [NonTerm.InscribePre] + [x], ts, toks, sub);
    if AllAccepted(dx, sub) { ReduceOne(dx, nts, x, ts, sub, toks); }
  }

  /** A hash lock below `v:` is read together with its VERIFY. */
  lemma RunVerifiedHash(dx: Dx, nts: seq<NonTerm>, ts: seq<Term>, toks: seq<Token>, t: Term)
    requires t.Verify? && t.sub.HashLock? && WellFormed(dx.env, t) && !EndsInInscription(toks)
    ensures RunDecode(dx, nts + [Expression], ts, toks + Encode(dx.env, t))
            == Decoded(dx, AllAccepted(dx, t), nts, ts + [t], toks)
  {
    ShiftVerifyHash(dx, toks, t.sub);
    RunShift(dx, nts, ts, toks + Encode(dx.env, t), Good(Shift([NonTerm.Verify], [t.sub], toks)));
    ReduceOne(dx, nts, NonTerm.Verify, ts, t.sub, toks);
  }

  // ----- thresholds -----

  /** The tokens of a threshold's first children. */
  function Children(env: Env, subs: seq<Term>): seq<Token>
    requires subs != []
  {
    Encode(env, subs[0]) + EncodeAdds(env, subs[1..])
  }

  lemma {:induction false} EncodeAddsSnoc(env: Env, subs: seq<Term>, w: Term)
    ensures EncodeAdds(env, subs + [w]) == EncodeAdds(env, subs) + Encode(env, w) + [Op(OpAdd)]
  {
    if subs == [] {
      assert subs + [w] == [w] && [w][1..] == [];
      assert [] + Encode(env, w) + [Op(OpAdd)] == Encode(env, w) + [Op(OpAdd)] + [];
    } else {
      EncodeAddsSnoc(env, subs[1..], w);
      assert (subs + [w])[1..] == subs[1..] + [w];
      var a, b := Encode(env, subs[0]) + [Op(OpAdd)], EncodeAdds(env, subs[1..]);
      Assoc(a, b + Encode(env, w), [Op(OpAdd)]);
      Assoc(a, b, Encode(env, w));
    }
  }

  lemma ChildrenSnoc(env: Env, toks: seq<Token>, subs: seq<Term>, w: Term)
    requires subs != []
    ensures toks + Children(env, subs + [w]) == toks + Children(env, subs) + Encode(env, w) + [Op(OpAdd)]
  {
    EncodeAddsSnoc(env, subs[1..], w);
    assert (subs + [w])[1..] == subs[1..] + [w] && (subs + [w])[0] == subs[0];
    var a, b, c := Encode(env, subs[0]), EncodeAdds(env, subs[1..]), Encode(env, w);
    Assoc(a, b + c, [Op(OpAdd)]);
    Assoc(a, b, c);
    Assoc(toks, a + b + c, [Op(OpAdd)]);
    Assoc(toks, a + b, c);
  }

  /** Before a threshold's first child there is another child's ADD or nothing
      that the decoder would mistake for one. */
  lemma {:induction false} ChildrenEnd(env: Env, toks: seq<Token>, subs: seq<Term>)
    requires subs != [] && Atomic(subs[0]) && (forall i :: 0 <= i < |subs| ==> WellFormed(env, subs[i]))
    ensures !EndsInInscription(toks + Children(env, subs)) && toks + Children(env, subs) != []
    ensures |subs| == 1 ==> EndsOrdinary(toks + Children(env, subs))
  {
    if |subs| == 1 {
      assert subs[1..] == [] && Encode(env, subs[0]) + [] == Encode(env, subs[0]);
      SequenceEnds(env, subs[0]);
      Continues(toks, Encode(env, subs[0]));
    } else {
      var n := |subs| - 1;
      assert subs == subs[..n] + [subs[n]];
      ChildrenSnoc(env, toks, subs[..n], subs[n]);
    }
  }

  /** The children already decoded lie on the stack the last one first. */
  lemma LastTermsBackwards(ts: seq<Term>, first: Term, done: seq<Term>)
    ensures LastTerms(ts + Backwards(done) + [first], |done| + 1) == [first] + done
    ensures Below(ts + Backwards(done) + [first], |done| + 1) == ts
  {
    var all := ts + Backwards(done) + [first];
    var n := |done| + 1;
    forall i | 0 <= i < n
      ensures LastTerms(all, n)[i] == ([first] + done)[i]
    {
      if i > 0 {
        assert all[|all| - 1 - i] == Backwards(done)[|done| - i];
      }
    }
  }

  predicate AllPass(dx: Dx, subs: seq<Term>) { forall i :: 0 <= i < |subs| ==> AllAccepted(dx, subs[i]) }

  lemma AllPassSnoc(dx: Dx, subs: seq<Term>, w: Term)
    ensures AllPass(dx, subs + [w]) <==> AllPass(dx, subs) && AllAccepted(dx, w)
  {
    assert (subs + [w])[|subs|] == w;
    assert forall i :: 0 <= i < |subs| ==> (subs + [w])[i] == subs[i];
  }

  /** What a threshold's children must look like. */
  predicate ChildShapes(env: Env, subs: seq<Term>) {
    && subs != [] && Atomic(subs[0])
    && (forall i :: 1 <= i < |subs| ==> WShape(subs[i]))
    && (forall i :: 0 <= i < |subs| ==> WellFormed(env, subs[i]))
  }

  lemma {:induction false} RunFirstChild(dx: Dx, nts: seq<NonTerm>, ts: seq<Term>, toks: seq<Token>, k: nat, n: nat,
                                         first: Term, done: seq<Term>)
    requires n == |done| && Atomic(first) && WellFormed(dx.env, first) && !EndsInInscription(toks)
    requires ValidThreshold(k, n + 1, 0)
    ensures RunDecode(dx, nts + [ThreshW(k, n)], ts + Backwards(done), toks + Encode(dx.env, first))
            == if !AllAccepted(dx, first) then Bad(Rejected)
               else Decoded(dx, dx.accepts(Term.Thresh(k, [first] + done)), nts, ts + [Term.Thresh(k, [first] + done)], toks)
    decreases first, 3
  {
    var stack, next := ts + Backwards(done), n + 1;
    SequenceEnds(dx.env, first);
    Continues(toks, Encode(dx.env, first));
    StepNoAdd(dx, nts, k, n, next, stack, toks + Encode(dx.env, first));
    RunAtomic(dx, nts + [ThreshE(k, next)], stack, toks, first);
    LastTermsBackwards(ts, first, done);
    StepThreshE(dx, nts, k, next, stack + [first], ts, [first] + done, toks);
  }

  /** From the children still to be read, below those already done, to the
      threshold. */
  ghost predicate ChildrenDecode(dx: Dx, nts: seq<NonTerm>, ts: seq<Term>, toks: seq<Token>, k: nat, n: nat,
                                 subs: seq<Term>, done: seq<Term>)
    requires subs != []
  {
    RunDecode(dx, nts + [ThreshW(k, n)], ts + Backwards(done), toks + Children(dx.env, subs))
    == if !AllPass(dx, subs) then Bad(Rejected)
       else Decoded(dx, dx.accepts(Term.Thresh(k, subs + done)), nts, ts + [Term.Thresh(k, subs + done)], toks)
  }

  lemma {:induction false} RunOnlyChild(dx: Dx, nts: seq<NonTerm>, ts: seq<Term>, toks: seq<Token>, k: nat, n: nat,
                                        subs: seq<Term>, done: seq<Term>)
    requires |subs| == 1 && n == |done| && ChildShapes(dx.env, subs) && !EndsInInscription(toks)
    requires ValidThreshold(k, n + 1, 0)
    ensures ChildrenDecode(dx, nts, ts, toks, k, n, subs, done)
    decreases subs, 0
  {
    assert subs[1..] == [] && Encode(dx.env, subs[0]) + [] == Encode(dx.env, subs[0]);
    assert subs == [subs[0]];
    RunFirstChild(dx, nts, ts, toks, k, n, subs[0], done);
  }

  lemma OneMoreChild(dx: Dx, nts: seq<NonTerm>, ts: seq<Term>, toks: seq<Token>, k: nat, n: nat, next: nat,
                     subs: seq<Term>, front: seq<Term>, w: Term, done: seq<Term>, more: seq<Term>)
    requires subs != [] && front != [] && front + more == subs + done
    requires AllPass(dx, subs) <==> AllPass(dx, front) && AllAccepted(dx, w)
    requires RunDecode(dx, nts + [ThreshW(k, n)], ts + Backwards(done), toks + Children(dx.env, subs))
             == Decoded(dx, AllAccepted(dx, w), nts + [ThreshW(k, next)], ts + Backwards(more), toks + Children(dx.env, front))
    requires ChildrenDecode(dx, nts, ts, toks, k, next, front, more)
    ensures ChildrenDecode(dx, nts, ts, toks, k, n, subs, done)
  {
  }

  /** A threshold's children are decoded from the last to the first. */
  lemma {:induction false} RunChildren(dx: Dx, nts: seq<NonTerm>, ts: seq<Term>, toks: seq<Token>, k: nat, n: nat,
                                       subs: seq<Term>, done: seq<Term>)
    requires n == |done| && ChildShapes(dx.env, subs) && !EndsInInscription(toks)
    requires ValidThreshold(k, |subs| + n, 0)
    ensures ChildrenDecode(dx, nts, ts, toks, k, n, subs, done)
    decreases subs, 1
  {
    if |subs| == 1 {
      RunOnlyChild(dx, nts, ts, toks, k, n, subs, done);
    } else {
      var front, w := subs[..|subs| - 1], subs[|subs| - 1];
      assert subs == front + [w] && front + ([w] + done) == subs + done;
      AllPassSnoc(dx, front, w);
      RunMoreChildren(dx, nts, ts, toks, k, n, n + 1, subs, front, w, done, [w] + done);
    }
  }

  lemma {:induction false} RunMoreChildren(dx: Dx, nts: seq<NonTerm>, ts: seq<Term>, toks: seq<Token>, k: nat, n: nat, next: nat,
                                           subs: seq<Term>, front: seq<Term>, w: Term, done: seq<Term>, more: seq<Term>)
    requires n == |done| && next == n + 1 && ChildShapes(dx.env, subs) && !EndsInInscription(toks)
    requires |subs| >= 2 && front == subs[..|subs| - 1] && w == subs[|subs| - 1] && subs == front + [w]
    requires more == [w] + done && front + more == subs + done
    requires AllPass(dx, subs) <==> AllPass(dx, front) && AllAccepted(dx, w)
    requires ValidThreshold(k, |subs| + n, 0)
    ensures ChildrenDecode(dx, nts, ts, toks, k, n, subs, done)
    decreases subs, 0
  {
    RunLastChild(dx, nts, ts, toks, k, n, next, front, w, done, subs, more);
    RunChildren(dx, nts, ts, toks, k, next, front, more);
    OneMoreChild(dx, nts, ts, toks, k, n, next, subs, front, w, done, more);
  }

  lemma {:induction false} RunLastChild(dx: Dx, nts: seq<NonTerm>, ts: seq<Term>, toks: seq<Token>, k: nat, n: nat, next: nat,
                                        front: seq<Term>, w: Term, done: seq<Term>, subs: seq<Term>, more: seq<Term>)
    requires next == n + 1 && n == |done| && ChildShapes(dx.env, front) && WShape(w) && WellFormed(dx.env, w)
    requires subs == front + [w] && more == [w] + done
    ensures RunDecode(dx, nts + [ThreshW(k, n)], ts + Backwards(done), toks + Children(dx.env, subs))
            == Decoded(dx, AllAccepted(dx, w), nts + [ThreshW(k, next)], ts + Backwards(more), toks + Children(dx.env, front))
    decreases w, 5
  {
    var rest, stack := toks + Children(dx.env, front), ts + Backwards(done);
    ChildrenSnoc(dx.env, toks, front, w);
    StepAdd(dx, nts, k, n, next, stack, rest + Encode(dx.env, w));
    ChildrenEnd(dx.env, toks, front);
    RunW(dx, nts + [ThreshW(k, next)], stack, rest, w);
    BackwardsMore(ts, w, done);
  }

  lemma BackwardsMore(ts: seq<Term>, w: Term, done: seq<Term>)
    ensures ts + Backwards(done) + [w] == ts + Backwards([w] + done)
  {
    assert Backwards([w] + done) == Backwards(done) + [w];
  }

  lemma ThreshSplit(env: Env, toks: seq<Token>, t: Term)
    requires t.Thresh? && t.subs != []
    ensures toks + Encode(env, t) == toks + Children(env, t.subs) + [Num(t.k)] + [Op(OpEqual)]
    ensures toks + (Encode(env, t) + [Op(OpVerify)])
            == toks + Children(env, t.subs) + [Num(t.k)] + [Op(OpEqual)] + [Op(OpVerify)]
  {
    var c := Children(env, t.subs);
    assert toks + (c + [Num(t.k), Op(OpEqual)]) == toks + c + [Num(t.k)] + [Op(OpEqual)];
    Assoc(toks, Encode(env, t), [Op(OpVerify)]);
  }

  lemma ShiftThresh(dx: Dx, toks: seq<Token>, c: seq<Token>, k: nat)
    ensures ShiftExpression(dx, toks + c + [Num(k)] + [Op(OpEqual)]) == Good(Shift([ThreshW(k, 0)], [], toks + c))
    ensures ShiftExpression(dx, toks + c + [Num(k)] + [Op(OpEqual)] + [Op(OpVerify)])
            == Good(Shift([NonTerm.Verify, ThreshW(k, 0)], [], toks + c))
  {
    var f := toks + c + [Num(k)];
    assert Front(f) == toks + c && LastTok(f) == Num(k);
    assert Front(f + [Op(OpEqual)]) == f && LastTok(f + [Op(OpEqual)]) == Op(OpEqual);
    assert Front(f + [Op(OpEqual)] + [Op(OpVerify)]) == f + [Op(OpEqual)];
  }

  lemma {:induction false} RunThresh(dx: Dx, nts: seq<NonTerm>, ts: seq<Term>, toks: seq<Token>, t: Term)
    requires t.Thresh? && Atomic(t) && WellFormed(dx.env, t) && !EndsInInscription(toks)
    ensures RunDecode(dx, nts + [Expression], ts, toks + Encode(dx.env, t))
            == Decoded(dx, AllAccepted(dx, t), nts, ts + [t], toks)
    decreases t, 0
  {
    var pre := nts + [NonTerm.InscribePre];
    ThreshSplit(dx.env, toks, t);
    ShiftThresh(dx, toks, Children(dx.env, t.subs), t.k);
    RunShift(dx, nts, ts, toks + Encode(dx.env, t), Good(Shift([ThreshW(t.k, 0)], [], toks + Children(dx.env, t.subs))));
    assert ts + Backwards([]) == ts && ts + [] == ts && t.subs + [] == t.subs;
    RunChildren(dx, pre, ts, toks, t.k, 0, t.subs, []);
    if AllAccepted(dx, t) { RunPre(dx, nts, ts + [t], toks); }
  }

  /** A threshold below `v:`, whose checks come before its own. */
  lemma {:induction false} RunVerifiedThresh(dx: Dx, nts: seq<NonTerm>, ts: seq<Term>, toks: seq<Token>, t: Term, sub: Term)
    requires t == Term.Verify(sub) && sub.Thresh? && Atomic(sub) && WellFormed(dx.env, sub) && !EndsInInscription(toks)
    ensures RunDecode(dx, nts + [Expression], ts, toks + Encode(dx.env, t))
            == Decoded(dx, AllAccepted(dx, t), nts, ts + [t], toks)
    decreases t, 0
  {
    var pre := nts + [NonTerm.InscribePre];
    var kids := toks + Children(dx.env, sub.subs);
    ThreshSplit(dx.env, toks, sub);
    ShiftThresh(dx, toks, Children(dx.env, sub.subs), sub.k);
    RunShift(dx, nts, ts, toks + Encode(dx.env, t), Good(Shift([NonTerm.Verify, ThreshW(sub.k, 0)], [], kids)));
    assert pre + [NonTerm.Verify, ThreshW(sub.k, 0)] == pre + [NonTerm.Verify] + [ThreshW(sub.k, 0)];
    assert ts + Backwards([]) == ts && ts + [] == ts && sub.subs + [] == sub.subs;
    RunChildren(dx, pre + [NonTerm.Verify], ts, toks, sub.k, 0, sub.subs, []);
    if AllAccepted(dx, sub) { ReduceOne(dx, nts, NonTerm.Verify, ts, sub, toks); }
  }

  // ----- and_b, or_b and their right operands -----

  lemma {:induction false} RunBoth(dx: Dx, nts: seq<NonTerm>, ts: seq<Term>, toks: seq<Token>, t: Term, x: NonTerm, op: Opcode)
    requires Atomic(t) && WellFormed(dx.env, t) && !EndsInInscription(toks)
    requires (t.AndB? && x.AndB? && op.OpBoolAnd?) || (t.OrB? && x.OrB? && op.OpBoolOr?)
    ensures RunDecode(dx, nts + [Expression], ts, toks + Encode(dx.env, t))
            == Decoded(dx, AllAccepted(dx, t), nts, ts + [t], toks)
    decreases t, 0
  {
    var l, r := Encode(dx.env, t.left), Encode(dx.env, t.right);
    var one := nts + [NonTerm.InscribePre] + [x];
    LastIs(toks, l + r, Op(op));
    Assoc(toks, l, r);
    ShiftBool(dx, nts, ts, toks + l + r, x, op);
    SequenceEnds(dx.env, t.left);
    Continues(toks, l);
    RunW(dx, one + [Expression], ts, toks + l, t.right);
    if AllAccepted(dx, t.right) {
      RunAtomic(dx, one, ts + [t.right], toks, t.left);
      if AllAccepted(dx, t.left) { ReduceTwo(dx, nts, x, ts, t.right, t.left, toks); }
    }
  }

  lemma ShiftWExact(dx: Dx, toks: seq<Token>, w: Term)
    requires WShape(w) && WellFormed(dx.env, w)
    ensures ShiftW(dx, toks + Encode(dx.env, w)) ==
            Good(Shift([if w.Alt? then NonTerm.Alt else NonTerm.Swap, MaybeAndV, Expression], [],
              toks + [Op(if w.Alt? then OpToAltStack else OpSwap)] + Encode(dx.env, w.sub)))
  {
    var code := Encode(dx.env, w.sub);
    if w.Alt? {
      LastIs(toks, [Op(OpToAltStack)] + code, Op(OpFromAltStack));
      Assoc(toks, [Op(OpToAltStack)], code);
    } else {
      SequenceEnds(dx.env, w.sub);
      Assoc(toks, [Op(OpSwap)], code);
      LastOf(toks + [Op(OpSwap)], code);
    }
  }

  /** The opcode before a W fragment's argument, and its nonterminal. */
  function LeadOf(w: Term): Opcode { if w.Alt? then OpToAltStack else OpSwap }

  function WOf(w: Term): NonTerm { if w.Alt? then NonTerm.Alt else NonTerm.Swap }

  lemma HandleW(dx: Dx, nts: seq<NonTerm>, ts: seq<Term>, w: Term, toks: seq<Token>)
    requires w.Alt? || w.Swap?
    ensures Handle(dx, WOf(w), nts, ts + [w.sub], toks + [Op(LeadOf(w))]) == Reduce(dx, nts, ts, w, toks)
  {
    OnTop(ts, w.sub);
    ExpectMore(toks, Op(LeadOf(w)), [Op(LeadOf(w))]);
    assert [Op(LeadOf(w))][1..] == [];
  }

  lemma ReduceW(dx: Dx, nts: seq<NonTerm>, ts: seq<Term>, w: Term, toks: seq<Token>)
    requires (w.Alt? || w.Swap?) && !EndsInInscription(toks)
    ensures RunDecode(dx, nts + [NonTerm.InscribePre] + [WOf(w)], ts + [w.sub], toks + [Op(LeadOf(w))])
            == Decoded(dx, dx.accepts(w), nts, ts + [w], toks)
  {
    HandleW(dx, nts + [NonTerm.InscribePre], ts, w, toks);
    RunReduced(dx, nts, WOf(w), ts + [w.sub], toks + [Op(LeadOf(w))], ts, w, toks);
  }

  lemma StartW(dx: Dx, nts: seq<NonTerm>, ts: seq<Term>, toks: seq<Token>, w: Term)
    requires WShape(w) && WellFormed(dx.env, w)
    ensures RunDecode(dx, nts + [WExpression], ts, toks + Encode(dx.env, w))
            == RunDecode(dx, nts + [NonTerm.InscribePre] + [WOf(w)] + [MaybeAndV] + [Expression], ts,
                 toks + [Op(LeadOf(w))] + Encode(dx.env, w.sub))
  {
    ShiftWExact(dx, toks, w);
    RunStep(dx, nts, WExpression, ts, toks + Encode(dx.env, w));
    Push3(nts + [NonTerm.InscribePre], WOf(w), MaybeAndV, Expression);
    assert ts + [] == ts;
  }

  lemma {:induction false} RunW(dx: Dx, nts: seq<NonTerm>, ts: seq<Term>, toks: seq<Token>, w: Term)
    requires WShape(w) && WellFormed(dx.env, w) && !EndsInInscription(toks)
    ensures RunDecode(dx, nts + [WExpression], ts, toks + Encode(dx.env, w))
            == Decoded(dx, AllAccepted(dx, w), nts, ts + [w], toks)
    decreases w, 4
  {
    StartW(dx, nts, ts, toks, w);
    FrontOf(toks, Op(LeadOf(w)));
    RunSequence(dx, nts + [NonTerm.InscribePre] + [WOf(w)], ts, toks + [Op(LeadOf(w))], w.sub);
    if AllAccepted(dx, w.sub) { ReduceW(dx, nts, ts, w, toks); }
  }

  // ----- and_v -----

  /** The rest of an `and_v` chain, whose last operand `r` has been decoded. */
  lemma {:induction false} RunChain(dx: Dx, nts: seq<NonTerm>, ts: seq<Term>, toks: seq<Token>, l: Term, r: Term)
    requires Sequence(l) && WellFormed(dx.env, l) && !IsAndV(toks)
    ensures RunDecode(dx, nts + [NonTerm.AndV] + [Expression], ts + [r], toks + Encode(dx.env, l))
            == Decoded(dx, AllAccepted(dx, l) && dx.accepts(Term.AndV(l, r)), nts, ts + [Term.AndV(l, r)], toks)
    decreases l, 3
  {
    if l.AndV? {
      var a, b := l.left, l.right;
      var one := nts + [NonTerm.AndV];
      var rest := toks + Encode(dx.env, a);
      Assoc(toks, Encode(dx.env, a), Encode(dx.env, b));
      SequenceEnds(dx.env, a);
      Continues(toks, Encode(dx.env, a));
      RunAtomic(dx, one, ts + [r], rest, b);
      if AllAccepted(dx, b) {
        RunChainMore(dx, nts, ts + [r] + [b], rest);
        RunChain(dx, one, ts + [r], toks, a, b);
        if AllAccepted(dx, l) { RunChainEnd(dx, nts, ts, toks, l, r); }
      }
    } else {
      RunAtomic(dx, nts + [NonTerm.AndV], ts + [r], toks, l);
      if AllAccepted(dx, l) { RunChainEnd(dx, nts, ts, toks, l, r); }
    }
  }

  lemma RunChainEnd(dx: Dx, nts: seq<NonTerm>, ts: seq<Term>, toks: seq<Token>, l: Term, r: Term)
    requires !IsAndV(toks)
    ensures RunDecode(dx, nts + [NonTerm.AndV], ts + [r] + [l], toks)
            == Decoded(dx, dx.accepts(Term.AndV(l, r)), nts, ts + [Term.AndV(l, r)], toks)
  {
    OnTopTwo(ts, r, l);
    RunStep(dx, nts, NonTerm.AndV, ts + [r] + [l], toks);
  }

  lemma RunChainMore(dx: Dx, nts: seq<NonTerm>, ts: seq<Term>, toks: seq<Token>)
    requires IsAndV(toks) && |ts| >= 2
    ensures RunDecode(dx, nts + [NonTerm.AndV], ts, toks)
            == RunDecode(dx, nts + [NonTerm.AndV] + [NonTerm.AndV] + [Expression], ts, toks)
  {
    var one := nts + [NonTerm.AndV];
    RunStep(dx, nts, NonTerm.AndV, ts, toks);
    assert nts + [NonTerm.AndV, MaybeAndV] == one + [MaybeAndV];
    RunStep(dx, one, MaybeAndV, ts, toks);
    assert one + [NonTerm.AndV, Expression] == one + [NonTerm.AndV] + [Expression];
  }

  lemma {:induction false} RunSequence(dx: Dx, nts: seq<NonTerm>, ts: seq<Term>, toks: seq<Token>, t: Term)
    requires Sequence(t) && WellFormed(dx.env, t) && !IsAndV(toks)
    ensures RunDecode(dx, nts + [MaybeAndV] + [Expression], ts, toks + Encode(dx.env, t))
            == Decoded(dx, AllAccepted(dx, t), nts, ts + [t], toks)
    decreases t, 3
  {
    var one := nts + [MaybeAndV];
    if t.AndV? {
      var a, b := t.left, t.right;
      var rest := toks + Encode(dx.env, a);
      Assoc(toks, Encode(dx.env, a), Encode(dx.env, b));
      SequenceEnds(dx.env, a);
      Continues(toks, Encode(dx.env, a));
      RunAtomic(dx, one, ts, rest, b);
      if AllAccepted(dx, b) {
        RunStep(dx, nts, MaybeAndV, ts + [b], rest);
        assert nts + [NonTerm.AndV, Expression] == nts + [NonTerm.AndV] + [Expression];
        RunChain(dx, nts, ts, toks, a, b);
      }
    } else {
      RunAtomic(dx, one, ts, toks, t);
      if AllAccepted(dx, t) { RunStep(dx, nts, MaybeAndV, ts + [t], toks); }
    }
  }

  // ----- branches -----

  /** The last branch of any IF or NOTIF, up to its ENDIF. */
  lemma {:induction false} RunLastBranch(dx: Dx, nts: seq<NonTerm>, ts: seq<Term>, toks: seq<Token>, x: Term)
    requires Sequence(x) && WellFormed(dx.env, x) && !IsAndV(toks)
    ensures RunDecode(dx, nts + [Expression], ts, toks + Encode(dx.env, x) + [Op(OpEndIf)])
            == Decoded(dx, AllAccepted(dx, x), nts + [NonTerm.InscribePre] + [EndIf], ts + [x], toks)
    decreases x, 4
  {
    var pre := nts + [NonTerm.InscribePre];
    var all := toks + Encode(dx.env, x) + [Op(OpEndIf)];
    assert Front(all) == toks + Encode(dx.env, x) && LastTok(all) == Op(OpEndIf);
    RunShift(dx, nts, ts, all, Good(Shift([EndIf, MaybeAndV, Expression], [], toks + Encode(dx.env, x))));
    assert pre + [EndIf, MaybeAndV, Expression] == pre + [EndIf] + [MaybeAndV] + [Expression] && ts + [] == ts;
    RunSequence(dx, pre + [EndIf], ts, toks, x);
  }

  lemma DupIfSplit(toks: seq<Token>, code: seq<Token>)
    ensures toks + ([Op(OpDup), Op(OpIf)] + code + [Op(OpEndIf)])
            == toks + [Op(OpDup)] + [Op(OpIf)] + code + [Op(OpEndIf)]
  {
    assert [Op(OpDup), Op(OpIf)] == [Op(OpDup)] + [Op(OpIf)];
    LastIs(toks, [Op(OpDup), Op(OpIf)] + code, Op(OpEndIf));
    Assoc(toks, [Op(OpDup), Op(OpIf)], code);
    Assoc(toks, [Op(OpDup)], [Op(OpIf)]);
  }

  lemma {:induction false} RunDupIf(dx: Dx, nts: seq<NonTerm>, ts: seq<Term>, toks: seq<Token>, t: Term)
    requires t.DupIf? && Atomic(t) && WellFormed(dx.env, t) && !EndsInInscription(toks)
    ensures RunDecode(dx, nts + [Expression], ts, toks + Encode(dx.env, t))
            == Decoded(dx, AllAccepted(dx, t), nts, ts + [t], toks)
    decreases t, 0
  {
    var f := toks + [Op(OpDup)] + [Op(OpIf)];
    DupIfSplit(toks, Encode(dx.env, t.sub));
    FrontOf(toks + [Op(OpDup)], Op(OpIf));
    RunLastBranch(dx, nts, ts, f, t.sub);
    if AllAccepted(dx, t.sub) {
      StepDup(dx, nts + [NonTerm.InscribePre], ts + [t.sub], toks);
      ReduceOne(dx, nts, NonTerm.DupIf, ts, t.sub, toks);
    }
  }

  lemma NonZeroSplit(toks: seq<Token>, code: seq<Token>)
    ensures toks + ([Op(OpSize), Op(OpZeroNotEqual), Op(OpIf)] + code + [Op(OpEndIf)])
            == toks + [Op(OpSize)] + [Op(OpZeroNotEqual)] + [Op(OpIf)] + code + [Op(OpEndIf)]
  {
    var lead := [Op(OpSize), Op(OpZeroNotEqual), Op(OpIf)];
    assert lead == [Op(OpSize)] + [Op(OpZeroNotEqual)] + [Op(OpIf)];
    LastIs(toks, lead + code, Op(OpEndIf));
    Assoc(toks, lead, code);
    Assoc(toks, [Op(OpSize)] + [Op(OpZeroNotEqual)], [Op(OpIf)]);
    Assoc(toks, [Op(OpSize)], [Op(OpZeroNotEqual)]);
  }

  lemma {:induction false} RunNonZero(dx: Dx, nts: seq<NonTerm>, ts: seq<Term>, toks: seq<Token>, t: Term)
    requires t.NonZero? && Atomic(t) && WellFormed(dx.env, t) && !EndsInInscription(toks)
    ensures RunDecode(dx, nts + [Expression], ts, toks + Encode(dx.env, t))
            == Decoded(dx, AllAccepted(dx, t), nts, ts + [t], toks)
    decreases t, 0
  {
    var f2 := toks + [Op(OpSize)] + [Op(OpZeroNotEqual)];
    NonZeroSplit(toks, Encode(dx.env, t.sub));
    FrontOf(f2, Op(OpIf));
    RunLastBranch(dx, nts, ts, f2 + [Op(OpIf)], t.sub);
    if AllAccepted(dx, t.sub) {
      StepSize(dx, nts + [NonTerm.InscribePre], ts + [t.sub], toks);
      ReduceOne(dx, nts, NonTerm.NonZero, ts, t.sub, toks);
    }
  }

  lemma OrElseSplit(toks: seq<Token>, l: seq<Token>, op: seq<Token>, r: seq<Token>)
    ensures toks + (l + op + r + [Op(OpEndIf)]) == toks + l + op + r + [Op(OpEndIf)]
  {
    LastIs(toks, l + op + r, Op(OpEndIf));
    Assoc(toks, l + op, r);
    Assoc(toks, l, op);
  }

  lemma {:induction false} RunOrC(dx: Dx, nts: seq<NonTerm>, ts: seq<Term>, toks: seq<Token>, t: Term)
    requires t.OrC? && Atomic(t) && WellFormed(dx.env, t) && !EndsInInscription(toks)
    ensures RunDecode(dx, nts + [Expression], ts, toks + Encode(dx.env, t))
            == Decoded(dx, AllAccepted(dx, t), nts, ts + [t], toks)
    decreases t, 0
  {
    var l, r, pre := Encode(dx.env, t.left), Encode(dx.env, t.right), nts + [NonTerm.InscribePre];
    OrElseSplit(toks, l, [Op(OpNotIf)], r);
    FrontOf(toks + l, Op(OpNotIf));
    RunLastBranch(dx, nts, ts, toks + l + [Op(OpNotIf)], t.right);
    if AllAccepted(dx, t.right) {
      StepNotIf(dx, pre, ts + [t.right], toks + l);
      SequenceEnds(dx.env, t.left);
      Continues(toks, l);
      StepNoIfDup(dx, pre, ts + [t.right], toks + l);
      RunAtomic(dx, pre + [NonTerm.OrC], ts + [t.right], toks, t.left);
      if AllAccepted(dx, t.left) { ReduceTwo(dx, nts, NonTerm.OrC, ts, t.right, t.left, toks); }
    }
  }

  lemma OrDSplit(toks: seq<Token>, l: seq<Token>, r: seq<Token>)
    ensures toks + (l + [Op(OpIfDup), Op(OpNotIf)] + r + [Op(OpEndIf)])
            == toks + l + [Op(OpIfDup)] + [Op(OpNotIf)] + r + [Op(OpEndIf)]
  {
    OrElseSplit(toks, l, [Op(OpIfDup), Op(OpNotIf)], r);
    assert toks + l + [Op(OpIfDup), Op(OpNotIf)] == toks + l + [Op(OpIfDup)] + [Op(OpNotIf)];
  }

  lemma {:induction false} RunOrD(dx: Dx, nts: seq<NonTerm>, ts: seq<Term>, toks: seq<Token>, t: Term)
    requires t.OrD? && Atomic(t) && WellFormed(dx.env, t) && !EndsInInscription(toks)
    ensures RunDecode(dx, nts + [Expression], ts, toks + Encode(dx.env, t))
            == Decoded(dx, AllAccepted(dx, t), nts, ts + [t], toks)
    decreases t, 0
  {
    var l, r, pre := Encode(dx.env, t.left), Encode(dx.env, t.right), nts + [NonTerm.InscribePre];
    var f := toks + l + [Op(OpIfDup)];
    OrDSplit(toks, l, r);
    FrontOf(f, Op(OpNotIf));
    RunLastBranch(dx, nts, ts, f + [Op(OpNotIf)], t.right);
    if AllAccepted(dx, t.right) {
      StepNotIf(dx, pre, ts + [t.right], f);
      StepIfDup(dx, pre, ts + [t.right], toks + l);
      RunAtomic(dx, pre + [NonTerm.OrD], ts + [t.right], toks, t.left);
      if AllAccepted(dx, t.left) { ReduceTwo(dx, nts, NonTerm.OrD, ts, t.right, t.left, toks); }
    }
  }

  /** The branch before ELSE, once the one after it has been decoded. */
  lemma {:induction false} RunElseBranch(dx: Dx, nts: seq<NonTerm>, ts: seq<Term>, toks: seq<Token>, x: Term, y: Term)
    requires Sequence(x) && WellFormed(dx.env, x) && !IsAndV(toks)
    ensures RunDecode(dx, nts + [EndIf], ts + [y], toks + Encode(dx.env, x) + [Op(OpElse)])
            == Decoded(dx, AllAccepted(dx, x), nts + [EndIfElse], ts + [y] + [x], toks)
    decreases x, 4
  {
    StepElse(dx, nts, ts + [y], toks + Encode(dx.env, x));
    RunSequence(dx, nts + [EndIfElse], ts + [y], toks, x);
  }

  lemma OrISplit(toks: seq<Token>, l: seq<Token>, r: seq<Token>)
    ensures toks + ([Op(OpIf)] + l + [Op(OpElse)] + r + [Op(OpEndIf)])
            == toks + [Op(OpIf)] + l + [Op(OpElse)] + r + [Op(OpEndIf)]
  {
    OrElseSplit(toks, [Op(OpIf)] + l, [Op(OpElse)], r);
    Assoc(toks, [Op(OpIf)], l);
  }

  lemma {:induction false} RunOrI(dx: Dx, nts: seq<NonTerm>, ts: seq<Term>, toks: seq<Token>, t: Term)
    requires t.OrI? && Atomic(t) && WellFormed(dx.env, t) && !EndsInInscription(toks)
    ensures RunDecode(dx, nts + [Expression], ts, toks + Encode(dx.env, t))
            == Decoded(dx, AllAccepted(dx, t), nts, ts + [t], toks)
    decreases t, 0
  {
    var l, r := Encode(dx.env, t.left), Encode(dx.env, t.right);
    var f1 := toks + [Op(OpIf)];
    var f2 := f1 + l + [Op(OpElse)];
    var pre := nts + [NonTerm.InscribePre];
    OrISplit(toks, l, r);
    FrontOf(toks, Op(OpIf));
    FrontOf(f1 + l, Op(OpElse));
    RunLastBranch(dx, nts, ts, f2, t.right);
    if AllAccepted(dx, t.right) {
      RunElseBranch(dx, pre, ts, f1, t.left, t.right);
      if AllAccepted(dx, t.left) {
        ReduceOrI(dx, nts, ts, t.right, t.left, toks);
      }
    }
  }

  lemma AndOrSplit(toks: seq<Token>, a: seq<Token>, b: seq<Token>, c: seq<Token>)
    ensures toks + (a + [Op(OpNotIf)] + c + [Op(OpElse)] + b + [Op(OpEndIf)])
            == toks + a + [Op(OpNotIf)] + c + [Op(OpElse)] + b + [Op(OpEndIf)]
  {
    OrElseSplit(toks, a + [Op(OpNotIf)] + c, [Op(OpElse)], b);
    Assoc(toks, a + [Op(OpNotIf)], c);
    Assoc(toks, a, [Op(OpNotIf)]);
  }

  lemma {:induction false} RunCondition(dx: Dx, nts: seq<NonTerm>, ts: seq<Term>, toks: seq<Token>, t: Term)
    requires t.AndOr? && Atomic(t) && WellFormed(dx.env, t) && !EndsInInscription(toks)
    ensures RunDecode(dx, nts + [NonTerm.InscribePre] + [EndIfElse], ts + [t.b] + [t.c],
              toks + Encode(dx.env, t.a) + [Op(OpNotIf)])
            == Decoded(dx, AllAccepted(dx, t.a) && dx.accepts(t), nts, ts + [t], toks)
    decreases t, 0
  {
    var pre := nts + [NonTerm.InscribePre];
    StepTern(dx, pre, ts + [t.b] + [t.c], toks + Encode(dx.env, t.a));
    RunAtomic(dx, pre + [Tern], ts + [t.b] + [t.c], toks, t.a);
    if AllAccepted(dx, t.a) {
      ReduceAndOr(dx, nts, ts, t.b, t.c, t.a, toks);
    }
  }

  lemma {:induction false} RunAndOr(dx: Dx, nts: seq<NonTerm>, ts: seq<Term>, toks: seq<Token>, t: Term)
    requires t.AndOr? && Atomic(t) && WellFormed(dx.env, t) && !EndsInInscription(toks)
    ensures RunDecode(dx, nts + [Expression], ts, toks + Encode(dx.env, t))
            == Decoded(dx, AllAccepted(dx, t), nts, ts + [t], toks)
    decreases t, 1
  {
    var a, b, c := Encode(dx.env, t.a), Encode(dx.env, t.b), Encode(dx.env, t.c);
    var f1 := toks + a + [Op(OpNotIf)];
    var f2 := f1 + c + [Op(OpElse)];
    AndOrSplit(toks, a, b, c);
    FrontOf(toks + a, Op(OpNotIf));
    FrontOf(f1 + c, Op(OpElse));
    RunLastBranch(dx, nts, ts, f2, t.b);
    if AllAccepted(dx, t.b) {
      RunElseBranch(dx, nts + [NonTerm.InscribePre], ts, f1, t.c, t.b);
      if AllAccepted(dx, t.c) { RunCondition(dx, nts, ts, toks, t); }
    }
  }

  // ----- completeness -----

  /** Decoding an expression's tokens gives the expression, unless one of its
      parts is rejected. */
  lemma {:induction false} RunAtomic(dx: Dx, nts: seq<NonTerm>, ts: seq<Term>, toks: seq<Token>, t: Term)
    requires Atomic(t) && WellFormed(dx.env, t) && !EndsInInscription(toks)
    ensures RunDecode(dx, nts + [Expression], ts, toks + Encode(dx.env, t))
            == Decoded(dx, AllAccepted(dx, t), nts, ts + [t], toks)
    decreases t, 2
  {
    if IsLeaf(t) {
      RunLeaf(dx, nts, ts, toks, t);
    } else if t.Check? {
      RunWrapped(dx, nts, ts, toks, t, NonTerm.Check, OpCheckSig);
    } else if t.ZeroNotEqual? {
      RunWrapped(dx, nts, ts, toks, t, NonTerm.ZeroNotEqual, OpZeroNotEqual);
    } else if t.Verify? {
      if t.sub.HashLock? {
        RunVerifiedHash(dx, nts, ts, toks, t);
      } else if t.sub.Thresh? {
        RunVerifiedThresh(dx, nts, ts, toks, t, t.sub);
      } else {
        RunWrapped(dx, nts, ts, toks, t, NonTerm.Verify, OpVerify);
      }
    } else if t.DupIf? {
      RunDupIf(dx, nts, ts, toks, t);
    } else if t.NonZero? {
      RunNonZero(dx, nts, ts, toks, t);
    } else if t.AndB? {
      RunBoth(dx, nts, ts, toks, t, NonTerm.AndB, OpBoolAnd);
    } else if t.OrB? {
      RunBoth(dx, nts, ts, toks, t, NonTerm.OrB, OpBoolOr);
    } else if t.OrC? {
      RunOrC(dx, nts, ts, toks, t);
    } else if t.OrD? {
      RunOrD(dx, nts, ts, toks, t);
    } else if t.OrI? {
      RunOrI(dx, nts, ts, toks, t);
    } else if t.AndOr? {
      RunAndOr(dx, nts, ts, toks, t);
    } else {
      RunThresh(dx, nts, ts, toks, t);
    }
  }
}
