/** The first tokens of an expression: what the decoder takes for a fragment is
    exactly that fragment's tokens. */
module DecoderShift {
  import opened Bytes
  import opened Script
  import opened Terms
  import opened Decoder
  import opened DecoderSound
  import opened DecoderExact

  /** The sizes that the lexer's token types guarantee. */
  predicate ValidToken(tok: Token) {
    match tok
    case Hash20(b) => |b| == 20
    case Bytes32(b) => |b| == 32
    case Bytes33(b) => |b| == 33
    case Bytes65(b) => |b| == 65
    case _ => true
  }

  predicate ValidTokens(toks: seq<Token>) { forall i :: 0 <= i < |toks| ==> ValidToken(toks[i]) }

  predicate AllWellFormed(env: Env, ts: seq<Term>) { forall i :: 0 <= i < |ts| ==> WellFormed(env, ts[i]) }

  predicate PostsValid(nts: seq<NonTerm>) {
    forall i :: 0 <= i < |nts| && nts[i].InscribePost? ==> ValidInscriptions(nts[i].inscriptions)
  }

  /** The tokens a shift has read. */
  function Meaning(env: Env, s: Shift): seq<Token>
    requires ShiftShape(s)
  {
    if |s.ts| == 1 then Encode(env, s.ts[0]) + (if s.nts == [] then [] else [Op(OpVerify)])
    else if |s.nts| == 1 then [Num(s.nts[0].k), Op(OpEqual)]
    else if s.nts[1].ThreshW? then [Num(s.nts[1].k), Op(OpEqual), Op(OpVerify)]
    else if s.nts[0].AndB? || s.nts[0].OrB? then BoolToken(s.nts[0])
    else Local(env, s.nts[0], [])
  }

  // ----- the pushed nonterminals remember those tokens -----

  lemma MeaningLeaf(env: Env, pre: seq<NonTerm>, ts: seq<Term>, s: Shift)
    requires Waits(pre, |ts|) && |s.ts| == 1 && (s.nts == [] || s.nts == [NonTerm.Verify])
    ensures Consumed(env, pre + s.nts, ts + s.ts) == Meaning(env, s) + Tail(env, pre, ts)
  {
    var t := s.ts[0];
    assert s.ts == [t];
    if s.nts == [] {
      assert pre + s.nts == pre && Encode(env, t) + [] == Encode(env, t);
      ConsumedDelivered(env, pre, ts, t);
    } else {
      var all := ts + [t];
      assert TopTerm(all, 0) == t && Below(all, 1) == ts;
      TopWaits(env, pre, NonTerm.Verify, all, Encode(env, t), [Op(OpVerify)], 1, Tail(env, pre, ts));
      Assoc(Encode(env, t), [Op(OpVerify)], Tail(env, pre, ts));
    }
  }

  lemma MeaningThresh(env: Env, pre: seq<NonTerm>, ts: seq<Term>, xs: seq<NonTerm>)
    requires |xs| == 2 && xs[0].Verify? && xs[1].ThreshW? && xs[1].n == 0
    ensures Consumed(env, pre + xs, ts) == [Num(xs[1].k), Op(OpEqual), Op(OpVerify)] + Tail(env, pre, ts)
  {
    var one := pre + [xs[0]];
    assert pre + xs == one + [xs[1]];
    TopThresh(env, one, xs[1], ts);
    TailOn(env, pre, xs[0], ts);
    assert Below(ts, 0) == ts;
    Assoc([Num(xs[1].k), Op(OpEqual)], [Op(OpVerify)], Tail(env, pre, ts));
    assert [Num(xs[1].k), Op(OpEqual)] + [Op(OpVerify)] == [Num(xs[1].k), Op(OpEqual), Op(OpVerify)];
  }

  lemma MeaningBool(env: Env, pre: seq<NonTerm>, ts: seq<Term>, xs: seq<NonTerm>)
    requires |xs| == 3 && xs[1].Expression? && xs[2].WExpression?
    ensures Consumed(env, pre + xs, ts) == BoolToken(xs[0]) + Tail(env, pre, ts)
  {
    var two := pre + [xs[0]] + [xs[1]];
    assert pre + xs == two + [xs[2]];
    TopPending(env, two, xs[2], ts);
    TailExpression(env, pre, xs[0], ts);
  }

  lemma MeaningPush(env: Env, pre: seq<NonTerm>, ts: seq<Term>, s: Shift)
    requires s.ts == [] && ShiftShape(s) && |s.nts| >= 2 && IsWrap(s.nts[0]) && !s.nts[1].ThreshW?
    ensures Consumed(env, pre + s.nts, ts + s.ts) == Meaning(env, s) + Tail(env, pre, ts)
  {
    assert ts + s.ts == ts && Below(ts, 0) == ts;
    var xs, l, tail := s.nts, Local(env, s.nts[0], ts), Tail(env, pre, ts);
    if |xs| == 2 {
      assert xs == [xs[0], xs[1]];
      PushTwo(env, pre, xs[0], xs[1], ts, l, tail);
    } else {
      assert xs == [xs[0], xs[1], xs[2]];
      PushThree(env, pre, xs[0], ts, l, tail);
    }
  }

  lemma MeaningConsumed(env: Env, pre: seq<NonTerm>, ts: seq<Term>, s: Shift)
    requires ShiftShape(s) && Waits(pre, |ts|)
    ensures Consumed(env, pre + s.nts, ts + s.ts) == Meaning(env, s) + Tail(env, pre, ts)
  {
    var xs := s.nts;
    if |s.ts| == 1 {
      MeaningLeaf(env, pre, ts, s);
    } else if |xs| == 1 {
      assert ts + s.ts == ts && xs == [xs[0]];
      TopThresh(env, pre, xs[0], ts);
    } else if xs[1].ThreshW? {
      assert ts + s.ts == ts;
      MeaningThresh(env, pre, ts, xs);
    } else if xs[0].AndB? || xs[0].OrB? {
      assert ts + s.ts == ts;
      MeaningBool(env, pre, ts, xs);
    } else {
      MeaningPush(env, pre, ts, s);
    }
  }

  // ----- what each shift reads -----

  /** A shift has read the tokens it stands for. */
  predicate Reads(env: Env, toks: seq<Token>, s: Shift) {
    && ShiftShape(s) && toks == s.toks + Meaning(env, s)
    && AllWellFormed(env, s.ts) && PostsValid(s.nts) && s.toks <= toks
  }

  lemma ReadsLeaf(env: Env, toks: seq<Token>, s: Shift, t: Term, verify: bool)
    requires s.ts == [t] && s.nts == (if verify then [NonTerm.Verify] else []) && WellFormed(env, t)
    requires toks == s.toks + Encode(env, t) + (if verify then [Op(OpVerify)] else [])
    ensures Reads(env, toks, s)
  {
    var v := if verify then [Op(OpVerify)] else [];
    Assoc(s.toks, Encode(env, t), v);
    assert s.toks + Meaning(env, s) == toks;
  }

  lemma {:induction false} TakeKeysExact(dx: Dx, toks: seq<Token>, n: nat)
    requires ValidTokens(toks) && TakeKeys(dx, toks, n).Good?
    ensures var r := TakeKeys(dx, toks, n).value;
            && toks == r.1 + KeyTokens(r.0) && |r.0| == n
            && (forall i :: 0 <= i < n ==> IsFullKey(r.0[i]) && dx.env.keyOk(r.0[i]))
  {
    if n > 0 {
      TakeKeysExact(dx, Front(toks), n - 1);
      var r := TakeKeys(dx, Front(toks), n - 1).value;
      var key := LastTok(toks).bytes;
      assert KeyToken(key) == LastTok(toks);
      assert KeyTokens(r.0 + [key]) == KeyTokens(r.0) + [KeyToken(key)];
      FrontLast(toks);
      Assoc(r.1, KeyTokens(r.0), [KeyToken(key)]);
    } else {
      assert toks + KeyTokens([]) == toks;
    }
  }

  lemma TakeKey32Exact(dx: Dx, toks: seq<Token>)
    requires ValidTokens(toks) && TakeKey32(dx, toks).Good?
    ensures var r := TakeKey32(dx, toks).value;
            toks == r.1 + [KeyToken(r.0)] && IsXOnlyKey(r.0) && dx.env.keyOk(r.0)
  {
    FrontLast(toks);
  }

  lemma {:induction false} TakeSigAddsExact(dx: Dx, toks: seq<Token>)
    requires ValidTokens(toks) && TakeSigAdds(dx, toks).Good?
    ensures var r := TakeSigAdds(dx, toks).value;
            && toks == r.1 + SigAddTokens(r.0)
            && (forall i :: 0 <= i < |r.0| ==> IsXOnlyKey(r.0[i]) && dx.env.keyOk(r.0[i]))
    decreases |toks|
  {
    if toks != [] && LastTok(toks) == Op(OpCheckSigAdd) {
      var k := TakeKey32(dx, Front(toks)).value;
      TakeKey32Exact(dx, Front(toks));
      TakeSigAddsExact(dx, k.1);
      var r := TakeSigAdds(dx, k.1).value;
      SigAddsSnoc(r.0, k.0);
      FrontLast(toks);
      assert toks == r.1 + SigAddTokens(r.0) + [KeyToken(k.0), Op(OpCheckSigAdd)];
      Assoc(r.1, SigAddTokens(r.0), [KeyToken(k.0), Op(OpCheckSigAdd)]);
    } else {
      assert toks + SigAddTokens([]) == toks;
    }
  }

  lemma ExpectSizeCheck(toks: seq<Token>)
    requires Expect(toks, SIZE_CHECK).Good?
    ensures toks == Expect(toks, SIZE_CHECK).value + [Op(OpSize), Num(32), Op(OpEqual), Op(OpVerify)]
  {
    var a, b, c, d := Op(OpVerify), Op(OpEqual), Num(32), Op(OpSize);
    assert SIZE_CHECK[1..] == [b, c, d] && [b, c, d][1..] == [c, d];
    FrontLast(toks);
    var t1 := Front(toks);
    FrontLast(t1);
    var t2 := Front(t1);
    ExpectTwo(t2, c, d);
  }

  /** A hash lock, read from its hash operation; its hash and EQUAL come after. */
  lemma ReadHash(env: Env, image: Bytes, wide: bool, nts: seq<NonTerm>, toks: seq<Token>)
    requires ShiftHashOp(image, wide, nts, toks).Good? && |image| == (if wide then 32 else 20)
    ensures var s := ShiftHashOp(image, wide, nts, toks).value;
            && s.nts == nts && |s.ts| == 1 && WellFormed(env, s.ts[0])
            && toks + [if wide then Bytes32(image) else Hash20(image), Op(OpEqual)] == s.toks + Encode(env, s.ts[0])
  {
    var kind := LastTok(toks).op.kind;
    FrontLast(toks);
    ExpectSizeCheck(Front(toks));
    var rest := Expect(Front(toks), SIZE_CHECK).value;
    HashPieces(rest, kind, image);
  }

  lemma HashPieces(rest: seq<Token>, kind: HashKind, image: Bytes)
    ensures rest + [Op(OpSize), Num(32), Op(OpEqual), Op(OpVerify)] + [Op(OpHash(kind))]
            + [HashToken(kind, image), Op(OpEqual)]
            == rest + HashTokens(kind, image)
  {
  }

  lemma ReadTemplate(dx: Dx, toks: seq<Token>)
    requires ValidTokens(toks) && ShiftTemplate(dx, toks).Good?
    ensures Reads(dx.env, toks + [Op(OpDrop)], ShiftTemplate(dx, toks).value)
  {
    var s := ShiftTemplate(dx, toks).value;
    ExpectOne(toks, Op(OpCheckTemplateVerify));
    var rest := Expect(toks, [Op(OpCheckTemplateVerify)]).value;
    FrontLast(rest);
    var tok := LastTok(rest);
    assert toks[|rest| - 1] == tok;
    assert toks + [Op(OpDrop)] == s.toks + [tok, Op(OpCheckTemplateVerify), Op(OpDrop)] + [];
    ReadsLeaf(dx.env, toks + [Op(OpDrop)], s, s.ts[0], false);
  }

  lemma ReadTime(dx: Dx, op: Opcode, toks: seq<Token>)
    requires op.OpCheckSequenceVerify? || op.OpCheckLockTimeVerify?
    requires ShiftOp(dx, op, toks).Good?
    ensures Reads(dx.env, toks + [Op(op)], ShiftOp(dx, op, toks).value)
  {
    var s := ShiftOp(dx, op, toks).value;
    FrontLast(toks);
    assert toks + [Op(op)] == s.toks + [LastTok(toks), Op(op)] + [];
    ReadsLeaf(dx.env, toks + [Op(op)], s, s.ts[0], false);
  }

  lemma ReadMulti(dx: Dx, toks: seq<Token>)
    requires ValidTokens(toks) && ShiftMulti(dx, toks).Good?
    ensures Reads(dx.env, toks + [Op(OpCheckMultiSig)], ShiftMulti(dx, toks).value)
  {
    var s := ShiftMulti(dx, toks).value;
    var n := LastTok(toks).n;
    TakeKeysExact(dx, Front(toks), n);
    FrontLast(toks);
    var (keys, rest) := TakeKeys(dx, Front(toks), n).value;
    FrontLast(rest);
    var k := LastTok(rest);
    MultiPieces(Front(rest), k, KeyTokens(keys), LastTok(toks));
    ReadsLeaf(dx.env, toks + [Op(OpCheckMultiSig)], s, s.ts[0], false);
  }

  lemma MultiPieces(f: seq<Token>, k: Token, keys: seq<Token>, n: Token)
    ensures f + [k] + keys + [n] + [Op(OpCheckMultiSig)] == f + ([k] + keys + [n, Op(OpCheckMultiSig)]) + []
  {
  }

  lemma ValidFront(a: seq<Token>, b: seq<Token>)
    requires ValidTokens(a + b)
    ensures ValidTokens(a)
  {
    forall i | 0 <= i < |a|
      ensures ValidToken(a[i])
    {
      assert a[i] == (a + b)[i];
    }
  }

  lemma ReadMultiA(dx: Dx, toks: seq<Token>)
    requires ValidTokens(toks) && ShiftMultiA(dx, toks).Good?
    ensures Reads(dx.env, toks + [Op(OpNumEqual)], ShiftMultiA(dx, toks).value)
  {
    var s := ShiftMultiA(dx, toks).value;
    TakeSigAddsExact(dx, Front(toks));
    FrontLast(toks);
    var (keys, rest) := TakeSigAdds(dx, Front(toks)).value;
    ExpectOne(rest, Op(OpCheckSig));
    var rest1 := Expect(rest, [Op(OpCheckSig)]).value;
    ValidFront(rest, SigAddTokens(keys));
    ValidFront(rest1, [Op(OpCheckSig)]);
    TakeKey32Exact(dx, rest1);
    var (first, rest2) := TakeKey32(dx, rest1).value;
    assert ([first] + keys)[1..] == keys;
    MultiAPieces(rest2, KeyToken(first), SigAddTokens(keys), LastTok(toks));
    ReadsLeaf(dx.env, toks + [Op(OpNumEqual)], s, s.ts[0], false);
  }

  lemma MultiAPieces(f: seq<Token>, key: Token, keys: seq<Token>, k: Token)
    ensures f + [key] + [Op(OpCheckSig)] + keys + [k] + [Op(OpNumEqual)]
            == f + ([key, Op(OpCheckSig)] + keys + [k, Op(OpNumEqual)]) + []
  {
  }

  lemma ReadEqual(dx: Dx, toks: seq<Token>)
    requires ValidTokens(toks) && ShiftEqual(dx, toks).Good?
    ensures Reads(dx.env, toks + [Op(OpEqual)], ShiftEqual(dx, toks).value)
  {
    var s := ShiftEqual(dx, toks).value;
    var tok := LastTok(toks);
    FrontLast(toks);
    if tok.Num? {
      assert toks + [Op(OpEqual)] == s.toks + [tok, Op(OpEqual)];
    } else {
      ReadHash(dx.env, tok.bytes, tok.Bytes32?, [], Front(toks));
      assert toks + [Op(OpEqual)] == Front(toks) + [tok, Op(OpEqual)];
      assert s.ts == [s.ts[0]];
      EmptyLead(s.toks + Encode(dx.env, s.ts[0]), []);
      ReadsLeaf(dx.env, toks + [Op(OpEqual)], s, s.ts[0], false);
    }
  }

  lemma ReadRawPkH(dx: Dx, toks: seq<Token>, f: seq<Token>, h: Bytes, s: Shift)
    requires toks == f + [Op(OpDup), Op(OpHash(Hash160)), Hash20(h)] && |h| == 20
    requires s == Shift([], [RawPkH(h)], f)
    ensures Reads(dx.env, toks + [Op(OpEqual)] + [Op(OpVerify)], s)
  {
    assert toks + [Op(OpEqual)] + [Op(OpVerify)] == f + PkHTokens(h) + [];
    ReadsLeaf(dx.env, toks + [Op(OpEqual)] + [Op(OpVerify)], s, s.ts[0], false);
  }

  lemma ReadVerifiedHash(dx: Dx, toks: seq<Token>, tok: Token, f: seq<Token>)
    requires toks == f + [tok] && ValidToken(tok) && (tok.Hash20? || tok.Bytes32?)
    requires ShiftHashOp(tok.bytes, tok.Bytes32?, [NonTerm.Verify], f).Good?
    ensures Reads(dx.env, toks + [Op(OpEqual)] + [Op(OpVerify)],
              ShiftHashOp(tok.bytes, tok.Bytes32?, [NonTerm.Verify], f).value)
  {
    var s := ShiftHashOp(tok.bytes, tok.Bytes32?, [NonTerm.Verify], f).value;
    ReadHash(dx.env, tok.bytes, tok.Bytes32?, [NonTerm.Verify], f);
    assert toks + [Op(OpEqual)] == f + [tok, Op(OpEqual)];
    assert s.ts == [s.ts[0]];
    ReadsLeaf(dx.env, toks + [Op(OpEqual)] + [Op(OpVerify)], s, s.ts[0], true);
  }

  lemma ReadVerifiedThresh(env: Env, toks: seq<Token>, tok: Token, f: seq<Token>)
    requires toks == f + [tok] && tok.Num?
    ensures Reads(env, toks + [Op(OpEqual)] + [Op(OpVerify)], Shift([NonTerm.Verify, ThreshW(tok.n, 0)], [], f))
  {
    assert toks + [Op(OpEqual)] + [Op(OpVerify)] == f + [tok, Op(OpEqual), Op(OpVerify)];
  }

  lemma RawTokens(dx: Dx, toks: seq<Token>, tok: Token, s: Shift)
    requires toks != [] && tok == LastTok(toks) && !tok.Num? && ShiftEqualVerify(dx, toks) == Good(s) && s.nts == []
    ensures tok.Hash20? && s == Shift([], [RawPkH(tok.bytes)], s.toks)
    ensures toks == s.toks + [Op(OpDup), Op(OpHash(Hash160)), tok]
  {
    var f := Front(toks);
    FrontLast(toks);
    FrontLast(f);
    FrontLast(Front(f));
  }

  lemma ReadEqualVerify(dx: Dx, toks: seq<Token>)
    requires ValidTokens(toks) && ShiftEqualVerify(dx, toks).Good?
    ensures Reads(dx.env, toks + [Op(OpEqual)] + [Op(OpVerify)], ShiftEqualVerify(dx, toks).value)
  {
    var s := ShiftEqualVerify(dx, toks).value;
    var tok, f := LastTok(toks), Front(toks);
    FrontLast(toks);
    if tok.Num? {
      ReadVerifiedThresh(dx.env, toks, tok, f);
    } else if s.nts == [] {
      RawTokens(dx, toks, tok, s);
      ReadRawPkH(dx, toks, s.toks, tok.bytes, s);
    } else {
      ReadVerifiedHash(dx, toks, tok, f);
    }
  }

  lemma ReadVerify(dx: Dx, toks: seq<Token>)
    requires ValidTokens(toks) && ShiftVerify(dx, toks).Good?
    ensures Reads(dx.env, toks + [Op(OpVerify)], ShiftVerify(dx, toks).value)
  {
    FrontLast(toks);
    if LastTok(toks) == Op(OpEqual) { ReadEqualVerify(dx, Front(toks)); }
  }

  lemma ReadOp(dx: Dx, op: Opcode, toks: seq<Token>)
    requires ValidTokens(toks) && ShiftOp(dx, op, toks).Good?
    ensures Reads(dx.env, toks + [Op(op)], ShiftOp(dx, op, toks).value)
  {
    match op
    case OpDrop => ReadTemplate(dx, toks);
    case OpVerify => ReadVerify(dx, toks);
    case OpCheckSequenceVerify => ReadTime(dx, op, toks);
    case OpCheckLockTimeVerify => ReadTime(dx, op, toks);
    case OpEqual => ReadEqual(dx, toks);
    case OpCheckMultiSig => ReadMulti(dx, toks);
    case OpNumEqual => ReadMultiA(dx, toks);
    case OpCheckSig | OpZeroNotEqual | OpEndIf | OpBoolAnd | OpBoolOr =>
  }

  lemma ReadKey(dx: Dx, toks: seq<Token>)
    requires ValidTokens(toks) && toks != []
    requires LastTok(toks).Bytes32? || LastTok(toks).Bytes33? || LastTok(toks).Bytes65?
    requires ShiftExpression(dx, toks).Good?
    ensures Reads(dx.env, toks, ShiftExpression(dx, toks).value)
  {
    var s := ShiftExpression(dx, toks).value;
    FrontLast(toks);
    assert toks == s.toks + [LastTok(toks)] + [];
    ReadsLeaf(dx.env, toks, s, s.ts[0], false);
  }

  lemma ReadConstant(dx: Dx, toks: seq<Token>)
    requires toks != [] && LastTok(toks).Num? && ShiftExpression(dx, toks).Good?
    ensures Reads(dx.env, toks, ShiftExpression(dx, toks).value)
  {
    var s := ShiftExpression(dx, toks).value;
    FrontLast(toks);
    assert toks == s.toks + [LastTok(toks)] + [];
    ReadsLeaf(dx.env, toks, s, s.ts[0], false);
  }

  /** The start of an expression reads exactly what it stands for. */
  lemma ReadExpression(dx: Dx, toks: seq<Token>)
    requires ValidTokens(toks) && ShiftExpression(dx, toks).Good? && !EndsInInscription(toks)
    ensures Reads(dx.env, toks, ShiftExpression(dx, toks).value)
  {
    FrontLast(toks);
    var tok := LastTok(toks);
    if tok.Op? {
      ReadOp(dx, tok.op, Front(toks));
    } else if tok.Num? {
      ReadConstant(dx, toks);
    } else {
      ReadKey(dx, toks);
    }
  }

  lemma ReadW(dx: Dx, toks: seq<Token>)
    requires ShiftW(dx, toks).Good? && !EndsInInscription(toks)
    ensures Reads(dx.env, toks, ShiftW(dx, toks).value)
  {
    FrontLast(toks);
  }

  // ----- shift steps -----

  /** After a shift the stacks stand for what it has read. */
  lemma OfShiftConsumed(env: Env, nts: seq<NonTerm>, ts: seq<Term>, s: Shift)
    requires ShiftShape(s) && Waits(nts, |ts|)
    ensures Consumed(env, nts + [NonTerm.InscribePre] + s.nts, ts + s.ts) == Meaning(env, s) + Tail(env, nts, ts)
  {
    WaitsWrap(nts, NonTerm.InscribePre, |ts|);
    MeaningConsumed(env, nts + [NonTerm.InscribePre], ts, s);
    TailOn(env, nts, NonTerm.InscribePre, ts);
    assert Below(ts, 0) == ts;
    EmptyLead(Tail(env, nts, ts), Tail(env, nts, ts));
  }

  lemma OfShiftSame(env: Env, nts: seq<NonTerm>, x: NonTerm, ts: seq<Term>, toks: seq<Token>, s: Shift)
    requires (x.Expression? || x.WExpression?) && ShiftShape(s) && Waits(nts, |ts|)
    requires SameTokens(toks, s.toks + Meaning(env, s))
    ensures SameTokens(toks + Consumed(env, nts + [x], ts),
              s.toks + Consumed(env, nts + [NonTerm.InscribePre] + s.nts, ts + s.ts))
  {
    OfShiftConsumed(env, nts, ts, s);
    TopPending(env, nts, x, ts);
    SameConcat(toks, s.toks + Meaning(env, s), Tail(env, nts, ts), Tail(env, nts, ts));
    Assoc(s.toks, Meaning(env, s), Tail(env, nts, ts));
  }

  lemma {:induction false} TakeInscriptionsFront(dx: Dx, toks: seq<Token>)
    requires TakeInscriptions(dx, toks).Good?
    ensures TakeInscriptions(dx, toks).value.1 <= toks
  {
    if EndsInInscription(toks) {
      TakeInscriptionsFront(dx, Front(toks));
      var rest := TakeInscriptions(dx, Front(toks)).value.1;
      assert rest == toks[..|rest|];
    }
  }

  /** Envelopes to the right of an expression are kept for it. */
  lemma ReadInscriptions(dx: Dx, below: NonTerm, toks: seq<Token>)
    requires (below.Expression? || below.WExpression?) && EndsInInscription(toks)
    requires ShiftInscriptions(dx, below, toks).Good?
    ensures var s := ShiftInscriptions(dx, below, toks).value;
            && ShiftShape(s) && SameTokens(toks, s.toks + Meaning(dx.env, s))
            && s.ts == [] && PostsValid(s.nts) && s.toks <= toks
  {
    TakenInscriptions(dx, toks);
    TakeInscriptionsFront(dx, toks);
    var r := TakeInscriptions(dx, toks).value;
    PostMeaning(dx.env, r.0, below, r.1);
  }

  lemma PostMeaning(env: Env, ins: seq<Ord.Inscription>, below: NonTerm, rest: seq<Token>)
    requires below.Expression? || below.WExpression?
    ensures var s := Shift([NonTerm.InscribePost(ins), below], [], rest);
            ShiftShape(s) && Meaning(env, s) == EnvelopeTokens(ins) && (ValidInscriptions(ins) ==> PostsValid(s.nts))
  {
  }

  /** What every shift step keeps. */
  lemma StepShiftSame(dx: Dx, x: NonTerm, nts: seq<NonTerm>, ts: seq<Term>, toks: seq<Token>)
    requires (x.Expression? || x.WExpression?) && ValidTokens(toks) && Waits(nts, |ts|)
    requires Handle(dx, x, nts, ts, toks).Good?
    ensures StepSame(dx, x, nts, ts, toks)
    ensures var s := if x.Expression? then ShiftExpression(dx, toks) else ShiftW(dx, toks);
            s.Good? && AllWellFormed(dx.env, s.value.ts) && PostsValid(s.value.nts) && s.value.toks <= toks
  {
    var s := (if x.Expression? then ShiftExpression(dx, toks) else ShiftW(dx, toks)).value;
    if EndsInInscription(toks) {
      ReadInscriptions(dx, x, toks);
    } else if x.Expression? {
      ReadExpression(dx, toks);
    } else {
      ReadW(dx, toks);
    }
    OfShiftSame(dx.env, nts, x, ts, toks, s);
  }

  lemma BeforePre(env: Env, nts: seq<NonTerm>, ts: seq<Term>, rest: seq<Term>)
    requires ts != [] && rest == Below(ts, 1)
    ensures Consumed(env, nts + [NonTerm.InscribePre], ts) == Encode(env, TopTerm(ts, 0)) + Tail(env, nts, rest)
  {
    TopEmpty(env, nts, NonTerm.InscribePre, ts, Encode(env, TopTerm(ts, 0)), Tail(env, nts, rest));
  }

  lemma EncodePre(env: Env, ins: seq<Ord.Inscription>, sub: Term)
    ensures Encode(env, Term.InscribePre(ins, sub)) == EnvelopeTokens(ins) + Encode(env, sub)
  {
  }

  lemma PreReduce(env: Env, nts: seq<NonTerm>, ts: seq<Term>, rest: seq<Term>, ins: seq<Ord.Inscription>,
                  toks: seq<Token>, toks': seq<Token>)
    requires ts != [] && rest == Below(ts, 1) && Waits(nts, |rest|)
    requires SameTokens(toks, toks' + EnvelopeTokens(ins))
    ensures SameTokens(toks + Consumed(env, nts + [NonTerm.InscribePre], ts),
              toks' + Consumed(env, nts, rest + [Term.InscribePre(ins, TopTerm(ts, 0))]))
  {
    var a, tail := Encode(env, TopTerm(ts, 0)), Tail(env, nts, rest);
    BeforePre(env, nts, ts, rest);
    ConsumedDelivered(env, nts, rest, Term.InscribePre(ins, TopTerm(ts, 0)));
    EncodePre(env, ins, TopTerm(ts, 0));
    PreTokens(toks, toks', EnvelopeTokens(ins), a, tail);
  }

  lemma SameTokensFrom(dx: Dx, x: NonTerm, nts: seq<NonTerm>, ts: seq<Term>, toks: seq<Token>, next: PState)
    requires Handle(dx, x, nts, ts, toks) == Good(next)
    requires SameTokens(toks + Consumed(dx.env, nts + [x], ts), next.toks + Consumed(dx.env, next.nts, next.ts))
    ensures StepSame(dx, x, nts, ts, toks)
  {
  }

  lemma PreTaken(dx: Dx, nts: seq<NonTerm>, ts: seq<Term>, toks: seq<Token>)
    requires ts != [] && EndsInInscription(toks) && Handle(dx, NonTerm.InscribePre, nts, ts, toks).Good?
    ensures TakeInscriptions(dx, toks).Good?
    ensures var r := TakeInscriptions(dx, toks).value;
            Handle(dx, NonTerm.InscribePre, nts, ts, toks).value
            == PState(nts, Below(ts, 1) + [Term.InscribePre(r.0, TopTerm(ts, 0))], r.1)
  {
  }

  lemma PrePassed(dx: Dx, nts: seq<NonTerm>, ts: seq<Term>, toks: seq<Token>)
    requires ts != [] && !EndsInInscription(toks)
    ensures Handle(dx, NonTerm.InscribePre, nts, ts, toks) == Good(PState(nts, ts, toks))
  {
  }

  /** Envelopes to the left of a term. */
  lemma StepPreSame(dx: Dx, nts: seq<NonTerm>, ts: seq<Term>, toks: seq<Token>)
    requires ts != [] && Waits(nts, |ts| - 1) && Handle(dx, NonTerm.InscribePre, nts, ts, toks).Good?
    ensures StepSame(dx, NonTerm.InscribePre, nts, ts, toks)
  {
    if EndsInInscription(toks) {
      PreTaken(dx, nts, ts, toks);
      var r := TakeInscriptions(dx, toks).value;
      TakenInscriptions(dx, toks);
      var t := Term.InscribePre(r.0, TopTerm(ts, 0));
      PreReduce(dx.env, nts, ts, Below(ts, 1), r.0, toks, r.1);
      SameTokensFrom(dx, NonTerm.InscribePre, nts, ts, toks, PState(nts, Below(ts, 1) + [t], r.1));
    } else {
      PrePassed(dx, nts, ts, toks);
      PassedOn(dx.env, nts, NonTerm.InscribePre, ts, Below(ts, 1));
      SameFrom(dx, NonTerm.InscribePre, nts, ts, toks, PState(nts, ts, toks));
    }
  }

  lemma PreTokens(toks: seq<Token>, rest: seq<Token>, env: seq<Token>, a: seq<Token>, b: seq<Token>)
    requires SameTokens(toks, rest + env)
    ensures SameTokens(toks + (a + b), rest + (env + a + b))
  {
    SameConcat(toks, rest + env, a + b, a + b);
    Assoc(rest, env, a + b);
    Assoc(env, a, b);
  }
}
