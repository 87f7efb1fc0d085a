/** The canonical form of a term, which is what decoding its script gives. */
module Canonical {
  import opened Bytes
  import opened Script
  import opened Terms
  import opened Types
  import opened Decoder
  import opened DecoderSound
  import opened DecoderShift
  import opened DecoderSoundness
  import opened DecoderComplete

  // ----- canonical forms -----

  /** `l` in front of all operands of `r`. */
  function JoinV(l: Term, r: Term): Term {
    if r.AndV? then Term.AndV(JoinV(l, r.left), r.right) else Term.AndV(l, r)
  }

  /** Chains of `and_v` nested to the left and drawn out of the first operand of
      `c:`, `v:`, `n:` and `and_b`; keys of `pk_h` reduced to their hashes. */
  function Canon(env: Env, t: Term): Term {
    match t
    case PkH(key) => RawPkH(env.hash(Hash160, key))
    case InscribePre(ins, x) => Term.InscribePre(ins, Canon(env, x))
    case InscribePost(ins, x) => Term.InscribePost(ins, Canon(env, x))
    case Alt(x) => Term.Alt(Canon(env, x))
    case Swap(x) => Term.Swap(Canon(env, x))
    case DupIf(x) => Term.DupIf(Canon(env, x))
    case NonZero(x) => Term.NonZero(Canon(env, x))
    case Check(x) =>
      var y := Canon(env, x);
      if y.AndV? then Term.AndV(y.left, Term.Check(y.right)) else Term.Check(y)
    case Verify(x) =>
      var y := Canon(env, x);
      if y.AndV? then Term.AndV(y.left, Term.Verify(y.right)) else Term.Verify(y)
    case ZeroNotEqual(x) =>
      var y := Canon(env, x);
      if y.AndV? then Term.AndV(y.left, Term.ZeroNotEqual(y.right)) else Term.ZeroNotEqual(y)
    case AndB(l, r) =>
      var y, w := Canon(env, l), Canon(env, r);
      if y.AndV? then Term.AndV(y.left, Term.AndB(y.right, w)) else Term.AndB(y, w)
    case AndV(l, r) => JoinV(Canon(env, l), Canon(env, r))
    case OrB(l, r) => Term.OrB(Canon(env, l), Canon(env, r))
    case OrD(l, r) => Term.OrD(Canon(env, l), Canon(env, r))
    case OrC(l, r) => Term.OrC(Canon(env, l), Canon(env, r))
    case OrI(l, r) => Term.OrI(Canon(env, l), Canon(env, r))
    case AndOr(a, b, c) => Term.AndOr(Canon(env, a), Canon(env, b), Canon(env, c))
    case Thresh(k, subs) =>
      Term.Thresh(k, seq(|subs|, i requires 0 <= i < |subs| => Canon(env, subs[i])))
    case _ => t
  }

  // ----- the script stays the same -----

  lemma {:induction false} JoinVEncodes(env: Env, l: Term, r: Term)
    ensures Encode(env, JoinV(l, r)) == Encode(env, l) + Encode(env, r)
  {
    if r.AndV? {
      JoinVEncodes(env, l, r.left);
      Assoc(Encode(env, l), Encode(env, r.left), Encode(env, r.right));
    }
  }

  lemma {:induction false} JoinVWellFormed(env: Env, l: Term, r: Term)
    requires WellFormed(env, l) && WellFormed(env, r)
    ensures WellFormed(env, JoinV(l, r))
  {
    if r.AndV? { JoinVWellFormed(env, l, r.left); }
  }

  lemma {:induction false} CanonAdds(env: Env, subs: seq<Term>, cs: seq<Term>)
    requires |cs| == |subs| && forall i :: 0 <= i < |subs| ==> Encode(env, cs[i]) == Encode(env, subs[i])
    ensures EncodeAdds(env, cs) == EncodeAdds(env, subs)
  {
    if subs != [] {
      assert Encode(env, cs[0]) == Encode(env, subs[0]);
      CanonAdds(env, subs[1..], cs[1..]);
    }
  }

  lemma {:induction false} CanonWrapped(env: Env, t: Term)
    requires t.Check? || t.Verify? || t.ZeroNotEqual?
    requires Encode(env, Canon(env, t.sub)) == Encode(env, t.sub)
    ensures Encode(env, Canon(env, t)) == Encode(env, t)
  {
    var y := Canon(env, t.sub);
    if y.AndV? {
      var op := if t.Check? then OpCheckSig else if t.Verify? then OpVerify else OpZeroNotEqual;
      Assoc(Encode(env, y.left), Encode(env, y.right), [Op(op)]);
    }
  }

  lemma {:induction false} CanonAndB(env: Env, t: Term)
    requires t.AndB? && Encode(env, Canon(env, t.left)) == Encode(env, t.left)
    requires Encode(env, Canon(env, t.right)) == Encode(env, t.right)
    ensures Encode(env, Canon(env, t)) == Encode(env, t)
  {
    var y := Canon(env, t.left);
    if y.AndV? {
      var a, b, w := Encode(env, y.left), Encode(env, y.right), Encode(env, t.right);
      Assoc(a, b + w, [Op(OpBoolAnd)]);
      Assoc(a, b, w);
    }
  }

  lemma {:induction false} CanonThresh(env: Env, t: Term)
    requires t.Thresh? && forall i :: 0 <= i < |t.subs| ==> Encode(env, Canon(env, t.subs[i])) == Encode(env, t.subs[i])
    ensures Encode(env, Canon(env, t)) == Encode(env, t)
  {
    var cs := Canon(env, t).subs;
    if cs != [] {
      assert Encode(env, cs[0]) == Encode(env, t.subs[0]);
      CanonAdds(env, t.subs[1..], cs[1..]);
    }
  }

  /** A term and its canonical form have the same script. */
  lemma {:induction false} CanonEncodes(env: Env, t: Term)
    ensures Encode(env, Canon(env, t)) == Encode(env, t)
  {
    if t.Check? || t.Verify? || t.ZeroNotEqual? {
      CanonEncodes(env, t.sub);
      CanonWrapped(env, t);
    } else if IsUnary(t) {
      CanonEncodes(env, t.sub);
    } else if t.AndB? {
      CanonEncodes(env, t.left);
      CanonEncodes(env, t.right);
      CanonAndB(env, t);
    } else if t.AndV? {
      CanonEncodes(env, t.left);
      CanonEncodes(env, t.right);
      JoinVEncodes(env, Canon(env, t.left), Canon(env, t.right));
    } else if t.OrB? || t.OrC? || t.OrD? || t.OrI? {
      CanonEncodes(env, t.left);
      CanonEncodes(env, t.right);
    } else if t.AndOr? {
      CanonEncodes(env, t.a);
      CanonEncodes(env, t.b);
      CanonEncodes(env, t.c);
    } else if t.Thresh? {
      forall i | 0 <= i < |t.subs|
        ensures Encode(env, Canon(env, t.subs[i])) == Encode(env, t.subs[i])
      {
        CanonEncodes(env, t.subs[i]);
      }
      CanonThresh(env, t);
    }
  }

  lemma {:induction false} CanonWellFormedTwo(env: Env, t: Term)
    requires Sane(env) && WellFormed(env, t) && (t.AndB? || t.AndV? || t.OrB? || t.OrC? || t.OrD? || t.OrI?)
    ensures WellFormed(env, Canon(env, t))
    decreases t, 0
  {
    CanonWellFormed(env, t.left);
    CanonWellFormed(env, t.right);
    if t.AndV? { JoinVWellFormed(env, Canon(env, t.left), Canon(env, t.right)); }
  }

  lemma {:induction false} CanonWellFormed(env: Env, t: Term)
    requires Sane(env) && WellFormed(env, t)
    ensures WellFormed(env, Canon(env, t))
    decreases t, 1
  {
    if IsUnary(t) {
      CanonWellFormed(env, t.sub);
    } else if t.AndOr? {
      CanonWellFormed(env, t.a);
      CanonWellFormed(env, t.b);
      CanonWellFormed(env, t.c);
    } else if t.Thresh? {
      forall i | 0 <= i < |t.subs|
        ensures WellFormed(env, Canon(env, t.subs[i]))
      {
        CanonWellFormed(env, t.subs[i]);
      }
    } else if !IsLeaf(t) {
      CanonWellFormedTwo(env, t);
    }
  }

  // ----- the type stays the same -----

  lemma AndInputAssoc(x: Input, y: Input, z: Input)
    ensures AndInput(AndInput(x, y), z) == AndInput(x, AndInput(y, z))
  {
  }

  /** The type of a typed `and_v` from the types of its operands. */
  lemma AndVTypeOf(l: Term, r: Term)
    requires HasBase(l, V) && IsTyped(r) && !TypeOf(r).value.base.W?
    ensures TypeOf(Term.AndV(l, r)) == Ok(Correctness(TypeOf(r).value.base,
              AndInput(TypeOf(l).value.input, TypeOf(r).value.input), false, TypeOf(r).value.unit))
  {
  }

  lemma {:induction false} JoinVType(l: Term, r: Term)
    requires HasBase(l, V) && IsTyped(r) && !TypeOf(r).value.base.W?
    ensures TypeOf(JoinV(l, r)) == TypeOf(Term.AndV(l, r))
  {
    if r.AndV? {
      AndVParts(r);
      JoinVType(l, r.left);
      var lr := JoinV(l, r.left);
      AndVTypeOf(l, r.left);
      AndVTypeOf(lr, r.right);
      AndVTypeOf(l, r);
      AndVTypeOf(r.left, r.right);
      AndInputAssoc(TypeOf(l).value.input, TypeOf(r.left).value.input, TypeOf(r.right).value.input);
    }
  }

  /** Drawing an `and_v` out of `c:`, `v:` or `n:`. */
  lemma HoistType(y: Term, t: Term, inner: Term)
    requires y.AndV? && IsTyped(t)
    requires (t == Term.Check(y) && inner == Term.Check(y.right)) || (t == Term.Verify(y) && inner == Term.Verify(y.right))
             || (t == Term.ZeroNotEqual(y) && inner == Term.ZeroNotEqual(y.right))
    ensures TypeOf(Term.AndV(y.left, inner)) == TypeOf(t)
  {
    assert IsTyped(y);
    AndVParts(y);
    AndVTypeOf(y.left, y.right);
    AndVTypeOf(y.left, inner);
  }

  /** Drawing an `and_v` out of `and_b`. */
  lemma HoistAndB(y: Term, w: Term)
    requires y.AndV? && IsTyped(Term.AndB(y, w))
    ensures TypeOf(Term.AndV(y.left, Term.AndB(y.right, w))) == TypeOf(Term.AndB(y, w))
  {
    AndVParts(y);
    AndVTypeOf(y.left, y.right);
    AndVTypeOf(y.left, Term.AndB(y.right, w));
    AndInputAssoc(TypeOf(y.left).value.input, TypeOf(y.right).value.input, TypeOf(w).value.input);
  }

  lemma {:induction false} ThreshArgsCanon(subs: seq<Term>, cs: seq<Term>, first: bool)
    requires |cs| == |subs| && forall i :: 0 <= i < |subs| ==> TypeOf(cs[i]) == TypeOf(subs[i])
    ensures ThreshArgs(cs, first) == ThreshArgs(subs, first)
  {
    if subs != [] {
      assert TypeOf(cs[0]) == TypeOf(subs[0]);
      ThreshArgsCanon(subs[1..], cs[1..], false);
    }
  }

  lemma {:induction false} CanonUnaryType(env: Env, t: Term)
    requires IsUnary(t) && IsTyped(t)
    ensures TypeOf(Canon(env, t)) == TypeOf(t)
    decreases t, 0
  {
    assert IsTyped(t.sub);
    CanonType(env, t.sub);
    var y := Canon(env, t.sub);
    if y.AndV? {
      if t.Check? { HoistType(y, Term.Check(y), Term.Check(y.right)); }
      if t.Verify? { HoistType(y, Term.Verify(y), Term.Verify(y.right)); }
      if t.ZeroNotEqual? { HoistType(y, Term.ZeroNotEqual(y), Term.ZeroNotEqual(y.right)); }
    }
  }

  lemma {:induction false} CanonBinaryType(env: Env, t: Term)
    requires (t.AndB? || t.AndV? || t.OrB? || t.OrC? || t.OrD? || t.OrI?) && IsTyped(t)
    ensures TypeOf(Canon(env, t)) == TypeOf(t)
    decreases t, 0
  {
    assert IsTyped(t.left) && IsTyped(t.right);
    CanonType(env, t.left);
    CanonType(env, t.right);
    var l, r := Canon(env, t.left), Canon(env, t.right);
    if t.AndV? {
      AndVParts(t);
      JoinVType(l, r);
    } else if t.AndB? && l.AndV? {
      HoistAndB(l, r);
    }
  }

  /** A typed term and its canonical form have the same type. */
  lemma {:induction false} CanonType(env: Env, t: Term)
    requires IsTyped(t)
    ensures TypeOf(Canon(env, t)) == TypeOf(t)
    decreases t, 1
  {
    if IsUnary(t) {
      CanonUnaryType(env, t);
    } else if t.AndB? || t.AndV? || t.OrB? || t.OrC? || t.OrD? || t.OrI? {
      CanonBinaryType(env, t);
    } else if t.AndOr? {
      assert IsTyped(t.a) && IsTyped(t.b) && IsTyped(t.c);
      CanonType(env, t.a);
      CanonType(env, t.b);
      CanonType(env, t.c);
    } else if t.Thresh? {
      var cs := Canon(env, t).subs;
      assert ThreshArgs(t.subs, true).Ok?;
      forall i | 0 <= i < |t.subs|
        ensures TypeOf(cs[i]) == TypeOf(t.subs[i])
      {
        ThreshTyped(t.subs, true, i);
        CanonType(env, t.subs[i]);
      }
      ThreshArgsCanon(t.subs, cs, true);
    }
  }

  // ----- canonical forms have canonical shapes -----

  /** No inscriptions anywhere. */
  predicate Free(t: Term) {
    match t
    case InscribePre(_, _) => false
    case InscribePost(_, _) => false
    case Alt(x) => Free(x)
    case Swap(x) => Free(x)
    case Check(x) => Free(x)
    case DupIf(x) => Free(x)
    case Verify(x) => Free(x)
    case NonZero(x) => Free(x)
    case ZeroNotEqual(x) => Free(x)
    case AndV(l, r) => Free(l) && Free(r)
    case AndB(l, r) => Free(l) && Free(r)
    case OrB(l, r) => Free(l) && Free(r)
    case OrD(l, r) => Free(l) && Free(r)
    case OrC(l, r) => Free(l) && Free(r)
    case OrI(l, r) => Free(l) && Free(r)
    case AndOr(a, b, c) => Free(a) && Free(b) && Free(c)
    case Thresh(_, subs) => forall i :: 0 <= i < |subs| ==> Free(subs[i])
    case _ => true
  }

  lemma {:induction false} JoinVShape(l: Term, r: Term)
    requires Sequence(l) && Sequence(r)
    ensures JoinV(l, r).AndV? && Sequence(JoinV(l, r))
  {
    if r.AndV? { JoinVShape(l, r.left); }
  }

  /** The first operand of a disjunction is no `and_v`, which cannot be
      dissatisfied. */
  lemma DissatisfiableShape(env: Env, t: Term)
    requires IsTyped(t) && TypeOf(t).value.dissatisfiable && Sequence(Canon(env, t))
    ensures Atomic(Canon(env, t))
  {
    CanonType(env, t);
    if Canon(env, t).AndV? { AndVParts(Canon(env, t)); }
  }

  /** A typed term's parts are typed, W only where W fragments belong. */
  predicate Shaped(env: Env, t: Term) { if HasBase(t, W) then WShape(Canon(env, t)) else Sequence(Canon(env, t)) }

  lemma UnaryBases(t: Term)
    requires IsUnary(t) && IsTyped(t) && !t.InscribePre? && !t.InscribePost?
    ensures IsTyped(t.sub) && !HasBase(t.sub, W)
    ensures HasBase(t, W) <==> t.Alt? || t.Swap?
  {
  }

  lemma {:induction false} CanonUnaryShape(env: Env, t: Term)
    requires IsUnary(t) && IsTyped(t) && Free(t) && WellFormed(env, t)
    ensures Shaped(env, t)
    decreases t, 0
  {
    UnaryBases(t);
    CanonShape(env, t.sub);
  }

  lemma BinaryBases(t: Term)
    requires (t.AndB? || t.AndV? || t.OrB? || t.OrC? || t.OrD? || t.OrI?) && IsTyped(t)
    ensures IsTyped(t.left) && IsTyped(t.right) && !HasBase(t, W) && !HasBase(t.left, W)
    ensures HasBase(t.right, W) <==> t.AndB? || t.OrB?
    ensures t.OrB? || t.OrC? || t.OrD? ==> TypeOf(t.left).value.dissatisfiable
  {
  }

  lemma AndBShape(env: Env, t: Term)
    requires t.AndB? && Sequence(Canon(env, t.left)) && WShape(Canon(env, t.right))
    ensures Sequence(Canon(env, t))
  {
  }

  lemma OrShape(env: Env, t: Term)
    requires t.OrB? || t.OrC? || t.OrD?
    requires Atomic(Canon(env, t.left))
    requires if t.OrB? then WShape(Canon(env, t.right)) else Sequence(Canon(env, t.right))
    ensures Sequence(Canon(env, t))
  {
  }

  lemma {:induction false} CanonBinaryShape(env: Env, t: Term)
    requires (t.AndB? || t.AndV? || t.OrB? || t.OrC? || t.OrD? || t.OrI?) && IsTyped(t) && Free(t) && WellFormed(env, t)
    ensures Shaped(env, t)
    decreases t, 0
  {
    BinaryBases(t);
    CanonShape(env, t.left);
    CanonShape(env, t.right);
    if t.AndV? {
      JoinVShape(Canon(env, t.left), Canon(env, t.right));
    } else if t.AndB? {
      AndBShape(env, t);
    } else if !t.OrI? {
      DissatisfiableShape(env, t.left);
      OrShape(env, t);
    }
  }

  lemma AndOrBases(t: Term)
    requires t.AndOr? && IsTyped(t)
    ensures IsTyped(t.a) && IsTyped(t.b) && IsTyped(t.c)
    ensures !HasBase(t, W) && !HasBase(t.a, W) && !HasBase(t.b, W) && !HasBase(t.c, W)
    ensures TypeOf(t.a).value.dissatisfiable
  {
  }

  lemma {:induction false} CanonThreshShape(env: Env, t: Term)
    requires t.Thresh? && IsTyped(t) && Free(t) && WellFormed(env, t)
    ensures Shaped(env, t)
    decreases t, 0
  {
    var cs := Canon(env, t).subs;
    assert ThreshArgs(t.subs, true).Ok?;
    ThreshTyped(t.subs, true, 0);
    CanonShape(env, t.subs[0]);
    DissatisfiableShape(env, t.subs[0]);
    forall i | 1 <= i < |cs|
      ensures WShape(cs[i])
    {
      ThreshTyped(t.subs, true, i);
      CanonShape(env, t.subs[i]);
    }
  }

  /** The canonical form of a typed term without inscriptions has the shape that
      decoding gives. */
  lemma {:induction false} CanonShape(env: Env, t: Term)
    requires IsTyped(t) && Free(t) && WellFormed(env, t)
    ensures Shaped(env, t)
    decreases t, 1
  {
    if IsUnary(t) {
      CanonUnaryShape(env, t);
    } else if t.AndB? || t.AndV? || t.OrB? || t.OrC? || t.OrD? || t.OrI? {
      CanonBinaryShape(env, t);
    } else if t.AndOr? {
      AndOrBases(t);
      CanonShape(env, t.a);
      CanonShape(env, t.b);
      CanonShape(env, t.c);
      DissatisfiableShape(env, t.a);
    } else if t.Thresh? {
      CanonThreshShape(env, t);
    }
  }

  // ----- inscription-free tokens give inscription-free terms -----

  /** Atoms that are ordinary tokens. */
  predicate AllToks(atoms: seq<Atom>) { forall i :: 0 <= i < |atoms| ==> atoms[i].Tok? && !atoms[i].tok.Inscription? }

  lemma AllToksConcat(a: seq<Atom>, b: seq<Atom>)
    ensures AllToks(a + b) <==> AllToks(a) && AllToks(b)
  {
    assert forall i :: 0 <= i < |a| ==> (a + b)[i] == a[i];
    assert forall i :: 0 <= i < |b| ==> (a + b)[|a| + i] == b[i];
  }

  lemma NoInscriptionsConcat(a: seq<Token>, b: seq<Token>)
    ensures NoInscriptions(a + b) <==> NoInscriptions(a) && NoInscriptions(b)
  {
    assert forall i :: 0 <= i < |a| ==> (a + b)[i] == a[i];
    assert forall i :: 0 <= i < |b| ==> (a + b)[|a| + i] == b[i];
  }

  lemma {:induction false} SpreadAllToks(toks: seq<Token>)
    ensures AllToks(Spread(toks)) <==> NoInscriptions(toks)
  {
    if toks != [] {
      SpreadAllToks(toks[1..]);
      AllToksConcat(SpreadOne(toks[0]), Spread(toks[1..]));
      NoInscriptionsConcat([toks[0]], toks[1..]);
      assert toks == [toks[0]] + toks[1..];
      SpreadOneToks(toks[0]);
    }
  }

  lemma SpreadOneToks(tok: Token)
    ensures AllToks(SpreadOne(tok)) <==> !tok.Inscription?
    ensures NoInscriptions([tok]) <==> !tok.Inscription?
  {
    assert [tok][0] == tok;
    if tok.Inscription? {
      assert SpreadOne(tok)[0] == if tok.script == [] then Tok(tok) else Inner(tok.script[0]);
    }
  }

  lemma {:induction false} AddsFree(env: Env, subs: seq<Term>)
    requires NoInscriptions(EncodeAdds(env, subs))
    ensures forall i :: 0 <= i < |subs| ==> NoInscriptions(Encode(env, subs[i]))
  {
    if subs != [] {
      NoInscriptionsConcat(Encode(env, subs[0]) + [Op(OpAdd)], EncodeAdds(env, subs[1..]));
      NoInscriptionsConcat(Encode(env, subs[0]), [Op(OpAdd)]);
      AddsFree(env, subs[1..]);
    }
  }

  lemma EnvelopesShow(ins: seq<Ord.Inscription>)
    requires ins != []
    ensures !NoInscriptions(EnvelopeTokens(ins))
  {
    assert EnvelopeTokens(ins)[0].Inscription?;
  }

  lemma Parts3(a: seq<Token>, b: seq<Token>, c: seq<Token>)
    requires NoInscriptions(a + b + c)
    ensures NoInscriptions(a) && NoInscriptions(b) && NoInscriptions(c)
  {
    NoInscriptionsConcat(a + b, c);
    NoInscriptionsConcat(a, b);
  }

  lemma Parts5(a: seq<Token>, b: seq<Token>, c: seq<Token>, d: seq<Token>, e: seq<Token>)
    requires NoInscriptions(a + b + c + d + e)
    ensures NoInscriptions(a) && NoInscriptions(b) && NoInscriptions(c) && NoInscriptions(d) && NoInscriptions(e)
  {
    Parts3(a + b + c, d, e);
    Parts3(a, b, c);
  }

  lemma {:induction false} FreeUnary(env: Env, t: Term)
    requires IsUnary(t) && WellFormed(env, t) && NoInscriptions(Encode(env, t))
    ensures Free(t)
    decreases t, 0
  {
    var code := Encode(env, t.sub);
    match t
    case InscribePre(ins, _) =>
      NoInscriptionsConcat(EnvelopeTokens(ins), code);
      EnvelopesShow(ins);
    case InscribePost(ins, _) =>
      NoInscriptionsConcat(code, EnvelopeTokens(ins));
      EnvelopesShow(ins);
    case Alt(_) => Parts3([Op(OpToAltStack)], code, [Op(OpFromAltStack)]); FreeEncode(env, t.sub);
    case Swap(_) => NoInscriptionsConcat([Op(OpSwap)], code); FreeEncode(env, t.sub);
    case Check(_) => NoInscriptionsConcat(code, [Op(OpCheckSig)]); FreeEncode(env, t.sub);
    case Verify(_) => NoInscriptionsConcat(code, [Op(OpVerify)]); FreeEncode(env, t.sub);
    case ZeroNotEqual(_) => NoInscriptionsConcat(code, [Op(OpZeroNotEqual)]); FreeEncode(env, t.sub);
    case DupIf(_) => Parts3([Op(OpDup), Op(OpIf)], code, [Op(OpEndIf)]); FreeEncode(env, t.sub);
    case NonZero(_) =>
      Parts3([Op(OpSize), Op(OpZeroNotEqual), Op(OpIf)], code, [Op(OpEndIf)]);
      FreeEncode(env, t.sub);
  }

  lemma {:induction false} FreeBinary(env: Env, t: Term)
    requires (t.AndB? || t.AndV? || t.OrB? || t.OrC? || t.OrD? || t.OrI?)
    requires WellFormed(env, t) && NoInscriptions(Encode(env, t))
    ensures Free(t)
    decreases t, 0
  {
    var l, r := Encode(env, t.left), Encode(env, t.right);
    match t {
      case AndV(_, _) => NoInscriptionsConcat(l, r);
      case AndB(_, _) => Parts3(l, r, [Op(OpBoolAnd)]);
      case OrB(_, _) => Parts3(l, r, [Op(OpBoolOr)]);
      case OrC(_, _) =>
        Parts3(l + [Op(OpNotIf)], r, [Op(OpEndIf)]);
        NoInscriptionsConcat(l, [Op(OpNotIf)]);
      case OrD(_, _) =>
        Parts3(l + [Op(OpIfDup), Op(OpNotIf)], r, [Op(OpEndIf)]);
        NoInscriptionsConcat(l, [Op(OpIfDup), Op(OpNotIf)]);
      case OrI(_, _) => Parts5([Op(OpIf)], l, [Op(OpElse)], r, [Op(OpEndIf)]);
    }
    FreeEncode(env, t.left);
    FreeEncode(env, t.right);
  }

  lemma {:induction false} FreeThresh(env: Env, t: Term)
    requires t.Thresh? && WellFormed(env, t) && NoInscriptions(Encode(env, t))
    ensures Free(t)
    decreases t, 0
  {
    Parts3(Encode(env, t.subs[0]), EncodeAdds(env, t.subs[1..]), [Num(t.k), Op(OpEqual)]);
    AddsFree(env, t.subs[1..]);
    forall i | 0 <= i < |t.subs|
      ensures Free(t.subs[i])
    {
      if i > 0 { assert t.subs[i] == t.subs[1..][i - 1]; }
      FreeEncode(env, t.subs[i]);
    }
  }

  /** A script without envelopes comes from a term without inscriptions. */
  lemma {:induction false} FreeEncode(env: Env, t: Term)
    requires WellFormed(env, t) && NoInscriptions(Encode(env, t))
    ensures Free(t)
    decreases t, 1
  {
    if IsUnary(t) {
      FreeUnary(env, t);
    } else if t.AndOr? {
      var a, b, c := Encode(env, t.a), Encode(env, t.b), Encode(env, t.c);
      Parts3(a + [Op(OpNotIf)] + c + [Op(OpElse)], b, [Op(OpEndIf)]);
      NoInscriptionsConcat(a + [Op(OpNotIf)] + c, [Op(OpElse)]);
      Parts3(a, [Op(OpNotIf)], c);
      FreeEncode(env, t.a);
      FreeEncode(env, t.b);
      FreeEncode(env, t.c);
    } else if t.Thresh? {
      FreeThresh(env, t);
    } else if !IsLeaf(t) {
      FreeBinary(env, t);
    }
  }

  // ----- what decoding gives -----

  /** Decoding a whole script: the term must be of base B and nothing may be
      left over. */
  function DecodeScript(dx: Dx, toks: seq<Token>): Option<Term> {
    var r := DecodeTokens(dx, toks);
    if r.Bad? || !HasBase(r.value.0, B) || r.value.1 != [] then None else Some(r.value.0)
  }

  /** The tokens of a canonical term decode to that term, unless a check rejects
      one of its parts. */
  lemma CanonicalDecodes(dx: Dx, t: Term)
    requires Sequence(t) && WellFormed(dx.env, t)
    ensures DecodeTokens(dx, Encode(dx.env, t)) == if AllAccepted(dx, t) then Good((t, [])) else Bad(Rejected)
  {
    assert START == [] + [MaybeAndV] + [Expression];
    assert [] + Encode(dx.env, t) == Encode(dx.env, t);
    RunSequence(dx, [], [], [], t);
    assert [] + [t] == [t];
  }

  /** The script of any typed term without inscriptions decodes to the term's
      canonical form, unless a check rejects part of that form. */
  lemma DecodeComplete(dx: Dx, t: Term)
    requires Sane(dx.env) && WellFormed(dx.env, t) && HasBase(t, B) && Free(t)
    ensures DecodeScript(dx, Encode(dx.env, t))
            == if AllAccepted(dx, Canon(dx.env, t)) then Some(Canon(dx.env, t)) else None
  {
    CanonShape(dx.env, t);
    CanonType(dx.env, t);
    CanonWellFormed(dx.env, t);
    CanonEncodes(dx.env, t);
    CanonicalDecodes(dx, Canon(dx.env, t));
  }

  /** The type check itself rejects no part of a typed term. */
  lemma {:induction false} TypedAccepted(dx: Dx, t: Term)
    requires IsTyped(t) && forall u :: IsTyped(u) ==> dx.accepts(u)
    ensures AllAccepted(dx, t)
  {
    if IsUnary(t) {
      TypedAccepted(dx, t.sub);
    } else if t.AndOr? {
      TypedAccepted(dx, t.a);
      TypedAccepted(dx, t.b);
      TypedAccepted(dx, t.c);
    } else if t.Thresh? {
      forall i | 0 <= i < |t.subs|
        ensures AllAccepted(dx, t.subs[i])
      {
        ThreshTyped(t.subs, true, i);
        TypedAccepted(dx, t.subs[i]);
      }
    } else if !IsLeaf(t) {
      TypedAccepted(dx, t.left);
      TypedAccepted(dx, t.right);
    }
  }

  /** With no check but that of types, every typed term without inscriptions comes
      back from its script in canonical form. */
  lemma TypedDecodes(dx: Dx, t: Term)
    requires Sane(dx.env) && WellFormed(dx.env, t) && HasBase(t, B) && Free(t)
    requires forall u :: IsTyped(u) ==> dx.accepts(u)
    ensures DecodeScript(dx, Encode(dx.env, t)) == Some(Canon(dx.env, t))
  {
    DecodeComplete(dx, t);
    CanonType(dx.env, t);
    TypedAccepted(dx, Canon(dx.env, t));
  }

  /** Scripts tell canonical terms apart. */
  lemma CanonicalUnique(env: Env, t: Term, u: Term)
    requires Sequence(t) && Sequence(u) && WellFormed(env, t) && WellFormed(env, u)
    ensures Encode(env, t) == Encode(env, u) <==> t == u
  {
    var dx := Dx(env, _ => None, _ => true);
    EverythingAccepted(dx, t);
    EverythingAccepted(dx, u);
    CanonicalDecodes(dx, t);
    CanonicalDecodes(dx, u);
  }

  lemma {:induction false} EverythingAccepted(dx: Dx, t: Term)
    requires forall u :: dx.accepts(u)
    ensures AllAccepted(dx, t)
  {
    if IsUnary(t) {
      EverythingAccepted(dx, t.sub);
    } else if t.AndOr? {
      EverythingAccepted(dx, t.a);
      EverythingAccepted(dx, t.b);
      EverythingAccepted(dx, t.c);
    } else if t.Thresh? {
      forall i | 0 <= i < |t.subs|
        ensures AllAccepted(dx, t.subs[i])
      {
        EverythingAccepted(dx, t.subs[i]);
      }
    } else if !IsLeaf(t) {
      EverythingAccepted(dx, t.left);
      EverythingAccepted(dx, t.right);
    }
  }

  /** Exactly which scripts without envelopes decode, and to what. */
  lemma DecodeExactly(dx: Dx, toks: seq<Token>, t: Term)
    requires Sane(dx.env) && ValidTokens(toks) && NoInscriptions(toks) && |toks| <= MAX_BLOCK_WEIGHT
    ensures DecodeScript(dx, toks) == Some(t) <==>
              && toks == Encode(dx.env, t) && WellFormed(dx.env, t)
              && Sequence(t) && HasBase(t, B) && AllAccepted(dx, t)
  {
    if DecodeScript(dx, toks) == Some(t) {
      DecodedIsCanonical(dx, toks, t);
    } else if toks == Encode(dx.env, t) && WellFormed(dx.env, t) && Sequence(t) && HasBase(t, B) && AllAccepted(dx, t) {
      CanonicalDecodes(dx, t);
    }
  }

  lemma DecodedIsCanonical(dx: Dx, toks: seq<Token>, t: Term)
    requires Sane(dx.env) && ValidTokens(toks) && NoInscriptions(toks) && |toks| <= MAX_BLOCK_WEIGHT
    requires DecodeScript(dx, toks) == Some(t)
    ensures toks == Encode(dx.env, t) && WellFormed(dx.env, t) && Sequence(t) && AllAccepted(dx, t)
  {
    SpreadPlain(toks);
    DecodeSound(dx, toks);
    var code := Encode(dx.env, t);
    assert [] + code == code;
    SpreadAllToks(toks);
    SpreadAllToks(code);
    FreeEncode(dx.env, t);
    SameTokensMeans(toks, code);
    CanonShape(dx.env, t);
    CanonWellFormed(dx.env, t);
    CanonEncodes(dx.env, t);
    CanonicalDecodes(dx, Canon(dx.env, t));
  }
}
