/** Miniscript terms and their encoding as script tokens. */
module Terms {
  import opened Bytes
  import opened Script
  import opened Ord

  const MAX_PUBKEYS_IN_CHECKSIGADD := 999
  const MAX_BLOCK_WEIGHT := 4_000_000

  /** Miniscript fragments. The four hash locks share one constructor. */
  datatype Term =
    | True
    | False
    | PkK(key: Bytes)
    | PkH(key: Bytes)
    | RawPkH(keyHash: Bytes)
    | After(n: nat)
    | Older(n: nat)
    | HashLock(kind: HashKind, image: Bytes)
    | TxTemplate(image: Bytes)
    | InscribePre(inscriptions: seq<Ord.Inscription>, sub: Term)
    | InscribePost(inscriptions: seq<Ord.Inscription>, sub: Term)
    | Alt(sub: Term)
    | Swap(sub: Term)
    | Check(sub: Term)
    | DupIf(sub: Term)
    | Verify(sub: Term)
    | NonZero(sub: Term)
    | ZeroNotEqual(sub: Term)
    | AndV(left: Term, right: Term)
    | AndB(left: Term, right: Term)
    | AndOr(a: Term, b: Term, c: Term)
    | OrB(left: Term, right: Term)
    | OrD(left: Term, right: Term)
    | OrC(left: Term, right: Term)
    | OrI(left: Term, right: Term)
    | Thresh(k: nat, subs: seq<Term>)
    | Multi(k: nat, keys: seq<Bytes>)
    | MultiA(k: nat, keys: seq<Bytes>)

  predicate ValidThreshold(k: nat, n: nat, max: nat) { 1 <= k <= n && (max == 0 || n <= max) }

  predicate IsFullKey(key: Bytes) { |key| == 33 || |key| == 65 }

  predicate IsXOnlyKey(key: Bytes) { |key| == 32 }

  predicate IsKey(key: Bytes) { IsFullKey(key) || IsXOnlyKey(key) }

  function HashSize(kind: HashKind): nat {
    if kind.Sha256? || kind.Hash256? then 32 else 20
  }

  predicate ValidAfter(n: nat) { 1 <= n <= 0x7fff_ffff }

  predicate ValidOlder(n: nat) { n != 0 && n < 0x1_0000_0000 && !RelativeDisabled(n) }

  predicate ValidInscriptions(ins: seq<Ord.Inscription>) {
    ins != [] && forall i :: 0 <= i < |ins| ==> Validate(ins[i])
  }

  /** The invariants that the types of the fields carry: keys that parse, hashes of
      the right size, lock times in range, k-of-n with 1 <= k <= n. A term has no
      more children than a block has weight units. */
  predicate WellFormed(env: Env, t: Term) {
    match t
    case True | False => true
    case PkK(key) => IsKey(key) && env.keyOk(key)
    case PkH(key) => IsKey(key) && env.keyOk(key)
    case RawPkH(h) => |h| == 20
    case After(n) => ValidAfter(n)
    case Older(n) => ValidOlder(n)
    case HashLock(kind, h) => |h| == HashSize(kind)
    case TxTemplate(h) => |h| == 32
    case InscribePre(ins, sub) => ValidInscriptions(ins) && WellFormed(env, sub)
    case InscribePost(ins, sub) => ValidInscriptions(ins) && WellFormed(env, sub)
    case Alt(sub) => WellFormed(env, sub)
    case Swap(sub) => WellFormed(env, sub)
    case Check(sub) => WellFormed(env, sub)
    case DupIf(sub) => WellFormed(env, sub)
    case Verify(sub) => WellFormed(env, sub)
    case NonZero(sub) => WellFormed(env, sub)
    case ZeroNotEqual(sub) => WellFormed(env, sub)
    case AndV(l, r) => WellFormed(env, l) && WellFormed(env, r)
    case AndB(l, r) => WellFormed(env, l) && WellFormed(env, r)
    case AndOr(a, b, c) => WellFormed(env, a) && WellFormed(env, b) && WellFormed(env, c)
    case OrB(l, r) => WellFormed(env, l) && WellFormed(env, r)
    case OrD(l, r) => WellFormed(env, l) && WellFormed(env, r)
    case OrC(l, r) => WellFormed(env, l) && WellFormed(env, r)
    case OrI(l, r) => WellFormed(env, l) && WellFormed(env, r)
    case Thresh(k, subs) =>
      && ValidThreshold(k, |subs|, MAX_BLOCK_WEIGHT)
      && forall i :: 0 <= i < |subs| ==> WellFormed(env, subs[i])
    case Multi(k, keys) =>
      && ValidThreshold(k, |keys|, MAX_PUBKEYS_PER_MULTISIG)
      && forall i :: 0 <= i < |keys| ==> IsFullKey(keys[i]) && env.keyOk(keys[i])
    case MultiA(k, keys) =>
      && ValidThreshold(k, |keys|, MAX_PUBKEYS_IN_CHECKSIGADD)
      && forall i :: 0 <= i < |keys| ==> IsXOnlyKey(keys[i]) && env.keyOk(keys[i])
  }

  predicate IsLeaf(t: Term) {
    match t
    case True | False => true
    case PkK(_) | PkH(_) => true
    case RawPkH(_) | HashLock(_, _) | TxTemplate(_) => true
    case After(_) | Older(_) => true
    case Multi(_, _) | MultiA(_, _) => true
    case _ => false
  }

  predicate IsUnary(t: Term) {
    match t
    case InscribePre(_, _) | InscribePost(_, _) => true
    case Alt(_) | Swap(_) | Check(_) | DupIf(_) | Verify(_) | NonZero(_) | ZeroNotEqual(_) => true
    case _ => false
  }

  // ----- encoding -----

  function KeyToken(key: Bytes): Token {
    if |key| == 32 then Bytes32(key) else if |key| == 33 then Bytes33(key) else Bytes65(key)
  }

  function HashToken(kind: HashKind, h: Bytes): Token {
    if HashSize(kind) == 32 then Bytes32(h) else Hash20(h)
  }

  function HashTokens(kind: HashKind, h: Bytes): seq<Token> {
    [Op(OpSize), Num(32), Op(OpEqual), Op(OpVerify), Op(OpHash(kind)), HashToken(kind, h), Op(OpEqual)]
  }

  function PkHTokens(h: Bytes): seq<Token> {
    [Op(OpDup), Op(OpHash(Hash160)), Hash20(h), Op(OpEqual), Op(OpVerify)]
  }

  function EnvelopeTokens(ins: seq<Ord.Inscription>): seq<Token> {
    seq(|ins|, i requires 0 <= i < |ins| => Token.Inscription(RevealScript(ins[i])))
  }

  function KeyTokens(keys: seq<Bytes>): seq<Token> {
    seq(|keys|, i requires 0 <= i < |keys| => KeyToken(keys[i]))
  }

  /** `key CHECKSIGADD` for every key. */
  function SigAddTokens(keys: seq<Bytes>): seq<Token> {
    if keys == [] then [] else [KeyToken(keys[0]), Op(OpCheckSigAdd)] + SigAddTokens(keys[1..])
  }

  /** The script of a term. */
  function Encode(env: Env, t: Term): seq<Token>
    decreases t, 0
  {
    match t
    case True => [Num(1)]
    case False => [Num(0)]
    case PkK(key) => [KeyToken(key)]
    case PkH(key) => PkHTokens(env.hash(Hash160, key))
    case RawPkH(h) => PkHTokens(h)
    case After(n) => [Num(n), Op(OpCheckLockTimeVerify)]
    case Older(n) => [Num(n), Op(OpCheckSequenceVerify)]
    case HashLock(kind, h) => HashTokens(kind, h)
    case TxTemplate(h) => [Bytes32(h), Op(OpCheckTemplateVerify), Op(OpDrop)]
    case InscribePre(ins, sub) => EnvelopeTokens(ins) + Encode(env, sub)
    case InscribePost(ins, sub) => Encode(env, sub) + EnvelopeTokens(ins)
    case Alt(sub) => [Op(OpToAltStack)] + Encode(env, sub) + [Op(OpFromAltStack)]
    case Swap(sub) => [Op(OpSwap)] + Encode(env, sub)
    case Check(sub) => Encode(env, sub) + [Op(OpCheckSig)]
    case DupIf(sub) => [Op(OpDup), Op(OpIf)] + Encode(env, sub) + [Op(OpEndIf)]
    case Verify(sub) => Encode(env, sub) + [Op(OpVerify)]
    case NonZero(sub) => [Op(OpSize), Op(OpZeroNotEqual), Op(OpIf)] + Encode(env, sub) + [Op(OpEndIf)]
    case ZeroNotEqual(sub) => Encode(env, sub) + [Op(OpZeroNotEqual)]
    case AndV(l, r) => Encode(env, l) + Encode(env, r)
    case AndB(l, r) => Encode(env, l) + Encode(env, r) + [Op(OpBoolAnd)]
    case AndOr(a, b, c) =>
      Encode(env, a) + [Op(OpNotIf)] + Encode(env, c) + [Op(OpElse)] + Encode(env, b) + [Op(OpEndIf)]
    case OrB(l, r) => Encode(env, l) + Encode(env, r) + [Op(OpBoolOr)]
    case OrD(l, r) => Encode(env, l) + [Op(OpIfDup), Op(OpNotIf)] + Encode(env, r) + [Op(OpEndIf)]
    case OrC(l, r) => Encode(env, l) + [Op(OpNotIf)] + Encode(env, r) + [Op(OpEndIf)]
    case OrI(l, r) => [Op(OpIf)] + Encode(env, l) + [Op(OpElse)] + Encode(env, r) + [Op(OpEndIf)]
    case Thresh(k, subs) =>
      if subs == [] then []
      else Encode(env, subs[0]) + EncodeAdds(env, subs[1..]) + [Num(k), Op(OpEqual)]
    case Multi(k, keys) => [Num(k)] + KeyTokens(keys) + [Num(|keys|), Op(OpCheckMultiSig)]
    case MultiA(k, keys) =>
      if keys == [] then []
      else [KeyToken(keys[0]), Op(OpCheckSig)] + SigAddTokens(keys[1..]) + [Num(k), Op(OpNumEqual)]
  }

  /** `[W] ADD` for every term. */
  function EncodeAdds(env: Env, subs: seq<Term>): seq<Token>
    decreases subs, 0
  {
    if subs == [] then [] else Encode(env, subs[0]) + [Op(OpAdd)] + EncodeAdds(env, subs[1..])
  }

  /** `and_or` without its first operand. */
  lemma AndOrTokens(a: seq<Token>, b: seq<Token>, c: seq<Token>)
    ensures a + [Op(OpNotIf)] + c + [Op(OpElse)] + b + [Op(OpEndIf)]
            == a + ([Op(OpNotIf)] + c + [Op(OpElse)] + b + [Op(OpEndIf)])
  {
    var tail := [Op(OpNotIf)] + c;
    assert a + [Op(OpNotIf)] + c == a + tail;
    assert a + tail + [Op(OpElse)] == a + (tail + [Op(OpElse)]);
    assert a + (tail + [Op(OpElse)]) + b == a + (tail + [Op(OpElse)] + b);
  }

  lemma {:induction false} SigAddsSnoc(keys: seq<Bytes>, key: Bytes)
    ensures SigAddTokens(keys + [key]) == SigAddTokens(keys) + [KeyToken(key), Op(OpCheckSigAdd)]
  {
    if keys == [] {
      assert [key][1..] == [] && keys + [key] == [key];
    } else {
      SigAddsSnoc(keys[1..], key);
      assert (keys + [key])[1..] == keys[1..] + [key];
    }
  }

  // ----- the encoder -----

  method AppendEnvelopes(builder: seq<Token>, ins: seq<Ord.Inscription>) returns (out: seq<Token>)
    ensures out == builder + EnvelopeTokens(ins)
  {
    out := builder;
    for i := 0 to |ins|
      invariant out == builder + EnvelopeTokens(ins[..i])
    {
      out := out + [Token.Inscription(RevealScript(ins[i]))];
      assert EnvelopeTokens(ins[..i + 1]) == EnvelopeTokens(ins[..i]) + [Token.Inscription(RevealScript(ins[i]))];
    }
    assert ins[..|ins|] == ins;
  }

  method AppendKeys(builder: seq<Token>, keys: seq<Bytes>) returns (out: seq<Token>)
    ensures out == builder + KeyTokens(keys)
  {
    out := builder;
    for i := 0 to |keys|
      invariant out == builder + KeyTokens(keys[..i])
    {
      out := out + [KeyToken(keys[i])];
      assert KeyTokens(keys[..i + 1]) == KeyTokens(keys[..i]) + [KeyToken(keys[i])];
    }
    assert keys[..|keys|] == keys;
  }

  method AppendSigAdds(builder: seq<Token>, keys: seq<Bytes>) returns (out: seq<Token>)
    requires keys != []
    ensures out == builder + SigAddTokens(keys[1..])
  {
    out := builder;
    for i := 1 to |keys|
      invariant out + SigAddTokens(keys[i..]) == builder + SigAddTokens(keys[1..])
    {
      ghost var before := out;
      out := out + [KeyToken(keys[i]), Op(OpCheckSigAdd)];
      assert keys[i..][0] == keys[i] && keys[i..][1..] == keys[i + 1..];
      assert out + SigAddTokens(keys[i + 1..]) == before + SigAddTokens(keys[i..]);
    }
    assert SigAddTokens(keys[|keys|..]) == [];
  }

  method EncodeThresh(env: Env, t: Term, builder: seq<Token>) returns (out: seq<Token>)
    requires t.Thresh? && WellFormed(env, t)
    ensures out == builder + Encode(env, t)
    decreases t, 0
  {
    var subs := t.subs;
    out := EncodeTo(env, subs[0], builder);
    ghost var first := out;
    for i := 1 to |subs|
      invariant out + EncodeAdds(env, subs[i..]) == first + EncodeAdds(env, subs[1..])
    {
      ghost var before := out;
      out := EncodeTo(env, subs[i], out);
      out := out + [Op(OpAdd)];
      assert subs[i..][0] == subs[i] && subs[i..][1..] == subs[i + 1..];
      assert out + EncodeAdds(env, subs[i + 1..]) == before + EncodeAdds(env, subs[i..]);
    }
    assert out == first + EncodeAdds(env, subs[1..]) by {
      assert EncodeAdds(env, subs[|subs|..]) == [];
    }
    out := out + [Num(t.k), Op(OpEqual)];
    assert out == builder + (Encode(env, subs[0]) + EncodeAdds(env, subs[1..]) + [Num(t.k), Op(OpEqual)]);
    assert subs != [];
  }

  method EncodeLeaf(env: Env, t: Term, builder: seq<Token>) returns (out: seq<Token>)
    requires IsLeaf(t) && !t.Multi? && !t.MultiA? && WellFormed(env, t)
    ensures out == builder + Encode(env, t)
  {
    match t
    case True =>
      out := builder + [Num(1)];
      assert out == builder + Encode(env, t);
    case False =>
      out := builder + [Num(0)];
      assert out == builder + Encode(env, t);
    case PkK(key) =>
      out := builder + [KeyToken(key)];
      assert out == builder + Encode(env, t);
    case PkH(key) =>
      out := builder + PkHTokens(env.hash(Hash160, key));
      assert out == builder + Encode(env, t);
    case RawPkH(h) =>
      out := builder + PkHTokens(h);
      assert out == builder + Encode(env, t);
    case After(n) =>
      out := builder + [Num(n), Op(OpCheckLockTimeVerify)];
      assert out == builder + Encode(env, t);
    case Older(n) =>
      out := builder + [Num(n), Op(OpCheckSequenceVerify)];
      assert out == builder + Encode(env, t);
    case HashLock(kind, h) =>
      out := builder + HashTokens(kind, h);
      assert out == builder + Encode(env, t);
    case TxTemplate(h) =>
      out := builder + [Bytes32(h), Op(OpCheckTemplateVerify), Op(OpDrop)];
      assert out == builder + Encode(env, t);
  }

  method EncodeMultisig(env: Env, t: Term, builder: seq<Token>) returns (out: seq<Token>)
    requires (t.Multi? || t.MultiA?) && WellFormed(env, t)
    ensures out == builder + Encode(env, t)
  {
    match t
    case Multi(k, keys) =>
      out := AppendKeys(builder + [Num(k)], keys);
      out := out + [Num(|keys|), Op(OpCheckMultiSig)];
      assert out == builder + ([Num(k)] + KeyTokens(keys) + [Num(|keys|), Op(OpCheckMultiSig)]);
    case MultiA(k, keys) =>
      out := AppendSigAdds(builder + [KeyToken(keys[0]), Op(OpCheckSig)], keys);
      out := out + [Num(k), Op(OpNumEqual)];
      assert out == builder + ([KeyToken(keys[0]), Op(OpCheckSig)] + SigAddTokens(keys[1..]) + [Num(k), Op(OpNumEqual)]);
  }

  method EncodeInscribed(env: Env, t: Term, builder: seq<Token>) returns (out: seq<Token>)
    requires (t.InscribePre? || t.InscribePost?) && WellFormed(env, t)
    ensures out == builder + Encode(env, t)
    decreases t, 0
  {
    match t
    case InscribePre(ins, sub) =>
      out := AppendEnvelopes(builder, ins);
      out := EncodeTo(env, sub, out);
      Assoc(builder, EnvelopeTokens(ins), Encode(env, sub));
    case InscribePost(ins, sub) =>
      out := EncodeTo(env, sub, builder);
      out := AppendEnvelopes(out, ins);
      Assoc(builder, Encode(env, sub), EnvelopeTokens(ins));
  }

  method EncodeWrapper(env: Env, t: Term, builder: seq<Token>) returns (out: seq<Token>)
    requires IsUnary(t) && !t.InscribePre? && !t.InscribePost? && WellFormed(env, t)
    ensures out == builder + Encode(env, t)
    decreases t, 0
  {
    match t
    case Alt(sub) =>
      out := EncodeTo(env, sub, builder + [Op(OpToAltStack)]);
      out := out + [Op(OpFromAltStack)];
    case Swap(sub) =>
      out := EncodeTo(env, sub, builder + [Op(OpSwap)]);
    case Check(sub) =>
      out := EncodeTo(env, sub, builder);
      out := out + [Op(OpCheckSig)];
    case DupIf(sub) =>
      out := EncodeTo(env, sub, builder + [Op(OpDup), Op(OpIf)]);
      out := out + [Op(OpEndIf)];
    case Verify(sub) =>
      out := EncodeTo(env, sub, builder);
      out := out + [Op(OpVerify)];
    case NonZero(sub) =>
      out := EncodeTo(env, sub, builder + [Op(OpSize), Op(OpZeroNotEqual), Op(OpIf)]);
      out := out + [Op(OpEndIf)];
    case ZeroNotEqual(sub) =>
      out := EncodeTo(env, sub, builder);
      out := out + [Op(OpZeroNotEqual)];
  }

  /** The script of a term, built as the encoder builds it: one pass over
      the term, appending to a builder. */
  method EncodeTo(env: Env, t: Term, builder: seq<Token>) returns (out: seq<Token>)
    requires WellFormed(env, t)
    ensures out == builder + Encode(env, t)
    decreases t, 1
  {
    if t.Multi? || t.MultiA? {
      out := EncodeMultisig(env, t, builder);
    } else if IsLeaf(t) {
      out := EncodeLeaf(env, t, builder);
    } else if t.InscribePre? || t.InscribePost? {
      out := EncodeInscribed(env, t, builder);
    } else if IsUnary(t) {
      out := EncodeWrapper(env, t, builder);
    } else if t.Thresh? {
      out := EncodeThresh(env, t, builder);
    } else if t.AndV? || t.AndB? || t.OrB? {
      out := EncodeSequence(env, t, builder);
    } else if t.OrD? || t.OrC? {
      out := EncodeNotIf(env, t, builder);
    } else if t.OrI? {
      out := EncodeOrI(env, t, builder);
    } else {
      out := EncodeAndOr(env, t, builder);
    }
  }

  method EncodeSequence(env: Env, t: Term, builder: seq<Token>) returns (out: seq<Token>)
    requires (t.AndV? || t.AndB? || t.OrB?) && WellFormed(env, t)
    ensures out == builder + Encode(env, t)
    decreases t, 0
  {
    match t
    case AndV(l, r) =>
      out := EncodeTo(env, l, builder);
      out := EncodeTo(env, r, out);
      assert out == builder + (Encode(env, l) + Encode(env, r));
    case AndB(l, r) =>
      out := EncodeTo(env, l, builder);
      out := EncodeTo(env, r, out);
      out := out + [Op(OpBoolAnd)];
      assert out == builder + (Encode(env, l) + Encode(env, r) + [Op(OpBoolAnd)]);
    case OrB(l, r) =>
      out := EncodeTo(env, l, builder);
      out := EncodeTo(env, r, out);
      out := out + [Op(OpBoolOr)];
      assert out == builder + (Encode(env, l) + Encode(env, r) + [Op(OpBoolOr)]);
  }

  method EncodeNotIf(env: Env, t: Term, builder: seq<Token>) returns (out: seq<Token>)
    requires (t.OrD? || t.OrC?) && WellFormed(env, t)
    ensures out == builder + Encode(env, t)
    decreases t, 0
  {
    match t
    case OrD(l, r) =>
      out := EncodeTo(env, l, builder);
      out := EncodeTo(env, r, out + [Op(OpIfDup), Op(OpNotIf)]);
      out := out + [Op(OpEndIf)];
      assert out == builder + (Encode(env, l) + [Op(OpIfDup), Op(OpNotIf)] + Encode(env, r) + [Op(OpEndIf)]);
    case OrC(l, r) =>
      out := EncodeTo(env, l, builder);
      out := EncodeTo(env, r, out + [Op(OpNotIf)]);
      out := out + [Op(OpEndIf)];
      assert out == builder + (Encode(env, l) + [Op(OpNotIf)] + Encode(env, r) + [Op(OpEndIf)]);
  }

  method EncodeOrI(env: Env, t: Term, builder: seq<Token>) returns (out: seq<Token>)
    requires t.OrI? && WellFormed(env, t)
    ensures out == builder + Encode(env, t)
    decreases t, 0
  {
    out := EncodeTo(env, t.left, builder + [Op(OpIf)]);
    out := EncodeTo(env, t.right, out + [Op(OpElse)]);
    out := out + [Op(OpEndIf)];
    assert out == builder + ([Op(OpIf)] + Encode(env, t.left) + [Op(OpElse)] + Encode(env, t.right) + [Op(OpEndIf)]);
  }

  method EncodeAndOr(env: Env, t: Term, builder: seq<Token>) returns (out: seq<Token>)
    requires t.AndOr? && WellFormed(env, t)
    ensures out == builder + Encode(env, t)
    decreases t, 0
  {
    out := EncodeTo(env, t.a, builder);
    out := EncodeTo(env, t.c, out + [Op(OpNotIf)]);
    ghost var enc := Encode(env, t.a) + [Op(OpNotIf)] + Encode(env, t.c);
    assert out == builder + enc;
    out := EncodeTo(env, t.b, out + [Op(OpElse)]);
    out := out + [Op(OpEndIf)];
    assert out == builder + (enc + [Op(OpElse)] + Encode(env, t.b) + [Op(OpEndIf)]);
  }
}
