/** The script decoder: a shift-reduce automaton that reads tokens backwards,
    with a stack of nonterminals still to be handled and a stack of terms. */
module Decoder {
  import opened Bytes
  import opened Script
  import opened Ord
  import opened Terms

  datatype NonTerm =
    | Expression
    | WExpression
    | Swap
    | MaybeAndV
    | InscribePre
    | InscribePost(inscriptions: seq<Ord.Inscription>)
    | Alt
    | Check
    | DupIf
    | Verify
    | NonZero
    | ZeroNotEqual
    | AndV
    | AndB
    | Tern
    | OrB
    | OrD
    | OrC
    | ThreshW(k: nat, n: nat)
    | ThreshE(k: nat, n: nat)
    | EndIf
    | EndIfNotIf
    | EndIfElse

  datatype DecodeError =
    | Unexpected(tok: Token)
    | UnexpectedStart
    | PubKeyCtx
    | RelativeLockTime
    | AbsoluteLockTime
    | BadThreshold
    | BadInscription
    | Rejected
    | Panicked

  datatype Parse<+T> = Good(value: T) | Bad(error: DecodeError) {
    predicate IsFailure() { Bad? }
    function PropagateFailure<U>(): Parse<U> requires Bad? { Bad(error) }
    function Extract(): T requires Good? { value }
  }

  /** What the decoder is given besides the tokens: the keys that parse, the
      envelope scanner, and the checks of `from_ast` (types, depth, context
      rules), which can only reject. */
  datatype Dx = Dx(env: Env, discover: seq<Instr> -> Option<seq<Ord.Inscription>>, accepts: Term -> bool)

  datatype PState = PState(nts: seq<NonTerm>, ts: seq<Term>, toks: seq<Token>)

  // ----- tokens, last first -----

  function LastTok(toks: seq<Token>): Token requires toks != [] { toks[|toks| - 1] }

  function Front(toks: seq<Token>): seq<Token> requires toks != [] { toks[..|toks| - 1] }

  function Miss<T>(toks: seq<Token>): Parse<T> {
    if toks == [] then Bad(UnexpectedStart) else Bad(Unexpected(LastTok(toks)))
  }

  /** Consumes the given tokens, in this order. */
  function Expect(toks: seq<Token>, wanted: seq<Token>): Parse<seq<Token>> {
    if wanted == [] then Good(toks)
    else if toks == [] || LastTok(toks) != wanted[0] then Miss(toks)
    else Expect(Front(toks), wanted[1..])
  }

  predicate EndsInInscription(toks: seq<Token>) { toks != [] && LastTok(toks).Inscription? }

  /** Whether another `and_v` operand stands to the left. */
  predicate IsAndV(toks: seq<Token>) {
    && toks != []
    && var t := LastTok(toks);
       t != Op(OpIf) && t != Op(OpNotIf) && t != Op(OpElse) && t != Op(OpToAltStack) && t != Op(OpSwap)
  }

  // ----- inscriptions -----

  /** The inscriptions of an envelope, if they reproduce its script. */
  function ParseInscriptions(dx: Dx, script: seq<Instr>): Parse<seq<Ord.Inscription>> {
    var raw := dx.discover(script);
    if raw == None || !ValidInscriptions(raw.value) || RevealScripts(raw.value) != script then Bad(BadInscription)
    else Good(raw.value)
  }

  function TakeInscriptions(dx: Dx, toks: seq<Token>): Parse<(seq<Ord.Inscription>, seq<Token>)> {
    if !EndsInInscription(toks) then Good(([], toks))
    else
      var last :- ParseInscriptions(dx, LastTok(toks).script);
      var (before, rest) :- TakeInscriptions(dx, Front(toks));
      Good((before + last, rest))
  }

  // ----- keys -----

  function ParseKey(dx: Dx, key: Bytes): Parse<Bytes> {
    if dx.env.keyOk(key) then Good(key) else Bad(PubKeyCtx)
  }

  /** The `n` keys of a CHECKMULTISIG. */
  function TakeKeys(dx: Dx, toks: seq<Token>, n: nat): Parse<(seq<Bytes>, seq<Token>)> {
    if n == 0 then Good(([], toks))
    else if toks == [] || !(LastTok(toks).Bytes33? || LastTok(toks).Bytes65?) then Miss(toks)
    else
      var key :- ParseKey(dx, LastTok(toks).bytes);
      var (before, rest) :- TakeKeys(dx, Front(toks), n - 1);
      Good((before + [key], rest))
  }

  /** A 32-byte key. */
  function TakeKey32(dx: Dx, toks: seq<Token>): Parse<(Bytes, seq<Token>)> {
    if toks == [] || !LastTok(toks).Bytes32? then Miss(toks)
    else
      var key :- ParseKey(dx, LastTok(toks).bytes);
      Good((key, Front(toks)))
  }

  /** The keys followed by CHECKSIGADD. */
  function TakeSigAdds(dx: Dx, toks: seq<Token>): Parse<(seq<Bytes>, seq<Token>)>
    decreases |toks|
  {
    if toks == [] || LastTok(toks) != Op(OpCheckSigAdd) then Good(([], toks))
    else
      var (key, rest) :- TakeKey32(dx, Front(toks));
      var (before, rest') :- TakeSigAdds(dx, rest);
      Good((before + [key], rest'))
  }

  // ----- shifts -----

  /** What an expression's last tokens stand for: nonterminals to handle next,
      perhaps a finished term, and the tokens left. */
  datatype Shift = Shift(nts: seq<NonTerm>, ts: seq<Term>, toks: seq<Token>)

  function ShiftKey(dx: Dx, key: Bytes, toks: seq<Token>): Parse<Shift> {
    var k :- ParseKey(dx, key);
    Good(Shift([], [PkK(k)], toks))
  }

  function ShiftTemplate(dx: Dx, toks: seq<Token>): Parse<Shift> {
    var rest :- Expect(toks, [Op(OpCheckTemplateVerify)]);
    if rest == [] || !LastTok(rest).Bytes32? then Miss(rest)
    else if !dx.accepts(TxTemplate(LastTok(rest).bytes)) then Bad(Rejected)
    else Good(Shift([], [TxTemplate(LastTok(rest).bytes)], Front(rest)))
  }

  const SIZE_CHECK: seq<Token> := [Op(OpVerify), Op(OpEqual), Num(32), Op(OpSize)]

  /** A hash lock, read from the token before its hash. */
  function ShiftHash(kind: HashKind, image: Bytes, nts: seq<NonTerm>, toks: seq<Token>): Parse<Shift> {
    var rest :- Expect(toks, SIZE_CHECK);
    Good(Shift(nts, [HashLock(kind, image)], rest))
  }

  /** A 32-byte or 20-byte hash lock, read from its hash operation. */
  function ShiftHashOp(image: Bytes, wide: bool, nts: seq<NonTerm>, toks: seq<Token>): Parse<Shift> {
    if toks == [] || !LastTok(toks).Op? || !LastTok(toks).op.OpHash? then Miss(toks)
    else
      var kind := LastTok(toks).op.kind;
      if wide != (HashSize(kind) == 32) then Miss(toks) else ShiftHash(kind, image, nts, Front(toks))
  }

  /** After EQUAL VERIFY: a raw key hash, or a verified hash lock or threshold. */
  function ShiftEqualVerify(dx: Dx, toks: seq<Token>): Parse<Shift> {
    if toks == [] then Miss(toks)
    else match LastTok(toks)
      case Hash20(h) =>
        var rest := Front(toks);
        if rest != [] && LastTok(rest) == Op(OpHash(Hash160)) && Front(rest) != [] && LastTok(Front(rest)) == Op(OpDup)
        then Good(Shift([], [RawPkH(h)], Front(Front(rest))))
        else ShiftHashOp(h, false, [NonTerm.Verify], rest)
      case Bytes32(h) => ShiftHashOp(h, true, [NonTerm.Verify], Front(toks))
      case Num(k) => Good(Shift([NonTerm.Verify, ThreshW(k, 0)], [], Front(toks)))
      case _ => Miss(toks)
  }

  function ShiftVerify(dx: Dx, toks: seq<Token>): Parse<Shift> {
    if toks == [] then Miss(toks)
    else if LastTok(toks) == Op(OpEqual) then ShiftEqualVerify(dx, Front(toks))
    else Good(Shift([NonTerm.Verify, Expression], [], toks))
  }

  /** After EQUAL: a hash lock or a threshold. */
  function ShiftEqual(dx: Dx, toks: seq<Token>): Parse<Shift> {
    if toks == [] then Miss(toks)
    else match LastTok(toks)
      case Hash20(h) => ShiftHashOp(h, false, [], Front(toks))
      case Bytes32(h) => ShiftHashOp(h, true, [], Front(toks))
      case Num(k) => Good(Shift([ThreshW(k, 0)], [], Front(toks)))
      case _ => Miss(toks)
  }

  function ShiftOlder(toks: seq<Token>): Parse<Shift> {
    if toks == [] || !LastTok(toks).Num? then Miss(toks)
    else if !ValidOlder(LastTok(toks).n) then Bad(RelativeLockTime)
    else Good(Shift([], [Older(LastTok(toks).n)], Front(toks)))
  }

  function ShiftAfter(toks: seq<Token>): Parse<Shift> {
    if toks == [] || !LastTok(toks).Num? then Miss(toks)
    else if !ValidAfter(LastTok(toks).n) then Bad(AbsoluteLockTime)
    else Good(Shift([], [After(LastTok(toks).n)], Front(toks)))
  }

  function ShiftMulti(dx: Dx, toks: seq<Token>): Parse<Shift> {
    if toks == [] || !LastTok(toks).Num? then Miss(toks)
    else
      var n := LastTok(toks).n;
      if !ValidThreshold(1, n, MAX_PUBKEYS_PER_MULTISIG) then Bad(BadThreshold)
      else
        var (keys, rest) :- TakeKeys(dx, Front(toks), n);
        if rest == [] || !LastTok(rest).Num? then Miss(rest)
        else if !ValidThreshold(LastTok(rest).n, |keys|, MAX_PUBKEYS_PER_MULTISIG) then Bad(BadThreshold)
        else Good(Shift([], [Multi(LastTok(rest).n, keys)], Front(rest)))
  }

  function ShiftMultiA(dx: Dx, toks: seq<Token>): Parse<Shift> {
    if toks == [] || !LastTok(toks).Num? then Miss(toks)
    else
      var k := LastTok(toks).n;
      if !ValidThreshold(k, k, MAX_PUBKEYS_IN_CHECKSIGADD) then Bad(BadThreshold)
      else
        var (keys, rest) :- TakeSigAdds(dx, Front(toks));
        var rest1 :- Expect(rest, [Op(OpCheckSig)]);
        var (first, rest2) :- TakeKey32(dx, rest1);
        if !ValidThreshold(k, |keys| + 1, MAX_PUBKEYS_IN_CHECKSIGADD) then Bad(BadThreshold)
        else Good(Shift([], [MultiA(k, [first] + keys)], rest2))
  }

  /** Envelopes to the right of an expression. */
  function ShiftInscriptions(dx: Dx, below: NonTerm, toks: seq<Token>): Parse<Shift> {
    var (ins, rest) :- TakeInscriptions(dx, toks);
    Good(Shift([NonTerm.InscribePost(ins), below], [], rest))
  }

  function ShiftOp(dx: Dx, op: Opcode, toks: seq<Token>): Parse<Shift> {
    match op
    case OpDrop => ShiftTemplate(dx, toks)
    case OpCheckSig => Good(Shift([NonTerm.Check, Expression], [], toks))
    case OpVerify => ShiftVerify(dx, toks)
    case OpZeroNotEqual => Good(Shift([NonTerm.ZeroNotEqual, Expression], [], toks))
    case OpCheckSequenceVerify => ShiftOlder(toks)
    case OpCheckLockTimeVerify => ShiftAfter(toks)
    case OpEqual => ShiftEqual(dx, toks)
    case OpEndIf => Good(Shift([EndIf, MaybeAndV, Expression], [], toks))
    case OpBoolAnd => Good(Shift([NonTerm.AndB, Expression, WExpression], [], toks))
    case OpBoolOr => Good(Shift([NonTerm.OrB, Expression, WExpression], [], toks))
    case OpCheckMultiSig => ShiftMulti(dx, toks)
    case OpNumEqual => ShiftMultiA(dx, toks)
    case _ => Bad(Unexpected(Op(op)))
  }

  /** The start of an expression, at its last token. */
  function ShiftExpression(dx: Dx, toks: seq<Token>): Parse<Shift> {
    if toks == [] then Miss(toks)
    else match LastTok(toks)
      case Inscription(_) => ShiftInscriptions(dx, Expression, toks)
      case Bytes33(key) => ShiftKey(dx, key, Front(toks))
      case Bytes65(key) => ShiftKey(dx, key, Front(toks))
      case Bytes32(key) => ShiftKey(dx, key, Front(toks))
      case Op(op) => ShiftOp(dx, op, Front(toks))
      case Num(n) =>
        if n == 0 then Good(Shift([], [False], Front(toks)))
        else if n == 1 then Good(Shift([], [True], Front(toks)))
        else Miss(toks)
      case Hash20(_) => Miss(toks)
  }

  function ShiftW(dx: Dx, toks: seq<Token>): Parse<Shift> {
    if EndsInInscription(toks) then ShiftInscriptions(dx, WExpression, toks)
    else if toks == [] then Miss(toks)
    else if LastTok(toks) == Op(OpFromAltStack)
    then Good(Shift([NonTerm.Alt, MaybeAndV, Expression], [], Front(toks)))
    else Good(Shift([NonTerm.Swap, MaybeAndV, Expression], [], toks))
  }

  // ----- steps -----

  function TopTerm(ts: seq<Term>, i: nat): Term requires i < |ts| { ts[|ts| - 1 - i] }

  function Below(ts: seq<Term>, i: nat): seq<Term> requires i <= |ts| { ts[..|ts| - i] }

  /** The last `n` terms, the last one first. */
  function LastTerms(ts: seq<Term>, n: nat): seq<Term>
    requires n <= |ts|
  {
    seq(n, i requires 0 <= i < n => ts[|ts| - 1 - i])
  }

  /** Type checks and pushes a term. */
  function Reduce(dx: Dx, nts: seq<NonTerm>, ts: seq<Term>, t: Term, toks: seq<Token>): Parse<PState> {
    if dx.accepts(t) then Good(PState(nts, ts + [t], toks)) else Bad(Rejected)
  }

  function OfShift(nts: seq<NonTerm>, ts: seq<Term>, s: Parse<Shift>): Parse<PState> {
    if s.Bad? then Bad(s.error)
    else Good(PState(nts + [NonTerm.InscribePre] + s.value.nts, ts + s.value.ts, s.value.toks))
  }

  /** The terms a nonterminal takes from the term stack. */
  function Arity(x: NonTerm): nat {
    match x
    case Swap | Alt | Check | DupIf | Verify | NonZero | ZeroNotEqual | InscribePost(_) => 1
    case AndV | AndB | OrB | OrD | OrC | EndIfElse => 2
    case Tern => 3
    case ThreshE(_, n) => n
    case Expression | WExpression | MaybeAndV | InscribePre | ThreshW(_, _) | EndIf | EndIfNotIf => 0
  }

  /** Nonterminals that turn one term into another. */
  function StepWrap(dx: Dx, x: NonTerm, nts: seq<NonTerm>, ts: seq<Term>, toks: seq<Token>): Parse<PState>
    requires Arity(x) == 1 && !x.ThreshE? && |ts| >= 1
  {
    var sub, rest := TopTerm(ts, 0), Below(ts, 1);
    match x
    case Swap =>
      var toks' :- Expect(toks, [Op(OpSwap)]);
      Reduce(dx, nts, rest, Term.Swap(sub), toks')
    case Alt =>
      var toks' :- Expect(toks, [Op(OpToAltStack)]);
      Reduce(dx, nts, rest, Term.Alt(sub), toks')
    case Check => Reduce(dx, nts, rest, Term.Check(sub), toks)
    case DupIf => Reduce(dx, nts, rest, Term.DupIf(sub), toks)
    case Verify => Reduce(dx, nts, rest, Term.Verify(sub), toks)
    case NonZero => Reduce(dx, nts, rest, Term.NonZero(sub), toks)
    case ZeroNotEqual => Reduce(dx, nts, rest, Term.ZeroNotEqual(sub), toks)
    case InscribePost(ins) => Reduce(dx, nts, rest, Term.InscribePost(ins, sub), toks)
  }

  function StepThresh(dx: Dx, x: NonTerm, nts: seq<NonTerm>, ts: seq<Term>, toks: seq<Token>): Parse<PState>
    requires x.ThreshW? || x.ThreshE?
  {
    match x
    case ThreshW(k, n) =>
      if toks == [] then Miss(toks)
      else if LastTok(toks) == Op(OpAdd) then Good(PState(nts + [ThreshW(k, n + 1), WExpression], ts, Front(toks)))
      else Good(PState(nts + [ThreshE(k, n + 1), Expression], ts, toks))
    case ThreshE(k, n) =>
      if |ts| < n then Bad(Panicked)
      else if !ValidThreshold(k, n, 0) then Bad(BadThreshold)
      else Reduce(dx, nts, Below(ts, n), Term.Thresh(k, LastTerms(ts, n)), toks)
  }

  function StepEndIf(dx: Dx, x: NonTerm, nts: seq<NonTerm>, ts: seq<Term>, toks: seq<Token>): Parse<PState>
    requires x.EndIf? || x.EndIfNotIf?
  {
    if toks == [] then Miss(toks)
    else if x.EndIfNotIf? then
      if LastTok(toks) == Op(OpIfDup) then Good(PState(nts + [NonTerm.OrD, Expression], ts, Front(toks)))
      else Good(PState(nts + [NonTerm.OrC, Expression], ts, toks))
    else match LastTok(toks)
      case Op(OpElse) => Good(PState(nts + [EndIfElse, MaybeAndV, Expression], ts, Front(toks)))
      case Op(OpNotIf) => Good(PState(nts + [EndIfNotIf], ts, Front(toks)))
      case Op(OpIf) =>
        var rest := Front(toks);
        if rest != [] && LastTok(rest) == Op(OpDup) then Good(PState(nts + [NonTerm.DupIf], ts, Front(rest)))
        else
          var rest' :- Expect(rest, [Op(OpZeroNotEqual), Op(OpSize)]);
          Good(PState(nts + [NonTerm.NonZero], ts, rest'))
      case _ => Miss(toks)
  }

  function StepTwo(dx: Dx, x: NonTerm, nts: seq<NonTerm>, ts: seq<Term>, toks: seq<Token>): Parse<PState>
    requires x.AndV? || x.AndB? || x.OrB? || x.OrC? || x.OrD? || x.EndIfElse?
    requires |ts| >= 2
  {
    var l, r, rest := TopTerm(ts, 0), TopTerm(ts, 1), Below(ts, 2);
    match x
    case AndV =>
      if IsAndV(toks) then Good(PState(nts + [NonTerm.AndV, MaybeAndV], ts, toks))
      else Reduce(dx, nts, rest, Term.AndV(l, r), toks)
    case AndB => Reduce(dx, nts, rest, Term.AndB(l, r), toks)
    case OrB => Reduce(dx, nts, rest, Term.OrB(l, r), toks)
    case OrC => Reduce(dx, nts, rest, Term.OrC(l, r), toks)
    case OrD => Reduce(dx, nts, rest, Term.OrD(l, r), toks)
    case EndIfElse =>
      if toks == [] then Miss(toks)
      else if LastTok(toks) == Op(OpIf) then Reduce(dx, nts, rest, Term.OrI(l, r), Front(toks))
      else if LastTok(toks) == Op(OpNotIf) then Good(PState(nts + [Tern, Expression], ts, Front(toks)))
      else Miss(toks)
  }

  function StepInscribePre(dx: Dx, nts: seq<NonTerm>, ts: seq<Term>, toks: seq<Token>): Parse<PState> {
    if !EndsInInscription(toks) then Good(PState(nts, ts, toks))
    else
      var (ins, rest) :- TakeInscriptions(dx, toks);
      if ts == [] then Bad(Panicked)
      else Reduce(dx, nts, Below(ts, 1), Term.InscribePre(ins, TopTerm(ts, 0)), rest)
  }

  /** Handles the nonterminal `x`, just popped from the stack. */
  function Handle(dx: Dx, x: NonTerm, nts: seq<NonTerm>, ts: seq<Term>, toks: seq<Token>): Parse<PState> {
    if |ts| < Arity(x) then Bad(Panicked)
    else match x
      case Expression => OfShift(nts, ts, ShiftExpression(dx, toks))
      case WExpression => OfShift(nts, ts, ShiftW(dx, toks))
      case InscribePre => StepInscribePre(dx, nts, ts, toks)
      case MaybeAndV =>
        if IsAndV(toks) then Good(PState(nts + [NonTerm.AndV, Expression], ts, toks)) else Good(PState(nts, ts, toks))
      case ThreshW(_, _) => StepThresh(dx, x, nts, ts, toks)
      case ThreshE(_, _) => StepThresh(dx, x, nts, ts, toks)
      case EndIf => StepEndIf(dx, x, nts, ts, toks)
      case EndIfNotIf => StepEndIf(dx, x, nts, ts, toks)
      case Tern =>
        Reduce(dx, nts, Below(ts, 3), Term.AndOr(TopTerm(ts, 0), TopTerm(ts, 2), TopTerm(ts, 1)), toks)
      case AndV | AndB | OrB | OrC | OrD | EndIfElse => StepTwo(dx, x, nts, ts, toks)
      case Swap | Alt | Check | DupIf | Verify | NonZero | ZeroNotEqual | InscribePost(_) =>
        StepWrap(dx, x, nts, ts, toks)
  }

  // ----- termination -----

  /** Bounds the steps until the next token is consumed: an expression always
      consumes one, and so does the operand search while IsAndV holds. */
  function Phase(nts: seq<NonTerm>, toks: seq<Token>): nat {
    if nts == [] then 0
    else
      var x := nts[|nts| - 1];
      if x.Expression? then 0 else if x.MaybeAndV? && IsAndV(toks) then 1 else 2 + |nts|
  }

  lemma {:induction false} ExpectShorter(toks: seq<Token>, wanted: seq<Token>)
    ensures var r := Expect(toks, wanted); r.Good? ==> |r.value| == |toks| - |wanted|
  {
    if wanted != [] && toks != [] { ExpectShorter(Front(toks), wanted[1..]); }
  }

  lemma {:induction false} TakeInscriptionsShorter(dx: Dx, toks: seq<Token>)
    ensures var r := TakeInscriptions(dx, toks);
            r.Good? ==> |r.value.1| <= |toks| && (EndsInInscription(toks) ==> |r.value.1| < |toks|)
  {
    if EndsInInscription(toks) { TakeInscriptionsShorter(dx, Front(toks)); }
  }

  lemma {:induction false} TakeKeysShorter(dx: Dx, toks: seq<Token>, n: nat)
    ensures var r := TakeKeys(dx, toks, n); r.Good? ==> |r.value.1| <= |toks| && |r.value.0| == n
  {
    if n > 0 && toks != [] { TakeKeysShorter(dx, Front(toks), n - 1); }
  }

  lemma {:induction false} TakeSigAddsShorter(dx: Dx, toks: seq<Token>)
    ensures var r := TakeSigAdds(dx, toks); r.Good? ==> |r.value.1| <= |toks|
    decreases |toks|
  {
    if toks != [] && LastTok(toks) == Op(OpCheckSigAdd) {
      var k := TakeKey32(dx, Front(toks));
      if k.Good? { TakeSigAddsShorter(dx, k.value.1); }
    }
  }

  lemma ShiftHashShorter(image: Bytes, wide: bool, nts: seq<NonTerm>, toks: seq<Token>)
    ensures var r := ShiftHashOp(image, wide, nts, toks); r.Good? ==> |r.value.toks| <= |toks|
  {
    if toks != [] { ExpectShorter(Front(toks), SIZE_CHECK); }
  }

  lemma ShiftMultiShorter(dx: Dx, toks: seq<Token>)
    ensures var r := ShiftMulti(dx, toks); r.Good? ==> |r.value.toks| <= |toks|
  {
    if toks != [] && LastTok(toks).Num? { TakeKeysShorter(dx, Front(toks), LastTok(toks).n); }
  }

  lemma ShiftMultiAShorter(dx: Dx, toks: seq<Token>)
    ensures var r := ShiftMultiA(dx, toks); r.Good? ==> |r.value.toks| <= |toks|
  {
    if toks != [] {
      TakeSigAddsShorter(dx, Front(toks));
      var r := TakeSigAdds(dx, Front(toks));
      if r.Good? { ExpectShorter(r.value.1, [Op(OpCheckSig)]); }
    }
  }

  lemma ShiftOpShorter(dx: Dx, op: Opcode, toks: seq<Token>)
    ensures var r := ShiftOp(dx, op, toks); r.Good? ==> |r.value.toks| <= |toks|
  {
    ExpectShorter(toks, [Op(OpCheckTemplateVerify)]);
    ShiftMultiShorter(dx, toks);
    ShiftMultiAShorter(dx, toks);
    if toks != [] {
      var rest := Front(toks);
      if LastTok(toks).Hash20? || LastTok(toks).Bytes32? {
        ShiftHashShorter(LastTok(toks).bytes, LastTok(toks).Bytes32?, [], rest);
      }
      if rest != [] && (LastTok(rest).Hash20? || LastTok(rest).Bytes32?) {
        ShiftHashShorter(LastTok(rest).bytes, LastTok(rest).Bytes32?, [NonTerm.Verify], Front(rest));
      }
    }
  }

  /** An expression consumes at least one token. */
  lemma ShiftExpressionShorter(dx: Dx, toks: seq<Token>)
    ensures var r := ShiftExpression(dx, toks); r.Good? ==> |r.value.toks| < |toks|
  {
    if toks != [] {
      TakeInscriptionsShorter(dx, toks);
      if LastTok(toks).Op? { ShiftOpShorter(dx, LastTok(toks).op, Front(toks)); }
    }
  }

  lemma ShiftWShorter(dx: Dx, toks: seq<Token>)
    ensures var r := ShiftW(dx, toks);
            r.Good? ==> |r.value.toks| <= |toks| && r.value.nts != []
                        && (|r.value.toks| == |toks| ==> r.value.nts[|r.value.nts| - 1] == Expression)
  {
    TakeInscriptionsShorter(dx, toks);
  }

  lemma OfShiftTop(nts: seq<NonTerm>, ts: seq<Term>, s: Parse<Shift>)
    requires s.Good? && s.value.nts != []
    ensures var q := OfShift(nts, ts, s).value;
            q.nts != [] && q.nts[|q.nts| - 1] == s.value.nts[|s.value.nts| - 1]
  {
  }

  /** Every step consumes a token or brings the next consumption closer. */
  lemma StepProgress(dx: Dx, x: NonTerm, nts: seq<NonTerm>, ts: seq<Term>, toks: seq<Token>)
    ensures var r := Handle(dx, x, nts, ts, toks);
            r.Good? ==>
              |r.value.toks| < |toks|
              || (|r.value.toks| == |toks| && Phase(r.value.nts, r.value.toks) < Phase(nts + [x], toks))
  {
    if x.Expression? {
      ShiftExpressionShorter(dx, toks);
    } else if x.WExpression? {
      ShiftWShorter(dx, toks);
      var s := ShiftW(dx, toks);
      if s.Good? { OfShiftTop(nts, ts, s); }
    } else if x.InscribePre? {
      TakeInscriptionsShorter(dx, toks);
    } else if x.Swap? || x.Alt? {
      ExpectShorter(toks, [if x.Swap? then Op(OpSwap) else Op(OpToAltStack)]);
    } else if x.EndIf? && toks != [] {
      ExpectShorter(Front(toks), [Op(OpZeroNotEqual), Op(OpSize)]);
    }
  }

  // ----- runs -----

  /** Decodes until no nonterminal is left; the tokens that remain are returned
      with the terms. */
  function RunDecode(dx: Dx, nts: seq<NonTerm>, ts: seq<Term>, toks: seq<Token>): Parse<(seq<Term>, seq<Token>)>
    decreases |toks|, Phase(nts, toks)
  {
    if nts == [] then Good((ts, toks))
    else
      var below, x := nts[..|nts| - 1], nts[|nts| - 1];
      var r := Handle(dx, x, below, ts, toks);
      if r.Bad? then Bad(r.error)
      else
        StepProgress(dx, x, below, ts, toks);
        assert nts == below + [x];
        RunDecode(dx, r.value.nts, r.value.ts, r.value.toks)
  }

  lemma RunStep(dx: Dx, nts: seq<NonTerm>, x: NonTerm, ts: seq<Term>, toks: seq<Token>)
    ensures RunDecode(dx, nts + [x], ts, toks) ==
            var r := Handle(dx, x, nts, ts, toks);
            if r.Bad? then Bad(r.error) else RunDecode(dx, r.value.nts, r.value.ts, r.value.toks)
  {
    assert (nts + [x])[..|nts + [x]| - 1] == nts;
  }
}
