/** The interpreter's stack elements, its leaf evaluations as functions of the
    stack, and a recursive (big-step) evaluator of whole terms. */
module Interp {
  import opened Bytes
  import opened Script
  import opened Terms

  /** The empty witness element, `[1]`, or anything else. */
  datatype Element = Satisfied | Dissatisfied | Push(data: Bytes)

  type Stack = seq<Element>

  function FromBytes(b: Bytes): Element {
    if b == [1] then Satisfied else if b == [] then Dissatisfied else Element.Push(b)
  }

  function FromBool(b: bool): Element { if b then Satisfied else Dissatisfied }

  /** A condition of the script that the interpreter found satisfied. */
  datatype Constraint =
    | SatPk(key: Bytes, sig: Bytes)
    | SatPkH(keyHash: Bytes, key: Bytes, sig: Bytes)
    | SatHash(kind: HashKind, image: Bytes, preimage: Bytes)
    | SatTemplate(image: Bytes)
    | SatOlder(time: bool, value: nat)
    | SatAfter(n: nat)

  datatype Error =
    | AbsoluteLockTimeNotMet | AbsoluteLockTimeComparisonInvalid | CouldNotEvaluate
    | HashPreimageLengthMismatch | InsufficientSignaturesMultiSig | InvalidSignature
    | MissingExtraZeroMultiSig | MultiSigEvaluationError | PkEvaluationError | PkHashVerifyFail
    | PubkeyParseError | RelativeLockTimeNotMet | RelativeLockTimeDisabled | ScriptSatisfactionError
    | TxTemplateHashWrong | UnexpectedStackBoolean | UnexpectedStackEnd | UnexpectedStackElementPush
    | VerifyFailed

  /** What the interpreter is given: the transaction data and, when the caller
      supplied one, the BIP 119 template hash. */
  datatype Context = Context(env: Env, txTemplate: Option<Bytes>)

  /** What one evaluation reports: nothing, a constraint, or an error. */
  datatype Reply = Silent | Emit(constraint: Constraint) | Fail(error: Error)

  function Peek(s: Stack): Element requires s != [] { s[|s| - 1] }

  function Drop1(s: Stack): Stack requires s != [] { s[..|s| - 1] }

  // ----- leaf evaluations -----

  function EvalPk(cx: Context, key: Bytes, s: Stack): (Reply, Stack) {
    if s == [] then (Fail(UnexpectedStackEnd), s)
    else match Peek(s)
      case Dissatisfied => (Silent, s)
      case Push(sig) =>
        if cx.env.sigOk(key, sig) then (Emit(SatPk(key, sig)), Drop1(s) + [Satisfied])
        else (Fail(InvalidSignature), Drop1(s))
      case Satisfied => (Fail(PkEvaluationError), Drop1(s))
  }

  function EvalPkH(cx: Context, keyHash: Bytes, s: Stack): (Reply, Stack) {
    if s == [] then (Fail(UnexpectedStackEnd), s)
    else if !Peek(s).Push? then (Fail(UnexpectedStackEnd), Drop1(s))
    else
      var key, s1 := Peek(s).data, Drop1(s);
      if cx.env.hash(Hash160, key) != keyHash then (Fail(PkHashVerifyFail), s1)
      else if !cx.env.keyOk(key) then (Fail(PubkeyParseError), s1)
      else if s1 == [] then (Fail(UnexpectedStackEnd), s1)
      else match Peek(s1)
        case Dissatisfied => (Silent, s1)
        case Push(sig) =>
          if cx.env.sigOk(key, sig) then (Emit(SatPkH(keyHash, key, sig)), Drop1(s1) + [Satisfied])
          else (Fail(InvalidSignature), Drop1(s1))
        case Satisfied => (Fail(PkEvaluationError), Drop1(s1))
  }

  function EvalAfter(cx: Context, n: nat, s: Stack): (Reply, Stack) {
    if IsSeconds(n) != IsSeconds(cx.env.lockTime) then (Fail(AbsoluteLockTimeComparisonInvalid), s)
    else if n <= cx.env.lockTime then (Emit(SatAfter(n)), s + [Satisfied])
    else (Fail(AbsoluteLockTimeNotMet), s)
  }

  function EvalOlder(cx: Context, n: nat, s: Stack): (Reply, Stack) {
    if RelativeDisabled(cx.env.sequence) then (Fail(RelativeLockTimeDisabled), s)
    else if IsRelativeTime(n) == IsRelativeTime(cx.env.sequence)
            && RelativeValue(n) <= RelativeValue(cx.env.sequence)
    then (Emit(SatOlder(IsRelativeTime(n), RelativeValue(n))), s + [Satisfied])
    else (Fail(RelativeLockTimeNotMet), s)
  }

  function EvalHash(cx: Context, kind: HashKind, image: Bytes, s: Stack): (Reply, Stack) {
    if s == [] then (Fail(UnexpectedStackEnd), s)
    else if !Peek(s).Push? then (Fail(UnexpectedStackEnd), Drop1(s))
    else
      var preimage, s1 := Peek(s).data, Drop1(s);
      if |preimage| != 32 then (Fail(HashPreimageLengthMismatch), s1)
      else if cx.env.hash(kind, preimage) == image
      then (Emit(SatHash(kind, image, preimage)), s1 + [Satisfied])
      else (Silent, s1 + [Dissatisfied])
  }

  function EvalTemplate(cx: Context, image: Bytes, s: Stack): (Reply, Stack) {
    if cx.txTemplate == Some(image) then (Emit(SatTemplate(image)), s) else (Fail(TxTemplateHashWrong), s)
  }

  /** Leaves that are evaluated in one go. */
  predicate IsSimpleLeaf(t: Term) { IsLeaf(t) && !t.Multi? && !t.MultiA? }

  function EvalLeaf(cx: Context, t: Term, s: Stack): (Reply, Stack)
    requires IsSimpleLeaf(t)
  {
    match t
    case True => (Silent, s + [Satisfied])
    case False => (Silent, s + [Dissatisfied])
    case PkK(key) => EvalPk(cx, key, s)
    case PkH(key) => EvalPkH(cx, cx.env.hash(Hash160, key), s)
    case RawPkH(h) => EvalPkH(cx, h, s)
    case TxTemplate(h) => EvalTemplate(cx, h, s)
    case After(n) => EvalAfter(cx, n, s)
    case Older(n) => EvalOlder(cx, n, s)
    case HashLock(kind, h) => EvalHash(cx, kind, h, s)
  }

  /** One key of CHECKMULTISIG against the signature on top, which stays there
      when it does not match. */
  function EvalMultiKey(cx: Context, key: Bytes, s: Stack): (Reply, Stack) {
    if s == [] then (Fail(UnexpectedStackEnd), s)
    else match Peek(s)
      case Push(sig) => if cx.env.sigOk(key, sig) then (Emit(SatPk(key, sig)), Drop1(s)) else (Silent, s)
      case _ => (Fail(UnexpectedStackBoolean), Drop1(s))
  }

  // ----- steps of nodes that are visited several times -----

  /** Popping a boolean, which Push elements and an empty stack refuse. */
  datatype Popped = Popped(b: bool, rest: Stack) | NotBool(error: Error)

  function PopBool(s: Stack): Popped {
    if s == [] then NotBool(UnexpectedStackEnd)
    else match Peek(s)
      case Satisfied => Popped(true, Drop1(s))
      case Dissatisfied => Popped(false, Drop1(s))
      case Push(_) => NotBool(UnexpectedStackElementPush)
  }

  datatype Outcome = Done(stack: Stack) | Failed(error: Error)

  function AfterVerify(s: Stack): Outcome {
    if s == [] then Failed(UnexpectedStackEnd)
    else if Peek(s) == Satisfied then Done(Drop1(s))
    else Failed(VerifyFailed)
  }

  function AfterZeroNotEqual(s: Stack): Outcome {
    if s == [] then Failed(UnexpectedStackEnd) else Done(Drop1(s) + [FromBool(Peek(s) != Dissatisfied)])
  }

  function AfterAndB(nSat: nat, s: Stack): Outcome {
    if s == [] then Failed(UnexpectedStackEnd)
    else Done(Drop1(s) + [FromBool(Peek(s) == Satisfied && nSat == 1)])
  }

  function AfterOrB(nSat: nat, s: Stack): Outcome {
    if s == [] then Failed(UnexpectedStackEnd)
    else Done(Drop1(s) + [FromBool(!(Peek(s) == Dissatisfied && nSat == 0))])
  }

  /** A count with one more, if that one was satisfied. */
  function Bump(nSat: nat, b: bool): nat { if b then nSat + 1 else nSat }

  function AfterThresh(k: nat, nSat: nat, s: Stack): Outcome {
    var p := PopBool(s);
    if p.NotBool? then Failed(p.error) else Done(p.rest + [FromBool(Bump(nSat, p.b) == k)])
  }

  /** Where a multisig node goes next: on to another key, or finished. */
  datatype MultiStep =
    | NextKey(nSat: nat, stack: Stack, reply: Reply)
    | Finished(out: Outcome)

  /** The first visit of `multi`: all zeroes, or the last key. */
  function MultiFirst(cx: Context, k: nat, keys: seq<Bytes>, nSat: nat, s: Stack): MultiStep
    requires keys != []
  {
    if |s| < k + 1 then Finished(Failed(InsufficientSignaturesMultiSig))
    else if Peek(s) == Dissatisfied then
      if forall i :: |s| - (k + 1) <= i < |s| ==> s[i] == Dissatisfied
      then Finished(Done(s[..|s| - (k + 1)] + [Dissatisfied]))
      else Finished(Failed(MissingExtraZeroMultiSig))
    else MultiKey(cx, keys[|keys| - 1], nSat, s)
  }

  function MultiKey(cx: Context, key: Bytes, nSat: nat, s: Stack): MultiStep {
    var (reply, s1) := EvalMultiKey(cx, key, s);
    match reply
    case Fail(e) => Finished(Failed(e))
    case Emit(_) => NextKey(nSat + 1, s1, reply)
    case Silent => NextKey(nSat, s1, reply)
  }

  /** Later visits of `multi`, after `nEval` keys counted from the last one. */
  function MultiLater(cx: Context, k: nat, keys: seq<Bytes>, nEval: nat, nSat: nat, s: Stack): MultiStep
    requires nEval <= |keys|
  {
    if nSat == k then
      if s != [] && Peek(s) == Dissatisfied then Finished(Done(Drop1(s) + [Satisfied]))
      else Finished(Failed(MissingExtraZeroMultiSig))
    else if nEval == |keys| then Finished(Failed(MultiSigEvaluationError))
    else MultiKey(cx, keys[|keys| - nEval - 1], nSat, s)
  }

  /** A visit of `multi_a`: one key, as `pk_k` would evaluate it. */
  function MultiANext(cx: Context, k: nat, keys: seq<Bytes>, nEval: nat, nSat: nat, s: Stack): MultiStep
    requires nEval <= |keys|
  {
    if nEval == |keys| then Finished(Done(s + [FromBool(nSat == k)]))
    else
      var (reply, s1) := EvalPk(cx, keys[nEval], s);
      match reply
      case Fail(e) => Finished(Failed(e))
      case Emit(_) => NextKey(nSat + 1, Drop1(s1), reply)
      case Silent => NextKey(nSat, Drop1(s1), reply)
  }

  /** A visit of `multi` or `multi_a`, after `nEval` keys. */
  function MultiVisit(cx: Context, t: Term, nEval: nat, nSat: nat, s: Stack): (m: MultiStep)
    requires t.Multi? || t.MultiA?
    requires nEval <= |t.keys|
    ensures m.NextKey? ==> nEval < |t.keys| && !m.reply.Fail?
  {
    if t.MultiA? then MultiANext(cx, t.k, t.keys, nEval, nSat, s)
    else if t.keys == [] then Finished(Failed(CouldNotEvaluate))
    else if nEval == 0 then MultiFirst(cx, t.k, t.keys, nSat, s)
    else MultiLater(cx, t.k, t.keys, nEval, nSat, s)
  }

  // ----- big steps -----

  /** The constraints emitted by a run, and how it ended. */
  datatype Res = Res(emits: seq<Constraint>, out: Outcome)

  function Emitted(reply: Reply): seq<Constraint> {
    if reply.Emit? then [reply.constraint] else []
  }

  /** One result after another, unless the first one failed. */
  function Then(x: Res, y: Res): Res { if x.out.Failed? then x else Prefix(x.emits, y) }

  function Prefix(emits: seq<Constraint>, r: Res): Res { Res(emits + r.emits, r.out) }

  function OfReply(r: (Reply, Stack)): Res {
    if r.0.Fail? then Res([], Failed(r.0.error)) else Res(Emitted(r.0), Done(r.1))
  }

  /** A child's result together with the boolean popped after it. */
  datatype PopRes = PopRes(res: Res, popped: Popped)

  function PopOf(x: Res): PopRes {
    if x.out.Failed? then PopRes(x, NotBool(x.out.error))
    else
      var p := PopBool(x.out.stack);
      if p.NotBool? then PopRes(Res(x.emits, Failed(p.error)), p) else PopRes(x, p)
  }

  /** Evaluates a term on a stack. Thresholds without members, which cannot be
      built, are given an error. */
  function Eval(cx: Context, t: Term, s: Stack): Res
    decreases t, 1, 0
  {
    if IsSimpleLeaf(t) then OfReply(EvalLeaf(cx, t, s))
    else match t
      case InscribePre(_, sub) => Eval(cx, sub, s)
      case InscribePost(_, sub) => Eval(cx, sub, s)
      case Alt(sub) => Eval(cx, sub, s)
      case Swap(sub) => Eval(cx, sub, s)
      case Check(sub) => Eval(cx, sub, s)
      case DupIf(sub) =>
        var p := PopBool(s);
        if p.NotBool? then Res([], Failed(p.error))
        else if !p.b then Res([], Done(s))
        else
          var x := Eval(cx, sub, p.rest);
          if x.out.Failed? then x else Res(x.emits, Done(x.out.stack + [Satisfied]))
      case Verify(sub) =>
        var x := Eval(cx, sub, s);
        if x.out.Failed? then x else Res(x.emits, AfterVerify(x.out.stack))
      case NonZero(sub) =>
        if s == [] then Res([], Failed(UnexpectedStackEnd))
        else if Peek(s) == Dissatisfied then Res([], Done(s))
        else Eval(cx, sub, s)
      case ZeroNotEqual(sub) =>
        var x := Eval(cx, sub, s);
        if x.out.Failed? then x else Res(x.emits, AfterZeroNotEqual(x.out.stack))
      case AndV(l, r) =>
        var x := Eval(cx, l, s);
        if x.out.Failed? then x else Prefix(x.emits, Eval(cx, r, x.out.stack))
      case AndB(l, r) =>
        var x := PopOf(Eval(cx, l, s));
        if x.popped.NotBool? then x.res
        else
          var y := Eval(cx, r, x.popped.rest);
          Prefix(x.res.emits, if y.out.Failed? then y else Res(y.emits, AfterAndB(if x.popped.b then 1 else 0, y.out.stack)))
      case OrB(l, r) =>
        var x := PopOf(Eval(cx, l, s));
        if x.popped.NotBool? then x.res
        else
          var y := Eval(cx, r, x.popped.rest);
          Prefix(x.res.emits, if y.out.Failed? then y else Res(y.emits, AfterOrB(if x.popped.b then 1 else 0, y.out.stack)))
      case AndOr(a, b, c) =>
        var x := PopOf(Eval(cx, a, s));
        if x.popped.NotBool? then x.res
        else Prefix(x.res.emits, Eval(cx, if x.popped.b then b else c, x.popped.rest))
      case OrD(l, r) =>
        var x := PopOf(Eval(cx, l, s));
        if x.popped.NotBool? then x.res
        else if x.popped.b then Res(x.res.emits, Done(x.popped.rest + [Satisfied]))
        else Prefix(x.res.emits, Eval(cx, r, x.popped.rest))
      case OrC(l, r) =>
        var x := PopOf(Eval(cx, l, s));
        if x.popped.NotBool? then x.res
        else if x.popped.b then Res(x.res.emits, Done(x.popped.rest))
        else Prefix(x.res.emits, Eval(cx, r, x.popped.rest))
      case OrI(l, r) =>
        var p := PopBool(s);
        if p.NotBool? then Res([], Failed(p.error)) else Eval(cx, if p.b then l else r, p.rest)
      case Thresh(k, subs) =>
        if subs == [] then Res([], Failed(CouldNotEvaluate))
        else
          var x := Eval(cx, subs[0], s);
          if x.out.Failed? then x else Prefix(x.emits, EvalThresh(cx, k, subs, 1, 0, x.out.stack))
      case Multi(_, _) => EvalMulti(cx, t, 0, 0, s)
      case MultiA(_, _) => EvalMulti(cx, t, 0, 0, s)
  }

  /** A threshold whose first `i` children have been evaluated, the last of them
      still on the stack, and `nSat` of the others were satisfied. */
  function EvalThresh(cx: Context, k: nat, subs: seq<Term>, i: nat, nSat: nat, s: Stack): Res
    requires 1 <= i <= |subs|
    decreases subs, 0, |subs| - i
  {
    if i == |subs| then Res([], AfterThresh(k, nSat, s))
    else
      var p := PopBool(s);
      if p.NotBool? then Res([], Failed(p.error))
      else
        var x := Eval(cx, subs[i], p.rest);
        if x.out.Failed? then x
        else Prefix(x.emits, EvalThresh(cx, k, subs, i + 1, Bump(nSat, p.b), x.out.stack))
  }

  /** `multi` or `multi_a` from the visit that evaluates key number `nEval`. */
  function EvalMulti(cx: Context, t: Term, nEval: nat, nSat: nat, s: Stack): Res
    requires t.Multi? || t.MultiA?
    requires nEval <= |t.keys|
    decreases |t.keys| - nEval
  {
    var m := MultiVisit(cx, t, nEval, nSat, s);
    if m.Finished? then Res([], m.out)
    else Prefix(Emitted(m.reply), EvalMulti(cx, t, nEval + 1, m.nSat, m.stack))
  }

  /** One more child of a threshold. */
  lemma EvalThreshStep(cx: Context, k: nat, subs: seq<Term>, i: nat, next: nat, nSat: nat, s: Stack)
    requires 1 <= i < |subs| && next == i + 1
    ensures EvalThresh(cx, k, subs, i, nSat, s) ==
            var p := PopBool(s);
            if p.NotBool? then Res([], Failed(p.error))
            else
              var x := Eval(cx, subs[i], p.rest);
              if x.out.Failed? then x else Prefix(x.emits, EvalThresh(cx, k, subs, next, Bump(nSat, p.b), x.out.stack))
  {
  }
}
