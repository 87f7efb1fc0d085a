/** The spending policy of a term, and why a satisfied term satisfies it. */
module Policy {
  import opened Bytes
  import opened Script
  import opened Terms
  import opened Types
  import opened Interp
  import opened Frame
  import opened Compile

  /** Monotone formulas over conditions; `Inscribe` is an effect, not a condition.
      A key hash is an atom of its own, because the interpreter learns the key
      from the witness. */
  datatype Policy =
    | Unsatisfiable
    | Trivial
    | Key(key: Bytes)
    | KeyHash(keyHash: Bytes)
    | After(n: nat)
    | Older(n: nat)
    | HashLock(kind: HashKind, image: Bytes)
    | TxTemplate(image: Bytes)
    | Inscribe(inscription: Ord.Inscription, sub: Policy)
    | Thresh(k: nat, subs: seq<Policy>)

  function AllOf(p: Policy, q: Policy): Policy { Policy.Thresh(2, [p, q]) }

  function AnyOf(p: Policy, q: Policy): Policy { Policy.Thresh(1, [p, q]) }

  function Inscribed(ins: seq<Ord.Inscription>, p: Policy): Policy {
    if ins == [] then p else Inscribe(ins[0], Inscribed(ins[1..], p))
  }

  function Keys(keys: seq<Bytes>): seq<Policy> {
    seq(|keys|, i requires 0 <= i < |keys| => Key(keys[i]))
  }

  /** The policy of a term. */
  function Lift(env: Env, t: Term): Policy
    decreases t, 0
  {
    match t
    case True => Trivial
    case False => Unsatisfiable
    case PkK(key) => Key(key)
    case PkH(key) => KeyHash(env.hash(Hash160, key))
    case RawPkH(h) => KeyHash(h)
    case After(n) => Policy.After(n)
    case Older(n) => Policy.Older(n)
    case HashLock(kind, h) => Policy.HashLock(kind, h)
    case TxTemplate(h) => Policy.TxTemplate(h)
    case InscribePre(ins, sub) => Inscribed(ins, Lift(env, sub))
    case InscribePost(ins, sub) => Inscribed(ins, Lift(env, sub))
    case Alt(sub) => Lift(env, sub)
    case Swap(sub) => Lift(env, sub)
    case Check(sub) => Lift(env, sub)
    case DupIf(sub) => Lift(env, sub)
    case Verify(sub) => Lift(env, sub)
    case NonZero(sub) => Lift(env, sub)
    case ZeroNotEqual(sub) => Lift(env, sub)
    case AndV(l, r) => AllOf(Lift(env, l), Lift(env, r))
    case AndB(l, r) => AllOf(Lift(env, l), Lift(env, r))
    case AndOr(a, b, c) => AnyOf(AllOf(Lift(env, a), Lift(env, b)), Lift(env, c))
    case OrB(l, r) => AnyOf(Lift(env, l), Lift(env, r))
    case OrD(l, r) => AnyOf(Lift(env, l), Lift(env, r))
    case OrC(l, r) => AnyOf(Lift(env, l), Lift(env, r))
    case OrI(l, r) => AnyOf(Lift(env, l), Lift(env, r))
    case Thresh(k, subs) => Policy.Thresh(k, LiftAll(env, subs))
    case Multi(k, keys) => Policy.Thresh(k, Keys(keys))
    case MultiA(k, keys) => Policy.Thresh(k, Keys(keys))
  }

  function LiftAll(env: Env, subs: seq<Term>): seq<Policy>
    decreases subs, 0
  {
    if subs == [] then [] else [Lift(env, subs[0])] + LiftAll(env, subs[1..])
  }

  // ----- what constraints prove -----

  predicate IsSatPk(c: Constraint, key: Bytes) { c.SatPk? && c.key == key }

  predicate IsSatPkH(c: Constraint, h: Bytes) { c.SatPkH? && c.keyHash == h }

  predicate IsSatHash(c: Constraint, kind: HashKind, image: Bytes) {
    c.SatHash? && c.kind == kind && c.image == image
  }

  /** The policy is true when exactly the conditions in `cs` are. */
  predicate Holds(p: Policy, cs: seq<Constraint>) {
    match p
    case Unsatisfiable => false
    case Trivial => true
    case Key(key) => exists i :: 0 <= i < |cs| && IsSatPk(cs[i], key)
    case KeyHash(h) => exists i :: 0 <= i < |cs| && IsSatPkH(cs[i], h)
    case After(n) => SatAfter(n) in cs
    case Older(n) => SatOlder(IsRelativeTime(n), RelativeValue(n)) in cs
    case HashLock(kind, image) => exists i :: 0 <= i < |cs| && IsSatHash(cs[i], kind, image)
    case TxTemplate(image) => SatTemplate(image) in cs
    case Inscribe(_, sub) => Holds(sub, cs)
    case Thresh(k, subs) => HoldCount(subs, cs) >= k
  }

  function HoldCount(subs: seq<Policy>, cs: seq<Constraint>): nat {
    if subs == [] then 0 else Bump(HoldCount(subs[1..], cs), Holds(subs[0], cs))
  }

  /** The check behind a constraint. */
  predicate Valid(cx: Context, c: Constraint) {
    match c
    case SatPk(key, sig) => cx.env.sigOk(key, sig)
    case SatPkH(h, key, sig) => cx.env.hash(Hash160, key) == h && cx.env.keyOk(key) && cx.env.sigOk(key, sig)
    case SatHash(kind, image, preimage) => |preimage| == 32 && cx.env.hash(kind, preimage) == image
    case SatTemplate(image) => cx.txTemplate == Some(image)
    case SatOlder(time, value) =>
      !RelativeDisabled(cx.env.sequence) && IsRelativeTime(cx.env.sequence) == time
      && value <= RelativeValue(cx.env.sequence)
    case SatAfter(n) => IsSeconds(n) == IsSeconds(cx.env.lockTime) && n <= cx.env.lockTime
  }

  predicate AllValid(cx: Context, cs: seq<Constraint>) {
    forall i :: 0 <= i < |cs| ==> Valid(cx, cs[i])
  }

  // ----- monotonicity -----

  predicate Includes(ds: seq<Constraint>, cs: seq<Constraint>) {
    forall c :: c in cs ==> c in ds
  }

  lemma IncludesConcat(a: seq<Constraint>, b: seq<Constraint>)
    ensures Includes(a + b, a) && Includes(a + b, b)
  {
  }

  lemma {:induction false} Monotone(p: Policy, cs: seq<Constraint>, ds: seq<Constraint>)
    requires Includes(ds, cs) && Holds(p, cs)
    ensures Holds(p, ds)
    decreases p, 0
  {
    match p
    case Key(key) =>
      var i :| 0 <= i < |cs| && IsSatPk(cs[i], key);
      assert cs[i] in cs;
      var j :| 0 <= j < |ds| && ds[j] == cs[i];
    case KeyHash(h) =>
      var i :| 0 <= i < |cs| && IsSatPkH(cs[i], h);
      assert cs[i] in cs;
      var j :| 0 <= j < |ds| && ds[j] == cs[i];
    case HashLock(kind, image) =>
      var i :| 0 <= i < |cs| && IsSatHash(cs[i], kind, image);
      assert cs[i] in cs;
      var j :| 0 <= j < |ds| && ds[j] == cs[i];
    case Inscribe(_, sub) => Monotone(sub, cs, ds);
    case Thresh(_, subs) => MonotoneAll(subs, cs, ds);
    case Unsatisfiable | Trivial | After(_) | Older(_) | TxTemplate(_) =>
  }

  lemma {:induction false} MonotoneAll(subs: seq<Policy>, cs: seq<Constraint>, ds: seq<Constraint>)
    requires Includes(ds, cs)
    ensures HoldCount(subs, cs) <= HoldCount(subs, ds)
    decreases subs, 0
  {
    if subs != [] {
      if Holds(subs[0], cs) { Monotone(subs[0], cs, ds); }
      MonotoneAll(subs[1..], cs, ds);
    }
  }

  lemma HoldsPair(p: Policy, q: Policy, cs: seq<Constraint>)
    ensures Holds(AllOf(p, q), cs) <==> Holds(p, cs) && Holds(q, cs)
    ensures Holds(AnyOf(p, q), cs) <==> Holds(p, cs) || Holds(q, cs)
  {
    assert [p, q][1..] == [q] && [q][1..] == [];
    assert HoldCount([], cs) == 0;
    assert HoldCount([q], cs) == Bump(0, Holds(q, cs));
    assert HoldCount([p, q], cs) == Bump(HoldCount([q], cs), Holds(p, cs));
  }

  lemma {:induction false} HoldsInscribed(ins: seq<Ord.Inscription>, p: Policy, cs: seq<Constraint>)
    ensures Holds(Inscribed(ins, p), cs) <==> Holds(p, cs)
  {
    if ins != [] { HoldsInscribed(ins[1..], p, cs); }
  }

  // ----- emitted constraints were checked -----

  lemma {:induction false} MultiValid(cx: Context, t: Term, nEval: nat, nSat: nat, s: Stack)
    requires (t.Multi? || t.MultiA?) && nEval <= |t.keys|
    ensures AllValid(cx, EvalMulti(cx, t, nEval, nSat, s).emits)
    decreases |t.keys| - nEval
  {
    var m := MultiVisit(cx, t, nEval, nSat, s);
    if m.NextKey? {
      MultiValid(cx, t, nEval + 1, m.nSat, m.stack);
    }
  }

  lemma LeafValid(cx: Context, t: Term, s: Stack)
    requires IsSimpleLeaf(t)
    ensures AllValid(cx, Eval(cx, t, s).emits)
  {
  }

  lemma {:induction false} ThreshValid(cx: Context, k: nat, subs: seq<Term>, i: nat, nSat: nat, s: Stack)
    requires 1 <= i <= |subs|
    ensures AllValid(cx, EvalThresh(cx, k, subs, i, nSat, s).emits)
    decreases subs, 0, |subs| - i
  {
    if i < |subs| {
      var p := PopBool(s);
      if p.Popped? {
        EmitsValid(cx, subs[i], p.rest);
        var x := Eval(cx, subs[i], p.rest);
        if x.out.Done? { ThreshValid(cx, k, subs, i + 1, Bump(nSat, p.b), x.out.stack); }
      }
    }
  }

  lemma {:induction false} AndVValid(cx: Context, t: Term, s: Stack)
    requires t.AndV?
    ensures AllValid(cx, Eval(cx, t, s).emits)
    decreases t, 0
  {
    EmitsValid(cx, t.left, s);
    var x := Eval(cx, t.left, s);
    if x.out.Done? { EmitsValid(cx, t.right, x.out.stack); }
  }

  lemma {:induction false} BothValid(cx: Context, t: Term, s: Stack)
    requires t.AndB? || t.OrB?
    ensures AllValid(cx, Eval(cx, t, s).emits)
    decreases t, 0
  {
    EmitsValid(cx, t.left, s);
    var p := PopOf(Eval(cx, t.left, s)).popped;
    if p.Popped? { EmitsValid(cx, t.right, p.rest); }
  }

  lemma {:induction false} ChoiceValid(cx: Context, t: Term, s: Stack)
    requires t.OrD? || t.OrC? || t.AndOr?
    ensures AllValid(cx, Eval(cx, t, s).emits)
    decreases t, 0
  {
    var l := if t.AndOr? then t.a else t.left;
    EmitsValid(cx, l, s);
    var p := PopOf(Eval(cx, l, s)).popped;
    if p.Popped? { EmitsValid(cx, if t.AndOr? then (if p.b then t.b else t.c) else t.right, p.rest); }
  }

  /** Every constraint an evaluation emits, whether or not the evaluation fails
      later, has been checked and is true. */
  lemma {:induction false} EmitsValid(cx: Context, t: Term, s: Stack)
    ensures AllValid(cx, Eval(cx, t, s).emits)
    decreases t, 1
  {
    if IsSimpleLeaf(t) {
      LeafValid(cx, t, s);
    } else if IsUnary(t) {
      EmitsValid(cx, t.sub, s);
      if s != [] { EmitsValid(cx, t.sub, Drop1(s)); }
    } else if t.OrI? {
      var p := PopBool(s);
      if p.Popped? { EmitsValid(cx, if p.b then t.left else t.right, p.rest); }
    } else if t.Thresh? {
      if t.subs != [] {
        EmitsValid(cx, t.subs[0], s);
        var x := Eval(cx, t.subs[0], s);
        if x.out.Done? { ThreshValid(cx, t.k, t.subs, 1, 0, x.out.stack); }
      }
    } else if t.Multi? || t.MultiA? {
      MultiValid(cx, t, 0, 0, s);
    } else if t.AndV? {
      AndVValid(cx, t, s);
    } else if t.AndB? || t.OrB? {
      BothValid(cx, t, s);
    } else {
      ChoiceValid(cx, t, s);
    }
  }

  // ----- thresholds count exactly -----

  /** What the members of a threshold leave, one after the other: their booleans
      and the rest of the stack, or None when one of them fails. */
  function Members(cx: Context, subs: seq<Term>, s: Stack): Option<(seq<bool>, Stack)> {
    if subs == [] then Some(([], s))
    else
      var x := PopOf(Eval(cx, subs[0], s));
      if x.popped.NotBool? then None
      else
        var rest := Members(cx, subs[1..], x.popped.rest);
        if rest == None then None else Some(([x.popped.b] + rest.value.0, rest.value.1))
  }

  function CountTrue(bs: seq<bool>): nat {
    if bs == [] then 0 else Bump(CountTrue(bs[1..]), bs[0])
  }

  lemma MembersNext(cx: Context, subs: seq<Term>, i: nat, next: nat, s: Stack)
    requires next == i + 1 && i < |subs|
    ensures Members(cx, subs[i..], s) ==
            var x := PopOf(Eval(cx, subs[i], s));
            if x.popped.NotBool? then None
            else
              var rest := Members(cx, subs[next..], x.popped.rest);
              if rest == None then None else Some(([x.popped.b] + rest.value.0, rest.value.1))
  {
    assert subs[i..][0] == subs[i] && subs[i..][1..] == subs[next..];
  }

  lemma {:induction false} ThreshCounts(cx: Context, k: nat, subs: seq<Term>, i: nat, nSat: nat, s: Stack)
    requires 1 <= i <= |subs|
    ensures var out := EvalThresh(cx, k, subs, i, nSat, s).out;
            var p := PopBool(s);
            if p.NotBool? then out.Failed?
            else
              var m := Members(cx, subs[i..], p.rest);
              if m == None then out.Failed?
              else out == Done(m.value.1 + [FromBool(Bump(nSat, p.b) + CountTrue(m.value.0) == k)])
    decreases |subs| - i
  {
    var p := PopBool(s);
    if i == |subs| {
      assert subs[i..] == [];
    } else if p.Popped? {
      var next := i + 1;
      MembersNext(cx, subs, i, next, p.rest);
      EvalThreshStep(cx, k, subs, i, next, nSat, s);
      var x := Eval(cx, subs[i], p.rest);
      if x.out.Done? {
        ThreshCounts(cx, k, subs, next, Bump(nSat, p.b), x.out.stack);
        var q := PopBool(x.out.stack);
        if q.Popped? {
          var m := Members(cx, subs[next..], q.rest);
          if m.Some? { CountNext(q.b, m.value.0); }
        }
      }
    }
  }

  /** A threshold is satisfied exactly when k of its members are, no more. */
  lemma ThreshExact(cx: Context, t: Term, s: Stack)
    requires t.Thresh? && t.subs != []
    ensures var out, m := Eval(cx, t, s).out, Members(cx, t.subs, s);
            if m == None then out.Failed? else out == Done(m.value.1 + [FromBool(CountTrue(m.value.0) == t.k)])
  {
    var x := Eval(cx, t.subs[0], s);
    if x.out.Done? {
      ThreshCounts(cx, t.k, t.subs, 1, 0, x.out.stack);
    }
  }

  /** The answers of CHECKSIG for the keys of `multi_a`, the first key taking the
      top element; None when an element is neither empty nor valid. */
  function KeyBools(env: Env, keys: seq<Bytes>, sigs: seq<Bytes>): Option<seq<bool>>
    requires |keys| == |sigs|
  {
    if keys == [] then Some([])
    else
      var b := CheckSig(env, keys[0], Top(sigs));
      if b == None then None
      else
        var rest := KeyBools(env, keys[1..], Rest(sigs));
        if rest == None then None else Some([b.value] + rest.value)
  }

  /** One key of `multi_a` against the element on top. */
  lemma MultiAVisit(cx: Context, t: Term, i: nat, nSat: nat, below: Stack, sig: Bytes)
    requires Sane(cx.env) && t.MultiA? && WellFormed(cx.env, t) && i < |t.keys|
    ensures var m := MultiVisit(cx, t, i, nSat, below + [FromBytes(sig)]);
            match CheckSig(cx.env, t.keys[i], sig)
            case None => m.Finished? && m.out.Failed?
            case Some(b) => m.NextKey? && m.nSat == Bump(nSat, b) && m.stack == below
  {
    var s := below + [FromBytes(sig)];
    assert Peek(s) == FromBytes(sig) && Drop1(s) == below;
    assert Drop1(below + [Satisfied]) == below;
    assert IsXOnlyKey(t.keys[i]) && cx.env.keyOk(t.keys[i]);
  }

  lemma KeyBoolsNext(env: Env, keys: seq<Bytes>, i: nat, next: nat, sigs: seq<Bytes>)
    requires next == i + 1 && i < |keys| && |sigs| == |keys| - i
    ensures KeyBools(env, keys[i..], sigs) ==
            match CheckSig(env, keys[i], Top(sigs))
            case None => None
            case Some(b) =>
              var rest := KeyBools(env, keys[next..], Rest(sigs));
              if rest == None then None else Some([b] + rest.value)
  {
    assert keys[i..][0] == keys[i] && keys[i..][1..] == keys[next..];
  }

  lemma CountNext(b: bool, bs: seq<bool>)
    ensures CountTrue([b] + bs) == Bump(CountTrue(bs), b)
  {
    assert ([b] + bs)[1..] == bs;
  }

  lemma {:induction false} MultiACounts(cx: Context, t: Term, i: nat, nSat: nat, base: Stack, sigs: seq<Bytes>)
    requires Sane(cx.env) && t.MultiA? && WellFormed(cx.env, t) && i <= |t.keys| && |sigs| == |t.keys| - i
    ensures var out := EvalMulti(cx, t, i, nSat, base + Abs(sigs)).out;
            var bs := KeyBools(cx.env, t.keys[i..], sigs);
            if bs == None then out.Failed?
            else out == Done(base + [FromBool(nSat + CountTrue(bs.value) == t.k)])
    decreases |sigs|
  {
    if i == |t.keys| {
      assert base + Abs(sigs) == base;
    } else {
      var next, below := i + 1, base + Abs(Rest(sigs));
      AbsRest(sigs);
      assert base + Abs(sigs) == below + [FromBytes(Top(sigs))];
      MultiAVisit(cx, t, i, nSat, below, Top(sigs));
      KeyBoolsNext(cx.env, t.keys, i, next, sigs);
      var b := CheckSig(cx.env, t.keys[i], Top(sigs));
      if b.Some? {
        MultiACounts(cx, t, next, Bump(nSat, b.value), base, Rest(sigs));
        var bs := KeyBools(cx.env, t.keys[next..], Rest(sigs));
        if bs.Some? { CountNext(b.value, bs.value); }
      }
    }
  }

  /** `multi_a` takes one element for each key and is satisfied exactly when k of
      them are valid signatures and all others are empty. */
  lemma MultiAExact(cx: Context, t: Term, base: Stack, sigs: seq<Bytes>)
    requires Sane(cx.env) && t.MultiA? && WellFormed(cx.env, t) && |sigs| == |t.keys|
    ensures var out := Eval(cx, t, base + Abs(sigs)).out;
            var bs := KeyBools(cx.env, t.keys, sigs);
            if bs == None then out.Failed? else out == Done(base + [FromBool(CountTrue(bs.value) == t.k)])
  {
    assert t.keys[0..] == t.keys;
    MultiACounts(cx, t, 0, 0, base, sigs);
  }

  // ----- satisfied terms satisfy their policies -----

  /** When a V fragment succeeds, or another one leaves `satisfied`, the policy
      holds for the emitted constraints. */
  predicate Sound(base: Base, p: Policy, emits: seq<Constraint>, s: Stack) {
    (base.V? || (s != [] && Peek(s) == Satisfied)) ==> Holds(p, emits)
  }

  lemma HoldsOne(p: Policy, c: Constraint)
    requires match p
             case Key(key) => IsSatPk(c, key)
             case KeyHash(h) => IsSatPkH(c, h)
             case After(n) => c == SatAfter(n)
             case Older(n) => c == SatOlder(IsRelativeTime(n), RelativeValue(n))
             case HashLock(kind, image) => IsSatHash(c, kind, image)
             case TxTemplate(image) => c == SatTemplate(image)
             case _ => false
    ensures Holds(p, [c])
  {
    var cs := [c];
    assert cs[0] == c;
  }

  lemma SoundLeaf(cx: Context, t: Term, s: Stack)
    requires IsSimpleLeaf(t) && Eval(cx, t, s).out.Done?
    ensures Sound(TypeOf(t).value.base, Lift(cx.env, t), Eval(cx, t, s).emits, Eval(cx, t, s).out.stack)
  {
    var r := EvalLeaf(cx, t, s);
    if r.0.Emit? { HoldsOne(Lift(cx.env, t), r.0.constraint); }
  }

  lemma UnarySubTyped(t: Term)
    requires IsUnary(t) && IsTyped(t)
    ensures IsTyped(t.sub)
    ensures t.Verify? || t.ZeroNotEqual? || t.NonZero? ==> HasBase(t.sub, B)
    ensures t.DupIf? ==> HasBase(t.sub, V)
    ensures !t.Verify? && !t.ZeroNotEqual? && !t.NonZero? && !t.DupIf? ==>
              (TypeOf(t).value.base.V? <==> TypeOf(t.sub).value.base.V?)
    ensures t.ZeroNotEqual? || t.NonZero? || t.DupIf? ==> !TypeOf(t).value.base.V?
  {
  }

  lemma {:induction false} SoundUnary(cx: Context, t: Term, s: Stack)
    requires IsUnary(t) && IsTyped(t) && Eval(cx, t, s).out.Done?
    ensures Sound(TypeOf(t).value.base, Lift(cx.env, t), Eval(cx, t, s).emits, Eval(cx, t, s).out.stack)
    decreases t, 0
  {
    UnarySubTyped(t);
    var cs := Eval(cx, t, s).emits;
    if t.InscribePre? || t.InscribePost? { HoldsInscribed(t.inscriptions, Lift(cx.env, t.sub), cs); }
    if t.DupIf? {
      if PopBool(s).b { PolicySound(cx, t.sub, PopBool(s).rest); }
    } else if !(t.NonZero? && Peek(s) == Dissatisfied) {
      PolicySound(cx, t.sub, s);
      if t.ZeroNotEqual? { StackEffect(cx, t.sub, s); }
    }
  }

  lemma BothBases(t: Term)
    requires (t.AndV? || t.AndB? || t.OrB?) && IsTyped(t)
    ensures HasBase(t.left, if t.AndV? then V else B)
    ensures t.AndV? ==> HasBase(t.right, TypeOf(t).value.base)
    ensures !t.AndV? ==> HasBase(t.right, W) && TypeOf(t).value.base == B
  {
  }

  lemma {:induction false} SoundBoth(cx: Context, t: Term, s: Stack)
    requires (t.AndV? || t.AndB? || t.OrB?) && IsTyped(t) && Eval(cx, t, s).out.Done?
    ensures Sound(TypeOf(t).value.base, Lift(cx.env, t), Eval(cx, t, s).emits, Eval(cx, t, s).out.stack)
    decreases t, 0
  {
    BothBases(t);
    PolicySound(cx, t.left, s);
    var x := Eval(cx, t.left, s);
    var s1 := if t.AndV? then x.out.stack else PopBool(x.out.stack).rest;
    PolicySound(cx, t.right, s1);
    StackEffect(cx, t.right, s1);
    var y := Eval(cx, t.right, s1);
    assert Eval(cx, t, s).emits == x.emits + y.emits;
    JoinBoth(Lift(cx.env, t.left), Lift(cx.env, t.right), x.emits, y.emits);
  }

  /** Two parts, each with its own constraints. */
  lemma JoinBoth(p: Policy, q: Policy, cs: seq<Constraint>, ds: seq<Constraint>)
    ensures Holds(p, cs) ==> Holds(AnyOf(p, q), cs + ds) && Holds(p, cs + ds)
    ensures Holds(q, ds) ==> Holds(AnyOf(p, q), cs + ds) && Holds(q, cs + ds)
    ensures Holds(p, cs) && Holds(q, ds) ==> Holds(AllOf(p, q), cs + ds)
  {
    IncludesConcat(cs, ds);
    HoldsPair(p, q, cs + ds);
    if Holds(p, cs) { Monotone(p, cs, cs + ds); }
    if Holds(q, ds) { Monotone(q, ds, cs + ds); }
  }

  lemma {:induction false} SoundOrElse(cx: Context, t: Term, s: Stack)
    requires (t.OrD? || t.OrC?) && IsTyped(t) && Eval(cx, t, s).out.Done?
    ensures Sound(TypeOf(t).value.base, Lift(cx.env, t), Eval(cx, t, s).emits, Eval(cx, t, s).out.stack)
    decreases t, 0
  {
    ChoiceTyped(t);
    PolicySound(cx, t.left, s);
    var x := Eval(cx, t.left, s);
    var p := PopBool(x.out.stack);
    var l, r := Lift(cx.env, t.left), Lift(cx.env, t.right);
    if p.b {
      HoldsPair(l, r, x.emits);
    } else {
      PolicySound(cx, t.right, p.rest);
      JoinBoth(l, r, x.emits, Eval(cx, t.right, p.rest).emits);
    }
  }

  lemma {:induction false} SoundAndOr(cx: Context, t: Term, s: Stack)
    requires t.AndOr? && IsTyped(t) && Eval(cx, t, s).out.Done?
    ensures Sound(TypeOf(t).value.base, Lift(cx.env, t), Eval(cx, t, s).emits, Eval(cx, t, s).out.stack)
    decreases t, 0
  {
    ChoiceTyped(t);
    PolicySound(cx, t.a, s);
    var x := Eval(cx, t.a, s);
    var p := PopBool(x.out.stack);
    var a, b, c := Lift(cx.env, t.a), Lift(cx.env, t.b), Lift(cx.env, t.c);
    var r := if p.b then t.b else t.c;
    PolicySound(cx, r, p.rest);
    var y := Eval(cx, r, p.rest);
    JoinBoth(a, if p.b then b else c, x.emits, y.emits);
    HoldsPair(AllOf(a, b), c, x.emits + y.emits);
  }

  lemma {:induction false} SoundOrI(cx: Context, t: Term, s: Stack)
    requires t.OrI? && IsTyped(t) && Eval(cx, t, s).out.Done?
    ensures Sound(TypeOf(t).value.base, Lift(cx.env, t), Eval(cx, t, s).emits, Eval(cx, t, s).out.stack)
    decreases t, 0
  {
    var p := PopBool(s);
    PolicySound(cx, if p.b then t.left else t.right, p.rest);
    HoldsPair(Lift(cx.env, t.left), Lift(cx.env, t.right), Eval(cx, t, s).emits);
  }

  // ----- thresholds and multisignatures -----

  /** At least `n` of the members before number `i` hold. */
  predicate Held(ps: seq<Policy>, i: nat, n: nat, cs: seq<Constraint>)
    requires i <= |ps|
  {
    HoldCount(ps[..i], cs) >= n
  }

  lemma {:induction false} HoldCountSnoc(ps: seq<Policy>, p: Policy, cs: seq<Constraint>)
    ensures HoldCount(ps + [p], cs) == Bump(HoldCount(ps, cs), Holds(p, cs))
  {
    if ps == [] {
      assert [] + [p] == [p] && [p][1..] == [];
      assert HoldCount([p], cs) == Bump(HoldCount([], cs), Holds(p, cs));
    } else {
      HoldCountSnoc(ps[1..], p, cs);
      assert (ps + [p])[1..] == ps[1..] + [p];
    }
  }

  /** One more member, with more constraints. */
  lemma HeldNext(ps: seq<Policy>, i: nat, next: nat, n: nat, b: bool, cs: seq<Constraint>, ds: seq<Constraint>)
    requires i < |ps| && next == i + 1 && Held(ps, i, n, cs) && Includes(ds, cs)
    requires b ==> Holds(ps[i], ds)
    ensures Held(ps, next, Bump(n, b), ds)
  {
    MonotoneAll(ps[..i], cs, ds);
    HoldCountSnoc(ps[..i], ps[i], ds);
    assert ps[..next] == ps[..i] + [ps[i]];
  }

  lemma {:induction false} LiftAllAt(env: Env, subs: seq<Term>, i: nat)
    requires i < |subs|
    ensures |LiftAll(env, subs)| == |subs| && LiftAll(env, subs)[i] == Lift(env, subs[i])
  {
    LiftAllLength(env, subs);
    if i > 0 { LiftAllAt(env, subs[1..], i - 1); }
  }

  lemma {:induction false} LiftAllLength(env: Env, subs: seq<Term>)
    ensures |LiftAll(env, subs)| == |subs|
  {
    if subs != [] { LiftAllLength(env, subs[1..]); }
  }

  lemma ThreshDone(k: nat, nSat: nat, s: Stack)
    requires AfterThresh(k, nSat, s).Done? && Peek(AfterThresh(k, nSat, s).stack) == Satisfied
    ensures Bump(nSat, PopBool(s).b) == k
  {
  }

  lemma {:induction false} SoundThresh(cx: Context, k: nat, subs: seq<Term>, ps: seq<Policy>, i: nat, nSat: nat, s: Stack, cs: seq<Constraint>)
    requires 1 <= i <= |subs| && ThreshArgs(subs, true).Ok? && ps == LiftAll(cx.env, subs) && |ps| == |subs|
    requires PopBool(s).Popped? ==> Held(ps, i, Bump(nSat, PopBool(s).b), cs)
    requires EvalThresh(cx, k, subs, i, nSat, s).out.Done?
    ensures var r := EvalThresh(cx, k, subs, i, nSat, s);
            Sound(B, Policy.Thresh(k, ps), cs + r.emits, r.out.stack)
    decreases subs, 0, |subs| - i
  {
    if i == |subs| {
      assert ps[..i] == ps && cs + [] == cs;
      if Peek(AfterThresh(k, nSat, s).stack) == Satisfied { ThreshDone(k, nSat, s); }
    } else {
      var p, next := PopBool(s), i + 1;
      var x := Eval(cx, subs[i], p.rest);
      var n := Bump(nSat, p.b);
      EvalThreshStep(cx, k, subs, i, next, nSat, s);
      ThreshTyped(subs, true, i);
      PolicySound(cx, subs[i], p.rest);
      LiftAllAt(cx.env, subs, i);
      IncludesConcat(cs, x.emits);
      var q := PopBool(x.out.stack);
      if q.Popped? {
        if q.b { Monotone(ps[i], x.emits, cs + x.emits); }
        HeldNext(ps, i, next, n, q.b, cs, cs + x.emits);
      }
      SoundThresh(cx, k, subs, ps, next, n, x.out.stack, cs + x.emits);
      var y := EvalThresh(cx, k, subs, next, n, x.out.stack);
      assert cs + (x.emits + y.emits) == cs + x.emits + y.emits;
    }
  }

  lemma {:induction false} SoundThreshFirst(cx: Context, t: Term, s: Stack)
    requires t.Thresh? && IsTyped(t) && Eval(cx, t, s).out.Done?
    ensures Sound(TypeOf(t).value.base, Lift(cx.env, t), Eval(cx, t, s).emits, Eval(cx, t, s).out.stack)
    decreases t, 0
  {
    var subs, ps := t.subs, LiftAll(cx.env, t.subs);
    ThreshTyped(subs, true, 0);
    PolicySound(cx, subs[0], s);
    var x := Eval(cx, subs[0], s);
    LiftAllAt(cx.env, subs, 0);
    var q := PopBool(x.out.stack);
    assert ps[..0] == [];
    if q.Popped? { HeldNext(ps, 0, 1, 0, q.b, [], x.emits); }
    SoundThresh(cx, t.k, subs, ps, 1, 0, x.out.stack, x.emits);
  }

  lemma {:induction false} HoldCountBackwards(keys: seq<Bytes>, cs: seq<Constraint>)
    ensures HoldCount(Keys(Backwards(keys)), cs) == HoldCount(Keys(keys), cs)
  {
    if keys != [] {
      var rest := keys[1..];
      HoldCountBackwards(rest, cs);
      assert Keys(Backwards(keys)) == Keys(Backwards(rest)) + [Key(keys[0])];
      HoldCountSnoc(Keys(Backwards(rest)), Key(keys[0]), cs);
      assert Keys(keys) == [Key(keys[0])] + Keys(rest);
    }
  }

  /** The keys in the order in which they are visited: those of `multi` are
      tried from the last to the first. */
  function VisitOrder(t: Term): seq<Bytes>
    requires t.Multi? || t.MultiA?
  {
    if t.Multi? then Backwards(t.keys) else t.keys
  }

  lemma VisitEmits(cx: Context, t: Term, nEval: nat, nSat: nat, s: Stack)
    requires (t.Multi? || t.MultiA?) && nEval < |t.keys|
    ensures var m := MultiVisit(cx, t, nEval, nSat, s);
            m.NextKey? ==>
              && m.nSat == Bump(nSat, m.reply.Emit?)
              && (m.reply.Emit? ==> IsSatPk(m.reply.constraint, if t.Multi? then t.keys[|t.keys| - 1 - nEval] else t.keys[nEval]))
  {
  }

  lemma {:induction false} SoundMulti(cx: Context, t: Term, ps: seq<Policy>, nEval: nat, nSat: nat, s: Stack, cs: seq<Constraint>)
    requires (t.Multi? || t.MultiA?) && nEval <= |t.keys| && ps == Keys(VisitOrder(t)) && |ps| == |t.keys|
    requires Held(ps, nEval, nSat, cs)
    requires EvalMulti(cx, t, nEval, nSat, s).out.Done?
    ensures var r := EvalMulti(cx, t, nEval, nSat, s);
            Sound(B, Policy.Thresh(t.k, ps), cs + r.emits, r.out.stack)
    decreases |t.keys| - nEval
  {
    var m := MultiVisit(cx, t, nEval, nSat, s);
    if m.Finished? {
      assert cs + [] == cs;
      if Peek(m.out.stack) == Satisfied {
        MultiDone(cx, t, nEval, nSat, s);
        HeldAll(ps, nEval, t.k, cs);
      }
    } else {
      var next, ds := nEval + 1, cs + Emitted(m.reply);
      HeldVisit(cx, t, ps, nEval, next, nSat, s, cs);
      SoundMulti(cx, t, ps, next, m.nSat, m.stack, ds);
      var y := EvalMulti(cx, t, next, m.nSat, m.stack);
      assert cs + (Emitted(m.reply) + y.emits) == ds + y.emits;
    }
  }

  lemma MultiDone(cx: Context, t: Term, nEval: nat, nSat: nat, s: Stack)
    requires (t.Multi? || t.MultiA?) && nEval <= |t.keys|
    requires var m := MultiVisit(cx, t, nEval, nSat, s);
             m.Finished? && m.out.Done? && Peek(m.out.stack) == Satisfied
    ensures nSat == t.k
  {
  }

  lemma HeldVisit(cx: Context, t: Term, ps: seq<Policy>, nEval: nat, next: nat, nSat: nat, s: Stack, cs: seq<Constraint>)
    requires (t.Multi? || t.MultiA?) && nEval < |t.keys| && next == nEval + 1
    requires ps == Keys(VisitOrder(t)) && |ps| == |t.keys|
    requires Held(ps, nEval, nSat, cs) && MultiVisit(cx, t, nEval, nSat, s).NextKey?
    ensures var m := MultiVisit(cx, t, nEval, nSat, s); Held(ps, next, m.nSat, cs + Emitted(m.reply))
  {
    var m := MultiVisit(cx, t, nEval, nSat, s);
    VisitEmits(cx, t, nEval, nSat, s);
    var ds := cs + Emitted(m.reply);
    IncludesConcat(cs, Emitted(m.reply));
    if m.reply.Emit? {
      HoldsOne(ps[nEval], m.reply.constraint);
      Monotone(ps[nEval], [m.reply.constraint], ds);
    }
    HeldNext(ps, nEval, next, nSat, m.reply.Emit?, cs, ds);
  }

  lemma HeldAll(ps: seq<Policy>, i: nat, n: nat, cs: seq<Constraint>)
    requires i <= |ps| && Held(ps, i, n, cs)
    ensures HoldCount(ps, cs) >= n
  {
    HoldCountPrefix(ps, i, cs);
  }

  lemma {:induction false} HoldCountPrefix(ps: seq<Policy>, i: nat, cs: seq<Constraint>)
    requires i <= |ps|
    ensures HoldCount(ps[..i], cs) <= HoldCount(ps, cs)
  {
    if i > 0 {
      HoldCountPrefix(ps[1..], i - 1, cs);
      assert ps[..i][1..] == ps[1..][..i - 1];
    }
  }

  lemma SoundMultisig(cx: Context, t: Term, s: Stack)
    requires (t.Multi? || t.MultiA?) && Eval(cx, t, s).out.Done?
    ensures Sound(B, Lift(cx.env, t), Eval(cx, t, s).emits, Eval(cx, t, s).out.stack)
  {
    var ps := Keys(VisitOrder(t));
    var r := Eval(cx, t, s);
    HoldCountBackwards(t.keys, r.emits);
    assert ps[..0] == [];
    SoundMulti(cx, t, ps, 0, 0, s, []);
    assert [] + r.emits == r.emits;
  }

  /** For a typed term, a satisfied evaluation makes the term's policy true: the
      conditions it emitted are enough. */
  lemma {:induction false} PolicySound(cx: Context, t: Term, s: Stack)
    requires IsTyped(t) && Eval(cx, t, s).out.Done?
    ensures Sound(TypeOf(t).value.base, Lift(cx.env, t), Eval(cx, t, s).emits, Eval(cx, t, s).out.stack)
    decreases t, 1
  {
    if IsSimpleLeaf(t) {
      SoundLeaf(cx, t, s);
    } else if IsUnary(t) {
      SoundUnary(cx, t, s);
    } else if t.AndV? || t.AndB? || t.OrB? {
      SoundBoth(cx, t, s);
    } else if t.OrD? || t.OrC? {
      SoundOrElse(cx, t, s);
    } else if t.AndOr? {
      SoundAndOr(cx, t, s);
    } else if t.OrI? {
      SoundOrI(cx, t, s);
    } else if t.Thresh? {
      SoundThreshFirst(cx, t, s);
    } else {
      SoundMultisig(cx, t, s);
    }
  }

  /** A script that ends satisfied has a true policy, and every condition that
      makes it true has been checked. */
  lemma SatisfiedPolicy(cx: Context, t: Term, s: Stack)
    requires HasBase(t, B) && Eval(cx, t, s).out == Done([Satisfied])
    ensures Holds(Lift(cx.env, t), Eval(cx, t, s).emits) && AllValid(cx, Eval(cx, t, s).emits)
  {
    PolicySound(cx, t, s);
    EmitsValid(cx, t, s);
  }
}
