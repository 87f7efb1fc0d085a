/** What an evaluation takes from the stack and what it leaves there. */
module Frame {
  import opened Bytes
  import opened Script
  import opened Terms
  import opened Types
  import opened Interp

  /** The same result on a stack with `u` underneath. */
  function Lift(u: Stack, r: Res): Res {
    if r.out.Failed? then r else Res(r.emits, Done(u + r.out.stack))
  }

  lemma LiftPop(u: Stack, s: Stack)
    requires s != []
    ensures u + s != [] && Peek(u + s) == Peek(s) && Drop1(u + s) == u + Drop1(s)
  {
  }

  lemma LiftPush(u: Stack, s: Stack, e: Element)
    ensures u + (s + [e]) == u + s + [e]
  {
  }

  // ----- anything may lie underneath a successful evaluation -----

  lemma FrameLeaf(cx: Context, t: Term, u: Stack, s: Stack)
    requires IsSimpleLeaf(t) && Eval(cx, t, s).out.Done?
    ensures Eval(cx, t, u + s) == Lift(u, Eval(cx, t, s))
  {
    if s != [] {
      LiftPop(u, s);
      var s1 := Drop1(s);
      LiftPush(u, s1, Satisfied);
      LiftPush(u, s1, Dissatisfied);
      if s1 != [] {
        LiftPop(u, s1);
        LiftPush(u, Drop1(s1), Satisfied);
      }
    }
    LiftPush(u, s, Satisfied);
    LiftPush(u, s, Dissatisfied);
  }

  lemma FramePop(u: Stack, s: Stack)
    requires PopBool(s).Popped?
    ensures PopBool(u + s) == Popped(PopBool(s).b, u + PopBool(s).rest)
  {
    LiftPop(u, s);
  }

  lemma {:induction false} FrameUnary(cx: Context, t: Term, u: Stack, s: Stack)
    requires IsUnary(t) && Eval(cx, t, s).out.Done?
    ensures Eval(cx, t, u + s) == Lift(u, Eval(cx, t, s))
    decreases t, 0
  {
    var sub := t.sub;
    if t.DupIf? {
      FramePop(u, s);
      var p := PopBool(s);
      if p.b {
        FrameOk(cx, sub, u, p.rest);
        LiftPush(u, Eval(cx, sub, p.rest).out.stack, Satisfied);
      }
    } else if t.NonZero? {
      LiftPop(u, s);
      if Peek(s) != Dissatisfied { FrameOk(cx, sub, u, s); }
    } else {
      FrameOk(cx, sub, u, s);
      if t.Verify? || t.ZeroNotEqual? {
        var s1 := Eval(cx, sub, s).out.stack;
        LiftPop(u, s1);
        LiftPush(u, Drop1(s1), FromBool(Peek(s1) != Dissatisfied));
      }
    }
  }

  lemma {:induction false} FrameBoth(cx: Context, t: Term, u: Stack, s: Stack)
    requires (t.AndV? || t.AndB? || t.OrB?) && Eval(cx, t, s).out.Done?
    ensures Eval(cx, t, u + s) == Lift(u, Eval(cx, t, s))
    decreases t, 0
  {
    FrameOk(cx, t.left, u, s);
    var s1 := Eval(cx, t.left, s).out.stack;
    if t.AndV? {
      FrameOk(cx, t.right, u, s1);
    } else {
      FramePop(u, s1);
      var p := PopBool(s1);
      FrameOk(cx, t.right, u, p.rest);
      var s2 := Eval(cx, t.right, p.rest).out.stack;
      LiftPop(u, s2);
      LiftPush(u, Drop1(s2), Peek(Eval(cx, t, s).out.stack));
    }
  }

  lemma {:induction false} FrameChoice(cx: Context, t: Term, u: Stack, s: Stack)
    requires (t.AndOr? || t.OrD? || t.OrC?) && Eval(cx, t, s).out.Done?
    ensures Eval(cx, t, u + s) == Lift(u, Eval(cx, t, s))
    decreases t, 0
  {
    var l := if t.AndOr? then t.a else t.left;
    FrameOk(cx, l, u, s);
    var p := PopBool(Eval(cx, l, s).out.stack);
    FramePop(u, Eval(cx, l, s).out.stack);
    if p.b && t.OrD? {
      LiftPush(u, p.rest, Satisfied);
    } else if !(p.b && t.OrC?) {
      FrameOk(cx, if t.AndOr? then (if p.b then t.b else t.c) else t.right, u, p.rest);
    }
  }

  lemma FrameThreshEnd(k: nat, nSat: nat, u: Stack, s: Stack)
    requires AfterThresh(k, nSat, s).Done?
    ensures AfterThresh(k, nSat, u + s) == Done(u + AfterThresh(k, nSat, s).stack)
  {
    FramePop(u, s);
    LiftPush(u, PopBool(s).rest, Peek(AfterThresh(k, nSat, s).stack));
  }

  lemma {:induction false} FrameThresh(cx: Context, k: nat, subs: seq<Term>, i: nat, nSat: nat, u: Stack, s: Stack)
    requires 1 <= i <= |subs| && EvalThresh(cx, k, subs, i, nSat, s).out.Done?
    ensures EvalThresh(cx, k, subs, i, nSat, u + s) == Lift(u, EvalThresh(cx, k, subs, i, nSat, s))
    decreases subs, 0, |subs| - i
  {
    if i == |subs| {
      FrameThreshEnd(k, nSat, u, s);
    } else {
      FramePop(u, s);
      var p, next := PopBool(s), i + 1;
      EvalThreshStep(cx, k, subs, i, next, nSat, s);
      EvalThreshStep(cx, k, subs, i, next, nSat, u + s);
      FrameOk(cx, subs[i], u, p.rest);
      FrameThresh(cx, k, subs, next, Bump(nSat, p.b), u, Eval(cx, subs[i], p.rest).out.stack);
    }
  }

  lemma FrameMultiVisit(cx: Context, t: Term, nEval: nat, nSat: nat, u: Stack, s: Stack)
    requires (t.Multi? || t.MultiA?) && nEval <= |t.keys|
    requires var m := MultiVisit(cx, t, nEval, nSat, s); m.Finished? ==> m.out.Done?
    ensures MultiVisit(cx, t, nEval, nSat, u + s) ==
            match MultiVisit(cx, t, nEval, nSat, s)
            case Finished(out) => Finished(Done(u + out.stack))
            case NextKey(nSat', s', reply) => NextKey(nSat', u + s', reply)
  {
    if s != [] {
      LiftPop(u, s);
      LiftPush(u, Drop1(s), Satisfied);
      assert u + s == u + Drop1(s) + [Peek(s)];
    }
    LiftPush(u, s, FromBool(nSat == t.k));
    if t.Multi? && nEval == 0 && Peek(s) == Dissatisfied {
      var n := |s| - (t.k + 1);
      assert (u + s)[..|u + s| - (t.k + 1)] == u + s[..n];
      LiftPush(u, s[..n], Dissatisfied);
      forall i | |u + s| - (t.k + 1) <= i < |u + s|
        ensures (u + s)[i] == Dissatisfied
      {
        assert (u + s)[i] == s[i - |u|];
      }
    }
  }

  lemma {:induction false} FrameMulti(cx: Context, t: Term, nEval: nat, nSat: nat, u: Stack, s: Stack)
    requires (t.Multi? || t.MultiA?) && nEval <= |t.keys|
    requires EvalMulti(cx, t, nEval, nSat, s).out.Done?
    ensures EvalMulti(cx, t, nEval, nSat, u + s) == Lift(u, EvalMulti(cx, t, nEval, nSat, s))
    decreases |t.keys| - nEval
  {
    FrameMultiVisit(cx, t, nEval, nSat, u, s);
    var m := MultiVisit(cx, t, nEval, nSat, s);
    if m.NextKey? {
      FrameMulti(cx, t, nEval + 1, m.nSat, u, m.stack);
    }
  }

  /** A successful evaluation is the same with any elements underneath: same
      constraints, same result, and the elements are still there. */
  lemma {:induction false} FrameOk(cx: Context, t: Term, u: Stack, s: Stack)
    requires Eval(cx, t, s).out.Done?
    ensures Eval(cx, t, u + s) == Lift(u, Eval(cx, t, s))
    decreases t, 1
  {
    if IsSimpleLeaf(t) {
      FrameLeaf(cx, t, u, s);
    } else if IsUnary(t) {
      FrameUnary(cx, t, u, s);
    } else {
      match t
      case AndV(_, _) => FrameBoth(cx, t, u, s);
      case AndB(_, _) => FrameBoth(cx, t, u, s);
      case OrB(_, _) => FrameBoth(cx, t, u, s);
      case AndOr(_, _, _) => FrameChoice(cx, t, u, s);
      case OrD(_, _) => FrameChoice(cx, t, u, s);
      case OrC(_, _) => FrameChoice(cx, t, u, s);
      case OrI(l, r) =>
        FramePop(u, s);
        FrameOk(cx, if PopBool(s).b then l else r, u, PopBool(s).rest);
      case Thresh(k, subs) =>
        FrameOk(cx, subs[0], u, s);
        FrameThresh(cx, k, subs, 1, 0, u, Eval(cx, subs[0], s).out.stack);
      case Multi(_, _) => FrameMulti(cx, t, 0, 0, u, s);
      case MultiA(_, _) => FrameMulti(cx, t, 0, 0, u, s);
    }
  }

  // ----- what is taken and what is left -----

  /** V leaves part of the stack alone and nothing else; the other bases also
      leave one boolean on top of that part. */
  predicate Effect(base: Base, s: Stack, s': Stack) {
    if base.V? then s' <= s else s' != [] && Drop1(s') <= s && !Peek(s').Push?
  }

  lemma PrefixTrans(a: Stack, b: Stack, c: Stack)
    requires a <= b && b <= c
    ensures a <= c
  {
    assert a == c[..|a|];
  }

  lemma DropPrefix(s: Stack)
    requires s != []
    ensures Drop1(s) <= s
  {
  }

  lemma EffectTrans(base: Base, s: Stack, s1: Stack, s2: Stack)
    requires s1 <= s && Effect(base, s1, s2)
    ensures Effect(base, s, s2)
  {
    PrefixTrans(if base.V? then s2 else Drop1(s2), s1, s);
  }

  lemma EffectPush(s: Stack, s1: Stack, e: Element)
    requires s1 <= s && !e.Push?
    ensures Effect(B, s, s1 + [e])
  {
    assert Drop1(s1 + [e]) == s1;
  }

  lemma EffectPkH(cx: Context, h: Bytes, s: Stack)
    requires !EvalPkH(cx, h, s).0.Fail?
    ensures Effect(K, s, EvalPkH(cx, h, s).1)
  {
    var s1 := Drop1(s);
    DropPrefix(s);
    DropPrefix(s1);
    PrefixTrans(Drop1(s1), s1, s);
    EffectPush(s, Drop1(s1), Satisfied);
  }

  lemma EffectLeaf(cx: Context, t: Term, s: Stack)
    requires IsSimpleLeaf(t) && !EvalLeaf(cx, t, s).0.Fail?
    ensures Effect(TypeOf(t).value.base, s, EvalLeaf(cx, t, s).1)
  {
    if t.PkH? {
      EffectPkH(cx, cx.env.hash(Hash160, t.key), s);
    } else if t.RawPkH? {
      EffectPkH(cx, t.keyHash, s);
    } else if t.PkK? || t.HashLock? {
      DropPrefix(s);
      EffectPush(s, Drop1(s), Peek(EvalLeaf(cx, t, s).1));
    } else if !t.TxTemplate? {
      EffectPush(s, s, Peek(EvalLeaf(cx, t, s).1));
    }
  }

  lemma {:induction false} EffectUnary(cx: Context, t: Term, s: Stack)
    requires IsUnary(t) && IsTyped(t) && Eval(cx, t, s).out.Done?
    ensures Effect(TypeOf(t).value.base, s, Eval(cx, t, s).out.stack)
    decreases t, 0
  {
    var sub := t.sub;
    assert IsTyped(sub);
    if t.DupIf? {
      var p := PopBool(s);
      DropPrefix(s);
      if p.b {
        StackEffect(cx, sub, p.rest);
        var s1 := Eval(cx, sub, p.rest).out.stack;
        PrefixTrans(s1, p.rest, s);
        EffectPush(s, s1, Satisfied);
      }
    } else if t.NonZero? && Peek(s) == Dissatisfied {
      DropPrefix(s);
    } else {
      StackEffect(cx, sub, s);
      if t.ZeroNotEqual? {
        var s1 := Eval(cx, sub, s).out.stack;
        EffectPush(s, Drop1(s1), FromBool(Peek(s1) != Dissatisfied));
      }
    }
  }

  lemma {:induction false} EffectBoth(cx: Context, t: Term, s: Stack)
    requires (t.AndV? || t.AndB? || t.OrB?) && IsTyped(t) && Eval(cx, t, s).out.Done?
    ensures Effect(TypeOf(t).value.base, s, Eval(cx, t, s).out.stack)
    decreases t, 0
  {
    assert IsTyped(t.left) && IsTyped(t.right);
    StackEffect(cx, t.left, s);
    var s1 := Eval(cx, t.left, s).out.stack;
    if t.AndV? {
      StackEffect(cx, t.right, s1);
      EffectTrans(TypeOf(t).value.base, s, s1, Eval(cx, t, s).out.stack);
    } else {
      var p := PopBool(s1);
      StackEffect(cx, t.right, p.rest);
      var s2 := Eval(cx, t.right, p.rest).out.stack;
      PrefixTrans(Drop1(s2), p.rest, s);
      EffectPush(s, Drop1(s2), Peek(Eval(cx, t, s).out.stack));
    }
  }

  /** The first child of a choice is of base B; the chosen child has its base. */
  lemma ChoiceTyped(t: Term)
    requires (t.AndOr? || t.OrD? || t.OrC?) && IsTyped(t)
    ensures HasBase(if t.AndOr? then t.a else t.left, B)
    ensures t.AndOr? ==> HasBase(t.b, TypeOf(t).value.base) && HasBase(t.c, TypeOf(t).value.base)
    ensures !t.AndOr? ==> HasBase(t.right, TypeOf(t).value.base)
    ensures t.OrD? ==> TypeOf(t).value.base == B
    ensures t.OrC? ==> TypeOf(t).value.base == V
  {
  }

  lemma {:induction false} EffectChoice(cx: Context, t: Term, s: Stack)
    requires (t.AndOr? || t.OrD? || t.OrC?) && IsTyped(t) && Eval(cx, t, s).out.Done?
    ensures Effect(TypeOf(t).value.base, s, Eval(cx, t, s).out.stack)
    decreases t, 0
  {
    ChoiceTyped(t);
    var l := if t.AndOr? then t.a else t.left;
    StackEffect(cx, l, s);
    var p := PopBool(Eval(cx, l, s).out.stack);
    if p.b && t.OrD? {
      EffectPush(s, p.rest, Satisfied);
    } else if !(p.b && t.OrC?) {
      var r := if t.AndOr? then (if p.b then t.b else t.c) else t.right;
      StackEffect(cx, r, p.rest);
      EffectTrans(TypeOf(t).value.base, s, p.rest, Eval(cx, r, p.rest).out.stack);
    }
  }

  lemma EffectThreshEnd(k: nat, nSat: nat, s0: Stack, s: Stack)
    requires Effect(B, s0, s) && AfterThresh(k, nSat, s).Done?
    ensures Effect(B, s0, AfterThresh(k, nSat, s).stack)
  {
    EffectPush(s0, Drop1(s), Peek(AfterThresh(k, nSat, s).stack));
  }

  lemma {:induction false} EffectThresh(cx: Context, k: nat, subs: seq<Term>, i: nat, nSat: nat, s0: Stack, s: Stack)
    requires 1 <= i <= |subs| && ThreshArgs(subs, true).Ok?
    requires Effect(B, s0, s) && EvalThresh(cx, k, subs, i, nSat, s).out.Done?
    ensures Effect(B, s0, EvalThresh(cx, k, subs, i, nSat, s).out.stack)
    decreases subs, 0, |subs| - i
  {
    if i == |subs| {
      EffectThreshEnd(k, nSat, s0, s);
    } else {
      var p, next := PopBool(s), i + 1;
      EvalThreshStep(cx, k, subs, i, next, nSat, s);
      var s1 := Eval(cx, subs[i], p.rest).out.stack;
      ThreshTyped(subs, true, i);
      StackEffect(cx, subs[i], p.rest);
      EffectTrans(B, s0, p.rest, s1);
      EffectThresh(cx, k, subs, next, Bump(nSat, p.b), s0, s1);
    }
  }

  predicate VisitEffect(s: Stack, m: MultiStep) {
    match m
    case NextKey(_, s1, _) => s1 <= s
    case Finished(out) => out.Done? ==> Effect(B, s, out.stack)
  }

  lemma EffectKey(cx: Context, key: Bytes, nSat: nat, s: Stack)
    ensures VisitEffect(s, MultiKey(cx, key, nSat, s))
  {
    if s != [] { DropPrefix(s); }
  }

  lemma EffectMultiFirst(cx: Context, k: nat, keys: seq<Bytes>, nSat: nat, s: Stack)
    requires keys != []
    ensures VisitEffect(s, MultiFirst(cx, k, keys, nSat, s))
  {
    EffectKey(cx, keys[|keys| - 1], nSat, s);
    if |s| >= k + 1 { EffectPush(s, s[..|s| - (k + 1)], Dissatisfied); }
  }

  lemma EffectMultiLater(cx: Context, k: nat, keys: seq<Bytes>, nEval: nat, nSat: nat, s: Stack)
    requires nEval <= |keys|
    ensures VisitEffect(s, MultiLater(cx, k, keys, nEval, nSat, s))
  {
    if nEval < |keys| { EffectKey(cx, keys[|keys| - nEval - 1], nSat, s); }
    if s != [] {
      DropPrefix(s);
      EffectPush(s, Drop1(s), Satisfied);
    }
  }

  lemma EffectMultiA(cx: Context, k: nat, keys: seq<Bytes>, nEval: nat, nSat: nat, s: Stack)
    requires nEval <= |keys|
    ensures VisitEffect(s, MultiANext(cx, k, keys, nEval, nSat, s))
  {
    EffectPush(s, s, FromBool(nSat == k));
    if s != [] {
      DropPrefix(s);
      assert Drop1(Drop1(s) + [Satisfied]) == Drop1(s);
    }
  }

  lemma EffectMultiVisit(cx: Context, t: Term, nEval: nat, nSat: nat, s: Stack)
    requires (t.Multi? || t.MultiA?) && nEval <= |t.keys|
    ensures VisitEffect(s, MultiVisit(cx, t, nEval, nSat, s))
  {
    if t.MultiA? {
      EffectMultiA(cx, t.k, t.keys, nEval, nSat, s);
    } else if t.keys != [] {
      if nEval == 0 {
        EffectMultiFirst(cx, t.k, t.keys, nSat, s);
      } else {
        EffectMultiLater(cx, t.k, t.keys, nEval, nSat, s);
      }
    }
  }

  lemma {:induction false} EffectMulti(cx: Context, t: Term, nEval: nat, nSat: nat, s: Stack)
    requires (t.Multi? || t.MultiA?) && nEval <= |t.keys|
    requires EvalMulti(cx, t, nEval, nSat, s).out.Done?
    ensures Effect(B, s, EvalMulti(cx, t, nEval, nSat, s).out.stack)
    decreases |t.keys| - nEval
  {
    EffectMultiVisit(cx, t, nEval, nSat, s);
    var m := MultiVisit(cx, t, nEval, nSat, s);
    if m.NextKey? {
      EffectMulti(cx, t, nEval + 1, m.nSat, m.stack);
      EffectTrans(B, s, m.stack, EvalMulti(cx, t, nEval, nSat, s).out.stack);
    }
  }

  /** What a successful evaluation of a typed term does to the stack. */
  lemma {:induction false} StackEffect(cx: Context, t: Term, s: Stack)
    requires IsTyped(t) && Eval(cx, t, s).out.Done?
    ensures Effect(TypeOf(t).value.base, s, Eval(cx, t, s).out.stack)
    decreases t, 1
  {
    if IsSimpleLeaf(t) {
      EffectLeaf(cx, t, s);
    } else if IsUnary(t) {
      EffectUnary(cx, t, s);
    } else {
      match t
      case AndV(_, _) => EffectBoth(cx, t, s);
      case AndB(_, _) => EffectBoth(cx, t, s);
      case OrB(_, _) => EffectBoth(cx, t, s);
      case AndOr(_, _, _) => EffectChoice(cx, t, s);
      case OrD(_, _) => EffectChoice(cx, t, s);
      case OrC(_, _) => EffectChoice(cx, t, s);
      case OrI(l, r) =>
        var p := PopBool(s);
        StackEffect(cx, if p.b then l else r, p.rest);
        DropPrefix(s);
        EffectTrans(TypeOf(t).value.base, s, p.rest, Eval(cx, t, s).out.stack);
      case Thresh(k, subs) =>
        ThreshTyped(subs, true, 0);
        StackEffect(cx, subs[0], s);
        EffectThresh(cx, k, subs, 1, 0, s, Eval(cx, subs[0], s).out.stack);
      case Multi(_, _) => EffectMulti(cx, t, 0, 0, s);
      case MultiA(_, _) => EffectMulti(cx, t, 0, 0, s);
    }
  }

  // ----- fragments that take at most one element -----

  /** The stack such a fragment needs, no more and no less. */
  predicate Enough(x: Correctness, s: Stack) {
    !x.base.W? && NumArgs(x.input) <= 1 && |s| == NumArgs(x.input)
  }

  /** On exactly the elements its type announces, a fragment's result is the
      same with anything underneath, even when it is an error, and nothing of
      those elements is left but the result. */
  ghost predicate Local(cx: Context, t: Term, base: Base, u: Stack, s: Stack) {
    var r := Eval(cx, t, s);
    && Eval(cx, t, u + s) == Lift(u, r)
    && (r.out.Done? ==> |r.out.stack| == if base.V? then 0 else 1)
  }

  lemma LocalPop(u: Stack, s: Stack)
    requires s != []
    ensures PopBool(u + s) == if PopBool(s).NotBool? then PopBool(s)
                              else Popped(PopBool(s).b, u + PopBool(s).rest)
  {
    LiftPop(u, s);
  }

  lemma LocalLeaf(cx: Context, t: Term, u: Stack, s: Stack)
    requires IsSimpleLeaf(t) && Enough(TypeOf(t).value, s)
    ensures Local(cx, t, TypeOf(t).value.base, u, s)
  {
    if t.PkK? || t.HashLock? {
      LiftPop(u, s);
      LiftPush(u, Drop1(s), Satisfied);
      LiftPush(u, Drop1(s), Dissatisfied);
    } else {
      assert s == [] && u + s == u;
      LiftPush(u, s, Satisfied);
      LiftPush(u, s, Dissatisfied);
    }
  }

  lemma {:induction false} LocalUnary(cx: Context, t: Term, u: Stack, s: Stack)
    requires IsUnary(t) && IsTyped(t) && Enough(TypeOf(t).value, s)
    ensures Local(cx, t, TypeOf(t).value.base, u, s)
    decreases t, 0
  {
    var sub := t.sub;
    assert IsTyped(sub);
    if t.DupIf? {
      LocalPop(u, s);
      var p := PopBool(s);
      if p.Popped? && p.b {
        LocalEval(cx, sub, u, p.rest);
        var x := Eval(cx, sub, p.rest);
        if x.out.Done? { LiftPush(u, x.out.stack, Satisfied); }
      }
    } else if t.NonZero? {
      LiftPop(u, s);
      if Peek(s) != Dissatisfied { LocalEval(cx, sub, u, s); }
    } else {
      LocalEval(cx, sub, u, s);
      var x := Eval(cx, sub, s);
      if x.out.Done? && (t.Verify? || t.ZeroNotEqual?) {
        var s1 := x.out.stack;
        LiftPop(u, s1);
        LiftPush(u, Drop1(s1), FromBool(Peek(s1) != Dissatisfied));
        assert Drop1(s1) == [] && u + [] == u;
      }
    }
  }

  /** A first child that takes the top element or nothing: afterwards the rest
      of the stack is untouched. */
  lemma {:induction false} LocalFirst(cx: Context, l: Term, u: Stack, s: Stack, below: Stack)
    requires IsTyped(l) && !TypeOf(l).value.base.W? && NumArgs(TypeOf(l).value.input) <= 1
    requires NumArgs(TypeOf(l).value.input) <= |s| && below == s[..|s| - NumArgs(TypeOf(l).value.input)]
    ensures var x, y := Eval(cx, l, s), Eval(cx, l, u + s);
            if x.out.Failed? then y == x
            else
              && y.out.Done? && y.emits == x.emits
              && (TypeOf(l).value.base.V? ==> x.out.stack == below && y.out.stack == u + below)
              && (!TypeOf(l).value.base.V? ==>
                    var p, q := PopBool(x.out.stack), PopBool(y.out.stack);
                    if p.NotBool? then q == p
                    else p.rest == below && q == Popped(p.b, u + below))
    decreases l, 2
  {
    var n := NumArgs(TypeOf(l).value.input);
    var args := s[|s| - n..];
    assert s == below + args && u + s == u + below + args;
    LocalEval(cx, l, below, args);
    LocalEval(cx, l, u + below, args);
    var x := Eval(cx, l, args);
    if x.out.Done? {
      if TypeOf(l).value.base.V? {
        assert below + [] == below && u + below + [] == u + below;
      } else {
        LocalPop(below, x.out.stack);
        LocalPop(u + below, x.out.stack);
        assert below + [] == below && u + below + [] == u + below;
      }
    }
  }

  lemma {:induction false} LocalAndV(cx: Context, t: Term, u: Stack, s: Stack, below: Stack)
    requires t.AndV? && HasBase(t.left, V) && IsTyped(t.right)
    requires NumArgs(TypeOf(t.left).value.input) <= |s| <= 1 && below == s[..|s| - NumArgs(TypeOf(t.left).value.input)]
    requires Enough(TypeOf(t.right).value, below)
    ensures Local(cx, t, TypeOf(t.right).value.base, u, s)
    decreases t, 0
  {
    LocalFirst(cx, t.left, u, s, below);
    LocalEval(cx, t.right, u, below);
  }

  /** Of an `and_v` that takes one element, one part takes it. */
  lemma AndVArgs(l: Term, r: Term)
    requires IsTyped(AndV(l, r)) && NumArgs(TypeOf(AndV(l, r)).value.input) <= 1
    ensures HasBase(l, V) && HasBase(r, TypeOf(AndV(l, r)).value.base) && !TypeOf(r).value.base.W?
    ensures NumArgs(TypeOf(AndV(l, r)).value.input) ==
            NumArgs(TypeOf(l).value.input) + NumArgs(TypeOf(r).value.input)
  {
  }

  lemma {:induction false} LocalAndOr(cx: Context, t: Term, base: Base, u: Stack, s: Stack, below: Stack)
    requires t.AndOr? && HasBase(t.a, B) && HasBase(t.b, base) && HasBase(t.c, base)
    requires NumArgs(TypeOf(t.a).value.input) <= |s| <= 1 && below == s[..|s| - NumArgs(TypeOf(t.a).value.input)]
    requires Enough(TypeOf(t.b).value, below) && Enough(TypeOf(t.c).value, below)
    ensures Local(cx, t, base, u, s)
    decreases t, 0
  {
    LocalFirst(cx, t.a, u, s, below);
    LocalEval(cx, t.b, u, below);
    LocalEval(cx, t.c, u, below);
  }

  lemma {:induction false} LocalOrElse(cx: Context, t: Term, u: Stack, s: Stack)
    requires t.OrD? || t.OrC?
    requires HasBase(t.left, B) && |s| == NumArgs(TypeOf(t.left).value.input) <= 1
    requires HasBase(t.right, if t.OrD? then B else V) && Enough(TypeOf(t.right).value, [])
    ensures Local(cx, t, if t.OrD? then B else V, u, s)
    decreases t, 0
  {
    assert s[..0] == [] && u + [] == u;
    LocalFirst(cx, t.left, u, s, []);
    LocalEval(cx, t.right, u, []);
    LiftPush(u, [], Satisfied);
  }

  /** How a choice that takes at most one element splits it between its parts:
      a part that may be skipped takes nothing. */
  lemma ChoiceArgs(t: Term, n: nat)
    requires (t.AndOr? || t.OrD? || t.OrC?) && IsTyped(t)
    requires n == NumArgs(TypeOf(t).value.input) <= 1
    ensures var l := if t.AndOr? then t.a else t.left;
            var m := NumArgs(TypeOf(l).value.input);
            && m <= n
            && (t.AndOr? ==> NumArgs(TypeOf(t.b).value.input) == NumArgs(TypeOf(t.c).value.input) == n - m)
            && (!t.AndOr? ==> m == n && NumArgs(TypeOf(t.right).value.input) == 0)
  {
    ChoiceTyped(t);
  }

  /** W fragments never announce how much they take. */
  lemma {:induction false} WTakesAny(t: Term)
    requires HasBase(t, W)
    ensures TypeOf(t).value.input == IAny
  {
    if t.InscribePre? || t.InscribePost? {
      WTakesAny(t.sub);
    }
  }

  /** Only a threshold of one child takes at most one element. */
  lemma {:induction false} LocalThresh(cx: Context, t: Term, u: Stack, s: Stack)
    requires t.Thresh? && IsTyped(t) && Enough(TypeOf(t).value, s)
    ensures Local(cx, t, TypeOf(t).value.base, u, s)
    decreases t, 0
  {
    var k, subs := t.k, t.subs;
    if subs != [] {
      ThreshTyped(subs, true, 0);
      if |subs| > 1 {
        assert subs[1..][0] == subs[1];
        ThreshTyped(subs, true, 1);
        WTakesAny(subs[1]);
      } else {
        assert subs[1..] == [];
        LocalEval(cx, subs[0], u, s);
        var x := Eval(cx, subs[0], s);
        if x.out.Done? {
          LocalPop(u, x.out.stack);
          var p := PopBool(x.out.stack);
          if p.Popped? { LiftPush(u, p.rest, FromBool(Bump(0, p.b) == k)); }
        }
      }
    }
  }

  lemma {:induction false} LocalEval(cx: Context, t: Term, u: Stack, s: Stack)
    requires IsTyped(t) && Enough(TypeOf(t).value, s)
    ensures Local(cx, t, TypeOf(t).value.base, u, s)
    decreases t, 1
  {
    if IsSimpleLeaf(t) {
      LocalLeaf(cx, t, u, s);
    } else if IsUnary(t) {
      LocalUnary(cx, t, u, s);
    } else if t.AndV? {
      AndVArgs(t.left, t.right);
      LocalAndV(cx, t, u, s, s[..|s| - NumArgs(TypeOf(t.left).value.input)]);
    } else if t.AndOr? || t.OrD? || t.OrC? {
      ChoiceTyped(t);
      ChoiceArgs(t, |s|);
      if t.AndOr? {
        LocalAndOr(cx, t, TypeOf(t).value.base, u, s, s[..|s| - NumArgs(TypeOf(t.a).value.input)]);
      } else {
        LocalOrElse(cx, t, u, s);
      }
    } else if t.OrI? {
      LocalPop(u, s);
      var p := PopBool(s);
      if p.Popped? { LocalEval(cx, if p.b then t.left else t.right, u, p.rest); }
    } else if t.Thresh? {
      LocalThresh(cx, t, u, s);
    } else if t.AndB? || t.OrB? {
      WTakesAny(t.right);
    }
  }
}
