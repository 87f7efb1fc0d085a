/** A successful evaluation looks at everything it takes: only signatures, keys,
    preimages and booleans ever leave the interpreter's stack. */
module Sizes {
  import opened Bytes
  import opened Script
  import opened Terms
  import opened Types
  import opened Interp
  import opened Frame

  predicate SmallStack(s: Stack) {
    forall i :: 0 <= i < |s| && s[i].Push? ==> |s[i].data| <= MAX_SCRIPT_ELEMENT_SIZE
  }

  /** Signatures and keys that are accepted fit into a stack element. */
  ghost predicate Bounded(env: Env) {
    && (forall key: Bytes, sig: Bytes :: env.sigOk(key, sig) ==> |sig| <= MAX_SCRIPT_ELEMENT_SIZE)
    && (forall key: Bytes :: env.keyOk(key) ==> |key| <= MAX_SCRIPT_ELEMENT_SIZE)
  }

  /** Nothing oversized has been taken off. */
  predicate Kept(s: Stack, s': Stack) { SmallStack(s') ==> SmallStack(s) }

  predicate IsSmall(e: Element) { e.Push? ==> |e.data| <= MAX_SCRIPT_ELEMENT_SIZE }

  lemma KeptDrop(s: Stack)
    requires s != [] && IsSmall(Peek(s))
    ensures Kept(s, Drop1(s))
  {
    assert s == Drop1(s) + [Peek(s)];
  }

  lemma KeptPush(s: Stack, e: Element)
    ensures Kept(s, s + [e])
  {
    if SmallStack(s + [e]) {
      assert forall i :: 0 <= i < |s| ==> s[i] == (s + [e])[i];
    }
  }

  /** An element is replaced by another one. */
  lemma KeptSwap(s: Stack, e: Element)
    requires s != [] && IsSmall(Peek(s))
    ensures Kept(s, Drop1(s) + [e])
  {
    KeptDrop(s);
    KeptPush(Drop1(s), e);
  }

  lemma KeptPkH(cx: Context, h: Bytes, s: Stack)
    requires Bounded(cx.env) && !EvalPkH(cx, h, s).0.Fail?
    ensures Kept(s, EvalPkH(cx, h, s).1)
  {
    var key, s1 := Peek(s).data, Drop1(s);
    assert cx.env.keyOk(key);
    KeptDrop(s);
    if Peek(s1).Push? {
      assert cx.env.sigOk(key, Peek(s1).data);
      KeptSwap(s1, Satisfied);
    }
  }

  lemma KeptLeaf(cx: Context, t: Term, s: Stack)
    requires Bounded(cx.env) && IsSimpleLeaf(t) && !EvalLeaf(cx, t, s).0.Fail?
    ensures Kept(s, EvalLeaf(cx, t, s).1)
  {
    KeptPush(s, Satisfied);
    KeptPush(s, Dissatisfied);
    if t.PkH? {
      KeptPkH(cx, cx.env.hash(Hash160, t.key), s);
    } else if t.RawPkH? {
      KeptPkH(cx, t.keyHash, s);
    } else if t.PkK? {
      if Peek(s).Push? {
        assert cx.env.sigOk(t.key, Peek(s).data);
        KeptSwap(s, Satisfied);
      }
    } else if t.HashLock? {
      KeptSwap(s, Satisfied);
      KeptSwap(s, Dissatisfied);
    }
  }

  lemma KeptZeroes(s: Stack, n: nat)
    requires n <= |s| && forall i :: |s| - n <= i < |s| ==> s[i] == Dissatisfied
    ensures Kept(s, s[..|s| - n] + [Dissatisfied])
  {
    KeptPush(s[..|s| - n], Dissatisfied);
    if SmallStack(s[..|s| - n]) {
      assert forall i :: 0 <= i < |s| - n ==> s[i] == s[..|s| - n][i];
    }
  }

  lemma KeptMultiKey(cx: Context, key: Bytes, nSat: nat, s: Stack)
    requires Bounded(cx.env)
    ensures var m := MultiKey(cx, key, nSat, s); m.NextKey? ==> Kept(s, m.stack)
  {
    if s != [] && Peek(s).Push? && cx.env.sigOk(key, Peek(s).data) { KeptDrop(s); }
  }

  lemma KeptMultiA(cx: Context, k: nat, keys: seq<Bytes>, nEval: nat, nSat: nat, s: Stack)
    requires Bounded(cx.env) && nEval <= |keys|
    ensures match MultiANext(cx, k, keys, nEval, nSat, s)
            case NextKey(_, s1, _) => Kept(s, s1)
            case Finished(out) => out.Done? ==> Kept(s, out.stack)
  {
    KeptPush(s, FromBool(nSat == k));
    if nEval < |keys| && s != [] && !Peek(s).Satisfied? {
      if Peek(s).Push? && cx.env.sigOk(keys[nEval], Peek(s).data) {
        assert Drop1(Drop1(s) + [Satisfied]) == Drop1(s);
        KeptDrop(s);
      } else if Peek(s).Dissatisfied? {
        KeptDrop(s);
      }
    }
  }

  lemma KeptVisit(cx: Context, t: Term, nEval: nat, nSat: nat, s: Stack)
    requires Bounded(cx.env) && (t.Multi? || t.MultiA?) && nEval <= |t.keys|
    ensures match MultiVisit(cx, t, nEval, nSat, s)
            case NextKey(_, s1, _) => Kept(s, s1)
            case Finished(out) => out.Done? ==> Kept(s, out.stack)
  {
    if t.MultiA? {
      KeptMultiA(cx, t.k, t.keys, nEval, nSat, s);
    } else if t.keys != [] {
      if nEval < |t.keys| { KeptMultiKey(cx, t.keys[|t.keys| - nEval - 1], nSat, s); }
      if nEval > 0 {
        if s != [] && Peek(s) == Dissatisfied { KeptSwap(s, Satisfied); }
      } else if |s| >= t.k + 1 && forall i :: |s| - (t.k + 1) <= i < |s| ==> s[i] == Dissatisfied {
        KeptZeroes(s, t.k + 1);
      }
    }
  }

  lemma {:induction false} KeptMulti(cx: Context, t: Term, nEval: nat, nSat: nat, s: Stack)
    requires Bounded(cx.env) && (t.Multi? || t.MultiA?) && nEval <= |t.keys|
    requires EvalMulti(cx, t, nEval, nSat, s).out.Done?
    ensures Kept(s, EvalMulti(cx, t, nEval, nSat, s).out.stack)
    decreases |t.keys| - nEval
  {
    KeptVisit(cx, t, nEval, nSat, s);
    var m := MultiVisit(cx, t, nEval, nSat, s);
    if m.NextKey? { KeptMulti(cx, t, nEval + 1, m.nSat, m.stack); }
  }

  lemma KeptPop(s: Stack)
    requires PopBool(s).Popped?
    ensures Kept(s, PopBool(s).rest)
  {
    KeptDrop(s);
  }

  lemma {:induction false} KeptUnary(cx: Context, t: Term, s: Stack)
    requires Bounded(cx.env) && IsUnary(t) && IsTyped(t) && Eval(cx, t, s).out.Done?
    ensures Kept(s, Eval(cx, t, s).out.stack)
    decreases t, 0
  {
    assert IsTyped(t.sub);
    if t.DupIf? {
      KeptPop(s);
      var p := PopBool(s);
      if p.b {
        KeptEval(cx, t.sub, p.rest);
        KeptPush(Eval(cx, t.sub, p.rest).out.stack, Satisfied);
      }
    } else if !(t.NonZero? && Peek(s) == Dissatisfied) {
      KeptEval(cx, t.sub, s);
      var s1 := Eval(cx, t.sub, s).out.stack;
      if t.Verify? { KeptDrop(s1); }
      if t.ZeroNotEqual? {
        StackEffect(cx, t.sub, s);
        KeptSwap(s1, FromBool(Peek(s1) != Dissatisfied));
      }
    }
  }

  lemma KeptAfterBoth(t: Term, nSat: nat, s: Stack, out: Outcome)
    requires s != [] && !Peek(s).Push? && out.Done?
    requires (t.AndB? && out == AfterAndB(nSat, s)) || (t.OrB? && out == AfterOrB(nSat, s))
    ensures Kept(s, out.stack)
  {
    KeptSwap(s, Satisfied);
    KeptSwap(s, Dissatisfied);
  }

  lemma {:induction false} KeptBoth(cx: Context, t: Term, s: Stack)
    requires Bounded(cx.env) && (t.AndB? || t.OrB?) && IsTyped(t) && Eval(cx, t, s).out.Done?
    ensures Kept(s, Eval(cx, t, s).out.stack)
    decreases t, 0
  {
    assert IsTyped(t.left) && IsTyped(t.right) && TypeOf(t.right).value.base == W;
    KeptEval(cx, t.left, s);
    var s1 := Eval(cx, t.left, s).out.stack;
    KeptPop(s1);
    var p := PopBool(s1);
    KeptEval(cx, t.right, p.rest);
    StackEffect(cx, t.right, p.rest);
    KeptAfterBoth(t, if p.b then 1 else 0, Eval(cx, t.right, p.rest).out.stack, Eval(cx, t, s).out);
  }

  lemma {:induction false} KeptChoice(cx: Context, t: Term, s: Stack)
    requires Bounded(cx.env) && (t.AndOr? || t.OrD? || t.OrC?) && IsTyped(t) && Eval(cx, t, s).out.Done?
    ensures Kept(s, Eval(cx, t, s).out.stack)
    decreases t, 0
  {
    ChoiceTyped(t);
    var l := if t.AndOr? then t.a else t.left;
    KeptEval(cx, l, s);
    var s1 := Eval(cx, l, s).out.stack;
    KeptPop(s1);
    var p := PopBool(s1);
    if p.b && t.OrD? {
      KeptPush(p.rest, Satisfied);
    } else if !(p.b && t.OrC?) {
      KeptEval(cx, if t.AndOr? then (if p.b then t.b else t.c) else t.right, p.rest);
    }
  }

  lemma {:induction false} KeptThresh(cx: Context, k: nat, subs: seq<Term>, i: nat, nSat: nat, s: Stack)
    requires Bounded(cx.env) && 1 <= i <= |subs| && ThreshArgs(subs, true).Ok?
    requires EvalThresh(cx, k, subs, i, nSat, s).out.Done?
    ensures Kept(s, EvalThresh(cx, k, subs, i, nSat, s).out.stack)
    decreases subs, 0, |subs| - i
  {
    var p := PopBool(s);
    if i == |subs| {
      KeptPop(s);
      KeptPush(p.rest, FromBool(Bump(nSat, p.b) == k));
    } else {
      var next := i + 1;
      EvalThreshStep(cx, k, subs, i, next, nSat, s);
      KeptPop(s);
      ThreshTyped(subs, true, i);
      KeptEval(cx, subs[i], p.rest);
      KeptThresh(cx, k, subs, next, Bump(nSat, p.b), Eval(cx, subs[i], p.rest).out.stack);
    }
  }

  /** A successful evaluation never takes an oversized element off the stack. */
  lemma {:induction false} KeptEval(cx: Context, t: Term, s: Stack)
    requires Bounded(cx.env) && IsTyped(t) && Eval(cx, t, s).out.Done?
    ensures Kept(s, Eval(cx, t, s).out.stack)
    decreases t, 1
  {
    if IsSimpleLeaf(t) {
      KeptLeaf(cx, t, s);
    } else if t.Multi? || t.MultiA? {
      KeptMulti(cx, t, 0, 0, s);
    } else if IsUnary(t) {
      KeptUnary(cx, t, s);
    } else if t.AndV? {
      KeptEval(cx, t.left, s);
      KeptEval(cx, t.right, Eval(cx, t.left, s).out.stack);
    } else if t.AndB? || t.OrB? {
      KeptBoth(cx, t, s);
    } else if t.OrI? {
      KeptPop(s);
      KeptEval(cx, if PopBool(s).b then t.left else t.right, PopBool(s).rest);
    } else if t.Thresh? {
      ThreshTyped(t.subs, true, 0);
      KeptEval(cx, t.subs[0], s);
      KeptThresh(cx, t.k, t.subs, 1, 0, Eval(cx, t.subs[0], s).out.stack);
    } else {
      KeptChoice(cx, t, s);
    }
  }
}
