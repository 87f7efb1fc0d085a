/** A term and its canonical form mean the same to the interpreter. */
module CanonMeaning {
  import opened Terms
  import opened Interp
  import opened Canonical
  import opened Contexts

  lemma PrefixTwice(a: seq<Constraint>, b: seq<Constraint>, r: Res)
    ensures Prefix(a + b, r) == Prefix(a, Prefix(b, r))
  {
    assert a + b + r.emits == a + (b + r.emits);
  }

  lemma EvalAndV(cx: Context, l: Term, r: Term, s: Stack)
    ensures Eval(cx, Term.AndV(l, r), s) ==
            var x := Eval(cx, l, s);
            if x.out.Failed? then x else Prefix(x.emits, Eval(cx, r, x.out.stack))
  {
  }

  lemma AndVAssoc(cx: Context, a: Term, b: Term, c: Term, s: Stack)
    ensures Eval(cx, Term.AndV(Term.AndV(a, b), c), s) == Eval(cx, Term.AndV(a, Term.AndV(b, c)), s)
  {
    EvalAndV(cx, Term.AndV(a, b), c, s);
    EvalAndV(cx, a, b, s);
    EvalAndV(cx, a, Term.AndV(b, c), s);
    var x := Eval(cx, a, s);
    if x.out.Done? {
      EvalAndV(cx, b, c, x.out.stack);
      var y := Eval(cx, b, x.out.stack);
      if y.out.Done? { PrefixTwice(x.emits, y.emits, Eval(cx, c, y.out.stack)); }
    }
  }

  lemma {:induction false} JoinVEval(cx: Context, l: Term, r: Term, s: Stack)
    ensures Eval(cx, JoinV(l, r), s) == Eval(cx, Term.AndV(l, r), s)
    decreases r
  {
    if r.AndV? {
      JoinVEval(cx, l, r.left, s);
      EvalAndV(cx, JoinV(l, r.left), r.right, s);
      EvalAndV(cx, Term.AndV(l, r.left), r.right, s);
      AndVAssoc(cx, l, r.left, r.right, s);
    }
  }

  lemma CheckedEval(cx: Context, y: Term, s: Stack)
    requires y.AndV?
    ensures Eval(cx, Term.AndV(y.left, Term.Check(y.right)), s) == Eval(cx, Term.Check(y), s)
  {
    EvalAndV(cx, y.left, Term.Check(y.right), s);
  }

  lemma VerifiedEval(cx: Context, y: Term, s: Stack)
    requires y.AndV?
    ensures Eval(cx, Term.AndV(y.left, Term.Verify(y.right)), s) == Eval(cx, Term.Verify(y), s)
  {
    EvalAndV(cx, y.left, Term.Verify(y.right), s);
    EvalAndV(cx, y.left, y.right, s);
  }

  lemma NonZeroEval(cx: Context, y: Term, s: Stack)
    requires y.AndV?
    ensures Eval(cx, Term.AndV(y.left, Term.ZeroNotEqual(y.right)), s) == Eval(cx, Term.ZeroNotEqual(y), s)
  {
    EvalAndV(cx, y.left, Term.ZeroNotEqual(y.right), s);
    EvalAndV(cx, y.left, y.right, s);
  }

  lemma PrefixPop(emits: seq<Constraint>, z: Res)
    ensures PopOf(Prefix(emits, z)) == PopRes(Prefix(emits, PopOf(z).res), PopOf(z).popped)
  {
  }

  lemma AndBFirst(cx: Context, y: Term, w: Term, s: Stack)
    requires y.AndV?
    ensures Eval(cx, Term.AndV(y.left, Term.AndB(y.right, w)), s) == Eval(cx, Term.AndB(y, w), s)
  {
    EvalAndV(cx, y.left, Term.AndB(y.right, w), s);
    EvalAndV(cx, y.left, y.right, s);
    var x := Eval(cx, y.left, s);
    if x.out.Done? {
      EvalBoth(cx, Term.AndB(y, w), s);
      EvalBoth(cx, Term.AndB(y.right, w), x.out.stack);
      var z := Eval(cx, y.right, x.out.stack);
      PrefixPop(x.emits, z);
      var p := PopOf(z);
      if p.popped.Popped? {
        PrefixTwice(x.emits, z.emits, Combine(Term.AndB(y, w), p.popped.b, Eval(cx, w, p.popped.rest)));
      }
    }
  }

  ghost predicate Same(cx: Context, a: Term, b: Term) {
    forall s :: Eval(cx, a, s) == Eval(cx, b, s)
  }

  lemma {:induction false} MembersThresh(cx: Context, k: nat, xs: seq<Term>, ys: seq<Term>, i: nat, nSat: nat, s: Stack)
    requires 1 <= i <= |xs| == |ys| && forall j :: 0 <= j < |xs| ==> Same(cx, xs[j], ys[j])
    ensures EvalThresh(cx, k, xs, i, nSat, s) == EvalThresh(cx, k, ys, i, nSat, s)
    decreases |xs| - i
  {
    if i < |xs| {
      var p, next := PopBool(s), i + 1;
      EvalThreshStep(cx, k, xs, i, next, nSat, s);
      EvalThreshStep(cx, k, ys, i, next, nSat, s);
      if p.Popped? {
        assert Same(cx, xs[i], ys[i]);
        var x := Eval(cx, xs[i], p.rest);
        if x.out.Done? { MembersThresh(cx, k, xs, ys, next, Bump(nSat, p.b), x.out.stack); }
      }
    }
  }

  lemma SameMembers(cx: Context, t: Term, u: Term, s: Stack)
    requires t.Thresh? && u.Thresh? && t.k == u.k && |t.subs| == |u.subs|
    requires forall j :: 0 <= j < |t.subs| ==> Same(cx, t.subs[j], u.subs[j])
    ensures Eval(cx, t, s) == Eval(cx, u, s)
  {
    if t.subs != [] {
      assert Same(cx, t.subs[0], u.subs[0]);
      var x := Eval(cx, t.subs[0], s);
      if x.out.Done? { MembersThresh(cx, t.k, t.subs, u.subs, 1, 0, x.out.stack); }
    }
  }

  lemma SameUnary(cx: Context, t: Term, u: Term, s: Stack)
    requires IsUnary(t) && IsUnary(u) && Same(cx, t.sub, u.sub)
    requires u == t.(sub := u.sub)
    ensures Eval(cx, t, s) == Eval(cx, u, s)
  {
  }

  lemma SameAndV(cx: Context, l: Term, r: Term, l': Term, r': Term, s: Stack)
    requires Eval(cx, l, s) == Eval(cx, l', s)
    requires var x := Eval(cx, l, s).out; x.Done? ==> Eval(cx, r, x.stack) == Eval(cx, r', x.stack)
    ensures Eval(cx, Term.AndV(l, r), s) == Eval(cx, Term.AndV(l', r'), s)
  {
  }

  lemma SameAndB(cx: Context, l: Term, r: Term, l': Term, r': Term, s: Stack)
    requires Eval(cx, l, s) == Eval(cx, l', s)
    requires var p := PopOf(Eval(cx, l, s)).popped; p.Popped? ==> Eval(cx, r, p.rest) == Eval(cx, r', p.rest)
    ensures Eval(cx, Term.AndB(l, r), s) == Eval(cx, Term.AndB(l', r'), s)
  {
    EvalBoth(cx, Term.AndB(l, r), s);
    EvalBoth(cx, Term.AndB(l', r'), s);
  }

  lemma SameOrB(cx: Context, l: Term, r: Term, l': Term, r': Term, s: Stack)
    requires Eval(cx, l, s) == Eval(cx, l', s)
    requires var p := PopOf(Eval(cx, l, s)).popped; p.Popped? ==> Eval(cx, r, p.rest) == Eval(cx, r', p.rest)
    ensures Eval(cx, Term.OrB(l, r), s) == Eval(cx, Term.OrB(l', r'), s)
  {
    EvalBoth(cx, Term.OrB(l, r), s);
    EvalBoth(cx, Term.OrB(l', r'), s);
  }

  lemma SameOrD(cx: Context, l: Term, r: Term, l': Term, r': Term, s: Stack)
    requires Eval(cx, l, s) == Eval(cx, l', s)
    requires var p := PopOf(Eval(cx, l, s)).popped; p.Popped? ==> Eval(cx, r, p.rest) == Eval(cx, r', p.rest)
    ensures Eval(cx, Term.OrD(l, r), s) == Eval(cx, Term.OrD(l', r'), s)
  {
  }

  lemma SameOrC(cx: Context, l: Term, r: Term, l': Term, r': Term, s: Stack)
    requires Eval(cx, l, s) == Eval(cx, l', s)
    requires var p := PopOf(Eval(cx, l, s)).popped; p.Popped? ==> Eval(cx, r, p.rest) == Eval(cx, r', p.rest)
    ensures Eval(cx, Term.OrC(l, r), s) == Eval(cx, Term.OrC(l', r'), s)
  {
  }

  lemma {:induction false} CanonSame(cx: Context, t: Term)
    ensures Same(cx, Canon(cx.env, t), t)
    decreases t, 2
  {
    forall s
      ensures Eval(cx, Canon(cx.env, t), s) == Eval(cx, t, s)
    {
      CanonEval(cx, t, s);
    }
  }

  lemma {:induction false} CanonUnary(cx: Context, t: Term, s: Stack)
    requires IsUnary(t)
    ensures Eval(cx, Canon(cx.env, t), s) == Eval(cx, t, s)
    decreases t, 0
  {
    CanonSame(cx, t.sub);
    var y := Canon(cx.env, t.sub);
    SameUnary(cx, t, t.(sub := y), s);
    if y.AndV? {
      if t.Check? { CheckedEval(cx, y, s); }
      if t.Verify? { VerifiedEval(cx, y, s); }
      if t.ZeroNotEqual? { NonZeroEval(cx, y, s); }
    }
  }

  lemma {:induction false} CanonOrI(cx: Context, t: Term, s: Stack)
    requires t.OrI?
    ensures Eval(cx, Canon(cx.env, t), s) == Eval(cx, t, s)
    decreases t, 0
  {
    var p := PopBool(s);
    if p.Popped? { CanonEval(cx, if p.b then t.left else t.right, p.rest); }
  }

  lemma {:induction false} CanonAndV(cx: Context, t: Term, s: Stack)
    requires t.AndV?
    ensures Eval(cx, Canon(cx.env, t), s) == Eval(cx, t, s)
    decreases t, 0
  {
    var l, r := Canon(cx.env, t.left), Canon(cx.env, t.right);
    CanonEval(cx, t.left, s);
    var x := Eval(cx, t.left, s).out;
    if x.Done? { CanonEval(cx, t.right, x.stack); }
    JoinVEval(cx, l, r, s);
    SameAndV(cx, l, r, t.left, t.right, s);
  }

  lemma CanonAndB(cx: Context, t: Term, l: Term, r: Term, s: Stack)
    requires t.AndB? && l == Canon(cx.env, t.left) && r == Canon(cx.env, t.right)
    requires Eval(cx, Term.AndB(l, r), s) == Eval(cx, t, s)
    ensures Eval(cx, Canon(cx.env, t), s) == Eval(cx, t, s)
  {
    if l.AndV? { AndBFirst(cx, l, r, s); }
  }

  lemma CanonOr(cx: Context, t: Term, l: Term, r: Term)
    requires (t.OrB? || t.OrD? || t.OrC?) && l == Canon(cx.env, t.left) && r == Canon(cx.env, t.right)
    ensures Canon(cx.env, t) == t.(left := l, right := r)
  {
  }

  lemma {:induction false} CanonPair(cx: Context, t: Term, s: Stack)
    requires t.AndB? || t.OrB? || t.OrD? || t.OrC?
    ensures Eval(cx, Canon(cx.env, t), s) == Eval(cx, t, s)
    decreases t, 0
  {
    var l, r := Canon(cx.env, t.left), Canon(cx.env, t.right);
    CanonEval(cx, t.left, s);
    var p := PopOf(Eval(cx, t.left, s)).popped;
    if p.Popped? { CanonEval(cx, t.right, p.rest); }
    if t.AndB? {
      SameAndB(cx, l, r, t.left, t.right, s);
      CanonAndB(cx, t, l, r, s);
    } else {
      CanonOr(cx, t, l, r);
      if t.OrB? {
        SameOrB(cx, l, r, t.left, t.right, s);
      } else if t.OrD? {
        SameOrD(cx, l, r, t.left, t.right, s);
      } else {
        SameOrC(cx, l, r, t.left, t.right, s);
      }
    }
  }

  /** The same constraints, the same stack or the same error: on every stack and
      for every transaction, whatever the term's type. */
  lemma {:induction false} CanonEval(cx: Context, t: Term, s: Stack)
    ensures Eval(cx, Canon(cx.env, t), s) == Eval(cx, t, s)
    decreases t, 1
  {
    if IsUnary(t) {
      CanonUnary(cx, t, s);
    } else if t.AndOr? {
      CanonSame(cx, t.a);
      CanonSame(cx, t.b);
      CanonSame(cx, t.c);
    } else if t.Thresh? {
      forall i | 0 <= i < |t.subs|
        ensures Same(cx, Canon(cx.env, t).subs[i], t.subs[i])
      {
        CanonSame(cx, t.subs[i]);
      }
      SameMembers(cx, Canon(cx.env, t), t, s);
    } else if t.AndV? {
      CanonAndV(cx, t, s);
    } else if t.OrI? {
      CanonOrI(cx, t, s);
    } else if !IsLeaf(t) {
      CanonPair(cx, t, s);
    }
  }
}
