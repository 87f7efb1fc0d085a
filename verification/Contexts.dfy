/** How the interpreter's result depends on what it is told about the
    transaction: the optional BIP 119 template hash and the lock times. */
module Contexts {
  import opened Bytes
  import opened Terms
  import opened Interp

  /** The same transaction without the optional template hash. */
  function Without(cx: Context): Context { cx.(txTemplate := None) }

  predicate TemplateFree(emits: seq<Constraint>) {
    forall i :: 0 <= i < |emits| ==> !emits[i].SatTemplate?
  }

  /** The constraints before the first one on the template. */
  function Before(emits: seq<Constraint>): seq<Constraint> {
    if emits == [] || emits[0].SatTemplate? then [] else [emits[0]] + Before(emits[1..])
  }

  /** A result that ends at its first constraint on the template. */
  function Cut(r: Res): Res {
    if TemplateFree(r.emits) then r else Res(Before(r.emits), Failed(TxTemplateHashWrong))
  }

  lemma FreeBoth(a: seq<Constraint>, b: seq<Constraint>)
    requires TemplateFree(a)
    ensures TemplateFree(a + b) <==> TemplateFree(b)
  {
    if TemplateFree(a + b) {
      assert forall i :: 0 <= i < |b| ==> b[i] == (a + b)[|a| + i];
    }
  }

  lemma {:induction false} BeforeShort(a: seq<Constraint>, b: seq<Constraint>)
    requires TemplateFree(a)
    ensures Before(a + b) == a + Before(b)
    decreases |a|
  {
    if a == [] {
      assert a + b == b;
    } else {
      var rest := a[1..];
      BeforeShort(rest, b);
      assert (a + b)[1..] == rest + b;
      assert [a[0]] + (rest + Before(b)) == a + Before(b);
    }
  }

  lemma {:induction false} BeforeLong(a: seq<Constraint>, b: seq<Constraint>)
    requires !TemplateFree(a)
    ensures Before(a + b) == Before(a) && !TemplateFree(a + b)
    decreases |a|
  {
    var i :| 0 <= i < |a| && a[i].SatTemplate?;
    assert (a + b)[i] == a[i] && (a + b)[0] == a[0];
    if !a[0].SatTemplate? {
      assert a[1..][i - 1] == a[i];
      BeforeLong(a[1..], b);
      assert (a + b)[1..] == a[1..] + b;
    }
  }

  /** A run that goes on after a run that may have been cut. */
  lemma CutPrefix(emits: seq<Constraint>, r: Res)
    ensures TemplateFree(emits) ==> Cut(Prefix(emits, r)) == Prefix(emits, Cut(r))
    ensures !TemplateFree(emits) ==> Cut(Prefix(emits, r)) == Res(Before(emits), Failed(TxTemplateHashWrong))
  {
    if TemplateFree(emits) { BeforeShort(emits, r.emits); FreeBoth(emits, r.emits); } else { BeforeLong(emits, r.emits); }
  }

  // ----- leaves -----

  lemma CutLeaf(cx: Context, t: Term, s: Stack)
    requires IsSimpleLeaf(t)
    ensures OfReply(EvalLeaf(Without(cx), t, s)) == Cut(OfReply(EvalLeaf(cx, t, s)))
  {
    var r := OfReply(EvalLeaf(cx, t, s));
    if t.TxTemplate? {
      assert Before([SatTemplate(t.image)]) == [];
      if cx.txTemplate == Some(t.image) { assert r.emits[0].SatTemplate?; }
    } else {
      assert EvalLeaf(Without(cx), t, s) == EvalLeaf(cx, t, s);
    }
  }

  lemma {:induction false} CutMulti(cx: Context, t: Term, nEval: nat, nSat: nat, s: Stack)
    requires (t.Multi? || t.MultiA?) && nEval <= |t.keys|
    ensures EvalMulti(Without(cx), t, nEval, nSat, s) == EvalMulti(cx, t, nEval, nSat, s)
    ensures TemplateFree(EvalMulti(cx, t, nEval, nSat, s).emits)
    decreases |t.keys| - nEval
  {
    var m := MultiVisit(cx, t, nEval, nSat, s);
    assert MultiVisit(Without(cx), t, nEval, nSat, s) == m;
    if m.NextKey? {
      CutMulti(cx, t, nEval + 1, m.nSat, m.stack);
      assert TemplateFree(Emitted(m.reply));
    }
  }

  // ----- composite terms -----

  lemma CutPop(x: Res)
    ensures TemplateFree(x.emits) ==> PopOf(Cut(x)) == PopOf(x)
    ensures !TemplateFree(x.emits) ==> PopOf(Cut(x)).popped.NotBool? && PopOf(Cut(x)).res == Cut(x)
    ensures PopOf(x).res.emits == x.emits
  {
  }

  lemma {:induction false} CutUnary(cx: Context, t: Term, s: Stack)
    requires IsUnary(t) && forall u :: Eval(Without(cx), t.sub, u) == Cut(Eval(cx, t.sub, u))
    ensures Eval(Without(cx), t, s) == Cut(Eval(cx, t, s))
  {
    if t.DupIf? {
      var p := PopBool(s);
      if p.Popped? && p.b { assert Eval(Without(cx), t.sub, p.rest) == Cut(Eval(cx, t.sub, p.rest)); }
    } else {
      assert Eval(Without(cx), t.sub, s) == Cut(Eval(cx, t.sub, s));
    }
  }

  lemma {:induction false} CutAndV(cx: Context, t: Term, s: Stack)
    requires t.AndV? && Eval(Without(cx), t.left, s) == Cut(Eval(cx, t.left, s))
    requires forall u :: Eval(Without(cx), t.right, u) == Cut(Eval(cx, t.right, u))
    ensures Eval(Without(cx), t, s) == Cut(Eval(cx, t, s))
  {
    var x := Eval(cx, t.left, s);
    if x.out.Done? { CutPrefix(x.emits, Eval(cx, t.right, x.out.stack)); }
  }

  /** The last step of `and_b` or `or_b`, on what the right operand leaves. */
  function Combine(t: Term, b: bool, y: Res): Res
    requires t.AndB? || t.OrB?
  {
    var n := if b then 1 else 0;
    if y.out.Failed? then y
    else Res(y.emits, if t.AndB? then AfterAndB(n, y.out.stack) else AfterOrB(n, y.out.stack))
  }

  lemma EvalBoth(cx: Context, t: Term, s: Stack)
    requires t.AndB? || t.OrB?
    ensures var p := PopOf(Eval(cx, t.left, s));
            Eval(cx, t, s) ==
            if p.popped.NotBool? then p.res
            else Prefix(p.res.emits, Combine(t, p.popped.b, Eval(cx, t.right, p.popped.rest)))
  {
  }

  lemma CutCombine(t: Term, b: bool, y: Res)
    requires t.AndB? || t.OrB?
    ensures Combine(t, b, Cut(y)) == Cut(Combine(t, b, y))
  {
  }

  lemma {:induction false} CutBoth(cx: Context, t: Term, s: Stack)
    requires (t.AndB? || t.OrB?) && Eval(Without(cx), t.left, s) == Cut(Eval(cx, t.left, s))
    requires forall u :: Eval(Without(cx), t.right, u) == Cut(Eval(cx, t.right, u))
    ensures Eval(Without(cx), t, s) == Cut(Eval(cx, t, s))
  {
    EvalBoth(cx, t, s);
    EvalBoth(Without(cx), t, s);
    var x := Eval(cx, t.left, s);
    CutPop(x);
    var p := PopOf(x).popped;
    if p.Popped? {
      var y := Eval(cx, t.right, p.rest);
      CutCombine(t, p.b, y);
      CutPrefix(x.emits, Combine(t, p.b, y));
    }
  }

  lemma {:induction false} CutAndOr(cx: Context, t: Term, s: Stack)
    requires t.AndOr? && Eval(Without(cx), t.a, s) == Cut(Eval(cx, t.a, s))
    requires forall u :: Eval(Without(cx), t.b, u) == Cut(Eval(cx, t.b, u))
    requires forall u :: Eval(Without(cx), t.c, u) == Cut(Eval(cx, t.c, u))
    ensures Eval(Without(cx), t, s) == Cut(Eval(cx, t, s))
  {
    var x := Eval(cx, t.a, s);
    CutPop(x);
    var p := PopOf(x).popped;
    if p.Popped? { CutPrefix(x.emits, Eval(cx, if p.b then t.b else t.c, p.rest)); }
  }

  lemma {:induction false} CutOrElse(cx: Context, t: Term, s: Stack)
    requires (t.OrD? || t.OrC?) && Eval(Without(cx), t.left, s) == Cut(Eval(cx, t.left, s))
    requires forall u :: Eval(Without(cx), t.right, u) == Cut(Eval(cx, t.right, u))
    ensures Eval(Without(cx), t, s) == Cut(Eval(cx, t, s))
  {
    var x := Eval(cx, t.left, s);
    CutPop(x);
    var p := PopOf(x).popped;
    if p.Popped? && !p.b { CutPrefix(x.emits, Eval(cx, t.right, p.rest)); }
  }

  lemma {:induction false} CutOrI(cx: Context, t: Term, s: Stack)
    requires t.OrI? && forall u :: Eval(Without(cx), t.left, u) == Cut(Eval(cx, t.left, u))
    requires forall u :: Eval(Without(cx), t.right, u) == Cut(Eval(cx, t.right, u))
    ensures Eval(Without(cx), t, s) == Cut(Eval(cx, t, s))
  {
  }

  lemma {:induction false} CutThreshLoop(cx: Context, k: nat, subs: seq<Term>, i: nat, nSat: nat, s: Stack)
    requires 1 <= i <= |subs|
    ensures EvalThresh(Without(cx), k, subs, i, nSat, s) == Cut(EvalThresh(cx, k, subs, i, nSat, s))
    decreases subs, 0, |subs| - i
  {
    var p := PopBool(s);
    if i < |subs| {
      var next := i + 1;
      EvalThreshStep(cx, k, subs, i, next, nSat, s);
      EvalThreshStep(Without(cx), k, subs, i, next, nSat, s);
      if p.Popped? {
        CutEval(cx, subs[i], p.rest);
        var x := Eval(cx, subs[i], p.rest);
        if x.out.Done? {
          CutThreshLoop(cx, k, subs, next, Bump(nSat, p.b), x.out.stack);
          CutPrefix(x.emits, EvalThresh(cx, k, subs, next, Bump(nSat, p.b), x.out.stack));
        }
      }
    }
  }

  lemma {:induction false} CutThresh(cx: Context, t: Term, s: Stack)
    requires t.Thresh?
    ensures Eval(Without(cx), t, s) == Cut(Eval(cx, t, s))
    decreases t, 0
  {
    if t.subs != [] {
      CutEval(cx, t.subs[0], s);
      var x := Eval(cx, t.subs[0], s);
      if x.out.Done? {
        CutThreshLoop(cx, t.k, t.subs, 1, 0, x.out.stack);
        CutPrefix(x.emits, EvalThresh(cx, t.k, t.subs, 1, 0, x.out.stack));
      }
    }
  }

  lemma {:induction false} CutAlways(cx: Context, t: Term)
    ensures forall u :: Eval(Without(cx), t, u) == Cut(Eval(cx, t, u))
    decreases t, 2
  {
    forall u
      ensures Eval(Without(cx), t, u) == Cut(Eval(cx, t, u))
    {
      CutEval(cx, t, u);
    }
  }

  /** Without the template hash a run is the run with it, cut off where it first
      reports the template. */
  lemma {:induction false} CutEval(cx: Context, t: Term, s: Stack)
    ensures Eval(Without(cx), t, s) == Cut(Eval(cx, t, s))
    decreases t, 1
  {
    if IsSimpleLeaf(t) {
      CutLeaf(cx, t, s);
    } else if t.Multi? || t.MultiA? {
      CutMulti(cx, t, 0, 0, s);
    } else if IsUnary(t) {
      CutAlways(cx, t.sub);
      CutUnary(cx, t, s);
    } else if t.AndOr? {
      CutEval(cx, t.a, s);
      CutAlways(cx, t.b);
      CutAlways(cx, t.c);
      CutAndOr(cx, t, s);
    } else if t.Thresh? {
      CutThresh(cx, t, s);
    } else {
      CutPair(cx, t, s);
    }
  }

  lemma {:induction false} CutPair(cx: Context, t: Term, s: Stack)
    requires t.AndV? || t.AndB? || t.OrB? || t.OrD? || t.OrC? || t.OrI?
    ensures Eval(Without(cx), t, s) == Cut(Eval(cx, t, s))
    decreases t, 0
  {
    CutEval(cx, t.left, s);
    CutAlways(cx, t.left);
    CutAlways(cx, t.right);
    if t.AndV? {
      CutAndV(cx, t, s);
    } else if t.AndB? || t.OrB? {
      CutBoth(cx, t, s);
    } else if t.OrI? {
      CutOrI(cx, t, s);
    } else {
      CutOrElse(cx, t, s);
    }
  }

  // ----- terms without templates -----

  predicate Mentions(t: Term) {
    match t
    case TxTemplate(_) => true
    case InscribePre(_, x) => Mentions(x)
    case InscribePost(_, x) => Mentions(x)
    case Alt(x) => Mentions(x)
    case Swap(x) => Mentions(x)
    case Check(x) => Mentions(x)
    case DupIf(x) => Mentions(x)
    case Verify(x) => Mentions(x)
    case NonZero(x) => Mentions(x)
    case ZeroNotEqual(x) => Mentions(x)
    case AndV(l, r) => Mentions(l) || Mentions(r)
    case AndB(l, r) => Mentions(l) || Mentions(r)
    case OrB(l, r) => Mentions(l) || Mentions(r)
    case OrD(l, r) => Mentions(l) || Mentions(r)
    case OrC(l, r) => Mentions(l) || Mentions(r)
    case OrI(l, r) => Mentions(l) || Mentions(r)
    case AndOr(a, b, c) => Mentions(a) || Mentions(b) || Mentions(c)
    case Thresh(_, subs) => exists i :: 0 <= i < |subs| && Mentions(subs[i])
    case _ => false
  }

  lemma {:induction false} SameMulti(a: Context, b: Context, t: Term, nEval: nat, nSat: nat, s: Stack)
    requires a.env == b.env && (t.Multi? || t.MultiA?) && nEval <= |t.keys|
    ensures EvalMulti(a, t, nEval, nSat, s) == EvalMulti(b, t, nEval, nSat, s)
    decreases |t.keys| - nEval
  {
    var m := MultiVisit(a, t, nEval, nSat, s);
    assert MultiVisit(b, t, nEval, nSat, s) == m;
    if m.NextKey? { SameMulti(a, b, t, nEval + 1, m.nSat, m.stack); }
  }

  lemma {:induction false} SameThresh(a: Context, b: Context, k: nat, subs: seq<Term>, i: nat, nSat: nat, s: Stack)
    requires a.env == b.env && 1 <= i <= |subs| && forall j :: 0 <= j < |subs| ==> !Mentions(subs[j])
    ensures EvalThresh(a, k, subs, i, nSat, s) == EvalThresh(b, k, subs, i, nSat, s)
    decreases subs, 0, |subs| - i
  {
    var p := PopBool(s);
    if i < |subs| {
      var next := i + 1;
      EvalThreshStep(a, k, subs, i, next, nSat, s);
      EvalThreshStep(b, k, subs, i, next, nSat, s);
      if p.Popped? {
        SameEval(a, b, subs[i], p.rest);
        var x := Eval(a, subs[i], p.rest);
        if x.out.Done? { SameThresh(a, b, k, subs, next, Bump(nSat, p.b), x.out.stack); }
      }
    }
  }

  lemma {:induction false} SameAlways(a: Context, b: Context, t: Term)
    requires a.env == b.env && !Mentions(t)
    ensures forall u :: Eval(a, t, u) == Eval(b, t, u)
    decreases t, 2
  {
    forall u
      ensures Eval(a, t, u) == Eval(b, t, u)
    {
      SameEval(a, b, t, u);
    }
  }

  lemma {:induction false} SamePair(a: Context, b: Context, t: Term, s: Stack)
    requires a.env == b.env && !Mentions(t)
    requires t.AndV? || t.AndB? || t.OrB? || t.OrD? || t.OrC? || t.OrI?
    ensures Eval(a, t, s) == Eval(b, t, s)
    decreases t, 0
  {
    SameAlways(a, b, t.left);
    SameAlways(a, b, t.right);
  }

  /** Terms without a template are evaluated alike, whatever the template is. */
  lemma {:induction false} SameEval(a: Context, b: Context, t: Term, s: Stack)
    requires a.env == b.env && !Mentions(t)
    ensures Eval(a, t, s) == Eval(b, t, s)
    decreases t, 1
  {
    if IsSimpleLeaf(t) {
      assert EvalLeaf(a, t, s) == EvalLeaf(b, t, s);
    } else if t.Multi? || t.MultiA? {
      SameMulti(a, b, t, 0, 0, s);
    } else if IsUnary(t) {
      SameAlways(a, b, t.sub);
    } else if t.AndOr? {
      SameAlways(a, b, t.a);
      SameAlways(a, b, t.b);
      SameAlways(a, b, t.c);
    } else if t.Thresh? {
      if t.subs != [] {
        SameEval(a, b, t.subs[0], s);
        var x := Eval(a, t.subs[0], s);
        if x.out.Done? { SameThresh(a, b, t.k, t.subs, 1, 0, x.out.stack); }
      }
    } else {
      SamePair(a, b, t, s);
    }
  }

  // ----- more lenient contexts -----

  /** Whatever `a` finds satisfied, `b` finds satisfied too; lock times are those
      that terms can hold. */
  ghost predicate Lenient(a: Context, b: Context) {
    && a.env.keyOk == b.env.keyOk && a.env.sigOk == b.env.sigOk && a.env.hash == b.env.hash
    && (a.txTemplate == None || a.txTemplate == b.txTemplate)
    && (forall n: nat :: ValidAfter(n) && EvalAfter(a, n, []).0.Emit? ==> EvalAfter(b, n, []).0.Emit?)
    && (forall n: nat :: ValidOlder(n) && EvalOlder(a, n, []).0.Emit? ==> EvalOlder(b, n, []).0.Emit?)
  }

  lemma LenientLeaf(a: Context, b: Context, t: Term, s: Stack)
    requires Lenient(a, b) && WellFormed(a.env, t) && IsSimpleLeaf(t) && !EvalLeaf(a, t, s).0.Fail?
    ensures EvalLeaf(b, t, s) == EvalLeaf(a, t, s)
  {
    if t.After? {
      assert EvalAfter(a, t.n, []).0.Emit?;
    } else if t.Older? {
      assert EvalOlder(a, t.n, []).0.Emit?;
    }
  }

  lemma {:induction false} LenientMulti(a: Context, b: Context, t: Term, nEval: nat, nSat: nat, s: Stack)
    requires Lenient(a, b) && (t.Multi? || t.MultiA?) && nEval <= |t.keys|
    ensures EvalMulti(a, t, nEval, nSat, s) == EvalMulti(b, t, nEval, nSat, s)
    decreases |t.keys| - nEval
  {
    var m := MultiVisit(a, t, nEval, nSat, s);
    assert MultiVisit(b, t, nEval, nSat, s) == m;
    if m.NextKey? { LenientMulti(a, b, t, nEval + 1, m.nSat, m.stack); }
  }

  ghost predicate Follows(a: Context, b: Context, t: Term, s: Stack) {
    Eval(a, t, s).out.Done? ==> Eval(b, t, s) == Eval(a, t, s)
  }

  lemma {:induction false} LenientThresh(a: Context, b: Context, k: nat, subs: seq<Term>, i: nat, nSat: nat, s: Stack)
    requires Lenient(a, b) && 1 <= i <= |subs| && forall j :: 0 <= j < |subs| ==> WellFormed(a.env, subs[j])
    ensures EvalThresh(a, k, subs, i, nSat, s).out.Done? ==>
              EvalThresh(b, k, subs, i, nSat, s) == EvalThresh(a, k, subs, i, nSat, s)
    decreases subs, 0, |subs| - i
  {
    var p := PopBool(s);
    if i < |subs| {
      var next := i + 1;
      EvalThreshStep(a, k, subs, i, next, nSat, s);
      EvalThreshStep(b, k, subs, i, next, nSat, s);
      if p.Popped? {
        LenientEval(a, b, subs[i], p.rest);
        var x := Eval(a, subs[i], p.rest);
        if x.out.Done? { LenientThresh(a, b, k, subs, next, Bump(nSat, p.b), x.out.stack); }
      }
    }
  }

  lemma {:induction false} LenientAlways(a: Context, b: Context, t: Term)
    requires Lenient(a, b) && WellFormed(a.env, t)
    ensures forall u :: Follows(a, b, t, u)
    decreases t, 2
  {
    forall u
      ensures Follows(a, b, t, u)
    {
      LenientEval(a, b, t, u);
    }
  }

  lemma FollowsAndV(a: Context, b: Context, t: Term, s: Stack)
    requires t.AndV? && Follows(a, b, t.left, s) && forall u :: Follows(a, b, t.right, u)
    ensures Follows(a, b, t, s)
  {
    var x := Eval(a, t.left, s);
    if x.out.Done? { assert Follows(a, b, t.right, x.out.stack); }
  }

  lemma FollowsBoth(a: Context, b: Context, t: Term, s: Stack)
    requires (t.AndB? || t.OrB?) && Follows(a, b, t.left, s) && forall u :: Follows(a, b, t.right, u)
    ensures Follows(a, b, t, s)
  {
    var x := PopOf(Eval(a, t.left, s)).popped;
    if x.Popped? { assert Follows(a, b, t.right, x.rest); }
  }

  lemma FollowsOrI(a: Context, b: Context, t: Term, s: Stack)
    requires t.OrI? && (forall u :: Follows(a, b, t.left, u)) && (forall u :: Follows(a, b, t.right, u))
    ensures Follows(a, b, t, s)
  {
    var p := PopBool(s);
    if p.Popped? { assert Follows(a, b, if p.b then t.left else t.right, p.rest); }
  }

  lemma FollowsChoice(a: Context, b: Context, t: Term, first: Term, s: Stack)
    requires (t.AndOr? && first == t.a) || ((t.OrD? || t.OrC?) && first == t.left)
    requires forall u :: Follows(a, b, first, u)
    requires t.AndOr? ==> (forall u :: Follows(a, b, t.b, u)) && (forall u :: Follows(a, b, t.c, u))
    requires !t.AndOr? ==> forall u :: Follows(a, b, t.right, u)
    ensures Follows(a, b, t, s)
  {
    var x := Eval(a, first, s);
    assert Follows(a, b, first, s);
    var p := PopOf(x).popped;
    if x.out.Done? && p.Popped? && (t.AndOr? || !p.b) {
      assert Follows(a, b, if !t.AndOr? then t.right else if p.b then t.b else t.c, p.rest);
    }
  }

  lemma FollowsUnary(a: Context, b: Context, t: Term, s: Stack)
    requires IsUnary(t) && forall u :: Follows(a, b, t.sub, u)
    ensures Follows(a, b, t, s)
  {
    assert Follows(a, b, t.sub, s);
    if t.DupIf? && PopBool(s).Popped? { assert Follows(a, b, t.sub, PopBool(s).rest); }
  }

  /** A run that ends without an error ends the same in a more lenient context. */
  lemma {:induction false} LenientEval(a: Context, b: Context, t: Term, s: Stack)
    requires Lenient(a, b) && WellFormed(a.env, t)
    ensures Follows(a, b, t, s)
    decreases t, 1
  {
    if IsSimpleLeaf(t) {
      if !EvalLeaf(a, t, s).0.Fail? { LenientLeaf(a, b, t, s); }
    } else if t.Multi? || t.MultiA? {
      LenientMulti(a, b, t, 0, 0, s);
    } else if IsUnary(t) {
      LenientAlways(a, b, t.sub);
      FollowsUnary(a, b, t, s);
    } else if t.AndOr? {
      LenientAlways(a, b, t.a);
      LenientAlways(a, b, t.b);
      LenientAlways(a, b, t.c);
      FollowsChoice(a, b, t, t.a, s);
    } else if t.Thresh? {
      if t.subs != [] {
        LenientEval(a, b, t.subs[0], s);
        var x := Eval(a, t.subs[0], s);
        if x.out.Done? { LenientThresh(a, b, t.k, t.subs, 1, 0, x.out.stack); }
      }
    } else {
      LenientPair(a, b, t, s);
    }
  }

  lemma {:induction false} LenientPair(a: Context, b: Context, t: Term, s: Stack)
    requires Lenient(a, b) && WellFormed(a.env, t) && (t.AndV? || t.AndB? || t.OrB? || t.OrD? || t.OrC? || t.OrI?)
    ensures Follows(a, b, t, s)
    decreases t, 0
  {
    LenientAlways(a, b, t.left);
    LenientAlways(a, b, t.right);
    if t.OrD? || t.OrC? {
      FollowsChoice(a, b, t, t.left, s);
    } else if t.OrI? {
      FollowsOrI(a, b, t, s);
    } else if t.AndV? {
      FollowsAndV(a, b, t, s);
    } else {
      FollowsBoth(a, b, t, s);
    }
  }
}
