/** Comparing and hashing terms by their nodes in pre-order. */
module TermEquality {
  import opened Terms
  import opened Types
  import TreeIter

  type View = TreeIter.Tree<Term>

  /** A term as the iterators see it. */
  function ViewOf(t: Term): View
    decreases t, 1
  {
    TreeIter.Tree(t, AsNode(t))
  }

  function AsNode(t: Term): TreeIter.Shape<Term>
    decreases t, 0
  {
    match t
    case True | False => TreeIter.Nullary
    case PkK(_) | PkH(_) | RawPkH(_) | After(_) | Older(_) => TreeIter.Nullary
    case HashLock(_, _) | TxTemplate(_) | Multi(_, _) | MultiA(_, _) => TreeIter.Nullary
    case InscribePre(_, sub) => TreeIter.Unary(ViewOf(sub))
    case InscribePost(_, sub) => TreeIter.Unary(ViewOf(sub))
    case Alt(sub) => TreeIter.Unary(ViewOf(sub))
    case Swap(sub) => TreeIter.Unary(ViewOf(sub))
    case Check(sub) => TreeIter.Unary(ViewOf(sub))
    case DupIf(sub) => TreeIter.Unary(ViewOf(sub))
    case Verify(sub) => TreeIter.Unary(ViewOf(sub))
    case NonZero(sub) => TreeIter.Unary(ViewOf(sub))
    case ZeroNotEqual(sub) => TreeIter.Unary(ViewOf(sub))
    case AndV(left, right) => TreeIter.Binary(ViewOf(left), ViewOf(right))
    case AndB(left, right) => TreeIter.Binary(ViewOf(left), ViewOf(right))
    case OrB(left, right) => TreeIter.Binary(ViewOf(left), ViewOf(right))
    case OrD(left, right) => TreeIter.Binary(ViewOf(left), ViewOf(right))
    case OrC(left, right) => TreeIter.Binary(ViewOf(left), ViewOf(right))
    case OrI(left, right) => TreeIter.Binary(ViewOf(left), ViewOf(right))
    case AndOr(a, b, c) => TreeIter.Ternary(ViewOf(a), ViewOf(b), ViewOf(c))
    case Thresh(_, subs) => TreeIter.Nary(seq(|subs|, i requires 0 <= i < |subs| => ViewOf(subs[i])))
  }

  function PreOrder(t: Term): seq<Term> { TreeIter.Pre(ViewOf(t)) }

  // ----- nodes -----

  /** A node without its children: what kind it is, and its own data. */
  function Shell(t: Term): Term {
    match t
    case True | False => t
    case PkK(_) | PkH(_) | RawPkH(_) | After(_) | Older(_) => t
    case HashLock(_, _) | TxTemplate(_) | Multi(_, _) | MultiA(_, _) => t
    case InscribePre(ins, _) => Term.InscribePre(ins, True)
    case InscribePost(ins, _) => Term.InscribePost(ins, True)
    case Alt(_) => Term.Alt(True)
    case Swap(_) => Term.Swap(True)
    case Check(_) => Term.Check(True)
    case DupIf(_) => Term.DupIf(True)
    case Verify(_) => Term.Verify(True)
    case NonZero(_) => Term.NonZero(True)
    case ZeroNotEqual(_) => Term.ZeroNotEqual(True)
    case AndV(_, _) => Term.AndV(True, True)
    case AndB(_, _) => Term.AndB(True, True)
    case OrB(_, _) => Term.OrB(True, True)
    case OrD(_, _) => Term.OrD(True, True)
    case OrC(_, _) => Term.OrC(True, True)
    case OrI(_, _) => Term.OrI(True, True)
    case AndOr(_, _, _) => Term.AndOr(True, True, True)
    case Thresh(k, subs) => Term.Thresh(k, seq(|subs|, _ => True))
  }

  /** How two nodes are compared: by kind and data, but two thresholds by kind only. */
  predicate NodeEq(me: Term, you: Term) {
    match me
    case PkK(key) => you.PkK? && key == you.key
    case PkH(key) => you.PkH? && key == you.key
    case RawPkH(h) => you.RawPkH? && h == you.keyHash
    case After(n) => you.After? && n == you.n
    case Older(n) => you.Older? && n == you.n
    case HashLock(kind, h) => you.HashLock? && kind == you.kind && h == you.image
    case TxTemplate(h) => you.TxTemplate? && h == you.image
    case InscribePre(i, _) => you.InscribePre? && i == you.inscriptions
    case InscribePost(i, _) => you.InscribePost? && i == you.inscriptions
    case Multi(k, keys) => you.Multi? && k == you.k && keys == you.keys
    case MultiA(k, keys) => you.MultiA? && k == you.k && keys == you.keys
    case True => you.True?
    case False => you.False?
    case Alt(_) => you.Alt?
    case Swap(_) => you.Swap?
    case Check(_) => you.Check?
    case DupIf(_) => you.DupIf?
    case Verify(_) => you.Verify?
    case NonZero(_) => you.NonZero?
    case ZeroNotEqual(_) => you.ZeroNotEqual?
    case AndV(_, _) => you.AndV?
    case AndB(_, _) => you.AndB?
    case OrB(_, _) => you.OrB?
    case OrD(_, _) => you.OrD?
    case OrC(_, _) => you.OrC?
    case OrI(_, _) => you.OrI?
    case AndOr(_, _, _) => you.AndOr?
    case Thresh(_, _) => you.Thresh?
  }

  /** What the comparison of two thresholds leaves out. */
  predicate SameThresh(me: Term, you: Term) {
    me.Thresh? && you.Thresh? ==> me.k == you.k && |me.subs| == |you.subs|
  }

  lemma ThreshShells(me: Term, you: Term)
    requires me.Thresh? && you.Thresh?
    ensures Shell(me) == Shell(you) <==> me.k == you.k && |me.subs| == |you.subs|
  {
    var a, b := seq(|me.subs|, _ => True), seq(|you.subs|, _ => True);
    assert Shell(me) == Term.Thresh(me.k, a) && Shell(you) == Term.Thresh(you.k, b);
    assert |a| == |me.subs| && |b| == |you.subs|;
    if |me.subs| == |you.subs| { assert a == b; }
  }

  lemma LeafShells(me: Term, you: Term)
    requires IsLeaf(me)
    ensures Shell(me) == Shell(you) <==> NodeEq(me, you)
  {
  }

  lemma UnaryShells(me: Term, you: Term)
    requires IsUnary(me)
    ensures Shell(me) == Shell(you) <==> NodeEq(me, you)
  {
  }

  lemma WiderShells(me: Term, you: Term)
    requires !IsLeaf(me) && !IsUnary(me) && !me.Thresh?
    ensures Shell(me) == Shell(you) <==> NodeEq(me, you)
  {
  }

  lemma NodesSame(me: Term, you: Term)
    ensures Shell(me) == Shell(you) <==> NodeEq(me, you) && SameThresh(me, you)
  {
    if IsLeaf(me) {
      LeafShells(me, you);
    } else if IsUnary(me) {
      UnaryShells(me, you);
    } else if !me.Thresh? {
      WiderShells(me, you);
    } else if you.Thresh? {
      ThreshShells(me, you);
    }
  }

  /** The children of a term. */
  function Subs(t: Term): seq<Term> {
    if IsLeaf(t) then []
    else if IsUnary(t) then [t.sub]
    else if t.AndOr? then [t.a, t.b, t.c]
    else if t.Thresh? then t.subs
    else [t.left, t.right]
  }

  function Views(ts: seq<Term>): seq<View> { seq(|ts|, i requires 0 <= i < |ts| => ViewOf(ts[i])) }

  lemma KidsOfView(t: Term)
    ensures TreeIter.Kids(ViewOf(t)) == Views(Subs(t)) && ViewOf(t).elem == t
  {
  }

  lemma ShellSubs(t: Term, u: Term)
    requires Shell(t) == Shell(u)
    ensures |Subs(t)| == |Subs(u)|
  {
    NodesSame(t, u);
  }

  /** A node and its children make the term. */
  lemma Reassembled(t: Term, u: Term)
    requires Shell(t) == Shell(u) && Subs(t) == Subs(u)
    ensures t == u
  {
    NodesSame(t, u);
    if IsUnary(t) {
      assert Subs(t)[0] == Subs(u)[0];
    } else if t.AndOr? {
      assert Subs(t)[0] == Subs(u)[0] && Subs(t)[1] == Subs(u)[1] && Subs(t)[2] == Subs(u)[2];
    } else if !IsLeaf(t) && !t.Thresh? {
      assert Subs(t)[0] == Subs(u)[0] && Subs(t)[1] == Subs(u)[1];
    }
  }

  // ----- pre-order sequences are prefix-free -----

  function Shorter(xs: seq<Term>, ys: seq<Term>): nat { if |xs| < |ys| then |xs| else |ys| }

  /** The nodes agree as far as both sequences go. */
  predicate ZipSame(xs: seq<Term>, ys: seq<Term>) {
    forall i :: 0 <= i < Shorter(xs, ys) ==> Shell(xs[i]) == Shell(ys[i])
  }

  function PreForest(ts: seq<Term>): seq<Term> { TreeIter.PreAll(Views(ts)) }

  lemma ForestOpens(t: Term, more: seq<Term>)
    ensures PreForest([t] + more) == [t] + PreForest(Subs(t) + more)
    ensures TreeIter.CountAll(Views(Subs(t) + more)) < TreeIter.CountAll(Views([t] + more))
  {
    KidsOfView(t);
    assert Views([t] + more) == [ViewOf(t)] + Views(more) && Views(Subs(t) + more) == Views(Subs(t)) + Views(more);
    TreeIter.PreOpens(ViewOf(t), Views(more));
    TreeIter.CountFirst(ViewOf(t), Views(more));
    TreeIter.CountConcat(Views(Subs(t)), Views(more));
    TreeIter.CountKids(ViewOf(t));
  }

  lemma SplitEqual(a: seq<Term>, b: seq<Term>, c: seq<Term>, d: seq<Term>)
    requires |a| == |c| && a + b == c + d
    ensures a == c && b == d
  {
    assert a == (a + b)[..|a|] && b == (a + b)[|a|..];
  }

  lemma {:induction false} ForestDecides(xs: seq<Term>, ys: seq<Term>)
    requires |xs| == |ys| && ZipSame(PreForest(xs), PreForest(ys))
    ensures xs == ys
    decreases TreeIter.CountAll(Views(xs))
  {
    if xs != [] {
      var x, y, xt, yt := xs[0], ys[0], xs[1..], ys[1..];
      assert xs == [x] + xt && ys == [y] + yt;
      ForestOpens(x, xt);
      ForestOpens(y, yt);
      ZipRest(x, PreForest(Subs(x) + xt), y, PreForest(Subs(y) + yt));
      ShellSubs(x, y);
      ForestDecides(Subs(x) + xt, Subs(y) + yt);
      SplitEqual(Subs(x), xt, Subs(y), yt);
      Reassembled(x, y);
    }
  }

  lemma ZipRest(x: Term, a: seq<Term>, y: Term, b: seq<Term>)
    requires ZipSame([x] + a, [y] + b)
    ensures Shell(x) == Shell(y) && ZipSame(a, b)
  {
    var l, r := [x] + a, [y] + b;
    assert Shell(l[0]) == Shell(r[0]);
    forall i | 0 <= i < Shorter(a, b)
      ensures Shell(a[i]) == Shell(b[i])
    {
      assert Shell(l[i + 1]) == Shell(r[i + 1]);
    }
  }

  lemma TermDecides(t: Term, u: Term)
    requires ZipSame(PreOrder(t), PreOrder(u))
    ensures t == u
  {
    assert Views([t]) == [ViewOf(t)] && Views([u]) == [ViewOf(u)];
    assert TreeIter.PreAll([ViewOf(t)]) == PreOrder(t) + [] && TreeIter.PreAll([ViewOf(u)]) == PreOrder(u) + [] by {
      assert [ViewOf(t)][1..] == [] && [ViewOf(u)][1..] == [];
    }
    assert PreOrder(t) + [] == PreOrder(t) && PreOrder(u) + [] == PreOrder(u);
    ForestDecides([t], [u]);
    assert [t][0] == [u][0];
  }

  // ----- equality -----

  /** The nodes are equal as far as both sequences go. */
  predicate ZipEq(xs: seq<Term>, ys: seq<Term>) {
    forall i :: 0 <= i < Shorter(xs, ys) ==> NodeEq(xs[i], ys[i])
  }

  /** `==` on terms. */
  predicate Equal(t: Term, u: Term) { ZipEq(PreOrder(t), PreOrder(u)) }

  predicate ThreshAgree(t: Term, u: Term) {
    forall i :: 0 <= i < Shorter(PreOrder(t), PreOrder(u)) ==> SameThresh(PreOrder(t)[i], PreOrder(u)[i])
  }

  predicate ThreshFree(t: Term) {
    forall i :: 0 <= i < |PreOrder(t)| ==> !PreOrder(t)[i].Thresh?
  }

  /** Both sides have been compared up to node number `i`. */
  ghost predicate Comparing(mine: TreeIter.PreOrderIter<Term>, yours: TreeIter.PreOrderIter<Term>, xs: seq<Term>, ys: seq<Term>, i: nat)
    reads mine, yours
  {
    i <= |xs| && i <= |ys| && mine.Rest() == xs[i..] && yours.Rest() == ys[i..] && ZipEq(xs[..i], ys[..i])
  }

  /** Compares node by node until one side has no more nodes. */
  method Eq(t: Term, u: Term) returns (equal: bool)
    ensures equal == Equal(t, u)
  {
    var mine := new TreeIter.PreOrderIter(ViewOf(t));
    var yours := new TreeIter.PreOrderIter(ViewOf(u));
    ghost var xs, ys := PreOrder(t), PreOrder(u);
    ghost var i := 0;
    assert xs[0..] == xs && ys[0..] == ys;
    while true
      invariant mine != yours && fresh(mine) && fresh(yours) && Comparing(mine, yours, xs, ys, i)
      decreases |xs| - i
    {
      var me := mine.Next();
      if me.None? {
        Compared(xs, ys, i);
        return true;
      }
      var you := yours.Next();
      if you.None? {
        Compared(xs, ys, i);
        return true;
      }
      if !NodeEq(me.value, you.value) {
        Unequal(xs, ys, i);
        return false;
      }
      MoreCompared(xs, ys, i, i + 1);
      i := i + 1;
    }
  }

  lemma Unequal(xs: seq<Term>, ys: seq<Term>, i: nat)
    requires i < |xs| && i < |ys| && !NodeEq(xs[i], ys[i])
    ensures !ZipEq(xs, ys)
  {
  }

  lemma Compared(xs: seq<Term>, ys: seq<Term>, i: nat)
    requires i <= |xs| && i <= |ys| && (i == |xs| || i == |ys|) && ZipEq(xs[..i], ys[..i])
    ensures ZipEq(xs, ys)
  {
    forall j | 0 <= j < Shorter(xs, ys)
      ensures NodeEq(xs[j], ys[j])
    {
      assert NodeEq(xs[..i][j], ys[..i][j]);
    }
  }

  lemma MoreCompared(xs: seq<Term>, ys: seq<Term>, i: nat, next: nat)
    requires next == i + 1 && next <= |xs| && next <= |ys| && ZipEq(xs[..i], ys[..i]) && NodeEq(xs[i], ys[i])
    ensures ZipEq(xs[..next], ys[..next])
  {
    forall j | 0 <= j < next
      ensures NodeEq(xs[j], ys[j])
    {
      if j < i { assert NodeEq(xs[..i][j], ys[..i][j]); }
    }
  }

  lemma NodeEqSelf(t: Term)
    ensures NodeEq(t, t) && SameThresh(t, t)
  {
  }

  /** Two terms are identical exactly when they compare equal and thresholds at
      the same position have the same k and as many children. */
  lemma EqualExactly(t: Term, u: Term)
    ensures t == u <==> Equal(t, u) && ThreshAgree(t, u)
  {
    var xs, ys := PreOrder(t), PreOrder(u);
    if t == u {
      forall i | 0 <= i < |xs|
        ensures NodeEq(xs[i], xs[i])
      {
        NodeEqSelf(xs[i]);
      }
    }
    if Equal(t, u) && ThreshAgree(t, u) {
      forall i | 0 <= i < Shorter(xs, ys)
        ensures Shell(xs[i]) == Shell(ys[i])
      {
        NodesSame(xs[i], ys[i]);
      }
      TermDecides(t, u);
    }
  }

  /** Comparing with a term that has no threshold is exact. */
  lemma EqualThreshFree(t: Term, u: Term)
    requires ThreshFree(t)
    ensures Equal(t, u) <==> t == u
  {
    EqualExactly(t, u);
  }

  // ----- hashing -----

  /** What a term feeds to the hasher. */
  function Feed(t: Term): seq<Term> {
    seq(|PreOrder(t)|, i requires 0 <= i < |PreOrder(t)| => Shell(PreOrder(t)[i]))
  }

  /** Different terms feed different data, and no term's data begins another's. */
  lemma FeedDecides(t: Term, u: Term)
    ensures Feed(t) <= Feed(u) <==> t == u
  {
    if Feed(t) <= Feed(u) {
      var xs, ys := PreOrder(t), PreOrder(u);
      forall i | 0 <= i < Shorter(xs, ys)
        ensures Shell(xs[i]) == Shell(ys[i])
      {
        assert Feed(t)[i] == Feed(u)[i];
      }
      TermDecides(t, u);
    }
  }

  /** Terms that compare equal feed equal data exactly when they are identical. */
  lemma HashAgrees(t: Term, u: Term)
    requires Equal(t, u)
    ensures Feed(t) == Feed(u) <==> ThreshAgree(t, u)
  {
    EqualExactly(t, u);
    FeedDecides(t, u);
  }

  /** `thresh(k,0,a:0)` */
  function ZeroThresh(k: nat): Term { Term.Thresh(k, [False, Term.Alt(False)]) }

  lemma LeafFirst(t: Term, more: seq<Term>)
    requires IsLeaf(t)
    ensures PreForest([t] + more) == [t] + PreForest(more)
  {
    ForestOpens(t, more);
    assert [] + more == more;
  }

  lemma OneTree(t: Term)
    ensures PreForest([t] + []) == PreOrder(t)
  {
    assert Views([t] + []) == [ViewOf(t)] && [ViewOf(t)][1..] == [];
    assert TreeIter.PreAll([ViewOf(t)]) == PreOrder(t) + [];
    assert PreOrder(t) + [] == PreOrder(t);
  }

  lemma ZeroThreshNodes(k: nat)
    ensures PreOrder(ZeroThresh(k)) == [ZeroThresh(k), False, Term.Alt(False), False]
  {
    var t, alt := ZeroThresh(k), Term.Alt(False);
    OneTree(t);
    ForestOpens(t, []);
    assert Subs(t) + [] == [False] + ([alt] + []);
    LeafFirst(False, [alt] + []);
    ForestOpens(alt, []);
    assert Subs(alt) + [] == [False] + [];
    LeafFirst(False, []);
    assert PreForest([]) == [];
  }

  /** Thresholds over the same children compare equal whatever k is, although they
      are different terms and feed different data to the hasher. */
  lemma DifferentButEqual(j: nat, k: nat)
    requires j != k
    ensures Equal(ZeroThresh(j), ZeroThresh(k)) && ZeroThresh(j) != ZeroThresh(k)
    ensures Feed(ZeroThresh(j)) != Feed(ZeroThresh(k))
    ensures HasBase(ZeroThresh(j), B)
  {
    ZeroThreshNodes(j);
    ZeroThreshNodes(k);
    FeedDecides(ZeroThresh(j), ZeroThresh(k));
    ZeroThreshTyped(j);
  }

  lemma ZeroThreshTyped(k: nat)
    ensures HasBase(ZeroThresh(k), B)
  {
    var subs := [False, Term.Alt(False)];
    assert subs[1..] == [Term.Alt(False)] && [Term.Alt(False)][1..] == [];
    assert TypeOf(False).Ok? && TypeOf(Term.Alt(False)).Ok?;
    assert ThreshArgs([], false).Ok?;
    assert ThreshArgs(subs[1..], false).Ok?;
    assert ThreshArgs(subs, true).Ok?;
  }
}
