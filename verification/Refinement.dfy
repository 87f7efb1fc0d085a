/** The machine refines the recursive evaluator: from a fresh node on top of any
    state stack, visiting removes that node and leaves exactly the elements, the
    constraints, or the error of the big-step evaluation. */
module Refinement {
  import opened Terms
  import opened Interp
  import opened Machine

  lemma PrefixLaws(a: seq<Constraint>, b: seq<Constraint>, r: Res)
    ensures Prefix([], r) == r
    ensures Prefix(a, Prefix(b, r)) == Prefix(a + b, r)
  {
    assert [] + r.emits == r.emits;
    assert a + (b + r.emits) == a + b + r.emits;
  }

  lemma {:induction false} ContinuePrefix(cx: Context, rest: seq<NodeState>, a: seq<Constraint>, r: Res)
    ensures Continue(cx, rest, Prefix(a, r)) == Prefix(a, Continue(cx, rest, r))
  {
    if r.out.Done? {
      PrefixLaws(a, r.emits, RunNodes(cx, rest, r.out.stack));
    }
  }

  /** A visit that pushes nothing ends the node with that visit's outcome. */
  lemma {:induction false} RunLast(cx: Context, rest: seq<NodeState>, top: NodeState, s: Stack, out: Outcome)
    requires VisitNode(cx, top, s) == OfOutcome(out)
    ensures RunNodes(cx, rest + [top], s) == Continue(cx, rest, Res([], out))
  {
    RunTop(cx, rest, top, s);
    assert rest + [] == rest;
  }

  /** Sequencing: when visiting `top` after a child's result `x` amounts to `y`,
      the child followed by `top` amounts to `x` followed by `y`. */
  lemma {:induction false} ContinueThen(cx: Context, rest: seq<NodeState>, top: NodeState, x: Res, y: Res)
    requires x.out.Done? ==> RunNodes(cx, rest + [top], x.out.stack) == Continue(cx, rest, y)
    ensures Continue(cx, rest + [top], x) ==
            Continue(cx, rest, Then(x, y))
  {
    if x.out.Done? {
      ContinuePrefix(cx, rest, x.emits, y);
    }
  }

  lemma {:induction false} ContinueLast(cx: Context, rest: seq<NodeState>, top: NodeState, x: Res, out: Outcome)
    requires x.out.Done? ==> VisitNode(cx, top, x.out.stack) == OfOutcome(out)
    ensures Continue(cx, rest + [top], x) ==
            Continue(cx, rest, if x.out.Failed? then x else Res(x.emits, out))
  {
    if x.out.Done? {
      RunLast(cx, rest, top, x.out.stack, out);
    }
    ContinueThen(cx, rest, top, x, Res([], out));
    assert x.emits + [] == x.emits;
  }

  // ----- one lemma per kind of node -----

  /** A silent visit that replaces a node by one child. */
  lemma {:induction false} RunThrough(cx: Context, rest: seq<NodeState>, top: NodeState, sub: Term, s: Stack, s': Stack)
    requires VisitNode(cx, top, s) == Go([Fresh(sub)], s', Silent)
    ensures RunNodes(cx, rest + [top], s) == RunNodes(cx, rest + [Fresh(sub)], s')
  {
    RunTop(cx, rest, top, s);
    PrefixLaws([], [], RunNodes(cx, rest + [Fresh(sub)], s'));
  }

  /** A silent visit that puts a node to be visited later below a child. */
  lemma {:induction false} RunFirst(cx: Context, rest: seq<NodeState>, top: NodeState, next: NodeState, sub: Term, s: Stack, s': Stack)
    requires VisitNode(cx, top, s) == Go([next, Fresh(sub)], s', Silent)
    ensures RunNodes(cx, rest + [top], s) == RunNodes(cx, rest + [next] + [Fresh(sub)], s')
  {
    RunTop(cx, rest, top, s);
    assert rest + [next, Fresh(sub)] == rest + [next] + [Fresh(sub)];
    PrefixLaws([], [], RunNodes(cx, rest + [next, Fresh(sub)], s'));
  }

  /** The induction hypothesis: runs of a fresh `t`. */
  ghost predicate Refines(cx: Context, rest: seq<NodeState>, t: Term, s: Stack)
  {
    RunNodes(cx, rest + [Fresh(t)], s) == Continue(cx, rest, Eval(cx, t, s))
  }

  lemma {:induction false} RunUnary(cx: Context, rest: seq<NodeState>, t: Term, s: Stack)
    requires IsUnary(t)
    ensures Refines(cx, rest, t, s)
    decreases t, 0
  {
    var sub := t.sub;
    if t.DupIf? {
      var p := PopBool(s);
      if p.Popped? && p.b {
        var top := NodeState(t, 1, 1);
        RunFirst(cx, rest, Fresh(t), top, sub, s, p.rest);
        RunFresh(cx, rest + [top], sub, p.rest);
        var x := Eval(cx, sub, p.rest);
        ContinueLast(cx, rest, top, x, if x.out.Failed? then x.out else Done(x.out.stack + [Satisfied]));
      } else {
        RunLast(cx, rest, Fresh(t), s, Eval(cx, t, s).out);
      }
    } else if t.Verify? || t.ZeroNotEqual? {
      var top := NodeState(t, 1, 0);
      RunFirst(cx, rest, Fresh(t), top, sub, s, s);
      RunFresh(cx, rest + [top], sub, s);
      var x := Eval(cx, sub, s);
      ContinueLast(cx, rest, top, x, if x.out.Failed? then x.out else Eval(cx, t, s).out);
    } else if t.NonZero? && (s == [] || Peek(s) == Dissatisfied) {
      RunLast(cx, rest, Fresh(t), s, Eval(cx, t, s).out);
    } else {
      RunThrough(cx, rest, Fresh(t), sub, s, s);
      RunFresh(cx, rest, sub, s);
    }
  }

  lemma {:induction false} RunSimpleLeaf(cx: Context, rest: seq<NodeState>, t: Term, s: Stack)
    requires IsSimpleLeaf(t)
    ensures Refines(cx, rest, t, s)
  {
    RunTop(cx, rest, Fresh(t), s);
    assert rest + [] == rest;
  }

  lemma {:induction false} RunAndV(cx: Context, rest: seq<NodeState>, l: Term, r: Term, s: Stack)
    ensures Refines(cx, rest, AndV(l, r), s)
    decreases AndV(l, r), 0
  {
    RunFirst(cx, rest, Fresh(AndV(l, r)), Fresh(r), l, s, s);
    RunFresh(cx, rest + [Fresh(r)], l, s);
    var x := Eval(cx, l, s);
    if x.out.Done? {
      RunFresh(cx, rest, r, x.out.stack);
      ContinueThen(cx, rest, Fresh(r), x, Eval(cx, r, x.out.stack));
    }
  }

  /** The first child of a node that pops its boolean on the second visit: what
      follows is `y`, the outcome of that visit. */
  lemma {:induction false} RunPopped(cx: Context, rest: seq<NodeState>, t: Term, l: Term, s: Stack, y: Res)
    requires l < t
    requires !t.Multi? && !t.MultiA? && !t.Thresh?
    requires VisitNode(cx, Fresh(t), s) == Go([NodeState(t, 1, 0), Fresh(l)], s, Silent)
    requires var x := Eval(cx, l, s);
             x.out.Done? ==> RunNodes(cx, rest + [NodeState(t, 1, 0)], x.out.stack) == Continue(cx, rest, y)
    ensures var x := Eval(cx, l, s);
            RunNodes(cx, rest + [Fresh(t)], s) == Continue(cx, rest, Then(x, y))
    decreases t, 0
  {
    var top := NodeState(t, 1, 0);
    RunFirst(cx, rest, Fresh(t), top, l, s, s);
    RunFresh(cx, rest + [top], l, s);
    ContinueThen(cx, rest, top, Eval(cx, l, s), y);
  }

  /** The second half of `and_b` and `or_b`, on the popped boolean. */
  function BothTail(cx: Context, t: Term, p: Popped): Res
    requires (t.AndB? || t.OrB?)
  {
    if p.NotBool? then Res([], Failed(p.error))
    else
      var y := Eval(cx, t.right, p.rest);
      if y.out.Failed? then y
      else Res(y.emits, if t.AndB? then AfterAndB(Count(p.b), y.out.stack) else AfterOrB(Count(p.b), y.out.stack))
  }

  lemma {:induction false} RunBoth(cx: Context, rest: seq<NodeState>, t: Term, s: Stack)
    requires (t.AndB? || t.OrB?)
    ensures Refines(cx, rest, t, s)
    decreases t, 1
  {
    var x := Eval(cx, t.left, s);
    if x.out.Failed? {
      RunPopped(cx, rest, t, t.left, s, x);
    } else {
      var p := PopBool(x.out.stack);
      var top := NodeState(t, 1, 0);
      if p.NotBool? {
        RunLast(cx, rest, top, x.out.stack, Failed(p.error));
      } else {
        var next := NodeState(t, 2, Count(p.b));
        RunFirst(cx, rest, top, next, t.right, x.out.stack, p.rest);
        RunFresh(cx, rest + [next], t.right, p.rest);
        var y := Eval(cx, t.right, p.rest);
        ContinueLast(cx, rest, next, y, if y.out.Failed? then y.out else BothTail(cx, t, p).out);
      }
      RunPopped(cx, rest, t, t.left, s, BothTail(cx, t, p));
      assert x.emits + [] == x.emits;
    }
  }

  /** The branch `andor`, `or_d` and `or_c` take on the popped boolean. */
  function ChoiceTail(cx: Context, t: Term, p: Popped): Res
    requires (t.AndOr? || t.OrD? || t.OrC?)
  {
    if p.NotBool? then Res([], Failed(p.error))
    else match t
      case AndOr(_, b, c) => Eval(cx, if p.b then b else c, p.rest)
      case OrD(_, r) => if p.b then Res([], Done(p.rest + [Satisfied])) else Eval(cx, r, p.rest)
      case OrC(_, r) => if p.b then Res([], Done(p.rest)) else Eval(cx, r, p.rest)
  }

  lemma {:induction false} RunChoice(cx: Context, rest: seq<NodeState>, t: Term, s: Stack)
    requires (t.AndOr? || t.OrD? || t.OrC?)
    ensures Refines(cx, rest, t, s)
    decreases t, 1
  {
    var l := if t.AndOr? then t.a else t.left;
    var x := Eval(cx, l, s);
    if x.out.Failed? {
      RunPopped(cx, rest, t, l, s, x);
    } else {
      var p := PopBool(x.out.stack);
      var top := NodeState(t, 1, 0);
      var y := ChoiceTail(cx, t, p);
      if p.NotBool? || (p.b && !t.AndOr?) {
        RunLast(cx, rest, top, x.out.stack, y.out);
      } else {
        var sub := if t.AndOr? then (if p.b then t.b else t.c) else t.right;
        RunThrough(cx, rest, top, sub, x.out.stack, p.rest);
        RunFresh(cx, rest, sub, p.rest);
      }
      RunPopped(cx, rest, t, l, s, y);
      assert x.emits + [] == x.emits;
    }
  }

  lemma {:induction false} RunOrI(cx: Context, rest: seq<NodeState>, t: Term, s: Stack)
    requires t.OrI?
    ensures Refines(cx, rest, t, s)
    decreases t, 1
  {
    var p := PopBool(s);
    if p.NotBool? {
      RunLast(cx, rest, Fresh(t), s, Failed(p.error));
    } else {
      var sub := if p.b then t.left else t.right;
      RunThrough(cx, rest, Fresh(t), sub, s, p.rest);
      RunFresh(cx, rest, sub, p.rest);
    }
  }

  /** A child of a node that is visited again: what follows the child is `y`. */
  lemma RunChild(cx: Context, rest: seq<NodeState>, top: NodeState, next: NodeState, sub: Term, s: Stack, s': Stack, y: Res)
    requires VisitNode(cx, top, s) == Go([next, Fresh(sub)], s', Silent)
    requires Refines(cx, rest + [next], sub, s')
    requires var x := Eval(cx, sub, s');
             x.out.Done? ==> RunNodes(cx, rest + [next], x.out.stack) == Continue(cx, rest, y)
    ensures RunNodes(cx, rest + [top], s) == Continue(cx, rest, Then(Eval(cx, sub, s'), y))
  {
    RunFirst(cx, rest, top, next, sub, s, s');
    ContinueThen(cx, rest, next, Eval(cx, sub, s'), y);
  }

  /** A visit that leaves the node itself to be visited again. */
  lemma RunOn(cx: Context, rest: seq<NodeState>, top: NodeState, nSat: nat, reply: Reply, s: Stack, s': Stack, y: Res)
    requires VisitNode(cx, top, s) == Go([NodeState(top.node, top.nEval + 1, nSat)], s', reply)
    requires RunNodes(cx, rest + [NodeState(top.node, top.nEval + 1, nSat)], s') == Continue(cx, rest, y)
    ensures RunNodes(cx, rest + [top], s) == Continue(cx, rest, Prefix(Emitted(reply), y))
  {
    RunTop(cx, rest, top, s);
    ContinuePrefix(cx, rest, Emitted(reply), y);
  }

  /** What an unfinished threshold does next. */
  lemma VisitThresh(cx: Context, top: NodeState, s: Stack)
    requires top.node.Thresh? && 1 <= top.nEval < |top.node.subs|
    ensures var p := PopBool(s);
            VisitNode(cx, top, s) ==
            if p.NotBool? then Halt(p.error)
            else Go([NextChild(top, p.b), Fresh(top.node.subs[top.nEval])], p.rest, Silent)
  {
  }

  lemma {:induction false} RunThresh(cx: Context, rest: seq<NodeState>, top: NodeState, s: Stack)
    requires top.node.Thresh? && 1 <= top.nEval <= |top.node.subs|
    ensures RunNodes(cx, rest + [top], s) ==
            Continue(cx, rest, EvalThresh(cx, top.node.k, top.node.subs, top.nEval, top.nSat, s))
    decreases top.node, 0, |top.node.subs| - top.nEval, 1
  {
    var p := PopBool(s);
    if top.nEval == |top.node.subs| {
      RunLast(cx, rest, top, s, AfterThresh(top.node.k, top.nSat, s));
    } else {
      VisitThresh(cx, top, s);
      EvalThreshStep(cx, top.node.k, top.node.subs, top.nEval, top.nEval + 1, top.nSat, s);
      if p.NotBool? {
        RunLast(cx, rest, top, s, Failed(p.error));
      } else {
        RunThreshNext(cx, rest, top, NextChild(top, p.b), top.node.subs[top.nEval], s, p.rest);
      }
    }
  }

  lemma {:induction false} RunThreshNext(cx: Context, rest: seq<NodeState>, top: NodeState, next: NodeState, sub: Term, s: Stack, s': Stack)
    requires top.node.Thresh? && next.node == top.node && top.nEval < next.nEval <= |top.node.subs|
    requires sub in top.node.subs
    requires VisitNode(cx, top, s) == Go([next, Fresh(sub)], s', Silent)
    ensures var x := Eval(cx, sub, s');
            RunNodes(cx, rest + [top], s) ==
            Continue(cx, rest, if x.out.Failed? then x
                               else Then(x, EvalThresh(cx, top.node.k, top.node.subs, next.nEval, next.nSat, x.out.stack)))
    decreases top.node, 0, |top.node.subs| - top.nEval, 0
  {
    var x := Eval(cx, sub, s');
    RunFresh(cx, rest + [next], sub, s');
    if x.out.Done? {
      var y := EvalThresh(cx, top.node.k, top.node.subs, next.nEval, next.nSat, x.out.stack);
      RunThresh(cx, rest, next, x.out.stack);
      RunChild(cx, rest, top, next, sub, s, s', y);
    } else {
      RunChild(cx, rest, top, next, sub, s, s', x);
    }
  }

  lemma {:induction false} RunThreshFirst(cx: Context, rest: seq<NodeState>, t: Term, s: Stack)
    requires t.Thresh? && t.subs != []
    ensures Refines(cx, rest, t, s)
    decreases t, 1
  {
    var top, next := Fresh(t), NodeState(t, 1, 0);
    var x := Eval(cx, t.subs[0], s);
    RunFresh(cx, rest + [next], t.subs[0], s);
    var y := if x.out.Failed? then x else EvalThresh(cx, t.k, t.subs, 1, 0, x.out.stack);
    if x.out.Done? {
      RunThresh(cx, rest, next, x.out.stack);
    }
    RunChild(cx, rest, top, next, t.subs[0], s, s, y);
  }

  lemma VisitMulti(cx: Context, t: Term, nEval: nat, next: nat, nSat: nat, s: Stack)
    requires (t.Multi? || t.MultiA?) && nEval <= |t.keys| && next == nEval + 1
    ensures var m := MultiVisit(cx, t, nEval, nSat, s);
            && VisitNode(cx, NodeState(t, nEval, nSat), s) == OfMulti(NodeState(t, nEval, nSat), m)
            && EvalMulti(cx, t, nEval, nSat, s) ==
               (if m.Finished? then Res([], m.out)
                else Prefix(Emitted(m.reply), EvalMulti(cx, t, next, m.nSat, m.stack)))
            && (m.NextKey? ==> next <= |t.keys|)
  {
  }

  lemma {:induction false} RunMulti(cx: Context, rest: seq<NodeState>, t: Term, nEval: nat, nSat: nat, s: Stack)
    requires (t.Multi? || t.MultiA?) && nEval <= |t.keys|
    ensures RunNodes(cx, rest + [NodeState(t, nEval, nSat)], s) == Continue(cx, rest, EvalMulti(cx, t, nEval, nSat, s))
    decreases |t.keys| - nEval
  {
    var next := nEval + 1;
    VisitMulti(cx, t, nEval, next, nSat, s);
    var top, m := NodeState(t, nEval, nSat), MultiVisit(cx, t, nEval, nSat, s);
    if m.Finished? {
      RunLast(cx, rest, top, s, m.out);
    } else {
      RunMulti(cx, rest, t, next, m.nSat, m.stack);
      RunOn(cx, rest, top, m.nSat, m.reply, s, m.stack, EvalMulti(cx, t, next, m.nSat, m.stack));
    }
  }

  /** The main result: a run from a fresh node is its big-step evaluation,
      followed by the nodes below it. */
  lemma {:induction false} RunFresh(cx: Context, rest: seq<NodeState>, t: Term, s: Stack)
    ensures Refines(cx, rest, t, s)
    decreases t, 2
  {
    if IsSimpleLeaf(t) {
      RunSimpleLeaf(cx, rest, t, s);
    } else if IsUnary(t) {
      RunUnary(cx, rest, t, s);
    } else {
      match t
      case AndV(l, r) => RunAndV(cx, rest, l, r, s);
      case AndB(_, _) => RunBoth(cx, rest, t, s);
      case OrB(_, _) => RunBoth(cx, rest, t, s);
      case AndOr(_, _, _) => RunChoice(cx, rest, t, s);
      case OrD(_, _) => RunChoice(cx, rest, t, s);
      case OrC(_, _) => RunChoice(cx, rest, t, s);
      case OrI(_, _) => RunOrI(cx, rest, t, s);
      case Multi(_, _) => RunMulti(cx, rest, t, 0, 0, s);
      case MultiA(_, _) => RunMulti(cx, rest, t, 0, 0, s);
      case Thresh(_, subs) =>
        if subs == [] {
          RunLast(cx, rest, Fresh(t), s, Failed(CouldNotEvaluate));
        } else {
          RunThreshFirst(cx, rest, t, s);
        }
    }
  }

  /** A whole script: from its one fresh node, the run is the evaluation. */
  lemma {:induction false} RunScript(cx: Context, t: Term, s: Stack)
    ensures RunNodes(cx, [Fresh(t)], s) == Eval(cx, t, s)
  {
    RunFresh(cx, [], t, s);
    assert [] + [Fresh(t)] == [Fresh(t)];
    var x := Eval(cx, t, s);
    assert x.emits + [] == x.emits;
  }
}
