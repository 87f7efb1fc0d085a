/** The interpreter as a machine: a stack of partly evaluated nodes beside the
    stack of elements, one visit of the top node at a time. */
module Machine {
  import opened Terms
  import opened Interp

  datatype NodeState = NodeState(node: Term, nEval: nat, nSat: nat)

  function Fresh(t: Term): NodeState { NodeState(t, 0, 0) }

  /** A visit replaces the top node by some nodes, or stops with an error. */
  datatype Visit = Go(push: seq<NodeState>, stack: Stack, reply: Reply) | Halt(error: Error)

  function OfOutcome(out: Outcome): Visit {
    match out
    case Done(s) => Go([], s, Silent)
    case Failed(e) => Halt(e)
  }

  function OfMulti(ns: NodeState, m: MultiStep): Visit {
    match m
    case Finished(out) => OfOutcome(out)
    case NextKey(nSat, s, reply) => Go([NodeState(ns.node, ns.nEval + 1, nSat)], s, reply)
  }

  function Count(b: bool): nat { if b then 1 else 0 }

  /** A threshold after one more child, the previous one satisfied or not. */
  function NextChild(ns: NodeState, b: bool): NodeState {
    NodeState(ns.node, ns.nEval + 1, Bump(ns.nSat, b))
  }

  /** One visit of the node on top of the state stack. */
  function VisitNode(cx: Context, ns: NodeState, s: Stack): (v: Visit) {
    if IsSimpleLeaf(ns.node) then
      var r := EvalLeaf(cx, ns.node, s);
      if r.0.Fail? then Halt(r.0.error) else Go([], r.1, r.0)
    else if IsUnary(ns.node) then VisitUnary(cx, ns, s)
    else VisitBranching(cx, ns, s)
  }

  function VisitUnary(cx: Context, ns: NodeState, s: Stack): (v: Visit)
    requires IsUnary(ns.node)
  {
    var NodeState(node, nEval, nSat) := ns;
    match node
    case InscribePre(_, sub) => Go([Fresh(sub)], s, Silent)
    case InscribePost(_, sub) => Go([Fresh(sub)], s, Silent)
    case Alt(sub) => Go([Fresh(sub)], s, Silent)
    case Swap(sub) => Go([Fresh(sub)], s, Silent)
    case Check(sub) => Go([Fresh(sub)], s, Silent)
    case DupIf(sub) =>
      if nEval == 0 then
        var p := PopBool(s);
        if p.NotBool? then Halt(p.error)
        else if p.b then Go([NodeState(node, 1, 1), Fresh(sub)], p.rest, Silent)
        else Go([], s, Silent)
      else if nEval == 1 then Go([], s + [Satisfied], Silent)
      else Halt(CouldNotEvaluate)
    case Verify(sub) =>
      if nEval == 0 then Go([NodeState(node, 1, 0), Fresh(sub)], s, Silent)
      else if nEval == 1 then OfOutcome(AfterVerify(s))
      else Halt(CouldNotEvaluate)
    case ZeroNotEqual(sub) =>
      if nEval == 0 then Go([NodeState(node, 1, 0), Fresh(sub)], s, Silent)
      else if nEval == 1 then OfOutcome(AfterZeroNotEqual(s))
      else Halt(CouldNotEvaluate)
    case NonZero(sub) =>
      if s == [] then Halt(UnexpectedStackEnd)
      else if Peek(s) == Dissatisfied then Go([], s, Silent)
      else Go([Fresh(sub)], s, Silent)
  }

  function VisitBranching(cx: Context, ns: NodeState, s: Stack): (v: Visit)
    requires !IsSimpleLeaf(ns.node) && !IsUnary(ns.node)
  {
    var NodeState(node, nEval, nSat) := ns;
    match node
    case AndV(l, r) => Go([Fresh(r), Fresh(l)], s, Silent)
    case AndB(l, r) =>
      if nEval == 0 then Go([NodeState(node, 1, 0), Fresh(l)], s, Silent)
      else if nEval == 1 then
        var p := PopBool(s);
        if p.NotBool? then Halt(p.error) else Go([NodeState(node, 2, Count(p.b)), Fresh(r)], p.rest, Silent)
      else if nEval == 2 then OfOutcome(AfterAndB(nSat, s))
      else Halt(CouldNotEvaluate)
    case OrB(l, r) =>
      if nEval == 0 then Go([NodeState(node, 1, 0), Fresh(l)], s, Silent)
      else if nEval == 1 then
        var p := PopBool(s);
        if p.NotBool? then Halt(p.error) else Go([NodeState(node, 2, Count(p.b)), Fresh(r)], p.rest, Silent)
      else if nEval == 2 then OfOutcome(AfterOrB(nSat, s))
      else Halt(CouldNotEvaluate)
    case AndOr(a, b, c) =>
      if nEval == 0 then Go([NodeState(node, 1, 0), Fresh(a)], s, Silent)
      else
        var p := PopBool(s);
        if p.NotBool? then Halt(p.error) else Go([Fresh(if p.b then b else c)], p.rest, Silent)
    case OrD(l, r) =>
      if nEval == 0 then Go([NodeState(node, 1, 0), Fresh(l)], s, Silent)
      else if nEval == 1 then
        var p := PopBool(s);
        if p.NotBool? then Halt(p.error)
        else if p.b then Go([], p.rest + [Satisfied], Silent)
        else Go([Fresh(r)], p.rest, Silent)
      else Halt(CouldNotEvaluate)
    case OrC(l, r) =>
      if nEval == 0 then Go([NodeState(node, 1, 0), Fresh(l)], s, Silent)
      else if nEval == 1 then
        var p := PopBool(s);
        if p.NotBool? then Halt(p.error)
        else if p.b then Go([], p.rest, Silent)
        else Go([Fresh(r)], p.rest, Silent)
      else Halt(CouldNotEvaluate)
    case OrI(l, r) =>
      var p := PopBool(s);
      if p.NotBool? then Halt(p.error) else Go([Fresh(if p.b then l else r)], p.rest, Silent)
    case Thresh(k, subs) =>
      if nEval > |subs| || subs == [] then Halt(CouldNotEvaluate)
      else if nEval == 0 then Go([NodeState(node, 1, 0), Fresh(subs[0])], s, Silent)
      else if nEval == |subs| then OfOutcome(AfterThresh(k, nSat, s))
      else
        var p := PopBool(s);
        if p.NotBool? then Halt(p.error)
        else Go([NextChild(ns, p.b), Fresh(subs[nEval])], p.rest, Silent)
    case Multi(_, keys) =>
      if nEval > |keys| then Halt(CouldNotEvaluate) else OfMulti(ns, MultiVisit(cx, node, nEval, nSat, s))
    case MultiA(_, keys) =>
      if nEval > |keys| then Halt(CouldNotEvaluate) else OfMulti(ns, MultiVisit(cx, node, nEval, nSat, s))
  }

  // ----- termination -----

  /** An upper bound on the visits a fresh node still needs. */
  function Work(t: Term): nat
    decreases t, 0
  {
    match t
    case InscribePre(_, sub) => 1 + Work(sub)
    case InscribePost(_, sub) => 1 + Work(sub)
    case Alt(sub) => 1 + Work(sub)
    case Swap(sub) => 1 + Work(sub)
    case Check(sub) => 1 + Work(sub)
    case DupIf(sub) => 2 + Work(sub)
    case Verify(sub) => 2 + Work(sub)
    case NonZero(sub) => 1 + Work(sub)
    case ZeroNotEqual(sub) => 2 + Work(sub)
    case AndV(l, r) => 1 + Work(l) + Work(r)
    case AndB(l, r) => 3 + Work(l) + Work(r)
    case AndOr(a, b, c) => 2 + Work(a) + Work(b) + Work(c)
    case OrB(l, r) => 3 + Work(l) + Work(r)
    case OrD(l, r) => 2 + Work(l) + Work(r)
    case OrC(l, r) => 2 + Work(l) + Work(r)
    case OrI(l, r) => 1 + Work(l) + Work(r)
    case Thresh(_, subs) => 1 + SumWork(subs)
    case Multi(_, keys) => 1 + |keys|
    case MultiA(_, keys) => 1 + |keys|
    case _ => 1
  }

  function SumWork(subs: seq<Term>): nat
    decreases subs, 0
  {
    if subs == [] then 0 else 1 + Work(subs[0]) + SumWork(subs[1..])
  }

  /** The visits left for a node that has been visited before. */
  function NodeWork(ns: NodeState): nat {
    if ns.nEval == 0 then Work(ns.node)
    else match ns.node
      case AndB(_, r) => if ns.nEval == 1 then 2 + Work(r) else 1
      case OrB(_, r) => if ns.nEval == 1 then 2 + Work(r) else 1
      case AndOr(_, b, c) => 1 + Work(b) + Work(c)
      case OrD(_, r) => 1 + Work(r)
      case OrC(_, r) => 1 + Work(r)
      case Thresh(_, subs) => if ns.nEval <= |subs| then 1 + SumWork(subs[ns.nEval..]) else 1
      case Multi(_, keys) => if ns.nEval <= |keys| then 1 + |keys| - ns.nEval else 1
      case MultiA(_, keys) => if ns.nEval <= |keys| then 1 + |keys| - ns.nEval else 1
      case DupIf(_) => 1
      case Verify(_) => 1
      case ZeroNotEqual(_) => 1
      case node => Work(node)
  }

  function StateWork(state: seq<NodeState>): nat {
    if state == [] then 0
    else NodeWork(state[|state| - 1]) + StateWork(state[..|state| - 1])
  }

  /** The work of at most two nodes. */
  function PairWork(push: seq<NodeState>): nat
    requires |push| <= 2
  {
    if |push| == 0 then 0
    else if |push| == 1 then NodeWork(push[0])
    else NodeWork(push[0]) + NodeWork(push[1])
  }

  lemma StateWorkOne(state: seq<NodeState>, ns: NodeState)
    ensures StateWork(state + [ns]) == StateWork(state) + NodeWork(ns)
  {
    assert (state + [ns])[..|state + [ns]| - 1] == state;
  }

  lemma StateWorkPush(state: seq<NodeState>, push: seq<NodeState>)
    requires |push| <= 2
    ensures StateWork(state + push) == StateWork(state) + PairWork(push)
  {
    if push == [] {
      assert state + push == state;
    } else if |push| == 1 {
      assert push == [push[0]];
      StateWorkOne(state, push[0]);
    } else {
      assert state + push == state + [push[0]] + [push[1]];
      StateWorkOne(state, push[0]);
      StateWorkOne(state + [push[0]], push[1]);
    }
  }

  lemma SumWorkSplit(subs: seq<Term>, i: nat)
    requires i < |subs|
    ensures SumWork(subs[i..]) == 1 + Work(subs[i]) + SumWork(subs[i + 1..])
  {
    assert subs[i..][1..] == subs[i + 1..];
  }

  lemma VisitProgressBranching(cx: Context, ns: NodeState, s: Stack)
    requires !IsLeaf(ns.node) && !IsUnary(ns.node)
    ensures var v := VisitNode(cx, ns, s);
            v.Go? ==> |v.push| <= 2 && PairWork(v.push) < NodeWork(ns)
  {
    if ns.node.Thresh? && ns.nEval < |ns.node.subs| {
      SumWorkSplit(ns.node.subs, ns.nEval);
      assert ns.node.subs[0..] == ns.node.subs;
    }
  }

  /** Every visit brings the run closer to its end. */
  lemma VisitProgress(cx: Context, ns: NodeState, s: Stack)
    ensures var v := VisitNode(cx, ns, s);
            v.Go? ==> |v.push| <= 2 && PairWork(v.push) < NodeWork(ns)
  {
    if !IsLeaf(ns.node) && !IsUnary(ns.node) {
      VisitProgressBranching(cx, ns, s);
    }
  }

  // ----- runs -----

  /** Runs the machine until no node is left, or an error. */
  function RunNodes(cx: Context, state: seq<NodeState>, s: Stack): Res
    decreases StateWork(state)
  {
    if state == [] then Res([], Done(s))
    else
      var rest, top := state[..|state| - 1], state[|state| - 1];
      var v := VisitNode(cx, top, s);
      if v.Halt? then Res([], Failed(v.error))
      else
        VisitProgress(cx, top, s);
        StateWorkPush(rest, v.push);
        Prefix(Emitted(v.reply), RunNodes(cx, rest + v.push, v.stack))
  }

  lemma RunTop(cx: Context, rest: seq<NodeState>, top: NodeState, s: Stack)
    ensures RunNodes(cx, rest + [top], s) ==
            var v := VisitNode(cx, top, s);
            if v.Halt? then Res([], Failed(v.error))
            else Prefix(Emitted(v.reply), RunNodes(cx, rest + v.push, v.stack))
  {
    var state := rest + [top];
    assert state[..|state| - 1] == rest;
  }

  /** What a run does after `r`, with the nodes in `rest` still to be visited. */
  function Continue(cx: Context, rest: seq<NodeState>, r: Res): Res {
    if r.out.Failed? then r else Prefix(r.emits, RunNodes(cx, rest, r.out.stack))
  }
}
