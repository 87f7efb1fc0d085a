/** The interpreter as an iterator: a mutable element stack, and an
    iterator that pops and pushes partly evaluated nodes until it has a
    constraint or an error to report. */
module Interpreter {
  import opened Bytes
  import opened Script
  import opened Terms
  import opened Interp
  import opened Machine

  lemma PutBack(rest: seq<Element>, e: Element)
    ensures forall s: seq<Element> :: s != [] && Drop1(s) == rest && Peek(s) == e ==> rest + [e] == s
  {
    forall s: seq<Element> | s != [] && Drop1(s) == rest && Peek(s) == e
      ensures rest + [e] == s
    {
      assert s == Drop1(s) + [Peek(s)];
    }
  }

  /** The element stack. A Silent reply stands for `None`. */
  class Stack {
    var elems: seq<Element>

    constructor (elems: seq<Element>)
      ensures this.elems == elems
    {
      this.elems := elems;
    }

    method Pop() returns (e: Option<Element>)
      modifies this
      ensures old(elems) == [] ==> e == None && elems == []
      ensures old(elems) != [] ==> e == Some(Peek(old(elems))) && elems == Drop1(old(elems))
    {
      if elems == [] { return None; }
      e := Some(elems[|elems| - 1]);
      elems := elems[..|elems| - 1];
    }

    method Push(e: Element)
      modifies this
      ensures elems == old(elems) + [e]
    {
      elems := elems + [e];
    }

    method SplitOff(k: nat) returns (top: seq<Element>)
      requires k <= |elems|
      modifies this
      ensures elems == old(elems)[..k] && top == old(elems)[k..]
    {
      top := elems[k..];
      elems := elems[..k];
    }

    method EvaluatePk(cx: Context, key: Bytes) returns (reply: Reply)
      modifies this
      ensures (reply, elems) == EvalPk(cx, key, old(elems))
    {
      var sigser := Pop();
      match sigser
      case None => reply := Fail(UnexpectedStackEnd);
      case Some(Dissatisfied) =>
        PutBack(elems, Dissatisfied);
        Push(Dissatisfied);
        reply := Silent;
      case Some(Push(sig)) =>
        if cx.env.sigOk(key, sig) {
          Push(Satisfied);
          reply := Emit(SatPk(key, sig));
        } else {
          reply := Fail(InvalidSignature);
        }
      case Some(Satisfied) => reply := Fail(PkEvaluationError);
    }

    method EvaluatePkH(cx: Context, keyHash: Bytes) returns (reply: Reply)
      modifies this
      ensures (reply, elems) == EvalPkH(cx, keyHash, old(elems))
    {
      var top := Pop();
      if top.None? || !top.value.Push? { return Fail(UnexpectedStackEnd); }
      var key := top.value.data;
      if cx.env.hash(Hash160, key) != keyHash { return Fail(PkHashVerifyFail); }
      if !cx.env.keyOk(key) { return Fail(PubkeyParseError); }
      var sigser := Pop();
      match sigser
      case None => reply := Fail(UnexpectedStackEnd);
      case Some(Dissatisfied) =>
        PutBack(elems, Dissatisfied);
        Push(Dissatisfied);
        reply := Silent;
      case Some(Push(sig)) =>
        if cx.env.sigOk(key, sig) {
          Push(Satisfied);
          reply := Emit(SatPkH(keyHash, key, sig));
        } else {
          reply := Fail(InvalidSignature);
        }
      case Some(Satisfied) => reply := Fail(PkEvaluationError);
    }

    method EvaluateAfter(cx: Context, n: nat) returns (reply: Reply)
      modifies this
      ensures (reply, elems) == EvalAfter(cx, n, old(elems))
    {
      if IsSeconds(n) != IsSeconds(cx.env.lockTime) { return Fail(AbsoluteLockTimeComparisonInvalid); }
      if n <= cx.env.lockTime {
        Push(Satisfied);
        reply := Emit(SatAfter(n));
      } else {
        reply := Fail(AbsoluteLockTimeNotMet);
      }
    }

    method EvaluateOlder(cx: Context, n: nat) returns (reply: Reply)
      modifies this
      ensures (reply, elems) == EvalOlder(cx, n, old(elems))
    {
      var sequence := cx.env.sequence;
      if RelativeDisabled(sequence) { return Fail(RelativeLockTimeDisabled); }
      if IsRelativeTime(n) == IsRelativeTime(sequence) && RelativeValue(n) <= RelativeValue(sequence) {
        Push(Satisfied);
        reply := Emit(SatOlder(IsRelativeTime(n), RelativeValue(n)));
      } else {
        reply := Fail(RelativeLockTimeNotMet);
      }
    }

    method EvaluateHash(cx: Context, kind: HashKind, image: Bytes) returns (reply: Reply)
      modifies this
      ensures (reply, elems) == EvalHash(cx, kind, image, old(elems))
    {
      var top := Pop();
      if top.None? || !top.value.Push? { return Fail(UnexpectedStackEnd); }
      var preimage := top.value.data;
      if |preimage| != 32 { return Fail(HashPreimageLengthMismatch); }
      if cx.env.hash(kind, preimage) == image {
        Push(Satisfied);
        reply := Emit(SatHash(kind, image, preimage));
      } else {
        Push(Dissatisfied);
        reply := Silent;
      }
    }

    method EvaluateMulti(cx: Context, key: Bytes) returns (reply: Reply)
      modifies this
      ensures (reply, elems) == EvalMultiKey(cx, key, old(elems))
    {
      var top := Pop();
      match top
      case None => reply := Fail(UnexpectedStackEnd);
      case Some(Push(sig)) =>
        if cx.env.sigOk(key, sig) {
          reply := Emit(SatPk(key, sig));
        } else {
          PutBack(elems, Element.Push(sig));
          Push(Element.Push(sig));
          reply := Silent;
        }
      case Some(_) => reply := Fail(UnexpectedStackBoolean);
    }
  }

  // ----- what an iterator has yet to report -----

  /** The constraints still to be yielded, and the error after them, if any. */
  datatype Report = Report(emits: seq<Constraint>, error: Option<Error>)

  /** The end of a run without nodes: a bare key is checked against the top
      element; otherwise exactly one satisfied element must be left. */
  function Ending(cx: Context, publicKey: Option<Bytes>, s: seq<Element>): Report {
    match publicKey
    case Some(key) =>
      if s == [] || !Peek(s).Push? then Report([], Some(UnexpectedStackEnd))
      else if cx.env.sigOk(key, Peek(s).data) then
        Report([SatPk(key, Peek(s).data)], if |s| == 1 then None else Some(ScriptSatisfactionError))
      else Report([], Some(PkEvaluationError))
    case None => Report([], if s == [Satisfied] then None else Some(ScriptSatisfactionError))
  }

  function Reports(cx: Context, publicKey: Option<Bytes>, state: seq<NodeState>, s: seq<Element>): Report {
    var r := RunNodes(cx, state, s);
    match r.out
    case Failed(e) => Report(r.emits, Some(e))
    case Done(s') =>
      var last := Ending(cx, publicKey, s');
      Report(r.emits + last.emits, last.error)
  }

  /** Node states whose counters stay within the node's children. */
  predicate Ready(cx: Context, ns: NodeState) {
    && WellFormed(cx.env, ns.node)
    && (ns.node.Thresh? ==> ns.nEval <= |ns.node.subs|)
    && (ns.node.Multi? || ns.node.MultiA? ==> ns.nEval <= |ns.node.keys|)
  }

  predicate AllReady(cx: Context, state: seq<NodeState>) {
    forall i :: 0 <= i < |state| ==> Ready(cx, state[i])
  }

  lemma VisitReadyBranching(cx: Context, ns: NodeState, s: seq<Element>)
    requires Ready(cx, ns) && !IsSimpleLeaf(ns.node) && !IsUnary(ns.node)
    requires !ns.node.AndV? && !ns.node.AndB? && !ns.node.OrB? && !ns.node.OrI?
    ensures var v := VisitNode(cx, ns, s); v.Go? ==> AllReady(cx, v.push) && !v.reply.Fail?
  {
  }

  /** A visit pushes only states that are ready again. */
  lemma VisitReady(cx: Context, ns: NodeState, s: seq<Element>)
    requires Ready(cx, ns)
    ensures var v := VisitNode(cx, ns, s); v.Go? ==> AllReady(cx, v.push) && !v.reply.Fail?
  {
    var node := ns.node;
    if !IsSimpleLeaf(node) && !IsUnary(node) && !node.AndV? && !node.AndB? && !node.OrB? && !node.OrI? {
      VisitReadyBranching(cx, ns, s);
    }
  }

  /** A visit of the top node takes its constraint off the report. */
  lemma ReportsVisit(cx: Context, publicKey: Option<Bytes>, rest: seq<NodeState>, top: NodeState, s: seq<Element>)
    ensures var v := VisitNode(cx, top, s);
            Reports(cx, publicKey, rest + [top], s) ==
            if v.Halt? then Report([], Some(v.error))
            else
              var later := Reports(cx, publicKey, rest + v.push, v.stack);
              Report(Emitted(v.reply) + later.emits, later.error)
  {
    RunTop(cx, rest, top, s);
    var v := VisitNode(cx, top, s);
    if v.Go? {
      var r := RunNodes(cx, rest + v.push, v.stack);
      if r.out.Done? {
        var last := Ending(cx, publicKey, r.out.stack);
        assert Emitted(v.reply) + r.emits + last.emits == Emitted(v.reply) + (r.emits + last.emits);
      }
    }
  }

  class Iter {
    const cx: Context
    var publicKey: Option<Bytes>
    var state: seq<NodeState>
    const stack: Stack
    var hasErrored: bool

    /** An iterator over a script, or over a single key when `script` is None. */
    constructor (cx: Context, script: Option<Term>, publicKey: Option<Bytes>, wit: seq<Element>)
      requires script.Some? ==> WellFormed(cx.env, script.value)
      ensures Valid() && fresh(stack) && this.cx == cx && this.publicKey == publicKey && !hasErrored
      ensures stack.elems == wit
      ensures state == if script.Some? then [Fresh(script.value)] else []
    {
      this.cx := cx;
      this.publicKey := publicKey;
      state := if script.Some? then [Fresh(script.value)] else [];
      stack := new Stack(wit);
      hasErrored := false;
    }

    ghost predicate Valid() reads this {
      AllReady(cx, state)
    }

    ghost function Remaining(): Report reads this, stack {
      Reports(cx, publicKey, state, stack.elems)
    }

    method PushState(node: Term, nEval: nat, nSat: nat)
      modifies this`state
      ensures state == old(state) + [NodeState(node, nEval, nSat)]
    {
      state := state + [NodeState(node, nEval, nSat)];
    }

    /** The state after a visit `v` that left `rest` on the state stack. */
    twostate predicate Visited(v: Visit, rest: seq<NodeState>, reply: Reply)
      reads this, stack
    {
      if v.Halt? then reply == Fail(v.error) && state == rest
      else reply == v.reply && state == rest + v.push && stack.elems == v.stack
    }

    method VisitLeaf(ns: NodeState) returns (reply: Reply)
      requires IsSimpleLeaf(ns.node)
      modifies stack
      ensures Visited(VisitNode(cx, ns, old(stack.elems)), old(state), reply)
    {
      match ns.node
      case True =>
        stack.Push(Satisfied);
        reply := Silent;
      case False =>
        stack.Push(Dissatisfied);
        reply := Silent;
      case PkK(key) => reply := stack.EvaluatePk(cx, key);
      case PkH(key) => reply := stack.EvaluatePkH(cx, cx.env.hash(Hash160, key));
      case RawPkH(h) => reply := stack.EvaluatePkH(cx, h);
      case TxTemplate(h) =>
        reply := if cx.txTemplate == Some(h) then Emit(SatTemplate(h)) else Fail(TxTemplateHashWrong);
      case After(n) => reply := stack.EvaluateAfter(cx, n);
      case Older(n) => reply := stack.EvaluateOlder(cx, n);
      case HashLock(kind, h) => reply := stack.EvaluateHash(cx, kind, h);
    }

    method VisitWrapper(ns: NodeState) returns (reply: Reply)
      requires IsUnary(ns.node)
      modifies this`state, stack
      ensures Visited(VisitNode(cx, ns, old(stack.elems)), old(state), reply)
    {
      reply := Silent;
      var node, sub := ns.node, ns.node.sub;
      if node.DupIf? && ns.nEval == 0 {
        var top := stack.Pop();
        match top
        case Some(Dissatisfied) =>
          PutBack(stack.elems, Dissatisfied);
          stack.Push(Dissatisfied);
        case Some(Satisfied) =>
          PushState(node, 1, 1);
          PushState(sub, 0, 0);
        case Some(Push(_)) => reply := Fail(UnexpectedStackElementPush);
        case None => reply := Fail(UnexpectedStackEnd);
      } else if node.DupIf? && ns.nEval == 1 {
        stack.Push(Satisfied);
      } else if (node.Verify? || node.ZeroNotEqual?) && ns.nEval == 0 {
        PushState(node, 1, 0);
        PushState(sub, 0, 0);
      } else if node.Verify? && ns.nEval == 1 {
        var top := stack.Pop();
        match top
        case Some(Satisfied) =>
        case Some(_) => reply := Fail(VerifyFailed);
        case None => reply := Fail(UnexpectedStackEnd);
      } else if node.ZeroNotEqual? && ns.nEval == 1 {
        var top := stack.Pop();
        match top
        case Some(Dissatisfied) => stack.Push(Dissatisfied);
        case Some(_) => stack.Push(Satisfied);
        case None => reply := Fail(UnexpectedStackEnd);
      } else if node.NonZero? {
        if stack.elems == [] {
          reply := Fail(UnexpectedStackEnd);
        } else if stack.elems[|stack.elems| - 1] != Dissatisfied {
          PushState(sub, 0, 0);
        }
      } else if node.DupIf? || node.Verify? || node.ZeroNotEqual? {
        reply := Fail(CouldNotEvaluate);
      } else {
        PushState(sub, 0, 0);
      }
    }

    method VisitBoth(ns: NodeState) returns (reply: Reply)
      requires ns.node.AndV? || ns.node.AndB? || ns.node.OrB?
      modifies this`state, stack
      ensures Visited(VisitNode(cx, ns, old(stack.elems)), old(state), reply)
    {
      reply := Silent;
      var node := ns.node;
      if node.AndV? {
        PushState(node.right, 0, 0);
        PushState(node.left, 0, 0);
      } else if ns.nEval == 0 {
        PushState(node, 1, 0);
        PushState(node.left, 0, 0);
      } else if ns.nEval == 1 {
        var top := stack.Pop();
        match top
        case Some(Dissatisfied) =>
          PushState(node, 2, 0);
          PushState(node.right, 0, 0);
        case Some(Satisfied) =>
          PushState(node, 2, 1);
          PushState(node.right, 0, 0);
        case Some(Push(_)) => reply := Fail(UnexpectedStackElementPush);
        case None => reply := Fail(UnexpectedStackEnd);
      } else if ns.nEval == 2 {
        var top := stack.Pop();
        match top
        case None => reply := Fail(UnexpectedStackEnd);
        case Some(e) =>
          if node.AndB? {
            stack.Push(if e == Satisfied && ns.nSat == 1 then Satisfied else Dissatisfied);
          } else {
            stack.Push(if e == Dissatisfied && ns.nSat == 0 then Dissatisfied else Satisfied);
          }
      } else {
        reply := Fail(CouldNotEvaluate);
      }
    }

    method VisitChoice(ns: NodeState) returns (reply: Reply)
      requires ns.node.AndOr? || ns.node.OrD? || ns.node.OrC? || ns.node.OrI?
      modifies this`state, stack
      ensures Visited(VisitNode(cx, ns, old(stack.elems)), old(state), reply)
    {
      reply := Silent;
      var node := ns.node;
      if !node.OrI? && ns.nEval == 0 {
        PushState(node, 1, 0);
        PushState(if node.AndOr? then node.a else node.left, 0, 0);
      } else if (node.OrD? || node.OrC?) && ns.nEval != 1 {
        reply := Fail(CouldNotEvaluate);
      } else {
        var top := stack.Pop();
        match top
        case Some(Satisfied) =>
          match node {
            case AndOr(_, b, _) => PushState(b, 0, 0);
            case OrI(l, _) => PushState(l, 0, 0);
            case OrD(_, _) => stack.Push(Satisfied);
            case OrC(_, _) =>
          }
        case Some(Dissatisfied) =>
          PushState(if node.AndOr? then node.c else node.right, 0, 0);
        case Some(Push(_)) => reply := Fail(UnexpectedStackElementPush);
        case None => reply := Fail(UnexpectedStackEnd);
      }
    }

    method VisitThresh(ns: NodeState) returns (reply: Reply)
      requires ns.node.Thresh? && Ready(cx, ns)
      modifies this`state, stack
      ensures Visited(VisitNode(cx, ns, old(stack.elems)), old(state), reply)
    {
      reply := Silent;
      var k, subs := ns.node.k, ns.node.subs;
      if ns.nEval == 0 {
        PushState(ns.node, 1, 0);
        PushState(subs[0], 0, 0);
      } else if ns.nEval == |subs| {
        var top := stack.Pop();
        match top
        case Some(Dissatisfied) =>
          stack.Push(if ns.nSat == k then Satisfied else Dissatisfied);
        case Some(Satisfied) =>
          stack.Push(if ns.nSat == k - 1 then Satisfied else Dissatisfied);
        case Some(Push(_)) => reply := Fail(UnexpectedStackElementPush);
        case None => reply := Fail(UnexpectedStackEnd);
      } else {
        var top := stack.Pop();
        match top
        case Some(Dissatisfied) =>
          PushState(ns.node, ns.nEval + 1, ns.nSat);
          PushState(subs[ns.nEval], 0, 0);
        case Some(Satisfied) =>
          PushState(ns.node, ns.nEval + 1, ns.nSat + 1);
          PushState(subs[ns.nEval], 0, 0);
        case Some(Push(_)) => reply := Fail(UnexpectedStackElementPush);
        case None => reply := Fail(UnexpectedStackEnd);
      }
    }

    method VisitMultiA(ns: NodeState) returns (reply: Reply)
      requires ns.node.MultiA? && Ready(cx, ns)
      modifies this`state, stack
      ensures Visited(VisitNode(cx, ns, old(stack.elems)), old(state), reply)
    {
      var k, keys := ns.node.k, ns.node.keys;
      if ns.nEval == |keys| {
        stack.Push(if ns.nSat == k then Satisfied else Dissatisfied);
        return Silent;
      }
      reply := stack.EvaluatePk(cx, keys[ns.nEval]);
      match reply
      case Emit(_) =>
        PushState(ns.node, ns.nEval + 1, ns.nSat + 1);
        var _ := stack.Pop();
      case Silent =>
        PushState(ns.node, ns.nEval + 1, ns.nSat);
        var _ := stack.Pop();
      case Fail(_) =>
    }

    method VisitMulti(ns: NodeState) returns (reply: Reply)
      requires ns.node.Multi? && Ready(cx, ns)
      modifies this`state, stack
      ensures Visited(VisitNode(cx, ns, old(stack.elems)), old(state), reply)
    {
      var k, keys := ns.node.k, ns.node.keys;
      if ns.nEval == 0 {
        var len := |stack.elems|;
        if len < k + 1 { return Fail(InsufficientSignaturesMultiSig); }
        if stack.elems[len - 1] == Dissatisfied {
          reply := VisitMultiZero(k);
          assert state + [] == state;
          return;
        }
      } else if ns.nSat == k {
        var top := stack.Pop();
        if top != Some(Dissatisfied) { return Fail(MissingExtraZeroMultiSig); }
        stack.Push(Satisfied);
        assert state + [] == state;
        return Silent;
      } else if ns.nEval == |keys| {
        return Fail(MultiSigEvaluationError);
      }
      reply := stack.EvaluateMulti(cx, keys[|keys| - ns.nEval - 1]);
      match reply
      case Emit(_) => PushState(ns.node, ns.nEval + 1, ns.nSat + 1);
      case Silent => PushState(ns.node, ns.nEval + 1, ns.nSat);
      case Fail(_) =>
    }

    /** The dissatisfaction of `multi`: every one of the k+1 elements is empty. */
    method VisitMultiZero(k: nat) returns (reply: Reply)
      requires k + 1 <= |stack.elems|
      modifies stack
      ensures var s := old(stack.elems);
              if forall i :: |s| - (k + 1) <= i < |s| ==> s[i] == Dissatisfied
              then reply == Silent && stack.elems == s[..|s| - (k + 1)] + [Dissatisfied]
              else reply == Fail(MissingExtraZeroMultiSig)
    {
      ghost var s := stack.elems;
      var sigs := stack.SplitOff(|stack.elems| - (k + 1));
      var nonsat := 0;
      for i := 0 to |sigs|
        invariant nonsat <= i
        invariant nonsat == i <==> forall j :: 0 <= j < i ==> sigs[j] == Dissatisfied
      {
        if sigs[i] == Dissatisfied { nonsat := nonsat + 1; }
      }
      if nonsat == k + 1 {
        stack.Push(Dissatisfied);
        assert forall i :: |s| - (k + 1) <= i < |s| ==> s[i] == sigs[i - (|s| - (k + 1))];
        reply := Silent;
      } else {
        assert forall j :: 0 <= j < |sigs| ==> sigs[j] == s[j + (|s| - (k + 1))];
        reply := Fail(MissingExtraZeroMultiSig);
      }
    }

    /** One visit of the node just popped from the state stack. */
    method Visit(ns: NodeState) returns (reply: Reply)
      requires Ready(cx, ns)
      modifies this`state, stack
      ensures Visited(VisitNode(cx, ns, old(stack.elems)), old(state), reply)
    {
      if IsSimpleLeaf(ns.node) {
        reply := VisitLeaf(ns);
        assert state + [] == state;
      } else if IsUnary(ns.node) {
        reply := VisitWrapper(ns);
      } else {
        match ns.node
        case AndV(_, _) => reply := VisitBoth(ns);
        case AndB(_, _) => reply := VisitBoth(ns);
        case OrB(_, _) => reply := VisitBoth(ns);
        case Thresh(_, _) => reply := VisitThresh(ns);
        case MultiA(_, _) => reply := VisitMultiA(ns);
        case Multi(_, _) => reply := VisitMulti(ns);
        case AndOr(_, _, _) => reply := VisitChoice(ns);
        case OrC(_, _) => reply := VisitChoice(ns);
        case OrD(_, _) => reply := VisitChoice(ns);
        case OrI(_, _) => reply := VisitChoice(ns);
      }
    }

    /** Pops and visits the top node. */
    method VisitTop() returns (reply: Reply)
      requires Valid() && state != []
      modifies this, stack
      ensures Valid() && hasErrored == old(hasErrored)
      ensures reply != Silent ==> NextOf(old(Remaining()), Remaining(), reply)
      ensures reply == Silent ==> Remaining() == old(Remaining()) && StateWork(state) < old(StateWork(state))
    {
      var ns := state[|state| - 1];
      ghost var v := Unwind();
      state := state[..|state| - 1];
      reply := Visit(ns);
      if reply == Silent { assert Emitted(v.reply) == []; }
    }

    /** Advances until there is something to report. */
    method IterNext() returns (reply: Reply)
      requires Valid()
      modifies this, stack
      ensures Valid() && hasErrored == old(hasErrored)
      ensures NextOf(old(Remaining()), Remaining(), reply)
    {
      while state != []
        invariant Valid() && hasErrored == old(hasErrored)
        invariant Remaining() == old(Remaining())
        decreases StateWork(state)
      {
        reply := VisitTop();
        if reply != Silent { return; }
      }
      assert RunNodes(cx, state, stack.elems) == Res([], Done(stack.elems));
      if publicKey.Some? {
        reply := CheckPublicKey(publicKey.value);
      } else {
        var top := stack.Pop();
        reply := if top == Some(Satisfied) && stack.elems == [] then Silent else Fail(ScriptSatisfactionError);
      }
    }

    /** What visiting the top node will change. */
    ghost method Unwind() returns (v: Visit)
      requires Valid() && state != []
      ensures var top, rest := state[|state| - 1], state[..|state| - 1];
              && v == VisitNode(cx, top, stack.elems)
              && AllReady(cx, rest) && Ready(cx, top)
              && (v.Halt? ==> Remaining() == Report([], Some(v.error)))
              && (v.Go? ==>
                    var later := Reports(cx, publicKey, rest + v.push, v.stack);
                    && AllReady(cx, rest + v.push) && !v.reply.Fail?
                    && StateWork(rest + v.push) < StateWork(state)
                    && Remaining() == Report(Emitted(v.reply) + later.emits, later.error))
    {
      var top, rest := state[|state| - 1], state[..|state| - 1];
      v := VisitNode(cx, top, stack.elems);
      assert state == rest + [top];
      ReportsVisit(cx, publicKey, rest, top, stack.elems);
      VisitReady(cx, top, stack.elems);
      VisitProgress(cx, top, stack.elems);
      StateWorkOne(rest, top);
      if v.Go? { StateWorkPush(rest, v.push); }
    }

    /** The end of a bare key spend: the top element must be a signature. */
    method CheckPublicKey(key: Bytes) returns (reply: Reply)
      requires state == [] && publicKey == Some(key)
      modifies this`publicKey, stack
      ensures NextOf(old(Remaining()), Remaining(), reply)
    {
      var top := stack.Pop();
      if top.None? || !top.value.Push? { return Fail(UnexpectedStackEnd); }
      if !cx.env.sigOk(key, top.value.data) { return Fail(PkEvaluationError); }
      publicKey := None;
      stack.Push(Satisfied);
      reply := Emit(SatPk(key, top.value.data));
    }

    /** The iterator: after the first error it yields nothing more. */
    method Next() returns (reply: Reply)
      requires Valid()
      modifies this, stack
      ensures Valid()
      ensures old(hasErrored) ==> reply == Silent && hasErrored && Remaining() == old(Remaining())
      ensures !old(hasErrored) ==> NextOf(old(Remaining()), Remaining(), reply) && hasErrored == reply.Fail?
    {
      if hasErrored { return Silent; }
      reply := IterNext();
      if reply.Fail? { hasErrored := true; }
    }
  }

  /** One item of an iterator whose report was `before` and is `after` now: the
      first constraint, or else the error, or else nothing. */
  predicate NextOf(before: Report, after: Report, reply: Reply) {
    if before.emits != [] then
      reply == Emit(before.emits[0]) && after == Report(before.emits[1..], before.error)
    else if before.error.Some? then reply == Fail(before.error.value)
    else reply == Silent
  }
}
