/** The script of a term mirrors the term's evaluation, constructor by
    constructor. */
module Simulation {
  import opened Bytes
  import opened Script
  import opened Terms
  import opened Types
  import opened Interp
  import opened Frame
  import opened Compile
  import opened Skipping

  // ----- what is known about results -----

  lemma ReprFacts(x: Bytes, e: Element, unit: bool)
    requires Repr(x, e, unit)
    ensures |x| <= MAX_NUM_SIZE && !e.Push?
    ensures CastToBool(x) <==> e == Satisfied
    ensures DecodeNum(x).Some? && (DecodeNum(x).value != 0 <==> e == Satisfied)
    ensures unit ==> x == BoolBytes(e == Satisfied)
    ensures e == Dissatisfied ==> x == FALSE_BYTES
  {
    OneAndZero();
  }

  /** A smaller stack to start from is no different. */
  lemma MatchesBelow(env: Env, base: Base, unit: bool, below: seq<Bytes>, main: seq<Bytes>, out: Outcome, r: Option<seq<Bytes>>)
    requires below <= main && Matches(env, base, unit, below, out, r)
    ensures Matches(env, base, unit, main, out, r)
  {
  }

  lemma SmallBelow(below: seq<Bytes>, main: seq<Bytes>)
    requires below <= main && Small(main)
    ensures Small(below)
  {
  }

  /** The boolean on top of a result and what lies below it. */
  lemma BoolParts(main: seq<Bytes>, unit: bool, out: Outcome, r: Option<seq<Bytes>>)
    requires BoolResult(main, unit, out, r) && out.Done?
    ensures r.Some? && r.value != [] && out.stack != []
    ensures var rest, x := Rest(r.value), Top(r.value);
            && r.value == rest + [x] && rest <= main
            && out.stack == Abs(rest) + [Peek(out.stack)] && Repr(x, Peek(out.stack), unit)
            && PopBool(out.stack) == Popped(Peek(out.stack) == Satisfied, Abs(rest))
  {
    ReprFacts(Top(r.value), Peek(out.stack), unit);
    assert out.stack == Drop1(out.stack) + [Peek(out.stack)];
  }

  // ----- wrappers -----

  lemma CaseCheck(cx: Context, t: Term, st: State)
    requires t.Check? && HasBase(t.sub, K) && Live(st.conds) && Mirrors(cx, t.sub, st)
    ensures Mirrors(cx, t, st)
  {
    var code := Encode(cx.env, t.sub);
    RunToksConcat(cx.env, code, [Op(OpCheckSig)], st);
    var r := RunToks(cx.env, code, st);
    if r.Some? { RunCheckSig(cx.env, r.value); }
  }

  lemma TailVerify(env: Env, main: seq<Bytes>, unit: bool, out: Outcome, st: State)
    requires Live(st.conds) && out.Done? && BoolResult(main, unit, out, Some(st.main))
    ensures var r := RunToks(env, [Op(OpVerify)], st);
            Keeps(st, r) && VoidResult(main, AfterVerify(out.stack), MainOf(r))
  {
    BoolParts(main, unit, out, Some(st.main));
    ReprFacts(Top(st.main), Peek(out.stack), unit);
    RunData(env, OpVerify, st);
  }

  lemma CaseVerify(cx: Context, t: Term, st: State)
    requires t.Verify? && HasBase(t.sub, B) && Live(st.conds) && Mirrors(cx, t.sub, st)
    ensures Mirrors(cx, t, st)
  {
    var code := Encode(cx.env, t.sub);
    RunToksConcat(cx.env, code, [Op(OpVerify)], st);
    var r := RunToks(cx.env, code, st);
    var out := Eval(cx, t.sub, Abs(st.main)).out;
    if out.Done? {
      TailVerify(cx.env, st.main, TypeOf(t.sub).value.unit, out, r.value);
    }
  }

  lemma TailZeroNotEqual(env: Env, main: seq<Bytes>, unit: bool, out: Outcome, st: State)
    requires Live(st.conds) && out.Done? && BoolResult(main, unit, out, Some(st.main))
    ensures var r := RunToks(env, [Op(OpZeroNotEqual)], st);
            Keeps(st, r) && BoolResult(main, true, AfterZeroNotEqual(out.stack), MainOf(r))
  {
    BoolParts(main, unit, out, Some(st.main));
    var e := Peek(out.stack);
    ReprFacts(Top(st.main), e, unit);
    RunData(env, OpZeroNotEqual, st);
    ReprBool(e == Satisfied);
    PushBool(main, Rest(st.main), BoolBytes(e == Satisfied), FromBool(e != Dissatisfied), true);
  }

  lemma CaseZeroNotEqual(cx: Context, t: Term, st: State)
    requires t.ZeroNotEqual? && HasBase(t.sub, B) && Live(st.conds) && Mirrors(cx, t.sub, st)
    ensures Mirrors(cx, t, st)
  {
    var code := Encode(cx.env, t.sub);
    RunToksConcat(cx.env, code, [Op(OpZeroNotEqual)], st);
    var r := RunToks(cx.env, code, st);
    var out := Eval(cx, t.sub, Abs(st.main)).out;
    if out.Done? {
      TailZeroNotEqual(cx.env, st.main, TypeOf(t.sub).value.unit, out, r.value);
    }
  }

  /** Envelopes before a term change nothing. */
  lemma RunInscribed(env: Env, t: Term, st: State)
    requires (t.InscribePre? || t.InscribePost?) && ValidInscriptions(t.inscriptions)
    ensures RunToks(env, Encode(env, t), st) == RunToks(env, Encode(env, t.sub), st)
  {
    var code, envelopes := Encode(env, t.sub), EnvelopeTokens(t.inscriptions);
    if t.InscribePre? {
      RunToksConcat(env, envelopes, code, st);
      EnvelopesNoop(env, t.inscriptions, st);
    } else {
      RunToksConcat(env, code, envelopes, st);
      var r := RunToks(env, code, st);
      if r.Some? { EnvelopesNoop(env, t.inscriptions, r.value); }
    }
  }

  lemma CaseInscribed(cx: Context, t: Term, st: State)
    requires (t.InscribePre? || t.InscribePost?) && ValidInscriptions(t.inscriptions)
    requires IsTyped(t.sub) && Mirrors(cx, t.sub, st)
    ensures Mirrors(cx, t, st)
  {
    RunInscribed(cx.env, t, st);
  }

  lemma CaseInscribedW(cx: Context, t: Term, st: State, y: Bytes)
    requires (t.InscribePre? || t.InscribePost?) && ValidInscriptions(t.inscriptions)
    requires IsTyped(t.sub) && MirrorsW(cx, t.sub, st, y)
    ensures MirrorsW(cx, t, st, y)
  {
    RunInscribed(cx.env, t, st.(main := st.main + [y]));
  }

  /** `a:` puts the other element aside while its argument runs. */
  lemma RunAlt(env: Env, code: seq<Token>, st: State, y: Bytes)
    requires Live(st.conds) && Keeps(st.(alt := st.alt + [y]), RunToks(env, code, st.(alt := st.alt + [y])))
    ensures RunToks(env, [Op(OpToAltStack)] + code + [Op(OpFromAltStack)], st.(main := st.main + [y])) ==
            var r := RunToks(env, code, st.(alt := st.alt + [y]));
            if r == None then None else Some(st.(main := r.value.main + [y]))
  {
    var st0, st1 := st.(main := st.main + [y]), st.(alt := st.alt + [y]);
    RunToksConcat(env, [Op(OpToAltStack)] + code, [Op(OpFromAltStack)], st0);
    RunToksConcat(env, [Op(OpToAltStack)], code, st0);
    RunData(env, OpToAltStack, st0);
    assert Rest(st0.main) == st.main;
    var r := RunToks(env, code, st1);
    if r.Some? {
      RunData(env, OpFromAltStack, r.value);
      assert Rest(st1.alt) == st.alt;
    }
  }

  lemma AltResult(main: seq<Bytes>, unit: bool, out: Outcome, r: Option<seq<Bytes>>, y: Bytes)
    requires BoolResult(main, unit, out, r)
    ensures WResult(main, y, unit, out, if r == None then None else Some(r.value + [y]))
  {
    if r.Some? { assert Rest(r.value + [y]) == r.value; }
  }

  /** What `a:` evaluates to and what its script does, from those of its child. */
  lemma AltParts(cx: Context, t: Term, st: State, y: Bytes, r: Option<State>)
    requires t.Alt? && Live(st.conds) && r == RunToks(cx.env, Encode(cx.env, t.sub), st.(alt := st.alt + [y]))
    requires r == None || (r.value.alt == st.alt + [y] && r.value.conds == st.conds)
    ensures Eval(cx, t, Abs(st.main)) == Eval(cx, t.sub, Abs(st.main))
    ensures RunToks(cx.env, Encode(cx.env, t), st.(main := st.main + [y])) ==
            if r == None then None else Some(st.(main := r.value.main + [y]))
  {
    RunAlt(cx.env, Encode(cx.env, t.sub), st, y);
  }

  lemma CaseAlt(cx: Context, t: Term, st: State, y: Bytes)
    requires t.Alt? && HasBase(t.sub, B) && Live(st.conds) && Mirrors(cx, t.sub, st.(alt := st.alt + [y]))
    ensures MirrorsW(cx, t, st, y)
  {
    var r := RunToks(cx.env, Encode(cx.env, t.sub), st.(alt := st.alt + [y]));
    var out := Eval(cx, t.sub, Abs(st.main)).out;
    AltParts(cx, t, st, y, r);
    AltResult(st.main, TypeOf(t.sub).value.unit, out, MainOf(r), y);
  }

  /** A fragment that takes one element fails when there is none. */
  lemma Starved(cx: Context, t: Term)
    requires IsTyped(t) && TakesOne(TypeOf(t).value.input) && !TypeOf(t).value.base.W?
    ensures Eval(cx, t, []).out.Failed?
  {
    var x := Eval(cx, t, []);
    if x.out.Done? {
      var s := [Satisfied];
      assert s + [] == s && [] + s == s;
      FrameOk(cx, t, s, []);
      StackEffect(cx, t, []);
      LocalEval(cx, t, [], s);
    }
  }

  /** One element on top of either stack: the evaluation does not see the rest. */
  lemma SwapLocal(cx: Context, t: Term, main: seq<Bytes>, y: Bytes, x: Bytes)
    requires HasBase(t, B) && TakesOne(TypeOf(t).value.input)
    ensures var p, q := Eval(cx, t, Abs(main + [x])).out, Eval(cx, t, Abs(main + [y] + [x])).out;
            && p.Done? == q.Done?
            && (q.Done? ==> exists e :: p.stack == Abs(main) + [e] && q.stack == Abs(main + [y]) + [e])
  {
    AbsConcat(main, [x]);
    AbsConcat(main + [y], [x]);
    LocalEval(cx, t, Abs(main), Abs([x]));
    LocalEval(cx, t, Abs(main + [y]), Abs([x]));
    var r := Eval(cx, t, Abs([x])).out;
    if r.Done? {
      assert r.stack == [r.stack[0]];
    }
  }

  lemma RunSwap(env: Env, code: seq<Token>, st: State, y: Bytes, rest: seq<Bytes>, x: Bytes)
    requires Live(st.conds) && st.main == rest + [x]
    ensures RunToks(env, [Op(OpSwap)] + code, st.(main := st.main + [y])) ==
            RunToks(env, code, st.(main := rest + [y] + [x]))
  {
    var st0 := st.(main := st.main + [y]);
    RunToksConcat(env, [Op(OpSwap)], code, st0);
    RunData(env, OpSwap, st0);
    assert st0.main[..|st0.main| - 2] + [y, x] == rest + [y] + [x];
  }

  /** The argument's result `q` on `rest y x` as a result of `s:` on `rest x`. */
  lemma SwapResult(rest: seq<Bytes>, x: Bytes, y: Bytes, unit: bool, p: Outcome, q: Outcome, r: Option<seq<Bytes>>)
    requires BoolResult(rest + [y] + [x], unit, q, r) && p.Done? == q.Done?
    requires q.Done? ==> exists e :: p.stack == Abs(rest) + [e] && q.stack == Abs(rest + [y]) + [e]
    ensures WResult(rest + [x], y, unit, p, r)
  {
    if q.Done? {
      BoolParts(rest + [y] + [x], unit, q, r);
      SwapParts(rest + [y] + [x], rest, y, x, r.value, q.stack);
      assert Rest(rest + [y]) == rest && Top(rest + [y]) == y;
      assert Drop1(p.stack) == Abs(rest) && Peek(p.stack) == Peek(q.stack);
    }
  }

  lemma CaseSwapFull(cx: Context, t: Term, st: State, y: Bytes, rest: seq<Bytes>, x: Bytes)
    requires t.Swap? && HasBase(t.sub, B) && TakesOne(TypeOf(t.sub).value.input) && Live(st.conds)
    requires st.main == rest + [x] && Mirrors(cx, t.sub, st.(main := rest + [y] + [x]))
    ensures MirrorsW(cx, t, st, y)
  {
    var code := Encode(cx.env, t.sub);
    RunSwap(cx.env, code, st, y, rest, x);
    SwapLocal(cx, t.sub, rest, y, x);
    var r := RunToks(cx.env, code, st.(main := rest + [y] + [x]));
    SwapResult(rest, x, y, TypeOf(t.sub).value.unit, Eval(cx, t.sub, Abs(rest + [x])).out,
      Eval(cx, t.sub, Abs(rest + [y] + [x])).out, MainOf(r));
  }

  lemma SwapParts(main: seq<Bytes>, rest: seq<Bytes>, y: Bytes, x: Bytes, m: seq<Bytes>, s: Interp.Stack)
    requires main == rest + [y] + [x] && m != [] && Rest(m) <= main && s != []
    requires Drop1(s) == Abs(Rest(m)) && exists e :: s == Abs(rest + [y]) + [e]
    ensures Rest(m) == rest + [y]
  {
    assert |Rest(m)| == |s| - 1;
    assert main[..|rest| + 1] == rest + [y];
  }

  /** `s:` moves its argument's only input above the other element. */
  lemma CaseSwap(cx: Context, t: Term, st: State, y: Bytes)
    requires t.Swap? && HasBase(t.sub, B) && TakesOne(TypeOf(t.sub).value.input) && Live(st.conds)
    requires st.main != [] ==> Mirrors(cx, t.sub, st.(main := Rest(st.main) + [y] + [Top(st.main)]))
    ensures MirrorsW(cx, t, st, y)
  {
    if st.main == [] {
      Starved(cx, t.sub);
      assert Abs(st.main) == [];
      var st0 := st.(main := st.main + [y]);
      RunToksConcat(cx.env, [Op(OpSwap)], Encode(cx.env, t.sub), st0);
      RunData(cx.env, OpSwap, st0);
    } else {
      CaseSwapFull(cx, t, st, y, Rest(st.main), Top(st.main));
    }
  }

  // ----- branches -----

  function Close(st: State, r: Option<State>): Option<State> {
    if r == None then None else Some(r.value.(conds := st.conds))
  }

  /** The state inside a branch. */
  function Inside(st: State, c: bool): State { st.(conds := st.conds + [c]) }

  /** `IF body ENDIF` and `NOTIF body ENDIF` above a minimal boolean. */
  lemma RunIf(env: Env, op: Opcode, body: seq<Token>, st: State, b: bool)
    requires (op.OpIf? || op.OpNotIf?) && Live(st.conds)
    requires b == op.OpIf? ==> Keeps(Inside(st, true), RunToks(env, body, Inside(st, true)))
    requires b != op.OpIf? ==> Skips(env, body, Inside(st, false))
    ensures RunToks(env, [Op(op)] + body + [Op(OpEndIf)], st.(main := st.main + [BoolBytes(b)]))
            == if b == op.OpIf? then Close(st, RunToks(env, body, Inside(st, true))) else Some(st)
  {
    var st0 := st.(main := st.main + [BoolBytes(b)]);
    var st1 := Inside(st, b == op.OpIf?);
    RunToksConcat(env, [Op(op)] + body, [Op(OpEndIf)], st0);
    RunToksConcat(env, [Op(op)], body, st0);
    RunBranch(env, op, st, b);
    CondsPushPop(st, b == op.OpIf?);
    var r := RunToks(env, body, st1);
    if r.Some? { RunOp(env, OpEndIf, r.value); }
  }

  lemma RunBranch(env: Env, op: Opcode, st: State, b: bool)
    requires (op.OpIf? || op.OpNotIf?) && Live(st.conds)
    ensures RunToks(env, [Op(op)], st.(main := st.main + [BoolBytes(b)])) == Some(Inside(st, b == op.OpIf?))
  {
    var st0 := st.(main := st.main + [BoolBytes(b)]);
    RunOp(env, op, st0);
    OneAndZero();
    assert Rest(st0.main) == st.main && Top(st0.main) == BoolBytes(b);
  }

  /** An operand that is not a minimal boolean, or none at all, is refused. */
  lemma RunBranchBad(env: Env, op: Opcode, rest: seq<Token>, st: State)
    requires (op.OpIf? || op.OpNotIf?) && Live(st.conds)
    requires st.main == [] || !IsMinimalBool(Top(st.main))
    ensures RunToks(env, [Op(op)] + rest, st) == None
  {
    RunToksConcat(env, [Op(op)], rest, st);
    RunOp(env, op, st);
  }

  /** `IF body ELSE other ENDIF` when the first part is run. */
  lemma RunIfElseFirst(env: Env, op: Opcode, body: seq<Token>, other: seq<Token>, st: State)
    requires (op.OpIf? || op.OpNotIf?) && Live(st.conds)
    requires Keeps(Inside(st, true), RunToks(env, body, Inside(st, true)))
    requires forall main :: Skips(env, other, Inside(st.(main := main), false))
    ensures RunToks(env, [Op(op)] + body + [Op(OpElse)] + other + [Op(OpEndIf)],
              st.(main := st.main + [BoolBytes(op.OpIf?)]))
            == Close(st, RunToks(env, body, Inside(st, true)))
  {
    var st0 := st.(main := st.main + [BoolBytes(op.OpIf?)]);
    IfElsePieces(env, op, body, other, st0);
    RunBranch(env, op, st, op.OpIf?);
    var r := RunToks(env, body, Inside(st, true));
    if r.Some? {
      var after := st.(main := r.value.main);
      CondsPushPop(st, true);
      CondsPushPop(st, false);
      RunElse(env, after, true);
      assert Inside(after, true) == r.value;
      assert Skips(env, other, Inside(st.(main := r.value.main), false));
      RunOp(env, OpEndIf, Inside(after, false));
    }
  }

  /** The same when the second part is run. */
  lemma RunIfElseSecond(env: Env, op: Opcode, body: seq<Token>, other: seq<Token>, st: State)
    requires (op.OpIf? || op.OpNotIf?) && Live(st.conds)
    requires Skips(env, body, Inside(st, false))
    requires Keeps(Inside(st, true), RunToks(env, other, Inside(st, true)))
    ensures RunToks(env, [Op(op)] + body + [Op(OpElse)] + other + [Op(OpEndIf)],
              st.(main := st.main + [BoolBytes(!op.OpIf?)]))
            == Close(st, RunToks(env, other, Inside(st, true)))
  {
    var st0 := st.(main := st.main + [BoolBytes(!op.OpIf?)]);
    IfElsePieces(env, op, body, other, st0);
    RunBranch(env, op, st, !op.OpIf?);
    RunElse(env, st, false);
    CondsPushPop(st, true);
    var r := RunToks(env, other, Inside(st, true));
    if r.Some? { RunOp(env, OpEndIf, r.value); }
  }

  lemma RunElse(env: Env, st: State, c: bool)
    ensures RunToks(env, [Op(OpElse)], Inside(st, c)) == Some(Inside(st, !c))
  {
    RunOp(env, OpElse, Inside(st, c));
    var conds := st.conds + [c];
    assert conds[|conds| - 1 := !c] == st.conds + [!c];
  }

  lemma IfElsePieces(env: Env, op: Opcode, body: seq<Token>, other: seq<Token>, st: State)
    ensures RunToks(env, [Op(op)] + body + [Op(OpElse)] + other + [Op(OpEndIf)], st) ==
            Bind(env, Bind(env, Bind(env, Bind(env, RunToks(env, [Op(op)], st), body), [Op(OpElse)]), other), [Op(OpEndIf)])
  {
    RunToksConcat(env, [Op(op)] + body + [Op(OpElse)] + other, [Op(OpEndIf)], st);
    RunToksConcat(env, [Op(op)] + body + [Op(OpElse)], other, st);
    RunToksConcat(env, [Op(op)] + body, [Op(OpElse)], st);
    RunToksConcat(env, [Op(op)], body, st);
  }
}
