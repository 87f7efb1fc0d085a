/** Fragments with several parts: conjunctions, disjunctions and guards. */
module Choices {
  import opened Bytes
  import opened Script
  import opened Terms
  import opened Types
  import opened Interp
  import opened Compile
  import opened Skipping
  import opened Simulation

  /** The part of a fragment that is always run first. */
  function FirstPart(t: Term): Term
    requires t.AndV? || t.AndB? || t.OrB? || t.AndOr? || t.OrD? || t.OrC?
  {
    if t.AndOr? then t.a else t.left
  }

  /** Everything in a script after its first part. */
  function LaterTokens(env: Env, t: Term): seq<Token>
    requires t.AndV? || t.AndB? || t.OrB? || t.AndOr? || t.OrD? || t.OrC?
  {
    match t
    case AndV(_, r) => Encode(env, r)
    case AndB(_, r) => Encode(env, r) + [Op(OpBoolAnd)]
    case OrB(_, r) => Encode(env, r) + [Op(OpBoolOr)]
    case OrD(_, r) => [Op(OpIfDup)] + ([Op(OpNotIf)] + Encode(env, r) + [Op(OpEndIf)])
    case OrC(_, r) => [Op(OpNotIf)] + Encode(env, r) + [Op(OpEndIf)]
    case AndOr(_, b, c) => [Op(OpNotIf)] + Encode(env, c) + [Op(OpElse)] + Encode(env, b) + [Op(OpEndIf)]
  }

  lemma EncodeSplit(env: Env, t: Term)
    requires t.AndV? || t.AndB? || t.OrB? || t.AndOr? || t.OrD? || t.OrC?
    ensures Encode(env, t) == Encode(env, FirstPart(t)) + LaterTokens(env, t)
  {
    if t.AndOr? {
      AndOrTokens(Encode(env, t.a), Encode(env, t.b), Encode(env, t.c));
    } else {
      var l, r := Encode(env, t.left), Encode(env, t.right);
      if t.OrD? {
        OrDTokens(l, r);
        assert l + [Op(OpIfDup)] + ([Op(OpNotIf)] + r + [Op(OpEndIf)]) == l + LaterTokens(env, t);
      } else if t.OrC? {
        OrCTokens(l, r);
      } else if t.AndB? {
        assert l + r + [Op(OpBoolAnd)] == l + (r + [Op(OpBoolAnd)]);
      } else if t.OrB? {
        assert l + r + [Op(OpBoolOr)] == l + (r + [Op(OpBoolOr)]);
      }
    }
  }

  /** The first part has run and left `x` for the element `e`, above `rest`. */
  ghost predicate Ran(cx: Context, l: Term, st: State, rest: seq<Bytes>, x: Bytes, e: Element)
    requires IsTyped(l)
  {
    && rest <= st.main && Repr(x, e, TypeOf(l).value.unit)
    && RunToks(cx.env, Encode(cx.env, l), st) == Some(st.(main := rest + [x]))
    && Eval(cx, l, Abs(st.main)).out == Done(Abs(rest) + [e])
  }

  lemma RanFirst(cx: Context, l: Term, st: State) returns (rest: seq<Bytes>, x: Bytes, e: Element)
    requires HasBase(l, B) && Mirrors(cx, l, st) && Eval(cx, l, Abs(st.main)).out.Done?
    ensures Ran(cx, l, st, rest, x, e)
  {
    var r := RunToks(cx.env, Encode(cx.env, l), st);
    var out := Eval(cx, l, Abs(st.main)).out;
    BoolParts(st.main, TypeOf(l).value.unit, out, MainOf(r));
    rest, x, e := Rest(r.value.main), Top(r.value.main), Peek(out.stack);
    assert r.value == st.(main := rest + [x]);
  }

  /** A failing first part makes the whole fail. */
  lemma FirstFails(cx: Context, t: Term, st: State)
    requires t.AndV? || t.AndB? || t.OrB? || t.AndOr? || t.OrD? || t.OrC?
    requires Eval(cx, FirstPart(t), Abs(st.main)).out.Failed?
    requires RunToks(cx.env, Encode(cx.env, FirstPart(t)), st) == None
    ensures RunToks(cx.env, Encode(cx.env, t), st) == None && Eval(cx, t, Abs(st.main)).out.Failed?
  {
    EncodeSplit(cx.env, t);
    RunToksConcat(cx.env, Encode(cx.env, FirstPart(t)), LaterTokens(cx.env, t), st);
  }

  lemma FirstRuns(cx: Context, t: Term, st: State, rest: seq<Bytes>, x: Bytes, e: Element)
    requires t.AndB? || t.OrB? || t.AndOr? || t.OrD? || t.OrC?
    requires IsTyped(FirstPart(t)) && Ran(cx, FirstPart(t), st, rest, x, e)
    ensures RunToks(cx.env, Encode(cx.env, t), st) ==
            RunToks(cx.env, LaterTokens(cx.env, t), st.(main := rest + [x]))
    ensures PopOf(Eval(cx, FirstPart(t), Abs(st.main))) ==
            PopRes(Eval(cx, FirstPart(t), Abs(st.main)), Popped(e == Satisfied, Abs(rest)))
  {
    EncodeSplit(cx.env, t);
    RunToksConcat(cx.env, Encode(cx.env, FirstPart(t)), LaterTokens(cx.env, t), st);
    ReprFacts(x, e, TypeOf(FirstPart(t)).value.unit);
    assert Drop1(Abs(rest) + [e]) == Abs(rest);
  }

  // ----- and_v -----

  lemma CaseAndV(cx: Context, t: Term, st: State, main: seq<Bytes>)
    requires t.AndV? && IsTyped(t) && HasBase(t.left, V) && IsTyped(t.right)
    requires main <= st.main && RunToks(cx.env, Encode(cx.env, t.left), st) == Some(st.(main := main))
    requires Eval(cx, t.left, Abs(st.main)).out == Done(Abs(main))
    requires Mirrors(cx, t.right, st.(main := main))
    ensures Mirrors(cx, t, st)
  {
    RunToksConcat(cx.env, Encode(cx.env, t.left), Encode(cx.env, t.right), st);
    var x := TypeOf(t.right).value;
    var r := RunToks(cx.env, Encode(cx.env, t.right), st.(main := main));
    MatchesBelow(cx.env, x.base, x.unit, main, st.main, Eval(cx, t.right, Abs(main)).out, MainOf(r));
  }

  // ----- and_b, or_b -----

  lemma RunBoolOp(env: Env, op: Opcode, st: State, rest: seq<Bytes>, x: Bytes, y: Bytes, p: bool, q: bool)
    requires (op.OpBoolAnd? || op.OpBoolOr?) && Live(st.conds)
    requires st.main == rest + [x, y]
    requires DecodeNum(x).Some? && (DecodeNum(x).value != 0 <==> p)
    requires DecodeNum(y).Some? && (DecodeNum(y).value != 0 <==> q)
    ensures RunToks(env, [Op(op)], st) ==
            Some(st.(main := rest + [BoolBytes(if op.OpBoolAnd? then p && q else p || q)]))
  {
    RunData(env, op, st);
    assert st.main[..|st.main| - 2] == rest;
  }

  /** What BOOLAND or BOOLOR makes of the result of the second part. */
  lemma TailBool(env: Env, op: Opcode, st: State, main: seq<Bytes>, x: Bytes, e: Element, u: bool, v: bool, out: Outcome)
    requires (op.OpBoolAnd? || op.OpBoolOr?) && Live(st.conds)
    requires Repr(x, e, u) && out.Done? && WResult(main, x, v, out, Some(st.main))
    ensures var r := RunToks(env, [Op(op)], st);
            var p, q := e == Satisfied, Peek(out.stack) == Satisfied;
            && Keeps(st, r) && Peek(out.stack) == FromBool(q)
            && BoolResult(main, true,
                 Done(Drop1(out.stack) + [FromBool(if op.OpBoolAnd? then p && q else p || q)]), MainOf(r))
  {
    var rest, a, b := Rest(Rest(st.main)), Top(Rest(st.main)), Top(st.main);
    assert st.main == rest + [a, b];
    var p, q := e == Satisfied, Peek(out.stack) == Satisfied;
    ReprFacts(x, e, u);
    if b == x && Repr(a, Peek(out.stack), v) {
      ReprFacts(a, Peek(out.stack), v);
      RunBoolOp(env, op, st, rest, a, b, q, p);
    } else {
      ReprFacts(b, Peek(out.stack), v);
      RunBoolOp(env, op, st, rest, a, b, p, q);
    }
    var c := if op.OpBoolAnd? then p && q else p || q;
    ReprBool(c);
    PushBool(main, rest, BoolBytes(c), FromBool(c), true);
  }

  lemma EvalBoth(cx: Context, t: Term, s: Interp.Stack, p: bool, rest: Interp.Stack)
    requires t.AndB? || t.OrB?
    requires PopOf(Eval(cx, t.left, s)).popped == Popped(p, rest)
    ensures var y := Eval(cx, t.right, rest).out;
            if y.Failed? then Eval(cx, t, s).out.Failed?
            else if y.stack == [] || Peek(y.stack).Push? then true
            else
              var q := Peek(y.stack) == Satisfied;
              Eval(cx, t, s).out == Done(Drop1(y.stack) + [FromBool(if t.AndB? then p && q else p || q)])
  {
  }

  lemma CaseBoth(cx: Context, t: Term, st: State, rest: seq<Bytes>, x: Bytes, e: Element)
    requires (t.AndB? || t.OrB?) && HasBase(t, B) && IsTyped(t.left) && IsTyped(t.right) && Live(st.conds)
    requires Ran(cx, t.left, st, rest, x, e) && MirrorsW(cx, t.right, st.(main := rest), x)
    ensures Mirrors(cx, t, st)
  {
    FirstRuns(cx, t, st, rest, x, e);
    EvalBoth(cx, t, Abs(st.main), e == Satisfied, Abs(rest));
    var st1, op := st.(main := rest + [x]), if t.AndB? then OpBoolAnd else OpBoolOr;
    SecondMatches(cx, op, t.right, st1, rest, x, e, TypeOf(t.left).value.unit);
    var r := RunToks(cx.env, LaterTokens(cx.env, t), st1);
    assert Mirrors(cx, t, st) by {
      assert Keeps(st, r);
      MatchesBelow(cx.env, B, true, rest, st.main, Eval(cx, t, Abs(st.main)).out, MainOf(r));
      BoolUnit(st.main, TypeOf(t).value.unit, Eval(cx, t, Abs(st.main)).out, MainOf(r));
    }
  }

  lemma BoolUnit(main: seq<Bytes>, unit: bool, out: Outcome, r: Option<seq<Bytes>>)
    requires BoolResult(main, true, out, r)
    ensures BoolResult(main, unit, out, r)
  {
  }

  /** The second part and the opcode that combines it with the first. */
  lemma SecondMatches(cx: Context, op: Opcode, w: Term, st: State, rest: seq<Bytes>, x: Bytes, e: Element, u: bool)
    requires (op.OpBoolAnd? || op.OpBoolOr?) && IsTyped(w) && Live(st.conds)
    requires st.main == rest + [x] && Repr(x, e, u) && MirrorsW(cx, w, st.(main := rest), x)
    ensures var r := RunToks(cx.env, Encode(cx.env, w) + [Op(op)], st);
            var out := Eval(cx, w, Abs(rest)).out;
            && Keeps(st, r)
            && if out.Failed? then r == None
               else
                 && out.stack != [] && !Peek(out.stack).Push?
                 && var p, q := e == Satisfied, Peek(out.stack) == Satisfied;
                    BoolResult(rest, true,
                      Done(Drop1(out.stack) + [FromBool(if op.OpBoolAnd? then p && q else p || q)]), MainOf(r))
  {
    var code := Encode(cx.env, w);
    RunToksConcat(cx.env, code, [Op(op)], st);
    var r := RunToks(cx.env, code, st);
    assert st.(main := rest).(main := rest + [x]) == st;
    if r.Some? {
      TailBool(cx.env, op, r.value, rest, x, e, u, TypeOf(w).value.unit, Eval(cx, w, Abs(rest)).out);
    }
  }

  // ----- or_c, or_d -----

  /** Any untaken term is skipped whatever the main stack holds. */
  lemma SkipAnywhere(env: Env, t: Term, st: State)
    requires Sane(env) && WellFormed(env, t)
    ensures forall main :: Skips(env, Encode(env, t), Inside(st.(main := main), false))
  {
    forall main
      ensures Skips(env, Encode(env, t), Inside(st.(main := main), false))
    {
      CondsPushPop(st.(main := main), false);
      SkipTerm(env, t, Inside(st.(main := main), false));
    }
  }

  /** The chosen part decides the result of the whole. */
  lemma ChosenMatches(cx: Context, part: Term, base: Base, unit: bool, st: State, main: seq<Bytes>, out: Outcome)
    requires HasBase(part, base) && (unit ==> TypeOf(part).value.unit) && st.main <= main
    requires Mirrors(cx, part, Inside(st, true)) && out == Eval(cx, part, Abs(st.main)).out
    ensures var r := Close(st, RunToks(cx.env, Encode(cx.env, part), Inside(st, true)));
            Matches(cx.env, base, unit, main, out, MainOf(r)) && Keeps(st, r)
  {
    var r := RunToks(cx.env, Encode(cx.env, part), Inside(st, true));
    MatchesBelow(cx.env, base, TypeOf(part).value.unit, st.main, main, out, MainOf(r));
    assert MainOf(Close(st, r)) == MainOf(r);
  }

  lemma OrCParts(cx: Context, t: Term, st: State, rest: seq<Bytes>, b: bool)
    requires t.OrC? && IsTyped(t.left) && Live(st.conds) && Sane(cx.env) && WellFormed(cx.env, t.right)
    requires Ran(cx, t.left, st, rest, BoolBytes(b), FromBool(b))
    requires var inside := Inside(st.(main := rest), true);
             !b ==> Keeps(inside, RunToks(cx.env, Encode(cx.env, t.right), inside))
    ensures var st1 := st.(main := rest);
            && RunToks(cx.env, Encode(cx.env, t), st) ==
               (if b then Some(st1) else Close(st1, RunToks(cx.env, Encode(cx.env, t.right), Inside(st1, true))))
            && Eval(cx, t, Abs(st.main)).out == if b then Done(Abs(rest)) else Eval(cx, t.right, Abs(rest)).out
  {
    FirstRuns(cx, t, st, rest, BoolBytes(b), FromBool(b));
    SkipAnywhere(cx.env, t.right, st);
    RunIf(cx.env, OpNotIf, Encode(cx.env, t.right), st.(main := rest), b);
  }

  lemma CaseOrC(cx: Context, t: Term, st: State, rest: seq<Bytes>, b: bool)
    requires t.OrC? && HasBase(t, V) && IsTyped(t.left) && HasBase(t.right, V) && Live(st.conds)
    requires Sane(cx.env) && WellFormed(cx.env, t.right)
    requires Ran(cx, t.left, st, rest, BoolBytes(b), FromBool(b))
    requires !b ==> Mirrors(cx, t.right, Inside(st.(main := rest), true))
    ensures Mirrors(cx, t, st)
  {
    OrCParts(cx, t, st, rest, b);
    if !b {
      ChosenMatches(cx, t.right, V, false, st.(main := rest), st.main, Eval(cx, t.right, Abs(rest)).out);
    }
  }

  /** `IFDUP NOTIF r ENDIF` above a minimal boolean. */
  lemma RunIfDup(env: Env, r: seq<Token>, st: State, b: bool)
    requires Live(st.conds)
    requires !b ==> Keeps(Inside(st, true), RunToks(env, r, Inside(st, true)))
    requires b ==> Skips(env, r, Inside(st.(main := st.main + [TRUE_BYTES]), false))
    ensures RunToks(env, [Op(OpIfDup)] + ([Op(OpNotIf)] + r + [Op(OpEndIf)]), st.(main := st.main + [BoolBytes(b)]))
            == if b then Some(st.(main := st.main + [TRUE_BYTES])) else Close(st, RunToks(env, r, Inside(st, true)))
  {
    var st0 := st.(main := st.main + [BoolBytes(b)]);
    RunToksConcat(env, [Op(OpIfDup)], [Op(OpNotIf)] + r + [Op(OpEndIf)], st0);
    RunData(env, OpIfDup, st0);
    OneAndZero();
    RunIf(env, OpNotIf, r, if b then st0 else st, b);
  }

  lemma OrDParts(cx: Context, t: Term, st: State, rest: seq<Bytes>, b: bool)
    requires t.OrD? && IsTyped(t.left) && Live(st.conds) && Sane(cx.env) && WellFormed(cx.env, t.right)
    requires Ran(cx, t.left, st, rest, BoolBytes(b), FromBool(b))
    requires var inside := Inside(st.(main := rest), true);
             !b ==> Keeps(inside, RunToks(cx.env, Encode(cx.env, t.right), inside))
    ensures var st1 := st.(main := rest);
            && RunToks(cx.env, Encode(cx.env, t), st) ==
               (if b then Some(st.(main := rest + [TRUE_BYTES]))
                else Close(st1, RunToks(cx.env, Encode(cx.env, t.right), Inside(st1, true))))
            && Eval(cx, t, Abs(st.main)).out ==
               if b then Done(Abs(rest) + [Satisfied]) else Eval(cx, t.right, Abs(rest)).out
  {
    FirstRuns(cx, t, st, rest, BoolBytes(b), FromBool(b));
    SkipAnywhere(cx.env, t.right, st);
    RunIfDup(cx.env, Encode(cx.env, t.right), st.(main := rest), b);
  }

  lemma CaseOrD(cx: Context, t: Term, st: State, rest: seq<Bytes>, b: bool)
    requires t.OrD? && HasBase(t, B) && IsTyped(t.left) && HasBase(t.right, B) && Live(st.conds)
    requires TypeOf(t).value.unit == TypeOf(t.right).value.unit
    requires Sane(cx.env) && WellFormed(cx.env, t.right)
    requires Ran(cx, t.left, st, rest, BoolBytes(b), FromBool(b))
    requires !b ==> Mirrors(cx, t.right, Inside(st.(main := rest), true))
    ensures Mirrors(cx, t, st)
  {
    OrDParts(cx, t, st, rest, b);
    var unit := TypeOf(t).value.unit;
    if b {
      ReprBool(true);
      PushBool(st.main, rest, TRUE_BYTES, Satisfied, unit);
    } else {
      ChosenMatches(cx, t.right, B, unit, st.(main := rest), st.main, Eval(cx, t.right, Abs(rest)).out);
    }
  }

  // ----- andor, or_i -----

  /** `IF l ELSE r ENDIF` or the same with NOTIF: one of the two is run. */
  lemma RunEither(env: Env, op: Opcode, l: Term, r: Term, st: State, b: bool)
    requires (op.OpIf? || op.OpNotIf?) && Live(st.conds)
    requires Sane(env) && WellFormed(env, l) && WellFormed(env, r)
    requires Keeps(Inside(st, true), RunToks(env, Encode(env, if b == op.OpIf? then l else r), Inside(st, true)))
    ensures RunToks(env, [Op(op)] + Encode(env, l) + [Op(OpElse)] + Encode(env, r) + [Op(OpEndIf)],
              st.(main := st.main + [BoolBytes(b)]))
            == Close(st, RunToks(env, Encode(env, if b == op.OpIf? then l else r), Inside(st, true)))
  {
    if b == op.OpIf? {
      SkipAnywhere(env, r, st);
      RunIfElseFirst(env, op, Encode(env, l), Encode(env, r), st);
    } else {
      CondsPushPop(st, false);
      SkipTerm(env, l, Inside(st, false));
      RunIfElseSecond(env, op, Encode(env, l), Encode(env, r), st);
    }
  }

  lemma AndOrParts(cx: Context, t: Term, st: State, rest: seq<Bytes>, b: bool)
    requires t.AndOr? && IsTyped(t.a) && Live(st.conds)
    requires Sane(cx.env) && WellFormed(cx.env, t.b) && WellFormed(cx.env, t.c)
    requires Ran(cx, t.a, st, rest, BoolBytes(b), FromBool(b))
    requires var inside := Inside(st.(main := rest), true);
             Keeps(inside, RunToks(cx.env, Encode(cx.env, if b then t.b else t.c), inside))
    ensures var st1, part := st.(main := rest), if b then t.b else t.c;
            && RunToks(cx.env, Encode(cx.env, t), st)
               == Close(st1, RunToks(cx.env, Encode(cx.env, part), Inside(st1, true)))
            && Eval(cx, t, Abs(st.main)).out == Eval(cx, part, Abs(rest)).out
  {
    FirstRuns(cx, t, st, rest, BoolBytes(b), FromBool(b));
    RunEither(cx.env, OpNotIf, t.c, t.b, st.(main := rest), b);
  }

  lemma CaseAndOr(cx: Context, t: Term, st: State, rest: seq<Bytes>, b: bool, base: Base)
    requires t.AndOr? && HasBase(t, base) && IsTyped(t.a) && HasBase(t.b, base) && HasBase(t.c, base)
    requires TypeOf(t).value.unit ==> TypeOf(t.b).value.unit && TypeOf(t.c).value.unit
    requires Sane(cx.env) && WellFormed(cx.env, t.b) && WellFormed(cx.env, t.c) && Live(st.conds)
    requires Ran(cx, t.a, st, rest, BoolBytes(b), FromBool(b))
    requires Mirrors(cx, if b then t.b else t.c, Inside(st.(main := rest), true))
    ensures Mirrors(cx, t, st)
  {
    AndOrParts(cx, t, st, rest, b);
    var st1, part := st.(main := rest), if b then t.b else t.c;
    ChosenMatches(cx, part, base, TypeOf(t).value.unit, st1, st.main, Eval(cx, part, Abs(rest)).out);
  }

  lemma OrIParts(cx: Context, t: Term, st: State, rest: seq<Bytes>, b: bool)
    requires t.OrI? && Live(st.conds) && st.main == rest + [BoolBytes(b)]
    requires Sane(cx.env) && WellFormed(cx.env, t.left) && WellFormed(cx.env, t.right)
    requires var inside := Inside(st.(main := rest), true);
             Keeps(inside, RunToks(cx.env, Encode(cx.env, if b then t.left else t.right), inside))
    ensures var st1, part := st.(main := rest), if b then t.left else t.right;
            && RunToks(cx.env, Encode(cx.env, t), st)
               == Close(st1, RunToks(cx.env, Encode(cx.env, part), Inside(st1, true)))
            && Eval(cx, t, Abs(st.main)).out == Eval(cx, part, Abs(rest)).out
  {
    RunEither(cx.env, OpIf, t.left, t.right, st.(main := rest), b);
    PopMinimal(st.main);
    assert Rest(st.main) == rest;
  }

  lemma CaseOrI(cx: Context, t: Term, st: State, rest: seq<Bytes>, b: bool, base: Base)
    requires t.OrI? && HasBase(t, base) && HasBase(t.left, base) && HasBase(t.right, base)
    requires TypeOf(t).value.unit ==> TypeOf(t.left).value.unit && TypeOf(t.right).value.unit
    requires Sane(cx.env) && WellFormed(cx.env, t.left) && WellFormed(cx.env, t.right) && Live(st.conds)
    requires st.main == rest + [BoolBytes(b)]
    requires Mirrors(cx, if b then t.left else t.right, Inside(st.(main := rest), true))
    ensures Mirrors(cx, t, st)
  {
    OrIParts(cx, t, st, rest, b);
    var st1, part := st.(main := rest), if b then t.left else t.right;
    assert rest <= st.main;
    ChosenMatches(cx, part, base, TypeOf(t).value.unit, st1, st.main, Eval(cx, part, Abs(rest)).out);
  }

  /** The interpreter pops exactly the booleans MINIMALIF accepts. */
  lemma PopMinimal(main: seq<Bytes>)
    ensures PopBool(Abs(main)).Popped? <==> main != [] && IsMinimalBool(Top(main))
    ensures main != [] && IsMinimalBool(Top(main)) ==>
            PopBool(Abs(main)) == Popped(Top(main) == TRUE_BYTES, Abs(Rest(main)))
            && main == Rest(main) + [BoolBytes(Top(main) == TRUE_BYTES)]
  {
    if main != [] { AbsRest(main); }
  }

  lemma CaseOrIBad(cx: Context, t: Term, st: State)
    requires t.OrI? && IsTyped(t) && !TypeOf(t).value.base.W? && Live(st.conds)
    requires PopBool(Abs(st.main)).NotBool?
    ensures Mirrors(cx, t, st)
  {
    PopMinimal(st.main);
    var l, r := Encode(cx.env, t.left), Encode(cx.env, t.right);
    var tail := l + [Op(OpElse)] + r + [Op(OpEndIf)];
    RunBranchBad(cx.env, OpIf, tail, st);
    assert [Op(OpIf)] + l + [Op(OpElse)] + r + [Op(OpEndIf)] == [Op(OpIf)] + tail;
  }
}
