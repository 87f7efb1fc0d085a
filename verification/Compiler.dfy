/** Compiler correctness: the encoded script accepts a witness exactly when the
    interpreter is satisfied by it. */
module Compiler {
  import opened Bytes
  import opened Script
  import opened Terms
  import opened Types
  import opened Interp
  import opened Frame
  import opened Compile
  import opened Skipping
  import opened Simulation
  import opened Choices
  import opened Thresholds

  lemma SimLeaf(cx: Context, t: Term, st: State)
    requires Faithful(cx) && IsLeaf(t) && WellFormed(cx.env, t) && Live(st.conds)
    ensures Mirrors(cx, t, st)
  {
    if t.True? || t.False? {
      LeafConstant(cx, t, st);
    } else if t.PkK? {
      LeafPkK(cx, t, st);
    } else if t.PkH? {
      LeafPkH(cx, t, cx.env.hash(Hash160, t.key), st);
    } else if t.RawPkH? {
      LeafPkH(cx, t, t.keyHash, st);
    } else if t.After? {
      LeafAfter(cx, t, st);
    } else if t.Older? {
      LeafOlder(cx, t, st);
    } else if t.HashLock? {
      LeafHash(cx, t, st);
    } else if t.TxTemplate? {
      LeafTemplate(cx, t, st);
    } else if t.Multi? {
      LeafMulti(cx, t, st);
    } else {
      LeafMultiA(cx, t, st);
    }
  }

  // ----- what the types of parts are -----

  lemma UnaryTyped(t: Term)
    requires IsUnary(t) && IsTyped(t) && !TypeOf(t).value.base.W?
    ensures IsTyped(t.sub) && !TypeOf(t.sub).value.base.W?
    ensures t.Check? ==> HasBase(t.sub, K)
    ensures t.Verify? || t.ZeroNotEqual? || t.NonZero? ==> HasBase(t.sub, B)
    ensures t.DupIf? ==> HasBase(t.sub, V) && TypeOf(t.sub).value.input.IZero? && !TypeOf(t).value.unit
    ensures t.NonZero? ==> TypeOf(t).value.unit == TypeOf(t.sub).value.unit
    ensures t.NonZero? || t.DupIf? ==> HasBase(t, B)
    ensures !t.Alt? && !t.Swap?
  {
  }

  lemma SubInscribed(t: Term)
    requires (t.InscribePre? || t.InscribePost?) && IsTyped(t)
    ensures TypeOf(t) == TypeOf(t.sub) && ValidInscriptions(t.inscriptions)
  {
  }

  lemma BothTyped(t: Term)
    requires (t.AndB? || t.OrB?) && IsTyped(t)
    ensures HasBase(t, B) && HasBase(t.left, B) && HasBase(t.right, W)
  {
  }

  lemma ChoiceUnits(t: Term)
    requires (t.AndOr? || t.OrD? || t.OrC?) && IsTyped(t)
    ensures TypeOf(if t.AndOr? then t.a else t.left).value.unit && !TypeOf(t).value.base.W?
    ensures t.AndOr? && TypeOf(t).value.unit ==> TypeOf(t.b).value.unit && TypeOf(t.c).value.unit
    ensures t.OrD? ==> TypeOf(t).value.unit == TypeOf(t.right).value.unit
  {
  }

  lemma OrITyped(t: Term)
    requires t.OrI? && IsTyped(t)
    ensures !TypeOf(t).value.base.W?
    ensures HasBase(t.left, TypeOf(t).value.base) && HasBase(t.right, TypeOf(t).value.base)
    ensures TypeOf(t).value.unit ==> TypeOf(t.left).value.unit && TypeOf(t.right).value.unit
  {
  }

  lemma LeafTyped(t: Term)
    requires IsLeaf(t)
    ensures !HasBase(t, W)
  {
  }

  /** Only `a:` and `s:`, possibly with inscriptions, make W fragments. */
  lemma WForm(t: Term)
    requires HasBase(t, W)
    ensures t.Alt? || t.Swap? || t.InscribePre? || t.InscribePost?
    ensures t.Alt? ==> HasBase(t.sub, B)
    ensures t.Swap? ==> HasBase(t.sub, B) && TakesOne(TypeOf(t.sub).value.input)
  {
    if IsLeaf(t) {
      LeafTyped(t);
    } else if t.AndB? || t.OrB? {
      BothTyped(t);
    } else if t.AndV? {
      AndVParts(t);
    } else if t.AndOr? || t.OrD? || t.OrC? {
      ChoiceUnits(t);
    } else if t.OrI? {
      OrITyped(t);
    }
  }

  // ----- simulation -----

  lemma {:induction false} SimUnary(cx: Context, t: Term, st: State)
    requires Faithful(cx) && IsUnary(t) && IsTyped(t) && !TypeOf(t).value.base.W? && WellFormed(cx.env, t)
    requires Live(st.conds) && Small(st.main)
    ensures Mirrors(cx, t, st)
    decreases t, 0
  {
    UnaryTyped(t);
    CondsPushPop(st, true);
    SimExpr(cx, t.sub, if t.DupIf? || t.NonZero? then Inside(st, true) else st);
    if t.Check? {
      CaseCheck(cx, t, st);
    } else if t.Verify? {
      CaseVerify(cx, t, st);
    } else if t.ZeroNotEqual? {
      CaseZeroNotEqual(cx, t, st);
    } else if t.DupIf? {
      CaseDupIf(cx, t, st);
    } else if t.NonZero? {
      CaseNonZero(cx, t, st);
    } else {
      SubInscribed(t);
      CaseInscribed(cx, t, st);
    }
  }

  /** The first part of a fragment, which may fail. */
  lemma {:induction false} SimFirst(cx: Context, t: Term, st: State) returns (rest: seq<Bytes>, x: Bytes, e: Element)
    requires t.AndB? || t.OrB? || t.AndOr? || t.OrD? || t.OrC?
    requires HasBase(FirstPart(t), B) && IsTyped(t) && !TypeOf(t).value.base.W?
    requires Mirrors(cx, FirstPart(t), st)
    ensures Eval(cx, FirstPart(t), Abs(st.main)).out.Failed? ==> Mirrors(cx, t, st)
    ensures Eval(cx, FirstPart(t), Abs(st.main)).out.Done? ==> Ran(cx, FirstPart(t), st, rest, x, e)
  {
    if Eval(cx, FirstPart(t), Abs(st.main)).out.Failed? {
      FirstFails(cx, t, st);
      rest, x, e := [], [], Dissatisfied;
    } else {
      rest, x, e := RanFirst(cx, FirstPart(t), st);
    }
  }

  lemma {:induction false} SimBoth(cx: Context, t: Term, st: State)
    requires Faithful(cx) && (t.AndB? || t.OrB?) && IsTyped(t) && WellFormed(cx.env, t)
    requires Live(st.conds) && Small(st.main)
    ensures Mirrors(cx, t, st)
    decreases t, 0
  {
    BothTyped(t);
    SimExpr(cx, t.left, st);
    var rest, x, e := SimFirst(cx, t, st);
    if Eval(cx, t.left, Abs(st.main)).out.Done? {
      ReprFacts(x, e, TypeOf(t.left).value.unit);
      SmallBelow(rest, st.main);
      SimW(cx, t.right, st.(main := rest), x);
      CaseBoth(cx, t, st, rest, x, e);
    }
  }

  lemma {:induction false} SimAndV(cx: Context, t: Term, st: State)
    requires Faithful(cx) && t.AndV? && IsTyped(t) && WellFormed(cx.env, t)
    requires Live(st.conds) && Small(st.main)
    ensures Mirrors(cx, t, st)
    decreases t, 0
  {
    AndVParts(t);
    SimExpr(cx, t.left, st);
    var r := RunToks(cx.env, Encode(cx.env, t.left), st);
    if r == None {
      FirstFails(cx, t, st);
    } else {
      var main := r.value.main;
      assert r.value == st.(main := main);
      SmallBelow(main, st.main);
      SimExpr(cx, t.right, st.(main := main));
      CaseAndV(cx, t, st, main);
    }
  }

  lemma {:induction false} SimChoice(cx: Context, t: Term, st: State)
    requires Faithful(cx) && (t.AndOr? || t.OrD? || t.OrC?) && IsTyped(t) && WellFormed(cx.env, t)
    requires Live(st.conds) && Small(st.main)
    ensures Mirrors(cx, t, st)
    decreases t, 0
  {
    ChoiceTyped(t);
    ChoiceUnits(t);
    SimExpr(cx, FirstPart(t), st);
    var rest, x, e := SimFirst(cx, t, st);
    if Eval(cx, FirstPart(t), Abs(st.main)).out.Done? {
      ReprFacts(x, e, true);
      var b := e == Satisfied;
      SmallBelow(rest, st.main);
      CondsPushPop(st.(main := rest), true);
      if t.AndOr? {
        SimExpr(cx, if b then t.b else t.c, Inside(st.(main := rest), true));
        CaseAndOr(cx, t, st, rest, b, TypeOf(t).value.base);
      } else {
        if !b { SimExpr(cx, t.right, Inside(st.(main := rest), true)); }
        if t.OrD? { CaseOrD(cx, t, st, rest, b); } else { CaseOrC(cx, t, st, rest, b); }
      }
    }
  }

  lemma {:induction false} SimOrI(cx: Context, t: Term, st: State)
    requires Faithful(cx) && t.OrI? && IsTyped(t) && WellFormed(cx.env, t)
    requires Live(st.conds) && Small(st.main)
    ensures Mirrors(cx, t, st)
    decreases t, 0
  {
    OrITyped(t);
    PopMinimal(st.main);
    if st.main == [] || !IsMinimalBool(Top(st.main)) {
      CaseOrIBad(cx, t, st);
    } else {
      var b, rest := Top(st.main) == TRUE_BYTES, Rest(st.main);
      SmallBelow(rest, st.main);
      CondsPushPop(st.(main := rest), true);
      SimExpr(cx, if b then t.left else t.right, Inside(st.(main := rest), true));
      CaseOrI(cx, t, st, rest, b, TypeOf(t).value.base);
    }
  }

  // ----- thresholds -----

  /** The script mirrors a threshold from its child number `i` on, with the
      count of satisfied children where the interpreter has the last boolean. */
  ghost predicate ThreshMirrors(cx: Context, k: nat, subs: seq<Term>, i: nat, nSat: nat, b: bool, st: State, main: seq<Bytes>)
    requires 1 <= i <= |subs|
  {
    var r := RunToks(cx.env, ThreshTail(cx.env, k, subs, i), st);
    Keeps(st, r) && BoolResult(main, true, EvalThresh(cx, k, subs, i, nSat, Abs(main) + [FromBool(b)]).out, MainOf(r))
  }

  lemma ThreshLast(cx: Context, k: nat, subs: seq<Term>, nSat: nat, b: bool, st: State, main: seq<Bytes>)
    requires subs != [] && k < NUM_LIMIT && Live(st.conds) && st.main == main + [EncodeNum(Bump(nSat, b))]
    ensures ThreshMirrors(cx, k, subs, |subs|, nSat, b, st, main)
  {
    assert subs[|subs|..] == [] && [] + [Num(k), Op(OpEqual)] == [Num(k), Op(OpEqual)];
    ThreshEnd(cx.env, st, main, k, nSat, b);
  }

  lemma ThreshFails(cx: Context, k: nat, subs: seq<Term>, i: nat, nSat: nat, b: bool, st: State, main: seq<Bytes>)
    requires 1 <= i < |subs| && Eval(cx, subs[i], Abs(main)).out.Failed?
    requires RunToks(cx.env, Encode(cx.env, subs[i]) + [Op(OpAdd)], st) == None
    ensures ThreshMirrors(cx, k, subs, i, nSat, b, st, main)
  {
    ThreshTailNext(cx.env, k, subs, i);
    RunToksConcat(cx.env, Encode(cx.env, subs[i]) + [Op(OpAdd)], ThreshTail(cx.env, k, subs, i + 1), st);
    EvalThreshNext(cx, k, subs, i, i + 1, nSat, main, b);
  }

  lemma ThreshStepRuns(env: Env, k: nat, subs: seq<Term>, i: nat, next: nat, st: State, st1: State)
    requires 1 <= i < |subs| && next == i + 1
    requires RunToks(env, Encode(env, subs[i]) + [Op(OpAdd)], st) == Some(st1)
    ensures RunToks(env, ThreshTail(env, k, subs, i), st) == RunToks(env, ThreshTail(env, k, subs, next), st1)
  {
    ThreshTailNext(env, k, subs, i);
    RunToksConcat(env, Encode(env, subs[i]) + [Op(OpAdd)], ThreshTail(env, k, subs, next), st);
  }

  lemma ThreshStep(cx: Context, k: nat, subs: seq<Term>, i: nat, next: nat, nSat: nat, b: bool, c: bool,
                   st: State, st1: State, main: seq<Bytes>, rest: seq<Bytes>)
    requires 1 <= i < |subs| && next == i + 1 && rest <= main
    requires RunToks(cx.env, Encode(cx.env, subs[i]) + [Op(OpAdd)], st) == Some(st1)
    requires st1.alt == st.alt && st1.conds == st.conds
    requires Eval(cx, subs[i], Abs(main)).out == Done(Abs(rest) + [FromBool(c)])
    requires ThreshMirrors(cx, k, subs, next, Bump(nSat, b), c, st1, rest)
    ensures ThreshMirrors(cx, k, subs, i, nSat, b, st, main)
  {
    ThreshStepRuns(cx.env, k, subs, i, next, st, st1);
    EvalThreshNext(cx, k, subs, i, next, nSat, main, b);
    BoolBelow(rest, main, true, EvalThresh(cx, k, subs, next, Bump(nSat, b), Abs(rest) + [FromBool(c)]).out,
      MainOf(RunToks(cx.env, ThreshTail(cx.env, k, subs, next), st1)));
  }

  lemma {:induction false} SimThreshLoop(cx: Context, k: nat, subs: seq<Term>, i: nat, nSat: nat, b: bool, st: State, main: seq<Bytes>)
    requires Faithful(cx) && ThreshArgs(subs, true).Ok? && (forall j :: 0 <= j < |subs| ==> WellFormed(cx.env, subs[j]))
    requires nSat < i <= |subs| <= MAX_BLOCK_WEIGHT && k < NUM_LIMIT
    requires Live(st.conds) && Small(main) && st.main == main + [EncodeNum(Bump(nSat, b))]
    ensures ThreshMirrors(cx, k, subs, i, nSat, b, st, main)
    decreases subs, 0, |subs| - i
  {
    if i == |subs| {
      ThreshLast(cx, k, subs, nSat, b, st, main);
    } else {
      var n, next := Bump(nSat, b), i + 1;
      ThreshTyped(subs, true, i);
      DigitsLength(n);
      SimW(cx, subs[i], st.(main := main), EncodeNum(n));
      var rest := ThreshAdd(cx, subs[i], st, main, n);
      var out := Eval(cx, subs[i], Abs(main)).out;
      if out.Failed? {
        ThreshFails(cx, k, subs, i, nSat, b, st, main);
      } else {
        var c := Peek(out.stack) == Satisfied;
        var st1 := st.(main := rest + [EncodeNum(Bump(n, c))]);
        SmallBelow(rest, main);
        SimThreshLoop(cx, k, subs, next, n, c, st1, rest);
        ThreshStep(cx, k, subs, i, next, nSat, b, c, st, st1, main, rest);
      }
    }
  }

  lemma ThreshTokens(env: Env, t: Term)
    requires t.Thresh? && t.subs != []
    ensures Encode(env, t) == Encode(env, t.subs[0]) + ThreshTail(env, t.k, t.subs, 1)
  {
    var a, b := Encode(env, t.subs[0]), EncodeAdds(env, t.subs[1..]);
    assert a + b + [Num(t.k), Op(OpEqual)] == a + (b + [Num(t.k), Op(OpEqual)]);
  }

  lemma ThreshFirstFails(cx: Context, t: Term, st: State)
    requires t.Thresh? && t.subs != [] && Eval(cx, t.subs[0], Abs(st.main)).out.Failed?
    requires RunToks(cx.env, Encode(cx.env, t.subs[0]), st) == None
    ensures RunToks(cx.env, Encode(cx.env, t), st) == None && Eval(cx, t, Abs(st.main)).out.Failed?
  {
    ThreshTokens(cx.env, t);
    RunToksConcat(cx.env, Encode(cx.env, t.subs[0]), ThreshTail(cx.env, t.k, t.subs, 1), st);
  }

  lemma ThreshFirst(cx: Context, t: Term, st: State, rest: seq<Bytes>, b: bool)
    requires t.Thresh? && t.subs != [] && HasBase(t, B) && HasBase(t.subs[0], B)
    requires Ran(cx, t.subs[0], st, rest, BoolBytes(b), FromBool(b))
    requires ThreshMirrors(cx, t.k, t.subs, 1, 0, b, st.(main := rest + [BoolBytes(b)]), rest)
    ensures Mirrors(cx, t, st)
  {
    ThreshTokens(cx.env, t);
    RunToksConcat(cx.env, Encode(cx.env, t.subs[0]), ThreshTail(cx.env, t.k, t.subs, 1), st);
    var r := RunToks(cx.env, Encode(cx.env, t), st);
    BoolBelow(rest, st.main, true, Eval(cx, t, Abs(st.main)).out, MainOf(r));
    BoolUnit(st.main, TypeOf(t).value.unit, Eval(cx, t, Abs(st.main)).out, MainOf(r));
  }

  lemma ThreshBase(t: Term)
    requires t.Thresh? && IsTyped(t)
    ensures HasBase(t, B) && ThreshArgs(t.subs, true).Ok?
  {
  }

  lemma {:induction false} SimThresh(cx: Context, t: Term, st: State)
    requires Faithful(cx) && t.Thresh? && IsTyped(t) && WellFormed(cx.env, t)
    requires Live(st.conds) && Small(st.main)
    ensures Mirrors(cx, t, st)
    decreases t, 0
  {
    var first := t.subs[0];
    ThreshBase(t);
    ThreshTyped(t.subs, true, 0);
    SimExpr(cx, first, st);
    if Eval(cx, first, Abs(st.main)).out.Failed? {
      ThreshFirstFails(cx, t, st);
    } else {
      var rest, x, e := RanFirst(cx, first, st);
      var b := e == Satisfied;
      ReprFacts(x, e, true);
      DecodeBool(b);
      SmallBelow(rest, st.main);
      SimThreshLoop(cx, t.k, t.subs, 1, 0, b, st.(main := rest + [x]), rest);
      ThreshFirst(cx, t, st, rest, b);
    }
  }

  /** The script of a W fragment mirrors its evaluation. */
  lemma {:induction false} SimW(cx: Context, t: Term, st: State, y: Bytes)
    requires Faithful(cx) && HasBase(t, W) && WellFormed(cx.env, t)
    requires Live(st.conds) && Small(st.main) && |y| <= MAX_SCRIPT_ELEMENT_SIZE
    ensures MirrorsW(cx, t, st, y)
    decreases t, 1
  {
    WForm(t);
    if t.Alt? {
      SimExpr(cx, t.sub, st.(alt := st.alt + [y]));
      CaseAlt(cx, t, st, y);
    } else if t.Swap? {
      if st.main != [] {
        SimExpr(cx, t.sub, st.(main := Rest(st.main) + [y] + [Top(st.main)]));
      }
      CaseSwap(cx, t, st, y);
    } else {
      SubInscribed(t);
      SimW(cx, t.sub, st, y);
      CaseInscribedW(cx, t, st, y);
    }
  }

  /** The script of any other typed fragment mirrors its evaluation. */
  lemma {:induction false} SimExpr(cx: Context, t: Term, st: State)
    requires Faithful(cx) && IsTyped(t) && !TypeOf(t).value.base.W? && WellFormed(cx.env, t)
    requires Live(st.conds) && Small(st.main)
    ensures Mirrors(cx, t, st)
    decreases t, 1
  {
    if IsLeaf(t) {
      SimLeaf(cx, t, st);
    } else if IsUnary(t) {
      SimUnary(cx, t, st);
    } else if t.AndV? {
      SimAndV(cx, t, st);
    } else if t.AndB? || t.OrB? {
      SimBoth(cx, t, st);
    } else if t.AndOr? || t.OrD? || t.OrC? {
      SimChoice(cx, t, st);
    } else if t.OrI? {
      SimOrI(cx, t, st);
    } else {
      SimThresh(cx, t, st);
    }
  }

  // ----- compiler correctness -----

  /** The interpreter ends without an error, with one satisfied element left. */
  predicate Satisfies(cx: Context, t: Term, wit: seq<Bytes>) {
    Eval(cx, t, Abs(wit)).out == Done([Satisfied])
  }

  predicate ScriptAccepts(env: Env, t: Term, wit: seq<Bytes>) {
    Accepts(env, Flatten(Encode(env, t)), wit)
  }

  /** The end of a script that mirrors an evaluation. */
  lemma FinalResult(wit: seq<Bytes>, unit: bool, out: Outcome, r: Option<State>)
    requires Keeps(State(wit, [], []), r) && BoolResult(wit, unit, out, MainOf(r))
    ensures out == Done([Satisfied])
            <==> r.Some? && r.value.conds == [] && |r.value.main| == 1 && CastToBool(r.value.main[0])
    ensures r.Some? ==> r.value.alt == [] && r.value.conds == []
    ensures out.Failed? <==> r == None
  {
    if out.Done? {
      BoolParts(wit, unit, out, MainOf(r));
      ReprFacts(Top(r.value.main), Peek(out.stack), unit);
      assert |out.stack| == 1 <==> |r.value.main| == 1;
      if |out.stack| == 1 { assert out.stack == [Peek(out.stack)]; }
    }
  }

  /** An interpreter that knows the template hash, for a transaction for which a
      node enforces lock times: a witness satisfies a term exactly when it satisfies the term's script, and
      breaks it exactly when it breaks the script. */
  lemma CompilerCorrect(cx: Context, t: Term, wit: seq<Bytes>)
    requires Faithful(cx) && HasBase(t, B) && WellFormed(cx.env, t) && Small(wit)
    ensures Satisfies(cx, t, wit) <==> ScriptAccepts(cx.env, t, wit)
    ensures Eval(cx, t, Abs(wit)).out.Failed? <==> RunToks(cx.env, Encode(cx.env, t), State(wit, [], [])) == None
  {
    var st := State(wit, [], []);
    SimExpr(cx, t, st);
    FinalResult(wit, TypeOf(t).value.unit, Eval(cx, t, Abs(wit)).out, RunToks(cx.env, Encode(cx.env, t), st));
  }
}
