/** Guards, thresholds and multisignatures: fragments whose scripts count or
    test before they run their parts. */
module Thresholds {
  import opened Bytes
  import opened Script
  import opened Terms
  import opened Types
  import opened Interp
  import opened Frame
  import opened Compile
  import opened Multisig
  import opened Skipping
  import opened Simulation
  import opened Choices

  // ----- d: and j: -----

  /** `DUP IF code ENDIF`. */
  lemma RunDupIf(env: Env, code: seq<Token>, st: State)
    requires Live(st.conds)
    requires Keeps(Inside(st, true), RunToks(env, code, Inside(st, true)))
    requires Skips(env, code, Inside(st, false))
    ensures RunToks(env, [Op(OpDup), Op(OpIf)] + code + [Op(OpEndIf)], st) ==
            if st.main == [] || !IsMinimalBool(Top(st.main)) then None
            else if Top(st.main) == TRUE_BYTES then Close(st, RunToks(env, code, Inside(st, true)))
            else Some(st)
  {
    GuardTokens([Op(OpDup)], code);
    var tail := [Op(OpIf)] + code + [Op(OpEndIf)];
    RunToksConcat(env, [Op(OpDup)], tail, st);
    RunData(env, OpDup, st);
    if st.main != [] {
      var st1 := st.(main := st.main + [Top(st.main)]);
      if IsMinimalBool(Top(st.main)) {
        RunIf(env, OpIf, code, st, Top(st.main) == TRUE_BYTES);
      } else {
        RunBranchBad(env, OpIf, code + [Op(OpEndIf)], st1);
        assert tail == [Op(OpIf)] + (code + [Op(OpEndIf)]);
      }
    }
  }

  /** `SIZE 0NOTEQUAL` tests the top element for emptiness. */
  lemma RunSizeTest(env: Env, st: State)
    requires Live(st.conds) && Small(st.main)
    ensures RunToks(env, [Op(OpSize), Op(OpZeroNotEqual)], st) ==
            if st.main == [] then None else Some(st.(main := st.main + [BoolBytes(Top(st.main) != [])]))
  {
    assert [Op(OpSize), Op(OpZeroNotEqual)] == [Op(OpSize)] + [Op(OpZeroNotEqual)];
    RunFirst(env, Op(OpSize), [Op(OpZeroNotEqual)], st);
    RunData(env, OpSize, st);
    if st.main != [] {
      var size := |Top(st.main)|;
      assert size <= MAX_SCRIPT_ELEMENT_SIZE;
      var st1 := st.(main := st.main + [EncodeNum(size)]);
      NumRoundTrip(size);
      RunData(env, OpZeroNotEqual, st1);
      assert Rest(st1.main) == st.main;
    }
  }

  /** `SIZE 0NOTEQUAL IF code ENDIF`. */
  lemma RunNonZero(env: Env, code: seq<Token>, st: State)
    requires Live(st.conds) && Small(st.main)
    requires Keeps(Inside(st, true), RunToks(env, code, Inside(st, true)))
    requires Skips(env, code, Inside(st, false))
    ensures RunToks(env, [Op(OpSize), Op(OpZeroNotEqual), Op(OpIf)] + code + [Op(OpEndIf)], st) ==
            if st.main == [] then None
            else if Top(st.main) != [] then Close(st, RunToks(env, code, Inside(st, true)))
            else Some(st)
  {
    GuardTokens([Op(OpSize), Op(OpZeroNotEqual)], code);
    RunToksConcat(env, [Op(OpSize), Op(OpZeroNotEqual)], [Op(OpIf)] + code + [Op(OpEndIf)], st);
    RunSizeTest(env, st);
    if st.main != [] { RunIf(env, OpIf, code, st, Top(st.main) != []); }
  }

  /** A V fragment without inputs: it succeeds or fails whatever the stack, and
      leaves the stack alone. */
  lemma NoInput(cx: Context, t: Term, s: Interp.Stack, s': Interp.Stack)
    requires HasBase(t, V) && TypeOf(t).value.input.IZero?
    ensures var x, y := Eval(cx, t, s).out, Eval(cx, t, s').out;
            x.Done? == y.Done? && (x.Done? ==> x.stack == s && y.stack == s')
  {
    LocalEval(cx, t, s, []);
    LocalEval(cx, t, s', []);
    assert s + [] == s && s' + [] == s';
  }

  lemma DupIfResult(cx: Context, t: Term, st: State)
    requires HasBase(t, V) && TypeOf(t).value.input.IZero? && Mirrors(cx, t, Inside(st, true)) && st.main != []
    ensures var r := RunToks(cx.env, Encode(cx.env, t), Inside(st, true));
            var out := Eval(cx, t, Abs(Rest(st.main))).out;
            if out.Failed? then r == None
            else r.Some? && r.value == Inside(st, true) && out.stack == Abs(Rest(st.main))
  {
    NoInput(cx, t, Abs(st.main), Abs(Rest(st.main)));
    var r := RunToks(cx.env, Encode(cx.env, t), Inside(st, true));
    if r.Some? {
      assert |r.value.main| == |st.main| by { assert Abs(r.value.main) == Abs(st.main); }
      assert r.value.main == st.main;
    }
  }

  /** What `d:` makes of its operand and its argument's outcome. */
  function DupIfOut(main: seq<Bytes>, out: Outcome): Outcome {
    if main == [] || !IsMinimalBool(Top(main)) then Failed(UnexpectedStackEnd)
    else if Top(main) == FALSE_BYTES then Done(Abs(main))
    else if out.Failed? then out
    else Done(Abs(Rest(main)) + [Satisfied])
  }

  lemma DupIfMatches(main: seq<Bytes>, out: Outcome, r: Option<seq<Bytes>>)
    requires r == if DupIfOut(main, out).Failed? then None else Some(main)
    ensures BoolResult(main, false, DupIfOut(main, out), r)
  {
    OneAndZero();
    if DupIfOut(main, out).Done? {
      AbsRest(main);
      if Top(main) == TRUE_BYTES {
        PushBool(main, Rest(main), TRUE_BYTES, Satisfied, false);
        assert Rest(main) + [TRUE_BYTES] == main;
      } else {
        ReprBool(false);
      }
    }
  }

  lemma DupIfEval(cx: Context, t: Term, main: seq<Bytes>)
    requires t.DupIf?
    requires main != [] ==> (var x := Eval(cx, t.sub, Abs(Rest(main))).out; x.Done? ==> x.stack == Abs(Rest(main)))
    ensures var sub := if main == [] then Failed(UnexpectedStackEnd) else Eval(cx, t.sub, Abs(Rest(main))).out;
            var x, y := Eval(cx, t, Abs(main)).out, DupIfOut(main, sub);
            x.Done? == y.Done? && (x.Done? ==> x == y)
  {
    PopMinimal(main);
    OneAndZero();
  }

  lemma CaseDupIf(cx: Context, t: Term, st: State)
    requires t.DupIf? && HasBase(t, B) && !TypeOf(t).value.unit
    requires HasBase(t.sub, V) && TypeOf(t.sub).value.input.IZero?
    requires Sane(cx.env) && WellFormed(cx.env, t.sub) && Live(st.conds)
    requires Mirrors(cx, t.sub, Inside(st, true))
    ensures Mirrors(cx, t, st)
  {
    var code := Encode(cx.env, t.sub);
    CondsPushPop(st, false);
    SkipTerm(cx.env, t.sub, Inside(st, false));
    RunDupIf(cx.env, code, st);
    var sub: Outcome := Failed(UnexpectedStackEnd);
    if st.main != [] {
      DupIfResult(cx, t.sub, st);
      sub := Eval(cx, t.sub, Abs(Rest(st.main))).out;
    }
    DupIfEval(cx, t, st.main);
    OneAndZero();
    DupIfMatches(st.main, sub, MainOf(RunToks(cx.env, Encode(cx.env, t), st)));
  }

  lemma NonZeroEval(cx: Context, t: Term, main: seq<Bytes>)
    requires t.NonZero?
    ensures var out := Eval(cx, t, Abs(main)).out;
            if main == [] then out.Failed?
            else if Top(main) == [] then out == Done(Abs(Rest(main)) + [Dissatisfied])
            else out == Eval(cx, t.sub, Abs(main)).out
  {
    if main != [] {
      AbsRest(main);
      assert Abs(main) == Drop1(Abs(main)) + [Peek(Abs(main))];
    }
  }

  lemma NonZeroMatches(main: seq<Bytes>, unit: bool)
    requires main != [] && Top(main) == []
    ensures BoolResult(main, unit, Done(Abs(Rest(main)) + [Dissatisfied]), Some(main))
  {
    ReprBool(false);
    PushBool(main, Rest(main), FALSE_BYTES, Dissatisfied, unit);
    assert Rest(main) + [FALSE_BYTES] == main;
  }

  lemma CaseNonZero(cx: Context, t: Term, st: State)
    requires t.NonZero? && HasBase(t, B) && HasBase(t.sub, B) && TypeOf(t).value.unit == TypeOf(t.sub).value.unit
    requires Sane(cx.env) && WellFormed(cx.env, t.sub) && Live(st.conds) && Small(st.main)
    requires Mirrors(cx, t.sub, Inside(st, true))
    ensures Mirrors(cx, t, st)
  {
    var unit := TypeOf(t).value.unit;
    CondsPushPop(st, false);
    SkipTerm(cx.env, t.sub, Inside(st, false));
    RunNonZero(cx.env, Encode(cx.env, t.sub), st);
    NonZeroEval(cx, t, st.main);
    if st.main != [] {
      if Top(st.main) != [] {
        ChosenMatches(cx, t.sub, B, unit, st, st.main, Eval(cx, t.sub, Abs(st.main)).out);
      } else {
        NonZeroMatches(st.main, unit);
      }
    }
  }

  // ----- thresholds -----

  lemma RunAdd(env: Env, st: State, rest: seq<Bytes>, x: Bytes, y: Bytes, m: nat, n: nat)
    requires Live(st.conds) && st.main == rest + [x, y]
    requires DecodeNum(x) == Some(m) && DecodeNum(y) == Some(n)
    ensures RunToks(env, [Op(OpAdd)], st) == Some(st.(main := rest + [EncodeNum(m + n)]))
  {
    RunData(env, OpAdd, st);
    assert st.main[..|st.main| - 2] == rest;
  }

  lemma DecodeBool(b: bool)
    ensures DecodeNum(BoolBytes(b)) == Some(Bump(0, b)) && BoolBytes(b) == EncodeNum(Bump(0, b))
  {
    OneAndZero();
  }

  lemma DecodeCount(c: nat, x: Bytes)
    requires c < NUM_LIMIT && x == EncodeNum(c)
    ensures DecodeNum(x) == Some(c)
  {
    NumRoundTrip(c);
  }

  lemma BumpSum(c: nat, q: bool)
    ensures Bump(0, q) + c == Bump(c, q) == c + Bump(0, q)
  {
  }

  /** The count is above the boolean, or below it. */
  lemma RunAddBool(env: Env, st: State, rest: seq<Bytes>, a: Bytes, b: Bytes, c: nat, q: bool)
    requires Live(st.conds) && st.main == rest + [a, b]
    requires (DecodeNum(b) == Some(c) && DecodeNum(a) == Some(Bump(0, q)))
             || (DecodeNum(a) == Some(c) && DecodeNum(b) == Some(Bump(0, q)))
    ensures RunToks(env, [Op(OpAdd)], st) == Some(st.(main := rest + [EncodeNum(Bump(c, q))]))
  {
    BumpSum(c, q);
    if DecodeNum(b) == Some(c) && DecodeNum(a) == Some(Bump(0, q)) {
      RunAdd(env, st, rest, a, b, Bump(0, q), c);
    } else {
      RunAdd(env, st, rest, a, b, c, Bump(0, q));
    }
  }

  lemma TailAdd(env: Env, st: State, main: seq<Bytes>, c: nat, out: Outcome) returns (rest: seq<Bytes>)
    requires Live(st.conds) && c < NUM_LIMIT && out.Done?
    requires WResult(main, EncodeNum(c), true, out, Some(st.main))
    ensures rest <= main && out.stack == Abs(rest) + [FromBool(Peek(out.stack) == Satisfied)]
    ensures RunToks(env, [Op(OpAdd)], st)
            == Some(st.(main := rest + [EncodeNum(Bump(c, Peek(out.stack) == Satisfied))]))
  {
    rest := Rest(Rest(st.main));
    var a, b, e := Top(Rest(st.main)), Top(st.main), Peek(out.stack);
    assert st.main == rest + [a, b];
    assert out.stack == Drop1(out.stack) + [e];
    ReprFacts(if b == EncodeNum(c) && Repr(a, e, true) then a else b, e, true);
    DecodeCount(c, EncodeNum(c));
    DecodeBool(e == Satisfied);
    RunAddBool(env, st, rest, a, b, c, e == Satisfied);
  }

  /** One more child: its boolean is added to the count next to it. */
  lemma ThreshAdd(cx: Context, w: Term, st: State, main: seq<Bytes>, c: nat) returns (rest: seq<Bytes>)
    requires IsTyped(w) && TypeOf(w).value.unit && Live(st.conds) && c < NUM_LIMIT
    requires st.main == main + [EncodeNum(c)] && MirrorsW(cx, w, st.(main := main), EncodeNum(c))
    ensures var r := RunToks(cx.env, Encode(cx.env, w) + [Op(OpAdd)], st);
            var out := Eval(cx, w, Abs(main)).out;
            if out.Failed? then r == None
            else
              && out.stack != []
              && var b := Peek(out.stack) == Satisfied;
                 && rest <= main && out.stack == Abs(rest) + [FromBool(b)]
                 && r == Some(st.(main := rest + [EncodeNum(Bump(c, b))]))
  {
    var code := Encode(cx.env, w);
    rest := [];
    RunToksConcat(cx.env, code, [Op(OpAdd)], st);
    assert st.(main := main).(main := main + [EncodeNum(c)]) == st;
    var r := RunToks(cx.env, code, st);
    if r.Some? {
      rest := TailAdd(cx.env, r.value, main, c, Eval(cx, w, Abs(main)).out);
    }
  }

  /** `k EQUAL` compares the count on top. */
  lemma RunEquals(env: Env, st: State, main: seq<Bytes>, k: nat, c: nat)
    requires Live(st.conds) && k < NUM_LIMIT && st.main == main + [EncodeNum(c)]
    ensures RunToks(env, [Num(k), Op(OpEqual)], st) == Some(st.(main := main + [BoolBytes(c == k)]))
  {
    assert [Num(k), Op(OpEqual)] == [Num(k)] + [Op(OpEqual)];
    RunFirst(env, Num(k), [Op(OpEqual)], st);
    DigitsLength(k);
    RunLit(env, Num(k), EncodeNum(k), st);
    var st1 := st.(main := main + [EncodeNum(c)] + [EncodeNum(k)]);
    RunData(env, OpEqual, st1);
    assert st1.main[..|st1.main| - 2] == main;
    NumInjective(c, k);
  }

  lemma ThreshEndEval(k: nat, nSat: nat, s: Interp.Stack, b: bool)
    ensures AfterThresh(k, nSat, s + [FromBool(b)]) == Done(s + [FromBool(Bump(nSat, b) == k)])
  {
    assert Drop1(s + [FromBool(b)]) == s;
  }

  /** The end of a threshold. */
  lemma ThreshEnd(env: Env, st: State, main: seq<Bytes>, k: nat, nSat: nat, b: bool)
    requires Live(st.conds) && k < NUM_LIMIT && st.main == main + [EncodeNum(Bump(nSat, b))]
    ensures var r := RunToks(env, [Num(k), Op(OpEqual)], st);
            && Keeps(st, r)
            && BoolResult(main, true, AfterThresh(k, nSat, Abs(main) + [FromBool(b)]), MainOf(r))
  {
    var equal := Bump(nSat, b) == k;
    RunEquals(env, st, main, k, Bump(nSat, b));
    ThreshEndEval(k, nSat, Abs(main), b);
    ReprBool(equal);
    PushBool(main, main, BoolBytes(equal), FromBool(equal), true);
  }

  lemma EvalThreshNext(cx: Context, k: nat, subs: seq<Term>, i: nat, next: nat, nSat: nat, main: seq<Bytes>, b: bool)
    requires 1 <= i < |subs| && next == i + 1
    ensures var y := Eval(cx, subs[i], Abs(main)).out;
            var z := EvalThresh(cx, k, subs, i, nSat, Abs(main) + [FromBool(b)]).out;
            if y.Failed? then z == y
            else z == EvalThresh(cx, k, subs, next, Bump(nSat, b), y.stack).out
  {
    assert Drop1(Abs(main) + [FromBool(b)]) == Abs(main);
    EvalThreshStep(cx, k, subs, i, next, nSat, Abs(main) + [FromBool(b)]);
  }

  /** The tokens of a threshold from its child number `i` on. */
  function ThreshTail(env: Env, k: nat, subs: seq<Term>, i: nat): seq<Token>
    requires i <= |subs|
  {
    EncodeAdds(env, subs[i..]) + [Num(k), Op(OpEqual)]
  }

  lemma ThreshTailNext(env: Env, k: nat, subs: seq<Term>, i: nat)
    requires i < |subs|
    ensures ThreshTail(env, k, subs, i) == (Encode(env, subs[i]) + [Op(OpAdd)]) + ThreshTail(env, k, subs, i + 1)
  {
    assert subs[i..][0] == subs[i] && subs[i..][1..] == subs[i + 1..];
    var a, b := Encode(env, subs[i]) + [Op(OpAdd)], EncodeAdds(env, subs[i + 1..]);
    assert EncodeAdds(env, subs[i..]) == a + b;
    assert a + b + [Num(k), Op(OpEqual)] == a + (b + [Num(k), Op(OpEqual)]);
  }

  // ----- multi -----

  lemma {:induction false} RunKeys(env: Env, keys: seq<Bytes>, st: State)
    requires Live(st.conds) && forall i :: 0 <= i < |keys| ==> IsKey(keys[i])
    ensures RunToks(env, KeyTokens(keys), st) == Some(st.(main := st.main + keys))
  {
    if keys == [] {
      assert st.main + keys == st.main;
    } else {
      assert KeyTokens(keys) == [KeyToken(keys[0])] + KeyTokens(keys[1..]);
      RunFirst(env, KeyToken(keys[0]), KeyTokens(keys[1..]), st);
      RunLit(env, KeyToken(keys[0]), keys[0], st);
      RunKeys(env, keys[1..], st.(main := st.main + [keys[0]]));
      assert st.main + [keys[0]] + keys[1..] == st.main + keys;
    }
  }

  /** The threshold and the keys of CHECKMULTISIG are pushed. */
  lemma RunMultiKeys(env: Env, t: Term, st: State, main: seq<Bytes>)
    requires t.Multi? && WellFormed(env, t) && Live(st.conds) && main == st.main + [EncodeNum(t.k)]
    ensures RunToks(env, [Num(t.k)] + KeyTokens(t.keys), st) == Some(st.(main := main + t.keys))
  {
    RunToksConcat(env, [Num(t.k)], KeyTokens(t.keys), st);
    DigitsLength(t.k);
    RunLit(env, Num(t.k), EncodeNum(t.k), st);
    RunKeys(env, t.keys, st.(main := main));
  }

  lemma RunMultiCheck(env: Env, n: nat, st: State)
    requires Live(st.conds) && n < NUM_LIMIT
    ensures RunToks(env, [Num(n), Op(OpCheckMultiSig)], st) ==
            var r := Execute(env, OpCheckMultiSig, st.main + [EncodeNum(n)], st.alt);
            if r == None then None else Some(State(r.value.0, r.value.1, st.conds))
  {
    DigitsLength(n);
    assert [Num(n), Op(OpCheckMultiSig)] == [Num(n)] + [Op(OpCheckMultiSig)];
    RunFirst(env, Num(n), [Op(OpCheckMultiSig)], st);
    RunLit(env, Num(n), EncodeNum(n), st);
    RunData(env, OpCheckMultiSig, st.(main := st.main + [EncodeNum(n)]));
  }

  lemma RunMultiScript(env: Env, t: Term, st: State)
    requires t.Multi? && WellFormed(env, t) && Live(st.conds)
    ensures RunToks(env, Encode(env, t), st) ==
            var r := CheckMultiSigKeys(env, t.keys, st.main + [EncodeNum(t.k)]);
            if r == None then None else Some(st.(main := r.value))
  {
    var n, main := |t.keys|, st.main + [EncodeNum(t.k)];
    RunToksConcat(env, [Num(t.k)] + KeyTokens(t.keys), [Num(n), Op(OpCheckMultiSig)], st);
    RunMultiKeys(env, t, st, main);
    RunMultiCheck(env, n, st.(main := main + t.keys));
    ScriptMultiKeys(env, t, main);
  }

  lemma LeafMulti(cx: Context, t: Term, st: State)
    requires Sane(cx.env) && t.Multi? && WellFormed(cx.env, t) && Live(st.conds)
    ensures Mirrors(cx, t, st)
  {
    RunMultiScript(cx.env, t, st);
    MultiResult(cx, t, st.main, CheckMultiSigKeys(cx.env, t.keys, st.main + [EncodeNum(t.k)]));
  }

  lemma MultiResult(cx: Context, t: Term, main: seq<Bytes>, r: Option<seq<Bytes>>)
    requires Sane(cx.env) && t.Multi? && WellFormed(cx.env, t)
    requires r == CheckMultiSigKeys(cx.env, t.keys, main + [EncodeNum(t.k)])
    ensures BoolResult(main, true, Eval(cx, t, Abs(main)).out, r)
  {
    if |main| < t.k + 1 {
      ScriptMultiShort(cx.env, t, main);
      MultiShort(cx, t, Abs(main));
    } else {
      var n := |main| - t.k;
      assert main == main[..n - 1] + [main[n - 1]] + main[n..];
      MultiFull(cx, t, main, main[..n - 1], main[n - 1], main[n..]);
    }
  }

  lemma MultiShort(cx: Context, t: Term, s: Interp.Stack)
    requires t.Multi? && t.keys != [] && |s| < t.k + 1
    ensures Eval(cx, t, s).out.Failed?
  {
  }

  lemma MultiFull(cx: Context, t: Term, main: seq<Bytes>, base: seq<Bytes>, dummy: Bytes, sigs: seq<Bytes>)
    requires Sane(cx.env) && t.Multi? && WellFormed(cx.env, t)
    requires main == base + [dummy] + sigs && |sigs| == t.k
    ensures BoolResult(main, true, Eval(cx, t, Abs(main)).out,
              CheckMultiSigKeys(cx.env, t.keys, main + [EncodeNum(t.k)]))
  {
    MultiWhole(cx, t, base, dummy, sigs);
    ScriptMultiSigs(cx, t, base, dummy, sigs);
    assert base <= main;
    MultiMatches(main, base, MultiOutcome(cx, t, base, dummy, sigs), Eval(cx, t, Abs(main)).out,
      CheckMultiSigKeys(cx.env, t.keys, main + [EncodeNum(t.k)]));
  }

  lemma MultiMatches(main: seq<Bytes>, base: seq<Bytes>, o: Option<bool>, out: Outcome, r: Option<seq<Bytes>>)
    requires base <= main
    requires if o == None then out.Failed? else out == Done(Abs(base) + [FromBool(o.value)])
    requires r == if o == None then None else Some(base + [BoolBytes(o.value)])
    ensures BoolResult(main, true, out, r)
  {
    if o.Some? {
      ReprBool(o.value);
      PushBool(main, base, BoolBytes(o.value), FromBool(o.value), true);
    }
  }

  // ----- multi_a -----

  /** A key of `multi_a`: CHECKSIG and `evaluate_pk` agree on the top element. */
  lemma MultiAKey(cx: Context, t: Term, i: nat, nSat: nat, main: seq<Bytes>)
    requires Sane(cx.env) && t.MultiA? && i < |t.keys| && cx.env.keyOk(t.keys[i])
    ensures var m := MultiVisit(cx, t, i, nSat, Abs(main));
            if main == [] || CheckSig(cx.env, t.keys[i], Top(main)) == None then m.Finished? && m.out.Failed?
            else
              && m.NextKey? && m.stack == Abs(Rest(main))
              && m.nSat == Bump(nSat, CheckSig(cx.env, t.keys[i], Top(main)).value)
  {
    if main != [] {
      AbsRest(main);
      assert Drop1(Drop1(Abs(main)) + [Satisfied]) == Drop1(Abs(main));
    }
  }

  lemma ExecuteSigAdd(env: Env, rest: seq<Bytes>, sig: Bytes, c: nat, key: Bytes, alt: seq<Bytes>)
    requires c < NUM_LIMIT
    ensures Execute(env, OpCheckSigAdd, rest + [sig, EncodeNum(c), key], alt) ==
            var b := CheckSig(env, key, sig);
            if b == None then None else Some((rest + [EncodeNum(Bump(c, b.value))], alt))
  {
    var main := rest + [sig, EncodeNum(c), key];
    NumRoundTrip(c);
    assert main[..|main| - 3] == rest;
    if CheckSig(env, key, sig).Some? {
      var b := CheckSig(env, key, sig).value;
      DecodeBool(b);
      var two := rest + [EncodeNum(c), BoolBytes(b)];
      assert two[..|two| - 2] == rest;
    }
  }

  /** `key CHECKSIGADD` above a count. */
  lemma RunSigAdd(env: Env, key: Bytes, st: State, main: seq<Bytes>, c: nat)
    requires Live(st.conds) && IsKey(key) && c < NUM_LIMIT && st.main == main + [EncodeNum(c)]
    ensures RunToks(env, [KeyToken(key), Op(OpCheckSigAdd)], st) ==
            if main == [] || CheckSig(env, key, Top(main)) == None then None
            else Some(st.(main := Rest(main) + [EncodeNum(Bump(c, CheckSig(env, key, Top(main)).value))]))
  {
    assert [KeyToken(key), Op(OpCheckSigAdd)] == [KeyToken(key)] + [Op(OpCheckSigAdd)];
    RunFirst(env, KeyToken(key), [Op(OpCheckSigAdd)], st);
    RunLit(env, KeyToken(key), key, st);
    var st1 := st.(main := st.main + [key]);
    RunData(env, OpCheckSigAdd, st1);
    if main != [] {
      assert st1.main == Rest(main) + [Top(main), EncodeNum(c), key];
      ExecuteSigAdd(env, Rest(main), Top(main), c, key, st.alt);
    }
  }

  lemma RunNumEqual(env: Env, st: State, main: seq<Bytes>, k: nat, c: nat)
    requires Live(st.conds) && k < NUM_LIMIT && c < NUM_LIMIT && st.main == main + [EncodeNum(c)]
    ensures RunToks(env, [Num(k), Op(OpNumEqual)], st) == Some(st.(main := main + [BoolBytes(c == k)]))
  {
    assert [Num(k), Op(OpNumEqual)] == [Num(k)] + [Op(OpNumEqual)];
    RunFirst(env, Num(k), [Op(OpNumEqual)], st);
    NumRoundTrip(k);
    NumRoundTrip(c);
    DigitsLength(k);
    RunLit(env, Num(k), EncodeNum(k), st);
    var st1 := st.(main := st.main + [EncodeNum(k)]);
    RunData(env, OpNumEqual, st1);
    assert st1.main[..|st1.main| - 2] == main;
  }

  function MultiATail(t: Term, i: nat): seq<Token>
    requires t.MultiA? && i <= |t.keys|
  {
    SigAddTokens(t.keys[i..]) + [Num(t.k), Op(OpNumEqual)]
  }

  lemma MultiATailNext(t: Term, i: nat)
    requires t.MultiA? && i < |t.keys|
    ensures MultiATail(t, i) == [KeyToken(t.keys[i]), Op(OpCheckSigAdd)] + MultiATail(t, i + 1)
  {
    assert t.keys[i..][0] == t.keys[i] && t.keys[i..][1..] == t.keys[i + 1..];
    var a, b := [KeyToken(t.keys[i]), Op(OpCheckSigAdd)], SigAddTokens(t.keys[i + 1..]);
    assert a + b + [Num(t.k), Op(OpNumEqual)] == a + (b + [Num(t.k), Op(OpNumEqual)]);
  }

  lemma MultiALast(cx: Context, t: Term, nSat: nat, st: State, main: seq<Bytes>)
    requires t.MultiA? && WellFormed(cx.env, t) && Live(st.conds)
    requires nSat <= |t.keys| && st.main == main + [EncodeNum(nSat)]
    ensures var r := RunToks(cx.env, MultiATail(t, |t.keys|), st);
            Keeps(st, r) && BoolResult(main, true, EvalMulti(cx, t, |t.keys|, nSat, Abs(main)).out, MainOf(r))
  {
    assert t.keys[|t.keys|..] == [] && [] + [Num(t.k), Op(OpNumEqual)] == [Num(t.k), Op(OpNumEqual)];
    RunNumEqual(cx.env, st, main, t.k, nSat);
    ReprBool(nSat == t.k);
    PushBool(main, main, BoolBytes(nSat == t.k), FromBool(nSat == t.k), true);
  }

  /** One key of `multi_a` after the first, in the script and in the interpreter. */
  lemma MultiAStep(cx: Context, t: Term, i: nat, next: nat, nSat: nat, st: State, main: seq<Bytes>)
    requires Sane(cx.env) && t.MultiA? && WellFormed(cx.env, t) && Live(st.conds)
    requires nSat <= i < |t.keys| && next == i + 1 && st.main == main + [EncodeNum(nSat)]
    ensures var x, y := RunToks(cx.env, MultiATail(t, i), st), EvalMulti(cx, t, i, nSat, Abs(main)).out;
            if main == [] || CheckSig(cx.env, t.keys[i], Top(main)) == None then x == None && y.Failed?
            else
              var c := Bump(nSat, CheckSig(cx.env, t.keys[i], Top(main)).value);
              && x == RunToks(cx.env, MultiATail(t, next), st.(main := Rest(main) + [EncodeNum(c)]))
              && y == EvalMulti(cx, t, next, c, Abs(Rest(main))).out
  {
    MultiATailNext(t, i);
    RunToksConcat(cx.env, [KeyToken(t.keys[i]), Op(OpCheckSigAdd)], MultiATail(t, i + 1), st);
    RunSigAdd(cx.env, t.keys[i], st, main, nSat);
    MultiAKey(cx, t, i, nSat, main);
  }

  /** The script mirrors `multi_a` from its key number `i` on. */
  ghost predicate MultiAMirrors(cx: Context, t: Term, i: nat, nSat: nat, st: State, main: seq<Bytes>)
    requires t.MultiA? && i <= |t.keys|
  {
    var r := RunToks(cx.env, MultiATail(t, i), st);
    Keeps(st, r) && BoolResult(main, true, EvalMulti(cx, t, i, nSat, Abs(main)).out, MainOf(r))
  }

  lemma MultiAFails(cx: Context, t: Term, i: nat, nSat: nat, st: State, main: seq<Bytes>)
    requires t.MultiA? && i <= |t.keys|
    requires RunToks(cx.env, MultiATail(t, i), st) == None && EvalMulti(cx, t, i, nSat, Abs(main)).out.Failed?
    ensures MultiAMirrors(cx, t, i, nSat, st, main)
  {
  }

  lemma MultiANextMirrors(cx: Context, t: Term, i: nat, nSat: nat, st: State, main: seq<Bytes>, c: nat, next: nat)
    requires t.MultiA? && i < next <= |t.keys| && main != []
    requires RunToks(cx.env, MultiATail(t, i), st)
             == RunToks(cx.env, MultiATail(t, next), st.(main := Rest(main) + [EncodeNum(c)]))
    requires EvalMulti(cx, t, i, nSat, Abs(main)).out == EvalMulti(cx, t, next, c, Abs(Rest(main))).out
    requires MultiAMirrors(cx, t, next, c, st.(main := Rest(main) + [EncodeNum(c)]), Rest(main))
    ensures MultiAMirrors(cx, t, i, nSat, st, main)
  {
    BoolBelow(Rest(main), main, true, EvalMulti(cx, t, i, nSat, Abs(main)).out,
      MainOf(RunToks(cx.env, MultiATail(t, i), st)));
  }

  lemma {:induction false} MultiALoop(cx: Context, t: Term, i: nat, nSat: nat, st: State, main: seq<Bytes>)
    requires Sane(cx.env) && t.MultiA? && WellFormed(cx.env, t) && Live(st.conds)
    requires nSat <= i <= |t.keys| && st.main == main + [EncodeNum(nSat)]
    ensures MultiAMirrors(cx, t, i, nSat, st, main)
    decreases |t.keys| - i
  {
    if i == |t.keys| {
      MultiALast(cx, t, nSat, st, main);
    } else {
      var next := i + 1;
      MultiAStep(cx, t, i, next, nSat, st, main);
      if main == [] || CheckSig(cx.env, t.keys[i], Top(main)) == None {
        MultiAFails(cx, t, i, nSat, st, main);
      } else {
        var c := Bump(nSat, CheckSig(cx.env, t.keys[i], Top(main)).value);
        MultiALoop(cx, t, next, c, st.(main := Rest(main) + [EncodeNum(c)]), Rest(main));
        MultiANextMirrors(cx, t, i, nSat, st, main, c, next);
      }
    }
  }

  lemma BoolBelow(below: seq<Bytes>, main: seq<Bytes>, unit: bool, out: Outcome, r: Option<seq<Bytes>>)
    requires below <= main && BoolResult(below, unit, out, r)
    ensures BoolResult(main, unit, out, r)
  {
  }

  lemma RunKeyCheckSig(env: Env, key: Bytes, st: State)
    requires Live(st.conds) && IsKey(key)
    ensures RunToks(env, [KeyToken(key), Op(OpCheckSig)], st) ==
            if st.main == [] || CheckSig(env, key, Top(st.main)) == None then None
            else Some(st.(main := Rest(st.main) + [BoolBytes(CheckSig(env, key, Top(st.main)).value)]))
  {
    assert [KeyToken(key), Op(OpCheckSig)] == [KeyToken(key)] + [Op(OpCheckSig)];
    RunFirst(env, KeyToken(key), [Op(OpCheckSig)], st);
    RunLit(env, KeyToken(key), key, st);
    var st1 := st.(main := st.main + [key]);
    RunData(env, OpCheckSig, st1);
    if st.main != [] { assert st1.main[..|st1.main| - 2] == Rest(st.main); }
  }

  lemma LeafMultiA(cx: Context, t: Term, st: State)
    requires Sane(cx.env) && t.MultiA? && WellFormed(cx.env, t) && Live(st.conds)
    ensures Mirrors(cx, t, st)
  {
    var first := [KeyToken(t.keys[0]), Op(OpCheckSig)];
    MultiATokens(cx.env, t);
    RunToksConcat(cx.env, first, MultiATail(t, 1), st);
    RunKeyCheckSig(cx.env, t.keys[0], st);
    MultiAKey(cx, t, 0, 0, st.main);
    if st.main != [] && CheckSig(cx.env, t.keys[0], Top(st.main)).Some? {
      var b := CheckSig(cx.env, t.keys[0], Top(st.main)).value;
      DecodeBool(b);
      var st1 := st.(main := Rest(st.main) + [BoolBytes(b)]);
      MultiALoop(cx, t, 1, Bump(0, b), st1, Rest(st.main));
      MatchesBelow(cx.env, B, true, Rest(st.main), st.main, EvalMulti(cx, t, 1, Bump(0, b), Abs(Rest(st.main))).out,
        MainOf(RunToks(cx.env, MultiATail(t, 1), st1)));
    }
  }

  lemma MultiATokens(env: Env, t: Term)
    requires t.MultiA? && t.keys != []
    ensures Encode(env, t) == [KeyToken(t.keys[0]), Op(OpCheckSig)] + MultiATail(t, 1)
  {
    var a, b := [KeyToken(t.keys[0]), Op(OpCheckSig)], SigAddTokens(t.keys[1..]);
    assert a + b + [Num(t.k), Op(OpNumEqual)] == a + (b + [Num(t.k), Op(OpNumEqual)]);
  }
}
