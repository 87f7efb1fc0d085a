/** When the interpreter agrees with the script, for every transaction, every
    witness and every typed term. */
module Agreement {
  import opened Bytes
  import opened Script
  import opened Terms
  import opened Types
  import opened Interp
  import opened Machine
  import opened Compile
  import opened Compiler
  import opened Contexts
  import opened Sizes
  import Refinement
  import Interpreter

  // ----- transactions for which a node refuses lock times -----

  /** A transaction that scripts cannot tell from the given one and for which
      the interpreter refuses the lock times a node refuses. */
  function Strict(env: Env): Env {
    if env.sequence == SEQUENCE_FINAL then env.(lockTime := 0)
    else if env.version < 2 then env.(sequence := SEQUENCE_DISABLE_FLAG)
    else env
  }

  lemma StrictEnforced(env: Env)
    requires Sane(env)
    ensures Sane(Strict(env)) && TimelocksEnforced(Strict(env))
  {
  }

  lemma StrictChecks(env: Env, n: nat)
    ensures CheckLockTime(Strict(env), n) == CheckLockTime(env, n)
    ensures CheckSequence(Strict(env), n) == CheckSequence(env, n)
  {
  }

  lemma {:induction false} StrictMatch(env: Env, keys: seq<Bytes>, sigs: seq<Bytes>)
    ensures MatchSigs(Strict(env), keys, sigs) == MatchSigs(env, keys, sigs)
    decreases |keys|
  {
    if sigs != [] && |sigs| <= |keys| {
      StrictMatch(env, Rest(keys), Rest(sigs));
      StrictMatch(env, Rest(keys), sigs);
    }
  }

  lemma StrictMultiSig(env: Env, main: seq<Bytes>)
    ensures CheckMultiSig(Strict(env), main) == CheckMultiSig(env, main)
  {
    forall keys: seq<Bytes>, sigs: seq<Bytes>
      ensures MatchSigs(Strict(env), keys, sigs) == MatchSigs(env, keys, sigs)
    {
      StrictMatch(env, keys, sigs);
    }
  }

  lemma StrictExecute(env: Env, op: Opcode, main: seq<Bytes>, alt: seq<Bytes>)
    ensures Execute(Strict(env), op, main, alt) == Execute(env, op, main, alt)
  {
    if op == OpCheckMultiSig {
      StrictMultiSig(env, main);
    } else if main != [] && (op == OpCheckSequenceVerify || op == OpCheckLockTimeVerify) {
      var n := DecodeNum(Top(main));
      if n.Some? && n.value >= 0 { StrictChecks(env, n.value); }
    }
  }

  lemma StrictStep(env: Env, ins: Instr, st: State)
    ensures Script.Step(Strict(env), ins, st) == Script.Step(env, ins, st)
  {
    if ins.Exec? { StrictExecute(env, ins.op, st.main, st.alt); }
  }

  lemma {:induction false} StrictRun(env: Env, code: seq<Instr>, st: State)
    ensures Script.Run(Strict(env), code, st) == Script.Run(env, code, st)
    decreases |code|
  {
    if code != [] {
      StrictStep(env, code[0], st);
      var r := Script.Step(env, code[0], st);
      if r != None { StrictRun(env, code[1..], r.value); }
    }
  }

  lemma {:induction false} StrictAdds(env: Env, subs: seq<Term>)
    ensures EncodeAdds(Strict(env), subs) == EncodeAdds(env, subs)
    decreases subs, 0
  {
    if subs != [] {
      StrictEncode(env, subs[0]);
      StrictAdds(env, subs[1..]);
    }
  }

  /** The encoder sees only the hash functions. */
  lemma {:induction false} StrictEncode(env: Env, t: Term)
    ensures Encode(Strict(env), t) == Encode(env, t)
    decreases t, 0
  {
    if IsUnary(t) {
      StrictEncode(env, t.sub);
    } else if t.AndOr? {
      StrictEncode(env, t.a);
      StrictEncode(env, t.b);
      StrictEncode(env, t.c);
    } else if t.Thresh? {
      if t.subs != [] {
        StrictEncode(env, t.subs[0]);
        StrictAdds(env, t.subs[1..]);
      }
    } else if !IsLeaf(t) {
      StrictEncode(env, t.left);
      StrictEncode(env, t.right);
    }
  }

  lemma {:induction false} StrictWellFormed(env: Env, t: Term)
    requires WellFormed(env, t)
    ensures WellFormed(Strict(env), t)
  {
    if IsUnary(t) {
      StrictWellFormed(env, t.sub);
    } else if t.AndOr? {
      StrictWellFormed(env, t.a);
      StrictWellFormed(env, t.b);
      StrictWellFormed(env, t.c);
    } else if t.Thresh? {
      forall i | 0 <= i < |t.subs|
        ensures WellFormed(Strict(env), t.subs[i])
      {
        StrictWellFormed(env, t.subs[i]);
      }
    } else if !IsLeaf(t) {
      StrictWellFormed(env, t.left);
      StrictWellFormed(env, t.right);
    }
  }

  // ----- every transaction, every witness -----

  /** What every real transaction satisfies: besides the sizes of keys, hashes
      and signatures, a template hash of 32 bytes. */
  ghost predicate Real(env: Env) { Sane(env) && Bounded(env) && |env.template| == 32 }

  /** What a node checks: the sizes of the witness elements and the script. */
  predicate NodeAccepts(env: Env, t: Term, wit: seq<Bytes>) { Small(wit) && ScriptAccepts(env, t, wit) }

  function Knowing(env: Env): Context { Context(env, Some(env.template)) }

  /** A satisfied interpreter has been given no oversized element. */
  lemma SatisfiedSmall(cx: Context, t: Term, wit: seq<Bytes>)
    requires Bounded(cx.env) && HasBase(t, B) && Satisfies(cx, t, wit)
    ensures Small(wit)
  {
    KeptEval(cx, t, Abs(wit));
    forall i | 0 <= i < |wit|
      ensures |wit[i]| <= MAX_SCRIPT_ELEMENT_SIZE
    {
      assert Abs(wit)[i] == FromBytes(wit[i]);
    }
  }

  /** A node accepts a witness for a term's script exactly when the interpreter,
      told the template hash and the strict lock times, is satisfied by it. */
  lemma NodeExactly(env: Env, t: Term, wit: seq<Bytes>)
    requires Real(env) && HasBase(t, B) && WellFormed(env, t)
    ensures NodeAccepts(env, t, wit) <==> Satisfies(Knowing(Strict(env)), t, wit)
  {
    var cx := Knowing(Strict(env));
    StrictEnforced(env);
    StrictWellFormed(env, t);
    StrictEncode(env, t);
    StrictRun(env, Flatten(Encode(env, t)), State(wit, [], []));
    if Satisfies(cx, t, wit) { SatisfiedSmall(cx, t, wit); }
    if Small(wit) { CompilerCorrect(cx, t, wit); }
  }

  /** A script that does not fail closes its branches, empties its alt stack and
      takes only from the top of the witness. */
  lemma CleanEnd(env: Env, t: Term, wit: seq<Bytes>)
    requires Real(env) && HasBase(t, B) && WellFormed(env, t) && Small(wit)
    ensures var r := RunToks(env, Encode(env, t), State(wit, [], []));
            r.Some? ==> r.value.alt == [] && r.value.conds == [] && r.value.main != [] && Rest(r.value.main) <= wit
  {
    StrictEnforced(env);
    StrictWellFormed(env, t);
    StrictEncode(env, t);
    StrictRun(env, Flatten(Encode(env, t)), State(wit, [], []));
    SimExpr(Knowing(Strict(env)), t, State(wit, [], []));
  }

  lemma StrictLenient(env: Env)
    ensures Lenient(Knowing(Strict(env)), Knowing(env))
  {
  }

  /** Whatever a node accepts, an interpreter that knows the template hash is
      satisfied with: for every transaction. */
  lemma NeverRefused(env: Env, t: Term, wit: seq<Bytes>)
    requires Real(env) && HasBase(t, B) && WellFormed(env, t) && NodeAccepts(env, t, wit)
    ensures Satisfies(Knowing(env), t, wit)
  {
    NodeExactly(env, t, wit);
    StrictWellFormed(env, t);
    StrictLenient(env);
    LenientEval(Knowing(Strict(env)), Knowing(env), t, Abs(wit));
  }

  /** What an interpreter may be told: nothing, or the right template hash. */
  predicate Honest(cx: Context) { cx.txTemplate.Some? ==> cx.txTemplate == Some(cx.env.template) }

  /** An interpreter without the template hash refuses, of the witnesses that
      one with it is satisfied by, exactly those that use a template. */
  lemma DefaultExactly(cx: Context, t: Term, wit: seq<Bytes>)
    requires cx.txTemplate == None
    ensures Satisfies(cx, t, wit) <==>
            Satisfies(Knowing(cx.env), t, wit) && TemplateFree(Eval(Knowing(cx.env), t, Abs(wit)).emits)
  {
    assert Without(Knowing(cx.env)) == cx;
    CutEval(Knowing(cx.env), t, Abs(wit));
  }

  /** Where a node enforces lock times, a satisfied interpreter means that the
      node accepts, with or without the template hash. */
  lemma InterpreterSound(cx: Context, t: Term, wit: seq<Bytes>)
    requires Real(cx.env) && TimelocksEnforced(cx.env) && Honest(cx)
    requires HasBase(t, B) && WellFormed(cx.env, t) && Satisfies(cx, t, wit)
    ensures NodeAccepts(cx.env, t, wit)
  {
    if cx.txTemplate == None { DefaultExactly(cx, t, wit); }
    SatisfiedSmall(cx, t, wit);
    CompilerCorrect(Knowing(cx.env), t, wit);
  }

  /** Without the template hash a node's verdict is the interpreter's, except on
      witnesses that use a template. */
  lemma DefaultAgrees(cx: Context, t: Term, wit: seq<Bytes>)
    requires Real(cx.env) && TimelocksEnforced(cx.env) && cx.txTemplate == None
    requires HasBase(t, B) && WellFormed(cx.env, t)
    ensures Satisfies(cx, t, wit) <==>
            NodeAccepts(cx.env, t, wit) && TemplateFree(Eval(Knowing(cx.env), t, Abs(wit)).emits)
  {
    DefaultExactly(cx, t, wit);
    if Satisfies(cx, t, wit) { InterpreterSound(cx, t, wit); }
    if NodeAccepts(cx.env, t, wit) { NeverRefused(cx.env, t, wit); }
  }

  /** For terms without a template it does not matter what template the
      interpreter was told, if any. */
  lemma UnmentionedAgrees(cx: Context, t: Term, wit: seq<Bytes>)
    requires Real(cx.env) && TimelocksEnforced(cx.env)
    requires HasBase(t, B) && WellFormed(cx.env, t) && !Mentions(t)
    ensures Satisfies(cx, t, wit) <==> NodeAccepts(cx.env, t, wit)
  {
    SameEval(cx, Knowing(cx.env), t, Abs(wit));
    if Satisfies(cx, t, wit) { InterpreterSound(Knowing(cx.env), t, wit); }
    if NodeAccepts(cx.env, t, wit) { NeverRefused(cx.env, t, wit); }
  }

  /** The iterator yields the constraints of the term's evaluation; where a node
      enforces lock times and the iterator ends without an error, the node
      accepts. With the template hash, it ends so exactly then. */
  lemma IteratorCorrect(cx: Context, t: Term, wit: seq<Bytes>)
    requires Real(cx.env) && TimelocksEnforced(cx.env) && Honest(cx) && HasBase(t, B) && WellFormed(cx.env, t)
    ensures var report := Interpreter.Reports(cx, None, [Fresh(t)], Abs(wit));
            && report.emits == Eval(cx, t, Abs(wit)).emits
            && (report.error == None ==> NodeAccepts(cx.env, t, wit))
            && (cx.txTemplate.Some? && NodeAccepts(cx.env, t, wit) ==> report.error == None)
  {
    Refinement.RunScript(cx, t, Abs(wit));
    if Satisfies(cx, t, wit) { InterpreterSound(cx, t, wit); }
    if NodeAccepts(cx.env, t, wit) { NeverRefused(cx.env, t, wit); }
  }

  // ----- exactly when they agree -----

  predicate Accepted(cx: Context, t: Term, wit: seq<Bytes>) {
    Satisfies(cx, t, wit) && !NodeAccepts(cx.env, t, wit)
  }

  predicate Refused(cx: Context, t: Term, wit: seq<Bytes>) {
    !Satisfies(cx, t, wit) && NodeAccepts(cx.env, t, wit)
  }

  predicate Question(cx: Context, t: Term) { HasBase(t, B) && WellFormed(cx.env, t) }

  /** The interpreter is never satisfied by what a node refuses. */
  ghost predicate AlwaysSound(cx: Context) {
    forall t: Term, wit: seq<Bytes> :: Question(cx, t) ==> !Accepted(cx, t, wit)
  }

  /** The interpreter is satisfied by all that a node accepts. */
  ghost predicate AlwaysComplete(cx: Context) {
    forall t: Term, wit: seq<Bytes> :: Question(cx, t) ==> !Refused(cx, t, wit)
  }

  /** The interpreter's `after` does not look at the input's sequence number, so
      it accepts what a node refuses for a final input. */
  lemma FinalInput(cx: Context)
    requires cx.env.lockTime != 0 && cx.env.sequence == SEQUENCE_FINAL
    ensures exists t :: Question(cx, t) && Accepted(cx, t, [])
  {
    var n := if IsSeconds(cx.env.lockTime) then LOCKTIME_THRESHOLD else 1;
    var t := Term.After(n);
    var st := State([], [], []);
    assert EvalAfter(cx, n, Abs([])).1 == [Satisfied];
    assert Satisfies(cx, t, []);
    RunTime(cx.env, OpCheckLockTimeVerify, n, st);
    assert Question(cx, t) && Accepted(cx, t, []);
  }

  /** The interpreter's `older` does not look at the transaction's version, so it
      accepts what a node refuses below version 2. */
  lemma OldVersion(cx: Context)
    requires cx.env.version < 2 && !RelativeDisabled(cx.env.sequence)
    ensures exists t :: Question(cx, t) && Accepted(cx, t, [])
  {
    var n := if IsRelativeTime(cx.env.sequence) then SEQUENCE_TYPE_FLAG else SEQUENCE_VALUE_SIZE;
    var t := Term.Older(n);
    var st := State([], [], []);
    assert ValidOlder(n) && RelativeValue(n) == 0 && IsRelativeTime(n) == IsRelativeTime(cx.env.sequence);
    assert EvalOlder(cx, n, Abs([])).1 == [Satisfied];
    assert Satisfies(cx, t, []);
    RunTime(cx.env, OpCheckSequenceVerify, n, st);
    assert Question(cx, t) && Accepted(cx, t, []);
  }

  /** `and_v(txtemplate(h),1)` */
  function TemplateTerm(h: Bytes): Term { Term.AndV(Term.TxTemplate(h), True) }

  lemma TemplateVerdicts(cx: Context, h: Bytes)
    requires Real(cx.env) && |h| == 32
    ensures Question(cx, TemplateTerm(h))
    ensures Satisfies(cx, TemplateTerm(h), []) <==> cx.txTemplate == Some(h)
    ensures NodeAccepts(cx.env, TemplateTerm(h), []) <==> h == cx.env.template
  {
    var t := TemplateTerm(h);
    TemplateEval(cx, h);
    TemplateEval(Knowing(Strict(cx.env)), h);
    NodeExactly(cx.env, t, []);
  }

  lemma TemplateEval(cx: Context, h: Bytes)
    ensures Satisfies(cx, TemplateTerm(h), []) <==> cx.txTemplate == Some(h)
  {
    assert Abs([]) == [];
    assert Eval(cx, Term.TxTemplate(h), []) == OfReply(EvalTemplate(cx, h, []));
    var empty: Interp.Stack := [];
    assert EvalLeaf(cx, True, empty) == (Silent, empty + [Satisfied]);
    assert empty + [Satisfied] == [Satisfied];
    assert Eval(cx, True, empty) == Res([], Done([Satisfied]));
  }

  /** Which contexts never mislead: exactly those where a node enforces lock
      times and the interpreter was not told a wrong template. */
  lemma SoundExactly(cx: Context)
    requires Real(cx.env) && (cx.txTemplate.Some? ==> |cx.txTemplate.value| == 32)
    ensures AlwaysSound(cx) <==> TimelocksEnforced(cx.env) && Honest(cx)
  {
    if TimelocksEnforced(cx.env) && Honest(cx) {
      forall t: Term, wit: seq<Bytes> | Question(cx, t)
        ensures !Accepted(cx, t, wit)
      {
        if Satisfies(cx, t, wit) { InterpreterSound(cx, t, wit); }
      }
    } else if !Honest(cx) {
      TemplateVerdicts(cx, cx.txTemplate.value);
      assert Question(cx, TemplateTerm(cx.txTemplate.value)) && Accepted(cx, TemplateTerm(cx.txTemplate.value), []);
    } else if cx.env.lockTime != 0 && cx.env.sequence == SEQUENCE_FINAL {
      FinalInput(cx);
    } else {
      OldVersion(cx);
    }
  }

  /** Which contexts refuse nothing that a node accepts: exactly those that know
      the template hash, whatever the lock times. */
  lemma CompleteExactly(cx: Context)
    requires Real(cx.env)
    ensures AlwaysComplete(cx) <==> cx == Knowing(cx.env)
  {
    if cx == Knowing(cx.env) {
      forall t: Term, wit: seq<Bytes> | Question(cx, t)
        ensures !Refused(cx, t, wit)
      {
        if NodeAccepts(cx.env, t, wit) { NeverRefused(cx.env, t, wit); }
      }
    } else {
      TemplateVerdicts(cx, cx.env.template);
      assert Question(cx, TemplateTerm(cx.env.template)) && Refused(cx, TemplateTerm(cx.env.template), []);
    }
  }
}
