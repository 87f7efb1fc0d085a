/** The encoder is correct: running a term's script on a witness does exactly
    what the interpreter does with the term. */
module Compile {
  import opened Bytes
  import opened Script
  import opened Terms
  import opened Types
  import opened Interp

  // ----- running tokens -----

  function RunToks(env: Env, toks: seq<Token>, st: State): Option<State> {
    Run(env, Flatten(toks), st)
  }

  function Bind(env: Env, r: Option<State>, toks: seq<Token>): Option<State> {
    if r == None then None else RunToks(env, toks, r.value)
  }

  lemma RunToksConcat(env: Env, a: seq<Token>, b: seq<Token>, st: State)
    ensures RunToks(env, a + b, st) == Bind(env, RunToks(env, a, st), b)
  {
    FlattenConcat(a, b);
    RunConcat(env, Flatten(a), Flatten(b), st);
  }

  lemma FlattenOne(tok: Token)
    ensures Flatten([tok]) == Instrs(tok)
  {
    assert [tok][1..] == [];
    assert Instrs(tok) + [] == Instrs(tok);
  }

  lemma RunOp(env: Env, op: Opcode, st: State)
    ensures RunToks(env, [Op(op)], st) == Step(env, Exec(op), st)
  {
    FlattenOne(Op(op));
    RunOne(env, Exec(op), st);
  }

  lemma RunPush(env: Env, tok: Token, data: Bytes, st: State)
    requires Instrs(tok) == [Instr.Push(data)]
    ensures RunToks(env, [tok], st) == Step(env, Instr.Push(data), st)
  {
    FlattenOne(tok);
    RunOne(env, Instr.Push(data), st);
  }

  /** The first token of several. */
  lemma RunFirst(env: Env, tok: Token, toks: seq<Token>, st: State)
    ensures RunToks(env, [tok] + toks, st) == Bind(env, RunToks(env, [tok], st), toks)
  {
    RunToksConcat(env, [tok], toks, st);
  }

  /** Opcodes other than IF, NOTIF, ELSE and ENDIF. */
  predicate IsData(op: Opcode) { !op.OpIf? && !op.OpNotIf? && !op.OpElse? && !op.OpEndIf? }

  lemma RunData(env: Env, op: Opcode, st: State)
    requires IsData(op) && Live(st.conds)
    ensures RunToks(env, [Op(op)], st) ==
            var r := Execute(env, op, st.main, st.alt);
            if r == None then None else Some(State(r.value.0, r.value.1, st.conds))
  {
    RunOp(env, op, st);
  }

  lemma RunLit(env: Env, tok: Token, data: Bytes, st: State)
    requires Instrs(tok) == [Instr.Push(data)] && |data| <= MAX_SCRIPT_ELEMENT_SIZE && Live(st.conds)
    ensures RunToks(env, [tok], st) == Some(st.(main := st.main + [data]))
  {
    RunPush(env, tok, data, st);
  }

  // ----- witness elements and their abstraction -----

  function Abs(main: seq<Bytes>): Interp.Stack {
    seq(|main|, i requires 0 <= i < |main| => FromBytes(main[i]))
  }

  lemma AbsConcat(a: seq<Bytes>, b: seq<Bytes>)
    ensures Abs(a + b) == Abs(a) + Abs(b)
  {
  }

  lemma AbsRest(main: seq<Bytes>)
    requires main != []
    ensures Abs(Rest(main)) == Drop1(Abs(main)) && Peek(Abs(main)) == FromBytes(Top(main))
  {
  }

  /** The script element that stands for the interpreter's boolean: `[]` for
      dissatisfied, a positive number for satisfied, which is `[1]` when the
      fragment's type says so. */
  predicate Repr(x: Bytes, e: Element, unit: bool) {
    match e
    case Satisfied =>
      && CastToBool(x) && DecodeNum(x).Some? && DecodeNum(x).value > 0
      && (unit ==> x == TRUE_BYTES)
    case Dissatisfied => x == FALSE_BYTES
    case Push(_) => false
  }

  predicate Small(main: seq<Bytes>) {
    forall i :: 0 <= i < |main| ==> |main[i]| <= MAX_SCRIPT_ELEMENT_SIZE
  }

  /** A script run that mirrors an evaluation leaving a boolean: it fails when
      the evaluation fails, and otherwise leaves the same part of the stack. */
  predicate BoolResult(main: seq<Bytes>, unit: bool, out: Outcome, r: Option<seq<Bytes>>) {
    match out
    case Failed(_) => r == None
    case Done(s) =>
      && r.Some? && r.value != [] && s != []
      && Rest(r.value) <= main && Drop1(s) == Abs(Rest(r.value))
      && Repr(Top(r.value), Peek(s), unit)
  }

  /** The same for an evaluation that leaves nothing. */
  predicate VoidResult(main: seq<Bytes>, out: Outcome, r: Option<seq<Bytes>>) {
    match out
    case Failed(_) => r == None
    case Done(s) => r.Some? && r.value <= main && s == Abs(r.value)
  }

  /** The same for a W fragment, which leaves its boolean next to `y`. */
  predicate WResult(main: seq<Bytes>, y: Bytes, unit: bool, out: Outcome, r: Option<seq<Bytes>>) {
    match out
    case Failed(_) => r == None
    case Done(s) =>
      && r.Some? && |r.value| >= 2 && s != []
      && var rest, a, b := Rest(Rest(r.value)), Top(Rest(r.value)), Top(r.value);
         && rest <= main && Drop1(s) == Abs(rest)
         && ((b == y && Repr(a, Peek(s), unit)) || (a == y && Repr(b, Peek(s), unit)))
  }

  function MainOf(r: Option<State>): Option<seq<Bytes>> {
    if r == None then None else Some(r.value.main)
  }

  /** The alt stack and the conditions are as before. */
  predicate Keeps(st: State, r: Option<State>) {
    r.Some? ==> r.value.alt == st.alt && r.value.conds == st.conds
  }

  /** CHECKSIG, which always follows a K fragment. */
  function Checked(env: Env, r: Option<seq<Bytes>>): Option<seq<Bytes>> {
    if r == None || |r.value| < 2 then None
    else
      var c := CheckSig(env, Top(r.value), Top(Rest(r.value)));
      if c == None then None else Some(Rest(Rest(r.value)) + [BoolBytes(c.value)])
  }

  lemma RunCheckSig(env: Env, st: State)
    requires Live(st.conds)
    ensures var r := RunToks(env, [Op(OpCheckSig)], st);
            MainOf(r) == Checked(env, Some(st.main)) && Keeps(st, r)
  {
    RunData(env, OpCheckSig, st);
    if |st.main| >= 2 {
      assert Rest(Rest(st.main)) == st.main[..|st.main| - 2];
    }
  }

  /** The interpreter and the machine look at the same transaction, and the
      transaction is one for which the node enforces lock times. */
  predicate TimelocksEnforced(env: Env) {
    && (env.lockTime == 0 || env.sequence != SEQUENCE_FINAL)
    && (env.version >= 2 || RelativeDisabled(env.sequence))
  }

  predicate SameTx(cx: Context) {
    cx.txTemplate == Some(cx.env.template) && |cx.env.template| == 32
  }

  ghost predicate Faithful(cx: Context) {
    Sane(cx.env) && SameTx(cx) && TimelocksEnforced(cx.env)
  }

  // ----- leaves -----

  lemma ReprBool(b: bool)
    ensures Repr(BoolBytes(b), FromBool(b), true) && Repr(BoolBytes(b), FromBool(b), false)
  {
    OneAndZero();
  }

  lemma PushBool(main: seq<Bytes>, rest: seq<Bytes>, x: Bytes, e: Element, unit: bool)
    requires rest <= main && Repr(x, e, unit)
    ensures BoolResult(main, unit, Done(Abs(rest) + [e]), Some(rest + [x]))
  {
    assert Rest(rest + [x]) == rest;
    assert Drop1(Abs(rest) + [e]) == Abs(rest);
  }

  /** `pk_k`: the key goes on top of the signature, and CHECKSIG decides. */
  lemma CheckedPk(cx: Context, key: Bytes, main: seq<Bytes>)
    requires Sane(cx.env) && cx.env.keyOk(key)
    ensures BoolResult(main, true, OfReply(EvalPk(cx, key, Abs(main))).out, Checked(cx.env, Some(main + [key])))
  {
    var m := main + [key];
    assert Rest(m) == main;
    if main != [] {
      AbsRest(main);
      ReprBool(true);
      ReprBool(false);
      PushBool(main, Rest(main), TRUE_BYTES, Satisfied, true);
      PushBool(main, Rest(main), FALSE_BYTES, Dissatisfied, true);
      assert Abs(main) == Abs(Rest(main)) + [FromBytes(Top(main))];
    }
  }

  /** `DUP HASH160 h EQUALVERIFY` checks the top element and leaves it. */
  lemma RunPkH(env: Env, h: Bytes, st: State)
    requires Live(st.conds) && |h| <= MAX_SCRIPT_ELEMENT_SIZE
    ensures RunToks(env, PkHTokens(h), st) ==
            if st.main == [] || env.hash(Hash160, Top(st.main)) != h then None else Some(st)
  {
    var t1 := [Op(OpHash(Hash160)), Hash20(h), Op(OpEqual), Op(OpVerify)];
    assert PkHTokens(h) == [Op(OpDup)] + t1;
    RunFirst(env, Op(OpDup), t1, st);
    RunData(env, OpDup, st);
    if st.main != [] {
      var key := Top(st.main);
      var st1 := st.(main := st.main + [key]);
      var t2 := [Hash20(h), Op(OpEqual), Op(OpVerify)];
      assert t1 == [Op(OpHash(Hash160))] + t2;
      RunFirst(env, Op(OpHash(Hash160)), t2, st1);
      RunData(env, OpHash(Hash160), st1);
      assert Rest(st1.main) == st.main;
      RunCompare(env, env.hash(Hash160, key), h, st);
    }
  }

  /** `h EQUALVERIFY` consumes an element equal to `h`. */
  lemma RunCompare(env: Env, x: Bytes, h: Bytes, st: State)
    requires Live(st.conds) && |h| <= MAX_SCRIPT_ELEMENT_SIZE
    ensures RunToks(env, [Hash20(h), Op(OpEqual), Op(OpVerify)], st.(main := st.main + [x])) ==
            if x == h then Some(st) else None
  {
    var st1, toks := st.(main := st.main + [x]), [Op(OpEqual), Op(OpVerify)];
    assert [Hash20(h), Op(OpEqual), Op(OpVerify)] == [Hash20(h)] + toks;
    RunFirst(env, Hash20(h), toks, st1);
    RunLit(env, Hash20(h), h, st1);
    RunEqualVerify(env, st.main, x, h, st);
    assert st1.main + [h] == st.main + [x, h];
  }

  lemma RunEqualVerify(env: Env, main: seq<Bytes>, x: Bytes, y: Bytes, st: State)
    requires Live(st.conds)
    ensures RunToks(env, [Op(OpEqual), Op(OpVerify)], st.(main := main + [x, y])) ==
            if x == y then Some(st.(main := main)) else None
  {
    var st1 := st.(main := main + [x, y]);
    assert [Op(OpEqual), Op(OpVerify)] == [Op(OpEqual)] + [Op(OpVerify)];
    RunFirst(env, Op(OpEqual), [Op(OpVerify)], st1);
    RunData(env, OpEqual, st1);
    assert st1.main[..|st1.main| - 2] == main;
    var st2 := st.(main := main + [BoolBytes(x == y)]);
    RunData(env, OpVerify, st2);
    assert Rest(st2.main) == main;
    OneAndZero();
  }

  lemma CheckedPkH(cx: Context, h: Bytes, main: seq<Bytes>)
    requires Sane(cx.env)
    ensures BoolResult(main, true, OfReply(EvalPkH(cx, h, Abs(main))).out,
              if main == [] || cx.env.hash(Hash160, Top(main)) != h then None else Checked(cx.env, Some(main)))
  {
    if main != [] && Rest(main) != [] {
      AbsRest(main);
      AbsRest(Rest(main));
      var rest := Rest(Rest(main));
      assert rest <= main;
      ReprBool(true);
      ReprBool(false);
      PushBool(main, rest, TRUE_BYTES, Satisfied, true);
      PushBool(main, rest, FALSE_BYTES, Dissatisfied, true);
      assert Drop1(Abs(main)) == Abs(rest) + [FromBytes(Top(Rest(main)))];
    } else if main != [] {
      AbsRest(main);
    }
  }

  /** `SIZE 32 EQUALVERIFY` checks the length of the top element. */
  lemma RunSize32(env: Env, st: State)
    requires Live(st.conds)
    ensures RunToks(env, [Op(OpSize), Num(32), Op(OpEqual), Op(OpVerify)], st) ==
            if st.main == [] || |Top(st.main)| != 32 then None else Some(st)
  {
    var t1 := [Num(32), Op(OpEqual), Op(OpVerify)];
    assert [Op(OpSize), Num(32), Op(OpEqual), Op(OpVerify)] == [Op(OpSize)] + t1;
    RunFirst(env, Op(OpSize), t1, st);
    RunData(env, OpSize, st);
    if st.main != [] {
      var size := EncodeNum(|Top(st.main)|);
      var st1, t2 := st.(main := st.main + [size]), [Op(OpEqual), Op(OpVerify)];
      assert t1 == [Num(32)] + t2;
      RunFirst(env, Num(32), t2, st1);
      DigitsLength(32);
      RunLit(env, Num(32), EncodeNum(32), st1);
      assert st1.main + [EncodeNum(32)] == st.main + [size, EncodeNum(32)];
      RunEqualVerify(env, st.main, size, EncodeNum(32), st);
      NumInjective(|Top(st.main)|, 32);
    }
  }

  /** `SIZE 32 EQUALVERIFY HASH h EQUAL` on the top element. */
  lemma RunHash(env: Env, kind: HashKind, h: Bytes, st: State)
    requires Live(st.conds) && |h| == HashSize(kind)
    ensures RunToks(env, HashTokens(kind, h), st) ==
            if st.main == [] || |Top(st.main)| != 32 then None
            else Some(st.(main := Rest(st.main) + [BoolBytes(env.hash(kind, Top(st.main)) == h)]))
  {
    var t1 := [Op(OpSize), Num(32), Op(OpEqual), Op(OpVerify)];
    var t2 := [Op(OpHash(kind)), HashToken(kind, h), Op(OpEqual)];
    assert HashTokens(kind, h) == t1 + t2;
    RunToksConcat(env, t1, t2, st);
    RunSize32(env, st);
    if st.main != [] { RunHashTail(env, kind, h, st); }
  }

  lemma RunEqualTo(env: Env, tok: Token, h: Bytes, rest: seq<Bytes>, y: Bytes, st: State)
    requires Instrs(tok) == [Instr.Push(h)] && |h| <= MAX_SCRIPT_ELEMENT_SIZE && Live(st.conds)
    requires st.main == rest + [y]
    ensures RunToks(env, [tok, Op(OpEqual)], st) == Some(st.(main := rest + [BoolBytes(y == h)]))
  {
    assert [tok, Op(OpEqual)] == [tok] + [Op(OpEqual)];
    RunFirst(env, tok, [Op(OpEqual)], st);
    RunLit(env, tok, h, st);
    var st1 := st.(main := st.main + [h]);
    RunData(env, OpEqual, st1);
    assert st1.main[..|st1.main| - 2] == rest;
  }

  lemma RunHashTail(env: Env, kind: HashKind, h: Bytes, st: State)
    requires Live(st.conds) && |h| == HashSize(kind) && st.main != []
    ensures RunToks(env, [Op(OpHash(kind)), HashToken(kind, h), Op(OpEqual)], st) ==
            Some(st.(main := Rest(st.main) + [BoolBytes(env.hash(kind, Top(st.main)) == h)]))
  {
    var t1 := [HashToken(kind, h), Op(OpEqual)];
    assert [Op(OpHash(kind)), HashToken(kind, h), Op(OpEqual)] == [Op(OpHash(kind))] + t1;
    RunFirst(env, Op(OpHash(kind)), t1, st);
    RunData(env, OpHash(kind), st);
    var rest, y := Rest(st.main), env.hash(kind, Top(st.main));
    var st1 := st.(main := rest + [y]);
    RunEqualTo(env, HashToken(kind, h), h, rest, y, st1);
  }

  lemma HashResult(cx: Context, kind: HashKind, h: Bytes, main: seq<Bytes>)
    ensures BoolResult(main, true, OfReply(EvalHash(cx, kind, h, Abs(main))).out,
              if main == [] || |Top(main)| != 32 then None
              else Some(Rest(main) + [BoolBytes(cx.env.hash(kind, Top(main)) == h)]))
  {
    if main != [] {
      AbsRest(main);
      var b := cx.env.hash(kind, Top(main)) == h;
      ReprBool(b);
      PushBool(main, Rest(main), BoolBytes(b), FromBool(b), true);
    }
  }

  /** `n CLTV` and `n CSV` leave their operand, which is a true number. */
  lemma ReprNum(n: nat)
    requires 0 < n < NUM_LIMIT
    ensures Repr(EncodeNum(n), Satisfied, false) && |EncodeNum(n)| <= MAX_NUM_SIZE
    ensures DecodeNum(EncodeNum(n)) == Some(n)
  {
    NumRoundTrip(n);
    NumTruth(n);
    DigitsLength(n);
  }

  lemma RunTime(env: Env, op: Opcode, n: nat, st: State)
    requires op.OpCheckLockTimeVerify? || op.OpCheckSequenceVerify?
    requires Live(st.conds) && 0 < n < NUM_LIMIT
    ensures RunToks(env, [Num(n), Op(op)], st) ==
            if (if op.OpCheckLockTimeVerify? then CheckLockTime(env, n) else CheckSequence(env, n))
            then Some(st.(main := st.main + [EncodeNum(n)])) else None
  {
    ReprNum(n);
    assert [Num(n), Op(op)] == [Num(n)] + [Op(op)];
    RunFirst(env, Num(n), [Op(op)], st);
    RunLit(env, Num(n), EncodeNum(n), st);
    RunData(env, op, st.(main := st.main + [EncodeNum(n)]));
  }

  lemma RunTemplate(env: Env, h: Bytes, st: State)
    requires Live(st.conds) && |h| == 32
    ensures RunToks(env, [Bytes32(h), Op(OpCheckTemplateVerify), Op(OpDrop)], st) ==
            if h == env.template then Some(st) else None
  {
    var t1 := [Op(OpCheckTemplateVerify), Op(OpDrop)];
    assert [Bytes32(h), Op(OpCheckTemplateVerify), Op(OpDrop)] == [Bytes32(h)] + t1;
    RunFirst(env, Bytes32(h), t1, st);
    RunLit(env, Bytes32(h), h, st);
    var st1 := st.(main := st.main + [h]);
    assert t1 == [Op(OpCheckTemplateVerify)] + [Op(OpDrop)];
    RunFirst(env, Op(OpCheckTemplateVerify), [Op(OpDrop)], st1);
    RunData(env, OpCheckTemplateVerify, st1);
    RunData(env, OpDrop, st1);
    assert Rest(st1.main) == st.main;
  }

  /** What a script must leave for a fragment of base B, K or V. A K fragment is
      taken together with its CHECKSIG. */
  predicate Matches(env: Env, base: Base, unit: bool, main: seq<Bytes>, out: Outcome, r: Option<seq<Bytes>>) {
    match base
    case V => VoidResult(main, out, r)
    case B => BoolResult(main, unit, out, r)
    case K => BoolResult(main, true, out, Checked(env, r))
    case W => true
  }

  /** The script of `t` mirrors its evaluation, for every base but W. */
  ghost predicate Mirrors(cx: Context, t: Term, st: State)
    requires IsTyped(t)
  {
    var x := TypeOf(t).value;
    var r := RunToks(cx.env, Encode(cx.env, t), st);
    Keeps(st, r) && Matches(cx.env, x.base, x.unit, st.main, Eval(cx, t, Abs(st.main)).out, MainOf(r))
  }

  /** The same for W fragments, which find `y` on top of their arguments. */
  ghost predicate MirrorsW(cx: Context, t: Term, st: State, y: Bytes)
    requires IsTyped(t)
  {
    var r := RunToks(cx.env, Encode(cx.env, t), st.(main := st.main + [y]));
    Keeps(st, r) && WResult(st.main, y, TypeOf(t).value.unit, Eval(cx, t, Abs(st.main)).out, MainOf(r))
  }

  lemma LeafConstant(cx: Context, t: Term, st: State)
    requires (t.True? || t.False?) && Live(st.conds)
    ensures Mirrors(cx, t, st)
  {
    var n := if t.True? then 1 else 0;
    OneAndZero();
    RunLit(cx.env, Num(n), EncodeNum(n), st);
    PushBool(st.main, st.main, EncodeNum(n), FromBool(t.True?), true);
  }

  lemma LeafPkK(cx: Context, t: Term, st: State)
    requires Sane(cx.env) && t.PkK? && WellFormed(cx.env, t) && Live(st.conds)
    ensures Mirrors(cx, t, st)
  {
    RunLit(cx.env, KeyToken(t.key), t.key, st);
    CheckedPk(cx, t.key, st.main);
  }

  lemma LeafPkH(cx: Context, t: Term, h: Bytes, st: State)
    requires Sane(cx.env) && (t.PkH? || t.RawPkH?) && Live(st.conds)
    requires |h| == 20 && h == if t.PkH? then cx.env.hash(Hash160, t.key) else t.keyHash
    ensures Mirrors(cx, t, st)
  {
    RunPkH(cx.env, h, st);
    CheckedPkH(cx, h, st.main);
  }

  lemma LeafAfter(cx: Context, t: Term, st: State)
    requires TimelocksEnforced(cx.env) && t.After? && WellFormed(cx.env, t) && Live(st.conds)
    ensures Mirrors(cx, t, st)
  {
    RunTime(cx.env, OpCheckLockTimeVerify, t.n, st);
    ReprNum(t.n);
    PushBool(st.main, st.main, EncodeNum(t.n), Satisfied, false);
  }

  lemma LeafOlder(cx: Context, t: Term, st: State)
    requires TimelocksEnforced(cx.env) && t.Older? && WellFormed(cx.env, t) && Live(st.conds)
    ensures Mirrors(cx, t, st)
  {
    OlderSmall(t.n);
    RunTime(cx.env, OpCheckSequenceVerify, t.n, st);
    ReprNum(t.n);
    PushBool(st.main, st.main, EncodeNum(t.n), Satisfied, false);
  }

  /** Without the disable flag an operand is an ordinary script number. */
  lemma OlderSmall(n: nat)
    requires ValidOlder(n)
    ensures 0 < n < NUM_LIMIT
  {
  }

  lemma LeafHash(cx: Context, t: Term, st: State)
    requires t.HashLock? && WellFormed(cx.env, t) && Live(st.conds)
    ensures Mirrors(cx, t, st)
  {
    RunHash(cx.env, t.kind, t.image, st);
    HashResult(cx, t.kind, t.image, st.main);
  }

  lemma LeafTemplate(cx: Context, t: Term, st: State)
    requires SameTx(cx) && t.TxTemplate? && WellFormed(cx.env, t) && Live(st.conds)
    ensures Mirrors(cx, t, st)
  {
    RunTemplate(cx.env, t.image, st);
  }
}
