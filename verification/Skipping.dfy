/** Code in a branch that is not taken: a term's script is skipped as a whole,
    and inscription envelopes never change the state. */
module Skipping {
  import opened Bytes
  import opened Script
  import opened Ord
  import opened Terms
  import opened Compile

  // ----- envelopes -----

  lemma {:induction false} ChunksSmall(data: Bytes)
    ensures forall i :: 0 <= i < |Chunks(data)| ==> |Chunks(data)[i]| <= MAX_SCRIPT_ELEMENT_SIZE
  {
    if |data| > MAX_SCRIPT_ELEMENT_SIZE {
      ChunksSmall(data[MAX_SCRIPT_ELEMENT_SIZE..]);
    }
  }

  predicate AllSmall(pushes: seq<Bytes>) {
    forall i :: 0 <= i < |pushes| ==> |pushes[i]| <= MAX_SCRIPT_ELEMENT_SIZE
  }

  lemma {:induction false} TaggedSmall(tag: Bytes, values: seq<Bytes>)
    requires |tag| <= MAX_SCRIPT_ELEMENT_SIZE && AllSmall(values)
    ensures AllSmall(Tagged(tag, values))
  {
    if values != [] { TaggedSmall(tag, values[1..]); }
  }

  lemma FieldSmall(tag: Tag, value: Option<Bytes>)
    requires IsChunked(tag) || Fits(value)
    ensures AllSmall(FieldPushes(tag, value))
  {
    if value.Some? {
      ChunksSmall(value.value);
      TaggedSmall(TagBytes(tag), Chunks(value.value));
    }
  }

  lemma SmallConcat(a: seq<Bytes>, b: seq<Bytes>)
    requires AllSmall(a) && AllSmall(b)
    ensures AllSmall(a + b)
  {
  }

  /** Appends the pushes of one field. */
  lemma FieldSmallAfter(before: seq<Bytes>, tag: Tag, value: Option<Bytes>)
    requires AllSmall(before) && (IsChunked(tag) || Fits(value))
    ensures AllSmall(before + FieldPushes(tag, value))
  {
    FieldSmall(tag, value);
    SmallConcat(before, FieldPushes(tag, value));
  }

  lemma BodySmall(body: Option<Bytes>)
    ensures AllSmall(BodyPushes(body))
  {
    if body.Some? { ChunksSmall(body.value); }
  }

  /** Every push of a validated inscription fits the element limit. */
  lemma PayloadSmall(i: Ord.Inscription)
    requires Validate(i)
    ensures AllSmall(Payload(i))
  {
    FieldSmall(TContentType, i.contentType);
    var p := FieldPushes(TContentType, i.contentType);
    FieldSmallAfter(p, TContentEncoding, i.contentEncoding);
    p := p + FieldPushes(TContentEncoding, i.contentEncoding);
    FieldSmallAfter(p, TMetaprotocol, i.metaprotocol);
    p := p + FieldPushes(TMetaprotocol, i.metaprotocol);
    FieldSmallAfter(p, TParent, i.parent);
    p := p + FieldPushes(TParent, i.parent);
    FieldSmallAfter(p, TDelegate, i.delegate);
    p := p + FieldPushes(TDelegate, i.delegate);
    FieldSmallAfter(p, TPointer, i.pointer);
    p := p + FieldPushes(TPointer, i.pointer);
    FieldSmallAfter(p, TMetadata, i.metadata);
    p := p + FieldPushes(TMetadata, i.metadata);
    BodySmall(i.body);
    SmallConcat(p, BodyPushes(i.body));
  }

  lemma {:induction false} SkipPushes(env: Env, data: seq<Bytes>, st: State)
    requires AllSmall(data) && !Live(st.conds)
    ensures Run(env, Pushes(data), st) == Some(st)
  {
    if data != [] {
      assert Pushes(data) == [Push(data[0])] + Pushes(data[1..]);
      RunConcat(env, [Push(data[0])], Pushes(data[1..]), st);
      RunOne(env, Push(data[0]), st);
      SkipPushes(env, data[1..], st);
    }
  }

  lemma CondsPushPop(st: State, c: bool)
    ensures var st1 := st.(conds := st.conds + [c]);
            && st1.conds != [] && st1.conds[..|st1.conds| - 1] == st.conds
            && (Live(st1.conds) <==> Live(st.conds) && c)
  {
    var conds := st.conds + [c];
    assert conds[|conds| - 1] == c;
    assert forall i :: 0 <= i < |st.conds| ==> conds[i] == st.conds[i];
  }

  /** An envelope leaves the state unchanged, executed or not. */
  lemma EnvelopeNoop(env: Env, i: Ord.Inscription, st: State)
    requires Validate(i)
    ensures Run(env, RevealScript(i), st) == Some(st)
  {
    var opening := [Push([]), Exec(OpIf)];
    var inside := [Push(PROTOCOL_ID)] + Pushes(Payload(i));
    assert RevealScript(i) == opening + (inside + [Exec(OpEndIf)]);
    RunConcat(env, opening, inside + [Exec(OpEndIf)], st);
    RunConcat(env, inside, [Exec(OpEndIf)], st.(conds := st.conds + [false]));
    EnvelopeOpens(env, st);
    CondsPushPop(st, false);
    var st1 := st.(conds := st.conds + [false]);
    PayloadSmall(i);
    assert inside == Pushes([PROTOCOL_ID] + Payload(i));
    SkipPushes(env, [PROTOCOL_ID] + Payload(i), st1);
    RunOne(env, Exec(OpEndIf), st1);
  }

  lemma EnvelopeOpens(env: Env, st: State)
    ensures Run(env, [Push([]), Exec(OpIf)], st) == Some(st.(conds := st.conds + [false]))
  {
    assert [Push([]), Exec(OpIf)] == [Push([])] + [Exec(OpIf)];
    RunConcat(env, [Push([])], [Exec(OpIf)], st);
    RunOne(env, Push([]), st);
    var st1 := if Live(st.conds) then st.(main := st.main + [[]]) else st;
    RunOne(env, Exec(OpIf), st1);
    if Live(st.conds) { assert Rest(st1.main) == st.main; }
  }

  lemma OneEnvelope(env: Env, i: Ord.Inscription, toks: seq<Token>, st: State)
    requires Validate(i)
    ensures RunToks(env, [Token.Inscription(RevealScript(i))] + toks, st) == RunToks(env, toks, st)
  {
    var tok := Token.Inscription(RevealScript(i));
    RunFirst(env, tok, toks, st);
    FlattenOne(tok);
    EnvelopeNoop(env, i, st);
  }

  lemma {:induction false} EnvelopesNoop(env: Env, ins: seq<Ord.Inscription>, st: State)
    requires forall i :: 0 <= i < |ins| ==> Validate(ins[i])
    ensures RunToks(env, EnvelopeTokens(ins), st) == Some(st)
  {
    if ins != [] {
      var rest := ins[1..];
      assert EnvelopeTokens(ins) == [Token.Inscription(RevealScript(ins[0]))] + EnvelopeTokens(rest);
      OneEnvelope(env, ins[0], EnvelopeTokens(rest), st);
      EnvelopesNoop(env, rest, st);
    }
  }

  // ----- skipped terms -----

  /** Code that a skipping machine passes over. */
  ghost predicate Skips(env: Env, toks: seq<Token>, st: State) {
    RunToks(env, toks, st) == Some(st)
  }

  lemma SkipConcat(env: Env, a: seq<Token>, b: seq<Token>, st: State)
    requires Skips(env, a, st) && Skips(env, b, st)
    ensures Skips(env, a + b, st)
  {
    RunToksConcat(env, a, b, st);
  }

  lemma SkipOp(env: Env, op: Opcode, st: State)
    requires IsData(op) && !Live(st.conds)
    ensures Skips(env, [Op(op)], st)
  {
    RunOp(env, op, st);
  }

  lemma SkipLit(env: Env, tok: Token, data: Bytes, st: State)
    requires Instrs(tok) == [Instr.Push(data)] && |data| <= MAX_SCRIPT_ELEMENT_SIZE && !Live(st.conds)
    ensures Skips(env, [tok], st)
  {
    RunPush(env, tok, data, st);
  }

  /** A token that neither branches nor pushes too much. */
  predicate Plain(tok: Token) {
    match tok
    case Op(op) => IsData(op)
    case Num(n) => n < NUM_LIMIT
    case Hash20(b) => |b| <= MAX_SCRIPT_ELEMENT_SIZE
    case Bytes32(b) => |b| <= MAX_SCRIPT_ELEMENT_SIZE
    case Bytes33(b) => |b| <= MAX_SCRIPT_ELEMENT_SIZE
    case Bytes65(b) => |b| <= MAX_SCRIPT_ELEMENT_SIZE
    case Inscription(_) => false
  }

  predicate AllPlain(toks: seq<Token>) {
    forall i :: 0 <= i < |toks| ==> Plain(toks[i])
  }

  lemma {:induction false} SkipPlain(env: Env, toks: seq<Token>, st: State)
    requires AllPlain(toks) && !Live(st.conds)
    ensures Skips(env, toks, st)
  {
    if toks != [] {
      var tok := toks[0];
      assert toks == [tok] + toks[1..];
      RunFirst(env, tok, toks[1..], st);
      if tok.Op? {
        SkipOp(env, tok.op, st);
      } else if tok.Num? {
        DigitsLength(tok.n);
        SkipLit(env, tok, EncodeNum(tok.n), st);
      } else {
        SkipLit(env, tok, tok.bytes, st);
      }
      SkipPlain(env, toks[1..], st);
    }
  }

  lemma {:induction false} SigAddsPlain(keys: seq<Bytes>)
    requires forall i :: 0 <= i < |keys| ==> IsKey(keys[i])
    ensures AllPlain(SigAddTokens(keys))
  {
    if keys != [] { SigAddsPlain(keys[1..]); }
  }

  lemma MultisigPlain(env: Env, t: Term)
    requires WellFormed(env, t) && (t.Multi? || t.MultiA?)
    ensures AllPlain(Encode(env, t))
  {
    if t.MultiA? {
      SigAddsPlain(t.keys[1..]);
    } else {
      assert AllPlain(KeyTokens(t.keys));
    }
  }

  lemma LeafPlain(env: Env, t: Term)
    requires Sane(env) && WellFormed(env, t) && IsLeaf(t)
    ensures AllPlain(Encode(env, t))
  {
    if t.Multi? || t.MultiA? {
      MultisigPlain(env, t);
    } else if t.Older? {
      OlderSmall(t.n);
    }
  }

  /** IF or NOTIF, its body, and ENDIF. */
  lemma SkipIf(env: Env, op: Opcode, body: seq<Token>, st: State)
    requires (op.OpIf? || op.OpNotIf?) && !Live(st.conds)
    requires Skips(env, body, st.(conds := st.conds + [false]))
    ensures Skips(env, [Op(op)] + body + [Op(OpEndIf)], st)
  {
    var st1 := st.(conds := st.conds + [false]);
    RunToksConcat(env, [Op(op)] + body, [Op(OpEndIf)], st);
    RunToksConcat(env, [Op(op)], body, st);
    RunOp(env, op, st);
    RunOp(env, OpEndIf, st1);
    CondsPushPop(st, false);
  }

  /** The same with ELSE and a second body. */
  lemma SkipIfElse(env: Env, op: Opcode, body: seq<Token>, other: seq<Token>, st: State)
    requires (op.OpIf? || op.OpNotIf?) && !Live(st.conds)
    requires Skips(env, body, st.(conds := st.conds + [false]))
    requires Skips(env, other, st.(conds := st.conds + [true]))
    ensures Skips(env, [Op(op)] + body + [Op(OpElse)] + other + [Op(OpEndIf)], st)
  {
    var st1, st2 := st.(conds := st.conds + [false]), st.(conds := st.conds + [true]);
    RunToksConcat(env, [Op(op)] + body + [Op(OpElse)] + other, [Op(OpEndIf)], st);
    RunToksConcat(env, [Op(op)] + body + [Op(OpElse)], other, st);
    RunToksConcat(env, [Op(op)] + body, [Op(OpElse)], st);
    RunToksConcat(env, [Op(op)], body, st);
    RunOp(env, op, st);
    RunOp(env, OpElse, st1);
    CondsPushPop(st, false);
    CondsPushPop(st, true);
    assert st1.conds[|st1.conds| - 1 := true] == st2.conds;
    RunOp(env, OpEndIf, st2);
  }

  lemma {:induction false} SkipUnary(env: Env, t: Term, st: State)
    requires Sane(env) && WellFormed(env, t) && IsUnary(t) && !Live(st.conds)
    ensures Skips(env, Encode(env, t), st)
    decreases t, 0
  {
    var code := Encode(env, t.sub);
    if t.InscribePre? {
      SkipTerm(env, t.sub, st);
      EnvelopesNoop(env, t.inscriptions, st);
      SkipConcat(env, EnvelopeTokens(t.inscriptions), code, st);
    } else if t.InscribePost? {
      SkipTerm(env, t.sub, st);
      EnvelopesNoop(env, t.inscriptions, st);
      SkipConcat(env, code, EnvelopeTokens(t.inscriptions), st);
    } else if t.DupIf? || t.NonZero? {
      CondsPushPop(st, false);
      SkipTerm(env, t.sub, st.(conds := st.conds + [false]));
      SkipGuarded(env, t, code, st);
    } else {
      SkipTerm(env, t.sub, st);
      SkipWrapped(env, t, st);
    }
  }

  lemma SkipGuarded(env: Env, t: Term, code: seq<Token>, st: State)
    requires (t.DupIf? || t.NonZero?) && code == Encode(env, t.sub) && !Live(st.conds)
    requires Skips(env, code, st.(conds := st.conds + [false]))
    ensures Skips(env, Encode(env, t), st)
  {
    var test := if t.DupIf? then [Op(OpDup)] else [Op(OpSize), Op(OpZeroNotEqual)];
    var body := [Op(OpIf)] + code + [Op(OpEndIf)];
    SkipPlain(env, test, st);
    SkipIf(env, OpIf, code, st);
    SkipConcat(env, test, body, st);
    GuardTokens([Op(OpDup)], code);
    GuardTokens([Op(OpSize), Op(OpZeroNotEqual)], code);
  }

  lemma GuardTokens(test: seq<Token>, code: seq<Token>)
    ensures test + ([Op(OpIf)] + code + [Op(OpEndIf)]) == (test + [Op(OpIf)]) + code + [Op(OpEndIf)]
    ensures test == [Op(OpDup)] ==> test + [Op(OpIf)] == [Op(OpDup), Op(OpIf)]
    ensures test == [Op(OpSize), Op(OpZeroNotEqual)]
            ==> test + [Op(OpIf)] == [Op(OpSize), Op(OpZeroNotEqual), Op(OpIf)]
  {
  }

  lemma SkipWrapped(env: Env, t: Term, st: State)
    requires t.Alt? || t.Swap? || t.Check? || t.Verify? || t.ZeroNotEqual?
    requires !Live(st.conds) && Skips(env, Encode(env, t.sub), st)
    ensures Skips(env, Encode(env, t), st)
  {
    var code := Encode(env, t.sub);
    if t.Alt? {
      SkipOp(env, OpToAltStack, st);
      SkipOp(env, OpFromAltStack, st);
      SkipConcat(env, [Op(OpToAltStack)], code, st);
      SkipConcat(env, [Op(OpToAltStack)] + code, [Op(OpFromAltStack)], st);
    } else if t.Swap? {
      SkipOp(env, OpSwap, st);
      SkipConcat(env, [Op(OpSwap)], code, st);
    } else {
      var op := if t.Check? then OpCheckSig else if t.Verify? then OpVerify else OpZeroNotEqual;
      SkipOp(env, op, st);
      SkipConcat(env, code, [Op(op)], st);
    }
  }

  lemma {:induction false} SkipBoth(env: Env, t: Term, st: State)
    requires Sane(env) && WellFormed(env, t) && (t.AndV? || t.AndB? || t.OrB?) && !Live(st.conds)
    ensures Skips(env, Encode(env, t), st)
    decreases t, 0
  {
    var l, r := Encode(env, t.left), Encode(env, t.right);
    SkipTerm(env, t.left, st);
    SkipTerm(env, t.right, st);
    SkipConcat(env, l, r, st);
    if !t.AndV? {
      var op := if t.AndB? then OpBoolAnd else OpBoolOr;
      SkipOp(env, op, st);
      SkipConcat(env, l + r, [Op(op)], st);
    }
  }

  lemma {:induction false} SkipOrElse(env: Env, t: Term, st: State)
    requires Sane(env) && WellFormed(env, t) && (t.OrD? || t.OrC?) && !Live(st.conds)
    ensures Skips(env, Encode(env, t), st)
    decreases t, 0
  {
    SkipTerm(env, t.left, st);
    CondsPushPop(st, false);
    SkipTerm(env, t.right, st.(conds := st.conds + [false]));
    SkipIf(env, OpNotIf, Encode(env, t.right), st);
    SkipOrElseParts(env, t, Encode(env, t.left), Encode(env, t.right), st);
  }

  lemma SkipOrElseParts(env: Env, t: Term, l: seq<Token>, r: seq<Token>, st: State)
    requires (t.OrD? || t.OrC?) && l == Encode(env, t.left) && r == Encode(env, t.right) && !Live(st.conds)
    requires Skips(env, l, st) && Skips(env, [Op(OpNotIf)] + r + [Op(OpEndIf)], st)
    ensures Skips(env, Encode(env, t), st)
  {
    var body := [Op(OpNotIf)] + r + [Op(OpEndIf)];
    if t.OrD? {
      SkipOp(env, OpIfDup, st);
      SkipConcat(env, l, [Op(OpIfDup)], st);
      SkipConcat(env, l + [Op(OpIfDup)], body, st);
      OrDTokens(l, r);
    } else {
      SkipConcat(env, l, body, st);
      OrCTokens(l, r);
    }
  }

  lemma OrDTokens(l: seq<Token>, r: seq<Token>)
    ensures l + [Op(OpIfDup), Op(OpNotIf)] + r + [Op(OpEndIf)]
            == (l + [Op(OpIfDup)]) + ([Op(OpNotIf)] + r + [Op(OpEndIf)])
  {
  }

  lemma OrCTokens(l: seq<Token>, r: seq<Token>)
    ensures l + [Op(OpNotIf)] + r + [Op(OpEndIf)] == l + ([Op(OpNotIf)] + r + [Op(OpEndIf)])
  {
  }

  lemma {:induction false} SkipAndOr(env: Env, t: Term, st: State)
    requires Sane(env) && WellFormed(env, t) && t.AndOr? && !Live(st.conds)
    ensures Skips(env, Encode(env, t), st)
    decreases t, 0
  {
    SkipTerm(env, t.a, st);
    CondsPushPop(st, false);
    CondsPushPop(st, true);
    SkipTerm(env, t.c, st.(conds := st.conds + [false]));
    SkipTerm(env, t.b, st.(conds := st.conds + [true]));
    SkipAndOrParts(env, t, Encode(env, t.a), Encode(env, t.b), Encode(env, t.c), st);
  }

  lemma SkipAndOrParts(env: Env, t: Term, a: seq<Token>, b: seq<Token>, c: seq<Token>, st: State)
    requires t.AndOr? && a == Encode(env, t.a) && b == Encode(env, t.b) && c == Encode(env, t.c)
    requires !Live(st.conds) && Skips(env, a, st)
    requires Skips(env, c, st.(conds := st.conds + [false]))
    requires Skips(env, b, st.(conds := st.conds + [true]))
    ensures Skips(env, Encode(env, t), st)
  {
    SkipIfElse(env, OpNotIf, c, b, st);
    SkipConcat(env, a, [Op(OpNotIf)] + c + [Op(OpElse)] + b + [Op(OpEndIf)], st);
    AndOrTokens(a, b, c);
  }

  lemma {:induction false} SkipOrI(env: Env, t: Term, st: State)
    requires Sane(env) && WellFormed(env, t) && t.OrI? && !Live(st.conds)
    ensures Skips(env, Encode(env, t), st)
    decreases t, 0
  {
    CondsPushPop(st, false);
    CondsPushPop(st, true);
    SkipTerm(env, t.left, st.(conds := st.conds + [false]));
    SkipTerm(env, t.right, st.(conds := st.conds + [true]));
    SkipIfElse(env, OpIf, Encode(env, t.left), Encode(env, t.right), st);
  }

  lemma {:induction false} SkipAdds(env: Env, subs: seq<Term>, st: State)
    requires Sane(env) && (forall i :: 0 <= i < |subs| ==> WellFormed(env, subs[i])) && !Live(st.conds)
    ensures Skips(env, EncodeAdds(env, subs), st)
    decreases subs, 0
  {
    if subs != [] {
      SkipTerm(env, subs[0], st);
      SkipAdds(env, subs[1..], st);
      SkipOp(env, OpAdd, st);
      SkipConcat(env, Encode(env, subs[0]), [Op(OpAdd)], st);
      SkipConcat(env, Encode(env, subs[0]) + [Op(OpAdd)], EncodeAdds(env, subs[1..]), st);
    }
  }

  lemma {:induction false} SkipThresh(env: Env, t: Term, st: State)
    requires Sane(env) && WellFormed(env, t) && t.Thresh? && !Live(st.conds)
    ensures Skips(env, Encode(env, t), st)
    decreases t, 0
  {
    var first, adds, last := Encode(env, t.subs[0]), EncodeAdds(env, t.subs[1..]), [Num(t.k), Op(OpEqual)];
    SkipTerm(env, t.subs[0], st);
    SkipAdds(env, t.subs[1..], st);
    SkipPlain(env, last, st);
    SkipConcat(env, first, adds, st);
    SkipConcat(env, first + adds, last, st);
  }

  /** A machine in a branch that is not taken passes over any term's script. */
  lemma {:induction false} SkipTerm(env: Env, t: Term, st: State)
    requires Sane(env) && WellFormed(env, t) && !Live(st.conds)
    ensures Skips(env, Encode(env, t), st)
    decreases t, 1
  {
    if IsLeaf(t) {
      LeafPlain(env, t);
      SkipPlain(env, Encode(env, t), st);
    } else if IsUnary(t) {
      SkipUnary(env, t, st);
    } else if t.Thresh? {
      SkipThresh(env, t, st);
    } else if t.AndOr? {
      SkipAndOr(env, t, st);
    } else if t.OrI? {
      SkipOrI(env, t, st);
    } else if t.OrD? || t.OrC? {
      SkipOrElse(env, t, st);
    } else {
      SkipBoth(env, t, st);
    }
  }
}
