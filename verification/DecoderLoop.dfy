/** The decoder as a loop over two mutable stacks: a token iterator that is consumed from
    the end, a mutable term stack, and one loop over the nonterminal stack. */
module DecoderLoop {
  import opened Bytes
  import opened Script
  import opened Terms
  import opened Decoder
  import opened DecoderSound
  import opened DecoderSoundness

  /** Tokens, read backwards. */
  class TokenIter {
    var toks: seq<Token>

    constructor (toks: seq<Token>)
      ensures this.toks == toks
    {
      this.toks := toks;
    }

    function Peek(): Option<Token>
      reads this
    {
      if toks == [] then None else Some(LastTok(toks))
    }

    method Next() returns (tok: Option<Token>)
      modifies this
      ensures old(toks) == [] ==> tok == None && toks == []
      ensures old(toks) != [] ==> tok == Some(LastTok(old(toks))) && toks == Front(old(toks))
    {
      if toks == [] { return None; }
      tok := Some(toks[|toks| - 1]);
      toks := toks[..|toks| - 1];
    }

    method UnNext(tok: Token)
      modifies this
      ensures toks == old(toks) + [tok]
    {
      toks := toks + [tok];
    }

    /** Consumes one given token. */
    method Match(want: Token) returns (r: Parse<()>)
      modifies this
      ensures var e := Expect(old(toks), [want]);
              if e.Bad? then r == Bad(e.error) else r.Good? && toks == e.value
    {
      assert [want][1..] == [];
      var tok := Next();
      if tok == Some(want) { return Good(()); }
      r := if tok.None? then Bad(UnexpectedStart) else Bad(Unexpected(tok.value));
    }
  }

  lemma PutTokenBack(toks: seq<Token>)
    requires toks != []
    ensures Front(toks) + [LastTok(toks)] == toks
  {
  }

  class TerminalStack {
    var terms: seq<Term>

    constructor ()
      ensures terms == []
    {
      terms := [];
    }

    method Pop() returns (t: Term)
      requires terms != []
      modifies this
      ensures t == TopTerm(old(terms), 0) && terms == Below(old(terms), 1)
    {
      t := terms[|terms| - 1];
      terms := terms[..|terms| - 1];
    }

    method Push(t: Term)
      modifies this
      ensures terms == old(terms) + [t]
    {
      terms := terms + [t];
    }

    /** Type checks and pushes. */
    method Reduce0(dx: Dx, t: Term) returns (r: Parse<()>)
      modifies this
      ensures if dx.accepts(t) then r == Good(()) && terms == old(terms) + [t] else r == Bad(Rejected)
    {
      if !dx.accepts(t) { return Bad(Rejected); }
      Push(t);
      r := Good(());
    }

    method Reduce1(dx: Dx, wrap: Term -> Term) returns (r: Parse<()>)
      requires terms != []
      modifies this
      ensures var t := wrap(TopTerm(old(terms), 0));
              if dx.accepts(t) then r == Good(()) && terms == Below(old(terms), 1) + [t] else r == Bad(Rejected)
    {
      var top := Pop();
      r := Reduce0(dx, wrap(top));
    }

    method Reduce2(dx: Dx, wrap: (Term, Term) -> Term) returns (r: Parse<()>)
      requires |terms| >= 2
      modifies this
      ensures var t := wrap(TopTerm(old(terms), 0), TopTerm(old(terms), 1));
              if dx.accepts(t) then r == Good(()) && terms == Below(old(terms), 2) + [t] else r == Bad(Rejected)
    {
      var left := Pop();
      var right := Pop();
      r := Reduce0(dx, wrap(left, right));
    }
  }

  // ----- loops inside the match arms -----

  lemma BackwardsConcat<T>(a: seq<T>, b: seq<T>)
    ensures Backwards(a + b) == Backwards(b) + Backwards(a)
  {
  }

  lemma BackwardsTwice<T>(s: seq<T>)
    ensures Backwards(Backwards(s)) == s
  {
  }

  /** What is still to be taken, followed by what has been. */
  function Taken<T>(rest: Parse<(seq<T>, seq<Token>)>, acc: seq<T>): Parse<(seq<T>, seq<Token>)> {
    if rest.Bad? then rest else Good((rest.value.0 + acc, rest.value.1))
  }

  method TakeEnvelopes(dx: Dx, tokens: TokenIter) returns (r: Parse<seq<Ord.Inscription>>)
    modifies tokens
    ensures var t := TakeInscriptions(dx, old(tokens.toks));
            if t.Bad? then r == Bad(t.error) else r == Good(t.value.0) && tokens.toks == t.value.1
  {
    var inscriptions: seq<Ord.Inscription> := [];
    assert Backwards(inscriptions) == [];
    assert Taken(TakeInscriptions(dx, tokens.toks), []) == TakeInscriptions(dx, tokens.toks) by {
      var t := TakeInscriptions(dx, tokens.toks);
      if t.Good? { assert t.value.0 + [] == t.value.0; }
    }
    while tokens.Peek().Some? && tokens.Peek().value.Inscription?
      invariant Taken(TakeInscriptions(dx, tokens.toks), Backwards(inscriptions)) == TakeInscriptions(dx, old(tokens.toks))
      decreases |tokens.toks|
    {
      ghost var before := tokens.toks;
      var tok := tokens.Next();
      var parsed := ParseInscriptions(dx, tok.value.script);
      if parsed.Bad? { return Bad(parsed.error); }
      OneMoreTaken(dx, before, inscriptions, parsed.value);
      inscriptions := inscriptions + Backwards(parsed.value);
    }
    assert [] + Backwards(inscriptions) == Backwards(inscriptions);
    r := Good(Backwards(inscriptions));
  }

  lemma OneMoreTaken(dx: Dx, toks: seq<Token>, acc: seq<Ord.Inscription>, last: seq<Ord.Inscription>)
    requires EndsInInscription(toks) && ParseInscriptions(dx, LastTok(toks).script) == Good(last)
    ensures Taken(TakeInscriptions(dx, Front(toks)), Backwards(acc + Backwards(last)))
            == Taken(TakeInscriptions(dx, toks), Backwards(acc))
  {
    BackwardsConcat(acc, Backwards(last));
    BackwardsTwice(last);
    var t := TakeInscriptions(dx, Front(toks));
    if t.Good? { Assoc(t.value.0, last, Backwards(acc)); }
  }

  /** The keys of a CHECKMULTISIG, read backwards and then reversed. */
  method TakeMultiKeys(dx: Dx, tokens: TokenIter, n: nat) returns (r: Parse<seq<Bytes>>)
    modifies tokens
    ensures var t := TakeKeys(dx, old(tokens.toks), n);
            if t.Bad? then r == Bad(t.error) else r == Good(t.value.0) && tokens.toks == t.value.1
  {
    var keys: seq<Bytes> := [];
    assert Backwards(keys) == [];
    assert Taken(TakeKeys(dx, tokens.toks, n), []) == TakeKeys(dx, tokens.toks, n) by {
      var t := TakeKeys(dx, tokens.toks, n);
      if t.Good? { assert t.value.0 + [] == t.value.0; }
    }
    for i := 0 to n
      invariant Taken(TakeKeys(dx, tokens.toks, n - i), Backwards(keys)) == TakeKeys(dx, old(tokens.toks), n)
    {
      ghost var before := tokens.toks;
      var tok := tokens.Next();
      if tok.None? { return Bad(UnexpectedStart); }
      if !tok.value.Bytes33? && !tok.value.Bytes65? { return Bad(Unexpected(tok.value)); }
      var key := ParseKey(dx, tok.value.bytes);
      if key.Bad? { return Bad(key.error); }
      OneMoreKey(keys, key.value);
      var t := TakeKeys(dx, tokens.toks, n - i - 1);
      if t.Good? { Assoc(t.value.0, [key.value], Backwards(keys)); }
      keys := keys + [key.value];
    }
    assert [] + Backwards(keys) == Backwards(keys);
    r := Good(Backwards(keys));
  }

  lemma OneMoreKey(keys: seq<Bytes>, key: Bytes)
    ensures Backwards(keys + [key]) == [key] + Backwards(keys)
  {
    BackwardsConcat(keys, [key]);
    assert [key][1..] == [];
    assert Backwards([key]) == [key];
  }

  method TakeOneKey32(dx: Dx, tokens: TokenIter) returns (r: Parse<Bytes>)
    modifies tokens
    ensures var t := TakeKey32(dx, old(tokens.toks));
            if t.Bad? then r == Bad(t.error) else r == Good(t.value.0) && tokens.toks == t.value.1
  {
    var tok := tokens.Next();
    if tok.None? { return Bad(UnexpectedStart); }
    if !tok.value.Bytes32? { return Bad(Unexpected(tok.value)); }
    r := ParseKey(dx, tok.value.bytes);
  }

  /** The keys of a `multi_a` but the first, read backwards. */
  method TakeAddedKeys(dx: Dx, tokens: TokenIter) returns (r: Parse<seq<Bytes>>)
    modifies tokens
    ensures var t := TakeSigAdds(dx, old(tokens.toks));
            if t.Bad? then r == Bad(t.error) else r.Good? && Backwards(r.value) == t.value.0 && tokens.toks == t.value.1
  {
    var keys: seq<Bytes> := [];
    assert Backwards(keys) == [];
    assert Taken(TakeSigAdds(dx, tokens.toks), []) == TakeSigAdds(dx, tokens.toks) by {
      var t := TakeSigAdds(dx, tokens.toks);
      if t.Good? { assert t.value.0 + [] == t.value.0; }
    }
    while tokens.Peek() == Some(Op(OpCheckSigAdd))
      invariant Taken(TakeSigAdds(dx, tokens.toks), Backwards(keys)) == TakeSigAdds(dx, old(tokens.toks))
      decreases |tokens.toks|
    {
      var _ := tokens.Next();
      var key := TakeOneKey32(dx, tokens);
      if key.Bad? { return Bad(key.error); }
      OneMoreKey(keys, key.value);
      ghost var t := TakeSigAdds(dx, tokens.toks);
      if t.Good? { Assoc(t.value.0, [key.value], Backwards(keys)); }
      keys := keys + [key.value];
    }
    assert [] + Backwards(keys) == Backwards(keys);
    r := Good(keys);
  }

  // ----- expressions -----

  /** The outcome of reading an expression's last tokens: `r` holds the
      nonterminals to push. */
  predicate DidShift(s: Parse<Shift>, r: Parse<seq<NonTerm>>, before: seq<Term>, after: seq<Term>, toks: seq<Token>) {
    match s
    case Bad(e) => r == Bad(e)
    case Good(s) => r == Good(s.nts) && after == before + s.ts && toks == s.toks
  }

  method ReadSizeCheck(tokens: TokenIter) returns (r: Parse<()>)
    modifies tokens
    ensures var e := Expect(old(tokens.toks), SIZE_CHECK);
            if e.Bad? then r == Bad(e.error) else r == Good(()) && tokens.toks == e.value
  {
    ExpectFour(tokens.toks, Op(OpVerify), Op(OpEqual), Num(32), Op(OpSize));
    var _ :- tokens.Match(Op(OpVerify));
    var _ :- tokens.Match(Op(OpEqual));
    var _ :- tokens.Match(Num(32));
    var _ :- tokens.Match(Op(OpSize));
    r := Good(());
  }

  lemma ExpectFirst(toks: seq<Token>, a: Token, rest: seq<Token>)
    ensures Expect(toks, [a] + rest) ==
            var e := Expect(toks, [a]);
            if e.Bad? then e else Expect(e.value, rest)
  {
    assert ([a] + rest)[1..] == rest && [a][1..] == [];
  }

  /** Four tokens, one at a time. */
  lemma ExpectFour(toks: seq<Token>, a: Token, b: Token, c: Token, d: Token)
    ensures Expect(toks, [a, b, c, d]) ==
            var e1 := Expect(toks, [a]);
            if e1.Bad? then e1
            else
              var e2 := Expect(e1.value, [b]);
              if e2.Bad? then e2
              else
                var e3 := Expect(e2.value, [c]);
                if e3.Bad? then e3 else Expect(e3.value, [d])
  {
    assert [a, b, c, d] == [a] + [b, c, d] && [b, c, d] == [b] + [c, d] && [c, d] == [c] + [d];
    ExpectFirst(toks, a, [b, c, d]);
    var e1 := Expect(toks, [a]);
    if e1.Good? {
      ExpectFirst(e1.value, b, [c, d]);
      var e2 := Expect(e1.value, [b]);
      if e2.Good? { ExpectFirst(e2.value, c, [d]); }
    }
  }

  /** A hash lock, from its hash operation on. */
  method ReadHash(image: Bytes, wide: bool, nts: seq<NonTerm>, tokens: TokenIter, term: TerminalStack)
    returns (r: Parse<seq<NonTerm>>)
    modifies tokens, term
    ensures DidShift(ShiftHashOp(image, wide, nts, old(tokens.toks)), r, old(term.terms), term.terms, tokens.toks)
  {
    var tok := tokens.Next();
    if tok.None? { return Bad(UnexpectedStart); }
    if !tok.value.Op? || !tok.value.op.OpHash? || wide != (HashSize(tok.value.op.kind) == 32) {
      return Bad(Unexpected(tok.value));
    }
    var _ :- ReadSizeCheck(tokens);
    term.Push(HashLock(tok.value.op.kind, image));
    r := Good(nts);
  }

  method ReadEqualVerify(dx: Dx, tokens: TokenIter, term: TerminalStack) returns (r: Parse<seq<NonTerm>>)
    modifies tokens, term
    ensures DidShift(ShiftEqualVerify(dx, old(tokens.toks)), r, old(term.terms), term.terms, tokens.toks)
  {
    var tok := tokens.Next();
    if tok.None? { return Bad(UnexpectedStart); }
    match tok.value
    case Hash20(h) =>
      if tokens.Peek() == Some(Op(OpHash(Hash160))) {
        PutTokenBack(tokens.toks);
        var op := tokens.Next();
        if tokens.Peek() == Some(Op(OpDup)) {
          var _ := tokens.Next();
          term.Push(RawPkH(h));
          return Good([]);
        }
        tokens.UnNext(op.value);
      }
      r := ReadHash(h, false, [NonTerm.Verify], tokens, term);
    case Bytes32(h) => r := ReadHash(h, true, [NonTerm.Verify], tokens, term);
    case Num(k) =>
      assert term.terms + [] == term.terms;
      r := Good([NonTerm.Verify, ThreshW(k, 0)]);
    case _ => r := Bad(Unexpected(tok.value));
  }

  method ReadVerify(dx: Dx, tokens: TokenIter, term: TerminalStack) returns (r: Parse<seq<NonTerm>>)
    modifies tokens, term
    ensures DidShift(ShiftVerify(dx, old(tokens.toks)), r, old(term.terms), term.terms, tokens.toks)
  {
    var tok := tokens.Next();
    if tok.None? { return Bad(UnexpectedStart); }
    if tok == Some(Op(OpEqual)) {
      r := ReadEqualVerify(dx, tokens, term);
    } else {
      PutTokenBack(old(tokens.toks));
      tokens.UnNext(tok.value);
      assert term.terms + [] == term.terms;
      r := Good([NonTerm.Verify, Expression]);
    }
  }

  method ReadEqual(dx: Dx, tokens: TokenIter, term: TerminalStack) returns (r: Parse<seq<NonTerm>>)
    modifies tokens, term
    ensures DidShift(ShiftEqual(dx, old(tokens.toks)), r, old(term.terms), term.terms, tokens.toks)
  {
    var tok := tokens.Next();
    if tok.None? { return Bad(UnexpectedStart); }
    match tok.value
    case Hash20(h) => r := ReadHash(h, false, [], tokens, term);
    case Bytes32(h) => r := ReadHash(h, true, [], tokens, term);
    case Num(k) =>
      assert term.terms + [] == term.terms;
      r := Good([ThreshW(k, 0)]);
    case _ => r := Bad(Unexpected(tok.value));
  }

  method ReadTime(op: Opcode, tokens: TokenIter, term: TerminalStack) returns (r: Parse<seq<NonTerm>>)
    requires op.OpCheckSequenceVerify? || op.OpCheckLockTimeVerify?
    modifies tokens, term
    ensures DidShift(if op.OpCheckSequenceVerify? then ShiftOlder(old(tokens.toks)) else ShiftAfter(old(tokens.toks)),
              r, old(term.terms), term.terms, tokens.toks)
  {
    var tok := tokens.Next();
    if tok.None? { return Bad(UnexpectedStart); }
    if !tok.value.Num? { return Bad(Unexpected(tok.value)); }
    if op.OpCheckSequenceVerify? {
      if !ValidOlder(tok.value.n) { return Bad(RelativeLockTime); }
      term.Push(Older(tok.value.n));
    } else {
      if !ValidAfter(tok.value.n) { return Bad(AbsoluteLockTime); }
      term.Push(After(tok.value.n));
    }
    r := Good([]);
  }

  method ReadTemplate(dx: Dx, tokens: TokenIter, term: TerminalStack) returns (r: Parse<seq<NonTerm>>)
    modifies tokens, term
    ensures DidShift(ShiftTemplate(dx, old(tokens.toks)), r, old(term.terms), term.terms, tokens.toks)
  {
    var _ :- tokens.Match(Op(OpCheckTemplateVerify));
    var tok := tokens.Next();
    if tok.None? { return Bad(UnexpectedStart); }
    if !tok.value.Bytes32? { return Bad(Unexpected(tok.value)); }
    var _ :- term.Reduce0(dx, TxTemplate(tok.value.bytes));
    r := Good([]);
  }

  method ReadMulti(dx: Dx, tokens: TokenIter, term: TerminalStack) returns (r: Parse<seq<NonTerm>>)
    modifies tokens, term
    ensures DidShift(ShiftMulti(dx, old(tokens.toks)), r, old(term.terms), term.terms, tokens.toks)
  {
    var tok := tokens.Next();
    if tok.None? { return Bad(UnexpectedStart); }
    if !tok.value.Num? { return Bad(Unexpected(tok.value)); }
    if !ValidThreshold(1, tok.value.n, MAX_PUBKEYS_PER_MULTISIG) { return Bad(BadThreshold); }
    var keys :- TakeMultiKeys(dx, tokens, tok.value.n);
    var k := tokens.Next();
    if k.None? { return Bad(UnexpectedStart); }
    if !k.value.Num? { return Bad(Unexpected(k.value)); }
    if !ValidThreshold(k.value.n, |keys|, MAX_PUBKEYS_PER_MULTISIG) { return Bad(BadThreshold); }
    term.Push(Multi(k.value.n, keys));
    r := Good([]);
  }

  method ReadMultiA(dx: Dx, tokens: TokenIter, term: TerminalStack) returns (r: Parse<seq<NonTerm>>)
    modifies tokens, term
    ensures DidShift(ShiftMultiA(dx, old(tokens.toks)), r, old(term.terms), term.terms, tokens.toks)
  {
    var tok := tokens.Next();
    if tok.None? { return Bad(UnexpectedStart); }
    if !tok.value.Num? { return Bad(Unexpected(tok.value)); }
    var k := tok.value.n;
    if !ValidThreshold(k, k, MAX_PUBKEYS_IN_CHECKSIGADD) { return Bad(BadThreshold); }
    var keys :- TakeAddedKeys(dx, tokens);
    var _ :- tokens.Match(Op(OpCheckSig));
    var first :- TakeOneKey32(dx, tokens);
    OneMoreKey(keys, first);
    keys := keys + [first];
    if !ValidThreshold(k, |keys|, MAX_PUBKEYS_IN_CHECKSIGADD) { return Bad(BadThreshold); }
    term.Push(MultiA(k, Backwards(keys)));
    r := Good([]);
  }

  method ReadInscriptions(dx: Dx, below: NonTerm, tokens: TokenIter, term: TerminalStack) returns (r: Parse<seq<NonTerm>>)
    modifies tokens
    ensures DidShift(ShiftInscriptions(dx, below, old(tokens.toks)), r, old(term.terms), term.terms, tokens.toks)
  {
    var ins :- TakeEnvelopes(dx, tokens);
    assert term.terms + [] == term.terms;
    r := Good([NonTerm.InscribePost(ins), below]);
  }

  method ReadOp(dx: Dx, op: Opcode, tokens: TokenIter, term: TerminalStack) returns (r: Parse<seq<NonTerm>>)
    modifies tokens, term
    ensures DidShift(ShiftOp(dx, op, old(tokens.toks)), r, old(term.terms), term.terms, tokens.toks)
  {
    assert term.terms + [] == term.terms;
    match op
    case OpDrop => r := ReadTemplate(dx, tokens, term);
    case OpCheckSig => r := Good([NonTerm.Check, Expression]);
    case OpVerify => r := ReadVerify(dx, tokens, term);
    case OpZeroNotEqual => r := Good([NonTerm.ZeroNotEqual, Expression]);
    case OpCheckSequenceVerify => r := ReadTime(op, tokens, term);
    case OpCheckLockTimeVerify => r := ReadTime(op, tokens, term);
    case OpEqual => r := ReadEqual(dx, tokens, term);
    case OpEndIf => r := Good([EndIf, MaybeAndV, Expression]);
    case OpBoolAnd => r := Good([NonTerm.AndB, Expression, WExpression]);
    case OpBoolOr => r := Good([NonTerm.OrB, Expression, WExpression]);
    case OpCheckMultiSig => r := ReadMulti(dx, tokens, term);
    case OpNumEqual => r := ReadMultiA(dx, tokens, term);
    case _ => r := Bad(Unexpected(Op(op)));
  }

  method ReadExpression(dx: Dx, tokens: TokenIter, term: TerminalStack) returns (r: Parse<seq<NonTerm>>)
    modifies tokens, term
    ensures DidShift(ShiftExpression(dx, old(tokens.toks)), r, old(term.terms), term.terms, tokens.toks)
  {
    var tok := tokens.Next();
    if tok.None? { return Bad(UnexpectedStart); }
    match tok.value
    case Inscription(script) =>
      PutTokenBack(old(tokens.toks));
      tokens.UnNext(tok.value);
      r := ReadInscriptions(dx, Expression, tokens, term);
    case Bytes33(key) => r := ReadKey(dx, key, term);
    case Bytes65(key) => r := ReadKey(dx, key, term);
    case Bytes32(key) => r := ReadKey(dx, key, term);
    case Op(op) => r := ReadOp(dx, op, tokens, term);
    case Num(n) =>
      if n == 0 {
        term.Push(False);
        r := Good([]);
      } else if n == 1 {
        term.Push(True);
        r := Good([]);
      } else {
        r := Bad(Unexpected(tok.value));
      }
    case Hash20(_) => r := Bad(Unexpected(tok.value));
  }

  method ReadKey(dx: Dx, key: Bytes, term: TerminalStack) returns (r: Parse<seq<NonTerm>>)
    modifies term
    ensures if dx.env.keyOk(key) then r == Good([]) && term.terms == old(term.terms) + [PkK(key)] else r == Bad(PubKeyCtx)
  {
    if !dx.env.keyOk(key) { return Bad(PubKeyCtx); }
    term.Push(PkK(key));
    r := Good([]);
  }

  method ReadW(dx: Dx, tokens: TokenIter, term: TerminalStack) returns (r: Parse<seq<NonTerm>>)
    modifies tokens, term
    ensures DidShift(ShiftW(dx, old(tokens.toks)), r, old(term.terms), term.terms, tokens.toks)
  {
    if tokens.Peek().Some? && tokens.Peek().value.Inscription? {
      r := ReadInscriptions(dx, WExpression, tokens, term);
      return;
    }
    assert term.terms + [] == term.terms;
    var tok := tokens.Next();
    if tok.None? { return Bad(UnexpectedStart); }
    if tok == Some(Op(OpFromAltStack)) {
      r := Good([NonTerm.Alt, MaybeAndV, Expression]);
    } else {
      PutTokenBack(old(tokens.toks));
      tokens.UnNext(tok.value);
      r := Good([NonTerm.Swap, MaybeAndV, Expression]);
    }
  }

  // ----- the loop -----

  /** The outcome of handling one nonterminal above `nts`: `r` holds the
      nonterminals to push. */
  predicate DidHandle(next: Parse<PState>, nts: seq<NonTerm>, r: Parse<seq<NonTerm>>, ts: seq<Term>, toks: seq<Token>) {
    match next
    case Bad(e) => r == Bad(e)
    case Good(q) => r.Good? && q == PState(nts + r.value, ts, toks)
  }

  method HandleShift(dx: Dx, x: NonTerm, ghost nts: seq<NonTerm>, tokens: TokenIter, term: TerminalStack)
    returns (r: Parse<seq<NonTerm>>)
    requires x.Expression? || x.WExpression?
    modifies tokens, term
    ensures DidHandle(Handle(dx, x, nts, old(term.terms), old(tokens.toks)), nts, r, term.terms, tokens.toks)
  {
    var s: Parse<seq<NonTerm>>;
    if x.Expression? {
      s := ReadExpression(dx, tokens, term);
    } else {
      s := ReadW(dx, tokens, term);
    }
    if s.Bad? { return s; }
    Assoc(nts, [NonTerm.InscribePre], s.value);
    r := Good([NonTerm.InscribePre] + s.value);
  }

  method HandleWrap(dx: Dx, x: NonTerm, ghost nts: seq<NonTerm>, tokens: TokenIter, term: TerminalStack)
    returns (r: Parse<seq<NonTerm>>)
    requires Arity(x) == 1 && !x.ThreshE? && term.terms != []
    modifies tokens, term
    ensures DidHandle(Handle(dx, x, nts, old(term.terms), old(tokens.toks)), nts, r, term.terms, tokens.toks)
  {
    assert nts + [] == nts;
    match x {
      case Swap =>
        var _ :- tokens.Match(Op(OpSwap));
        var _ :- term.Reduce1(dx, t => Term.Swap(t));
      case Alt =>
        var _ :- tokens.Match(Op(OpToAltStack));
        var _ :- term.Reduce1(dx, t => Term.Alt(t));
      case Check => var _ :- term.Reduce1(dx, t => Term.Check(t));
      case DupIf => var _ :- term.Reduce1(dx, t => Term.DupIf(t));
      case Verify => var _ :- term.Reduce1(dx, t => Term.Verify(t));
      case NonZero => var _ :- term.Reduce1(dx, t => Term.NonZero(t));
      case ZeroNotEqual => var _ :- term.Reduce1(dx, t => Term.ZeroNotEqual(t));
      case InscribePost(ins) => var _ :- term.Reduce1(dx, t => Term.InscribePost(ins, t));
    }
    r := Good([]);
  }

  method HandleTwo(dx: Dx, x: NonTerm, ghost nts: seq<NonTerm>, tokens: TokenIter, term: TerminalStack)
    returns (r: Parse<seq<NonTerm>>)
    requires (x.AndV? || x.AndB? || x.OrB? || x.OrC? || x.OrD? || x.EndIfElse?) && |term.terms| >= 2
    modifies tokens, term
    ensures DidHandle(Handle(dx, x, nts, old(term.terms), old(tokens.toks)), nts, r, term.terms, tokens.toks)
  {
    assert nts + [] == nts;
    match x {
      case AndV =>
        if IsAndV(tokens.toks) { return Good([NonTerm.AndV, MaybeAndV]); }
        var _ :- term.Reduce2(dx, (l, r) => Term.AndV(l, r));
      case AndB => var _ :- term.Reduce2(dx, (l, r) => Term.AndB(l, r));
      case OrB => var _ :- term.Reduce2(dx, (l, r) => Term.OrB(l, r));
      case OrC => var _ :- term.Reduce2(dx, (l, r) => Term.OrC(l, r));
      case OrD => var _ :- term.Reduce2(dx, (l, r) => Term.OrD(l, r));
      case EndIfElse =>
        var tok := tokens.Next();
        if tok.None? { return Bad(UnexpectedStart); }
        if tok == Some(Op(OpNotIf)) { return Good([Tern, Expression]); }
        if tok != Some(Op(OpIf)) { return Bad(Unexpected(tok.value)); }
        var _ :- term.Reduce2(dx, (l, r) => Term.OrI(l, r));
    }
    r := Good([]);
  }

  method HandleTern(dx: Dx, ghost nts: seq<NonTerm>, tokens: TokenIter, term: TerminalStack)
    returns (r: Parse<seq<NonTerm>>)
    requires |term.terms| >= 3
    modifies term
    ensures DidHandle(Handle(dx, Tern, nts, old(term.terms), old(tokens.toks)), nts, r, term.terms, tokens.toks)
  {
    assert nts + [] == nts;
    var a := term.Pop();
    var b := term.Pop();
    var c := term.Pop();
    var _ :- term.Reduce0(dx, Term.AndOr(a, c, b));
    r := Good([]);
  }

  method HandleThresh(dx: Dx, x: NonTerm, ghost nts: seq<NonTerm>, tokens: TokenIter, term: TerminalStack)
    returns (r: Parse<seq<NonTerm>>)
    requires x.ThreshW? || (x.ThreshE? && x.n <= |term.terms|)
    modifies tokens, term
    ensures DidHandle(Handle(dx, x, nts, old(term.terms), old(tokens.toks)), nts, r, term.terms, tokens.toks)
  {
    assert nts + [] == nts;
    match x
    case ThreshW(k, n) =>
      var tok := tokens.Next();
      if tok.None? { return Bad(UnexpectedStart); }
      if tok == Some(Op(OpAdd)) { return Good([ThreshW(k, n + 1), WExpression]); }
      PutTokenBack(old(tokens.toks));
      tokens.UnNext(tok.value);
      r := Good([ThreshE(k, n + 1), Expression]);
    case ThreshE(k, n) =>
      var subs: seq<Term> := [];
      for i := 0 to n
        invariant term.terms == Below(old(term.terms), i) && subs == LastTerms(old(term.terms), i)
        invariant tokens.toks == old(tokens.toks)
      {
        var sub := term.Pop();
        subs := subs + [sub];
      }
      if !ValidThreshold(k, |subs|, 0) { return Bad(BadThreshold); }
      var _ :- term.Reduce0(dx, Term.Thresh(k, subs));
      r := Good([]);
  }

  method HandleEndIf(dx: Dx, x: NonTerm, ghost nts: seq<NonTerm>, tokens: TokenIter, term: TerminalStack)
    returns (r: Parse<seq<NonTerm>>)
    requires x.EndIf? || x.EndIfNotIf?
    modifies tokens
    ensures DidHandle(Handle(dx, x, nts, old(term.terms), old(tokens.toks)), nts, r, term.terms, tokens.toks)
  {
    var tok := tokens.Next();
    if tok.None? { return Bad(UnexpectedStart); }
    if x.EndIfNotIf? {
      if tok == Some(Op(OpIfDup)) { return Good([NonTerm.OrD, Expression]); }
      PutTokenBack(old(tokens.toks));
      tokens.UnNext(tok.value);
      return Good([NonTerm.OrC, Expression]);
    }
    if tok == Some(Op(OpElse)) { return Good([EndIfElse, MaybeAndV, Expression]); }
    if tok == Some(Op(OpNotIf)) { return Good([EndIfNotIf]); }
    if tok != Some(Op(OpIf)) { return Bad(Unexpected(tok.value)); }
    if tokens.Peek() == Some(Op(OpDup)) {
      var _ := tokens.Next();
      return Good([NonTerm.DupIf]);
    }
    assert [Op(OpZeroNotEqual), Op(OpSize)] == [Op(OpZeroNotEqual)] + [Op(OpSize)];
    ExpectFirst(tokens.toks, Op(OpZeroNotEqual), [Op(OpSize)]);
    var _ :- tokens.Match(Op(OpZeroNotEqual));
    var _ :- tokens.Match(Op(OpSize));
    r := Good([NonTerm.NonZero]);
  }

  method HandlePre(dx: Dx, ghost nts: seq<NonTerm>, tokens: TokenIter, term: TerminalStack)
    returns (r: Parse<seq<NonTerm>>)
    requires term.terms != []
    modifies tokens, term
    ensures DidHandle(Handle(dx, NonTerm.InscribePre, nts, old(term.terms), old(tokens.toks)), nts, r, term.terms, tokens.toks)
  {
    assert nts + [] == nts;
    if tokens.Peek().Some? && tokens.Peek().value.Inscription? {
      var ins :- TakeEnvelopes(dx, tokens);
      var _ :- term.Reduce1(dx, t => Term.InscribePre(ins, t));
    }
    r := Good([]);
  }

  /** Handles the nonterminal `x`, just popped from above `nts`. */
  method HandleNonTerm(dx: Dx, x: NonTerm, ghost nts: seq<NonTerm>, tokens: TokenIter, term: TerminalStack)
    returns (r: Parse<seq<NonTerm>>)
    requires StacksFit(nts + [x], |term.terms|)
    modifies tokens, term
    ensures DidHandle(Handle(dx, x, nts, old(term.terms), old(tokens.toks)), nts, r, term.terms, tokens.toks)
  {
    FitsArity(nts, x, |term.terms|);
    if x.Expression? || x.WExpression? {
      r := HandleShift(dx, x, nts, tokens, term);
    } else if x.InscribePre? {
      r := HandlePre(dx, nts, tokens, term);
    } else if x.MaybeAndV? {
      assert nts + [] == nts;
      r := Good(if IsAndV(tokens.toks) then [NonTerm.AndV, Expression] else []);
    } else if x.ThreshW? || x.ThreshE? {
      r := HandleThresh(dx, x, nts, tokens, term);
    } else if x.EndIf? || x.EndIfNotIf? {
      r := HandleEndIf(dx, x, nts, tokens, term);
    } else if x.Tern? {
      r := HandleTern(dx, nts, tokens, term);
    } else if Arity(x) == 1 {
      r := HandleWrap(dx, x, nts, tokens, term);
    } else {
      r := HandleTwo(dx, x, nts, tokens, term);
    }
  }

  /** What one turn of the loop keeps. */
  lemma LoopStep(dx: Dx, x: NonTerm, nts: seq<NonTerm>, ts: seq<Term>, toks: seq<Token>)
    requires StacksFit(nts + [x], |ts|)
    ensures var r := Handle(dx, x, nts, ts, toks);
            if r.Bad? then RunDecode(dx, nts + [x], ts, toks) == Bad(r.error) && r.error != Panicked
            else
              && RunDecode(dx, nts + [x], ts, toks) == RunDecode(dx, r.value.nts, r.value.ts, r.value.toks)
              && StacksFit(r.value.nts, |r.value.ts|)
              && (|r.value.toks| < |toks|
                  || (|r.value.toks| == |toks| && Phase(r.value.nts, r.value.toks) < Phase(nts + [x], toks)))
  {
    StepFits(dx, x, nts, ts, toks);
    RunStep(dx, nts, x, ts, toks);
    StepProgress(dx, x, nts, ts, toks);
  }

  lemma StartFits()
    ensures StacksFit(START, 0)
  {
    WaitsOn([], MaybeAndV, 0);
    FitsTop([MaybeAndV], Expression, 0);
    assert START == [MaybeAndV] + [Expression] && [MaybeAndV] == [] + [MaybeAndV];
  }

  /** One turn of the loop: a nonterminal is popped and handled. */
  method Turn(dx: Dx, nonTerm: seq<NonTerm>, tokens: TokenIter, term: TerminalStack) returns (r: Parse<seq<NonTerm>>)
    requires nonTerm != [] && StacksFit(nonTerm, |term.terms|)
    modifies tokens, term
    ensures r.Bad? ==> RunDecode(dx, nonTerm, old(term.terms), old(tokens.toks)) == Bad(r.error) && r.error != Panicked
    ensures r.Good? ==>
              && StacksFit(r.value, |term.terms|)
              && RunDecode(dx, r.value, term.terms, tokens.toks) == RunDecode(dx, nonTerm, old(term.terms), old(tokens.toks))
              && (|tokens.toks| < |old(tokens.toks)|
                  || (|tokens.toks| == |old(tokens.toks)| && Phase(r.value, tokens.toks) < Phase(nonTerm, old(tokens.toks))))
  {
    var below, x := nonTerm[..|nonTerm| - 1], nonTerm[|nonTerm| - 1];
    assert nonTerm == below + [x];
    LoopStep(dx, x, below, term.terms, tokens.toks);
    var push := HandleNonTerm(dx, x, below, tokens, term);
    if push.Bad? { return Bad(push.error); }
    r := Good(below + push.value);
  }

  lemma Whole(dx: Dx, toks: seq<Token>, term: Term, rest: seq<Token>)
    requires RunDecode(dx, START, [], toks) == Good(([term], rest))
    ensures DecodeTokens(dx, toks) == Good((term, rest))
  {
  }

  lemma Broken(dx: Dx, toks: seq<Token>, error: DecodeError)
    requires RunDecode(dx, START, [], toks) == Bad(error)
    ensures DecodeTokens(dx, toks) == Bad(error)
  {
  }

  lemma NothingLeft(dx: Dx, ts: seq<Term>, toks: seq<Token>)
    requires StacksFit([], |ts|)
    ensures |ts| == 1 && RunDecode(dx, [], ts, toks) == Good(([ts[0]], toks))
  {
    assert ts == [ts[0]];
  }

  /** The decoder. On success the tokens that were not consumed are still in the
      iterator. */
  method Decode(dx: Dx, tokens: TokenIter) returns (r: Parse<Term>)
    modifies tokens
    ensures var d := DecodeTokens(dx, old(tokens.toks));
            if d.Bad? then r == Bad(d.error) else r == Good(d.value.0) && tokens.toks == d.value.1
    ensures r != Bad(Panicked)
  {
    var nonTerm := START;
    var term := new TerminalStack();
    StartFits();
    while nonTerm != []
      invariant fresh(term) && StacksFit(nonTerm, |term.terms|)
      invariant RunDecode(dx, nonTerm, term.terms, tokens.toks) == RunDecode(dx, START, [], old(tokens.toks))
      decreases |tokens.toks|, Phase(nonTerm, tokens.toks)
    {
      var next := Turn(dx, nonTerm, tokens, term);
      if next.Bad? {
        Broken(dx, old(tokens.toks), next.error);
        return Bad(next.error);
      }
      nonTerm := next.value;
    }
    NothingLeft(dx, term.terms, tokens.toks);
    Whole(dx, old(tokens.toks), term.terms[0], tokens.toks);
    var top := term.Pop();
    r := Good(top);
  }
}
