/** The tokens that the decoder's stacks stand for, and why they are always the
    tokens it has consumed. */
module DecoderExact {
  import opened Bytes
  import opened Script
  import opened Terms
  import opened Decoder
  import opened DecoderSound

  // ----- what the stacks stand for -----

  /** The tokens a waiting nonterminal has seen to the right of the term it waits
      for; `others` are its other terms, the last one first. */
  function LocalOf(env: Env, x: NonTerm, others: seq<Term>): seq<Token>
    requires |others| == Pops(x)
  {
    match x
    case Check => [Op(OpCheckSig)]
    case Verify => [Op(OpVerify)]
    case ZeroNotEqual => [Op(OpZeroNotEqual)]
    case EndIf => [Op(OpEndIf)]
    case Alt => [Op(OpFromAltStack)]
    case InscribePost(ins) => EnvelopeTokens(ins)
    case AndV => Encode(env, others[0])
    case AndB => Encode(env, others[0]) + [Op(OpBoolAnd)]
    case OrB => Encode(env, others[0]) + [Op(OpBoolOr)]
    case OrC => [Op(OpNotIf)] + Encode(env, others[0]) + [Op(OpEndIf)]
    case OrD => [Op(OpIfDup), Op(OpNotIf)] + Encode(env, others[0]) + [Op(OpEndIf)]
    case EndIfElse => [Op(OpElse)] + Encode(env, others[0]) + [Op(OpEndIf)]
    case Tern =>
      [Op(OpNotIf)] + Encode(env, others[0]) + [Op(OpElse)] + Encode(env, others[1]) + [Op(OpEndIf)]
    case ThreshW(k, n) => [Op(OpAdd)] + EncodeAdds(env, others) + [Num(k), Op(OpEqual)]
    case ThreshE(k, n) => EncodeAdds(env, others) + [Num(k), Op(OpEqual)]
    case _ => []
  }

  /** The same with its other terms on top of `ts`. */
  function Local(env: Env, x: NonTerm, ts: seq<Term>): seq<Token>
    requires Pops(x) <= |ts|
  {
    LocalOf(env, x, LastTerms(ts, Pops(x)))
  }

  function BoolToken(x: NonTerm): seq<Token> {
    if x.AndB? then [Op(OpBoolAnd)] else [Op(OpBoolOr)]
  }

  /** What the stacks hold, from the top: waiting nonterminals with their other
      terms, and operators whose left operand is still to come. */
  datatype Held = Nothing | Waiting(x: NonTerm, others: seq<Term>, rest: Held) | Operator(x: NonTerm, rest: Held)

  /** The last `n` of the lowest `m` terms, the last one first. */
  function LastTo(ts: seq<Term>, m: nat, n: nat): seq<Term>
    requires n <= m <= |ts|
  {
    seq(n, i requires 0 <= i < n => ts[m - 1 - i])
  }

  /** What the lowest `n` nonterminals hold, with the lowest `m` terms. */
  function HeldTo(nts: seq<NonTerm>, n: nat, ts: seq<Term>, m: nat): Held
    requires n <= |nts| && m <= |ts|
    decreases n
  {
    if n == 0 then Nothing
    else
      var x := nts[n - 1];
      if x.Expression? then (if n == 1 then Nothing else Operator(nts[n - 2], HeldTo(nts, n - 2, ts, m)))
      else if Pops(x) > m then Nothing
      else Waiting(x, LastTo(ts, m, Pops(x)), HeldTo(nts, n - 1, ts, m - Pops(x)))
  }

  function Tokens(env: Env, h: Held): seq<Token> {
    match h
    case Nothing => []
    case Operator(x, rest) => BoolToken(x) + Tokens(env, rest)
    case Waiting(x, others, rest) => (if |others| == Pops(x) then LocalOf(env, x, others) else []) + Tokens(env, rest)
  }

  /** All tokens to the right of the term the stack is waiting for. */
  function Tail(env: Env, nts: seq<NonTerm>, ts: seq<Term>): seq<Token> { Tokens(env, HeldTo(nts, |nts|, ts, |ts|)) }

  /** Tokens to the left of the term of a nonterminal that is handled directly. */
  function Lead(x: NonTerm): seq<Token> {
    match x
    case DupIf => [Op(OpDup), Op(OpIf)]
    case NonZero => [Op(OpSize), Op(OpZeroNotEqual), Op(OpIf)]
    case EndIfNotIf => [Op(OpNotIf)]
    case _ => []
  }

  /** The tokens consumed so far, as the stacks remember them. */
  function Consumed(env: Env, nts: seq<NonTerm>, ts: seq<Term>): seq<Token> {
    var n, m := |nts|, |ts|;
    if n == 0 then (if m == 0 then [] else Encode(env, TopTerm(ts, 0)))
    else
      var x := nts[n - 1];
      if x.Expression? || x.WExpression? then Tokens(env, HeldTo(nts, n - 1, ts, m))
      else if x.ThreshW? && x.n == 0 then [Num(x.k), Op(OpEqual)] + Tokens(env, HeldTo(nts, n - 1, ts, m))
      else if m == 0 then []
      else if IsDirect(x)
      then Lead(x) + Encode(env, TopTerm(ts, 0)) + [Op(OpEndIf)] + Tokens(env, HeldTo(nts, n - 1, ts, m - 1))
      else Encode(env, TopTerm(ts, 0)) + Tokens(env, HeldTo(nts, n, ts, m - 1))
  }

  lemma EmptyLead(f: seq<Token>, a: seq<Token>)
    ensures f + [] == f && [] + a == a && a + [] == a
  {
  }

  // ----- what is above does not matter -----

  lemma LastFewer(ts: seq<Term>, more: seq<Term>, m: nat, n: nat)
    requires n <= m <= |ts|
    ensures LastTo(ts + more, m, n) == LastTo(ts, m, n)
  {
  }

  lemma {:induction false} HeldFewer(nts: seq<NonTerm>, n: nat, ts: seq<Term>, more: seq<Term>, m: nat)
    requires n <= |nts| && m <= |ts|
    ensures HeldTo(nts, n, ts + more, m) == HeldTo(nts, n, ts, m)
    decreases n
  {
    if n > 0 {
      var x := nts[n - 1];
      if x.Expression? {
        if n > 1 { HeldFewer(nts, n - 2, ts, more, m); }
      } else if Pops(x) <= m {
        LastFewer(ts, more, m, Pops(x));
        HeldFewer(nts, n - 1, ts, more, m - Pops(x));
      }
    }
  }

  lemma {:induction false} HeldBelow(nts: seq<NonTerm>, above: seq<NonTerm>, n: nat, ts: seq<Term>, m: nat)
    requires n <= |nts| && m <= |ts|
    ensures HeldTo(nts + above, n, ts, m) == HeldTo(nts, n, ts, m)
    decreases n
  {
    if n > 0 {
      var x := nts[n - 1];
      if x.Expression? {
        if n > 1 { HeldBelow(nts, above, n - 2, ts, m); }
      } else if Pops(x) <= m {
        HeldBelow(nts, above, n - 1, ts, m - Pops(x));
      }
    }
  }

  lemma Parted(ts: seq<Term>, k: nat)
    requires k <= |ts|
    ensures ts == Below(ts, k) + ts[|ts| - k..]
  {
  }

  /** What is held below the nonterminal `x` and all but the lowest `m` terms. */
  lemma HeldUnder(nts: seq<NonTerm>, x: NonTerm, ts: seq<Term>, rest: seq<Term>, k: nat, m: nat)
    requires k <= |ts| && m == |ts| - k && rest == Below(ts, k)
    ensures HeldTo(nts + [x], |nts|, ts, m) == HeldTo(nts, |nts|, rest, |rest|)
  {
    Parted(ts, k);
    HeldBelow(nts, [x], |nts|, ts, m);
    HeldFewer(nts, |nts|, rest, ts[m..], m);
  }

  lemma LastAll(ts: seq<Term>, n: nat)
    requires n <= |ts|
    ensures LastTo(ts, |ts|, n) == LastTerms(ts, n)
  {
  }

  lemma HeldOn(nts: seq<NonTerm>, x: NonTerm, ts: seq<Term>, rest: seq<Term>)
    requires !x.Expression? && Pops(x) <= |ts| && rest == Below(ts, Pops(x))
    ensures HeldTo(nts + [x], |nts + [x]|, ts, |ts|) == Waiting(x, LastTerms(ts, Pops(x)), HeldTo(nts, |nts|, rest, |rest|))
  {
    HeldUnder(nts, x, ts, rest, Pops(x), |ts| - Pops(x));
    LastAll(ts, Pops(x));
  }

  lemma TokensOn(env: Env, x: NonTerm, others: seq<Term>, rest: Held)
    requires |others| == Pops(x)
    ensures Tokens(env, Waiting(x, others, rest)) == LocalOf(env, x, others) + Tokens(env, rest)
  {
  }

  lemma TailOn(env: Env, nts: seq<NonTerm>, x: NonTerm, ts: seq<Term>)
    requires !x.Expression? && Pops(x) <= |ts|
    ensures Tail(env, nts + [x], ts) == Local(env, x, ts) + Tail(env, nts, Below(ts, Pops(x)))
  {
    var rest := Below(ts, Pops(x));
    HeldOn(nts, x, ts, rest);
    TokensOn(env, x, LastTerms(ts, Pops(x)), HeldTo(nts, |nts|, rest, |rest|));
  }

  lemma TailExpression(env: Env, nts: seq<NonTerm>, x: NonTerm, ts: seq<Term>)
    ensures Tail(env, nts + [x] + [Expression], ts) == BoolToken(x) + Tail(env, nts, ts)
  {
    assert nts + [x] + [Expression] == nts + [x, Expression];
    HeldBelow(nts, [x, Expression], |nts|, ts, |ts|);
  }

  // ----- the top nonterminal's view of what has been consumed -----

  /** Nothing has been read for an expression yet. */
  lemma TopPending(env: Env, nts: seq<NonTerm>, x: NonTerm, ts: seq<Term>)
    requires x.Expression? || x.WExpression?
    ensures Consumed(env, nts + [x], ts) == Tail(env, nts, ts)
  {
    assert Below(ts, 0) == ts;
    HeldUnder(nts, x, ts, ts, 0, |ts|);
  }

  lemma TopThresh(env: Env, nts: seq<NonTerm>, x: NonTerm, ts: seq<Term>)
    requires x.ThreshW? && x.n == 0
    ensures Consumed(env, nts + [x], ts) == [Num(x.k), Op(OpEqual)] + Tail(env, nts, ts)
  {
    assert Below(ts, 0) == ts;
    HeldUnder(nts, x, ts, ts, 0, |ts|);
  }

  /** A guard, with the term that it guards. */
  lemma TopDirect(env: Env, nts: seq<NonTerm>, x: NonTerm, ts: seq<Term>, a: seq<Token>, tail: seq<Token>)
    requires ts != [] && IsDirect(x) && a == Encode(env, TopTerm(ts, 0)) && tail == Tail(env, nts, Below(ts, 1))
    ensures Consumed(env, nts + [x], ts) == Lead(x) + a + [Op(OpEndIf)] + tail
  {
    HeldUnder(nts, x, ts, Below(ts, 1), 1, |ts| - 1);
  }

  lemma HeldWithout(nts: seq<NonTerm>, ts: seq<Term>, rest: seq<Term>, m: nat)
    requires ts != [] && rest == Below(ts, 1) && m == |ts| - 1
    ensures HeldTo(nts, |nts|, ts, m) == HeldTo(nts, |nts|, rest, |rest|)
  {
    Parted(ts, 1);
    HeldFewer(nts, |nts|, rest, ts[m..], m);
  }

  lemma ConsumedOver(env: Env, nts: seq<NonTerm>, ts: seq<Term>, a: seq<Token>, h: Held)
    requires nts != [] && CanWait(nts[|nts| - 1]) && ts != []
    requires a == Encode(env, TopTerm(ts, 0)) && h == HeldTo(nts, |nts|, ts, |ts| - 1)
    ensures Consumed(env, nts, ts) == a + Tokens(env, h)
  {
  }

  lemma TopOver(env: Env, nts: seq<NonTerm>, x: NonTerm, ts: seq<Term>, rest: seq<Term>)
    requires ts != [] && CanWait(x) && rest == Below(ts, 1)
    ensures Consumed(env, nts + [x], ts) == Encode(env, TopTerm(ts, 0)) + Tail(env, nts + [x], rest)
  {
    var all := nts + [x];
    HeldWithout(all, ts, rest, |ts| - 1);
    ConsumedOver(env, all, ts, Encode(env, TopTerm(ts, 0)), HeldTo(all, |all|, rest, |rest|));
  }

  lemma BelowTwice(ts: seq<Term>, n: nat, next: nat)
    requires n < |ts| && next == n + 1
    ensures Below(Below(ts, 1), n) == Below(ts, next)
  {
  }

  /** A waiting nonterminal, with the term `a` it waited for and what it has read
      to the right of it. */
  lemma TopWaits(env: Env, nts: seq<NonTerm>, x: NonTerm, ts: seq<Term>, a: seq<Token>, l: seq<Token>, next: nat, tail: seq<Token>)
    requires ts != [] && CanWait(x) && Pops(x) < |ts| && next == Pops(x) + 1
    requires a == Encode(env, TopTerm(ts, 0)) && l == Local(env, x, Below(ts, 1)) && tail == Tail(env, nts, Below(ts, next))
    ensures Consumed(env, nts + [x], ts) == a + (l + tail)
  {
    TopOver(env, nts, x, ts, Below(ts, 1));
    TailOn(env, nts, x, Below(ts, 1));
    BelowTwice(ts, Pops(x), next);
  }

  /** A nonterminal that has read nothing itself. */
  lemma TopEmpty(env: Env, nts: seq<NonTerm>, x: NonTerm, ts: seq<Term>, a: seq<Token>, tail: seq<Token>)
    requires ts != [] && (x.MaybeAndV? || x.InscribePre?)
    requires a == Encode(env, TopTerm(ts, 0)) && tail == Tail(env, nts, Below(ts, 1))
    ensures Consumed(env, nts + [x], ts) == a + tail
  {
    TopWaits(env, nts, x, ts, a, [], 1, tail);
    EmptyLead(tail, tail);
  }

  /** The right operand of `and_b` or `or_b`, delivered to its left operand. */
  lemma DeliveredRight(env: Env, nts: seq<NonTerm>, x: NonTerm, ts: seq<Term>, all: seq<Term>, t: Term)
    requires (x.AndB? || x.OrB?) && all != [] && TopTerm(all, 0) == t && Below(all, 1) == ts
    ensures Consumed(env, nts + [x] + [Expression], all)
            == Encode(env, t) + Tail(env, nts + [x] + [Expression], ts)
  {
    TopPending(env, nts + [x], Expression, all);
    TailExpression(env, nts, x, ts);
    TailOn(env, nts, x, all);
    LocalBool(env, x, all);
    Assoc(Encode(env, t), BoolToken(x), Tail(env, nts, ts));
  }

  lemma LocalBool(env: Env, x: NonTerm, ts: seq<Term>)
    requires (x.AndB? || x.OrB?) && ts != []
    ensures Pops(x) == 1 && Local(env, x, ts) == Encode(env, TopTerm(ts, 0)) + BoolToken(x)
  {
  }

  lemma DeliveredWaiting(env: Env, nts: seq<NonTerm>, ts: seq<Term>, all: seq<Term>, t: Term)
    requires nts != [] && CanWait(nts[|nts| - 1]) && all != [] && TopTerm(all, 0) == t && Below(all, 1) == ts
    ensures Consumed(env, nts, all) == Encode(env, t) + Tail(env, nts, ts)
  {
    HeldWithout(nts, all, ts, |ts|);
    ConsumedOver(env, nts, all, Encode(env, t), HeldTo(nts, |nts|, ts, |ts|));
  }

  lemma DeliveredLast(env: Env, all: seq<Term>, t: Term)
    requires all == [t]
    ensures Consumed(env, [], all) == Encode(env, t) + Tail(env, [], [])
  {
    assert Encode(env, t) + [] == Encode(env, t);
  }

  /** A term delivered to stacks that wait for one. */
  lemma ConsumedDelivered(env: Env, nts: seq<NonTerm>, ts: seq<Term>, t: Term)
    requires Waits(nts, |ts|)
    ensures Consumed(env, nts, ts + [t]) == Encode(env, t) + Tail(env, nts, ts)
  {
    var all := ts + [t];
    assert all[|all| - 1] == t && all[..|all| - 1] == ts;
    if nts == [] {
      DeliveredLast(env, all, t);
    } else if nts[|nts| - 1].Expression? {
      var below := nts[..|nts| - 1];
      var under, x := below[..|below| - 1], below[|below| - 1];
      assert nts == under + [x] + [Expression];
      DeliveredRight(env, under, x, ts, all, t);
    } else {
      DeliveredWaiting(env, nts, ts, all, t);
    }
  }

  // ----- steps that push nonterminals -----

  lemma Append(nts: seq<NonTerm>, x: NonTerm, y: NonTerm)
    ensures nts + [x, y] == nts + [x] + [y]
  {
  }

  lemma AppendThree(nts: seq<NonTerm>, x: NonTerm, y: NonTerm, z: NonTerm)
    ensures nts + [x, y, z] == nts + [x] + [y] + [z]
  {
  }

  /** A waiting nonterminal and an expression to wait for. */
  lemma PushTwo(env: Env, nts: seq<NonTerm>, x: NonTerm, y: NonTerm, ts: seq<Term>, l: seq<Token>, tail: seq<Token>)
    requires CanWait(x) && Pops(x) <= |ts| && (y.Expression? || y.WExpression?)
    requires l == Local(env, x, ts) && tail == Tail(env, nts, Below(ts, Pops(x)))
    ensures Consumed(env, nts + [x, y], ts) == l + tail
  {
    Append(nts, x, y);
    TopPending(env, nts + [x], y, ts);
    TailOn(env, nts, x, ts);
  }

  /** The same with a search for `and_v` between them. */
  lemma PushThree(env: Env, nts: seq<NonTerm>, x: NonTerm, ts: seq<Term>, l: seq<Token>, tail: seq<Token>)
    requires CanWait(x) && Pops(x) <= |ts|
    requires l == Local(env, x, ts) && tail == Tail(env, nts, Below(ts, Pops(x)))
    ensures Consumed(env, nts + [x, MaybeAndV, Expression], ts) == l + tail
  {
    AppendThree(nts, x, MaybeAndV, Expression);
    TopPending(env, nts + [x] + [MaybeAndV], Expression, ts);
    TailOn(env, nts + [x], MaybeAndV, ts);
    assert Below(ts, 0) == ts;
    EmptyLead(Tail(env, nts + [x], ts), Tail(env, nts + [x], ts));
    TailOn(env, nts, x, ts);
  }

  /** The tokens of a threshold whose last `n` children have been read. */
  lemma ThreshConsumed(env: Env, nts: seq<NonTerm>, x: NonTerm, ts: seq<Term>)
    requires x.ThreshW? && x.n <= |ts|
    ensures Consumed(env, nts + [x], ts)
            == EncodeAdds(env, LastTerms(ts, x.n)) + [Num(x.k), Op(OpEqual)] + Tail(env, nts, Below(ts, x.n))
  {
    if x.n == 0 {
      TopThresh(env, nts, x, ts);
      assert LastTerms(ts, 0) == [] && Below(ts, 0) == ts;
      assert [] + [Num(x.k), Op(OpEqual)] == [Num(x.k), Op(OpEqual)];
    } else {
      var top, adds, last := Encode(env, TopTerm(ts, 0)), EncodeAdds(env, LastTerms(Below(ts, 1), x.n - 1)), [Num(x.k), Op(OpEqual)];
      var tail := Tail(env, nts, Below(ts, x.n));
      TopWaits(env, nts, x, ts, top, [Op(OpAdd)] + adds + last, x.n, tail);
      AddsNext(env, ts, x.n, top, adds);
      ReAdd(top, adds, last, tail);
    }
  }

  lemma AddsNext(env: Env, ts: seq<Term>, n: nat, top: seq<Token>, adds: seq<Token>)
    requires 1 <= n <= |ts| && top == Encode(env, TopTerm(ts, 0)) && adds == EncodeAdds(env, LastTerms(Below(ts, 1), n - 1))
    ensures EncodeAdds(env, LastTerms(ts, n)) == top + [Op(OpAdd)] + adds
  {
    LastTermsNext(ts, n);
    var all := LastTerms(ts, n);
    assert all[0] == TopTerm(ts, 0) && all[1..] == LastTerms(Below(ts, 1), n - 1);
  }

  lemma LastTermsNext(ts: seq<Term>, n: nat)
    requires 1 <= n <= |ts|
    ensures LastTerms(ts, n) == [TopTerm(ts, 0)] + LastTerms(Below(ts, 1), n - 1)
  {
  }

  lemma ReAdd(a: seq<Token>, b: seq<Token>, c: seq<Token>, d: seq<Token>)
    ensures a + ([Op(OpAdd)] + b + c + d) == a + [Op(OpAdd)] + b + c + d
  {
    Assoc(a, [Op(OpAdd)] + b + c, d);
    Assoc(a, [Op(OpAdd)] + b, c);
    Assoc(a, [Op(OpAdd)], b);
  }

  ghost predicate StepSame(dx: Dx, x: NonTerm, nts: seq<NonTerm>, ts: seq<Term>, toks: seq<Token>) {
    var r := Handle(dx, x, nts, ts, toks);
    r.Good? ==>
      SameTokens(toks + Consumed(dx.env, nts + [x], ts), r.value.toks + Consumed(dx.env, r.value.nts, r.value.ts))
  }

  lemma SameFrom(dx: Dx, x: NonTerm, nts: seq<NonTerm>, ts: seq<Term>, toks: seq<Token>, next: PState)
    requires Handle(dx, x, nts, ts, toks) == Good(next)
    requires toks + Consumed(dx.env, nts + [x], ts) == next.toks + Consumed(dx.env, next.nts, next.ts)
    ensures StepSame(dx, x, nts, ts, toks)
  {
  }

  lemma ThreshMore(env: Env, nts: seq<NonTerm>, x: NonTerm, ts: seq<Term>, f: seq<Token>)
    requires x.ThreshW? && x.n <= |ts|
    ensures f + [Op(OpAdd)] + Consumed(env, nts + [x], ts)
            == f + Consumed(env, nts + [ThreshW(x.k, x.n + 1), WExpression], ts)
  {
    ThreshConsumed(env, nts, x, ts);
    var adds, last, tail := EncodeAdds(env, LastTerms(ts, x.n)), [Num(x.k), Op(OpEqual)], Tail(env, nts, Below(ts, x.n));
    PushTwo(env, nts, ThreshW(x.k, x.n + 1), WExpression, ts, [Op(OpAdd)] + adds + last, tail);
    AddFirst(f, adds, last, tail);
  }

  lemma ThreshEnds(env: Env, nts: seq<NonTerm>, x: NonTerm, ts: seq<Term>)
    requires x.ThreshW? && x.n <= |ts|
    ensures Consumed(env, nts + [x], ts) == Consumed(env, nts + [ThreshE(x.k, x.n + 1), Expression], ts)
  {
    ThreshConsumed(env, nts, x, ts);
    var adds, last, tail := EncodeAdds(env, LastTerms(ts, x.n)), [Num(x.k), Op(OpEqual)], Tail(env, nts, Below(ts, x.n));
    PushTwo(env, nts, ThreshE(x.k, x.n + 1), Expression, ts, adds + last, tail);
  }

  lemma StepThreshSame(dx: Dx, x: NonTerm, nts: seq<NonTerm>, ts: seq<Term>, toks: seq<Token>)
    requires x.ThreshW? && x.n <= |ts|
    ensures StepSame(dx, x, nts, ts, toks)
  {
    if toks != [] && LastTok(toks) == Op(OpAdd) {
      FrontLast(toks);
      ThreshMore(dx.env, nts, x, ts, Front(toks));
      SameFrom(dx, x, nts, ts, toks, PState(nts + [ThreshW(x.k, x.n + 1), WExpression], ts, Front(toks)));
    } else if toks != [] {
      ThreshEnds(dx.env, nts, x, ts);
      SameFrom(dx, x, nts, ts, toks, PState(nts + [ThreshE(x.k, x.n + 1), Expression], ts, toks));
    }
  }

  lemma AddFirst(f: seq<Token>, a: seq<Token>, b: seq<Token>, c: seq<Token>)
    ensures f + [Op(OpAdd)] + (a + b + c) == f + ([Op(OpAdd)] + a + b + c)
  {
    Assoc(f, [Op(OpAdd)], a + b + c);
    Assoc([Op(OpAdd)], a + b, c);
    Assoc([Op(OpAdd)], a, b);
  }

  lemma SearchMore(env: Env, nts: seq<NonTerm>, ts: seq<Term>)
    requires ts != []
    ensures Consumed(env, nts + [MaybeAndV], ts) == Consumed(env, nts + [NonTerm.AndV, Expression], ts)
  {
    var a, tail := Encode(env, TopTerm(ts, 0)), Tail(env, nts, Below(ts, 1));
    TopEmpty(env, nts, MaybeAndV, ts, a, tail);
    PushTwo(env, nts, NonTerm.AndV, Expression, ts, a, tail);
  }

  lemma TopBack(ts: seq<Term>)
    requires ts != []
    ensures Below(ts, 1) + [TopTerm(ts, 0)] == ts
  {
  }

  /** Waiting nonterminals, once their term is there. */
  lemma ConsumedWaiting(env: Env, nts: seq<NonTerm>, ts: seq<Term>, rest: seq<Term>)
    requires ts != [] && rest == Below(ts, 1) && Waits(nts, |rest|)
    ensures Consumed(env, nts, ts) == Encode(env, TopTerm(ts, 0)) + Tail(env, nts, rest)
  {
    TopBack(ts);
    ConsumedDelivered(env, nts, rest, TopTerm(ts, 0));
  }

  /** A term goes on to the nonterminal below. */
  lemma PassedOn(env: Env, nts: seq<NonTerm>, x: NonTerm, ts: seq<Term>, rest: seq<Term>)
    requires (x.MaybeAndV? || x.InscribePre?) && ts != [] && rest == Below(ts, 1) && Waits(nts, |rest|)
    ensures Consumed(env, nts + [x], ts) == Consumed(env, nts, ts)
  {
    TopEmpty(env, nts, x, ts, Encode(env, TopTerm(ts, 0)), Tail(env, nts, rest));
    ConsumedWaiting(env, nts, ts, rest);
  }

  lemma StepSearchSame(dx: Dx, nts: seq<NonTerm>, ts: seq<Term>, toks: seq<Token>)
    requires ts != [] && Waits(nts, |ts| - 1)
    ensures StepSame(dx, MaybeAndV, nts, ts, toks)
  {
    if IsAndV(toks) {
      SearchMore(dx.env, nts, ts);
      SameFrom(dx, MaybeAndV, nts, ts, toks, PState(nts + [NonTerm.AndV, Expression], ts, toks));
    } else {
      PassedOn(dx.env, nts, MaybeAndV, ts, Below(ts, 1));
      SameFrom(dx, MaybeAndV, nts, ts, toks, PState(nts, ts, toks));
    }
  }

  /** `AndV` once more, above itself. */
  lemma AndVMore(env: Env, nts: seq<NonTerm>, ts: seq<Term>)
    requires |ts| >= 2
    ensures Consumed(env, nts + [NonTerm.AndV], ts) == Consumed(env, nts + [NonTerm.AndV] + [MaybeAndV], ts)
  {
    var one, rest := nts + [NonTerm.AndV], Below(ts, 1);
    var a, l, tail := Encode(env, TopTerm(ts, 0)), Encode(env, TopTerm(rest, 0)), Tail(env, nts, Below(ts, 2));
    TopWaits(env, nts, NonTerm.AndV, ts, a, l, 2, tail);
    BelowTwice(ts, 1, 2);
    TailOn(env, nts, NonTerm.AndV, rest);
    TopEmpty(env, one, MaybeAndV, ts, a, l + tail);
  }

  lemma StepAndVMore(dx: Dx, nts: seq<NonTerm>, ts: seq<Term>, toks: seq<Token>)
    requires |ts| >= 2 && IsAndV(toks)
    ensures StepSame(dx, NonTerm.AndV, nts, ts, toks)
  {
    AndVMore(dx.env, nts, ts);
    assert nts + [NonTerm.AndV, MaybeAndV] == nts + [NonTerm.AndV] + [MaybeAndV];
    SameFrom(dx, NonTerm.AndV, nts, ts, toks, PState(nts + [NonTerm.AndV, MaybeAndV], ts, toks));
  }

  lemma ReLead(f: seq<Token>, lead: seq<Token>, a: seq<Token>, b: seq<Token>, c: seq<Token>)
    ensures f + lead + (a + (b + c)) == f + (lead + a + b + c)
  {
    Assoc(f, lead, a + (b + c));
    Assoc(a, b, c);
    Assoc(lead, a + b, c);
    Assoc(lead, a, b);
  }

  lemma EndIfElseSame(env: Env, nts: seq<NonTerm>, ts: seq<Term>, f: seq<Token>)
    requires ts != []
    ensures f + [Op(OpElse)] + Consumed(env, nts + [EndIf], ts)
            == f + Consumed(env, nts + [EndIfElse, MaybeAndV, Expression], ts)
  {
    var a, tail := Encode(env, TopTerm(ts, 0)), Tail(env, nts, Below(ts, 1));
    TopWaits(env, nts, EndIf, ts, a, [Op(OpEndIf)], 1, tail);
    PushThree(env, nts, EndIfElse, ts, [Op(OpElse)] + a + [Op(OpEndIf)], tail);
    ReLead(f, [Op(OpElse)], a, [Op(OpEndIf)], tail);
  }

  lemma EndIfDirectSame(env: Env, nts: seq<NonTerm>, x: NonTerm, ts: seq<Term>, f: seq<Token>)
    requires ts != [] && IsDirect(x)
    ensures f + Lead(x) + Consumed(env, nts + [EndIf], ts) == f + Consumed(env, nts + [x], ts)
  {
    var a, tail := Encode(env, TopTerm(ts, 0)), Tail(env, nts, Below(ts, 1));
    TopWaits(env, nts, EndIf, ts, a, [Op(OpEndIf)], 1, tail);
    TopDirect(env, nts, x, ts, a, tail);
    ReLead(f, Lead(x), a, [Op(OpEndIf)], tail);
  }

  lemma GuardDup(dx: Dx, nts: seq<NonTerm>, ts: seq<Term>, toks: seq<Token>, f: seq<Token>)
    requires ts != [] && toks == f + [Op(OpDup), Op(OpIf)]
    ensures Handle(dx, EndIf, nts, ts, toks) == Good(PState(nts + [NonTerm.DupIf], ts, f))
    ensures toks + Consumed(dx.env, nts + [EndIf], ts) == f + Consumed(dx.env, nts + [NonTerm.DupIf], ts)
  {
    EndIfDirectSame(dx.env, nts, NonTerm.DupIf, ts, f);
    assert LastTok(toks) == Op(OpIf) && Front(toks) == f + [Op(OpDup)];
    assert Front(f + [Op(OpDup)]) == f;
  }

  lemma GuardSize(dx: Dx, nts: seq<NonTerm>, ts: seq<Term>, toks: seq<Token>, f: seq<Token>)
    requires ts != [] && toks == f + [Op(OpSize), Op(OpZeroNotEqual), Op(OpIf)]
    requires Handle(dx, EndIf, nts, ts, toks) == Good(PState(nts + [NonTerm.NonZero], ts, f))
    ensures StepSame(dx, EndIf, nts, ts, toks)
  {
    EndIfDirectSame(dx.env, nts, NonTerm.NonZero, ts, f);
    SameFrom(dx, EndIf, nts, ts, toks, PState(nts + [NonTerm.NonZero], ts, f));
  }

  lemma GuardedDup(toks: seq<Token>, f: seq<Token>)
    requires toks == f + [Op(OpIf)] && f != [] && LastTok(f) == Op(OpDup)
    ensures toks == Front(f) + [Op(OpDup), Op(OpIf)]
  {
    FrontLast(f);
  }

  lemma GuardedSize(dx: Dx, nts: seq<NonTerm>, ts: seq<Term>, toks: seq<Token>, f: seq<Token>, g: seq<Token>)
    requires Handle(dx, EndIf, nts, ts, toks).Good? && toks == f + [Op(OpIf)] && !(f != [] && LastTok(f) == Op(OpDup))
    requires Expect(f, [Op(OpZeroNotEqual), Op(OpSize)]).Good? ==> g == Expect(f, [Op(OpZeroNotEqual), Op(OpSize)]).value
    ensures Expect(f, [Op(OpZeroNotEqual), Op(OpSize)]) == Good(g)
    ensures Handle(dx, EndIf, nts, ts, toks) == Good(PState(nts + [NonTerm.NonZero], ts, g))
  {
    assert Front(toks) == f && LastTok(toks) == Op(OpIf);
  }

  lemma SizeTokens(toks: seq<Token>, f: seq<Token>, g: seq<Token>)
    requires toks == f + [Op(OpIf)] && f == g + [Op(OpSize), Op(OpZeroNotEqual)]
    ensures toks == g + [Op(OpSize), Op(OpZeroNotEqual), Op(OpIf)]
  {
  }

  /** ENDIF with IF to its left: the guard of `d:` or `j:`. */
  lemma StepGuardSame(dx: Dx, nts: seq<NonTerm>, ts: seq<Term>, toks: seq<Token>, f: seq<Token>)
    requires ts != [] && Handle(dx, EndIf, nts, ts, toks).Good? && toks == f + [Op(OpIf)]
    ensures StepSame(dx, EndIf, nts, ts, toks)
  {
    if f != [] && LastTok(f) == Op(OpDup) {
      GuardedDup(toks, f);
      GuardDup(dx, nts, ts, toks, Front(f));
      SameFrom(dx, EndIf, nts, ts, toks, PState(nts + [NonTerm.DupIf], ts, Front(f)));
    } else {
      var e := Expect(f, [Op(OpZeroNotEqual), Op(OpSize)]);
      var g := if e.Good? then e.value else [];
      GuardedSize(dx, nts, ts, toks, f, g);
      ExpectTwo(f, Op(OpZeroNotEqual), Op(OpSize));
      SizeTokens(toks, f, g);
      GuardSize(dx, nts, ts, toks, g);
    }
  }

  lemma HandleBranch(dx: Dx, nts: seq<NonTerm>, ts: seq<Term>, toks: seq<Token>, f: seq<Token>)
    requires toks != [] && f == Front(toks)
    ensures LastTok(toks) == Op(OpElse) ==>
              Handle(dx, EndIf, nts, ts, toks) == Good(PState(nts + [EndIfElse, MaybeAndV, Expression], ts, f))
    ensures LastTok(toks) == Op(OpNotIf) ==>
              Handle(dx, EndIf, nts, ts, toks) == Good(PState(nts + [EndIfNotIf], ts, f))
  {
  }

  lemma StepBranchSame(dx: Dx, nts: seq<NonTerm>, ts: seq<Term>, toks: seq<Token>, f: seq<Token>)
    requires ts != [] && toks != [] && f == Front(toks)
    requires LastTok(toks) == Op(OpElse) || LastTok(toks) == Op(OpNotIf)
    ensures StepSame(dx, EndIf, nts, ts, toks)
  {
    HandleBranch(dx, nts, ts, toks, f);
    FrontLast(toks);
    if LastTok(toks) == Op(OpElse) {
      EndIfElseSame(dx.env, nts, ts, f);
      SameFrom(dx, EndIf, nts, ts, toks, PState(nts + [EndIfElse, MaybeAndV, Expression], ts, f));
    } else {
      EndIfDirectSame(dx.env, nts, EndIfNotIf, ts, f);
      SameFrom(dx, EndIf, nts, ts, toks, PState(nts + [EndIfNotIf], ts, f));
    }
  }

  lemma StepEndIfSame(dx: Dx, nts: seq<NonTerm>, ts: seq<Term>, toks: seq<Token>)
    requires ts != [] && Handle(dx, EndIf, nts, ts, toks).Good?
    ensures StepSame(dx, EndIf, nts, ts, toks)
  {
    FrontLast(toks);
    if LastTok(toks) == Op(OpIf) {
      StepGuardSame(dx, nts, ts, toks, Front(toks));
    } else {
      StepBranchSame(dx, nts, ts, toks, Front(toks));
    }
  }

  lemma ExpectOne(toks: seq<Token>, a: Token)
    requires Expect(toks, [a]).Good?
    ensures toks == Expect(toks, [a]).value + [a]
  {
    FrontLast(toks);
    assert [a][1..] == [];
  }

  lemma ExpectTwo(toks: seq<Token>, a: Token, b: Token)
    requires Expect(toks, [a, b]).Good?
    ensures toks == Expect(toks, [a, b]).value + [b, a]
  {
    FrontLast(toks);
    assert [a, b][1..] == [b];
    ExpectOne(Front(toks), b);
  }

  lemma ConsumedNotIf(env: Env, nts: seq<NonTerm>, ts: seq<Term>, a: seq<Token>, tail: seq<Token>)
    requires ts != [] && a == Encode(env, TopTerm(ts, 0)) && tail == Tail(env, nts, Below(ts, 1))
    ensures Consumed(env, nts + [EndIfNotIf], ts) == [Op(OpNotIf)] + a + [Op(OpEndIf)] + tail
  {
    TopDirect(env, nts, EndIfNotIf, ts, a, tail);
  }

  lemma ConsumedOrD(env: Env, nts: seq<NonTerm>, ts: seq<Term>, a: seq<Token>, tail: seq<Token>)
    requires ts != [] && a == Encode(env, TopTerm(ts, 0)) && tail == Tail(env, nts, Below(ts, 1))
    ensures Consumed(env, nts + [NonTerm.OrD, Expression], ts) == [Op(OpIfDup), Op(OpNotIf)] + a + [Op(OpEndIf)] + tail
  {
    PushTwo(env, nts, NonTerm.OrD, Expression, ts, [Op(OpIfDup), Op(OpNotIf)] + a + [Op(OpEndIf)], tail);
  }

  lemma NotIfDup(env: Env, nts: seq<NonTerm>, ts: seq<Term>, f: seq<Token>)
    requires ts != []
    ensures f + [Op(OpIfDup)] + Consumed(env, nts + [EndIfNotIf], ts)
            == f + Consumed(env, nts + [NonTerm.OrD, Expression], ts)
  {
    var a, tail := Encode(env, TopTerm(ts, 0)), Tail(env, nts, Below(ts, 1));
    ConsumedNotIf(env, nts, ts, a, tail);
    ConsumedOrD(env, nts, ts, a, tail);
    ReIfDup(f, a, [Op(OpEndIf)], tail, Consumed(env, nts + [EndIfNotIf], ts),
      Consumed(env, nts + [NonTerm.OrD, Expression], ts));
  }

  lemma NotIfPlain(env: Env, nts: seq<NonTerm>, ts: seq<Term>)
    requires ts != []
    ensures Consumed(env, nts + [EndIfNotIf], ts) == Consumed(env, nts + [NonTerm.OrC, Expression], ts)
  {
    var a, tail := Encode(env, TopTerm(ts, 0)), Tail(env, nts, Below(ts, 1));
    ConsumedNotIf(env, nts, ts, a, tail);
    PushTwo(env, nts, NonTerm.OrC, Expression, ts, [Op(OpNotIf)] + a + [Op(OpEndIf)], tail);
  }

  lemma StepNotIfSame(dx: Dx, nts: seq<NonTerm>, ts: seq<Term>, toks: seq<Token>)
    requires ts != [] && Handle(dx, EndIfNotIf, nts, ts, toks).Good?
    ensures StepSame(dx, EndIfNotIf, nts, ts, toks)
  {
    if LastTok(toks) == Op(OpIfDup) {
      FrontLast(toks);
      NotIfDup(dx.env, nts, ts, Front(toks));
      SameFrom(dx, EndIfNotIf, nts, ts, toks, PState(nts + [NonTerm.OrD, Expression], ts, Front(toks)));
    } else {
      NotIfPlain(dx.env, nts, ts);
      SameFrom(dx, EndIfNotIf, nts, ts, toks, PState(nts + [NonTerm.OrC, Expression], ts, toks));
    }
  }

  lemma ReIfDup(f: seq<Token>, a: seq<Token>, b: seq<Token>, c: seq<Token>, before: seq<Token>, after: seq<Token>)
    requires before == [Op(OpNotIf)] + a + b + c && after == [Op(OpIfDup), Op(OpNotIf)] + a + b + c
    ensures f + [Op(OpIfDup)] + before == f + after
  {
    assert [Op(OpIfDup), Op(OpNotIf)] == [Op(OpIfDup)] + [Op(OpNotIf)];
    Assoc(f, [Op(OpIfDup)], [Op(OpNotIf)] + a + b + c);
    Assoc([Op(OpIfDup)], [Op(OpNotIf)] + a + b, c);
    Assoc([Op(OpIfDup)], [Op(OpNotIf)] + a, b);
    Assoc([Op(OpIfDup)], [Op(OpNotIf)], a);
  }

  lemma ConsumedEndIfElse(env: Env, nts: seq<NonTerm>, ts: seq<Term>, x: seq<Token>, y: seq<Token>, tail: seq<Token>)
    requires |ts| >= 2 && x == Encode(env, TopTerm(ts, 0)) && y == Encode(env, TopTerm(ts, 1))
    requires tail == Tail(env, nts, Below(ts, 2))
    ensures Consumed(env, nts + [EndIfElse], ts) == x + ([Op(OpElse)] + y + [Op(OpEndIf)] + tail)
  {
    var l := [Op(OpElse)] + y + [Op(OpEndIf)];
    assert TopTerm(Below(ts, 1), 0) == TopTerm(ts, 1);
    TopWaits(env, nts, EndIfElse, ts, x, l, 2, tail);
  }

  lemma ConsumedTern(env: Env, nts: seq<NonTerm>, ts: seq<Term>, x: seq<Token>, y: seq<Token>, tail: seq<Token>)
    requires |ts| >= 2 && x == Encode(env, TopTerm(ts, 0)) && y == Encode(env, TopTerm(ts, 1))
    requires tail == Tail(env, nts, Below(ts, 2))
    ensures Consumed(env, nts + [Tern, Expression], ts) == [Op(OpNotIf)] + x + [Op(OpElse)] + y + [Op(OpEndIf)] + tail
  {
    PushTwo(env, nts, Tern, Expression, ts, [Op(OpNotIf)] + x + [Op(OpElse)] + y + [Op(OpEndIf)], tail);
  }

  lemma ReTern(f: seq<Token>, x: seq<Token>, y: seq<Token>, tail: seq<Token>, before: seq<Token>, after: seq<Token>)
    requires before == x + ([Op(OpElse)] + y + [Op(OpEndIf)] + tail)
    requires after == [Op(OpNotIf)] + x + [Op(OpElse)] + y + [Op(OpEndIf)] + tail
    ensures f + [Op(OpNotIf)] + before == f + after
  {
    ReLead(f, [Op(OpNotIf)], x, [Op(OpElse)] + y + [Op(OpEndIf)], tail);
    Assoc([Op(OpNotIf)] + x, [Op(OpElse)] + y, [Op(OpEndIf)]);
    Assoc([Op(OpNotIf)] + x, [Op(OpElse)], y);
  }

  lemma TernSame(env: Env, nts: seq<NonTerm>, ts: seq<Term>, f: seq<Token>)
    requires |ts| >= 2
    ensures f + [Op(OpNotIf)] + Consumed(env, nts + [EndIfElse], ts) == f + Consumed(env, nts + [Tern, Expression], ts)
  {
    var x, y, tail := Encode(env, TopTerm(ts, 0)), Encode(env, TopTerm(ts, 1)), Tail(env, nts, Below(ts, 2));
    ConsumedEndIfElse(env, nts, ts, x, y, tail);
    ConsumedTern(env, nts, ts, x, y, tail);
    ReTern(f, x, y, tail, Consumed(env, nts + [EndIfElse], ts), Consumed(env, nts + [Tern, Expression], ts));
  }

  lemma TernPushes(dx: Dx, nts: seq<NonTerm>, ts: seq<Term>, toks: seq<Token>)
    requires |ts| >= 2 && toks != [] && LastTok(toks) == Op(OpNotIf)
    ensures Handle(dx, EndIfElse, nts, ts, toks) == Good(PState(nts + [Tern, Expression], ts, Front(toks)))
  {
  }

  /** `ELSE` with `NOTIF` to its left: an `andor`, whose condition comes next. */
  lemma StepTernSame(dx: Dx, nts: seq<NonTerm>, ts: seq<Term>, toks: seq<Token>)
    requires |ts| >= 2 && toks != [] && LastTok(toks) == Op(OpNotIf)
    ensures StepSame(dx, EndIfElse, nts, ts, toks)
  {
    FrontLast(toks);
    TernPushes(dx, nts, ts, toks);
    TernSame(dx.env, nts, ts, Front(toks));
    SameFrom(dx, EndIfElse, nts, ts, toks, PState(nts + [Tern, Expression], ts, Front(toks)));
  }

  // ----- reductions -----

  /** A reduction whose consumed tokens `l` complete the encoding of `t`. */
  lemma ReduceSame(env: Env, nts: seq<NonTerm>, x: NonTerm, ts: seq<Term>, rest: seq<Term>, f: seq<Token>, l: seq<Token>, t: Term)
    requires CanWait(x) && Pops(x) < |ts| && rest == Below(ts, Pops(x) + 1) && Waits(nts, |rest|)
    requires l + Encode(env, TopTerm(ts, 0)) + Local(env, x, Below(ts, 1)) == Encode(env, t)
    ensures f + l + Consumed(env, nts + [x], ts) == f + Consumed(env, nts, rest + [t])
  {
    var a, b, tail := Encode(env, TopTerm(ts, 0)), Local(env, x, Below(ts, 1)), Tail(env, nts, rest);
    TopWaits(env, nts, x, ts, a, b, Pops(x) + 1, tail);
    ConsumedDelivered(env, nts, rest, t);
    ReduceTokens(f, l, a, b, tail);
  }

  lemma ReduceTokens(f: seq<Token>, l: seq<Token>, a: seq<Token>, b: seq<Token>, c: seq<Token>)
    ensures f + l + (a + (b + c)) == f + (l + a + b + c)
  {
    ReLead(f, l, a, b, c);
  }

  /** A step that reduces, and keeps the tokens that the state stands for. */
  lemma ReduceStep(dx: Dx, nts: seq<NonTerm>, x: NonTerm, ts: seq<Term>, rest: seq<Term>, toks: seq<Token>, f: seq<Token>, t: Term)
    requires Handle(dx, x, nts, ts, toks) == Reduce(dx, nts, rest, t, f)
    requires toks + Consumed(dx.env, nts + [x], ts) == f + Consumed(dx.env, nts, rest + [t])
    ensures StepSame(dx, x, nts, ts, toks)
  {
    if dx.accepts(t) { SameFrom(dx, x, nts, ts, toks, PState(nts, rest + [t], f)); }
  }

  /** A reduction that consumes nothing. */
  lemma ReduceInPlace(dx: Dx, nts: seq<NonTerm>, x: NonTerm, ts: seq<Term>, rest: seq<Term>, toks: seq<Token>, t: Term)
    requires CanWait(x) && Pops(x) < |ts| && rest == Below(ts, Pops(x) + 1) && Waits(nts, |rest|)
    requires Encode(dx.env, TopTerm(ts, 0)) + Local(dx.env, x, Below(ts, 1)) == Encode(dx.env, t)
    requires Handle(dx, x, nts, ts, toks) == Reduce(dx, nts, rest, t, toks)
    ensures StepSame(dx, x, nts, ts, toks)
  {
    SameInPlace(dx.env, nts, x, ts, rest, toks, t);
    ReduceStep(dx, nts, x, ts, rest, toks, toks, t);
  }

  lemma SameInPlace(env: Env, nts: seq<NonTerm>, x: NonTerm, ts: seq<Term>, rest: seq<Term>, toks: seq<Token>, t: Term)
    requires CanWait(x) && Pops(x) < |ts| && rest == Below(ts, Pops(x) + 1) && Waits(nts, |rest|)
    requires Encode(env, TopTerm(ts, 0)) + Local(env, x, Below(ts, 1)) == Encode(env, t)
    ensures toks + Consumed(env, nts + [x], ts) == toks + Consumed(env, nts, rest + [t])
  {
    EmptyLead(toks, Encode(env, TopTerm(ts, 0)));
    ReduceSame(env, nts, x, ts, rest, toks, [], t);
  }

  lemma StepWrapSame(dx: Dx, x: NonTerm, nts: seq<NonTerm>, ts: seq<Term>, toks: seq<Token>)
    requires x.Check? || x.Verify? || x.ZeroNotEqual?
    requires ts != [] && Waits(nts, |ts| - 1)
    ensures StepSame(dx, x, nts, ts, toks)
  {
    var sub := TopTerm(ts, 0);
    var t := if x.Check? then Term.Check(sub) else if x.Verify? then Term.Verify(sub) else Term.ZeroNotEqual(sub);
    ReduceInPlace(dx, nts, x, ts, Below(ts, 1), toks, t);
  }

  lemma StepPostSame(dx: Dx, x: NonTerm, nts: seq<NonTerm>, ts: seq<Term>, toks: seq<Token>)
    requires x.InscribePost? && ts != [] && Waits(nts, |ts| - 1)
    ensures StepSame(dx, x, nts, ts, toks)
  {
    ReduceInPlace(dx, nts, x, ts, Below(ts, 1), toks, Term.InscribePost(x.inscriptions, TopTerm(ts, 0)));
  }

  /** `s:` and `a:`, whose operation stands in front of their term. */
  predicate IsW(x: NonTerm, op: Opcode, sub: Term, t: Term) {
    (x.Swap? && op == OpSwap && t == Term.Swap(sub)) || (x.Alt? && op == OpToAltStack && t == Term.Alt(sub))
  }

  lemma WReduces(dx: Dx, x: NonTerm, nts: seq<NonTerm>, ts: seq<Term>, toks: seq<Token>, op: Opcode, t: Term)
    requires ts != [] && IsW(x, op, TopTerm(ts, 0), t) && Handle(dx, x, nts, ts, toks).Good?
    ensures Expect(toks, [Op(op)]).Good? && toks == Expect(toks, [Op(op)]).value + [Op(op)]
    ensures Handle(dx, x, nts, ts, toks) == Reduce(dx, nts, Below(ts, 1), t, Expect(toks, [Op(op)]).value)
  {
    ExpectOne(toks, Op(op));
  }

  lemma WSame(env: Env, x: NonTerm, nts: seq<NonTerm>, ts: seq<Term>, f: seq<Token>, op: Opcode, t: Term)
    requires ts != [] && IsW(x, op, TopTerm(ts, 0), t) && Waits(nts, |ts| - 1)
    ensures f + [Op(op)] + Consumed(env, nts + [x], ts) == f + Consumed(env, nts, Below(ts, 1) + [t])
  {
    var code := [Op(op)] + Encode(env, TopTerm(ts, 0));
    EmptyLead(code, code);
    ReduceSame(env, nts, x, ts, Below(ts, 1), f, [Op(op)], t);
  }

  lemma StepWSame(dx: Dx, x: NonTerm, nts: seq<NonTerm>, ts: seq<Term>, toks: seq<Token>)
    requires (x.Swap? || x.Alt?) && ts != [] && Waits(nts, |ts| - 1) && Handle(dx, x, nts, ts, toks).Good?
    ensures StepSame(dx, x, nts, ts, toks)
  {
    var sub, op := TopTerm(ts, 0), if x.Swap? then OpSwap else OpToAltStack;
    var t := if x.Swap? then Term.Swap(sub) else Term.Alt(sub);
    WReduces(dx, x, nts, ts, toks, op, t);
    var f := Expect(toks, [Op(op)]).value;
    WSame(dx.env, x, nts, ts, f, op, t);
    ReduceStep(dx, nts, x, ts, Below(ts, 1), toks, f, t);
  }

  lemma DirectSame(env: Env, nts: seq<NonTerm>, x: NonTerm, ts: seq<Term>, rest: seq<Term>, t: Term)
    requires IsDirect(x) && ts != [] && rest == Below(ts, 1) && Waits(nts, |rest|)
    requires Lead(x) + Encode(env, TopTerm(ts, 0)) + [Op(OpEndIf)] == Encode(env, t)
    ensures Consumed(env, nts + [x], ts) == Consumed(env, nts, rest + [t])
  {
    TopDirect(env, nts, x, ts, Encode(env, TopTerm(ts, 0)), Tail(env, nts, rest));
    ConsumedDelivered(env, nts, rest, t);
  }

  lemma StepDirectSame(dx: Dx, x: NonTerm, nts: seq<NonTerm>, ts: seq<Term>, toks: seq<Token>)
    requires (x.DupIf? || x.NonZero?) && ts != [] && Waits(nts, |ts| - 1)
    ensures StepSame(dx, x, nts, ts, toks)
  {
    var t := if x.DupIf? then Term.DupIf(TopTerm(ts, 0)) else Term.NonZero(TopTerm(ts, 0));
    DirectSame(dx.env, nts, x, ts, Below(ts, 1), t);
    ReduceStep(dx, nts, x, ts, Below(ts, 1), toks, toks, t);
  }

  lemma StepAndVEnd(dx: Dx, nts: seq<NonTerm>, ts: seq<Term>, toks: seq<Token>)
    requires |ts| >= 2 && Waits(nts, |ts| - 2) && !IsAndV(toks)
    ensures StepSame(dx, NonTerm.AndV, nts, ts, toks)
  {
    assert TopTerm(Below(ts, 1), 0) == TopTerm(ts, 1);
    ReduceInPlace(dx, nts, NonTerm.AndV, ts, Below(ts, 2), toks, Term.AndV(TopTerm(ts, 0), TopTerm(ts, 1)));
  }

  lemma StepBinarySame(dx: Dx, x: NonTerm, nts: seq<NonTerm>, ts: seq<Term>, toks: seq<Token>)
    requires (x.AndB? || x.OrB?) && |ts| >= 2 && Waits(nts, |ts| - 2)
    ensures StepSame(dx, x, nts, ts, toks)
  {
    var l, r := TopTerm(ts, 0), TopTerm(ts, 1);
    assert TopTerm(Below(ts, 1), 0) == r;
    Assoc(Encode(dx.env, l), Encode(dx.env, r), BoolToken(x));
    ReduceInPlace(dx, nts, x, ts, Below(ts, 2), toks, if x.AndB? then Term.AndB(l, r) else Term.OrB(l, r));
  }

  lemma OrElseReduces(dx: Dx, x: NonTerm, nts: seq<NonTerm>, ts: seq<Term>, toks: seq<Token>, l: Term, r: Term)
    requires (x.OrC? || x.OrD?) && |ts| >= 2 && l == TopTerm(ts, 0) && r == TopTerm(ts, 1)
    ensures Handle(dx, x, nts, ts, toks)
            == Reduce(dx, nts, Below(ts, 2), if x.OrC? then Term.OrC(l, r) else Term.OrD(l, r), toks)
  {
  }

  lemma OrElseEncodes(env: Env, x: NonTerm, ts: seq<Term>, l: Term, r: Term)
    requires (x.OrC? || x.OrD?) && |ts| >= 2 && l == TopTerm(ts, 0) && r == TopTerm(ts, 1)
    ensures Encode(env, l) + Local(env, x, Below(ts, 1))
            == Encode(env, if x.OrC? then Term.OrC(l, r) else Term.OrD(l, r))
  {
    assert TopTerm(Below(ts, 1), 0) == r;
    var a, b := Encode(env, l), Encode(env, r);
    var op := if x.OrC? then [Op(OpNotIf)] else [Op(OpIfDup), Op(OpNotIf)];
    Assoc(a, op + b, [Op(OpEndIf)]);
    Assoc(a, op, b);
  }

  lemma StepOrElseSame(dx: Dx, x: NonTerm, nts: seq<NonTerm>, ts: seq<Term>, toks: seq<Token>)
    requires (x.OrC? || x.OrD?) && |ts| >= 2 && Waits(nts, |ts| - 2)
    ensures StepSame(dx, x, nts, ts, toks)
  {
    var l, r := TopTerm(ts, 0), TopTerm(ts, 1);
    OrElseEncodes(dx.env, x, ts, l, r);
    OrElseReduces(dx, x, nts, ts, toks, l, r);
    ReduceInPlace(dx, nts, x, ts, Below(ts, 2), toks, if x.OrC? then Term.OrC(l, r) else Term.OrD(l, r));
  }

  lemma OrISame(env: Env, nts: seq<NonTerm>, ts: seq<Term>, f: seq<Token>, l: Term, r: Term)
    requires |ts| >= 2 && Waits(nts, |ts| - 2) && l == TopTerm(ts, 0) && r == TopTerm(ts, 1)
    ensures f + [Op(OpIf)] + Consumed(env, nts + [EndIfElse], ts) == f + Consumed(env, nts, Below(ts, 2) + [Term.OrI(l, r)])
  {
    assert TopTerm(Below(ts, 1), 0) == r;
    var a, b := Encode(env, l), Encode(env, r);
    Assoc([Op(OpIf)] + a, [Op(OpElse)] + b, [Op(OpEndIf)]);
    Assoc([Op(OpIf)] + a, [Op(OpElse)], b);
    ReduceSame(env, nts, EndIfElse, ts, Below(ts, 2), f, [Op(OpIf)], Term.OrI(l, r));
  }

  lemma StepOrISame(dx: Dx, nts: seq<NonTerm>, ts: seq<Term>, toks: seq<Token>)
    requires |ts| >= 2 && Waits(nts, |ts| - 2) && toks != [] && LastTok(toks) == Op(OpIf)
    ensures StepSame(dx, EndIfElse, nts, ts, toks)
  {
    var l, r, f := TopTerm(ts, 0), TopTerm(ts, 1), Front(toks);
    FrontLast(toks);
    OrISame(dx.env, nts, ts, f, l, r);
    OrIReduces(dx, nts, ts, toks, l, r);
    ReduceStep(dx, nts, EndIfElse, ts, Below(ts, 2), toks, f, Term.OrI(l, r));
  }

  lemma OrIReduces(dx: Dx, nts: seq<NonTerm>, ts: seq<Term>, toks: seq<Token>, l: Term, r: Term)
    requires |ts| >= 2 && toks != [] && LastTok(toks) == Op(OpIf) && l == TopTerm(ts, 0) && r == TopTerm(ts, 1)
    ensures Handle(dx, EndIfElse, nts, ts, toks) == Reduce(dx, nts, Below(ts, 2), Term.OrI(l, r), Front(toks))
  {
  }

  lemma StepAndOrSame(dx: Dx, nts: seq<NonTerm>, ts: seq<Term>, toks: seq<Token>)
    requires |ts| >= 3 && Waits(nts, |ts| - 3)
    ensures StepSame(dx, Tern, nts, ts, toks)
  {
    var a, b, c := TopTerm(ts, 0), TopTerm(ts, 2), TopTerm(ts, 1);
    assert TopTerm(Below(ts, 1), 0) == c && TopTerm(Below(ts, 1), 1) == b;
    AndOrTokens(Encode(dx.env, a), Encode(dx.env, b), Encode(dx.env, c));
    ReduceInPlace(dx, nts, Tern, ts, Below(ts, 3), toks, Term.AndOr(a, b, c));
  }

  lemma StepThreshEnd(dx: Dx, x: NonTerm, nts: seq<NonTerm>, ts: seq<Term>, toks: seq<Token>)
    requires x.ThreshE? && 1 <= x.n <= |ts| && Waits(nts, |ts| - x.n)
    ensures StepSame(dx, x, nts, ts, toks)
  {
    var subs := LastTerms(ts, x.n);
    LastTermsNext(ts, x.n);
    assert subs[1..] == LastTerms(Below(ts, 1), Pops(x));
    var a, b, c := Encode(dx.env, TopTerm(ts, 0)), EncodeAdds(dx.env, subs[1..]), [Num(x.k), Op(OpEqual)];
    Assoc(a, b, c);
    if ValidThreshold(x.k, x.n, 0) {
      ReduceInPlace(dx, nts, x, ts, Below(ts, x.n), toks, Term.Thresh(x.k, subs));
    }
  }
}
