/** CHECKMULTISIG: the matching loop finds an assignment of signatures to keys
    whenever there is one, and the interpreter's key-by-key evaluation agrees. */
module Multisig {
  import opened Bytes
  import opened Script
  import opened Terms
  import opened Interp
  import opened Compile

  // ----- greedy matching is complete -----

  /** `f` assigns to each signature a key that accepts it, in the keys' order. */
  predicate IsMatching(env: Env, keys: seq<Bytes>, sigs: seq<Bytes>, f: seq<nat>) {
    && |f| == |sigs|
    && (forall i, j :: 0 <= i < j < |f| ==> f[i] < f[j])
    && (forall i :: 0 <= i < |f| ==> f[i] < |keys| && env.sigOk(keys[f[i]], sigs[i]))
  }

  lemma {:induction false} MatchingExists(env: Env, keys: seq<Bytes>, sigs: seq<Bytes>) returns (f: seq<nat>)
    requires MatchSigs(env, keys, sigs)
    ensures IsMatching(env, keys, sigs, f)
    decreases |keys|
  {
    if sigs == [] {
      f := [];
    } else if env.sigOk(Top(keys), Top(sigs)) {
      f := MatchingExists(env, Rest(keys), Rest(sigs));
      f := f + [|keys| - 1];
    } else {
      f := MatchingExists(env, Rest(keys), sigs);
    }
  }

  /** A strictly increasing sequence has room for its length. */
  lemma {:induction false} IncreasingBound(f: seq<nat>, i: nat)
    requires forall i, j :: 0 <= i < j < |f| ==> f[i] < f[j]
    requires i < |f|
    ensures i <= f[i]
  {
    if i > 0 { IncreasingBound(f, i - 1); }
  }

  lemma {:induction false} MatchingFound(env: Env, keys: seq<Bytes>, sigs: seq<Bytes>, f: seq<nat>)
    requires IsMatching(env, keys, sigs, f)
    ensures MatchSigs(env, keys, sigs)
    decreases |keys|
  {
    if sigs != [] {
      var last := |f| - 1;
      IncreasingBound(f, last);
      if env.sigOk(Top(keys), Top(sigs)) {
        MatchingFound(env, Rest(keys), Rest(sigs), f[..last]);
      } else {
        assert f[last] != |keys| - 1;
        MatchingFound(env, Rest(keys), sigs, f);
      }
    }
  }

  /** The matching loop succeeds exactly when the signatures can be assigned to
      keys in order. */
  lemma GreedyComplete(env: Env, keys: seq<Bytes>, sigs: seq<Bytes>)
    ensures MatchSigs(env, keys, sigs) <==> exists f :: IsMatching(env, keys, sigs, f)
  {
    if MatchSigs(env, keys, sigs) {
      var f := MatchingExists(env, keys, sigs);
    }
    if exists f :: IsMatching(env, keys, sigs, f) {
      var f :| IsMatching(env, keys, sigs, f);
      MatchingFound(env, keys, sigs, f);
    }
  }

  lemma {:induction false} NoMatch(env: Env, keys: seq<Bytes>, sigs: seq<Bytes>)
    requires Sane(env) && sigs != [] && |Top(sigs)| <= 1
    ensures !MatchSigs(env, keys, sigs)
    decreases |keys|
  {
    if |sigs| <= |keys| {
      NoMatch(env, Rest(keys), sigs);
    }
  }

  // ----- the interpreter's `multi` -----

  /** `multi` after `nEval` keys, counted from the last one: `ks` are the keys
      left, `rs` the signatures left on the stack, above the dummy `d`. */
  ghost predicate MultiMid(t: Term, nEval: nat, nSat: nat, ks: seq<Bytes>, rs: seq<Bytes>) {
    && t.Multi? && 1 <= t.k && nEval <= |t.keys| && nSat <= t.k
    && ks == t.keys[..|t.keys| - nEval] && |rs| == t.k - nSat
    && (nEval == 0 ==> nSat == 0 && rs != [] && FromBytes(Top(rs)) != Dissatisfied)
  }

  function MultiStack(base: Interp.Stack, d: Element, rs: seq<Bytes>): Interp.Stack {
    base + [d] + Abs(rs)
  }

  lemma MultiStackTop(base: Interp.Stack, d: Element, rs: seq<Bytes>)
    ensures MultiStack(base, d, rs) != []
    ensures rs == [] ==> Peek(MultiStack(base, d, rs)) == d && Drop1(MultiStack(base, d, rs)) == base
    ensures rs != [] ==> Peek(MultiStack(base, d, rs)) == FromBytes(Top(rs))
                         && Drop1(MultiStack(base, d, rs)) == MultiStack(base, d, Rest(rs))
  {
    if rs != [] {
      AbsRest(rs);
      assert Abs(rs) == Abs(Rest(rs)) + [FromBytes(Top(rs))];
    }
  }

  /** The visit of a key while signatures are left. */
  lemma MultiVisitKey(cx: Context, t: Term, nEval: nat, nSat: nat, base: Interp.Stack, d: Element, ks: seq<Bytes>, rs: seq<Bytes>)
    requires MultiMid(t, nEval, nSat, ks, rs) && rs != [] && ks != []
    ensures MultiVisit(cx, t, nEval, nSat, MultiStack(base, d, rs)) ==
            MultiKey(cx, Top(ks), nSat, MultiStack(base, d, rs))
  {
    MultiStackTop(base, d, rs);
  }

  /** The visits after one that went on to the next key. */
  lemma MultiGoesOn(cx: Context, t: Term, nEval: nat, next: nat, nSat: nat, s: Interp.Stack, m: MultiStep)
    requires t.Multi? && nEval < |t.keys| && next == nEval + 1
    requires m == MultiVisit(cx, t, nEval, nSat, s) && m.NextKey?
    ensures EvalMulti(cx, t, nEval, nSat, s).out == EvalMulti(cx, t, next, m.nSat, m.stack).out
  {
  }

  /** No signature or no key is left. */
  lemma MultiEnds(cx: Context, t: Term, nEval: nat, nSat: nat, base: Interp.Stack, d: Element, ks: seq<Bytes>, rs: seq<Bytes>)
    requires MultiMid(t, nEval, nSat, ks, rs) && (rs == [] || ks == [])
    ensures var out := EvalMulti(cx, t, nEval, nSat, MultiStack(base, d, rs)).out;
            && (out.Done? <==> d == Dissatisfied && MatchSigs(cx.env, ks, rs))
            && (out.Done? ==> out.stack == base + [Satisfied])
  {
    MultiStackTop(base, d, rs);
  }

  /** A key that verifies the signature on top. */
  lemma KeyTakes(cx: Context, t: Term, nEval: nat, next: nat, nSat: nat, base: Interp.Stack, d: Element, ks: seq<Bytes>, rs: seq<Bytes>)
    requires MultiMid(t, nEval, nSat, ks, rs) && rs != [] && ks != [] && next == nEval + 1
    requires FromBytes(Top(rs)).Push? && cx.env.sigOk(Top(ks), Top(rs))
    ensures EvalMulti(cx, t, nEval, nSat, MultiStack(base, d, rs)).out ==
            EvalMulti(cx, t, next, nSat + 1, MultiStack(base, d, Rest(rs))).out
  {
    MultiStackTop(base, d, rs);
    MultiVisitKey(cx, t, nEval, nSat, base, d, ks, rs);
    MultiGoesOn(cx, t, nEval, next, nSat, MultiStack(base, d, rs), MultiVisit(cx, t, nEval, nSat, MultiStack(base, d, rs)));
  }

  /** A key that does not. */
  lemma KeySkips(cx: Context, t: Term, nEval: nat, next: nat, nSat: nat, base: Interp.Stack, d: Element, ks: seq<Bytes>, rs: seq<Bytes>)
    requires MultiMid(t, nEval, nSat, ks, rs) && rs != [] && ks != [] && next == nEval + 1
    requires FromBytes(Top(rs)).Push? && !cx.env.sigOk(Top(ks), Top(rs))
    ensures EvalMulti(cx, t, nEval, nSat, MultiStack(base, d, rs)).out ==
            EvalMulti(cx, t, next, nSat, MultiStack(base, d, rs)).out
  {
    MultiStackTop(base, d, rs);
    MultiVisitKey(cx, t, nEval, nSat, base, d, ks, rs);
    MultiGoesOn(cx, t, nEval, next, nSat, MultiStack(base, d, rs), MultiVisit(cx, t, nEval, nSat, MultiStack(base, d, rs)));
  }

  /** A boolean where a signature is expected. */
  lemma NoSignature(cx: Context, t: Term, nEval: nat, nSat: nat, base: Interp.Stack, d: Element, ks: seq<Bytes>, rs: seq<Bytes>)
    requires Sane(cx.env) && MultiMid(t, nEval, nSat, ks, rs) && rs != [] && ks != [] && !FromBytes(Top(rs)).Push?
    ensures EvalMulti(cx, t, nEval, nSat, MultiStack(base, d, rs)).out.Failed? && !MatchSigs(cx.env, ks, rs)
  {
    MultiStackTop(base, d, rs);
    MultiVisitKey(cx, t, nEval, nSat, base, d, ks, rs);
    NoMatch(cx.env, ks, rs);
  }

  lemma {:induction false} MultiGreedy(cx: Context, t: Term, nEval: nat, nSat: nat, base: Interp.Stack, d: Element, ks: seq<Bytes>, rs: seq<Bytes>)
    requires Sane(cx.env) && MultiMid(t, nEval, nSat, ks, rs)
    ensures var out := EvalMulti(cx, t, nEval, nSat, MultiStack(base, d, rs)).out;
            && (out.Done? <==> d == Dissatisfied && MatchSigs(cx.env, ks, rs))
            && (out.Done? ==> out.stack == base + [Satisfied])
    decreases |t.keys| - nEval
  {
    var next := nEval + 1;
    if rs == [] || ks == [] {
      MultiEnds(cx, t, nEval, nSat, base, d, ks, rs);
    } else if !FromBytes(Top(rs)).Push? {
      NoSignature(cx, t, nEval, nSat, base, d, ks, rs);
    } else if cx.env.sigOk(Top(ks), Top(rs)) {
      KeyTakes(cx, t, nEval, next, nSat, base, d, ks, rs);
      MultiGreedy(cx, t, next, nSat + 1, base, d, Rest(ks), Rest(rs));
    } else {
      KeySkips(cx, t, nEval, next, nSat, base, d, ks, rs);
      MultiGreedy(cx, t, next, nSat, base, d, Rest(ks), rs);
    }
  }

  predicate AllEmpty(sigs: seq<Bytes>) {
    forall i :: 0 <= i < |sigs| ==> sigs[i] == []
  }

  /** What `multi` does with a dummy and k signatures. */
  function MultiOutcome(cx: Context, t: Term, base: seq<Bytes>, dummy: Bytes, sigs: seq<Bytes>): Option<bool>
    requires t.Multi?
  {
    if dummy != [] then None
    else if MatchSigs(cx.env, t.keys, sigs) then Some(true)
    else if AllEmpty(sigs) then Some(false)
    else None
  }

  /** The whole of `multi`: satisfied by a matching above a zero dummy,
      dissatisfied by zeroes, and an error otherwise. */
  lemma MultiWhole(cx: Context, t: Term, base: seq<Bytes>, dummy: Bytes, sigs: seq<Bytes>)
    requires Sane(cx.env) && t.Multi? && ValidThreshold(t.k, |t.keys|, MAX_PUBKEYS_PER_MULTISIG) && |sigs| == t.k
    ensures var out := Eval(cx, t, Abs(base + [dummy] + sigs)).out;
            match MultiOutcome(cx, t, base, dummy, sigs)
            case Some(b) => out == Done(Abs(base) + [FromBool(b)])
            case None => out.Failed?
  {
    var s := Abs(base + [dummy] + sigs);
    AbsConcat(base + [dummy], sigs);
    AbsConcat(base, [dummy]);
    assert Abs([dummy]) == [FromBytes(dummy)];
    assert s == MultiStack(Abs(base), FromBytes(dummy), sigs);
    MultiStackTop(Abs(base), FromBytes(dummy), sigs);
    if Top(sigs) != [] {
      assert t.keys[..|t.keys| - 0] == t.keys;
      MultiGreedy(cx, t, 0, 0, Abs(base), FromBytes(dummy), t.keys, sigs);
      assert !AllEmpty(sigs) by { assert sigs[|sigs| - 1] != []; }
    } else {
      NoMatch(cx.env, t.keys, sigs);
      MultiZeroes(base, dummy, sigs);
      assert s[..|s| - (t.k + 1)] == Abs(base);
    }
  }

  lemma MultiZeroes(base: seq<Bytes>, dummy: Bytes, sigs: seq<Bytes>)
    ensures var s := Abs(base + [dummy] + sigs);
            (forall i :: |base| <= i < |s| ==> s[i] == Dissatisfied) <==> dummy == [] && AllEmpty(sigs)
  {
    var s := Abs(base + [dummy] + sigs);
    assert s[|base|] == FromBytes(dummy);
    assert forall i :: 0 <= i < |sigs| ==> s[|base| + 1 + i] == FromBytes(sigs[i]);
    if dummy == [] && AllEmpty(sigs) {
      forall i | |base| < i < |s|
        ensures s[i] == Dissatisfied
      {
        assert s[i] == FromBytes(sigs[i - |base| - 1]);
      }
    }
  }

  /** CHECKMULTISIG takes the keys first... */
  lemma ScriptMultiKeys(env: Env, t: Term, main: seq<Bytes>)
    requires t.Multi? && WellFormed(env, t) && main != []
    ensures CheckMultiSig(env, main + t.keys + [EncodeNum(|t.keys|)]) == CheckMultiSigKeys(env, t.keys, main)
  {
    var n := |t.keys|;
    var all := main + t.keys + [EncodeNum(n)];
    NumRoundTrip(n);
    assert Top(all) == EncodeNum(n);
    assert all[|all| - 1 - n..|all| - 1] == t.keys;
    assert all[..|all| - 1 - n] == main;
  }

  /** ...and then the signatures and the dummy. */
  lemma ScriptMultiSigs(cx: Context, t: Term, base: seq<Bytes>, dummy: Bytes, sigs: seq<Bytes>)
    requires t.Multi? && WellFormed(cx.env, t) && |sigs| == t.k
    ensures CheckMultiSigKeys(cx.env, t.keys, base + [dummy] + sigs + [EncodeNum(t.k)]) ==
            match MultiOutcome(cx, t, base, dummy, sigs)
            case Some(b) => Some(base + [BoolBytes(b)])
            case None => None
  {
    var main := base + [dummy] + sigs + [EncodeNum(t.k)];
    NumRoundTrip(t.k);
    assert Top(main) == EncodeNum(t.k);
    assert main[|main| - 1 - t.k..|main| - 1] == sigs;
    assert main[..|main| - 1 - t.k] == base + [dummy];
    assert Rest(base + [dummy]) == base;
  }

  lemma ScriptMultiShort(env: Env, t: Term, main: seq<Bytes>)
    requires t.Multi? && WellFormed(env, t) && |main| < t.k + 1
    ensures CheckMultiSigKeys(env, t.keys, main + [EncodeNum(t.k)]) == None
  {
    NumRoundTrip(t.k);
    assert Top(main + [EncodeNum(t.k)]) == EncodeNum(t.k);
  }
}
