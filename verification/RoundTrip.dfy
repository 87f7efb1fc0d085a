/** Decoding, interpreting and running a script agree. */
module RoundTrip {
  import opened Bytes
  import opened Script
  import opened Ord
  import opened Envelope
  import opened Terms
  import opened Types
  import opened Interp
  import opened Compile
  import opened Compiler
  import opened Agreement
  import opened Decoder
  import opened DecoderSound
  import opened DecoderShift
  import opened DecoderSoundness
  import opened DecoderLoop
  import opened Canonical
  import opened CanonMeaning
  import opened DecoderComplete

  /** Decodes a whole script: the term must be of base B, and no token may be
      left over. */
  method DecodeWhole(dx: Dx, toks: seq<Token>) returns (r: Option<Term>)
    ensures r == DecodeScript(dx, toks)
  {
    var tokens := new TokenIter(toks);
    var d := Decode(dx, tokens);
    if d.Bad? || !HasBase(d.value, B) { return None; }
    var leading := tokens.Next();
    r := if leading.Some? then None else Some(d.value);
  }

  /** The interpreter, given the term decoded from a script, the template hash
      and the strict lock times, is satisfied by a witness exactly when a node
      accepts the witness for that script. */
  lemma InterpretDecoded(dx: Dx, toks: seq<Token>, t: Term, wit: seq<Bytes>)
    requires Real(dx.env) && ValidTokens(toks) && |Spread(toks)| <= MAX_BLOCK_WEIGHT
    requires DecodeScript(dx, toks) == Some(t)
    ensures Satisfies(Knowing(Strict(dx.env)), t, wit) <==> Small(wit) && Accepts(dx.env, Flatten(toks), wit)
  {
    DecodeSound(dx, toks);
    DecodeRoundTrip(dx, toks);
    NodeExactly(dx.env, t, wit);
  }

  /** Where a node enforces lock times, a witness that the interpreter is
      satisfied by for the decoded term is accepted for the script itself. */
  lemma DecodedSound(cx: Context, dx: Dx, toks: seq<Token>, t: Term, wit: seq<Bytes>)
    requires Real(cx.env) && TimelocksEnforced(cx.env) && Honest(cx) && dx.env == cx.env
    requires ValidTokens(toks) && |Spread(toks)| <= MAX_BLOCK_WEIGHT && DecodeScript(dx, toks) == Some(t)
    requires Satisfies(cx, t, wit)
    ensures Accepts(cx.env, Flatten(toks), wit)
  {
    DecodeSound(dx, toks);
    DecodeRoundTrip(dx, toks);
    InterpreterSound(cx, t, wit);
  }

  /** Encoding a typed term without inscriptions and decoding the script again
      gives, unless a check rejects it, a term that the interpreter evaluates
      exactly as the first one. */
  lemma DecodedMeansSame(cx: Context, dx: Dx, t: Term, s: Interp.Stack)
    requires Sane(dx.env) && dx.env == cx.env && WellFormed(dx.env, t) && HasBase(t, B) && Free(t)
    ensures var u := DecodeScript(dx, Encode(dx.env, t));
            if AllAccepted(dx, Canon(dx.env, t)) then u.Some? && Eval(cx, u.value, s) == Eval(cx, t, s) else u.None?
  {
    DecodeComplete(dx, t);
    CanonEval(cx, t, s);
  }

  /** However envelopes are discovered, what is read from a script is what the
      script encodes: any inscriptions with that encoding have the same fields. */
  lemma ParsedInscriptions(dx: Dx, script: seq<Instr>, ins: seq<Ord.Inscription>)
    requires ParseInscriptions(dx, script).Good?
    ensures RevealScripts(ins) == script <==> AllSameFields(ins, ParseInscriptions(dx, script).value)
  {
    EnvelopesDecide(ins, ParseInscriptions(dx, script).value);
  }
}
