# Miniscript: language, decoder, interpreter and parsers

A Dafny 4.11 model of the parts of this repository in which Miniscript gets its
meaning, with proofs about them. `dafny verify dfyconfig.toml` checks everything.

## What is modelled

* **The language.** Terms with all fragments, including inscription envelopes and
  template commitments (`Terms`), their type rules as in the section "Type
  System" of BIP 379 (`Types`), and a Script machine with main stack, alt stack
  and IF/NOTIF/ELSE/ENDIF conditions (`Script`). Signature checks, hash functions
  and the spending transaction are parameters, collected in the record `Env`.
* **Three meanings of a term.** The encoder (`Terms.EncodeTo`) is an imperative
  method proved against the function `Encode`. The interpreter is an iterator
  class over a mutable element stack and a stack of partly evaluated nodes
  (`Interpreter`); it refines a step machine (`Machine`, `Refinement`), which
  refines a recursive evaluator (`Interp.Eval`). `Compile` to `Agreement` compare
  the evaluator with the machine running the encoded script; `Policy` compares it
  with the monotone formula a term stands for.
* **The decoder.** A shift-reduce automaton over tokens with two stacks, as a
  function (`Decoder`) and as a loop over two mutable stacks and a token iterator
  (`DecoderLoop`). What it accepts and returns is characterized exactly
  (`Canonical`). The checks made on every sub-term are an arbitrary predicate
  `accepts`, so the results hold for every script context.
* **Expression trees.** The validating first pass (`PreCheck`), the arena builder
  (`Arena`) and navigation by links (`ArenaLinks`), against the grammar
  (`Expression`).
* **Around them.** The tree iterators (`TreeIter`), equality and hashing of terms
  (`TermEquality`), the BIP 380 checksum (`Checksum`), extended keys and BIP 389
  paths (`Keys`, `KeyPaths`), and the inscription envelope encoder (`Envelope`).

Stacks, vectors and buffers that the code mutates are fields of classes or local
variables of methods; each such method is proved against a function of its
inputs, and the lemmas are about those functions.

## Findings

* The interpreter's `after` ignores that the input is final, and its `older`
  ignores the transaction version (src/interpreter/stack.rs:205-248), so it can be
  satisfied by what a node refuses under BIP 65 or BIP 112. `Agreement.FinalInput`
  and `Agreement.OldVersion` give the terms. `Agreement.SoundExactly` proves that
  this and a wrong template hash are the only ways to be misled, and
  `Agreement.NodeExactly` gives the lock times that make the interpreter exact for
  every transaction.
* `==` on terms ignores k and n of `thresh` and stops at the end of the shorter
  pre-order (src/miniscript/decode.rs:236-265), while hashing includes them
  (src/miniscript/decode.rs:285-289). `TermEquality.DifferentButEqual` gives equal
  terms with different hashes; `TermEquality.EqualExactly` and
  `TermEquality.HashAgrees` say exactly when this happens.
* `skip_descendants` before any item has been yielded is documented to skip the
  entire iterator (src/expression/mod.rs:95-96). For the iterator of a subtree
  whose root is neither the whole tree's root nor a first child it skips nothing,
  and for a first child with siblings to its right the debug assertion that the
  range is not left fails (src/expression/mod.rs:108).
  `ArenaLinks.PreOrderIter.SkipAtStart` gives both conditions exactly, and
  `ArenaLinks.PairSkips` the trees: `c` and `b` in `a(b,c)`.
* Several derivation paths that are printed do not come back when the first two
  agree, when the paths differ in more than one step, or when their lengths differ
  (src/descriptor/key.rs:613-628). `KeyPaths.PathsLost` starts from paths the parser
  itself returns, for `<0;0;1>`; `KeyPaths.StepsLost` from paths of two lengths.
  `KeyPaths.PrintParseExactly` gives the exact condition for the round trip, for all
  lists of paths.

## Model

| member | source | states |
|---|---|---|
| `Terms.EncodeTo` | src/miniscript/astelem.rs:38-196 | the encoder, passing its builder along and looping over keys and children, appends exactly the term's script |
| `Interpreter.Stack.EvaluatePk` | src/interpreter/stack.rs:108-134 | a key check on the mutable stack leaves the stack and reports as the evaluator says, including every error case |
| `Interpreter.Stack.EvaluatePkH` | src/interpreter/stack.rs:142-196 | the same for a key hash, whose key comes from the stack |
| `Interpreter.Stack.EvaluateAfter` | src/interpreter/stack.rs:205-224 | the same for absolute lock times of either unit |
| `Interpreter.Stack.EvaluateOlder` | src/interpreter/stack.rs:232-248 | the same for relative lock times |
| `Interpreter.Stack.EvaluateHash` | src/interpreter/stack.rs:252-348 | the same for the four hash locks |
| `Interpreter.Stack.EvaluateMulti` | src/interpreter/stack.rs:356-377 | the same for one key of CHECKMULTISIG, which leaves a signature in place when it does not match |
| `Interpreter.Iter.VisitMulti` | src/interpreter/mod.rs:943-1021 | visiting a CHECKMULTISIG node: all zeroes, the next key, or the end, with the new node state |
| `Interpreter.Iter.VisitThresh` | src/interpreter/mod.rs:845-901 | visiting a threshold node pushes the next child with the right counters |
| `Interpreter.Iter.Visit` | src/interpreter/mod.rs:590-1021 | one turn of the loop does to the state stack and the element stack what the step machine says, for every fragment |
| `Interpreter.Iter.IterNext` | src/interpreter/mod.rs:588-1053 | the loop reports the next constraint, or error, of the run that is left, and leaves the rest of that run |
| `Interpreter.Iter.Next` | src/interpreter/mod.rs:558-569 | the iterator yields the run's constraints one by one, its error last, and nothing after an error |
| `Machine.VisitProgress` | src/interpreter/mod.rs:588-1026 | every step makes the pending work smaller, so stepping ends |
| `Refinement.RunFresh` | src/interpreter/mod.rs:588-1026 | from any state stack with a fresh node on top, stepping removes that node and continues with the stack, constraints or error of the recursive evaluator |
| `Refinement.RunScript` | src/interpreter/mod.rs:588-1053 | a whole run of the machine is the evaluator's result followed by the check for one satisfied element |
| `Frame.FrameOk` | src/interpreter/mod.rs:590-1021 | elements underneath a successful evaluation change neither its result nor its constraints |
| `Frame.StackEffect` | src/interpreter/mod.rs:590-1021 | a typed B, K or W term takes a top part of the stack and leaves one boolean, a V term only takes |
| `Frame.LocalEval` | src/interpreter/mod.rs:590-1021 | a term whose type announces how many elements it takes sees no others, even when it fails |
| `Multisig.GreedyComplete` | src/interpreter/mod.rs:943-1021 | the greedy matching of CHECKMULTISIG succeeds exactly when the signatures can be assigned to the keys in order |
| `Multisig.MultiWhole` | src/interpreter/mod.rs:943-1021 | `multi` is satisfied by such an assignment above a zero dummy, dissatisfied by zeroes, and an error otherwise |
| `Policy.MultiAExact` | src/interpreter/mod.rs:902-942 | `multi_a` takes one element for each key and is satisfied exactly when k of them are valid signatures and the others empty |
| `Policy.ThreshExact` | src/interpreter/mod.rs:845-901 | `thresh` is satisfied exactly when k of its members are, no more |
| `Policy.EmitsValid` | src/interpreter/mod.rs:588-1053 | every constraint a run reports has been checked and is true, whether or not the run fails later |
| `Policy.PolicySound` | src/interpreter/mod.rs:588-1053 | a satisfied evaluation of a typed term makes the term's AND/OR/threshold formula true from the constraints it reported |
| `Policy.SatisfiedPolicy` | src/interpreter/mod.rs:588-1053 | when a run ends without an error, its constraints are true and make the formula true |
| `Policy.Monotone` | src/interpreter/mod.rs:588-1053 | more constraints never make the formula false |
| `Skipping.EnvelopeNoop` | src/ord/mod.rs:88-110 | running an envelope changes nothing, executed or skipped |
| `Skipping.PayloadSmall` | src/ord/mod.rs:59-81 | every push of a validated inscription's envelope is at most 520 bytes |
| `Skipping.SkipTerm` | src/miniscript/astelem.rs:38-196 | the script of any term is passed over in a branch that is not taken |
| `Compiler.SimExpr` | src/miniscript/astelem.rs:38-196 | on any machine state, the script of a typed term mirrors the term's evaluation: same success, same part of the stack consumed, corresponding result |
| `Compiler.SimW` | src/miniscript/astelem.rs:38-196 | the same for W fragments, next to the element they work around |
| `Compiler.CompilerCorrect` | src/miniscript/astelem.rs:38-196 | told the template hash, and where a node enforces lock times, the interpreter is satisfied by exactly the witnesses the script accepts and fails exactly when the script does |
| `Contexts.CutEval` | src/interpreter/mod.rs:154-162 | without the template hash a run is the run with it, cut off at the first executed template; all else is unaffected |
| `Contexts.SameEval` | src/interpreter/mod.rs:154-162 | a term without templates evaluates alike whatever template the interpreter is told, if any |
| `Contexts.LenientEval` | src/interpreter/stack.rs:205-248 | a run that succeeds still succeeds, identically, when more lock times or templates are met |
| `Sizes.KeptEval` | src/interpreter/mod.rs:590-1021 | a successful evaluation never takes an oversized element off the stack |
| `Agreement.NodeExactly` | src/interpreter/mod.rs:588-1053 | for every transaction and every witness, a node accepts exactly when the interpreter, given the template hash and adjusted lock times, is satisfied |
| `Agreement.NeverRefused` | src/interpreter/mod.rs:588-1053 | for every transaction, an interpreter that knows the template hash is satisfied by all that a node accepts |
| `Agreement.InterpreterSound` | src/interpreter/mod.rs:143-162 | with or without the template hash, a satisfied interpreter means the node accepts, where lock times are enforced |
| `Agreement.DefaultAgrees` | src/interpreter/mod.rs:143-152 | the interpreter as constructed, without a template hash, agrees with the node on all witnesses except those that use a template |
| `Agreement.UnmentionedAgrees` | src/interpreter/mod.rs:154-162 | for terms without a template the two agree whatever template the interpreter was told, if any |
| `Agreement.IteratorCorrect` | src/interpreter/mod.rs:552-1053 | the iterator yields the evaluation's constraints, and ending without an error means the node accepts; with the hash also conversely |
| `Agreement.CleanEnd` | src/miniscript/astelem.rs:38-196 | a script that does not fail closes its branches, empties the alt stack and takes only from the top of the witness |
| `Agreement.SoundExactly` | src/interpreter/stack.rs:205-248 | the interpreter is never satisfied by what a node refuses if and only if lock times are enforced and it was told no wrong template |
| `Agreement.CompleteExactly` | src/interpreter/mod.rs:154-162 | it is satisfied by all that a node accepts if and only if it knows the template hash |
| `Agreement.FinalInput` | src/interpreter/stack.rs:205-224 | for a final input with a lock time there is a term that satisfies the interpreter and that a node refuses |
| `Agreement.OldVersion` | src/interpreter/stack.rs:232-248 | the same below transaction version 2 |
| `DecoderLoop.Decode` | src/miniscript/decode.rs:358-734 | the loop over two mutable stacks computes the automaton's result, leaves the unread tokens, and never pops an empty stack |
| `DecoderLoop.TakeEnvelopes` | src/miniscript/decode.rs:736-745 | inscriptions are taken in script order although tokens come from the end |
| `DecoderLoop.TakeMultiKeys` | src/miniscript/decode.rs:548-568 | the keys of CHECKMULTISIG are returned in script order |
| `DecoderLoop.HandleNonTerm` | src/miniscript/decode.rs:364-733 | one turn of the decoder's loop pushes and pops as the automaton's transition says |
| `DecoderSound.StepFits` | src/miniscript/decode.rs:364-733 | every transition keeps as many terms on the stack as the nonterminals will pop |
| `Decoder.StepProgress` | src/miniscript/decode.rs:364-733 | every transition consumes tokens or lowers the phase, so decoding ends |
| `DecoderSoundness.StepInvariant` | src/miniscript/decode.rs:364-733 | every transition keeps: unread tokens followed by what the two stacks stand for are the input's tokens |
| `DecoderSoundness.DecodeSound` | src/miniscript/decode.rs:358-734 | whenever decoding succeeds, the consumed tokens are the tokens of the returned term's script, and the term is well-formed |
| `DecoderSoundness.DecodeRoundTrip` | fuzz/fuzz_targets/roundtrip_miniscript_script.rs:11-15 | a decoded script is encoded back to the same instructions |
| `DecoderComplete.RunSequence` | src/miniscript/decode.rs:364-756 | from any stacks, the tokens of a canonical term are reduced to that term, unless a check rejects a part of it |
| `Canonical.CanonEncodes` | src/miniscript/astelem.rs:38-196 | a term and its canonical form have the same script |
| `Canonical.CanonType` | src/miniscript/decode.rs:364-756 | a typed term and its canonical form have the same type |
| `Canonical.DecodeComplete` | src/miniscript/decode.rs:358-756 | the script of any typed term without inscriptions decodes to its canonical form, unless a check rejects part of that form |
| `Canonical.TypedDecodes` | src/miniscript/decode.rs:358-756 | the type check rejects no part, so with checks that pass typed terms decoding always succeeds |
| `Canonical.DecodeExactly` | src/miniscript/decode.rs:358-756 | exactly which scripts without envelopes decode, and to what |
| `Canonical.CanonicalUnique` | src/miniscript/decode.rs:358-756 | scripts tell canonical terms apart |
| `CanonMeaning.CanonEval` | src/miniscript/decode.rs:364-756 | a term and its canonical form evaluate identically on every stack, for every transaction, typed or not |
| `RoundTrip.DecodeWhole` | src/miniscript/decode.rs:358-734 | decoding a whole script: base B and no token left over |
| `RoundTrip.InterpretDecoded` | src/interpreter/mod.rs:143-152 | interpreting the term decoded from a script decides what a node decides about the script itself |
| `RoundTrip.DecodedSound` | src/interpreter/mod.rs:143-162 | with or without the template hash, a witness that satisfies the decoded term is accepted for the script, where lock times are enforced |
| `RoundTrip.DecodedMeansSame` | src/miniscript/decode.rs:358-756 | encoding and decoding gives a term that evaluates exactly as the first one |
| `RoundTrip.ParsedInscriptions` | src/ord/mod.rs:129-153 | however envelopes are discovered, inscriptions encode to the parsed script exactly when they have the parsed fields |
| `Envelope.EncodeField` | src/ord/tag.rs:40-59 | one field: nothing, tag and value, or tag and chunk for every chunk |
| `Envelope.AppendRevealScriptToBuilder` | src/ord/mod.rs:88-110 | the builder gets exactly one envelope appended, fields in their fixed order and the body in chunks |
| `Envelope.JoinChunks` | src/ord/mod.rs:102-107 | joining the chunks of a body or of metadata restores the bytes |
| `Envelope.PayloadDecides` | src/ord/mod.rs:88-110 | equal pushes mean equal fields, all but the three flags, and conversely |
| `Envelope.EnvelopesDecide` | src/ord/mod.rs:129-153 | a script of envelopes determines how many inscriptions it holds and the fields of each |
| `Expression.ParseExactly` | src/expression/mod.rs:9-17 | a string denotes a tree exactly when the tree's names are free of brackets and commas and the string is how it is written |
| `Expression.ViableExactly` | src/expression/mod.rs:9-17 | a prefix is readable exactly when something can follow it to make an expression |
| `PreCheck.Scan` | src/expression/mod.rs:516-599 | the first pass succeeds with the tree's depth and number of nodes, or explains its error |
| `PreCheck.ParsePreCheck` | src/expression/mod.rs:510-600 | after the checksum, it accepts exactly the expressions of depth at most 402 |
| `PreCheck.ErrorFinal` | src/expression/mod.rs:519-583 | an error that points at a character points at the first one after which no expression is possible |
| `PreCheck.ErrorsReject` | src/expression/mod.rs:519-597 | an error is only reported for strings that are no expressions, or too deep |
| `Arena.OpenBracket` | src/expression/mod.rs:634-645 | at an opening bracket there is always a pending node; it becomes a parent with one child |
| `Arena.Comma` | src/expression/mod.rs:646-657 | at a comma the finished child learns its right sibling and the parent its new last child |
| `Arena.CloseBracket` | src/expression/mod.rs:658-666 | a closing bracket completes the innermost open node |
| `Arena.Build` | src/expression/mod.rs:625-677 | the second pass never fails on what the first accepted, never exceeds its depth, makes exactly the counted nodes and lays out the tree |
| `Arena.FromStr` | src/expression/mod.rs:610-678 | parsing gives the arena of the denoted tree, or an explained error, and nothing else |
| `ArenaLinks.ArenaInvariant` | src/expression/mod.rs:214-262 | in every parsed arena nodes know their index, parents come first, the first child is next, sibling links point forward and end at the last child |
| `ArenaLinks.LinksListChildren` | src/expression/mod.rs:152-162 | following siblings from the first child lists exactly a node's children, as many as it says, ending at the last |
| `ArenaLinks.DirectChildIterator.Next` | src/expression/mod.rs:152-162 | the child iterator yields them one by one |
| `ArenaLinks.RightmostDescendantIdx` | src/expression/mod.rs:249-258 | the loop ends at the last index of the subtree's range |
| `ArenaLinks.PreOrderIter.Next` | src/expression/mod.rs:113-121 | the iterator yields the range from its front |
| `ArenaLinks.PreOrderIter.NextBack` | src/expression/mod.rs:125-131 | and from its back |
| `ArenaLinks.PreOrderIter.SkipDescendants` | src/expression/mod.rs:97-110 | after a forward step it drops exactly the descendants of the node yielded last |
| `ArenaLinks.PreOrderIter.SkipAtStart` | src/expression/mod.rs:95-110 | before any step it drops everything exactly for the root or a first child, and nothing otherwise; the debug assertions hold unless the root is a first child with siblings to its right |
| `ArenaLinks.PairSkips` | src/expression/mod.rs:95-110 | in `a(b,c)` the iterator at `c` skips nothing and the one at `b` breaks a debug assertion |
| `ArenaLinks.ParsedPrints` | src/expression/mod.rs:9-17 | printing a parsed arena by its links gives the text back |
| `TreeIter.PostOrderIter.constructor` | src/iter/tree.rs:100-106 | a new iterator will yield the tree's recursive post-order |
| `TreeIter.PostOrderIter.Next` | src/iter/tree.rs:173-210 | each call yields the next item of it, index and child indices included |
| `TreeIter.PostGood` | src/iter/tree.rs:159-168 | indices count up by one and children are yielded before their parents |
| `TreeIter.ChildIndicesYielded` | src/iter/tree.rs:159-168 | every item, inner nodes included, stands for its subtree, and entry j of its child indices is where child j of that subtree was yielded |
| `TreeIter.RtlChildren` | src/iter/tree.rs:215-258 | from right to left, entry j of every item still belongs to child j of its subtree |
| `TreeIter.FoldRebuilds` | src/iter/tree.rs:108-114 | folding the right-to-left order over a stack, popping children and pushing results, is plain recursion |
| `TreeIter.PreOrderIter.Next` | src/iter/tree.rs:279-302 | the pre-order iterator yields the recursive pre-order |
| `TermEquality.Eq` | src/miniscript/decode.rs:236-265 | the zipped loop decides whether nodes agree as far as both pre-orders go |
| `TermEquality.EqualExactly` | src/miniscript/decode.rs:236-265 | terms are identical exactly when they compare equal and thresholds at the same position have the same k and n |
| `TermEquality.EqualThreshFree` | src/miniscript/decode.rs:236-265 | comparing with a term without thresholds is exact |
| `TermEquality.FeedDecides` | src/miniscript/decode.rs:269-296 | different terms feed different data to the hasher, and none a prefix of another's |
| `TermEquality.HashAgrees` | src/miniscript/decode.rs:235-296 | equal terms feed equal data exactly when their thresholds agree |
| `TermEquality.DifferentButEqual` | src/miniscript/decode.rs:236-265 | typed thresholds with different k compare equal but feed different data |
| `Checksum.Engine.InputUnchecked` | src/descriptor/checksum.rs:161-177 | the engine's fields follow the specified state and the class accumulator stays a valid symbol |
| `Checksum.Engine.ChecksumChars` | src/descriptor/checksum.rs:180-197 | the characters spell out the final residue |
| `Checksum.VerifyChecksum` | src/descriptor/checksum.rs:94-128 | verification, with all its errors and their positions |
| `Checksum.InputConcat` | src/descriptor/checksum.rs:161-177 | feeding a string in pieces is feeding it whole |
| `Checksum.StepInjective` | src/descriptor/checksum.rs:210-222 | no step of the residue loses a difference |
| `Checksum.OneSymbol` | src/descriptor/checksum.rs:210-222 | streams that differ in one symbol end in different residues, at any length |
| `Checksum.VerifyAppended` | src/descriptor/checksum.rs:94-128 | a string, `#` and eight characters are accepted exactly when these are its checksum |
| `Checksum.VerifyOwn` | src/descriptor/checksum.rs:94-128 | a printable string with its own checksum is accepted and returned |
| `Checksum.OneErrorDetected` | src/descriptor/checksum.rs:94-128 | a string with one wrong character and the right one's checksum is refused, at any length |
| `Keys.PublicKeepsPath` | src/descriptor/key.rs:220-258 | the public version has no hardened step and the same path from the master key, for every kind of origin |
| `Keys.PublicDerives` | src/descriptor/key.rs:220-258 | its children are the public keys of the private key's children |
| `Keys.SharedLongest` | src/descriptor/key.rs:272-280 | the shared prefix is the longest common one |
| `Keys.MultiFailsExactly` | src/descriptor/key.rs:282-299 | conversion of several paths fails exactly for a hardened step beyond the shared prefix, and otherwise exactly when the private derivation fails |
| `Keys.MultiKeepsPaths` | src/descriptor/key.rs:266-339 | the hardened prefix followed by output path i is input path i, and all full paths are kept in order |
| `Keys.SingleAgrees` | src/descriptor/key.rs:220-339 | a single path converts alike as one path or as several |
| `Keys.SingleKeysKeepPaths` | src/descriptor/key.rs:884-905 | splitting into single keys keeps the full paths |
| `KeyPaths.FmtDerivationPaths` | src/descriptor/key.rs:613-628 | for every list of paths the loops write one slash and segment for every step of the first path, or stop at a path that is too short where they look at it |
| `KeyPaths.ExtendPaths` | src/descriptor/key.rs:1100-1121 | a step is appended to every path, and each further index adds a copy of the first path that ends in it |
| `KeyPaths.ParseXkeyDeriv` | src/descriptor/key.rs:1020-1127 | parsing the steps, with wildcard and multipath state and all errors |
| `KeyPaths.ParsedShape` | src/descriptor/key.rs:1033-1124 | exactly which segments are read; there is one path for each index of the multipath step, path j takes index j there and every other step from its own segment |
| `KeyPaths.PrintParseExactly` | src/descriptor/key.rs:613-628 | several paths, of any lengths, are printed and come back in order exactly when they are equally long, differ in one step only and the first two differ there |
| `KeyPaths.PathsLost` | src/descriptor/key.rs:613-628 | the paths that `<0;0;1>` is read as are printed as a single path |
| `KeyPaths.StepsLost` | src/descriptor/key.rs:613-628 | steps that only a later path has are cut off |
| `KeyPaths.PrintParseOne` | src/descriptor/key.rs:603-608 | a single path always comes back |
| `KeyPaths.TextSplits` | src/descriptor/key.rs:1020-1031 | the printed text splits into the key and the printed segments |

## Left out

* Resource limits of Script: operation counts, stack depth and script size are
  not part of the machine; elements of more than 520 bytes are.
* Script numbers: the lock time operands are read as numbers of up to four bytes,
  which covers every valid term, although consensus allows five.
* Script bytes: scripts are sequences of instructions or tokens, and EQUALVERIFY
  is two tokens; how bytes are lexed is not modelled.
* Cryptography: keys, signatures and hashes are byte strings checked by
  uninterpreted predicates; only sizes are assumed, and that public derivation
  mirrors private derivation.
* Signature hashes and the classification of transactions into script kinds
  (src/interpreter/inner.rs): the interpreter starts from a term and a stack.
* The satisfier, the policy compiler, taproot trees, descriptor wrappers, plans
  and weight estimates.
* Finding envelopes in a script (src/ord/envelope.rs): what discovery returns is
  an arbitrary function; only the check that re-encoding reproduces the script is
  modelled.
* The checks of script contexts and of global validity: an arbitrary predicate on
  terms, applied where the decoder applies it.
* Canonical.DecodeComplete: about terms without inscriptions; with them, decoding
  also depends on how envelopes are discovered. Soundness covers both.
* Agreement.NodeExactly: public keys and signatures are assumed to fit into a
  stack element, as all real ones do.
* Compiler.CompilerCorrect: about witnesses whose elements fit into a stack element;
  Agreement.NodeExactly removes that condition.
* The verbose pre-order iterator (src/iter/tree.rs), which only display code uses.
* KeyPaths.FmtDerivationPaths: the text of a single index is a parameter that can be
  read back and contains none of the separators.
* Checksum: the formatter that feeds the engine while printing, and code lengths
  beyond the one-character guarantee.
* Display of errors, serialization, feature flags, fuzz drivers and examples.
