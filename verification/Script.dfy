/** Script instructions, the decoder's tokens, and a Script machine.

    The machine enforces consensus rules together with the standardness rules
    MINIMALIF, NULLFAIL, NULLDUMMY and STRICTENC, so, ignoring resource limits
    (operation counts, stack depth, script size), acceptance here implies
    acceptance under consensus alone. Signature checks and hash functions are
    parameters.
 */
module Script {
  import opened Bytes

  const MAX_SCRIPT_ELEMENT_SIZE := 520
  const MAX_PUBKEYS_PER_MULTISIG := 20

  datatype HashKind = Sha256 | Hash256 | Ripemd160 | Hash160

  datatype Opcode =
    | OpBoolAnd | OpBoolOr | OpAdd | OpEqual | OpNumEqual
    | OpCheckSig | OpCheckSigAdd | OpCheckMultiSig
    | OpCheckSequenceVerify | OpCheckLockTimeVerify | OpCheckTemplateVerify
    | OpFromAltStack | OpToAltStack | OpDrop | OpDup
    | OpIf | OpIfDup | OpNotIf | OpElse | OpEndIf
    | OpZeroNotEqual | OpSize | OpSwap | OpVerify
    | OpHash(kind: HashKind)

  /** One script instruction; `xVERIFY` opcodes are split into `x` and VERIFY. */
  datatype Instr = Push(data: Bytes) | Exec(op: Opcode)

  /** The lexer's atoms. Pushes are classified by length, and a whole
      inscription envelope is a single token that keeps its instructions. */
  datatype Token =
    | Op(op: Opcode)
    | Num(n: nat)
    | Hash20(bytes: Bytes)
    | Bytes32(bytes: Bytes)
    | Bytes33(bytes: Bytes)
    | Bytes65(bytes: Bytes)
    | Inscription(script: seq<Instr>)

  /** The instructions a token stands for. */
  function Instrs(tok: Token): seq<Instr> {
    match tok
    case Op(op) => [Exec(op)]
    case Num(n) => [Push(EncodeNum(n))]
    case Inscription(script) => script
    case _ => [Push(tok.bytes)]
  }

  function Flatten(toks: seq<Token>): seq<Instr> {
    if toks == [] then [] else Instrs(toks[0]) + Flatten(toks[1..])
  }

  /** Cryptography and the spending transaction, as far as scripts can see them.
      `sigOk(key, sig)` holds when `sig` parses and verifies for `key`; `keyOk`
      when the bytes are a public key of the kind the context uses. */
  datatype Env = Env(
    keyOk: Bytes -> bool,
    sigOk: (Bytes, Bytes) -> bool,
    hash: (HashKind, Bytes) -> Bytes,
    version: nat,
    sequence: nat,
    lockTime: nat,
    template: Bytes)

  /** What every real instance of the parameters satisfies: signatures and keys
      are longer than one byte and key hashes are twenty bytes long. */
  ghost predicate Sane(env: Env) {
    && (forall key: Bytes, sig: Bytes :: env.sigOk(key, sig) ==> |sig| > 1)
    && (forall key: Bytes :: env.keyOk(key) ==> |key| > 1)
    && (forall data: Bytes :: |env.hash(Hash160, data)| == 20)
  }

  // ----- time locks -----

  const LOCKTIME_THRESHOLD := 500_000_000
  const SEQUENCE_FINAL := 0xffff_ffff
  const SEQUENCE_DISABLE_FLAG := 0x8000_0000
  const SEQUENCE_TYPE_FLAG := 0x0040_0000
  const SEQUENCE_VALUE_SIZE := 0x1_0000

  predicate IsSeconds(lockTime: nat) { lockTime >= LOCKTIME_THRESHOLD }

  predicate RelativeDisabled(sequence: nat) { (sequence / SEQUENCE_DISABLE_FLAG) % 2 == 1 }

  predicate IsRelativeTime(sequence: nat) { (sequence / SEQUENCE_TYPE_FLAG) % 2 == 1 }

  function RelativeValue(sequence: nat): nat { sequence % SEQUENCE_VALUE_SIZE }

  /** BIP 65: same unit, reached, and the input is not final. */
  predicate CheckLockTime(env: Env, n: nat) {
    && IsSeconds(n) == IsSeconds(env.lockTime)
    && n <= env.lockTime
    && env.sequence != SEQUENCE_FINAL
  }

  /** BIP 112 for an operand without the disable flag. */
  predicate CheckSequence(env: Env, n: nat) {
    && env.version >= 2
    && !RelativeDisabled(env.sequence)
    && IsRelativeTime(n) == IsRelativeTime(env.sequence)
    && RelativeValue(n) <= RelativeValue(env.sequence)
  }

  // ----- the machine -----

  /** Main stack and alt stack (top last) and the IF/NOTIF/ELSE conditions. */
  datatype State = State(main: seq<Bytes>, alt: seq<Bytes>, conds: seq<bool>)

  /** Whether instructions are executed or skipped over. */
  predicate Live(conds: seq<bool>) {
    forall i :: 0 <= i < |conds| ==> conds[i]
  }

  function Top(s: seq<Bytes>): Bytes requires s != [] { s[|s| - 1] }

  function Rest(s: seq<Bytes>): seq<Bytes> requires s != [] { s[..|s| - 1] }

  predicate IsMinimalBool(b: Bytes) { b == TRUE_BYTES || b == FALSE_BYTES }

  /** CHECKSIG: an empty signature fails softly, any other invalid one aborts. */
  function CheckSig(env: Env, key: Bytes, sig: Bytes): Option<bool> {
    if !env.keyOk(key) then None
    else if sig == [] then Some(false)
    else if env.sigOk(key, sig) then Some(true)
    else None
  }

  /** CHECKMULTISIG's matching loop, which takes signatures and keys from the
      top of the stack, that is from the end of both sequences. */
  predicate MatchSigs(env: Env, keys: seq<Bytes>, sigs: seq<Bytes>)
    decreases |keys|
  {
    if sigs == [] then true
    else if |sigs| > |keys| then false
    else if env.sigOk(Top(keys), Top(sigs)) then MatchSigs(env, Rest(keys), Rest(sigs))
    else MatchSigs(env, Rest(keys), sigs)
  }

  /** CHECKMULTISIG on the stack `dummy sig* k key* n`. */
  function CheckMultiSig(env: Env, main: seq<Bytes>): Option<seq<Bytes>> {
    if main == [] then None
    else
      var n := DecodeNum(Top(main));
      if n == None || !(0 <= n.value <= MAX_PUBKEYS_PER_MULTISIG) || |main| < n.value + 2 then None
      else
        var keys := main[|main| - 1 - n.value..|main| - 1];
        CheckMultiSigKeys(env, keys, main[..|main| - 1 - n.value])
  }

  /** The rest of CHECKMULTISIG, on the stack `dummy sig* k`. */
  function CheckMultiSigKeys(env: Env, keys: seq<Bytes>, main: seq<Bytes>): Option<seq<Bytes>>
    requires main != []
  {
    var k := DecodeNum(Top(main));
    if k == None || !(0 <= k.value <= |keys|) || |main| < k.value + 2 then None
    else if exists i :: 0 <= i < |keys| && !env.keyOk(keys[i]) then None
    else
      var sigs := main[|main| - 1 - k.value..|main| - 1];
      var below := main[..|main| - 1 - k.value];
      if Top(below) != [] then None
      else if MatchSigs(env, keys, sigs) then Some(Rest(below) + [TRUE_BYTES])
      else if exists i :: 0 <= i < |sigs| && sigs[i] != [] then None
      else Some(Rest(below) + [FALSE_BYTES])
  }

  /** A binary operation on two numbers. */
  function BinaryNum(main: seq<Bytes>, op: (int, int) -> Option<Bytes>): Option<seq<Bytes>> {
    if |main| < 2 then None
    else
      var x, y := DecodeNum(main[|main| - 2]), DecodeNum(main[|main| - 1]);
      if x == None || y == None then None
      else
        var r := op(x.value, y.value);
        if r == None then None else Some(main[..|main| - 2] + [r.value])
  }

  function AddNums(x: int, y: int): Option<Bytes> {
    // Negative sums never occur in Miniscript scripts and are not encoded here.
    if x + y < 0 then None else Some(EncodeNum(x + y))
  }

  /** Opcodes that touch only the two data stacks. */
  function Execute(env: Env, op: Opcode, main: seq<Bytes>, alt: seq<Bytes>): Option<(seq<Bytes>, seq<Bytes>)> {
    var need := match op
      case OpBoolAnd | OpBoolOr | OpAdd | OpEqual | OpNumEqual | OpCheckSig | OpSwap => 2
      case OpCheckSigAdd => 3
      case OpFromAltStack => 0
      case _ => 1;
    if |main| < need then None
    else match op {
      case OpBoolAnd => OnMain(BinaryNum(main, (x, y) => Some(BoolBytes(x != 0 && y != 0))), alt)
      case OpBoolOr => OnMain(BinaryNum(main, (x, y) => Some(BoolBytes(x != 0 || y != 0))), alt)
      case OpNumEqual => OnMain(BinaryNum(main, (x, y) => Some(BoolBytes(x == y))), alt)
      case OpAdd => OnMain(BinaryNum(main, AddNums), alt)
      case OpEqual => Some((main[..|main| - 2] + [BoolBytes(main[|main| - 2] == Top(main))], alt))
      case OpCheckSig =>
        var r := CheckSig(env, Top(main), main[|main| - 2]);
        if r == None then None else Some((main[..|main| - 2] + [BoolBytes(r.value)], alt))
      case OpCheckSigAdd =>
        var r := CheckSig(env, Top(main), main[|main| - 3]);
        var n := DecodeNum(main[|main| - 2]);
        if r == None || n == None then None
        else OnMain(BinaryNum(main[..|main| - 3] + [main[|main| - 2], BoolBytes(r.value)], AddNums), alt)
      case OpCheckMultiSig => OnMain(CheckMultiSig(env, main), alt)
      case OpCheckSequenceVerify =>
        var n := DecodeNum(Top(main));
        if n == None || n.value < 0 || !CheckSequence(env, n.value) then None else Some((main, alt))
      case OpCheckLockTimeVerify =>
        var n := DecodeNum(Top(main));
        if n == None || n.value < 0 || !CheckLockTime(env, n.value) then None else Some((main, alt))
      case OpCheckTemplateVerify =>
        if |Top(main)| == 32 && Top(main) != env.template then None else Some((main, alt))
      case OpFromAltStack => if alt == [] then None else Some((main + [Top(alt)], Rest(alt)))
      case OpToAltStack => Some((Rest(main), alt + [Top(main)]))
      case OpDrop => Some((Rest(main), alt))
      case OpDup => Some((main + [Top(main)], alt))
      case OpIfDup => Some((if CastToBool(Top(main)) then main + [Top(main)] else main, alt))
      case OpZeroNotEqual =>
        var n := DecodeNum(Top(main));
        if n == None then None else Some((Rest(main) + [BoolBytes(n.value != 0)], alt))
      case OpSize => Some((main + [EncodeNum(|Top(main)|)], alt))
      case OpSwap => Some((main[..|main| - 2] + [Top(main), main[|main| - 2]], alt))
      case OpVerify => if CastToBool(Top(main)) then Some((Rest(main), alt)) else None
      case OpHash(kind) => Some((Rest(main) + [env.hash(kind, Top(main))], alt))
      case OpIf | OpNotIf | OpElse | OpEndIf => None
    }
  }

  function OnMain(main: Option<seq<Bytes>>, alt: seq<Bytes>): Option<(seq<Bytes>, seq<Bytes>)> {
    if main == None then None else Some((main.value, alt))
  }

  /** IF and NOTIF: the operand must be exactly `[]` or `[1]` when executed. */
  function Branch(st: State, sense: bool): Option<State> {
    if !Live(st.conds) then Some(st.(conds := st.conds + [false]))
    else if st.main == [] || !IsMinimalBool(Top(st.main)) then None
    else Some(st.(main := Rest(st.main), conds := st.conds + [CastToBool(Top(st.main)) == sense]))
  }

  function Step(env: Env, ins: Instr, st: State): Option<State> {
    match ins
    case Push(data) =>
      if |data| > MAX_SCRIPT_ELEMENT_SIZE then None
      else if Live(st.conds) then Some(st.(main := st.main + [data]))
      else Some(st)
    case Exec(OpIf) => Branch(st, true)
    case Exec(OpNotIf) => Branch(st, false)
    case Exec(OpElse) =>
      if st.conds == [] then None
      else Some(st.(conds := st.conds[|st.conds| - 1 := !st.conds[|st.conds| - 1]]))
    case Exec(OpEndIf) =>
      if st.conds == [] then None else Some(st.(conds := st.conds[..|st.conds| - 1]))
    case Exec(op) =>
      if !Live(st.conds) then Some(st)
      else
        var r := Execute(env, op, st.main, st.alt);
        if r == None then None else Some(State(r.value.0, r.value.1, st.conds))
  }

  function Run(env: Env, code: seq<Instr>, st: State): Option<State> {
    if code == [] then Some(st)
    else
      var r := Step(env, code[0], st);
      if r == None then None else Run(env, code[1..], r.value)
  }

  /** A script is satisfied when it ends with exactly one true element. */
  predicate Accepts(env: Env, code: seq<Instr>, wit: seq<Bytes>) {
    var r := Run(env, code, State(wit, [], []));
    r != None && r.value.conds == [] && |r.value.main| == 1 && CastToBool(r.value.main[0])
  }

  // ----- laws of running -----

  lemma {:induction false} FlattenConcat(a: seq<Token>, b: seq<Token>)
    ensures Flatten(a + b) == Flatten(a) + Flatten(b)
  {
    if a == [] {
      assert a + b == b;
    } else {
      FlattenConcat(a[1..], b);
      assert (a + b)[1..] == a[1..] + b;
    }
  }

  lemma {:induction false} RunConcat(env: Env, a: seq<Instr>, b: seq<Instr>, st: State)
    ensures Run(env, a + b, st) ==
            var r := Run(env, a, st);
            if r == None then None else Run(env, b, r.value)
  {
    if a == [] {
      assert a + b == b;
    } else {
      assert (a + b)[1..] == a[1..] + b;
      var r := Step(env, a[0], st);
      if r != None {
        RunConcat(env, a[1..], b, r.value);
      }
    }
  }

  lemma RunOne(env: Env, ins: Instr, st: State)
    ensures Run(env, [ins], st) == Step(env, ins, st)
  {
    var r := Step(env, ins, st);
    assert [ins][1..] == [];
    if r != None {
      assert Run(env, [], r.value) == r;
    }
  }
}
