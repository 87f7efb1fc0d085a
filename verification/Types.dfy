/** The correctness type system: base type, inputs, dissatisfiability, unit. */
module Types {
  import opened Terms

  datatype Base = B | K | V | W

  datatype Input = IZero | IOne | IAny | IOneNonZero | IAnyNonZero

  datatype Correctness = Correctness(base: Base, input: Input, dissatisfiable: bool, unit: bool)

  datatype ErrorKind =
    | ChildBase | SwapNonOne | NonZeroDupIf | NonZeroZero | LeftNotDissatisfiable
    | RightNotDissatisfiable | LeftNotUnit | ThresholdBase | ThresholdNonUnit | ThresholdDissat
    | InvalidInscription

  datatype Result<T> = Ok(value: T) | Err(kind: ErrorKind) {
    predicate IsFailure() { Err? }
    function PropagateFailure<U>(): Result<U> requires Err? { Err(kind) }
    function Extract(): T requires Ok? { value }
  }

  predicate TakesOne(i: Input) { i.IOne? || i.IOneNonZero? }

  function CastAlt(x: Correctness): Result<Correctness> {
    if !x.base.B? then Err(ChildBase) else Ok(Correctness(W, IAny, x.dissatisfiable, x.unit))
  }

  function CastSwap(x: Correctness): Result<Correctness> {
    if !x.base.B? then Err(ChildBase)
    else if !TakesOne(x.input) then Err(SwapNonOne)
    else Ok(Correctness(W, IAny, x.dissatisfiable, x.unit))
  }

  function CastCheck(x: Correctness): Result<Correctness> {
    if !x.base.K? then Err(ChildBase) else Ok(Correctness(B, x.input, x.dissatisfiable, true))
  }

  function CastDupIf(x: Correctness): Result<Correctness> {
    if !x.base.V? then Err(ChildBase)
    else if !x.input.IZero? then Err(NonZeroDupIf)
    else Ok(Correctness(B, IOneNonZero, true, false))
  }

  function CastVerify(x: Correctness): Result<Correctness> {
    if !x.base.B? then Err(ChildBase) else Ok(Correctness(V, x.input, false, false))
  }

  function CastNonZero(x: Correctness): Result<Correctness> {
    if !x.input.IOneNonZero? && !x.input.IAnyNonZero? then Err(NonZeroZero)
    else if !x.base.B? then Err(ChildBase)
    else Ok(Correctness(B, x.input, true, x.unit))
  }

  function CastZeroNotEqual(x: Correctness): Result<Correctness> {
    if !x.base.B? then Err(ChildBase) else Ok(Correctness(B, x.input, x.dissatisfiable, true))
  }

  /** Inputs of two fragments run one after the other, both always executed. */
  function AndInput(l: Input, r: Input): Input {
    match (l, r)
    case (IZero, IZero) => IZero
    case (IZero, IOne) => IOne
    case (IOne, IZero) => IOne
    case (IZero, IOneNonZero) => IOneNonZero
    case (IOneNonZero, IZero) => IOneNonZero
    case (IOneNonZero, _) => IAnyNonZero
    case (IAnyNonZero, _) => IAnyNonZero
    case (IZero, IAnyNonZero) => IAnyNonZero
    case _ => IAny
  }

  function TypeAndB(l: Correctness, r: Correctness): Result<Correctness> {
    if !(l.base.B? && r.base.W?) then Err(ChildBase)
    else Ok(Correctness(B, AndInput(l.input, r.input), l.dissatisfiable && r.dissatisfiable, true))
  }

  function TypeAndV(l: Correctness, r: Correctness): Result<Correctness> {
    if !l.base.V? || r.base.W? then Err(ChildBase)
    else Ok(Correctness(r.base, AndInput(l.input, r.input), false, r.unit))
  }

  function TypeOrB(l: Correctness, r: Correctness): Result<Correctness> {
    if !l.dissatisfiable then Err(LeftNotDissatisfiable)
    else if !r.dissatisfiable then Err(RightNotDissatisfiable)
    else if !(l.base.B? && r.base.W?) then Err(ChildBase)
    else
      var input := match (l.input, r.input)
        case (IZero, IZero) => IZero
        case (IZero, IOne) => IOne
        case (IOne, IZero) => IOne
        case (IZero, IOneNonZero) => IOne
        case (IOneNonZero, IZero) => IOne
        case _ => IAny;
      Ok(Correctness(B, input, true, true))
  }

  /** Inputs of a fragment that may skip its second part. */
  function OrElseInput(l: Input, r: Input): Input {
    if l.IZero? && r.IZero? then IZero else if TakesOne(l) && r.IZero? then IOne else IAny
  }

  function TypeOrD(l: Correctness, r: Correctness): Result<Correctness> {
    if !l.dissatisfiable then Err(LeftNotDissatisfiable)
    else if !l.unit then Err(LeftNotUnit)
    else if !(l.base.B? && r.base.B?) then Err(ChildBase)
    else Ok(Correctness(B, OrElseInput(l.input, r.input), r.dissatisfiable, r.unit))
  }

  function TypeOrC(l: Correctness, r: Correctness): Result<Correctness> {
    if !l.dissatisfiable then Err(LeftNotDissatisfiable)
    else if !l.unit then Err(LeftNotUnit)
    else if !(l.base.B? && r.base.V?) then Err(ChildBase)
    else Ok(Correctness(V, OrElseInput(l.input, r.input), false, false))
  }

  function TypeOrI(l: Correctness, r: Correctness): Result<Correctness> {
    if l.base != r.base || l.base.W? then Err(ChildBase)
    else
      var input := if l.input.IZero? && r.input.IZero? then IOne else IAny;
      Ok(Correctness(l.base, input, l.dissatisfiable || r.dissatisfiable, l.unit && r.unit))
  }

  function TypeAndOr(a: Correctness, b: Correctness, c: Correctness): Result<Correctness> {
    if !a.dissatisfiable then Err(LeftNotDissatisfiable)
    else if !a.unit then Err(LeftNotUnit)
    else if !(a.base.B? && b.base == c.base && !b.base.W?) then Err(ChildBase)
    else
      var input :=
        if a.input.IZero? && b.input.IZero? && c.input.IZero? then IZero
        else if a.input.IZero? && TakesOne(b.input) && TakesOne(c.input) then IOne
        else if TakesOne(a.input) && b.input.IZero? && c.input.IZero? then IOne
        else IAny;
      Ok(Correctness(b.base, input, c.dissatisfiable, b.unit && c.unit))
  }

  function NumArgs(i: Input): nat {
    match i
    case IZero => 0
    case IOne => 1
    case IOneNonZero => 1
    case IAny => 2
    case IAnyNonZero => 2
  }

  /** The type of a term, or the first rule it breaks. */
  function TypeOf(t: Term): Result<Correctness>
    decreases t, 0
  {
    match t
    case True => Ok(Correctness(B, IZero, false, true))
    case False => Ok(Correctness(B, IZero, true, true))
    case PkK(_) => Ok(Correctness(K, IOneNonZero, true, true))
    case PkH(_) => Ok(Correctness(K, IAnyNonZero, true, true))
    case RawPkH(_) => Ok(Correctness(K, IAnyNonZero, true, true))
    case After(_) => Ok(Correctness(B, IZero, false, false))
    case Older(_) => Ok(Correctness(B, IZero, false, false))
    case HashLock(_, _) => Ok(Correctness(B, IOneNonZero, true, true))
    case TxTemplate(_) => Ok(Correctness(V, IZero, false, false))
    case InscribePre(ins, sub) =>
      var x :- TypeOf(sub); if ValidInscriptions(ins) then Ok(x) else Err(InvalidInscription)
    case InscribePost(ins, sub) =>
      var x :- TypeOf(sub); if ValidInscriptions(ins) then Ok(x) else Err(InvalidInscription)
    case Alt(sub) => var x :- TypeOf(sub); CastAlt(x)
    case Swap(sub) => var x :- TypeOf(sub); CastSwap(x)
    case Check(sub) => var x :- TypeOf(sub); CastCheck(x)
    case DupIf(sub) => var x :- TypeOf(sub); CastDupIf(x)
    case Verify(sub) => var x :- TypeOf(sub); CastVerify(x)
    case NonZero(sub) => var x :- TypeOf(sub); CastNonZero(x)
    case ZeroNotEqual(sub) => var x :- TypeOf(sub); CastZeroNotEqual(x)
    case AndV(l, r) => var x :- TypeOf(l); var y :- TypeOf(r); TypeAndV(x, y)
    case AndB(l, r) => var x :- TypeOf(l); var y :- TypeOf(r); TypeAndB(x, y)
    case AndOr(a, b, c) => var x :- TypeOf(a); var y :- TypeOf(b); var z :- TypeOf(c); TypeAndOr(x, y, z)
    case OrB(l, r) => var x :- TypeOf(l); var y :- TypeOf(r); TypeOrB(x, y)
    case OrD(l, r) => var x :- TypeOf(l); var y :- TypeOf(r); TypeOrD(x, y)
    case OrC(l, r) => var x :- TypeOf(l); var y :- TypeOf(r); TypeOrC(x, y)
    case OrI(l, r) => var x :- TypeOf(l); var y :- TypeOf(r); TypeOrI(x, y)
    case Thresh(_, subs) =>
      var args :- ThreshArgs(subs, true);
      Ok(Correctness(B, if args == 0 then IZero else if args == 1 then IOne else IAny, true, true))
    case Multi(_, _) => Ok(Correctness(B, IAnyNonZero, true, true))
    case MultiA(_, _) => Ok(Correctness(B, IAny, true, true))
  }

  /** The argument count of a threshold's children: the first must be of base B,
      the others of base W, and all dissatisfiable and unit. */
  function ThreshArgs(subs: seq<Term>, first: bool): Result<nat>
    decreases subs, 0
  {
    if subs == [] then Ok(0)
    else
      var x :- TypeOf(subs[0]);
      if x.base != (if first then B else W) then Err(ThresholdBase)
      else if !x.unit then Err(ThresholdNonUnit)
      else if !x.dissatisfiable then Err(ThresholdDissat)
      else
        var rest :- ThreshArgs(subs[1..], false);
        Ok(NumArgs(x.input) + rest)
  }

  predicate HasBase(t: Term, base: Base) { TypeOf(t).Ok? && TypeOf(t).value.base == base }

  predicate IsTyped(t: Term) { TypeOf(t).Ok? }

  /** Every child of a typed threshold is typed and leaves a boolean. */
  lemma {:induction false} ThreshTyped(subs: seq<Term>, first: bool, i: nat)
    requires ThreshArgs(subs, first).Ok? && i < |subs|
    ensures IsTyped(subs[i])
    ensures TypeOf(subs[i]).value.base == (if first && i == 0 then B else W)
    ensures TypeOf(subs[i]).value.unit && TypeOf(subs[i]).value.dissatisfiable
  {
    if i > 0 {
      ThreshTyped(subs[1..], false, i - 1);
    }
  }

  /** The operands of a typed `and_v`. */
  lemma AndVParts(t: Term)
    requires t.AndV? && IsTyped(t)
    ensures HasBase(t.left, V) && IsTyped(t.right) && !TypeOf(t.right).value.base.W?
  {
  }
}
