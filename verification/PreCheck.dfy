/** The first pass of the expression parser: it checks a string character by
    character and counts the nodes and the depth of its tree. */
module PreCheck {
  import opened Bytes
  import opened Expression
  import Checksum

  datatype Error =
    | ChecksumError(error: Checksum.Error)
    | MaxRecursionDepthExceeded(actual: nat, maximum: nat)
    | ExpectedParenOrComma(ch: char, pos: nat)
    | UnmatchedOpenParen(ch: char, pos: nat)
    | UnmatchedCloseParen(ch: char, pos: nat)
    | MismatchedParens(openCh: char, openPos: nat, closeCh: char, closePos: nat)
    | TrailingCharacter(ch: char, pos: nat)

  datatype Result<+T> = Ok(value: T) | Err(error: Error)

  datatype Checked = Checked(s: string, maxDepth: nat, nNodes: nat)

  type Bracket = (char, nat)

  // ----- what the counters mean -----

  /** The open brackets with their positions, innermost last. */
  function Brackets(zip: Zip): seq<Bracket> {
    match zip
    case Top => []
    case In(name, curly, done, up) => Brackets(up) + [(OpenChar(curly), |Text(up)| + |name|)]
  }

  /** The nodes begun so far. */
  function Begun(zip: Zip): nat {
    if zip.Top? then 0 else Begun(zip.up) + 1 + SizeRow(zip.done)
  }

  function BegunScan(z: Scan): nat { Begun(z.zip) + Size(TreeOf(z.cur)) }

  /** The greatest number of brackets that have been open at once. */
  function Peak(zip: Zip): nat {
    if zip.Top? then 0 else Max(Peak(zip.up), |Brackets(zip)| + DepthRow(zip.done))
  }

  function PeakScan(z: Scan): nat { Max(Peak(z.zip), |Brackets(z.zip)| + Depth(TreeOf(z.cur))) }

  lemma Counted(z: Scan, ch: char, next: Scan)
    requires Read(z, ch) == Some(next)
    ensures BegunScan(next) - |Brackets(next.zip)| ==
            BegunScan(z) - |Brackets(z.zip)| + if IsClose(ch) || ch == ',' then 1 else 0
    ensures PeakScan(next) == Max(PeakScan(z), |Brackets(next.zip)|)
  {
    assert Size(Leaf("")) == 1 && Depth(Leaf("")) == 0;
    assert SizeRow(Empty) == 0 && DepthRow(Empty) == 0;
  }

  // ----- the errors -----

  /** The innermost open bracket. */
  function Inner(zip: Zip): Option<Bracket> {
    if zip.Top? then None else Some((OpenChar(zip.curly), |Text(zip.up)| + |zip.name|))
  }

  /** The innermost bracket left open by the first `n` characters. */
  function LeftOpen(s: string, n: nat): Option<Bracket>
    requires n <= |s|
  {
    match RunTo(s, n)
    case None => None
    case Some(z) => Inner(z.zip)
  }

  predicate AfterClose(s: string, pos: nat) { 0 < pos <= |s| && IsClose(s[pos - 1]) }

  predicate Delimits(ch: char) { IsClose(ch) || ch == ',' }

  predicate Matches(open: char, close: char) {
    (open == '(' && close == ')') || (open == '{' && close == '}')
  }

  /** The text up to this character may still become an expression. */
  predicate At(s: string, pos: nat, ch: char) {
    pos < |s| && s[pos] == ch && RunTo(s, pos).Some?
  }

  /** When each error is reported. */
  predicate Explains(s: string, e: Error) {
    match e
    case ChecksumError(_) => false
    case MaxRecursionDepthExceeded(actual, maximum) =>
      && Parse(s).Some? && actual == Depth(Parse(s).value)
      && maximum == MAX_RECURSION_DEPTH && maximum < actual
    case ExpectedParenOrComma(ch, pos) =>
      At(s, pos, ch) && AfterClose(s, pos) && !Delimits(ch) && LeftOpen(s, pos).Some?
    case UnmatchedOpenParen(ch, pos) => LeftOpen(s, |s|) == Some((ch, pos))
    case UnmatchedCloseParen(ch, pos) =>
      At(s, pos, ch) && IsClose(ch) && !AfterClose(s, pos) && LeftOpen(s, pos) == None
    case MismatchedParens(openCh, openPos, closeCh, closePos) =>
      && At(s, closePos, closeCh) && IsClose(closeCh) && !Matches(openCh, closeCh)
      && LeftOpen(s, closePos) == Some((openCh, openPos))
    case TrailingCharacter(ch, pos) =>
      At(s, pos, ch) && LeftOpen(s, pos) == None && (AfterClose(s, pos) || ch == ',')
  }

  /** The stack's top is the innermost bracket. */
  lemma TopBracket(zip: Zip)
    ensures Brackets(zip) == [] <==> Inner(zip) == None
    ensures zip.In? ==> Brackets(zip) == Brackets(zip.up) + [Inner(zip).value]
  {
  }

  /** A bracket is remembered with its position in the string. */
  lemma Opened(s: string, pos: nat, z: Scan, after: Scan)
    requires pos < |s| && RunTo(s, pos) == Some(z) && IsOpen(s[pos]) && Read(z, s[pos]) == Some(after)
    ensures Brackets(after.zip) == Brackets(z.zip) + [(s[pos], pos)]
  {
    ReadSoFar(s, pos, z);
    TopBracket(after.zip);
  }

  /** A node has just been closed exactly after a closing bracket. */
  lemma ClosedAfter(s: string, pos: nat, z: Scan)
    requires pos <= |s| && RunTo(s, pos) == Some(z)
    ensures z.cur.Closed? <==> AfterClose(s, pos)
  {
  }

  /** Where an error points at a character, no expression begins with the text
      up to and including it. */
  lemma ErrorFinal(s: string, e: Error, pos: nat, next: nat)
    requires Explains(s, e) && !e.UnmatchedOpenParen? && !e.MaxRecursionDepthExceeded?
    requires pos == (if e.MismatchedParens? then e.closePos else e.pos) && next == pos + 1
    ensures next <= |s| && RunTo(s, pos).Some? && RunTo(s, next).None?
  {
    RunToNext(s, pos, next);
    ClosedAfter(s, pos, RunTo(s, pos).value);
  }

  /** A string with an error is not an expression, or one that is nested too deeply. */
  lemma ErrorsReject(s: string, e: Error)
    requires Explains(s, e)
    ensures Parse(s).None? || Depth(Parse(s).value) > MAX_RECURSION_DEPTH
  {
    RunToEnd(s);
    if !e.MaxRecursionDepthExceeded? && !e.UnmatchedOpenParen? {
      var pos := if e.MismatchedParens? then e.closePos else e.pos;
      ErrorFinal(s, e, pos, pos + 1);
      NeverAgain(s, pos + 1, |s|);
    }
  }

  // ----- the pass itself -----

  /** What must hold of the character after a closing bracket. */
  predicate Continues(s: string, pos: nat, z: Scan) {
    z.cur.Closed? ==> if z.zip.Top? then pos == |s| else pos < |s| && Delimits(s[pos])
  }

  /** Reading a character that may stand at a position. */
  lemma Advance(s: string, pos: nat, next: nat, z: Scan, after: Scan)
    requires next == pos + 1 && next <= |s| && RunTo(s, pos) == Some(z) && Read(z, s[pos]) == Some(after)
    ensures RunTo(s, next) == Some(after) && (after.cur.Closed? <==> IsClose(s[pos]))
    ensures !IsOpen(s[pos]) && !IsClose(s[pos]) ==> Brackets(after.zip) == Brackets(z.zip)
    ensures IsOpen(s[pos]) ==> Brackets(after.zip) == Brackets(z.zip) + [(s[pos], pos)]
    ensures IsClose(s[pos]) ==> z.zip.In? && after.zip == z.zip.up
    ensures BegunScan(after) - |Brackets(after.zip)| ==
            BegunScan(z) - |Brackets(z.zip)| + if Delimits(s[pos]) then 1 else 0
    ensures PeakScan(after) == Max(PeakScan(z), |Brackets(after.zip)|)
  {
    RunToNext(s, pos, next);
    Counted(z, s[pos], after);
    if IsOpen(s[pos]) { Opened(s, pos, z, after); }
  }

  /** Which characters may come next. */
  lemma Readable(s: string, pos: nat, z: Scan)
    requires pos < |s| && RunTo(s, pos) == Some(z) && Continues(s, pos, z)
    ensures IsClose(s[pos]) ==>
              (Read(z, s[pos]).Some? <==> z.zip.In? && Matches(OpenChar(z.zip.curly), s[pos]))
    ensures s[pos] == ',' ==> (Read(z, s[pos]).Some? <==> z.zip.In?)
    ensures !IsClose(s[pos]) && s[pos] != ',' ==> Read(z, s[pos]).Some?
    ensures AfterClose(s, pos) ==> z.zip.In? && Delimits(s[pos])
  {
    ClosedAfter(s, pos, z);
  }

  lemma Unmatched(s: string, pos: nat, z: Scan)
    requires pos < |s| && IsClose(s[pos]) && RunTo(s, pos) == Some(z) && Continues(s, pos, z) && z.zip.Top?
    ensures Explains(s, UnmatchedCloseParen(s[pos], pos))
  {
    Readable(s, pos, z);
  }

  lemma Mismatched(s: string, pos: nat, z: Scan, open: Bracket)
    requires pos < |s| && IsClose(s[pos]) && RunTo(s, pos) == Some(z)
    requires Inner(z.zip) == Some(open) && !Matches(open.0, s[pos])
    ensures Explains(s, MismatchedParens(open.0, open.1, s[pos], pos))
  {
  }

  lemma NotDelimited(s: string, next: nat, after: Scan)
    requires 0 < next < |s| && IsClose(s[next - 1]) && RunTo(s, next) == Some(after)
    ensures after.zip.In? && !Delimits(s[next]) ==> Explains(s, ExpectedParenOrComma(s[next], next))
    ensures after.zip.Top? ==> Explains(s, TrailingCharacter(s[next], next))
  {
  }

  /** Looks at the character after a closing bracket, `rest` being open. */
  method CheckNext(s: string, next: nat, rest: seq<Bracket>, ghost after: Scan) returns (error: Option<Error>)
    requires 0 < next <= |s| && IsClose(s[next - 1]) && RunTo(s, next) == Some(after) && after.cur.Closed?
    requires rest == Brackets(after.zip)
    ensures error.Some? ==> Explains(s, error.value)
    ensures error.None? ==> Continues(s, next, after)
  {
    TopBracket(after.zip);
    if next < |s| { NotDelimited(s, next, after); }
    if rest != [] {
      var (parenCh, parenPos) := rest[|rest| - 1];
      if next == |s| { return Some(UnmatchedOpenParen(parenCh, parenPos)); }
      var nextByte := s[next];
      if nextByte != ')' && nextByte != '}' && nextByte != ',' {
        return Some(ExpectedParenOrComma(nextByte, next));
      }
    } else if next < |s| {
      return Some(TrailingCharacter(s[next], next));
    }
    error := None;
  }

  /** One closing bracket: the bracket it matches is dropped and the character
      after it is looked at. */
  method Close(s: string, pos: nat, openParenStack: seq<Bracket>, ghost z: Scan)
    returns (error: Option<Error>, rest: seq<Bracket>)
    requires pos < |s| && IsClose(s[pos]) && RunTo(s, pos) == Some(z) && Continues(s, pos, z)
    requires openParenStack == Brackets(z.zip)
    ensures error.Some? ==> Explains(s, error.value)
    ensures error.None? ==> Read(z, s[pos]).Some? && Continues(s, pos + 1, Read(z, s[pos]).value)
    ensures error.None? ==> rest == Brackets(Read(z, s[pos]).value.zip)
  {
    var ch, next := s[pos], pos + 1;
    rest := openParenStack;
    TopBracket(z.zip);
    if openParenStack == [] {
      Unmatched(s, pos, z);
      return Some(UnmatchedCloseParen(ch, pos)), rest;
    }
    var open := openParenStack[|openParenStack| - 1];
    rest := openParenStack[..|openParenStack| - 1];
    if (open.0 == '(' && ch == '}') || (open.0 == '{' && ch == ')') {
      Mismatched(s, pos, z, open);
      return Some(MismatchedParens(open.0, open.1, ch, pos)), rest;
    }
    Readable(s, pos, z);
    ghost var after := Read(z, ch).value;
    Advance(s, pos, next, z, after);
    error := CheckNext(s, next, rest, after);
  }

  lemma Finish(s: string, z: Scan)
    requires RunTo(s, |s|) == Some(z)
    ensures z.zip.In? ==> Explains(s, UnmatchedOpenParen(Inner(z.zip).value.0, Inner(z.zip).value.1))
    ensures z.zip.Top? ==> Parse(s) == Some(TreeOf(z.cur)) && BegunScan(z) == Size(TreeOf(z.cur))
                           && PeakScan(z) == Depth(TreeOf(z.cur))
  {
    RunToEnd(s);
  }

  /** Scans a string that has no checksum. */
  method Scan(s: string) returns (r: Result<Checked>)
    ensures r.Ok? ==> Parse(s).Some? && r.value == Checked(s, Depth(Parse(s).value), Size(Parse(s).value))
    ensures r.Ok? ==> r.value.maxDepth <= MAX_RECURSION_DEPTH
    ensures r.Err? ==> Explains(s, r.error)
  {
    var nNodes, maxDepth: nat := 1, 0;
    var openParenStack: seq<Bracket> := [];
    ghost var z := BLANK;
    for pos := 0 to |s|
      invariant RunTo(s, pos) == Some(z) && openParenStack == Brackets(z.zip)
      invariant nNodes + |openParenStack| == BegunScan(z) && maxDepth == PeakScan(z)
      invariant Continues(s, pos, z)
    {
      var ch := s[pos];
      Readable(s, pos, z);
      if IsOpen(ch) {
        openParenStack := openParenStack + [(ch, pos)];
        if maxDepth < |openParenStack| { maxDepth := |openParenStack|; }
      } else if IsClose(ch) {
        var error, rest := Close(s, pos, openParenStack, z);
        if error.Some? { return Err(error.value); }
        openParenStack := rest;
        nNodes := nNodes + 1;
      } else if ch == ',' {
        TopBracket(z.zip);
        if openParenStack == [] { return Err(TrailingCharacter(ch, pos)); }
        nNodes := nNodes + 1;
      }
      Advance(s, pos, pos + 1, z, Read(z, ch).value);
      z := Read(z, ch).value;
    }
    TopBracket(z.zip);
    Finish(s, z);
    if openParenStack != [] {
      var (ch, pos) := openParenStack[|openParenStack| - 1];
      return Err(UnmatchedOpenParen(ch, pos));
    }
    if maxDepth > MAX_RECURSION_DEPTH {
      return Err(MaxRecursionDepthExceeded(maxDepth, MAX_RECURSION_DEPTH));
    }
    r := Ok(Checked(s, maxDepth, nNodes));
  }

  /** Takes the checksum off first. */
  method ParsePreCheck(s: string) returns (r: Result<Checked>)
    ensures match Checksum.Verify(s)
            case Err(e) => r == Err(ChecksumError(e))
            case Ok(body) =>
              if Parse(body).Some? && Depth(Parse(body).value) <= MAX_RECURSION_DEPTH
              then r == Ok(Checked(body, Depth(Parse(body).value), Size(Parse(body).value)))
              else r.Err? && Explains(body, r.error)
  {
    var body := Checksum.VerifyChecksum(s);
    match body
    case Err(e) => r := Err(ChecksumError(e));
    case Ok(b) =>
      r := Scan(b);
      if r.Err? { ErrorsReject(b, r.error); }
  }
}
