/** Derivation paths as text: the multipath steps of BIP 389, printed and parsed. */
module KeyPaths {
  import opened Bytes
  import opened Keys

  /** The text of one derivation step, and how it is read. */
  datatype Codec = Codec(show: Child -> string, read: string -> Option<Child>)

  predicate IsSpecial(ch: char) { ch == '/' || ch == ';' || ch == '<' || ch == '>' || ch == '*' }

  predicate IsIndexText(s: string) { s != [] && forall i :: 0 <= i < |s| ==> !IsSpecial(s[i]) }

  /** Steps are printed in a form that is read back. */
  ghost predicate Readable(cd: Codec) {
    forall c: Child :: cd.read(cd.show(c)) == Some(c) && IsIndexText(cd.show(c))
  }

  // ----- splitting and joining -----

  function Split(s: string, sep: char): (parts: seq<string>)
    ensures parts != []
  {
    if s == [] then [[]]
    else
      var rest := Split(s[1..], sep);
      if s[0] == sep then [[]] + rest else [[s[0]] + rest[0]] + rest[1..]
  }

  function Join(parts: seq<string>, sep: char): string
    requires parts != []
  {
    if |parts| == 1 then parts[0] else parts[0] + [sep] + Join(parts[1..], sep)
  }

  predicate Without(s: string, ch: char) { forall i :: 0 <= i < |s| ==> s[i] != ch }

  lemma {:induction false} SplitWhole(s: string, sep: char)
    requires Without(s, sep)
    ensures Split(s, sep) == [s]
  {
    if s != [] {
      var rest := s[1..];
      assert forall i :: 0 <= i < |rest| ==> rest[i] == s[i + 1];
      SplitWhole(rest, sep);
      assert [s[0]] + rest == s;
    }
  }

  lemma {:induction false} SplitFirst(a: string, sep: char, b: string)
    requires Without(a, sep)
    ensures Split(a + [sep] + b, sep) == [a] + Split(b, sep)
    decreases |a|
  {
    var s := a + [sep] + b;
    if a == [] {
      assert s[0] == sep && s[1..] == b;
    } else {
      var rest := a[1..];
      assert forall i :: 0 <= i < |rest| ==> rest[i] == a[i + 1];
      SplitFirst(rest, sep, b);
      assert s[0] == a[0] && s[1..] == rest + [sep] + b;
      assert [a[0]] + rest == a;
      assert ([rest] + Split(b, sep))[1..] == Split(b, sep);
    }
  }

  /** Splitting undoes joining. */
  lemma {:induction false} SplitJoin(parts: seq<string>, sep: char)
    requires parts != [] && forall i :: 0 <= i < |parts| ==> Without(parts[i], sep)
    ensures Split(Join(parts, sep), sep) == parts
    decreases |parts|
  {
    if |parts| == 1 {
      SplitWhole(parts[0], sep);
    } else {
      SplitJoin(parts[1..], sep);
      SplitFirst(parts[0], sep, Join(parts[1..], sep));
      assert parts == [parts[0]] + parts[1..];
    }
  }

  // ----- printing -----

  predicate EqualLengths(paths: seq<Path>) {
    forall j :: 0 <= j < |paths| ==> |paths[j]| == |paths[0]|
  }

  /** Every path has a step number `i`. */
  predicate Reaches(paths: seq<Path>, i: nat) { forall j :: 0 <= j < |paths| ==> i < |paths[j]| }

  /** Printing step number `i` finds every path it looks at long enough. */
  predicate Indexed(paths: seq<Path>, i: nat)
    requires paths != [] && i < |paths[0]|
  {
    |paths| == 1 || (i < |paths[1]| && (paths[0][i] == paths[1][i] || Reaches(paths, i)))
  }

  predicate AllIndexed(paths: seq<Path>)
    requires paths != []
  {
    forall i :: 0 <= i < |paths[0]| ==> Indexed(paths, i)
  }

  /** The first two paths differ in step number `i`. */
  predicate Tells(paths: seq<Path>, i: nat)
    requires paths != [] && i < |paths[0]| && Indexed(paths, i)
  {
    |paths| > 1 && paths[0][i] != paths[1][i]
  }

  function Shown(cd: Codec, paths: seq<Path>, i: nat): seq<string>
    requires Reaches(paths, i)
  {
    seq(|paths|, j requires 0 <= j < |paths| => cd.show(paths[j][i]))
  }

  /** Step number `i`: all indices when the first two paths differ there. */
  function Segment(cd: Codec, paths: seq<Path>, i: nat): string
    requires paths != [] && i < |paths[0]| && Indexed(paths, i)
  {
    if Tells(paths, i) then ['<'] + Join(Shown(cd, paths, i), ';') + ['>'] else cd.show(paths[0][i])
  }

  function Segments(cd: Codec, paths: seq<Path>): seq<string>
    requires paths != [] && AllIndexed(paths)
  {
    seq(|paths[0]|, i requires 0 <= i < |paths[0]| => Segment(cd, paths, i))
  }

  function WildcardSegments(w: Wildcard): seq<string> {
    match w
    case NoWildcard => []
    case Unhardened => ["*"]
    case Hardened => ["*h"]
  }

  /** Every segment after a slash. */
  function Slashed(segments: seq<string>): string {
    if segments == [] then [] else ['/'] + segments[0] + Slashed(segments[1..])
  }

  lemma {:induction false} SlashedConcat(a: seq<string>, b: seq<string>)
    ensures Slashed(a + b) == Slashed(a) + Slashed(b)
    decreases |a|
  {
    if a == [] {
      assert a + b == b;
    } else {
      SlashedConcat(a[1..], b);
      assert (a + b)[0] == a[0] && (a + b)[1..] == a[1..] + b;
      assert ['/'] + a[0] + (Slashed(a[1..]) + Slashed(b)) == ['/'] + a[0] + Slashed(a[1..]) + Slashed(b);
    }
  }

  lemma {:induction false} SlashedJoin(first: string, segments: seq<string>)
    ensures first + Slashed(segments) == Join([first] + segments, '/')
    decreases |segments|
  {
    if segments == [] {
      assert [first] + segments == [first] && first + [] == first;
    } else {
      SlashedJoin(segments[0], segments[1..]);
      assert ([first] + segments)[1..] == segments && segments == [segments[0]] + segments[1..];
      assert first + (['/'] + segments[0] + Slashed(segments[1..])) == first + ['/'] + (segments[0] + Slashed(segments[1..]));
    }
  }

  lemma {:induction false} JoinNext(parts: seq<string>, last: string, sep: char)
    requires parts != []
    ensures Join(parts + [last], sep) == Join(parts, sep) + [sep] + last
    decreases |parts|
  {
    var all := parts + [last];
    if |parts| == 1 {
      assert all[1..] == [last];
    } else {
      assert all[1..] == parts[1..] + [last] && all[0] == parts[0];
      JoinNext(parts[1..], last, sep);
      var more := Join(parts[1..], sep);
      assert parts[0] + [sep] + (more + [sep] + last) == parts[0] + [sep] + more + [sep] + last;
    }
  }

  /** All indices of a step, separated by semicolons; indexing stops at a path that
      is too short. */
  method FmtIndices(cd: Codec, paths: seq<Path>, i: nat) returns (r: Option<string>)
    requires paths != []
    ensures r == if Reaches(paths, i) then Some(Join(Shown(cd, paths, i), ';')) else None
  {
    var s := "";
    for j := 0 to |paths|
      invariant forall k :: 0 <= k < j ==> i < |paths[k]|
      invariant s == Joined(cd, paths[..j], i, j == |paths|)
    {
      if |paths[j]| <= i { return None; }
      JoinedNext(cd, paths, i, j);
      s := s + cd.show(paths[j][i]);
      if j != |paths| - 1 { s := s + [';']; }
    }
    assert paths[..|paths|] == paths;
    r := Some(s);
  }

  /** What has been written after some paths: a semicolon follows all but the last. */
  function Joined(cd: Codec, paths: seq<Path>, i: nat, all: bool): string
    requires Reaches(paths, i)
  {
    if paths == [] then [] else if all then Join(Shown(cd, paths, i), ';') else Join(Shown(cd, paths, i), ';') + [';']
  }

  lemma JoinedNext(cd: Codec, paths: seq<Path>, i: nat, j: nat)
    requires j < |paths| && Reaches(paths[..j], i) && i < |paths[j]|
    ensures Reaches(paths[..j + 1], i)
    ensures Joined(cd, paths[..j], i, false) + cd.show(paths[j][i]) == Joined(cd, paths[..j + 1], i, true)
  {
    var text := cd.show(paths[j][i]);
    var shown := Shown(cd, paths[..j], i);
    assert paths[..j + 1] == paths[..j] + [paths[j]];
    assert Shown(cd, paths[..j + 1], i) == shown + [text];
    if j > 0 { JoinNext(shown, text, ';'); }
  }

  /** Several derivation paths, written as one; there is no text when a path that
      is looked at is too short. */
  method FmtDerivationPaths(cd: Codec, paths: seq<Path>) returns (r: Option<string>)
    requires paths != []
    ensures r == if AllIndexed(paths) then Some(Slashed(Segments(cd, paths))) else None
  {
    var s := "";
    for i := 0 to |paths[0]|
      invariant forall k :: 0 <= k < i ==> Indexed(paths, k)
      invariant s == Slashed(SegmentsTo(cd, paths, i))
    {
      if |paths| > 1 {
        if |paths[1]| <= i {
          assert !Indexed(paths, i);
          return None;
        }
        if paths[0][i] != paths[1][i] {
          var indices := FmtIndices(cd, paths, i);
          if indices == None {
            assert !Indexed(paths, i);
            return None;
          }
          s := s + ['/'] + (['<'] + indices.value + ['>']);
        } else {
          s := s + ['/'] + cd.show(paths[0][i]);
        }
      } else {
        s := s + ['/'] + cd.show(paths[0][i]);
      }
      NextSegment(cd, paths, i);
    }
    assert SegmentsTo(cd, paths, |paths[0]|) == Segments(cd, paths);
    r := Some(s);
  }

  function SegmentsTo(cd: Codec, paths: seq<Path>, n: nat): seq<string>
    requires paths != [] && n <= |paths[0]| && forall i :: 0 <= i < n ==> Indexed(paths, i)
  {
    seq(n, i requires 0 <= i < n => Segment(cd, paths, i))
  }

  lemma NextSegment(cd: Codec, paths: seq<Path>, n: nat)
    requires paths != [] && n < |paths[0]| && forall i :: 0 <= i <= n ==> Indexed(paths, i)
    ensures Slashed(SegmentsTo(cd, paths, n + 1)) == Slashed(SegmentsTo(cd, paths, n)) + ['/'] + Segment(cd, paths, n)
  {
    var before, segment := SegmentsTo(cd, paths, n), Segment(cd, paths, n);
    assert SegmentsTo(cd, paths, n + 1) == before + [segment];
    SlashedConcat(before, [segment]);
    SlashedOne(segment);
    assert Slashed(before) + (['/'] + segment) == Slashed(before) + ['/'] + segment;
  }

  lemma SlashedOne(s: string)
    ensures Slashed([s]) == ['/'] + s
  {
    assert [s][1..] == [] && ['/'] + s + [] == ['/'] + s;
  }

  // ----- parsing -----

  datatype PathError =
    | InvalidWildcardInDerivationPath
    | MultipleDerivationPathIndexSteps
    | InvalidMultiIndexStep
    | DerivationIndexError(index: string)

  datatype Parsed<+T> = Good(value: T) | Bad(error: PathError)

  /** What has been read of a derivation: the wildcard, whether there was a
      multipath step, and the paths so far. */
  datatype Progress = Progress(wildcard: Wildcard, multipath: bool, paths: seq<Path>)

  function ReadAll(cd: Codec, texts: seq<string>): (r: Parsed<seq<Child>>)
    ensures r.Good? ==> |r.value| == |texts|
  {
    if texts == [] then Good([])
    else
      match cd.read(texts[0])
      case None => Bad(DerivationIndexError(texts[0]))
      case Some(c) =>
        match ReadAll(cd, texts[1..])
        case Bad(e) => Bad(e)
        case Good(cs) => Good([c] + cs)
  }

  /** The first index goes onto every path; each further one makes a copy of the
      first path that ends in it. */
  function Extend(paths: seq<Path>, first: Child, more: seq<Child>): seq<Path> {
    var base := if paths == [] then [[first]] else seq(|paths|, j requires 0 <= j < |paths| => paths[j] + [first]);
    base + seq(|more|, j requires 0 <= j < |more| => base[0][..|base[0]| - 1] + [more[j]])
  }

  predicate IsMultiStep(p: string) { p != [] && p[0] == '<' && p[|p| - 1] == '>' }

  /** The indices a step allows. */
  function Indices(cd: Codec, p: string): (r: Parsed<seq<Child>>)
    ensures r.Good? ==> r.value != []
    ensures r.Good? && !IsMultiStep(p) ==> |r.value| == 1
  {
    if !IsMultiStep(p) then
      match cd.read(p)
      case None => Bad(DerivationIndexError(p))
      case Some(c) => Good([c])
    else if |p| < 5 || ';' !in p then Bad(InvalidMultiIndexStep)
    else ReadAll(cd, Split(p[1..|p| - 1], ';'))
  }

  predicate IsWildcard(p: string) { p == "*" || p == "*'" || p == "*h" }

  function ReadSegment(cd: Codec, st: Progress, p: string): Parsed<Progress> {
    if st.wildcard == NoWildcard && p == "*" then Good(st.(wildcard := Unhardened))
    else if st.wildcard == NoWildcard && (p == "*'" || p == "*h") then Good(st.(wildcard := Hardened))
    else if st.wildcard != NoWildcard then Bad(InvalidWildcardInDerivationPath)
    else if IsMultiStep(p) && st.multipath then Bad(MultipleDerivationPathIndexSteps)
    else
      match Indices(cd, p)
      case Bad(e) => Bad(e)
      case Good(cs) =>
        Good(st.(multipath := st.multipath || IsMultiStep(p), paths := Extend(st.paths, cs[0], cs[1..])))
  }

  function ReadFrom(cd: Codec, st: Progress, segments: seq<string>): Parsed<Progress>
    decreases |segments|
  {
    if segments == [] then Good(st)
    else
      match ReadSegment(cd, st, segments[0])
      case Bad(e) => Bad(e)
      case Good(next) => ReadFrom(cd, next, segments[1..])
  }

  const NOTHING_READ := Progress(NoWildcard, false, [])

  /** Until there is a multipath step there is at most one path. */
  predicate Single(st: Progress) { st.multipath || |st.paths| <= 1 }

  /** Adds a step to the paths; only a multipath step has further indices, and
      there is at most one path before it. */
  method ExtendPaths(paths: seq<Path>, first: Child, more: seq<Child>) returns (out: seq<Path>)
    requires |paths| <= 1 || more == []
    ensures out == Extend(paths, first, more)
  {
    if paths == [] {
      out := [[first]];
    } else {
      out := paths;
      for j := 0 to |paths|
        invariant |out| == |paths|
        invariant forall k :: 0 <= k < |paths| ==> out[k] == if k < j then paths[k] + [first] else paths[k]
      {
        out := out[j := out[j] + [first]];
      }
    }
    ghost var base := out;
    for i := 0 to |more|
      invariant |out| == |base| + i && base <= out
      invariant forall k :: 0 <= k < i ==> out[|base| + k] == base[0][..|base[0]| - 1] + [more[k]]
    {
      out := out + [out[0]];
      var last := |out[i + 1]| - 1;
      out := out[i + 1 := out[i + 1][..last] + [more[i]]];
    }
  }

  /** Parses the steps after a key. */
  method ParseXkeyDeriv(cd: Codec, segments: seq<string>) returns (r: Parsed<(seq<Path>, Wildcard)>)
    ensures match ReadFrom(cd, NOTHING_READ, segments)
            case Bad(e) => r == Bad(e)
            case Good(st) => r == Good((st.paths, st.wildcard))
  {
    var wildcard, multipath, paths: seq<Path> := NoWildcard, false, [];
    for i := 0 to |segments|
      invariant Single(Progress(wildcard, multipath, paths))
      invariant ReadFrom(cd, Progress(wildcard, multipath, paths), segments[i..]) == ReadFrom(cd, NOTHING_READ, segments)
    {
      var p := segments[i];
      assert segments[i..][0] == p && segments[i..][1..] == segments[i + 1..];
      if wildcard == NoWildcard && p == "*" {
        wildcard := Unhardened;
      } else if wildcard == NoWildcard && (p == "*'" || p == "*h") {
        wildcard := Hardened;
      } else if wildcard != NoWildcard {
        return Bad(InvalidWildcardInDerivationPath);
      } else if IsMultiStep(p) {
        if multipath { return Bad(MultipleDerivationPathIndexSteps); }
        multipath := true;
        if |p| < 5 || ';' !in p { return Bad(InvalidMultiIndexStep); }
        var cs := ReadAll(cd, Split(p[1..|p| - 1], ';'));
        if cs.Bad? { return Bad(cs.error); }
        paths := ExtendPaths(paths, cs.value[0], cs.value[1..]);
      } else {
        var c := cd.read(p);
        if c == None { return Bad(DerivationIndexError(p)); }
        paths := ExtendPaths(paths, c.value, []);
      }
    }
    assert segments[|segments|..] == [];
    r := Good((paths, wildcard));
  }

  // ----- the shape of parsed paths -----

  /** The steps among the segments: all but a wildcard at the end. */
  function StepsOf(segments: seq<string>): seq<string> {
    if segments != [] && IsWildcard(segments[|segments| - 1]) then segments[..|segments| - 1] else segments
  }

  function WildcardOf(segments: seq<string>): Wildcard {
    if segments == [] || !IsWildcard(segments[|segments| - 1]) then NoWildcard
    else if segments[|segments| - 1] == "*" then Unhardened
    else Hardened
  }

  predicate HasMulti(steps: seq<string>) { exists i :: 0 <= i < |steps| && IsMultiStep(steps[i]) }

  predicate HasIndices(cd: Codec, p: string) { !IsWildcard(p) && Indices(cd, p).Good? }

  /** Steps that can be read: their indices can, there is no wildcard among them,
      and at most one of them is a multipath step. */
  predicate Acceptable(cd: Codec, steps: seq<string>) {
    && (forall i :: 0 <= i < |steps| ==> HasIndices(cd, steps[i]))
    && forall i, k :: 0 <= i < k < |steps| && IsMultiStep(steps[i]) ==> !IsMultiStep(steps[k])
  }

  /** Index `j` of a multipath step, or the only index of another step. */
  function Pick(cd: Codec, p: string, j: nat): Child
    requires HasIndices(cd, p)
  {
    var cs := Indices(cd, p).value;
    if j < |cs| then cs[j] else cs[0]
  }

  /** The paths that steps stand for: one for every index of the multipath step, or
      a single one, or none without any step. Path number `j` takes index number `j`
      at the multipath step and otherwise the only one. */
  predicate Spelled(cd: Codec, steps: seq<string>, paths: seq<Path>)
    requires Acceptable(cd, steps)
  {
    && (steps == [] ==> paths == [])
    && (steps != [] && !HasMulti(steps) ==> |paths| == 1)
    && (forall i :: 0 <= i < |steps| && IsMultiStep(steps[i]) ==> |paths| == |Indices(cd, steps[i]).value|)
    && (forall j :: 0 <= j < |paths| ==> |paths[j]| == |steps|)
    && forall j, i :: 0 <= j < |paths| && 0 <= i < |paths[j]| ==> paths[j][i] == Pick(cd, steps[i], j)
  }

  /** The steps and the multipath index determine everything. */
  lemma SpelledOnce(cd: Codec, steps: seq<string>, paths: seq<Path>, paths': seq<Path>)
    requires Acceptable(cd, steps) && Spelled(cd, steps, paths) && Spelled(cd, steps, paths')
    ensures paths == paths'
  {
    if HasMulti(steps) {
      var m :| 0 <= m < |steps| && IsMultiStep(steps[m]);
      assert |paths| == |paths'|;
    }
    forall j | 0 <= j < |paths|
      ensures |paths| == |paths'| && paths[j] == paths'[j]
    {
      assert |paths[j]| == |paths'[j]|;
      assert forall i :: 0 <= i < |paths[j]| ==> paths[j][i] == Pick(cd, steps[i], j) && paths'[j][i] == Pick(cd, steps[i], j);
    }
  }

  lemma ExtendPlain(paths: seq<Path>, c: Child)
    ensures var out := Extend(paths, c, []);
            && |out| == (if paths == [] then 1 else |paths|)
            && forall j :: 0 <= j < |out| ==> out[j] == (if paths == [] then [] else paths[j]) + [c]
  {
  }

  lemma ExtendMany(paths: seq<Path>, cs: seq<Child>)
    requires |paths| <= 1 && cs != []
    ensures var out := Extend(paths, cs[0], cs[1..]);
            && |out| == |cs|
            && forall j :: 0 <= j < |out| ==> out[j] == (if paths == [] then [] else paths[0]) + [cs[j]]
  {
    var base: Path := if paths == [] then [] else paths[0];
    var out := Extend(paths, cs[0], cs[1..]);
    assert (base + [cs[0]])[..|base|] == base;
    assert out[0] == base + [cs[0]];
    forall j | 0 < j < |cs|
      ensures out[j] == base + [cs[j]]
    {
    }
  }

  lemma AcceptableNext(cd: Codec, steps: seq<string>, p: string)
    requires Acceptable(cd, steps) && HasIndices(cd, p) && !(IsMultiStep(p) && HasMulti(steps))
    ensures Acceptable(cd, steps + [p]) && (HasMulti(steps + [p]) <==> HasMulti(steps) || IsMultiStep(p))
  {
    var all := steps + [p];
    if HasMulti(steps) {
      var i :| 0 <= i < |steps| && IsMultiStep(steps[i]);
      assert all[i] == steps[i];
    }
    assert all[|steps|] == p;
  }

  /** How many paths there are after one more step. */
  lemma WidthNext(cd: Codec, steps: seq<string>, paths: seq<Path>, p: string, cs: seq<Child>, out: seq<Path>)
    requires Acceptable(cd, steps) && Spelled(cd, steps, paths) && HasIndices(cd, p) && cs == Indices(cd, p).value
    requires !(IsMultiStep(p) && HasMulti(steps)) && out == Extend(paths, cs[0], cs[1..])
    ensures |out| == if IsMultiStep(p) then |cs| else if paths == [] then 1 else |paths|
    ensures !HasMulti(steps) ==> |paths| <= 1
    ensures forall j :: 0 <= j < |out| ==>
            out[j] == (if paths == [] then [] else if j < |paths| then paths[j] else paths[0]) + [Pick(cd, p, j)]
  {
    if IsMultiStep(p) {
      ExtendMany(paths, cs);
    } else {
      assert cs[1..] == [];
      ExtendPlain(paths, cs[0]);
    }
  }

  lemma NonEmptyAfter(cd: Codec, steps: seq<string>, paths: seq<Path>)
    requires Acceptable(cd, steps) && Spelled(cd, steps, paths)
    ensures paths == [] <==> steps == []
  {
    if HasMulti(steps) {
      var m :| 0 <= m < |steps| && IsMultiStep(steps[m]);
      assert HasIndices(cd, steps[m]);
    }
  }

  lemma StepKept(cd: Codec, steps: seq<string>, paths: seq<Path>, p: string, all: seq<string>, path: Path, j: nat)
    requires Acceptable(cd, steps) && Spelled(cd, steps, paths) && HasIndices(cd, p) && all == steps + [p]
    requires j < |paths| || (|paths| <= 1 && !HasMulti(steps))
    requires path == (if paths == [] then [] else if j < |paths| then paths[j] else paths[0]) + [Pick(cd, p, j)]
    ensures |path| == |all| && forall i :: 0 <= i < |all| ==> HasIndices(cd, all[i]) && path[i] == Pick(cd, all[i], j)
  {
    NonEmptyAfter(cd, steps, paths);
    forall i | 0 <= i < |all|
      ensures |path| == |all| && HasIndices(cd, all[i]) && path[i] == Pick(cd, all[i], j)
    {
      if i < |steps| {
        assert all[i] == steps[i] && HasIndices(cd, steps[i]);
        if j >= |paths| { assert !IsMultiStep(steps[i]) && paths[0][i] == Pick(cd, steps[i], 0); }
      } else {
        assert all[i] == p;
      }
    }
  }

  lemma SpelledNext(cd: Codec, steps: seq<string>, paths: seq<Path>, p: string, all: seq<string>)
    requires Acceptable(cd, steps) && Spelled(cd, steps, paths) && HasIndices(cd, p)
    requires !(IsMultiStep(p) && HasMulti(steps)) && all == steps + [p]
    ensures Acceptable(cd, all)
    ensures Spelled(cd, all, Extend(paths, Indices(cd, p).value[0], Indices(cd, p).value[1..]))
  {
    AcceptableNext(cd, steps, p);
    var cs := Indices(cd, p).value;
    var out := Extend(paths, cs[0], cs[1..]);
    WidthNext(cd, steps, paths, p, cs, out);
    NonEmptyAfter(cd, steps, paths);
    forall i | 0 <= i < |all| && IsMultiStep(all[i])
      ensures |out| == |Indices(cd, all[i]).value|
    {
      if i < |steps| { assert steps[i] == all[i] && HasMulti(steps); }
    }
    forall j | 0 <= j < |out|
      ensures |out[j]| == |all| && forall i :: 0 <= i < |all| ==> out[j][i] == Pick(cd, all[i], j)
    {
      StepKept(cd, steps, paths, p, all, out[j], j);
    }
  }

  lemma StepsFirst(segments: seq<string>)
    requires segments != [] && (|segments| > 1 || !IsWildcard(segments[0]))
    ensures StepsOf(segments) == [segments[0]] + StepsOf(segments[1..]) && WildcardOf(segments) == WildcardOf(segments[1..])
  {
    var rest := segments[1..];
    assert segments == [segments[0]] + rest;
    if rest != [] {
      assert rest[|rest| - 1] == segments[|segments| - 1];
      assert segments[..|segments| - 1] == [segments[0]] + rest[..|rest| - 1];
    }
  }

  lemma StepsShift(done: seq<string>, segments: seq<string>)
    requires segments != [] && (|segments| > 1 || !IsWildcard(segments[0]))
    ensures done + StepsOf(segments) == (done + [segments[0]]) + StepsOf(segments[1..])
  {
    StepsFirst(segments);
  }

  /** After a wildcard nothing more is read. */
  lemma WildcardLast(cd: Codec, st: Progress, segments: seq<string>)
    requires st.wildcard != NoWildcard && segments != []
    ensures ReadFrom(cd, st, segments).Bad?
  {
  }

  /** What reading has done: the steps so far are spelled out by the paths. */
  ghost predicate ReadSoFar(cd: Codec, done: seq<string>, st: Progress) {
    st.wildcard == NoWildcard && Acceptable(cd, done) && Spelled(cd, done, st.paths) && (st.multipath <==> HasMulti(done))
  }

  lemma ReadOne(cd: Codec, done: seq<string>, st: Progress, p: string)
    requires ReadSoFar(cd, done, st) && !IsWildcard(p)
    ensures ReadSegment(cd, st, p).Good? <==> Acceptable(cd, done + [p])
    ensures ReadSegment(cd, st, p).Good? ==> ReadSoFar(cd, done + [p], ReadSegment(cd, st, p).value)
  {
    var all := done + [p];
    assert all[|done|] == p;
    if HasMulti(done) {
      var i :| 0 <= i < |done| && IsMultiStep(done[i]);
      assert all[i] == done[i];
    }
    if HasIndices(cd, p) && !(IsMultiStep(p) && HasMulti(done)) {
      AcceptableNext(cd, done, p);
      SpelledNext(cd, done, st.paths, p, all);
    }
  }

  lemma AcceptablePrefix(cd: Codec, a: seq<string>, b: seq<string>)
    requires Acceptable(cd, a + b)
    ensures Acceptable(cd, a)
  {
    assert forall i :: 0 <= i < |a| ==> (a + b)[i] == a[i];
  }

  /** Reading goes on to the end exactly when all steps are acceptable. */
  lemma {:induction false} ReadExactly(cd: Codec, done: seq<string>, st: Progress, segments: seq<string>)
    requires ReadSoFar(cd, done, st)
    ensures var r, steps := ReadFrom(cd, st, segments), done + StepsOf(segments);
            && (r.Good? <==> Acceptable(cd, steps))
            && (r.Good? ==> r.value.wildcard == WildcardOf(segments) && Spelled(cd, steps, r.value.paths))
    decreases |segments|
  {
    if segments == [] {
      assert done + [] == done;
    } else {
      var p, rest := segments[0], segments[1..];
      if IsWildcard(p) {
        if rest == [] {
          assert segments == [p] && StepsOf(segments) == [] && done + [] == done;
        } else {
          WildcardLast(cd, ReadSegment(cd, st, p).value, rest);
          StepsShift(done, segments);
          assert (done + [p] + StepsOf(rest))[|done|] == p;
        }
      } else {
        StepsShift(done, segments);
        StepsFirst(segments);
        ReadOne(cd, done, st, p);
        if Acceptable(cd, done + [p]) {
          ReadExactly(cd, done + [p], ReadSegment(cd, st, p).value, rest);
        } else if Acceptable(cd, done + [p] + StepsOf(rest)) {
          AcceptablePrefix(cd, done + [p], StepsOf(rest));
        }
      }
    }
  }

  /** Segments are read exactly when they are acceptable steps and perhaps a
      wildcard at the end; the paths are those the steps spell out. */
  lemma ParsedShape(cd: Codec, segments: seq<string>)
    ensures var r, steps := ReadFrom(cd, NOTHING_READ, segments), StepsOf(segments);
            && (r.Good? <==> Acceptable(cd, steps))
            && (r.Good? ==> r.value.wildcard == WildcardOf(segments) && Spelled(cd, steps, r.value.paths))
  {
    ReadExactly(cd, [], NOTHING_READ, segments);
    assert [] + StepsOf(segments) == StepsOf(segments);
  }

  /** All paths are equally long and differ at most in step number `m`. */
  predicate DifferOnlyAt(paths: seq<Path>, m: nat) {
    && EqualLengths(paths)
    && forall j, i :: 0 <= j < |paths| && 0 <= i < |paths[j]| && i != m ==> paths[j][i] == paths[0][i]
  }

  // ----- printing, then parsing -----

  /** Step number `m` tells the first two paths apart, and the paths differ nowhere else. */
  predicate Multipath(paths: seq<Path>, m: nat) {
    && |paths| > 1 && DifferOnlyAt(paths, m) && m < |paths[0]| && paths[0][m] != paths[1][m]
  }

  lemma {:induction false} ReadShown(cd: Codec, cs: seq<Child>, texts: seq<string>)
    requires Readable(cd) && |texts| == |cs| && forall j :: 0 <= j < |cs| ==> texts[j] == cd.show(cs[j])
    ensures ReadAll(cd, texts) == Good(cs)
    decreases |cs|
  {
    if cs != [] {
      ReadShown(cd, cs[1..], texts[1..]);
      assert cs == [cs[0]] + cs[1..];
    }
  }

  function Column(paths: seq<Path>, i: nat): seq<Child>
    requires Reaches(paths, i)
  {
    seq(|paths|, j requires 0 <= j < |paths| => paths[j][i])
  }

  lemma {:induction false} JoinLong(parts: seq<string>, sep: char)
    requires |parts| > 1 && forall j :: 0 <= j < |parts| ==> parts[j] != []
    ensures |Join(parts, sep)| >= 3 && sep in Join(parts, sep)
    decreases |parts|
  {
    var s := Join(parts, sep);
    var rest := Join(parts[1..], sep);
    assert s == parts[0] + [sep] + rest;
    assert s[|parts[0]|] == sep;
    if |parts| == 2 {
      assert parts[1..] == [parts[1]];
    } else {
      JoinLong(parts[1..], sep);
    }
  }

  lemma PlainText(cd: Codec, c: Child)
    requires Readable(cd)
    ensures HasIndices(cd, cd.show(c)) && !IsMultiStep(cd.show(c)) && Indices(cd, cd.show(c)) == Good([c])
  {
    assert IsIndexText(cd.show(c)) && !IsSpecial(cd.show(c)[0]);
  }

  lemma MultiText(cd: Codec, paths: seq<Path>, i: nat, p: string)
    requires Readable(cd) && Reaches(paths, i) && |paths| > 1
    requires p == ['<'] + Join(Shown(cd, paths, i), ';') + ['>']
    ensures HasIndices(cd, p) && IsMultiStep(p) && Indices(cd, p) == Good(Column(paths, i))
  {
    var shown := Shown(cd, paths, i);
    var inner := Join(shown, ';');
    forall j | 0 <= j < |shown|
      ensures shown[j] != [] && Without(shown[j], ';')
    {
      assert IsIndexText(cd.show(paths[j][i]));
      forall k | 0 <= k < |shown[j]|
        ensures shown[j][k] != ';'
      {
        assert !IsSpecial(shown[j][k]);
      }
    }
    JoinLong(shown, ';');
    SplitJoin(shown, ';');
    ReadShown(cd, Column(paths, i), shown);
    assert p[1..|p| - 1] == inner;
    var k :| 0 <= k < |inner| && inner[k] == ';';
    assert p[k + 1] == ';';
  }

  /** A printed step holds the indices it was printed from. */
  lemma SegmentIndices(cd: Codec, paths: seq<Path>, i: nat)
    requires Readable(cd) && paths != [] && i < |paths[0]| && Indexed(paths, i)
    ensures var p := Segment(cd, paths, i);
            && HasIndices(cd, p) && (IsMultiStep(p) <==> Tells(paths, i))
            && Indices(cd, p) == Good(if Tells(paths, i) then Column(paths, i) else [paths[0][i]])
  {
    if Tells(paths, i) {
      MultiText(cd, paths, i, Segment(cd, paths, i));
    } else {
      PlainText(cd, paths[0][i]);
    }
  }

  /** Everything that is printed: the steps and the wildcard. */
  function AllSegments(cd: Codec, paths: seq<Path>, w: Wildcard): seq<string>
    requires paths != [] && AllIndexed(paths)
  {
    Segments(cd, paths) + WildcardSegments(w)
  }

  lemma PrintedSteps(cd: Codec, paths: seq<Path>, w: Wildcard)
    requires Readable(cd) && paths != [] && AllIndexed(paths)
    ensures StepsOf(AllSegments(cd, paths, w)) == Segments(cd, paths) && WildcardOf(AllSegments(cd, paths, w)) == w
  {
    var steps, all := Segments(cd, paths), AllSegments(cd, paths, w);
    if w == NoWildcard {
      assert all == steps;
      if steps != [] { SegmentIndices(cd, paths, |paths[0]| - 1); }
    } else {
      assert all[..|all| - 1] == steps;
    }
  }

  /** What a list of paths is read as once printed; there is nothing to read when a
      path that is looked at is too short. */
  function Reread(cd: Codec, paths: seq<Path>, w: Wildcard): Option<Parsed<(seq<Path>, Wildcard)>>
    requires paths != []
  {
    if !AllIndexed(paths) then None
    else
      match ReadFrom(cd, NOTHING_READ, AllSegments(cd, paths, w))
      case Bad(e) => Some(Bad(e))
      case Good(st) => Some(Good((st.paths, st.wildcard)))
  }

  /** Printed steps are read as the paths they spell out. */
  lemma RereadSpelled(cd: Codec, paths: seq<Path>, w: Wildcard, out: seq<Path>)
    requires Readable(cd) && paths != [] && AllIndexed(paths)
    requires Acceptable(cd, Segments(cd, paths)) && Spelled(cd, Segments(cd, paths), out)
    ensures Reread(cd, paths, w) == Some(Good((out, w)))
  {
    PrintedSteps(cd, paths, w);
    ParsedShape(cd, AllSegments(cd, paths, w));
    SpelledOnce(cd, Segments(cd, paths), out, ReadFrom(cd, NOTHING_READ, AllSegments(cd, paths, w)).value.paths);
  }

  lemma MultipathIndexed(paths: seq<Path>, m: nat)
    requires Multipath(paths, m)
    ensures AllIndexed(paths) && Reaches(paths, m)
    ensures forall i :: 0 <= i < |paths[0]| ==> (Tells(paths, i) <==> i == m)
  {
    assert |paths[1]| == |paths[0]|;
    forall i | 0 <= i < |paths[0]|
      ensures Indexed(paths, i) && (Tells(paths, i) <==> i == m)
    {
      if i != m { assert paths[1][i] == paths[0][i]; }
    }
  }

  lemma MultipathSpelled(cd: Codec, paths: seq<Path>, m: nat)
    requires Readable(cd) && Multipath(paths, m)
    ensures AllIndexed(paths) && Acceptable(cd, Segments(cd, paths)) && Spelled(cd, Segments(cd, paths), paths)
  {
    MultipathIndexed(paths, m);
    var steps := Segments(cd, paths);
    forall i | 0 <= i < |steps|
      ensures HasIndices(cd, steps[i]) && (IsMultiStep(steps[i]) <==> i == m)
    {
      SegmentIndices(cd, paths, i);
    }
    assert IsMultiStep(steps[m]);
    SegmentIndices(cd, paths, m);
    forall j, i | 0 <= j < |paths| && 0 <= i < |paths[j]|
      ensures paths[j][i] == Pick(cd, steps[i], j)
    {
      SegmentIndices(cd, paths, i);
      if i != m { assert paths[j][i] == paths[0][i]; }
    }
  }

  /** A step that is not a multipath step is the same for all paths. */
  lemma SpelledDiffer(cd: Codec, steps: seq<string>, paths: seq<Path>, m: nat)
    requires Acceptable(cd, steps) && Spelled(cd, steps, paths) && m < |steps| && IsMultiStep(steps[m])
    ensures DifferOnlyAt(paths, m)
  {
    forall j, i | 0 <= j < |paths| && 0 <= i < |paths[j]| && i != m
      ensures paths[j][i] == paths[0][i]
    {
      assert HasIndices(cd, steps[i]) && !IsMultiStep(steps[i]);
    }
  }

  /** Printing several paths and parsing them again gives them back, in order,
      exactly when they differ in one step only and the first two differ there. */
  lemma PrintParseExactly(cd: Codec, paths: seq<Path>, w: Wildcard)
    requires Readable(cd) && |paths| > 1
    ensures Reread(cd, paths, w) == Some(Good((paths, w))) <==> exists m: nat :: Multipath(paths, m)
  {
    if m: nat :| Multipath(paths, m) {
      MultipathSpelled(cd, paths, m);
      RereadSpelled(cd, paths, w, paths);
    }
    if Reread(cd, paths, w) == Some(Good((paths, w))) {
      var steps := Segments(cd, paths);
      PrintedSteps(cd, paths, w);
      ParsedShape(cd, AllSegments(cd, paths, w));
      assert HasMulti(steps);
      var m :| 0 <= m < |steps| && IsMultiStep(steps[m]);
      SegmentIndices(cd, paths, m);
      SpelledDiffer(cd, steps, paths, m);
      assert Multipath(paths, m);
    }
  }

  /** A single path always comes back; the empty one is read as no path, which
      stands for it. */
  lemma PrintParseOne(cd: Codec, path: Path, w: Wildcard)
    requires Readable(cd)
    ensures Reread(cd, [path], w) == Some(Good((if path == [] then [] else [path], w)))
  {
    var steps := Segments(cd, [path]);
    forall i | 0 <= i < |steps|
      ensures HasIndices(cd, steps[i]) && !IsMultiStep(steps[i]) && Pick(cd, steps[i], 0) == path[i]
    {
      SegmentIndices(cd, [path], i);
    }
    RereadSpelled(cd, [path], w, if path == [] then [] else [path]);
  }

  /** One multipath step is read as one path for each of its indices. */
  lemma ReadStep(cd: Codec, step: string, cs: seq<Child>, paths: seq<Path>)
    requires HasIndices(cd, step) && IsMultiStep(step) && Indices(cd, step) == Good(cs)
    requires |paths| == |cs| && forall j :: 0 <= j < |cs| ==> paths[j] == [cs[j]]
    ensures ReadFrom(cd, NOTHING_READ, [step]) == Good(Progress(NoWildcard, true, paths))
  {
    ExtendMany([], cs);
    var out := Extend([], cs[0], cs[1..]);
    forall j | 0 <= j < |cs|
      ensures |out| == |cs| && out[j] == paths[j]
    {
      assert out[j] == [] + [cs[j]];
    }
    assert out == paths;
    assert [step][1..] == [];
  }

  /** Paths that the parser itself returns can be lost: the step `<0;0;1>` is read
      as three paths and printed as one. */
  lemma PathsLost(cd: Codec, a: Child, b: Child, w: Wildcard)
    requires Readable(cd) && a != b
    ensures var step := ['<'] + Join([cd.show(a), cd.show(a), cd.show(b)], ';') + ['>'];
            ReadFrom(cd, NOTHING_READ, [step]) == Good(Progress(NoWildcard, true, [[a], [a], [b]]))
    ensures Reread(cd, [[a], [a], [b]], w) == Some(Good(([[a]], w)))
  {
    var paths: seq<Path> := [[a], [a], [b]];
    assert Shown(cd, paths, 0) == [cd.show(a), cd.show(a), cd.show(b)];
    var step := ['<'] + Join(Shown(cd, paths, 0), ';') + ['>'];
    MultiText(cd, paths, 0, step);
    ReadStep(cd, step, Column(paths, 0), paths);
    PrintedOnce(cd, paths, a, w);
  }

  /** Paths of one step of which the first two agree are printed as one. */
  lemma PrintedOnce(cd: Codec, paths: seq<Path>, a: Child, w: Wildcard)
    requires Readable(cd) && |paths| > 1 && paths[0] == [a] && paths[1] == [a]
    ensures Reread(cd, paths, w) == Some(Good(([[a]], w)))
  {
    SegmentIndices(cd, paths, 0);
    assert Segments(cd, paths) == [cd.show(a)];
    RereadSpelled(cd, paths, w, [[a]]);
  }

  /** Steps that only a later path has are cut off. */
  lemma StepsLost(cd: Codec, a: Child, b: Child, c: Child, w: Wildcard)
    requires Readable(cd) && a != b
    ensures Reread(cd, [[a], [b, c]], w) == Some(Good(([[a], [b]], w)))
  {
    var paths: seq<Path> := [[a], [b, c]];
    SegmentIndices(cd, paths, 0);
    assert Column(paths, 0) == [a, b] && IsMultiStep(Segments(cd, paths)[0]);
    RereadSpelled(cd, paths, w, [[a], [b]]);
  }

  lemma SegmentPlain(cd: Codec, paths: seq<Path>, i: nat)
    requires Readable(cd) && paths != [] && i < |paths[0]| && Indexed(paths, i)
    ensures Without(Segment(cd, paths, i), '/')
  {
    if Tells(paths, i) {
      var shown := Shown(cd, paths, i);
      forall j | 0 <= j < |paths|
        ensures Without(shown[j], '/')
      {
        NoSlash(cd, paths[j][i]);
      }
      JoinWithout(shown, ';', '/');
    } else {
      NoSlash(cd, paths[0][i]);
    }
  }

  lemma NoSlash(cd: Codec, c: Child)
    requires Readable(cd)
    ensures Without(cd.show(c), '/')
  {
    var s := cd.show(c);
    assert IsIndexText(s);
    forall k | 0 <= k < |s|
      ensures s[k] != '/'
    {
      assert !IsSpecial(s[k]);
    }
  }

  lemma {:induction false} JoinWithout(parts: seq<string>, sep: char, ch: char)
    requires parts != [] && sep != ch && forall j :: 0 <= j < |parts| ==> Without(parts[j], ch)
    ensures Without(Join(parts, sep), ch)
    decreases |parts|
  {
    if |parts| > 1 { JoinWithout(parts[1..], sep, ch); }
  }

  /** The text of a key, its paths and its wildcard splits into the key and the
      segments that were printed. */
  lemma TextSplits(cd: Codec, key: string, paths: seq<Path>, w: Wildcard)
    requires Readable(cd) && paths != [] && AllIndexed(paths) && Without(key, '/')
    ensures Split(key + Slashed(AllSegments(cd, paths, w)), '/') == [key] + AllSegments(cd, paths, w)
  {
    var segments := AllSegments(cd, paths, w);
    SlashedJoin(key, segments);
    forall i | 0 <= i < |[key] + segments|
      ensures Without(([key] + segments)[i], '/')
    {
      if 0 < i <= |paths[0]| { SegmentPlain(cd, paths, i - 1); }
    }
    SplitJoin([key] + segments, '/');
  }
}
