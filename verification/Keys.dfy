/** Extended keys and their public versions: hardened derivation steps are taken
    on the private key and recorded in the origin. */
module Keys {
  import opened Bytes

  datatype Child = Child(index: nat, hardened: bool)

  type Path = seq<Child>

  type Fingerprint = nat

  datatype Wildcard = NoWildcard | Unhardened | Hardened

  type Origin = Option<(Fingerprint, Path)>

  datatype XKey<K> = XKey(origin: Origin, key: K, path: Path, wildcard: Wildcard)

  datatype MultiXKey<K> = MultiXKey(origin: Origin, key: K, paths: seq<Path>, wildcard: Wildcard)

  datatype KeyError = DeriveHardenedKey | InvalidMultiXKeyDerivation

  datatype Result<+T> = Ok(value: T) | Err(error: KeyError)

  /** BIP 32 for private keys `S` and public keys `P`: one derivation step on
      either kind of key, the public key of a private key, and its fingerprint. */
  datatype Bip32<!S, !P> = Bip32(
    priv: (S, Child) -> Option<S>,
    pub: (P, Child) -> Option<P>,
    neuter: S -> P,
    fingerprint: S -> Fingerprint)

  /** Public derivation mirrors private derivation on steps that are not hardened. */
  ghost predicate Lawful<S(!new), P(!new)>(b: Bip32<S, P>) {
    forall k: S, c: Child :: !c.hardened ==>
      b.pub(b.neuter(k), c) == match b.priv(k, c) case None => None case Some(k') => Some(b.neuter(k'))
  }

  function DerivePriv<S, P>(b: Bip32<S, P>, k: S, path: Path): Option<S>
    decreases |path|
  {
    if path == [] then Some(k)
    else
      match b.priv(k, path[0])
      case None => None
      case Some(k') => DerivePriv(b, k', path[1..])
  }

  function DerivePub<S, P>(b: Bip32<S, P>, k: P, path: Path): Option<P>
    decreases |path|
  {
    if path == [] then Some(k)
    else
      match b.pub(k, path[0])
      case None => None
      case Some(k') => DerivePub(b, k', path[1..])
  }

  predicate IsHardened(path: Path) { exists i :: 0 <= i < |path| && path[i].hardened }

  /** How many steps at the end are not hardened. */
  function NormalSteps(path: Path): (n: nat)
    ensures n <= |path|
    decreases |path|
  {
    if path == [] || path[|path| - 1].hardened then 0 else 1 + NormalSteps(path[..|path| - 1])
  }

  /** Everything up to the last hardened step, and the rest. */
  function HardenedPart(path: Path): Path { path[..|path| - NormalSteps(path)] }

  function NormalPart(path: Path): Path { path[|path| - NormalSteps(path)..] }

  lemma {:induction false} SplitPath(path: Path)
    ensures HardenedPart(path) + NormalPart(path) == path && !IsHardened(NormalPart(path))
    ensures HardenedPart(path) == [] || HardenedPart(path)[|HardenedPart(path)| - 1].hardened
    decreases |path|
  {
    if path != [] && !path[|path| - 1].hardened {
      var most := path[..|path| - 1];
      SplitPath(most);
      var n := |path| - NormalSteps(path);
      assert most[..n] == path[..n] && NormalPart(path) == NormalPart(most) + [path[|path| - 1]];
    }
  }

  // ----- to public -----

  /** The derivation steps taken are appended to the origin; a key without one
      becomes its own origin, unless no step was taken. */
  function NewOrigin(origin: Origin, own: Fingerprint, taken: Path): Origin {
    match origin
    case Some((fingerprint, path)) => Some((fingerprint, path + taken))
    case None => if taken != [] then Some((own, taken)) else None
  }

  function ToPublic<S, P>(b: Bip32<S, P>, x: XKey<S>): Result<XKey<P>> {
    match DerivePriv(b, x.key, HardenedPart(x.path))
    case None => Err(DeriveHardenedKey)
    case Some(k) =>
      Ok(XKey(NewOrigin(x.origin, b.fingerprint(x.key), HardenedPart(x.path)), b.neuter(k), NormalPart(x.path), x.wildcard))
  }

  /** The steps all paths have in common from number `i` on. */
  function SharedFrom(paths: seq<Path>, i: nat): Path
    requires paths != []
    decreases |paths[0]| - i
  {
    if i < |paths[0]| && forall j :: 1 <= j < |paths| ==> |paths[j]| > i && paths[j][i] == paths[0][i]
    then [paths[0][i]] + SharedFrom(paths, i + 1)
    else []
  }

  function SharedPrefix(paths: seq<Path>): Path
    requires paths != []
  {
    SharedFrom(paths, 0)
  }

  /** The paths without their first `n` steps. */
  function Suffixes(paths: seq<Path>, n: nat): seq<Path>
    requires forall j :: 0 <= j < |paths| ==> n <= |paths[j]|
  {
    seq(|paths|, j requires 0 <= j < |paths| => paths[j][n..])
  }

  predicate AnyHardened(paths: seq<Path>) { exists j :: 0 <= j < |paths| && IsHardened(paths[j]) }

  function Prepend(p: Path, paths: seq<Path>): seq<Path> {
    seq(|paths|, j requires 0 <= j < |paths| => p + paths[j])
  }

  function MultiToPublic<S, P>(b: Bip32<S, P>, x: MultiXKey<S>): Result<MultiXKey<P>>
    requires x.paths != []
  {
    SharedIsPrefix(x.paths);
    var shared := SharedPrefix(x.paths);
    var suffixes := Suffixes(x.paths, |shared|);
    if AnyHardened(suffixes) then Err(InvalidMultiXKeyDerivation)
    else
      match DerivePriv(b, x.key, HardenedPart(shared))
      case None => Err(DeriveHardenedKey)
      case Some(k) =>
        Ok(MultiXKey(NewOrigin(x.origin, b.fingerprint(x.key), HardenedPart(shared)), b.neuter(k),
            Prepend(NormalPart(shared), suffixes), x.wildcard))
  }

  // ----- the shared prefix -----

  predicate CommonPrefix(p: Path, paths: seq<Path>) { forall j :: 0 <= j < |paths| ==> p <= paths[j] }

  lemma {:induction false} SharedFromAt(paths: seq<Path>, i: nat, j: nat)
    requires paths != [] && j < |paths| && i <= |paths[0]| && i <= |paths[j]| && paths[0][..i] == paths[j][..i]
    ensures var p := paths[0][..i] + SharedFrom(paths, i); p <= paths[0] && p <= paths[j]
    decreases |paths[0]| - i
  {
    if i < |paths[0]| && forall l :: 1 <= l < |paths| ==> |paths[l]| > i && paths[l][i] == paths[0][i] {
      assert |paths[j]| > i && paths[j][i] == paths[0][i];
      assert paths[0][..i + 1] == paths[0][..i] + [paths[0][i]];
      assert paths[j][..i + 1] == paths[j][..i] + [paths[j][i]];
      SharedFromAt(paths, i + 1, j);
      assert paths[0][..i] + ([paths[0][i]] + SharedFrom(paths, i + 1)) == paths[0][..i + 1] + SharedFrom(paths, i + 1);
    }
  }

  lemma SharedIsPrefix(paths: seq<Path>)
    requires paths != []
    ensures CommonPrefix(SharedPrefix(paths), paths)
    ensures forall j :: 0 <= j < |paths| ==> |SharedPrefix(paths)| <= |paths[j]|
  {
    forall j | 0 <= j < |paths|
      ensures SharedPrefix(paths) <= paths[j]
    {
      SharedFromAt(paths, 0, j);
      assert paths[0][..0] + SharedPrefix(paths) == SharedPrefix(paths);
    }
  }

  lemma {:induction false} SharedFromLongest(paths: seq<Path>, i: nat, p: Path)
    requires paths != [] && CommonPrefix(p, paths) && i <= |p|
    ensures |p| <= i + |SharedFrom(paths, i)|
    decreases |p| - i
  {
    if i < |p| {
      assert p <= paths[0] && p[i] == paths[0][i];
      forall j | 1 <= j < |paths|
        ensures |paths[j]| > i && paths[j][i] == paths[0][i]
      {
        assert p <= paths[j] && p[i] == paths[j][i];
      }
      SharedFromLongest(paths, i + 1, p);
    }
  }

  /** The shared prefix is the longest common one. */
  lemma SharedLongest(paths: seq<Path>, p: Path)
    requires paths != [] && CommonPrefix(p, paths)
    ensures CommonPrefix(SharedPrefix(paths), paths) && p <= SharedPrefix(paths)
  {
    SharedIsPrefix(paths);
    SharedFromLongest(paths, 0, p);
    assert p <= paths[0] && SharedPrefix(paths) <= paths[0];
    assert p == paths[0][..|p|] == SharedPrefix(paths)[..|p|];
  }

  // ----- paths are kept -----

  function OriginPath(origin: Origin): Path { if origin.None? then [] else origin.value.1 }

  /** The path from the master key. */
  function FullPath<K>(x: XKey<K>): Path { OriginPath(x.origin) + x.path }

  function FullPaths<K>(x: MultiXKey<K>): seq<Path> { Prepend(OriginPath(x.origin), x.paths) }

  lemma OriginGrows(origin: Origin, own: Fingerprint, taken: Path)
    ensures OriginPath(NewOrigin(origin, own, taken)) == OriginPath(origin) + taken
  {
  }

  lemma HardenedExactly(path: Path)
    ensures IsHardened(path) <==> HardenedPart(path) != []
  {
    SplitPath(path);
    var h := HardenedPart(path);
    if h == [] {
      assert [] + NormalPart(path) == NormalPart(path);
    } else {
      assert (h + NormalPart(path))[|h| - 1] == h[|h| - 1];
    }
  }

  /** The public key: no hardened step is left, the path from the master key is
      the same, and only the steps after the last hardened one remain. */
  lemma PublicKeepsPath<S, P>(b: Bip32<S, P>, x: XKey<S>)
    requires ToPublic(b, x).Ok?
    ensures var y := ToPublic(b, x).value;
            && HardenedPart(x.path) + y.path == x.path && !IsHardened(y.path)
            && FullPath(y) == FullPath(x) && y.wildcard == x.wildcard
            && (y.origin == None <==> x.origin == None && !IsHardened(x.path))
  {
    SplitPath(x.path);
    HardenedExactly(x.path);
    OriginGrows(x.origin, b.fingerprint(x.key), HardenedPart(x.path));
    Assoc(OriginPath(x.origin), HardenedPart(x.path), NormalPart(x.path));
  }

  lemma {:induction false} DeriveConcat<S, P>(b: Bip32<S, P>, k: S, p: Path, q: Path)
    ensures DerivePriv(b, k, p + q) == match DerivePriv(b, k, p) case None => None case Some(k') => DerivePriv(b, k', q)
    decreases |p|
  {
    if p == [] {
      assert p + q == q;
    } else {
      assert (p + q)[0] == p[0] && (p + q)[1..] == p[1..] + q;
      if b.priv(k, p[0]).Some? { DeriveConcat(b, b.priv(k, p[0]).value, p[1..], q); }
    }
  }

  lemma {:induction false} NormalMirrors<S(!new), P(!new)>(b: Bip32<S, P>, k: S, path: Path)
    requires Lawful(b) && !IsHardened(path)
    ensures DerivePub(b, b.neuter(k), path) ==
            match DerivePriv(b, k, path) case None => None case Some(k') => Some(b.neuter(k'))
    decreases |path|
  {
    if path != [] {
      assert !path[0].hardened;
      var rest := path[1..];
      assert forall i :: 0 <= i < |rest| ==> rest[i] == path[i + 1];
      if b.priv(k, path[0]).Some? { NormalMirrors(b, b.priv(k, path[0]).value, rest); }
    }
  }

  lemma NormalConcat(p: Path, q: Path)
    requires !IsHardened(p) && !IsHardened(q)
    ensures !IsHardened(p + q)
  {
    forall i | 0 <= i < |p + q|
      ensures !(p + q)[i].hardened
    {
      if i < |p| { assert !p[i].hardened; } else { assert !q[i - |p|].hardened; }
    }
  }

  lemma DerivesAfter<S(!new), P(!new)>(b: Bip32<S, P>, key: S, h: Path, n: Path, k: S)
    requires Lawful(b) && DerivePriv(b, key, h) == Some(k) && !IsHardened(n)
    ensures DerivePub(b, b.neuter(k), n) ==
            match DerivePriv(b, key, h + n) case None => None case Some(k') => Some(b.neuter(k'))
  {
    DeriveConcat(b, key, h, n);
    NormalMirrors(b, k, n);
  }

  /** Deriving a child of the public version gives the public key of the same
      child of the private key, for every further path without hardened steps. */
  lemma PublicDerives<S(!new), P(!new)>(b: Bip32<S, P>, x: XKey<S>, more: Path)
    requires Lawful(b) && ToPublic(b, x).Ok? && !IsHardened(more)
    ensures var y := ToPublic(b, x).value;
            DerivePub(b, y.key, y.path + more) ==
            match DerivePriv(b, x.key, x.path + more) case None => None case Some(k) => Some(b.neuter(k))
  {
    var h, n := HardenedPart(x.path), NormalPart(x.path);
    SplitPath(x.path);
    NormalConcat(n, more);
    Assoc(h, n, more);
    DerivesAfter(b, x.key, h, n + more, DerivePriv(b, x.key, h).value);
  }

  // ----- several paths -----

  lemma PrependTwice(p: Path, q: Path, paths: seq<Path>)
    ensures Prepend(p, Prepend(q, paths)) == Prepend(p + q, paths)
  {
    forall j | 0 <= j < |paths|
      ensures p + (q + paths[j]) == p + q + paths[j]
    {
    }
  }

  lemma SuffixesRejoin(paths: seq<Path>, p: Path)
    requires CommonPrefix(p, paths)
    ensures forall j :: 0 <= j < |paths| ==> |p| <= |paths[j]|
    ensures Prepend(p, Suffixes(paths, |p|)) == paths
  {
    forall j | 0 <= j < |paths|
      ensures |p| <= |paths[j]| && p + paths[j][|p|..] == paths[j]
    {
      assert p <= paths[j];
    }
  }

  /** Some path has a hardened step beyond the shared prefix. */
  predicate HardenedBeyond(paths: seq<Path>)
    requires paths != []
  {
    exists j, i :: 0 <= j < |paths| && |SharedPrefix(paths)| <= i < |paths[j]| && paths[j][i].hardened
  }

  /** Conversion fails exactly for a hardened step beyond the shared prefix, and
      otherwise exactly when the private derivation does. */
  lemma MultiFailsExactly<S, P>(b: Bip32<S, P>, x: MultiXKey<S>)
    requires x.paths != []
    ensures MultiToPublic(b, x) == Err(InvalidMultiXKeyDerivation) <==> HardenedBeyond(x.paths)
    ensures MultiToPublic(b, x) == Err(DeriveHardenedKey) <==>
            !HardenedBeyond(x.paths) && DerivePriv(b, x.key, HardenedPart(SharedPrefix(x.paths))) == None
  {
    SharedIsPrefix(x.paths);
    var n := |SharedPrefix(x.paths)|;
    var suffixes := Suffixes(x.paths, n);
    if AnyHardened(suffixes) {
      var j :| 0 <= j < |suffixes| && IsHardened(suffixes[j]);
      var i :| 0 <= i < |suffixes[j]| && suffixes[j][i].hardened;
      assert x.paths[j][n + i].hardened;
    }
    if j, i :| 0 <= j < |x.paths| && n <= i < |x.paths[j]| && x.paths[j][i].hardened {
      assert suffixes[j][i - n].hardened;
      assert IsHardened(suffixes[j]);
    }
  }

  /** The same for several paths: path number j is kept for every j, in order. */
  lemma MultiKeepsPaths<S, P>(b: Bip32<S, P>, x: MultiXKey<S>)
    requires x.paths != [] && MultiToPublic(b, x).Ok?
    ensures var y := MultiToPublic(b, x).value;
            && Prepend(HardenedPart(SharedPrefix(x.paths)), y.paths) == x.paths && !AnyHardened(y.paths)
            && FullPaths(y) == FullPaths(x) && y.wildcard == x.wildcard
  {
    var shared := SharedPrefix(x.paths);
    SharedIsPrefix(x.paths);
    var suffixes := Suffixes(x.paths, |shared|);
    var h, n := HardenedPart(shared), NormalPart(shared);
    SplitPath(shared);
    SuffixesRejoin(x.paths, shared);
    PrependTwice(h, n, suffixes);
    OriginGrows(x.origin, b.fingerprint(x.key), h);
    PrependTwice(OriginPath(x.origin), h, Prepend(n, suffixes));
    NoneHardened(n, suffixes);
  }

  lemma NoneHardened(n: Path, suffixes: seq<Path>)
    requires !IsHardened(n) && !AnyHardened(suffixes)
    ensures !AnyHardened(Prepend(n, suffixes))
  {
    forall j | 0 <= j < |suffixes|
      ensures !IsHardened(n + suffixes[j])
    {
      assert !IsHardened(suffixes[j]);
      assert forall i :: 0 <= i < |n + suffixes[j]| ==> (n + suffixes[j])[i] == if i < |n| then n[i] else suffixes[j][i - |n|];
    }
  }

  /** A key with one path, as a key with several. */
  function OfSingle<K>(x: XKey<K>): MultiXKey<K> { MultiXKey(x.origin, x.key, [x.path], x.wildcard) }

  /** The keys with one path each. */
  function IntoSingleKeys<K>(x: MultiXKey<K>): seq<XKey<K>> {
    seq(|x.paths|, j requires 0 <= j < |x.paths| => XKey(x.origin, x.key, x.paths[j], x.wildcard))
  }

  /** Splitting into single keys keeps the paths from the master key. */
  lemma SingleKeysKeepPaths<K>(x: MultiXKey<K>, j: nat)
    requires j < |x.paths|
    ensures FullPath(IntoSingleKeys(x)[j]) == FullPaths(x)[j]
  {
  }

  lemma {:induction false} SharedAlone(path: Path, i: nat)
    requires i <= |path|
    ensures SharedFrom([path], i) == path[i..]
    decreases |path| - i
  {
    if i < |path| { SharedAlone(path, i + 1); }
  }

  /** A single path converts alike either way. */
  lemma SingleAgrees<S, P>(b: Bip32<S, P>, x: XKey<S>)
    requires ToPublic(b, x).Ok?
    ensures MultiToPublic(b, OfSingle(x)) == Ok(OfSingle(ToPublic(b, x).value))
  {
    SharedAlone(x.path, 0);
    assert SharedPrefix([x.path]) == x.path;
    SharedIsPrefix([x.path]);
    var suffixes := Suffixes([x.path], |x.path|);
    assert suffixes[0] == x.path[|x.path|..] == [];
    assert !AnyHardened(suffixes) by {
      assert suffixes[0] == [];
    }
    assert NormalPart(x.path) + [] == NormalPart(x.path);
    assert Prepend(NormalPart(x.path), suffixes) == [NormalPart(x.path)];
  }
}
