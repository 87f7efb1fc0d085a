/** Expression trees and their textual form: `name`, `name(e,...,e)` or
    `name{e,...,e}`, and the validating first pass of their parser.

    A finished tree keeps its last child apart from the ones before it, which is
    also the order in which a parser completes them. */
module Expression {
  import opened Bytes

  datatype Tree =
    | Leaf(name: string)
    | Branch(name: string, curly: bool, init: Row, last: Tree)

  /** Siblings, each followed by a comma. */
  datatype Row = Empty | More(init: Row, last: Tree)

  const MAX_RECURSION_DEPTH := 402

  function OpenChar(curly: bool): char { if curly then '{' else '(' }

  function CloseChar(curly: bool): char { if curly then '}' else ')' }

  predicate IsOpen(ch: char) { ch == '(' || ch == '{' }

  predicate IsClose(ch: char) { ch == ')' || ch == '}' }

  /** Everything but brackets and commas can stand in a name. */
  predicate IsPlain(ch: char) { !IsOpen(ch) && !IsClose(ch) && ch != ',' }

  predicate IsName(s: string) { forall i :: 0 <= i < |s| ==> IsPlain(s[i]) }

  predicate Clean(t: Tree) {
    match t
    case Leaf(name) => IsName(name)
    case Branch(name, curly, init, last) => IsName(name) && CleanRow(init) && Clean(last)
  }

  predicate CleanRow(r: Row) { r.More? ==> CleanRow(r.init) && Clean(r.last) }

  function Print(t: Tree): string {
    match t
    case Leaf(name) => name
    case Branch(name, curly, init, last) =>
      name + [OpenChar(curly)] + PrintRow(init) + Print(last) + [CloseChar(curly)]
  }

  function PrintRow(r: Row): string {
    if r.Empty? then [] else PrintRow(r.init) + Print(r.last) + [',']
  }

  /** The number of brackets around the innermost node. */
  function Depth(t: Tree): nat {
    if t.Leaf? then 0 else 1 + Max(DepthRow(t.init), Depth(t.last))
  }

  function DepthRow(r: Row): nat {
    if r.Empty? then 0 else Max(DepthRow(r.init), Depth(r.last))
  }

  function Max(a: nat, b: nat): nat { if a < b then b else a }

  function Size(t: Tree): (n: nat)
    ensures n > 0
  {
    if t.Leaf? then 1 else 1 + SizeRow(t.init) + Size(t.last)
  }

  function SizeRow(r: Row): nat {
    if r.Empty? then 0 else SizeRow(r.init) + Size(r.last)
  }

  // ----- a reference parser -----

  /** The brackets that are still open, innermost first: the name before each
      and the children completed in it. */
  datatype Zip = Top | In(name: string, curly: bool, done: Row, up: Zip)

  /** What stands right of the last bracket or comma: a name, which may go on, or
      a node whose bracket has been closed. */
  datatype Current = Name(name: string) | Closed(tree: Tree)

  datatype Scan = Scan(zip: Zip, cur: Current)

  function TreeOf(cur: Current): Tree {
    match cur
    case Name(name) => Leaf(name)
    case Closed(tree) => tree
  }

  function Finished(t: Tree): Current { if t.Leaf? then Name(t.name) else Closed(t) }

  function Read(z: Scan, ch: char): Option<Scan> {
    if IsOpen(ch) then
      if z.cur.Name? then Some(Scan(In(z.cur.name, ch == '{', Empty, z.zip), Name(""))) else None
    else if ch == ',' then
      if z.zip.In? then Some(Scan(z.zip.(done := More(z.zip.done, TreeOf(z.cur))), Name(""))) else None
    else if IsClose(ch) then
      if z.zip.In? && ch == CloseChar(z.zip.curly)
      then Some(Scan(z.zip.up, Closed(Branch(z.zip.name, z.zip.curly, z.zip.done, TreeOf(z.cur)))))
      else None
    else if z.cur.Name? then Some(Scan(z.zip, Name(z.cur.name + [ch])))
    else None
  }

  const BLANK := Scan(Top, Name(""))

  /** Reads a string; None when no expression begins with it. */
  function Run(s: string): Option<Scan> {
    if s == [] then Some(BLANK)
    else
      match Run(s[..|s| - 1])
      case None => None
      case Some(z) => Read(z, s[|s| - 1])
  }

  /** The tree a string denotes, if any. */
  function Parse(s: string): Option<Tree> {
    match Run(s)
    case None => None
    case Some(z) => if z.zip.Top? then Some(TreeOf(z.cur)) else None
  }

  lemma RunNext(s: string, ch: char)
    ensures Run(s + [ch]) == match Run(s) case None => None case Some(z) => Read(z, ch)
  {
    assert (s + [ch])[..|s + [ch]| - 1] == s;
  }

  lemma RunPrefix(s: string, i: nat, next: nat)
    requires next == i + 1 && next <= |s|
    ensures Run(s[..next]) == match Run(s[..i]) case None => None case Some(z) => Read(z, s[i])
  {
    assert s[..next] == s[..i] + [s[i]];
    RunNext(s[..i], s[i]);
  }

  // ----- the text read so far -----

  function Text(zip: Zip): string {
    match zip
    case Top => []
    case In(name, curly, done, up) => Text(up) + name + [OpenChar(curly)] + PrintRow(done)
  }

  function TextScan(z: Scan): string { Text(z.zip) + Print(TreeOf(z.cur)) }

  predicate CleanZip(zip: Zip) {
    zip.In? ==> IsName(zip.name) && CleanRow(zip.done) && CleanZip(zip.up)
  }

  predicate CleanScan(z: Scan) { CleanZip(z.zip) && Clean(TreeOf(z.cur)) && (z.cur.Closed? ==> z.cur.tree.Branch?) }

  lemma ReadOpen(z: Scan, ch: char, next: Scan)
    requires CleanScan(z) && Read(z, ch) == Some(next) && IsOpen(ch)
    ensures CleanScan(next) && TextScan(next) == TextScan(z) + [ch]
  {
    assert next.zip == In(z.cur.name, ch == '{', Empty, z.zip);
    assert PrintRow(Empty) == [] && OpenChar(ch == '{') == ch;
    assert Print(Leaf("")) == [];
  }

  lemma ReadComma(z: Scan, next: Scan)
    requires CleanScan(z) && Read(z, ',') == Some(next)
    ensures CleanScan(next) && TextScan(next) == TextScan(z) + [',']
  {
    var before := Text(z.zip.up) + z.zip.name + [OpenChar(z.zip.curly)];
    Assoc(before, PrintRow(z.zip.done), Print(TreeOf(z.cur)));
    Assoc(before, PrintRow(z.zip.done) + Print(TreeOf(z.cur)), [',']);
    assert Print(Leaf("")) == [];
  }

  lemma ReadClose(z: Scan, ch: char, next: Scan)
    requires CleanScan(z) && Read(z, ch) == Some(next) && IsClose(ch)
    ensures CleanScan(next) && TextScan(next) == TextScan(z) + [ch]
  {
    var up, name, open := Text(z.zip.up), z.zip.name, [OpenChar(z.zip.curly)];
    var row, last := PrintRow(z.zip.done), Print(TreeOf(z.cur));
    calc {
      TextScan(next);
      up + (name + open + row + last + [ch]);
      { Assoc(up, name + open + row + last, [ch]); }
      up + (name + open + row + last) + [ch];
      { Assoc(up, name + open + row, last); Assoc(up, name + open, row); Assoc(up, name, open); }
      TextScan(z) + [ch];
    }
  }

  lemma ReadPlain(z: Scan, ch: char, next: Scan)
    requires CleanScan(z) && Read(z, ch) == Some(next) && IsPlain(ch)
    ensures CleanScan(next) && TextScan(next) == TextScan(z) + [ch]
  {
    Assoc(Text(z.zip), z.cur.name, [ch]);
  }

  lemma ReadText(z: Scan, ch: char, next: Scan)
    requires CleanScan(z) && Read(z, ch) == Some(next)
    ensures CleanScan(next) && TextScan(next) == TextScan(z) + [ch]
  {
    if IsOpen(ch) {
      ReadOpen(z, ch, next);
    } else if ch == ',' {
      ReadComma(z, next);
    } else if IsClose(ch) {
      ReadClose(z, ch, next);
    } else {
      ReadPlain(z, ch, next);
    }
  }

  /** Nothing is forgotten: what has been read can be printed again. */
  lemma {:induction false} RunText(s: string)
    requires Run(s).Some?
    ensures CleanScan(Run(s).value) && TextScan(Run(s).value) == s
    decreases |s|
  {
    if s == [] {
      assert Print(Leaf("")) == [];
    } else {
      RunText(s[..|s| - 1]);
      ReadText(Run(s[..|s| - 1]).value, s[|s| - 1], Run(s).value);
    }
  }

  // ----- every expression is read -----

  lemma {:induction false} RunName(u: string, zip: Zip, name: string)
    requires Run(u) == Some(Scan(zip, Name(""))) && IsName(name)
    ensures Run(u + name) == Some(Scan(zip, Name(name)))
    decreases |name|
  {
    if name == [] {
      assert u + name == u;
    } else {
      var most, ch := name[..|name| - 1], name[|name| - 1];
      RunName(u, zip, most);
      RunNext(u + most, ch);
      assert most + [ch] == name && u + most + [ch] == u + name;
    }
  }

  lemma RunOpen(u: string, zip: Zip, name: string, curly: bool)
    requires Run(u) == Some(Scan(zip, Name(name)))
    ensures Run(u + [OpenChar(curly)]) == Some(Scan(In(name, curly, Empty, zip), Name("")))
  {
    RunNext(u, OpenChar(curly));
  }

  lemma RunClose(u: string, zip: Zip, t: Tree)
    requires t.Branch? && Run(u) == Some(Scan(In(t.name, t.curly, t.init, zip), Finished(t.last)))
    ensures Run(u + [CloseChar(t.curly)]) == Some(Scan(zip, Closed(t)))
  {
    RunNext(u, CloseChar(t.curly));
    assert TreeOf(Finished(t.last)) == t.last;
  }

  lemma AssocFive(u: string, a: string, b: string, c: string, d: string, e: string)
    ensures u + (a + b + c + d + e) == u + a + b + c + d + e
  {
    Assoc(u, a, b);
    Assoc(u, a + b, c);
    Assoc(u, a + b + c, d);
    Assoc(u, a + b + c + d, e);
  }

  lemma {:induction false} RunPrint(u: string, zip: Zip, t: Tree)
    requires Run(u) == Some(Scan(zip, Name(""))) && Clean(t)
    ensures Run(u + Print(t)) == Some(Scan(zip, Finished(t)))
    decreases t
  {
    RunName(u, zip, t.name);
    if t.Branch? {
      var open, row, last, shut := [OpenChar(t.curly)], PrintRow(t.init), Print(t.last), [CloseChar(t.curly)];
      RunOpen(u + t.name, zip, t.name, t.curly);
      RunRow(u + t.name + open, In(t.name, t.curly, Empty, zip), t.init);
      RunPrint(u + t.name + open + row, In(t.name, t.curly, t.init, zip), t.last);
      RunClose(u + t.name + open + row + last, zip, t);
      AssocFive(u, t.name, open, row, last, shut);
    }
  }

  lemma {:induction false} RunRow(u: string, zip: Zip, r: Row)
    requires Run(u) == Some(Scan(zip, Name(""))) && CleanRow(r) && zip.In? && zip.done == Empty
    ensures Run(u + PrintRow(r)) == Some(Scan(zip.(done := r), Name("")))
    decreases r
  {
    if r.Empty? {
      assert u + PrintRow(r) == u && zip.(done := r) == zip;
    } else {
      var row, last := PrintRow(r.init), Print(r.last);
      RunRow(u, zip, r.init);
      RunPrint(u + row, zip.(done := r.init), r.last);
      RunNext(u + row + last, ',');
      Assoc(u, row, last);
      Assoc(u, row + last, [',']);
    }
  }

  /** A string denotes a tree exactly when it is how that tree is written; so no
      string denotes two trees. */
  lemma ParseExactly(s: string, t: Tree)
    ensures Parse(s) == Some(t) <==> Clean(t) && Print(t) == s
  {
    if Parse(s) == Some(t) {
      RunText(s);
      assert Text(Top) + Print(t) == Print(t);
    }
    if Clean(t) && Print(t) == s {
      RunPrint([], Top, t);
      assert [] + Print(t) == s;
    }
  }

  // ----- what can still become an expression -----

  /** The brackets still to be closed. */
  function Closers(zip: Zip): string {
    if zip.Top? then [] else [CloseChar(zip.curly)] + Closers(zip.up)
  }

  lemma {:induction false} Closing(u: string, z: Scan)
    requires Run(u) == Some(z)
    ensures Parse(u + Closers(z.zip)).Some?
    decreases z.zip
  {
    if z.zip.Top? {
      assert u + Closers(z.zip) == u;
    } else {
      RunNext(u, CloseChar(z.zip.curly));
      Closing(u + [CloseChar(z.zip.curly)], Read(z, CloseChar(z.zip.curly)).value);
      Assoc(u, [CloseChar(z.zip.curly)], Closers(z.zip.up));
    }
  }

  lemma {:induction false} Hopeless(u: string, v: string)
    requires Run(u).None?
    ensures Run(u + v).None?
    decreases |v|
  {
    if v == [] {
      assert u + v == u;
    } else {
      Hopeless(u, v[..|v| - 1]);
      RunNext(u + v[..|v| - 1], v[|v| - 1]);
      assert u + v[..|v| - 1] + [v[|v| - 1]] == u + v;
    }
  }

  /** Reading a string fails exactly when nothing put after it makes it an expression. */
  lemma ViableExactly(u: string)
    ensures Run(u).Some? <==> exists v :: Parse(u + v).Some?
  {
    if Run(u).Some? {
      Closing(u, Run(u).value);
    } else {
      forall v
        ensures Parse(u + v).None?
      {
        Hopeless(u, v);
      }
    }
  }

  // ----- reading position by position -----

  /** The first `n` characters of a string, read one after the other. */
  function RunTo(s: string, n: nat): Option<Scan>
    requires n <= |s|
  {
    if n == 0 then Some(BLANK)
    else
      match RunTo(s, n - 1)
      case None => None
      case Some(z) => Read(z, s[n - 1])
  }

  lemma {:induction false} RunToPrefix(s: string, n: nat)
    requires n <= |s|
    ensures RunTo(s, n) == Run(s[..n])
  {
    if n > 0 {
      RunToPrefix(s, n - 1);
      RunPrefix(s, n - 1, n);
    }
  }

  lemma RunToEnd(s: string)
    ensures RunTo(s, |s|) == Run(s)
  {
    RunToPrefix(s, |s|);
    assert s[..|s|] == s;
  }

  lemma RunToNext(s: string, n: nat, next: nat)
    requires next == n + 1 && next <= |s|
    ensures RunTo(s, next) == match RunTo(s, n) case None => None case Some(z) => Read(z, s[n])
  {
  }

  /** The text read so far. */
  lemma ReadSoFar(s: string, n: nat, z: Scan)
    requires n <= |s| && RunTo(s, n) == Some(z)
    ensures CleanScan(z) && TextScan(z) == s[..n] && |Text(z.zip)| + |Print(TreeOf(z.cur))| == n
  {
    RunToPrefix(s, n);
    RunText(s[..n]);
  }

  lemma {:induction false} NeverAgain(s: string, n: nat, m: nat)
    requires n <= m <= |s| && RunTo(s, n).None?
    ensures RunTo(s, m).None?
  {
    if m > n { NeverAgain(s, n, m - 1); }
  }
}
