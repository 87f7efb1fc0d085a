/** The second pass of the expression parser: nodes in an arena, linked by their
    indices. */
module Arena {
  import opened Bytes
  import opened Expression
  import opened PreCheck

  datatype Parens = NoParens | Round | Curly

  datatype Node = Node(
    name: string,
    namePos: nat,
    parens: Parens,
    nChildren: nat,
    index: nat,
    parent: Option<nat>,
    lastChild: Option<nat>,
    rightSibling: Option<nat>)

  function Null(index: nat): Node { Node("", 0, NoParens, 0, index, None, None, None) }

  function Kind(curly: bool): Parens { if curly then Curly else Round }

  function Length(r: Row): nat { if r.Empty? then 0 else Length(r.init) + 1 }

  // ----- where the nodes of a tree belong -----

  /** The nodes of a tree whose root has index `i` and whose text begins at
      `pos`: in pre-order, each with its links. */
  function Block(t: Tree, i: nat, pos: nat, parent: Option<nat>, sibling: Option<nat>): (nodes: seq<Node>)
    ensures |nodes| == Size(t)
  {
    match t
    case Leaf(name) => [Node(name, pos, NoParens, 0, i, parent, None, sibling)]
    case Branch(name, curly, init, last) =>
      var first, last' := i + 1, i + 1 + SizeRow(init);
      [Node(name, pos, Kind(curly), Length(init) + 1, i, parent, Some(last'), sibling)]
      + RowBlock(init, first, pos + |name| + 1, i)
      + Block(last, last', pos + |name| + 1 + |PrintRow(init)|, Some(i), None)
  }

  /** Children that have siblings to their right. */
  function RowBlock(r: Row, i: nat, pos: nat, parent: nat): (nodes: seq<Node>)
    ensures |nodes| == SizeRow(r)
  {
    if r.Empty? then []
    else
      RowBlock(r.init, i, pos, parent)
      + Block(r.last, i + SizeRow(r.init), pos + |PrintRow(r.init)|, Some(parent), Some(i + SizeRow(r)))
  }

  function Layout(t: Tree): seq<Node> { Block(t, 0, 0, None, None) }

  // ----- the arena while a string is read -----

  /** The brackets that are open, as indices of their nodes. */
  function Path(zip: Zip): seq<nat> {
    if zip.Top? then [] else Path(zip.up) + [Begun(zip.up)]
  }

  function ParentOf(zip: Zip): Option<nat> { if zip.Top? then None else Some(Begun(zip.up)) }

  /** A node whose bracket is open; its last child is the one being read. */
  function OpenNode(zip: Zip): Node
    requires zip.In?
  {
    Node(zip.name, |Text(zip.up)|, Kind(zip.curly), Length(zip.done) + 1, Begun(zip.up), ParentOf(zip.up), Some(Begun(zip)), None)
  }

  /** The nodes of the children that are complete. */
  function DoneBlock(zip: Zip): seq<Node>
    requires zip.In?
  {
    RowBlock(zip.done, Begun(zip.up) + 1, |Text(zip.up)| + |zip.name| + 1, Begun(zip.up))
  }

  function Nodes(zip: Zip): (nodes: seq<Node>)
    ensures |nodes| == Begun(zip)
  {
    if zip.Top? then []
    else
      Nodes(zip.up) + [OpenNode(zip)] + DoneBlock(zip)
  }

  /** The tree being read, in its place. */
  function CurrentBlock(z: Scan, sibling: Option<nat>): seq<Node> {
    Block(TreeOf(z.cur), Begun(z.zip), |Text(z.zip)|, ParentOf(z.zip), sibling)
  }

  /** The nodes that have been put into the arena. */
  function Placed(z: Scan): seq<Node> {
    if z.cur.Name? then Nodes(z.zip) else Nodes(z.zip) + CurrentBlock(z, None)
  }

  /** The node whose name is being read. */
  function Pending(z: Scan): Option<Node> {
    if z.cur.Closed? then None
    else Some(Null(Begun(z.zip)).(namePos := |Text(z.zip)|, parent := ParentOf(z.zip)))
  }

  // ----- one character -----

  /** A new node under the innermost open bracket. */
  function NewNode(nodes: seq<Node>, stack: seq<nat>, pos: nat): (seq<Node>, Node)
    requires stack != [] ==> stack[|stack| - 1] < |nodes|
  {
    if stack == [] then (nodes, Null(|nodes|).(namePos := pos))
    else
      var up := stack[|stack| - 1];
      var node := nodes[up];
      (nodes[up := node.(nChildren := node.nChildren + 1, lastChild := Some(|nodes|))],
       Null(|nodes|).(namePos := pos, parent := Some(up)))
  }

  /** Puts the pending node, if any, into the arena. */
  function Flush(nodes: seq<Node>, current: Option<Node>, s: string, pos: nat): seq<Node>
    requires pos <= |s| && (current.Some? ==> current.value.namePos <= pos)
  {
    if current.None? then nodes
    else nodes + [current.value.(name := s[current.value.namePos..pos])]
  }

  lemma PendingName(s: string, pos: nat, z: Scan)
    requires pos <= |s| && RunTo(s, pos) == Some(z) && z.cur.Name?
    ensures |Text(z.zip)| <= pos && s[|Text(z.zip)|..pos] == z.cur.name
  {
    ReadSoFar(s, pos, z);
    NameLast(s, pos, Text(z.zip), z.cur.name);
  }

  lemma NameLast(s: string, pos: nat, text: string, name: string)
    requires pos <= |s| && s[..pos] == text + name
    ensures |text| <= pos && s[|text|..pos] == name
  {
    assert s[|text|..pos] == s[..pos][|text|..];
  }

  lemma Flushed(s: string, pos: nat, z: Scan)
    requires pos <= |s| && RunTo(s, pos) == Some(z)
    ensures Pending(z).Some? ==> Pending(z).value.namePos <= pos
    ensures Flush(Placed(z), Pending(z), s, pos) == Nodes(z.zip) + CurrentBlock(z, None)
  {
    if z.cur.Name? { PendingName(s, pos, z); }
  }

  lemma UpdateMiddle(a: seq<Node>, x: Node, b: seq<Node>, y: Node)
    ensures (a + [x] + b)[|a| := y] == a + [y] + b
  {
  }

  lemma OpenText(s: string, pos: nat, z: Scan, next: Scan)
    requires pos < |s| && RunTo(s, pos) == Some(z) && IsOpen(s[pos]) && Read(z, s[pos]) == Some(next)
    ensures |Text(next.zip)| == pos + 1 && Begun(next.zip) == Begun(z.zip) + 1
  {
    TextReaches(s, pos, z, next);
    assert SizeRow(Empty) == 0;
  }

  lemma TextReaches(s: string, pos: nat, z: Scan, next: Scan)
    requires pos < |s| && RunTo(s, pos) == Some(z) && Read(z, s[pos]) == Some(next) && next.cur == Name("")
    ensures |Text(next.zip)| == pos + 1
  {
    RunToNext(s, pos, pos + 1);
    ReadSoFar(s, pos + 1, next);
    assert Print(Leaf("")) == [];
  }

  lemma CommaText(s: string, pos: nat, z: Scan, next: Scan)
    requires pos < |s| && RunTo(s, pos) == Some(z) && s[pos] == ',' && Read(z, ',') == Some(next)
    ensures |Text(next.zip)| == pos + 1 && Begun(next.zip) == Begun(z.zip) + Size(TreeOf(z.cur))
  {
    TextReaches(s, pos, z, next);
  }

  /** A comma: the finished child is told its right sibling, which comes next. */
  lemma LinkSibling(z: Scan, nodes: seq<Node>)
    requires z.zip.In? && nodes == Nodes(z.zip) + CurrentBlock(z, None)
    ensures Begun(z.zip.up) < Begun(z.zip) < |nodes| && nodes[Begun(z.zip.up)] == OpenNode(z.zip)
    ensures nodes[Begun(z.zip) := nodes[Begun(z.zip)].(rightSibling := Some(|nodes|))] ==
            Nodes(z.zip) + CurrentBlock(z, Some(|nodes|))
  {
    var a, b := CurrentBlock(z, None), CurrentBlock(z, Some(|nodes|));
    assert a[1..] == b[1..] && b[0] == a[0].(rightSibling := Some(|nodes|));
    assert nodes == Nodes(z.zip) + [a[0]] + a[1..];
    UpdateMiddle(Nodes(z.zip), a[0], a[1..], b[0]);
    assert b == [b[0]] + b[1..];
  }

  lemma DoneGrows(z: Scan, next: Scan)
    requires z.zip.In? && next.zip == z.zip.(done := More(z.zip.done, TreeOf(z.cur)))
    ensures DoneBlock(next.zip) == DoneBlock(z.zip) + CurrentBlock(z, Some(Begun(next.zip)))
    ensures Nodes(next.zip) == Nodes(z.zip.up) + [OpenNode(next.zip)] + DoneBlock(next.zip)
    ensures Begun(next.zip) == Begun(z.zip) + Size(TreeOf(z.cur))
  {
    assert |Text(z.zip)| == |Text(z.zip.up)| + |z.zip.name| + 1 + |PrintRow(z.zip.done)|;
  }

  lemma OneMoreChild(nodes: seq<Node>, up: seq<Node>, node: Node, below: seq<Node>, stack: seq<nat>, pos: nat)
    requires nodes == up + [node] + below && stack != [] && stack[|stack| - 1] == |up|
    ensures NewNode(nodes, stack, pos) ==
            (up + [node.(nChildren := node.nChildren + 1, lastChild := Some(|nodes|))] + below,
             Null(|nodes|).(namePos := pos, parent := Some(|up|)))
  {
    assert nodes[|up|] == node;
    UpdateMiddle(up, node, below, node.(nChildren := node.nChildren + 1, lastChild := Some(|nodes|)));
  }

  lemma CommaArena(z: Scan, next: Scan, nodes: seq<Node>, at: nat)
    requires z.zip.In? && next == Scan(z.zip.(done := More(z.zip.done, TreeOf(z.cur))), Name(""))
    requires at == |Text(next.zip)| && nodes == Nodes(z.zip) + CurrentBlock(z, Some(Begun(next.zip)))
    ensures |nodes| == Begun(next.zip) && Begun(z.zip.up) < |nodes| && Path(next.zip) == Path(z.zip)
    ensures NewNode(nodes, Path(next.zip), at) == (Placed(next), Pending(next).value)
  {
    var up, node, last := Nodes(z.zip.up), OpenNode(z.zip), CurrentBlock(z, Some(Begun(next.zip)));
    DoneGrows(z, next);
    Joined(up, [node], DoneBlock(z.zip), last);
    assert nodes == up + [node] + DoneBlock(next.zip);
    OneMoreChild(nodes, up, node, DoneBlock(next.zip), Path(next.zip), at);
  }

  lemma Joined(a: seq<Node>, b: seq<Node>, c: seq<Node>, d: seq<Node>)
    ensures a + b + c + d == a + b + (c + d)
  {
  }

  lemma OpenedNode(z: Scan, next: Scan)
    requires z.cur.Name? && next.zip.In? && next.zip.done == Empty && next.zip.up == z.zip
    ensures Nodes(next.zip) == Nodes(z.zip) + [OpenNode(next.zip)] + [] && Begun(next.zip) == Begun(z.zip) + 1
  {
    assert DoneBlock(next.zip) == [];
  }

  /** Opening a bracket: its node goes into the arena and gets a first child. */
  lemma OpenArena(z: Scan, next: Scan, node: Node, at: nat)
    requires z.cur.Name? && next.zip.In? && next.zip.done == Empty && next.zip.up == z.zip && next.cur == Name("")
    requires next.zip.name == z.cur.name && at == |Text(next.zip)|
    requires node == Node(z.cur.name, |Text(z.zip)|, Kind(next.zip.curly), 0, Begun(z.zip), ParentOf(z.zip), None, None)
    ensures NewNode(Nodes(z.zip) + [node], Path(next.zip), at) == (Placed(next), Pending(next).value)
    ensures Path(next.zip) == Path(z.zip) + [|Nodes(z.zip)|]
  {
    var up, nodes := Nodes(z.zip), Nodes(z.zip) + [node];
    OpenedNode(z, next);
    assert nodes == up + [node] + [];
    OneMoreChild(nodes, up, node, [], Path(next.zip), at);
  }

  /** A closing bracket completes the node it belongs to. */
  lemma CloseArena(z: Scan, ch: char, next: Scan)
    requires Read(z, ch) == Some(next) && IsClose(ch)
    ensures Placed(next) == Nodes(z.zip) + CurrentBlock(z, None)
    ensures Pending(next) == None && Path(z.zip) != [] && Path(next.zip) == Path(z.zip)[..|Path(z.zip)| - 1]
  {
    var zip := z.zip;
    var row := DoneBlock(zip);
    assert |Text(zip)| == |Text(zip.up)| + |zip.name| + 1 + |PrintRow(zip.done)|;
    var t := Branch(zip.name, zip.curly, zip.done, TreeOf(z.cur));
    assert CurrentBlock(next, None) == [OpenNode(zip)] + row + CurrentBlock(z, None);
    assert Nodes(zip.up) + ([OpenNode(zip)] + row + CurrentBlock(z, None)) == Nodes(zip) + CurrentBlock(z, None);
  }

  lemma PlainArena(z: Scan, ch: char, next: Scan)
    requires Read(z, ch) == Some(next) && IsPlain(ch)
    ensures Placed(next) == Placed(z) && Pending(next) == Pending(z) && Path(next.zip) == Path(z.zip)
  {
  }

  // ----- the pass itself -----

  lemma RunSome(s: string, pos: nat)
    requires pos <= |s| && Run(s).Some?
    ensures RunTo(s, pos).Some?
  {
    RunToEnd(s);
    if RunTo(s, pos).None? { NeverAgain(s, pos, |s|); }
  }

  /** Neither the brackets nor the nodes ever exceed what the first pass counted. */
  lemma {:induction false} WithinCounts(s: string, pos: nat)
    requires pos <= |s| && Run(s).Some?
    ensures RunTo(s, pos).Some? && PeakScan(RunTo(s, pos).value) <= PeakScan(Run(s).value)
    ensures BegunScan(RunTo(s, pos).value) <= BegunScan(Run(s).value)
    decreases |s| - pos
  {
    RunSome(s, pos);
    if pos == |s| {
      RunToEnd(s);
    } else {
      var next := pos + 1;
      WithinCounts(s, next);
      RunToNext(s, pos, next);
      var z := RunTo(s, pos).value;
      Counted(z, s[pos], Read(z, s[pos]).value);
      NodesGrow(z, s[pos], Read(z, s[pos]).value);
    }
  }

  lemma NodesGrow(z: Scan, ch: char, next: Scan)
    requires Read(z, ch) == Some(next)
    ensures BegunScan(z) <= BegunScan(next)
  {
    assert Size(Leaf("")) == 1 && SizeRow(Empty) == 0;
  }

  lemma PathLength(zip: Zip)
    ensures |Path(zip)| == |Brackets(zip)|
  {
  }

  /** The arena, its stack and the pending node reflect what has been read. */
  ghost predicate Reflects(s: string, pos: nat, nodes: seq<Node>, parentStack: seq<nat>, current: Option<Node>) {
    && pos <= |s| && RunTo(s, pos).Some?
    && var z := RunTo(s, pos).value;
       nodes == Placed(z) && parentStack == Path(z.zip) && current == Pending(z)
  }

  lemma ReadableAt(s: string, pos: nat, next: nat)
    requires pos < |s| && Run(s).Some? && next == pos + 1
    ensures RunTo(s, pos).Some? && Read(RunTo(s, pos).value, s[pos]).Some?
    ensures RunTo(s, next) == Read(RunTo(s, pos).value, s[pos])
  {
    RunSome(s, pos);
    RunSome(s, next);
    RunToNext(s, pos, next);
  }

  /** An opening bracket; there is always a pending node. */
  method OpenBracket(s: string, pos: nat, nodes: seq<Node>, parentStack: seq<nat>, current: Option<Node>)
    returns (nodes': seq<Node>, parentStack': seq<nat>, current': Option<Node>)
    requires pos < |s| && IsOpen(s[pos]) && Run(s).Some? && Reflects(s, pos, nodes, parentStack, current)
    ensures Reflects(s, pos + 1, nodes', parentStack', current')
  {
    ghost var z := RunTo(s, pos).value;
    ReadableAt(s, pos, pos + 1);
    assert current.Some?;
    PendingName(s, pos, z);
    OpenText(s, pos, z, Read(z, s[pos]).value);
    var node := current.value.(name := s[current.value.namePos..pos], parens := if s[pos] == '(' then Round else Curly);
    OpenArena(z, Read(z, s[pos]).value, node, pos + 1);
    parentStack' := parentStack + [|nodes|];
    nodes' := nodes + [node];
    var (linked, fresh') := NewNode(nodes', parentStack', pos + 1);
    nodes', current' := linked, Some(fresh');
  }

  /** A comma: the last child is complete and gets a right sibling. */
  method Comma(s: string, pos: nat, nodes: seq<Node>, parentStack: seq<nat>, current: Option<Node>)
    returns (nodes': seq<Node>, current': Option<Node>)
    requires pos < |s| && s[pos] == ',' && Run(s).Some? && Reflects(s, pos, nodes, parentStack, current)
    ensures Reflects(s, pos + 1, nodes', parentStack, current')
  {
    ghost var z := RunTo(s, pos).value;
    ReadableAt(s, pos, pos + 1);
    Flushed(s, pos, z);
    nodes' := Flush(nodes, current, s, pos);
    LinkSibling(z, nodes');
    CommaText(s, pos, z, Read(z, s[pos]).value);
    if parentStack != [] {
      var last := nodes'[parentStack[|parentStack| - 1]].lastChild;
      if last.Some? { nodes' := nodes'[last.value := nodes'[last.value].(rightSibling := Some(|nodes'|))]; }
    }
    CommaArena(z, Read(z, s[pos]).value, nodes', pos + 1);
    var (linked, fresh') := NewNode(nodes', parentStack, pos + 1);
    nodes', current' := linked, Some(fresh');
  }

  /** A closing bracket. */
  method CloseBracket(s: string, pos: nat, nodes: seq<Node>, parentStack: seq<nat>, current: Option<Node>)
    returns (nodes': seq<Node>, parentStack': seq<nat>)
    requires pos < |s| && IsClose(s[pos]) && Run(s).Some? && Reflects(s, pos, nodes, parentStack, current)
    ensures Reflects(s, pos + 1, nodes', parentStack', None)
  {
    ghost var z := RunTo(s, pos).value;
    ReadableAt(s, pos, pos + 1);
    Flushed(s, pos, z);
    CloseArena(z, s[pos], Read(z, s[pos]).value);
    nodes' := Flush(nodes, current, s, pos);
    parentStack' := parentStack[..|parentStack| - 1];
  }

  lemma AllPlaced(s: string, t: Tree)
    requires Parse(s) == Some(t)
    ensures var z := Run(s).value;
            Nodes(z.zip) + CurrentBlock(z, None) == Layout(t) && Brackets(z.zip) == []
            && PeakScan(z) == Depth(t) && BegunScan(z) == Size(t)
  {
    assert Nodes(Top) == [] && Brackets(Top) == [];
  }

  lemma Plain(s: string, pos: nat, nodes: seq<Node>, parentStack: seq<nat>, current: Option<Node>)
    requires pos < |s| && IsPlain(s[pos]) && Run(s).Some? && Reflects(s, pos, nodes, parentStack, current)
    ensures Reflects(s, pos + 1, nodes, parentStack, current)
  {
    ReadableAt(s, pos, pos + 1);
    PlainArena(RunTo(s, pos).value, s[pos], RunTo(s, pos + 1).value);
  }

  lemma StaysWithin(s: string, pos: nat, nodes: seq<Node>, parentStack: seq<nat>, current: Option<Node>)
    requires pos <= |s| && Run(s).Some? && Reflects(s, pos, nodes, parentStack, current)
    ensures |parentStack| <= PeakScan(Run(s).value) && |nodes| <= BegunScan(Run(s).value)
  {
    WithinCounts(s, pos);
    PathLength(RunTo(s, pos).value.zip);
  }

  /** Builds the arena of a string that has passed the first pass. Its bounds on
      the bracket stack and on the number of nodes are never exceeded, and all
      nodes it counted are made. */
  method Build(s: string, maxDepth: nat, nNodes: nat) returns (nodes: seq<Node>)
    requires Parse(s).Some? && maxDepth == Depth(Parse(s).value) && nNodes == Size(Parse(s).value)
    ensures nodes == Layout(Parse(s).value) && |nodes| == nNodes
  {
    nodes := [];
    var parentStack: seq<nat> := [];
    var current := Some(Null(0));
    AllPlaced(s, Parse(s).value);
    for pos := 0 to |s|
      invariant Reflects(s, pos, nodes, parentStack, current)
      invariant |parentStack| <= maxDepth && |nodes| <= nNodes
    {
      if IsOpen(s[pos]) {
        nodes, parentStack, current := OpenBracket(s, pos, nodes, parentStack, current);
      } else if s[pos] == ',' {
        nodes, current := Comma(s, pos, nodes, parentStack, current);
      } else if IsClose(s[pos]) {
        nodes, parentStack := CloseBracket(s, pos, nodes, parentStack, current);
        current := None;
      } else {
        Plain(s, pos, nodes, parentStack, current);
      }
      StaysWithin(s, pos + 1, nodes, parentStack, current);
    }
    RunToEnd(s);
    Flushed(s, |s|, Run(s).value);
    nodes := Flush(nodes, current, s, |s|);
  }

  /** Parses a string, with its checksum if it has one. */
  method FromStr(s: string) returns (r: Result<seq<Node>>)
    ensures match Checksum.Verify(s)
            case Err(e) => r == Err(ChecksumError(e))
            case Ok(body) =>
              if Parse(body).Some? && Depth(Parse(body).value) <= MAX_RECURSION_DEPTH
              then r == Ok(Layout(Parse(body).value))
              else r.Err? && Explains(body, r.error)
  {
    var checked := ParsePreCheck(s);
    if checked.Err? { return Err(checked.error); }
    var nodes := Build(checked.value.s, checked.value.maxDepth, checked.value.nNodes);
    r := Ok(nodes);
  }
}
