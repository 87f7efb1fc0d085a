/** Moving around in a parsed expression by its links. */
module ArenaLinks {
  import opened Bytes
  import opened Expression
  import opened Arena

  // ----- subtrees are ranges -----

  /** The nodes from `i` on are those of `t`. */
  predicate Located(nodes: seq<Node>, i: nat, t: Tree) {
    && i + Size(t) <= |nodes|
    && nodes[i..i + Size(t)] == Block(t, i, nodes[i].namePos, nodes[i].parent, nodes[i].rightSibling)
  }

  predicate RowLocated(nodes: seq<Node>, i: nat, r: Row, pos: nat, parent: nat) {
    i + SizeRow(r) <= |nodes| && nodes[i..i + SizeRow(r)] == RowBlock(r, i, pos, parent)
  }

  lemma Split(nodes: seq<Node>, i: nat, mid: nat, end: nat, a: seq<Node>, b: seq<Node>)
    requires i <= mid <= end <= |nodes| && mid == i + |a| && end == mid + |b| && nodes[i..end] == a + b
    ensures nodes[i..mid] == a && nodes[mid..end] == b
  {
    assert nodes[i..mid] == nodes[i..end][..|a|];
    assert nodes[mid..end] == nodes[i..end][|a|..];
  }

  /** A block found at its own place is located there. */
  lemma Found(nodes: seq<Node>, i: nat, t: Tree, pos: nat, parent: Option<nat>, sibling: Option<nat>)
    requires i + Size(t) <= |nodes| && nodes[i..i + Size(t)] == Block(t, i, pos, parent, sibling)
    ensures Located(nodes, i, t) && nodes[i].parent == parent && nodes[i].rightSibling == sibling
    ensures nodes[i].name == t.name && nodes[i].index == i
  {
    assert nodes[i] == nodes[i..i + Size(t)][0];
  }

  lemma Root(t: Tree)
    ensures Located(Layout(t), 0, t)
  {
    assert Layout(t)[0..Size(t)] == Layout(t);
    Found(Layout(t), 0, t, 0, None, None);
  }

  lemma BlockParts(t: Tree, i: nat, pos: nat, parent: Option<nat>, sibling: Option<nat>, last: nat, node: Node)
    requires t.Branch? && last == i + 1 + SizeRow(t.init)
    requires node == Node(t.name, pos, Kind(t.curly), Length(t.init) + 1, i, parent, Some(last), sibling)
    ensures Size(t) == 1 + SizeRow(t.init) + Size(t.last)
    ensures Block(t, i, pos, parent, sibling) ==
            [node] + RowBlock(t.init, i + 1, pos + |t.name| + 1, i)
            + Block(t.last, last, pos + |t.name| + 1 + |PrintRow(t.init)|, Some(i), None)
  {
  }

  lemma Slices(nodes: seq<Node>, i: nat, next: nat, last: nat, end: nat, node: Node, row: seq<Node>, rest: seq<Node>)
    requires next == i + 1 && last == next + |row| && end == last + |rest| && end <= |nodes|
    requires nodes[i..end] == [node] + row + rest
    ensures nodes[i] == node && nodes[next..last] == row && nodes[last..end] == rest
  {
    Split(nodes, i, last, end, [node] + row, rest);
    Split(nodes, i, next, last, [node], row);
    assert nodes[i] == nodes[i..next][0];
  }

  lemma BlockAt(nodes: seq<Node>, i: nat, next: nat, last: nat, end: nat, t: Tree, whole: Node)
    requires Located(nodes, i, t) && t.Branch? && next == i + 1 && last == next + SizeRow(t.init) && end == i + Size(t)
    requires whole == Node(t.name, nodes[i].namePos, Kind(t.curly), Length(t.init) + 1, i, nodes[i].parent, Some(last), nodes[i].rightSibling)
    ensures end == last + Size(t.last) <= |nodes|
    ensures var rowPos := whole.namePos + |t.name| + 1;
            nodes[i..end] ==
            [whole] + RowBlock(t.init, next, rowPos, i) + Block(t.last, last, rowPos + |PrintRow(t.init)|, Some(i), None)
  {
    BlockParts(t, i, whole.namePos, whole.parent, whole.rightSibling, last, whole);
  }

  lemma Pieces(nodes: seq<Node>, i: nat, next: nat, last: nat, end: nat, node: Node, row: Row, t: Tree, rowPos: nat, lastPos: nat)
    requires next == i + 1 && last == next + SizeRow(row) && end == last + Size(t) <= |nodes|
    requires nodes[i..end] == [node] + RowBlock(row, next, rowPos, i) + Block(t, last, lastPos, Some(i), None)
    ensures nodes[i] == node && RowLocated(nodes, next, row, rowPos, i)
    ensures Located(nodes, last, t) && nodes[last].parent == Some(i) && nodes[last].rightSibling == None
  {
    Slices(nodes, i, next, last, end, node, RowBlock(row, next, rowPos, i), Block(t, last, lastPos, Some(i), None));
    Found(nodes, last, t, lastPos, Some(i), None);
  }

  /** A node's own fields, its row of children and its last child. */
  lemma Parts(nodes: seq<Node>, i: nat, t: Tree, last: nat)
    requires Located(nodes, i, t) && t.Branch? && last == i + 1 + SizeRow(t.init)
    ensures nodes[i].lastChild == Some(last) && nodes[i].nChildren == Length(t.init) + 1
    ensures nodes[i].parens == Kind(t.curly)
    ensures RowLocated(nodes, i + 1, t.init, nodes[i].namePos + |t.name| + 1, i)
    ensures Located(nodes, last, t.last) && nodes[last].parent == Some(i) && nodes[last].rightSibling == None
    ensures last + Size(t.last) == i + Size(t)
  {
    var rowPos := nodes[i].namePos + |t.name| + 1;
    var lastPos := rowPos + |PrintRow(t.init)|;
    var next, end := i + 1, i + Size(t);
    var whole := Node(t.name, nodes[i].namePos, Kind(t.curly), Length(t.init) + 1, i, nodes[i].parent, Some(last), nodes[i].rightSibling);
    BlockAt(nodes, i, next, last, end, t, whole);
    Pieces(nodes, i, next, last, end, whole, t.init, t.last, rowPos, lastPos);
  }

  lemma LeafParts(nodes: seq<Node>, i: nat, t: Tree)
    requires Located(nodes, i, t)
    ensures nodes[i].name == t.name && nodes[i].index == i
    ensures t.Leaf? ==> nodes[i].lastChild == None && nodes[i].nChildren == 0 && nodes[i].parens == NoParens
  {
    assert nodes[i] == nodes[i..i + Size(t)][0];
  }

  lemma RowSizes(r: Row, i: nat, pos: nat, parent: nat, last: nat)
    requires r.More? && last == i + SizeRow(r.init)
    ensures SizeRow(r) == SizeRow(r.init) + Size(r.last)
    ensures RowBlock(r, i, pos, parent) ==
            RowBlock(r.init, i, pos, parent)
            + Block(r.last, last, pos + |PrintRow(r.init)|, Some(parent), Some(i + SizeRow(r)))
  {
  }

  lemma RowPartsAt(nodes: seq<Node>, i: nat, r: Row, pos: nat, parent: nat, last: nat, end: nat, lastPos: nat)
    requires RowLocated(nodes, i, r, pos, parent) && r.More? && last == i + SizeRow(r.init) && end == i + SizeRow(r)
    requires lastPos == pos + |PrintRow(r.init)|
    ensures end == last + Size(r.last) <= |nodes| && RowLocated(nodes, i, r.init, pos, parent)
    ensures nodes[last..end] == Block(r.last, last, lastPos, Some(parent), Some(end))
  {
    RowSizes(r, i, pos, parent, last);
    Split(nodes, i, last, end, RowBlock(r.init, i, pos, parent), Block(r.last, last, lastPos, Some(parent), Some(end)));
  }

  lemma RowParts(nodes: seq<Node>, i: nat, r: Row, pos: nat, parent: nat, last: nat)
    requires RowLocated(nodes, i, r, pos, parent) && r.More? && last == i + SizeRow(r.init)
    ensures RowLocated(nodes, i, r.init, pos, parent) && Located(nodes, last, r.last)
    ensures nodes[last].parent == Some(parent) && nodes[last].rightSibling == Some(i + SizeRow(r))
    ensures last + Size(r.last) == i + SizeRow(r)
  {
    var end, lastPos := i + SizeRow(r), pos + |PrintRow(r.init)|;
    RowPartsAt(nodes, i, r, pos, parent, last, end, lastPos);
    Found(nodes, last, r.last, lastPos, Some(parent), Some(end));
  }

  /** What the links of a node inside a subtree `i..end` look like. */
  predicate Inside(nodes: seq<Node>, i: nat, end: nat, k: nat) {
    && i < k < end <= |nodes| && nodes[k].parent.Some? && i <= nodes[k].parent.value < k
    && nodes[nodes[k].parent.value].lastChild.Some?
    && (nodes[k].rightSibling.Some? ==> k < nodes[k].rightSibling.value < end)
  }

  /** Every node is the root of a subtree. */
  lemma {:induction false} Subtree(nodes: seq<Node>, i: nat, t: Tree, k: nat) returns (u: Tree)
    requires Located(nodes, i, t) && i <= k < i + Size(t)
    ensures Located(nodes, k, u) && k + Size(u) <= i + Size(t)
    ensures k > i ==> Inside(nodes, i, i + Size(t), k)
    decreases t
  {
    if k == i {
      u := t;
    } else {
      var last := i + 1 + SizeRow(t.init);
      Parts(nodes, i, t, last);
      if k < last {
        u := RowSubtree(nodes, i + 1, t.init, nodes[i].namePos + |t.name| + 1, i, k);
      } else {
        u := Subtree(nodes, last, t.last, k);
      }
    }
  }

  lemma {:induction false} RowSubtree(nodes: seq<Node>, i: nat, r: Row, pos: nat, parent: nat, k: nat) returns (u: Tree)
    requires RowLocated(nodes, i, r, pos, parent) && i <= k < i + SizeRow(r)
    requires parent < i && nodes[parent].lastChild.Some?
    ensures Located(nodes, k, u) && k + Size(u) <= i + SizeRow(r)
    ensures nodes[k].parent.Some? && parent <= nodes[k].parent.value < k
    ensures nodes[nodes[k].parent.value].lastChild.Some?
    ensures nodes[k].rightSibling.Some? ==> k < nodes[k].rightSibling.value <= i + SizeRow(r)
    decreases r
  {
    var last := i + SizeRow(r.init);
    RowParts(nodes, i, r, pos, parent, last);
    if k < last {
      u := RowSubtree(nodes, i, r.init, pos, parent, k);
    } else {
      u := Subtree(nodes, last, r.last, k);
    }
  }

  /** The first child stands right behind its parent. */
  lemma {:induction false} FirstOfRow(nodes: seq<Node>, i: nat, r: Row, pos: nat, parent: nat) returns (c: Tree)
    requires RowLocated(nodes, i, r, pos, parent) && r.More?
    ensures Located(nodes, i, c) && nodes[i].parent == Some(parent) && Size(c) <= SizeRow(r)
    ensures nodes[i].rightSibling.Some?
    decreases r
  {
    RowParts(nodes, i, r, pos, parent, i + SizeRow(r.init));
    if r.init.Empty? { c := r.last; } else { c := FirstOfRow(nodes, i, r.init, pos, parent); }
  }

  lemma First(nodes: seq<Node>, i: nat, t: Tree) returns (c: Tree)
    requires Located(nodes, i, t) && t.Branch?
    ensures Located(nodes, i + 1, c) && nodes[i + 1].parent == Some(i) && 1 + Size(c) <= Size(t)
    ensures nodes[i + 1].rightSibling.Some? <==> 1 + Size(c) < Size(t)
  {
    Parts(nodes, i, t, i + 1 + SizeRow(t.init));
    if t.init.Empty? {
      c := t.last;
    } else {
      c := FirstOfRow(nodes, i + 1, t.init, nodes[i].namePos + |t.name| + 1, i);
    }
  }

  /** The links alone tell how large a subtree is. */
  lemma {:induction false} SameSize(nodes: seq<Node>, i: nat, t: Tree, u: Tree)
    requires Located(nodes, i, t) && Located(nodes, i, u)
    ensures Size(t) == Size(u)
    decreases t
  {
    LeafParts(nodes, i, t);
    LeafParts(nodes, i, u);
    if t.Branch? {
      var last := i + 1 + SizeRow(t.init);
      Parts(nodes, i, t, last);
      if u.Branch? {
        Parts(nodes, i, u, i + 1 + SizeRow(u.init));
        SameSize(nodes, last, t.last, u.last);
      }
    } else if u.Branch? {
      Parts(nodes, i, u, i + 1 + SizeRow(u.init));
    }
  }

  // ----- the whole arena -----

  /** The shape every parsed arena has: nodes know their index, parents come
      first, the first child is next, sibling links point forward, and a node
      has a last child exactly when it has children. */
  predicate WellLinked(nodes: seq<Node>) {
    forall k :: 0 <= k < |nodes| ==> WellPlaced(nodes, k)
  }

  predicate WellPlaced(nodes: seq<Node>, k: nat)
    requires k < |nodes|
  {
    var n := nodes[k];
    && n.index == k
    && (if k == 0 then n.parent == None && n.rightSibling == None else n.parent.Some? && n.parent.value < k && nodes[n.parent.value].lastChild.Some?)
    && (n.rightSibling.Some? ==> k < n.rightSibling.value < |nodes|)
    && (n.nChildren == 0 <==> n.lastChild == None) && (n.parens == NoParens <==> n.lastChild == None)
    && (n.lastChild.Some? ==>
          && k < n.lastChild.value < |nodes| && nodes[n.lastChild.value].parent == Some(k)
          && nodes[n.lastChild.value].rightSibling == None && nodes[k + 1].parent == Some(k))
  }

  lemma ArenaInvariant(t: Tree)
    ensures WellLinked(Layout(t))
  {
    var nodes := Layout(t);
    Root(t);
    forall k | 0 <= k < |nodes|
      ensures WellPlaced(nodes, k)
    {
      var u := Subtree(nodes, 0, t, k);
      LeafParts(nodes, k, u);
      if u.Branch? {
        Parts(nodes, k, u, k + 1 + SizeRow(u.init));
        var c := First(nodes, k, u);
      }
    }
  }

  // ----- rightmost descendants -----

  /** The last of the siblings from node `i` on is a subtree that ends at `end`. */
  ghost predicate SiblingsEnd(nodes: seq<Node>, i: nat, end: nat)
    decreases |nodes| - i
  {
    && i < |nodes|
    && match nodes[i].rightSibling
       case None => exists u :: Located(nodes, i, u) && i + Size(u) == end
       case Some(next) => i < next < |nodes| && SiblingsEnd(nodes, next, end)
  }

  /** Follows last children, and siblings, to the rightmost descendant of a node. */
  method RightmostDescendantIdx(nodes: seq<Node>, index: nat, ghost t: Tree) returns (scan: nat)
    requires Located(nodes, index, t)
    ensures scan == index + Size(t) - 1
  {
    scan := index;
    ghost var u := t;
    ghost var end := index + Size(t);
    LeafParts(nodes, index, t);
    while nodes[scan].lastChild.Some?
      invariant Located(nodes, scan, u) && scan + Size(u) == end
      decreases |nodes| - scan
    {
      LeafParts(nodes, scan, u);
      Parts(nodes, scan, u, scan + 1 + SizeRow(u.init));
      ghost var from := scan;
      scan := nodes[scan].lastChild.value;
      assert Located(nodes, scan, u.last) && scan + Size(u.last) == end;
      while nodes[scan].rightSibling.Some?
        invariant from < scan && SiblingsEnd(nodes, scan, end)
        decreases |nodes| - scan
      {
        scan := nodes[scan].rightSibling.value;
      }
      u :| Located(nodes, scan, u) && scan + Size(u) == end;
    }
    if u.Branch? { Parts(nodes, scan, u, scan + 1 + SizeRow(u.init)); }
  }

  // ----- iteration in pre-order -----

  /** The indices from `lo` up to `hi`. */
  function Range(lo: nat, hi: nat): seq<nat> {
    if lo >= hi then [] else seq(hi - lo, i => lo + i)
  }

  /** A double-ended iterator over the range of a subtree. */
  class PreOrderIter {
    const nodes: seq<Node>
    var start: nat
    var end: nat
    var exhausted: bool

    /** All nodes of the subtree at `index`. */
    constructor (nodes: seq<Node>, index: nat, ghost t: Tree)
      requires Located(nodes, index, t)
      ensures this.nodes == nodes && start == index && Rest() == Range(index, index + Size(t)) && !exhausted
      ensures end == index + Size(t) - 1
    {
      this.nodes := nodes;
      start, exhausted := index, false;
      var rightmost := RightmostDescendantIdx(nodes, index, t);
      end := rightmost;
    }

    predicate IsEmpty()
      reads this
    {
      exhausted || start > end
    }

    /** What is still to come, in order. */
    ghost function Rest(): seq<nat>
      reads this
    {
      if IsEmpty() then [] else Range(start, end + 1)
    }

    method Next() returns (item: Option<nat>)
      modifies this
      ensures if old(Rest()) == [] then item == None && Rest() == []
              else item == Some(old(Rest())[0]) && Rest() == old(Rest())[1..]
      ensures end == old(end)
      ensures item.Some? ==> item.value == old(start) && (if exhausted then start == end else start == item.value + 1)
    {
      if IsEmpty() { return None; }
      item := Some(start);
      if start < end { start := start + 1; } else { exhausted := true; }
    }

    method NextBack() returns (item: Option<nat>)
      modifies this
      ensures if old(Rest()) == [] then item == None && Rest() == []
              else item == Some(old(Rest())[|old(Rest())| - 1]) && Rest() == old(Rest())[..|old(Rest())| - 1]
      ensures start == old(start)
    {
      if IsEmpty() { return None; }
      item := Some(end);
      if start < end { end := end - 1; } else { exhausted := true; }
    }

    /** After a forward step to the root of `u`, with nothing taken from the
        back: drops exactly the descendants of that node. */
    method SkipDescendants(ghost root: nat, ghost t: Tree, ghost u: Tree)
      requires Located(nodes, root, t) && end == root + Size(t) - 1
      requires !IsEmpty() ==> root < start && Located(nodes, start - 1, u) && start - 1 + Size(u) <= end + 1
      modifies this
      ensures !old(IsEmpty()) ==> Rest() == Range(old(start) - 1 + Size(u), end + 1)
      ensures old(IsEmpty()) ==> Rest() == []
      ensures end == old(end)
    {
      if IsEmpty() { return; }
      var last := if start == 0 then 0 else start - 1;
      var skipPast := RightmostDescendantIdx(nodes, last, u);
      assert skipPast + 1 >= start && skipPast <= end;
      start, exhausted := skipPast + 1, false;
    }

    /** Before the first step. A later subtree's iterator looks at the node in
        front of it, `before`; the whole arena's at its own root. The result says
        whether the debug assertions hold; where they are checked, the call stops
        if they do not. */
    method SkipAtStart(ghost t: Tree, ghost before: Tree) returns (asserted: bool)
      requires Located(nodes, start, t) && end == start + Size(t) - 1 && !exhausted
      requires Located(nodes, if start == 0 then 0 else start - 1, before)
      requires WellLinked(nodes)
      modifies this
      ensures Rest() == if SkipsAll(nodes, old(start)) then [] else old(Rest())
      ensures asserted <==> SkipAsserted(nodes, old(start))
    {
      var last := if start == 0 then 0 else start - 1;
      Neighbours(nodes, start, t, before);
      LeafParts(nodes, last, before);
      assert WellPlaced(nodes, start);
      var skipPast := RightmostDescendantIdx(nodes, last, before);
      asserted := skipPast + 1 >= start && skipPast <= end;
      start, exhausted := skipPast + 1, false;
    }
  }

  /** Skipping before the first step of the iterator at `i` drops everything. */
  predicate SkipsAll(nodes: seq<Node>, i: nat)
    requires i < |nodes|
  {
    i == 0 || nodes[i].parent == Some(i - 1)
  }

  /** It does not step over siblings, and so beyond the iterator's own range. */
  predicate SkipAsserted(nodes: seq<Node>, i: nat)
    requires i < |nodes|
  {
    i == 0 || nodes[i].parent != Some(i - 1) || nodes[i].rightSibling == None
  }

  const PAIR: Tree := Branch("a", false, More(Empty, Leaf("b")), Leaf("c"))

  /** In `a(b,c)` the iterator at `c` skips nothing, and the one at `b` steps over `c`. */
  lemma PairSkips()
    ensures Print(PAIR) == "a(b,c)"
    ensures var nodes := Layout(PAIR);
            && |nodes| == 3 && WellLinked(nodes) && Located(nodes, 0, PAIR)
            && Located(nodes, 1, Leaf("b")) && SkipsAll(nodes, 1) && !SkipAsserted(nodes, 1)
            && Located(nodes, 2, Leaf("c")) && !SkipsAll(nodes, 2) && SkipAsserted(nodes, 2)
  {
    ArenaInvariant(PAIR);
    Root(PAIR);
    Parts(Layout(PAIR), 0, PAIR, 2);
    RowParts(Layout(PAIR), 1, PAIR.init, 2, 0, 1);
    assert PrintRow(Empty) == [];
  }

  /** The node in front of a subtree is its parent, and contains it, or a leaf. */
  lemma Neighbours(nodes: seq<Node>, i: nat, t: Tree, before: Tree)
    requires Located(nodes, i, t) && Located(nodes, if i == 0 then 0 else i - 1, before)
    ensures i == 0 ==> Size(before) == Size(t)
    ensures i > 0 && nodes[i].parent != Some(i - 1) ==> before.Leaf?
    ensures i > 0 && nodes[i].parent == Some(i - 1) && before.Branch? ==>
            && i - 1 + Size(before) >= i + Size(t)
            && (nodes[i].rightSibling.Some? <==> i - 1 + Size(before) > i + Size(t))
  {
    if i == 0 {
      SameSize(nodes, 0, t, before);
    } else if before.Branch? {
      var c := First(nodes, i - 1, before);
      SameSize(nodes, i, t, c);
    }
  }

  // ----- following siblings -----

  function FirstChild(nodes: seq<Node>, i: nat): Option<nat>
    requires i < |nodes|
  {
    if nodes[i].lastChild.Some? then Some(i + 1) else None
  }

  /** A node and its siblings to the right. */
  function Siblings(nodes: seq<Node>, i: Option<nat>): seq<nat>
    decreases if i.Some? then |nodes| - i.value else 0
  {
    if i.None? || i.value >= |nodes| then []
    else
      var next := nodes[i.value].rightSibling;
      [i.value] + if next.Some? && next.value > i.value then Siblings(nodes, next) else []
  }

  function RowIndices(r: Row, i: nat): seq<nat> {
    if r.Empty? then [] else RowIndices(r.init, i) + [i + SizeRow(r.init)]
  }

  /** The roots of a tree's children, if the tree begins at `i`. */
  function ChildIndices(t: Tree, i: nat): seq<nat> {
    if t.Leaf? then [] else RowIndices(t.init, i + 1) + [i + 1 + SizeRow(t.init)]
  }

  lemma SiblingsNext(nodes: seq<Node>, i: nat, next: nat)
    requires i < next && i < |nodes| && nodes[i].rightSibling == Some(next)
    ensures Siblings(nodes, Some(i)) == [i] + Siblings(nodes, Some(next))
  {
  }

  lemma RowIndicesThen(r: Row, i: nat, last: nat, rest: seq<nat>)
    requires r.More? && last == i + SizeRow(r.init)
    ensures RowIndices(r.init, i) + ([last] + rest) == RowIndices(r, i) + rest
  {
  }

  lemma {:induction false} RowSiblings(nodes: seq<Node>, i: nat, r: Row, pos: nat, parent: nat, next: nat)
    requires RowLocated(nodes, i, r, pos, parent) && next == i + SizeRow(r)
    ensures Siblings(nodes, Some(i)) == RowIndices(r, i) + Siblings(nodes, Some(next))
    decreases r
  {
    if r.More? {
      var last := i + SizeRow(r.init);
      RowParts(nodes, i, r, pos, parent, last);
      RowSiblings(nodes, i, r.init, pos, parent, last);
      SiblingsNext(nodes, last, next);
      RowIndicesThen(r, i, last, Siblings(nodes, Some(next)));
    } else {
      assert RowIndices(r, i) == [];
    }
  }

  lemma LastSibling(nodes: seq<Node>, last: nat)
    requires last < |nodes| && nodes[last].rightSibling == None
    ensures Siblings(nodes, Some(last)) == [last]
  {
  }

  lemma ChildrenRow(nodes: seq<Node>, i: nat, t: Tree, first: nat, last: nat)
    requires t.Branch? && i < |nodes| && first == i + 1 && last == first + SizeRow(t.init)
    requires RowLocated(nodes, first, t.init, nodes[i].namePos + |t.name| + 1, i)
    requires last < |nodes| && nodes[last].rightSibling == None
    ensures Siblings(nodes, Some(first)) == RowIndices(t.init, first) + [last]
    ensures |RowIndices(t.init, first)| == Length(t.init)
  {
    RowSiblings(nodes, first, t.init, nodes[i].namePos + |t.name| + 1, i, last);
    LastSibling(nodes, last);
    RowLength(t.init, first);
  }

  lemma LastChildIndex(t: Tree, i: nat, first: nat, last: nat)
    requires t.Branch? && first == i + 1 && last == first + SizeRow(t.init)
    ensures ChildIndices(t, i) == RowIndices(t.init, first) + [last]
    ensures |ChildIndices(t, i)| == |RowIndices(t.init, first)| + 1 && ChildIndices(t, i)[|ChildIndices(t, i)| - 1] == last
  {
  }

  /** Sibling links list exactly the children of a node, as many as it says it
      has, and end at its last child. */
  lemma LinksListChildren(nodes: seq<Node>, i: nat, t: Tree)
    requires Located(nodes, i, t)
    ensures Siblings(nodes, FirstChild(nodes, i)) == ChildIndices(t, i) && |ChildIndices(t, i)| == nodes[i].nChildren
    ensures t.Branch? ==> nodes[i].lastChild == Some(ChildIndices(t, i)[|ChildIndices(t, i)| - 1])
  {
    LeafParts(nodes, i, t);
    if t.Branch? {
      var last := i + 1 + SizeRow(t.init);
      Parts(nodes, i, t, last);
      ChildrenRow(nodes, i, t, i + 1, last);
      LastChildIndex(t, i, i + 1, last);
    }
  }

  lemma {:induction false} RowLength(r: Row, i: nat)
    ensures |RowIndices(r, i)| == Length(r)
  {
    if r.More? { RowLength(r.init, i); }
  }

  /** Steps through the children of a node. */
  class DirectChildIterator {
    const nodes: seq<Node>
    var current: Option<nat>

    constructor (nodes: seq<Node>, index: nat)
      requires index < |nodes|
      ensures this.nodes == nodes && current == FirstChild(nodes, index)
    {
      this.nodes := nodes;
      current := FirstChild(nodes, index);
    }

    method Next() returns (item: Option<nat>)
      requires WellLinked(nodes) && (current.Some? ==> current.value < |nodes|)
      modifies this
      ensures current.Some? ==> current.value < |nodes|
      ensures if old(Siblings(nodes, current)) == [] then item == None && current == None
              else item == Some(old(Siblings(nodes, current))[0])
                   && Siblings(nodes, current) == old(Siblings(nodes, current))[1..]
    {
      item := current;
      if item.None? { return; }
      assert WellPlaced(nodes, item.value);
      current := nodes[item.value].rightSibling;
    }
  }

  // ----- reading the tree back -----

  /** The text of the node at `i`, found by following links only. */
  function Reprint(nodes: seq<Node>, i: nat): string
    decreases |nodes| - i, 0
  {
    if i >= |nodes| then []
    else if nodes[i].lastChild.None? then nodes[i].name
    else
      nodes[i].name + [OpenChar(nodes[i].parens.Curly?)] + ReprintFrom(nodes, i + 1) + [CloseChar(nodes[i].parens.Curly?)]
  }

  /** The same for a node and its siblings to the right. */
  function ReprintFrom(nodes: seq<Node>, i: nat): string
    decreases |nodes| - i, 1
  {
    if i >= |nodes| then []
    else
      match nodes[i].rightSibling
      case None => Reprint(nodes, i)
      case Some(next) => Reprint(nodes, i) + [','] + if next > i then ReprintFrom(nodes, next) else []
  }

  lemma Stitch(row: string, text: string, rest: string, from: string, all: string)
    requires from == text + [','] + rest && all == row + from
    ensures all == row + text + [','] + rest
  {
  }

  lemma ReprintNext(nodes: seq<Node>, i: nat, next: nat)
    requires i < next && i < |nodes| && nodes[i].rightSibling == Some(next)
    ensures ReprintFrom(nodes, i) == Reprint(nodes, i) + [','] + ReprintFrom(nodes, next)
  {
  }

  lemma PrintRowMore(r: Row)
    requires r.More?
    ensures PrintRow(r) == PrintRow(r.init) + Print(r.last) + [',']
  {
  }

  lemma {:induction false} ReprintRow(nodes: seq<Node>, i: nat, r: Row, pos: nat, parent: nat, next: nat)
    requires RowLocated(nodes, i, r, pos, parent) && next == i + SizeRow(r) && next < |nodes|
    ensures ReprintFrom(nodes, i) == PrintRow(r) + ReprintFrom(nodes, next)
    decreases r, 1
  {
    if r.More? {
      var last := i + SizeRow(r.init);
      RowParts(nodes, i, r, pos, parent, last);
      ReprintOne(nodes, i, r, pos, parent, last, next);
    }
  }

  lemma {:induction false} ReprintOne(nodes: seq<Node>, i: nat, r: Row, pos: nat, parent: nat, last: nat, next: nat)
    requires r.More? && RowLocated(nodes, i, r.init, pos, parent) && last == i + SizeRow(r.init) && last < next < |nodes|
    requires Located(nodes, last, r.last) && nodes[last].rightSibling == Some(next)
    ensures ReprintFrom(nodes, i) == PrintRow(r) + ReprintFrom(nodes, next)
    decreases r, 0
  {
    ReprintRow(nodes, i, r.init, pos, parent, last);
    ReprintBack(nodes, last, r.last);
    ReprintNext(nodes, last, next);
    PrintRowMore(r);
    Stitch(PrintRow(r.init), Print(r.last), ReprintFrom(nodes, next), ReprintFrom(nodes, last), ReprintFrom(nodes, i));
  }

  lemma {:induction false} ReprintBack(nodes: seq<Node>, i: nat, t: Tree)
    requires Located(nodes, i, t)
    ensures Reprint(nodes, i) == Print(t)
    decreases t, 1
  {
    LeafParts(nodes, i, t);
    if t.Branch? {
      var last := i + 1 + SizeRow(t.init);
      Parts(nodes, i, t, last);
      ReprintRow(nodes, i + 1, t.init, nodes[i].namePos + |t.name| + 1, i, last);
      ReprintBack(nodes, last, t.last);
      assert ReprintFrom(nodes, i + 1) == PrintRow(t.init) + Print(t.last);
      Assoc(t.name + [OpenChar(t.curly)], PrintRow(t.init), Print(t.last));
    }
  }

  /** Printing a parsed arena gives the text that was parsed. */
  lemma ParsedPrints(s: string)
    requires Parse(s).Some?
    ensures Reprint(Layout(Parse(s).value), 0) == s
  {
    ParseExactly(s, Parse(s).value);
    Root(Parse(s).value);
    ReprintBack(Layout(Parse(s).value), 0, Parse(s).value);
  }
}
