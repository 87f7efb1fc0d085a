/** Iterators over trees that keep explicit stacks instead of recursing. */
module TreeIter {
  import opened Bytes

  /** A tree as the iterators see it: an element and its children, by arity. */
  datatype Tree<T> = Tree(elem: T, node: Shape<T>)

  datatype Shape<T> =
    | Nullary
    | Unary(a: Tree<T>)
    | Binary(a: Tree<T>, b: Tree<T>)
    | Ternary(a: Tree<T>, b: Tree<T>, c: Tree<T>)
    | Nary(children: seq<Tree<T>>)

  /** The children from left to right. */
  function Kids<T>(t: Tree<T>): seq<Tree<T>> {
    match t.node
    case Nullary => []
    case Unary(a) => [a]
    case Binary(a, b) => [a, b]
    case Ternary(a, b, c) => [a, b, c]
    case Nary(children) => children
  }

  function NChildren<T>(t: Tree<T>): nat {
    match t.node
    case Nullary => 0
    case Unary(_) => 1
    case Binary(_, _) => 2
    case Ternary(_, _, _) => 3
    case Nary(children) => |children|
  }

  function NthChild<T>(t: Tree<T>, n: nat): Option<Tree<T>> {
    match t.node
    case Nullary => None
    case Unary(a) => if n == 0 then Some(a) else None
    case Binary(a, b) => if n == 0 then Some(a) else if n == 1 then Some(b) else None
    case Ternary(a, b, c) => if n == 0 then Some(a) else if n == 1 then Some(b) else if n == 2 then Some(c) else None
    case Nary(children) => if n < |children| then Some(children[n]) else None
  }

  /** The same node with its children in the opposite order. */
  function RtlNthChild<T>(t: Tree<T>, n: nat): Option<Tree<T>> {
    match t.node
    case Nullary => None
    case Unary(a) => if n == 0 then Some(a) else None
    case Binary(a, b) => if n == 0 then Some(b) else if n == 1 then Some(a) else None
    case Ternary(a, b, c) => if n == 0 then Some(c) else if n == 1 then Some(b) else if n == 2 then Some(a) else None
    case Nary(children) => if n < |children| then Some(children[|children| - n - 1]) else None
  }

  /** The children in the order in which an iterator visits them. */
  function Order<T>(t: Tree<T>, rtl: bool): seq<Tree<T>> { if rtl then Backwards(Kids(t)) else Kids(t) }

  lemma OrderAt<T>(t: Tree<T>, rtl: bool, n: nat)
    ensures |Order(t, rtl)| == NChildren(t)
    ensures (if rtl then RtlNthChild(t, n) else NthChild(t, n)) ==
            if n < NChildren(t) then Some(Order(t, rtl)[n]) else None
  {
  }

  // ----- sizes -----

  function Count<T>(t: Tree<T>): (n: nat)
    ensures n > 0
    decreases t
  {
    match t.node
    case Nullary => 1
    case Unary(a) => 1 + Count(a)
    case Binary(a, b) => 1 + Count(a) + Count(b)
    case Ternary(a, b, c) => 1 + Count(a) + Count(b) + Count(c)
    case Nary(children) => 1 + CountAll(children)
  }

  function CountAll<T>(ts: seq<Tree<T>>): nat
    decreases ts
  {
    if ts == [] then 0 else Count(ts[0]) + CountAll(ts[1..])
  }

  lemma CountFirst<T>(t: Tree<T>, ts: seq<Tree<T>>)
    ensures CountAll([t] + ts) == Count(t) + CountAll(ts)
  {
    assert ([t] + ts)[1..] == ts;
  }

  lemma {:induction false} CountConcat<T>(a: seq<Tree<T>>, b: seq<Tree<T>>)
    ensures CountAll(a + b) == CountAll(a) + CountAll(b)
    decreases |a|
  {
    if a == [] {
      assert a + b == b;
    } else {
      CountConcat(a[1..], b);
      assert a + b == [a[0]] + (a[1..] + b);
      CountFirst(a[0], a[1..] + b);
    }
  }

  lemma CountKids<T>(t: Tree<T>)
    ensures Count(t) == 1 + CountAll(Kids(t))
  {
    match t.node
    case Nullary =>
    case Unary(a) => CountFirst(a, []);
      assert [a] == [a] + [];
    case Binary(a, b) =>
      assert [a, b] == [a] + ([b] + []);
      CountFirst(a, [b] + []);
      CountFirst(b, []);
    case Ternary(a, b, c) =>
      assert [a, b, c] == [a] + ([b] + ([c] + []));
      CountFirst(a, [b] + ([c] + []));
      CountFirst(b, [c] + []);
      CountFirst(c, []);
    case Nary(children) =>
  }

  lemma {:induction false} CountBackwards<T>(ts: seq<Tree<T>>)
    ensures CountAll(Backwards(ts)) == CountAll(ts)
    decreases |ts|
  {
    if ts != [] {
      var rest := ts[1..];
      CountBackwards(rest);
      assert Backwards(ts) == Backwards(rest) + [ts[0]];
      CountConcat(Backwards(rest), [ts[0]]);
      assert [ts[0]] == [ts[0]] + [];
      CountFirst(ts[0], []);
    }
  }

  lemma CountOrder<T>(t: Tree<T>, rtl: bool)
    ensures Count(t) == 1 + CountAll(Order(t, rtl))
  {
    CountKids(t);
    CountBackwards(Kids(t));
  }

  // ----- recursive traversals -----

  /** Pre-order: a node, then its children from left to right. */
  function Pre<T>(t: Tree<T>): seq<T>
    decreases Count(t), 1
  {
    CountKids(t);
    [t.elem] + PreAll(Kids(t))
  }

  function PreAll<T>(ts: seq<Tree<T>>): seq<T>
    decreases CountAll(ts), 2
  {
    if ts == [] then [] else
      assert ts == [ts[0]] + ts[1..];
      Pre(ts[0]) + PreAll(ts[1..])
  }

  /** What a post-order iterator yields: a node, how many were yielded before it,
      and when its children were. */
  datatype Item<T> = Item(elem: T, index: nat, childIndices: seq<nat>)

  /** Post-order: the children, then the node; `base` nodes were yielded before. */
  function Post<T>(t: Tree<T>, rtl: bool, base: nat): seq<Item<T>>
    decreases Count(t), 1
  {
    CountOrder(t, rtl);
    var kids := Order(t, rtl);
    PostAll(kids, rtl, base) + [Item(t.elem, base + CountAll(kids), Roots(kids, base))]
  }

  function PostAll<T>(ts: seq<Tree<T>>, rtl: bool, base: nat): seq<Item<T>>
    decreases CountAll(ts), 2
  {
    if ts == [] then [] else
      Post(ts[0], rtl, base) + PostAll(ts[1..], rtl, base + Count(ts[0]))
  }

  /** When the roots of consecutive subtrees are yielded. */
  function Roots<T>(ts: seq<Tree<T>>, base: nat): seq<nat>
    decreases |ts|
  {
    if ts == [] then [] else [base + Count(ts[0]) - 1] + Roots(ts[1..], base + Count(ts[0]))
  }

  // ----- what post-order promises -----

  /** Children of a yielded node, and when they were yielded. */
  predicate GoodItem<T>(items: seq<Item<T>>, base: nat, k: nat)
    requires k < |items|
  {
    && items[k].index == base + k
    && forall j :: 0 <= j < |items[k].childIndices| ==> base <= items[k].childIndices[j] < base + k
  }

  lemma {:induction false} PostLength<T>(t: Tree<T>, rtl: bool, base: nat)
    ensures |Post(t, rtl, base)| == Count(t)
    ensures Post(t, rtl, base)[Count(t) - 1].elem == t.elem
    decreases Count(t), 1
  {
    CountOrder(t, rtl);
    PostAllLength(Order(t, rtl), rtl, base);
  }

  lemma {:induction false} PostAllLength<T>(ts: seq<Tree<T>>, rtl: bool, base: nat)
    ensures |PostAll(ts, rtl, base)| == CountAll(ts)
    decreases CountAll(ts), 2
  {
    if ts != [] {
      assert ts == [ts[0]] + ts[1..];
      PostLength(ts[0], rtl, base);
      PostAllLength(ts[1..], rtl, base + Count(ts[0]));
    }
  }

  lemma {:induction false} RootsInside<T>(ts: seq<Tree<T>>, base: nat)
    ensures |Roots(ts, base)| == |ts|
    ensures forall j :: 0 <= j < |ts| ==> base <= Roots(ts, base)[j] < base + CountAll(ts)
    decreases |ts|
  {
    if ts != [] { RootsInside(ts[1..], base + Count(ts[0])); }
  }

  lemma Shifted<T>(a: seq<Item<T>>, b: seq<Item<T>>, base: nat, next: nat)
    requires next == base + |a| && (forall k :: 0 <= k < |a| ==> GoodItem(a, base, k))
    requires forall k :: 0 <= k < |b| ==> GoodItem(b, next, k)
    ensures forall k :: 0 <= k < |a + b| ==> GoodItem(a + b, base, k)
  {
    forall k | 0 <= k < |a + b|
      ensures GoodItem(a + b, base, k)
    {
      if k < |a| { assert GoodItem(a, base, k); } else { assert GoodItem(b, next, k - |a|); }
    }
  }

  /** Indices count up by one, and children come before their parents. */
  lemma {:induction false} PostGood<T>(t: Tree<T>, rtl: bool, base: nat)
    ensures forall k :: 0 <= k < |Post(t, rtl, base)| ==> GoodItem(Post(t, rtl, base), base, k)
    decreases Count(t), 1
  {
    CountOrder(t, rtl);
    var kids := Order(t, rtl);
    var before := PostAll(kids, rtl, base);
    PostAllGood(kids, rtl, base);
    PostAllLength(kids, rtl, base);
    RootsInside(kids, base);
    var last := Item(t.elem, base + CountAll(kids), Roots(kids, base));
    forall k | 0 <= k < |before + [last]|
      ensures GoodItem(before + [last], base, k)
    {
      if k < |before| { assert GoodItem(before, base, k); }
    }
  }

  lemma {:induction false} PostAllGood<T>(ts: seq<Tree<T>>, rtl: bool, base: nat)
    ensures forall k :: 0 <= k < |PostAll(ts, rtl, base)| ==> GoodItem(PostAll(ts, rtl, base), base, k)
    decreases CountAll(ts), 2
  {
    if ts != [] {
      var next := base + Count(ts[0]);
      assert ts == [ts[0]] + ts[1..];
      PostLength(ts[0], rtl, base);
      PostGood(ts[0], rtl, base);
      PostAllGood(ts[1..], rtl, next);
      Shifted(Post(ts[0], rtl, base), PostAll(ts[1..], rtl, next), base, next);
    }
  }

  // ----- which subtree an item stands for -----

  /** The subtrees whose roots are yielded, in the same order. */
  function PostTrees<T>(t: Tree<T>, rtl: bool): seq<Tree<T>>
    decreases Count(t), 1
  {
    CountOrder(t, rtl);
    PostTreesAll(Order(t, rtl), rtl) + [t]
  }

  function PostTreesAll<T>(ts: seq<Tree<T>>, rtl: bool): seq<Tree<T>>
    decreases CountAll(ts), 2
  {
    if ts == [] then [] else
      assert ts == [ts[0]] + ts[1..];
      PostTrees(ts[0], rtl) + PostTreesAll(ts[1..], rtl)
  }

  lemma {:induction false} PostTreesLength<T>(t: Tree<T>, rtl: bool)
    ensures |PostTrees(t, rtl)| == Count(t) && PostTrees(t, rtl)[Count(t) - 1] == t
    decreases Count(t), 1
  {
    CountOrder(t, rtl);
    PostTreesAllLength(Order(t, rtl), rtl);
  }

  lemma {:induction false} PostTreesAllLength<T>(ts: seq<Tree<T>>, rtl: bool)
    ensures |PostTreesAll(ts, rtl)| == CountAll(ts)
    decreases CountAll(ts), 2
  {
    if ts != [] {
      assert ts == [ts[0]] + ts[1..];
      PostTreesLength(ts[0], rtl);
      PostTreesAllLength(ts[1..], rtl);
    }
  }

  lemma TreesNext<T>(ts: seq<Tree<T>>, kid: Tree<T>, more: seq<Tree<T>>, rtl: bool)
    requires ts == [kid] + more
    ensures PostTreesAll(ts, rtl) == PostTrees(kid, rtl) + PostTreesAll(more, rtl)
  {
    assert ts[1..] == more;
  }

  /** What is yielded at each of a forest's root indices is that root. */
  lemma {:induction false} RootsYielded<T>(ts: seq<Tree<T>>, rtl: bool, base: nat, j: nat)
    requires j < |ts|
    ensures |Roots(ts, base)| == |ts| && base <= Roots(ts, base)[j] < base + |PostTreesAll(ts, rtl)|
    ensures PostTreesAll(ts, rtl)[Roots(ts, base)[j] - base] == ts[j]
    decreases |ts|
  {
    var kid, more, mid := ts[0], ts[1..], base + Count(ts[0]);
    assert ts == [kid] + more;
    RowNext(ts, kid, more, rtl, base, mid);
    TreesNext(ts, kid, more, rtl);
    PostTreesLength(kid, rtl);
    RootsInside(more, mid);
    if j > 0 { RootsYielded(more, rtl, mid, j - 1); }
  }

  /** Item number `k` is the root of subtree number `k`, and lists for each of its
      children when that child was yielded. */
  ghost predicate Lists<T>(item: Item<T>, trees: seq<Tree<T>>, rtl: bool, base: nat, k: nat)
    requires k < |trees|
  {
    && item.elem == trees[k].elem && item.index == base + k && |item.childIndices| == NChildren(trees[k])
    && forall j :: 0 <= j < |item.childIndices| ==>
         && base <= item.childIndices[j] < base + k
         && trees[item.childIndices[j] - base] == Order(trees[k], rtl)[j]
  }

  ghost predicate AllList<T>(items: seq<Item<T>>, trees: seq<Tree<T>>, rtl: bool, base: nat) {
    |items| == |trees| && forall k :: 0 <= k < |items| ==> Lists(items[k], trees, rtl, base, k)
  }

  lemma ListsEarlier<T>(item: Item<T>, trees: seq<Tree<T>>, more: seq<Tree<T>>, rtl: bool, base: nat, k: nat)
    requires k < |trees| && Lists(item, trees, rtl, base, k)
    ensures Lists(item, trees + more, rtl, base, k)
  {
    OrderAt(trees[k], rtl, 0);
  }

  lemma ListsLater<T>(item: Item<T>, before: seq<Tree<T>>, trees: seq<Tree<T>>, rtl: bool, base: nat, next: nat, k: nat, k': nat)
    requires k < |trees| && next == base + |before| && k' == |before| + k && Lists(item, trees, rtl, next, k)
    ensures Lists(item, before + trees, rtl, base, k')
  {
    var all := before + trees;
    assert all[k'] == trees[k];
    OrderAt(trees[k], rtl, 0);
    forall j | 0 <= j < |item.childIndices|
      ensures base <= item.childIndices[j] < base + k' && all[item.childIndices[j] - base] == Order(all[k'], rtl)[j]
    {
      assert all[item.childIndices[j] - base] == trees[item.childIndices[j] - next];
    }
  }

  lemma ListBoth<T>(a: seq<Item<T>>, b: seq<Item<T>>, first: seq<Tree<T>>, more: seq<Tree<T>>, rtl: bool, base: nat, next: nat)
    requires AllList(a, first, rtl, base) && AllList(b, more, rtl, next) && next == base + |first|
    ensures AllList(a + b, first + more, rtl, base)
  {
    forall k | 0 <= k < |a + b|
      ensures Lists((a + b)[k], first + more, rtl, base, k)
    {
      if k < |a| {
        ListsEarlier(a[k], first, more, rtl, base, k);
      } else {
        ListsLater(b[k - |a|], first, more, rtl, base, next, k - |a|, k);
      }
    }
  }

  lemma RootLists<T>(t: Tree<T>, rtl: bool, base: nat, item: Item<T>, trees: seq<Tree<T>>)
    requires trees == PostTreesAll(Order(t, rtl), rtl)
    requires item == Item(t.elem, base + |trees|, Roots(Order(t, rtl), base))
    ensures Lists(item, trees + [t], rtl, base, |trees|)
  {
    var kids := Order(t, rtl);
    OrderAt(t, rtl, 0);
    RootsInside(kids, base);
    assert (trees + [t])[|trees|] == t;
    forall j | 0 <= j < |item.childIndices|
      ensures base <= item.childIndices[j] < base + |trees| && (trees + [t])[item.childIndices[j] - base] == kids[j]
    {
      RootsYielded(kids, rtl, base, j);
    }
  }

  lemma ListLast<T>(before: seq<Item<T>>, last: Item<T>, trees: seq<Tree<T>>, t: Tree<T>, rtl: bool, base: nat)
    requires AllList(before, trees, rtl, base) && Lists(last, trees + [t], rtl, base, |trees|)
    ensures AllList(before + [last], trees + [t], rtl, base)
  {
    forall k | 0 <= k < |before + [last]|
      ensures Lists((before + [last])[k], trees + [t], rtl, base, k)
    {
      if k < |before| { ListsEarlier(before[k], trees, [t], rtl, base, k); }
    }
  }

  /** Every item of a traversal lists, for each child of its subtree, when that
      child was yielded. */
  lemma {:induction false} ChildIndicesYielded<T>(t: Tree<T>, rtl: bool, base: nat)
    ensures AllList(Post(t, rtl, base), PostTrees(t, rtl), rtl, base)
    decreases Count(t), 1
  {
    CountOrder(t, rtl);
    var kids := Order(t, rtl);
    var before, trees := PostAll(kids, rtl, base), PostTreesAll(kids, rtl);
    ChildIndicesAll(kids, rtl, base);
    PostTreesAllLength(kids, rtl);
    var last := Item(t.elem, base + CountAll(kids), Roots(kids, base));
    RootLists(t, rtl, base, last, trees);
    ListLast(before, last, trees, t, rtl, base);
  }

  lemma {:induction false} ChildIndicesAll<T>(ts: seq<Tree<T>>, rtl: bool, base: nat)
    ensures AllList(PostAll(ts, rtl, base), PostTreesAll(ts, rtl), rtl, base)
    decreases CountAll(ts), 2
  {
    if ts != [] {
      var kid, more, next := ts[0], ts[1..], base + Count(ts[0]);
      assert ts == [kid] + more;
      PostTreesLength(kid, rtl);
      TreesNext(ts, kid, more, rtl);
      ChildIndicesYielded(kid, rtl, base);
      ChildIndicesAll(more, rtl, next);
      ListBoth(Post(kid, rtl, base), PostAll(more, rtl, next), PostTrees(kid, rtl), PostTreesAll(more, rtl), rtl, base, next);
    }
  }

  // ----- the post-order iterator -----

  datatype StackItem<T> = StackItem(elem: Tree<T>, processed: bool, childIndices: seq<nat>, parentStackIdx: Option<nat>)

  function Unprocessed<T>(elem: Tree<T>, parent: Option<nat>): StackItem<T> { StackItem(elem, false, [], parent) }

  /** The parent of a yielded node learns the node's index. */
  function Note<T>(stack: seq<StackItem<T>>, parent: Option<nat>, index: nat): seq<StackItem<T>> {
    if parent.Some? && parent.value < |stack|
    then stack[parent.value := stack[parent.value].(childIndices := stack[parent.value].childIndices + [index])]
    else stack
  }

  /** Everything a stack will yield, the next node having index `index`. */
  function Remaining<T>(stack: seq<StackItem<T>>, rtl: bool, index: nat): seq<Item<T>>
    decreases |stack|
  {
    if stack == [] then []
    else
      var top, rest := stack[|stack| - 1], stack[..|stack| - 1];
      if top.processed then
        [Item(top.elem.elem, index, top.childIndices)] + Remaining(Note(rest, top.parentStackIdx, index), rtl, index + 1)
      else
        var next := index + Count(top.elem);
        Post(top.elem, rtl, index) + Remaining(Note(rest, top.parentStackIdx, next - 1), rtl, next)
  }

  lemma RemainingTop<T>(rest: seq<StackItem<T>>, top: StackItem<T>, rtl: bool, index: nat, next: nat)
    requires next == index + if top.processed then 1 else Count(top.elem)
    ensures Remaining(rest + [top], rtl, index) ==
            (if top.processed then [Item(top.elem.elem, index, top.childIndices)] else Post(top.elem, rtl, index))
            + Remaining(Note(rest, top.parentStackIdx, next - 1), rtl, next)
  {
    var stack := rest + [top];
    assert stack[..|stack| - 1] == rest;
  }

  /** A node on the stack with the children that are still to be visited, the
      next one on top. */
  function Pushed<T>(rest: seq<StackItem<T>>, node: StackItem<T>, kids: seq<Tree<T>>): seq<StackItem<T>> {
    rest + [node] + Backwards(Children(kids, |rest|))
  }

  function Children<T>(kids: seq<Tree<T>>, parent: nat): seq<StackItem<T>> {
    seq(|kids|, i requires 0 <= i < |kids| => Unprocessed(kids[i], Some(parent)))
  }

  function WithIndices<T>(node: StackItem<T>, indices: seq<nat>): StackItem<T> {
    node.(childIndices := node.childIndices + indices)
  }

  lemma PushedFirst<T>(rest: seq<StackItem<T>>, node: StackItem<T>, kids: seq<Tree<T>>, kid: Tree<T>, more: seq<Tree<T>>, index: nat)
    requires kids == [kid] + more
    ensures Pushed(rest, node, kids) == Pushed(rest, node, more) + [Unprocessed(kid, Some(|rest|))]
    ensures Note(Pushed(rest, node, more), Some(|rest|), index) ==
            Pushed(rest, WithIndices(node, [index]), more)
  {
  }

  lemma VisitTop<T>(all: seq<StackItem<T>>, below: seq<StackItem<T>>, after: seq<StackItem<T>>, kid: Tree<T>, parent: nat,
                    rtl: bool, index: nat, mid: nat)
    requires all == below + [Unprocessed(kid, Some(parent))] && mid == index + Count(kid)
    requires after == Note(below, Some(parent), mid - 1)
    ensures Remaining(all, rtl, index) == Post(kid, rtl, index) + Remaining(after, rtl, mid)
  {
    RemainingTop(below, Unprocessed(kid, Some(parent)), rtl, index, mid);
  }

  lemma VisitOne<T>(rest: seq<StackItem<T>>, node: StackItem<T>, kids: seq<Tree<T>>, kid: Tree<T>, more: seq<Tree<T>>,
                    rtl: bool, index: nat, mid: nat)
    requires kids == [kid] + more && mid == index + Count(kid)
    ensures Remaining(Pushed(rest, node, kids), rtl, index) ==
            Post(kid, rtl, index) + Remaining(Pushed(rest, WithIndices(node, [mid - 1]), more), rtl, mid)
  {
    PushedFirst(rest, node, kids, kid, more, mid - 1);
    VisitTop(Pushed(rest, node, kids), Pushed(rest, node, more), Pushed(rest, WithIndices(node, [mid - 1]), more),
      kid, |rest|, rtl, index, mid);
  }

  lemma RowNext<T>(kids: seq<Tree<T>>, kid: Tree<T>, more: seq<Tree<T>>, rtl: bool, index: nat, mid: nat)
    requires kids == [kid] + more && mid == index + Count(kid)
    ensures PostAll(kids, rtl, index) == Post(kid, rtl, index) + PostAll(more, rtl, mid)
    ensures Roots(kids, index) == [mid - 1] + Roots(more, mid) && CountAll(kids) == Count(kid) + CountAll(more)
  {
    assert kids[1..] == more;
  }

  lemma WithMore<T>(node: StackItem<T>, i: nat, more: seq<nat>)
    ensures WithIndices(WithIndices(node, [i]), more) == WithIndices(node, [i] + more)
  {
  }

  /** Visiting children one by one is the recursive traversal. */
  lemma {:induction false} VisitChildren<T>(rest: seq<StackItem<T>>, node: StackItem<T>, kids: seq<Tree<T>>, rtl: bool, index: nat, next: nat)
    requires next == index + CountAll(kids)
    ensures Remaining(Pushed(rest, node, kids), rtl, index) ==
            PostAll(kids, rtl, index) + Remaining(rest + [WithIndices(node, Roots(kids, index))], rtl, next)
    decreases |kids|
  {
    if kids == [] {
      assert Pushed(rest, node, kids) == rest + [node];
      assert node.childIndices + [] == node.childIndices;
    } else {
      var kid, more, mid := kids[0], kids[1..], index + Count(kids[0]);
      assert kids == [kid] + more;
      RowNext(kids, kid, more, rtl, index, mid);
      VisitOne(rest, node, kids, kid, more, rtl, index, mid);
      VisitChildren(rest, WithIndices(node, [mid - 1]), more, rtl, mid, next);
      WithMore(node, mid - 1, Roots(more, mid));
      Assoc(Post(kid, rtl, index), PostAll(more, rtl, mid),
        Remaining(rest + [WithIndices(node, Roots(kids, index))], rtl, next));
    }
  }

  lemma TopDone<T>(rest: seq<StackItem<T>>, top: StackItem<T>, done: StackItem<T>, kids: seq<Tree<T>>, rtl: bool, index: nat, mid: nat)
    requires done == StackItem(top.elem, true, Roots(kids, index), top.parentStackIdx) && mid == index + CountAll(kids)
    requires kids == Order(top.elem, rtl) && !top.processed
    ensures PostAll(kids, rtl, index) + Remaining(rest + [done], rtl, mid) == Remaining(rest + [top], rtl, index)
  {
    CountOrder(top.elem, rtl);
    RemainingTop(rest, done, rtl, mid, mid + 1);
    RemainingTop(rest, top, rtl, index, mid + 1);
    Assoc(PostAll(kids, rtl, index), [Item(top.elem.elem, mid, Roots(kids, index))],
      Remaining(Note(rest, top.parentStackIdx, mid), rtl, mid + 1));
  }

  /** Putting a node back with its children above it changes nothing. */
  lemma Expand<T>(rest: seq<StackItem<T>>, top: StackItem<T>, rtl: bool, index: nat)
    requires !top.processed && top.childIndices == []
    ensures Remaining(Pushed(rest, top.(processed := true), Order(top.elem, rtl)), rtl, index) ==
            Remaining(rest + [top], rtl, index)
  {
    var kids, node := Order(top.elem, rtl), top.(processed := true);
    var mid := index + CountAll(kids);
    VisitChildren(rest, node, kids, rtl, index, mid);
    assert [] + Roots(kids, index) == Roots(kids, index);
    TopDone(rest, top, WithIndices(node, Roots(kids, index)), kids, rtl, index, mid);
  }

  /** Parents are below their children and have been processed, and a node that
      has not been processed knows no children. */
  predicate ValidStack<T>(stack: seq<StackItem<T>>) {
    forall i :: 0 <= i < |stack| ==> ValidEntry(stack, i)
  }

  predicate ValidEntry<T>(stack: seq<StackItem<T>>, i: nat)
    requires i < |stack|
  {
    var p := stack[i].parentStackIdx;
    && (stack[i].processed || stack[i].childIndices == [])
    && (p.Some? ==> p.value < i && stack[p.value].processed)
  }

  lemma NoteValid<T>(rest: seq<StackItem<T>>, top: StackItem<T>, index: nat)
    requires ValidStack(rest + [top])
    ensures ValidStack(Note(rest, top.parentStackIdx, index))
  {
    var all, noted := rest + [top], Note(rest, top.parentStackIdx, index);
    assert ValidEntry(all, |rest|);
    forall i | 0 <= i < |noted|
      ensures ValidEntry(noted, i)
    {
      assert ValidEntry(all, i);
    }
  }

  lemma PushedValid<T>(rest: seq<StackItem<T>>, top: StackItem<T>, kids: seq<Tree<T>>)
    requires ValidStack(rest + [top])
    ensures ValidStack(Pushed(rest, top.(processed := true), kids))
  {
    var all, pushed := rest + [top], Pushed(rest, top.(processed := true), kids);
    forall i | 0 <= i < |pushed|
      ensures ValidEntry(pushed, i)
    {
      if i <= |rest| { assert ValidEntry(all, i); }
    }
  }

  /** The iterator, from left to right or from right to left. */
  class PostOrderIter<T> {
    const rtl: bool
    var index: nat
    var stack: seq<StackItem<T>>

    predicate Valid()
      reads this
    {
      ValidStack(stack)
    }

    ghost function Rest(): seq<Item<T>>
      reads this
    {
      Remaining(stack, rtl, index)
    }

    /** An iterator over a tree yields its recursive post-order. */
    constructor (t: Tree<T>, rtl: bool)
      ensures Valid() && Rest() == Post(t, rtl, 0)
    {
      this.rtl := rtl;
      index := 0;
      stack := [Unprocessed(t, None)];
      new;
      assert stack == [] + [Unprocessed(t, None)];
      RemainingTop([], Unprocessed(t, None), rtl, 0, Count(t));
      assert Remaining<T>([], rtl, Count(t)) == [];
      assert Post(t, rtl, 0) + [] == Post(t, rtl, 0);
    }

    method Next() returns (item: Option<Item<T>>)
      requires Valid()
      modifies this
      ensures Valid()
      ensures if old(Rest()) == [] then item == None && Rest() == []
              else item == Some(old(Rest())[0]) && Rest() == old(Rest())[1..]
      decreases Pending(stack)
    {
      if stack == [] { return None; }
      var current, rest := stack[|stack| - 1], stack[..|stack| - 1];
      assert stack == rest + [current];
      assert ValidEntry(stack, |rest|);
      if !current.processed {
        Expand(rest, current, rtl, index);
        PendingExpands(rest, current, rtl);
        PushedValid(rest, current, Order(current.elem, rtl));
        stack := rest + [current.(processed := true)];
        stack := PushChildren(stack, current.elem, |rest|);
        item := Next();
      } else {
        RemainingTop(rest, current, rtl, index, index + 1);
        NoteValid(rest, current, index);
        stack := Note(rest, current.parentStackIdx, index);
        index := index + 1;
        item := Some(Item(current.elem.elem, index - 1, current.childIndices));
      }
    }

    /** Pushes the children of a node, the first of them last. */
    method PushChildren(below: seq<StackItem<T>>, elem: Tree<T>, at: nat) returns (out: seq<StackItem<T>>)
      ensures out == below + Backwards(Children(Order(elem, rtl), at))
    {
      var n := NChildren(elem);
      out := below;
      OrderAt(elem, rtl, 0);
      var i := n;
      while i > 0
        invariant 0 <= i <= n == |Order(elem, rtl)|
        invariant out == below + Backwards(Children(Order(elem, rtl)[i..], at))
      {
        i := i - 1;
        OrderAt(elem, rtl, i);
        var child := if rtl then RtlNthChild(elem, i) else NthChild(elem, i);
        ghost var later := Order(elem, rtl)[i + 1..];
        assert Order(elem, rtl)[i..] == [child.value] + later;
        assert Children([child.value] + later, at) == [Unprocessed(child.value, Some(at))] + Children(later, at);
        assert Backwards([Unprocessed(child.value, Some(at))] + Children(later, at)) ==
               Backwards(Children(later, at)) + [Unprocessed(child.value, Some(at))];
        out := out + [Unprocessed(child.value, Some(at))];
      }
      assert Order(elem, rtl)[0..] == Order(elem, rtl);
    }
  }

  /** Work left on a stack: nodes not yet processed. */
  function Pending<T>(stack: seq<StackItem<T>>): nat
    decreases |stack|
  {
    if stack == [] then 0
    else
      var top := stack[|stack| - 1];
      Pending(stack[..|stack| - 1]) + if top.processed then 0 else Count(top.elem)
  }

  lemma {:induction false} PendingConcat<T>(a: seq<StackItem<T>>, b: seq<StackItem<T>>)
    ensures Pending(a + b) == Pending(a) + Pending(b)
    decreases |b|
  {
    if b == [] {
      assert a + b == a;
    } else {
      assert (a + b)[..|a + b| - 1] == a + b[..|b| - 1];
      PendingConcat(a, b[..|b| - 1]);
    }
  }

  lemma {:induction false} PendingChildren<T>(kids: seq<Tree<T>>, parent: nat)
    ensures Pending(Backwards(Children(kids, parent))) == CountAll(kids)
    decreases |kids|
  {
    if kids != [] {
      PendingChildren(kids[1..], parent);
      var all := Backwards(Children(kids, parent));
      assert all[..|all| - 1] == Backwards(Children(kids[1..], parent));
    }
  }

  lemma PendingExpands<T>(rest: seq<StackItem<T>>, top: StackItem<T>, rtl: bool)
    requires !top.processed
    ensures Pending(Pushed(rest, top.(processed := true), Order(top.elem, rtl))) < Pending(rest + [top])
  {
    var node, kids := top.(processed := true), Order(top.elem, rtl);
    PendingConcat(rest + [node], Backwards(Children(kids, |rest|)));
    PendingChildren(kids, |rest|);
    CountOrder(top.elem, rtl);
    assert (rest + [node])[..|rest|] == rest && (rest + [top])[..|rest|] == rest;
  }

  // ----- right to left, and rebuilding -----

  /** What the right-to-left iterator yields: children indices in natural order. */
  function RtlItem<T>(item: Item<T>): Item<T> { item.(childIndices := Backwards(item.childIndices)) }

  /** Going from right to left, index j of every item still belongs to child j. */
  lemma RtlChildren<T>(t: Tree<T>, base: nat, k: nat, j: nat)
    requires k < |PostTrees(t, true)| && j < NChildren(PostTrees(t, true)[k])
    ensures |Post(t, true, base)| == |PostTrees(t, true)|
    ensures var item, trees := RtlItem(Post(t, true, base)[k]), PostTrees(t, true);
            && |item.childIndices| == NChildren(trees[k])
            && base <= item.childIndices[j] < base + k
            && trees[item.childIndices[j] - base] == Kids(trees[k])[j]
  {
    PostTreesLength(t, true);
    ChildIndicesYielded(t, true, base);
    var items, trees := Post(t, true, base), PostTrees(t, true);
    assert Lists(items[k], trees, true, base, k);
    OrderAt(trees[k], true, j);
    OrderAt(trees[k], false, j);
    var last := NChildren(trees[k]) - 1;
    assert RtlItem(items[k]).childIndices[j] == items[k].childIndices[last - j];
  }

  /** A value for every node, from the node and the values of its children. */
  function Recurse<T, R>(f: (T, seq<R>) -> R, t: Tree<T>): R
    decreases Count(t), 1
  {
    CountKids(t);
    f(t.elem, RecurseAll(f, Kids(t)))
  }

  function RecurseAll<T, R>(f: (T, seq<R>) -> R, ts: seq<Tree<T>>): (rs: seq<R>)
    ensures |rs| == |ts|
    decreases CountAll(ts), 2
  {
    if ts == [] then [] else
      assert ts == [ts[0]] + ts[1..];
      [Recurse(f, ts[0])] + RecurseAll(f, ts[1..])
  }

  /** The same with a stack: each node pops the values of its children, the
      leftmost first, and pushes its own. */
  function Fold<T, R>(f: (T, seq<R>) -> R, items: seq<Item<T>>, stack: seq<R>): seq<R>
    decreases |items|
  {
    if items == [] then stack
    else
      var n := |items[0].childIndices|;
      if n > |stack| then []
      else
        var kids := Backwards(stack[|stack| - n..]);
        Fold(f, items[1..], stack[..|stack| - n] + [f(items[0].elem, kids)])
  }

  lemma {:induction false} FoldConcat<T, R>(f: (T, seq<R>) -> R, a: seq<Item<T>>, b: seq<Item<T>>, stack: seq<R>, mid: seq<R>)
    requires Fold(f, a, stack) == mid && mid != []
    ensures Fold(f, a + b, stack) == Fold(f, b, mid)
    decreases |a|
  {
    if a == [] {
      assert a + b == b;
    } else {
      assert (a + b)[0] == a[0] && (a + b)[1..] == a[1..] + b;
      var n := |a[0].childIndices|;
      if n <= |stack| {
        FoldConcat(f, a[1..], b, stack[..|stack| - n] + [f(a[0].elem, Backwards(stack[|stack| - n..]))], mid);
      }
    }
  }

  lemma FoldNode<T, R>(f: (T, seq<R>) -> R, item: Item<T>, stack: seq<R>, kids: seq<R>)
    requires |item.childIndices| == |kids|
    ensures Fold(f, [item], stack + Backwards(kids)) == stack + [f(item.elem, kids)]
  {
    var all := stack + Backwards(kids);
    assert all[..|all| - |kids|] == stack && all[|all| - |kids|..] == Backwards(kids);
    assert Backwards(Backwards(kids)) == kids;
    assert [item][1..] == [];
  }

  /** Folding a right-to-left post-order over a stack is plain recursion. */
  lemma {:induction false} FoldRebuilds<T, R>(f: (T, seq<R>) -> R, t: Tree<T>, base: nat, stack: seq<R>)
    ensures Fold(f, Post(t, true, base), stack) == stack + [Recurse(f, t)]
    decreases Count(t), 1
  {
    CountKids(t);
    CountOrder(t, true);
    var kids, values := Kids(t), RecurseAll(f, Kids(t));
    var order := Backwards(kids);
    var last := Item(t.elem, base + CountAll(order), Roots(order, base));
    RootsInside(order, base);
    FoldNode(f, last, stack, values);
    if kids == [] {
      assert PostAll(order, true, base) == [] && [] + [last] == [last];
      assert stack + Backwards(values) == stack;
    } else {
      FoldKids(f, kids, base, stack);
      FoldConcat(f, PostAll(order, true, base), [last], stack, stack + Backwards(values));
    }
  }

  lemma PostAllLast<T>(ts: seq<Tree<T>>, kid: Tree<T>, rtl: bool, base: nat, next: nat)
    requires next == base + CountAll(ts)
    ensures PostAll(ts + [kid], rtl, base) == PostAll(ts, rtl, base) + Post(kid, rtl, next)
    decreases |ts|
  {
    if ts == [] {
      assert ts + [kid] == [kid] && [kid][1..] == [];
      assert Post(kid, rtl, next) + [] == Post(kid, rtl, next);
    } else {
      assert (ts + [kid])[0] == ts[0] && (ts + [kid])[1..] == ts[1..] + [kid];
      PostAllLast(ts[1..], kid, rtl, base + Count(ts[0]), next);
      Assoc(Post(ts[0], rtl, base), PostAll(ts[1..], rtl, base + Count(ts[0])), Post(kid, rtl, next));
    }
  }

  lemma {:induction false} FoldKids<T, R>(f: (T, seq<R>) -> R, kids: seq<Tree<T>>, base: nat, stack: seq<R>)
    ensures Fold(f, PostAll(Backwards(kids), true, base), stack) == stack + Backwards(RecurseAll(f, kids))
    decreases CountAll(kids), 2
  {
    if kids == [] {
      assert PostAll(Backwards(kids), true, base) == [] && stack + Backwards(RecurseAll(f, kids)) == stack;
    } else {
      var kid, more := kids[0], kids[1..];
      var order := Backwards(more);
      var next := base + CountAll(order);
      assert kids == [kid] + more && Backwards(kids) == order + [kid];
      CountFirst(kid, more);
      PostAllLast(order, kid, true, base, next);
      FoldKids(f, more, base, stack);
      FoldRebuilds(f, kid, next, stack + Backwards(RecurseAll(f, more)));
      FoldBoth(f, PostAll(order, true, base), Post(kid, true, next), stack, stack + Backwards(RecurseAll(f, more)), more == []);
      StackGrows(stack, Recurse(f, kid), RecurseAll(f, more));
    }
  }

  lemma StackGrows<R>(stack: seq<R>, first: R, more: seq<R>)
    ensures stack + Backwards([first] + more) == stack + Backwards(more) + [first]
  {
  }

  lemma FoldBoth<T, R>(f: (T, seq<R>) -> R, a: seq<Item<T>>, b: seq<Item<T>>, stack: seq<R>, mid: seq<R>, none: bool)
    requires Fold(f, a, stack) == mid && if none then a == [] else mid != []
    ensures Fold(f, a + b, stack) == Fold(f, b, mid)
  {
    if none { assert a + b == b; } else { FoldConcat(f, a, b, stack, mid); }
  }

  // ----- the pre-order iterator -----

  lemma {:induction false} PreAllConcat<T>(a: seq<Tree<T>>, b: seq<Tree<T>>)
    ensures PreAll(a + b) == PreAll(a) + PreAll(b)
    decreases |a|
  {
    if a == [] {
      assert a + b == b;
    } else {
      assert (a + b)[0] == a[0] && (a + b)[1..] == a[1..] + b;
      PreAllConcat(a[1..], b);
      assert Pre(a[0]) + (PreAll(a[1..]) + PreAll(b)) == Pre(a[0]) + PreAll(a[1..]) + PreAll(b);
    }
  }

  /** A node in front of a forest, opened. */
  lemma PreOpens<T>(t: Tree<T>, more: seq<Tree<T>>)
    ensures PreAll([t] + more) == [t.elem] + PreAll(Kids(t) + more)
  {
    PreAllConcat(Kids(t), more);
    assert ([t] + more)[1..] == more;
    assert [t.elem] + PreAll(Kids(t)) + PreAll(more) == [t.elem] + (PreAll(Kids(t)) + PreAll(more));
  }

  lemma PreSingle<T>(t: Tree<T>)
    ensures PreAll(Backwards([t])) == Pre(t)
  {
    assert Backwards([t]) == [t] && [t][1..] == [];
    assert Pre(t) + [] == Pre(t);
  }

  /** Yields nodes in pre-order; the next one is on top of the stack. */
  lemma BackwardsFirst<T>(below: seq<Tree<T>>, children: seq<Tree<T>>, i: nat)
    requires i < |children|
    ensures below + Backwards(children[i + 1..]) + [children[i]] == below + Backwards(children[i..])
  {
    assert children[i..] == [children[i]] + children[i + 1..];
  }

  lemma OpenedKids<T>(stack: seq<Tree<T>>, below: seq<Tree<T>>, kids: seq<Tree<T>>)
    requires stack == below + Backwards(kids)
    ensures Backwards(stack) == kids + Backwards(below)
  {
  }

  class PreOrderIter<T> {
    var stack: seq<Tree<T>>

    ghost function Rest(): seq<T>
      reads this
    {
      PreAll(Backwards(stack))
    }

    constructor (t: Tree<T>)
      ensures Rest() == Pre(t)
    {
      stack := [t];
      new;
      PreSingle(t);
    }

    method Next() returns (item: Option<T>)
      modifies this
      ensures if old(Rest()) == [] then item == None && Rest() == []
              else item == Some(old(Rest())[0]) && Rest() == old(Rest())[1..]
    {
      assert Backwards<Tree<T>>([]) == [];
      if stack == [] { return None; }
      var top, below := stack[|stack| - 1], stack[..|stack| - 1];
      assert Backwards(stack) == [top] + Backwards(below);
      PreOpens(top, Backwards(below));
      match top.node {
        case Nullary => stack := below;
        case Unary(a) => stack := below + [a];
        case Binary(a, b) => stack := below + [b, a];
        case Ternary(a, b, c) => stack := below + [c, b, a];
        case Nary(children) =>
          stack := below;
          var i := |children|;
          while i > 0
            invariant 0 <= i <= |children|
            invariant stack == below + Backwards(children[i..])
          {
            BackwardsFirst(below, children, i - 1);
            i := i - 1;
            stack := stack + [children[i]];
          }
          assert children[0..] == children;
      }
      OpenedKids(stack, below, Kids(top));
      item := Some(top.elem);
    }
  }
}
