/**
 * `findTextNodeAtChar`: the text node, and the offset inside it, where a
 * character count into an element's text lands. The DOM is a tree of text
 * nodes, elements and other nodes (comments and the like, which hold no
 * counted text); a node is named by its path of child indices from the root.
 */
module Locator {
  import opened Types

  datatype Node = TextNode(value: string) | Element(children: seq<Node>) | OtherNode

  /** A text leaf in document order: where it sits and what it holds. */
  datatype Leaf = Leaf(path: seq<nat>, value: string)

  /** A hit: the text node found and the offset into it. */
  datatype Hit = Hit(path: seq<nat>, offset: nat)

  /** The text nodes under `n`, at `path`, in pre-order. */
  function Leaves(n: Node, path: seq<nat>): seq<Leaf>
    decreases n, if n.Element? then |n.children| + 1 else 0
  {
    match n
    case TextNode(v) => [Leaf(path, v)]
    case Element(cs) => ChildLeaves(n, path, |cs|)
    case OtherNode => []
  }

  /** The text nodes under the first `k` children of element `n`. */
  function ChildLeaves(n: Node, path: seq<nat>, k: nat): seq<Leaf>
    requires n.Element? && k <= |n.children|
    decreases n, k
  {
    if k == 0 then [] else ChildLeaves(n, path, k - 1) + Leaves(n.children[k - 1], path + [k - 1])
  }

  function TextLength(leaves: seq<Leaf>): nat
    decreases |leaves|
  {
    if leaves == [] then 0 else |leaves[0].value| + TextLength(leaves[1..])
  }

  /** The first leaf, counting from `count`, whose span `[start, start + length]`
      holds `c`, with the offset of `c` in it. */
  function Locate(leaves: seq<Leaf>, c: int, count: nat): (r: Option<Hit>)
    decreases |leaves|
  {
    if leaves == [] then None
    else if count <= c <= count + |leaves[0].value| then Some(Hit(leaves[0].path, c - count))
    else Locate(leaves[1..], c, count + |leaves[0].value|)
  }

  lemma {:induction false} LengthAppend(a: seq<Leaf>, b: seq<Leaf>)
    ensures TextLength(a + b) == TextLength(a) + TextLength(b)
    decreases |a|
  {
    if a != [] {
      assert (a + b)[1..] == a[1..] + b;
      LengthAppend(a[1..], b);
    } else {
      assert a + b == b;
    }
  }

  /** Searching a concatenation searches the first part, then the second
      with the count advanced past the first part's text. */
  lemma {:induction false} LocateAppend(a: seq<Leaf>, b: seq<Leaf>, c: int, count: nat)
    ensures Locate(a + b, c, count) == if Locate(a, c, count).Some? then Locate(a, c, count)
                                      else Locate(b, c, count + TextLength(a))
    decreases |a|
  {
    if a != [] {
      assert (a + b)[0] == a[0];
      assert (a + b)[1..] == a[1..] + b;
      LocateAppend(a[1..], b, c, count + |a[0].value|);
    } else {
      assert a + b == b;
    }
  }

  /** The `traverse` closure: recursion over the tree with the running
      `currentCount`, returning at the first text node that holds the count. */
  method Traverse(n: Node, path: seq<nat>, c: int, count: nat) returns (r: Option<Hit>, count': nat)
    ensures r == Locate(Leaves(n, path), c, count)
    ensures r.None? ==> count' == count + TextLength(Leaves(n, path))
    decreases n, 1
  {
    match n
    case TextNode(v) =>
      assert Leaves(n, path)[1..] == [];
      if count <= c < count + |v| {
        return Some(Hit(path, c - count)), count;
      }
      if c == count + |v| {
        return Some(Hit(path, |v|)), count;
      }
      return None, count + |v|;
    case Element(cs) =>
      r, count' := TraverseChildren(n, path, c, count);
    case OtherNode =>
      return None, count;
  }

  /** The `for` loop of `traverse` over the children of an element. */
  method TraverseChildren(n: Node, path: seq<nat>, c: int, count: nat) returns (r: Option<Hit>, count': nat)
    requires n.Element?
    ensures r == Locate(ChildLeaves(n, path, |n.children|), c, count)
    ensures r.None? ==> count' == count + TextLength(ChildLeaves(n, path, |n.children|))
    decreases n, 0
  {
    var cs := n.children;
    var i := 0;
    count' := count;
    while i < |cs|
      invariant 0 <= i <= |cs|
      invariant Locate(ChildLeaves(n, path, i), c, count) == None
      invariant count' == count + TextLength(ChildLeaves(n, path, i))
    {
      var res, cnt := Traverse(cs[i], path + [i], c, count');
      ChildStep(n, path, i, c, count, count', res, cnt);
      if res.Some? {
        ChildLeavesPrefix(n, path, i + 1, c, count);
        return res, cnt;
      }
      count' := cnt;
      i := i + 1;
    }
    return None, count';
  }

  /** The search over the first `i + 1` children is the search over the
      first `i`, then over child `i` from the count reached. */
  lemma {:induction false} ChildStep(n: Node, path: seq<nat>, i: nat, c: int, count: nat, count': nat,
                                     res: Option<Hit>, cnt: nat)
    requires n.Element? && i < |n.children|
    requires Locate(ChildLeaves(n, path, i), c, count) == None
    requires count' == count + TextLength(ChildLeaves(n, path, i))
    requires res == Locate(Leaves(n.children[i], path + [i]), c, count')
    requires res.None? ==> cnt == count' + TextLength(Leaves(n.children[i], path + [i]))
    ensures Locate(ChildLeaves(n, path, i + 1), c, count) == res
    ensures res.None? ==> cnt == count + TextLength(ChildLeaves(n, path, i + 1))
  {
    var a, b := ChildLeaves(n, path, i), Leaves(n.children[i], path + [i]);
    ChildLeavesSnoc(n, path, i);
    LocateAppend(a, b, c, count);
    LengthAppend(a, b);
  }

  lemma {:induction false} ChildLeavesSnoc(n: Node, path: seq<nat>, i: nat)
    requires n.Element? && i < |n.children|
    ensures ChildLeaves(n, path, i + 1) == ChildLeaves(n, path, i) + Leaves(n.children[i], path + [i])
  {
  }

  /** A hit among the first `k` children of an element is the hit of all of them. */
  lemma {:induction false} ChildLeavesPrefix(n: Node, path: seq<nat>, k: nat, c: int, count: nat)
    requires n.Element? && k <= |n.children|
    requires Locate(ChildLeaves(n, path, k), c, count).Some?
    ensures Locate(ChildLeaves(n, path, |n.children|), c, count) == Locate(ChildLeaves(n, path, k), c, count)
    decreases |n.children| - k
  {
    if k < |n.children| {
      LocateAppend(ChildLeaves(n, path, k), Leaves(n.children[k], path + [k]), c, count);
      ChildLeavesPrefix(n, path, k + 1, c, count);
    }
  }

  /** `findTextNodeAtChar`: the hit, or no node and offset 0. */
  method FindTextNodeAtChar(root: Node, charCount: int) returns (node: Option<seq<nat>>, offset: nat)
    ensures Locate(Leaves(root, []), charCount, 0).Some? ==>
      node == Some(Locate(Leaves(root, []), charCount, 0).value.path)
      && offset == Locate(Leaves(root, []), charCount, 0).value.offset
    ensures Locate(Leaves(root, []), charCount, 0).None? ==> node.None? && offset == 0
  {
    var r, _ := Traverse(root, [], charCount, 0);
    if r.Some? {
      node, offset := Some(r.value.path), r.value.offset;
    } else {
      node, offset := None, 0;
    }
  }

  /** A node is found exactly when the count lies between 0 and the total
      text length and there is at least one text node. */
  lemma {:induction false} LocateFound(leaves: seq<Leaf>, c: int, count: nat)
    ensures Locate(leaves, c, count).Some? <==> leaves != [] && count <= c <= count + TextLength(leaves)
    decreases |leaves|
  {
    if leaves != [] && !(count <= c <= count + |leaves[0].value|) {
      LocateFound(leaves[1..], c, count + |leaves[0].value|);
    }
  }

  /** `h` is the hit in leaf `i`: the count lies in that leaf's span and the
      offset is its distance from the leaf's start. */
  predicate OffsetAt(leaves: seq<Leaf>, c: int, count: nat, i: nat, h: Hit)
    requires i < |leaves|
  {
    var start := count + TextLength(leaves[..i]);
    && h.path == leaves[i].path
    && start <= c <= start + |leaves[i].value|
    && h.offset == c - start
  }

  /** The span of leaf `i`, counting from `count`, holds `c`. */
  predicate Holds(leaves: seq<Leaf>, c: int, count: nat, i: nat)
    requires i < |leaves|
  {
    count + TextLength(leaves[..i]) <= c <= count + TextLength(leaves[..i]) + |leaves[i].value|
  }

  /** The offset found is the count's distance from the start of the first
      text node that reaches it: no earlier node's span holds the count, so
      at a boundary between two nodes the earlier one wins. */
  lemma {:induction false} LocateOffset(leaves: seq<Leaf>, c: int, count: nat)
    requires Locate(leaves, c, count).Some?
    ensures exists i :: && 0 <= i < |leaves|
                        && OffsetAt(leaves, c, count, i, Locate(leaves, c, count).value)
                        && forall j :: 0 <= j < i ==> !Holds(leaves, c, count, j)
    decreases |leaves|
  {
    if count <= c <= count + |leaves[0].value| {
      assert leaves[..0] == [];
      assert OffsetAt(leaves, c, count, 0, Locate(leaves, c, count).value);
    } else {
      var tail := leaves[1..];
      var h := Locate(leaves, c, count).value;
      var count' := count + |leaves[0].value|;
      LocateOffset(tail, c, count');
      var i :| && 0 <= i < |tail| && OffsetAt(tail, c, count', i, h)
               && forall j :: 0 <= j < i ==> !Holds(tail, c, count', j);
      ShiftedPrefix(leaves, i);
      assert OffsetAt(leaves, c, count, i + 1, h);
      forall j | 0 <= j < i + 1
        ensures !Holds(leaves, c, count, j)
      {
        if j == 0 {
          assert leaves[..0] == [];
        } else {
          ShiftedPrefix(leaves, j - 1);
          assert !Holds(tail, c, count', j - 1);
        }
      }
    }
  }

  /** Leaf `k + 1` of `leaves` is leaf `k` of its tail, which starts after
      the first leaf's text. */
  lemma {:induction false} ShiftedPrefix(leaves: seq<Leaf>, k: nat)
    requires k + 1 < |leaves|
    ensures leaves[k + 1] == leaves[1..][k]
    ensures TextLength(leaves[..k + 1]) == |leaves[0].value| + TextLength(leaves[1..][..k])
  {
    assert leaves[..k + 1][1..] == leaves[1..][..k];
  }
}
