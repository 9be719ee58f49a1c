/** One compaction pass over a pool's nodes: which nodes are given up, and how much capacity goes with them. */
module PoolCompaction {
  import opened Arithmetic
  import opened Resources

  const NEW_NODE_PROTECTION := 5 * 60

  datatype Node = Node(
    name: string, total: Resource, running: bool, doNotDisrupt: bool, connections: nat, createdAt: int)

  /** The pool as it was read once, before the loop, with the time of the pass in seconds. */
  datatype PoolView = PoolView(available: Resource, warmUp: Resource, now: int)

  /** The replies for one node: listing its connections, and removing or marking it. */
  datatype Replies = Replies(listed: bool, removed: bool)

  predicate Selectable(n: Node, p: PoolView) {
    && !n.doNotDisrupt && n.connections == 0 && n.running
    && n.createdAt <= p.now + NEW_NODE_PROTECTION
    && p.available.Minus(n.total).Covers(p.warmUp)
  }

  function Selected(nodes: seq<Node>, p: PoolView): seq<Node> {
    if nodes == [] then []
    else
      var last := nodes[|nodes| - 1];
      Selected(nodes[..|nodes| - 1], p) + if Selectable(last, p) then [last] else []
  }

  /** The calls that the pass makes for this node fail. */
  predicate Fails(n: Node, p: PoolView, r: Replies) {
    !n.doNotDisrupt && (!r.listed || (Selectable(n, p) && !r.removed))
  }

  /** The pass gets through the first `m` nodes and fails at the next one. */
  predicate FailsAt(nodes: seq<Node>, p: PoolView, replies: seq<Replies>, m: nat)
    requires |replies| == |nodes|
  {
    m < |nodes| && Fails(nodes[m], p, replies[m]) && forall k :: 0 <= k < m ==> !Fails(nodes[k], p, replies[k])
  }

  /** The nodes given up; the pass stops at the first node for which a call fails. */
  method CheckNodeCompaction(nodes: seq<Node>, p: PoolView, replies: seq<Replies>) returns (given: seq<Node>, ok: bool)
    requires |replies| == |nodes|
    ensures ok <==> forall k :: 0 <= k < |nodes| ==> !Fails(nodes[k], p, replies[k])
    ensures ok ==> given == Selected(nodes, p)
    ensures !ok ==> exists m: nat :: FailsAt(nodes, p, replies, m) && given == Selected(nodes[..m], p)
  {
    given, ok := [], true;
    for k := 0 to |nodes|
      invariant given == Selected(nodes[..k], p)
      invariant forall j :: 0 <= j < k ==> !Fails(nodes[j], p, replies[j])
    {
      var n := nodes[k];
      assert nodes[..k + 1][..k] == nodes[..k];
      if n.doNotDisrupt {
        continue;
      }
      if !replies[k].listed {
        assert FailsAt(nodes, p, replies, k);
        return given, false;
      }
      if n.connections != 0 || !n.running || n.createdAt > p.now + NEW_NODE_PROTECTION {
        continue;
      }
      var left := p.available.Minus(n.total);
      if left.tflops >= p.warmUp.tflops && left.vram >= p.warmUp.vram {
        if !replies[k].removed {
          assert FailsAt(nodes, p, replies, k);
          return given, false;
        }
        given := given + [n];
      }
    }
    assert nodes[..|nodes|] == nodes;
  }

  function Sum(nodes: seq<Node>, d: Dimension): int {
    if nodes == [] then 0 else Sum(nodes[..|nodes| - 1], d) + nodes[|nodes| - 1].total.In(d)
  }

  /**
   Given up are exactly the nodes that are idle, running, not protected by a label, not created in the far future, and
   without which alone the pool still has its reserve.
   */
  lemma {:induction false} SelectedOnlySelectable(nodes: seq<Node>, p: PoolView, n: Node)
    ensures n in Selected(nodes, p) <==>
              && n in nodes && n.connections == 0 && n.running && !n.doNotDisrupt
              && n.createdAt <= p.now + 300
              && p.available.tflops - n.total.tflops >= p.warmUp.tflops
              && p.available.vram - n.total.vram >= p.warmUp.vram
  {
    if nodes != [] {
      var init := nodes[..|nodes| - 1];
      SelectedOnlySelectable(init, p, n);
      assert nodes == init + [nodes[|nodes| - 1]];
    }
  }

  /** The selection keeps the order of the list. */
  lemma {:induction false} SelectedSplits(a: seq<Node>, b: seq<Node>, p: PoolView)
    ensures Selected(a + b, p) == Selected(a, p) + Selected(b, p)
  {
    if b == [] {
      assert a + b == a;
    } else {
      assert (a + b)[..|a + b| - 1] == a + b[..|b| - 1];
      SelectedSplits(a, b[..|b| - 1], p);
    }
  }

  /** A pass fails at a node whose connections cannot be listed, or that is to be given up and cannot be removed. */
  lemma FailsExactly(n: Node, p: PoolView, r: Replies)
    ensures Fails(n, p, r) <==> !n.doNotDisrupt && (!r.listed || (n in Selected([n], p) && !r.removed))
  {
    SelectedOnlySelectable([n], p, n);
  }

  lemma {:induction false} SumAtMost(nodes: seq<Node>, d: Dimension, most: int)
    requires forall n :: n in nodes ==> n.total.In(d) <= most
    ensures Sum(nodes, d) <= |nodes| * most
  {
    if nodes != [] {
      SumAtMost(nodes[..|nodes| - 1], d, most);
      OneMore(|nodes|, most);
    }
  }

  /** After giving up k nodes, the pool is short of its warm-up by at most k - 1 times the largest of them. */
  lemma ShortfallIsBounded(nodes: seq<Node>, p: PoolView, d: Dimension, largest: Node)
    requires largest in Selected(nodes, p)
    requires forall n :: n in Selected(nodes, p) ==> n.total.In(d) <= largest.total.In(d)
    ensures var given := Selected(nodes, p);
            p.available.In(d) - Sum(given, d) >= p.warmUp.In(d) - (|given| - 1) * largest.total.In(d)
  {
    var given, most := Selected(nodes, p), largest.total.In(d);
    SelectedOnlySelectable(nodes, p, largest);
    SumAtMost(given, d, most);
    OneMore(|given|, most);
  }

  lemma {:induction false} EqualNodes(nodes: seq<Node>, node: Node, p: PoolView, d: Dimension)
    requires Selectable(node, p) && forall n :: n in nodes ==> n == node
    ensures Selected(nodes, p) == nodes && Sum(nodes, d) == |nodes| * node.total.In(d)
  {
    if nodes != [] {
      var init := nodes[..|nodes| - 1];
      assert nodes[|nodes| - 1] in nodes && nodes == init + [node];
      assert forall n :: n in init ==> n in nodes;
      EqualNodes(init, node, p, d);
      OneMore(|nodes|, node.total.In(d));
    }
  }

  /** The bound is reached: all of several equal idle nodes go when one of them alone would leave just the warm-up. */
  lemma ShortfallIsReached(nodes: seq<Node>, node: Node, p: PoolView, d: Dimension)
    requires Selectable(node, p) && p.available.Minus(node.total) == p.warmUp
    requires forall n :: n in nodes ==> n == node
    ensures var given := Selected(nodes, p);
            given == nodes && p.available.In(d) - Sum(given, d) == p.warmUp.In(d) - (|nodes| - 1) * node.total.In(d)
  {
    EqualNodes(nodes, node, p, d);
    OneMore(|nodes|, node.total.In(d));
  }
}
