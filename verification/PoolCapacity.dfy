/** Aggregating the nodes of a pool, and the pools of a cluster. */
module PoolCapacity {
  import opened Calls
  import opened Resources

  datatype GpuNode = GpuNode(name: string, pool: string, total: Resource, virtual: Resource, gpus: int, running: bool)

  datatype PoolStatus = PoolStatus(
    totalNodes: int,
    readyNodes: int,
    notReadyNodes: int,
    totalGpus: int,
    total: Resource,
    virtual: Resource,
    running: bool)

  /** The quantities that are added up, for nodes, pools and clusters alike. */
  datatype Measure = Nodes | Gpus | Total(d: Dimension) | Virtual(d: Dimension)

  function OfNode(n: GpuNode, m: Measure): int {
    match m
    case Nodes => 1
    case Gpus => n.gpus
    case Total(d) => n.total.In(d)
    case Virtual(d) => n.virtual.In(d)
  }

  function OfPool(p: PoolStatus, m: Measure): int {
    match m
    case Nodes => p.totalNodes
    case Gpus => p.totalGpus
    case Total(d) => p.total.In(d)
    case Virtual(d) => p.virtual.In(d)
  }

  /** The sum over the nodes labelled with one of the pools. */
  function SumNodes(nodes: seq<GpuNode>, pools: set<string>, m: Measure): int {
    if nodes == [] then 0
    else
      var init, last := nodes[..|nodes| - 1], nodes[|nodes| - 1];
      SumNodes(init, pools, m) + if last.pool in pools then OfNode(last, m) else 0
  }

  function ReadyNodes(nodes: seq<GpuNode>, pool: string): int {
    if nodes == [] then 0
    else
      var init, last := nodes[..|nodes| - 1], nodes[|nodes| - 1];
      ReadyNodes(init, pool) + if last.pool == pool && last.running then 1 else 0
  }

  // ---- One aggregation ----

  /** What an aggregation computes from the nodes. A pool without nodes counts as running. */
  function Recomputed(nodes: seq<GpuNode>, pool: string): PoolStatus {
    var count, ready := SumNodes(nodes, {pool}, Nodes), ReadyNodes(nodes, pool);
    PoolStatus(
      count, ready, count - ready,
      SumNodes(nodes, {pool}, Gpus),
      Resource(SumNodes(nodes, {pool}, Total(Tflops)), SumNodes(nodes, {pool}, Total(Vram))),
      Resource(SumNodes(nodes, {pool}, Virtual(Tflops)), SumNodes(nodes, {pool}, Virtual(Vram))),
      ready == count)
  }

  /** A counter that is zero is left out of a merge patch, so that the stored one stays. */
  function Merged(stored: int, sent: int): int {
    if sent == 0 then stored else sent
  }

  /** The merge patch that writes a recomputed status: three of its counters are left out when they are zero. */
  function MergePatch(stored: PoolStatus, sent: PoolStatus): PoolStatus {
    sent.(
      totalNodes := Merged(stored.totalNodes, sent.totalNodes),
      readyNodes := Merged(stored.readyNodes, sent.readyNodes),
      totalGpus := Merged(stored.totalGpus, sent.totalGpus))
  }

  /** Node by node: a node counts for its own pool only, once, with its GPUs and its quantities. */
  lemma RecomputedGrows(nodes: seq<GpuNode>, n: GpuNode, pool: string)
    ensures Recomputed([], pool) == PoolStatus(0, 0, 0, 0, Resource(0, 0), Resource(0, 0), true)
    ensures var before, after := Recomputed(nodes, pool), Recomputed(nodes + [n], pool);
            var ready := if n.running then 1 else 0;
            if n.pool != pool then after == before
            else
              && after.totalNodes == before.totalNodes + 1
              && after.readyNodes == before.readyNodes + ready
              && after.notReadyNodes == before.notReadyNodes + 1 - ready
              && after.totalGpus == before.totalGpus + n.gpus
              && after.total == before.total.Plus(n.total)
              && after.virtual == before.virtual.Plus(n.virtual)
              && after.running == (before.running && n.running)
  {
    assert (nodes + [n])[..|nodes|] == nodes;
    ReadyCounts(nodes, pool);
  }

  /** The parts of the status that an aggregation always brings up to date. */
  ghost predicate QuantitiesAggregate(p: PoolStatus, nodes: seq<GpuNode>, pool: string) {
    && (forall d :: p.total.In(d) == SumNodes(nodes, {pool}, Total(d)))
    && (forall d :: p.virtual.In(d) == SumNodes(nodes, {pool}, Virtual(d)))
    && p.notReadyNodes == SumNodes(nodes, {pool}, Nodes) - ReadyNodes(nodes, pool)
    && (p.running <==> forall n :: n in nodes && n.pool == pool ==> n.running)
  }

  /** The whole status says what the nodes are. */
  ghost predicate Aggregates(p: PoolStatus, nodes: seq<GpuNode>, pool: string) {
    && QuantitiesAggregate(p, nodes, pool)
    && p.totalNodes == SumNodes(nodes, {pool}, Nodes)
    && p.totalGpus == SumNodes(nodes, {pool}, Gpus)
    && p.readyNodes == ReadyNodes(nodes, pool)
    && p.readyNodes + p.notReadyNodes == p.totalNodes
  }

  /** The counter that is stored after the patch is the one that was computed. */
  predicate Arrives(stored: int, sent: int) {
    sent != 0 || stored == 0
  }

  lemma {:induction false} ReadyCounts(nodes: seq<GpuNode>, pool: string)
    ensures 0 <= ReadyNodes(nodes, pool) <= SumNodes(nodes, {pool}, Nodes)
    ensures ReadyNodes(nodes, pool) == SumNodes(nodes, {pool}, Nodes)
       <==> forall n :: n in nodes && n.pool == pool ==> n.running
  {
    if nodes != [] {
      var init, last := nodes[..|nodes| - 1], nodes[|nodes| - 1];
      ReadyCounts(init, pool);
      assert nodes == init + [last];
    }
  }

  /**
   After the patch the quantities, the nodes that are not ready and the phase are right; the whole status is right if
   and only if none of the three counters fell to zero.
   */
  lemma AggregatesExactly(stored: PoolStatus, nodes: seq<GpuNode>, pool: string)
    ensures var after := MergePatch(stored, Recomputed(nodes, pool));
            && QuantitiesAggregate(after, nodes, pool)
            && (Aggregates(after, nodes, pool) <==>
                  && Arrives(stored.totalNodes, SumNodes(nodes, {pool}, Nodes))
                  && Arrives(stored.totalGpus, SumNodes(nodes, {pool}, Gpus))
                  && Arrives(stored.readyNodes, ReadyNodes(nodes, pool)))
  {
    ReadyCounts(nodes, pool);
  }

  /** A pool whose only node stops running: one node is then stored as ready and one as not ready, of one in all. */
  lemma OnlyNodeStops(node: GpuNode)
    requires !node.running
    ensures var stored := Recomputed([node.(running := true)], node.pool);
            var after := MergePatch(stored, Recomputed([node], node.pool));
            && Aggregates(stored, [node.(running := true)], node.pool)
            && after.totalNodes == 1 && after.readyNodes == 1 && after.notReadyNodes == 1
            && !Aggregates(after, [node], node.pool)
  {
  }

  /** A pool that loses its last node keeps its counters. */
  lemma LastNodeLeaves(stored: PoolStatus, nodes: seq<GpuNode>, pool: string)
    requires forall n :: n in nodes ==> n.pool != pool
    ensures var after := MergePatch(stored, Recomputed(nodes, pool));
            after.totalNodes == stored.totalNodes && after.totalGpus == stored.totalGpus && after.running
  {
    NoNodes(nodes, pool, Nodes);
    NoNodes(nodes, pool, Gpus);
    ReadyCounts(nodes, pool);
  }

  lemma {:induction false} NoNodes(nodes: seq<GpuNode>, pool: string, m: Measure)
    requires forall n :: n in nodes ==> n.pool != pool
    ensures SumNodes(nodes, {pool}, m) == 0
  {
    if nodes != [] {
      var init, last := nodes[..|nodes| - 1], nodes[|nodes| - 1];
      assert last in nodes && nodes == init + [last];
      NoNodes(init, pool, m);
    }
  }

  class GPUPool {
    const name: string
    /** The status as the API server stores it. */
    var status: PoolStatus

    constructor (name: string, status: PoolStatus)
      ensures this.name == name && this.status == status
    {
      this.name, this.status := name, status;
    }

    /** Recompute the pool's status from the nodes and patch the stored one. */
    method ReconcileCurrentCapacityAndReadiness(nodes: seq<GpuNode>, readable: bool, patch: Reply) returns (ok: bool)
      modifies this
      ensures ok <==> readable && patch.Applied?
      ensures status == if readable && patch.Lands() then MergePatch(old(status), Recomputed(nodes, name))
                        else old(status)
      ensures readable && patch.Lands() ==> QuantitiesAggregate(status, nodes, name)
    {
      if !readable {
        return false;
      }
      var count, ready, gpus, total, virtual := 0, 0, 0, Resource(0, 0), Resource(0, 0);
      for k := 0 to |nodes|
        invariant status == old(status)
        invariant PoolStatus(count, ready, count - ready, gpus, total, virtual, ready == count)
               == Recomputed(nodes[..k], name)
      {
        var n := nodes[k];
        assert nodes[..k + 1][..k] == nodes[..k];
        if n.pool == name {
          count, gpus := count + 1, gpus + n.gpus;
          total, virtual := total.Plus(n.total), virtual.Plus(n.virtual);
          if n.running {
            ready := ready + 1;
          }
        }
      }
      assert nodes[..|nodes|] == nodes;
      AggregatesExactly(status, nodes, name);
      if patch.Lands() {
        status := MergePatch(status, PoolStatus(count, ready, count - ready, gpus, total, virtual, ready == count));
      }
      ok := patch.Applied?;
    }
  }

  // ---- Flat sums ----

  datatype NamedPool = NamedPool(name: string, status: PoolStatus, available: Resource)

  predicate Distinct(names: seq<string>) {
    forall i, j :: 0 <= i < j < |names| ==> names[i] != names[j]
  }

  function Names(pools: seq<NamedPool>): (names: seq<string>)
    ensures |names| == |pools| && forall i :: 0 <= i < |pools| ==> names[i] == pools[i].name
  {
    seq(|pools|, i requires 0 <= i < |pools| => pools[i].name)
  }

  function NameSet(pools: seq<NamedPool>): set<string> {
    if pools == [] then {} else NameSet(pools[..|pools| - 1]) + {pools[|pools| - 1].name}
  }

  lemma {:induction false} NameSetIs(pools: seq<NamedPool>, name: string)
    ensures name in NameSet(pools) <==> name in Names(pools)
  {
    if pools != [] {
      var init, last := pools[..|pools| - 1], pools[|pools| - 1];
      NameSetIs(init, name);
      assert Names(pools) == Names(init) + [last.name];
    }
  }

  function SumPools(pools: seq<NamedPool>, m: Measure): int {
    if pools == [] then 0 else SumPools(pools[..|pools| - 1], m) + OfPool(pools[|pools| - 1].status, m)
  }

  lemma {:induction false} SumNodesSplit(nodes: seq<GpuNode>, a: set<string>, b: set<string>, m: Measure)
    requires a !! b
    ensures SumNodes(nodes, a + b, m) == SumNodes(nodes, a, m) + SumNodes(nodes, b, m)
  {
    if nodes != [] {
      SumNodesSplit(nodes[..|nodes| - 1], a, b, m);
    }
  }

  lemma {:induction false} SumNodesNone(nodes: seq<GpuNode>, m: Measure)
    ensures SumNodes(nodes, {}, m) == 0
  {
    if nodes != [] {
      SumNodesNone(nodes[..|nodes| - 1], m);
    }
  }

  /** The status gives the measure as it is on the pool's nodes. */
  predicate Exact(p: NamedPool, nodes: seq<GpuNode>, m: Measure) {
    OfPool(p.status, m) == SumNodes(nodes, {p.name}, m)
  }

  /**
   When no pool claims less than its nodes have, the pools together claim no less than all their nodes, and exactly
   as much if and only if each claims exactly what it has.
   */
  lemma {:induction false} PoolsSumFlat(pools: seq<NamedPool>, nodes: seq<GpuNode>, m: Measure)
    requires Distinct(Names(pools))
    requires forall p :: p in pools ==> OfPool(p.status, m) >= SumNodes(nodes, {p.name}, m)
    ensures SumPools(pools, m) >= SumNodes(nodes, NameSet(pools), m)
    ensures SumPools(pools, m) == SumNodes(nodes, NameSet(pools), m) <==> forall p :: p in pools ==> Exact(p, nodes, m)
  {
    if pools == [] {
      SumNodesNone(nodes, m);
    } else {
      var init, last := pools[..|pools| - 1], pools[|pools| - 1];
      assert pools == init + [last] && Names(pools) == Names(init) + [last.name];
      PoolsSumFlat(init, nodes, m);
      NameSetIs(init, last.name);
      SumNodesSplit(nodes, NameSet(init), {last.name}, m);
      assert (forall p :: p in pools ==> Exact(p, nodes, m))
        <==> (forall p :: p in init ==> Exact(p, nodes, m)) && Exact(last, nodes, m);
    }
  }
}
