/** The scale-up decision of a pool, and why repeated rounds of deciding, planning, creating and aggregating end. */
module ScaleUp {
  import opened Arithmetic
  import opened Resources
  import opened CapacityPlanner
  import opened PoolCapacity

  datatype CapacityConfig = CapacityConfig(min: Option<Resource>, max: Option<Resource>, warm: Option<Resource>)

  function Warm(cfg: CapacityConfig): Resource {
    if cfg.warm.Some? then cfg.warm.value else Resource(0, 0)
  }

  predicate BelowMin(cfg: CapacityConfig, total: Resource) {
    cfg.min.Some? && Open(cfg.min.value.Minus(total))
  }

  /** One dimension at its maximum is enough to stop. */
  predicate AtMax(cfg: CapacityConfig, total: Resource) {
    cfg.max.Some? && (total.tflops >= cfg.max.value.tflops || total.vram >= cfg.max.value.vram)
  }

  /** The gap to close, if the pool is to grow: first up to the minimum, then, once it runs, to the warm-up reserve. */
  function GapToClose(cfg: CapacityConfig, total: Resource, available: Resource, running: bool): Option<Resource> {
    if AtMax(cfg, total) then None
    else if BelowMin(cfg, total) then Some(cfg.min.value.Minus(total))
    else if running && Open(Warm(cfg).Minus(available)) then Some(Warm(cfg).Minus(available))
    else None
  }

  // ---- The decision in terms of the quantities ----

  /** Some dimension of the total has reached the maximum. */
  predicate MaxReached(cfg: CapacityConfig, total: Resource) {
    cfg.max.Some? && (cfg.max.value.tflops <= total.tflops || cfg.max.value.vram <= total.vram)
  }

  /** Some dimension of the minimum exceeds the total. */
  predicate MinMissed(cfg: CapacityConfig, total: Resource) {
    cfg.min.Some? && (cfg.min.value.tflops > total.tflops || cfg.min.value.vram > total.vram)
  }

  function Reserve(cfg: CapacityConfig): Resource {
    if cfg.warm.Some? then cfg.warm.value else Resource(0, 0)
  }

  /** The pool runs, and some dimension of the reserve exceeds what is available. */
  predicate WarmMissed(cfg: CapacityConfig, available: Resource, running: bool) {
    running && (Reserve(cfg).tflops > available.tflops || Reserve(cfg).vram > available.vram)
  }

  /** The decision, from the quantities: a missed minimum comes before a missed reserve, and a maximum forbids both. */
  lemma GapExactly(cfg: CapacityConfig, total: Resource, available: Resource, running: bool)
    ensures var gap := GapToClose(cfg, total, available, running);
            && (gap.Some? <==>
                  !MaxReached(cfg, total) && (MinMissed(cfg, total) || WarmMissed(cfg, available, running)))
            && (gap.Some? && MinMissed(cfg, total) ==>
                  gap.value == Resource(cfg.min.value.tflops - total.tflops, cfg.min.value.vram - total.vram))
            && (gap.Some? && !MinMissed(cfg, total) ==>
                  gap.value == Resource(Reserve(cfg).tflops - available.tflops, Reserve(cfg).vram - available.vram))
  {
  }

  method DecideScaleUp(cfg: CapacityConfig, total: Resource, available: Resource, running: bool)
    returns (shouldScaleUp: bool, gap: Resource)
    ensures GapToClose(cfg, total, available, running) == if shouldScaleUp then Some(gap) else None
    ensures shouldScaleUp <==> !MaxReached(cfg, total) && (MinMissed(cfg, total) || WarmMissed(cfg, available, running))
    ensures shouldScaleUp && MinMissed(cfg, total) ==>
              gap == Resource(cfg.min.value.tflops - total.tflops, cfg.min.value.vram - total.vram)
    ensures shouldScaleUp && !MinMissed(cfg, total) ==>
              gap == Resource(Reserve(cfg).tflops - available.tflops, Reserve(cfg).vram - available.vram)
  {
    shouldScaleUp, gap := false, Resource(0, 0);
    var warmUp := Resource(0, 0);
    if cfg.warm.Some? {
      warmUp := cfg.warm.value;
    }
    if cfg.min.Some? {
      gap := cfg.min.value.Minus(total);
      shouldScaleUp := gap.tflops > 0 || gap.vram > 0;
    }
    if !shouldScaleUp && running {
      gap := warmUp.Minus(available);
      shouldScaleUp := gap.tflops > 0 || gap.vram > 0;
    }
    if shouldScaleUp && cfg.max.Some? {
      if total.tflops >= cfg.max.value.tflops || total.vram >= cfg.max.value.vram {
        shouldScaleUp := false;
      }
    }
  }

  // ---- Rounds ----

  function Times(n: int, r: Resource): Resource {
    Resource(n * r.tflops, n * r.vram)
  }

  /** What the planner buys for a gap when it settles on this type. */
  function Bought(pick: InstanceInfo, gap: Resource): int
    requires Usable(pick)
  {
    Min(Needed(pick, gap), MAX_NODES_PER_RECONCILE_LOOP)
  }

  /** What a round sees besides the totals, and the type its planner settles on. */
  datatype Round = Round(available: Resource, running: bool, pick: InstanceInfo)

  /** An error-free round: the decision is to grow, the planned nodes are created, the totals are aggregated again. */
  predicate Grows(cfg: CapacityConfig, before: Resource, r: Round, after: Resource) {
    var gap := GapToClose(cfg, before, r.available, r.running);
    gap.Some? && Usable(r.pick) && after == before.Plus(Times(Bought(r.pick, gap.value), r.pick.Offers()))
  }

  /** How far the totals are from the minimum, in the smallest instances there can be: one TFlop and one GiB. */
  function Distance(cfg: CapacityConfig, total: Resource): int
    requires cfg.min.Some?
  {
    var gap := cfg.min.value.Minus(total);
    Max(gap.tflops, CeilDiv(gap.vram, GIB))
  }

  lemma DistanceIsLeast(cfg: CapacityConfig, total: Resource, n: int)
    requires cfg.min.Some?
    ensures Distance(cfg, total) <= n <==>
              total.tflops + n >= cfg.min.value.tflops && total.vram + n * GIB >= cfg.min.value.vram
  {
  }

  lemma ProductAtLeast(n: int, x: int, unit: int)
    requires n >= 0 && x >= 1 && unit >= 0
    ensures n * (x * unit) >= n * unit && n * x >= n
  {
  }

  /** Any number of instances that reaches the distance is enough. */
  lemma NeededWithinDistance(cfg: CapacityConfig, total: Resource, pick: InstanceInfo)
    requires BelowMin(cfg, total) && Usable(pick)
    ensures 1 <= Needed(pick, cfg.min.value.Minus(total)) <= Distance(cfg, total)
  {
    var gap, n := cfg.min.value.Minus(total), Distance(cfg, total);
    NeededIsLeast(pick, gap, 0);
    DistanceIsLeast(cfg, total, n);
    DistanceIsLeast(cfg, total, 0);
    ProductAtLeast(n, pick.Tflops(), 1);
    ProductAtLeast(n, pick.VramGiB(), GIB);
    NeededIsLeast(pick, gap, n);
  }

  /** A round within the limit reaches the minimum; a limited one comes at least a hundred units closer. */
  lemma GrowsCloser(cfg: CapacityConfig, before: Resource, r: Round, after: Resource)
    requires BelowMin(cfg, before) && Grows(cfg, before, r, after)
    ensures after.tflops > before.tflops && after.vram > before.vram
    ensures !BelowMin(cfg, after)
         || (Distance(cfg, before) > MAX_NODES_PER_RECONCILE_LOOP
             && Distance(cfg, after) <= Distance(cfg, before) - MAX_NODES_PER_RECONCILE_LOOP)
  {
    var gap, pick := cfg.min.value.Minus(before), r.pick;
    var count := Bought(pick, gap);
    NeededWithinDistance(cfg, before, pick);
    NeededIsLeast(pick, gap, count);
    ProductAtLeast(count, pick.Tflops(), 1);
    ProductAtLeast(count, pick.VramGiB(), GIB);
    if count == MAX_NODES_PER_RECONCILE_LOOP {
      var n := Distance(cfg, before);
      DistanceIsLeast(cfg, before, n);
      DistanceIsLeast(cfg, after, n - count);
    }
  }

  /** When no further round is called for, both totals are at the minimum or one dimension is at its maximum. */
  lemma StopsOnlyWhenServed(cfg: CapacityConfig, total: Resource, available: Resource, running: bool)
    requires cfg.min.Some? && cfg.warm.None? && available.NonNegative()
    ensures GapToClose(cfg, total, available, running).None? <==> total.Covers(cfg.min.value) || AtMax(cfg, total)
  {
  }

  lemma {:induction false} EqualNodesAddUp(
    nodes: seq<GpuNode>, created: seq<GpuNode>, pool: string, d: Dimension, x: int)
    requires forall n :: n in created ==> n.pool == pool && n.total.In(d) == x
    ensures SumNodes(nodes + created, {pool}, Total(d)) == SumNodes(nodes, {pool}, Total(d)) + |created| * x
  {
    if created == [] {
      assert nodes + created == nodes;
    } else {
      var init, last := created[..|created| - 1], created[|created| - 1];
      assert (nodes + created)[..|nodes + created| - 1] == nodes + init;
      assert last in created;
      EqualNodesAddUp(nodes, init, pool, d, x);
      OneMore(|created|, x);
    }
  }

  /** The nodes of a round change the pool's aggregated totals by exactly what the round promises. */
  lemma CreatedNodesAddUp(nodes: seq<GpuNode>, created: seq<GpuNode>, pool: string, pick: InstanceInfo, d: Dimension)
    requires forall n :: n in created ==> n.pool == pool && n.total == pick.Offers()
    ensures SumNodes(nodes + created, {pool}, Total(d))
         == SumNodes(nodes, {pool}, Total(d)) + Times(|created|, pick.Offers()).In(d)
  {
    EqualNodesAddUp(nodes, created, pool, d, pick.Offers().In(d));
  }

  // ---- Rounds of deciding, planning, creating and aggregating ----

  /** What stays the same for a pool and its cluster: the limits, the requirements and the catalogue. */
  datatype Setting = Setting(
    pool: string, cfg: CapacityConfig, provider: Provider, requirements: seq<Requirement>, defaultRegion: string)
  {
    predicate Valid() {
      forall r :: r in requirements ==> r.values != []
    }

    function Catalogue(): seq<InstanceInfo>
      requires Valid()
    {
      Eligible(TypesIn(provider, CatalogueRegion(requirements, defaultRegion)), requirements)
    }

    function PlanTerms(): Terms
      requires Valid()
    {
      FinalTerms(Terms(CatalogueRegion(requirements, defaultRegion), [], SPOT), requirements)
    }
  }

  /** A pool's nodes and its stored status; the available quantities come from elsewhere. */
  datatype PoolState = PoolState(nodes: seq<GpuNode>, status: PoolStatus, available: Resource)

  /** The stored totals are those of the nodes. */
  ghost predicate TotalsKnown(s: Setting, p: PoolState) {
    forall d :: p.status.total.In(d) == SumNodes(p.nodes, {s.pool}, Total(d))
  }

  /** The pool is to grow by this gap. */
  function Gap(s: Setting, p: PoolState): Option<Resource> {
    GapToClose(s.cfg, p.status.total, p.available, p.status.running)
  }

  /** Each planned node became a node of the pool with the quantities that were offered. */
  predicate CreatedAsPlanned(s: Setting, plan: seq<PlannedNode>, created: seq<GpuNode>) {
    && |created| == |plan|
    && forall k :: 0 <= k < |plan| ==> created[k].pool == s.pool && created[k].total == plan[k].offered
  }

  /** The nodes may have become ready or not since; none came, left or changed its quantities. */
  predicate SameCapacity(a: seq<GpuNode>, b: seq<GpuNode>) {
    |a| == |b| && forall k :: 0 <= k < |a| ==> a[k].pool == b[k].pool && a[k].total == b[k].total
  }

  /**
   An error-free round: the decision is to grow, the planner answers with a plan, each planned node is created, and the
   pool is aggregated again; the nodes may become ready, and the available quantities may change, by the next round.
   */
  ghost predicate Provisions(
    s: Setting, before: PoolState, plan: seq<PlannedNode>, created: seq<GpuNode>, after: PoolState)
    requires s.Valid()
  {
    && Gap(s, before).Some?
    && Answers(s.provider, s.PlanTerms(), Gap(s, before).value, s.Catalogue(), Plan(plan))
    && CreatedAsPlanned(s, plan, created)
    && SameCapacity(after.nodes, before.nodes + created)
    && TotalsKnown(s, after)
  }

  lemma {:induction false} SameCapacitySums(a: seq<GpuNode>, b: seq<GpuNode>, pool: string, d: Dimension)
    requires SameCapacity(a, b)
    ensures SumNodes(a, {pool}, Total(d)) == SumNodes(b, {pool}, Total(d))
  {
    if a != [] {
      SameCapacitySums(a[..|a| - 1], b[..|b| - 1], pool, d);
    }
  }

  /** Whatever status was stored before, an aggregation makes the totals known, also once nodes become ready later. */
  lemma AggregationKnowsTotals(s: Setting, stored: PoolStatus, nodes: seq<GpuNode>, later: PoolState)
    requires later.status == MergePatch(stored, Recomputed(nodes, s.pool)) && SameCapacity(nodes, later.nodes)
    ensures TotalsKnown(s, later)
  {
    AggregatesExactly(stored, nodes, s.pool);
    forall d: Dimension ensures later.status.total.In(d) == SumNodes(later.nodes, {s.pool}, Total(d)) {
      SameCapacitySums(nodes, later.nodes, s.pool, d);
    }
  }

  /** The totals after a round are what the type it settled on makes of the totals before. */
  lemma RoundGrows(s: Setting, before: PoolState, plan: seq<PlannedNode>, created: seq<GpuNode>, after: PoolState)
    returns (r: Round)
    requires s.Valid() && TotalsKnown(s, before) && Provisions(s, before, plan, created, after)
    ensures r.available == before.available && r.running == before.status.running
    ensures Grows(s.cfg, before.status.total, r, after.status.total)
    ensures r.pick in s.Catalogue() && |created| == Bought(r.pick, Gap(s, before).value)
  {
    var gap, catalogue := Gap(s, before).value, s.Catalogue();
    var k: nat :|
      Cheapest(s.provider, s.PlanTerms(), gap, catalogue, k) && Buys(plan, catalogue[k], s.PlanTerms(), gap);
    var pick := catalogue[k];
    r := Round(before.available, before.status.running, pick);
    forall n | n in created ensures n.pool == s.pool && n.total == pick.Offers() {
      var j :| 0 <= j < |created| && created[j] == n;
      assert plan[j] in plan;
    }
    var promised := before.status.total.Plus(Times(|created|, pick.Offers()));
    forall d: Dimension ensures after.status.total.In(d) == promised.In(d) {
      SameCapacitySums(after.nodes, before.nodes + created, s.pool, d);
      CreatedNodesAddUp(before.nodes, created, s.pool, pick, d);
    }
    assert after.status.total.In(Tflops) == promised.In(Tflops) && after.status.total.In(Vram) == promised.In(Vram);
  }

  /** What is bought for an open gap covers it, unless the limit applies. */
  lemma BoughtCovers(pick: InstanceInfo, gap: Resource)
    requires Usable(pick) && Open(gap)
    ensures var n := Bought(pick, gap);
            && 1 <= n <= 100
            && n * pick.Offers().tflops > 0 && n * pick.Offers().vram > 0
            && (n < 100 ==> n * pick.Offers().tflops >= gap.tflops && n * pick.Offers().vram >= gap.vram)
  {
    var n := Bought(pick, gap);
    NeededIsLeast(pick, gap, n);
    ProductAtLeast(n, pick.Tflops(), 1);
    ProductAtLeast(n, pick.VramGiB(), GIB);
  }

  /**
   A round for the reserve: with the minimum met, the created nodes bring what is available up to the reserve in both
   dimensions, unless they are as many as one pass may create.
   */
  lemma RoundFillsReserve(
    s: Setting, before: PoolState, plan: seq<PlannedNode>, created: seq<GpuNode>, after: PoolState)
    requires s.Valid() && TotalsKnown(s, before) && Provisions(s, before, plan, created, after)
    requires !MinMissed(s.cfg, before.status.total)
    ensures before.status.running && |created| <= 100
    ensures |created| < 100 ==>
              before.available.Plus(after.status.total).Minus(before.status.total).Covers(Reserve(s.cfg))
    ensures after.status.total.tflops > before.status.total.tflops && after.status.total.vram > before.status.total.vram
  {
    var r := RoundGrows(s, before, plan, created, after);
    hide Provisions, Bought;
    GapExactly(s.cfg, before.status.total, before.available, before.status.running);
    BoughtCovers(r.pick, Gap(s, before).value);
  }

  /** The nodes that one round plans and creates. */
  datatype Batch = Batch(plan: seq<PlannedNode>, created: seq<GpuNode>)

  /** A sequence of error-free rounds, from a state whose totals are known. */
  ghost predicate Rounds(s: Setting, states: seq<PoolState>, batches: seq<Batch>)
    requires s.Valid()
  {
    && |states| == |batches| + 1
    && TotalsKnown(s, states[0])
    && forall k :: 0 <= k < |batches| ==>
         Provisions(s, states[k], batches[k].plan, batches[k].created, states[k + 1])
  }

  /** No warm-up reserve, a minimum, and never less than nothing available. */
  ghost predicate OnlyMinimum(s: Setting, states: seq<PoolState>) {
    s.cfg.min.Some? && s.cfg.warm.None? && forall p :: p in states ==> p.available.NonNegative()
  }

  lemma FirstRound(s: Setting, states: seq<PoolState>, batches: seq<Batch>)
    requires s.Valid() && Rounds(s, states, batches) && OnlyMinimum(s, states) && batches != []
    ensures Rounds(s, states[1..], batches[1..]) && OnlyMinimum(s, states[1..])
    ensures BelowMin(s.cfg, states[0].status.total)
    ensures states[1].status.total.tflops > states[0].status.total.tflops
    ensures states[1].status.total.vram > states[0].status.total.vram
    ensures 1 <= Distance(s.cfg, states[0].status.total)
    ensures !BelowMin(s.cfg, states[1].status.total)
         || (Distance(s.cfg, states[0].status.total) > MAX_NODES_PER_RECONCILE_LOOP
             && Distance(s.cfg, states[1].status.total)
                <= Distance(s.cfg, states[0].status.total) - MAX_NODES_PER_RECONCILE_LOOP)
  {
    assert Provisions(s, states[0], batches[0].plan, batches[0].created, states[1]);
    assert states[0] in states;
    var r := RoundGrows(s, states[0], batches[0].plan, batches[0].created, states[1]);
    GrowsCloser(s.cfg, states[0].status.total, r, states[1].status.total);
    NeededWithinDistance(s.cfg, states[0].status.total, r.pick);
    forall k | 0 <= k < |batches[1..]|
      ensures Provisions(s, states[1..][k], batches[1..][k].plan, batches[1..][k].created, states[1..][k + 1])
    {
      assert Provisions(s, states[k + 1], batches[k + 1].plan, batches[k + 1].created, states[k + 2]);
    }
  }

  /**
   Rounds of deciding, planning, creating and aggregating end: there are no more than the initial distance divided by a
   hundred, rounded up, whichever types the planner settles on.
   */
  lemma {:induction false} RoundsAreBounded(s: Setting, states: seq<PoolState>, batches: seq<Batch>)
    requires s.Valid() && Rounds(s, states, batches) && OnlyMinimum(s, states)
    ensures batches != [] ==>
              |batches| <= CeilDiv(Distance(s.cfg, states[0].status.total), MAX_NODES_PER_RECONCILE_LOOP)
    decreases |batches|
  {
    if batches != [] {
      FirstRound(s, states, batches);
      RoundsAreBounded(s, states[1..], batches[1..]);
      if |batches| > 1 {
        FirstRound(s, states[1..], batches[1..]);
      }
    }
  }

  /**
   Rounds leave off exactly when the nodes themselves have at least the minimum in both dimensions, or at least the
   maximum in one.
   */
  lemma RoundsEndServed(s: Setting, states: seq<PoolState>, batches: seq<Batch>)
    requires s.Valid() && Rounds(s, states, batches) && OnlyMinimum(s, states)
    ensures var last := states[|states| - 1];
            Gap(s, last).None? <==>
              || (forall d :: SumNodes(last.nodes, {s.pool}, Total(d)) >= s.cfg.min.value.In(d))
              || (s.cfg.max.Some? && exists d :: SumNodes(last.nodes, {s.pool}, Total(d)) >= s.cfg.max.value.In(d))
  {
    var last := states[|states| - 1];
    assert last in states;
    if batches != [] {
      var b := batches[|batches| - 1];
      assert Provisions(s, states[|batches| - 1], b.plan, b.created, last);
    }
    StopsOnlyWhenServed(s.cfg, last.status.total, last.available, last.status.running);
    forall d: Dimension ensures last.status.total.In(d) == SumNodes(last.nodes, {s.pool}, Total(d)) {
    }
    assert forall x: Resource :: last.status.total.Covers(x) <==> forall d :: last.status.total.In(d) >= x.In(d) by {
      forall x: Resource ensures last.status.total.Covers(x) <==> forall d :: last.status.total.In(d) >= x.In(d) {
        assert x.In(Tflops) == x.tflops && x.In(Vram) == x.vram;
      }
    }
    if AtMax(s.cfg, last.status.total) {
      var d := if last.status.total.tflops >= s.cfg.max.value.tflops then Tflops else Vram;
      assert SumNodes(last.nodes, {s.pool}, Total(d)) >= s.cfg.max.value.In(d);
    }
  }
}
