/** Which instances to buy for a capacity gap: eligibility, least cost, and how many. */
module CapacityPlanner {
  import opened Arithmetic
  import opened Resources

  const GIB := 1024 * 1024 * 1024
  const MAX_NODES_PER_RECONCILE_LOOP := 100

  /** Products of two int32 values wrap around. */
  function Int32(x: int): int {
    var m := x % 0x1_0000_0000;
    if m < 0x8000_0000 then m else m - 0x1_0000_0000
  }

  // ---- Eligible instance types ----

  datatype Key =
    InstanceTypeKey | CapacityTypeKey | ArchitectureKey | GpuArchitectureKey | RegionKey | ZoneKey | OtherKey

  datatype Requirement = Requirement(key: Key, isIn: bool, values: seq<string>)

  datatype InstanceInfo = InstanceInfo(
    instanceType: string,
    cpuArchitecture: string,
    gpuArchitecture: string,
    tflopsPerGpu: int,
    vramGiBPerGpu: int,
    gpuCount: int)
  {
    /** TFlops of one instance, as the source computes and later offers them. */
    function Tflops(): int { Int32(tflopsPerGpu * gpuCount) }

    /** GiB of VRAM of one instance. */
    function VramGiB(): int { Int32(vramGiBPerGpu * gpuCount) }

    /** The capacity one instance adds to the pool. */
    function Offers(): Resource { Resource(Tflops(), VramGiB() * GIB) }
  }

  predicate Satisfies(i: InstanceInfo, r: Requirement) {
    !r.isIn
    || (match r.key
        case InstanceTypeKey => i.instanceType in r.values
        case ArchitectureKey => i.cpuArchitecture in r.values
        case GpuArchitectureKey => i.gpuArchitecture in r.values
        case _ => true)
  }

  predicate Meets(i: InstanceInfo, rs: seq<Requirement>) {
    forall r :: r in rs ==> Satisfies(i, r)
  }

  /** The order-preserving sublist of the instance types that meet every requirement. */
  function Eligible(types: seq<InstanceInfo>, rs: seq<Requirement>): seq<InstanceInfo> {
    if types == [] then []
    else
      var init, last := types[..|types| - 1], types[|types| - 1];
      Eligible(init, rs) + (if Meets(last, rs) then [last] else [])
  }

  method Contains(values: seq<string>, item: string) returns (found: bool)
    ensures found <==> item in values
  {
    for k := 0 to |values|
      invariant item !in values[..k]
    {
      if values[k] == item {
        return true;
      }
    }
    found := false;
  }

  method GetEligibleInstances(types: seq<InstanceInfo>, rs: seq<Requirement>) returns (eligible: seq<InstanceInfo>)
    ensures eligible == Eligible(types, rs)
  {
    eligible := [];
    for k := 0 to |types|
      invariant eligible == Eligible(types[..k], rs)
    {
      var i, meets := types[k], true;
      for j := 0 to |rs|
        invariant meets <==> Meets(i, rs[..j])
      {
        var r, found := rs[j], true;
        assert rs[..j + 1] == rs[..j] + [r];
        if r.isIn {
          match r.key
          case InstanceTypeKey => found := Contains(r.values, i.instanceType);
          case ArchitectureKey => found := Contains(r.values, i.cpuArchitecture);
          case GpuArchitectureKey => found := Contains(r.values, i.gpuArchitecture);
          case _ =>
        }
        assert found <==> Satisfies(i, r);
        assert Meets(i, rs[..j + 1]) <==> Meets(i, rs[..j]) && Satisfies(i, r);
        if !found {
          meets := false;
        }
      }
      assert rs[..|rs|] == rs;
      assert types[..k + 1][..k] == types[..k];
      if meets {
        eligible := eligible + [i];
      }
    }
    assert types[..|types|] == types;
  }

  /** Exactly those types are eligible that are offered and that no In-requirement on type or architecture excludes. */
  lemma {:induction false} EligibleExactly(types: seq<InstanceInfo>, rs: seq<Requirement>, i: InstanceInfo)
    ensures i in Eligible(types, rs) <==>
              && i in types
              && forall r :: r in rs && r.isIn ==>
                   && (r.key.InstanceTypeKey? ==> i.instanceType in r.values)
                   && (r.key.ArchitectureKey? ==> i.cpuArchitecture in r.values)
                   && (r.key.GpuArchitectureKey? ==> i.gpuArchitecture in r.values)
  {
    if types != [] {
      var init, last := types[..|types| - 1], types[|types| - 1];
      EligibleExactly(init, rs, i);
      assert types == init + [last];
    }
  }

  /** The eligible list keeps the order of the catalogue. */
  lemma {:induction false} EligibleSplits(a: seq<InstanceInfo>, b: seq<InstanceInfo>, rs: seq<Requirement>)
    ensures Eligible(a + b, rs) == Eligible(a, rs) + Eligible(b, rs)
  {
    if b == [] {
      assert a + b == a;
    } else {
      assert (a + b)[..|a + b| - 1] == a + b[..|b| - 1];
      EligibleSplits(a, b[..|b| - 1], rs);
    }
  }

  /** Permuting or repeating requirements changes nothing. */
  lemma {:induction false} EligibleIgnoresOrder(types: seq<InstanceInfo>, a: seq<Requirement>, b: seq<Requirement>)
    requires forall r :: r in a <==> r in b
    ensures Eligible(types, a) == Eligible(types, b)
  {
    if types != [] {
      EligibleIgnoresOrder(types[..|types| - 1], a, b);
    }
  }

  /** A further requirement only filters the eligible list. */
  lemma {:induction false} EligibleOnlyShrinks(types: seq<InstanceInfo>, a: seq<Requirement>, b: seq<Requirement>)
    ensures Eligible(types, a + b) == Eligible(Eligible(types, a), b)
  {
    if types != [] {
      var init, last := types[..|types| - 1], types[|types| - 1];
      EligibleOnlyShrinks(init, a, b);
      assert Meets(last, a + b) <==> Meets(last, a) && Meets(last, b);
      assert Eligible(init, a) + [] == Eligible(init, a) && Eligible(init, a + b) + [] == Eligible(init, a + b);
      var kept := Eligible(init, a) + [last];
      assert kept[..|kept| - 1] == Eligible(init, a) && kept[|kept| - 1] == last;
      assert Eligible(types, a) == if Meets(last, a) then kept else Eligible(init, a);
    }
  }

  // ---- How many instances of one type ----

  function CeilDiv(a: int, b: int): int
    requires b > 0
  {
    -((-a) / b)
  }

  function Max(a: int, b: int): int {
    if a >= b then a else b
  }

  /** A type with nothing to offer in one dimension is skipped. */
  predicate Usable(i: InstanceInfo) {
    i.Tflops() > 0 && i.VramGiB() > 0
  }

  /** The number of instances needed for a gap in TFlops and in bytes of VRAM. */
  function Needed(i: InstanceInfo, gap: Resource): int
    requires Usable(i)
  {
    Max(CeilDiv(gap.tflops, i.Tflops()), CeilDiv(gap.vram, i.VramGiB() * GIB))
  }

  predicate Open(gap: Resource) {
    gap.tflops > 0 || gap.vram > 0
  }

  lemma CeilDivIsLeast(a: int, b: int, n: int)
    requires b > 0
    ensures n * b >= a <==> n >= CeilDiv(a, b)
  {
    var q := (-a) / b;
    var r := (-a) % b;
    assert -a == q * b + r && 0 <= r < b;
    if n >= -q {
      assert (n + q) * b >= 0;
    } else {
      assert (n + q) * b <= -b by { assert n + q <= -1; Scale(n + q, -1, b); }
    }
    assert (n + q) * b == n * b + q * b;
  }

  /** `n` instances close the gap if and only if there are at least as many as needed, and an open gap needs one. */
  lemma NeededIsLeast(i: InstanceInfo, gap: Resource, n: int)
    requires Usable(i)
    ensures n * i.Offers().tflops >= gap.tflops && n * i.Offers().vram >= gap.vram <==> n >= Needed(i, gap)
    ensures Open(gap) ==> Needed(i, gap) >= 1
  {
    CeilDivIsLeast(gap.tflops, i.Tflops(), n);
    CeilDivIsLeast(gap.vram, i.VramGiB() * GIB, n);
    if Open(gap) && Needed(i, gap) <= 0 {
      CeilDivIsLeast(gap.tflops, i.Tflops(), 0);
      CeilDivIsLeast(gap.vram, i.VramGiB() * GIB, 0);
    }
  }

  // ---- The choice ----

  const SPOT := "Spot"

  /**
   A cloud provider's catalogue: the types it sells in a region, and the hourly prices it knows. `maxCost` is the
   planner's initial minimum, the largest floating-point number.
   */
  datatype Provider = Provider(types: map<string, seq<InstanceInfo>>, prices: map<Quote, real>, maxCost: real)

  datatype Quote = Quote(instanceType: string, region: string, capacityType: string)

  function TypesIn(p: Provider, region: string): seq<InstanceInfo> {
    if region in p.types then p.types[region] else []
  }

  /** Where and how instances are bought. */
  datatype Terms = Terms(region: string, zones: seq<string>, capacityType: string)

  datatype PlannedNode = PlannedNode(
    instanceType: string, region: string, zone: string, capacityType: string, offered: Resource, gpus: int)

  datatype PlanError = NoEligibleTypes | NoZones | NothingAffordable

  datatype Plan = Plan(nodes: seq<PlannedNode>) | Failed(error: PlanError)

  /** The region of the first region requirement, whatever its operator. */
  function CatalogueRegion(rs: seq<Requirement>, default: string): string
    requires forall r :: r in rs ==> r.values != []
  {
    if rs == [] then default
    else if rs[0].key.RegionKey? then rs[0].values[0]
    else CatalogueRegion(rs[1..], default)
  }

  /** One requirement's say on the terms; later ones win. */
  function Revise(terms: Terms, r: Requirement): Terms
    requires r.values != []
  {
    if !r.isIn then terms
    else
      match r.key
      case CapacityTypeKey => if SPOT in r.values then terms else terms.(capacityType := r.values[0])
      case RegionKey => terms.(region := r.values[0])
      case ZoneKey => terms.(zones := r.values)
      case _ => terms
  }

  function FinalTerms(terms: Terms, rs: seq<Requirement>): Terms
    requires forall r :: r in rs ==> r.values != []
  {
    if rs == [] then terms else Revise(FinalTerms(terms, rs[..|rs| - 1]), rs[|rs| - 1])
  }

  // ---- What the terms are ----

  predicate SetsRegion(r: Requirement) { r.isIn && r.key.RegionKey? }

  predicate SetsZones(r: Requirement) { r.isIn && r.key.ZoneKey? }

  predicate SetsCapacityType(r: Requirement) { r.isIn && r.key.CapacityTypeKey? && SPOT !in r.values }

  /** Requirement `k` is the last of its kind; there is none of its kind if `k` is negative. */
  predicate Last(rs: seq<Requirement>, kind: Requirement -> bool, k: int) {
    && -1 <= k < |rs|
    && (k >= 0 ==> kind(rs[k]))
    && forall j :: k < j < |rs| ==> !kind(rs[j])
  }

  lemma LastOfInit(rs: seq<Requirement>, kind: Requirement -> bool, k: int)
    requires Last(rs, kind, k) && rs != [] && !kind(rs[|rs| - 1])
    ensures Last(rs[..|rs| - 1], kind, k)
  {
  }

  /** The region is that of the last In-requirement on regions. */
  lemma {:induction false} RegionIsLast(initial: Terms, rs: seq<Requirement>, k: int)
    requires (forall r :: r in rs ==> r.values != []) && Last(rs, SetsRegion, k)
    ensures FinalTerms(initial, rs).region == if k < 0 then initial.region else rs[k].values[0]
  {
    if rs != [] && k < |rs| - 1 {
      LastOfInit(rs, SetsRegion, k);
      RegionIsLast(initial, rs[..|rs| - 1], k);
    }
  }

  /** The zones are the values of the last In-requirement on zones. */
  lemma {:induction false} ZonesAreLast(initial: Terms, rs: seq<Requirement>, k: int)
    requires (forall r :: r in rs ==> r.values != []) && Last(rs, SetsZones, k)
    ensures FinalTerms(initial, rs).zones == if k < 0 then initial.zones else rs[k].values
  {
    if rs != [] && k < |rs| - 1 {
      LastOfInit(rs, SetsZones, k);
      ZonesAreLast(initial, rs[..|rs| - 1], k);
    }
  }

  /** The capacity type is the first value of the last In-requirement on capacity types that does not allow Spot. */
  lemma {:induction false} CapacityTypeIsLast(initial: Terms, rs: seq<Requirement>, k: int)
    requires (forall r :: r in rs ==> r.values != []) && Last(rs, SetsCapacityType, k)
    ensures FinalTerms(initial, rs).capacityType == if k < 0 then initial.capacityType else rs[k].values[0]
  {
    if rs != [] && k < |rs| - 1 {
      LastOfInit(rs, SetsCapacityType, k);
      CapacityTypeIsLast(initial, rs[..|rs| - 1], k);
    }
  }

  /** The catalogue is that of the first region requirement, also one that is not an In-requirement. */
  lemma {:induction false} CatalogueRegionIsFirst(rs: seq<Requirement>, default: string, k: nat)
    requires forall r :: r in rs ==> r.values != []
    requires k <= |rs| && (k < |rs| ==> rs[k].key.RegionKey?) && forall j :: 0 <= j < k ==> !rs[j].key.RegionKey?
    ensures CatalogueRegion(rs, default) == if k == |rs| then default else rs[k].values[0]
  {
    if k > 0 {
      CatalogueRegionIsFirst(rs[1..], default, k - 1);
    }
  }

  /** The types are taken from one region and bought in another exactly when the two requirements disagree. */
  lemma TwoRegions(rs: seq<Requirement>, default: string, first: nat, last: int)
    requires forall r :: r in rs ==> r.values != []
    requires first < |rs| && rs[first].key.RegionKey? && forall j :: 0 <= j < first ==> !rs[j].key.RegionKey?
    requires Last(rs, SetsRegion, last)
    ensures var region := CatalogueRegion(rs, default);
            FinalTerms(Terms(region, [], SPOT), rs).region != region <==>
              last >= 0 && rs[last].values[0] != rs[first].values[0]
  {
    CatalogueRegionIsFirst(rs, default, first);
    RegionIsLast(Terms(CatalogueRegion(rs, default), [], SPOT), rs, last);
  }

  function QuoteFor(i: InstanceInfo, t: Terms): Quote {
    Quote(i.instanceType, t.region, t.capacityType)
  }

  /** A priced type with something to offer, whose total cost is below the initial minimum. */
  predicate Affordable(p: Provider, t: Terms, gap: Resource, i: InstanceInfo) {
    QuoteFor(i, t) in p.prices && Usable(i) && Cost(p, t, gap, i) < p.maxCost
  }

  function Cost(p: Provider, t: Terms, gap: Resource, i: InstanceInfo): real
    requires QuoteFor(i, t) in p.prices && Usable(i)
  {
    p.prices[QuoteFor(i, t)] * Needed(i, gap) as real
  }

  /** Of all affordable candidates the k-th costs least, and it is the first to cost so little. */
  predicate Cheapest(p: Provider, t: Terms, gap: Resource, candidates: seq<InstanceInfo>, k: nat) {
    && k < |candidates|
    && Affordable(p, t, gap, candidates[k])
    && forall j :: 0 <= j < |candidates| && Affordable(p, t, gap, candidates[j]) ==>
         var cost, other := Cost(p, t, gap, candidates[k]), Cost(p, t, gap, candidates[j]);
         cost <= other && (j < k ==> cost < other)
  }

  function Min(a: int, b: int): int {
    if a <= b then a else b
  }

  /** The node to create is one instance of this type on these terms. */
  predicate Orders(n: PlannedNode, i: InstanceInfo, t: Terms) {
    && n.instanceType == i.instanceType && n.region == t.region && n.capacityType == t.capacityType
    && n.zone in t.zones && n.offered == i.Offers() && n.gpus == i.gpuCount
  }

  /** What the planner must answer for an open gap, given the terms and the eligible candidates. */
  ghost predicate Answers(p: Provider, t: Terms, gap: Resource, candidates: seq<InstanceInfo>, plan: Plan) {
    if candidates == [] then plan == Failed(NoEligibleTypes)
    else if t.zones == [] then plan == Failed(NoZones)
    else if forall i :: i in candidates ==> !Affordable(p, t, gap, i) then plan == Failed(NothingAffordable)
    else plan.Plan? && exists k: nat :: Cheapest(p, t, gap, candidates, k) && Buys(plan.nodes, candidates[k], t, gap)
  }

  /** As many instances of the type as are needed, but no more than the limit for one pass. */
  predicate Buys(nodes: seq<PlannedNode>, i: InstanceInfo, t: Terms, gap: Resource)
    requires Usable(i)
  {
    && |nodes| == Min(Needed(i, gap), MAX_NODES_PER_RECONCILE_LOOP)
    && forall n :: n in nodes ==> Orders(n, i, t)
  }

  // ---- What the plan means ----

  /** What an instance offers is the product of its numbers, as long as these are within the range of int32. */
  lemma OffersExactly(i: InstanceInfo)
    requires 0 <= i.tflopsPerGpu * i.gpuCount < 0x8000_0000 && 0 <= i.vramGiBPerGpu * i.gpuCount < 0x8000_0000
    ensures i.Offers().tflops == i.tflopsPerGpu * i.gpuCount
    ensures i.Offers().vram == i.vramGiBPerGpu * i.gpuCount * 1024 * 1024 * 1024
  {
    SmallProduct(i.tflopsPerGpu * i.gpuCount);
    SmallProduct(i.vramGiBPerGpu * i.gpuCount);
  }

  lemma SmallProduct(x: int)
    requires 0 <= x < 0x8000_0000
    ensures Int32(x) == x
  {
  }

  /** This many instances of the type cover the gap, and no fewer do. */
  ghost predicate LeastCover(i: InstanceInfo, gap: Resource, m: int) {
    && m * i.Offers().tflops >= gap.tflops && m * i.Offers().vram >= gap.vram
    && forall n :: n * i.Offers().tflops >= gap.tflops && n * i.Offers().vram >= gap.vram ==> m <= n
  }

  /** The type has a price and something to offer in both dimensions. */
  predicate ForSale(p: Provider, t: Terms, i: InstanceInfo) {
    && Quote(i.instanceType, t.region, t.capacityType) in p.prices
    && i.Offers().tflops > 0 && i.Offers().vram > 0
  }

  /** The hourly price of as many instances. */
  function PriceOf(p: Provider, t: Terms, i: InstanceInfo, m: int): real
    requires ForSale(p, t, i)
  {
    p.prices[Quote(i.instanceType, t.region, t.capacityType)] * m as real
  }

  lemma LeastCoverIsNeeded(i: InstanceInfo, gap: Resource, m: int)
    requires Usable(i)
    ensures LeastCover(i, gap, m) <==> m == Needed(i, gap)
  {
    forall n ensures n * i.Offers().tflops >= gap.tflops && n * i.Offers().vram >= gap.vram <==> n >= Needed(i, gap) {
      NeededIsLeast(i, gap, n);
    }
    hide *;
    if LeastCover(i, gap, m) || m == Needed(i, gap) {
      LeastIsUnique(i, gap, m, Needed(i, gap));
    }
  }

  lemma LeastIsUnique(i: InstanceInfo, gap: Resource, m: int, needed: int)
    requires forall n :: n * i.Offers().tflops >= gap.tflops && n * i.Offers().vram >= gap.vram <==> n >= needed
    ensures LeastCover(i, gap, m) <==> m == needed
  {
    assert needed * i.Offers().tflops >= gap.tflops && needed * i.Offers().vram >= gap.vram;
  }

  lemma CostIsPrice(p: Provider, t: Terms, gap: Resource, i: InstanceInfo, m: int)
    requires LeastCover(i, gap, m)
    ensures ForSale(p, t, i) <==> QuoteFor(i, t) in p.prices && Usable(i)
    ensures ForSale(p, t, i) ==> Cost(p, t, gap, i) == PriceOf(p, t, i, m)
  {
    if ForSale(p, t, i) {
      LeastCoverIsNeeded(i, gap, m);
    }
  }

  method CalculateLeastCostGPUNodes(p: Provider, rs: seq<Requirement>, defaultRegion: string, gap: Resource)
    returns (plan: Plan)
    requires forall r :: r in rs ==> r.values != []
    ensures gap.tflops <= 0 && gap.vram <= 0 ==> plan == Plan([])
    ensures var region := CatalogueRegion(rs, defaultRegion);
            gap.tflops > 0 || gap.vram > 0 ==>
              Answers(p, FinalTerms(Terms(region, [], SPOT), rs), gap, Eligible(TypesIn(p, region), rs), plan)
  {
    if gap.tflops <= 0 && gap.vram <= 0 {
      return Plan([]);
    }
    var region := FindRegion(rs, defaultRegion);
    var candidates := GetEligibleInstances(TypesIn(p, region), rs);
    if candidates == [] {
      return Failed(NoEligibleTypes);
    }
    var terms := ReadTerms(Terms(region, [], SPOT), rs);
    if terms.zones == [] {
      return Failed(NoZones);
    }
    var best := FindCheapest(p, terms, gap, candidates);
    if best.None? {
      return Failed(NothingAffordable);
    }
    var i := candidates[best.value];
    assert i in candidates;
    NeededIsLeast(i, gap, 0);
    var nodes := BuyNodes(i, terms, Min(Needed(i, gap), MAX_NODES_PER_RECONCILE_LOOP));
    plan := Plan(nodes);
  }

  /**
   A plan buys a type whose least number of instances that cover the gap costs least in all: no other type for sale
   costs less, none that is listed earlier costs as little, and it costs less than the initial minimum.
   */
  lemma PlanCostsLeast(p: Provider, t: Terms, gap: Resource, candidates: seq<InstanceInfo>, plan: Plan)
    returns (k: nat, m: int)
    requires Answers(p, t, gap, candidates, plan) && plan.Plan?
    ensures k < |candidates| && ForSale(p, t, candidates[k]) && LeastCover(candidates[k], gap, m)
    ensures PriceOf(p, t, candidates[k], m) < p.maxCost
    ensures |plan.nodes| == if m <= 100 then m else 100
    ensures forall n :: n in plan.nodes ==>
              && n.instanceType == candidates[k].instanceType && n.gpus == candidates[k].gpuCount
              && n.offered == candidates[k].Offers() && n.region == t.region && n.zone in t.zones
              && n.capacityType == t.capacityType
    ensures forall j, n ::
              0 <= j < |candidates| && ForSale(p, t, candidates[j]) && LeastCover(candidates[j], gap, n) ==>
              && PriceOf(p, t, candidates[k], m) <= PriceOf(p, t, candidates[j], n)
              && (j < k ==> PriceOf(p, t, candidates[k], m) < PriceOf(p, t, candidates[j], n))
  {
    k :| Cheapest(p, t, gap, candidates, k) && Buys(plan.nodes, candidates[k], t, gap);
    m := Needed(candidates[k], gap);
    LeastCoverIsNeeded(candidates[k], gap, m);
    CostIsPrice(p, t, gap, candidates[k], m);
    forall j, n | 0 <= j < |candidates| && ForSale(p, t, candidates[j]) && LeastCover(candidates[j], gap, n)
      ensures PriceOf(p, t, candidates[k], m) <= PriceOf(p, t, candidates[j], n)
      ensures j < k ==> PriceOf(p, t, candidates[k], m) < PriceOf(p, t, candidates[j], n)
    {
      CostIsPrice(p, t, gap, candidates[j], n);
    }
  }

  /** There is no plan exactly if no type is eligible, no zone is asked for, or none for sale is below the minimum. */
  lemma NoPlanExactly(p: Provider, t: Terms, gap: Resource, candidates: seq<InstanceInfo>, plan: Plan)
    requires Answers(p, t, gap, candidates, plan)
    ensures plan == Failed(NoEligibleTypes) <==> candidates == []
    ensures plan == Failed(NoZones) <==> candidates != [] && t.zones == []
    ensures plan == Failed(NothingAffordable) <==>
              && candidates != [] && t.zones != []
              && forall i, m :: i in candidates && ForSale(p, t, i) && LeastCover(i, gap, m) ==>
                   PriceOf(p, t, i, m) >= p.maxCost
  {
    forall i, m | i in candidates && ForSale(p, t, i) && LeastCover(i, gap, m)
      ensures Affordable(p, t, gap, i) <==> PriceOf(p, t, i, m) < p.maxCost
    {
      CostIsPrice(p, t, gap, i, m);
    }
    forall i | i in candidates && Affordable(p, t, gap, i)
      ensures exists m :: ForSale(p, t, i) && LeastCover(i, gap, m) && PriceOf(p, t, i, m) < p.maxCost
    {
      LeastCoverIsNeeded(i, gap, Needed(i, gap));
      CostIsPrice(p, t, gap, i, Needed(i, gap));
    }
  }

  method FindRegion(rs: seq<Requirement>, default: string) returns (region: string)
    requires forall r :: r in rs ==> r.values != []
    ensures region == CatalogueRegion(rs, default)
  {
    for k := 0 to |rs|
      invariant CatalogueRegion(rs[k..], default) == CatalogueRegion(rs, default)
    {
      assert rs[k..][1..] == rs[k + 1..];
      if rs[k].key == RegionKey {
        return rs[k].values[0];
      }
    }
    region := default;
  }

  /** No affordable candidate costs less than the bound. */
  predicate AtLeast(p: Provider, t: Terms, gap: Resource, cs: seq<InstanceInfo>, bound: real) {
    forall i :: i in cs && Affordable(p, t, gap, i) ==> bound <= Cost(p, t, gap, i)
  }

  /** The state of the search after the candidates `cs`. */
  predicate Searched(p: Provider, t: Terms, gap: Resource, cs: seq<InstanceInfo>, best: Option<nat>, minCost: real) {
    && AtLeast(p, t, gap, cs, minCost)
    && match best
       case None => minCost == p.maxCost
       case Some(k) => Cheapest(p, t, gap, cs, k) && minCost == Cost(p, t, gap, cs[k])
  }

  /** A candidate without a price, or with nothing to offer, changes nothing. */
  lemma SearchSkips(
    p: Provider, t: Terms, gap: Resource, cs: seq<InstanceInfo>, i: InstanceInfo, best: Option<nat>, minCost: real)
    requires Searched(p, t, gap, cs, best, minCost)
    requires QuoteFor(i, t) !in p.prices || !Usable(i)
    ensures Searched(p, t, gap, cs + [i], best, minCost)
  {
  }

  /** A candidate with a price moves the search if and only if it costs less than all before it. */
  lemma SearchSteps(
    p: Provider, t: Terms, gap: Resource, cs: seq<InstanceInfo>, i: InstanceInfo, best: Option<nat>, minCost: real)
    requires Searched(p, t, gap, cs, best, minCost) && minCost <= p.maxCost
    requires QuoteFor(i, t) in p.prices && Usable(i)
    ensures if Cost(p, t, gap, i) < minCost then Searched(p, t, gap, cs + [i], Some(|cs|), Cost(p, t, gap, i))
            else Searched(p, t, gap, cs + [i], best, minCost)
  {
    hide Cost;
  }

  lemma SearchEnds(
    p: Provider, t: Terms, gap: Resource, cs: seq<InstanceInfo>, best: Option<nat>, minCost: real)
    requires Searched(p, t, gap, cs, best, minCost)
    ensures best.Some? ==> Cheapest(p, t, gap, cs, best.value)
    ensures best.None? ==> forall i :: i in cs ==> !Affordable(p, t, gap, i)
  {
    hide Cost;
  }

  /** The search over the candidates; a candidate without a price is passed over. */
  method FindCheapest(p: Provider, t: Terms, gap: Resource, candidates: seq<InstanceInfo>) returns (best: Option<nat>)
    ensures best.Some? ==> Cheapest(p, t, gap, candidates, best.value)
    ensures best.None? ==> forall i :: i in candidates ==> !Affordable(p, t, gap, i)
  {
    hide Cost, Cheapest, Affordable;
    best := None;
    var minCost := p.maxCost;
    for k := 0 to |candidates|
      invariant minCost <= p.maxCost
      invariant Searched(p, t, gap, candidates[..k], best, minCost)
    {
      hide Searched;
      var i := candidates[k];
      assert candidates[..k + 1] == candidates[..k] + [i];
      if QuoteFor(i, t) !in p.prices || !Usable(i) {
        SearchSkips(p, t, gap, candidates[..k], i, best, minCost);
        continue;
      }
      SearchSteps(p, t, gap, candidates[..k], i, best, minCost);
      var cost := Cost(p, t, gap, i);
      if cost < minCost {
        best, minCost := Some(k), cost;
      }
    }
    assert candidates[..|candidates|] == candidates;
    SearchEnds(p, t, gap, candidates, best, minCost);
  }

  method ReadTerms(initial: Terms, rs: seq<Requirement>) returns (terms: Terms)
    requires forall r :: r in rs ==> r.values != []
    ensures terms == FinalTerms(initial, rs)
  {
    terms := initial;
    for k := 0 to |rs|
      invariant terms == FinalTerms(initial, rs[..k])
    {
      assert rs[..k + 1][..k] == rs[..k];
      var r := rs[k];
      if r.key == CapacityTypeKey && r.isIn {
        var hasSpot := Contains(r.values, SPOT);
        if !hasSpot {
          terms := terms.(capacityType := r.values[0]);
        }
      } else if r.key == RegionKey && r.isIn {
        terms := terms.(region := r.values[0]);
      } else if r.key == ZoneKey && r.isIn {
        terms := terms.(zones := r.values);
      }
    }
    assert rs[..|rs|] == rs;
  }

  /** The zone of each node is drawn at random. */
  method BuyNodes(i: InstanceInfo, t: Terms, count: nat) returns (nodes: seq<PlannedNode>)
    requires t.zones != []
    ensures |nodes| == count
    ensures forall n :: n in nodes ==> Orders(n, i, t)
  {
    nodes := [];
    for k := 0 to count
      invariant |nodes| == k
      invariant forall n :: n in nodes ==> Orders(n, i, t)
    {
      var draw :| 0 <= draw < |t.zones|;
      nodes := nodes + [PlannedNode(i.instanceType, t.region, t.zones[draw], t.capacityType, i.Offers(), i.gpuCount)];
    }
  }
}
