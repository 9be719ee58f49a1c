/** The status of a TensorFusionCluster: its phase, its conditions, and the summary of its pools. */
module ClusterStatus {
  import opened Resources
  import opened PoolCapacity

  datatype Phase = Unset | Unknown | Pending | Updating | Running

  datatype Condition = Condition(kind: string, status: bool, reason: string, message: string)

  const READY := "Ready"
  const GPU_POOL := "GPUPoolReady"
  const TIME_SERIES_DATABASE := "TimeSeriesDatabaseReady"
  const CLOUD_VENDOR_CONNECTION := "CloudVendorConnectionReady"

  datatype Summary = Summary(
    totalPools: int,
    readyPools: seq<string>,
    notReadyPools: seq<string>,
    totalNodes: int,
    totalGpus: int,
    total: Resource,
    available: Resource)

  datatype Status = Status(
    phase: Phase, conditions: seq<Condition>, retryCount: int, vendorConfigHash: string, summary: Summary)

  // ---- Conditions ----

  /** Replace the condition of the same type, or append it. */
  function SetCondition(cs: seq<Condition>, c: Condition): seq<Condition> {
    if cs == [] then [c]
    else if cs[0].kind == c.kind then [c] + cs[1..]
    else [cs[0]] + SetCondition(cs[1..], c)
  }

  function SetConditions(cs: seq<Condition>, more: seq<Condition>): seq<Condition>
    decreases |more|
  {
    if more == [] then cs else SetConditions(SetCondition(cs, more[0]), more[1..])
  }

  predicate OnePerType(cs: seq<Condition>) {
    forall i, j :: 0 <= i < j < |cs| ==> cs[i].kind != cs[j].kind
  }

  /** The status reported for a condition type. */
  predicate IsTrue(cs: seq<Condition>, kind: string) {
    exists c :: c in cs && c.kind == kind && c.status
  }

  /** The first condition of the type is replaced in place; without one, the condition is appended. */
  lemma {:induction false} SetConditionReplaces(cs: seq<Condition>, c: Condition, k: nat)
    requires k <= |cs| && forall j :: 0 <= j < k ==> cs[j].kind != c.kind
    ensures k == |cs| ==> SetCondition(cs, c) == cs + [c]
    ensures k < |cs| && cs[k].kind == c.kind ==> SetCondition(cs, c) == cs[k := c]
    decreases |cs|
  {
    if k > 0 {
      SetConditionReplaces(cs[1..], c, k - 1);
      assert cs == [cs[0]] + cs[1..];
    }
  }

  lemma {:induction false} SetConditionHas(cs: seq<Condition>, c: Condition, x: Condition)
    requires OnePerType(cs)
    ensures x in SetCondition(cs, c) <==> x == c || (x in cs && x.kind != c.kind)
    ensures OnePerType(SetCondition(cs, c))
    decreases |cs|
  {
    if cs != [] {
      var rest := SetCondition(cs[1..], c);
      assert OnePerType(cs[1..]);
      SetConditionHas(cs[1..], c, x);
      if cs[0].kind != c.kind {
        forall j | 0 <= j < |rest| ensures rest[j].kind != cs[0].kind {
          SetConditionHas(cs[1..], c, rest[j]);
        }
      } else {
        assert forall y :: y in cs[1..] ==> y.kind != c.kind;
      }
    }
  }

  /** Setting a condition reports it, and leaves what is reported for other types. */
  lemma SetConditionReports(cs: seq<Condition>, c: Condition, kind: string)
    requires OnePerType(cs)
    ensures OnePerType(SetCondition(cs, c))
    ensures IsTrue(SetCondition(cs, c), kind) <==> if kind == c.kind then c.status else IsTrue(cs, kind)
  {
    SetConditionHas(cs, c, c);
    if IsTrue(SetCondition(cs, c), kind) {
      var x :| x in SetCondition(cs, c) && x.kind == kind && x.status;
      SetConditionHas(cs, c, x);
    }
    if IsTrue(cs, kind) && kind != c.kind {
      var x :| x in cs && x.kind == kind && x.status;
      SetConditionHas(cs, c, x);
    }
    assert kind == c.kind && c.status ==> c in SetCondition(cs, c) && c.kind == kind && c.status;
  }

  lemma {:induction false} SetConditionsKeep(cs: seq<Condition>, more: seq<Condition>, kind: string)
    requires OnePerType(cs) && forall c :: c in more ==> c.kind != kind
    ensures OnePerType(SetConditions(cs, more))
    ensures IsTrue(SetConditions(cs, more), kind) <==> IsTrue(cs, kind)
    decreases |more|
  {
    if more != [] {
      SetConditionReports(cs, more[0], kind);
      SetConditionsKeep(SetCondition(cs, more[0]), more[1..], kind);
    }
  }

  // ---- Phase changes ----

  function WithReason(c: Condition, reason: string): Condition {
    if c.reason == "" then c.(reason := reason) else c
  }

  function WithReasons(cs: seq<Condition>, reason: string): seq<Condition> {
    seq(|cs|, i requires 0 <= i < |cs| => WithReason(cs[i], reason))
  }

  function AsPending(s: Status): Status {
    s.(phase := Pending, conditions := SetCondition(s.conditions, Condition(READY, false, "NewCreation", "")))
  }

  function AsUnknown(s: Status, message: string): Status {
    s.(phase := Unknown, conditions := SetCondition(s.conditions, Condition(READY, false, "UnknownState", message)))
  }

  function AsUpdating(s: Status, more: seq<Condition>): Status {
    var cs := SetCondition(s.conditions, Condition(READY, false, "ResourcesUpdated", ""));
    s.(phase := Updating, conditions := SetConditions(cs, WithReasons(more, "StillChecking")))
  }

  function AsReady(s: Status, more: seq<Condition>): Status {
    var cs := SetCondition(s.conditions, Condition(READY, true, "CheckPassed", ""));
    s.(phase := Running, conditions := SetConditions(cs, WithReasons(more, "CheckPassed")))
  }

  /** One condition per type, and Ready is reported true exactly while the phase is Running. */
  ghost predicate Coherent(s: Status) {
    OnePerType(s.conditions) && (IsTrue(s.conditions, READY) <==> s.phase.Running?)
  }

  predicate NotAboutReady(cs: seq<Condition>) {
    forall c :: c in cs ==> c.kind != READY
  }

  lemma PhaseChangesCohere(s: Status, more: seq<Condition>, message: string)
    requires OnePerType(s.conditions) && NotAboutReady(more)
    ensures Coherent(AsPending(s)) && Coherent(AsUnknown(s, message))
    ensures Coherent(AsUpdating(s, more)) && Coherent(AsReady(s, more))
  {
    SetConditionReports(s.conditions, Condition(READY, false, "NewCreation", ""), READY);
    SetConditionReports(s.conditions, Condition(READY, false, "UnknownState", message), READY);
    var updating, ready := Condition(READY, false, "ResourcesUpdated", ""), Condition(READY, true, "CheckPassed", "");
    SetConditionReports(s.conditions, updating, READY);
    SetConditionReports(s.conditions, ready, READY);
    SetConditionsKeep(SetCondition(s.conditions, updating), WithReasons(more, "StillChecking"), READY);
    SetConditionsKeep(SetCondition(s.conditions, ready), WithReasons(more, "CheckPassed"), READY);
  }

  // ---- What a phase change writes ----

  lemma {:induction false} SetConditionsHas(cs: seq<Condition>, more: seq<Condition>, x: Condition)
    requires OnePerType(cs) && OnePerType(more)
    ensures OnePerType(SetConditions(cs, more))
    ensures x in SetConditions(cs, more) <==> x in more || (x in cs && forall m :: m in more ==> m.kind != x.kind)
    decreases |more|
  {
    if more != [] {
      var first, rest := more[0], more[1..];
      SetConditionHas(cs, first, x);
      SetConditionsHas(SetCondition(cs, first), rest, x);
      assert more == [first] + rest;
      assert forall m :: m in rest ==> m.kind != first.kind;
    }
  }

  /** The entry for readiness is this one, those of `more` are there, and those of other types are as before. */
  ghost predicate Records(cs: seq<Condition>, ready: Condition, more: seq<Condition>, before: seq<Condition>) {
    && ready in cs
    && (forall m :: m in more ==> m in cs)
    && forall x: Condition :: x.kind != ready.kind && (forall m :: m in more ==> m.kind != x.kind) ==>
         (x in cs <==> x in before)
  }

  lemma ChangeRecords(before: seq<Condition>, ready: Condition, more: seq<Condition>)
    requires OnePerType(before) && OnePerType(more) && ready.kind == READY && NotAboutReady(more)
    ensures Records(SetConditions(SetCondition(before, ready), more), ready, more, before)
    ensures OnePerType(SetConditions(SetCondition(before, ready), more))
  {
    forall x: Condition ensures x in SetConditions(SetCondition(before, ready), more)
      <==> x in more || ((x == ready || (x in before && x.kind != ready.kind))
                         && forall m :: m in more ==> m.kind != x.kind)
    {
      SetConditionHas(before, ready, x);
      SetConditionsHas(SetCondition(before, ready), more, x);
    }
    SetConditionHas(before, ready, ready);
    SetConditionsHas(SetCondition(before, ready), more, ready);
  }

  /** With a default reason where there is none. */
  predicate Reasoned(with: seq<Condition>, more: seq<Condition>, reason: string) {
    && |with| == |more|
    && forall k :: 0 <= k < |more| ==>
         with[k] == more[k].(reason := if more[k].reason == "" then reason else more[k].reason)
  }

  lemma ReasonsAdded(more: seq<Condition>, reason: string)
    requires OnePerType(more) && NotAboutReady(more)
    ensures var with := WithReasons(more, reason);
            Reasoned(with, more, reason) && OnePerType(with) && NotAboutReady(with)
    ensures OnePerType([])
  {
  }

  /** What each phase change writes: the phase, the entry for readiness, the given conditions, and nothing else. */
  lemma PhaseChangesWrite(s: Status, more: seq<Condition>, message: string)
    requires OnePerType(s.conditions) && OnePerType(more) && NotAboutReady(more)
    ensures var after := AsPending(s);
            && after == s.(phase := Pending, conditions := after.conditions)
            && Records(after.conditions, Condition("Ready", false, "NewCreation", ""), [], s.conditions)
    ensures var after := AsUnknown(s, message);
            && after == s.(phase := Unknown, conditions := after.conditions)
            && Records(after.conditions, Condition("Ready", false, "UnknownState", message), [], s.conditions)
    ensures var after, with := AsUpdating(s, more), WithReasons(more, "StillChecking");
            && after == s.(phase := Updating, conditions := after.conditions) && Reasoned(with, more, "StillChecking")
            && Records(after.conditions, Condition("Ready", false, "ResourcesUpdated", ""), with, s.conditions)
    ensures var after, with := AsReady(s, more), WithReasons(more, "CheckPassed");
            && after == s.(phase := Running, conditions := after.conditions) && Reasoned(with, more, "CheckPassed")
            && Records(after.conditions, Condition("Ready", true, "CheckPassed", ""), with, s.conditions)
  {
    hide Records, SetCondition, WithReasons, Reasoned, OnePerType, NotAboutReady;
    ReasonsAdded(more, "StillChecking");
    ReasonsAdded(more, "CheckPassed");
    ReasonsAdded([], "");
    ChangeRecords(s.conditions, Condition("Ready", false, "NewCreation", ""), []);
    ChangeRecords(s.conditions, Condition("Ready", false, "UnknownState", message), []);
    ChangeRecords(s.conditions, Condition("Ready", false, "ResourcesUpdated", ""), WithReasons(more, "StillChecking"));
    ChangeRecords(s.conditions, Condition("Ready", true, "CheckPassed", ""), WithReasons(more, "CheckPassed"));
  }

  // ---- The summary of the owned pools ----

  /** The ready list has one slot for every pool in the spec; a pool that is not ready leaves its slot empty. */
  predicate FitsReadyList(specPools: nat, owned: seq<NamedPool>) {
    forall i :: 0 <= i < |owned| && owned[i].status.running ==> i < specPools
  }

  function SumAvailable(pools: seq<NamedPool>, d: Dimension): int {
    if pools == [] then 0 else SumAvailable(pools[..|pools| - 1], d) + pools[|pools| - 1].available.In(d)
  }

  function NotReady(pools: seq<NamedPool>): seq<string> {
    if pools == [] then []
    else
      var last := pools[|pools| - 1];
      NotReady(pools[..|pools| - 1]) + if last.status.running then [] else [last.name]
  }

  lemma NoPools(pools: seq<NamedPool>)
    requires pools == []
    ensures NotReady(pools) == []
    ensures forall m :: SumPools(pools, m) == 0
    ensures forall d :: SumAvailable(pools, d) == 0
  {
  }

  lemma OnePoolMore(pools: seq<NamedPool>, i: nat)
    requires i < |pools|
    ensures NotReady(pools[..i + 1])
         == NotReady(pools[..i]) + if pools[i].status.running then [] else [pools[i].name]
    ensures var before, after, p := pools[..i], pools[..i + 1], pools[i];
            && SumPools(after, Nodes) == SumPools(before, Nodes) + p.status.totalNodes
            && SumPools(after, Gpus) == SumPools(before, Gpus) + p.status.totalGpus
            && SumPools(after, Total(Tflops)) == SumPools(before, Total(Tflops)) + p.status.total.tflops
            && SumPools(after, Total(Vram)) == SumPools(before, Total(Vram)) + p.status.total.vram
            && SumAvailable(after, Tflops) == SumAvailable(before, Tflops) + p.available.tflops
            && SumAvailable(after, Vram) == SumAvailable(before, Vram) + p.available.vram
  {
    assert pools[..i + 1][..i] == pools[..i];
  }

  ghost predicate Summarizes(s: Summary, specPools: nat, owned: seq<NamedPool>) {
    && s.totalPools == specPools == |s.readyPools|
    && (forall i :: 0 <= i < specPools ==>
          s.readyPools[i] == if i < |owned| && owned[i].status.running then owned[i].name else "")
    && s.notReadyPools == NotReady(owned)
    && s.totalNodes == SumPools(owned, Nodes)
    && s.totalGpus == SumPools(owned, Gpus)
    && (forall d :: s.total.In(d) == SumPools(owned, Total(d)))
    && (forall d :: s.available.In(d) == SumAvailable(owned, d))
  }

  class TensorFusionCluster {
    var specPools: nat
    var status: Status

    constructor (specPools: nat, status: Status)
      ensures this.specPools == specPools && this.status == status
    {
      this.specPools, this.status := specPools, status;
    }

    method SetStatusCondition(c: Condition)
      modifies this`status
      ensures status == old(status).(conditions := SetCondition(old(status).conditions, c))
    {
      var cs := status.conditions;
      for k := 0 to |cs|
        invariant status == old(status)
        invariant forall j :: 0 <= j < k ==> cs[j].kind != c.kind
      {
        if cs[k].kind == c.kind {
          SetConditionReplaces(cs, c, k);
          status := status.(conditions := cs[k := c]);
          return;
        }
      }
      SetConditionReplaces(cs, c, |cs|);
      status := status.(conditions := cs + [c]);
    }

    /** Set each of the conditions, with a default reason. */
    method SetStatusConditions(more: seq<Condition>, reason: string)
      modifies this`status
      ensures status == old(status).(conditions := SetConditions(old(status).conditions, WithReasons(more, reason)))
    {
      ghost var all := WithReasons(more, reason);
      for k := 0 to |more|
        invariant status == old(status).(conditions := status.conditions)
        invariant SetConditions(status.conditions, all[k..]) == SetConditions(old(status).conditions, all)
      {
        assert all[k..][0] == WithReason(more[k], reason) && all[k..][1..] == all[k + 1..];
        SetStatusCondition(WithReason(more[k], reason));
      }
    }

    method SetAsPending()
      modifies this`status
      ensures status == AsPending(old(status))
    {
      status := status.(phase := Pending);
      SetStatusCondition(Condition(READY, false, "NewCreation", ""));
    }

    method SetAsUnknown(message: string)
      modifies this`status
      ensures status == AsUnknown(old(status), message)
    {
      status := status.(phase := Unknown);
      SetStatusCondition(Condition(READY, false, "UnknownState", message));
    }

    method SetAsUpdating(more: seq<Condition>)
      modifies this`status
      ensures status == AsUpdating(old(status), more)
    {
      status := status.(phase := Updating);
      SetStatusCondition(Condition(READY, false, "ResourcesUpdated", ""));
      SetStatusConditions(more, "StillChecking");
    }

    method SetAsReady(more: seq<Condition>)
      modifies this`status
      ensures status == AsReady(old(status), more)
    {
      status := status.(phase := Running);
      SetStatusCondition(Condition(READY, true, "CheckPassed", ""));
      SetStatusConditions(more, "CheckPassed");
    }

    /** Recompute the summary. Without the precondition the write to the ready list is out of range. */
    method RefreshStatus(owned: seq<NamedPool>)
      requires FitsReadyList(specPools, owned)
      modifies this`status
      ensures Summarizes(status.summary, specPools, owned)
      ensures status == old(status).(summary := status.summary)
    {
      hide NotReady, SumPools, SumAvailable;
      var ready := seq(specPools, _ => "");
      var notReady: seq<string> := [];
      var nodes, gpus, total, available := 0, 0, Resource(0, 0), Resource(0, 0);
      NoPools(owned[..0]);
      for i := 0 to |owned|
        invariant status == old(status) && |ready| == specPools
        invariant forall j :: 0 <= j < specPools ==>
                    ready[j] == if j < i && owned[j].status.running then owned[j].name else ""
        invariant notReady == NotReady(owned[..i])
        invariant nodes == SumPools(owned[..i], Nodes) && gpus == SumPools(owned[..i], Gpus)
        invariant total == Resource(SumPools(owned[..i], Total(Tflops)), SumPools(owned[..i], Total(Vram)))
        invariant available == Resource(SumAvailable(owned[..i], Tflops), SumAvailable(owned[..i], Vram))
      {
        OnePoolMore(owned, i);
        var p := owned[i];
        if !p.status.running {
          notReady := notReady + [p.name];
        } else {
          ready := ready[i := p.name];
        }
        nodes, gpus := nodes + p.status.totalNodes, gpus + p.status.totalGpus;
        total, available := total.Plus(p.status.total), available.Plus(p.available);
      }
      assert owned[..|owned|] == owned;
      forall d: Dimension
        ensures total.In(d) == SumPools(owned, Total(d)) && available.In(d) == SumAvailable(owned, d)
      {
        assert d == Tflops || d == Vram;
      }
      status := status.(summary := Summary(specPools, ready, notReady, nodes, gpus, total, available));
    }
  }

  /** Each owned pool is listed as ready or as not ready, and never as both. */
  lemma ListedOnce(s: Summary, specPools: nat, owned: seq<NamedPool>, i: nat)
    requires Summarizes(s, specPools, owned) && FitsReadyList(specPools, owned) && i < |owned|
    requires Distinct(Names(owned)) && owned[i].name != ""
    ensures owned[i].name in s.readyPools <==> owned[i].status.running
    ensures owned[i].name in s.notReadyPools <==> !owned[i].status.running
  {
    NotReadyNames(owned, owned[i].name);
    forall j | 0 <= j < |owned| && owned[j].name == owned[i].name ensures j == i {
      assert Names(owned)[j] == Names(owned)[i];
    }
    if owned[i].name in s.readyPools {
      var j :| 0 <= j < |s.readyPools| && s.readyPools[j] == owned[i].name;
    }
    if owned[i].status.running {
      assert s.readyPools[i] == owned[i].name;
    }
  }

  lemma {:induction false} NotReadyNames(pools: seq<NamedPool>, name: string)
    ensures name in NotReady(pools) <==> exists p :: p in pools && p.name == name && !p.status.running
  {
    if pools != [] {
      var init, last := pools[..|pools| - 1], pools[|pools| - 1];
      NotReadyNames(init, name);
      assert pools == init + [last];
    }
  }

  /** Each owned pool's status is what its last aggregation left of the status stored before. */
  ghost predicate JustPatched(owned: seq<NamedPool>, stored: map<string, PoolStatus>, nodes: seq<GpuNode>) {
    forall p :: p in owned ==>
      && p.name in stored && stored[p.name].totalNodes >= 0 && stored[p.name].totalGpus >= 0
      && p.status == MergePatch(stored[p.name], Recomputed(nodes, p.name))
  }

  /** No pool's counter of the measure fell to zero in that aggregation. */
  ghost predicate NoneFellToZero(
    owned: seq<NamedPool>, stored: map<string, PoolStatus>, nodes: seq<GpuNode>, m: Measure)
    requires JustPatched(owned, stored, nodes)
  {
    forall p :: p in owned ==> Arrives(OfPool(stored[p.name], m), SumNodes(nodes, {p.name}, m))
  }

  lemma PatchedPoolClaims(p: NamedPool, before: PoolStatus, nodes: seq<GpuNode>, m: Measure)
    requires before.totalNodes >= 0 && before.totalGpus >= 0
    requires p.status == MergePatch(before, Recomputed(nodes, p.name))
    ensures OfPool(p.status, m) >= SumNodes(nodes, {p.name}, m)
    ensures m.Nodes? || m.Gpus? ==> (Exact(p, nodes, m) <==> Arrives(OfPool(before, m), SumNodes(nodes, {p.name}, m)))
    ensures m.Total? ==> Exact(p, nodes, m)
  {
    AggregatesExactly(before, nodes, p.name);
  }

  /**
   After aggregation the cluster's TFlops and VRAM are the flat sums over all nodes of the owned pools. Its nodes and
   GPUs never count less than those sums, and they are the sums if and only if no pool's counter fell to zero.
   */
  lemma ClusterTotalsAreFlat(
    s: Summary, specPools: nat, owned: seq<NamedPool>, stored: map<string, PoolStatus>, nodes: seq<GpuNode>)
    requires Summarizes(s, specPools, owned) && Distinct(Names(owned))
    requires JustPatched(owned, stored, nodes)
    ensures forall d :: s.total.In(d) == SumNodes(nodes, NameSet(owned), Total(d))
    ensures s.totalNodes >= SumNodes(nodes, NameSet(owned), Nodes)
    ensures s.totalNodes == SumNodes(nodes, NameSet(owned), Nodes) <==> NoneFellToZero(owned, stored, nodes, Nodes)
    ensures s.totalGpus >= SumNodes(nodes, NameSet(owned), Gpus)
    ensures s.totalGpus == SumNodes(nodes, NameSet(owned), Gpus) <==> NoneFellToZero(owned, stored, nodes, Gpus)
  {
    hide MergePatch, Recomputed, SumNodes, SumPools;
    forall p, m: Measure | p in owned
      ensures OfPool(p.status, m) >= SumNodes(nodes, {p.name}, m)
      ensures m.Nodes? || m.Gpus? ==>
                (Exact(p, nodes, m) <==> Arrives(OfPool(stored[p.name], m), SumNodes(nodes, {p.name}, m)))
      ensures m.Total? ==> Exact(p, nodes, m)
    {
      PatchedPoolClaims(p, stored[p.name], nodes, m);
    }
    PoolsSumFlat(owned, nodes, Nodes);
    PoolsSumFlat(owned, nodes, Gpus);
    forall d ensures s.total.In(d) == SumNodes(nodes, NameSet(owned), Total(d)) {
      PoolsSumFlat(owned, nodes, Total(d));
    }
  }
}
