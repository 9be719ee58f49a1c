/** A whole pass of the cluster reconciler: why its list write is in range, and what its phases mean over every run. */
module ClusterPass {
  import opened Calls
  import opened Resources
  import opened PoolCapacity
  import opened ClusterStatus
  import opened ClusterReconcile
  import opened ClusterConvergence

  // ---- The pools as they are listed ----

  lemma {:induction false} KeysAreFew(name: string, defs: seq<PoolDefinition>)
    ensures |set d | d in defs :: name + "-" + d.name| <= |defs|
  {
    if defs != [] {
      var init, last := defs[..|defs| - 1], defs[|defs| - 1];
      KeysAreFew(name, init);
      assert (set d | d in defs :: name + "-" + d.name)
          == (set d | d in init :: name + "-" + d.name) + {name + "-" + last.name} by {
        assert defs == init + [last];
      }
    }
  }

  lemma {:induction false} DistinctNamesAreFew(names: seq<string>, bound: set<string>)
    requires Distinct(names) && forall n :: n in names ==> n in bound
    ensures |names| <= |bound|
  {
    if names != [] {
      var init, last := names[..|names| - 1], names[|names| - 1];
      DistinctNamesAreFew(init, bound - {last});
    }
  }

  /** What List returns for the cluster, in some order. */
  ghost predicate ListOf(c: Cluster, pools: Pools, owned: seq<NamedPool>) {
    && Distinct(Names(owned))
    && (forall p :: p in owned ==> p.name in Labelled(c, pools) && p == Listed(pools, p.name))
    && (forall k :: k in Labelled(c, pools) ==> k in Names(owned))
  }

  function Listed(pools: Pools, k: string): NamedPool
    requires k in pools
  {
    NamedPool(k, pools[k].status, pools[k].available)
  }

  // ---- When the write to the ready list is in range ----

  /** There is a slot for every labelled pool, or no labelled pool runs. */
  predicate ListIsSafe(c: Cluster, pools: Pools) {
    |Labelled(c, pools)| <= |c.pools| || forall k :: k in Labelled(c, pools) ==> !pools[k].status.running
  }

  /** One listing of some of the labelled pools. */
  ghost predicate Lists(pools: Pools, keys: set<string>, owned: seq<NamedPool>) {
    && Distinct(Names(owned)) && |owned| == |keys|
    && (forall p :: p in owned ==> p.name in keys && p.name in pools && p == Listed(pools, p.name))
    && (forall k :: k in keys ==> k in Names(owned))
  }

  lemma ListedLast(pools: Pools, keys: set<string>, owned: seq<NamedPool>, last: string)
    requires Lists(pools, keys, owned) && last in pools && last !in keys
    ensures Lists(pools, keys + {last}, owned + [Listed(pools, last)])
  {
    var more := owned + [Listed(pools, last)];
    assert Names(more) == Names(owned) + [last];
    forall i, j | 0 <= i < j < |more| ensures Names(more)[i] != Names(more)[j] {
      assert owned[i] in owned && owned[i].name in keys;
    }
  }

  lemma {:induction false} SomeListing(pools: Pools, keys: set<string>) returns (owned: seq<NamedPool>)
    requires keys <= pools.Keys
    ensures Lists(pools, keys, owned)
  {
    owned := [];
    if keys != {} {
      var k :| k in keys;
      var init := SomeListing(pools, keys - {k});
      ListedLast(pools, keys - {k}, init, k);
      owned := init + [Listed(pools, k)];
      assert keys - {k} + {k} == keys;
    }
  }

  /** With more labelled pools than slots, a listing that puts a running pool last makes the write go out of range. */
  lemma BadListing(c: Cluster, pools: Pools, k: string) returns (owned: seq<NamedPool>)
    requires k in Labelled(c, pools) && pools[k].status.running && |Labelled(c, pools)| > |c.pools|
    ensures ListOf(c, pools, owned) && !FitsReadyList(|c.pools|, owned)
  {
    var keys := Labelled(c, pools);
    var init := SomeListing(pools, keys - {k});
    ListedLast(pools, keys - {k}, init, k);
    owned := init + [Listed(pools, k)];
    assert keys - {k} + {k} == keys;
    assert owned[|owned| - 1].status.running;
  }

  /** Every order in which the pools may be listed keeps the write in range. */
  ghost predicate EveryListingFits(c: Cluster, pools: Pools) {
    forall owned :: ListOf(c, pools, owned) ==> FitsReadyList(|c.pools|, owned)
  }

  /** The write is in range for every listing if and only if there is a slot for each labelled pool or none runs. */
  lemma ReadyListFitsExactly(c: Cluster, pools: Pools)
    ensures EveryListingFits(c, pools) <==> ListIsSafe(c, pools)
  {
    if ListIsSafe(c, pools) {
      forall owned: seq<NamedPool> | ListOf(c, pools, owned) ensures FitsReadyList(|c.pools|, owned) {
        DistinctNamesAreFew(Names(owned), Labelled(c, pools));
        forall j | 0 <= j < |owned| && owned[j].status.running ensures j < |c.pools| {
          assert owned[j] in owned;
        }
      }
    } else {
      var k :| k in Labelled(c, pools) && pools[k].status.running;
      var owned := BadListing(c, pools, k);
    }
  }

  /** When nothing changed and label and owner reference agree, there are no more labelled pools than definitions. */
  lemma ReadyListFits(c: Cluster, r: Replies, pools: Pools)
    requires !ReconcilePools(c, r, pools).changed
    requires Labelled(c, pools) == Existing(c, pools).Keys
    ensures |Labelled(c, pools)| <= |c.pools| && EveryListingFits(c, pools)
  {
    UnchangedMeansNamed(c, r, pools);
    KeysAreFew(c.name, c.pools);
    FewerNames(Labelled(c, pools), Keys(c));
    assert Keys(c) == set d | d in c.pools :: c.name + "-" + d.name;
    ReadyListFitsExactly(c, pools);
  }

  lemma FewerNames(a: set<string>, b: set<string>)
    requires a <= b
    ensures |a| <= |b|
  {
    assert |b - a| == |b| - |a|;
  }

  /**
   Settled pools of distinct names and one more running pool with the label but without the owner reference: the pass
   reports no change, and some listing makes the write go out of range.
   */
  lemma StrayLabelBreaksTheList(c: Cluster, r: Replies, pools: Pools, stray: string)
    requires !ReconcilePools(c, r, pools).changed && |Keys(c)| == |c.pools|
    requires stray in Labelled(c, pools) && stray !in Existing(c, pools) && pools[stray].status.running
    ensures !EveryListingFits(c, pools)
  {
    UnchangedExactly(c, r, pools);
    FewerNames(Keys(c) + {stray}, Labelled(c, pools));
    ReadyListFitsExactly(c, pools);
  }

  /** For instance, a cluster without pools and one running pool that carries its label only. */
  lemma LoneStrayBreaksTheList(c: Cluster, r: Replies, key: string, pool: Pool)
    requires c.pools == [] && pool.owner == c.name && c.name !in pool.controllers && pool.status.running
    ensures !ReconcilePools(c, r, map[key := pool]).failed && !EveryListingFits(c, map[key := pool])
  {
    assert Existing(c, map[key := pool]) == map[];
    StrayLabelBreaksTheList(c, r, map[key := pool], key);
  }

  // ---- The phase machine ----

  datatype Vendor = Connected | UnknownVendor | Unreachable(message: string)

  /** The outcomes of the calls of one pass; `owned` is what the list calls return, in their order. */
  datatype Inputs = Inputs(
    cluster: Cluster,
    readable: bool,
    listed: bool,
    replies: Replies,
    vendor: Vendor,
    listedAgain: bool,
    listedOwned: bool,
    owned: seq<NamedPool>,
    patch: Reply)

  function Patched(stored: Status, next: Status, patch: Reply): Status {
    if patch.Lands() then next else stored
  }

  /** All pools are there, and all run. */
  predicate ComponentsReady(c: Cluster, owned: seq<NamedPool>) {
    |owned| == |c.pools| && forall p :: p in owned ==> p.status.running
  }

  function ComponentConditions(ok: bool): seq<Condition> {
    [Condition(GPU_POOL, ok, "", ""), Condition(TIME_SERIES_DATABASE, true, "", "")]
  }

  predicate ChecksVendor(s: Status, c: Cluster) {
    c.vendorHash.Some? && (s.vendorConfigHash == "" || s.vendorConfigHash != c.vendorHash.value)
  }

  function VendorLost(message: string): Condition {
    Condition(CLOUD_VENDOR_CONNECTION, false, "CloudVendorConnectionFailed", message)
  }

  const VENDOR_FOUND := Condition(CLOUD_VENDOR_CONNECTION, true, "CloudVendorConnectionOK", "")

  function WithVendor(s: Status, hash: string): Status {
    s.(vendorConfigHash := hash, conditions := SetCondition(s.conditions, VENDOR_FOUND))
  }

  /** The stored status after the last part of a pass, which a pass reaches when nothing changed. */
  function StatusUnchanged(stored: Status, i: Inputs, summary: Summary): Status {
    if stored.phase.Updating? then
      if !i.listedAgain then stored
      else if !ComponentsReady(i.cluster, i.owned) then
        Patched(stored, AsUpdating(stored.(retryCount := stored.retryCount + 1), ComponentConditions(false)), i.patch)
      else if !i.listedOwned then stored
      else Patched(stored, AsReady(stored.(retryCount := 0), ComponentConditions(true)).(summary := summary), i.patch)
    else if !i.listedOwned then stored
    else Patched(stored, AsReady(stored, []).(summary := summary), i.patch)
  }

  /** The stored status after a pass, where `summary` is what RefreshStatus computes if it is reached. */
  function StatusAfter(stored: Status, pools: Pools, i: Inputs, summary: Summary): Status {
    var diff := ReconcilePools(i.cluster, i.replies, pools);
    if !i.readable then stored
    else if stored.phase.Unset? || stored.phase.Unknown? then Patched(stored, AsPending(stored), i.patch)
    else if !i.listed || diff.failed then stored
    else
      var s := if diff.changed then AsUpdating(stored, []) else stored;
      if ChecksVendor(s, i.cluster) then
        match i.vendor
        case UnknownVendor => stored
        case Unreachable(message) => Patched(stored, AsUpdating(s, [VendorLost(message)]), i.patch)
        case Connected => Patched(stored, AsUpdating(WithVendor(s, i.cluster.vendorHash.value), []), i.patch)
      else if diff.changed then Patched(stored, s, i.patch)
      else StatusUnchanged(stored, i, summary)
  }

  /** The status is what a change of phase makes of a list with one condition per type. */
  ghost predicate ProducedFrom(s: Status, from: Status, more: seq<Condition>) {
    && OnePerType(from.conditions) && NotAboutReady(more)
    && (s == AsPending(from) || s == AsUpdating(from, more) || s.(summary := from.summary) == AsReady(from, more))
  }

  ghost predicate Produced(s: Status) {
    exists from, more :: ProducedFrom(s, from, more)
  }

  lemma ProducedCoheres(s: Status)
    requires Produced(s)
    ensures Coherent(s)
  {
    var from: Status, more :| ProducedFrom(s, from, more);
    PhaseChangesCohere(from, more, "");
    assert s.conditions == AsPending(from).conditions || s.conditions == AsUpdating(from, more).conditions
        || s.conditions == AsReady(from, more).conditions;
  }

  /** A pass that changes the status produced it by one change of phase. */
  lemma PassProduces(stored: Status, pools: Pools, i: Inputs, summary: Summary)
    requires Coherent(stored) && StatusAfter(stored, pools, i, summary) != stored
    ensures Produced(StatusAfter(stored, pools, i, summary))
  {
    var changed := ReconcilePools(i.cluster, i.replies, pools).changed;
    var s := if changed then AsUpdating(stored, []) else stored;
    var after := StatusAfter(stored, pools, i, summary);
    if stored.phase.Unset? || stored.phase.Unknown? {
      assert ProducedFrom(after, stored, []);
    } else if ChecksVendor(s, i.cluster) {
      PhaseChangesCohere(stored, [], "");
      SetConditionReports(s.conditions, VENDOR_FOUND, READY);
      if i.vendor.Connected? {
        assert ProducedFrom(after, WithVendor(s, i.cluster.vendorHash.value), []);
      } else {
        assert ProducedFrom(after, s, [VendorLost(i.vendor.message)]);
      }
    } else if changed || !stored.phase.Updating? {
      assert ProducedFrom(after, stored, []);
    } else if ComponentsReady(i.cluster, i.owned) {
      assert ProducedFrom(after, stored.(retryCount := 0), ComponentConditions(true));
    } else {
      assert ProducedFrom(after, stored.(retryCount := stored.retryCount + 1), ComponentConditions(false));
    }
  }

  lemma PassCoheres(stored: Status, pools: Pools, i: Inputs, summary: Summary)
    requires Coherent(stored)
    ensures Coherent(StatusAfter(stored, pools, i, summary))
  {
    if StatusAfter(stored, pools, i, summary) != stored {
      PassProduces(stored, pools, i, summary);
      ProducedCoheres(StatusAfter(stored, pools, i, summary));
    }
  }

  /** One pass of a run: the outcomes of its calls, the pools it finds, and the summary it would write. */
  datatype Step = Step(inputs: Inputs, pools: Pools, summary: Summary)

  function StatusOver(start: Status, steps: seq<Step>): Status {
    if steps == [] then start
    else
      var last := steps[|steps| - 1];
      StatusAfter(StatusOver(start, steps[..|steps| - 1]), last.pools, last.inputs, last.summary)
  }

  /** Over every run: one condition per type, and Ready is true exactly while the phase is Running. */
  lemma {:induction false} RunsCohere(start: Status, steps: seq<Step>)
    requires Coherent(start)
    ensures Coherent(StatusOver(start, steps))
  {
    if steps != [] {
      var last := steps[|steps| - 1];
      RunsCohere(start, steps[..|steps| - 1]);
      PassCoheres(StatusOver(start, steps[..|steps| - 1]), last.pools, last.inputs, last.summary);
    }
  }

  /** Updating ends in Running exactly when nothing changed, all pools are there and run, and the calls succeed. */
  lemma LeavesUpdatingExactly(stored: Status, pools: Pools, i: Inputs, summary: Summary)
    requires stored.phase.Updating?
    ensures var after := StatusAfter(stored, pools, i, summary);
            var diff := ReconcilePools(i.cluster, i.replies, pools);
            && (after.phase.Running? <==>
                  && i.readable && i.listed && i.listedAgain && i.listedOwned && i.patch.Lands()
                  && !diff.failed && !diff.changed && !ChecksVendor(stored, i.cluster)
                  && ComponentsReady(i.cluster, i.owned))
            && (after.phase.Running? ==> after.retryCount == 0)
            && (after.phase.Running? || after.phase.Updating?)
  {
  }

  // ---- Every transition, from the outcomes of the calls ----

  /** The vendor's configuration is not the one that was last tested. */
  predicate VendorDue(s: Status, c: Cluster) {
    c.vendorHash.Some? && (s.vendorConfigHash == "" || s.vendorConfigHash != c.vendorHash.value)
  }

  /** The pools could be brought in line with the spec. */
  predicate PoolsDone(i: Inputs, pools: Pools) {
    i.readable && i.listed && !ReconcilePools(i.cluster, i.replies, pools).failed
  }

  /** The pass reports an update: a vendor that was tested, or pools that changed. */
  predicate ReportsUpdate(stored: Status, pools: Pools, i: Inputs) {
    && PoolsDone(i, pools)
    && if VendorDue(stored, i.cluster) then !i.vendor.UnknownVendor?
       else ReconcilePools(i.cluster, i.replies, pools).changed
  }

  /** The pass finds nothing to do for pools and vendor. */
  predicate FindsNothing(stored: Status, pools: Pools, i: Inputs) {
    PoolsDone(i, pools) && !VendorDue(stored, i.cluster) && !ReconcilePools(i.cluster, i.replies, pools).changed
  }

  /** The next status has this phase and this entry for readiness; the summary and the retries are as given. */
  ghost predicate Moved(after: Status, phase: Phase, ready: Condition, retryCount: int, summary: Summary) {
    after.phase == phase && ready in after.conditions && after.retryCount == retryCount && after.summary == summary
  }

  /** A new or unknown cluster becomes Pending exactly if it can be read and the write lands. */
  lemma FromNewExactly(stored: Status, pools: Pools, i: Inputs, summary: Summary)
    requires Coherent(stored) && (stored.phase.Unset? || stored.phase.Unknown?)
    ensures var after := StatusAfter(stored, pools, i, summary);
            if i.readable && !i.patch.Rejected? then
              && Moved(after, Pending, Condition("Ready", false, "NewCreation", ""), stored.retryCount, stored.summary)
              && after.vendorConfigHash == stored.vendorConfigHash
            else after == stored
  {
    PhaseChangesWrite(stored, [], "");
  }

  /**
   A pending or running cluster becomes Updating exactly if an update is reported and the write lands, and Running with
   the new summary exactly if there is nothing to do, its pools are listed and the write lands; else its status stays.
   */
  lemma FromSettledExactly(stored: Status, pools: Pools, i: Inputs, summary: Summary)
    requires Coherent(stored) && (stored.phase.Pending? || stored.phase.Running?)
    ensures var after := StatusAfter(stored, pools, i, summary);
            if ReportsUpdate(stored, pools, i) && !i.patch.Rejected? then
              Moved(after, Updating, UPDATING, stored.retryCount, stored.summary)
            else if FindsNothing(stored, pools, i) && i.listedOwned && !i.patch.Rejected? then
              && Moved(after, Running, Condition("Ready", true, "CheckPassed", ""), stored.retryCount, summary)
              && after.vendorConfigHash == stored.vendorConfigHash
            else after == stored
  {
    hide SetCondition, SetConditions, ReconcilePools;
    if ReportsUpdate(stored, pools, i) {
      UpdateMoves(stored, pools, i, summary);
    }
    PhaseChangesWrite(stored, [], "");
  }

  /** The pools are all there and all run. */
  predicate AllRun(i: Inputs) {
    |i.owned| == |i.cluster.pools| && forall p :: p in i.owned ==> p.status.running
  }

  const UPDATING := Condition("Ready", false, "ResourcesUpdated", "")

  /** One more retry of a cluster whose pools do not all run. */
  lemma Retries(stored: Status)
    requires OnePerType(stored.conditions)
    ensures var after := AsUpdating(stored.(retryCount := stored.retryCount + 1), ComponentConditions(false));
            && Moved(after, Updating, UPDATING, stored.retryCount + 1, stored.summary)
            && after.vendorConfigHash == stored.vendorConfigHash
            && Condition(GPU_POOL, false, "StillChecking", "") in after.conditions
  {
    var more := ComponentConditions(false);
    PhaseChangesWrite(stored.(retryCount := stored.retryCount + 1), more, "");
    assert WithReasons(more, "StillChecking")[0] == Condition(GPU_POOL, false, "StillChecking", "");
  }

  /** The end of updating. */
  lemma Completes(stored: Status, summary: Summary)
    requires OnePerType(stored.conditions)
    ensures var after := AsReady(stored.(retryCount := 0), ComponentConditions(true)).(summary := summary);
            && Moved(after, Running, Condition("Ready", true, "CheckPassed", ""), 0, summary)
            && after.vendorConfigHash == stored.vendorConfigHash
            && Condition(GPU_POOL, true, "CheckPassed", "") in after.conditions
  {
    var more := ComponentConditions(true);
    PhaseChangesWrite(stored.(retryCount := 0), more, "");
    assert WithReasons(more, "CheckPassed")[0] == Condition(GPU_POOL, true, "CheckPassed", "");
  }

  /**
   An updating cluster stays so while updates are reported. With nothing to do, and its pools listed, it becomes
   Running without retries exactly if all its pools are there and run; otherwise one more retry is counted.
   */
  lemma FromUpdatingExactly(stored: Status, pools: Pools, i: Inputs, summary: Summary)
    requires Coherent(stored) && stored.phase.Updating?
    ensures var after := StatusAfter(stored, pools, i, summary);
            var idle := FindsNothing(stored, pools, i) && i.listedAgain && !i.patch.Rejected?;
            if ReportsUpdate(stored, pools, i) && !i.patch.Rejected? then
              Moved(after, Updating, UPDATING, stored.retryCount, stored.summary)
            else if idle && !AllRun(i) then
              && Moved(after, Updating, UPDATING, stored.retryCount + 1, stored.summary)
              && after.vendorConfigHash == stored.vendorConfigHash
              && Condition(GPU_POOL, false, "StillChecking", "") in after.conditions
            else if idle && i.listedOwned then
              && Moved(after, Running, Condition("Ready", true, "CheckPassed", ""), 0, summary)
              && after.vendorConfigHash == stored.vendorConfigHash
              && Condition(GPU_POOL, true, "CheckPassed", "") in after.conditions
            else after == stored
  {
    hide AsUpdating, AsReady, ReconcilePools, WithVendor, ComponentConditions;
    if ReportsUpdate(stored, pools, i) {
      UpdateMoves(stored, pools, i, summary);
    } else {
      Updated(stored, []);
      Retries(stored);
      Completes(stored, summary);
    }
  }

  lemma Updated(s: Status, more: seq<Condition>)
    requires OnePerType(s.conditions) && OnePerType(more) && NotAboutReady(more)
    ensures var after := AsUpdating(s, more);
            && OnePerType(after.conditions) && after.vendorConfigHash == s.vendorConfigHash
            && Moved(after, Updating, Condition("Ready", false, "ResourcesUpdated", ""), s.retryCount, s.summary)
            && Records(after.conditions, Condition("Ready", false, "ResourcesUpdated", ""),
                       WithReasons(more, "StillChecking"), s.conditions)
  {
    PhaseChangesWrite(s, more, "");
    PhaseChangesCohere(s, more, "");
  }

  /** A reported update moves the cluster to Updating if its write lands; it stores the hash of a tested vendor. */
  lemma UpdateMoves(stored: Status, pools: Pools, i: Inputs, summary: Summary)
    requires Coherent(stored) && !stored.phase.Unset? && !stored.phase.Unknown?
    requires ReportsUpdate(stored, pools, i)
    ensures var after := StatusAfter(stored, pools, i, summary);
            if i.patch.Rejected? then after == stored
            else
              && Moved(after, Updating, UPDATING, stored.retryCount, stored.summary)
              && after.vendorConfigHash
                 == (if VendorDue(stored, i.cluster) && i.vendor.Connected? then i.cluster.vendorHash.value
                     else stored.vendorConfigHash)
              && (VendorDue(stored, i.cluster) && i.vendor.Connected? ==>
                    Condition("CloudVendorConnectionReady", true, "CloudVendorConnectionOK", "") in after.conditions)
              && (VendorDue(stored, i.cluster) && i.vendor.Unreachable? ==>
                    Condition("CloudVendorConnectionReady", false, "CloudVendorConnectionFailed", i.vendor.message)
                      in after.conditions)
  {
    hide AsUpdating, SetCondition, ReconcilePools;
    Updated(stored, []);
    var s := if ReconcilePools(i.cluster, i.replies, pools).changed then AsUpdating(stored, []) else stored;
    if VendorDue(stored, i.cluster) {
      if i.vendor.Connected? {
        SetConditionHas(s.conditions, VENDOR_FOUND, VENDOR_FOUND);
        Updated(WithVendor(s, i.cluster.vendorHash.value), []);
      } else {
        var lost := VendorLost(i.vendor.message);
        Updated(s, [lost]);
        assert WithReasons([lost], "StillChecking")[0] == lost;
      }
    }
  }

  /** A vendor that was found is not tested again until its configuration changes. */
  lemma VendorTestedOnce(stored: Status, pools: Pools, i: Inputs, summary: Summary)
    requires Coherent(stored) && !stored.phase.Unset? && !stored.phase.Unknown?
    requires PoolsDone(i, pools) && i.vendor.Connected? && !i.patch.Rejected? && i.cluster.vendorHash != Some("")
    ensures !VendorDue(StatusAfter(stored, pools, i, summary), i.cluster)
  {
    if ReportsUpdate(stored, pools, i) {
      UpdateMoves(stored, pools, i, summary);
    } else if stored.phase.Updating? {
      FromUpdatingExactly(stored, pools, i, summary);
    } else {
      FromSettledExactly(stored, pools, i, summary);
    }
  }

  // ---- The pass as it runs ----

  class Store {
    var status: Status
    const api: ApiServer

    constructor (status: Status, api: ApiServer)
      ensures this.status == status && this.api == api
    {
      this.status, this.api := status, api;
    }

    /** Write the status unless nothing changed; `original` is the status read at the start of the pass, if compared. */
    method UpdateStatus(tfc: TensorFusionCluster, original: Option<Status>, patch: Reply)
      modifies this`status
      ensures original == Some(old(status)) || original.None? ==> status == Patched(old(status), tfc.status, patch)
    {
      if original.Some? && tfc.status == original.value {
        return;
      }
      if patch.Lands() {
        status := tfc.status;
      }
    }
  }

  /** Test the connection when the vendor's configuration changed; a failure is written at once. */
  method ReconcileCloudVendorConnection(store: Store, tfc: TensorFusionCluster, i: Inputs)
    returns (changed: bool, failed: bool)
    modifies store`status, tfc`status
    ensures changed || failed <==> ChecksVendor(old(tfc.status), i.cluster)
    ensures failed <==> ChecksVendor(old(tfc.status), i.cluster) && !i.vendor.Connected?
    ensures tfc.status == if changed && !failed then WithVendor(old(tfc.status), i.cluster.vendorHash.value)
                          else if failed && i.vendor.Unreachable?
                          then AsUpdating(old(tfc.status), [VendorLost(i.vendor.message)])
                          else old(tfc.status)
    ensures store.status == if failed && i.vendor.Unreachable? then Patched(old(store.status), tfc.status, i.patch)
                            else old(store.status)
  {
    changed, failed := false, false;
    if ChecksVendor(tfc.status, i.cluster) {
      match i.vendor {
        case UnknownVendor =>
          failed := true;
        case Unreachable(message) =>
          tfc.SetAsUpdating([VendorLost(message)]);
          store.UpdateStatus(tfc, None, i.patch);
          changed, failed := true, true;
        case Connected =>
          tfc.status := tfc.status.(vendorConfigHash := i.cluster.vendorHash.value);
          tfc.SetStatusCondition(VENDOR_FOUND);
          changed := true;
      }
    }
  }

  method CheckTFClusterComponentsReady(c: Cluster, pools: seq<NamedPool>)
    returns (allPass: bool, conditions: seq<Condition>)
    ensures allPass <==> |pools| == |c.pools| && forall p :: p in pools ==> p.status.running
    ensures conditions == ComponentConditions(allPass)
  {
    allPass, conditions := true, ComponentConditions(true);
    if |pools| != |c.pools| {
      allPass, conditions := false, conditions[0 := conditions[0].(status := false)];
    } else {
      for k := 0 to |pools|
        invariant allPass && conditions == ComponentConditions(true)
        invariant forall j :: 0 <= j < k ==> pools[j].status.running
      {
        if !pools[k].status.running {
          allPass, conditions := false, conditions[0 := conditions[0].(status := false)];
          assert pools[k] in pools;
          break;
        }
      }
    }
  }

  /** The last part of a pass: wait for the components while updating, else refresh the status. */
  method CheckAndRefresh(store: Store, tfc: TensorFusionCluster, i: Inputs) returns (summary: Summary)
    requires tfc.status == store.status && tfc.specPools == |i.cluster.pools|
    requires !tfc.status.phase.Updating? && i.listedOwned ==> FitsReadyList(tfc.specPools, i.owned)
    modifies store`status, tfc`status
    ensures store.status == StatusUnchanged(old(store.status), i, summary)
    ensures Summarizes(summary, tfc.specPools, i.owned) || summary == old(store.status).summary
    ensures store.status.summary == old(store.status).summary
         || (store.status.summary == summary && Summarizes(summary, tfc.specPools, i.owned))
  {
    var original := tfc.status;
    summary := original.summary;
    if tfc.status.phase == Updating {
      if !i.listedAgain {
        return;
      }
      var ready, conditions := CheckTFClusterComponentsReady(i.cluster, i.owned);
      if !ready {
        tfc.status := tfc.status.(retryCount := tfc.status.retryCount + 1);
        tfc.SetAsUpdating(conditions);
        store.UpdateStatus(tfc, Some(original), i.patch);
        return;
      }
      tfc.status := tfc.status.(retryCount := 0);
      tfc.SetAsReady(conditions);
      if !i.listedOwned {
        return;
      }
    } else {
      if !i.listedOwned {
        return;
      }
      tfc.SetAsReady([]);
    }
    tfc.RefreshStatus(i.owned);
    summary := tfc.status.summary;
    store.UpdateStatus(tfc, Some(original), i.patch);
  }

  /** The pass writes the ready list without having compared the number of pools with the spec. */
  predicate RefreshesUnchecked(stored: Status, pools: Pools, i: Inputs) {
    && i.readable && !stored.phase.Unset? && !stored.phase.Unknown? && !stored.phase.Updating?
    && i.listed && !ReconcilePools(i.cluster, i.replies, pools).changed
    && !ChecksVendor(stored, i.cluster) && i.listedOwned
  }

  lemma RefreshFits(stored: Status, pools: Pools, i: Inputs)
    requires ListOf(i.cluster, pools, i.owned)
    requires RefreshesUnchecked(stored, pools, i) && ListIsSafe(i.cluster, pools)
    ensures FitsReadyList(|i.cluster.pools|, i.owned)
  {
    ReadyListFitsExactly(i.cluster, pools);
  }

  method Reconcile(store: Store, i: Inputs) returns (summary: Summary)
    requires ListOf(i.cluster, store.api.pools, i.owned)
    requires RefreshesUnchecked(store.status, store.api.pools, i) ==> ListIsSafe(i.cluster, store.api.pools)
    modifies store`status, store.api
    ensures store.status == StatusAfter(old(store.status), old(store.api.pools), i, summary)
    ensures store.api.pools
         == if i.readable && i.listed && !old(store.status).phase.Unset? && !old(store.status).phase.Unknown?
            then ReconcilePools(i.cluster, i.replies, old(store.api.pools)).pools else old(store.api.pools)
    ensures Summarizes(summary, |i.cluster.pools|, i.owned) || summary == old(store.status).summary
    ensures store.status.summary == old(store.status).summary
         || (store.status.summary == summary && Summarizes(summary, |i.cluster.pools|, i.owned))
  {
    hide ReconcilePools, ListOf, ListIsSafe, FitsReadyList, SetCondition, SetConditions, StatusUnchanged, ChecksVendor;
    var c, original := i.cluster, store.status;
    summary := original.summary;
    if !i.readable {
      return;
    }
    var tfc := new TensorFusionCluster(|c.pools|, original);
    if original.phase.Unset? || original.phase.Unknown? {
      tfc.SetAsPending();
      store.UpdateStatus(tfc, Some(original), i.patch);
      return;
    }
    if !i.listed {
      return;
    }
    ghost var pools := store.api.pools;
    var poolsChanged, poolsFailed := ReconcileGPUPool(store.api, c, i.replies);
    if poolsFailed {
      return;
    }
    if poolsChanged {
      tfc.SetAsUpdating([]);
    }
    var vendorChanged, vendorFailed := ReconcileCloudVendorConnection(store, tfc, i);
    if vendorFailed {
      return;
    }
    if vendorChanged {
      tfc.SetAsUpdating([]);
    }
    if poolsChanged || vendorChanged {
      store.UpdateStatus(tfc, Some(original), i.patch);
      return;
    }
    UnchangedMeansNamed(c, i.replies, pools);
    if !tfc.status.phase.Updating? && i.listedOwned {
      RefreshFits(original, pools, i);
    }
    summary := CheckAndRefresh(store, tfc, i);
  }
}
