/** Repeated pool passes converge on the spec, whatever writes fail on the way, and then stop writing. */
module ClusterConvergence {
  import opened Resources
  import opened PoolCapacity
  import opened ClusterReconcile

  /** Pool names in the spec differ, and the cluster's own labels do not override the owner label. */
  ghost predicate WellNamed(c: Cluster) {
    && (forall i, j :: 0 <= i < j < |c.pools| ==> c.pools[i].name != c.pools[j].name)
    && (c.ownerLabel.Some? ==> c.ownerLabel.value == c.name)
  }

  /** No stored pool sits under an intended name without belonging to the cluster. */
  ghost predicate NoIntruder(c: Cluster, pools: Pools) {
    forall k :: k in Keys(c) && k in pools ==> k in Existing(c, pools)
  }

  ghost predicate Settled(c: Cluster, pools: Pools, k: string) {
    k in Existing(c, pools) && exists d :: d in c.pools && Key(c, d) == k && d.spec == pools[k].spec
  }

  /** The pool names where the store differs from the spec: missing, with another spec, or no longer wanted. */
  ghost function Divergent(c: Cluster, pools: Pools): set<string> {
    set k | k in Keys(c) + Existing(c, pools).Keys && !Settled(c, pools, k)
  }

  /** The definition calls for a write. */
  predicate Needs(c: Cluster, existing: Pools, d: PoolDefinition) {
    Key(c, d) !in existing || existing[Key(c, d)].spec != d.spec
  }

  /** ... and the write is not acknowledged. */
  predicate Refused(c: Cluster, existing: Pools, r: Replies, d: PoolDefinition) {
    Needs(c, existing, d) && !ReplyFor(r, Key(c, d)).Applied?
  }

  predicate AnyNeeds(c: Cluster, existing: Pools, defs: seq<PoolDefinition>) {
    defs != [] && (AnyNeeds(c, existing, defs[..|defs| - 1]) || Needs(c, existing, defs[|defs| - 1]))
  }

  predicate AnyRefused(c: Cluster, existing: Pools, r: Replies, defs: seq<PoolDefinition>) {
    defs != [] && (AnyRefused(c, existing, r, defs[..|defs| - 1]) || Refused(c, existing, r, defs[|defs| - 1]))
  }

  lemma {:induction false} AnyMeans(c: Cluster, existing: Pools, r: Replies, defs: seq<PoolDefinition>)
    ensures AnyNeeds(c, existing, defs) <==> exists d :: d in defs && Needs(c, existing, d)
    ensures AnyRefused(c, existing, r, defs) <==> exists d :: d in defs && Refused(c, existing, r, d)
  {
    if defs != [] {
      AnyMeans(c, existing, r, defs[..|defs| - 1]);
      assert defs == defs[..|defs| - 1] + [defs[|defs| - 1]];
    }
  }

  lemma KeysDiffer(c: Cluster, a: PoolDefinition, b: PoolDefinition)
    ensures Key(c, a) == Key(c, b) <==> a.name == b.name
  {
    var n := |c.name| + 1;
    assert Key(c, a)[n..] == a.name && Key(c, b)[n..] == b.name;
  }

  function At(pools: Pools, k: string): Option<Pool> {
    if k in pools then Some(pools[k]) else None
  }

  /** What the upserts leave under one name. */
  ghost predicate UpsertedAt(c: Cluster, defs: seq<PoolDefinition>, r: Replies, s: Diff, k: string) {
    var after := Upserts(c, defs, r, s);
    && ((forall d :: d in defs ==> Key(c, d) != k) ==>
          At(after.pools, k) == At(s.pools, k) && At(after.existing, k) == At(s.existing, k))
    && (forall d :: d in defs && Key(c, d) == k ==> At(after.pools, k) == At(UpsertOne(c, d, r, s).pools, k))
    && after.existing.Keys == s.existing.Keys
  }

  lemma UpsertOneElsewhere(c: Cluster, d: PoolDefinition, r: Replies, s: Diff, k: string)
    ensures var after := UpsertOne(c, d, r, s);
            && after.existing.Keys == s.existing.Keys
            && (k != Key(c, d) ==> At(after.pools, k) == At(s.pools, k) && At(after.existing, k) == At(s.existing, k))
  {
  }

  lemma UpsertOneLocal(c: Cluster, d: PoolDefinition, r: Replies, a: Diff, b: Diff)
    requires At(a.pools, Key(c, d)) == At(b.pools, Key(c, d)) && At(a.existing, Key(c, d)) == At(b.existing, Key(c, d))
    ensures At(UpsertOne(c, d, r, a).pools, Key(c, d)) == At(UpsertOne(c, d, r, b).pools, Key(c, d))
  {
  }

  /** The last definition has a name of its own. */
  predicate KeysApart(c: Cluster, init: seq<PoolDefinition>, last: PoolDefinition) {
    forall d :: d in init ==> Key(c, d) != Key(c, last)
  }

  lemma EarlierKeysApart(c: Cluster, n: nat)
    requires WellNamed(c) && n < |c.pools|
    ensures KeysApart(c, c.pools[..n], c.pools[n])
  {
    hide Key;
    forall d | d in c.pools[..n] ensures Key(c, d) != Key(c, c.pools[n]) {
      KeysDiffer(c, d, c.pools[n]);
    }
  }

  lemma NothingUpserted(c: Cluster, r: Replies, s: Diff, k: string)
    ensures UpsertedAt(c, [], r, s, k)
  {
  }

  lemma UpsertsUnfold(c: Cluster, init: seq<PoolDefinition>, last: PoolDefinition, r: Replies, s: Diff)
    ensures Upserts(c, init + [last], r, s) == UpsertOne(c, last, r, Upserts(c, init, r, s))
  {
    hide UpsertOne;
    assert (init + [last])[..|init|] == init;
  }

  lemma UpsertsAtOwn(c: Cluster, init: seq<PoolDefinition>, last: PoolDefinition, r: Replies, s: Diff, k: string)
    requires UpsertedAt(c, init, r, s, k) && KeysApart(c, init, last) && Key(c, last) == k
    ensures UpsertedAt(c, init + [last], r, s, k)
  {
    hide Key, UpsertOne, Upserts, At;
    UpsertsUnfold(c, init, last, r, s);
    UpsertOneElsewhere(c, last, r, Upserts(c, init, r, s), k);
    UpsertOneLocal(c, last, r, Upserts(c, init, r, s), s);
    assert last in init + [last];
  }

  lemma UpsertsAtOther(c: Cluster, init: seq<PoolDefinition>, last: PoolDefinition, r: Replies, s: Diff, k: string)
    requires UpsertedAt(c, init, r, s, k) && Key(c, last) != k
    ensures UpsertedAt(c, init + [last], r, s, k)
  {
    hide Key, UpsertOne, Upserts, At;
    UpsertsUnfold(c, init, last, r, s);
    UpsertOneElsewhere(c, last, r, Upserts(c, init, r, s), k);
  }

  lemma UpsertsAtStep(c: Cluster, init: seq<PoolDefinition>, last: PoolDefinition, r: Replies, s: Diff, k: string)
    requires UpsertedAt(c, init, r, s, k) && KeysApart(c, init, last)
    ensures UpsertedAt(c, init + [last], r, s, k)
  {
    hide *;
    if Key(c, last) == k {
      UpsertsAtOwn(c, init, last, r, s, k);
    } else {
      UpsertsAtOther(c, init, last, r, s, k);
    }
  }

  lemma {:induction false} UpsertsAt(c: Cluster, n: nat, r: Replies, s: Diff, k: string)
    requires WellNamed(c) && n <= |c.pools|
    ensures UpsertedAt(c, c.pools[..n], r, s, k)
  {
    hide *;
    if n == 0 {
      NothingUpserted(c, r, s, k);
      assert c.pools[..n] == [];
    } else {
      var init, last := c.pools[..n - 1], c.pools[n - 1];
      UpsertsAt(c, n - 1, r, s, k);
      EarlierKeysApart(c, n - 1);
      UpsertsAtStep(c, init, last, r, s, k);
      assert c.pools[..n] == init + [last];
    }
  }

  lemma {:induction false} UpsertsFlags(c: Cluster, n: nat, r: Replies, s: Diff)
    requires WellNamed(c) && n <= |c.pools|
    requires forall k :: k in Keys(c) ==> (k in s.pools <==> k in s.existing)
    ensures var after := Upserts(c, c.pools[..n], r, s);
            && (after.changed <==> s.changed || AnyNeeds(c, s.existing, c.pools[..n]))
            && (after.failed <==> s.failed || AnyRefused(c, s.existing, r, c.pools[..n]))
  {
    if n > 0 {
      var init, last := c.pools[..n - 1], c.pools[n - 1];
      assert c.pools[..n][..n - 1] == init && c.pools[..n] == init + [last];
      UpsertsFlags(c, n - 1, r, s);
      UpsertsAt(c, n - 1, r, s, Key(c, last));
      EarlierKeysApart(c, n - 1);
      assert last in c.pools && Key(c, last) in Keys(c);
      UpsertOneFlags(c, last, r, Upserts(c, init, r, s), s);
    }
  }

  lemma UpsertOneFlags(c: Cluster, d: PoolDefinition, r: Replies, mid: Diff, s: Diff)
    requires At(mid.pools, Key(c, d)) == At(s.pools, Key(c, d))
    requires At(mid.existing, Key(c, d)) == At(s.existing, Key(c, d))
    requires Key(c, d) in s.pools <==> Key(c, d) in s.existing
    ensures UpsertOne(c, d, r, mid).changed <==> mid.changed || Needs(c, s.existing, d)
    ensures UpsertOne(c, d, r, mid).failed <==> mid.failed || Refused(c, s.existing, r, d)
  {
  }

  /** What a pass leaves under one name, as seen from there. */
  ghost predicate PassedAt(c: Cluster, r: Replies, pools: Pools, k: string) {
    var after := ReconcilePools(c, r, pools).pools;
    && (k in Divergent(c, after) <==> k in Divergent(c, pools) && !ReplyFor(r, k).Lands())
    && (k !in Divergent(c, pools) || !ReplyFor(r, k).Lands() ==> At(after, k) == At(pools, k))
    && (k in Keys(c) && k in after ==> k in Existing(c, after))
  }

  /** What one upsert leaves under its name is what the spec says, or what was there. */
  lemma UpsertOneSettles(c: Cluster, r: Replies, pools: Pools, after: Pools, d: PoolDefinition)
    requires WellNamed(c) && (Key(c, d) in pools ==> Key(c, d) in Existing(c, pools))
    requires At(after, Key(c, d))
          == At(UpsertOne(c, d, r, Diff(pools, Existing(c, pools), false, false)).pools, Key(c, d))
    ensures var k, lands := Key(c, d), ReplyFor(r, Key(c, d)).Lands();
            && (Needs(c, Existing(c, after), d) <==> Needs(c, Existing(c, pools), d) && !lands)
            && (!Needs(c, Existing(c, pools), d) || !lands ==> At(after, k) == At(pools, k))
            && (k in after ==> k in Existing(c, after))
  {
    hide Key;
  }

  lemma PassAtIntended(c: Cluster, r: Replies, pools: Pools, d: PoolDefinition)
    requires WellNamed(c) && NoIntruder(c, pools) && d in c.pools
    ensures PassedAt(c, r, pools, Key(c, d))
  {
    hide Key, UpsertOne, Upserts, Divergent, Needs;
    var k, start := Key(c, d), Diff(pools, Existing(c, pools), false, false);
    var s, after := Upserts(c, c.pools, r, start), ReconcilePools(c, r, pools).pools;
    assert c.pools[..|c.pools|] == c.pools && k in Keys(c);
    UpsertsAt(c, |c.pools|, r, start, k);
    assert At(after, k) == At(s.pools, k) == At(UpsertOne(c, d, r, start).pools, k);
    UpsertOneSettles(c, r, pools, after, d);
    SettledMeans(c, pools, d);
    SettledMeans(c, after, d);
  }

  lemma SettledMeans(c: Cluster, pools: Pools, d: PoolDefinition)
    requires WellNamed(c) && d in c.pools
    ensures Key(c, d) in Divergent(c, pools) <==> Needs(c, Existing(c, pools), d)
  {
    assert Key(c, d) in Keys(c);
    forall e | e in c.pools && Key(c, e) == Key(c, d) ensures e == d {
      KeysDiffer(c, d, e);
    }
  }

  lemma PassAtSurplus(c: Cluster, r: Replies, pools: Pools, k: string)
    requires WellNamed(c) && k !in Keys(c)
    ensures PassedAt(c, r, pools, k)
  {
    var start := Diff(pools, Existing(c, pools), false, false);
    assert c.pools[..|c.pools|] == c.pools;
    UpsertsAt(c, |c.pools|, r, start, k);
    assert forall d :: d in c.pools ==> Key(c, d) != k;
    var s, after := Upserts(c, c.pools, r, start), ReconcilePools(c, r, pools).pools;
    assert At(s.pools, k) == At(pools, k) && s.existing.Keys == Existing(c, pools).Keys;
    assert At(after, k) == if k in Existing(c, pools) && ReplyFor(r, k).Lands() then None else At(pools, k);
    assert k in Divergent(c, pools) <==> k in Existing(c, pools);
    assert k in Divergent(c, after) <==> k in Existing(c, after);
  }

  lemma PassAt(c: Cluster, r: Replies, pools: Pools, k: string)
    requires WellNamed(c) && NoIntruder(c, pools)
    ensures PassedAt(c, r, pools, k)
  {
    if k in Keys(c) {
      var d :| d in c.pools && Key(c, d) == k;
      PassAtIntended(c, r, pools, d);
    } else {
      PassAtSurplus(c, r, pools, k);
    }
  }

  /**
   What is stored under an intended name after a pass: a new pool with the spec, the owner's label and reference, and an
   empty status, if its creation lands; else the pool that was there, of which at most the spec is replaced.
   */
  lemma PassWrites(c: Cluster, r: Replies, pools: Pools, d: PoolDefinition)
    requires WellNamed(c) && NoIntruder(c, pools) && d in c.pools
    ensures var k := c.name + "-" + d.name;
            var lands := k !in r || !r[k].Rejected?;
            var created := Pool(d.spec, c.name, {c.name},
                                PoolStatus(0, 0, 0, 0, Resource(0, 0), Resource(0, 0), false), Resource(0, 0));
            At(ReconcilePools(c, r, pools).pools, k)
              == if k in pools then Some(if lands then pools[k].(spec := d.spec) else pools[k])
                 else if lands then Some(created) else None
  {
    var k, start := Key(c, d), Diff(pools, Existing(c, pools), false, false);
    assert k == c.name + "-" + d.name;
    hide Key, Upserts, Divergent, Needs;
    assert c.pools[..|c.pools|] == c.pools && k in Keys(c);
    UpsertsAt(c, |c.pools|, r, start, k);
    assert At(ReconcilePools(c, r, pools).pools, k) == At(Upserts(c, c.pools, r, start).pools, k);
  }

  /** A pool of another name stays, unless it is owned by the cluster and its deletion lands. */
  lemma PassDeletes(c: Cluster, r: Replies, pools: Pools, k: string)
    requires WellNamed(c) && forall d :: d in c.pools ==> c.name + "-" + d.name != k
    ensures var lands := k !in r || !r[k].Rejected?;
            At(ReconcilePools(c, r, pools).pools, k)
              == if k in pools && pools[k].owner == c.name && c.name in pools[k].controllers && lands then None
                 else At(pools, k)
  {
    var start := Diff(pools, Existing(c, pools), false, false);
    assert c.pools[..|c.pools|] == c.pools;
    assert forall d :: d in c.pools ==> Key(c, d) != k;
    UpsertsAt(c, |c.pools|, r, start, k);
  }

  /** The divergent pools whose write lands. */
  ghost function Landed(c: Cluster, r: Replies, pools: Pools): set<string> {
    set k | k in Divergent(c, pools) && ReplyFor(r, k).Lands()
  }

  /**
   A pass settles exactly the divergent pools whose write lands and touches no other; it reports a change exactly when
   something diverged, and an error exactly when the write for a divergent pool was not acknowledged.
   */
  lemma PassConverges(c: Cluster, r: Replies, pools: Pools)
    requires WellNamed(c) && NoIntruder(c, pools)
    ensures var diff := ReconcilePools(c, r, pools);
            && Divergent(c, diff.pools) == Divergent(c, pools) - Landed(c, r, pools)
            && (forall k :: k !in Divergent(c, pools) ==> At(diff.pools, k) == At(pools, k))
            && (diff.changed <==> Divergent(c, pools) != {})
            && (diff.failed <==> exists k :: k in Divergent(c, pools) && !ReplyFor(r, k).Applied?)
            && NoIntruder(c, diff.pools)
  {
    var diff := ReconcilePools(c, r, pools);
    forall k ensures k in Divergent(c, diff.pools) <==> k in Divergent(c, pools) && !ReplyFor(r, k).Lands() {
      PassAt(c, r, pools, k);
    }
    forall k | k !in Divergent(c, pools) ensures At(diff.pools, k) == At(pools, k) {
      PassAt(c, r, pools, k);
    }
    forall k | k in Keys(c) && k in diff.pools ensures k in Existing(c, diff.pools) {
      PassAt(c, r, pools, k);
    }
    PassFlags(c, r, pools);
  }

  lemma PassFlags(c: Cluster, r: Replies, pools: Pools)
    requires WellNamed(c) && NoIntruder(c, pools)
    ensures var diff := ReconcilePools(c, r, pools);
            && (diff.changed <==> Divergent(c, pools) != {})
            && (diff.failed <==> exists k :: k in Divergent(c, pools) && !ReplyFor(r, k).Applied?)
  {
    var existing := Existing(c, pools);
    var start := Diff(pools, existing, false, false);
    assert c.pools[..|c.pools|] == c.pools;
    UpsertsFlags(c, |c.pools|, r, start);
    AnyMeans(c, existing, r, c.pools);
    UpsertsAt(c, |c.pools|, r, start, "");
    var s := Upserts(c, c.pools, r, start);
    forall d | d in c.pools ensures Needs(c, existing, d) <==> Key(c, d) in Divergent(c, pools) {
      SettledMeans(c, pools, d);
    }
    assert Surplus(c, s) == existing.Keys - Keys(c);
    forall k | k in Divergent(c, pools)
      ensures k in Surplus(c, s) || exists d :: d in c.pools && Needs(c, existing, d) && Key(c, d) == k
    {
      if k in Keys(c) {
        var d :| d in c.pools && Key(c, d) == k;
        assert Needs(c, existing, d);
      }
    }
    assert forall k :: k in Surplus(c, s) ==> k in Divergent(c, pools);
  }

  lemma Fewer(a: set<string>, b: set<string>)
    requires b <= a
    ensures |a - b| == |a| - |b|
  {
  }

  /** Each landed write leaves one divergent pool fewer; with none refused the store is exactly the spec. */
  lemma PassCounts(c: Cluster, r: Replies, pools: Pools)
    requires WellNamed(c) && NoIntruder(c, pools)
    ensures |Divergent(c, ReconcilePools(c, r, pools).pools)| == |Divergent(c, pools)| - |Landed(c, r, pools)|
    ensures !ReconcilePools(c, r, pools).failed ==> Divergent(c, ReconcilePools(c, r, pools).pools) == {}
  {
    PassConverges(c, r, pools);
    Fewer(Divergent(c, pools), Landed(c, r, pools));
  }

  lemma SameAtEveryName(a: Pools, b: Pools)
    requires forall k :: At(a, k) == At(b, k)
    ensures a == b
  {
    forall k ensures k in a <==> k in b {
      assert At(a, k) == At(b, k);
    }
    forall k | k in a ensures a[k] == b[k] {
      assert At(a, k) == At(b, k);
    }
  }

  /** Once the store agrees with the spec, a pass writes nothing and reports nothing, whatever the replies would be. */
  lemma SettledPassIsIdle(c: Cluster, r: Replies, pools: Pools)
    requires WellNamed(c) && NoIntruder(c, pools) && Divergent(c, pools) == {}
    ensures ReconcilePools(c, r, pools).pools == pools
    ensures !ReconcilePools(c, r, pools).changed && !ReconcilePools(c, r, pools).failed
  {
    PassConverges(c, r, pools);
    SameAtEveryName(ReconcilePools(c, r, pools).pools, pools);
  }

  // ---- Runs of passes ----

  /** The pools after one pass for each of these replies. */
  function PoolsOver(c: Cluster, pools: Pools, passes: seq<Replies>): Pools {
    if passes == [] then pools
    else ReconcilePools(c, passes[|passes| - 1], PoolsOver(c, pools, passes[..|passes| - 1])).pools
  }

  /** In some pass a write under the name would land. */
  predicate LandsIn(passes: seq<Replies>, k: string) {
    exists r :: r in passes && ReplyFor(r, k).Lands()
  }

  /**
   Over any sequence of passes, whatever fails: exactly those pools stay divergent that were so at the start and whose
   write landed in none of them, and a pool that agreed with the spec is never touched.
   */
  lemma {:induction false} RunsConverge(c: Cluster, pools: Pools, passes: seq<Replies>)
    requires WellNamed(c) && NoIntruder(c, pools)
    ensures NoIntruder(c, PoolsOver(c, pools, passes))
    ensures forall k :: k in Divergent(c, PoolsOver(c, pools, passes))
                   <==> k in Divergent(c, pools) && !LandsIn(passes, k)
    ensures forall k :: k !in Divergent(c, pools) ==> At(PoolsOver(c, pools, passes), k) == At(pools, k)
  {
    if passes != [] {
      var init, last := passes[..|passes| - 1], passes[|passes| - 1];
      var mid, after := PoolsOver(c, pools, init), PoolsOver(c, pools, passes);
      RunsConverge(c, pools, init);
      PassConverges(c, last, mid);
      forall k ensures LandsIn(passes, k) <==> LandsIn(init, k) || ReplyFor(last, k).Lands() {
        assert passes == init + [last];
      }
      forall k ensures k in Divergent(c, after) <==> k in Divergent(c, mid) && !ReplyFor(last, k).Lands() {
        assert k in Landed(c, last, mid) <==> k in Divergent(c, mid) && ReplyFor(last, k).Lands();
      }
      forall k | k !in Divergent(c, pools) ensures At(after, k) == At(pools, k) {
        assert k !in Divergent(c, mid);
      }
    }
  }

  /** The store ends up as the spec says if and only if each divergent pool's write landed in some pass. */
  lemma RunsSettleExactly(c: Cluster, pools: Pools, passes: seq<Replies>)
    requires WellNamed(c) && NoIntruder(c, pools)
    ensures Divergent(c, PoolsOver(c, pools, passes)) == {}
       <==> forall k :: k in Divergent(c, pools) ==> LandsIn(passes, k)
  {
    RunsConverge(c, pools, passes);
  }

  // ---- When a pass changes nothing ----

  /** Upserts that report no change found every definition satisfied, and did nothing. */
  lemma {:induction false} UnchangedUpserts(c: Cluster, defs: seq<PoolDefinition>, r: Replies, s: Diff)
    requires !Upserts(c, defs, r, s).changed
    ensures Upserts(c, defs, r, s) == s
    ensures forall d :: d in defs ==> Key(c, d) in s.existing && s.existing[Key(c, d)].spec == d.spec
  {
    if defs != [] {
      UnchangedUpserts(c, defs[..|defs| - 1], r, s);
      assert defs == defs[..|defs| - 1] + [defs[|defs| - 1]];
    }
  }

  /** When no pass-time change is reported, every owned pool has a definition of its own name. */
  lemma UnchangedMeansNamed(c: Cluster, r: Replies, pools: Pools)
    requires !ReconcilePools(c, r, pools).changed
    ensures ReconcilePools(c, r, pools).pools == pools
    ensures Existing(c, pools).Keys <= Keys(c)
  {
    UnchangedUpserts(c, c.pools, r, Diff(pools, Existing(c, pools), false, false));
  }

  /** Each definition is met by an owned pool of its name. */
  ghost predicate AllMet(c: Cluster, existing: Pools, defs: seq<PoolDefinition>) {
    forall d :: d in defs ==> Key(c, d) in existing && existing[Key(c, d)].spec == d.spec
  }

  lemma {:induction false} MetUpserts(c: Cluster, defs: seq<PoolDefinition>, r: Replies, s: Diff)
    requires AllMet(c, s.existing, defs)
    ensures Upserts(c, defs, r, s) == s
  {
    if defs != [] {
      var init, last := defs[..|defs| - 1], defs[|defs| - 1];
      assert last in defs && defs == init + [last];
      MetUpserts(c, init, r, s);
    }
  }

  /**
   For any spec and store, whatever names repeat: a pass reports no change if and only if the owned pools are exactly
   those that the spec names and each definition's spec is the stored one. It then does nothing.
   */
  lemma UnchangedExactly(c: Cluster, r: Replies, pools: Pools)
    ensures !ReconcilePools(c, r, pools).changed
       <==> Existing(c, pools).Keys == Keys(c) && AllMet(c, Existing(c, pools), c.pools)
    ensures !ReconcilePools(c, r, pools).changed ==>
              ReconcilePools(c, r, pools) == Diff(pools, Existing(c, pools), false, false)
  {
    hide Key;
    var existing, start := Existing(c, pools), Diff(pools, Existing(c, pools), false, false);
    if !ReconcilePools(c, r, pools).changed {
      UnchangedUpserts(c, c.pools, r, start);
      forall k | k in Keys(c) ensures k in existing {
        var d :| d in c.pools && Key(c, d) == k;
      }
      forall k | k in existing ensures k in Keys(c) {
        assert k !in Surplus(c, start);
      }
      assert existing.Keys == Keys(c);
    } else if existing.Keys == Keys(c) && AllMet(c, existing, c.pools) {
      MetUpserts(c, c.pools, r, start);
    }
  }

  /** Two definitions with one name and different specs: every pass writes, for ever. */
  lemma DuplicateNamesNeverSettle(c: Cluster, r: Replies, pools: Pools, a: PoolDefinition, b: PoolDefinition)
    requires a in c.pools && b in c.pools && a.name == b.name && a.spec != b.spec
    ensures ReconcilePools(c, r, pools).changed
  {
    assert Key(c, a) == Key(c, b);
    if !ReconcilePools(c, r, pools).changed {
      UnchangedUpserts(c, c.pools, r, Diff(pools, Existing(c, pools), false, false));
    }
  }

  /** Definitions of one name have one spec. */
  predicate Agreeing(c: Cluster) {
    forall a, b :: a in c.pools && b in c.pools && a.name == b.name ==> a.spec == b.spec
  }

  /** From this store on nothing is ever written, whatever the replies would be. */
  ghost predicate Idle(c: Cluster, pools: Pools) {
    forall r :: !ReconcilePools(c, r, pools).changed
  }

  /** The pools that the spec describes. */
  ghost function Described(c: Cluster): Pools {
    map k | k in Keys(c) :: NewPool(c, Definition(c, k).spec).(owner := c.name)
  }

  /** Some definition of the name. */
  ghost function Definition(c: Cluster, k: string): (d: PoolDefinition)
    requires k in Keys(c)
    ensures d in c.pools && Key(c, d) == k
  {
    var d :| d in c.pools && Key(c, d) == k;
    d
  }

  /** Some store is idle if and only if definitions of one name have one spec; the pools described then are one. */
  lemma SettlesExactly(c: Cluster)
    ensures (exists pools :: Idle(c, pools)) <==> Agreeing(c)
    ensures Agreeing(c) ==> Idle(c, Described(c))
  {
    if Agreeing(c) {
      var pools := Described(c);
      forall d | d in c.pools ensures Key(c, d) in pools && pools[Key(c, d)].spec == d.spec {
        assert Key(c, d) in Keys(c);
        KeysDiffer(c, d, Definition(c, Key(c, d)));
      }
      assert Existing(c, pools) == pools;
      forall r ensures !ReconcilePools(c, r, pools).changed {
        UnchangedExactly(c, r, pools);
      }
      assert Idle(c, pools);
    } else {
      var a, b :| a in c.pools && b in c.pools && a.name == b.name && a.spec != b.spec;
      forall pools ensures !Idle(c, pools) {
        DuplicateNamesNeverSettle(c, map[], pools, a, b);
      }
    }
  }

  /** A definition given twice: the first pass creates the pool and fails on the repetition, and then all is idle. */
  lemma RepeatedDefinitionSettles(c: Cluster, d: PoolDefinition)
    requires c.pools == [d, d] && (c.ownerLabel.Some? ==> c.ownerLabel.value == c.name)
    ensures var first := ReconcilePools(c, map[], map[]);
            first.failed && Idle(c, first.pools)
  {
    var first, key := ReconcilePools(c, map[], map[]), Key(c, d);
    var start := Diff(map[], map[], false, false);
    assert Existing(c, map[]) == map[];
    assert [d, d] == [d] + [d] && [d] == [] + [d];
    UpsertsUnfold(c, [d], d, map[], start);
    UpsertsUnfold(c, [], d, map[], start);
    assert first.pools == map[key := NewPool(c, d.spec)];
    assert Existing(c, first.pools) == first.pools && Keys(c) == {key};
    forall r ensures !ReconcilePools(c, r, first.pools).changed {
      UnchangedExactly(c, r, first.pools);
    }
  }

  // ---- Why the hypotheses are needed ----

  /** A pool is stored under the name that is not listed for the cluster. */
  predicate Blocked(s: Diff, k: string) {
    k in s.pools && k !in s.existing
  }

  lemma BlockedStep(c: Cluster, last: PoolDefinition, r: Replies, s: Diff, k: string)
    requires Blocked(s, k)
    ensures Blocked(UpsertOne(c, last, r, s), k)
    ensures Key(c, last) == k || s.failed ==> UpsertOne(c, last, r, s).failed
  {
    hide Key;
  }

  lemma {:induction false} UpsertsBlocked(c: Cluster, defs: seq<PoolDefinition>, r: Replies, s: Diff, d: PoolDefinition)
    requires Blocked(s, Key(c, d))
    ensures Blocked(Upserts(c, defs, r, s), Key(c, d))
    ensures d in defs || s.failed ==> Upserts(c, defs, r, s).failed
  {
    hide Key, UpsertOne, Blocked;
    if defs != [] {
      var init, last := defs[..|defs| - 1], defs[|defs| - 1];
      UpsertsBlocked(c, init, r, s, d);
      BlockedStep(c, last, r, Upserts(c, init, r, s), Key(c, d));
      assert defs == init + [last];
    }
  }

  /** A stored pool under an intended name that is not listed for the cluster makes every pass fail. */
  lemma IntruderBlocks(c: Cluster, r: Replies, pools: Pools, d: PoolDefinition)
    requires d in c.pools && Key(c, d) in pools && Key(c, d) !in Existing(c, pools)
    ensures ReconcilePools(c, r, pools).failed
  {
    UpsertsBlocked(c, c.pools, r, Diff(pools, Existing(c, pools), false, false), d);
  }

  /** A pool under the name is stored, and not labelled as the cluster's. */
  predicate Foreign(c: Cluster, pools: Pools, k: string) {
    k in pools && pools[k].owner != c.name
  }

  /** The name is not listed for the cluster; if a pool is stored under it, it is a foreign one. */
  predicate NotOurs(c: Cluster, s: Diff, k: string) {
    k !in s.existing && (k in s.pools ==> Foreign(c, s.pools, k))
  }

  lemma ForeignStep(c: Cluster, last: PoolDefinition, r: Replies, s: Diff, k: string)
    requires c.ownerLabel.Some? && c.ownerLabel.value != c.name && ReplyFor(r, k).Lands() && NotOurs(c, s, k)
    ensures NotOurs(c, UpsertOne(c, last, r, s), k)
    ensures Key(c, last) == k || k in s.pools ==> k in UpsertOne(c, last, r, s).pools
  {
    hide Key;
  }

  lemma {:induction false} UpsertsCreateForeign(
    c: Cluster, defs: seq<PoolDefinition>, r: Replies, s: Diff, d: PoolDefinition)
    requires c.ownerLabel.Some? && c.ownerLabel.value != c.name
    requires ReplyFor(r, Key(c, d)).Lands() && NotOurs(c, s, Key(c, d))
    ensures NotOurs(c, Upserts(c, defs, r, s), Key(c, d))
    ensures d in defs ==> Key(c, d) in Upserts(c, defs, r, s).pools
  {
    hide Key, UpsertOne, NotOurs;
    if defs != [] {
      var init, last := defs[..|defs| - 1], defs[|defs| - 1];
      UpsertsCreateForeign(c, init, r, s, d);
      ForeignStep(c, last, r, Upserts(c, init, r, s), Key(c, d));
      assert defs == init + [last];
    }
  }

  /** When the cluster's labels override the owner label, a pool the operator itself creates is such an intruder. */
  lemma OverriddenLabelBlocks(c: Cluster, r: Replies, again: Replies, pools: Pools, d: PoolDefinition)
    requires c.ownerLabel.Some? && c.ownerLabel.value != c.name
    requires d in c.pools && Key(c, d) !in pools && ReplyFor(r, Key(c, d)).Lands()
    ensures ReconcilePools(c, again, ReconcilePools(c, r, pools).pools).failed
  {
    UpsertsCreateForeign(c, c.pools, r, Diff(pools, Existing(c, pools), false, false), d);
    assert Key(c, d) in Keys(c);
    IntruderBlocks(c, again, ReconcilePools(c, r, pools).pools, d);
  }
}
