/** One pass of the cluster reconciler: diff the pools against the spec, then move the cluster's phase. */
module ClusterReconcile {
  import opened Calls
  import opened Resources
  import opened PoolCapacity

  // ---- Pools: stored and intended ----

  type PoolSpec = nat

  /** `owner` is the owner label, `controllers` are the names in the owner references. */
  datatype Pool = Pool(spec: PoolSpec, owner: string, controllers: set<string>, status: PoolStatus, available: Resource)

  datatype PoolDefinition = PoolDefinition(name: string, spec: PoolSpec)

  /** `ownerLabel` is what the cluster's own labels put under the owner label's key, if anything. */
  datatype Cluster = Cluster(
    name: string, ownerLabel: Option<string>, pools: seq<PoolDefinition>, vendorHash: Option<string>)

  type Pools = map<string, Pool>

  /** The replies to the writes of one pass, by pool; writes not mentioned are applied. */
  type Replies = map<string, Reply>

  function ReplyFor(r: Replies, key: string): Reply {
    if key in r then r[key] else Applied
  }

  function Key(c: Cluster, d: PoolDefinition): string {
    c.name + "-" + d.name
  }

  function Keys(c: Cluster): set<string> {
    set d | d in c.pools :: Key(c, d)
  }

  /** What List returns for the cluster: every pool that carries its label. */
  function Labelled(c: Cluster, pools: Pools): set<string> {
    set k | k in pools && pools[k].owner == c.name
  }

  /** The listed pools that also name the cluster in their owner references. */
  function Existing(c: Cluster, pools: Pools): Pools {
    map k | k in pools && pools[k].owner == c.name && c.name in pools[k].controllers :: pools[k]
  }

  const NEW_POOL_STATUS := PoolStatus(0, 0, 0, 0, Resource(0, 0), Resource(0, 0), false)

  function NewPool(c: Cluster, spec: PoolSpec): Pool {
    Pool(spec, if c.ownerLabel.Some? then c.ownerLabel.value else c.name, {c.name}, NEW_POOL_STATUS, Resource(0, 0))
  }

  // ---- The diff ----

  /** `existing` is the list read at the start; an update changes it in memory whether or not it lands. */
  datatype Diff = Diff(pools: Pools, existing: Pools, changed: bool, failed: bool)

  function UpsertOne(c: Cluster, d: PoolDefinition, r: Replies, s: Diff): Diff {
    var key := Key(c, d);
    var reply := ReplyFor(r, key);
    if key !in s.existing then
      var taken := key in s.pools;
      var pools := if reply.Lands() && !taken then s.pools[key := NewPool(c, d.spec)] else s.pools;
      Diff(pools, s.existing, true, s.failed || taken || !reply.Applied?)
    else if s.existing[key].spec != d.spec then
      var pools := if reply.Lands() && key in s.pools then s.pools[key := s.pools[key].(spec := d.spec)] else s.pools;
      var existing := s.existing[key := s.existing[key].(spec := d.spec)];
      Diff(pools, existing, true, s.failed || key !in s.pools || !reply.Applied?)
    else s
  }

  function Upserts(c: Cluster, defs: seq<PoolDefinition>, r: Replies, s: Diff): Diff {
    if defs == [] then s
    else UpsertOne(c, defs[|defs| - 1], r, Upserts(c, defs[..|defs| - 1], r, s))
  }

  /** The listed pools that the spec no longer names. */
  function Surplus(c: Cluster, s: Diff): set<string> {
    s.existing.Keys - Keys(c)
  }

  /** Surplus pools are deleted in any order. */
  function Deletes(c: Cluster, r: Replies, s: Diff, keys: set<string>): Diff {
    var gone := set k | k in keys && ReplyFor(r, k).Lands();
    Diff(s.pools - gone, s.existing, s.changed || keys != {},
         s.failed || exists k :: k in keys && !ReplyFor(r, k).Applied?)
  }

  function ReconcilePools(c: Cluster, r: Replies, pools: Pools): Diff {
    var s := Upserts(c, c.pools, r, Diff(pools, Existing(c, pools), false, false));
    Deletes(c, r, s, Surplus(c, s))
  }

  class ApiServer {
    var pools: Pools
    constructor (pools: Pools)
      ensures this.pools == pools
    {
      this.pools := pools;
    }
  }

  method ReconcileGPUPool(api: ApiServer, c: Cluster, r: Replies) returns (changed: bool, failed: bool)
    modifies api
    ensures var diff := ReconcilePools(c, r, old(api.pools));
            api.pools == diff.pools && changed == diff.changed && failed == diff.failed
  {
    changed, failed := false, false;
    var existing := Existing(c, api.pools);
    ghost var start := Diff(api.pools, existing, false, false);
    for k := 0 to |c.pools|
      invariant Diff(api.pools, existing, changed, failed) == Upserts(c, c.pools[..k], r, start)
    {
      assert c.pools[..k + 1][..k] == c.pools[..k];
      var d := c.pools[k];
      var key := Key(c, d);
      var reply := ReplyFor(r, key);
      if key !in existing {
        changed := true;
        if key in api.pools {
          failed := true;
          continue;
        }
        if reply.Lands() {
          api.pools := api.pools[key := NewPool(c, d.spec)];
        }
        if !reply.Applied? {
          failed := true;
        }
      } else if existing[key].spec != d.spec {
        existing := existing[key := existing[key].(spec := d.spec)];
        changed := true;
        if key !in api.pools {
          failed := true;
          continue;
        }
        if reply.Lands() {
          api.pools := api.pools[key := api.pools[key].(spec := d.spec)];
        }
        if !reply.Applied? {
          failed := true;
        }
      }
    }
    assert c.pools[..|c.pools|] == c.pools;
    ghost var upserted := Diff(api.pools, existing, changed, failed);
    ghost var done: set<string> := {};
    var todo := existing.Keys;
    while todo != {}
      invariant todo <= existing.Keys && done == Surplus(c, upserted) - todo
      invariant Diff(api.pools, existing, changed, failed) == Deletes(c, r, upserted, done)
    {
      var key :| key in todo;
      todo := todo - {key};
      var found := FindDefinition(c, key);
      if !found {
        ghost var before := done;
        done := done + {key};
        changed := true;
        var reply := ReplyFor(r, key);
        if reply.Lands() {
          api.pools := api.pools - {key};
        }
        if !reply.Applied? {
          failed := true;
        }
        DeleteOneMore(c, r, upserted, before, key);
      }
    }
    assert done == Surplus(c, upserted);
  }

  lemma DeleteOneMore(c: Cluster, r: Replies, s: Diff, keys: set<string>, key: string)
    ensures var before, after := Deletes(c, r, s, keys), Deletes(c, r, s, keys + {key});
            && after.pools == (if ReplyFor(r, key).Lands() then before.pools - {key} else before.pools)
            && after.changed
            && (after.failed <==> before.failed || !ReplyFor(r, key).Applied?)
  {
  }

  method FindDefinition(c: Cluster, key: string) returns (found: bool)
    ensures found <==> key in Keys(c)
  {
    for k := 0 to |c.pools|
      invariant forall d :: d in c.pools[..k] ==> Key(c, d) != key
    {
      if Key(c, c.pools[k]) == key {
        return true;
      }
    }
    found := false;
  }
}
