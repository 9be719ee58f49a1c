/** Runs of the allocation protocol: reconcile passes interleaved with what users, pods and informers do. */
module ConnectionRuns {
  import opened Resources
  import opened SchedulerSpec
  import opened ConnectionProtocol

  datatype Event =
    | Reconcile(name: string, pick: Option<string>, script: Script)
    | CreateConnection(name: string, pool: string, request: Resource)
    | DeleteConnection(name: string)
    | PodReports(name: string, pod: Pod)
    | PodGone(name: string)
    | SetPools(pools: set<string>)
    | StoreGpu(gpu: string, available: Resource)
    | RemoveGpu(gpu: string)
    // Informer events; the object that arrives may carry any Available.
    | OnAdd(gpu: string, available: Resource)
    | OnUpdate(gpu: string, available: Resource)
    | OnDelete(gpu: string)

  /** The scheduler is asked during this pass. */
  predicate AsksScheduler(w: World, name: string, script: Script) {
    && script.getConn.Delivered?
    && name in w.store.conns
    && !w.store.conns[name].deleting
    && (w.store.conns[name].finalizer || script.addFinalizer.Applied?)
    && Unscheduled(w.store.conns[name].status)
  }

  ghost predicate Enabled(w: World, e: Event) {
    match e
    case Reconcile(name, pick, script) =>
      AsksScheduler(w, name, script) ==> PickAllowed(w.cache, w.store.conns[name].request, pick)
    case CreateConnection(name, _, _) => name !in w.store.conns
    case StoreGpu(g, _) => g !in w.store.gpus
    case _ => true
  }

  function Apply(w: World, e: Event): World {
    var s := w.store;
    match e
    case Reconcile(name, pick, script) => Pass(w, name, pick, script).world
    case CreateConnection(name, pool, request) =>
      w.(store := s.(conns := s.conns[name := Connection(pool, request, Status(Unset, None, ""), false, false)]))
    case DeleteConnection(name) =>
      if name !in s.conns then w
      else if s.conns[name].finalizer then w.(store := s.(conns := s.conns[name := s.conns[name].(deleting := true)]))
      else w.(store := s.(conns := s.conns - {name}))
    case PodReports(name, pod) => w.(store := s.(pods := s.pods[name := pod]))
    case PodGone(name) => w.(store := s.(pods := s.pods - {name}))
    case SetPools(pools) => w.(store := s.(pools := pools))
    case StoreGpu(g, available) => w.(store := s.(gpus := s.gpus[g := available]))
    case RemoveGpu(g) => w.(store := s.(gpus := s.gpus - {g}))
    case OnAdd(g, available) => w.(cache := w.cache[g := available])
    case OnUpdate(g, available) => w.(cache := w.cache[g := available])
    case OnDelete(g) => w.(cache := w.cache - {g})
  }

  /** The world after a sequence of events. */
  function Exec(w: World, es: seq<Event>): World {
    if es == [] then w else Apply(Exec(w, es[..|es| - 1]), es[|es| - 1])
  }

  ghost predicate Legal(w: World, es: seq<Event>) {
    es == [] || (Legal(w, es[..|es| - 1]) && Enabled(Exec(w, es[..|es| - 1]), es[|es| - 1]))
  }

  // ---- What every reachable connection looks like ----

  /** A GPU is recorded exactly while Starting or Running, and never without the finalizer. */
  predicate WellFormedConnection(c: Connection) {
    && (c.status.gpu.Some? <==> (c.status.phase.Starting? || c.status.phase.Running?))
    && (c.status.gpu.Some? ==> c.finalizer)
  }

  ghost predicate WellFormed(w: World) {
    forall k :: k in w.store.conns ==> WellFormedConnection(w.store.conns[k])
  }

  // ---- Requests recorded on a GPU ----

  /** What one connection takes of a GPU: its request if it is stored and recorded there. */
  function Share(conns: map<string, Connection>, name: string, g: string, d: Dimension): int {
    if name in conns && conns[name].status.gpu == Some(g) then conns[name].request.In(d) else 0
  }

  ghost function Sum(conns: map<string, Connection>, names: set<string>, g: string, d: Dimension): int {
    if names == {} then 0
    else
      var k :| k in names;
      Share(conns, k, g, d) + Sum(conns, names - {k}, g, d)
  }

  /** The sum of the requests of the stored connections recorded on a GPU. */
  ghost function Recorded(conns: map<string, Connection>, g: string, d: Dimension): int {
    Sum(conns, conns.Keys, g, d)
  }

  lemma {:induction false} SumSplit(
    conns: map<string, Connection>, names: set<string>, k: string, g: string, d: Dimension)
    requires k in names
    ensures Sum(conns, names, g, d) == Share(conns, k, g, d) + Sum(conns, names - {k}, g, d)
    decreases names
  {
    var j :| j in names && Sum(conns, names, g, d) == Share(conns, j, g, d) + Sum(conns, names - {j}, g, d);
    if j != k {
      SumSplit(conns, names - {j}, k, g, d);
      SumSplit(conns, names - {k}, j, g, d);
      assert names - {j} - {k} == names - {k} - {j};
    }
  }

  lemma {:induction false} SumAgrees(
    a: map<string, Connection>, b: map<string, Connection>, names: set<string>, g: string, d: Dimension)
    requires forall k :: k in names ==> Share(a, k, g, d) == Share(b, k, g, d)
    ensures Sum(a, names, g, d) == Sum(b, names, g, d)
    decreases names
  {
    if names != {} {
      var k :| k in names;
      SumSplit(a, names, k, g, d);
      SumSplit(b, names, k, g, d);
      SumAgrees(a, b, names - {k}, g, d);
    }
  }

  lemma SumWithout(conns: map<string, Connection>, name: string, g: string, d: Dimension)
    ensures Recorded(conns, g, d) == Share(conns, name, g, d) + Sum(conns, conns.Keys - {name}, g, d)
  {
    if name in conns {
      SumSplit(conns, conns.Keys, name, g, d);
    } else {
      assert conns.Keys - {name} == conns.Keys;
    }
  }

  /** When two stores differ in one connection only, so do the recorded requests. */
  lemma RecordedChange(a: map<string, Connection>, b: map<string, Connection>, name: string, g: string, d: Dimension)
    requires a.Keys - {name} == b.Keys - {name}
    requires forall k :: k in a && k != name ==> Share(a, k, g, d) == Share(b, k, g, d)
    ensures Recorded(b, g, d) == Recorded(a, g, d) + Share(b, name, g, d) - Share(a, name, g, d)
  {
    SumAgrees(a, b, a.Keys - {name}, g, d);
    SumWithout(a, name, g, d);
    SumWithout(b, name, g, d);
  }

  lemma {:induction false} SumNonNegative(conns: map<string, Connection>, names: set<string>, g: string, d: Dimension)
    requires forall k :: k in conns ==> conns[k].request.NonNegative()
    ensures Sum(conns, names, g, d) >= 0
    decreases names
  {
    if names != {} {
      var k :| k in names && Sum(conns, names, g, d) == Share(conns, k, g, d) + Sum(conns, names - {k}, g, d);
      assert Share(conns, k, g, d) >= 0;
      SumNonNegative(conns, names - {k}, g, d);
    }
  }

  // ---- The effect of one pass ----

  function Rank(phase: Phase): nat {
    match phase
    case Unset => 0
    case Pending => 1
    case Starting => 2
    case Running => 3
  }

  /** The URL is the one built from a worker pod that runs. */
  predicate BackedBy(url: string, pods: map<string, Pod>, name: string) {
    && name in pods
    && pods[name].running
    && pods[name].port.Some?
    && url == ConnectionURL(pods[name].ip, pods[name].port.value)
  }

  /** `name` keeps its spec and all others stay; its status moves forward and may gain `gpu` if it had none. */
  ghost predicate Rewrites(s: Store, after: map<string, Connection>, name: string, gpu: Option<string>)
    requires name in s.conns
  {
    var before := s.conns;
    && after.Keys == before.Keys
    && (forall k :: k in before && k != name ==> after[k] == before[k])
    && after[name].request == before[name].request
    && after[name].pool == before[name].pool
    && after[name].deleting == before[name].deleting
    && WellFormedConnection(after[name])
    && (after[name].status.gpu == before[name].status.gpu || (gpu.Some? && after[name].status.gpu == gpu))
    && Rank(before[name].status.phase) <= Rank(after[name].status.phase)
    && (after[name].status.phase.Running? && after[name].status != before[name].status ==>
          BackedBy(after[name].status.url, s.pods, name))
  }

  /** What the last part of a pass stores, if anything: the given status, or Running with a backed URL. */
  lemma FinishEffect(s: Store, name: string, status: Status, hand: Option<GpuCopy>, script: Script)
    returns (final: Status)
    requires name in s.conns
    ensures final.gpu == status.gpu && (final == status || final.phase.Running?)
    ensures status.phase.Pending? || hand.None? ==> final == status
    ensures var after := Finish(s, name, status, hand, script).store.conns;
            after == s.conns
            || (after == s.conns[name := s.conns[name].(status := final)]
                && (final != status ==> BackedBy(final.url, s.pods, name)))
  {
    final := status;
    if !status.phase.Pending? && hand.Some? {
      final := StartWorker(s, name, s.conns[name].pool, status, script).status;
    }
  }

  lemma ProceedEffect(w: World, name: string, status: Status, debited: Option<string>, script: Script)
    requires name in w.store.conns && WellFormedConnection(w.store.conns[name]) && w.store.conns[name].finalizer
    requires status.gpu.Some? <==> (status.phase.Starting? || status.phase.Running?)
    requires status.gpu == if debited.Some? then debited else w.store.conns[name].status.gpu
    requires Rank(w.store.conns[name].status.phase) <= Rank(status.phase)
    requires status.phase.Running? ==> status == w.store.conns[name].status
    ensures var r := Proceed(w, name, status, debited, script);
            && r.world.cache == w.cache && r.debited == debited && r.credited.None?
            && Rewrites(w.store, r.world.store.conns, name, debited)
  {
    var hand := GpuInHand(w, status, debited, script);
    var final := FinishEffect(w.store, name, status, hand, script);
  }

  /** Everything a pass can do, for any replies: to the one connection it serves and to the cache. */
  ghost predicate PassTouchesOnly(w: World, name: string, pick: Option<string>, r: PassResult) {
    var before, after := w.store.conns, r.world.store.conns;
    && (name !in before ==> after == before)
    && (name in before && name in after ==> Rewrites(w.store, after, name, r.debited))
    && (name !in after ==> after == before - {name})
    && (r.debited.Some? ==>
          && name in before && name in after && before[name].status.gpu.None? && r.debited == pick
          && pick.value in w.cache
          && r.world.cache == Debit(w.cache, pick.value, before[name].request))
    && (r.credited.Some? ==>
          && r.debited.None?
          && name in before && before[name].status.gpu == r.credited
          && r.credited.value in w.cache
          && r.world.cache == Credit(w.cache, r.credited.value, before[name].request))
    && (r.debited.None? && r.credited.None? ==> r.world.cache == w.cache)
  }

  lemma ServeEffect(w: World, name: string, pick: Option<string>, script: Script)
    requires name in w.store.conns && WellFormedConnection(w.store.conns[name]) && w.store.conns[name].finalizer
    ensures var r := Serve(w, name, pick, script);
            PassTouchesOnly(w, name, pick, r) && name in r.world.store.conns
  {
    var c := w.store.conns[name];
    if !Unscheduled(c.status) {
      ProceedEffect(w, name, c.status, None, script);
    } else if pick.None? || pick.value !in w.cache {
      ProceedEffect(w, name, c.status.(phase := Pending), None, script);
    } else {
      ProceedEffect(w.(cache := Debit(w.cache, pick.value, c.request)), name,
                    c.status.(phase := Starting, gpu := pick), pick, script);
    }
  }

  lemma CleanupEffect(w: World, name: string, pick: Option<string>, script: Script)
    requires name in w.store.conns && WellFormedConnection(w.store.conns[name])
    ensures PassTouchesOnly(w, name, pick, Cleanup(w, name, script))
  {
    var r := Cleanup(w, name, script);
    var conns := w.store.conns;
    assert PutStatus(w.store, name, conns[name].status).conns == conns;
    assert r.world.store.conns == conns || r.world.store.conns == conns - {name};
  }

  /** Adding the finalizer first does not enlarge what a pass may touch. */
  lemma AfterFinalizer(w: World, w1: World, name: string, pick: Option<string>, r: PassResult)
    requires name in w.store.conns && name in r.world.store.conns && w1.cache == w.cache
    requires w1.store == w.store.(conns := w.store.conns[name := w.store.conns[name].(finalizer := true)])
    requires PassTouchesOnly(w1, name, pick, r)
    ensures PassTouchesOnly(w, name, pick, r)
  {
  }

  lemma PassEffect(w: World, name: string, pick: Option<string>, script: Script)
    requires WellFormed(w)
    ensures PassTouchesOnly(w, name, pick, Pass(w, name, pick, script))
  {
    if script.getConn.Delivered? && name in w.store.conns {
      var c := w.store.conns[name];
      assert WellFormedConnection(c);
      if c.deleting {
        CleanupEffect(w, name, pick, script);
      } else if c.finalizer {
        ServeEffect(w, name, pick, script);
      } else {
        var w1 := w.(store := w.store.(conns := w.store.conns[name := c.(finalizer := true)]));
        ServeEffect(w1, name, pick, script);
        if script.addFinalizer.Applied? {
          AfterFinalizer(w, w1, name, pick, Serve(w1, name, pick, script));
        }
      }
    }
  }
}
