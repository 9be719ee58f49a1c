/** Exactly when a pass unbalances the ledger, and how far repeating such a pass goes. */
module ConnectionLeaks {
  import opened Arithmetic
  import opened Resources
  import opened SchedulerSpec
  import opened ConnectionProtocol
  import opened ConnectionRuns
  import opened ConnectionLedger

  /** The pass gets past the worker: the pool is readable, the pod exists or is created, and its URL can be built. */
  predicate WorkerStarts(s: Store, name: string, pool: string, script: Script) {
    && script.getPool.Delivered? && pool in s.pools
    && (if script.getPod.Unavailable? then true
        else if name in s.pods then s.pods[name].running ==> s.pods[name].port.Some?
        else script.templateParses && script.createPod.Applied?)
  }

  /** The pass reaches the scheduler, and the scheduler has answered with a GPU. */
  predicate Schedules(w: World, name: string, pick: Option<string>, script: Script) {
    AsksScheduler(w, name, script) && pick.Some? && pick.value in w.cache
  }

  /** With a GPU in hand, the connection status is stored if and only if the worker starts and some attempt lands it. */
  lemma FinishStores(s: Store, name: string, status: Status, hand: GpuCopy, script: Script)
    requires name in s.conns && status.phase.Starting?
    ensures var lands := WorkerStarts(s, name, s.conns[name].pool, script) && StatusLands(script.attempts);
            var final := StartWorker(s, name, s.conns[name].pool, status, script).status;
            && Finish(s, name, status, Some(hand), script).store.conns
               == (if lands then s.conns[name := s.conns[name].(status := final)] else s.conns)
            && final.gpu == status.gpu
  {
    hide StatusLands;
  }

  /** The world in which a scheduling pass finishes: the finalizer is there, the request debited. */
  lemma SchedulingPassFinishes(w: World, name: string, g: string, script: Script)
    requires Schedules(w, name, Some(g), script)
    ensures var c := w.store.conns[name];
            var s := w.store.(conns := w.store.conns[name := c.(finalizer := true)]);
            var cache := Debit(w.cache, g, c.request);
            var status := c.status.(phase := Starting, gpu := Some(g));
            var saved := Finish(s, name, status, Some(GpuCopy(g, cache[g])), script);
            Pass(w, name, Some(g), script) == PassResult(World(saved.store, cache), saved.ok, Some(g), None)
  {
    hide Finish;
    var c := w.store.conns[name];
    if c.finalizer {
      assert w.store.conns[name := c.(finalizer := true)] == w.store.conns;
    }
  }

  /** A debit is stranded if and only if the worker does not start or no attempt lands the connection status. */
  lemma StrandsExactly(w: World, name: string, g: string, script: Script, d: Dimension)
    requires WellFormed(w) && Schedules(w, name, Some(g), script)
    ensures var c := w.store.conns[name];
            var lands := WorkerStarts(w.store, name, c.pool, script) && StatusLands(script.attempts);
            && Pass(w, name, Some(g), script).debited == Some(g)
            && Entry(Strands, w, Reconcile(name, Some(g), script), g, d) == (if lands then 0 else -c.request.In(d))
            && (name in Pass(w, name, Some(g), script).world.store.conns)
            && (Pass(w, name, Some(g), script).world.store.conns[name].status.gpu == Some(g) <==> lands)
  {
    hide Pass, Finish, StatusLands;
    var c := w.store.conns[name];
    var s := w.store.(conns := w.store.conns[name := c.(finalizer := true)]);
    assert WellFormedConnection(c);
    SchedulingPassFinishes(w, name, g, script);
    var hand := GpuCopy(g, Debit(w.cache, g, c.request)[g]);
    FinishStores(s, name, c.status.(phase := Starting, gpu := Some(g)), hand, script);
  }

  /** The hook of this pass gives the request back to the scheduler. */
  predicate Credits(w: World, name: string, g: string, script: Script) {
    && script.getConn.Delivered? && script.getGpu.Delivered?
    && name in w.store.conns && w.store.conns[name].deleting && w.store.conns[name].finalizer
    && w.store.conns[name].status.gpu == Some(g)
    && g in w.store.gpus && g in w.cache
  }

  /** A release keeps the ledger balanced if and only if the same pass lands the removal of the finalizer. */
  lemma ReleaseMatchesExactly(w: World, name: string, g: string, script: Script, d: Dimension)
    requires WellFormed(w) && Credits(w, name, g, script)
    ensures var c := w.store.conns[name];
            var lands := PairLands(script.attempts) && script.removeFinalizer.Lands();
            && Pass(w, name, None, script).credited == Some(g)
            && Entry(Releases, w, Reconcile(name, None, script), g, d) == (if lands then 0 else c.request.In(d))
            && (name !in Pass(w, name, None, script).world.store.conns <==> lands)
  {
  }

  // ---- Repeating a pass that fails ----

  function Repeat(e: Event, n: nat): (es: seq<Event>) {
    seq(n, _ => e)
  }

  lemma RepeatUnfolds(e: Event, n: nat)
    requires n > 0
    ensures var es := Repeat(e, n);
            es != [] && es[|es| - 1] == e && es[..|es| - 1] == Repeat(e, n - 1)
  {
  }

  lemma DrainsOnce(w: World, name: string, g: string, script: Script)
    requires WellFormed(w) && Schedules(w, name, Some(g), script)
    requires w.store.conns[name].finalizer && w.store.conns[name].pool !in w.store.pools
    ensures Pass(w, name, Some(g), script).world == w.(cache := Debit(w.cache, g, w.store.conns[name].request))
  {
  }

  /**
   A connection whose pool does not exist takes its request from the cache again on every retry, and nothing is
   ever recorded for it, until the GPU no longer fits.
   */
  lemma {:induction false} MissingPoolDrains(w: World, name: string, g: string, script: Script, n: nat)
    requires WellFormed(w) && Schedules(w, name, Some(g), script)
    requires w.store.conns[name].finalizer && w.store.conns[name].pool !in w.store.pools
    requires forall d :: n * w.store.conns[name].request.In(d) <= w.cache[g].In(d)
    requires w.store.conns[name].request.NonNegative()
    ensures var es := Repeat(Reconcile(name, Some(g), script), n);
            && Legal(w, es)
            && Exec(w, es).store == w.store
            && Exec(w, es).cache.Keys == w.cache.Keys
            && forall d :: Exec(w, es).cache[g].In(d) == w.cache[g].In(d) - n * w.store.conns[name].request.In(d)
  {
    if n > 0 {
      hide Pass;
      var e, request := Reconcile(name, Some(g), script), w.store.conns[name].request;
      RepeatUnfolds(e, n);
      forall d ensures n * request.In(d) == (n - 1) * request.In(d) + request.In(d) && request.In(d) >= 0 {
        OneMore(n, request.In(d));
      }
      MissingPoolDrains(w, name, g, script, n - 1);
      var w1 := Exec(w, Repeat(e, n - 1));
      assert w1.cache[g].Covers(request) by {
        assert w1.cache[g].In(Tflops) >= request.In(Tflops) && w1.cache[g].In(Vram) >= request.In(Vram);
      }
      DrainsOnce(w1, name, g, script);
      forall d ensures Apply(w1, e).cache[g].In(d) == w1.cache[g].In(d) - request.In(d) {
      }
    }
  }

  lemma RefusedCleanup(w: World, name: string, g: string, script: Script)
    requires WellFormed(w) && Credits(w, name, g, script) && !script.removeFinalizer.Lands()
    ensures var w1 := Pass(w, name, None, script).world;
            && w1.cache == Credit(w.cache, g, w.store.conns[name].request)
            && w1.store.conns == w.store.conns && w1.store.gpus.Keys == w.store.gpus.Keys
            && w1.store.pods == w.store.pods && w1.store.pools == w.store.pools
            && Credits(w1, name, g, script)
  {
  }

  /** As long as the removal of the finalizer is refused, every retry gives the request back once more. */
  lemma {:induction false} RepeatedReleaseInflates(
    w: World, name: string, g: string, script: Script, n: nat, d: Dimension)
    requires WellFormed(w) && Credits(w, name, g, script) && !script.removeFinalizer.Lands()
    ensures var es := Repeat(Reconcile(name, None, script), n);
            && Legal(w, es)
            && Credits(Exec(w, es), name, g, script)
            && Exec(w, es).store.conns == w.store.conns
            && Exec(w, es).cache[g].In(d) == w.cache[g].In(d) + n * w.store.conns[name].request.In(d)
  {
    if n > 0 {
      var e, c := Reconcile(name, None, script), w.store.conns[name];
      RepeatUnfolds(e, n);
      RepeatedReleaseInflates(w, name, g, script, n - 1, d);
      var w1 := Exec(w, Repeat(e, n - 1));
      RefusedCleanup(w1, name, g, script);
      OneMore(n, c.request.In(d));
    }
  }

  // ---- Two runs that over-commit a GPU ----

  /** This pass schedules the connection on the GPU and its status lands. */
  predicate Records(w: World, name: string, g: string, script: Script) {
    && Schedules(w, name, Some(g), script)
    && WorkerStarts(w.store, name, w.store.conns[name].pool, script)
    && StatusLands(script.attempts)
  }

  lemma RecordsRequest(w: World, name: string, g: string, script: Script, d: Dimension)
    requires WellFormed(w) && Records(w, name, g, script)
    ensures var w1 := Pass(w, name, Some(g), script).world;
            && w1.cache == Debit(w.cache, g, w.store.conns[name].request)
            && Recorded(w1.store.conns, g, d) == Recorded(w.store.conns, g, d) + w.store.conns[name].request.In(d)
  {
    var w1 := Pass(w, name, Some(g), script).world;
    assert WellFormedConnection(w.store.conns[name]);
    StrandsExactly(w, name, g, script, d);
    PassEffect(w, name, Some(g), script);
    RecordedChange(w.store.conns, w1.store.conns, name, g, d);
  }

  /** One refused finalizer removal is enough: the GPU still held by `a` is handed to `b` as well. */
  lemma DoubleReleaseOverCommits(w: World, a: string, sa: Script, b: string, sb: Script, g: string, d: Dimension)
    requires WellFormed(w) && a != b
    requires Credits(w, a, g, sa) && !sa.removeFinalizer.Lands()
    requires Records(w, b, g, sb) && w.store.conns[b].request == w.store.conns[a].request
    requires w.cache[g].NonNegative()
    ensures var es := [Reconcile(a, None, sa), Reconcile(b, Some(g), sb)];
            && Legal(w, es)
            && g in Exec(w, es).cache && Exec(w, es).cache[g] == w.cache[g]
            && Recorded(Exec(w, es).store.conns, g, d) == Recorded(w.store.conns, g, d) + w.store.conns[a].request.In(d)
  {
    hide Pass;
    var e1, e2 := Reconcile(a, None, sa), Reconcile(b, Some(g), sb);
    var w1 := Apply(w, e1);
    TwoEvents(w, e1, e2);
    RefusedCleanup(w, a, g, sa);
    assert w1.cache[g].Covers(w.store.conns[b].request);
    RecordsRequest(w1, b, g, sb, d);
  }

  lemma {:induction false} LostGpuWrite(
    s: Store, name: string, status: Status, gpu: Option<GpuCopy>, attempts: seq<Attempt>)
    requires name in s.conns
    requires forall i :: 0 <= i < |attempts| ==> !attempts[i].putGpu.Lands()
    ensures Persist(s, name, status, gpu, attempts).store.gpus == s.gpus
    decreases |attempts|
  {
    if attempts != [] {
      LostGpuWrite(s, name, status, gpu, attempts[1..]);
      LostGpuWrite(PutStatus(s, name, status), name, status, gpu, attempts[1..]);
    }
  }

  /** Some attempt writes the GPU, acknowledged or not, before the update gives up. */
  predicate GpuLands(attempts: seq<Attempt>) {
    && attempts != []
    && attempts[0].getConn.Delivered?
    && (if attempts[0].putConn.Conflict? then GpuLands(attempts[1..])
        else
          && attempts[0].putConn.Applied? && attempts[0].getGpu.Delivered?
          && (attempts[0].putGpu.Lands() || (attempts[0].putGpu.Conflict? && GpuLands(attempts[1..]))))
  }

  lemma {:induction false} PersistWritesGpu(
    s: Store, name: string, status: Status, gpu: GpuCopy, attempts: seq<Attempt>)
    requires name in s.conns && gpu.name in s.gpus
    ensures Persist(s, name, status, Some(gpu), attempts).store.gpus
         == if GpuLands(attempts) then s.gpus[gpu.name := gpu.available] else s.gpus
    decreases |attempts|
  {
    if attempts != [] {
      PersistWritesGpu(s, name, status, gpu, attempts[1..]);
      PersistWritesGpu(PutStatus(s, name, status), name, status, gpu, attempts[1..]);
    }
  }

  lemma FinishWritesGpu(s: Store, name: string, status: Status, gpu: GpuCopy, script: Script)
    requires name in s.conns && gpu.name in s.gpus && status.phase.Starting?
    ensures var lands := WorkerStarts(s, name, s.conns[name].pool, script) && GpuLands(script.attempts);
            Finish(s, name, status, Some(gpu), script).store.gpus
              == if lands then s.gpus[gpu.name := gpu.available] else s.gpus
  {
    hide GpuLands, Persist;
    var worker := StartWorker(s, name, s.conns[name].pool, status, script);
    PersistWritesGpu(worker.store, name, worker.status, gpu, script.attempts);
  }

  /**
   From stored quantities that agree with the cached ones, a pass that schedules a request other than nothing keeps
   them in agreement if and only if the worker starts and some attempt lands the write of the GPU.
   */
  lemma PartsExactly(w: World, name: string, g: string, script: Script)
    requires Synced(w) && Schedules(w, name, Some(g), script) && g in w.store.gpus
    requires w.store.conns[name].request != Resource(0, 0)
    ensures Synced(Pass(w, name, Some(g), script).world)
       <==> WorkerStarts(w.store, name, w.store.conns[name].pool, script) && GpuLands(script.attempts)
  {
    hide Pass, Finish, GpuLands;
    var c := w.store.conns[name];
    var s := w.store.(conns := w.store.conns[name := c.(finalizer := true)]);
    var debited := Debit(w.cache, g, c.request);
    SchedulingPassFinishes(w, name, g, script);
    FinishWritesGpu(s, name, c.status.(phase := Starting, gpu := Some(g)), GpuCopy(g, debited[g]), script);
    assert debited[g] != w.cache[g];
  }

  lemma {:induction false} NoGpuLands(attempts: seq<Attempt>)
    requires forall i :: 0 <= i < |attempts| ==> !attempts[i].putGpu.Lands()
    ensures !GpuLands(attempts)
  {
    if attempts != [] {
      NoGpuLands(attempts[1..]);
    }
  }

  lemma PassWithoutGpuWrite(w: World, name: string, g: string, script: Script)
    requires Schedules(w, name, Some(g), script) && g in w.store.gpus
    requires forall i :: 0 <= i < |script.attempts| ==> !script.attempts[i].putGpu.Lands()
    ensures Pass(w, name, Some(g), script).world.store.gpus == w.store.gpus
  {
    hide Pass, Finish, GpuLands;
    var c := w.store.conns[name];
    var s := w.store.(conns := w.store.conns[name := c.(finalizer := true)]);
    var debited := Debit(w.cache, g, c.request);
    SchedulingPassFinishes(w, name, g, script);
    FinishWritesGpu(s, name, c.status.(phase := Starting, gpu := Some(g)), GpuCopy(g, debited[g]), script);
    NoGpuLands(script.attempts);
  }

  /** An informer event with the GPU as stored before the pass forgets the debit, whatever the pass wrote. */
  lemma EarlierEventOverCommits(w: World, name: string, script: Script, g: string, d: Dimension)
    requires WellFormed(w) && Synced(w) && g in w.store.gpus
    requires Records(w, name, g, script) && w.cache[g].Covers(w.store.conns[name].request)
    ensures var es := [Reconcile(name, Some(g), script), OnUpdate(g, w.store.gpus[g])];
            && Legal(w, es)
            && g in Exec(w, es).cache && Exec(w, es).cache[g] == w.cache[g]
            && Recorded(Exec(w, es).store.conns, g, d)
               == Recorded(w.store.conns, g, d) + w.store.conns[name].request.In(d)
  {
    hide Pass;
    TwoEvents(w, Reconcile(name, Some(g), script), OnUpdate(g, w.store.gpus[g]));
    RecordsRequest(w, name, g, script, d);
  }

  /**
   A late event: no call fails, the debit is stored, and then the informer delivers the value stored before the pass.
   The debit is lost from the cache, while the store still has it.
   */
  lemma LateEventOverCommits(w: World, name: string, script: Script, g: string, d: Dimension)
    requires WellFormed(w) && Synced(w) && g in w.store.gpus
    requires Schedules(w, name, Some(g), script) && Pass(w, name, Some(g), script).ok
    requires w.cache[g].Covers(w.store.conns[name].request)
    ensures var es := [Reconcile(name, Some(g), script), OnUpdate(g, w.store.gpus[g])];
            && Legal(w, es)
            && g in Exec(w, es).cache && Exec(w, es).cache[g] == w.cache[g]
            && g in Exec(w, es).store.gpus
            && Exec(w, es).store.gpus[g] == w.cache[g].Minus(w.store.conns[name].request)
            && Recorded(Exec(w, es).store.conns, g, d)
               == Recorded(w.store.conns, g, d) + w.store.conns[name].request.In(d)
  {
    OkPassRecords(w, name, script, g);
    EarlierEventOverCommits(w, name, script, g, d);
    hide Pass;
    TwoEvents(w, Reconcile(name, Some(g), script), OnUpdate(g, w.store.gpus[g]));
  }

  /** A pass that schedules and reports no error has stored the status and the debited quantities. */
  lemma OkPassRecords(w: World, name: string, script: Script, g: string)
    requires WellFormed(w) && g in w.store.gpus
    requires Schedules(w, name, Some(g), script) && Pass(w, name, Some(g), script).ok
    ensures Records(w, name, g, script)
    ensures var after := Pass(w, name, Some(g), script).world.store.gpus;
            g in after && after[g] == w.cache[g].Minus(w.store.conns[name].request)
  {
  }

  /** A GPU write that does not land, followed by an informer event with the stored GPU, forgets the debit. */
  lemma StaleRefreshOverCommits(w: World, name: string, script: Script, g: string, d: Dimension)
    requires WellFormed(w) && Synced(w) && g in w.store.gpus
    requires Records(w, name, g, script) && w.cache[g].Covers(w.store.conns[name].request)
    requires forall i :: 0 <= i < |script.attempts| ==> !script.attempts[i].putGpu.Lands()
    ensures var es := [Reconcile(name, Some(g), script), OnUpdate(g, w.store.gpus[g])];
            && Legal(w, es)
            && Exec(w, es[..1]).store.gpus == w.store.gpus
            && g in Exec(w, es).cache && Exec(w, es).cache[g] == w.cache[g]
            && Recorded(Exec(w, es).store.conns, g, d)
               == Recorded(w.store.conns, g, d) + w.store.conns[name].request.In(d)
  {
    EarlierEventOverCommits(w, name, script, g, d);
    PassWithoutGpuWrite(w, name, g, script);
    hide Pass;
    TwoEvents(w, Reconcile(name, Some(g), script), OnUpdate(g, w.store.gpus[g]));
  }

  lemma TwoEvents(w: World, e1: Event, e2: Event)
    ensures Exec(w, [e1, e2]) == Apply(Apply(w, e1), e2)
    ensures Exec(w, [e1, e2][..1]) == Apply(w, e1)
    ensures Legal(w, [e1, e2]) <==> Enabled(w, e1) && Enabled(Apply(w, e1), e2)
  {
    var es := [e1, e2];
    assert es[..1] == [e1];
    assert [e1][..0] == [];
    assert Exec(w, []) == w && Legal(w, []);
    assert Exec(w, [e1]) == Apply(w, e1) && (Legal(w, [e1]) <==> Enabled(w, e1));
  }
}
