/** What one pass does to the connection it serves, in terms of the stored objects and the replies alone. */
module ConnectionOutcomes {
  import opened Resources
  import opened SchedulerSpec
  import opened ConnectionProtocol
  import opened ConnectionRuns
  import opened ConnectionLeaks

  // ---- When an update lands ----

  predicate Written(reply: Write, acked: bool) {
    reply.Applied? || (!acked && reply.AppliedUnacked?)
  }

  /** Attempt `i` writes the connection status, and all attempts before it met a conflict there. */
  predicate StatusAt(attempts: seq<Attempt>, i: nat, acked: bool) {
    && i < |attempts|
    && (forall j :: 0 <= j <= i ==> attempts[j].getConn.Delivered?)
    && (forall j :: 0 <= j < i ==> attempts[j].putConn.Conflict?)
    && Written(attempts[i].putConn, acked)
  }

  /** The attempt meets a conflict at one write or the other. */
  predicate Conflicts(a: Attempt) {
    a.putConn.Conflict? || (a.putConn.Applied? && a.getGpu.Delivered? && a.putGpu.Conflict?)
  }

  /** Attempt `i` writes the GPU after the connection status, and all attempts before it met a conflict. */
  predicate GpuAt(attempts: seq<Attempt>, i: nat, acked: bool) {
    && i < |attempts|
    && (forall j :: 0 <= j <= i ==> attempts[j].getConn.Delivered?)
    && (forall j :: 0 <= j < i ==> Conflicts(attempts[j]))
    && attempts[i].putConn.Applied? && attempts[i].getGpu.Delivered? && Written(attempts[i].putGpu, acked)
  }

  ghost predicate StatusWritten(attempts: seq<Attempt>, acked: bool) {
    exists i: nat :: StatusAt(attempts, i, acked)
  }

  ghost predicate GpuWritten(attempts: seq<Attempt>, acked: bool) {
    exists i: nat :: GpuAt(attempts, i, acked)
  }

  lemma ShiftStatus(attempts: seq<Attempt>, i: nat, acked: bool)
    requires attempts != []
    ensures StatusAt(attempts, i + 1, acked)
       <==> attempts[0].getConn.Delivered? && attempts[0].putConn.Conflict? && StatusAt(attempts[1..], i, acked)
  {
    assert forall j :: 0 <= j < |attempts[1..]| ==> attempts[1..][j] == attempts[j + 1];
    assert forall j :: 0 < j < |attempts| ==> attempts[j] == attempts[1..][j - 1];
  }

  lemma ShiftGpu(attempts: seq<Attempt>, i: nat, acked: bool)
    requires attempts != []
    ensures GpuAt(attempts, i + 1, acked)
       <==> attempts[0].getConn.Delivered? && Conflicts(attempts[0]) && GpuAt(attempts[1..], i, acked)
  {
    assert forall j :: 0 <= j < |attempts[1..]| ==> attempts[1..][j] == attempts[j + 1];
    assert forall j :: 0 < j < |attempts| ==> attempts[j] == attempts[1..][j - 1];
  }

  lemma StatusUnfolds(attempts: seq<Attempt>, acked: bool)
    requires attempts != []
    ensures StatusWritten(attempts, acked) <==>
              && attempts[0].getConn.Delivered?
              && (Written(attempts[0].putConn, acked)
                  || (attempts[0].putConn.Conflict? && StatusWritten(attempts[1..], acked)))
  {
    if i: nat :| StatusAt(attempts, i, acked) {
      if i > 0 {
        ShiftStatus(attempts, i - 1, acked);
      }
    }
    if Written(attempts[0].putConn, acked) && attempts[0].getConn.Delivered? {
      assert StatusAt(attempts, 0, acked);
    }
    if i: nat :| StatusAt(attempts[1..], i, acked) {
      ShiftStatus(attempts, i, acked);
    }
  }

  lemma GpuUnfolds(attempts: seq<Attempt>, acked: bool)
    requires attempts != []
    ensures GpuWritten(attempts, acked) <==>
              && attempts[0].getConn.Delivered?
              && ((attempts[0].putConn.Applied? && attempts[0].getGpu.Delivered? && Written(attempts[0].putGpu, acked))
                  || (Conflicts(attempts[0]) && GpuWritten(attempts[1..], acked)))
  {
    if i: nat :| GpuAt(attempts, i, acked) {
      if i > 0 {
        ShiftGpu(attempts, i - 1, acked);
      }
    }
    if attempts[0].getConn.Delivered? && attempts[0].putConn.Applied? && attempts[0].getGpu.Delivered? {
      assert Written(attempts[0].putGpu, acked) ==> GpuAt(attempts, 0, acked);
    }
    if i: nat :| GpuAt(attempts[1..], i, acked) {
      ShiftGpu(attempts, i, acked);
    }
  }

  /** The three predicates on attempts say that some attempt writes the status, the GPU, or acknowledges both. */
  lemma {:induction false} LandsExactly(attempts: seq<Attempt>)
    ensures StatusLands(attempts) <==> StatusWritten(attempts, false)
    ensures GpuLands(attempts) <==> GpuWritten(attempts, false)
    ensures PairLands(attempts) <==> GpuWritten(attempts, true)
  {
    hide StatusAt, GpuAt, StatusWritten, GpuWritten;
    if attempts == [] {
      NothingAttempted(attempts);
    } else {
      LandsExactly(attempts[1..]);
      StatusUnfolds(attempts, false);
      GpuUnfolds(attempts, false);
      GpuUnfolds(attempts, true);
    }
  }

  lemma NothingAttempted(attempts: seq<Attempt>)
    requires attempts == []
    ensures forall acked :: !StatusWritten(attempts, acked) && !GpuWritten(attempts, acked)
  {
  }

  /** Without a GPU the update reports success exactly if some attempt's write of the status is acknowledged. */
  lemma {:induction false} PersistAloneOk(s: Store, name: string, status: Status, attempts: seq<Attempt>)
    requires name in s.conns
    ensures Persist(s, name, status, None, attempts).ok <==> StatusWritten(attempts, true)
    decreases |attempts|
  {
    hide StatusAt, StatusWritten;
    if attempts == [] {
      NothingAttempted(attempts);
    } else {
      PersistAloneOk(s, name, status, attempts[1..]);
      StatusUnfolds(attempts, true);
    }
  }

  /** With a GPU that is not stored it never does. */
  lemma {:induction false} PersistMissingGpu(
    s: Store, name: string, status: Status, gpu: GpuCopy, attempts: seq<Attempt>)
    requires name in s.conns && gpu.name !in s.gpus
    ensures !Persist(s, name, status, Some(gpu), attempts).ok
    ensures Persist(s, name, status, Some(gpu), attempts).store.gpus == s.gpus
    decreases |attempts|
  {
    if attempts != [] {
      PersistMissingGpu(s, name, status, gpu, attempts[1..]);
    }
  }

  // ---- The outcome of a pass ----

  /** The worker pod that is stored runs and has a port, and the pass sees it. */
  predicate PodRuns(s: Store, name: string, script: Script) {
    script.getPod.Delivered? && name in s.pods && s.pods[name].running && s.pods[name].port.Some?
  }

  function RunningOn(gpu: Option<string>, pod: Pod): Status
    requires pod.port.Some?
  {
    Status(Running, gpu, "native+" + pod.ip + "+" + pod.port.value)
  }

  /** A worker with the given status: Running if its pod runs. */
  lemma FinishOutcome(s: Store, name: string, status: Status, gpu: GpuCopy, script: Script)
    requires name in s.conns && !status.phase.Pending?
    ensures var r := Finish(s, name, status, Some(gpu), script);
            var starts := WorkerStarts(s, name, s.conns[name].pool, script);
            var final := if PodRuns(s, name, script) then RunningOn(status.gpu, s.pods[name]) else status;
            && r.store.conns
               == (if starts && StatusWritten(script.attempts, false)
                   then s.conns[name := s.conns[name].(status := final)] else s.conns)
            && (r.ok <==> starts && gpu.name in s.gpus && GpuWritten(script.attempts, true))
  {
    hide StatusWritten, GpuWritten, StatusLands, PairLands;
    LandsExactly(script.attempts);
    var worker := StartWorker(s, name, s.conns[name].pool, status, script);
    if gpu.name !in s.gpus {
      PersistMissingGpu(worker.store, name, worker.status, gpu, script.attempts);
    }
  }

  lemma FinishMissingGpu(s: Store, name: string, status: Status, gpu: GpuCopy, script: Script)
    requires name in s.conns && gpu.name !in s.gpus && !status.phase.Pending?
    ensures Finish(s, name, status, Some(gpu), script).store.gpus == s.gpus
  {
    var worker := StartWorker(s, name, s.conns[name].pool, status, script);
    PersistMissingGpu(worker.store, name, worker.status, gpu, script.attempts);
  }

  lemma FinishAlone(s: Store, name: string, status: Status, script: Script)
    requires name in s.conns
    ensures var r := Finish(s, name, status, None, script);
            && r.store.conns
               == (if StatusWritten(script.attempts, false)
                   then s.conns[name := s.conns[name].(status := status)] else s.conns)
            && (r.ok <==> StatusWritten(script.attempts, true))
            && r.store.pods == s.pods && r.store.gpus == s.gpus
  {
    hide StatusWritten, StatusLands;
    LandsExactly(script.attempts);
    PersistAloneOk(s, name, status, script.attempts);
  }

  /**
   A connection that has its GPU becomes Running, with the URL of its pod, exactly if every read is delivered, the GPU
   and the pool are stored, the pod runs with a port, and an attempt writes the status; otherwise its status stays.
   */
  lemma ServedOutcome(w: World, name: string, pick: Option<string>, script: Script)
    requires WellFormed(w) && name in w.store.conns
    requires !w.store.conns[name].deleting && w.store.conns[name].status.gpu.Some?
    ensures var c, s := w.store.conns[name], w.store;
            var r := Pass(w, name, pick, script);
            var inHand := script.getConn.Delivered? && script.getGpu.Delivered? && c.status.gpu.value in s.gpus;
            var becomesRunning :=
              && inHand && script.getPool.Delivered? && c.pool in s.pools
              && PodRuns(s, name, script) && StatusWritten(script.attempts, false);
            && r.world.store.conns.Keys == s.conns.Keys
            && r.world.store.conns[name]
               == c.(status := if becomesRunning then RunningOn(c.status.gpu, s.pods[name]) else c.status)
            && (c.status.phase.Starting? ==> (r.world.store.conns[name].status.phase.Running? <==> becomesRunning))
            && (r.ok <==> script.getConn.Delivered?
                          && if inHand then WorkerStarts(s, name, c.pool, script) && GpuWritten(script.attempts, true)
                             else StatusWritten(script.attempts, true))
  {
    hide StatusWritten, GpuWritten, Finish;
    var c := w.store.conns[name];
    assert WellFormedConnection(c);
    var g := c.status.gpu.value;
    if g in w.store.gpus {
      FinishOutcome(w.store, name, c.status, GpuCopy(g, w.store.gpus[g]), script);
    }
    FinishAlone(w.store, name, c.status, script);
  }

  /** A scheduled connection is Starting, or Running if its pod runs, exactly if worker starts and status lands. */
  lemma ScheduledOutcome(w: World, name: string, g: string, script: Script)
    requires WellFormed(w) && Schedules(w, name, Some(g), script)
    ensures var c, s := w.store.conns[name], w.store;
            var r := Pass(w, name, Some(g), script);
            var stored := WorkerStarts(s, name, c.pool, script) && StatusWritten(script.attempts, false);
            && r.debited == Some(g)
            && r.world.store.conns.Keys == s.conns.Keys
            && r.world.store.conns[name]
               == c.(finalizer := true,
                     status := if !stored then c.status
                               else if PodRuns(s, name, script) then RunningOn(Some(g), s.pods[name])
                               else Status(Starting, Some(g), c.status.url))
            && (r.ok <==> WorkerStarts(s, name, c.pool, script) && g in s.gpus && GpuWritten(script.attempts, true))
            && r.world.store.gpus
               == (if g in s.gpus && WorkerStarts(s, name, c.pool, script) && GpuWritten(script.attempts, false)
                   then s.gpus[g := w.cache[g].Minus(c.request)] else s.gpus)
  {
    hide Pass, StatusWritten, GpuWritten, Finish, GpuLands;
    var c := w.store.conns[name];
    var s := w.store.(conns := w.store.conns[name := c.(finalizer := true)]);
    SchedulingPassFinishes(w, name, g, script);
    var hand := GpuCopy(g, Debit(w.cache, g, c.request)[g]);
    FinishOutcome(s, name, c.status.(phase := Starting, gpu := Some(g)), hand, script);
    LandsExactly(script.attempts);
    if g in s.gpus {
      FinishWritesGpu(s, name, c.status.(phase := Starting, gpu := Some(g)), hand, script);
    } else {
      FinishMissingGpu(s, name, c.status.(phase := Starting, gpu := Some(g)), hand, script);
    }
  }

  /** A connection for which no GPU fits is Pending exactly if an attempt writes its status. */
  lemma PendingOutcome(w: World, name: string, script: Script)
    requires WellFormed(w) && AsksScheduler(w, name, script)
    ensures var c := w.store.conns[name];
            var r := Pass(w, name, None, script);
            && r.world.cache == w.cache && r.world.store.gpus == w.store.gpus
            && r.world.store.conns.Keys == w.store.conns.Keys
            && r.world.store.conns[name]
               == c.(finalizer := true,
                     status := if StatusWritten(script.attempts, false) then c.status.(phase := Pending) else c.status)
            && (r.ok <==> StatusWritten(script.attempts, true))
  {
    hide StatusWritten, Finish;
    var c := w.store.conns[name];
    assert WellFormedConnection(c);
    var s := w.store.(conns := w.store.conns[name := c.(finalizer := true)]);
    if c.finalizer {
      assert s == w.store;
    }
    FinishAlone(s, name, c.status.(phase := Pending), script);
  }

  /** Without its finalizer nothing happens to a connection but that the finalizer is added. */
  lemma FinalizerOutcome(w: World, name: string, pick: Option<string>, script: Script)
    requires script.getConn.Delivered? && name in w.store.conns
    requires !w.store.conns[name].deleting && !w.store.conns[name].finalizer && !script.addFinalizer.Applied?
    ensures var c := w.store.conns[name];
            var conns := w.store.conns[name := c.(finalizer := script.addFinalizer.AppliedUnacked?)];
            Pass(w, name, pick, script) == PassResult(w.(store := w.store.(conns := conns)), false, None, None)
  {
    assert w.store.conns[name := w.store.conns[name]] == w.store.conns;
  }

  /** A pass does nothing for a connection that is gone, that cannot be read, or that waits to be gone. */
  lemma NothingToDo(w: World, name: string, pick: Option<string>, script: Script)
    requires script.getConn.Unavailable? || name !in w.store.conns
          || (w.store.conns[name].deleting && !w.store.conns[name].finalizer)
    ensures Pass(w, name, pick, script) == PassResult(w, script.getConn.Delivered?, None, None)
  {
  }

  /**
   A connection that is being deleted goes away exactly if it is read, the removal of the finalizer lands, and no GPU is
   recorded, or the GPU is read and is gone from the store, or is registered and an attempt acknowledges both writes.
   The pass reports success exactly if then also the removal is acknowledged.
   */
  lemma DeletionOutcome(w: World, name: string, pick: Option<string>, script: Script)
    requires name in w.store.conns && w.store.conns[name].deleting && w.store.conns[name].finalizer
    ensures var c, s := w.store.conns[name], w.store;
            var r := Pass(w, name, pick, script);
            var credits :=
              && script.getConn.Delivered? && c.status.gpu.Some? && script.getGpu.Delivered?
              && c.status.gpu.value in s.gpus && c.status.gpu.value in w.cache;
            var cleaned :=
              && script.getConn.Delivered?
              && (c.status.gpu.None?
                  || (script.getGpu.Delivered?
                      && (c.status.gpu.value !in s.gpus
                          || (c.status.gpu.value in w.cache && GpuWritten(script.attempts, true)))));
            && (name !in r.world.store.conns <==>
                  cleaned && (script.removeFinalizer.Applied? || script.removeFinalizer.AppliedUnacked?))
            && (name in r.world.store.conns ==> r.world.store.conns[name] == c)
            && (r.ok <==> cleaned && script.removeFinalizer.Applied?)
            && r.debited == None && r.credited == (if credits then c.status.gpu else None)
            && r.world.store.gpus
               == (if credits && GpuWritten(script.attempts, false)
                   then s.gpus[c.status.gpu.value := w.cache[c.status.gpu.value].Plus(c.request)] else s.gpus)
  {
    hide GpuWritten, PairLands, StatusLands, GpuLands;
    LandsExactly(script.attempts);
    var c := w.store.conns[name];
    if c.status.gpu.Some? && c.status.gpu.value in w.store.gpus && c.status.gpu.value in w.cache {
      var gpu := GpuCopy(c.status.gpu.value, w.cache[c.status.gpu.value].Plus(c.request));
      PersistWritesGpu(w.store, name, c.status, gpu, script.attempts);
    }
    assert PutStatus(w.store, name, c.status).conns == w.store.conns;
  }

  // ---- Pods and stored quantities ----

  /** The pass gets to looking for the worker pod: it has a GPU in hand and can read the pool. */
  predicate LooksForPod(w: World, name: string, pick: Option<string>, script: Script) {
    && script.getConn.Delivered? && script.getPool.Delivered?
    && name in w.store.conns && !w.store.conns[name].deleting
    && (w.store.conns[name].finalizer || script.addFinalizer.Applied?)
    && w.store.conns[name].pool in w.store.pools
    && (if w.store.conns[name].status.gpu.Some?
        then script.getGpu.Delivered? && w.store.conns[name].status.gpu.value in w.store.gpus
        else pick.Some? && pick.value in w.cache)
  }

  /** The pod is created. */
  predicate CreatesPod(s: Store, name: string, script: Script) {
    && script.getPod.Delivered? && name !in s.pods && script.templateParses
    && (script.createPod.Applied? || script.createPod.AppliedUnacked?)
  }

  lemma FinishPods(s: Store, name: string, status: Status, hand: Option<GpuCopy>, script: Script)
    requires name in s.conns
    ensures var creates :=
              && !status.phase.Pending? && hand.Some? && script.getPool.Delivered? && s.conns[name].pool in s.pools
              && CreatesPod(s, name, script);
            Finish(s, name, status, hand, script).store.pods
              == if creates then s.pods[name := Pod(false, "", Some(script.port))] else s.pods
  {
    hide Persist;
  }

  /** Exactly then, if there is no pod and its creation lands, a pod that does not run yet is stored with its port. */
  lemma PodOutcome(w: World, name: string, pick: Option<string>, script: Script)
    requires WellFormed(w)
    ensures Pass(w, name, pick, script).world.store.pods
         == if LooksForPod(w, name, pick, script) && CreatesPod(w.store, name, script)
            then w.store.pods[name := Pod(false, "", Some(script.port))] else w.store.pods
  {
    hide Finish, CreatesPod, Persist;
    if script.getConn.Delivered? && name in w.store.conns && !w.store.conns[name].deleting {
      var c := w.store.conns[name];
      assert WellFormedConnection(c);
      var w1 := w.(store := w.store.(conns := w.store.conns[name := c.(finalizer := true)]));
      ServePods(w1, name, pick, script);
      SamePods(w.store, w1.store, name, script);
      if c.finalizer {
        assert w1 == w;
      }
    }
  }

  lemma SamePods(a: Store, b: Store, name: string, script: Script)
    requires a.pods == b.pods
    ensures CreatesPod(a, name, script) <==> CreatesPod(b, name, script)
  {
  }

  lemma ServePods(w: World, name: string, pick: Option<string>, script: Script)
    requires name in w.store.conns && script.getConn.Delivered?
    requires WellFormedConnection(w.store.conns[name])
    requires w.store.conns[name].finalizer && !w.store.conns[name].deleting
    ensures Serve(w, name, pick, script).world.store.pods
         == if LooksForPod(w, name, pick, script) && CreatesPod(w.store, name, script)
            then w.store.pods[name := Pod(false, "", Some(script.port))] else w.store.pods
  {
    hide Finish, CreatesPod;
    var c := w.store.conns[name];
    if !Unscheduled(c.status) {
      FinishPods(w.store, name, c.status, GpuInHand(w, c.status, None, script), script);
    } else if pick.None? || pick.value !in w.cache {
      var pending := c.status.(phase := Pending);
      FinishPods(w.store, name, pending, GpuInHand(w, pending, None, script), script);
    } else {
      var cache := Debit(w.cache, pick.value, c.request);
      var hand := Some(GpuCopy(pick.value, cache[pick.value]));
      FinishPods(w.store, name, c.status.(phase := Starting, gpu := pick), hand, script);
    }
  }
}
