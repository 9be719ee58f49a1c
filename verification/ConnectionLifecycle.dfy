/** The life of one connection over every run: its phase, its GPU and its URL. */
module ConnectionLifecycle {
  import opened Resources
  import opened ConnectionProtocol
  import opened ConnectionRuns
  import opened ConnectionLedger

  /** The connection is stored before, between and after the events. */
  ghost predicate Stored(w: World, es: seq<Event>, name: string) {
    name in w.store.conns && name in Exec(w, es).store.conns && (es == [] || Stored(w, es[..|es| - 1], name))
  }

  /** Phases only move forward and the GPU never changes once set, wherever calls fail. */
  lemma {:induction false} PhasesMoveForward(w: World, es: seq<Event>, name: string)
    requires WellFormed(w) && Legal(w, es) && Stored(w, es, name)
    ensures var before, after := w.store.conns[name].status, Exec(w, es).store.conns[name].status;
            && Rank(before.phase) <= Rank(after.phase)
            && (before.gpu.Some? ==> after.gpu == before.gpu)
            && (after.gpu.Some? <==> after.phase.Starting? || after.phase.Running?)
  {
    WellFormedRun(w, es);
    assert WellFormedConnection(Exec(w, es).store.conns[name]);
    if es != [] {
      var init, last := es[..|es| - 1], es[|es| - 1];
      PhasesMoveForward(w, init, name);
      WellFormedRun(w, init);
      if last.Reconcile? {
        PassEffect(Exec(w, init), last.name, last.pick, last.script);
      }
    }
  }

  /** At some earlier point of the run the URL could be built from a worker pod that was running. */
  ghost predicate WasBacked(w: World, es: seq<Event>, name: string, url: string) {
    BackedBy(url, Exec(w, es).store.pods, name) || (es != [] && WasBacked(w, es[..|es| - 1], name, url))
  }

  /** A step makes a connection Running only with the URL of a worker pod that runs. */
  lemma StepBacks(w: World, e: Event, name: string)
    requires WellFormed(w)
    requires name in Apply(w, e).store.conns && Apply(w, e).store.conns[name].status.phase.Running?
    ensures var status := Apply(w, e).store.conns[name].status;
            || (name in w.store.conns && w.store.conns[name].status == status)
            || BackedBy(status.url, w.store.pods, name)
  {
    if e.Reconcile? {
      PassEffect(w, e.name, e.pick, e.script);
    }
  }

  /** Every Running connection carries the URL of a worker pod that was running when the URL was built. */
  lemma {:induction false} RunningWasBacked(w: World, es: seq<Event>, name: string)
    requires WellFormed(w) && Legal(w, es)
    requires name in w.store.conns ==> !w.store.conns[name].status.phase.Running?
    requires name in Exec(w, es).store.conns && Exec(w, es).store.conns[name].status.phase.Running?
    ensures WasBacked(w, es, name, Exec(w, es).store.conns[name].status.url)
  {
    if es != [] {
      hide Apply, BackedBy;
      var init, last := es[..|es| - 1], es[|es| - 1];
      var w1 := Exec(w, init);
      WellFormedRun(w, init);
      StepBacks(w1, last, name);
      var status := Exec(w, es).store.conns[name].status;
      if name in w1.store.conns && w1.store.conns[name].status == status {
        RunningWasBacked(w, init, name);
      } else {
        assert WasBacked(w, init, name, status.url);
      }
    }
  }

  /**
   Serving a connection that already has its GPU changes no quantity, cached or stored, whatever calls fail, as long
   as reading the GPU yields what is stored.
   */
  lemma ScheduledPassKeepsQuantities(w: World, name: string, pick: Option<string>, script: Script)
    requires WellFormed(w)
    requires name in w.store.conns && !w.store.conns[name].deleting && w.store.conns[name].status.gpu.Some?
    ensures var after := Pass(w, name, pick, script).world;
            after.cache == w.cache && after.store.gpus == w.store.gpus
  {
  }

  /**
   The read may also yield the informer's object, which is the scheduler's own. The last part of the pass then leaves
   the stored quantities as they are or writes the cached ones; there is no difference when the two agreed.
   */
  lemma SharedObjectWritesCache(w: World, name: string, script: Script)
    requires WellFormed(w) && name in w.store.conns && w.store.conns[name].status.gpu.Some?
    requires w.store.conns[name].status.gpu.value in w.cache
    ensures var c := w.store.conns[name];
            var g := c.status.gpu.value;
            var after := Finish(w.store, name, c.status, Some(GpuCopy(g, w.cache[g])), script).store.gpus;
            && (after == w.store.gpus || (g in w.store.gpus && after == w.store.gpus[g := w.cache[g]]))
            && (Synced(w) ==> after == w.store.gpus)
  {
    var g := w.store.conns[name].status.gpu.value;
    if g in w.store.gpus && Synced(w) {
      assert w.store.gpus[g := w.cache[g]] == w.store.gpus;
    }
  }
}
