/**
 The resource ledger over every run: what the scheduler has left on a GPU, plus what stored connections hold there,
 changes only by debits that were never recorded, by releases out of step with removals, and by informer events.
 */
module ConnectionLedger {
  import opened Resources
  import opened ConnectionProtocol
  import opened ConnectionRuns

  // ---- The entries of the ledger ----

  /** What the cache has left on a GPU plus what the stored connections hold there. */
  ghost function Balance(w: World, g: string, d: Dimension): int
    requires g in w.cache
  {
    w.cache[g].In(d) + Recorded(w.store.conns, g, d)
  }

  datatype Cause = Strands | Releases | Drifts

  /** How one event moves the balance of a GPU, by cause. */
  function Entry(cause: Cause, w: World, e: Event, g: string, d: Dimension): int {
    var after := Apply(w, e).store.conns;
    match (cause, e)
    case (Strands, Reconcile(name, pick, script)) =>
      // a debit whose connection status did not land
      var r := Pass(w, name, pick, script);
      if r.debited == Some(g) && name in w.store.conns && !(name in after && after[name].status.gpu == Some(g))
      then -w.store.conns[name].request.In(d) else 0
    case (Releases, Reconcile(name, pick, script)) =>
      // a credit, less the removal of a recorded connection
      var r := Pass(w, name, pick, script);
      (if r.credited == Some(g) && name in w.store.conns then w.store.conns[name].request.In(d) else 0)
      - (if name !in after then Share(w.store.conns, name, g, d) else 0)
    case (Drifts, OnAdd(h, available)) => if h == g && g in w.cache then available.In(d) - w.cache[g].In(d) else 0
    case (Drifts, OnUpdate(h, available)) => if h == g && g in w.cache then available.In(d) - w.cache[g].In(d) else 0
    case _ => 0
  }

  function Total(cause: Cause, w: World, es: seq<Event>, g: string, d: Dimension): int {
    if es == [] then 0
    else
      var init := es[..|es| - 1];
      Total(cause, w, init, g, d) + Entry(cause, Exec(w, init), es[|es| - 1], g, d)
  }

  /** The GPU is registered with the scheduler before, between and after the events. */
  ghost predicate Registered(w: World, es: seq<Event>, g: string) {
    g in w.cache && g in Exec(w, es).cache && (es == [] || Registered(w, es[..|es| - 1], g))
  }

  // ---- The ledger theorem ----

  lemma WellFormedStep(w: World, e: Event)
    requires WellFormed(w)
    ensures WellFormed(Apply(w, e))
  {
    match e
    case Reconcile(name, pick, script) =>
      PassEffect(w, name, pick, script);
    case _ =>
  }

  lemma {:induction false} WellFormedRun(w: World, es: seq<Event>)
    requires WellFormed(w)
    ensures WellFormed(Exec(w, es))
  {
    if es != [] {
      WellFormedRun(w, es[..|es| - 1]);
      WellFormedStep(Exec(w, es[..|es| - 1]), es[|es| - 1]);
    }
  }


  lemma PassBalance(w: World, e: Event, g: string, d: Dimension)
    requires WellFormed(w) && e.Reconcile? && g in w.cache
    ensures g in Apply(w, e).cache
    ensures Balance(Apply(w, e), g, d) == Balance(w, g, d) + Entry(Strands, w, e, g, d) + Entry(Releases, w, e, g, d)
  {
    hide Pass;
    PassEffect(w, e.name, e.pick, e.script);
    RecordedChange(w.store.conns, Apply(w, e).store.conns, e.name, g, d);
  }

  lemma StepBalance(w: World, e: Event, g: string, d: Dimension)
    requires WellFormed(w) && Enabled(w, e) && g in w.cache && g in Apply(w, e).cache
    ensures Balance(Apply(w, e), g, d)
         == Balance(w, g, d) + Entry(Strands, w, e, g, d) + Entry(Releases, w, e, g, d) + Entry(Drifts, w, e, g, d)
  {
    hide Pass;
    if e.Reconcile? {
      PassBalance(w, e, g, d);
    } else if e.CreateConnection? || e.DeleteConnection? {
      RecordedChange(w.store.conns, Apply(w, e).store.conns, e.name, g, d);
      assert e.name in w.store.conns ==> WellFormedConnection(w.store.conns[e.name]);
    }
  }

  /** Over every run in which the GPU stays registered, whatever calls fail. */
  lemma {:induction false} LedgerHolds(w: World, es: seq<Event>, g: string, d: Dimension)
    requires WellFormed(w) && Legal(w, es) && Registered(w, es, g)
    ensures Balance(Exec(w, es), g, d)
         == Balance(w, g, d) + Total(Strands, w, es, g, d) + Total(Releases, w, es, g, d) + Total(Drifts, w, es, g, d)
  {
    if es != [] {
      var init := es[..|es| - 1];
      LedgerHolds(w, init, g, d);
      WellFormedRun(w, init);
      StepBalance(Exec(w, init), es[|es| - 1], g, d);
    }
  }

  // ---- Runs in which releases match removals: capacity can be stranded, never over-committed ----

  /** Requests and cached quantities are not negative. */
  ghost predicate Solvent(w: World) {
    && (forall k :: k in w.store.conns ==> w.store.conns[k].request.NonNegative())
    && (forall g :: g in w.cache ==> w.cache[g].NonNegative())
  }

  predicate NonNegativeInput(e: Event) {
    match e
    case CreateConnection(_, _, request) => request.NonNegative()
    case StoreGpu(_, available) => available.NonNegative()
    case OnAdd(_, available) => available.NonNegative()
    case OnUpdate(_, available) => available.NonNegative()
    case _ => true
  }

  /** A release happens only in a pass that also removes the connection; informer events do not revise the cache. */
  predicate Matched(w: World, e: Event) {
    match e
    case Reconcile(name, pick, script) =>
      var r := Pass(w, name, pick, script);
      r.credited.Some? ==> name !in r.world.store.conns
    case OnAdd(g, available) => g in w.cache ==> available == w.cache[g]
    case OnUpdate(g, available) => g in w.cache ==> available == w.cache[g]
    case _ => true
  }

  ghost predicate MatchedRun(w: World, es: seq<Event>) {
    es == []
    || (MatchedRun(w, es[..|es| - 1])
        && Matched(Exec(w, es[..|es| - 1]), es[|es| - 1]))
  }

  lemma SolventStep(w: World, e: Event)
    requires WellFormed(w) && Solvent(w) && Enabled(w, e) && NonNegativeInput(e)
    ensures Solvent(Apply(w, e))
  {
    if e.Reconcile? {
      PassEffect(w, e.name, e.pick, e.script);
    }
  }

  ghost predicate NonNegativeRun(es: seq<Event>) {
    forall i :: 0 <= i < |es| ==> NonNegativeInput(es[i])
  }

  lemma {:induction false} SolventRun(w: World, es: seq<Event>)
    requires WellFormed(w) && Solvent(w) && Legal(w, es) && NonNegativeRun(es)
    ensures Solvent(Exec(w, es))
  {
    if es != [] {
      SolventRun(w, es[..|es| - 1]);
      WellFormedRun(w, es[..|es| - 1]);
      SolventStep(Exec(w, es[..|es| - 1]), es[|es| - 1]);
    }
  }

  lemma {:induction false} MatchedEntries(w: World, es: seq<Event>, g: string, d: Dimension)
    requires WellFormed(w) && Solvent(w) && Legal(w, es) && NonNegativeRun(es) && MatchedRun(w, es)
    ensures Total(Strands, w, es, g, d) <= 0 && Total(Releases, w, es, g, d) <= 0 && Total(Drifts, w, es, g, d) == 0
  {
    if es != [] {
      var init, last := es[..|es| - 1], es[|es| - 1];
      MatchedEntries(w, init, g, d);
      WellFormedRun(w, init);
      SolventRun(w, init);
      if last.Reconcile? {
        PassEffect(Exec(w, init), last.name, last.pick, last.script);
      }
    }
  }

  /**
   However many schedule-side calls fail, the requests of the connections recorded on a GPU stay within what the
   GPU had at the start, as long as releases match removals and informer events do not revise the cache.
   */
  lemma NeverOverCommits(w: World, es: seq<Event>, g: string, d: Dimension)
    requires WellFormed(w) && Solvent(w) && Legal(w, es) && Registered(w, es, g)
    requires NonNegativeRun(es) && MatchedRun(w, es)
    ensures 0 <= Recorded(Exec(w, es).store.conns, g, d)
    ensures 0 <= Exec(w, es).cache[g].In(d)
    ensures Recorded(Exec(w, es).store.conns, g, d) + Exec(w, es).cache[g].In(d) <= Balance(w, g, d)
  {
    LedgerHolds(w, es, g, d);
    MatchedEntries(w, es, g, d);
    SolventRun(w, es);
    SumNonNegative(Exec(w, es).store.conns, Exec(w, es).store.conns.Keys, g, d);
  }

  // ---- Runs in which every pass returns without error ----

  ghost predicate Synced(w: World) {
    forall g :: g in w.cache && g in w.store.gpus ==> w.cache[g] == w.store.gpus[g]
  }

  /** The pass reports no error; informer events deliver the stored object; names are reused only once forgotten. */
  predicate Clean(w: World, e: Event) {
    match e
    case Reconcile(name, pick, script) => Pass(w, name, pick, script).ok
    case OnAdd(g, available) => g in w.store.gpus && available == w.store.gpus[g]
    case OnUpdate(g, available) => g in w.store.gpus && available == w.store.gpus[g]
    case StoreGpu(g, _) => g !in w.cache
    case _ => true
  }

  ghost predicate CleanRun(w: World, es: seq<Event>) {
    es == [] || (CleanRun(w, es[..|es| - 1]) && Clean(Exec(w, es[..|es| - 1]), es[|es| - 1]))
  }

  /** The GPU is both registered and stored throughout. */
  ghost predicate Present(w: World, es: seq<Event>, g: string) {
    && Registered(w, es, g)
    && g in Exec(w, es).store.gpus
    && (es == [] || Present(w, es[..|es| - 1], g))
  }

  lemma CleanServe(w: World, name: string, pick: Option<string>, script: Script)
    requires name in w.store.conns && Synced(w) && Serve(w, name, pick, script).ok
    requires WellFormedConnection(w.store.conns[name])
    ensures var r := Serve(w, name, pick, script);
            && Synced(r.world)
            && (r.debited.Some? ==> r.world.store.conns[name].status.gpu == r.debited)
  {
  }

  lemma CleanPass(w: World, name: string, pick: Option<string>, script: Script)
    requires WellFormed(w) && Synced(w) && Pass(w, name, pick, script).ok
    ensures Synced(Pass(w, name, pick, script).world)
    ensures forall g, d :: g in w.store.gpus ==> Entry(Strands, w, Reconcile(name, pick, script), g, d) == 0
    ensures forall g, d :: g in w.store.gpus && g in w.cache ==>
              Entry(Releases, w, Reconcile(name, pick, script), g, d) == 0
  {
    if script.getConn.Delivered? && name in w.store.conns {
      var c := w.store.conns[name];
      assert WellFormedConnection(c);
      PassEffect(w, name, pick, script);
      if !c.deleting {
        if c.finalizer {
          CleanServe(w, name, pick, script);
        } else {
          CleanServe(w.(store := w.store.(conns := w.store.conns[name := c.(finalizer := true)])), name, pick, script);
        }
      }
    }
  }

  lemma {:induction false} CleanEntries(w: World, es: seq<Event>, g: string, d: Dimension)
    requires WellFormed(w) && Synced(w) && Legal(w, es) && CleanRun(w, es) && Present(w, es, g)
    ensures Synced(Exec(w, es))
    ensures Total(Strands, w, es, g, d) == 0 && Total(Releases, w, es, g, d) == 0 && Total(Drifts, w, es, g, d) == 0
  {
    if es != [] {
      var init, last := es[..|es| - 1], es[|es| - 1];
      CleanEntries(w, init, g, d);
      WellFormedRun(w, init);
      if last.Reconcile? {
        CleanPass(Exec(w, init), last.name, last.pick, last.script);
      }
    }
  }

  /**
   When no pass reports an error, every GPU's stored Available equals the cached one between passes, the ledger
   balances exactly, and what is left on a GPU stays between nothing and what it started with.
   */
  lemma CleanRunsBalance(w: World, es: seq<Event>, g: string, d: Dimension)
    requires WellFormed(w) && Solvent(w) && Synced(w) && Legal(w, es)
    requires NonNegativeRun(es) && CleanRun(w, es) && Present(w, es, g)
    ensures Exec(w, es).store.gpus[g] == Exec(w, es).cache[g]
    ensures Exec(w, es).cache[g].In(d) + Recorded(Exec(w, es).store.conns, g, d) == Balance(w, g, d)
    ensures 0 <= Exec(w, es).cache[g].In(d) <= Balance(w, g, d)
  {
    CleanEntries(w, es, g, d);
    LedgerHolds(w, es, g, d);
    SolventRun(w, es);
    SumNonNegative(Exec(w, es).store.conns, Exec(w, es).store.conns.Keys, g, d);
  }
}
