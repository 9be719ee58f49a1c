/**
 Creating and removing cloud instances for GPUNodes: one worker per node, interleaved with deletions of GPUNodes and
 with the node controller's finalizer. Every call may fail, also after it took effect, and the operator may stop at
 any time.
 */
module NodeProvisioning {

  import opened Calls
  import opened Resources

  type InstanceId = nat

  /** Where the goroutine that provisions one node stands. */
  datatype Worker =
    | Waiting
    | ObjectCreated
    | StatusInitialized
    | Unrecorded(id: InstanceId)
    | Reread(id: InstanceId)
    | MustTerminate(id: InstanceId)
    | Done
  {
    function Held(): Option<InstanceId> {
      if Unrecorded? || Reread? || MustTerminate? then Some(id) else None
    }
  }

  datatype Node = Node(instance: Option<InstanceId>, finalizer: bool, deleting: bool)

  /** `creator` remembers the node name each instance was created for; `cleared` are the nodes whose hook is done. */
  datatype State = State(
    workers: map<string, Worker>,
    nodes: map<string, Node>,
    cleared: set<string>,
    live: set<InstanceId>,
    creator: map<InstanceId, string>)

  const START := State(map[], map[], {}, {}, map[])

  datatype Event =
    // the worker of a node
    | Spawn(name: string)
    | PricingFails(name: string)
    | CreateObject(name: string, reply: Reply)
    | InitializeStatus(name: string, reply: Reply)
    | CreateInstance(name: string, id: InstanceId, reply: Reply)
    | ReadAgain(name: string, delivered: bool)
    | RecordInstance(name: string, reply: Reply)
    | UndoInstance(name: string, reply: Reply)
    // the node controller
    | AddFinalizer(name: string, reply: Reply)
    | RunHook(name: string, reply: Reply)
    | DropFinalizer(name: string, reply: Reply)
    // users, compaction, the operator process
    | DeleteNode(name: string)
    | Restart

  function WorkerAt(s: State, name: string): Worker {
    if name in s.workers then s.workers[name] else Done
  }

  predicate Enabled(s: State, e: Event) {
    match e
    case Spawn(n) => n !in s.workers
    case PricingFails(n) => WorkerAt(s, n).Waiting?
    case CreateObject(n, _) => WorkerAt(s, n).Waiting?
    case InitializeStatus(n, _) => WorkerAt(s, n).ObjectCreated?
    case CreateInstance(n, id, _) => WorkerAt(s, n).StatusInitialized? && id !in s.creator
    case ReadAgain(n, _) => WorkerAt(s, n).Unrecorded?
    case RecordInstance(n, _) => WorkerAt(s, n).Reread?
    case UndoInstance(n, _) => WorkerAt(s, n).MustTerminate?
    case AddFinalizer(n, _) => n in s.nodes && !s.nodes[n].deleting
    case RunHook(n, _) => n in s.nodes && s.nodes[n].deleting && s.nodes[n].finalizer
    case DropFinalizer(n, _) => n in s.cleared
    case DeleteNode(n) => n in s.nodes
    case Restart => true
  }

  function Stop(s: State): State {
    s.(workers := map n | n in s.workers :: Done, cleared := {})
  }

  function Goto(s: State, name: string, w: Worker): State {
    s.(workers := s.workers[name := w])
  }

  function Apply(s: State, e: Event): State
    requires Enabled(s, e)
  {
    match e
    case Spawn(n) => Goto(s, n, Waiting)
    case PricingFails(n) => Goto(s, n, Done)
    case CreateObject(n, reply) =>
      var s1 := if reply.Lands() && n !in s.nodes then s.(nodes := s.nodes[n := Node(None, false, false)]) else s;
      Goto(s1, n, if reply.Applied? && n !in s.nodes then ObjectCreated else Done)
    case InitializeStatus(n, reply) =>
      Goto(s, n, if reply.Applied? && n in s.nodes then StatusInitialized else Done)
    case CreateInstance(n, id, reply) =>
      var s1 := if reply.Lands() then s.(live := s.live + {id}, creator := s.creator[id := n]) else s;
      Goto(s1, n, if reply.Applied? then Unrecorded(id) else Done)
    case ReadAgain(n, delivered) =>
      Goto(s, n, if delivered && n in s.nodes then Reread(s.workers[n].id) else Done)
    case RecordInstance(n, reply) =>
      var id := s.workers[n].id;
      var s1 := if reply.Lands() && n in s.nodes
                then s.(nodes := s.nodes[n := s.nodes[n].(instance := Some(id))]) else s;
      Goto(s1, n, if reply.Applied? && n in s.nodes then Done else MustTerminate(id))
    case UndoInstance(n, reply) =>
      var s1 := if reply.Lands() then s.(live := s.live - {s.workers[n].id}) else s;
      // an error here is a panic: the whole operator goes down
      if reply.Applied? then Goto(s1, n, Done) else Stop(s1)
    case AddFinalizer(n, reply) =>
      if reply.Lands() then s.(nodes := s.nodes[n := s.nodes[n].(finalizer := true)]) else s
    case RunHook(n, reply) =>
      // a node without an instance id is refused
      if s.nodes[n].instance.None? then s
      else
        var s1 := if reply.Lands() then s.(live := s.live - {s.nodes[n].instance.value}) else s;
        if reply.Applied? then s1.(cleared := s1.cleared + {n}) else s1
    case DropFinalizer(n, reply) =>
      var s1 := s.(cleared := s.cleared - {n});
      if reply.Lands() then s1.(nodes := s1.nodes - {n}) else s1
    case DeleteNode(n) =>
      if s.nodes[n].finalizer then s.(nodes := s.nodes[n := s.nodes[n].(deleting := true)])
      else s.(nodes := s.nodes - {n})
    case Restart => Stop(s)
  }

  ghost predicate Legal(es: seq<Event>)
    decreases |es|, 0
  {
    es == [] || (Legal(es[..|es| - 1]) && Enabled(Exec(es[..|es| - 1]), es[|es| - 1]))
  }

  ghost function Exec(es: seq<Event>): State
    requires Legal(es)
    decreases |es|, 1
  {
    if es == [] then START else Apply(Exec(es[..|es| - 1]), es[|es| - 1])
  }

  // ---- Who is responsible for an instance ----

  predicate HeldBy(s: State, n: string, id: InstanceId) {
    n in s.workers && s.workers[n].Held() == Some(id)
  }

  predicate RecordedIn(s: State, n: string, id: InstanceId) {
    n in s.nodes && s.nodes[n].instance == Some(id)
  }

  ghost predicate InFlight(s: State, id: InstanceId) {
    exists n :: HeldBy(s, n, id)
  }

  ghost predicate OnRecord(s: State, id: InstanceId) {
    exists n :: RecordedIn(s, n, id)
  }

  /** Live instances that no worker holds and no GPUNode records. */
  ghost function Orphans(s: State): set<InstanceId> {
    set id | id in s.live && !InFlight(s, id) && !OnRecord(s, id)
  }

  /** What would be left behind if all workers stopped now. */
  ghost function OnlyInFlight(s: State): set<InstanceId> {
    set id | id in s.live && InFlight(s, id) && !OnRecord(s, id)
  }

  /**
   The only steps that leave an instance behind: a creation that fails after it took effect, a failed second read of
   the GPUNode, an operator that stops or panics, and the deletion of a GPUNode that has no finalizer yet.
   */
  ghost function Abandons(s: State, e: Event): set<InstanceId>
    requires Enabled(s, e)
  {
    match e
    case CreateInstance(_, id, AppliedUnacked) => {id}
    case ReadAgain(n, delivered) => if delivered && n in s.nodes then {} else {s.workers[n].id}
    case UndoInstance(n, Rejected) => OnlyInFlight(s)
    case UndoInstance(n, AppliedUnacked) => OnlyInFlight(s) - {s.workers[n].id}
    case Restart => OnlyInFlight(s)
    case DeleteNode(n) =>
      if s.nodes[n].finalizer || s.nodes[n].instance.None? then {}
      else set id | id in s.live && id == s.nodes[n].instance.value && !InFlight(s, id)
    case _ => {}
  }

  ghost function Abandoned(es: seq<Event>): set<InstanceId>
    requires Legal(es)
  {
    if es == [] then {}
    else Abandoned(es[..|es| - 1]) + Abandons(Exec(es[..|es| - 1]), es[|es| - 1])
  }

  // ---- The invariant ----

  ghost predicate WorkerInv(s: State, n: string)
    requires n in s.workers
  {
    var w := s.workers[n];
    && (w.Held().Some? ==> w.Held().value in s.creator && s.creator[w.Held().value] == n)
    && (w.Unrecorded? || w.Reread? ==> w.id in s.live)
    && (w.Waiting? ==> n !in s.nodes)
    && (n in s.nodes && s.nodes[n].instance.Some? ==>
          w.Done? || (w.MustTerminate? && s.nodes[n].instance == w.Held()))
  }

  ghost predicate NodeInv(s: State, n: string)
    requires n in s.nodes
  {
    && n in s.workers
    && (s.nodes[n].instance.Some? ==>
          s.nodes[n].instance.value in s.creator && s.creator[s.nodes[n].instance.value] == n)
  }

  ghost predicate ClearedInv(s: State, n: string) {
    && n in s.nodes && s.nodes[n].finalizer && s.nodes[n].deleting
    && s.nodes[n].instance.Some? && s.nodes[n].instance.value !in s.live
  }

  ghost predicate Inv(s: State) {
    && s.live <= s.creator.Keys
    && (forall n :: n in s.workers ==> WorkerInv(s, n))
    && (forall n :: n in s.nodes ==> NodeInv(s, n))
    && (forall n :: n in s.cleared ==> ClearedInv(s, n))
  }

  /** An instance can be held or recorded only under the name it was created for. */
  lemma OnlyItsCreator(s: State, id: InstanceId)
    requires Inv(s)
    ensures InFlight(s, id) <==> id in s.creator && HeldBy(s, s.creator[id], id)
    ensures OnRecord(s, id) <==> id in s.creator && RecordedIn(s, s.creator[id], id)
  {
  }

  /** The event concerns the GPUNode and not its worker. */
  predicate OfNode(e: Event) {
    e.AddFinalizer? || e.RunHook? || e.DropFinalizer? || e.DeleteNode?
  }

  lemma WorkerElsewhere(s: State, e: Event, n: string)
    requires Inv(s) && Enabled(s, e) && !e.Restart? && !e.UndoInstance? && e.name != n && n in Apply(s, e).workers
    ensures WorkerInv(Apply(s, e), n)
  {
    assert WorkerInv(s, n) && Apply(s, e).workers[n] == s.workers[n];
  }

  /** The worker's own steps. */
  lemma WorkerWorks(s: State, e: Event, n: string)
    requires Inv(s) && Enabled(s, e) && !e.Restart? && !e.UndoInstance? && e.name == n && n in Apply(s, e).workers
    requires !OfNode(e)
    ensures WorkerInv(Apply(s, e), n)
  {
    assert n in s.workers ==> WorkerInv(s, n);
    assert n in s.nodes ==> NodeInv(s, n);
  }

  /** What happens to its GPUNode meanwhile. */
  lemma WorkerWatches(s: State, e: Event, n: string)
    requires Inv(s) && Enabled(s, e) && n in Apply(s, e).workers
    requires OfNode(e) && e.name == n
    ensures WorkerInv(Apply(s, e), n)
  {
    assert WorkerInv(s, n);
    assert n in s.nodes ==> NodeInv(s, n);
  }

  lemma WorkerAtStop(s: State, e: Event, n: string)
    requires Inv(s) && Enabled(s, e) && (e.Restart? || e.UndoInstance?) && n in Apply(s, e).workers
    ensures WorkerInv(Apply(s, e), n)
  {
    assert WorkerInv(s, n);
  }

  lemma WorkerStep(s: State, e: Event, n: string)
    requires Inv(s) && Enabled(s, e) && n in Apply(s, e).workers
    ensures WorkerInv(Apply(s, e), n)
  {
    hide Apply, Inv, WorkerInv;
    if e.Restart? || e.UndoInstance? {
      WorkerAtStop(s, e, n);
    } else if e.name != n {
      WorkerElsewhere(s, e, n);
    } else if OfNode(e) {
      WorkerWatches(s, e, n);
    } else {
      WorkerWorks(s, e, n);
    }
  }

  lemma NodeStep(s: State, e: Event, n: string)
    requires Inv(s) && Enabled(s, e) && n in Apply(s, e).nodes
    ensures NodeInv(Apply(s, e), n)
  {
  }

  lemma ClearedStep(s: State, e: Event, n: string)
    requires Inv(s) && Enabled(s, e) && n in Apply(s, e).cleared
    ensures ClearedInv(Apply(s, e), n)
  {
    assert n in s.cleared ==> ClearedInv(s, n);
    assert n in s.workers ==> WorkerInv(s, n);
    assert n in s.nodes ==> NodeInv(s, n);
  }

  lemma InvStep(s: State, e: Event)
    requires Inv(s) && Enabled(s, e)
    ensures Inv(Apply(s, e))
  {
    var s' := Apply(s, e);
    forall n | n in s'.workers ensures WorkerInv(s', n) { WorkerStep(s, e, n); }
    forall n | n in s'.nodes ensures NodeInv(s', n) { NodeStep(s, e, n); }
    forall n | n in s'.cleared ensures ClearedInv(s', n) { ClearedStep(s, e, n); }
  }

  /** The fate of one instance under a step, read off the one name it can stand under. */
  predicate Loose(s: State, id: InstanceId) {
    && id in s.live && id in s.creator
    && !HeldBy(s, s.creator[id], id) && !RecordedIn(s, s.creator[id], id)
  }

  /** The step makes the instance loose. */
  predicate Loosens(s: State, e: Event, id: InstanceId)
    requires Enabled(s, e)
  {
    var inFlight := id in s.creator && HeldBy(s, s.creator[id], id);
    var onRecord := id in s.creator && RecordedIn(s, s.creator[id], id);
    var onlyInFlight := id in s.live && inFlight && !onRecord;
    match e
    case CreateInstance(_, made, AppliedUnacked) => id == made
    case ReadAgain(n, delivered) => !(delivered && n in s.nodes) && id == s.workers[n].id
    case UndoInstance(n, Rejected) => onlyInFlight
    case UndoInstance(n, AppliedUnacked) => onlyInFlight && id != s.workers[n].id
    case Restart => onlyInFlight
    case DeleteNode(n) => !s.nodes[n].finalizer && s.nodes[n].instance == Some(id) && id in s.live && !inFlight
    case _ => false
  }

  /** The events of one name do not concern the instances of another, unless every worker stops. */
  lemma LooseElsewhere(s: State, e: Event, id: InstanceId)
    requires Inv(s) && Enabled(s, e) && !e.Restart? && !e.UndoInstance?
    requires id in s.creator && s.creator[id] != e.name
    ensures Loose(Apply(s, e), id) <==> Loose(s, id)
    ensures !Loosens(s, e, id)
  {
  }

  lemma LooseByWorker(s: State, e: Event, id: InstanceId)
    requires Inv(s) && Enabled(s, e) && !e.Restart? && !e.UndoInstance? && !OfNode(e)
    requires id !in s.creator || s.creator[id] == e.name
    ensures Loose(Apply(s, e), id) <==> Loose(s, id) || Loosens(s, e, id)
  {
  }

  lemma LooseByNode(s: State, e: Event, id: InstanceId)
    requires Inv(s) && Enabled(s, e) && OfNode(e)
    requires id !in s.creator || s.creator[id] == e.name
    ensures Loose(Apply(s, e), id) <==> Loose(s, id) || Loosens(s, e, id)
  {
  }

  lemma LooseAtStop(s: State, e: Event, id: InstanceId)
    requires Inv(s) && Enabled(s, e) && (e.Restart? || e.UndoInstance?)
    ensures Loose(Apply(s, e), id) <==> Loose(s, id) || Loosens(s, e, id)
  {
  }

  lemma LooseStep(s: State, e: Event, id: InstanceId)
    requires Inv(s) && Enabled(s, e)
    ensures Loose(Apply(s, e), id) <==> Loose(s, id) || Loosens(s, e, id)
  {
    hide Inv, Apply, Loose, Loosens;
    if e.Restart? || e.UndoInstance? {
      LooseAtStop(s, e, id);
    } else if id in s.creator && s.creator[id] != e.name {
      LooseElsewhere(s, e, id);
    } else if OfNode(e) {
      LooseByNode(s, e, id);
    } else {
      LooseByWorker(s, e, id);
    }
  }

  /** A step makes exactly the instances it abandons into orphans, and no orphan is ever found again. */
  lemma OrphansStep(s: State, e: Event)
    requires Inv(s) && Enabled(s, e)
    ensures Orphans(Apply(s, e)) == Orphans(s) + Abandons(s, e)
  {
    var s' := Apply(s, e);
    InvStep(s, e);
    forall id ensures id in Orphans(s') <==> id in Orphans(s) || id in Abandons(s, e) {
      OnlyItsCreator(s, id);
      OnlyItsCreator(s', id);
      LooseStep(s, e, id);
      assert id in Orphans(s) <==> Loose(s, id);
      assert id in Orphans(s') <==> Loose(s', id);
      assert id in Abandons(s, e) <==> Loosens(s, e, id);
    }
  }

  lemma {:induction false} InvRun(es: seq<Event>)
    requires Legal(es)
    ensures Inv(Exec(es))
  {
    if es != [] {
      InvRun(es[..|es| - 1]);
      InvStep(Exec(es[..|es| - 1]), es[|es| - 1]);
    }
  }

  /**
   Over every interleaving: the live instances without an in-flight worker or a recording GPUNode are exactly
   those that one of the abandoning steps left behind.
   */
  lemma {:induction false} OrphansExactly(es: seq<Event>)
    requires Legal(es)
    ensures Orphans(Exec(es)) == Abandoned(es)
  {
    if es != [] {
      var init := es[..|es| - 1];
      OrphansExactly(init);
      InvRun(init);
      OrphansStep(Exec(init), es[|es| - 1]);
    }
  }

  /** A GPUNode that has its finalizer leaves the store only after its recorded instance is gone. */
  lemma RemovedOnlyAfterTermination(es: seq<Event>, e: Event, name: string)
    requires Legal(es) && Enabled(Exec(es), e)
    requires name in Exec(es).nodes && Exec(es).nodes[name].finalizer
    requires name !in Apply(Exec(es), e).nodes
    ensures Exec(es).nodes[name].instance.Some?
    ensures Exec(es).nodes[name].instance.value !in Exec(es).live
  {
    InvRun(es);
    assert ClearedInv(Exec(es), name);
  }

  /** The GPUNode has its finalizer, no instance, and a worker that has given up recording one. */
  predicate Stuck(s: State, name: string) {
    && name in s.nodes && s.nodes[name].finalizer && s.nodes[name].instance.None?
    && name in s.workers && (s.workers[name].Done? || s.workers[name].MustTerminate?)
  }

  lemma StuckByNode(s: State, e: Event, name: string)
    requires Inv(s) && Enabled(s, e) && Stuck(s, name) && OfNode(e)
    ensures Stuck(Apply(s, e), name)
  {
    assert name in s.cleared ==> ClearedInv(s, name);
  }

  lemma StuckByWorker(s: State, e: Event, name: string)
    requires Enabled(s, e) && Stuck(s, name) && !OfNode(e)
    ensures Stuck(Apply(s, e), name)
  {
  }

  lemma StuckStep(s: State, e: Event, name: string)
    requires Inv(s) && Enabled(s, e) && Stuck(s, name)
    ensures Stuck(Apply(s, e), name)
  {
    hide Inv, Apply, Stuck;
    if OfNode(e) {
      StuckByNode(s, e, name);
    } else {
      StuckByWorker(s, e, name);
    }
  }

  /** A GPUNode whose worker ended before recording an instance can never be deleted once it has its finalizer. */
  lemma {:induction false} StuckForever(es: seq<Event>, more: seq<Event>, name: string)
    requires Legal(es + more) && Legal(es) && Stuck(Exec(es), name)
    ensures Stuck(Exec(es + more), name)
    decreases |more|
  {
    if more == [] {
      assert es + more == es;
    } else {
      var init := more[..|more| - 1];
      assert (es + more)[..|es + more| - 1] == es + init;
      StuckForever(es, init, name);
      InvRun(es + init);
      StuckStep(Exec(es + init), (es + more)[|es + more| - 1], name);
    }
  }

  lemma Extend(es: seq<Event>, e: Event)
    requires Legal(es) && Enabled(Exec(es), e)
    ensures Legal(es + [e]) && Exec(es + [e]) == Apply(Exec(es), e)
  {
    assert (es + [e])[..|es|] == es;
  }

  lemma Fresh(ids: set<InstanceId>) returns (id: InstanceId)
    ensures id !in ids
  {
    id := 0;
    if ids != {} {
      var largest := Largest(ids);
      id := largest + 1;
    }
  }

  lemma {:induction false} Largest(ids: set<InstanceId>) returns (largest: InstanceId)
    requires ids != {}
    ensures forall id :: id in ids ==> id <= largest
  {
    var some :| some in ids;
    largest := some;
    assert forall id :: id in ids ==> id == some || id in ids - {some};
    if ids - {some} != {} {
      var other := Largest(ids - {some});
      largest := if other > some then other else some;
    }
  }

  /** Deletion, hook and removal of the finalizer take a GPUNode with an instance out of the store. */
  lemma RemovedOnceRecorded(es: seq<Event>, name: string) returns (more: seq<Event>)
    requires Legal(es) && name in Exec(es).nodes && Exec(es).nodes[name].finalizer
    requires Exec(es).nodes[name].instance.Some?
    ensures Legal(es + more) && name !in Exec(es + more).nodes
  {
    hide Exec, Legal;
    var delete, hook, drop := DeleteNode(name), RunHook(name, Applied), DropFinalizer(name, Applied);
    Extend(es, delete);
    Extend(es + [delete], hook);
    Extend(es + [delete] + [hook], drop);
    more := [delete, hook, drop];
    assert es + more == es + [delete] + [hook] + [drop];
  }

  /** How many steps the worker has to go until it records the instance. */
  function ToGo(w: Worker): nat {
    match w
    case Waiting => 5
    case ObjectCreated => 4
    case StatusInitialized => 3
    case Unrecorded(_) => 2
    case Reread(_) => 1
    case _ => 0
  }

  /** The next step of a worker when no call fails. */
  lemma WorkerProceeds(s: State, name: string) returns (e: Event)
    requires Inv(s) && name in s.nodes && s.nodes[name].instance.None?
    requires name in s.workers && ToGo(s.workers[name]) > 0
    ensures Enabled(s, e)
    ensures var after := Apply(s, e);
            && name in after.nodes && after.nodes[name].finalizer == s.nodes[name].finalizer
            && (after.nodes[name].instance.Some?
                || (name in after.workers && 0 < ToGo(after.workers[name]) < ToGo(s.workers[name])))
  {
    assert WorkerInv(s, name);
    match s.workers[name]
    case ObjectCreated => e := InitializeStatus(name, Applied);
    case StatusInitialized =>
      var id := Fresh(s.creator.Keys);
      e := CreateInstance(name, id, Applied);
    case Unrecorded(_) => e := ReadAgain(name, true);
    case Reread(_) => e := RecordInstance(name, Applied);
  }

  lemma HasWorker(s: State, name: string)
    requires Inv(s) && name in s.nodes
    ensures name in s.workers
  {
    assert NodeInv(s, name);
  }

  lemma {:induction false} RemovedUnlessStuck(es: seq<Event>, name: string) returns (more: seq<Event>)
    requires Legal(es) && name in Exec(es).nodes && Exec(es).nodes[name].finalizer && !Stuck(Exec(es), name)
    ensures Legal(es + more) && name !in Exec(es + more).nodes
    decreases if name in Exec(es).workers && Exec(es).nodes[name].instance.None?
              then ToGo(Exec(es).workers[name]) else 0
  {
    hide Legal, Exec, Apply, Inv;
    var s := Exec(es);
    if s.nodes[name].instance.Some? {
      more := RemovedOnceRecorded(es, name);
    } else {
      InvRun(es);
      HasWorker(s, name);
      var e := WorkerProceeds(s, name);
      Extend(es, e);
      var rest := RemovedUnlessStuck(es + [e], name);
      more := [e] + rest;
      assert es + more == es + [e] + rest;
    }
  }

  /** A GPUNode with its finalizer stays for ever, whatever happens, if and only if it is stuck. */
  lemma StuckExactly(es: seq<Event>, name: string)
    requires Legal(es) && name in Exec(es).nodes && Exec(es).nodes[name].finalizer
    ensures Stuck(Exec(es), name) <==> forall more :: Legal(es + more) ==> name in Exec(es + more).nodes
  {
    if Stuck(Exec(es), name) {
      forall more | Legal(es + more) ensures name in Exec(es + more).nodes {
        StuckForever(es, more, name);
      }
    } else {
      var more := RemovedUnlessStuck(es, name);
    }
  }

  /** Each instance is recorded under one name only, and shared with a worker only while that worker undoes it. */
  lemma RecordedOnce(es: seq<Event>, id: InstanceId, m: string, n: string)
    requires Legal(es) && RecordedIn(Exec(es), m, id)
    ensures RecordedIn(Exec(es), n, id) ==> m == n
    ensures HeldBy(Exec(es), n, id) ==> m == n && Exec(es).workers[n].MustTerminate?
  {
    var s := Exec(es);
    InvRun(es);
    assert NodeInv(s, m);
    assert n in s.nodes ==> NodeInv(s, n);
    assert n in s.workers ==> WorkerInv(s, n);
  }
}
