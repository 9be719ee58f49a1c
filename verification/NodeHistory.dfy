/** What must have happened in a run before an instance is bought, recorded or gone. */
module NodeHistory {
  import opened Calls
  import opened Resources
  import opened NodeProvisioning

  // ---- The order of a worker's steps ----

  /** The GPUNode was created, and its status initialized after that; both were acknowledged. */
  ghost predicate Prepared(es: seq<Event>, n: string) {
    exists j :: 0 <= j < |es| && es[j] == InitializeStatus(n, Applied) && CreateObject(n, Applied) in es[..j]
  }

  /** After that an instance was created. */
  ghost predicate Bought(es: seq<Event>, n: string, id: InstanceId, reply: Reply) {
    exists j :: 0 <= j < |es| && es[j] == CreateInstance(n, id, reply) && Prepared(es[..j], n)
  }

  /** After an acknowledged creation the GPUNode was read again. */
  ghost predicate ReadBack(es: seq<Event>, n: string, id: InstanceId) {
    exists j :: 0 <= j < |es| && es[j] == ReadAgain(n, true) && Bought(es[..j], n, id, Applied)
  }

  /** After that the instance was recorded. */
  ghost predicate Recorded(es: seq<Event>, n: string, id: InstanceId, reply: Reply) {
    exists j :: 0 <= j < |es| && es[j] == RecordInstance(n, reply) && ReadBack(es[..j], n, id)
  }

  lemma PreparedStays(es: seq<Event>, e: Event, n: string)
    ensures Prepared(es, n) ==> Prepared(es + [e], n)
    ensures e == InitializeStatus(n, Applied) && CreateObject(n, Applied) in es ==> Prepared(es + [e], n)
  {
    assert forall j :: 0 <= j <= |es| ==> (es + [e])[..j] == es[..j];
    if j :| 0 <= j < |es| && es[j] == InitializeStatus(n, Applied) && CreateObject(n, Applied) in es[..j] {
      assert (es + [e])[j] == es[j];
    }
    assert es[..|es|] == es && (es + [e])[|es|] == e;
  }

  lemma BoughtStays(es: seq<Event>, e: Event, n: string, id: InstanceId, reply: Reply)
    ensures Bought(es, n, id, reply) ==> Bought(es + [e], n, id, reply)
    ensures e == CreateInstance(n, id, reply) && Prepared(es, n) ==> Bought(es + [e], n, id, reply)
  {
    assert forall j :: 0 <= j <= |es| ==> (es + [e])[..j] == es[..j];
    if j :| 0 <= j < |es| && es[j] == CreateInstance(n, id, reply) && Prepared(es[..j], n) {
      assert (es + [e])[j] == es[j];
    }
    assert es[..|es|] == es && (es + [e])[|es|] == e;
  }

  lemma ReadBackStays(es: seq<Event>, e: Event, n: string, id: InstanceId)
    ensures ReadBack(es, n, id) ==> ReadBack(es + [e], n, id)
    ensures e == ReadAgain(n, true) && Bought(es, n, id, Applied) ==> ReadBack(es + [e], n, id)
  {
    assert forall j :: 0 <= j <= |es| ==> (es + [e])[..j] == es[..j];
    if j :| 0 <= j < |es| && es[j] == ReadAgain(n, true) && Bought(es[..j], n, id, Applied) {
      assert (es + [e])[j] == es[j];
    }
    assert es[..|es|] == es && (es + [e])[|es|] == e;
  }

  lemma RecordedStays(es: seq<Event>, e: Event, n: string, id: InstanceId, reply: Reply)
    ensures Recorded(es, n, id, reply) ==> Recorded(es + [e], n, id, reply)
    ensures e == RecordInstance(n, reply) && ReadBack(es, n, id) ==> Recorded(es + [e], n, id, reply)
  {
    assert forall j :: 0 <= j <= |es| ==> (es + [e])[..j] == es[..j];
    if j :| 0 <= j < |es| && es[j] == RecordInstance(n, reply) && ReadBack(es[..j], n, id) {
      assert (es + [e])[j] == es[j];
    }
    assert es[..|es|] == es && (es + [e])[|es|] == e;
  }

  /** What the state of a worker says about its past. */
  ghost predicate WorkerPast(es: seq<Event>, w: Worker, n: string) {
    match w
    case ObjectCreated => CreateObject(n, Applied) in es
    case StatusInitialized => Prepared(es, n)
    case Unrecorded(id) => Bought(es, n, id, Applied)
    case Reread(id) => ReadBack(es, n, id)
    case MustTerminate(id) => ReadBack(es, n, id)
    case _ => true
  }

  lemma PastStays(es: seq<Event>, e: Event, w: Worker, n: string)
    requires WorkerPast(es, w, n)
    ensures WorkerPast(es + [e], w, n)
  {
    hide Prepared, Bought, ReadBack;
    PreparedStays(es, e, n);
    if w.Held().Some? {
      BoughtStays(es, e, n, w.id, Applied);
      ReadBackStays(es, e, n, w.id);
    }
  }

  lemma PastStep(es: seq<Event>, e: Event, n: string)
    requires Legal(es) && Enabled(Exec(es), e) && n in Apply(Exec(es), e).workers
    requires n in Exec(es).workers ==> WorkerPast(es, Exec(es).workers[n], n)
    ensures WorkerPast(es + [e], Apply(Exec(es), e).workers[n], n)
  {
    hide Prepared, Bought, ReadBack, Exec, Legal;
    var s := Exec(es);
    var before, after := WorkerAt(s, n), Apply(s, e).workers[n];
    if n in s.workers {
      PastStays(es, e, before, n);
      PreparedStays(es, e, n);
      if e.CreateInstance? {
        BoughtStays(es, e, n, e.id, Applied);
      }
      if before.Held().Some? {
        ReadBackStays(es, e, n, before.id);
      }
    }
  }

  lemma {:induction false} PastRun(es: seq<Event>, n: string)
    requires Legal(es) && n in Exec(es).workers
    ensures WorkerPast(es, Exec(es).workers[n], n)
  {
    if es != [] {
      hide WorkerPast, Apply;
      var init := es[..|es| - 1];
      if n in Exec(init).workers {
        PastRun(init, n);
      }
      PastStep(init, es[|es| - 1], n);
      assert es == init + [es[|es| - 1]];
    }
  }

  lemma CreatorStep(s: State, e: Event, id: InstanceId)
    requires Enabled(s, e) && id in Apply(s, e).creator
    ensures id in s.creator ==> Apply(s, e).creator[id] == s.creator[id]
    ensures id !in s.creator ==>
              && e.CreateInstance? && !e.reply.Rejected? && e == CreateInstance(Apply(s, e).creator[id], id, e.reply)
              && e.name in s.workers && s.workers[e.name].StatusInitialized?
  {
  }

  /** An instance was created for a GPUNode only after its object was created and then its status initialized. */
  lemma {:induction false} BoughtInOrder(es: seq<Event>, id: InstanceId) returns (reply: Reply)
    requires Legal(es) && id in Exec(es).creator
    ensures !reply.Rejected? && Bought(es, Exec(es).creator[id], id, reply)
  {
    reply := Applied;
    if es != [] {
      hide Bought, Prepared, Apply;
      var init, last := es[..|es| - 1], es[|es| - 1];
      assert es == init + [last];
      var n := Exec(es).creator[id];
      CreatorStep(Exec(init), last, id);
      if id in Exec(init).creator {
        reply := BoughtInOrder(init, id);
      } else {
        reply := last.reply;
        PastRun(init, n);
      }
      BoughtStays(init, last, n, id, reply);
    }
  }

  lemma RecordStep(s: State, e: Event, n: string, id: InstanceId)
    requires Enabled(s, e) && RecordedIn(Apply(s, e), n, id) && !RecordedIn(s, n, id)
    ensures e.RecordInstance? && !e.reply.Rejected? && e == RecordInstance(n, e.reply)
    ensures n in s.workers && s.workers[n] == Reread(id)
  {
  }

  /** A GPUNode records an instance only after that was acknowledged, and the GPUNode read again. */
  lemma {:induction false} RecordedInOrder(es: seq<Event>, n: string, id: InstanceId) returns (reply: Reply)
    requires Legal(es) && RecordedIn(Exec(es), n, id)
    ensures !reply.Rejected? && Recorded(es, n, id, reply)
  {
    reply := Applied;
    if es != [] {
      hide Recorded, ReadBack, Apply;
      var init, last := es[..|es| - 1], es[|es| - 1];
      assert es == init + [last];
      if RecordedIn(Exec(init), n, id) {
        reply := RecordedInOrder(init, n, id);
      } else {
        RecordStep(Exec(init), last, n, id);
        reply := last.reply;
        PastRun(init, n);
      }
      RecordedStays(init, last, n, id, reply);
    }
  }

  // ---- Workers that give up ----

  /** A price that is missing, or a refused or unacknowledged write, before anything is bought. */
  predicate GivesUp(e: Event, n: string) {
    || e == PricingFails(n)
    || (e.CreateObject? && e.name == n && !e.reply.Applied?)
    || (e.InitializeStatus? && e.name == n && !e.reply.Applied?)
  }

  predicate Nothing(s: State, n: string) {
    forall id :: id in s.creator ==> s.creator[id] != n
  }

  /** The GPUNode's worker has not come to buying yet. */
  predicate Early(s: State, n: string) {
    n !in s.workers || s.workers[n].Waiting? || s.workers[n].ObjectCreated? || s.workers[n].StatusInitialized?
  }

  /** The worker has ended without buying. */
  predicate EndedEarly(s: State, n: string) {
    n in s.workers && s.workers[n].Done? && Nothing(s, n)
  }

  /** Something is bought for a GPUNode only when its status has been initialized, and that ends its early time. */
  lemma BuyingStep(s: State, e: Event, n: string)
    requires Enabled(s, e) && Nothing(s, n) && !Nothing(Apply(s, e), n)
    ensures e.CreateInstance? && e.name == n
  {
  }

  lemma EarlyStays(s: State, e: Event, n: string)
    requires Enabled(s, e) && Early(Apply(s, e), n)
    ensures Early(s, n) && !(e.CreateInstance? && e.name == n)
  {
  }

  lemma DoneStays(s: State, e: Event, n: string)
    requires Enabled(s, e) && n in s.workers && s.workers[n].Done?
    ensures n in Apply(s, e).workers && Apply(s, e).workers[n].Done?
    ensures !(e.CreateInstance? && e.name == n)
  {
  }

  lemma GivingUp(s: State, e: Event, n: string)
    requires Enabled(s, e) && GivesUp(e, n)
    ensures Early(s, n) && n in Apply(s, e).workers && Apply(s, e).workers[n].Done? && !e.CreateInstance?
  {
  }

  lemma EarlyStep(s: State, e: Event, n: string)
    requires Enabled(s, e) && (Early(s, n) ==> Nothing(s, n))
    ensures Early(Apply(s, e), n) ==> Nothing(Apply(s, e), n)
    ensures GivesUp(e, n) ==> EndedEarly(Apply(s, e), n)
    ensures EndedEarly(s, n) ==> EndedEarly(Apply(s, e), n)
  {
    hide Apply, Early, Nothing, Enabled, GivesUp;
    if Early(Apply(s, e), n) {
      EarlyStays(s, e, n);
    }
    if GivesUp(e, n) {
      GivingUp(s, e, n);
    }
    if EndedEarly(s, n) {
      DoneStays(s, e, n);
    }
    if Nothing(s, n) && !Nothing(Apply(s, e), n) {
      BuyingStep(s, e, n);
    }
  }

  lemma {:induction false} NothingBefore(es: seq<Event>, n: string)
    requires Legal(es)
    ensures Early(Exec(es), n) ==> Nothing(Exec(es), n)
  {
    if es != [] {
      hide Early, Nothing, Apply, GivesUp, EndedEarly;
      NothingBefore(es[..|es| - 1], n);
      EarlyStep(Exec(es[..|es| - 1]), es[|es| - 1], n);
    }
  }

  /** A worker that gives up before it buys has ended, and nothing is ever bought for its GPUNode. */
  lemma {:induction false} GivingUpIsFinal(es: seq<Event>, n: string)
    requires Legal(es) && exists e :: e in es && GivesUp(e, n)
    ensures EndedEarly(Exec(es), n)
  {
    hide Early, Nothing, Apply, EndedEarly, GivesUp;
    var init, last := es[..|es| - 1], es[|es| - 1];
    assert es == init + [last];
    NothingBefore(init, n);
    EarlyStep(Exec(init), last, n);
    if !GivesUp(last, n) {
      var e :| e in es && GivesUp(e, n);
      assert e in init;
      GivingUpIsFinal(init, n);
    }
  }

  // ---- Instances that are gone ----

  /**
   A live instance ceases to be so exactly when the worker that must undo it terminates it, or the hook of a GPUNode
   that is being deleted terminates the one it records.
   */
  lemma GoneExactly(s: State, e: Event, id: InstanceId)
    requires Enabled(s, e) && id in s.live
    ensures id !in Apply(s, e).live <==>
              || (e.UndoInstance? && !e.reply.Rejected? && s.workers[e.name] == MustTerminate(id))
              || (e.RunHook? && !e.reply.Rejected? && s.nodes[e.name].instance == Some(id))
  {
  }

  /** A worker whose record was not acknowledged holds on to the instance, and can only undo it; then it is gone. */
  lemma RefusedRecordIsUndone(s: State, e: Event, undo: Event)
    requires Enabled(s, e) && e.RecordInstance? && !e.reply.Applied?
    requires Enabled(Apply(s, e), undo) && !OfNode(undo) && !undo.Restart? && undo.name == e.name
    ensures undo.UndoInstance?
    ensures undo.reply.Applied? ==>
              && s.workers[e.name].id !in Apply(Apply(s, e), undo).live
              && Apply(Apply(s, e), undo).workers[e.name].Done?
  {
  }

  /** The finalizer of a GPUNode is dropped only after its hook was acknowledged, and nothing else lets it go. */
  lemma HookBeforeDrop(s: State, e: Event, n: string)
    requires Enabled(s, e) && n in Apply(s, e).cleared && n !in s.cleared
    ensures e == RunHook(n, Applied) && s.nodes[n].instance.Some?
  {
  }

  /** A GPUNode has its finalizer exactly once that write landed, and is marked exactly once it was deleted. */
  lemma MarksExactly(s: State, e: Event, n: string)
    requires Enabled(s, e) && n in s.nodes && n in Apply(s, e).nodes
    ensures Apply(s, e).nodes[n].finalizer
       <==> s.nodes[n].finalizer || (e.AddFinalizer? && e.name == n && !e.reply.Rejected?)
    ensures Apply(s, e).nodes[n].deleting <==> s.nodes[n].deleting || e == DeleteNode(n)
  {
  }

  /** A deleted GPUNode without its finalizer is gone at once; one with it waits for the finalizer to be dropped. */
  lemma LeavesExactly(s: State, e: Event, n: string)
    requires Enabled(s, e) && n in s.nodes
    ensures n !in Apply(s, e).nodes <==>
              || (e == DeleteNode(n) && !s.nodes[n].finalizer)
              || (e.DropFinalizer? && e.name == n && !e.reply.Rejected?)
  {
  }

  /** An operator that stops, or panics over an instance it could not terminate, has no worker left and no hook done. */
  lemma StoppingForgets(s: State, e: Event)
    requires Enabled(s, e) && (e.Restart? || (e.UndoInstance? && !e.reply.Applied?))
    ensures Apply(s, e).cleared == {} && Apply(s, e).nodes == s.nodes
    ensures forall n :: n in s.workers ==> n in Apply(s, e).workers && Apply(s, e).workers[n].Done?
  {
  }
}
