/**
 The allocation lifecycle of a TensorFusionConnection: one reconcile pass as a function of the stored objects,
 the scheduler's cache and the replies of the API server, and what holds over every run of such passes.
 */
module ConnectionProtocol {
  import opened Resources
  import opened SchedulerSpec

  // ---- The stored objects ----

  datatype Phase = Unset | Pending | Starting | Running

  datatype Status = Status(phase: Phase, gpu: Option<string>, url: string)

  datatype Connection = Connection(pool: string, request: Resource, status: Status, finalizer: bool, deleting: bool)

  datatype Pod = Pod(running: bool, ip: string, port: Option<string>)

  /** What the API server holds. A GPU is represented by its stored Available. */
  datatype Store = Store(
    conns: map<string, Connection>,
    gpus: map<string, Resource>,
    pods: map<string, Pod>,
    pools: set<string>)

  /** The store together with the scheduler's in-memory Available of every registered GPU. */
  datatype World = World(store: Store, cache: map<string, Resource>)

  // ---- Replies of the API server ----

  datatype Read = Delivered | Unavailable

  /** A write can also take effect although the caller sees an error (AppliedUnacked). */
  datatype Write = Applied | AppliedUnacked | Conflict | Rejected {
    predicate Lands() { Applied? || AppliedUnacked? }
  }

  /** The replies to one attempt of the retried status update. */
  datatype Attempt = Attempt(getConn: Read, putConn: Write, getGpu: Read, putGpu: Write)

  /** The replies to all the calls that one pass may make. */
  datatype Script = Script(
    getConn: Read,
    addFinalizer: Write,
    getGpu: Read,
    getPool: Read,
    getPod: Read,
    templateParses: bool,
    port: string,
    createPod: Write,
    attempts: seq<Attempt>,
    removeFinalizer: Write)

  // ---- The retried status update ----

  /** A GPU object in the hands of a pass: its name and the Available it will write back. */
  datatype GpuCopy = GpuCopy(name: string, available: Resource)

  datatype Saved = Saved(store: Store, ok: bool)

  function PutStatus(s: Store, name: string, status: Status): Store
    requires name in s.conns
  {
    s.(conns := s.conns[name := s.conns[name].(status := status)])
  }

  /** Some attempt writes the connection status before the update gives up. */
  predicate StatusLands(attempts: seq<Attempt>) {
    && attempts != []
    && attempts[0].getConn.Delivered?
    && (attempts[0].putConn.Lands() || (attempts[0].putConn.Conflict? && StatusLands(attempts[1..])))
  }

  /** Some attempt writes both the connection status and the GPU before the update gives up. */
  predicate PairLands(attempts: seq<Attempt>) {
    && attempts != []
    && attempts[0].getConn.Delivered?
    && (if attempts[0].putConn.Conflict? then PairLands(attempts[1..])
        else
          && attempts[0].putConn.Applied? && attempts[0].getGpu.Delivered?
          && (attempts[0].putGpu.Applied? || (attempts[0].putGpu.Conflict? && PairLands(attempts[1..]))))
  }

  /** Write the connection status, then the GPU's Available; only a conflict makes the pair start again. */
  function Persist(s: Store, name: string, status: Status, gpu: Option<GpuCopy>, attempts: seq<Attempt>): (r: Saved)
    requires name in s.conns
    ensures r.store.conns == if StatusLands(attempts) then PutStatus(s, name, status).conns else s.conns
    ensures r.store.gpus == s.gpus
         || (gpu.Some? && gpu.value.name in s.gpus && r.store.gpus == s.gpus[gpu.value.name := gpu.value.available])
    ensures r.ok ==> StatusLands(attempts)
    ensures r.ok && gpu.Some? ==>
              gpu.value.name in s.gpus && r.store.gpus == s.gpus[gpu.value.name := gpu.value.available]
    ensures gpu.Some? && gpu.value.name in s.gpus ==> (r.ok <==> PairLands(attempts))
    ensures r.store.pods == s.pods && r.store.pools == s.pools
    decreases |attempts|
  {
    if attempts == [] || attempts[0].getConn.Unavailable? then Saved(s, false)
    else
      var a := attempts[0];
      match a.putConn
      case Rejected => Saved(s, false)
      case Conflict => Persist(s, name, status, gpu, attempts[1..])
      case AppliedUnacked => Saved(PutStatus(s, name, status), false)
      case Applied =>
        var s1 := PutStatus(s, name, status);
        if gpu.None? then Saved(s1, true)
        else if a.getGpu.Unavailable? || gpu.value.name !in s1.gpus then Saved(s1, false)
        else
          var s2 := s1.(gpus := s1.gpus[gpu.value.name := gpu.value.available]);
          match a.putGpu
          case Applied => Saved(s2, true)
          case AppliedUnacked => Saved(s2, false)
          case Rejected => Saved(s1, false)
          case Conflict =>
            var again := Persist(s1, name, status, gpu, attempts[1..]);
            assert PutStatus(s1, name, status).conns == s1.conns;
            again
  }

  // ---- One reconcile pass ----

  /** The outcome of a pass: the new world, no error returned, the GPU that was debited or credited in the cache. */
  datatype PassResult = PassResult(world: World, ok: bool, debited: Option<string>, credited: Option<string>)

  predicate Unscheduled(status: Status) {
    status.phase.Unset? || status.phase.Pending?
  }

  function ConnectionURL(ip: string, port: string): string {
    "native+" + ip + "+" + port
  }

  datatype PodResult = PodFailed(store: Store) | PodReady(store: Store, pod: Pod)

  /** Find or create the worker pod. A read that fails for another reason than absence yields an empty pod. */
  function TryStartWorker(s: Store, name: string, script: Script): PodResult {
    if script.getPod.Unavailable? then PodReady(s, Pod(false, "", None))
    else if name in s.pods then PodReady(s, s.pods[name])
    else if !script.templateParses then PodFailed(s)
    else
      var pod := Pod(false, "", Some(script.port));
      var s1 := if script.createPod.Lands() then s.(pods := s.pods[name := pod]) else s;
      if script.createPod.Applied? then PodReady(s1, pod) else PodFailed(s1)
  }

  datatype WorkerResult = WorkerResult(store: Store, ok: bool, status: Status)

  /** Start the worker once a GPU is in hand, and move to Running when its pod runs. */
  function StartWorker(s: Store, name: string, pool: string, status: Status, script: Script): (r: WorkerResult)
    ensures r.store.conns == s.conns && r.store.gpus == s.gpus && r.store.pools == s.pools
    ensures r.status.gpu == status.gpu
    ensures r.status == status || r.status.phase.Running?
    ensures r.ok && r.status != status ==>
              name in s.pods && s.pods[name].running && s.pods[name].port.Some?
              && r.status.url == ConnectionURL(s.pods[name].ip, s.pods[name].port.value)
  {
    if script.getPool.Unavailable? || pool !in s.pools then WorkerResult(s, false, status)
    else
      match TryStartWorker(s, name, script)
      case PodFailed(s1) => WorkerResult(s1, false, status)
      case PodReady(s1, pod) =>
        if !pod.running then WorkerResult(s1, true, status)
        else if pod.port.None? then WorkerResult(s1, false, status.(phase := Running))
        else WorkerResult(s1, true, status.(phase := Running, url := ConnectionURL(pod.ip, pod.port.value)))
  }

  /** The GPU object the pass holds after scheduling: the one just scheduled, or a read of the recorded one. */
  function GpuInHand(w: World, status: Status, scheduled: Option<string>, script: Script): Option<GpuCopy> {
    if scheduled.Some? && scheduled.value in w.cache then
      Some(GpuCopy(scheduled.value, w.cache[scheduled.value]))
    else if status.gpu.Some? && script.getGpu.Delivered? && status.gpu.value in w.store.gpus then
      Some(GpuCopy(status.gpu.value, w.store.gpus[status.gpu.value]))
    else None
  }

  /** Start the worker if a GPU is in hand, then persist the status and the GPU. */
  function Finish(s: Store, name: string, status: Status, hand: Option<GpuCopy>, script: Script): Saved
    requires name in s.conns
  {
    var worker := if !status.phase.Pending? && hand.Some?
                  then StartWorker(s, name, s.conns[name].pool, status, script)
                  else WorkerResult(s, true, status);
    if worker.ok then Persist(worker.store, name, worker.status, hand, script.attempts) else Saved(worker.store, false)
  }

  function Proceed(w: World, name: string, status: Status, debited: Option<string>, script: Script): PassResult
    requires name in w.store.conns
  {
    var saved := Finish(w.store, name, status, GpuInHand(w, status, debited, script), script);
    PassResult(w.(store := saved.store), saved.ok, debited, None)
  }

  /** The part of the pass for a connection that is not being deleted and has its finalizer. */
  function Serve(w: World, name: string, pick: Option<string>, script: Script): PassResult
    requires name in w.store.conns
  {
    var c := w.store.conns[name];
    if !Unscheduled(c.status) then Proceed(w, name, c.status, None, script)
    else if pick.None? || pick.value !in w.cache then Proceed(w, name, c.status.(phase := Pending), None, script)
    else
      Proceed(w.(cache := Debit(w.cache, pick.value, c.request)), name,
              c.status.(phase := Starting, gpu := pick), pick, script)
  }

  function RemoveFinalizer(w: World, name: string, credited: Option<string>, script: Script): PassResult {
    var w1 := if script.removeFinalizer.Lands() then w.(store := w.store.(conns := w.store.conns - {name})) else w;
    PassResult(w1, script.removeFinalizer.Applied?, None, credited)
  }

  datatype HookResult = HookResult(world: World, ok: bool, credited: Option<string>)

  /** The deletion hook: give the request back to the scheduler, then persist. */
  function Hook(w: World, name: string, script: Script): HookResult
    requires name in w.store.conns
  {
    var c := w.store.conns[name];
    if c.status.gpu.None? then HookResult(w, true, None)
    else
      var g := c.status.gpu.value;
      if script.getGpu.Unavailable? then HookResult(w, false, None)
      else if g !in w.store.gpus then HookResult(w, true, None)
      else if g !in w.cache then HookResult(w, false, None)
      else
        var cache := Credit(w.cache, g, c.request);
        var saved := Persist(w.store, name, c.status, Some(GpuCopy(g, cache[g])), script.attempts);
        HookResult(World(saved.store, cache), saved.ok, Some(g))
  }

  /** Run the hook; drop the finalizer, and with it the object, only when the hook reports no error. */
  function Cleanup(w: World, name: string, script: Script): PassResult
    requires name in w.store.conns
  {
    var hook := Hook(w, name, script);
    if hook.ok then RemoveFinalizer(hook.world, name, hook.credited, script)
    else PassResult(hook.world, false, None, hook.credited)
  }

  /** One call of the connection reconciler, where the scheduler answers `pick` if it is asked. */
  function Pass(w: World, name: string, pick: Option<string>, script: Script): PassResult {
    if script.getConn.Unavailable? then PassResult(w, false, None, None)
    else if name !in w.store.conns then PassResult(w, true, None, None)
    else
      var c := w.store.conns[name];
      if c.deleting then
        if c.finalizer then Cleanup(w, name, script) else PassResult(w, true, None, None)
      else if c.finalizer then Serve(w, name, pick, script)
      else
        var w1 := w.(store := w.store.(conns := w.store.conns[name := c.(finalizer := true)]));
        if script.addFinalizer.Applied? then Serve(w1, name, pick, script)
        else PassResult(if script.addFinalizer.AppliedUnacked? then w1 else w, false, None, None)
  }
}
