/** The connection reconciler as the operator runs it, on heap objects; each method is proved against the protocol. */
module ConnectionReconciler {
  import opened Resources
  import opened SchedulerSpec
  import opened Scheduler
  import opened ConnectionProtocol
  import ConnectionRuns

  /** The API server's objects. The reply to each call is decided by the caller's script. */
  class ApiServer {
    var conns: map<string, Connection>
    var gpus: map<string, Resource>
    var pods: map<string, Pod>
    var pools: set<string>

    function View(): Store
      reads this
    {
      Store(conns, gpus, pods, pools)
    }
  }

  class Reconciler {
    const api: ApiServer
    const scheduler: NaiveScheduler

    constructor (api: ApiServer, scheduler: NaiveScheduler)
      ensures this.api == api && this.scheduler == scheduler
    {
      this.api := api;
      this.scheduler := scheduler;
    }

    ghost function View(): World
      reads api, scheduler, scheduler.gpus.Values, scheduler.Cells()
    {
      World(api.View(), scheduler.Available())
    }

    /** Write the connection status and the GPU's quantities, starting again on every conflict. */
    method MustUpdateStatus(name: string, status: Status, gpu: GPU?, attempts: seq<Attempt>) returns (ok: bool)
      requires name in api.conns
      modifies api
      ensures var hand := if gpu == null then None else Some(GpuCopy(gpu.name, gpu.available.Value()));
              var saved := Persist(old(api.View()), name, status, hand, attempts);
              api.View() == saved.store && ok == saved.ok
    {
      ghost var hand := if gpu == null then None else Some(GpuCopy(gpu.name, gpu.available.Value()));
      ghost var goal := Persist(api.View(), name, status, hand, attempts);
      for i := 0 to |attempts|
        invariant name in api.conns
        invariant hand == if gpu == null then None else Some(GpuCopy(gpu.name, gpu.available.Value()))
        invariant Persist(api.View(), name, status, hand, attempts[i..]) == goal
      {
        var a := attempts[i];
        assert attempts[i..][0] == a && attempts[i..][1..] == attempts[i + 1..];
        if a.getConn.Unavailable? {
          return false;
        }
        if a.putConn.Lands() {
          api.conns := api.conns[name := api.conns[name].(status := status)];
        }
        if !a.putConn.Applied? {
          if a.putConn.Conflict? { continue; }
          return false;
        }
        if gpu == null {
          return true;
        }
        if a.getGpu.Unavailable? || gpu.name !in api.gpus {
          return false;
        }
        if a.putGpu.Lands() {
          api.gpus := api.gpus[gpu.name := gpu.available.Value()];
        }
        if !a.putGpu.Applied? {
          if a.putGpu.Conflict? { continue; }
          return false;
        }
        return true;
      }
      ok := false;
    }

    method TryStartWorker(name: string, script: Script) returns (ok: bool, pod: Pod)
      modifies api
      ensures api.View() == ConnectionProtocol.TryStartWorker(old(api.View()), name, script).store
      ensures match ConnectionProtocol.TryStartWorker(old(api.View()), name, script)
              case PodFailed(_) => !ok
              case PodReady(_, p) => ok && pod == p
    {
      ok, pod := true, Pod(false, "", None);
      if script.getPod.Unavailable? {
        return;
      }
      if name in api.pods {
        pod := api.pods[name];
        return;
      }
      if !script.templateParses {
        return false, pod;
      }
      pod := Pod(false, "", Some(script.port));
      if script.createPod.Lands() {
        api.pods := api.pods[name := pod];
      }
      ok := script.createPod.Applied?;
    }

    /** Read the GPU and release the request on it; the copy that was read then shares the scheduler's quantities. */
    method GiveBack(request: Resource, g: string) returns (gpu: GPU?)
      requires scheduler.Valid() && g in api.gpus
      modifies scheduler.Cells()
      ensures gpu == null <==> g !in scheduler.gpus
      ensures gpu == null ==> scheduler.Available() == old(scheduler.Available())
      ensures gpu != null ==>
                && g in old(scheduler.Available())
                && scheduler.Available() == Credit(old(scheduler.Available()), g, request)
                && gpu.name == g && gpu.available.Value() == scheduler.Available()[g]
    {
      ghost var before, cells := scheduler.Available(), scheduler.Cells();
      gpu := new GPU(g, api.gpus[g]);
      assert scheduler.Valid() && scheduler.Available() == before && scheduler.Cells() == cells;
      hide NaiveScheduler.Cells, NaiveScheduler.Available, NaiveScheduler.Valid;
      var ok := scheduler.Release(request, gpu);
      if !ok {
        gpu := null;
      }
    }

    /** The deletion hook. */
    method HandleDeletion(name: string, script: Script) returns (ok: bool, credited: Option<string>)
      requires scheduler.Valid() && name in api.conns
      modifies api, scheduler.Cells()
      ensures name in api.conns
      ensures HookResult(View(), ok, credited) == Hook(old(View()), name, script)
    {
      var c := api.conns[name];
      credited := None;
      if c.status.gpu.None? {
        return true, None;
      }
      if script.getGpu.Unavailable? {
        return false, None;
      }
      if c.status.gpu.value !in api.gpus {
        return true, None;
      }
      var gpu := GiveBack(c.request, c.status.gpu.value);
      if gpu == null {
        return false, None;
      }
      credited := c.status.gpu;
      ghost var after, cells := scheduler.Available(), scheduler.Cells();
      ok := MustUpdateStatus(name, c.status, gpu, script.attempts);
      assert scheduler.Cells() == cells;
      assert scheduler.Available() == after;
    }

    /** The deletion side of the finalizer handling: the hook, then the finalizer's removal. */
    method Clean(name: string, script: Script) returns (ok: bool, credited: Option<string>)
      requires scheduler.Valid() && name in api.conns
      modifies api, scheduler.Cells()
      ensures PassResult(View(), ok, None, credited) == Cleanup(old(View()), name, script)
    {
      ok, credited := HandleDeletion(name, script);
      if ok {
        ghost var after := scheduler.Available();
        if script.removeFinalizer.Lands() {
          api.conns := api.conns - {name};
        }
        ok := script.removeFinalizer.Applied?;
        assert scheduler.Available() == after;
      }
    }

    /** One reconcile pass; `pick` is the GPU the scheduler answered with, if it was asked. */
    method Reconcile(name: string, script: Script)
      returns (ok: bool, pick: Option<string>, debited: Option<string>, credited: Option<string>)
      requires scheduler.Valid()
      modifies api, scheduler.Cells()
      ensures PassResult(View(), ok, debited, credited) == Pass(old(View()), name, pick, script)
      ensures ConnectionRuns.Enabled(old(View()), ConnectionRuns.Event.Reconcile(name, pick, script))
    {
      ok, pick, debited, credited := false, None, None, None;
      if script.getConn.Unavailable? {
        return;
      }
      if name !in api.conns {
        ok := true;
        return;
      }
      if api.conns[name].deleting {
        if api.conns[name].finalizer {
          ok, credited := Clean(name, script);
        } else {
          ok := true;
        }
        return;
      }
      if !api.conns[name].finalizer {
        ghost var before := scheduler.Available();
        if script.addFinalizer.Lands() {
          api.conns := api.conns[name := api.conns[name].(finalizer := true)];
        }
        assert scheduler.Available() == before;
        if !script.addFinalizer.Applied? {
          return;
        }
      }
      ok, pick, debited := ServeConnection(name, script);
    }

    /** Ask the scheduler if the connection has no GPU yet. */
    method AskScheduler(c: Connection) returns (gpu: GPU?, status: Status, pick: Option<string>)
      requires scheduler.Valid()
      modifies scheduler.Cells()
      ensures if !Unscheduled(c.status) then
                gpu == null && pick == None && status == c.status && scheduler.Available() == old(scheduler.Available())
              else
                && PickAllowed(old(scheduler.Available()), c.request, pick)
                && (gpu == null <==> pick == None)
                && (pick.None? ==>
                      && status == c.status.(phase := Pending)
                      && scheduler.Available() == old(scheduler.Available()))
                && (pick.Some? ==>
                      && gpu.name == pick.value
                      && status == c.status.(phase := Starting, gpu := pick)
                      && scheduler.Available() == Debit(old(scheduler.Available()), pick.value, c.request)
                      && gpu.available.Value() == scheduler.Available()[pick.value])
    {
      gpu, status, pick := null, c.status, None;
      if Unscheduled(status) {
        gpu := scheduler.Schedule(c.request);
        if gpu == null {
          status := status.(phase := Pending);
        } else {
          pick := Some(gpu.name);
          status := status.(phase := Starting, gpu := pick);
        }
      }
    }

    /** Check the result of scheduling: without a GPU in hand, read the recorded one. */
    method ReadRecordedGpu(scheduled: GPU?, status: Status, script: Script) returns (gpu: GPU?)
      ensures scheduled != null ==> gpu == scheduled
      ensures scheduled == null ==>
                (if gpu == null then None else Some(GpuCopy(gpu.name, gpu.available.Value())))
                == GpuInHand(World(api.View(), map[]), status, None, script)
    {
      gpu := scheduled;
      if gpu == null && status.gpu.Some? && script.getGpu.Delivered? && status.gpu.value in api.gpus {
        gpu := new GPU(status.gpu.value, api.gpus[status.gpu.value]);
      }
    }

    /** The rest of the pass: schedule, start the worker, persist. */
    method ServeConnection(name: string, script: Script)
      returns (ok: bool, pick: Option<string>, debited: Option<string>)
      requires scheduler.Valid() && name in api.conns
      modifies api, scheduler.Cells()
      ensures Unscheduled(old(api.conns[name].status)) ==>
                PickAllowed(old(scheduler.Available()), old(api.conns[name].request), pick)
      ensures PassResult(View(), ok, debited, None) == Serve(old(View()), name, pick, script)
    {
      hide ConnectionProtocol.Finish;
      var scheduled, status;
      scheduled, status, pick := AskScheduler(api.conns[name]);
      debited := pick;
      var gpu := ReadRecordedGpu(scheduled, status, script);
      ghost var after, cells := scheduler.Available(), scheduler.Cells();
      ok := Finish(name, status, gpu, script);
      assert scheduler.Cells() == cells;
      assert scheduler.Available() == after;
    }

    method Finish(name: string, status: Status, gpu: GPU?, script: Script) returns (ok: bool)
      requires name in api.conns
      modifies api
      ensures var hand := if gpu == null then None else Some(GpuCopy(gpu.name, gpu.available.Value()));
              Saved(api.View(), ok) == ConnectionProtocol.Finish(old(api.View()), name, status, hand, script)
    {
      var final := status;
      if !status.phase.Pending? && gpu != null {
        if script.getPool.Unavailable? || api.conns[name].pool !in api.pools {
          return false;
        }
        var started, pod := TryStartWorker(name, script);
        if !started {
          return false;
        }
        if pod.running {
          if pod.port.None? {
            return false;
          }
          final := status.(phase := Running, url := ConnectionURL(pod.ip, pod.port.value));
        }
      }
      ok := MustUpdateStatus(name, final, gpu, script.attempts);
    }
  }
}
