/** What the scheduler's calls do to the table of available quantities. */
module SchedulerSpec {
  import opened Resources

  /** What Schedule may answer: no GPU exactly when none fits, otherwise any registered GPU that fits. */
  predicate PickAllowed(cache: map<string, Resource>, request: Resource, pick: Option<string>) {
    match pick
    case None => forall g :: g in cache ==> !cache[g].Covers(request)
    case Some(g) => g in cache && cache[g].Covers(request)
  }

  /** No GPU is answered if and only if each lacks something; an answered one lacks nothing. */
  lemma PickExactly(cache: map<string, Resource>, request: Resource, g: string)
    ensures PickAllowed(cache, request, None) <==>
              forall k :: k in cache ==> cache[k].tflops < request.tflops || cache[k].vram < request.vram
    ensures PickAllowed(cache, request, Some(g)) <==>
              g in cache && cache[g].tflops >= request.tflops && cache[g].vram >= request.vram
  {
  }

  function Debit(cache: map<string, Resource>, g: string, request: Resource): map<string, Resource>
    requires g in cache
  {
    cache[g := cache[g].Minus(request)]
  }

  function Credit(cache: map<string, Resource>, g: string, request: Resource): map<string, Resource>
    requires g in cache
  {
    cache[g := cache[g].Plus(request)]
  }

  // ---- Any sequence of successful calls ----

  datatype Call = Scheduled(gpu: string, request: Resource) | Released(gpu: string, request: Resource)

  /** Each Schedule was answered with a registered GPU that fits, each Release named a registered GPU. */
  predicate Succeeds(cache: map<string, Resource>, calls: seq<Call>) {
    calls == [] || (
      && calls[0].gpu in cache
      && (calls[0].Scheduled? ==> PickAllowed(cache, calls[0].request, Some(calls[0].gpu)))
      && Succeeds(After(cache, calls[0]), calls[1..]))
  }

  function After(cache: map<string, Resource>, call: Call): map<string, Resource>
    requires call.gpu in cache
  {
    if call.Scheduled? then Debit(cache, call.gpu, call.request) else Credit(cache, call.gpu, call.request)
  }

  function Replay(cache: map<string, Resource>, calls: seq<Call>): map<string, Resource>
    requires Succeeds(cache, calls)
  {
    if calls == [] then cache else Replay(After(cache, calls[0]), calls[1..])
  }

  datatype Grant = Grant(gpu: string, request: Resource) {
    function On(g: string, d: Dimension): int {
      if gpu == g then request.In(d) else 0
    }
  }

  /** The grants of the Schedule calls, or those of the Release calls, in order. */
  function Grants(calls: seq<Call>, scheduled: bool): seq<Grant> {
    if calls == [] then []
    else
      var rest := Grants(calls[1..], scheduled);
      if calls[0].Scheduled? == scheduled then [Grant(calls[0].gpu, calls[0].request)] + rest else rest
  }

  function Taken(grants: seq<Grant>, g: string, d: Dimension): int {
    if grants == [] then 0 else grants[0].On(g, d) + Taken(grants[1..], g, d)
  }

  function Without(grants: seq<Grant>, i: nat): seq<Grant>
    requires i < |grants|
  {
    grants[..i] + grants[i + 1..]
  }

  lemma WithoutBag(grants: seq<Grant>, i: nat)
    requires i < |grants|
    ensures multiset(Without(grants, i)) == multiset(grants) - multiset{grants[i]}
  {
    assert grants == grants[..i] + ([grants[i]] + grants[i + 1..]);
  }

  lemma {:induction false} TakenWithout(grants: seq<Grant>, i: nat, g: string, d: Dimension)
    requires i < |grants|
    ensures Taken(grants, g, d) == grants[i].On(g, d) + Taken(Without(grants, i), g, d)
  {
    if i == 0 {
      assert Without(grants, 0) == grants[1..];
    } else {
      TakenWithout(grants[1..], i - 1, g, d);
      assert Without(grants, i) == [grants[0]] + Without(grants[1..], i - 1);
    }
  }

  lemma {:induction false} TakenPermutes(a: seq<Grant>, b: seq<Grant>, g: string, d: Dimension)
    requires multiset(a) == multiset(b)
    ensures Taken(a, g, d) == Taken(b, g, d)
    decreases |a|
  {
    if a == [] {
      assert |b| == |multiset(b)| == |multiset(a)|;
    } else {
      assert a[0] in multiset(b);
      var i :| 0 <= i < |b| && b[i] == a[0];
      WithoutBag(a, 0);
      WithoutBag(b, i);
      TakenPermutes(Without(a, 0), Without(b, i), g, d);
      TakenWithout(a, 0, g, d);
      TakenWithout(b, i, g, d);
    }
  }

  lemma {:induction false} ReplayTakes(cache: map<string, Resource>, calls: seq<Call>, g: string, d: Dimension)
    requires Succeeds(cache, calls)
    ensures Replay(cache, calls).Keys == cache.Keys
    ensures g in cache ==> Replay(cache, calls)[g].In(d)
                           == cache[g].In(d) - Taken(Grants(calls, true), g, d) + Taken(Grants(calls, false), g, d)
  {
    if calls != [] {
      ReplayTakes(After(cache, calls[0]), calls[1..], g, d);
    }
  }

  /** When every Schedule is matched by one Release, in any order, every GPU is back to what it started with. */
  lemma MatchedCallsRestore(cache: map<string, Resource>, calls: seq<Call>)
    requires Succeeds(cache, calls)
    requires multiset(Grants(calls, true)) == multiset(Grants(calls, false))
    ensures Replay(cache, calls) == cache
  {
    ReplayTakes(cache, calls, "", Tflops);
    forall g | g in cache ensures Replay(cache, calls)[g] == cache[g] {
      forall d: Dimension ensures Replay(cache, calls)[g].In(d) == cache[g].In(d) {
        ReplayTakes(cache, calls, g, d);
        TakenPermutes(Grants(calls, true), Grants(calls, false), g, d);
      }
      SameResource(Replay(cache, calls)[g], cache[g]);
    }
  }

  lemma SameResource(a: Resource, b: Resource)
    requires forall d: Dimension :: a.In(d) == b.In(d)
    ensures a == b
  {
    assert a.In(Tflops) == b.In(Tflops) && a.In(Vram) == b.In(Vram);
  }
}

/** The scheduler itself: a table of GPU objects whose quantities it changes in place. */
module Scheduler {
  import opened Resources
  import opened SchedulerSpec

  /** The shared quantity object that a GPU's status points to. */
  class ResourceCell {
    var tflops: int
    var vram: int

    constructor (value: Resource)
      ensures Value() == value
    {
      tflops, vram := value.tflops, value.vram;
    }

    function Value(): Resource
      reads this
    {
      Resource(tflops, vram)
    }

    method Sub(request: Resource)
      modifies this
      ensures Value() == old(Value()).Minus(request)
    {
      tflops, vram := tflops - request.tflops, vram - request.vram;
    }

    method Add(request: Resource)
      modifies this
      ensures Value() == old(Value()).Plus(request)
    {
      tflops, vram := tflops + request.tflops, vram + request.vram;
    }
  }

  class GPU {
    const name: string
    var available: ResourceCell

    constructor (name: string, value: Resource)
      ensures this.name == name && fresh(available) && available.Value() == value
    {
      this.name := name;
      available := new ResourceCell(value);
    }
  }

  class NaiveScheduler {
    var gpus: map<string, GPU>

    /** Each GPU is registered under its own name, and no two registered GPUs share their quantities. */
    ghost predicate Valid()
      reads this, gpus.Values
    {
      && (forall k :: k in gpus ==> gpus[k].name == k)
      && (forall j, k :: j in gpus && k in gpus && j != k ==> gpus[j].available != gpus[k].available)
    }

    ghost function Cells(): set<ResourceCell>
      reads this, gpus.Values
    {
      set k | k in gpus :: gpus[k].available
    }

    /** The table the scheduler keeps, by value. */
    ghost function Available(): map<string, Resource>
      reads this, gpus.Values, Cells()
    {
      map k | k in gpus :: gpus[k].available.Value()
    }

    constructor ()
      ensures Valid() && Available() == map[]
    {
      gpus := map[];
    }

    /** The GPU handed out is the registered object itself, already debited. */
    method Schedule(request: Resource) returns (gpu: GPU?)
      requires Valid()
      modifies Cells()
      ensures Valid() && gpus == old(gpus) && Cells() == old(Cells())
      ensures PickAllowed(old(Available()), request, if gpu == null then None else Some(gpu.name))
      ensures gpu == null <==> forall k :: k in gpus ==>
                old(gpus[k].available.tflops) < request.tflops || old(gpus[k].available.vram) < request.vram
      ensures gpu == null ==> Available() == old(Available())
      ensures gpu != null ==>
                gpu.name in gpus && gpus[gpu.name] == gpu && Available() == Debit(old(Available()), gpu.name, request)
      ensures gpu != null ==>
                && old(Available())[gpu.name].tflops >= request.tflops
                && old(Available())[gpu.name].vram >= request.vram
                && gpu.available.tflops == old(Available())[gpu.name].tflops - request.tflops
                && gpu.available.vram == old(Available())[gpu.name].vram - request.vram
    {
      var todo := gpus.Keys;
      while todo != {}
        invariant todo <= gpus.Keys
        invariant forall k :: k in gpus && k !in todo ==> !gpus[k].available.Value().Covers(request)
      {
        // a map may be iterated in any order
        var k :| k in todo;
        todo := todo - {k};
        var candidate := gpus[k];
        if candidate.available.Value().Covers(request) {
          candidate.available.Sub(request);
          return candidate;
        }
      }
      gpu := null;
    }

    /** Credits the registered object, then makes the caller's copy point at the same quantities. */
    method Release(request: Resource, gpu: GPU) returns (ok: bool)
      requires Valid()
      modifies gpu`available, Cells()
      ensures Valid() && gpus == old(gpus) && Cells() == old(Cells())
      ensures ok <==> gpu.name in gpus
      ensures !ok ==> Available() == old(Available()) && gpu.available == old(gpu.available)
      ensures ok ==> Available() == Credit(old(Available()), gpu.name, request)
                     && gpu.available == gpus[gpu.name].available
                     && gpu.available.tflops == old(Available())[gpu.name].tflops + request.tflops
                     && gpu.available.vram == old(Available())[gpu.name].vram + request.vram
    {
      if gpu.name !in gpus {
        return false;
      }
      var existing := gpus[gpu.name];
      existing.available.Add(request);
      gpu.available := existing.available;
      ok := true;
    }

    /** Register a GPU, or replace the object registered under its name. */
    method OnAdd(gpu: GPU)
      requires Valid()
      requires forall k :: k in gpus && k != gpu.name ==> gpus[k].available != gpu.available
      modifies this
      ensures Valid() && Available() == old(Available())[gpu.name := gpu.available.Value()]
      ensures gpu.name in gpus && gpus[gpu.name] == gpu
    {
      gpus := gpus[gpu.name := gpu];
    }

    method OnUpdate(oldGpu: GPU, newGpu: GPU)
      requires Valid()
      requires forall k :: k in gpus && k != newGpu.name ==> gpus[k].available != newGpu.available
      modifies this
      ensures Valid() && Available() == old(Available())[newGpu.name := newGpu.available.Value()]
      ensures newGpu.name in gpus && gpus[newGpu.name] == newGpu
    {
      gpus := gpus[newGpu.name := newGpu];
    }

    method OnDelete(gpu: GPU)
      requires Valid()
      modifies this
      ensures Valid() && Available() == old(Available()) - {gpu.name}
    {
      gpus := gpus - {gpu.name};
    }
  }
}
