/**
 Subscriptions to connection updates: a table of one-slot channels by connection, changed under a lock. A history
 of the steps taken, kept beside the table, says what each subscriber was offered and what it took.
 */
module ConnectionWatcher {
  import opened Resources

  datatype ConnectionKey = ConnectionKey(name: string, namespace: string)

  /** An update of one connection, as the watch delivers it. */
  datatype Update = Update(key: ConnectionKey, content: string)

  /** A channel with room for one update. */
  class Channel {
    var buffer: Option<Update>
    var closed: bool
    const key: ConnectionKey
    /** All updates for the key since the subscription, while it lasts. */
    ghost var offered: seq<Update>
    ghost var received: seq<Update>
    /** For each offered update, whether it was put in the buffer. */
    ghost var kept: seq<bool>

    constructor (key: ConnectionKey)
      ensures buffer == None && !closed && this.key == key
      ensures offered == [] && received == [] && kept == []
    {
      buffer, closed := None, false;
      this.key := key;
      offered, received, kept := [], [], [];
    }

    /** What the subscriber has or can still get, in order. */
    ghost function Delivered(): seq<Update>
      reads this
    {
      received + if buffer.Some? then [buffer.value] else []
    }

    /** Delivered is the subsequence of the offered updates that were kept. */
    ghost predicate Faithful()
      reads this
    {
      && |kept| == |offered|
      && Delivered() == Kept(offered, kept)
      && forall u :: u in offered ==> u.key == key
    }

    /** What this channel delivered is an in-order subsequence of what it was offered, all for its own key. */
    lemma DeliversInOrder() returns (places: seq<nat>)
      requires Faithful()
      ensures |places| == |Delivered()|
      ensures forall i :: 0 <= i < |places| ==>
                places[i] < |offered| && offered[places[i]] == Delivered()[i] && Delivered()[i].key == key
      ensures forall i, j :: 0 <= i < j < |places| ==> places[i] < places[j]
    {
      places := KeptInOrder(offered, kept);
    }

    /** Send without blocking: an update that finds the slot taken is dropped. */
    method Offer(u: Update)
      requires !closed && Faithful() && u.key == key
      modifies this
      ensures Faithful() && !closed
      ensures offered == old(offered) + [u] && received == old(received)
      ensures old(buffer.None?) ==> buffer == Some(u) && kept == old(kept) + [true]
      ensures old(buffer.Some?) ==> buffer == old(buffer) && kept == old(kept) + [false]
    {
      KeptGrows(offered, kept, u, buffer.None?);
      offered, kept := offered + [u], kept + [buffer.None?];
      if buffer.None? {
        buffer := Some(u);
      }
    }

    /** The subscriber takes what is in the slot, also after the channel was closed. */
    method Receive() returns (u: Option<Update>)
      requires Faithful()
      modifies this
      ensures Faithful() && closed == old(closed) && Delivered() == old(Delivered())
      ensures u == old(buffer) && buffer == None && offered == old(offered) && kept == old(kept)
      ensures received == if u.Some? then old(received) + [u.value] else old(received)
    {
      u := buffer;
      if u.Some? {
        received := received + [u.value];
      }
      buffer := None;
    }
  }

  /** The sublist picked out by the marks. */
  ghost function Kept(us: seq<Update>, marks: seq<bool>): seq<Update>
    requires |us| == |marks|
  {
    if us == [] then []
    else Kept(us[..|us| - 1], marks[..|us| - 1]) + if marks[|us| - 1] then [us[|us| - 1]] else []
  }

  lemma KeptGrows(us: seq<Update>, marks: seq<bool>, u: Update, mark: bool)
    requires |us| == |marks|
    ensures Kept(us + [u], marks + [mark]) == Kept(us, marks) + if mark then [u] else []
  {
  }

  /** The places are increasing, and the sublist has what the list has there. */
  ghost predicate At(us: seq<Update>, kept: seq<Update>, places: seq<nat>) {
    && |places| == |kept|
    && (forall i :: 0 <= i < |places| ==> places[i] < |us| && us[places[i]] == kept[i])
    && forall i, j :: 0 <= i < j < |places| ==> places[i] < places[j]
  }

  lemma AtGrows(us: seq<Update>, kept: seq<Update>, places: seq<nat>, u: Update)
    requires At(us, kept, places)
    ensures At(us + [u], kept, places)
    ensures At(us + [u], kept + [u], places + [|us|])
  {
  }

  /** A sublist by marks keeps the order: later elements come from later places. */
  lemma {:induction false} KeptInOrder(us: seq<Update>, marks: seq<bool>) returns (places: seq<nat>)
    requires |us| == |marks|
    ensures At(us, Kept(us, marks), places)
  {
    places := [];
    if us != [] {
      hide At;
      var n := |us| - 1;
      places := KeptInOrder(us[..n], marks[..n]);
      AtGrows(us[..n], Kept(us[..n], marks[..n]), places, us[n]);
      assert us == us[..n] + [us[n]];
      if marks[n] {
        places := places + [n];
      }
    }
  }

  class Watcher {
    var subs: map<ConnectionKey, set<Channel>>

    /** Channels are registered under their own key only, and no key is left with an empty set. */
    ghost predicate Keyed()
      reads this
    {
      forall k :: k in subs ==> subs[k] != {} && forall ch :: ch in subs[k] ==> ch.key == k
    }

    /** ... and every registered channel is open. */
    ghost predicate Valid()
      reads this, Channels()
    {
      Keyed() && forall ch :: ch in Channels() ==> !ch.closed && ch.Faithful()
    }

    ghost function Channels(): set<Channel>
      reads this
    {
      set k, ch | k in subs && ch in subs[k] :: ch
    }

    lemma ChannelsAre()
      requires Keyed()
      ensures forall ch :: ch in Channels() <==> ch in Under(ch.key)
    {
    }

    function Under(k: ConnectionKey): set<Channel>
      reads this
    {
      if k in subs then subs[k] else {}
    }

    constructor ()
      ensures Valid() && Channels() == {}
    {
      subs := map[];
    }

    method Subscribe(key: ConnectionKey) returns (ch: Channel)
      requires Valid()
      modifies this
      ensures Valid() && fresh(ch) && ch.key == key && ch.buffer == None && ch.offered == [] && ch.received == []
      ensures Under(key) == old(Under(key)) + {ch}
      ensures forall k :: k != key ==> Under(k) == old(Under(k))
    {
      ch := new Channel(key);
      if key !in subs {
        subs := subs[key := {}];
      }
      subs := subs[key := subs[key] + {ch}];
    }

    /** The cancel function of a subscription; `panics` is the close of a channel that is closed already. */
    method Cancel(ch: Channel, key: ConnectionKey) returns (panics: bool)
      requires Valid() && key == ch.key
      modifies this, ch`closed
      ensures old(ch in Under(ch.key)) ==> !panics && ch.closed
      ensures panics <==> old(ch.closed) && old(ch.key in subs)
      ensures ch.closed <==> old(ch.closed) || old(ch.key in subs)
      ensures ch.buffer == old(ch.buffer) && Valid()
      ensures Under(ch.key) == old(Under(ch.key)) - {ch}
      ensures forall k :: k != ch.key ==> Under(k) == old(Under(k))
    {
      panics := false;
      if key in subs {
        var chans := subs[key] - {ch};
        panics := ch.closed;
        ch.closed := true;
        if chans == {} {
          subs := subs - {key};
        } else {
          subs := subs[key := chans];
        }
      }
    }

    /** One event of the watch: offered to every subscriber of its connection, in any order. */
    method Deliver(u: Update)
      requires Valid()
      modifies Channels()
      ensures Valid() && subs == old(subs)
      ensures forall ch :: ch in Under(u.key) ==> Offered(old(ch.offered), old(ch.received), old(ch.buffer), ch, u)
      ensures forall ch :: ch in Channels() && ch !in Under(u.key) ==> unchanged(ch)
    {
      hide Channel.Faithful;
      if u.key in subs {
        OfferToAll(subs[u.key], u);
      }
    }
  }

  /** The channels of one key are served in any order. */
  method OfferToAll(subscribers: set<Channel>, u: Update)
    requires forall ch :: ch in subscribers ==> !ch.closed && ch.Faithful() && ch.key == u.key
    modifies subscribers
    ensures forall ch :: ch in subscribers ==> !ch.closed && ch.Faithful()
    ensures forall ch :: ch in subscribers ==> Offered(old(ch.offered), old(ch.received), old(ch.buffer), ch, u)
  {
    hide Channel.Faithful;
    var todo := subscribers;
    while todo != {}
      invariant todo <= subscribers
      invariant forall ch :: ch in subscribers - todo ==> !ch.closed && ch.Faithful()
      invariant forall ch :: ch in subscribers - todo ==>
                  Offered(old(ch.offered), old(ch.received), old(ch.buffer), ch, u)
      invariant forall ch :: ch in todo ==> unchanged(ch)
    {
      var ch :| ch in todo;
      todo := todo - {ch};
      ch.Offer(u);
    }
  }

  /** The channel went through exactly one offer of the update: kept if its slot was free, dropped otherwise. */
  ghost predicate Offered(offered: seq<Update>, received: seq<Update>, buffer: Option<Update>, ch: Channel, u: Update)
    reads ch
  {
    && ch.offered == offered + [u]
    && ch.received == received
    && ch.buffer == if buffer.None? then Some(u) else buffer
  }
}

/** Every interleaving of subscriptions, cancellations, watch events and receptions. */
module WatcherRuns {
  import opened Resources
  import opened ConnectionWatcher

  /** Subscriptions are numbered in the order in which they were made. */
  datatype Step =
    | SubscribeTo(key: ConnectionKey)
    | CancelOf(n: nat)
    | WatchEvent(update: Update)
    | TakeFrom(n: nat)

  // ---- What a history says of each subscription ----

  /** The keys of the subscriptions, in order. */
  function KeysOf(steps: seq<Step>): seq<ConnectionKey> {
    if steps == [] then []
    else
      var init, last := steps[..|steps| - 1], steps[|steps| - 1];
      KeysOf(init) + if last.SubscribeTo? then [last.key] else []
  }

  /** The subscriptions that were cancelled. */
  function CancelledIn(steps: seq<Step>): set<nat> {
    if steps == [] then {}
    else
      var init, last := steps[..|steps| - 1], steps[|steps| - 1];
      CancelledIn(init) + if last.CancelOf? && last.n < |KeysOf(init)| then {last.n} else {}
  }

  /** After these steps the subscription is open: it was made for that key and is not cancelled. */
  predicate Hears(steps: seq<Step>, n: nat, key: ConnectionKey) {
    n < |KeysOf(steps)| && KeysOf(steps)[n] == key && n !in CancelledIn(steps)
  }

  /** The updates for its key from the subscription to its cancellation, in order. */
  function OfferedTo(steps: seq<Step>, n: nat): seq<Update> {
    if steps == [] then []
    else
      var init, last := steps[..|steps| - 1], steps[|steps| - 1];
      OfferedTo(init, n) + if last.WatchEvent? && Hears(init, n, last.update.key) then [last.update] else []
  }

  /** What is in the channel's slot. */
  function SlotOf(steps: seq<Step>, n: nat): Option<Update> {
    if steps == [] then None
    else
      var init, last := steps[..|steps| - 1], steps[|steps| - 1];
      var slot := SlotOf(init, n);
      if last.WatchEvent? && Hears(init, n, last.update.key) && slot.None? then Some(last.update)
      else if last == TakeFrom(n) then None
      else slot
  }

  /** What the receptions of the subscriber returned, in order. */
  function ReceivedBy(steps: seq<Step>, n: nat): seq<Update> {
    if steps == [] then []
    else
      var init, last := steps[..|steps| - 1], steps[|steps| - 1];
      ReceivedBy(init, n) + if last == TakeFrom(n) && SlotOf(init, n).Some? then [SlotOf(init, n).value] else []
  }

  /** What the subscriber has received, and what it can still get. */
  function DeliveredTo(steps: seq<Step>, n: nat): seq<Update> {
    ReceivedBy(steps, n) + if SlotOf(steps, n).Some? then [SlotOf(steps, n).value] else []
  }

  /** What the step returns to a subscriber. */
  function Returns(past: seq<Step>, step: Step): Option<Update> {
    if step.TakeFrom? then SlotOf(past, step.n) else None
  }

  /** A second cancellation closes a closed channel exactly if the key has another subscriber by then. */
  ghost predicate Panics(past: seq<Step>, step: Step) {
    && step.CancelOf? && step.n in CancelledIn(past) && step.n < |KeysOf(past)|
    && exists m: nat :: Hears(past, m, KeysOf(past)[step.n])
  }

  // ---- What the history functions mean ----

  /** What an event offers a subscription, and leaves in its slot. */
  lemma AfterEvent(past: seq<Step>, u: Update)
    ensures var now := past + [WatchEvent(u)];
            && KeysOf(now) == KeysOf(past) && CancelledIn(now) == CancelledIn(past)
            && (forall n :: ReceivedBy(now, n) == ReceivedBy(past, n))
            && (forall n :: OfferedTo(now, n) == OfferedTo(past, n) + if Hears(past, n, u.key) then [u] else [])
            && (forall n :: SlotOf(now, n)
                         == if Hears(past, n, u.key) && SlotOf(past, n).None? then Some(u) else SlotOf(past, n))
  {
    assert (past + [WatchEvent(u)])[..|past|] == past;
  }

  /** Subscriptions and cancellations leave the past of all subscriptions as it is. */
  lemma AfterChange(past: seq<Step>, step: Step)
    requires step.SubscribeTo? || step.CancelOf?
    ensures var now := past + [step];
            && KeysOf(now) == KeysOf(past) + (if step.SubscribeTo? then [step.key] else [])
            && CancelledIn(now)
               == CancelledIn(past) + (if step.CancelOf? && step.n < |KeysOf(past)| then {step.n} else {})
            && (forall n :: ReceivedBy(now, n) == ReceivedBy(past, n))
            && (forall n :: OfferedTo(now, n) == OfferedTo(past, n))
            && (forall n :: SlotOf(now, n) == SlotOf(past, n))
  {
    assert (past + [step])[..|past|] == past;
  }

  /** A reception empties one slot. */
  lemma AfterTake(past: seq<Step>, n: nat)
    ensures var now := past + [TakeFrom(n)];
            && KeysOf(now) == KeysOf(past) && CancelledIn(now) == CancelledIn(past)
            && (forall m :: OfferedTo(now, m) == OfferedTo(past, m))
            && (forall m :: SlotOf(now, m) == if m == n then None else SlotOf(past, m))
            && (forall m :: ReceivedBy(now, m)
                         == if m == n && SlotOf(past, n).Some? then ReceivedBy(past, n) + [SlotOf(past, n).value]
                            else ReceivedBy(past, m))
  {
    assert (past + [TakeFrom(n)])[..|past|] == past;
  }

  /** Cancelled are exactly the subscriptions that some step cancelled after they were made. */
  lemma {:induction false} CancelledExactly(steps: seq<Step>, n: nat)
    ensures n in CancelledIn(steps) <==>
              exists j :: 0 <= j < |steps| && steps[j] == CancelOf(n) && n < |KeysOf(steps[..j])|
    ensures n in CancelledIn(steps) ==> n < |KeysOf(steps)|
  {
    if steps != [] {
      var last := |steps| - 1;
      CancelledExactly(steps[..last], n);
      assert forall j :: 0 <= j < last ==> steps[..last][..j] == steps[..j] && steps[..last][j] == steps[j];
      if n in CancelledIn(steps[..last]) {
        var j :| 0 <= j < last && steps[..last][j] == CancelOf(n) && n < |KeysOf(steps[..last][..j])|;
        assert steps[j] == CancelOf(n) && n < |KeysOf(steps[..j])|;
      }
    }
  }

  /** The places are increasing, and at each of them the history has an update that the subscription hears. */
  ghost predicate Places(steps: seq<Step>, n: nat, us: seq<Update>, places: seq<nat>) {
    && |places| == |us|
    && (forall i, j :: 0 <= i < j < |places| ==> places[i] < places[j])
    && forall i :: 0 <= i < |places| ==>
         places[i] < |steps| && steps[places[i]] == WatchEvent(us[i]) && Hears(steps[..places[i]], n, us[i].key)
  }

  lemma PlacesStay(steps: seq<Step>, step: Step, n: nat, us: seq<Update>, places: seq<nat>)
    requires Places(steps, n, us, places)
    ensures Places(steps + [step], n, us, places)
    ensures step.WatchEvent? && Hears(steps, n, step.update.key) ==>
              Places(steps + [step], n, us + [step.update], places + [|steps|])
  {
    hide Hears;
    assert (steps + [step])[..|steps|] == steps;
    assert forall j :: 0 <= j < |steps| ==> (steps + [step])[..j] == steps[..j];
  }

  /** The step is a watch event that the subscription hears. */
  predicate HearsAt(steps: seq<Step>, n: nat, j: nat)
    requires j < |steps|
  {
    steps[j].WatchEvent? && Hears(steps[..j], n, steps[j].update.key)
  }

  /** The updates offered to a subscription are all those that it hears, each once and in order. */
  lemma {:induction false} OfferedExactly(steps: seq<Step>, n: nat) returns (places: seq<nat>)
    ensures Places(steps, n, OfferedTo(steps, n), places)
    ensures forall j :: 0 <= j < |steps| && HearsAt(steps, n, j) ==> j in places
  {
    places := [];
    if steps != [] {
      hide Hears;
      var init, last := steps[..|steps| - 1], steps[|steps| - 1];
      places := OfferedExactly(init, n);
      PlacesStay(init, last, n, OfferedTo(init, n), places);
      assert steps == init + [last];
      ghost var before := places;
      if last.WatchEvent? && Hears(init, n, last.update.key) {
        places := places + [|init|];
      }
      forall j | 0 <= j < |steps| && HearsAt(steps, n, j) ensures j in places {
        if j < |init| {
          assert init[..j] == steps[..j] && init[j] == steps[j];
          assert j in before;
        } else {
          assert places[|places| - 1] == j;
        }
      }
    }
  }

  /**
   What a subscriber received together with what is in its slot is an in-order subsequence of the watch events for its
   key after it subscribed and before it cancelled.
   */
  lemma {:induction false} DeliveredInOrder(steps: seq<Step>, n: nat) returns (places: seq<nat>)
    ensures Places(steps, n, DeliveredTo(steps, n), places)
  {
    places := [];
    if steps != [] {
      hide Hears;
      var init, last := steps[..|steps| - 1], steps[|steps| - 1];
      places := DeliveredInOrder(init, n);
      PlacesStay(init, last, n, DeliveredTo(init, n), places);
      assert steps == init + [last];
      if last.WatchEvent? && Hears(init, n, last.update.key) && SlotOf(init, n).None? {
        places := places + [|init|];
        assert DeliveredTo(steps, n) == DeliveredTo(init, n) + [last.update];
      } else {
        assert DeliveredTo(steps, n) == DeliveredTo(init, n);
      }
    }
  }

  /** When no subscription is cancelled twice, nothing panics: each channel is closed at most once. */
  lemma OneCancelNeverPanics(steps: seq<Step>, j: nat)
    requires forall i, k :: 0 <= i < k < |steps| && steps[i].CancelOf? ==> steps[i] != steps[k]
    requires j < |steps|
    ensures !Panics(steps[..j], steps[j])
  {
    if steps[j].CancelOf? {
      CancelledExactly(steps[..j], steps[j].n);
    }
  }

  // ---- The watcher keeps to its history ----

  /** Subscription `n` has the channel that its history says: its key, its slot, its past, and whether it is open. */
  ghost predicate Tracked(w: Watcher, ch: Channel, past: seq<Step>, n: nat)
    requires n < |KeysOf(past)|
    reads w, ch
  {
    && ch.key == KeysOf(past)[n]
    && (ch in w.Under(ch.key) <==> n !in CancelledIn(past))
    && (ch.closed <==> n in CancelledIn(past))
    && ch.offered == OfferedTo(past, n)
    && ch.buffer == SlotOf(past, n)
    && ch.received == ReceivedBy(past, n)
    && ch.Faithful()
  }

  ghost predicate Consistent(w: Watcher, chans: seq<Channel>, past: seq<Step>)
    reads w, chans
  {
    && w.Keyed()
    && |chans| == |KeysOf(past)|
    && (forall i, j :: 0 <= i < j < |chans| ==> chans[i] != chans[j])
    && (forall i :: 0 <= i < |chans| ==> Tracked(w, chans[i], past, i))
    && (forall k, ch :: ch in w.Under(k) ==> ch in chans)
  }

  lemma ConsistentIsValid(w: Watcher, chans: seq<Channel>, past: seq<Step>)
    requires Consistent(w, chans, past)
    ensures w.Valid()
    ensures forall ch :: ch in w.Channels() ==> ch in chans
  {
    forall ch | ch in w.Channels() ensures ch in chans && !ch.closed && ch.Faithful() {
      assert ch in w.Under(ch.key);
      assert ch in chans;
      var i :| 0 <= i < |chans| && chans[i] == ch;
      assert Tracked(w, chans[i], past, i);
    }
  }

  /** A key is in the table exactly if some subscription for it is open. */
  lemma KeyIsOpen(w: Watcher, chans: seq<Channel>, past: seq<Step>, key: ConnectionKey)
    requires Consistent(w, chans, past)
    ensures key in w.subs <==> exists m: nat :: Hears(past, m, key)
  {
    hide KeysOf, CancelledIn, OfferedTo, SlotOf, ReceivedBy, Channel.Faithful;
    if key in w.subs {
      var ch :| ch in w.subs[key];
      assert ch in w.Under(key) && ch in chans;
      var m :| 0 <= m < |chans| && chans[m] == ch;
      assert Tracked(w, chans[m], past, m) && Hears(past, m, key);
    }
    if m: nat :| Hears(past, m, key) {
      assert Tracked(w, chans[m], past, m);
    }
  }

  /** Nothing happens to a subscription before it is made. */
  lemma {:induction false} NothingYet(steps: seq<Step>, n: nat)
    requires n >= |KeysOf(steps)|
    ensures OfferedTo(steps, n) == [] && SlotOf(steps, n) == None && ReceivedBy(steps, n) == []
    ensures n !in CancelledIn(steps)
  {
    if steps != [] {
      NothingYet(steps[..|steps| - 1], n);
    }
  }

  /** A new channel joins the others. */
  lemma Joins(w: Watcher, chans: seq<Channel>, ch: Channel, now: seq<Step>)
    requires w.Keyed() && |KeysOf(now)| == |chans| + 1 && ch !in chans
    requires forall i, j :: 0 <= i < j < |chans| ==> chans[i] != chans[j]
    requires Tracked(w, ch, now, |chans|) && forall i :: 0 <= i < |chans| ==> Tracked(w, chans[i], now, i)
    requires forall k, c :: c in w.Under(k) ==> c in chans || c == ch
    ensures Consistent(w, chans + [ch], now)
  {
    hide KeysOf, Tracked, Watcher.Under, Watcher.Keyed;
  }

  method Subscribe(w: Watcher, chans: seq<Channel>, ghost past: seq<Step>, key: ConnectionKey) returns (ch: Channel)
    requires Consistent(w, chans, past)
    modifies w
    ensures Consistent(w, chans + [ch], past + [SubscribeTo(key)]) && fresh(ch)
  {
    ConsistentIsValid(w, chans, past);
    hide KeysOf, CancelledIn, OfferedTo, SlotOf, ReceivedBy, Channel.Faithful;
    ghost var now := past + [SubscribeTo(key)];
    AfterChange(past, SubscribeTo(key));
    NothingYet(past, |chans|);
    ch := w.Subscribe(key);
    assert ch in w.Under(key) && ch in w.Channels();
    assert Tracked(w, ch, now, |chans|);
    forall i | 0 <= i < |chans| ensures Tracked(w, chans[i], now, i) {
      assert old(Tracked(w, chans[i], past, i));
    }
    hide Consistent;
    Joins(w, chans, ch, now);
  }

  method Cancel(w: Watcher, chans: seq<Channel>, ghost past: seq<Step>, n: nat) returns (panicked: bool)
    requires Consistent(w, chans, past) && n < |chans|
    modifies w, chans[n]
    ensures Consistent(w, chans, past + [CancelOf(n)])
    ensures panicked <==> Panics(past, CancelOf(n))
  {
    ConsistentIsValid(w, chans, past);
    hide KeysOf, CancelledIn, OfferedTo, SlotOf, ReceivedBy, Channel.Faithful;
    assert Tracked(w, chans[n], past, n);
    KeyIsOpen(w, chans, past, chans[n].key);
    AfterChange(past, CancelOf(n));
    panicked := w.Cancel(chans[n], chans[n].key);
    forall i | 0 <= i < |chans| ensures Tracked(w, chans[i], past + [CancelOf(n)], i) {
      assert old(Tracked(w, chans[i], past, i));
    }
  }

  method Deliver(w: Watcher, chans: seq<Channel>, ghost past: seq<Step>, u: Update)
    requires Consistent(w, chans, past)
    modifies chans
    ensures Consistent(w, chans, past + [WatchEvent(u)])
  {
    ConsistentIsValid(w, chans, past);
    hide KeysOf, CancelledIn, OfferedTo, SlotOf, ReceivedBy, Channel.Faithful;
    w.ChannelsAre();
    AfterEvent(past, u);
    w.Deliver(u);
    w.ChannelsAre();
    forall i | 0 <= i < |chans| ensures Tracked(w, chans[i], past + [WatchEvent(u)], i) {
      assert old(Tracked(w, chans[i], past, i));
    }
  }

  method Take(w: Watcher, chans: seq<Channel>, ghost past: seq<Step>, n: nat) returns (u: Option<Update>)
    requires Consistent(w, chans, past) && n < |chans|
    modifies chans[n]
    ensures Consistent(w, chans, past + [TakeFrom(n)])
    ensures u == SlotOf(past, n)
  {
    hide KeysOf, CancelledIn, OfferedTo, SlotOf, ReceivedBy, Channel.Faithful;
    assert Tracked(w, chans[n], past, n);
    AfterTake(past, n);
    u := chans[n].Receive();
    forall i | 0 <= i < |chans| ensures Tracked(w, chans[i], past + [TakeFrom(n)], i) {
      assert old(Tracked(w, chans[i], past, i));
    }
  }

  /** A step whose number is no subscription's does nothing. */
  lemma NoSuchSubscription(w: Watcher, chans: seq<Channel>, past: seq<Step>, step: Step)
    requires Consistent(w, chans, past) && (step.CancelOf? || step.TakeFrom?) && step.n >= |chans|
    ensures Consistent(w, chans, past + [step]) && !Panics(past, step) && Returns(past, step) == None
  {
    NothingYet(past, step.n);
    hide KeysOf, CancelledIn, OfferedTo, SlotOf, ReceivedBy, Channel.Faithful, Watcher.Under, Watcher.Keyed;
    if step.CancelOf? {
      AfterChange(past, step);
    } else {
      AfterTake(past, step.n);
    }
    forall i | 0 <= i < |chans| ensures Tracked(w, chans[i], past + [step], i) {
      assert Tracked(w, chans[i], past, i);
    }
  }

  method Do(w: Watcher, chans: seq<Channel>, ghost past: seq<Step>, step: Step)
    returns (chans': seq<Channel>, panicked: bool, u: Option<Update>)
    requires Consistent(w, chans, past)
    modifies w, chans
    ensures Consistent(w, chans', past + [step])
    ensures panicked <==> Panics(past, step)
    ensures u == Returns(past, step)
    ensures chans <= chans' && forall i :: |chans| <= i < |chans'| ==> fresh(chans'[i])
  {
    hide Consistent;
    chans', panicked, u := chans, false, None;
    match step
    case SubscribeTo(key) =>
      var ch := Subscribe(w, chans, past, key);
      chans' := chans + [ch];
    case CancelOf(n) =>
      if n < |chans| {
        panicked := Cancel(w, chans, past, n);
      } else {
        NoSuchSubscription(w, chans, past, step);
      }
    case WatchEvent(update) =>
      Deliver(w, chans, past, update);
    case TakeFrom(n) =>
      if n < |chans| {
        u := Take(w, chans, past, n);
      } else {
        NoSuchSubscription(w, chans, past, step);
      }
  }

  lemma StartsConsistent(w: Watcher)
    requires w.Valid() && w.Channels() == {}
    ensures Consistent(w, [], [])
  {
    assert forall k, ch :: ch in w.Under(k) ==> ch in w.Channels();
  }

  /**
   Every interleaving leaves each subscription with the channel that its history says. A step panics exactly if it
   cancels a subscription again while its key has another subscriber.
   */
  method Run(steps: seq<Step>)
    returns (w: Watcher, chans: seq<Channel>, panicked: seq<bool>, returned: seq<Option<Update>>)
    ensures Consistent(w, chans, steps) && w.Valid()
    ensures |panicked| == |returned| == |steps|
    ensures forall j :: 0 <= j < |steps| ==> (panicked[j] <==> Panics(steps[..j], steps[j]))
    ensures forall j :: 0 <= j < |steps| ==> returned[j] == Returns(steps[..j], steps[j])
  {
    hide Consistent, Panics, Returns, Watcher.Valid;
    w := new Watcher();
    StartsConsistent(w);
    chans, panicked, returned := [], [], [];
    for s := 0 to |steps|
      invariant fresh(w) && forall i :: 0 <= i < |chans| ==> fresh(chans[i])
      invariant Consistent(w, chans, steps[..s])
      invariant |panicked| == |returned| == s
      invariant forall j :: 0 <= j < s ==> (panicked[j] <==> Panics(steps[..j], steps[j]))
      invariant forall j :: 0 <= j < s ==> returned[j] == Returns(steps[..j], steps[j])
    {
      var p, u;
      chans, p, u := Do(w, chans, steps[..s], steps[s]);
      panicked, returned := panicked + [p], returned + [u];
      assert steps[..s + 1] == steps[..s] + [steps[s]];
    }
    assert steps[..|steps|] == steps;
    ConsistentIsValid(w, chans, steps);
  }
}
