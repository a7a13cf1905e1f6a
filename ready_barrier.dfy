/**
  The fan-in barrier of the bottle scene (`whenAllReady`).

  `whenAllReady` counts the textures still outstanding in `numRemaining`.
  One synchronous scan over the list decrements the counter for every texture
  that is already ready and registers a one-shot load callback on every other
  texture that has a load observable; the callback decrements the counter.
  Whoever brings the counter to zero calls `resolve`. An empty list resolves
  at once. JavaScript runs the callbacks only after the scan has finished, so
  each load event is a separate, later call.
 */
module ReadyBarrier {

  /** What the barrier did for one texture. */
  datatype Slot =
    | Unscanned       // the scan has not reached it yet
    | CountedAtScan   // it was ready at scan time and was counted then
    | Waiting         // a one-shot load callback is registered on it
    | Fired           // its one-shot callback has run and counted it
    | Unobserved      // not ready and without a load observable: never counted

  predicate Counted(s: Slot)
  {
    s == CountedAtScan || s == Fired
  }

  /** How many slots have been counted down. */
  function CountedCount(slots: seq<Slot>): (c: nat)
    ensures c <= |slots|
  {
    if slots == [] then 0
    else CountedCount(slots[..|slots| - 1]) + (if Counted(slots[|slots| - 1]) then 1 else 0)
  }

  /** How many textures were ready at scan time. */
  function ReadyCount(ready: seq<bool>): (c: nat)
    ensures c <= |ready|
  {
    if ready == [] then 0
    else ReadyCount(ready[..|ready| - 1]) + (if ready[|ready| - 1] then 1 else 0)
  }

  /** The scan's decision for one texture. */
  function ScanSlot(ready: bool, hasObservable: bool): Slot
  {
    if ready then CountedAtScan else if hasObservable then Waiting else Unobserved
  }

  /** The slots after a complete scan. */
  function ScanSlots(ready: seq<bool>, hasObservable: seq<bool>): (slots: seq<Slot>)
    requires |ready| == |hasObservable|
    ensures |slots| == |ready|
  {
    if ready == [] then []
    else
      var n := |ready| - 1;
      ScanSlots(ready[..n], hasObservable[..n]) + [ScanSlot(ready[n], hasObservable[n])]
  }

  /** A load event on texture `i`: its callback runs if one is still registered. */
  function LoadSlot(slots: seq<Slot>, i: nat): (r: seq<Slot>)
    requires i < |slots|
    ensures |r| == |slots|
  {
    if slots[i] == Waiting then slots[i := Fired] else slots
  }

  /** A sequence of load events, in the order they arrive. */
  function LoadAll(slots: seq<Slot>, events: seq<nat>): (r: seq<Slot>)
    requires forall k :: 0 <= k < |events| ==> events[k] < |slots|
    ensures |r| == |slots|
    decreases |events|
  {
    if events == [] then slots else LoadAll(LoadSlot(slots, events[0]), events[1..])
  }

  // ---------------------------------------------------------------------------
  // Counting

  /** Every slot is counted exactly when the count reaches the length. */
  lemma {:induction false} CountedCountFull(slots: seq<Slot>)
    ensures CountedCount(slots) == |slots| <==> forall j :: 0 <= j < |slots| ==> Counted(slots[j])
  {
    if slots != [] {
      var init := slots[..|slots| - 1];
      CountedCountFull(init);
      assert forall j :: 0 <= j < |init| ==> init[j] == slots[j];
    }
  }

  /** No slot is counted exactly when the count is zero. */
  lemma {:induction false} CountedCountZero(slots: seq<Slot>)
    ensures CountedCount(slots) == 0 <==> forall j :: 0 <= j < |slots| ==> !Counted(slots[j])
  {
    if slots != [] {
      var init := slots[..|slots| - 1];
      CountedCountZero(init);
      assert forall j :: 0 <= j < |init| ==> init[j] == slots[j];
    }
  }

  /** Every texture was ready exactly when the ready count reaches the length. */
  lemma {:induction false} ReadyCountFull(ready: seq<bool>)
    ensures ReadyCount(ready) == |ready| <==> forall j :: 0 <= j < |ready| ==> ready[j]
  {
    if ready != [] {
      var init := ready[..|ready| - 1];
      ReadyCountFull(init);
      assert forall j :: 0 <= j < |init| ==> init[j] == ready[j];
    }
  }

  /** Replacing one slot changes the count by what the two slots contribute. */
  lemma {:induction false} CountedCountUpdate(slots: seq<Slot>, i: nat, x: Slot)
    requires i < |slots|
    ensures CountedCount(slots[i := x]) ==
      CountedCount(slots) - (if Counted(slots[i]) then 1 else 0) + (if Counted(x) then 1 else 0)
    decreases |slots|
  {
    var n := |slots| - 1;
    var updated := slots[i := x];
    assert updated[..n] == if i == n then slots[..n] else slots[..n][i := x];
    if i < n {
      CountedCountUpdate(slots[..n], i, x);
    }
  }

  // ---------------------------------------------------------------------------
  // The scan

  /** A complete scan decides every texture on its own. */
  lemma {:induction false} ScanSlotsAt(ready: seq<bool>, hasObservable: seq<bool>, j: nat)
    requires |ready| == |hasObservable| && j < |ready|
    ensures ScanSlots(ready, hasObservable)[j] == ScanSlot(ready[j], hasObservable[j])
    decreases |ready|
  {
    var n := |ready| - 1;
    if j < n {
      ScanSlotsAt(ready[..n], hasObservable[..n], j);
    }
  }

  /** The scan counts down exactly the textures that are ready. */
  lemma {:induction false} ScanCountsReady(ready: seq<bool>, hasObservable: seq<bool>)
    requires |ready| == |hasObservable|
    ensures CountedCount(ScanSlots(ready, hasObservable)) == ReadyCount(ready)
    decreases |ready|
  {
    if ready != [] {
      var n := |ready| - 1;
      var slots := ScanSlots(ready, hasObservable);
      assert slots[..n] == ScanSlots(ready[..n], hasObservable[..n]);
      ScanCountsReady(ready[..n], hasObservable[..n]);
    }
  }

  /** When every texture is ready, the scan registers no callback. */
  lemma AllReadyRegistersNothing(ready: seq<bool>, hasObservable: seq<bool>)
    requires |ready| == |hasObservable|
    requires forall j :: 0 <= j < |ready| ==> ready[j]
    ensures forall j :: 0 <= j < |ready| ==> ScanSlots(ready, hasObservable)[j] == CountedAtScan
  {
    forall j | 0 <= j < |ready| ensures ScanSlots(ready, hasObservable)[j] == CountedAtScan {
      ScanSlotsAt(ready, hasObservable, j);
    }
  }

  // ---------------------------------------------------------------------------
  // Load events

  /** After any load events, a slot is fired exactly when it was waiting and got an event. */
  lemma {:induction false} LoadAllAt(slots: seq<Slot>, events: seq<nat>, j: nat)
    requires forall k :: 0 <= k < |events| ==> events[k] < |slots|
    requires j < |slots|
    ensures LoadAll(slots, events)[j] == if slots[j] == Waiting && j in events then Fired else slots[j]
    decreases |events|
  {
    if events != [] {
      var next := LoadSlot(slots, events[0]);
      LoadAllAt(next, events[1..], j);
      assert j in events <==> j == events[0] || j in events[1..];
    }
  }

  /** One more load event extends the run by one step. */
  lemma LoadAllSnoc(slots: seq<Slot>, events: seq<nat>, i: nat)
    requires forall k :: 0 <= k < |events| ==> events[k] < |slots|
    requires i < |slots|
    ensures LoadAll(slots, events + [i]) == LoadSlot(LoadAll(slots, events), i)
  {
    var longer := events + [i];
    var a, b := LoadAll(slots, longer), LoadSlot(LoadAll(slots, events), i);
    forall j | 0 <= j < |slots| ensures a[j] == b[j] {
      LoadAllAt(slots, longer, j);
      LoadAllAt(slots, events, j);
      assert j in longer <==> j in events || j == i;
    }
  }

  /** The outcome of the load events does not depend on their order or repetition. */
  lemma LoadOrderIrrelevant(slots: seq<Slot>, events1: seq<nat>, events2: seq<nat>)
    requires forall k :: 0 <= k < |events1| ==> events1[k] < |slots|
    requires forall k :: 0 <= k < |events2| ==> events2[k] < |slots|
    requires forall j :: j in events1 <==> j in events2
    ensures LoadAll(slots, events1) == LoadAll(slots, events2)
  {
    var a, b := LoadAll(slots, events1), LoadAll(slots, events2);
    forall j | 0 <= j < |slots| ensures a[j] == b[j] {
      LoadAllAt(slots, events1, j);
      LoadAllAt(slots, events2, j);
    }
  }

  /**
    After the scan and any load events the barrier has counted every texture
    exactly when each texture was ready at scan time, or had a load observable
    and has loaded since.
   */
  lemma Resolution(ready: seq<bool>, hasObservable: seq<bool>, events: seq<nat>)
    requires |ready| == |hasObservable|
    requires forall k :: 0 <= k < |events| ==> events[k] < |ready|
    ensures var slots := LoadAll(ScanSlots(ready, hasObservable), events);
      CountedCount(slots) == |ready| <==>
        forall j :: 0 <= j < |ready| ==> ready[j] || (hasObservable[j] && j in events)
  {
    var scanned := ScanSlots(ready, hasObservable);
    var slots := LoadAll(scanned, events);
    CountedCountFull(slots);
    forall j | 0 <= j < |ready|
      ensures Counted(slots[j]) <==> ready[j] || (hasObservable[j] && j in events)
    {
      ScanSlotsAt(ready, hasObservable, j);
      LoadAllAt(scanned, events, j);
    }
  }

  /** A texture that was neither ready nor observable keeps the barrier open forever. */
  lemma UnobservedBlocks(ready: seq<bool>, hasObservable: seq<bool>, events: seq<nat>, j: nat)
    requires |ready| == |hasObservable|
    requires forall k :: 0 <= k < |events| ==> events[k] < |ready|
    requires j < |ready| && !ready[j] && !hasObservable[j]
    ensures CountedCount(LoadAll(ScanSlots(ready, hasObservable), events)) < |ready|
  {
    Resolution(ready, hasObservable, events);
  }

  // ---------------------------------------------------------------------------
  // The barrier's invariant

  /**
    The state of one `whenAllReady` call: `remaining` is the number of textures
    not yet counted, `resolve` has run once exactly when the scan is over and
    nothing remains, and after the scan the slots are those of the scan
    followed by the load events so far.
   */
  ghost predicate Consistent(n: nat, slots: seq<Slot>, remaining: int, resolveCount: nat, scanned: bool,
                             ready: seq<bool>, observable: seq<bool>, loaded: seq<nat>)
  {
    && |slots| == n
    && remaining == n - CountedCount(slots)
    && resolveCount == (if scanned && remaining == 0 then 1 else 0)
    && (!scanned ==> remaining == n && loaded == [] && forall j :: 0 <= j < n ==> slots[j] == Unscanned)
    && (scanned ==>
          && |ready| == n && |observable| == n
          && (forall k :: 0 <= k < |loaded| ==> loaded[k] < n)
          && slots == LoadAll(ScanSlots(ready, observable), loaded))
  }

  /**
    A finished scan leaves a consistent barrier: the counter is the number
    of textures that were not ready, and `resolve` has run exactly when it is
    zero.
   */
  lemma ScanConsistent(ready: seq<bool>, hasObservable: seq<bool>, slots: seq<Slot>, remaining: int, resolveCount: nat)
    requires |ready| == |hasObservable|
    requires slots == ScanSlots(ready, hasObservable)
    requires remaining == |ready| - ReadyCount(ready)
    requires resolveCount == if remaining == 0 then 1 else 0
    ensures Consistent(|ready|, slots, remaining, resolveCount, true, ready, hasObservable, [])
  {
    ScanCountsReady(ready, hasObservable);
  }

  /**
    The `for` loop of `whenAllReady`, run on a non-empty list with the
    counter at the list's length: a ready texture is counted, and the loop
    stops with `resolved` set when the counter reaches zero; any other
    texture gets a one-shot callback if it has a load observable. The slots
    start out all unscanned.
   */
  method ScanLoop(ready: seq<bool>, hasObservable: seq<bool>)
      returns (slots: seq<Slot>, numRemaining: int, resolved: bool)
    requires |ready| == |hasObservable| > 0
    ensures slots == ScanSlots(ready, hasObservable)
    ensures numRemaining == |ready| - ReadyCount(ready)
    ensures resolved <==> numRemaining == 0
  {
    var n := |ready|;
    slots, numRemaining, resolved := seq(n, _ => Unscanned), n, false;
    var i := 0;
    while i < n
      invariant 0 <= i <= n && |slots| == n && !resolved
      invariant forall j :: 0 <= j < i ==> slots[j] == ScanSlot(ready[j], hasObservable[j])
      invariant numRemaining == n - ReadyCount(ready[..i]) > 0
    {
      assert ready[..i + 1][..i] == ready[..i];
      if ready[i] {
        slots := slots[i := CountedAtScan];
        numRemaining := numRemaining - 1;
        if numRemaining == 0 {
          resolved := true;
          i := i + 1;
          break;
        }
      } else if hasObservable[i] {
        slots := slots[i := Waiting];
      } else {
        slots := slots[i := Unobserved];
      }
      i := i + 1;
    }
    assert i == n && ready[..n] == ready;
    forall j | 0 <= j < n ensures slots[j] == ScanSlots(ready, hasObservable)[j] {
      ScanSlotsAt(ready, hasObservable, j);
    }
  }

  /**
    A load event keeps the barrier consistent: a registered callback fires
    once, counts its texture, and calls `resolve` when it was the last one.
   */
  lemma LoadConsistent(n: nat, slots: seq<Slot>, remaining: int, resolveCount: nat, scanned: bool,
                       ready: seq<bool>, observable: seq<bool>, loaded: seq<nat>, i: nat)
    requires Consistent(n, slots, remaining, resolveCount, scanned, ready, observable, loaded)
    requires i < n
    ensures slots[i] == Waiting ==> scanned && remaining > 0
    ensures var fires := slots[i] == Waiting;
      Consistent(n, LoadSlot(slots, i),
                 if fires then remaining - 1 else remaining,
                 if fires && remaining == 1 then resolveCount + 1 else resolveCount,
                 scanned, ready, observable, if scanned then loaded + [i] else loaded)
  {
    if slots[i] == Waiting {
      CountedCountFull(slots);
      CountedCountUpdate(slots, i, Fired);
    }
    if scanned {
      LoadAllSnoc(ScanSlots(ready, observable), loaded, i);
    }
  }

  /**
    The outcome does not depend on the order or repetition of load events:
    two scanned barriers with the same scan and the same set of loaded
    textures have the same slots, the same counter and the same number of
    `resolve` calls.
   */
  lemma SameLoadsSameState(n: nat, ready: seq<bool>, observable: seq<bool>,
                           slots1: seq<Slot>, remaining1: int, resolveCount1: nat, loaded1: seq<nat>,
                           slots2: seq<Slot>, remaining2: int, resolveCount2: nat, loaded2: seq<nat>)
    requires Consistent(n, slots1, remaining1, resolveCount1, true, ready, observable, loaded1)
    requires Consistent(n, slots2, remaining2, resolveCount2, true, ready, observable, loaded2)
    requires forall j :: j in loaded1 <==> j in loaded2
    ensures slots1 == slots2 && remaining1 == remaining2 && resolveCount1 == resolveCount2
  {
    LoadOrderIrrelevant(ScanSlots(ready, observable), loaded1, loaded2);
  }

  // ---------------------------------------------------------------------------
  // The barrier object

  /** One call of `whenAllReady` on a list of `n` textures, with its later callbacks. */
  class Barrier {
    /** `textures.length` */
    const n: nat
    /** per texture: whether a callback is registered, has fired, or was not needed */
    var slots: seq<Slot>
    /** `numRemaining` */
    var remaining: int
    /** how many times `resolve` has been called */
    var resolveCount: nat
    /** whether the synchronous scan has run */
    var scanned: bool

    /** the readiness the scan saw, and which textures had a load observable */
    ghost var readyAtScan: seq<bool>
    ghost var observableAtScan: seq<bool>
    /** the load events since the scan, in order */
    ghost var loaded: seq<nat>

    ghost predicate Valid()
      reads this
    {
      Consistent(n, slots, remaining, resolveCount, scanned, readyAtScan, observableAtScan, loaded)
    }

    /** Sets `numRemaining` to the number of textures; nothing is scanned yet. */
    constructor (n: nat)
      ensures Valid()
      ensures this.n == n && remaining == n && resolveCount == 0 && !scanned
    {
      this.n := n;
      slots := seq(n, _ => Unscanned);
      remaining := n;
      resolveCount := 0;
      scanned := false;
      loaded := [];
      new;
      CountedCountZero(slots);
    }

    /**
      The synchronous part of `whenAllReady`: resolve at once for an empty
      list; otherwise count the ready textures, register a one-shot callback
      on every other texture that has a load observable, and resolve if the
      count reaches zero.
     */
    method Scan(ready: seq<bool>, hasObservable: seq<bool>)
      requires Valid() && !scanned
      requires |ready| == n && |hasObservable| == n
      modifies this
      ensures Valid() && scanned
      ensures readyAtScan == ready && observableAtScan == hasObservable && loaded == []
      ensures slots == ScanSlots(ready, hasObservable)
      ensures remaining == n - ReadyCount(ready)
      ensures resolveCount == (if ReadyCount(ready) == n then 1 else 0)
    {
      if remaining == 0 {
        resolveCount := resolveCount + 1;
        scanned, readyAtScan, observableAtScan, loaded := true, ready, hasObservable, [];
        ScanConsistent(ready, hasObservable, slots, remaining, resolveCount);
        return;
      }
      var resolved;
      slots, remaining, resolved := ScanLoop(ready, hasObservable);
      if resolved {
        resolveCount := resolveCount + 1;
      }
      scanned, readyAtScan, observableAtScan, loaded := true, ready, hasObservable, [];
      ScanConsistent(ready, hasObservable, slots, remaining, resolveCount);
    }

    /**
      `resolve` runs at most once, and it has run exactly when the scan is
      over and every texture has been counted.
     */
    lemma ResolvesAtMostOnce()
      requires Valid()
      ensures resolveCount <= 1
      ensures resolveCount == 1 <==> scanned && forall j :: 0 <= j < n ==> Counted(slots[j])
    {
      CountedCountFull(slots);
    }

    /**
      After the scan, `resolve` has run exactly when every texture was ready
      at scan time, or had a load observable and has loaded since.
     */
    lemma ResolvedExactlyWhenAllLoaded()
      requires Valid() && scanned
      ensures resolveCount == 1 <==>
        forall j :: 0 <= j < n ==> readyAtScan[j] || (observableAtScan[j] && j in loaded)
    {
      Resolution(readyAtScan, observableAtScan, loaded);
    }

    /** A texture neither ready nor observable at the scan means `resolve` never runs. */
    lemma UnobservedNeverResolves(j: nat)
      requires Valid() && scanned && j < n && !readyAtScan[j] && !observableAtScan[j]
      ensures resolveCount == 0
    {
      UnobservedBlocks(readyAtScan, observableAtScan, loaded, j);
    }

    /**
      Texture `i` has loaded: its one-shot callback, if one is still
      registered, decrements the counter and resolves when it reaches zero.
     */
    method OnLoad(i: nat)
      requires Valid() && i < n
      modifies this
      ensures Valid()
      ensures scanned == old(scanned) && readyAtScan == old(readyAtScan) && observableAtScan == old(observableAtScan)
      ensures loaded == if scanned then old(loaded) + [i] else old(loaded)
      ensures slots == LoadSlot(old(slots), i)
      ensures old(slots[i]) == Waiting ==> remaining == old(remaining) - 1
      ensures old(slots[i]) != Waiting ==> remaining == old(remaining) && resolveCount == old(resolveCount)
      ensures resolveCount == old(resolveCount) + 1 <==> old(slots[i]) == Waiting && old(remaining) == 1
      ensures resolveCount == 1 <==> scanned && CountedCount(slots) == n
    {
      LoadConsistent(n, slots, remaining, resolveCount, scanned, readyAtScan, observableAtScan, loaded, i);
      if slots[i] == Waiting {
        slots := slots[i := Fired];
        remaining := remaining - 1;
        if remaining == 0 {
          resolveCount := resolveCount + 1;
        }
      }
      if scanned {
        loaded := loaded + [i];
      }
    }
  }

  /**
    The call in `loadTexturesAsync`: three textures fetched, none ready at
    scan time, all with a load observable. They load in the order 2, 0, 2
    (a repeated notification), 1, 1; the result is `resolveCount` after the
    scan and after each load.
   */
  method ThreeTexturesScenario() returns (resolveCounts: seq<nat>)
    ensures resolveCounts == [0, 0, 0, 0, 1, 1]
  {
    var barrier := new Barrier(3);
    barrier.Scan([false, false, false], [true, true, true]);
    resolveCounts := [barrier.resolveCount];
    barrier.OnLoad(2);
    resolveCounts := resolveCounts + [barrier.resolveCount];
    barrier.OnLoad(0);
    resolveCounts := resolveCounts + [barrier.resolveCount];
    barrier.OnLoad(2);
    resolveCounts := resolveCounts + [barrier.resolveCount];
    barrier.OnLoad(1);
    resolveCounts := resolveCounts + [barrier.resolveCount];
    barrier.OnLoad(1);
    resolveCounts := resolveCounts + [barrier.resolveCount];
  }

  /** An empty list resolves during the scan and registers nothing. */
  method EmptyListScenario() returns (resolveCount: nat, slots: seq<Slot>)
    ensures resolveCount == 1 && slots == []
  {
    var barrier := new Barrier(0);
    barrier.Scan([], []);
    resolveCount, slots := barrier.resolveCount, barrier.slots;
  }

  /**
    Two textures that are both ready at scan time: the scan resolves and
    registers no callback, and a later load notification changes nothing.
   */
  method AllReadyScenario() returns (resolveCount: nat, slots: seq<Slot>)
    ensures resolveCount == 1 && slots == [CountedAtScan, CountedAtScan]
  {
    var barrier := new Barrier(2);
    barrier.Scan([true, true], [false, true]);
    barrier.OnLoad(1);
    resolveCount, slots := barrier.resolveCount, barrier.slots;
  }
}
