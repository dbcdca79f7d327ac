/** The event engine's two loops (cmd/eventengine/main.go). The subscriber's callback hands a state
    to the stale-signal detector, then to the geofence detector; a sweep tick sweeps the former,
    then evicts from the latter. Each detector has its own lock, so the four parts can interleave. */
module EventEngine {
  import opened Prelude
  import opened StaleSignal
  import Geofence

  datatype Part =
    | StaleObserves(icao24: string, lastSeenUTC: int)
    | FenceObserves(icao24: string, lastSeenUTC: int)
    | StaleSweeps(now: int)
    | FenceEvicts(now: int)

  // ----- What each detector makes of a run -----

  function OpOf(p: Part): Op {
    match p
    case StaleObserves(a, at) => Observed(a, at)
    case StaleSweeps(now) => SweptAt(now)
    case _ => Elsewhere
  }

  /** The run as the stale-signal detector sees it, part by part. */
  function Ops(parts: seq<Part>): seq<Op> {
    seq(|parts|, i requires 0 <= i < |parts| => OpOf(parts[i]))
  }

  /** The geofence detector's time for `a`; it evicts at six thresholds. */
  function FenceTime(parts: seq<Part>, a: string, threshold: int): Option<int> {
    if parts == [] then None
    else
      var t := FenceTime(parts[..|parts| - 1], a, threshold);
      match parts[|parts| - 1]
      case FenceObserves(icao24, at) => if icao24 == a then Some(at) else t
      case FenceEvicts(now) => if t.Some? && t.value < now - threshold * EVICT_AFTER_MULTIPLE then None else t
      case _ => t
  }

  // ----- Each loop is sequential -----

  /** The state the subscriber has handed to the first detector only. */
  function Pending(parts: seq<Part>): Option<(string, int)> {
    if parts == [] then None
    else
      match parts[|parts| - 1]
      case StaleObserves(a, at) => Some((a, at))
      case FenceObserves(_, _) => None
      case _ => Pending(parts[..|parts| - 1])
  }

  /** The tick that has swept but not evicted. */
  function Sweeping(parts: seq<Part>): Option<int> {
    if parts == [] then None
    else
      match parts[|parts| - 1]
      case StaleSweeps(now) => Some(now)
      case FenceEvicts(_) => None
      case _ => Sweeping(parts[..|parts| - 1])
  }

  predicate Follows(parts: seq<Part>, p: Part) {
    match p
    case StaleObserves(_, _) => Pending(parts).None?
    case FenceObserves(a, at) => Pending(parts) == Some((a, at))
    case StaleSweeps(_) => Sweeping(parts).None?
    case FenceEvicts(now) => Sweeping(parts) == Some(now)
  }

  /** Any interleaving of the two loops. */
  predicate Interleaved(parts: seq<Part>) {
    parts == [] || (Interleaved(parts[..|parts| - 1]) && Follows(parts[..|parts| - 1], parts[|parts| - 1]))
  }

  /** What one more part does to a run. */
  lemma PartAppended(parts: seq<Part>, p: Part, a: string, threshold: int)
    ensures Interleaved(parts + [p]) <==> Interleaved(parts) && Follows(parts, p)
    ensures Pending(parts + [p])
         == if p.StaleObserves? then Some((p.icao24, p.lastSeenUTC)) else if p.FenceObserves? then None else Pending(parts)
    ensures Sweeping(parts + [p])
         == if p.StaleSweeps? then Some(p.now) else if p.FenceEvicts? then None else Sweeping(parts)
    ensures var t := FenceTime(parts, a, threshold);
      FenceTime(parts + [p], a, threshold)
      == if p.FenceObserves? && p.icao24 == a then Some(p.lastSeenUTC)
         else if p.FenceEvicts? && t.Some? && t.value < p.now - threshold * EVICT_AFTER_MULTIPLE then None
         else t
  {
    assert (parts + [p])[..|parts|] == parts;
  }

  lemma {:induction false} InterleavedPrefix(parts: seq<Part>, n: nat)
    requires Interleaved(parts) && n <= |parts|
    ensures Interleaved(parts[..n])
    ensures n < |parts| ==> Follows(parts[..n], parts[n])
  {
    if n < |parts| {
      var init := parts[..|parts| - 1];
      assert init[..n] == parts[..n];
      InterleavedPrefix(init, n);
    } else {
      assert parts[..n] == parts;
    }
  }

  // ----- When containment is forgotten -----

  /** `i` is the last time the geofence detector observed `a` before `n`. */
  ghost predicate FencedLast(parts: seq<Part>, i: nat, n: nat, a: string) {
    && i < n <= |parts| && parts[i].FenceObserves? && parts[i].icao24 == a
    && forall k :: i < k < n ==> !(parts[k].FenceObserves? && parts[k].icao24 == a)
  }

  /** Its containment is held as long as no eviction finds that more than six thresholds old. */
  lemma {:induction false} HeldForSix(parts: seq<Part>, i: nat, n: nat, a: string, threshold: int)
    requires FencedLast(parts, i, n, a)
    ensures FenceTime(parts[..n], a, threshold)
         == if forall k :: i < k < n && parts[k].FenceEvicts? ==> parts[k].now - parts[i].lastSeenUTC <= 6 * threshold
            then Some(parts[i].lastSeenUTC) else None
    decreases n
  {
    assert parts[..n][..n - 1] == parts[..n - 1];
    if n > i + 1 {
      HeldForSix(parts, i, n - 1, a, threshold);
    }
  }

  /** Does part `k` make the geofence detector forget `a`? */
  predicate FenceForgets(parts: seq<Part>, k: nat, a: string, threshold: int)
    requires k < |parts|
  {
    && parts[k].FenceEvicts? && FenceTime(parts[..k], a, threshold).Some?
    && FenceTime(parts[..k + 1], a, threshold).None?
  }

  /** No sweep between parts `i` and `k` reports `a`. */
  ghost predicate Unreported(parts: seq<Part>, i: nat, k: nat, a: string, threshold: int)
    requires i < k <= |parts|
  {
    forall j: nat :: i < j < k ==> !ReportsAt(Ops(parts), j, a, threshold)
  }

  /** `i` is the last time the stale-signal detector observed `a` before `n`. */
  ghost predicate LastSeen(parts: seq<Part>, i: nat, n: nat, a: string) {
    n <= |parts| && LastObserved(Ops(parts), i, n, a)
  }

  lemma {:induction false} PendingIsLastSeen(parts: seq<Part>, n: nat) returns (i: nat)
    requires n <= |parts| && Pending(parts[..n]).Some?
    ensures LastSeen(parts, i, n, Pending(parts[..n]).value.0) && parts[i].lastSeenUTC == Pending(parts[..n]).value.1
    decreases n
  {
    assert parts[..n][..n - 1] == parts[..n - 1];
    if parts[n - 1].StaleObserves? {
      i := n - 1;
    } else {
      i := PendingIsLastSeen(parts, n - 1);
    }
  }

  /** What the geofence detector holds stems from the last observation, unless a callback for the
      same aircraft is halfway through. */
  lemma {:induction false} HeldFromLastSeen(parts: seq<Part>, n: nat, a: string, threshold: int) returns (i: nat)
    requires Interleaved(parts) && n <= |parts| && FenceTime(parts[..n], a, threshold).Some?
    ensures LastSeen(parts, i, n, a)
    ensures FenceTime(parts[..n], a, threshold) == Some(parts[i].lastSeenUTC)
            || (Pending(parts[..n]).Some? && Pending(parts[..n]).value.0 == a)
    decreases n
  {
    assert parts[..n][..n - 1] == parts[..n - 1];
    InterleavedPrefix(parts, n - 1);
    var last := parts[n - 1];
    if last.StaleObserves? && last.icao24 == a {
      i := n - 1;
    } else if last.FenceObserves? && last.icao24 == a {
      i := PendingIsLastSeen(parts, n - 1);
    } else {
      i := HeldFromLastSeen(parts, n - 1, a, threshold);
    }
  }

  lemma {:induction false} SweepingIsLast(parts: seq<Part>, n: nat) returns (j: nat)
    requires n <= |parts| && Sweeping(parts[..n]).Some?
    ensures j < n && parts[j] == StaleSweeps(Sweeping(parts[..n]).value)
    ensures forall m :: j < m <= n ==> Sweeping(parts[..m]) == Sweeping(parts[..n])
    decreases n
  {
    assert parts[..n][..n - 1] == parts[..n - 1];
    if parts[n - 1].StaleSweeps? {
      j := n - 1;
    } else {
      j := SweepingIsLast(parts, n - 1);
    }
  }

  /** A silence that has been seen has been reported. */
  lemma {:induction false} SeenIsReported(ops: seq<Op>, i: nat, n: nat, a: string, threshold: int) returns (k: nat)
    requires LastObserved(ops, i, n, a) && SeenSilent(ops, i, n, threshold)
    ensures i < k < n && ReportsAt(ops, k, a, threshold)
    decreases n
  {
    SilenceReportedOnce(ops, i, n - 1, a, threshold);
    if SeenSilent(ops, i, n - 1, threshold) {
      k := SeenIsReported(ops, i, n - 1, a, threshold);
    } else {
      k := n - 1;
    }
  }

  lemma UnreportedIffUnseen(parts: seq<Part>, i: nat, k: nat, a: string, threshold: int)
    requires k <= |parts| && LastSeen(parts, i, k, a)
    ensures Unreported(parts, i, k, a, threshold) <==> !SeenSilent(Ops(parts), i, k, threshold)
  {
    if SeenSilent(Ops(parts), i, k, threshold) {
      var j := SeenIsReported(Ops(parts), i, k, a, threshold);
    } else {
      forall j: nat | i < j < k ensures !ReportsAt(Ops(parts), j, a, threshold) {
        SilenceReportedOnce(Ops(parts), i, j, a, threshold);
      }
    }
  }

  /** The eviction falls inside a callback for the same aircraft, between its two detectors. */
  predicate TornCallback(parts: seq<Part>, k: nat, a: string)
    requires k <= |parts|
  {
    Pending(parts[..k]).Some? && Pending(parts[..k]).value.0 == a
  }

  /** The tick that evicts at `k` had already swept when part `i` happened. */
  predicate TornTick(parts: seq<Part>, i: nat, k: nat)
    requires i <= k < |parts| && parts[k].FenceEvicts?
  {
    Sweeping(parts[..i]) == Some(parts[k].now)
  }

  /** Undisturbed, the tick's own sweep has seen the silence it forgets after. */
  lemma TornUnlessSeen(parts: seq<Part>, i: nat, k: nat, a: string, threshold: int)
    requires Interleaved(parts) && k < |parts| && FenceForgets(parts, k, a, threshold) && LastSeen(parts, i, k, a)
    requires threshold >= 0 && !SeenSilent(Ops(parts), i, k, threshold)
    requires FenceTime(parts[..k], a, threshold) == Some(parts[i].lastSeenUTC)
    ensures TornTick(parts, i, k)
  {
    assert parts[..k + 1][..k] == parts[..k];
    InterleavedPrefix(parts, k);
    var j := SweepingIsLast(parts, k);
    if i < j {
      assert SeesSilence(Ops(parts), j, Ops(parts)[i].lastSeenUTC, threshold);
    }
  }

  /** When an aircraft's containment is forgotten although no stale event for it has been returned
      since it was last observed: exactly when no sweep since has seen a silence above the
      threshold, which takes a callback or a tick caught between its two detectors. */
  lemma ForgottenUnreportedIff(parts: seq<Part>, k: nat, a: string, threshold: int) returns (i: nat)
    requires Interleaved(parts) && k < |parts| && FenceForgets(parts, k, a, threshold)
    ensures LastSeen(parts, i, k, a)
    ensures Unreported(parts, i, k, a, threshold) <==>
      forall j :: i < j < k && parts[j].StaleSweeps? ==> parts[j].now - parts[i].lastSeenUTC <= threshold
    ensures threshold >= 0 && Unreported(parts, i, k, a, threshold) ==> TornCallback(parts, k, a) || TornTick(parts, i, k)
  {
    i := HeldFromLastSeen(parts, k, a, threshold);
    UnreportedIffUnseen(parts, i, k, a, threshold);
    assert forall j :: i < j < k ==>
      (SeesSilence(Ops(parts), j, parts[i].lastSeenUTC, threshold)
       <==> parts[j].StaleSweeps? && parts[j].now - parts[i].lastSeenUTC > threshold);
    if threshold >= 0 && Unreported(parts, i, k, a, threshold) && !TornCallback(parts, k, a) {
      TornUnlessSeen(parts, i, k, a, threshold);
    }
  }

  /** Both do happen. A callback torn by a tick, a long silence after the previous sighting ... */
  lemma TornCallbackForgets(a: string, threshold: int, at: int)
    requires threshold >= 0 && at > threshold * EVICT_AFTER_MULTIPLE
    ensures var parts := [StaleObserves(a, 0), FenceObserves(a, 0), StaleObserves(a, at), StaleSweeps(at), FenceEvicts(at)];
      Interleaved(parts) && FenceForgets(parts, 4, a, threshold) && LastSeen(parts, 2, 4, a)
      && Unreported(parts, 2, 4, a, threshold) && TornCallback(parts, 4, a) && !TornTick(parts, 2, 4)
  {
    var one := [] + [StaleObserves(a, 0)];
    var two := one + [FenceObserves(a, 0)];
    var three := two + [StaleObserves(a, at)];
    var four := three + [StaleSweeps(at)];
    var five := four + [FenceEvicts(at)];
    PartAppended([], StaleObserves(a, 0), a, threshold);
    PartAppended(one, FenceObserves(a, 0), a, threshold);
    PartAppended(two, StaleObserves(a, at), a, threshold);
    PartAppended(three, StaleSweeps(at), a, threshold);
    PartAppended(four, FenceEvicts(at), a, threshold);
    assert five == [StaleObserves(a, 0), FenceObserves(a, 0), StaleObserves(a, at), StaleSweeps(at), FenceEvicts(at)];
    assert five[..2] == two && five[..4] == four && five[..5] == five;
    UnreportedIffUnseen(five, 2, 4, a, threshold);
  }

  /** ... and a tick torn by a callback for a state that is already old. */
  lemma TornTickForgets(a: string, threshold: int, now: int)
    requires threshold >= 0 && now > threshold * EVICT_AFTER_MULTIPLE
    ensures var parts := [StaleSweeps(now), StaleObserves(a, 0), FenceObserves(a, 0), FenceEvicts(now)];
      Interleaved(parts) && FenceForgets(parts, 3, a, threshold) && LastSeen(parts, 1, 3, a)
      && Unreported(parts, 1, 3, a, threshold) && TornTick(parts, 1, 3) && !TornCallback(parts, 3, a)
  {
    var one := [] + [StaleSweeps(now)];
    var two := one + [StaleObserves(a, 0)];
    var three := two + [FenceObserves(a, 0)];
    var four := three + [FenceEvicts(now)];
    PartAppended([], StaleSweeps(now), a, threshold);
    PartAppended(one, StaleObserves(a, 0), a, threshold);
    PartAppended(two, FenceObserves(a, 0), a, threshold);
    PartAppended(three, FenceEvicts(now), a, threshold);
    assert four == [StaleSweeps(now), StaleObserves(a, 0), FenceObserves(a, 0), FenceEvicts(now)];
    assert four[..1] == one && four[..3] == three && four[..4] == four;
    UnreportedIffUnseen(four, 1, 3, a, threshold);
  }

  // ----- Whole callbacks and whole ticks -----

  /** Part `n` has its other half right beside it. */
  predicate WholeAt(parts: seq<Part>, n: int)
    requires 0 <= n < |parts|
  {
    match parts[n]
    case StaleObserves(a, at) => n + 1 < |parts| && parts[n + 1] == FenceObserves(a, at)
    case FenceObserves(a, at) => n > 0 && parts[n - 1] == StaleObserves(a, at)
    case StaleSweeps(now) => n + 1 < |parts| && parts[n + 1] == FenceEvicts(now)
    case FenceEvicts(now) => n > 0 && parts[n - 1] == StaleSweeps(now)
  }

  /** Every callback and every tick runs undisturbed. */
  ghost predicate Atomic(parts: seq<Part>) {
    forall n :: 0 <= n < |parts| ==> WholeAt(parts, n)
  }

  lemma {:induction false} NothingPending(parts: seq<Part>, n: nat)
    requires Atomic(parts) && n <= |parts|
    requires n > 0 ==> !parts[n - 1].StaleObserves?
    ensures Pending(parts[..n]).None?
    decreases n
  {
    if n > 0 {
      assert parts[..n][..n - 1] == parts[..n - 1];
      if !parts[n - 1].FenceObserves? {
        assert n > 1 ==> WholeAt(parts, n - 2);
        NothingPending(parts, n - 1);
      }
    }
  }

  lemma EvictionEndsTick(parts: seq<Part>, m: nat)
    requires m < |parts| && parts[m].FenceEvicts?
    ensures Sweeping(parts[..m + 1]).None?
  {
    assert parts[..m + 1][m] == parts[m];
  }

  /** A tick that has swept evicts before anything else happens. */
  lemma EvictsNext(parts: seq<Part>, i: nat)
    requires Atomic(parts) && i < |parts| && Sweeping(parts[..i]).Some?
    ensures parts[i].FenceEvicts?
  {
    var j := SweepingIsLast(parts, i);
    assert WholeAt(parts, j);
    EvictionEndsTick(parts, j + 1);
    assert j + 1 == i;
  }

  /** With whole callbacks and ticks an aircraft's containment is forgotten only once a stale event
      for it has been returned since it was last observed, in the same tick at the latest. */
  lemma ForgottenAfterReport(parts: seq<Part>, k: nat, a: string, threshold: int) returns (i: nat, j: nat)
    requires Interleaved(parts) && Atomic(parts) && k < |parts| && threshold >= 0 && FenceForgets(parts, k, a, threshold)
    ensures LastSeen(parts, i, k, a) && i < j < k && ReportsAt(Ops(parts), j, a, threshold)
  {
    i := ForgottenUnreportedIff(parts, k, a, threshold);
    assert WholeAt(parts, k);
    NothingPending(parts, k);
    assert parts[i].StaleObserves? by {
      assert Ops(parts)[i].Observed?;
    }
    if Sweeping(parts[..i]).Some? {
      EvictsNext(parts, i);
    }
    assert !Unreported(parts, i, k, a, threshold);
    j :| i < j < k && ReportsAt(Ops(parts), j, a, threshold);
  }

  // ----- The engine -----

  ghost predicate HeldAfter(held: Books, parts: seq<Part>, threshold: int) {
    forall a :: held.TrackOf(a) == TrackAfter(Ops(parts), a, threshold)
  }

  function TimeOf(lastObservedAt: map<string, int>, a: string): Option<int> {
    if a in lastObservedAt then Some(lastObservedAt[a]) else None
  }

  ghost predicate TimesAfter(lastObservedAt: map<string, int>, parts: seq<Part>, threshold: int) {
    forall a :: TimeOf(lastObservedAt, a) == FenceTime(parts, a, threshold)
  }

  /** The first detector's half of a callback or tick, then the second's. */
  lemma HeldNext(held: Books, before: Books, parts: seq<Part>, first: Part, second: Part, threshold: int)
    requires HeldAfter(before, parts, threshold) && OpOf(second).Elsewhere?
    requires first.StaleObserves? ==>
      DiffersOnlyAt(held, before, first.icao24) && held.TrackOf(first.icao24) == Tracked(first.lastSeenUTC, false)
    requires first.StaleSweeps? ==> SweptSoFar(held, before, {}, first.now, threshold)
    requires first.StaleObserves? || first.StaleSweeps?
    ensures HeldAfter(held, parts + [first] + [second], threshold)
  {
    var ops := Ops(parts);
    assert Ops(parts + [first] + [second]) == ops + [OpOf(first)] + [Elsewhere];
    assert (ops + [OpOf(first)] + [Elsewhere])[..|ops| + 1] == ops + [OpOf(first)];
    assert (ops + [OpOf(first)])[..|ops|] == ops;
  }

  lemma TimesNext(times: map<string, int>, before: map<string, int>, parts: seq<Part>, first: Part, second: Part, threshold: int)
    requires TimesAfter(before, parts, threshold) && (first.StaleObserves? || first.StaleSweeps?)
    requires second.FenceObserves? || second.FenceEvicts?
    requires second.FenceObserves? ==> times == before[second.icao24 := second.lastSeenUTC]
    requires second.FenceEvicts? ==>
      times == map a | a in before && before[a] >= second.now - threshold * EVICT_AFTER_MULTIPLE :: before[a]
    ensures TimesAfter(times, parts + [first] + [second], threshold)
  {
    assert (parts + [first] + [second])[..|parts| + 1] == parts + [first];
    assert (parts + [first])[..|parts|] == parts;
    forall a ensures TimeOf(times, a) == FenceTime(parts + [first] + [second], a, threshold) {
      assert TimeOf(before, a) == FenceTime(parts, a, threshold);
    }
  }

  /** A whole callback or tick may follow whenever none is under way. */
  lemma WholeNext(parts: seq<Part>, first: Part, second: Part)
    requires Interleaved(parts) && Atomic(parts) && Pending(parts).None? && Sweeping(parts).None?
    requires (first.StaleObserves? && second == FenceObserves(first.icao24, first.lastSeenUTC))
             || (first.StaleSweeps? && second == FenceEvicts(first.now))
    ensures var all := parts + [first] + [second];
      Interleaved(all) && Atomic(all) && Pending(all).None? && Sweeping(all).None?
  {
    var all := parts + [first] + [second];
    PartAppended(parts, first, "", 0);
    PartAppended(parts + [first], second, "", 0);
    forall n | 0 <= n < |all| ensures WholeAt(all, n) {
      assert n < |parts| ==> WholeAt(parts, n);
    }
  }

  class Engine {
    const stale: StaleSignalDetector
    const geofence: Geofence.GeofenceDetector
    /** Every part of every callback and tick so far. */
    ghost var parts: seq<Part>

    ghost predicate Valid()
      reads this, stale, geofence
    {
      && stale.Valid() && geofence.Valid()
      && Interleaved(parts) && Atomic(parts) && Pending(parts).None? && Sweeping(parts).None?
      && HeldAfter(stale.Held(), parts, stale.threshold)
      && TimesAfter(geofence.lastObservedAt, parts, stale.threshold)
    }

    constructor (threshold: int, zones: seq<Geofence.Zone>, pip: Geofence.Containment)
      ensures Valid() && fresh(stale) && fresh(geofence) && parts == [] && stale.threshold == threshold
    {
      stale := new StaleSignalDetector(threshold);
      geofence := new Geofence.GeofenceDetector(zones, pip);
      parts := [];
    }

    /** The flights.updates subscriber's callback, undisturbed. */
    method Callback(o: Geofence.Observation) returns (crossings: seq<Geofence.Event>)
      requires Valid()
      modifies this, stale, geofence
      ensures Valid()
      ensures parts == old(parts) + [StaleObserves(o.icao24, o.lastSeenUTC)] + [FenceObserves(o.icao24, o.lastSeenUTC)]
      ensures crossings == Geofence.Emitted(old(geofence.Abstract()), Geofence.Observed(o), geofence.pip)
    {
      ghost var held, times := stale.Held(), geofence.lastObservedAt;
      ghost var first, second := StaleObserves(o.icao24, o.lastSeenUTC), FenceObserves(o.icao24, o.lastSeenUTC);
      stale.Observe(o.icao24, o.lastSeenUTC);
      crossings := geofence.Observe(o);
      HeldNext(stale.Held(), held, parts, first, second, stale.threshold);
      TimesNext(geofence.lastObservedAt, times, parts, first, second, stale.threshold);
      WholeNext(parts, first, second);
      parts := parts + [first] + [second];
    }

    /** One tick of runStaleSweepLoop, undisturbed. */
    method Tick(now: int) returns (reports: seq<StaleEvent>)
      requires Valid()
      modifies this, stale, geofence
      ensures Valid() && parts == old(parts) + [StaleSweeps(now)] + [FenceEvicts(now)]
      ensures Reported(reports, old(stale.Held()), old(stale.lastSeen).Keys, now, stale.threshold)
    {
      ghost var held, times := stale.Held(), geofence.lastObservedAt;
      reports := stale.Sweep(now);
      geofence.EvictBefore(now - stale.threshold * EVICT_AFTER_MULTIPLE);
      HeldNext(stale.Held(), held, parts, StaleSweeps(now), FenceEvicts(now), stale.threshold);
      TimesNext(geofence.lastObservedAt, times, parts, StaleSweeps(now), FenceEvicts(now), stale.threshold);
      WholeNext(parts, StaleSweeps(now), FenceEvicts(now));
      parts := parts + [StaleSweeps(now)] + [FenceEvicts(now)];
    }
  }
}
