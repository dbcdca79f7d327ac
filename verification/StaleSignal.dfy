/** The stale-signal rule (cmd/eventengine/stalesignal.go): an aircraft silent for longer than the
    threshold is reported once per silence. Durations and instants are nanoseconds. */
module StaleSignal {
  const EVICT_AFTER_MULTIPLE: int := 6

  const NANOS_PER_SECOND: int := 1_000_000_000

  datatype StaleEvent = StaleEvent(icao24: string, lastSeenUTC: int, staleForSeconds: int, occurredAt: int)

  /** Whole seconds, truncated toward zero. */
  function WholeSeconds(d: int): (s: int)
    ensures d >= 0 ==> s * NANOS_PER_SECOND <= d < (s + 1) * NANOS_PER_SECOND
    ensures d <= 0 ==> (s - 1) * NANOS_PER_SECOND < d <= s * NANOS_PER_SECOND
  {
    if d >= 0 then d / NANOS_PER_SECOND else -((-d) / NANOS_PER_SECOND)
  }

  /** What the detector holds about one aircraft. */
  datatype Track = Untracked | Tracked(lastSeen: int, flagged: bool)

  predicate Exceeds(t: Track, now: int, limit: int) {
    t.Tracked? && now - t.lastSeen > limit
  }

  /** Does a sweep at `now` report this aircraft? */
  predicate Reports(t: Track, now: int, threshold: int) {
    Exceeds(t, now, threshold) && !t.flagged
  }

  function Swept(t: Track, now: int, threshold: int): Track {
    if t.Untracked? then t
    else if t.flagged && Exceeds(t, now, threshold * EVICT_AFTER_MULTIPLE) then Untracked
    else if Reports(t, now, threshold) then t.(flagged := true)
    else t
  }

  function EventFor(icao24: string, t: Track, now: int): (e: StaleEvent)
    requires t.Tracked?
    ensures e.icao24 == icao24 && e.occurredAt == now && e.lastSeenUTC == t.lastSeen
    ensures now >= e.lastSeenUTC ==>
      e.staleForSeconds * 1_000_000_000 <= now - e.lastSeenUTC < (e.staleForSeconds + 1) * 1_000_000_000
  {
    StaleEvent(icao24, t.lastSeen, WholeSeconds(now - t.lastSeen), t.lastSeen + (now - t.lastSeen))
  }

  /** What visiting an aircraft appends to the events. */
  function ReportOf(icao24: string, t: Track, now: int, threshold: int): seq<StaleEvent> {
    if Reports(t, now, threshold) then [EventFor(icao24, t, now)] else []
  }

  /** The detector's two maps. */
  datatype Books = Books(lastSeen: map<string, int>, flagged: map<string, bool>) {
    function TrackOf(a: string): Track {
      if a in lastSeen then Tracked(lastSeen[a], a in flagged && flagged[a]) else Untracked
    }
  }

  /** One report for each aircraft of `among` a sweep reports, in any order. */
  ghost predicate Reported(events: seq<StaleEvent>, books: Books, among: set<string>, now: int, threshold: int) {
    && (forall i, j :: 0 <= i < j < |events| ==> events[i].icao24 != events[j].icao24)
    && (forall e :: e in events ==> e.icao24 in among && Reports(books.TrackOf(e.icao24), now, threshold)
                                    && e == EventFor(e.icao24, books.TrackOf(e.icao24), now))
    && (forall a :: a in among && Reports(books.TrackOf(a), now, threshold) ==> EventFor(a, books.TrackOf(a), now) in events)
  }

  /** A sweep halfway: aircraft outside `pending` have been visited. */
  ghost predicate SweptSoFar(books: Books, before: Books, pending: set<string>, now: int, threshold: int) {
    forall a :: books.TrackOf(a) == if a in pending then before.TrackOf(a) else Swept(before.TrackOf(a), now, threshold)
  }

  ghost predicate DiffersOnlyAt(now: Books, before: Books, a: string) {
    forall b :: b != a ==> now.TrackOf(b) == before.TrackOf(b)
  }

  /** A sweep with `pending` still to visit. */
  ghost predicate Halfway(held: Books, before: Books, pending: set<string>, events: seq<StaleEvent>, now: int, threshold: int) {
    && pending <= held.lastSeen.Keys && pending <= before.lastSeen.Keys
    && SweptSoFar(held, before, pending, now, threshold)
    && Reported(events, before, before.lastSeen.Keys - pending, now, threshold)
  }

  class StaleSignalDetector {
    const threshold: int
    var lastSeen: map<string, int>
    var flagged: map<string, bool>

    ghost predicate Valid()
      reads this
    {
      flagged.Keys <= lastSeen.Keys
    }

    ghost function Held(): Books
      reads this
    {
      Books(lastSeen, flagged)
    }

    constructor (threshold: int)
      ensures Valid() && this.threshold == threshold && Held() == Books(map[], map[])
    {
      this.threshold := threshold;
      lastSeen, flagged := map[], map[];
    }

    method Observe(icao24: string, lastSeenUTC: int)
      requires Valid()
      modifies this
      ensures Valid() && DiffersOnlyAt(Held(), old(Held()), icao24) && Held().TrackOf(icao24) == Tracked(lastSeenUTC, false)
    {
      lastSeen := lastSeen[icao24 := lastSeenUTC];
      flagged := flagged - {icao24};
    }

    /** The body of Sweep's loop for one aircraft. */
    method Visit(icao24: string, now: int) returns (report: seq<StaleEvent>)
      requires Valid() && icao24 in lastSeen
      modifies this
      ensures Valid() && DiffersOnlyAt(Held(), old(Held()), icao24) && lastSeen.Keys >= old(lastSeen).Keys - {icao24}
      ensures Held().TrackOf(icao24) == Swept(old(Held().TrackOf(icao24)), now, threshold)
      ensures report == ReportOf(icao24, old(Held().TrackOf(icao24)), now, threshold)
    {
      report := [];
      var silentFor := now - lastSeen[icao24];
      if icao24 in flagged && flagged[icao24] {
        if silentFor > threshold * EVICT_AFTER_MULTIPLE {
          lastSeen := lastSeen - {icao24};
          flagged := flagged - {icao24};
        }
        return;
      }
      if silentFor <= threshold {
        return;
      }
      flagged := flagged[icao24 := true];
      report := [StaleEvent(icao24, lastSeen[icao24], WholeSeconds(silentFor), lastSeen[icao24] + silentFor)];
    }

    method Sweep(now: int) returns (events: seq<StaleEvent>)
      requires Valid()
      modifies this
      ensures Valid() && SweptSoFar(Held(), old(Held()), {}, now, threshold)
      ensures Reported(events, old(Held()), old(lastSeen).Keys, now, threshold)
    {
      ghost var before := Held();
      events := [];
      var pending := lastSeen.Keys;
      while pending != {}
        invariant Valid() && Halfway(Held(), before, pending, events, now, threshold)
        decreases |pending|
      {
        var icao24 :| icao24 in pending;
        ghost var halfway := Held();
        var report := Visit(icao24, now);
        pending := pending - {icao24};
        events := events + report;
      }
    }
  }

  // ----- Whole runs -----

  /** What happens to the detector, or beside it. */
  datatype Op = Observed(icao24: string, lastSeenUTC: int) | SweptAt(now: int) | Elsewhere

  /** Aircraft `a` after a run from an empty detector. */
  function TrackAfter(ops: seq<Op>, a: string, threshold: int): Track {
    if ops == [] then Untracked
    else
      var t := TrackAfter(ops[..|ops| - 1], a, threshold);
      match ops[|ops| - 1]
      case Observed(icao24, at) => if icao24 == a then Tracked(at, false) else t
      case SweptAt(now) => Swept(t, now, threshold)
      case Elsewhere => t
  }

  /** Does operation `k` of the run report `a`? */
  predicate ReportsAt(ops: seq<Op>, k: nat, a: string, threshold: int)
    requires k < |ops|
  {
    ops[k].SweptAt? && Reports(TrackAfter(ops[..k], a, threshold), ops[k].now, threshold)
  }

  /** Does operation `k` see a silence above the threshold, counted from `since`? */
  predicate SeesSilence(ops: seq<Op>, k: int, since: int, threshold: int)
    requires 0 <= k < |ops|
  {
    ops[k].SweptAt? && ops[k].now - since > threshold
  }

  /** `a` is last observed before `n` by operation `i`. */
  ghost predicate LastObserved(ops: seq<Op>, i: nat, n: nat, a: string) {
    && i < n <= |ops| && ops[i].Observed? && ops[i].icao24 == a
    && forall k :: i < k < n ==> !(ops[k].Observed? && ops[k].icao24 == a)
  }

  ghost predicate SeenSilent(ops: seq<Op>, i: nat, n: nat, threshold: int)
    requires i < n <= |ops| && ops[i].Observed?
  {
    exists k :: i < k < n && SeesSilence(ops, k, ops[i].lastSeenUTC, threshold)
  }

  /** Between observations the track tells whether the silence has been seen; once it has, the
      aircraft is flagged or evicted. */
  lemma {:induction false} TrackTellsSilence(ops: seq<Op>, i: nat, n: nat, a: string, threshold: int)
    requires LastObserved(ops, i, n, a)
    ensures !SeenSilent(ops, i, n, threshold) ==>
              TrackAfter(ops[..n], a, threshold) == Tracked(ops[i].lastSeenUTC, false)
    ensures SeenSilent(ops, i, n, threshold) ==>
              TrackAfter(ops[..n], a, threshold) in {Tracked(ops[i].lastSeenUTC, true), Untracked}
    decreases n
  {
    assert ops[..n][..n - 1] == ops[..n - 1];
    if n > i + 1 {
      TrackTellsSilence(ops, i, n - 1, a, threshold);
      var since := ops[i].lastSeenUTC;
      if SeenSilent(ops, i, n - 1, threshold) {
        var k :| i < k < n - 1 && SeesSilence(ops, k, since, threshold);
        assert i < k < n && SeesSilence(ops, k, since, threshold);
      } else {
        assert SeenSilent(ops, i, n, threshold) <==> SeesSilence(ops, n - 1, since, threshold);
      }
    }
  }

  /** A sweep that sees the silence, and a later one that finds it six times as long. */
  ghost predicate SeenTooLong(ops: seq<Op>, i: nat, n: nat, threshold: int)
    requires i < n <= |ops| && ops[i].Observed?
  {
    exists k :: i < k < n && SeenSilent(ops, i, k, threshold) && SeesSilence(ops, k, ops[i].lastSeenUTC, 6 * threshold)
  }

  /** Between observations the aircraft is forgotten exactly when it has been reported and a later
      sweep has found it silent for more than six thresholds. */
  lemma {:induction false} ForgottenIff(ops: seq<Op>, i: nat, n: nat, a: string, threshold: int)
    requires LastObserved(ops, i, n, a)
    ensures TrackAfter(ops[..n], a, threshold) == Untracked <==> SeenTooLong(ops, i, n, threshold)
    decreases n
  {
    assert ops[..n][..n - 1] == ops[..n - 1];
    if n > i + 1 {
      ForgottenIff(ops, i, n - 1, a, threshold);
      TrackTellsSilence(ops, i, n - 1, a, threshold);
      assert SeenTooLong(ops, i, n, threshold) <==>
        SeenTooLong(ops, i, n - 1, threshold)
        || (SeenSilent(ops, i, n - 1, threshold) && SeesSilence(ops, n - 1, ops[i].lastSeenUTC, 6 * threshold)) by {
        if SeenTooLong(ops, i, n - 1, threshold) {
          var k :| i < k < n - 1 && SeenSilent(ops, i, k, threshold) && SeesSilence(ops, k, ops[i].lastSeenUTC, 6 * threshold);
          assert i < k < n && SeenSilent(ops, i, k, threshold) && SeesSilence(ops, k, ops[i].lastSeenUTC, 6 * threshold);
        }
      }
    }
  }

  /** Between two observations of an aircraft exactly one sweep reports it, the first to see a
      silence above the threshold, and none does if no sweep sees one, evictions included. */
  lemma SilenceReportedOnce(ops: seq<Op>, i: nat, k: nat, a: string, threshold: int)
    requires k < |ops| && LastObserved(ops, i, k, a)
    ensures ReportsAt(ops, k, a, threshold) <==>
              SeesSilence(ops, k, ops[i].lastSeenUTC, threshold) && !SeenSilent(ops, i, k, threshold)
  {
    TrackTellsSilence(ops, i, k, a, threshold);
  }

  /** An aircraft never observed is never reported. */
  lemma {:induction false} NeverObserved(ops: seq<Op>, n: nat, a: string, threshold: int)
    requires n <= |ops| && forall k :: 0 <= k < n ==> !(ops[k].Observed? && ops[k].icao24 == a)
    ensures TrackAfter(ops[..n], a, threshold) == Untracked
    ensures n < |ops| ==> !ReportsAt(ops, n, a, threshold)
  {
    if n > 0 {
      NeverObserved(ops, n - 1, a, threshold);
      assert ops[..n][..n - 1] == ops[..n - 1];
    }
  }

  function Reportings(ops: seq<Op>, i: nat, n: nat, a: string, threshold: int): nat
    requires i < n <= |ops|
    decreases n
  {
    if n == i + 1 then 0
    else Reportings(ops, i, n - 1, a, threshold) + if ReportsAt(ops, n - 1, a, threshold) then 1 else 0
  }

  lemma {:induction false} ReportCount(ops: seq<Op>, i: nat, n: nat, a: string, threshold: int)
    requires LastObserved(ops, i, n, a)
    ensures Reportings(ops, i, n, a, threshold) == if SeenSilent(ops, i, n, threshold) then 1 else 0
    decreases n
  {
    if n > i + 1 {
      ReportCount(ops, i, n - 1, a, threshold);
      SilenceReportedOnce(ops, i, n - 1, a, threshold);
      var since := ops[i].lastSeenUTC;
      if SeenSilent(ops, i, n - 1, threshold) {
        var k :| i < k < n - 1 && SeesSilence(ops, k, since, threshold);
        assert i < k < n && SeesSilence(ops, k, since, threshold);
      }
      assert SeenSilent(ops, i, n, threshold) <==>
             SeenSilent(ops, i, n - 1, threshold) || SeesSilence(ops, n - 1, since, threshold);
    }
  }
}
