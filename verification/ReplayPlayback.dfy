/** The browser's replay mode: playback frames (web/src/replay/replayPlayback.ts) and the
    store behind the scrubber (web/src/store/useReplayStore.ts). Times are epoch milliseconds. */
module ReplayPlayback {
  import opened Prelude
  import opened Geo
  import opened Filtering
  import opened FlightModel
  import opened FlightStream
  import opened ReplayApi

  /** A sample as received: the instant is still text. */
  datatype ReplaySample = ReplaySample(icao24: string, recordedAt: string, position: Position, details: Details)

  /** sampleToFlightState; the timestamp text goes through unparsed, so `lastSeen` is kept
      beside the other fields. */
  datatype Frame = Frame(state: FlightState, lastSeen: string)

  function SampleToFlightState(s: ReplaySample): Frame {
    Frame(
      FlightState(
        s.icao24,
        Motion(None, None, s.position.lat, s.position.lon, s.details.altitudeBaroFt, None, s.details.groundSpeedKt, None,
               s.details.headingDeg, s.details.onGround, None),
        [], ADSB, 0, false, None, None, false, None),
      s.recordedAt)
  }

  /** What `f` shows is exactly this: the sample's own fields, and nothing it does not carry. */
  ghost predicate Depicts(f: Frame, icao24: string, recordedAt: string, position: Position, details: Details) {
    && f.state.icao24 == icao24 && f.lastSeen == recordedAt
    && f.state.motion.lat == position.lat && f.state.motion.lon == position.lon
    && f.state.motion.altitudeBaroFt == details.altitudeBaroFt && f.state.motion.groundSpeedKt == details.groundSpeedKt
    && f.state.motion.headingDeg == details.headingDeg && f.state.motion.onGround == details.onGround
    && f.state.motion.callsign == None && f.state.motion.registration == None && f.state.motion.squawk == None
    && f.state.motion.altitudeGeoFt == None && f.state.motion.verticalRateFpm == None
    && f.state.positionQuality == "adsb" && f.state.sources == []
    && f.state.aircraftType == None && f.state.emitterCategory == None && f.state.iconClass == None
    && !f.state.stale && !f.state.military && f.state.lastSeenUTC == 0
  }

  ghost predicate DepictsSample(f: Frame, s: ReplaySample) {
    Depicts(f, s.icao24, s.recordedAt, s.position, s.details)
  }

  /** A sample is shown field by field, and by one frame only. */
  lemma SampleIsDepicted(f: Frame, s: ReplaySample)
    ensures DepictsSample(f, s) <==> f == SampleToFlightState(s)
  {
  }

  lemma FrameKeepsSample(s: ReplaySample, t: ReplaySample)
    ensures SampleToFlightState(s) == SampleToFlightState(t) ==> s == t
  {
  }

  // ----- One frame -----

  /** The last sample of aircraft `a`, or -1. */
  function LastIndex(samples: seq<ReplaySample>, a: string): int {
    if samples == [] then -1
    else if samples[|samples| - 1].icao24 == a then |samples| - 1
    else LastIndex(samples[..|samples| - 1], a)
  }

  lemma {:induction false} LastIndexExact(samples: seq<ReplaySample>, a: string)
    ensures -1 <= LastIndex(samples, a) < |samples|
    ensures LastIndex(samples, a) >= 0 ==> samples[LastIndex(samples, a)].icao24 == a
    ensures forall k :: LastIndex(samples, a) < k < |samples| ==> samples[k].icao24 != a
  {
    if samples != [] && samples[|samples| - 1].icao24 != a {
      var init := samples[..|samples| - 1];
      LastIndexExact(init, a);
      assert forall k :: 0 <= k < |init| ==> init[k] == samples[k];
    }
  }

  /** The aircraft seen, in order of first appearance. */
  function Seen(samples: seq<ReplaySample>): seq<string> {
    if samples == [] then []
    else
      var before := Seen(samples[..|samples| - 1]);
      var a := samples[|samples| - 1].icao24;
      if a in before then before else before + [a]
  }

  ghost predicate Distinct<T>(s: seq<T>) {
    forall i, j :: 0 <= i < j < |s| ==> s[i] != s[j]
  }

  lemma {:induction false} SeenExact(samples: seq<ReplaySample>)
    ensures Distinct(Seen(samples))
    ensures forall a :: a in Seen(samples) <==> LastIndex(samples, a) >= 0
  {
    if samples != [] {
      SeenExact(samples[..|samples| - 1]);
    }
  }

  /** The frame all of `samples` add up to: each aircraft once, by its last sample. */
  function FrameOf(samples: seq<ReplaySample>): seq<Frame> {
    var seen := Seen(samples);
    seq(|seen|, p requires 0 <= p < |seen| => LastFrame(samples, seen[p]))
  }

  function LastFrame(samples: seq<ReplaySample>, a: string): Frame
    requires a in Seen(samples)
  {
    SeenExact(samples);
    LastIndexExact(samples, a);
    SampleToFlightState(samples[LastIndex(samples, a)])
  }

  /** How many samples come before the first one later than `at`. */
  function Applied(times: seq<int>, at: int): (n: nat)
    ensures n <= |times|
  {
    if times == [] then 0
    else
      var init := times[..|times| - 1];
      var n := Applied(init, at);
      if n == |init| && times[|times| - 1] <= at then |times| else n
  }

  lemma {:induction false} AppliedStops(times: seq<int>, at: int)
    ensures forall i :: 0 <= i < Applied(times, at) ==> times[i] <= at
    ensures Applied(times, at) < |times| ==> times[Applied(times, at)] > at
  {
    if times != [] {
      var init := times[..|times| - 1];
      AppliedStops(init, at);
      assert forall i :: 0 <= i < |init| ==> init[i] == times[i];
    }
  }

  ghost predicate AllApplied(times: seq<int>, n: nat, at: int) {
    n <= |times| && forall i :: 0 <= i < n ==> times[i] <= at
  }

  lemma AppliedUnique(times: seq<int>, at: int, n: nat)
    requires AllApplied(times, n, at) && (n < |times| ==> times[n] > at)
    ensures n == Applied(times, at)
  {
    AppliedStops(times, at);
  }

  ghost predicate Ascending(times: seq<int>) {
    forall i, j :: 0 <= i < j < |times| ==> times[i] <= times[j]
  }

  /** computeFlightsAtTime. */
  method ComputeFlightsAtTime(samples: seq<ReplaySample>, times: seq<int>, atMs: Option<int>) returns (frame: seq<Frame>)
    requires |samples| == |times|
    ensures frame == if atMs.None? then [] else FrameOf(samples[..Applied(times, atMs.value)])
    ensures atMs.Some? && Ascending(times) ==>
      forall shown :: shown in frame <==> LastAtOrBefore(samples, times, atMs.value, shown)
  {
    if atMs.None? {
      return [];
    }
    var keys: seq<string>, latest: map<string, ReplaySample> := [], map[];
    var i: nat := 0;
    while i < |samples|
      invariant i <= |samples|
      invariant AllApplied(times, i, atMs.value)
      invariant Latest(keys, latest, samples[..i])
    {
      if times[i] > atMs.value {
        break;
      }
      LatestNext(keys, latest, samples, i);
      keys, latest := MapSet(keys, latest, samples[i]);
      i := i + 1;
    }
    AppliedUnique(times, atMs.value, i);
    ValuesAreFrame(keys, latest, samples[..i]);
    frame := MapValues(keys, latest);
    if Ascending(times) {
      FrameExact(samples, times, atMs.value);
    }
  }

  /** `Array.from(latest.values()).map(sampleToFlightState)`. */
  function MapValues(keys: seq<string>, latest: map<string, ReplaySample>): seq<Frame>
    requires forall a :: a in keys ==> a in latest
  {
    seq(|keys|, p requires 0 <= p < |keys| => assert keys[p] in keys; SampleToFlightState(latest[keys[p]]))
  }

  lemma ValuesAreFrame(keys: seq<string>, latest: map<string, ReplaySample>, samples: seq<ReplaySample>)
    requires Latest(keys, latest, samples)
    ensures MapValues(keys, latest) == FrameOf(samples)
  {
    forall p | 0 <= p < |keys| ensures MapValues(keys, latest)[p] == FrameOf(samples)[p] {
      assert keys[p] in keys;
    }
  }

  /** `latest.set(...)`: a key keeps the position of its first insertion. */
  method MapSet(keys: seq<string>, latest: map<string, ReplaySample>, s: ReplaySample)
    returns (newKeys: seq<string>, newLatest: map<string, ReplaySample>)
    ensures newKeys == if s.icao24 in latest then keys else keys + [s.icao24]
    ensures newLatest == latest[s.icao24 := s]
  {
    newKeys := keys;
    if s.icao24 !in latest {
      newKeys := keys + [s.icao24];
    }
    newLatest := latest[s.icao24 := s];
  }

  /** The Map after applying `samples`: its keys in insertion order, and their values. */
  ghost predicate Latest(keys: seq<string>, latest: map<string, ReplaySample>, samples: seq<ReplaySample>) {
    && keys == Seen(samples)
    && (forall a :: a in latest <==> a in keys)
    && (forall a :: a in keys ==> 0 <= LastIndex(samples, a) < |samples| && latest[a] == samples[LastIndex(samples, a)])
  }

  lemma LatestNext(keys: seq<string>, latest: map<string, ReplaySample>, samples: seq<ReplaySample>, i: nat)
    requires i < |samples| && Latest(keys, latest, samples[..i])
    ensures Latest(if samples[i].icao24 in latest then keys else keys + [samples[i].icao24],
                   latest[samples[i].icao24 := samples[i]], samples[..i + 1])
  {
    assert samples[..i + 1][..i] == samples[..i];
    var a := samples[i].icao24;
    forall b | b in latest && b != a
      ensures LastIndex(samples[..i + 1], b) == LastIndex(samples[..i], b)
    {
    }
  }

  /** `shown` is what an aircraft's last sample at or before `at` looks like. */
  ghost predicate LastAtOrBefore(samples: seq<ReplaySample>, times: seq<int>, at: int, shown: Frame)
    requires |samples| == |times|
  {
    exists k :: LastOfAircraft(samples, times, at, k) && DepictsSample(shown, samples[k])
  }

  ghost predicate LastOfAircraft(samples: seq<ReplaySample>, times: seq<int>, at: int, k: int)
    requires |samples| == |times|
  {
    && 0 <= k < |samples| && times[k] <= at
    && (forall j :: k < j < |samples| && times[j] <= at ==> samples[j].icao24 != samples[k].icao24)
  }

  /** On time-ascending samples the early exit costs nothing: a frame holds exactly each
      aircraft's last sample at or before the instant, each aircraft once. */
  lemma FrameExact(samples: seq<ReplaySample>, times: seq<int>, at: int)
    requires |samples| == |times| && Ascending(times)
    ensures forall shown :: shown in FrameOf(samples[..Applied(times, at)]) <==> LastAtOrBefore(samples, times, at, shown)
    ensures forall p, q :: 0 <= p < q < |FrameOf(samples[..Applied(times, at)])| ==>
              FrameOf(samples[..Applied(times, at)])[p].state.icao24 != FrameOf(samples[..Applied(times, at)])[q].state.icao24
  {
    var n := Applied(times, at);
    var applied := samples[..n];
    var frame := FrameOf(applied);
    AppliedStops(times, at);
    assert forall k :: 0 <= k < |times| ==> (times[k] <= at <==> k < n);
    SeenExact(applied);
    forall p | 0 <= p < |frame|
      ensures frame[p].state.icao24 == Seen(applied)[p] && LastAtOrBefore(samples, times, at, frame[p])
    {
      var a := Seen(applied)[p];
      LastIndexExact(applied, a);
      var k := LastIndex(applied, a);
      assert a in Seen(applied);
      assert forall j :: 0 <= j < n ==> applied[j] == samples[j];
      assert LastOfAircraft(samples, times, at, k);
      SampleIsDepicted(frame[p], samples[k]);
    }
    forall shown | LastAtOrBefore(samples, times, at, shown) ensures shown in frame {
      var k :| LastOfAircraft(samples, times, at, k) && DepictsSample(shown, samples[k]);
      SampleIsDepicted(shown, samples[k]);
      ShownInFrame(samples, times, at, n, k);
    }
  }

  lemma ShownInFrame(samples: seq<ReplaySample>, times: seq<int>, at: int, n: nat, k: int)
    requires |samples| == |times| && n <= |times| && forall j :: 0 <= j < |times| ==> (times[j] <= at <==> j < n)
    requires LastOfAircraft(samples, times, at, k)
    ensures SampleToFlightState(samples[k]) in FrameOf(samples[..n])
  {
    var applied, a := samples[..n], samples[k].icao24;
    assert applied[k] == samples[k];
    LastIndexExact(applied, a);
    SeenExact(applied);
    var p :| 0 <= p < |Seen(applied)| && Seen(applied)[p] == a;
    assert FrameOf(applied)[p] == SampleToFlightState(samples[k]);
  }

  /** Moving the scrub head forward never removes or reorders an aircraft. */
  lemma {:induction false} SeenGrows(samples: seq<ReplaySample>, m: nat, n: nat)
    requires m <= n <= |samples|
    ensures Seen(samples[..m]) <= Seen(samples[..n])
    decreases n
  {
    if m < n {
      SeenGrows(samples, m, n - 1);
      assert samples[..n][..n - 1] == samples[..n - 1];
    }
  }

  lemma ForwardKeepsAircraft(samples: seq<ReplaySample>, times: seq<int>, at: int, later: int)
    requires |samples| == |times| && at <= later
    ensures Applied(times, at) <= Applied(times, later)
    ensures |FrameOf(samples[..Applied(times, at)])| <= |FrameOf(samples[..Applied(times, later)])|
    ensures forall p :: 0 <= p < |FrameOf(samples[..Applied(times, at)])| ==>
              FrameOf(samples[..Applied(times, at)])[p].state.icao24 == FrameOf(samples[..Applied(times, later)])[p].state.icao24
  {
    AppliedStops(times, at);
    AppliedStops(times, later);
    SeenGrows(samples, Applied(times, at), Applied(times, later));
    FrameNames(samples[..Applied(times, at)]);
    FrameNames(samples[..Applied(times, later)]);
  }

  lemma FrameNames(samples: seq<ReplaySample>)
    ensures |FrameOf(samples)| == |Seen(samples)|
    ensures forall p :: 0 <= p < |Seen(samples)| ==> FrameOf(samples)[p].state.icao24 == Seen(samples)[p]
  {
    SeenExact(samples);
    forall p | 0 <= p < |Seen(samples)| ensures FrameOf(samples)[p].state.icao24 == Seen(samples)[p] {
      assert Seen(samples)[p] in Seen(samples);
      LastIndexExact(samples, Seen(samples)[p]);
    }
  }

  // ----- The store -----

  function Distance(a: int, b: int): int {
    if a < b then b - a else a - b
  }

  /** The scrubber's part of the store: the loaded window and the play head. */
  datatype Head = NoWindow | Head(start: int, end: int, scrub: int, playing: bool)

  function Clamped(ms: int, start: int, end: int): (at: int)
    ensures start <= end ==> start <= at <= end
    ensures forall x :: start <= x <= end ==> Distance(at, ms) <= Distance(x, ms)
    ensures start > end ==> at == end
  {
    var floored := if ms < start then start else ms;
    if floored > end then end else floored
  }

  function Scrubbed(h: Head, ms: int): Head {
    if h.NoWindow? then h
    else h.(scrub := Clamped(ms, h.start, h.end), playing := h.playing && Clamped(ms, h.start, h.end) < h.end)
  }

  function Toggled(h: Head): Head {
    if h.NoWindow? then h
    else if !h.playing && h.scrub >= h.end then h.(playing := true, scrub := h.start)
    else h.(playing := !h.playing)
  }

  /** In a real window the head stays inside and playing means there is something left. */
  ghost predicate Sound(h: Head) {
    h.Head? && h.start < h.end ==> h.start <= h.scrub <= h.end && (h.playing ==> h.scrub < h.end)
  }

  lemma SoundKept(h: Head, ms: int)
    requires Sound(h)
    ensures Sound(Scrubbed(h, ms)) && Sound(Toggled(h))
  {
  }

  /** Pressed with something left to play, it starts or stops where it is; pressed twice it changes
      nothing. At the end it starts over. */
  lemma ToggleExact(h: Head)
    requires h.Head?
    ensures Toggled(h).Head? && Toggled(h).start == h.start && Toggled(h).end == h.end && Toggled(h).playing == !h.playing
    ensures Toggled(h).scrub == if h.playing || h.scrub < h.end then h.scrub else h.start
    ensures h.scrub < h.end ==> Toggled(Toggled(h)) == h
  {
  }

  const TICK_MS: int := 250
  const SPEED: int := 30

  /** `n` playback ticks of web/src/replay/ReplayScrubber.tsx; a stopped head gets none. */
  function Ticks(h: Head, n: nat): Head {
    if n == 0 then h
    else
      var before := Ticks(h, n - 1);
      if before.Head? && before.playing then Scrubbed(before, before.scrub + TICK_MS * SPEED) else before
  }

  /** Playback advances 7.5 s of recording a tick, never past the end, and stops exactly when
      it gets there. */
  lemma {:induction false} PlaybackEnds(h: Head, n: nat)
    requires h.Head? && h.playing && h.start < h.end && Sound(h)
    ensures Ticks(h, n).Head? && Ticks(h, n).start == h.start && Ticks(h, n).end == h.end
    ensures Ticks(h, n).scrub == Clamped(h.scrub + n * 7500, h.start, h.end)
    ensures Ticks(h, n).playing <==> h.scrub + n * 7500 < h.end
  {
    if n > 0 {
      PlaybackEnds(h, n - 1);
    }
  }

  /** Pressing play on a finished recording replays it: the head is back at the start and, after
      enough ticks, at the end again. */
  lemma PlayAgain(h: Head, n: nat)
    requires h.Head? && h.start < h.end && !h.playing && h.scrub == h.end
    ensures Toggled(h) == Head(h.start, h.end, h.start, true)
    ensures h.end - h.start <= n * 7500 ==> Ticks(Toggled(h), n) == h
  {
    PlaybackEnds(Toggled(h), n);
  }

  ghost predicate Parsed(samples: seq<ReplaySample>, times: seq<int>, parse: string -> Option<int>) {
    && |samples| == |times|
    && forall i :: 0 <= i < |samples| ==> parse(samples[i].recordedAt) == Some(times[i])
  }

  /** The samples whose instant parses. */
  function Readable(samples: seq<ReplaySample>, parse: string -> Option<int>): seq<ReplaySample> {
    if samples == [] then []
    else
      var last := samples[|samples| - 1];
      Readable(samples[..|samples| - 1], parse) + if parse(last.recordedAt).Some? then [last] else []
  }

  lemma {:induction false} ReadableShorter(samples: seq<ReplaySample>, parse: string -> Option<int>)
    ensures |Readable(samples, parse)| <= |samples|
    ensures |Readable(samples, parse)| == |samples| ==> Readable(samples, parse) == samples
    ensures (forall s :: s in samples ==> parse(s.recordedAt).Some?) ==> Readable(samples, parse) == samples
  {
    if samples != [] {
      var init, last := samples[..|samples| - 1], samples[|samples| - 1];
      ReadableShorter(init, parse);
      assert samples == init + [last];
    }
  }

  /** Exactly the samples whose instant parses, in the order they came. */
  lemma {:induction false} ReadableExact(samples: seq<ReplaySample>, parse: string -> Option<int>)
    ensures forall s :: s in Readable(samples, parse) <==> s in samples && parse(s.recordedAt).Some?
    ensures Readable(samples, parse) == Filter(samples, (s: ReplaySample) => parse(s.recordedAt).Some?)
  {
    if samples != [] {
      ReadableExact(samples[..|samples| - 1], parse);
      assert samples == samples[..|samples| - 1] + [samples[|samples| - 1]];
    }
  }

  lemma ReadableSnoc(samples: seq<ReplaySample>, i: nat, parse: string -> Option<int>)
    requires i < |samples|
    ensures Readable(samples[..i + 1], parse)
         == Readable(samples[..i], parse) + if parse(samples[i].recordedAt).Some? then [samples[i]] else []
  {
    assert samples[..i + 1][..i] == samples[..i];
  }

  /** loadWindow's loop: drops samples that do not parse, keeping instants aligned by index. */
  method KeepReadable(samples: seq<ReplaySample>, parse: string -> Option<int>)
    returns (validSamples: seq<ReplaySample>, validTimesMs: seq<int>)
    ensures validSamples == Readable(samples, parse) && Parsed(validSamples, validTimesMs, parse)
  {
    validSamples, validTimesMs := [], [];
    for i := 0 to |samples|
      invariant validSamples == Readable(samples[..i], parse)
      invariant Parsed(validSamples, validTimesMs, parse)
    {
      ReadableSnoc(samples, i, parse);
      var t := parse(samples[i].recordedAt);
      if t.Some? {
        validSamples := validSamples + [samples[i]];
        validTimesMs := validTimesMs + [t.value];
      }
    }
    assert samples[..|samples|] == samples;
  }

  /** useReplayStore; `parse` is `new Date(text).getTime()`, None for an invalid date. */
  class ReplayStore {
    const parse: string -> Option<int>
    var isActive: bool
    var isLoading: bool
    var isPlaying: bool
    var error: Option<string>
    var samples: seq<ReplaySample>
    var sampleTimesMs: seq<int>
    var windowStartMs: Option<int>
    var windowEndMs: Option<int>
    var scrubMs: Option<int>

    ghost predicate Valid()
      reads this
    {
      && Parsed(samples, sampleTimesMs, parse)
      && (windowStartMs.Some? <==> windowEndMs.Some?) && (windowStartMs.Some? <==> scrubMs.Some?)
      && (isPlaying ==> windowStartMs.Some?)
      && Sound(PlayHead())
    }

    ghost function PlayHead(): Head
      reads this
    {
      if windowStartMs.Some? && windowEndMs.Some? && scrubMs.Some?
      then Head(windowStartMs.value, windowEndMs.value, scrubMs.value, isPlaying)
      else NoWindow
    }

    constructor (parse: string -> Option<int>)
      ensures Valid() && this.parse == parse && !isActive && PlayHead() == NoWindow && samples == []
    {
      this.parse := parse;
      isActive, isLoading, isPlaying, error := false, false, false, None;
      samples, sampleTimesMs := [], [];
      windowStartMs, windowEndMs, scrubMs := None, None, None;
    }

    method StartLoading()
      requires Valid()
      modifies this`isActive, this`isLoading, this`error
      ensures Valid() && isActive && isLoading && error == None && PlayHead() == old(PlayHead())
    {
      isActive, isLoading, error := true, true, None;
    }

    method LoadWindow(samples: seq<ReplaySample>, windowStartMs: int, windowEndMs: int)
      requires Valid()
      modifies this
      ensures Valid() && !isLoading && error == None && isActive == old(isActive)
      ensures this.samples == Readable(samples, parse)
      ensures PlayHead() == Head(windowStartMs, windowEndMs, windowStartMs, false)
    {
      var validSamples, validTimesMs := KeepReadable(samples, parse);
      ReadableShorter(samples, parse);
      this.samples := if |validSamples| == |samples| then samples else validSamples;
      sampleTimesMs := validTimesMs;
      this.windowStartMs, this.windowEndMs, scrubMs := Some(windowStartMs), Some(windowEndMs), Some(windowStartMs);
      isLoading, isPlaying, error := false, false, None;
    }

    method SetError(error: string)
      requires Valid()
      modifies this`isLoading, this`error
      ensures Valid() && !isLoading && this.error == Some(error) && PlayHead() == old(PlayHead())
    {
      isLoading, this.error := false, Some(error);
    }

    method SetScrub(ms: int)
      requires Valid()
      modifies this`scrubMs, this`isPlaying
      ensures Valid() && PlayHead() == Scrubbed(old(PlayHead()), ms)
    {
      if windowStartMs.None? || windowEndMs.None? {
        return;
      }
      var clamped := Clamped(ms, windowStartMs.value, windowEndMs.value);
      scrubMs, isPlaying := Some(clamped), isPlaying && clamped < windowEndMs.value;
    }

    method TogglePlay()
      requires Valid()
      modifies this`scrubMs, this`isPlaying
      ensures Valid() && PlayHead() == Toggled(old(PlayHead()))
    {
      if windowStartMs.None? || windowEndMs.None? {
        return;
      }
      if !isPlaying && scrubMs.Some? && scrubMs.value >= windowEndMs.value {
        isPlaying, scrubMs := true, windowStartMs;
        return;
      }
      isPlaying := !isPlaying;
    }

    method Pause()
      requires Valid()
      modifies this`isPlaying
      ensures Valid() && !isPlaying && (old(PlayHead()).Head? ==> PlayHead() == old(PlayHead()).(playing := false))
    {
      isPlaying := false;
    }

    method Exit()
      requires Valid()
      modifies this
      ensures Valid() && !isActive && !isLoading && error == None && samples == [] && PlayHead() == NoWindow
    {
      isActive, isLoading, isPlaying, error := false, false, false, None;
      samples, sampleTimesMs := [], [];
      windowStartMs, windowEndMs, scrubMs := None, None, None;
    }
  }

  // ----- End to end -----

  const NANOS_PER_MS: int := 1_000_000

  /** A browser reads back a response instant truncated to milliseconds. */
  ghost predicate ReadsBack(format: int -> string, parse: string -> Option<int>) {
    forall ns: int :: parse(format(ns)) == Some(ns / NANOS_PER_MS)
  }

  function Sent(samples: seq<Sample>, format: int -> string): seq<ReplaySample> {
    seq(|samples|, i requires 0 <= i < |samples| =>
      ReplaySample(samples[i].icao24, format(samples[i].recordedAt), samples[i].position, samples[i].details))
  }

  function Millis(samples: seq<Sample>): seq<int> {
    seq(|samples|, i requires 0 <= i < |samples| => samples[i].recordedAt / NANOS_PER_MS)
  }

  /** `k` is aircraft `samples[k].icao24`'s last sample at or before the end of millisecond `at`. */
  ghost predicate LastServed(samples: seq<Sample>, at: int, k: int) {
    && 0 <= k < |samples| && samples[k].recordedAt < (at + 1) * 1_000_000
    && (forall j :: k < j < |samples| && samples[j].recordedAt < (at + 1) * 1_000_000 ==>
          samples[j].icao24 != samples[k].icao24)
  }

  /** What the server answers in time order, the browser loads whole, still in time order. */
  lemma ResponseLoads(samples: seq<Sample>, format: int -> string, parse: string -> Option<int>)
    requires TimeAscending(samples) && ReadsBack(format, parse)
    ensures Readable(Sent(samples, format), parse) == Sent(samples, format)
    ensures Parsed(Sent(samples, format), Millis(samples), parse) && Ascending(Millis(samples))
  {
    ReadableShorter(Sent(samples, format), parse);
  }

  /** `f` shows the served sample `s`, its instant written by `format`. */
  ghost predicate DepictsServed(f: Frame, s: Sample, format: int -> string) {
    Depicts(f, s.icao24, format(s.recordedAt), s.position, s.details)
  }

  /** Scrubbed anywhere, the replayed map shows an aircraft exactly by its last served sample at or
      before that instant. */
  lemma ReplayShowsLastServed(samples: seq<Sample>, format: int -> string, parse: string -> Option<int>, at: int)
    requires TimeAscending(samples) && ReadsBack(format, parse)
    ensures forall shown :: shown in FrameOf(Sent(samples, format)[..Applied(Millis(samples), at)]) <==>
              exists k :: LastServed(samples, at, k) && DepictsServed(shown, samples[k], format)
  {
    var sent, times := Sent(samples, format), Millis(samples);
    ResponseLoads(samples, format, parse);
    FrameExact(sent, times, at);
    forall k ensures LastOfAircraft(sent, times, at, k) <==> LastServed(samples, at, k) {
      forall j | 0 <= j < |samples|
        ensures times[j] <= at <==> samples[j].recordedAt < (at + 1) * NANOS_PER_MS
      {
        Floor(samples[j].recordedAt, at);
      }
    }
  }

  lemma Floor(ns: int, at: int)
    ensures ns / NANOS_PER_MS <= at <==> ns < (at + 1) * NANOS_PER_MS
  {
  }
}
