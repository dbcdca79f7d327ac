/** A replay from end to end: the page asks for the last half hour, the gateway answers from its
    two stores, the replay store loads the answer and every position of the scrubber shows a
    frame (web/src/map/MapView.tsx, cmd/apigateway/replay.go, web/src/store/useReplayStore.ts). */
module ReplaySession {
  import opened Prelude
  import opened Geo
  import opened FlightStream
  import opened ReplayApi
  import opened ReplayWindow
  import opened ReplayPlayback

  const REPLAY_WINDOW_MS: int := 30 * 60 * 1000

  /** What answers a request: the two stores and where they part, what is published while it runs,
      and how the history query and the fetches end. */
  datatype Backend = Backend(
    table: seq<Sample>, stored: seq<Message>, later: seq<Message>, cutoff: int, batchSize: nat,
    queryFails: bool, delivery: Delivery)
  {
    /** Both stores are in time order, and nothing arrives with an instant the stored part of the
        answer starts after. */
    ghost predicate InOrder(from: int) {
      && TimeAscending(table) && Ordered(stored + later) && batchSize > 0
      && (forall m :: m in later ==> m.timestamp >= Later(from, cutoff))
    }

    ghost predicate Answers(samples: seq<Sample>, from: int, to: int, box: Option<BBox>) {
      Response(samples, table, stored, from, to, cutoff, box, delivery)
    }

    /** Everything stored decodes, no fetch comes back empty-handed and the rows are not cut off. */
    ghost predicate Whole(from: int, to: int) {
      AllStored(stored) && Generous(delivery) && |QueryFlightHistoryRange(table, from, Earlier(to, cutoff))| < MAX_ROWS
    }

    ghost predicate HoldsRow(from: int, to: int, box: Option<BBox>, s: Sample) {
      from < cutoff && s in table && from <= s.recordedAt <= Earlier(to, cutoff) && SampleInBox(box, s)
    }

    ghost predicate HoldsMessage(from: int, to: int, box: Option<BBox>, s: Sample) {
      Later(from, cutoff) < to && exists m :: m in stored && m.timestamp >= Later(from, cutoff) && IsSampleOf(m, to, box, s)
    }

    /** One of the stores holds this sample for the window. */
    ghost predicate Holds(from: int, to: int, box: Option<BBox>, s: Sample) {
      HoldsRow(from, to, box, s) || HoldsMessage(from, to, box, s)
    }
  }

  function Nanos(ms: int): int {
    ms * NANOS_PER_MS
  }

  /** `frame` shows each aircraft by its last sample of `answer` up to the end of millisecond `at`. */
  ghost predicate ShowsLast(frame: seq<Frame>, answer: seq<Sample>, format: int -> string, at: int) {
    && (forall shown :: shown in frame <==> exists k :: LastServed(answer, at, k) && DepictsServed(shown, answer[k], format))
    && OncePerAircraft(frame)
  }

  ghost predicate OncePerAircraft(frame: seq<Frame>) {
    forall p, q :: 0 <= p < q < |frame| ==> frame[p].state.icao24 != frame[q].state.icao24
  }

  /** The store holds `answer` as it was sent. */
  ghost predicate Loaded(store: ReplayStore, answer: seq<Sample>, format: int -> string)
    reads store
  {
    store.Valid() && store.samples == Sent(answer, format)
  }

  // ----- The page's handlers -----

  /** handleStartReplay for a request that is not abandoned; `toMs` is the clock. */
  method HandleStartReplay(store: ReplayStore, backend: Backend, toMs: int, box: Option<BBox>, format: int -> string)
    returns (ghost answer: seq<Sample>)
    requires store.Valid() && ReadsBack(format, store.parse)
    requires backend.InOrder(Nanos(toMs - REPLAY_WINDOW_MS))
    modifies store
    ensures store.Valid() && store.isActive && !store.isLoading
    ensures store.error.Some? ==> store.PlayHead() == old(store.PlayHead()) && store.samples == old(store.samples)
    ensures store.error.Some? ==>
      (backend.queryFails && Nanos(toMs - REPLAY_WINDOW_MS) < backend.cutoff) || exists t: nat :: backend.delivery(t).None?
    ensures store.error.None? ==>
      && backend.Answers(answer, Nanos(toMs - REPLAY_WINDOW_MS), Nanos(toMs), box)
      && Loaded(store, answer, format)
      && store.PlayHead() == Head(toMs - 1_800_000, toMs, toMs - 1_800_000, false)
  {
    store.StartLoading();
    var fromMs := toMs - REPLAY_WINDOW_MS;
    var response := CollectReplaySamples(backend.table, backend.stored, backend.later, Nanos(fromMs), Nanos(toMs),
                                         backend.cutoff, box, backend.batchSize, backend.queryFails, backend.delivery);
    answer := [];
    if response.Err? {
      store.SetError(response.error);
      return;
    }
    answer := response.value;
    ResponseLoads(answer, format, store.parse);
    store.LoadWindow(Sent(response.value, format), fromMs, toMs);
  }

  /** replayFlights: what the map shows for the store as it is. */
  method ReplayFlights(store: ReplayStore, ghost answer: seq<Sample>, ghost format: int -> string) returns (frame: seq<Frame>)
    requires Loaded(store, answer, format) && ReadsBack(format, store.parse) && TimeAscending(answer)
    ensures store.scrubMs.None? ==> frame == []
    ensures store.scrubMs.Some? ==> ShowsLast(frame, answer, format, store.scrubMs.value)
  {
    frame := ComputeFlightsAtTime(store.samples, store.sampleTimesMs, store.scrubMs);
    if store.scrubMs.Some? {
      TimesAreMillis(answer, store.sampleTimesMs, format, store.parse);
      FrameShowsLast(answer, format, store.parse, store.scrubMs.value);
    }
  }

  lemma TimesAreMillis(answer: seq<Sample>, times: seq<int>, format: int -> string, parse: string -> Option<int>)
    requires ReadsBack(format, parse) && Parsed(Sent(answer, format), times, parse)
    ensures times == Millis(answer)
  {
    forall i | 0 <= i < |answer| ensures times[i] == Millis(answer)[i] {
      assert parse(Sent(answer, format)[i].recordedAt) == Some(times[i]);
    }
  }

  lemma FrameShowsLast(answer: seq<Sample>, format: int -> string, parse: string -> Option<int>, at: int)
    requires TimeAscending(answer) && ReadsBack(format, parse)
    ensures ShowsLast(FrameOf(Sent(answer, format)[..Applied(Millis(answer), at)]), answer, format, at)
  {
    ReplayShowsLastServed(answer, format, parse, at);
    ResponseLoads(answer, format, parse);
    FrameExact(Sent(answer, format), Millis(answer), at);
  }

  /** The whole way: ask for a replay and move the scrubber to `ms`. */
  method ReplayTo(store: ReplayStore, backend: Backend, toMs: int, box: Option<BBox>, ms: int, format: int -> string)
    returns (frame: seq<Frame>, ghost answer: seq<Sample>)
    requires store.Valid() && ReadsBack(format, store.parse)
    requires backend.InOrder(Nanos(toMs - REPLAY_WINDOW_MS))
    modifies store
    ensures store.Valid()
    ensures store.error.None? ==>
      var head := Clamped(ms, toMs - REPLAY_WINDOW_MS, toMs);
      && store.PlayHead() == Head(toMs - REPLAY_WINDOW_MS, toMs, head, false)
      && backend.Answers(answer, Nanos(toMs - REPLAY_WINDOW_MS), Nanos(toMs), box)
      && ShowsLast(frame, answer, format, head)
      && (backend.Whole(Nanos(toMs - REPLAY_WINDOW_MS), Nanos(toMs)) ==>
            ShowsNewest(frame, backend, Nanos(toMs - REPLAY_WINDOW_MS), Nanos(toMs), box, format, head))
  {
    frame := [];
    answer := HandleStartReplay(store, backend, toMs, box, format);
    if store.error.Some? {
      return;
    }
    store.SetScrub(ms);
    frame := ReplayFlights(store, answer, format);
    NewestShown(frame, answer, backend, Nanos(toMs - REPLAY_WINDOW_MS), Nanos(toMs), box, format, store.scrubMs.value);
  }

  // ----- What that means for the two stores -----

  /** No sample of the same aircraft held up to the end of millisecond `at` is newer than `s`. */
  ghost predicate Newest(backend: Backend, from: int, to: int, box: Option<BBox>, at: int, s: Sample) {
    && backend.Holds(from, to, box, s) && s.recordedAt < Nanos(at + 1)
    && forall t :: backend.Holds(from, to, box, t) && t.icao24 == s.icao24 && t.recordedAt < Nanos(at + 1) ==>
         t.recordedAt <= s.recordedAt
  }

  ghost predicate ShowsNewestOnly(frame: seq<Frame>, backend: Backend, from: int, to: int, box: Option<BBox>,
                                  format: int -> string, at: int)
  {
    forall shown :: shown in frame ==> exists s :: Newest(backend, from, to, box, at, s) && DepictsServed(shown, s, format)
  }

  ghost predicate ShowsAllHeld(frame: seq<Frame>, backend: Backend, from: int, to: int, box: Option<BBox>, at: int) {
    forall s :: backend.Holds(from, to, box, s) && s.recordedAt < Nanos(at + 1) ==>
      exists shown :: shown in frame && shown.state.icao24 == s.icao24
  }

  /** Each aircraft either store held something of by then is shown, once, by a newest sample. */
  ghost predicate ShowsNewest(frame: seq<Frame>, backend: Backend, from: int, to: int, box: Option<BBox>,
                              format: int -> string, at: int)
  {
    && OncePerAircraft(frame)
    && ShowsNewestOnly(frame, backend, from, to, box, format, at)
    && ShowsAllHeld(frame, backend, from, to, box, at)
  }

  lemma AnswerHolds(answer: seq<Sample>, backend: Backend, from: int, to: int, box: Option<BBox>, s: Sample)
    requires backend.InOrder(from) && backend.Answers(answer, from, to, box) && backend.Whole(from, to)
    ensures s in answer <==> backend.Holds(from, to, box, s)
  {
    assert forall i :: 0 <= i < |backend.stored| ==> backend.stored[i] == (backend.stored + backend.later)[i];
    HistoryPartMember(backend.table, from, to, backend.cutoff, box, s);
    StreamPartMember(backend.stored, from, to, backend.cutoff, box, s);
  }

  /** The aircraft of a sample taken in time has a last one, no older. */
  lemma {:induction false} LastExists(answer: seq<Sample>, at: int, j: nat, hi: nat) returns (k: nat)
    requires TimeAscending(answer) && j < hi <= |answer| && answer[j].recordedAt < Nanos(at + 1)
    requires forall i :: hi <= i < |answer| && answer[i].recordedAt < Nanos(at + 1) ==> answer[i].icao24 != answer[j].icao24
    ensures j <= k && LastServed(answer, at, k) && answer[k].icao24 == answer[j].icao24
    decreases hi
  {
    if answer[hi - 1].recordedAt < Nanos(at + 1) && answer[hi - 1].icao24 == answer[j].icao24 {
      k := hi - 1;
    } else {
      k := LastExists(answer, at, j, hi - 1);
    }
  }

  lemma LastIsNewest(answer: seq<Sample>, backend: Backend, from: int, to: int, box: Option<BBox>, at: int, k: int)
    requires TimeAscending(answer) && (forall s :: s in answer <==> backend.Holds(from, to, box, s))
    requires LastServed(answer, at, k)
    ensures Newest(backend, from, to, box, at, answer[k])
  {
    assert answer[k] in answer;
    forall t | backend.Holds(from, to, box, t) && t.icao24 == answer[k].icao24 && t.recordedAt < Nanos(at + 1)
      ensures t.recordedAt <= answer[k].recordedAt
    {
      var j :| 0 <= j < |answer| && answer[j] == t;
      assert j <= k;
    }
  }

  /** From what was served to what is stored. */
  lemma NewestShown(frame: seq<Frame>, answer: seq<Sample>, backend: Backend, from: int, to: int, box: Option<BBox>,
                    format: int -> string, at: int)
    requires backend.InOrder(from) && backend.Answers(answer, from, to, box)
    requires ShowsLast(frame, answer, format, at)
    ensures backend.Whole(from, to) ==> ShowsNewest(frame, backend, from, to, box, format, at)
  {
    if backend.Whole(from, to) {
      forall s ensures s in answer <==> backend.Holds(from, to, box, s) {
        AnswerHolds(answer, backend, from, to, box, s);
      }
      forall shown | shown in frame ensures exists s :: Newest(backend, from, to, box, at, s) && DepictsServed(shown, s, format) {
        var k :| LastServed(answer, at, k) && DepictsServed(shown, answer[k], format);
        LastIsNewest(answer, backend, from, to, box, at, k);
      }
      forall s | backend.Holds(from, to, box, s) && s.recordedAt < Nanos(at + 1)
        ensures exists shown :: shown in frame && shown.state.icao24 == s.icao24
      {
        assert s in answer;
        var j :| 0 <= j < |answer| && answer[j] == s;
        var k := LastExists(answer, at, j, |answer|);
        var sent := ReplaySample(answer[k].icao24, format(answer[k].recordedAt), answer[k].position, answer[k].details);
        SampleIsDepicted(SampleToFlightState(sent), sent);
        assert DepictsServed(SampleToFlightState(sent), answer[k], format);
      }
    }
  }
}
