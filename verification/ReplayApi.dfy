/** The stream part of GET /replay (cmd/apigateway/replay.go). Instants are nanoseconds. */
module ReplayApi {
  import opened Prelude
  import opened Geo
  import opened FlightStream

  /** A flight_history row, and the shape of every replay sample. */
  datatype Sample = Sample(icao24: string, recordedAt: int, position: Position, details: Details)

  predicate InBox(box: Option<BBox>, p: Position) {
    box.None? || box.value.Contains(p)
  }

  /** flightStateMessageToHistoryRecord. */
  function SampleAt(timestamp: int, state: Reading): Sample {
    Sample(state.icao24, timestamp, state.position, state.details)
  }

  predicate Wanted(timestamp: int, state: Reading, to: int, box: Option<BBox>) {
    timestamp <= to && InBox(box, state.position)
  }

  ghost predicate TimeAscending(samples: seq<Sample>) {
    forall i, j :: 0 <= i < j < |samples| ==> samples[i].recordedAt <= samples[j].recordedAt
  }

  ghost predicate Ordered(stream: seq<Message>) {
    forall i, j :: 0 <= i < j < |stream| ==> stream[i].timestamp <= stream[j].timestamp
  }

  // ----- What a stretch of the stream holds -----

  /** Declaratively: the samples of the decodable messages of `lo..hi` up to `to` inside the box. */
  function Picked(stream: seq<Message>, lo: nat, hi: nat, to: int, box: Option<BBox>): seq<Sample>
    requires lo <= hi <= |stream|
    decreases hi
  {
    if lo == hi then []
    else
      var m := stream[hi - 1];
      Picked(stream, lo, hi - 1, to, box) +
      if m.state.Some? && Wanted(m.timestamp, m.state.value, to, box) then [SampleAt(m.timestamp, m.state.value)] else []
  }

  lemma {:induction false} PickedSplit(stream: seq<Message>, lo: nat, mid: nat, hi: nat, to: int, box: Option<BBox>)
    requires lo <= mid <= hi <= |stream|
    ensures Picked(stream, lo, hi, to, box) == Picked(stream, lo, mid, to, box) + Picked(stream, mid, hi, to, box)
    decreases hi
  {
    if mid < hi {
      PickedSplit(stream, lo, mid, hi - 1, to, box);
    }
  }

  lemma {:induction false} PickedNothingLate(stream: seq<Message>, lo: nat, hi: nat, to: int, box: Option<BBox>)
    requires lo <= hi <= |stream| && forall i :: lo <= i < hi ==> stream[i].timestamp > to
    ensures Picked(stream, lo, hi, to, box) == []
    decreases hi
  {
    if lo < hi {
      PickedNothingLate(stream, lo, hi - 1, to, box);
    }
  }

  /** How many messages of `lo..hi` decode. */
  function Decoded(stream: seq<Message>, lo: nat, hi: nat): nat
    requires lo <= hi <= |stream|
    decreases hi
  {
    if lo == hi then 0 else Decoded(stream, lo, hi - 1) + if stream[hi - 1].state.Some? then 1 else 0
  }

  lemma {:induction false} DecodedSplit(stream: seq<Message>, lo: nat, mid: nat, hi: nat)
    requires lo <= mid <= hi <= |stream|
    ensures Decoded(stream, lo, hi) == Decoded(stream, lo, mid) + Decoded(stream, mid, hi)
    decreases hi
  {
    if mid < hi {
      DecodedSplit(stream, lo, mid, hi - 1);
    }
  }

  ghost predicate AllDecode(stream: seq<Message>, lo: nat, hi: nat)
    requires lo <= hi <= |stream|
  {
    forall i :: lo <= i < hi ==> stream[i].state.Some?
  }

  ghost predicate SomeDecodes(stream: seq<Message>, lo: nat, hi: nat) {
    exists i :: lo <= i < hi && i < |stream| && stream[i].state.Some?
  }

  lemma {:induction false} DecodedBounds(stream: seq<Message>, lo: nat, hi: nat)
    requires lo <= hi <= |stream|
    ensures Decoded(stream, lo, hi) <= hi - lo
    ensures SomeDecodes(stream, lo, hi) <==> Decoded(stream, lo, hi) > 0
    ensures AllDecode(stream, lo, hi) <==> Decoded(stream, lo, hi) == hi - lo
    decreases hi
  {
    if lo < hi {
      DecodedBounds(stream, lo, hi - 1);
    }
  }

  lemma {:induction false} NothingDecodedNothingPicked(stream: seq<Message>, lo: nat, hi: nat, to: int, box: Option<BBox>)
    requires lo <= hi <= |stream| && Decoded(stream, lo, hi) == 0
    ensures Picked(stream, lo, hi, to, box) == []
    decreases hi
  {
    if lo < hi {
      NothingDecodedNothingPicked(stream, lo, hi - 1, to, box);
    }
  }

  // ----- One batch -----

  /** The samples of decoded messages up to `to` inside the box. */
  function Chosen(batch: seq<FlightStateMessage>, to: int, box: Option<BBox>): seq<Sample> {
    if batch == [] then []
    else
      var m := batch[|batch| - 1];
      Chosen(batch[..|batch| - 1], to, box) +
      if Wanted(m.timestamp, m.state, to, box) then [SampleAt(m.timestamp, m.state)] else []
  }

  ghost predicate MessagesOrdered(batch: seq<FlightStateMessage>) {
    forall i, j :: 0 <= i < j < |batch| ==> batch[i].timestamp <= batch[j].timestamp
  }

  lemma {:induction false} DeliveredIsDecodedPart(stream: seq<Message>, lo: nat, n: nat, to: int, box: Option<BBox>)
    requires lo + n <= |stream|
    ensures Chosen(Delivered(stream, lo + 1, n), to, box) == Picked(stream, lo, lo + n, to, box)
    ensures |Delivered(stream, lo + 1, n)| == Decoded(stream, lo, lo + n)
  {
    if n > 0 {
      DeliveredIsDecodedPart(stream, lo, n - 1, to, box);
      var before, m := Delivered(stream, lo + 1, n - 1), stream[lo + n - 1];
      if m.state.Some? {
        assert (before + [FlightStateMessage(lo + n, m.timestamp, m.state.value)])[..|before|] == before;
      } else {
        assert before + [] == before;
      }
    }
  }

  lemma {:induction false} DeliveredOrdered(stream: seq<Message>, lo: nat, n: nat)
    requires lo + n <= |stream| && Ordered(stream)
    ensures MessagesOrdered(Delivered(stream, lo + 1, n))
    ensures forall m :: m in Delivered(stream, lo + 1, n) ==> exists j :: lo <= j < lo + n && stream[j].timestamp == m.timestamp
  {
    if n > 0 {
      DeliveredOrdered(stream, lo, n - 1);
      var before := Delivered(stream, lo + 1, n - 1);
      forall i | 0 <= i < |before| ensures before[i].timestamp <= stream[lo + n - 1].timestamp {
        assert before[i] in before;
      }
    }
  }

  /** Nothing from the first message past `to` on can be chosen. */
  lemma {:induction false} ChosenBeforePast(batch: seq<FlightStateMessage>, i: nat, to: int, box: Option<BBox>)
    requires MessagesOrdered(batch) && i < |batch| && batch[i].timestamp > to
    ensures Chosen(batch, to, box) == Chosen(batch[..i], to, box)
    decreases |batch|
  {
    var init := batch[..|batch| - 1];
    assert Chosen(batch, to, box) == Chosen(init, to, box) + [];
    if i < |init| {
      ChosenBeforePast(init, i, to, box);
      assert init[..i] == batch[..i];
    } else {
      assert init == batch[..i];
    }
  }

  lemma ChosenSnoc(batch: seq<FlightStateMessage>, i: nat, to: int, box: Option<BBox>)
    requires i < |batch| && batch[i].timestamp <= to
    ensures Chosen(batch[..i + 1], to, box)
         == Chosen(batch[..i], to, box) +
            if InBox(box, batch[i].state.position) then [SampleAt(batch[i].timestamp, batch[i].state)] else []
  {
    assert batch[..i + 1][..i] == batch[..i];
  }

  ghost predicate HasPast(batch: seq<FlightStateMessage>, to: int) {
    exists i :: 0 <= i < |batch| && batch[i].timestamp > to
  }

  /** One fetched batch: its samples up to the first message past `to`. */
  method TakeBatch(batch: seq<FlightStateMessage>, to: int, box: Option<BBox>) returns (out: seq<Sample>, pastTo: bool)
    requires MessagesOrdered(batch)
    ensures out == Chosen(batch, to, box)
    ensures pastTo <==> HasPast(batch, to)
  {
    out := [];
    for i := 0 to |batch|
      invariant out == Chosen(batch[..i], to, box)
      invariant forall k :: 0 <= k < i ==> batch[k].timestamp <= to
    {
      var msg := batch[i];
      if msg.timestamp > to {
        ChosenBeforePast(batch, i, to, box);
        return out, true;
      }
      ChosenSnoc(batch, i, to, box);
      if InBox(box, msg.state.position) {
        out := out + [SampleAt(msg.timestamp, msg.state)];
      }
    }
    assert batch[..|batch|] == batch;
    pastTo := false;
  }

  // ----- The reader -----

  /** How the successive fetches of a reader end: with an error, or after waiting for at most so
      many messages. */
  type Delivery = nat -> Option<nat>

  /** Every fetch delivers something if anything is left. */
  ghost predicate Generous(delivery: Delivery) {
    forall t: nat :: delivery(t).Some? && delivery(t).value > 0
  }

  /** Every fetch delivers a whole chunk of `batch` if so much is left. */
  ghost predicate Full(delivery: Delivery, batch: nat) {
    forall t: nat :: delivery(t).Some? && delivery(t).value >= batch
  }

  ghost predicate NoneFailed(delivery: Delivery, fetches: nat) {
    forall t: nat :: t < fetches ==> delivery(t).Some?
  }

  function Granted(limit: nat, max: nat, left: nat): (n: nat)
    ensures n <= limit && n <= max && n <= left && n in {limit, max, left}
  {
    var asked := if max < limit then max else limit;
    if asked < left then asked else left
  }

  /** An ordered consumer, next to deliver the message at `cursor`. */
  class ReplayReader {
    const stream: seq<Message>
    const delivery: Delivery
    var cursor: nat
    var fetches: nat

    ghost predicate Valid()
      reads this
    {
      cursor <= |stream|
    }

    constructor (stream: seq<Message>, start: nat, delivery: Delivery)
      requires start <= |stream|
      ensures Valid() && this.stream == stream && this.delivery == delivery && cursor == start && fetches == 0
    {
      this.stream, this.delivery := stream, delivery;
      cursor, fetches := start, 0;
    }

    /** FetchBacklog: up to `max` messages, decoded, or fewer if the wait runs out, or an error. */
    method Fetch(max: nat) returns (r: Result<seq<FlightStateMessage>, string>)
      requires Valid()
      modifies this
      ensures Valid() && fetches == old(fetches) + 1
      ensures r.Ok? <==> delivery(old(fetches)).Some?
      ensures r.Err? ==> cursor == old(cursor)
      ensures r.Ok? ==>
        && cursor == old(cursor) + Granted(delivery(old(fetches)).value, max, |stream| - old(cursor))
        && r.value == Delivered(stream, old(cursor) + 1, cursor - old(cursor))
    {
      var limit := delivery(fetches);
      fetches := fetches + 1;
      if limit.None? {
        return Err("fetch backlog");
      }
      var n := Granted(limit.value, max, |stream| - cursor);
      var batch := FlightStream.FetchBacklog(stream, cursor + 1, n);
      cursor := cursor + n;
      r := Ok(batch);
    }
  }

  // ----- The loop -----

  ghost predicate Sighted(stream: seq<Message>, i: nat, hi: nat, batch: nat) {
    SomeDecodes(stream, i, if i + batch < hi then i + batch else hi)
  }

  /** No `batch` consecutive messages of `lo..hi`, nor the last few, all fail to decode. */
  ghost predicate NoBlindChunk(stream: seq<Message>, lo: nat, hi: nat, batch: nat) {
    forall i: nat | lo <= i < hi :: Sighted(stream, i, hi, batch)
  }

  /** What the loop is given: the stretch of the stream, the window and the chunk size. */
  datatype Job = Job(stream: seq<Message>, start: nat, end: nat, to: int, box: Option<BBox>, batchSize: nat, delivery: Delivery) {
    ghost predicate Valid() {
      start <= end <= |stream| && batchSize > 0 && Ordered(stream)
    }
  }

  /** `out` is the declarative answer for what comes before position `k`: all that was pending
      when fetches are whole and no whole chunk fails to decode, exactly what was pending when it
      all decodes and no fetch comes back empty-handed. */
  ghost predicate Answers(j: Job, out: seq<Sample>, k: nat)
    requires j.Valid()
  {
    && j.start <= k <= |j.stream| && out == Picked(j.stream, j.start, k, j.to, j.box)
    && (NoBlindChunk(j.stream, j.start, j.end, j.batchSize) && Full(j.delivery, j.batchSize) ==> k >= j.end)
    && (AllDecode(j.stream, j.start, j.end) && Generous(j.delivery) ==> out == Picked(j.stream, j.start, j.end, j.to, j.box))
  }

  /** The loop's state with everything before `at` consumed. */
  ghost predicate Collected(j: Job, at: nat, out: seq<Sample>, remaining: int)
    requires j.Valid()
  {
    && j.start <= at <= |j.stream| && remaining >= 0
    && out == Picked(j.stream, j.start, at, j.to, j.box)
    && remaining + Decoded(j.stream, j.start, at) == j.end - j.start
  }

  /** One fetch of `n` messages moves that state on. */
  lemma CollectedNext(j: Job, at: nat, out: seq<Sample>, remaining: int, n: nat)
    requires j.Valid() && Collected(j, at, out, remaining) && at + n <= |j.stream| && n <= remaining
    ensures |Delivered(j.stream, at + 1, n)| == Decoded(j.stream, at, at + n) <= n
    ensures Collected(j, at + n, out + Chosen(Delivered(j.stream, at + 1, n), j.to, j.box),
                      remaining - |Delivered(j.stream, at + 1, n)|)
  {
    DeliveredIsDecodedPart(j.stream, at, n, j.to, j.box);
    DecodedSplit(j.stream, j.start, at, at + n);
    DecodedBounds(j.stream, at, at + n);
    PickedSplit(j.stream, j.start, at, at + n, j.to, j.box);
  }

  /** The loop ends because everything counted has been received. */
  lemma EndsDrained(j: Job, k: nat, out: seq<Sample>)
    requires j.Valid() && Collected(j, k, out, 0)
    ensures Answers(j, out, k)
  {
    DecodedBounds(j.stream, j.start, k);
    DecodedSplit(j.stream, j.start, j.end, k);
    DecodedBounds(j.stream, j.start, j.end);
    PickedSplit(j.stream, j.start, j.end, k, j.to, j.box);
    if AllDecode(j.stream, j.start, j.end) {
      NothingDecodedNothingPicked(j.stream, j.end, k, j.to, j.box);
      assert out + [] == out;
    }
  }

  /** Unless everything pending decodes, or there is none past `at` left, a fetch that hands over
      nothing has seen a chunk that does not decode, or nothing at all. */
  lemma BlindFetch(j: Job, at: nat, out: seq<Sample>, remaining: int, size: nat, t: nat, k: nat)
    requires j.Valid() && Collected(j, at, out, remaining) && remaining > 0
    requires size == if remaining < j.batchSize then remaining else j.batchSize
    requires j.delivery(t).Some? && k == at + Granted(j.delivery(t).value, size, |j.stream| - at)
    requires Decoded(j.stream, at, k) == 0
    ensures NoBlindChunk(j.stream, j.start, j.end, j.batchSize) && Full(j.delivery, j.batchSize) ==> at >= j.end
    ensures AllDecode(j.stream, j.start, j.end) ==> at < j.end && !Generous(j.delivery)
  {
    DecodedBounds(j.stream, at, k);
    DecodedBounds(j.stream, j.start, at);
    if at < j.end {
      assert NoBlindChunk(j.stream, j.start, j.end, j.batchSize) ==> Sighted(j.stream, at, j.end, j.batchSize);
      assert j.stream[at].state.Some? && k > at ==> SomeDecodes(j.stream, at, k);
    } else {
      DecodedSplit(j.stream, j.start, j.end, at);
      DecodedBounds(j.stream, j.start, j.end);
    }
  }

  /** The loop ends because a fetch handed over nothing. */
  lemma EndsEmpty(j: Job, at: nat, out: seq<Sample>, remaining: int, size: nat, t: nat, k: nat)
    requires j.Valid() && Collected(j, at, out, remaining) && remaining > 0
    requires size == if remaining < j.batchSize then remaining else j.batchSize
    requires j.delivery(t).Some? && k == at + Granted(j.delivery(t).value, size, |j.stream| - at)
    requires Decoded(j.stream, at, k) == 0
    ensures Answers(j, out, k)
  {
    BlindFetch(j, at, out, remaining, size, t, k);
    PickedSplit(j.stream, j.start, at, k, j.to, j.box);
    NothingDecodedNothingPicked(j.stream, at, k, j.to, j.box);
    assert out + [] == out;
  }

  /** While everything pending decodes, no fetch reaches past it. */
  lemma ConsumedWithin(j: Job, at: nat, out: seq<Sample>, remaining: int, n: nat)
    requires j.Valid() && Collected(j, at, out, remaining) && at + n <= |j.stream| && 0 < n <= remaining
    ensures AllDecode(j.stream, j.start, j.end) ==> at + n <= j.end
  {
    DecodedBounds(j.stream, j.start, at);
    DecodedBounds(j.stream, j.start, j.end);
    if at <= j.end {
      DecodedSplit(j.stream, j.start, at, j.end);
      DecodedBounds(j.stream, at, j.end);
    } else {
      DecodedSplit(j.stream, j.start, j.end, at);
    }
  }

  lemma PastSeen(stream: seq<Message>, lo: nat, n: nat, to: int)
    requires lo + n <= |stream| && Ordered(stream) && HasPast(Delivered(stream, lo + 1, n), to)
    ensures n > 0 && stream[lo + n - 1].timestamp > to
  {
    DeliveredOrdered(stream, lo, n);
    var i :| 0 <= i < |Delivered(stream, lo + 1, n)| && Delivered(stream, lo + 1, n)[i].timestamp > to;
    var m := Delivered(stream, lo + 1, n)[i];
    assert m in Delivered(stream, lo + 1, n);
    var j :| lo <= j < lo + n && stream[j].timestamp == m.timestamp;
  }

  /** The loop ends because a message past `to` has been seen: nothing from there on counts. */
  lemma EndsPast(j: Job, k: nat)
    requires j.Valid() && j.start < k <= |j.stream| && j.stream[k - 1].timestamp > j.to
    requires AllDecode(j.stream, j.start, j.end) ==> k <= j.end
    ensures Answers(j, Picked(j.stream, j.start, k, j.to, j.box), |j.stream|)
  {
    var out := Picked(j.stream, j.start, k, j.to, j.box);
    assert forall i :: k <= i < |j.stream| ==> j.stream[i].timestamp > j.to;
    PickedSplit(j.stream, j.start, k, |j.stream|, j.to, j.box);
    PickedNothingLate(j.stream, k, |j.stream|, j.to, j.box);
    assert out + [] == out;
    if k <= j.end {
      PickedSplit(j.stream, j.start, k, j.end, j.to, j.box);
      PickedNothingLate(j.stream, k, j.end, j.to, j.box);
    }
  }

  lemma EndsPastBatch(j: Job, at: nat, out: seq<Sample>, remaining: int, n: nat)
    requires j.Valid() && Collected(j, at, out, remaining) && at + n <= |j.stream| && n <= remaining
    requires HasPast(Delivered(j.stream, at + 1, n), j.to)
    ensures Answers(j, out + Chosen(Delivered(j.stream, at + 1, n), j.to, j.box), |j.stream|)
  {
    PastSeen(j.stream, at, n, j.to);
    ConsumedWithin(j, at, out, remaining, n);
    DeliveredIsDecodedPart(j.stream, at, n, j.to, j.box);
    PickedSplit(j.stream, j.start, at, at + n, j.to, j.box);
    EndsPast(j, at + n);
  }

  /** What a turn of the loop that gets `batch` and ends before message `at` leads to. */
  ghost predicate Turned(j: Job, at: nat, out: seq<Sample>, remaining: int, batch: seq<FlightStateMessage>)
    requires j.Valid() && at <= |j.stream|
  {
    && MessagesOrdered(batch) && |batch| <= remaining
    && Collected(j, at, out + Chosen(batch, j.to, j.box), remaining - |batch|)
    && (batch == [] ==> Answers(j, out, at))
    && (HasPast(batch, j.to) ==> Answers(j, out + Chosen(batch, j.to, j.box), |j.stream|))
  }

  lemma TurnOutcome(j: Job, at: nat, out: seq<Sample>, remaining: int, size: nat, t: nat, n: nat)
    requires j.Valid() && at + n <= |j.stream| && Collected(j, at, out, remaining) && remaining > 0
    requires size == if remaining < j.batchSize then remaining else j.batchSize
    requires j.delivery(t).Some? && n == Granted(j.delivery(t).value, size, |j.stream| - at)
    ensures Turned(j, at + n, out, remaining, Delivered(j.stream, at + 1, n))
  {
    var batch := Delivered(j.stream, at + 1, n);
    CollectedNext(j, at, out, remaining, n);
    DeliveredOrdered(j.stream, at, n);
    if batch == [] {
      EndsEmpty(j, at, out, remaining, size, t, at + n);
    }
    if HasPast(batch, j.to) {
      EndsPastBatch(j, at, out, remaining, n);
    }
  }

  /** What is known of the reader whenever the loop looks at its condition. */
  ghost predicate Turning(reader: ReplayReader, j: Job, out: seq<Sample>, remaining: int)
    requires j.Valid()
    reads reader
  {
    && reader.Valid() && reader.stream == j.stream && reader.delivery == j.delivery
    && NoneFailed(j.delivery, reader.fetches)
    && Collected(j, reader.cursor, out, remaining)
  }

  method FetchBatch(reader: ReplayReader, j: Job, ghost out: seq<Sample>, remaining: nat)
    returns (r: Result<seq<FlightStateMessage>, string>)
    requires j.Valid() && Turning(reader, j, out, remaining) && remaining > 0
    modifies reader
    ensures reader.Valid() && reader.cursor <= |j.stream| && reader.fetches > 0
    ensures r.Err? ==> j.delivery(reader.fetches - 1).None?
    ensures r.Ok? ==>
      NoneFailed(j.delivery, reader.fetches) && Turned(j, reader.cursor, out, remaining, r.value)
  {
    ghost var at := reader.cursor;
    var size := if remaining < j.batchSize then remaining else j.batchSize;
    r := reader.Fetch(size);
    if r.Ok? {
      TurnOutcome(j, at, out, remaining, size, reader.fetches - 1, reader.cursor - at);
    }
  }

  /** One turn of the loop: a fetch, its samples, and whether it was the last. */
  method Turn(reader: ReplayReader, j: Job, out: seq<Sample>, remaining: nat)
    returns (r: Result<seq<Sample>, string>, left: nat, last: bool, ghost answered: nat)
    requires j.Valid() && Turning(reader, j, out, remaining) && remaining > 0
    modifies reader
    ensures r.Err? ==> reader.fetches > 0 && j.delivery(reader.fetches - 1).None?
    ensures r.Ok? ==> NoneFailed(j.delivery, reader.fetches)
    ensures r.Ok? && last ==> Answers(j, r.value, answered)
    ensures r.Ok? && !last ==> Turning(reader, j, r.value, left) && left < remaining
  {
    left, answered := remaining, 0;
    var fetched := FetchBatch(reader, j, out, remaining);
    if fetched.Err? {
      return Err(fetched.error), left, true, 0;
    }
    var batch := fetched.value;
    if |batch| == 0 {
      return Ok(out), left, true, reader.cursor;
    }
    left := remaining - |batch|;
    var samples, pastTo := TakeBatch(batch, j.to, j.box);
    if pastTo {
      answered := |j.stream|;
    }
    r, last := Ok(out + samples), pastTo;
  }

  /** collectJetStreamSamples over a reader placed at the start of the job, with everything up to
      its end pending (more may arrive meanwhile), whatever the chunk size and whatever the fetches
      come back with. It fails exactly when its last fetch did; otherwise the answer is the
      declarative one for some prefix of what the reader delivers, never with a sample too many. */
  method CollectJetStreamSamples(reader: ReplayReader, j: Job) returns (r: Result<seq<Sample>, string>, ghost answered: nat)
    requires j.Valid() && reader.cursor == j.start && reader.fetches == 0
    requires reader.stream == j.stream && reader.delivery == j.delivery
    modifies reader
    ensures r.Err? ==> reader.fetches > 0 && j.delivery(reader.fetches - 1).None?
    ensures r.Ok? ==> NoneFailed(j.delivery, reader.fetches) && Answers(j, r.value, answered)
  {
    r, answered := Ok([]), 0;
    var remaining := j.end - j.start;
    while remaining > 0
      invariant r.Ok? && Turning(reader, j, r.value, remaining)
      decreases remaining
    {
      var last;
      r, remaining, last, answered := Turn(reader, j, r.value, remaining);
      if r.Err? || last {
        return;
      }
    }
    answered := reader.cursor;
    EndsDrained(j, answered, r.value);
  }
}
