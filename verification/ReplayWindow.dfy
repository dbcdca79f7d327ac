/** GET /replay over a whole window (cmd/apigateway/replay.go): rows older than the stream's
    retention come from flight_history, newer ones from the stream. */
module ReplayWindow {
  import opened Prelude
  import opened Geo
  import opened Filtering
  import opened FlightStream
  import opened ReplayApi

  /** QueryFlightHistoryMaxRows. */
  const MAX_ROWS: nat := 100_000

  function Earlier(a: int, b: int): (t: int)
    ensures t <= a && t <= b && t in {a, b}
  {
    if a < b then a else b
  }

  function Later(a: int, b: int): (t: int)
    ensures t >= a && t >= b && t in {a, b}
  {
    if a < b then b else a
  }

  // ----- The durable part -----

  /** QueryFlightHistoryRange over the table in recorded_at order. */
  function QueryFlightHistoryRange(table: seq<Sample>, from: int, to: int): seq<Sample> {
    var rows := Filter(table, (r: Sample) => from <= r.recordedAt <= to);
    if |rows| <= MAX_ROWS then rows else rows[..MAX_ROWS]
  }

  predicate SampleInBox(box: Option<BBox>, r: Sample) {
    InBox(box, r.position)
  }

  method FilterByBBox(records: seq<Sample>, box: Option<BBox>) returns (out: seq<Sample>)
    ensures out == Filter(records, r => SampleInBox(box, r))
  {
    ghost var keep := r => SampleInBox(box, r);
    if box.None? {
      NothingDropped(records, box);
      return records;
    }
    out := [];
    for i := 0 to |records|
      invariant out == Filter(records[..i], keep)
    {
      FilterSnoc(records, i, keep);
      if box.value.Contains(records[i].position) {
        out := out + [records[i]];
      }
    }
    assert records[..|records|] == records;
  }

  lemma {:induction false} NothingDropped(records: seq<Sample>, box: Option<BBox>)
    requires box.None?
    ensures Filter(records, r => SampleInBox(box, r)) == records
  {
    if records != [] {
      NothingDropped(records[..|records| - 1], box);
    }
  }

  predicate NotLater(a: Sample, b: Sample) {
    a.recordedAt <= b.recordedAt
  }

  lemma FilterAscending(s: seq<Sample>, keep: Sample -> bool)
    requires TimeAscending(s)
    ensures TimeAscending(Filter(s, keep))
  {
    FilterPairwise(s, keep, NotLater);
  }

  ghost predicate Between(samples: seq<Sample>, lo: int, hi: int) {
    forall s :: s in samples ==> lo <= s.recordedAt <= hi
  }

  /** What `kept` leaves out of `all` is no older than anything it holds. */
  ghost predicate Earliest(kept: seq<Sample>, all: seq<Sample>) {
    forall s, t :: s in kept && t in all && t !in kept ==> s.recordedAt <= t.recordedAt
  }

  /** Cutting a list in time order keeps its earliest entries. */
  lemma CutIsEarliest(rows: seq<Sample>, n: nat)
    requires TimeAscending(rows) && n <= |rows|
    ensures Earliest(rows[..n], rows)
  {
    assert rows == rows[..n] + rows[n..];
    forall s, t | s in rows[..n] && t in rows && t !in rows[..n] ensures s.recordedAt <= t.recordedAt {
      var i :| 0 <= i < n && rows[..n][i] == s;
      var j :| 0 <= j < |rows| - n && rows[n..][j] == t;
      assert rows[i].recordedAt <= rows[n + j].recordedAt;
    }
  }

  /** Beyond the cap the earliest rows of the window are the ones returned. */
  lemma CapKeepsEarliest(table: seq<Sample>, from: int, to: int)
    requires TimeAscending(table)
    ensures |QueryFlightHistoryRange(table, from, to)| <= 100_000
    ensures Earliest(QueryFlightHistoryRange(table, from, to), Filter(table, (r: Sample) => from <= r.recordedAt <= to))
  {
    var rows := Filter(table, (r: Sample) => from <= r.recordedAt <= to);
    FilterAscending(table, (r: Sample) => from <= r.recordedAt <= to);
    if |rows| > MAX_ROWS {
      CutIsEarliest(rows, MAX_ROWS);
    }
  }

  lemma HistoryExact(table: seq<Sample>, from: int, to: int)
    requires TimeAscending(table)
    ensures TimeAscending(QueryFlightHistoryRange(table, from, to))
    ensures Between(QueryFlightHistoryRange(table, from, to), from, to)
    ensures forall s :: s in QueryFlightHistoryRange(table, from, to) ==> s in table
    ensures |QueryFlightHistoryRange(table, from, to)| < 100_000 ==>
              forall s :: s in table && from <= s.recordedAt <= to ==> s in QueryFlightHistoryRange(table, from, to)
  {
    var keep := (r: Sample) => from <= r.recordedAt <= to;
    FilterAscending(table, keep);
    FilterMembers(table, keep);
    assert forall s :: s in QueryFlightHistoryRange(table, from, to) ==> s in Filter(table, keep);
  }

  // ----- The live part -----

  /** Where a consumer started at `t` begins: the first stored message not older than it. */
  function StartOf(stream: seq<Message>, t: int): (k: nat)
    ensures k <= |stream|
  {
    if stream == [] then 0
    else
      var n := |stream| - 1;
      if StartOf(stream[..n], t) < n || stream[n].timestamp >= t then StartOf(stream[..n], t) else n + 1
  }

  lemma {:induction false} StartOfExact(stream: seq<Message>, t: int)
    requires Ordered(stream)
    ensures forall i :: 0 <= i < |stream| ==> (i >= StartOf(stream, t) <==> stream[i].timestamp >= t)
  {
    if stream != [] {
      var n := |stream| - 1;
      var k := StartOf(stream[..n], t);
      StartOfExact(stream[..n], t);
      assert forall i :: 0 <= i < n ==> stream[..n][i] == stream[i];
      if k < n {
        assert stream[k].timestamp >= t;
      }
    }
  }

  /** `s` is the sample of this message, decodable, up to `to` and inside the box. */
  ghost predicate IsSampleOf(m: Message, to: int, box: Option<BBox>, s: Sample) {
    && m.state.Some? && m.timestamp <= to && (box.Some? ==> box.value.Contains(m.state.value.position))
    && s.icao24 == m.state.value.icao24 && s.recordedAt == m.timestamp
    && s.position == m.state.value.position && s.details == m.state.value.details
  }

  ghost predicate SampledIn(stream: seq<Message>, lo: nat, hi: nat, to: int, box: Option<BBox>, s: Sample)
    requires lo <= hi <= |stream|
  {
    exists i :: lo <= i < hi && IsSampleOf(stream[i], to, box, s)
  }

  lemma {:induction false} PickedMember(stream: seq<Message>, lo: nat, hi: nat, to: int, box: Option<BBox>, s: Sample)
    requires lo <= hi <= |stream|
    ensures s in Picked(stream, lo, hi, to, box) <==> SampledIn(stream, lo, hi, to, box, s)
    decreases hi
  {
    if lo < hi {
      PickedMember(stream, lo, hi - 1, to, box, s);
      assert SampledIn(stream, lo, hi, to, box, s) <==>
             SampledIn(stream, lo, hi - 1, to, box, s) || IsSampleOf(stream[hi - 1], to, box, s);
    }
  }

  lemma {:induction false} PickedAscending(stream: seq<Message>, lo: nat, hi: nat, to: int, box: Option<BBox>)
    requires lo <= hi <= |stream| && Ordered(stream)
    ensures TimeAscending(Picked(stream, lo, hi, to, box))
    decreases hi
  {
    if lo < hi {
      PickedAscending(stream, lo, hi - 1, to, box);
      var samples := Picked(stream, lo, hi - 1, to, box);
      forall k | 0 <= k < |samples| ensures samples[k].recordedAt <= stream[hi - 1].timestamp {
        PickedMember(stream, lo, hi - 1, to, box, samples[k]);
      }
    }
  }

  /** Messages that arrive later do not change what the stored ones hold. */
  lemma {:induction false} PickedOfStored(stored: seq<Message>, later: seq<Message>, lo: nat, hi: nat, to: int, box: Option<BBox>)
    requires lo <= hi <= |stored|
    ensures Picked(stored + later, lo, hi, to, box) == Picked(stored, lo, hi, to, box)
    decreases hi
  {
    if lo < hi {
      PickedOfStored(stored, later, lo, hi - 1, to, box);
    }
  }

  // ----- The whole window -----

  function HistoryPart(table: seq<Sample>, from: int, to: int, cutoff: int, box: Option<BBox>): seq<Sample> {
    if from < cutoff then Filter(QueryFlightHistoryRange(table, from, Earlier(to, cutoff)), r => SampleInBox(box, r)) else []
  }

  /** The declarative answer from the stored messages, all decodable. */
  function StreamPart(stored: seq<Message>, from: int, to: int, cutoff: int, box: Option<BBox>): seq<Sample> {
    var streamFrom := Later(from, cutoff);
    if streamFrom < to then Picked(stored, StartOf(stored, streamFrom), |stored|, to, box) else []
  }

  lemma HistoryPartExact(table: seq<Sample>, from: int, to: int, cutoff: int, box: Option<BBox>)
    requires TimeAscending(table)
    ensures TimeAscending(HistoryPart(table, from, to, cutoff, box))
    ensures Between(HistoryPart(table, from, to, cutoff, box), from, Earlier(to, cutoff))
  {
    var rows := QueryFlightHistoryRange(table, from, Earlier(to, cutoff));
    HistoryExact(table, from, Earlier(to, cutoff));
    FilterAscending(rows, r => SampleInBox(box, r));
    FilterMembers(rows, r => SampleInBox(box, r));
  }

  lemma LivePartExact(stream: seq<Message>, lo: nat, hi: nat, from: int, to: int, box: Option<BBox>)
    requires lo <= hi <= |stream| && Ordered(stream) && forall i :: lo <= i < hi ==> stream[i].timestamp >= from
    ensures TimeAscending(Picked(stream, lo, hi, to, box))
    ensures Between(Picked(stream, lo, hi, to, box), from, to)
  {
    PickedAscending(stream, lo, hi, to, box);
    forall s | s in Picked(stream, lo, hi, to, box) ensures from <= s.recordedAt <= to {
      PickedMember(stream, lo, hi, to, box, s);
    }
  }

  /** Appending the newer part to the older one needs no merge. */
  lemma PartsJoin(older: seq<Sample>, newer: seq<Sample>, boundary: int)
    requires TimeAscending(older) && TimeAscending(newer)
    requires forall s :: s in older ==> s.recordedAt <= boundary
    requires forall s :: s in newer ==> boundary <= s.recordedAt
    ensures TimeAscending(older + newer)
  {
    var all := older + newer;
    forall i, j | 0 <= i < j < |all| ensures all[i].recordedAt <= all[j].recordedAt {
      if i < |older| <= j {
        assert all[i] in older && all[j] in newer;
      }
    }
  }

  ghost predicate AllStored(stored: seq<Message>) {
    forall m :: m in stored ==> m.state.Some?
  }

  /** What a response promises: in time order, inside the window, and exactly the answer of the
      two stores when everything stored decodes and no fetch comes back empty-handed. */
  ghost predicate Response(samples: seq<Sample>, table: seq<Sample>, stored: seq<Message>, from: int, to: int,
                           cutoff: int, box: Option<BBox>, delivery: Delivery)
  {
    && TimeAscending(samples) && Between(samples, from, to)
    && (AllStored(stored) && Generous(delivery) ==>
          samples == HistoryPart(table, from, to, cutoff, box) + StreamPart(stored, from, to, cutoff, box))
  }

  lemma JoinedResponse(older: seq<Sample>, newer: seq<Sample>, table: seq<Sample>, stored: seq<Message>, from: int,
                       to: int, cutoff: int, box: Option<BBox>, delivery: Delivery)
    requires TimeAscending(table) && older == HistoryPart(table, from, to, cutoff, box)
    requires TimeAscending(newer) && Between(newer, Later(from, cutoff), to)
    requires AllStored(stored) && Generous(delivery) ==> newer == StreamPart(stored, from, to, cutoff, box)
    ensures Response(older + newer, table, stored, from, to, cutoff, box, delivery)
  {
    HistoryPartExact(table, from, to, cutoff, box);
    PartsJoin(older, newer, cutoff);
  }

  /** collectJetStreamSamples from `from` on: a consumer is created over the stored messages
      (`later` ones may still arrive), its backlog counted, then collected. */
  method CollectFrom(stored: seq<Message>, later: seq<Message>, from: int, to: int, box: Option<BBox>,
                     batchSize: nat, delivery: Delivery) returns (r: Result<seq<Sample>, string>)
    requires Ordered(stored + later) && batchSize > 0
    requires forall m :: m in later ==> m.timestamp >= from
    ensures r.Err? ==> exists t: nat :: delivery(t).None?
    ensures r.Ok? ==> TimeAscending(r.value) && Between(r.value, from, to)
    ensures r.Ok? && AllStored(stored) && Generous(delivery) ==>
      r.value == Picked(stored, StartOf(stored, from), |stored|, to, box)
  {
    var start := StartOf(stored, from);
    var job := Job(stored + later, start, |stored|, to, box, batchSize, delivery);
    var reader := new ReplayReader(job.stream, start, delivery);
    ghost var answered;
    r, answered := CollectJetStreamSamples(reader, job);
    if r.Ok? {
      DeliveredFrom(stored, later, from);
      LivePartExact(job.stream, start, answered, from, to, box);
      PickedOfStored(stored, later, start, |stored|, to, box);
    }
  }

  lemma DeliveredFrom(stored: seq<Message>, later: seq<Message>, from: int)
    requires Ordered(stored + later)
    requires forall m :: m in later ==> m.timestamp >= from
    ensures forall i :: StartOf(stored, from) <= i < |stored + later| ==> (stored + later)[i].timestamp >= from
  {
    var all := stored + later;
    assert forall i :: 0 <= i < |stored| ==> stored[i] == all[i];
    StartOfExact(stored, from);
    forall i | StartOf(stored, from) <= i < |all| ensures all[i].timestamp >= from {
      if i >= |stored| {
        assert all[i] in later;
      }
    }
  }

  /** collectReplaySamples; `queryFails` says how the history query ends. */
  method CollectReplaySamples(table: seq<Sample>, stored: seq<Message>, later: seq<Message>, from: int, to: int,
                              cutoff: int, box: Option<BBox>, batchSize: nat, queryFails: bool, delivery: Delivery)
    returns (r: Result<seq<Sample>, string>)
    requires TimeAscending(table) && Ordered(stored + later) && batchSize > 0
    requires forall m :: m in later ==> m.timestamp >= Later(from, cutoff)
    ensures queryFails && from < cutoff ==> r.Err?
    ensures r.Err? ==> (queryFails && from < cutoff) || exists t: nat :: delivery(t).None?
    ensures r.Ok? ==> Response(r.value, table, stored, from, to, cutoff, box, delivery)
  {
    var samples := [];
    if from < cutoff {
      var historyTo := to;
      if historyTo > cutoff {
        historyTo := cutoff;
      }
      if queryFails {
        return Err("query flight history");
      }
      samples := FilterByBBox(QueryFlightHistoryRange(table, from, historyTo), box);
    }
    var streamFrom := from;
    if streamFrom < cutoff {
      streamFrom := cutoff;
    }
    var newer := [];
    if streamFrom < to {
      var collected := CollectFrom(stored, later, streamFrom, to, box, batchSize, delivery);
      if collected.Err? {
        return collected;
      }
      newer := collected.value;
    }
    JoinedResponse(samples, newer, table, stored, from, to, cutoff, box, delivery);
    r := Ok(samples + newer);
  }

  // ----- Where the parts overlap -----

  /** A row and a message both in the box stand exactly at the boundary. */
  ghost predicate BoundaryTie(table: seq<Sample>, stored: seq<Message>, cutoff: int, box: Option<BBox>) {
    && (exists r :: r in table && r.recordedAt == cutoff && SampleInBox(box, r))
    && (exists m :: m in stored && m.timestamp == cutoff && m.state.Some? && InBox(box, m.state.value.position))
  }

  ghost predicate ShareInstant(older: seq<Sample>, newer: seq<Sample>) {
    exists x, y :: x in older && y in newer && x.recordedAt == y.recordedAt
  }

  lemma HistoryPartMember(table: seq<Sample>, from: int, to: int, cutoff: int, box: Option<BBox>, s: Sample)
    requires TimeAscending(table) && |QueryFlightHistoryRange(table, from, Earlier(to, cutoff))| < MAX_ROWS
    ensures s in HistoryPart(table, from, to, cutoff, box)
       <==> from < cutoff && s in table && from <= s.recordedAt <= Earlier(to, cutoff) && SampleInBox(box, s)
  {
    var rows := QueryFlightHistoryRange(table, from, Earlier(to, cutoff));
    HistoryExact(table, from, Earlier(to, cutoff));
    FilterMember(rows, r => SampleInBox(box, r), s);
  }

  lemma StreamPartMember(stored: seq<Message>, from: int, to: int, cutoff: int, box: Option<BBox>, s: Sample)
    requires Ordered(stored)
    ensures s in StreamPart(stored, from, to, cutoff, box)
       <==> Later(from, cutoff) < to && exists m :: m in stored && m.timestamp >= Later(from, cutoff) && IsSampleOf(m, to, box, s)
  {
    var t := Later(from, cutoff);
    var start := StartOf(stored, t);
    StartOfExact(stored, t);
    PickedMember(stored, start, |stored|, to, box, s);
    if m :| m in stored && m.timestamp >= t && IsSampleOf(m, to, box, s) {
      var i :| 0 <= i < |stored| && stored[i] == m;
      assert start <= i;
    }
    if SampledIn(stored, start, |stored|, to, box, s) {
      var i :| start <= i < |stored| && IsSampleOf(stored[i], to, box, s);
      assert stored[i] in stored;
    }
  }

  /** The two parts share an instant if and only if the boundary lies inside the window and both
      stores have something in the box exactly there. */
  lemma PartsOverlapIff(table: seq<Sample>, stored: seq<Message>, from: int, to: int, cutoff: int, box: Option<BBox>)
    requires TimeAscending(table) && Ordered(stored) && from < to
    requires |QueryFlightHistoryRange(table, from, Earlier(to, cutoff))| < MAX_ROWS
    ensures ShareInstant(HistoryPart(table, from, to, cutoff, box), StreamPart(stored, from, to, cutoff, box))
       <==> from < cutoff < to && BoundaryTie(table, stored, cutoff, box)
  {
    var older, newer := HistoryPart(table, from, to, cutoff, box), StreamPart(stored, from, to, cutoff, box);
    if ShareInstant(older, newer) {
      var x, y :| x in older && y in newer && x.recordedAt == y.recordedAt;
      HistoryPartMember(table, from, to, cutoff, box, x);
      StreamPartMember(stored, from, to, cutoff, box, y);
      var m :| m in stored && m.timestamp >= Later(from, cutoff) && IsSampleOf(m, to, box, y);
      assert x.recordedAt == cutoff == m.timestamp;
    }
    if from < cutoff < to && BoundaryTie(table, stored, cutoff, box) {
      var x :| x in table && x.recordedAt == cutoff && SampleInBox(box, x);
      var m :| m in stored && m.timestamp == cutoff && m.state.Some? && InBox(box, m.state.value.position);
      var y := SampleAt(m.timestamp, m.state.value);
      assert IsSampleOf(m, to, box, y);
      HistoryPartMember(table, from, to, cutoff, box, x);
      StreamPartMember(stored, from, to, cutoff, box, y);
    }
  }

  /** For instance a row and a message exactly at the boundary, alike, are both returned. */
  lemma BoundaryReturnedTwice(row: Sample, m: Message, from: int, to: int)
    requires m.state.Some? && row == SampleAt(m.timestamp, m.state.value) && from < m.timestamp < to
    ensures HistoryPart([row], from, to, m.timestamp, None) + StreamPart([m], from, to, m.timestamp, None) == [row, row]
  {
    assert [row][..0] == [] && [m][..0] == [];
    assert Filter([row], (r: Sample) => from <= r.recordedAt <= m.timestamp) == [] + [row];
    assert Filter([row], r => SampleInBox(None, r)) == [] + [row];
    assert StartOf([m], m.timestamp) == 0;
    assert Picked([m], 0, 1, to, None) == Picked([m], 0, 0, to, None) + [row];
  }
}
