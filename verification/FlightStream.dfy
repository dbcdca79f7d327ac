/** The FLIGHTS_UPDATES JetStream stream and its readers (internal/natsutil/flighttail.go).
    A message's sequence number is its position in the stream, counted from 1; messages
    before `first` are no longer retained. */
module FlightStream {
  import opened Prelude
  import opened Geo

  /** The motion fields of a state that history rows and replay samples carry as well. */
  datatype Details = Details(altitudeBaroFt: Option<int>, groundSpeedKt: Option<real>, headingDeg: Option<real>, onGround: bool)

  /** A published state, as far as the readers look at it. */
  datatype Reading = Reading(icao24: string, position: Position, details: Details)

  /** A stored message. `state` is None when the payload does not decode, which every reader
      skips. */
  datatype Message = Message(timestamp: int, state: Option<Reading>)

  /** A decoded message as the gateway handles it. */
  datatype FlightStateMessage = FlightStateMessage(sequence: nat, timestamp: int, state: Reading)

  predicate Decodes(stream: seq<Message>, k: int) {
    1 <= k <= |stream| && stream[k - 1].state.Some?
  }

  predicate InView(stream: seq<Message>, box: BBox, k: int) {
    Decodes(stream, k) && box.Contains(stream[k - 1].state.value.position)
  }

  /** NewFlightStateResumeReader's retention check; `first` is 0 only while nothing has ever
      been published. */
  predicate Resumable(first: nat, fromSeq: nat) {
    !(first > 0 && fromSeq < first - 1)
  }

  predicate Retained(first: nat, k: nat) {
    first <= k
  }

  /** The check accepts a resume point exactly when nothing after it has been trimmed. */
  lemma ResumableIff(first: nat, fromSeq: nat, head: nat)
    requires fromSeq < head && first <= head + 1
    ensures Resumable(first, fromSeq) <==> forall k: nat :: fromSeq < k <= head ==> Retained(first, k)
  {
    if forall k: nat :: fromSeq < k <= head ==> Retained(first, k) {
      assert Retained(first, fromSeq + 1);
    }
  }

  /** The decodable sequence numbers among the `n` from `lo` on. */
  function DecodedFrom(stream: seq<Message>, lo: nat, n: nat): seq<nat> {
    if n == 0 then []
    else DecodedFrom(stream, lo, n - 1) + if Decodes(stream, lo + n - 1) then [lo + n - 1] else []
  }

  ghost predicate Ascending(s: seq<nat>) {
    forall i, j :: 0 <= i < j < |s| ==> s[i] < s[j]
  }

  lemma AscendingTail(s: seq<nat>)
    requires Ascending(s) && s != []
    ensures s[0] in s && Ascending(s[1..])
    ensures forall k :: k in s <==> k == s[0] || k in s[1..]
    ensures forall k :: k in s[1..] ==> k > s[0]
  {
    assert s == [s[0]] + s[1..];
    forall k | k in s[1..] ensures k > s[0] {
      var i :| 0 <= i < |s[1..]| && s[1..][i] == k;
      assert s[i + 1] == k;
    }
  }

  lemma {:induction false} DecodedFromExact(stream: seq<Message>, lo: nat, n: nat)
    ensures Ascending(DecodedFrom(stream, lo, n))
    ensures forall k :: k in DecodedFrom(stream, lo, n) <==> lo <= k < lo + n && Decodes(stream, k)
  {
    if n > 0 {
      DecodedFromExact(stream, lo, n - 1);
      var init := DecodedFrom(stream, lo, n - 1);
      assert forall i :: 0 <= i < |init| ==> init[i] in init;
    }
  }

  function Sequences(msgs: seq<FlightStateMessage>): seq<nat> {
    seq(|msgs|, i requires 0 <= i < |msgs| => msgs[i].sequence)
  }

  lemma SequencesAppend(a: seq<FlightStateMessage>, b: seq<FlightStateMessage>)
    ensures Sequences(a + b) == Sequences(a) + Sequences(b)
  {
  }

  ghost predicate FromStream(stream: seq<Message>, m: FlightStateMessage) {
    && Decodes(stream, m.sequence)
    && m.timestamp == stream[m.sequence - 1].timestamp && m.state == stream[m.sequence - 1].state.value
  }

  /** What a consumer hands over of the `n` messages it delivers from `lo` on. */
  function Delivered(stream: seq<Message>, lo: nat, n: nat): seq<FlightStateMessage>
    requires 1 <= lo && lo + n <= |stream| + 1
  {
    if n == 0 then []
    else
      var m := stream[lo + n - 2];
      Delivered(stream, lo, n - 1) +
      if m.state.Some? then [FlightStateMessage(lo + n - 1, m.timestamp, m.state.value)] else []
  }

  lemma {:induction false} DeliveredExact(stream: seq<Message>, lo: nat, n: nat)
    requires 1 <= lo && lo + n <= |stream| + 1
    ensures Sequences(Delivered(stream, lo, n)) == DecodedFrom(stream, lo, n)
    ensures forall m :: m in Delivered(stream, lo, n) ==> FromStream(stream, m)
  {
    if n > 0 {
      DeliveredExact(stream, lo, n - 1);
      var m := stream[lo + n - 2];
      if m.state.Some? {
        var decoded := FlightStateMessage(lo + n - 1, m.timestamp, m.state.value);
        SequencesAppend(Delivered(stream, lo, n - 1), [decoded]);
        assert Sequences([decoded]) == [lo + n - 1];
      }
    }
  }

  /** FetchBacklog over the `n` stored messages the consumer delivers from `lo` on: the
      decodable ones, in stream order, each with its own number, instant and state. */
  method FetchBacklog(stream: seq<Message>, lo: nat, n: nat) returns (out: seq<FlightStateMessage>)
    requires 1 <= lo && lo + n <= |stream| + 1
    ensures out == Delivered(stream, lo, n)
    ensures Sequences(out) == DecodedFrom(stream, lo, n)
    ensures forall m :: m in out ==> FromStream(stream, m)
  {
    out := [];
    for i := 0 to n
      invariant out == Delivered(stream, lo, i)
    {
      var msg := stream[lo + i - 1];
      if msg.state.Some? {
        out := out + [FlightStateMessage(lo + i, msg.timestamp, msg.state.value)];
      }
    }
    DeliveredExact(stream, lo, n);
  }
}
