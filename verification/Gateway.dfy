/** The gateway's side of one WebSocket connection (cmd/apigateway/ws_gateway.go). */
module Gateway {
  import opened Prelude
  import opened Geo
  import opened FlightStream
  import opened Hub

  /** wsMaxResumeBacklog. */
  const MAX_RESUME_BACKLOG: nat := 20000

  /** What the gateway sends; an update's state is the stream message of that number. */
  datatype ServerMessage = Subscribed(sequence: nat) | FlightUpdate(sequence: nat) | ResumeFailed

  /** The server's end of a connection: everything written so far. A write can fail. */
  class Conn {
    var written: seq<ServerMessage>

    constructor ()
      ensures written == []
    {
      written := [];
    }

    method Write(m: ServerMessage) returns (ok: bool)
      modifies this
      ensures written == if ok then old(written) + [m] else old(written)
    {
      if * {
        written := written + [m];
        ok := true;
      } else {
        ok := false;
      }
    }
  }

  /** How opening the resume reader and fetching from it can end. */
  datatype Fetched = NotRetained | Unavailable | Backlog(msgs: seq<FlightStateMessage>)

  function Updates(msgs: seq<FlightStateMessage>): seq<ServerMessage> {
    seq(|msgs|, i requires 0 <= i < |msgs| => FlightUpdate(msgs[i].sequence))
  }

  lemma {:induction false} VisibleAppend(box: BBox, a: seq<FlightStateMessage>, b: seq<FlightStateMessage>)
    ensures Visible(box, a + b) == Visible(box, a) + Visible(box, b)
  {
    if a == [] {
      assert a + b == b;
    } else {
      VisibleAppend(box, a[1..], b);
      assert (a + b)[1..] == a[1..] + b;
    }
  }

  lemma VisibleSnoc(box: BBox, msgs: seq<FlightStateMessage>, i: nat)
    requires i < |msgs|
    ensures Visible(box, msgs[..i + 1])
         == Visible(box, msgs[..i]) + if box.Contains(msgs[i].state.position) then [msgs[i]] else []
  {
    assert msgs[..i + 1] == msgs[..i] + [msgs[i]];
    VisibleAppend(box, msgs[..i], [msgs[i]]);
    assert [msgs[i]][1..] == [];
  }

  /** What was written before an in-viewport message is short of the whole answer. */
  lemma CutShort(box: BBox, msgs: seq<FlightStateMessage>, i: nat, before: seq<ServerMessage>)
    requires i < |msgs| && box.Contains(msgs[i].state.position)
    ensures before + Updates(Visible(box, msgs[..i])) < before + Updates(Visible(box, msgs))
  {
    var head, rest := Visible(box, msgs[..i]), Visible(box, msgs[i + 1..]);
    VisibleSnoc(box, msgs, i);
    VisibleAppend(box, msgs[..i + 1], msgs[i + 1..]);
    assert msgs[..i + 1] + msgs[i + 1..] == msgs;
  }

  /** The sequence number a completed replay hands on to the live loop. */
  function ReplayMark(fromSeq: nat, msgs: seq<FlightStateMessage>): nat {
    if msgs == [] then fromSeq else msgs[|msgs| - 1].sequence
  }

  /** What a fetch from above `fromSeq` returns: numbers above it, ascending. */
  ghost predicate IsBacklog(fromSeq: nat, msgs: seq<FlightStateMessage>) {
    Ascending(Sequences(msgs)) && forall m :: m in msgs ==> m.sequence > fromSeq
  }

  /** `mark` is the furthest number reached by replaying `msgs` from `fromSeq`. */
  ghost predicate IsFurthest(mark: nat, fromSeq: nat, msgs: seq<FlightStateMessage>) {
    && (forall m :: m in msgs ==> m.sequence <= mark)
    && (mark == fromSeq || exists m :: m in msgs && m.sequence == mark)
  }

  lemma ReplayMarkIsFurthest(fromSeq: nat, msgs: seq<FlightStateMessage>)
    requires IsBacklog(fromSeq, msgs)
    ensures IsFurthest(ReplayMark(fromSeq, msgs), fromSeq, msgs)
  {
    if msgs != [] {
      var last := msgs[|msgs| - 1];
      assert last in msgs;
      forall m | m in msgs ensures m.sequence <= last.sequence {
        var i :| 0 <= i < |msgs| && msgs[i] == m;
        assert Sequences(msgs)[i] <= Sequences(msgs)[|msgs| - 1];
      }
    }
  }

  /** Replays the gap (fromSeq, headSeq] to `conn`. Either the gap is answered with exactly
      its in-viewport part, or with one resume_failed and nothing else, or the connection is
      lost with a prefix of the answer written. */
  method ReplayResume(conn: Conn, client: WsClient, fromSeq: nat, headSeq: nat, fetched: Fetched)
    returns (mark: Option<nat>)
    modifies conn
    ensures old(conn.written) <= conn.written
    ensures fromSeq >= headSeq ==> mark == Some(fromSeq) && conn.written == old(conn.written)
    ensures fromSeq < headSeq && (headSeq - fromSeq > 20_000 || !fetched.Backlog?) ==>
      if mark.Some? then mark.value == headSeq && conn.written == old(conn.written) + [ResumeFailed]
      else conn.written == old(conn.written)
    ensures fromSeq < headSeq && headSeq - fromSeq <= 20_000 && fetched.Backlog? ==>
      var answer := old(conn.written) + Updates(Visible(client.bbox, fetched.msgs));
      if mark.Some? then mark.value == ReplayMark(fromSeq, fetched.msgs) && conn.written == answer
      else conn.written < answer
    ensures fromSeq < headSeq <= fromSeq + 20_000 && fetched.Backlog? && IsBacklog(fromSeq, fetched.msgs) ==>
      mark.Some? ==> IsFurthest(mark.value, fromSeq, fetched.msgs)
  {
    if fromSeq >= headSeq {
      return Some(fromSeq);
    }
    if headSeq - fromSeq > MAX_RESUME_BACKLOG || !fetched.Backlog? {
      var ok := conn.Write(ResumeFailed);
      return if ok then Some(headSeq) else None;
    }
    ghost var before := conn.written;
    var backlog := fetched.msgs;
    for i := 0 to |backlog|
      invariant conn.written == before + Updates(Visible(client.bbox, backlog[..i]))
    {
      VisibleSnoc(client.bbox, backlog, i);
      if client.bbox.Contains(backlog[i].state.position) {
        assert Updates([backlog[i]]) == [FlightUpdate(backlog[i].sequence)];
        var ok := conn.Write(FlightUpdate(backlog[i].sequence));
        if !ok {
          CutShort(client.bbox, backlog, i, before);
          return None;
        }
      }
    }
    assert backlog[..|backlog|] == backlog;
    if IsBacklog(fromSeq, backlog) {
      ReplayMarkIsFurthest(fromSeq, backlog);
    }
    return Some(ReplayMark(fromSeq, backlog));
  }

  /** What a handshake with the stream head at `head` writes before its acknowledgement. */
  function HandshakeReply(box: BBox, resumeFrom: Option<nat>, head: nat, fetched: Fetched): seq<ServerMessage> {
    if resumeFrom.None? || resumeFrom.value >= head then []
    else if head - resumeFrom.value > MAX_RESUME_BACKLOG || !fetched.Backlog? then [ResumeFailed]
    else Updates(Visible(box, fetched.msgs))
  }

  /** The sequence number it acknowledges. */
  function HandshakeMark(resumeFrom: Option<nat>, head: nat, fetched: Fetched): nat {
    if resumeFrom.None? then head
    else if resumeFrom.value >= head then resumeFrom.value
    else if head - resumeFrom.value > MAX_RESUME_BACKLOG || !fetched.Backlog? then head
    else ReplayMark(resumeFrom.value, fetched.msgs)
  }

  /** The handshake after a well-formed subscribe: register, then read the head (None if the
      lookup fails), replay, acknowledge. A client that does not come out of it alive is
      never left registered, with a strict prefix of the answer written; one that does has had
      the whole answer, the acknowledgement last. */
  method Handshake(hub: WsHub, conn: Conn, box: BBox, resumeFrom: Option<nat>, headSeq: Option<nat>, fetched: Fetched)
    returns (client: WsClient, mark: Option<nat>)
    modifies hub, conn
    ensures fresh(client) && client.bbox == box
    ensures hub.clients == if mark.Some? then old(hub.clients) + {client} else old(hub.clients)
    ensures headSeq.None? ==> mark.None? && conn.written == old(conn.written)
    ensures headSeq.Some? && mark.Some? ==>
      && mark.value == HandshakeMark(resumeFrom, headSeq.value, fetched)
      && conn.written == old(conn.written) + HandshakeReply(box, resumeFrom, headSeq.value, fetched) + [Subscribed(mark.value)]
    ensures headSeq.Some? && mark.None? ==>
      old(conn.written) <= conn.written
      < old(conn.written) + HandshakeReply(box, resumeFrom, headSeq.value, fetched)
        + [Subscribed(HandshakeMark(resumeFrom, headSeq.value, fetched))]
  {
    client := new WsClient(box);
    hub.Register(client);
    if headSeq.None? {
      hub.Unregister(client);
      return client, None;
    }
    mark := headSeq;
    if resumeFrom.Some? {
      mark := ReplayResume(conn, client, resumeFrom.value, headSeq.value, fetched);
      if mark.None? {
        hub.Unregister(client);
        return client, None;
      }
    }
    var ok := conn.Write(Subscribed(mark.value));
    if !ok {
      hub.Unregister(client);
      return client, None;
    }
  }

  /** The queued messages the live loop still has to write once `mark` has been delivered. */
  function Fresh(mark: nat, queue: seq<FlightStateMessage>): seq<FlightStateMessage>
    decreases |queue|
  {
    if queue == [] then []
    else if queue[0].sequence <= mark then Fresh(mark, queue[1..])
    else [queue[0]] + Fresh(queue[0].sequence, queue[1..])
  }

  /** Whatever the queue overlaps with the replay, the live loop only moves forward; and from
      an ascending queue nothing above the mark is left out. */
  lemma {:induction false} FreshMovesForward(mark: nat, queue: seq<FlightStateMessage>)
    ensures Ascending(Sequences(Fresh(mark, queue)))
    ensures forall m :: m in Fresh(mark, queue) ==> m in queue && m.sequence > mark
    ensures Ascending(Sequences(queue)) ==>
      forall m :: m in queue && m.sequence > mark ==> m in Fresh(mark, queue)
    decreases |queue|
  {
    if queue != [] {
      var rest := queue[1..];
      var next := if queue[0].sequence <= mark then mark else queue[0].sequence;
      FreshMovesForward(next, rest);
      if queue[0].sequence > mark {
        var f := Fresh(next, rest);
        forall i | 0 <= i < |f| ensures Sequences(f)[i] > next {
          assert f[i] in f;
        }
        assert Sequences(Fresh(mark, queue)) == [next] + Sequences(f);
      }
      if Ascending(Sequences(queue)) {
        forall i, j | 0 <= i < j < |rest| ensures Sequences(rest)[i] < Sequences(rest)[j] {
          assert Sequences(queue)[i + 1] < Sequences(queue)[j + 1];
        }
        forall m | m in queue && m.sequence > mark ensures m in Fresh(mark, queue) {
          if m != queue[0] {
            var i :| 0 <= i < |queue| && queue[i] == m;
            assert rest[i - 1] == m;
            assert Sequences(queue)[0] < Sequences(queue)[i];
          }
        }
      }
    }
  }

  /** One turn of the live loop, `done` being what it has written so far. */
  lemma FreshNext(start: nat, queue: seq<FlightStateMessage>, done: seq<FlightStateMessage>, mark: nat,
                  rest: seq<FlightStateMessage>)
    requires rest != [] && Fresh(start, queue) == done + Fresh(mark, rest)
    ensures rest[0].sequence <= mark ==> Fresh(start, queue) == done + Fresh(mark, rest[1..])
    ensures rest[0].sequence > mark ==>
      Fresh(start, queue) == (done + [rest[0]]) + Fresh(rest[0].sequence, rest[1..])
  {
  }

  lemma UpdatesSnoc(done: seq<FlightStateMessage>, m: FlightStateMessage)
    ensures Updates(done + [m]) == Updates(done) + [FlightUpdate(m.sequence)]
  {
  }

  lemma UpdatesPrefix(done: seq<FlightStateMessage>, rest: seq<FlightStateMessage>)
    ensures Updates(done) <= Updates(done + rest)
  {
  }

  /** The live loop, run until the channel is empty or a write fails. */
  method Serve(conn: Conn, client: WsClient, lastDeliveredSeq: nat) returns (mark: nat, alive: bool)
    modifies conn, client`send
    ensures client.send == [] || !alive
    ensures old(conn.written) <= conn.written
    ensures alive ==> conn.written == old(conn.written) + Updates(Fresh(lastDeliveredSeq, old(client.send)))
    ensures !alive ==> conn.written <= old(conn.written) + Updates(Fresh(lastDeliveredSeq, old(client.send)))
    ensures alive ==> Fresh(mark, old(client.send)) == [] && mark >= lastDeliveredSeq
  {
    ghost var queue := client.send;
    ghost var done: seq<FlightStateMessage> := [];
    mark := lastDeliveredSeq;
    while client.send != []
      invariant conn.written == old(conn.written) + Updates(done)
      invariant Fresh(lastDeliveredSeq, queue) == done + Fresh(mark, client.send)
      invariant |client.send| <= |queue| && client.send == queue[|queue| - |client.send|..]
      invariant mark >= lastDeliveredSeq
      invariant forall i :: 0 <= i < |queue| - |client.send| ==> queue[i].sequence <= mark
      decreases |client.send|
    {
      FreshNext(lastDeliveredSeq, queue, done, mark, client.send);
      UpdatesPrefix(done, Fresh(mark, client.send));
      UpdatesSnoc(done, client.send[0]);
      var msg := client.send[0];
      client.send := client.send[1..];
      if msg.sequence > mark {
        var ok := conn.Write(FlightUpdate(msg.sequence));
        if !ok {
          return mark, false;
        }
        done := done + [msg];
        mark := msg.sequence;
      }
    }
    NothingFresh(mark, queue);
    alive := true;
  }

  lemma {:induction false} NothingFresh(mark: nat, queue: seq<FlightStateMessage>)
    requires forall i :: 0 <= i < |queue| ==> queue[i].sequence <= mark
    ensures Fresh(mark, queue) == []
  {
    if queue != [] {
      NothingFresh(mark, queue[1..]);
    }
  }
  // ----- A whole connection -----

  /** Each update passes every number written before it, and an acknowledgement falls behind none. */
  ghost predicate MovesForward(ms: seq<ServerMessage>) {
    forall i, j :: 0 <= i < j < |ms| && !ms[i].ResumeFailed? && !ms[j].ResumeFailed? ==>
      ms[i].sequence <= ms[j].sequence && (ms[j].FlightUpdate? ==> ms[i].sequence < ms[j].sequence)
  }

  /** Nothing at or below the resume point is written as an update again. */
  ghost predicate NothingAgain(ms: seq<ServerMessage>, resumeFrom: Option<nat>) {
    forall i :: 0 <= i < |ms| && ms[i].FlightUpdate? && resumeFrom.Some? ==> ms[i].sequence > resumeFrom.value
  }

  lemma {:induction false} VisibleMembers(box: BBox, msgs: seq<FlightStateMessage>)
    ensures forall m :: m in Visible(box, msgs) ==> m in msgs
  {
    if msgs != [] {
      VisibleMembers(box, msgs[1..]);
      assert msgs == [msgs[0]] + msgs[1..];
    }
  }

  lemma SequencesCons(m: FlightStateMessage, rest: seq<FlightStateMessage>)
    ensures Sequences([m] + rest) == [m.sequence] + Sequences(rest)
  {
  }

  lemma SequencesMember(msgs: seq<FlightStateMessage>, k: nat)
    requires k in Sequences(msgs)
    ensures exists m :: m in msgs && m.sequence == k
  {
    var i :| 0 <= i < |Sequences(msgs)| && Sequences(msgs)[i] == k;
    assert msgs[i] in msgs;
  }

  lemma {:induction false} VisibleAscending(box: BBox, msgs: seq<FlightStateMessage>)
    requires Ascending(Sequences(msgs))
    ensures Ascending(Sequences(Visible(box, msgs)))
  {
    if msgs != [] {
      var first, rest, seen := msgs[0], msgs[1..], Visible(box, msgs[1..]);
      assert Sequences(msgs)[1..] == Sequences(rest);
      AscendingTail(Sequences(msgs));
      VisibleAscending(box, rest);
      VisibleMembers(box, rest);
      SequencesCons(first, seen);
      assert [] + seen == seen;
      forall k | k in Sequences(seen) ensures k > first.sequence {
        SequencesMember(seen, k);
        var m :| m in seen && m.sequence == k;
        var i :| 0 <= i < |rest| && rest[i] == m;
        assert Sequences(rest)[i] == k;
      }
      assert forall i :: 0 <= i < |seen| ==> Sequences(seen)[i] in Sequences(seen);
    }
  }

  lemma ReplyForward(box: BBox, resumeFrom: Option<nat>, head: nat, fetched: Fetched)
    requires resumeFrom.Some? && fetched.Backlog? ==> IsBacklog(resumeFrom.value, fetched.msgs)
    ensures var reply, mark := HandshakeReply(box, resumeFrom, head, fetched), HandshakeMark(resumeFrom, head, fetched);
      && MovesForward(reply) && NothingAgain(reply, resumeFrom) && (resumeFrom.Some? ==> mark >= resumeFrom.value)
      && forall i :: 0 <= i < |reply| && !reply[i].ResumeFailed? ==> reply[i].FlightUpdate? && reply[i].sequence <= mark
  {
    if resumeFrom.Some? && resumeFrom.value < head <= resumeFrom.value + MAX_RESUME_BACKLOG && fetched.Backlog? {
      var seen := Visible(box, fetched.msgs);
      VisibleMembers(box, fetched.msgs);
      VisibleAscending(box, fetched.msgs);
      ReplayMarkIsFurthest(resumeFrom.value, fetched.msgs);
      forall i | 0 <= i < |seen| ensures resumeFrom.value < seen[i].sequence <= ReplayMark(resumeFrom.value, fetched.msgs) {
        assert seen[i] in seen;
      }
      forall i, j | 0 <= i < j < |seen| ensures seen[i].sequence < seen[j].sequence {
        assert Sequences(seen)[i] < Sequences(seen)[j];
      }
    }
  }

  lemma FreshForward(mark: nat, queue: seq<FlightStateMessage>)
    ensures var live := Updates(Fresh(mark, queue));
      MovesForward(live) && forall i :: 0 <= i < |live| ==> live[i].FlightUpdate? && live[i].sequence > mark
  {
    var newer := Fresh(mark, queue);
    FreshMovesForward(mark, queue);
    forall i | 0 <= i < |newer| ensures newer[i].sequence > mark {
      assert newer[i] in newer;
    }
    forall i, j | 0 <= i < j < |newer| ensures newer[i].sequence < newer[j].sequence {
      assert Sequences(newer)[i] < Sequences(newer)[j];
    }
  }

  /** Everything a connection would write, if nothing fails. */
  function Script(box: BBox, resumeFrom: Option<nat>, head: nat, fetched: Fetched, queue: seq<FlightStateMessage>)
    : seq<ServerMessage>
  {
    var mark := HandshakeMark(resumeFrom, head, fetched);
    HandshakeReply(box, resumeFrom, head, fetched) + [Subscribed(mark)] + Updates(Fresh(mark, queue))
  }

  lemma ScriptForward(box: BBox, resumeFrom: Option<nat>, head: nat, fetched: Fetched, queue: seq<FlightStateMessage>,
                      written: seq<ServerMessage>)
    requires resumeFrom.Some? && fetched.Backlog? ==> IsBacklog(resumeFrom.value, fetched.msgs)
    requires written <= Script(box, resumeFrom, head, fetched, queue)
    ensures MovesForward(written) && NothingAgain(written, resumeFrom)
  {
    ReplyForward(box, resumeFrom, head, fetched);
    FreshForward(HandshakeMark(resumeFrom, head, fetched), queue);
  }

  /** One connection from its subscribe message to its end, `queued` being what the hub has put into
      the client's channel by the time it is served. However far it gets, no update is written twice
      or out of order, not even across the replay, the acknowledgement and the live loop. */
  method HandleWS(hub: WsHub, conn: Conn, box: BBox, resumeFrom: Option<nat>, headSeq: Option<nat>, fetched: Fetched,
                          queued: seq<FlightStateMessage>)
    requires resumeFrom.Some? && fetched.Backlog? ==> IsBacklog(resumeFrom.value, fetched.msgs)
    modifies hub, conn
    ensures old(conn.written) <= conn.written && hub.clients == old(hub.clients)
    ensures var written := conn.written[|old(conn.written)|..];
      MovesForward(written) && NothingAgain(written, resumeFrom)
  {
    ghost var before := conn.written;
    var client, mark := Handshake(hub, conn, box, resumeFrom, headSeq, fetched);
    if mark.Some? {
      client.send := queued;
      var last, alive := Serve(conn, client, mark.value);
      hub.Unregister(client);
    }
    if headSeq.Some? {
      ghost var script := Script(box, resumeFrom, headSeq.value, fetched, queued);
      assert conn.written <= before + script;
      ScriptForward(box, resumeFrom, headSeq.value, fetched, queued, conn.written[|before|..]);
    }
  }
}
