/** The WebSocket resume protocol end to end: publisher, retention, a gateway's live tail, one
    browser client and the connections it makes, as interleaved atomic steps
    (cmd/apigateway/ws_gateway.go, cmd/apigateway/ws_hub.go, internal/natsutil/flighttail.go,
    web/src/api/ws.ts). The link to the browser is a FIFO that loses whatever is in flight
    when the connection drops. */
module ResumeProtocol {
  import opened Prelude
  import opened Geo
  import opened FlightStream
  import Hub
  import opened Gateway
  import opened BrowserClient

  /** How far the gateway is with the current connection. */
  datatype Phase =
    | Closed
    | Opened(resumeFrom: Option<nat>, box: BBox)   // subscribe sent, not yet registered
    | Registered(resumeFrom: Option<nat>)          // in the hub, head not yet read
    | Gap(fromSeq: nat, head: nat)                 // asked to replay (fromSeq, head]
    | Fetching(fromSeq: nat, head: nat)            // retention checked
    | Replaying(fromSeq: nat, head: nat, todo: seq<nat>, mark: nat)
    | Acking(mark: nat)
    | Serving(mark: nat)

  /** The fields after `pans` only record history: what was written on this connection and
      above which number it had to be complete, the highest number the browser ever heard, the
      baseline its resume point goes back to, and the messages the hub dropped on a full
      channel when nothing but that channel could deliver them - until a resume from before
      one of them makes a replay answer for it. */
  datatype State = State(
    stream: seq<Message>, first: nat, tail: nat,
    client: Progress, want: BBox,
    phase: Phase, view: BBox, queue: seq<nat>, wire: seq<ServerMessage>, pans: seq<BBox>,
    written: seq<nat>, start: nat, heard: nat, base: nat, dropped: set<nat>)

  datatype Step =
    | Publish(msg: Message)
    | Trim(first: nat)
    | Tail                  // the live tail broadcasts its next message
    | Connect(tail: nat)    // to any gateway, wherever its own tail stands
    | Register
    | Snapshot
    | Refuse                // gap too large, not retained, or a reader or fetch error
    | Check
    | Fetch(n: nat)
    | ReplayOne
    | ReplayDone
    | Ack
    | Serve
    | Deliver
    | Disconnect
    | Pan(box: BBox)
    | ApplyPan

  predicate InHub(p: Phase) {
    !p.Closed? && !p.Opened?
  }

  function Start(box: BBox): State {
    State([], 0, 0, Progress(None, [], 0), box, Closed, box, [], [], [], [], 0, 0, 0, {})
  }

  function FetchStart(s: State): nat
    requires s.phase.Fetching?
  {
    if s.phase.fromSeq + 1 < s.first then s.first else s.phase.fromSeq + 1
  }

  predicate Enabled(s: State, step: Step) {
    match step
    case Publish(_) => true
    case Trim(f) => s.first <= f <= |s.stream| + 1 && (s.stream == [] ==> f == 0)
    case Tail => s.tail < |s.stream|
    case Connect(t) => s.phase.Closed? && t <= |s.stream|
    case Register => s.phase.Opened?
    case Snapshot => s.phase.Registered?
    case Refuse => s.phase.Gap? || s.phase.Fetching?
    case Check => s.phase.Gap? && s.phase.head - s.phase.fromSeq <= MAX_RESUME_BACKLOG && Resumable(s.first, s.phase.fromSeq)
    case Fetch(n) => s.phase.Fetching? && n <= s.phase.head - s.phase.fromSeq && FetchStart(s) + n <= |s.stream| + 1
    case ReplayOne => s.phase.Replaying? && s.phase.todo != []
    case ReplayDone => s.phase.Replaying? && s.phase.todo == []
    case Ack => s.phase.Acking?
    case Serve => s.phase.Serving? && s.queue != []
    case Deliver => s.wire != []
    case Disconnect => !s.phase.Closed?
    case Pan(_) => true
    case ApplyPan => s.phase.Serving? && s.pans != []
  }

  function Send(s: State, k: nat): State {
    s.(wire := s.wire + [FlightUpdate(k)], written := s.written + [k])
  }

  /** Does the head snapshot, the replay or the mark answer for message `k`, whatever the
      channel holds? */
  predicate Answered(p: Phase, k: nat) {
    match p
    case Gap(_, head) => k <= head
    case Fetching(_, head) => k <= head
    case Replaying(_, head, _, _) => k <= head
    case Acking(mark) => k <= mark
    case Serving(mark) => k <= mark
    case _ => true
  }

  function Broadcast(s: State): State
    requires s.tail < |s.stream|
  {
    var k := s.tail + 1;
    if InHub(s.phase) && InView(s.stream, s.view, k) then
      if |s.queue| < Hub.SEND_BUFFER then s.(tail := k, queue := s.queue + [k])
      else s.(tail := k, dropped := if Answered(s.phase, k) then s.dropped else s.dropped + {k})
    else s.(tail := k)
  }

  /** Registering with a resume point leaves lost only what lies at or before it. */
  function StillLost(dropped: set<nat>, resumeFrom: Option<nat>): set<nat> {
    set k | k in dropped && (resumeFrom.Some? ==> k <= resumeFrom.value)
  }

  function ReadHead(s: State): State
    requires s.phase.Registered?
  {
    var head := |s.stream|;
    match s.phase.resumeFrom
    case None => s.(phase := Acking(head), start := head)
    case Some(f) => if f >= head then s.(phase := Acking(f), start := f) else s.(phase := Gap(f, head))
  }

  function Hears(s: State): State
    requires s.wire != []
  {
    var p := Receive(s.client, s.wire[0]);
    s.(wire := s.wire[1..], client := p, heard := Heard(s.heard, s.wire[0]),
       base := if s.client.lastSeq.None? && p.lastSeq.Some? then p.lastSeq.value else s.base)
  }

  function Apply(s: State, step: Step): State
    requires Enabled(s, step)
  {
    match step
    case Publish(m) => s.(stream := s.stream + [m], first := if s.first == 0 then 1 else s.first)
    case Trim(f) => s.(first := f)
    case Tail => Broadcast(s)
    case Connect(t) => s.(phase := Opened(s.client.lastSeq, s.want), tail := t)
    case Register =>
      s.(phase := Registered(s.phase.resumeFrom), view := s.phase.box, queue := [], written := [],
         dropped := StillLost(s.dropped, s.phase.resumeFrom))
    case Snapshot => ReadHead(s)
    case Refuse => s.(phase := Acking(s.phase.head), wire := s.wire + [ResumeFailed], start := s.phase.head)
    case Check => s.(phase := Fetching(s.phase.fromSeq, s.phase.head))
    case Fetch(n) =>
      var backlog := DecodedFrom(s.stream, FetchStart(s), n);
      s.(phase := Replaying(s.phase.fromSeq, s.phase.head, backlog,
                            if backlog == [] then s.phase.fromSeq else backlog[|backlog| - 1]),
         start := s.phase.fromSeq)
    case ReplayOne =>
      var k := s.phase.todo[0];
      var s' := s.(phase := s.phase.(todo := s.phase.todo[1..]));
      if InView(s.stream, s.view, k) then Send(s', k) else s'
    case ReplayDone => s.(phase := Acking(s.phase.mark))
    case Ack => s.(phase := Serving(s.phase.mark), wire := s.wire + [Subscribed(s.phase.mark)])
    case Serve =>
      var k := s.queue[0];
      var s' := s.(queue := s.queue[1..]);
      if k <= s.phase.mark then s' else Send(s'.(phase := Serving(k)), k)
    case Deliver => Hears(s)
    case Disconnect => s.(phase := Closed, queue := [], wire := [], pans := [])
    case Pan(box) => s.(want := box, pans := if s.phase.Closed? then s.pans else s.pans + [box])
    case ApplyPan => s.(view := s.pans[0], pans := s.pans[1..])
  }

  /** The state after `steps`, and whether each of them was possible when it happened. */
  function After(box: BBox, steps: seq<Step>): State
    requires Legal(box, steps)
    decreases |steps|, 1
  {
    if steps == [] then Start(box)
    else Apply(After(box, steps[..|steps| - 1]), steps[|steps| - 1])
  }

  predicate Legal(box: BBox, steps: seq<Step>)
    decreases |steps|, 0
  {
    steps == [] ||
    (Legal(box, steps[..|steps| - 1]) && Enabled(After(box, steps[..|steps| - 1]), steps[|steps| - 1]))
  }

  lemma {:induction false} LegalPrefix(box: BBox, steps: seq<Step>, n: nat)
    requires Legal(box, steps) && n <= |steps|
    ensures Legal(box, steps[..n])
    decreases |steps|
  {
    if n < |steps| {
      assert steps[..|steps| - 1][..n] == steps[..n];
      LegalPrefix(box, steps[..|steps| - 1], n);
    } else {
      assert steps[..n] == steps;
    }
  }

  /** The state before step `n` of a run. */
  function At(box: BBox, steps: seq<Step>, n: nat): State
    requires Legal(box, steps) && n <= |steps|
  {
    LegalPrefix(box, steps, n);
    After(box, steps[..n])
  }

  /** The queue of the protocol is the channel the hub fills. */
  lemma BroadcastIsOffer(s: State, q: seq<FlightStateMessage>, m: FlightStateMessage)
    requires s.tail < |s.stream| && InHub(s.phase) && s.queue == Sequences(q)
    requires FromStream(s.stream, m) && m.sequence == s.tail + 1
    ensures Broadcast(s).queue == Sequences(Hub.Offer(q, s.view, m))
  {
    SequencesAppend(q, [m]);
    assert Sequences([m]) == [m.sequence];
  }

  /** Serving until the channel is empty. */
  function ServeAll(s: State): State
    requires s.phase.Serving?
    decreases |s.queue|
  {
    if s.queue == [] then s else ServeAll(Apply(s, Serve))
  }

  /** The protocol's serving steps write what the live loop writes. */
  lemma {:induction false} ServeAllIsLoop(s: State, q: seq<FlightStateMessage>)
    requires s.phase.Serving? && s.queue == Sequences(q)
    ensures ServeAll(s).wire == s.wire + Updates(Fresh(s.phase.mark, q))
    ensures ServeAll(s).written == s.written + Sequences(Fresh(s.phase.mark, q))
    decreases |q|
  {
    if q == [] {
      assert s.wire + [] == s.wire && s.written + [] == s.written;
    } else {
      assert s.queue[0] == q[0].sequence && s.queue[1..] == Sequences(q[1..]);
      ServeAllIsLoop(Apply(s, Serve), q[1..]);
      if q[0].sequence > s.phase.mark {
        FirstOfUpdates(q[0], Fresh(q[0].sequence, q[1..]), s.wire, s.written);
      }
    }
  }

  lemma FirstOfUpdates(m: FlightStateMessage, rest: seq<FlightStateMessage>, wire: seq<ServerMessage>, written: seq<nat>)
    ensures wire + Updates([m] + rest) == wire + [FlightUpdate(m.sequence)] + Updates(rest)
    ensures written + Sequences([m] + rest) == written + [m.sequence] + Sequences(rest)
  {
    SequencesAppend([m], rest);
    assert Updates([m]) == [FlightUpdate(m.sequence)] && Sequences([m]) == [m.sequence];
  }

  /** Replaying until the backlog is empty. */
  function ReplayAll(s: State): (t: State)
    requires s.phase.Replaying?
    ensures t == s.(phase := s.phase.(todo := []), wire := t.wire, written := t.written)
    decreases |s.phase.todo|
  {
    if s.phase.todo == [] then s else ReplayAll(Apply(s, ReplayOne))
  }

  /** The protocol's replay steps write what the replay loop writes. */
  lemma {:induction false} ReplayAllIsLoop(s: State, backlog: seq<FlightStateMessage>)
    requires s.phase.Replaying? && s.phase.todo == Sequences(backlog)
    requires forall m :: m in backlog ==> FromStream(s.stream, m)
    ensures ReplayAll(s).wire == s.wire + Updates(Hub.Visible(s.view, backlog))
    ensures ReplayAll(s).written == s.written + Sequences(Hub.Visible(s.view, backlog))
    decreases |backlog|
  {
    if backlog == [] {
      assert s.wire + [] == s.wire && s.written + [] == s.written;
    } else {
      var m, rest := backlog[0], backlog[1..];
      assert m in backlog && s.phase.todo[0] == m.sequence && s.phase.todo[1..] == Sequences(rest);
      assert InView(s.stream, s.view, m.sequence) <==> s.view.Contains(m.state.position);
      ReplayAllIsLoop(Apply(s, ReplayOne), rest);
      FirstOfUpdates(m, Hub.Visible(s.view, rest), s.wire, s.written);
      assert [] + Hub.Visible(s.view, rest) == Hub.Visible(s.view, rest);
    }
  }

  /** A fetch delivers decodable, retained messages of the gap's near end only. */
  lemma FetchedIsRetained(s: State, n: nat)
    requires Enabled(s, Fetch(n))
    ensures forall k :: k in Apply(s, Fetch(n)).phase.todo ==>
              s.phase.fromSeq < k <= |s.stream| && Retained(s.first, k) && Decodes(s.stream, k)
  {
    DecodedFromExact(s.stream, FetchStart(s), n);
  }

  /** A gateway with a registered client can refuse its gap, if there is one, or fetch `n` messages. */
  predicate CanHandshake(s: State, fetch: Option<nat>) {
    && s.phase.Registered?
    && (ReadHead(s).phase.Gap? && fetch.Some? ==>
          Enabled(ReadHead(s), Check) && Enabled(Apply(ReadHead(s), Check), Fetch(fetch.value)))
  }

  /** Where its steps lead when nothing else happens. */
  function Handshaken(s: State, fetch: Option<nat>): State
    requires CanHandshake(s, fetch)
  {
    var read := Apply(s, Snapshot);
    if read.phase.Acking? then Apply(read, Ack)
    else if fetch.None? then Apply(Apply(read, Refuse), Ack)
    else Acknowledged(Replayed(Apply(read, Check), fetch.value))
  }

  /** The fetched backlog, written out. */
  function Replayed(s: State, n: nat): (t: State)
    requires Enabled(s, Fetch(n))
    ensures t.phase.Replaying? && t.phase.todo == []
  {
    ReplayAll(Apply(s, Fetch(n)))
  }

  function Acknowledged(s: State): (t: State)
    requires s.phase.Replaying? && s.phase.todo == []
    ensures t.phase == Serving(s.phase.mark) && t.wire == s.wire + [Subscribed(s.phase.mark)]
  {
    Apply(Apply(s, ReplayDone), Ack)
  }

  /** The outcome of opening the resume reader and fetching that these steps stand for. */
  ghost predicate Answers(s: State, fetch: Option<nat>, fetched: Fetched)
    requires CanHandshake(s, fetch)
  {
    var read := ReadHead(s);
    read.phase.Gap? ==>
      match fetch
      case None => read.phase.head - read.phase.fromSeq > MAX_RESUME_BACKLOG || !fetched.Backlog?
      case Some(n) => fetched == Backlog(Delivered(s.stream, FetchStart(Apply(read, Check)), n))
  }

  /** The protocol's handshake ends where the gateway's does: the same messages written, the same
      number acknowledged and handed on to the live loop. */
  lemma HandshakeIsSteps(s: State, fetch: Option<nat>, fetched: Fetched)
    requires CanHandshake(s, fetch) && Answers(s, fetch, fetched)
    ensures var mark := HandshakeMark(s.phase.resumeFrom, |s.stream|, fetched);
      && Handshaken(s, fetch).phase == Serving(mark)
      && Handshaken(s, fetch).wire
         == s.wire + HandshakeReply(s.view, s.phase.resumeFrom, |s.stream|, fetched) + [Subscribed(mark)]
  {
    if ReadHead(s).phase.Acking? {
      assert s.wire + [] == s.wire;
    } else if fetch.None? {
      RefusalHandshake(s);
    } else {
      ReplayHandshake(s, fetch.value);
    }
  }

  lemma RefusalHandshake(s: State)
    requires s.phase.Registered? && ReadHead(s).phase.Gap?
    ensures Handshaken(s, None).phase == Serving(|s.stream|)
    ensures Handshaken(s, None).wire == s.wire + [ResumeFailed] + [Subscribed(|s.stream|)]
  {
  }

  lemma ReplayHandshake(s: State, n: nat)
    requires CanHandshake(s, Some(n)) && ReadHead(s).phase.Gap?
    ensures var msgs := Delivered(s.stream, FetchStart(Apply(ReadHead(s), Check)), n);
      var mark := ReplayMark(s.phase.resumeFrom.value, msgs);
      && Handshaken(s, Some(n)).phase == Serving(mark)
      && Handshaken(s, Some(n)).wire == s.wire + Updates(Hub.Visible(s.view, msgs)) + [Subscribed(mark)]
  {
    FetchIsReplay(Apply(ReadHead(s), Check), n);
  }

  /** Fetching and replaying leave the marks of the gateway's replay. */
  lemma FetchIsReplay(s: State, n: nat)
    requires Enabled(s, Fetch(n))
    ensures var msgs := Delivered(s.stream, FetchStart(s), n);
      && Replayed(s, n).phase.mark == ReplayMark(s.phase.fromSeq, msgs)
      && Replayed(s, n).wire == s.wire + Updates(Hub.Visible(s.view, msgs))
  {
    var msgs := Delivered(s.stream, FetchStart(s), n);
    DeliveredExact(s.stream, FetchStart(s), n);
    assert |Sequences(msgs)| == |msgs|;
    ReplayAllIsLoop(Apply(s, Fetch(n)), msgs);
  }

  // ----- What is in flight to the browser -----

  function Number(m: ServerMessage): nat {
    match m
    case Subscribed(n) => n
    case FlightUpdate(n) => n
    case ResumeFailed => 0
  }

  function Heard(h: nat, m: ServerMessage): nat {
    if Number(m) > h then Number(m) else h
  }

  ghost predicate Forward(h: nat, m: ServerMessage) {
    match m
    case Subscribed(n) => n >= h
    case FlightUpdate(n) => n > h
    case ResumeFailed => true
  }

  /** Each message in flight moves past everything the browser will have heard by then, and a
      failed resume is announced before anything else. */
  ghost predicate WireForward(h: nat, wire: seq<ServerMessage>) {
    && (forall i :: 0 <= i < |wire| ==> Forward(h, wire[i]))
    && (forall i, j :: 0 <= i < j < |wire| ==> Forward(Number(wire[i]), wire[j]))
    && (forall i :: 0 < i < |wire| ==> wire[i] != ResumeFailed)
  }

  /** Nothing heard or in flight is above `mark`. */
  ghost predicate WireWithin(h: nat, wire: seq<ServerMessage>, mark: int) {
    h <= mark && forall i :: 0 <= i < |wire| ==> Number(wire[i]) <= mark
  }

  lemma WireSnoc(h: nat, wire: seq<ServerMessage>, m: ServerMessage, mark: int)
    requires WireForward(h, wire) && mark >= 0 && WireWithin(h, wire, mark)
    requires Forward(mark, m) && (m == ResumeFailed ==> wire == [])
    ensures WireForward(h, wire + [m])
    ensures forall top :: top >= mark && top >= Number(m) ==> WireWithin(h, wire + [m], top)
  {
  }

  lemma WireUncons(h: nat, wire: seq<ServerMessage>)
    requires wire != [] && WireForward(h, wire)
    ensures Forward(h, wire[0])
    ensures WireForward(Heard(h, wire[0]), wire[1..])
    ensures forall mark :: WireWithin(h, wire, mark) ==> WireWithin(Heard(h, wire[0]), wire[1..], mark)
  {
  }

  // ----- Order: every run -----

  ghost predicate PhaseOrdered(s: State) {
    match s.phase
    case Closed => s.wire == [] && s.queue == [] && s.pans == []
    case Opened(f, _) => s.wire == [] && s.queue == [] && f == s.client.lastSeq
    case Registered(f) => s.wire == [] && f == s.client.lastSeq
    case Gap(f, h) => s.wire == [] && s.client.lastSeq == Some(f) && f < h <= |s.stream|
    case Fetching(f, h) => s.wire == [] && s.client.lastSeq == Some(f) && f < h <= |s.stream|
    case Replaying(f, _, todo, mark) =>
      && f <= mark <= |s.stream|
      && WireWithin(s.heard, s.wire, mark)
      && Ascending(todo)
      && (forall k :: k in todo ==> k <= mark && WireWithin(s.heard, s.wire, k - 1))
    case Acking(mark) => mark <= |s.stream| && WireWithin(s.heard, s.wire, mark)
    case Serving(mark) => mark <= |s.stream| && WireWithin(s.heard, s.wire, mark)
  }

  ghost predicate ClientOrdered(s: State) {
    && s.heard <= |s.stream|
    && (s.client.lastSeq.Some? ==> s.base <= s.client.lastSeq.value == s.heard)
    && Ascending(s.client.passed)
    && (forall k :: k in s.client.passed ==> k <= s.heard)
  }

  ghost predicate QueueOrdered(s: State) {
    && s.tail <= |s.stream|
    && Ascending(s.queue)
    && (forall k :: k in s.queue ==> k <= s.tail)
    && (forall k :: k in s.dropped ==> k <= |s.stream|)
    && (forall k :: k in s.written ==> k <= |s.stream|)
    && s.start <= |s.stream|
  }

  ghost predicate Ordered(s: State) {
    && ClientOrdered(s)
    && QueueOrdered(s)
    && WireForward(s.heard, s.wire)
    && PhaseOrdered(s)
  }

  lemma AscendingSnoc(s: seq<nat>, k: nat)
    requires Ascending(s) && (forall j :: j in s ==> j < k)
    ensures Ascending(s + [k])
  {
    assert forall i :: 0 <= i < |s| ==> s[i] in s;
  }

  lemma OrderedTail(s: State)
    requires Ordered(s) && s.tail < |s.stream|
    ensures Ordered(Broadcast(s))
  {
    AscendingSnoc(s.queue, s.tail + 1);
  }

  lemma OrderedFetch(s: State, n: nat)
    requires Ordered(s) && Enabled(s, Fetch(n))
    ensures Ordered(Apply(s, Fetch(n)))
  {
    DecodedFromExact(s.stream, FetchStart(s), n);
    var backlog := DecodedFrom(s.stream, FetchStart(s), n);
    AscendingLast(backlog);
    if backlog != [] {
      assert backlog[|backlog| - 1] in backlog;
    }
  }

  lemma AscendingLast(s: seq<nat>)
    requires Ascending(s)
    ensures forall k :: k in s ==> k <= s[|s| - 1]
  {
  }

  lemma OrderedReplayOne(s: State)
    requires Ordered(s) && Enabled(s, ReplayOne)
    ensures Ordered(Apply(s, ReplayOne))
  {
    AscendingTail(s.phase.todo);
    var k := s.phase.todo[0];
    WireSnoc(s.heard, s.wire, FlightUpdate(k), k - 1);
  }

  lemma OrderedServe(s: State)
    requires Ordered(s) && Enabled(s, Serve)
    ensures Ordered(Apply(s, Serve))
  {
    AscendingTail(s.queue);
    if s.queue[0] > s.phase.mark {
      WireSnoc(s.heard, s.wire, FlightUpdate(s.queue[0]), s.phase.mark);
    }
  }

  lemma OrderedDeliver(s: State)
    requires Ordered(s) && Enabled(s, Deliver)
    ensures Ordered(Apply(s, Deliver))
  {
    WireUncons(s.heard, s.wire);
    if s.wire[0].FlightUpdate? {
      AscendingSnoc(s.client.passed, s.wire[0].sequence);
    }
  }

  lemma OrderedNotice(s: State, step: Step)
    requires Ordered(s) && Enabled(s, step) && (step.Refuse? || step.Ack?)
    ensures Ordered(Apply(s, step))
  {
    if step.Refuse? {
      WireSnoc(s.heard, s.wire, ResumeFailed, s.phase.head);
    } else {
      WireSnoc(s.heard, s.wire, Subscribed(s.phase.mark), s.phase.mark);
    }
  }

  lemma OrderedHandshake(s: State, step: Step)
    requires Ordered(s) && Enabled(s, step)
    requires step.Connect? || step.Register? || step.Snapshot? || step.Check? || step.ReplayDone?
    ensures Ordered(Apply(s, step))
  {
  }

  lemma OrderedOutside(s: State, step: Step)
    requires Ordered(s) && Enabled(s, step)
    requires step.Publish? || step.Trim? || step.Disconnect? || step.Pan? || step.ApplyPan?
    ensures Ordered(Apply(s, step))
  {
  }

  lemma OrderedStep(s: State, step: Step)
    requires Ordered(s) && Enabled(s, step)
    ensures Ordered(Apply(s, step))
  {
    match step
    case Tail => OrderedTail(s);
    case Fetch(n) => OrderedFetch(s, n);
    case ReplayOne => OrderedReplayOne(s);
    case Serve => OrderedServe(s);
    case Deliver => OrderedDeliver(s);
    case Refuse => OrderedNotice(s, step);
    case Ack => OrderedNotice(s, step);
    case Publish(_) => OrderedOutside(s, step);
    case Trim(_) => OrderedOutside(s, step);
    case Disconnect => OrderedOutside(s, step);
    case Pan(_) => OrderedOutside(s, step);
    case ApplyPan => OrderedOutside(s, step);
    case _ => OrderedHandshake(s, step);
  }

  lemma {:induction false} OrderedRun(box: BBox, steps: seq<Step>)
    requires Legal(box, steps)
    ensures Ordered(After(box, steps))
    decreases |steps|
  {
    if steps != [] {
      OrderedRun(box, steps[..|steps| - 1]);
      OrderedStep(After(box, steps[..|steps| - 1]), steps[|steps| - 1]);
    }
  }

  lemma OrderedAt(box: BBox, steps: seq<Step>, n: nat)
    requires Legal(box, steps) && n <= |steps|
    ensures Ordered(At(box, steps, n))
  {
    LegalPrefix(box, steps, n);
    OrderedRun(box, steps[..n]);
  }

  /** Exactly-once order, end to end: over any number of connections, gateways, failed
      resumes, short or overshooting fetches and overlapping queues, the updates the browser
      passes on are strictly increasing, and its resume point never runs past the stream. */
  lemma UpdatesStrictlyIncrease(box: BBox, steps: seq<Step>)
    requires Legal(box, steps)
    ensures var s := After(box, steps);
      Ascending(s.client.passed) && (s.client.lastSeq.Some? ==> s.client.lastSeq.value <= |s.stream|)
  {
    OrderedRun(box, steps);
  }

  lemma PassedStep(s: State, step: Step)
    requires Ordered(s) && Enabled(s, step)
    ensures Apply(s, step).heard >= s.heard
    ensures forall k :: k in Apply(s, step).client.passed ==> k in s.client.passed || k > s.heard
  {
    if step.Deliver? {
      WireUncons(s.heard, s.wire);
    }
  }

  /** There is no second chance: an update the browser has not passed on by the time it hears
      of that number or a newer one is never passed on, whatever happens later. */
  lemma {:induction false} SkippedForever(box: BBox, steps: seq<Step>, n: nat, k: nat)
    requires Legal(box, steps) && n <= |steps|
    requires var s := At(box, steps, n); k <= s.heard && k !in s.client.passed
    ensures k !in After(box, steps).client.passed && k <= After(box, steps).heard
    decreases |steps|
  {
    if n < |steps| {
      var init := steps[..|steps| - 1];
      assert init[..n] == steps[..n];
      SkippedForever(box, init, n, k);
      OrderedRun(box, init);
      PassedStep(After(box, init), steps[|steps| - 1]);
    } else {
      assert steps[..n] == steps;
    }
  }
}
