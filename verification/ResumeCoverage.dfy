/** What the resume protocol delivers to a browser from the moment its viewport stays put, when
    every replay fetch from then on returns its whole gap: which in-viewport messages are passed
    on, exactly. */
module ResumeCoverage {
  import opened Prelude
  import opened Geo
  import opened FlightStream
  import Hub
  import opened Gateway
  import opened BrowserClient
  import opened ResumeProtocol

  /** The steps under which coverage is promised: the viewport does not move, and a fetch
      finds its whole gap retained and returns all of it. */
  predicate Calm(s: State, step: Step)
    requires Enabled(s, step)
  {
    && !step.Pan?
    && (step.Fetch? ==> step.n == s.phase.head - s.phase.fromSeq && s.first <= s.phase.fromSeq + 1)
  }

  /** From step `n` on, whatever came before. */
  predicate CalmFrom(box: BBox, steps: seq<Step>, n: nat)
    requires Legal(box, steps)
    decreases |steps|
  {
    |steps| <= n ||
    (CalmFrom(box, steps[..|steps| - 1], n) && Calm(After(box, steps[..|steps| - 1]), steps[|steps| - 1]))
  }

  /** In-viewport messages above `floor` the hub has not dropped: what the browser is owed. */
  ghost function Owed(s: State, floor: nat): set<nat> {
    set k: nat | k <= |s.stream| && floor < k && InView(s.stream, s.want, k) && k !in s.dropped
  }

  ghost predicate NoneOwed(owed: set<nat>, lo: nat, hi: nat) {
    forall k :: k in owed ==> !(lo < k <= hi)
  }

  ghost predicate AllIn(owed: set<nat>, lo: nat, hi: nat, sent: seq<nat>) {
    forall k :: k in owed && lo < k <= hi ==> k in sent
  }

  // ----- The invariant -----

  ghost predicate ViewFixed(s: State) {
    && s.pans == []
    && (InHub(s.phase) ==> s.view == s.want)
    && (s.phase.Opened? ==> s.phase.box == s.want)
  }

  ghost predicate OnlyInView(s: State, floor: nat) {
    && (forall k :: k in s.client.passed && k > floor ==> InView(s.stream, s.want, k))
    && (forall k: nat :: FlightUpdate(k) in s.wire && k > floor ==> InView(s.stream, s.want, k))
    && (forall k :: k in s.queue && k > floor ==> InView(s.stream, s.want, k))
    && (InHub(s.phase) ==> forall k :: k in s.written && k > floor ==> InView(s.stream, s.want, k))
  }

  ghost predicate ClientCovered(s: State, owed: set<nat>) {
    s.client.lastSeq.Some? ==>
      s.base <= s.client.lastSeq.value && AllIn(owed, s.base, s.client.lastSeq.value, s.client.passed)
  }

  predicate Talking(p: Phase) {
    p.Replaying? || p.Acking? || p.Serving?
  }

  /** What a connection has written above `floor` has arrived or is in flight, and if it started
      above it the browser's resume point is not behind that start, unless a failed resume is being
      announced. */
  ghost predicate Anchored(s: State, floor: nat) {
    Talking(s.phase) ==>
      && (forall k :: k in s.written && k > floor ==> k in s.client.passed || FlightUpdate(k) in s.wire)
      && (s.start > floor ==>
            && (forall i :: 0 <= i < |s.wire| && s.wire[i] != ResumeFailed ==> Number(s.wire[i]) >= s.start)
            && (s.client.lastSeq.Some? && ResumeFailed !in s.wire ==> s.client.lastSeq.value >= s.start))
  }

  /** The number from which the live queue must be complete. */
  function LiveFrom(s: State): nat {
    match s.phase
    case Gap(_, h) => h
    case Fetching(_, h) => h
    case Replaying(_, h, _, _) => h
    case Acking(m) => m
    case Serving(m) => m
    case _ => |s.stream|
  }

  ghost predicate Live(s: State, owed: set<nat>) {
    InHub(s.phase) ==> AllIn(owed, LiveFrom(s), s.tail, s.queue)
  }

  ghost predicate WrittenWithin(s: State, mark: nat, floor: nat) {
    && (s.start > floor ==> s.start <= mark)
    && forall k :: k in s.written && k > floor ==> s.start < k <= mark
  }

  ghost predicate SessionCovered(s: State, owed: set<nat>, floor: nat) {
    match s.phase
    case Closed => true
    case Opened(_, _) => true
    case Registered(_) => s.written == []
    case Gap(_, h) => s.written == []
    case Fetching(_, h) => s.written == []
    case Replaying(f, h, todo, mark) =>
      && f <= mark <= h <= |s.stream| && s.start == f
      && (forall k :: k in todo ==> k > f)
      && AllIn(owed, f, h, s.written + todo)
      && NoneOwed(owed, mark, h)
      && WrittenWithin(s, mark, floor)
    case Acking(mark) => AllIn(owed, s.start, mark, s.written) && WrittenWithin(s, mark, floor)
    case Serving(mark) => AllIn(owed, s.start, mark, s.written) && WrittenWithin(s, mark, floor)
  }

  ghost predicate CoveredBy(s: State, owed: set<nat>, floor: nat) {
    && Ordered(s)
    && ViewFixed(s)
    && OnlyInView(s, floor)
    && Anchored(s, floor)
    && (forall k :: k in owed ==> InView(s.stream, s.want, k) && k > floor)
    && ClientCovered(s, owed)
    && Live(s, owed)
    && SessionCovered(s, owed, floor)
  }

  /** A message the hub dropped has not been passed on and cannot be any more on this
      connection: it is not in flight, and the mark is past it or the channel does not hold it. */
  ghost predicate LostFor(s: State, k: nat) {
    && k <= |s.stream| && k !in s.client.passed && FlightUpdate(k) !in s.wire
    && match s.phase
       case Closed => true
       case Opened(_, _) => true
       case Registered(f) => f.Some? ==> k <= f.value
       case Gap(f, h) => k <= f || (h < k <= s.tail && k !in s.queue)
       case Fetching(f, h) => k <= f || (h < k <= s.tail && k !in s.queue)
       case Replaying(f, h, _, _) => k <= f || (h < k <= s.tail && k !in s.queue)
       case Acking(mark) => k <= mark || (k <= s.tail && k !in s.queue)
       case Serving(mark) => k <= mark || (k <= s.tail && k !in s.queue)
  }

  ghost predicate Lost(s: State, floor: nat) {
    forall k :: k in s.dropped && k > floor ==> LostFor(s, k)
  }

  ghost predicate Covered(s: State, floor: nat) {
    CoveredBy(s, Owed(s, floor), floor) && Lost(s, floor)
  }

  /** A newer message is owed to nobody yet. */
  lemma NewerIsNotYetOwed(s: State, s': State, owed: set<nat>, owed': set<nat>, floor: nat)
    requires Ordered(s) && ClientCovered(s, owed) && Live(s, owed) && SessionCovered(s, owed, floor)
    requires s' == s.(stream := s'.stream, first := s'.first) && |s.stream| < |s'.stream|
    requires forall k :: k in owed' ==> k in owed || k > |s.stream|
    ensures ClientCovered(s', owed') && Live(s', owed') && SessionCovered(s', owed', floor)
  {
  }

  lemma CoveredPublish(s: State, m: Message, floor: nat)
    requires CoveredBy(s, Owed(s, floor), floor)
    ensures CoveredBy(Apply(s, Publish(m)), Owed(Apply(s, Publish(m)), floor), floor)
  {
    var s' := Apply(s, Publish(m));
    OrderedOutside(s, Publish(m));
    assert forall k: nat :: k <= |s.stream| ==> InView(s'.stream, s.want, k) == InView(s.stream, s.want, k);
    NewerIsNotYetOwed(s, s', Owed(s, floor), Owed(s', floor), floor);
  }

  lemma LiveBroadcast(s: State, s': State, owed: set<nat>, owed': set<nat>, floor: nat)
    requires Ordered(s) && ClientCovered(s, owed) && Live(s, owed) && SessionCovered(s, owed, floor)
    requires s' == s.(tail := s.tail + 1, queue := s'.queue, dropped := s'.dropped)
    requires owed' <= owed
    requires s.queue <= s'.queue
    requires InHub(s.phase) && s.tail + 1 in owed' && LiveFrom(s) <= s.tail ==> s.tail + 1 in s'.queue
    ensures ClientCovered(s', owed') && Live(s', owed') && SessionCovered(s', owed', floor)
  {
    assert forall k :: k in s.queue ==> k in s'.queue;
  }

  lemma CoveredTail(s: State, floor: nat)
    requires CoveredBy(s, Owed(s, floor), floor) && s.tail < |s.stream|
    ensures CoveredBy(Broadcast(s), Owed(Broadcast(s), floor), floor)
  {
    OrderedTail(s);
    LiveBroadcast(s, Broadcast(s), Owed(s, floor), Owed(Broadcast(s), floor), floor);
  }

  /** Registering makes everything dropped above the resume point owed again: the replay is
      to deliver it. */
  lemma CoveredRegister(s: State, owed: set<nat>, owed': set<nat>, floor: nat)
    requires CoveredBy(s, owed, floor) && Enabled(s, Register)
    requires forall k :: k in owed' ==> InView(s.stream, s.want, k) && k > floor
    requires forall k :: k in owed' ==> k in owed || (s.client.lastSeq.Some? ==> k > s.client.lastSeq.value)
    ensures CoveredBy(Apply(s, Register), owed', floor)
  {
    OrderedHandshake(s, Register);
  }

  lemma CoveredHandshake(s: State, step: Step, owed: set<nat>, floor: nat)
    requires CoveredBy(s, owed, floor) && Enabled(s, step) && (step.Snapshot? || step.ReplayDone?)
    ensures CoveredBy(Apply(s, step), owed, floor)
  {
    OrderedHandshake(s, step);
  }

  lemma LastIsWithin(todo: seq<nat>, f: nat, h: nat) returns (mark: nat)
    requires Ascending(todo) && f <= h && (forall k :: k in todo ==> f < k <= h)
    ensures mark == (if todo == [] then f else todo[|todo| - 1]) && f <= mark <= h
    ensures forall k :: k in todo ==> k <= mark
  {
    AscendingLast(todo);
    mark := if todo == [] then f else todo[|todo| - 1];
    assert todo != [] ==> todo[|todo| - 1] in todo;
  }

  /** A full fetch holds everything decodable in the gap, and its last number covers it. */
  lemma FullFetch(stream: seq<Message>, f: nat, h: nat, n: nat) returns (mark: nat)
    requires f < h <= |stream| && n == h - f
    ensures var todo := DecodedFrom(stream, f + 1, n);
      && mark == (if todo == [] then f else todo[|todo| - 1]) && f <= mark <= h
      && (forall k :: k in todo <==> f < k <= h && Decodes(stream, k))
      && (forall k :: k in todo ==> k <= mark)
  {
    DecodedFromExact(stream, f + 1, n);
    mark := LastIsWithin(DecodedFrom(stream, f + 1, n), f, h);
  }

  lemma CoveredFetch(s: State, n: nat, owed: set<nat>, floor: nat)
    requires CoveredBy(s, owed, floor) && Enabled(s, Fetch(n)) && Calm(s, Fetch(n))
    ensures CoveredBy(Apply(s, Fetch(n)), owed, floor)
  {
    var f, h := s.phase.fromSeq, s.phase.head;
    var mark := FullFetch(s.stream, f, h, n);
    assert FetchStart(s) == f + 1;
    OrderedFetch(s, n);
  }

  lemma SessionReplayOne(s: State, owed: set<nat>, floor: nat)
    requires Ordered(s) && ViewFixed(s) && SessionCovered(s, owed, floor) && Enabled(s, ReplayOne)
    requires forall k :: k in owed ==> InView(s.stream, s.want, k)
    ensures SessionCovered(Apply(s, ReplayOne), owed, floor)
  {
    var s' := Apply(s, ReplayOne);
    var k := s.phase.todo[0];
    AscendingTail(s.phase.todo);
    assert forall j :: j in s.written + s.phase.todo && j != k ==> j in s'.written + s'.phase.todo;
    assert k in owed ==> k in s'.written;
  }

  /** Writing an update keeps the connection anchored. */
  lemma AnchoredSend(s: State, k: nat, floor: nat)
    requires Talking(s.phase) && Anchored(s, floor) && (s.start > floor ==> k >= s.start)
    ensures Anchored(Send(s, k), floor)
  {
    assert forall m :: m in s.wire + [FlightUpdate(k)] <==> m in s.wire || m == FlightUpdate(k);
    assert forall j :: j in s.written + [k] <==> j in s.written || j == k;
  }

  lemma CoveredReplayOne(s: State, owed: set<nat>, floor: nat)
    requires CoveredBy(s, owed, floor) && Enabled(s, ReplayOne)
    ensures CoveredBy(Apply(s, ReplayOne), owed, floor)
  {
    var k := s.phase.todo[0];
    OrderedReplayOne(s);
    SessionReplayOne(s, owed, floor);
    AscendingTail(s.phase.todo);
    AnchoredSend(s.(phase := s.phase.(todo := s.phase.todo[1..])), k, floor);
  }

  lemma CoveredNotice(s: State, step: Step, owed: set<nat>, floor: nat)
    requires CoveredBy(s, owed, floor) && Enabled(s, step) && (step.Refuse? || step.Ack?)
    ensures CoveredBy(Apply(s, step), owed, floor)
  {
    var s' := Apply(s, step);
    OrderedNotice(s, step);
    assert s'.wire == s.wire + [s'.wire[|s.wire|]];
  }

  lemma SessionServe(s: State, owed: set<nat>, floor: nat)
    requires Ordered(s) && Live(s, owed) && SessionCovered(s, owed, floor) && Enabled(s, Serve)
    ensures Live(Apply(s, Serve), owed) && SessionCovered(Apply(s, Serve), owed, floor)
  {
    AscendingTail(s.queue);
    assert s.queue[0] > s.phase.mark ==> NoneOwed(owed, s.phase.mark, s.queue[0] - 1);
  }

  lemma CoveredServe(s: State, owed: set<nat>, floor: nat)
    requires CoveredBy(s, owed, floor) && Enabled(s, Serve)
    ensures CoveredBy(Apply(s, Serve), owed, floor)
  {
    var k := s.queue[0];
    OrderedServe(s);
    AscendingTail(s.queue);
    SessionServe(s, owed, floor);
    if k > s.phase.mark {
      AnchoredSend(s.(queue := s.queue[1..], phase := Serving(k)), k, floor);
    }
  }

  /** What is owed above the resume point and below the next number to arrive is already
      there: the connection wrote it, and nothing older is still in flight. */
  lemma NothingOwedBetween(s: State, owed: set<nat>, k: nat, floor: nat)
    requires Ordered(s) && Anchored(s, floor) && SessionCovered(s, owed, floor)
    requires s.wire != [] && s.wire[0] != ResumeFailed && s.client.lastSeq.Some?
    requires k in owed && k > floor && s.client.lastSeq.value < k <= Number(s.wire[0])
    ensures k in s.client.passed || s.wire[0] == FlightUpdate(k)
  {
    assert ResumeFailed !in s.wire;
    assert s.phase.Replaying? ==> forall j :: j in s.phase.todo ==> Number(s.wire[0]) <= j - 1;
    assert k in s.written;
    if FlightUpdate(k) in s.wire {
      var i :| 0 <= i < |s.wire| && s.wire[i] == FlightUpdate(k);
      assert Forward(Number(s.wire[0]), s.wire[i]) || i == 0;
    }
  }

  lemma ClientHears(s: State, owed: set<nat>, floor: nat)
    requires Ordered(s) && Anchored(s, floor) && SessionCovered(s, owed, floor) && ClientCovered(s, owed) && s.wire != []
    requires forall k :: k in owed ==> k > floor
    ensures ClientCovered(Hears(s), owed)
  {
    if s.client.lastSeq.Some? && s.wire[0] != ResumeFailed {
      forall k | k in owed && s.client.lastSeq.value < k <= Number(s.wire[0]) ensures k in Hears(s).client.passed {
        NothingOwedBetween(s, owed, k, floor);
      }
    }
  }

  lemma RestDeliver(s: State, owed: set<nat>, floor: nat)
    requires ViewFixed(s) && OnlyInView(s, floor) && Live(s, owed) && SessionCovered(s, owed, floor) && s.wire != []
    ensures ViewFixed(Hears(s)) && OnlyInView(Hears(s), floor) && Live(Hears(s), owed) && SessionCovered(Hears(s), owed, floor)
  {
    assert s.wire[0] in s.wire;
  }

  lemma CoveredDeliver(s: State, owed: set<nat>, floor: nat)
    requires CoveredBy(s, owed, floor) && Enabled(s, Deliver)
    ensures CoveredBy(Hears(s), owed, floor)
  {
    OrderedDeliver(s);
    ClientHears(s, owed, floor);
    RestDeliver(s, owed, floor);
  }

  lemma CoveredOther(s: State, step: Step, owed: set<nat>, floor: nat)
    requires CoveredBy(s, owed, floor) && Enabled(s, step)
    requires step.Trim? || step.Check? || step.Connect? || step.Disconnect?
    ensures CoveredBy(Apply(s, step), owed, floor)
  {
    OrderedStep(s, step);
  }

  lemma OwedKept(s: State, step: Step, floor: nat)
    requires Enabled(s, step) && !step.Publish? && !step.Tail? && !step.Pan? && !step.Register?
    ensures Owed(Apply(s, step), floor) == Owed(s, floor)
  {
    var t := Apply(s, step);
    assert t.stream == s.stream && t.want == s.want && t.dropped == s.dropped;
  }

  lemma CoveredStep(s: State, step: Step, floor: nat)
    requires CoveredBy(s, Owed(s, floor), floor) && Enabled(s, step) && Calm(s, step)
    ensures CoveredBy(Apply(s, step), Owed(Apply(s, step), floor), floor)
  {
    var owed := Owed(s, floor);
    if !step.Publish? && !step.Tail? && !step.Register? {
      OwedKept(s, step, floor);
    }
    match step
    case Publish(m) => CoveredPublish(s, m, floor);
    case Tail => CoveredTail(s, floor);
    case Register => CoveredRegister(s, owed, Owed(Apply(s, Register), floor), floor);
    case Snapshot => CoveredHandshake(s, step, owed, floor);
    case Fetch(n) => CoveredFetch(s, n, owed, floor);
    case ReplayOne => CoveredReplayOne(s, owed, floor);
    case ReplayDone => CoveredHandshake(s, step, owed, floor);
    case Refuse => CoveredNotice(s, step, owed, floor);
    case Ack => CoveredNotice(s, step, owed, floor);
    case Serve => CoveredServe(s, owed, floor);
    case Deliver => CoveredDeliver(s, owed, floor);
    case ApplyPan => assert false;
    case _ => CoveredOther(s, step, owed, floor);
  }

  // ----- What the hub dropped -----

  lemma LostTail(s: State, owed: set<nat>, floor: nat)
    requires Ordered(s) && SessionCovered(s, owed, floor) && Lost(s, floor) && s.tail < |s.stream|
    ensures Lost(Broadcast(s), floor)
  {
    var s' := Broadcast(s);
    forall k | k in s'.dropped && k > floor ensures LostFor(s', k) {
      if k in s.dropped {
        assert LostFor(s, k);
      } else {
        assert k == s.tail + 1 && s.heard < k;
      }
    }
  }

  lemma LostReplayOne(s: State, owed: set<nat>, floor: nat)
    requires Ordered(s) && SessionCovered(s, owed, floor) && Lost(s, floor) && Enabled(s, ReplayOne)
    ensures Lost(Apply(s, ReplayOne), floor)
  {
    var s' := Apply(s, ReplayOne);
    assert s.phase.todo[0] in s.phase.todo;
    forall k | k in s'.dropped && k > floor ensures LostFor(s', k) {
      assert LostFor(s, k);
    }
  }

  lemma LostServe(s: State, floor: nat)
    requires Ordered(s) && Lost(s, floor) && Enabled(s, Serve)
    ensures Lost(Apply(s, Serve), floor)
  {
    var s' := Apply(s, Serve);
    AscendingTail(s.queue);
    forall k | k in s'.dropped && k > floor ensures LostFor(s', k) {
      assert LostFor(s, k);
    }
  }

  lemma LostDeliver(s: State, floor: nat)
    requires Lost(s, floor) && Enabled(s, Deliver)
    ensures Lost(Hears(s), floor)
  {
    assert s.wire[0] in s.wire;
    forall k | k in s.dropped && k > floor ensures LostFor(Hears(s), k) {
      assert LostFor(s, k);
    }
  }

  lemma LostOther(s: State, owed: set<nat>, step: Step, floor: nat)
    requires Ordered(s) && SessionCovered(s, owed, floor) && Lost(s, floor) && Enabled(s, step) && Calm(s, step)
    requires !step.Tail? && !step.ReplayOne? && !step.Serve? && !step.Deliver?
    ensures Lost(Apply(s, step), floor)
  {
    var s' := Apply(s, step);
    forall k | k in s'.dropped && k > floor ensures LostFor(s', k) {
      assert LostFor(s, k);
    }
  }

  lemma LostStep(s: State, step: Step, floor: nat)
    requires Covered(s, floor) && Enabled(s, step) && Calm(s, step)
    ensures Lost(Apply(s, step), floor)
  {
    match step
    case Tail => LostTail(s, Owed(s, floor), floor);
    case ReplayOne => LostReplayOne(s, Owed(s, floor), floor);
    case Serve => LostServe(s, floor);
    case Deliver => LostDeliver(s, floor);
    case _ => LostOther(s, Owed(s, floor), step, floor);
  }

  // ----- Every run -----

  /** A moment from which coverage can be promised: no connection is open, or one is served and
      the viewport the browser wants is the one the gateway filters by. */
  predicate Settled(s: State) {
    s.phase.Closed? || (s.phase.Serving? && s.pans == [] && s.view == s.want)
  }

  /** Above which number: what it has heard of, or what was published under the old viewport. */
  function Floor(s: State): nat {
    if s.phase.Closed? then s.heard else |s.stream|
  }

  /** The run is calm from step `n` on, which finds the browser settled. */
  ghost predicate StableFrom(box: BBox, steps: seq<Step>, n: nat) {
    && Legal(box, steps) && n <= |steps|
    && Settled(At(box, steps, n)) && CalmFrom(box, steps, n)
  }

  /** Wherever a settled browser stands, everything it was sent and might have missed lies at or
      below its floor. */
  lemma CoveredAtSettled(s: State)
    requires Ordered(s) && Settled(s)
    ensures Covered(s, Floor(s))
  {
  }

  lemma StableBefore(box: BBox, steps: seq<Step>, n: nat)
    requires StableFrom(box, steps, n) && n < |steps|
    ensures var init := steps[..|steps| - 1];
      StableFrom(box, init, n) && init[..n] == steps[..n] && Calm(After(box, init), steps[|steps| - 1])
  {
    assert steps[..|steps| - 1][..n] == steps[..n];
  }

  lemma {:induction false} CoveredRun(box: BBox, steps: seq<Step>, n: nat)
    requires StableFrom(box, steps, n)
    ensures Covered(After(box, steps), Floor(At(box, steps, n)))
    ensures After(box, steps).want == At(box, steps, n).want
    decreases |steps|
  {
    var floor := Floor(At(box, steps, n));
    if n < |steps| {
      var init := steps[..|steps| - 1];
      StableBefore(box, steps, n);
      CoveredRun(box, init, n);
      CoveredStep(After(box, init), steps[|steps| - 1], floor);
      LostStep(After(box, init), steps[|steps| - 1], floor);
    } else {
      assert steps[..n] == steps;
      OrderedRun(box, steps);
      CoveredAtSettled(After(box, steps));
    }
  }

  // ----- What follows -----

  /** No silent loss across reconnects, exactly. Whatever happened before the viewport settled:
      between the browser's baseline (above the floor it settled at) and its resume point, the
      messages passed on are precisely those of the viewport, less the ones the hub dropped and no
      replay has answered for. */
  lemma NoSilentLoss(box: BBox, steps: seq<Step>, n: nat, k: nat)
    requires StableFrom(box, steps, n)
    ensures var s := After(box, steps);
      s.client.lastSeq.Some? && s.base < k <= s.client.lastSeq.value && Floor(At(box, steps, n)) < k ==>
        (k in s.client.passed <==> InView(s.stream, s.want, k) && k !in s.dropped)
  {
    CoveredRun(box, steps, n);
    var s, floor := After(box, steps), Floor(At(box, steps, n));
    assert k in Owed(s, floor) <==> k <= |s.stream| && floor < k && InView(s.stream, s.want, k) && k !in s.dropped;
    if k in s.dropped && k > floor {
      assert LostFor(s, k);
    }
  }

  /** Only hearing a resume_failed clears the resume point, and only a cleared one gets a new
      baseline. */
  lemma BaselineStep(s: State, step: Step)
    requires Ordered(s) && Enabled(s, step) && s.client.lastSeq.Some?
    ensures Apply(s, step).base == s.base && Apply(s, step).client.failures >= s.client.failures
    ensures Apply(s, step).client.failures == s.client.failures ==>
              Apply(s, step).client.lastSeq.Some? && Apply(s, step).client.lastSeq.value >= s.client.lastSeq.value
  {
    if step.Deliver? {
      WireUncons(s.heard, s.wire);
    }
  }

  lemma FailuresOnlyGrow(s: State, step: Step)
    requires Enabled(s, step)
    ensures Apply(s, step).client.failures >= s.client.failures
  {
  }

  lemma {:induction false} FailuresGrow(box: BBox, steps: seq<Step>, n: nat)
    requires Legal(box, steps) && n <= |steps|
    ensures After(box, steps).client.failures >= At(box, steps, n).client.failures
    decreases |steps|
  {
    if n < |steps| {
      var init := steps[..|steps| - 1];
      assert init[..n] == steps[..n];
      FailuresGrow(box, init, n);
      FailuresOnlyGrow(After(box, init), steps[|steps| - 1]);
    } else {
      assert steps[..n] == steps;
    }
  }

  /** On every run, calm or not: until the browser is told of a failed resume it keeps its
      baseline, and its resume point only moves forward. */
  lemma {:induction false} BaselineStands(box: BBox, steps: seq<Step>, n: nat)
    requires Legal(box, steps) && n <= |steps|
    requires At(box, steps, n).client.lastSeq.Some?
    requires After(box, steps).client.failures == At(box, steps, n).client.failures
    ensures After(box, steps).base == At(box, steps, n).base && After(box, steps).client.lastSeq.Some?
    ensures After(box, steps).client.lastSeq.value >= At(box, steps, n).client.lastSeq.value
    decreases |steps|
  {
    if n < |steps| {
      var init := steps[..|steps| - 1];
      assert init[..n] == steps[..n];
      FailuresGrow(box, init, n);
      FailuresOnlyGrow(After(box, init), steps[|steps| - 1]);
      BaselineStands(box, init, n);
      OrderedRun(box, init);
      BaselineStep(After(box, init), steps[|steps| - 1]);
    } else {
      assert steps[..n] == steps;
    }
  }

  /** From any settled moment at which the browser has a resume point - on a served connection
      everything published from then on, without one everything above that point - through any
      number of reconnects: unless it is told of a failed resume, what it passes on up to its
      present resume point is exactly its viewport, less what the hub dropped. */
  lemma NothingLostSince(box: BBox, steps: seq<Step>, n: nat, k: nat)
    requires StableFrom(box, steps, n)
    ensures var past, now := At(box, steps, n), After(box, steps);
      past.client.lastSeq.Some? && now.client.failures == past.client.failures ==>
        && now.client.lastSeq.Some?
        && (Floor(past) < k <= now.client.lastSeq.value ==>
              (k in now.client.passed <==> InView(now.stream, now.want, k) && k !in now.dropped))
  {
    var past, now := At(box, steps, n), After(box, steps);
    if past.client.lastSeq.Some? && now.client.failures == past.client.failures {
      BaselineStands(box, steps, n);
      OrderedAt(box, steps, n);
      NoSilentLoss(box, steps, n, k);
    }
  }

  // ----- When a dropped message is recovered -----

  /** Message `k` is still answered for: it is not lost, and on an open connection its head
      snapshot, replay or mark covers it. */
  ghost predicate Due(s: State, k: nat) {
    && k <= |s.stream|
    && match s.phase
       case Closed => k in s.dropped ==> s.client.lastSeq.Some? && k > s.client.lastSeq.value
       case Opened(_, _) => k in s.dropped ==> s.client.lastSeq.Some? && k > s.client.lastSeq.value
       case _ => k !in s.dropped && Answered(s.phase, k)
  }

  lemma DueReplayDone(s: State, k: nat, floor: nat)
    requires Ordered(s) && SessionCovered(s, Owed(s, floor), floor) && Enabled(s, ReplayDone) && Due(s, k)
    requires k > floor && InView(s.stream, s.want, k)
    ensures Due(Apply(s, ReplayDone), k)
  {
    assert k in Owed(s, floor);
  }

  lemma DueOther(s: State, step: Step, k: nat)
    requires Ordered(s) && Enabled(s, step) && Due(s, k) && !step.ReplayDone?
    ensures Due(Apply(s, step), k)
  {
    if step.Serve? {
      AscendingTail(s.queue);
    }
  }

  lemma DueStep(s: State, step: Step, k: nat, floor: nat)
    requires CoveredBy(s, Owed(s, floor), floor) && Enabled(s, step) && Due(s, k)
    requires k > floor && InView(s.stream, s.want, k)
    ensures Due(Apply(s, step), k)
  {
    match step
    case ReplayDone => DueReplayDone(s, k, floor);
    case _ => DueOther(s, step, k);
  }

  lemma InViewStays(s: State, step: Step, k: nat)
    requires Enabled(s, step) && Calm(s, step) && InView(s.stream, s.want, k)
    ensures InView(Apply(s, step).stream, Apply(s, step).want, k)
  {
  }

  lemma {:induction false} DueRun(box: BBox, steps: seq<Step>, n: nat, k: nat)
    requires StableFrom(box, steps, n)
    requires var p := At(box, steps, n); Due(p, k) && Floor(p) < k && InView(p.stream, p.want, k)
    ensures Due(After(box, steps), k) && InView(After(box, steps).stream, After(box, steps).want, k)
    decreases |steps|
  {
    if n < |steps| {
      var init, step := steps[..|steps| - 1], steps[|steps| - 1];
      StableBefore(box, steps, n);
      DueRun(box, init, n, k);
      CoveredRun(box, init, n);
      DueStep(After(box, init), step, k, Floor(At(box, steps, n)));
      InViewStays(After(box, init), step, k);
    } else {
      assert steps[..n] == steps;
    }
  }

  /** Recovery, exactly. Take any message of the viewport published by the time a connection has
      closed. If the browser gets past it without being told of a failed resume, it has been
      passed on if and only if it already was by then, or nothing as new had been heard. */
  lemma RecoveredIff(box: BBox, steps: seq<Step>, n: nat, k: nat)
    requires StableFrom(box, steps, n)
    ensures var past, now := At(box, steps, n), After(box, steps);
      past.phase.Closed? && past.client.lastSeq.Some? && now.client.failures == past.client.failures
      && InView(past.stream, past.want, k) && now.client.lastSeq.Some? && k <= now.client.lastSeq.value ==>
        (k in now.client.passed <==> k in past.client.passed || past.heard < k)
  {
    var past, now := At(box, steps, n), After(box, steps);
    if past.phase.Closed? && past.client.lastSeq.Some? && now.client.failures == past.client.failures
       && InView(past.stream, past.want, k) && now.client.lastSeq.Some? && k <= now.client.lastSeq.value {
      OrderedAt(box, steps, n);
      if past.heard < k {
        DueRun(box, steps, n, k);
        NothingLostSince(box, steps, n, k);
        OrderedRun(box, steps);
        CoveredRun(box, steps, n);
        assert k in now.dropped ==> LostFor(now, k);
      } else if k in past.client.passed {
        PassedStays(box, steps, n, k);
      } else {
        SkippedForever(box, steps, n, k);
      }
    }
  }

  lemma {:induction false} PassedStays(box: BBox, steps: seq<Step>, n: nat, k: nat)
    requires Legal(box, steps) && n <= |steps|
    requires k in At(box, steps, n).client.passed
    ensures k in After(box, steps).client.passed
    decreases |steps|
  {
    if n < |steps| {
      var init := steps[..|steps| - 1];
      assert init[..n] == steps[..n];
      PassedStays(box, init, n, k);
    } else {
      assert steps[..n] == steps;
    }
  }

  /** So a message the hub dropped is recovered by a reconnect if and only if the browser had
      heard of nothing as new when the connection closed (step `n`, the run being stable from an
      earlier step `m`). */
  lemma DropRecoveredIff(box: BBox, steps: seq<Step>, m: nat, n: nat, k: nat)
    requires StableFrom(box, steps, n) && m <= n && StableFrom(box, steps[..n], m)
    ensures var past, now := At(box, steps, n), After(box, steps);
      k in past.dropped && Floor(At(box, steps[..n], m)) < k && InView(past.stream, past.want, k)
      && past.phase.Closed? && past.client.lastSeq.Some? && now.client.failures == past.client.failures
      && now.client.lastSeq.Some? && k <= now.client.lastSeq.value ==>
        (k in now.client.passed <==> past.heard < k)
  {
    RecoveredIff(box, steps, n, k);
    CoveredRun(box, steps[..n], m);
    var past := At(box, steps, n);
    assert k in past.dropped && Floor(At(box, steps[..n], m)) < k ==> LostFor(past, k);
  }

  // ----- One connection -----

  /** Session exactness: while a connection is served, every in-viewport message above the
      delivered mark up to the hub's position is queued, unless the hub dropped it, and what was
      written on it is exactly the in-viewport part of (start, mark] less what the hub dropped,
      where `start` is the accepted resume point, or the head if there was none. */
  lemma SessionExact(box: BBox, steps: seq<Step>, n: nat, k: nat)
    requires StableFrom(box, steps, n)
    ensures var s := After(box, steps);
      s.phase.Serving? && Floor(At(box, steps, n)) < k ==>
      && (s.phase.mark < k <= s.tail ==> (k in s.queue <==> InView(s.stream, s.want, k) && k !in s.dropped))
      && (k in s.written ==> s.start < k <= s.phase.mark)
      && (s.start < k <= s.phase.mark ==> (k in s.written <==> InView(s.stream, s.want, k) && k !in s.dropped))
  {
    CoveredRun(box, steps, n);
    var s, floor := After(box, steps), Floor(At(box, steps, n));
    assert k in Owed(s, floor) <==> k <= |s.stream| && floor < k && InView(s.stream, s.want, k) && k !in s.dropped;
    if k in s.dropped && k > floor {
      assert LostFor(s, k);
    }
  }

  /** Nothing left to do on this connection: the tail has caught up, the channel is drained
      and everything written has arrived. */
  predicate Quiescent(s: State) {
    s.phase.Serving? && s.tail == |s.stream| && s.queue == [] && s.wire == []
  }

  /** The step that drains a served connection further. */
  function DrainStep(s: State): Step {
    if s.wire != [] then Deliver else if s.queue != [] then Serve else Tail
  }

  function Backlog(s: State): nat
    requires s.tail <= |s.stream|
  {
    3 * (|s.stream| - s.tail) + 2 * |s.queue| + |s.wire|
  }

  /** Message `k` is neither queued nor in flight nor delivered on a served connection whose
      hub has already broadcast it. */
  ghost predicate Gone(s: State, k: nat) {
    s.phase.Serving? && k <= s.tail && k !in s.queue && FlightUpdate(k) !in s.wire && k !in s.client.passed
  }

  lemma DrainStepKeeps(s: State)
    requires Ordered(s) && s.phase.Serving? && !Quiescent(s) && Enabled(s, DrainStep(s))
    ensures var t := Apply(s, DrainStep(s));
      && (s.tail == |s.stream| ==> t.tail == |t.stream| && t.dropped == s.dropped)
      && (ResumeFailed !in s.wire ==> ResumeFailed !in t.wire && t.client.failures == s.client.failures)
      && (ResumeFailed !in s.wire && s.client.lastSeq.Some? ==> t.client.lastSeq.Some? && t.base == s.base)
      && (forall k: nat :: Gone(s, k) ==> Gone(t, k))
  {
    var t := Apply(s, DrainStep(s));
    forall k: nat | Gone(s, k) ensures Gone(t, k) {
      if s.wire != [] {
        assert s.wire[0] in s.wire;
      }
    }
  }

  ghost predicate CalmReach(box: BBox, steps: seq<Step>, s: State) {
    Legal(box, steps) && CalmFrom(box, steps, 0) && After(box, steps) == s
  }

  /** The steps that move a served connection along without anything new being published. */
  predicate Draining(step: Step) {
    step.Tail? || step.Serve? || step.Deliver?
  }

  lemma BacklogFalls(s: State, step: Step)
    requires s.phase.Serving? && s.tail <= |s.stream| && Enabled(s, step) && Draining(step)
    ensures var t := Apply(s, step);
      t.phase.Serving? && t.stream == s.stream && t.tail <= |t.stream| && Backlog(t) < Backlog(s)
  {
  }

  /** Delivery: in whatever order its broadcasts, writes and deliveries come, a served connection
      has at most Backlog of them ahead, and it has drained exactly when none is possible. */
  lemma {:induction false} DrainsInAnyOrder(box: BBox, steps: seq<Step>, n: nat)
    requires Legal(box, steps) && n <= |steps|
    requires At(box, steps, n).phase.Serving? && forall i :: n <= i < |steps| ==> Draining(steps[i])
    ensures var s, t := At(box, steps, n), After(box, steps);
      && t.phase.Serving? && t.stream == s.stream && s.tail <= |s.stream| && t.tail <= |t.stream|
      && |steps| - n + Backlog(t) <= Backlog(s)
      && (Quiescent(t) <==> forall step :: Draining(step) ==> !Enabled(t, step))
    decreases |steps|
  {
    if n < |steps| {
      var init := steps[..|steps| - 1];
      assert init[..n] == steps[..n];
      DrainsInAnyOrder(box, init, n);
      BacklogFalls(After(box, init), steps[|steps| - 1]);
    } else {
      assert steps[..n] == steps;
      OrderedRun(box, steps);
    }
    QuiescentIff(After(box, steps));
  }

  lemma QuiescentIff(s: State)
    requires s.phase.Serving? && s.tail <= |s.stream|
    ensures Quiescent(s) <==> forall step :: Draining(step) ==> !Enabled(s, step)
  {
    if !Quiescent(s) {
      assert Draining(DrainStep(s)) && Enabled(s, DrainStep(s));
    }
  }

  /** Some such schedule drains it, and only broadcasts can still drop anything. */
  lemma {:induction false} Drains(box: BBox, steps: seq<Step>, s: State, bound: nat) returns (all: seq<Step>, end: State)
    requires CalmReach(box, steps, s) && Ordered(s) && s.phase.Serving? && Backlog(s) <= bound
    ensures steps <= all && |all| <= |steps| + bound
    ensures forall i :: |steps| <= i < |all| ==> Draining(all[i])
    ensures CalmReach(box, all, end) && Quiescent(end) && end.stream == s.stream
    ensures s.tail == |s.stream| ==> end.dropped == s.dropped
    ensures ResumeFailed !in s.wire ==> ResumeFailed !in end.wire && end.client.failures == s.client.failures
    ensures ResumeFailed !in s.wire && s.client.lastSeq.Some? ==> end.client.lastSeq.Some? && end.base == s.base
    ensures forall k: nat :: Gone(s, k) ==> Gone(end, k)
    decreases bound
  {
    if Quiescent(s) {
      all, end := steps, s;
    } else {
      var step := DrainStep(s);
      BacklogFalls(s, step);
      DrainStepKeeps(s);
      OrderedStep(s, step);
      all, end := Drains(box, steps + [step], Apply(s, step), bound - 1);
    }
  }

  /** In a drained connection the resume point stands for everything published: what has been
      passed on since the baseline is exactly the viewport, less what the hub dropped. */
  lemma QuiescentIsComplete(box: BBox, steps: seq<Step>, n: nat, k: nat)
    requires StableFrom(box, steps, n)
    ensures var s := After(box, steps);
      Quiescent(s) && s.client.lastSeq.Some? && s.base < k <= |s.stream| && Floor(At(box, steps, n)) < k ==>
        (k in s.client.passed <==> InView(s.stream, s.want, k) && k !in s.dropped)
  {
    CoveredRun(box, steps, n);
    var s, floor := After(box, steps), Floor(At(box, steps, n));
    assert k in Owed(s, floor) <==> k <= |s.stream| && floor < k && InView(s.stream, s.want, k) && k !in s.dropped;
    if k in s.dropped && k > floor {
      assert LostFor(s, k);
    }
  }

  // ----- Where updates are lost -----

  /** Reached by some run under which coverage is promised, or by any run at all. */
  ghost predicate CalmReachable(box: BBox, s: State) {
    exists steps :: CalmReach(box, steps, s)
  }

  ghost predicate Reachable(box: BBox, s: State) {
    exists steps :: Reach(box, steps, s)
  }

  ghost predicate Reach(box: BBox, steps: seq<Step>, s: State) {
    Legal(box, steps) && After(box, steps) == s
  }

  lemma Calmly(box: BBox, s: State, step: Step) returns (t: State)
    requires CalmReachable(box, s) && Enabled(s, step) && Calm(s, step)
    ensures t == Apply(s, step) && CalmReachable(box, t)
  {
    var steps :| CalmReach(box, steps, s);
    t := Apply(s, step);
    assert CalmReach(box, steps + [step], t);
  }

  lemma Next(box: BBox, s: State, step: Step) returns (t: State)
    requires Reachable(box, s) && Enabled(s, step)
    ensures t == Apply(s, step) && Reachable(box, t)
  {
    var steps :| Reach(box, steps, s);
    t := Apply(s, step);
    assert Reach(box, steps + [step], t);
  }

  /** A first connection to an empty stream is served from 0, with no resume point. */
  lemma FirstConnection(box: BBox) returns (s: State)
    ensures CalmReachable(box, s)
    ensures s == Start(box).(phase := Serving(0), wire := [Subscribed(0)])
  {
    s := Start(box);
    assert CalmReach(box, [], s);
    s := Calmly(box, s, Connect(0));
    s := Calmly(box, s, Register);
    s := Calmly(box, s, Snapshot);
    s := Calmly(box, s, Ack);
  }

  function Flood(m: Message, n: nat): seq<Message> {
    seq(n, _ => m)
  }

  function UpTo(n: nat): seq<nat> {
    seq(n, i => i + 1)
  }

  lemma FloodSnoc(m: Message, n: nat)
    ensures Flood(m, n) + [m] == Flood(m, n + 1) && UpTo(n) + [n + 1] == UpTo(n + 1)
  {
  }

  function Stalled(box: BBox, m: Message, n: nat): State {
    Start(box).(phase := Serving(0), wire := [Subscribed(0)], stream := Flood(m, n),
                first := if n == 0 then 0 else 1, tail := n, queue := UpTo(n))
  }

  lemma PublishedToStalled(box: BBox, m: Message, n: nat)
    ensures Apply(Stalled(box, m, n), Publish(m)) == Stalled(box, m, n).(stream := Flood(m, n + 1), first := 1)
  {
    FloodSnoc(m, n);
  }

  lemma QueuedForStalled(box: BBox, m: Message, n: nat)
    requires m.state.Some? && box.Contains(m.state.value.position) && n < Hub.SEND_BUFFER
    ensures Broadcast(Stalled(box, m, n).(stream := Flood(m, n + 1), first := 1)) == Stalled(box, m, n + 1)
  {
    FloodSnoc(m, n);
    assert |UpTo(n)| == n && |Flood(m, n + 1)| == n + 1;
  }

  /** `n` in-viewport messages arrive while the connection's writer is stalled. */
  lemma {:induction false} Flooded(box: BBox, m: Message, n: nat)
    requires m.state.Some? && box.Contains(m.state.value.position) && n <= Hub.SEND_BUFFER
    ensures CalmReachable(box, Stalled(box, m, n))
    decreases n
  {
    if n == 0 {
      var s := FirstConnection(box);
      assert s == Stalled(box, m, 0);
    } else {
      Flooded(box, m, n - 1);
      FloodedNext(box, m, n - 1);
    }
  }

  lemma FloodedNext(box: BBox, m: Message, n: nat)
    requires m.state.Some? && box.Contains(m.state.value.position) && n < Hub.SEND_BUFFER
    requires CalmReachable(box, Stalled(box, m, n))
    ensures CalmReachable(box, Stalled(box, m, n + 1))
  {
    PublishedToStalled(box, m, n);
    QueuedForStalled(box, m, n);
    var s := Calmly(box, Stalled(box, m, n), Publish(m));
    assert s.tail == n && |s.stream| == n + 1;
    s := Calmly(box, s, Tail);
  }

  /** One more message meets the full channel. */
  lemma Overflowed(box: BBox, m: Message)
    requires m.state.Some? && box.Contains(m.state.value.position)
    ensures CalmReachable(box, Stalled(box, m, 64).(stream := Flood(m, 65), tail := 65, dropped := {65}))
  {
    Flooded(box, m, 64);
    FloodSnoc(m, 64);
    var s := Calmly(box, Stalled(box, m, 64), Publish(m));
    s := Calmly(box, s, Tail);
    assert s.dropped == {65};
  }

  lemma Writes(s: State)
    requires s.phase == Serving(0) && s.wire == [Subscribed(0)] && s.written == [] && s.queue != [] && s.queue[0] == 1
    ensures Enabled(s, Serve) && Calm(s, Serve)
    ensures Apply(s, Serve) == s.(phase := Serving(1), queue := s.queue[1..],
                                  wire := [Subscribed(0), FlightUpdate(1)], written := [1])
  {
    assert Apply(s, Serve).wire == [Subscribed(0), FlightUpdate(1)];
  }

  /** Then the writer recovers. */
  lemma Unstalled(box: BBox, m: Message) returns (s: State)
    requires m.state.Some? && box.Contains(m.state.value.position)
    ensures CalmReachable(box, s)
    ensures s == Stalled(box, m, 64).(stream := Flood(m, 65), tail := 65, dropped := {65}, phase := Serving(1),
                                      queue := UpTo(64)[1..], wire := [Subscribed(0), FlightUpdate(1)], written := [1])
  {
    Overflowed(box, m);
    s := Stalled(box, m, 64).(stream := Flood(m, 65), tail := 65, dropped := {65});
    Writes(s);
    s := Calmly(box, s, Serve);
  }

  /** The next message gets through. */
  lemma Requeued(box: BBox, m: Message) returns (s: State)
    requires m.state.Some? && box.Contains(m.state.value.position)
    ensures CalmReachable(box, s)
    ensures s == Stalled(box, m, 64).(stream := Flood(m, 66), tail := 66, dropped := {65}, phase := Serving(1),
                                      queue := UpTo(64)[1..] + [66], wire := [Subscribed(0), FlightUpdate(1)], written := [1])
  {
    s := Unstalled(box, m);
    FloodSnoc(m, 65);
    s := Calmly(box, s, Publish(m));
    s := Calmly(box, s, Tail);
  }

  lemma HearsFirst(s: State)
    requires s.wire == [Subscribed(0), FlightUpdate(1)] && s.client == Progress(None, [], 0) && s.heard == 0
    ensures Apply(Apply(s, Deliver), Deliver) == s.(wire := [], client := Progress(Some(1), [1], 0), heard := 1, base := 1)
  {
    assert Apply(s, Deliver).wire == [FlightUpdate(1)];
  }

  /** The browser hears its first update; by then 65 is gone and 66 is on its way. */
  lemma Recovered(box: BBox, m: Message) returns (s: State)
    requires m.state.Some? && box.Contains(m.state.value.position)
    ensures CalmReachable(box, s)
    ensures s.tail == |s.stream| == 66 && s.wire == [] && s.dropped == {65} && Gone(s, 65)
    ensures s.client == Progress(Some(1), [1], 0) && s.base == 1 && s.first == 1 && s.phase == Serving(1)
    ensures InView(s.stream, box, 65) && InView(s.stream, box, 66)
  {
    s := Requeued(box, m);
    HearsFirst(s);
    s := Calmly(box, s, Deliver);
    s := Calmly(box, s, Deliver);
    SkipsTheGap(64);
    FloodInView(box, m, 66, 65);
    FloodInView(box, m, 66, 66);
  }

  /** A message a served connection has lost stays lost when that connection delivers a newer
      one, and the browser is not told. */
  lemma DrainedPast(box: BBox, steps: seq<Step>, lost: nat, newer: nat) returns (end: State)
    requires Legal(box, steps) && CalmFrom(box, steps, 0)
    ensures var s := After(box, steps);
      Parted(s, box, lost, newer) ==>
        && CalmReachable(box, end) && end.stream == s.stream && end.client.failures == s.client.failures
        && lost !in end.client.passed && newer in end.client.passed
        && end.client.lastSeq == Some(newer)
  {
    var s := After(box, steps);
    end := s;
    if Parted(s, box, lost, newer) {
      OrderedRun(box, steps);
      var all;
      all, end := Drains(box, steps, s, Backlog(s));
      assert all[..0] == [];
      QuiescentIsComplete(box, all, 0, newer);
      CoveredRun(box, all, 0);
      OrderedRun(box, all);
      assert Gone(end, lost);
      assert end.client.lastSeq.value == newer;
    }
  }

  /** `lost` is gone from a served connection that is about to deliver the stream's last message. */
  ghost predicate Parted(s: State, box: BBox, lost: nat, newer: nat) {
    && Gone(s, lost) && s.tail == |s.stream| == newer && ResumeFailed !in s.wire
    && s.client.lastSeq.Some? && s.base < newer && InView(s.stream, box, newer) && newer !in s.dropped
  }

  lemma FloodInView(box: BBox, m: Message, n: nat, k: nat)
    requires m.state.Some? && box.Contains(m.state.value.position) && 1 <= k <= n
    ensures InView(Flood(m, n), box, k)
  {
  }

  lemma SkipsTheGap(n: nat)
    requires n > 0
    ensures n + 1 !in UpTo(n)[1..] + [n + 2]
  {
  }

  /** A drop is not repaired by the protocol. In this run - fixed viewport, no disconnect, no
      failed resume - message 65 meets a full channel; 66 gets through, so the browser's
      resume point moves past 65, which it has never seen. */
  lemma DropIsSilent(box: BBox, m: Message) returns (s: State)
    requires m.state.Some? && box.Contains(m.state.value.position)
    ensures CalmReachable(box, s) && s.client.failures == 0
    ensures InView(s.stream, box, 65) && 65 !in s.client.passed
    ensures s.client.lastSeq == Some(66)
  {
    s := Recovered(box, m);
    var steps :| CalmReach(box, steps, s);
    s := DrainedPast(box, steps, 65, 66);
  }

  lemma Along(box: BBox, steps: seq<Step>, s: State, step: Step) returns (more: seq<Step>, t: State)
    requires CalmReach(box, steps, s) && Enabled(s, step) && Calm(s, step)
    ensures more == steps + [step] && t == Apply(s, step) && CalmReach(box, more, t)
  {
    more, t := steps + [step], Apply(s, step);
  }

  /** A replay left alone runs to its acknowledgement. */
  lemma {:induction false} ReplayFinishes(box: BBox, steps: seq<Step>, s: State) returns (all: seq<Step>, t: State)
    requires CalmReach(box, steps, s) && s.phase.Replaying? && ResumeFailed !in s.wire
    ensures CalmReach(box, all, t) && steps <= all && t.phase == Serving(s.phase.mark) && ResumeFailed !in t.wire
    ensures t.stream == s.stream && t.tail == s.tail && t.client == s.client && t.base == s.base && t.dropped == s.dropped
    decreases |s.phase.todo|
  {
    if s.phase.todo == [] {
      all, t := Along(box, steps, s, ReplayDone);
      all, t := Along(box, all, t, Ack);
    } else {
      all, t := Along(box, steps, s, ReplayOne);
      all, t := ReplayFinishes(box, all, t);
    }
  }

  /** The browser of Recovered reconnects at once. */
  lemma Reconnected(box: BBox, steps: seq<Step>, s: State) returns (closed: seq<Step>, all: seq<Step>, t: State)
    requires CalmReach(box, steps, s) && s.phase == Serving(1) && |s.stream| == 66 && s.client == Progress(Some(1), [1], 0)
    requires s.first == 1 && s.dropped == {65} && s.base == 1
    ensures steps <= closed <= all && CalmReach(box, closed, Apply(s, Disconnect)) && CalmReach(box, all, t)
    ensures t.phase == Fetching(1, 66) && t.wire == [] && t.dropped == {} && t.first == 1
    ensures t.stream == s.stream && t.tail == 66 && t.client == s.client && t.base == s.base
  {
    closed, t := Along(box, steps, s, Disconnect);
    all, t := Along(box, closed, t, Connect(66));
    all, t := Along(box, all, t, Register);
    assert StillLost({65}, Some(1)) == {};
    all, t := Along(box, all, t, Snapshot);
    all, t := Along(box, all, t, Check);
  }

  /** A resume whose gap is retained is replayed whole. */
  lemma Resumes(box: BBox, steps: seq<Step>, s: State) returns (all: seq<Step>, t: State)
    requires CalmReach(box, steps, s) && s.phase.Fetching? && s.first <= s.phase.fromSeq + 1 && s.wire == []
    requires s.phase.fromSeq < s.phase.head <= |s.stream|
    ensures CalmReach(box, all, t) && steps <= all && t.phase.Serving? && ResumeFailed !in t.wire
    ensures t.stream == s.stream && t.tail == s.tail && t.client == s.client && t.base == s.base && t.dropped == s.dropped
  {
    all, t := Along(box, steps, s, Fetch(s.phase.head - s.phase.fromSeq));
    all, t := ReplayFinishes(box, all, t);
  }

  /** A served connection that has dropped nothing delivers everything since the baseline. */
  lemma DeliversAll(box: BBox, steps: seq<Step>, s: State) returns (all: seq<Step>, t: State)
    requires CalmReach(box, steps, s) && s.phase.Serving? && ResumeFailed !in s.wire
    requires s.tail == |s.stream| && s.dropped == {} && s.client.lastSeq.Some?
    ensures CalmReach(box, all, t) && steps <= all && t.client.failures == s.client.failures
    ensures forall k :: s.base < k <= |s.stream| && InView(s.stream, t.want, k) ==> k in t.client.passed
  {
    OrderedRun(box, steps);
    all, t := Drains(box, steps, s, Backlog(s));
    assert all[..0] == [];
    forall k | s.base < k <= |s.stream| && InView(s.stream, t.want, k) ensures k in t.client.passed {
      QuiescentIsComplete(box, all, 0, k);
    }
  }

  /** A drop is repaired when the browser reconnects before hearing of anything newer. In this run
      65 is dropped like before, but the connection closes with the resume point at 1, and the
      replay that follows delivers it. */
  lemma DropIsRecovered(box: BBox, m: Message) returns (closed: seq<Step>, all: seq<Step>)
    requires m.state.Some? && box.Contains(m.state.value.position)
    ensures Legal(box, closed) && Legal(box, all) && CalmFrom(box, all, 0) && closed <= all
    ensures var s := After(box, closed); s.phase.Closed? && 65 in s.dropped && 65 !in s.client.passed
    ensures 65 in After(box, all).client.passed && After(box, all).client.failures == 0
  {
    var s := Recovered(box, m);
    var steps :| CalmReach(box, steps, s);
    var t;
    closed, all, t := Reconnected(box, steps, s);
    Closes(box, closed, s);
    all, t := Resumes(box, all, t);
    all, t := DeliversAll(box, all, t);
    assert all[..0] == [];
    CoveredRun(box, all, 0);
  }

  lemma Closes(box: BBox, closed: seq<Step>, s: State)
    requires Enabled(s, Disconnect) && CalmReach(box, closed, Apply(s, Disconnect))
    ensures Legal(box, closed) && After(box, closed).phase.Closed?
    ensures After(box, closed).dropped == s.dropped && After(box, closed).client == s.client
  {
  }

  /** A first connection that hears nothing but its acknowledgement, and then drops. */
  lemma LeftAtOne(box: BBox, m: Message) returns (s: State)
    ensures Reachable(box, s)
    ensures s == Start(box).(stream := [m], first := 1, tail := 1, client := Progress(Some(1), [], 0),
                             start := 1, heard := 1, base := 1)
  {
    s := Start(box);
    assert Reach(box, [], s);
    s := Next(box, s, Publish(m));
    s := Next(box, s, Connect(1));
    s := Next(box, s, Register);
    s := Next(box, s, Snapshot);
    s := Next(box, s, Ack);
    s := Next(box, s, Deliver);
    s := Next(box, s, Disconnect);
  }

  /** It resumes after message 2 was published ... */
  lemma Resuming(box: BBox, m: Message) returns (s: State)
    ensures Reachable(box, s)
    ensures s == Start(box).(stream := [m, m], first := 1, tail := 2, client := Progress(Some(1), [], 0),
                             phase := Gap(1, 2), start := 1, heard := 1, base := 1)
  {
    s := LeftAtOne(box, m);
    s := Next(box, s, Publish(m));
    s := Next(box, s, Connect(2));
    s := Next(box, s, Register);
    s := Next(box, s, Snapshot);
  }

  /** ... but the fetch times out before returning anything. */
  lemma ResumedShort(box: BBox, m: Message) returns (s: State)
    ensures Reachable(box, s)
    ensures s == Start(box).(stream := [m, m], first := 1, tail := 2, client := Progress(Some(1), [], 0),
                             phase := Serving(1), wire := [Subscribed(1)],
                             start := 1, heard := 1, base := 1)
  {
    s := Resuming(box, m);
    s := Next(box, s, Check);
    s := Next(box, s, Fetch(0));
    s := Next(box, s, ReplayDone);
    s := Next(box, s, Ack);
  }

  /** The next live update arrives. */
  lemma JumpsTheGap(box: BBox, m: Message) returns (s: State)
    requires m.state.Some? && box.Contains(m.state.value.position)
    ensures Reachable(box, s)
    ensures s == Start(box).(stream := [m, m, m], first := 1, tail := 3, client := Progress(Some(1), [], 0),
                             phase := Serving(3), wire := [Subscribed(1), FlightUpdate(3)], written := [3],
                             start := 1, heard := 1, base := 1)
  {
    s := ResumedShort(box, m);
    s := Next(box, s, Publish(m));
    assert s.stream == [m, m, m];
    s := Next(box, s, Tail);
    s := Next(box, s, Serve);
    assert s.wire == [Subscribed(1), FlightUpdate(3)];
  }

  /** The fetch has to return the whole gap: after an empty one the connection goes on from the
      old resume point, and the next live update jumps the gap (2) unannounced. */
  lemma ShortFetchIsSilent(box: BBox, m: Message) returns (s: State)
    requires m.state.Some? && box.Contains(m.state.value.position)
    ensures Reachable(box, s) && s.client.failures == 0 && s.dropped == {}
    ensures InView(s.stream, box, 2) && s.client.passed == [3] && s.client.lastSeq == Some(3)
  {
    s := JumpsTheGap(box, m);
    s := Next(box, s, Deliver);
    assert s.wire == [FlightUpdate(3)];
    s := Next(box, s, Deliver);
  }
}
