/** The normalizer's publish stage (cmd/normalizer/main.go): each merge cycle writes every
    state to hot state and publishes those whose LastSeenUTC changed, on concurrent workers
    that finish in any order and can fail. Instants are integers, 0 being Go's zero time. */
module PublishDedup {
  import opened Prelude

  /** How one worker's hot-state write and publish end. */
  datatype IO = IO(writeOk: bool, publishOk: bool)

  /** An acknowledged message on flights.updates. */
  datatype Published = Published(icao24: string, lastSeenUTC: int)

  /** lastPublished[a], with Go's zero value for a missing key. */
  function Memory(m: map<string, int>, a: string): int {
    if a in m then m[a] else 0
  }

  predicate ShouldPublish(memory: map<string, int>, a: string, t: int) {
    Memory(memory, a) != t
  }

  /** persistAndPublish's verdict: written, and published if that was needed. */
  predicate Confirmed(memory: map<string, int>, a: string, t: int, io: IO) {
    io.writeOk && (!ShouldPublish(memory, a, t) || io.publishOk)
  }

  predicate Acknowledged(memory: map<string, int>, a: string, t: int, io: IO) {
    io.writeOk && ShouldPublish(memory, a, t) && io.publishOk
  }

  /** The messages of one aircraft, in stream order. */
  function Of(log: seq<Published>, a: string): seq<int> {
    if log == [] then []
    else
      var last := log[|log| - 1];
      Of(log[..|log| - 1], a) + if last.icao24 == a then [last.lastSeenUTC] else []
  }

  /** What a cycle leaves in memory. */
  function NextMemory(memory: map<string, int>, states: map<string, int>, io: string -> IO): map<string, int> {
    map a | a in states && Confirmed(memory, a, states[a], io(a)) :: states[a]
  }

  /** What a cycle adds to the stream for aircraft `a`. */
  function Added(memory: map<string, int>, states: map<string, int>, io: string -> IO, a: string): seq<int> {
    if a in states && Acknowledged(memory, a, states[a], io(a)) then [states[a]] else []
  }

  lemma OfSnoc(log: seq<Published>, p: Published, a: string)
    ensures Of(log + [p], a) == Of(log, a) + if p.icao24 == a then [p.lastSeenUTC] else []
  {
    assert (log + [p])[..|log|] == log;
  }

  /** The memory under construction while the workers of `todo` have not finished. */
  function Partial(memory: map<string, int>, states: map<string, int>, io: string -> IO, todo: set<string>): map<string, int> {
    map a | a in states && a !in todo && Confirmed(memory, a, states[a], io(a)) :: states[a]
  }

  lemma PartialStep(memory: map<string, int>, states: map<string, int>, io: string -> IO, todo: set<string>, a: string)
    requires a in todo && a in states
    ensures Partial(memory, states, io, todo - {a})
         == if Confirmed(memory, a, states[a], io(a)) then Partial(memory, states, io, todo)[a := states[a]]
            else Partial(memory, states, io, todo)
  {
  }

  /** The stream while the workers of `todo` have not finished. */
  ghost predicate Streamed(memory: map<string, int>, states: map<string, int>, io: string -> IO, todo: set<string>,
                           before: seq<Published>, now: seq<Published>) {
    forall a :: Of(now, a) == Of(before, a) + (if a in todo then [] else Added(memory, states, io, a))
  }

  lemma StreamedStep(memory: map<string, int>, states: map<string, int>, io: string -> IO, todo: set<string>,
                     before: seq<Published>, now: seq<Published>, a: string)
    requires Streamed(memory, states, io, todo, before, now) && a in todo && a in states
    ensures Streamed(memory, states, io, todo - {a}, before,
      if Acknowledged(memory, a, states[a], io(a)) then now + [Published(a, states[a])] else now)
  {
    forall b ensures Of(now + [Published(a, states[a])], b) == Of(now, b) + if a == b then [states[a]] else [] {
      OfSnoc(now, Published(a, states[a]), b);
    }
  }

  class Normalizer {
    var lastPublished: map<string, int>
    var stream: seq<Published>

    constructor ()
      ensures lastPublished == map[] && stream == []
    {
      lastPublished := map[];
      stream := [];
    }

    method PersistAndPublish(a: string, t: int, io: IO, shouldPublish: bool) returns (ok: bool)
      modifies this`stream
      ensures ok == (io.writeOk && (!shouldPublish || io.publishOk))
      ensures stream == if io.writeOk && shouldPublish && io.publishOk
        then old(stream) + [Published(a, t)] else old(stream)
    {
      if !io.writeOk {
        return false;
      }
      if !shouldPublish {
        return true;
      }
      if !io.publishOk {
        return false;
      }
      stream := stream + [Published(a, t)];
      return true;
    }

    /** One cycle over the merged states, one per aircraft, with the workers finishing in any
        order. Neither the new memory nor any aircraft's messages depend on that order. */
    method PersistAndPublishAll(states: map<string, int>, io: string -> IO)
      modifies this
      ensures lastPublished == NextMemory(old(lastPublished), states, io)
      ensures forall a :: Of(stream, a) == Of(old(stream), a) + Added(old(lastPublished), states, io, a)
    {
      var next: map<string, int> := map[];
      var todo := states.Keys;
      while todo != {}
        invariant todo <= states.Keys && lastPublished == old(lastPublished)
        invariant next == Partial(lastPublished, states, io, todo)
        invariant Streamed(lastPublished, states, io, todo, old(stream), stream)
        decreases todo
      {
        var a :| a in todo;
        var t := states[a];
        PartialStep(lastPublished, states, io, todo, a);
        StreamedStep(lastPublished, states, io, todo, old(stream), stream, a);
        var ok := PersistAndPublish(a, t, io(a), ShouldPublish(lastPublished, a, t));
        if ok {
          next := next[a := t];
        }
        todo := todo - {a};
      }
      lastPublished := next;
    }
  }

  // ----- Runs of cycles -----

  /** One turn of runMergeLoop: the scan fails, or a cycle runs. */
  datatype Cycle = ScanFailed | Merged(states: map<string, int>, io: string -> IO)

  function MemoryAfter(cycles: seq<Cycle>): map<string, int> {
    if cycles == [] then map[]
    else
      var memory := MemoryAfter(cycles[..|cycles| - 1]);
      match cycles[|cycles| - 1]
      case ScanFailed => memory
      case Merged(states, io) => NextMemory(memory, states, io)
  }

  function MessagesAfter(cycles: seq<Cycle>, a: string): seq<int> {
    if cycles == [] then []
    else
      var init := cycles[..|cycles| - 1];
      MessagesAfter(init, a) +
      match cycles[|cycles| - 1]
      case ScanFailed => []
      case Merged(states, io) => Added(MemoryAfter(init), states, io, a)
  }

  ghost predicate NonZero(cycles: seq<Cycle>) {
    forall i :: 0 <= i < |cycles| && cycles[i].Merged? ==> forall a :: a in cycles[i].states ==> cycles[i].states[a] != 0
  }

  ghost predicate EndsWith(s: seq<int>, t: int) {
    s != [] && s[|s| - 1] == t
  }

  /** The memory never runs ahead of the stream: under any failures, what is remembered as
      published is the last message the stream acknowledged for that aircraft. */
  lemma {:induction false} MemoryMatchesStream(cycles: seq<Cycle>, a: string)
    requires NonZero(cycles)
    ensures a in MemoryAfter(cycles) ==>
      MemoryAfter(cycles)[a] != 0 && EndsWith(MessagesAfter(cycles, a), MemoryAfter(cycles)[a])
    decreases |cycles|
  {
    if cycles != [] {
      var last := cycles[|cycles| - 1];
      MemoryMatchesStream(cycles[..|cycles| - 1], a);
      assert last.Merged? && a in last.states ==> last.states[a] != 0;
    }
  }

  /** A state that was written and, if tried, acknowledged is what the stream then ends with -
      whether this cycle sent it or an earlier one did. */
  lemma ConfirmedIsLatest(cycles: seq<Cycle>, a: string)
    requires NonZero(cycles) && cycles != [] && cycles[|cycles| - 1].Merged?
    requires var c := cycles[|cycles| - 1];
      (a in c.states && Confirmed(MemoryAfter(cycles[..|cycles| - 1]), a, c.states[a], c.io(a)))
    ensures EndsWith(MessagesAfter(cycles, a), cycles[|cycles| - 1].states[a])
  {
    MemoryMatchesStream(cycles, a);
  }

  /** A failed write or publish forgets the aircraft, so the next cycle that still carries a
      state for it tries to publish again. */
  lemma FailureIsRetried(memory: map<string, int>, states: map<string, int>, io: string -> IO, a: string, t: int)
    requires a in states && t != 0 && !Confirmed(memory, a, states[a], io(a))
    ensures ShouldPublish(NextMemory(memory, states, io), a, t)
  {
  }

  /** What a cycle does for one aircraft: remembered afterwards if and only if it was written and the
      stream either acknowledges it now or had it already; and sent exactly when it had not. */
  lemma CycleExact(memory: map<string, int>, states: map<string, int>, io: string -> IO, a: string)
    ensures a in NextMemory(memory, states, io) <==>
      a in states && io(a).writeOk && (io(a).publishOk || states[a] == if a in memory then memory[a] else 0)
    ensures a in NextMemory(memory, states, io) ==> NextMemory(memory, states, io)[a] == states[a]
    ensures Added(memory, states, io, a) != [] <==>
      a in states && io(a).writeOk && io(a).publishOk && states[a] != if a in memory then memory[a] else 0
    ensures Added(memory, states, io, a) != [] ==> Added(memory, states, io, a) == [states[a]]
  {
  }

  // ----- Failure-free runs -----

  ghost predicate Reliable(cycles: seq<Cycle>) {
    forall i :: 0 <= i < |cycles| && cycles[i].Merged? ==>
      forall a :: a in cycles[i].states ==> cycles[i].io(a) == IO(true, true)
  }

  /** What each completed cycle reported for `a`: its LastSeenUTC, or nothing. */
  function Reported(cycles: seq<Cycle>, a: string): seq<Option<int>> {
    if cycles == [] then []
    else
      Reported(cycles[..|cycles| - 1], a) +
      match cycles[|cycles| - 1]
      case ScanFailed => []
      case Merged(states, _) => [if a in states then Some(states[a]) else None]
  }

  /** A reported sequence with consecutive repeats removed; an absence separates repeats. */
  function Changes(reported: seq<Option<int>>): seq<int> {
    if reported == [] then []
    else
      var n := |reported| - 1;
      Changes(reported[..n]) +
      if reported[n].Some? && (n == 0 || reported[n - 1] != reported[n]) then [reported[n].value] else []
  }

  lemma ChangesSnoc(r: seq<Option<int>>, x: Option<int>)
    ensures Changes(r + [x]) == Changes(r) + if x.Some? && (r == [] || r[|r| - 1] != x) then [x.value] else []
  {
    var s := r + [x];
    assert s[..|r|] == r && s[|r|] == x;
    assert r != [] ==> s[|r| - 1] == r[|r| - 1];
  }

  /** What is remembered after these reports: the last one, unless it was an absence. */
  ghost predicate RemembersLast(memory: int, reported: seq<Option<int>>) {
    && memory == (if reported != [] && reported[|reported| - 1].Some? then reported[|reported| - 1].value else 0)
    && (forall i :: 0 <= i < |reported| ==> reported[i] != Some(0))
  }

  lemma ReliableCycle(memory: map<string, int>, states: map<string, int>, io: string -> IO, a: string, r: seq<Option<int>>)
    requires RemembersLast(Memory(memory, a), r)
    requires a in states ==> states[a] != 0 && io(a) == IO(true, true)
    ensures var x := if a in states then Some(states[a]) else None;
      && Changes(r + [x]) == Changes(r) + Added(memory, states, io, a)
      && RemembersLast(Memory(NextMemory(memory, states, io), a), r + [x])
  {
    ChangesSnoc(r, if a in states then Some(states[a]) else None);
  }

  /** Without failures the stream carries, per aircraft, exactly the changes of LastSeenUTC
      from cycle to cycle. */
  lemma {:induction false} ReliableRunsPublishChanges(cycles: seq<Cycle>, a: string)
    requires NonZero(cycles) && Reliable(cycles)
    ensures MessagesAfter(cycles, a) == Changes(Reported(cycles, a))
    ensures RemembersLast(Memory(MemoryAfter(cycles), a), Reported(cycles, a))
    decreases |cycles|
  {
    if cycles != [] {
      var init, last := cycles[..|cycles| - 1], cycles[|cycles| - 1];
      ReliableRunsPublishChanges(init, a);
      if last.Merged? {
        ReliableCycle(MemoryAfter(init), last.states, last.io, a, Reported(init, a));
      } else {
        assert Reported(cycles, a) == Reported(init, a);
      }
    }
  }
}
