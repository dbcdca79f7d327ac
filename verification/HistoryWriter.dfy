/** The flight_history downsampler (internal/pgstorewriter/historywriter.go): a per-aircraft
    gate that is reserved before the insert and rolled back after a failed one, with the
    insert itself running outside the lock. Readings are non-zero instants, as integers. */
module HistoryWriter {
  import opened Prelude

  type Gate = map<string, int>

  function Lookup(gate: Gate, icao24: string): Option<int> {
    if icao24 in gate then Some(gate[icao24]) else None
  }

  function Restore(gate: Gate, icao24: string, prior: Option<int>): Gate {
    match prior
    case Some(t) => gate[icao24 := t]
    case None => gate - {icao24}
  }

  /** One accepted Observe call between its two critical sections: what it found on entry
      and the reading it reserved. */
  datatype Call = Call(icao24: string, now: int, prior: Option<int>)

  predicate Passes(interval: int, gate: Gate, icao24: string, now: int) {
    icao24 in gate ==> now - gate[icao24] >= interval
  }

  /** The gate after call `c` has failed to insert its row. */
  function RolledBack(gate: Gate, c: Call): Gate {
    if Lookup(gate, c.icao24) == Some(c.now) then Restore(gate, c.icao24, c.prior) else gate
  }

  function Evicted(gate: Gate, cutoff: int): Gate {
    map a | a in gate && gate[a] >= cutoff :: gate[a]
  }

  class HistoryWriter {
    const interval: int
    var lastSeen: Gate

    constructor (interval: int)
      ensures this.interval == interval && lastSeen == map[]
    {
      this.interval := interval;
      lastSeen := map[];
    }

    /** Observe's first critical section: check the gate and reserve the reading. */
    method Reserve(icao24: string, now: int) returns (call: Option<Call>)
      modifies this
      ensures call.Some? <==> Passes(interval, old(lastSeen), icao24, now)
      ensures call.Some? ==>
        && call.value == Call(icao24, now, Lookup(old(lastSeen), icao24))
        && lastSeen == old(lastSeen)[icao24 := now]
      ensures call.None? ==> lastSeen == old(lastSeen)
    {
      var last := Lookup(lastSeen, icao24);
      if last.Some? && now - last.value < interval {
        return None;
      }
      lastSeen := lastSeen[icao24 := now];
      call := Some(Call(icao24, now, last));
    }

    /** Observe's second critical section, entered only after a failed insert. */
    method RollBack(c: Call)
      modifies this
      ensures lastSeen == RolledBack(old(lastSeen), c)
    {
      if c.icao24 in lastSeen && lastSeen[c.icao24] == c.now {
        if c.prior.Some? {
          lastSeen := lastSeen[c.icao24 := c.prior.value];
        } else {
          lastSeen := lastSeen - {c.icao24};
        }
      }
    }

    /** A whole Observe call that no other call interleaves with. A failed insert leaves
        no trace, so the same reading passes again. */
    method Observe(icao24: string, now: int, insertFails: bool) returns (wrote: bool, failed: bool)
      modifies this
      ensures wrote <==> Passes(interval, old(lastSeen), icao24, now) && !insertFails
      ensures failed <==> Passes(interval, old(lastSeen), icao24, now) && insertFails
      ensures wrote ==> lastSeen == old(lastSeen)[icao24 := now]
      ensures !wrote ==> lastSeen == old(lastSeen)
    {
      var call := Reserve(icao24, now);
      if call.None? {
        return false, false;
      }
      if insertFails {
        RollBack(call.value);
        RollBackUndoes(old(lastSeen), icao24, now);
        return false, true;
      }
      return true, false;
    }

    method EvictBefore(cutoff: int)
      modifies this
      ensures lastSeen == Evicted(old(lastSeen), cutoff)
      ensures forall a :: a in lastSeen <==> a in old(lastSeen) && old(lastSeen)[a] >= cutoff
      ensures forall a :: a in lastSeen ==> lastSeen[a] == old(lastSeen)[a]
    {
      var todo := lastSeen.Keys;
      while todo != {}
        invariant todo <= old(lastSeen).Keys
        invariant lastSeen == map a | a in old(lastSeen) && (a in todo || old(lastSeen)[a] >= cutoff) :: old(lastSeen)[a]
        decreases todo
      {
        var a :| a in todo;
        if lastSeen[a] < cutoff {
          lastSeen := lastSeen - {a};
        }
        todo := todo - {a};
      }
    }
  }

  lemma RollBackUndoes(gate: Gate, icao24: string, now: int)
    ensures RolledBack(gate[icao24 := now], Call(icao24, now, Lookup(gate, icao24))) == gate
  {
  }

  // ----- Concurrent calls -----

  /** The writer, its calls in flight (inserting outside the lock) and the rows that reached
      the table. `floor` is what the environment has promised about readings since the last
      eviction: none is older than that. */
  datatype State = State(gate: Gate, inflight: map<nat, Call>, rows: set<(string, int)>, floor: Option<int>)

  datatype Step =
    | Skip(icao24: string, now: int)
    | Enter(id: nat, icao24: string, now: int)
    | Succeed(id: nat)
    | Fail(id: nat)
    | Evict(cutoff: int)

  ghost predicate Init(s: State) {
    s == State(map[], map[], {}, None)
  }

  function Later(floor: Option<int>, t: int): Option<int> {
    if floor.Some? && floor.value >= t then floor else Some(t)
  }

  /** One atomic step. Eviction comes with the promise that every reading entered from then
      on is at or after `cutoff + interval`. */
  ghost predicate Next(interval: int, s: State, step: Step, t: State) {
    match step
    case Skip(a, now) =>
      !Passes(interval, s.gate, a, now) && t == s
    case Enter(id, a, now) =>
      && id !in s.inflight
      && (s.floor.Some? ==> now >= s.floor.value)
      && Passes(interval, s.gate, a, now)
      && t == s.(gate := s.gate[a := now], inflight := s.inflight[id := Call(a, now, Lookup(s.gate, a))])
    case Succeed(id) =>
      && id in s.inflight
      && t == s.(inflight := s.inflight - {id},
                 rows := s.rows + {(s.inflight[id].icao24, s.inflight[id].now)})
    case Fail(id) =>
      && id in s.inflight
      && t == s.(inflight := s.inflight - {id}, gate := RolledBack(s.gate, s.inflight[id]))
    case Evict(cutoff) =>
      t == s.(gate := Evicted(s.gate, cutoff), floor := Later(s.floor, cutoff + interval))
  }

  ghost predicate IsRun(interval: int, states: seq<State>, steps: seq<Step>) {
    && |states| == |steps| + 1
    && Init(states[0])
    && forall i :: 0 <= i < |steps| ==> Next(interval, states[i], steps[i], states[i + 1])
  }

  /** The reservations of one aircraft, oldest first. Those before `base` have been evicted;
      the others are the stack whose top the gate shows. A failed call that was not on top
      leaves its reservation behind. */
  datatype Trail = Trail(times: seq<int>, base: nat)

  ghost predicate Spaced(interval: int, times: seq<int>) {
    forall i, j :: 0 <= i < j < |times| ==> times[j] - times[i] >= interval
  }

  ghost predicate Accounts(t: Trail, c: Call) {
    exists i :: 0 <= i < |t.times| && Reserves(t, c, i)
  }

  ghost predicate Reserves(t: Trail, c: Call, i: int)
    requires 0 <= i < |t.times|
  {
    && t.times[i] == c.now
    && (i == t.base ==> c.prior == None)
    && (i > t.base ==> c.prior == Some(t.times[i - 1]))
  }

  ghost predicate GateOk(interval: int, s: State, a: string, t: Trail) {
    && t.base <= |t.times|
    && Spaced(interval, t.times)
    && Lookup(s.gate, a) == (if t.base < |t.times| then Some(t.times[|t.times| - 1]) else None)
    && (t.base > 0 ==> s.floor.Some? && t.times[t.base - 1] + interval <= s.floor.value)
  }

  ghost predicate CallsOk(s: State, a: string, t: Trail) {
    && (forall id :: id in s.inflight && s.inflight[id].icao24 == a ==> Accounts(t, s.inflight[id]))
    && (forall id, id' :: id in s.inflight && id' in s.inflight && id != id'
          && s.inflight[id].icao24 == a && s.inflight[id'].icao24 == a
          ==> s.inflight[id].now != s.inflight[id'].now)
  }

  ghost predicate RowsOk(s: State, a: string, t: Trail) {
    && (forall id :: id in s.inflight && s.inflight[id].icao24 == a ==> (a, s.inflight[id].now) !in s.rows)
    && (forall r :: r in s.rows && r.0 == a ==> r.1 in t.times)
  }

  ghost predicate Explains(interval: int, s: State, a: string, t: Trail) {
    GateOk(interval, s, a, t) && CallsOk(s, a, t) && RowsOk(s, a, t)
  }

  lemma EnterNewest(interval: int, s: State, step: Step, s': State, a: string, t: Trail)
    requires interval > 0 && step.Enter? && step.icao24 == a
    requires Next(interval, s, step, s') && GateOk(interval, s, a, t)
    ensures forall i :: 0 <= i < |t.times| ==> step.now - t.times[i] >= interval
    ensures GateOk(interval, s', a, t.(times := t.times + [step.now]))
    ensures Reserves(t.(times := t.times + [step.now]), s'.inflight[step.id], |t.times|)
  {
    var n := |t.times|;
    if n > 0 {
      assert step.now - t.times[n - 1] >= interval by {
        if t.base < n {
          assert Lookup(s.gate, a) == Some(t.times[n - 1]);
        }
      }
      assert forall i :: 0 <= i < n - 1 ==> t.times[n - 1] - t.times[i] >= interval;
    }
    assert Spaced(interval, t.times + [step.now]);
  }

  lemma LongerTrailAccounts(t: Trail, now: int, c: Call)
    requires Accounts(t, c)
    ensures Accounts(t.(times := t.times + [now]), c) && c.now in t.times
  {
    var i :| 0 <= i < |t.times| && Reserves(t, c, i);
    assert Reserves(t.(times := t.times + [now]), c, i);
  }

  lemma EnterExplained(interval: int, s: State, step: Step, s': State, a: string, t: Trail) returns (t': Trail)
    requires interval > 0 && step.Enter? && step.icao24 == a
    requires Next(interval, s, step, s') && Explains(interval, s, a, t)
    ensures Explains(interval, s', a, t')
  {
    t' := t.(times := t.times + [step.now]);
    EnterNewest(interval, s, step, s', a, t);
    assert step.now !in t.times;
    forall id | id in s.inflight && s.inflight[id].icao24 == a
      ensures Accounts(t', s.inflight[id]) && s.inflight[id].now != step.now
    {
      LongerTrailAccounts(t, step.now, s.inflight[id]);
    }
    assert CallsOk(s', a, t');
    assert RowsOk(s', a, t');
  }

  lemma ShorterTrailAccounts(t: Trail, c: Call)
    requires t.times != [] && Accounts(t, c) && c.now != t.times[|t.times| - 1]
    ensures Accounts(t.(times := t.times[..|t.times| - 1]), c)
  {
    var i :| 0 <= i < |t.times| && Reserves(t, c, i);
    assert Reserves(t.(times := t.times[..|t.times| - 1]), c, i);
  }

  /** A rolled-back top reservation is the stack's pop: the gate shows the one below. */
  lemma PopGate(interval: int, s: State, c: Call, a: string, t: Trail)
    requires interval > 0 && GateOk(interval, s, a, t) && c.icao24 == a
    requires Lookup(s.gate, a) == Some(c.now) && Accounts(t, c)
    ensures t.times != [] && t.times[|t.times| - 1] == c.now
    ensures GateOk(interval, s.(gate := RolledBack(s.gate, c)), a, t.(times := t.times[..|t.times| - 1]))
  {
    var n := |t.times|;
    var k :| 0 <= k < n && Reserves(t, c, k);
    assert k == n - 1 by {
      assert forall i :: 0 <= i < n - 1 ==> t.times[n - 1] - t.times[i] >= interval;
    }
    var t' := t.(times := t.times[..n - 1]);
    assert Lookup(RolledBack(s.gate, c), a) == c.prior;
    assert t.base < n - 1 ==> t'.times[n - 2] == t.times[n - 2];
    assert Spaced(interval, t'.times);
  }

  lemma PopExplained(interval: int, s: State, step: Step, s': State, a: string, t: Trail) returns (t': Trail)
    requires interval > 0 && step.Fail? && Next(interval, s, step, s') && Explains(interval, s, a, t)
    requires s.inflight[step.id].icao24 == a && Lookup(s.gate, a) == Some(s.inflight[step.id].now)
    ensures Explains(interval, s', a, t')
  {
    var c := s.inflight[step.id];
    PopGate(interval, s, c, a, t);
    t' := t.(times := t.times[..|t.times| - 1]);
    forall id | id in s'.inflight && s'.inflight[id].icao24 == a ensures Accounts(t', s'.inflight[id]) {
      ShorterTrailAccounts(t, s.inflight[id]);
    }
    assert CallsOk(s', a, t');
    forall r | r in s'.rows && r.0 == a ensures r.1 in t'.times {
      var i :| 0 <= i < |t.times| && t.times[i] == r.1;
      assert r != (a, c.now);
      assert t'.times[i] == r.1;
    }
    assert RowsOk(s', a, t');
  }

  lemma EvictExplained(interval: int, s: State, step: Step, s': State, a: string, t: Trail) returns (t': Trail)
    requires interval > 0 && step.Evict? && Next(interval, s, step, s') && Explains(interval, s, a, t)
    requires a in s.gate && s.gate[a] < step.cutoff
    ensures Explains(interval, s', a, t')
  {
    t' := t.(base := |t.times|);
    assert GateOk(interval, s', a, t');
    forall id | id in s.inflight && s.inflight[id].icao24 == a ensures Accounts(t', s.inflight[id]) {
      var i :| 0 <= i < |t.times| && Reserves(t, s.inflight[id], i);
      assert Reserves(t', s.inflight[id], i);
    }
    assert CallsOk(s', a, t');
    assert RowsOk(s', a, t');
  }

  lemma SucceedExplained(interval: int, s: State, step: Step, s': State, a: string, t: Trail)
    requires interval > 0 && step.Succeed? && Next(interval, s, step, s') && Explains(interval, s, a, t)
    ensures Explains(interval, s', a, t)
  {
    var c := s.inflight[step.id];
    assert GateOk(interval, s', a, t);
    assert CallsOk(s', a, t);
    if c.icao24 == a {
      var i :| 0 <= i < |t.times| && Reserves(t, c, i);
      assert c.now in t.times;
    }
    assert RowsOk(s', a, t);
  }

  /** A step that leaves this aircraft's gate, calls and rows alone. */
  lemma OtherExplained(interval: int, s: State, step: Step, s': State, a: string, t: Trail)
    requires interval > 0 && Next(interval, s, step, s') && Explains(interval, s, a, t)
    requires step.Enter? ==> step.icao24 != a
    requires !step.Succeed?
    requires Lookup(s'.gate, a) == Lookup(s.gate, a)
    ensures Explains(interval, s', a, t)
  {
    assert GateOk(interval, s', a, t);
    assert CallsOk(s', a, t);
    assert RowsOk(s', a, t);
  }

  lemma StepExplained(interval: int, s: State, step: Step, s': State, a: string, t: Trail) returns (t': Trail)
    requires interval > 0 && Next(interval, s, step, s') && Explains(interval, s, a, t)
    ensures Explains(interval, s', a, t')
  {
    t' := t;
    if step.Succeed? {
      SucceedExplained(interval, s, step, s', a, t);
    } else if step.Enter? && step.icao24 == a {
      t' := EnterExplained(interval, s, step, s', a, t);
    } else if step.Fail? && s.inflight[step.id].icao24 == a && Lookup(s.gate, a) == Some(s.inflight[step.id].now) {
      t' := PopExplained(interval, s, step, s', a, t);
    } else if step.Evict? && a in s.gate && s.gate[a] < step.cutoff {
      t' := EvictExplained(interval, s, step, s', a, t);
    } else {
      OtherExplained(interval, s, step, s', a, t);
    }
  }

  lemma {:induction false} RunExplained(interval: int, states: seq<State>, steps: seq<Step>, a: string, n: nat)
    returns (t: Trail)
    requires interval > 0 && IsRun(interval, states, steps) && n <= |steps|
    ensures Explains(interval, states[n], a, t)
    decreases n
  {
    if n == 0 {
      t := Trail([], 0);
    } else {
      t := RunExplained(interval, states, steps, a, n - 1);
      t := StepExplained(interval, states[n - 1], steps[n - 1], states[n], a, t);
    }
  }

  /** The downsampling guarantee: under any interleaving of concurrent calls, with any
      inserts failing and evictions in between, the rows of one aircraft stay at least
      `interval` apart. */
  lemma RowsSpaced(interval: int, states: seq<State>, steps: seq<Step>, n: nat, a: string, x: int, y: int)
    requires interval > 0 && IsRun(interval, states, steps) && n <= |steps|
    requires (a, x) in states[n].rows && (a, y) in states[n].rows && x < y
    ensures y - x >= interval
  {
    var t := RunExplained(interval, states, steps, a, n);
    assert (a, x).1 in t.times && (a, y).1 in t.times;
    var i :| 0 <= i < |t.times| && t.times[i] == x;
    var j :| 0 <= j < |t.times| && t.times[j] == y;
    if i < j {
      assert t.times[j] - t.times[i] >= interval;
    }
  }

  /** No reading is ever inserted twice: the row a call writes was not there. */
  lemma RowsOnce(interval: int, states: seq<State>, steps: seq<Step>, n: nat)
    requires interval > 0 && IsRun(interval, states, steps) && n < |steps| && steps[n].Succeed?
    ensures steps[n].id in states[n].inflight
    ensures var c := states[n].inflight[steps[n].id];
      (c.icao24, c.now) !in states[n].rows && (c.icao24, c.now) in states[n + 1].rows
  {
    assert Next(interval, states[n], steps[n], states[n + 1]);
    var c := states[n].inflight[steps[n].id];
    var t := RunExplained(interval, states, steps, c.icao24, n);
  }

  /** A reading whose row is there or still being inserted. */
  ghost predicate Accepted(s: State, a: string, at: int) {
    (a, at) in s.rows || exists id :: id in s.inflight && s.inflight[id].icao24 == a && s.inflight[id].now == at
  }

  ghost predicate Smooth(steps: seq<Step>, n: nat) {
    forall i :: 0 <= i < n && i < |steps| ==> !steps[i].Fail? && !steps[i].Evict?
  }

  /** The gate shows the newest accepted reading. */
  ghost predicate ShowsNewest(s: State, a: string) {
    && (a in s.gate ==> Accepted(s, a, s.gate[a]))
    && (forall at :: Accepted(s, a, at) ==> a in s.gate && at <= s.gate[a])
  }

  lemma AcceptedNext(interval: int, s: State, step: Step, t: State, a: string, at: int)
    requires Next(interval, s, step, t) && !step.Fail? && !step.Evict?
    ensures Accepted(t, a, at) <==> Accepted(s, a, at) || (step.Enter? && step.icao24 == a && step.now == at)
  {
    if id :| id in s.inflight && s.inflight[id].icao24 == a && s.inflight[id].now == at {
      if step != Succeed(id) {
        assert id in t.inflight && t.inflight[id] == s.inflight[id];
      }
    }
    if step.Enter? && step.icao24 == a && step.now == at {
      assert step.id in t.inflight;
    }
  }

  lemma {:induction false} SmoothShowsNewest(interval: int, states: seq<State>, steps: seq<Step>, n: nat, a: string)
    requires interval > 0 && IsRun(interval, states, steps) && n <= |steps| && Smooth(steps, n)
    ensures ShowsNewest(states[n], a)
    decreases n
  {
    if n > 0 {
      SmoothShowsNewest(interval, states, steps, n - 1, a);
      forall at ensures Accepted(states[n], a, at) <==>
        Accepted(states[n - 1], a, at) || (steps[n - 1].Enter? && steps[n - 1].icao24 == a && steps[n - 1].now == at)
      {
        AcceptedNext(interval, states[n - 1], steps[n - 1], states[n], a, at);
      }
    }
  }

  /** As long as nothing has failed or been evicted, a reading is skipped exactly when an accepted one
      of its aircraft is less than an interval older. */
  lemma AcceptedIff(interval: int, states: seq<State>, steps: seq<Step>, n: nat)
    requires interval > 0 && IsRun(interval, states, steps) && n < |steps| && Smooth(steps, n)
    ensures steps[n].Skip? ==> exists at :: Accepted(states[n], steps[n].icao24, at) && steps[n].now - at < interval
    ensures steps[n].Enter? ==> forall at :: Accepted(states[n], steps[n].icao24, at) ==> steps[n].now - at >= interval
  {
    assert Next(interval, states[n], steps[n], states[n + 1]);
    if steps[n].Skip? || steps[n].Enter? {
      SmoothShowsNewest(interval, states, steps, n, steps[n].icao24);
    }
  }

  /** A gate that shows anything but the call's own reading shows a later one, an interval away. */
  lemma ShownBlocks(interval: int, s: State, c: Call, t: Trail)
    requires interval > 0 && GateOk(interval, s, c.icao24, t) && Accounts(t, c)
    requires c.icao24 in s.gate && s.gate[c.icao24] != c.now
    ensures s.gate[c.icao24] - c.now >= interval
  {
    var i :| 0 <= i < |t.times| && Reserves(t, c, i);
    var top := |t.times| - 1;
    assert Lookup(s.gate, c.icao24) == Some(t.times[top]);
    assert i < top;
    assert t.times[top] - t.times[i] >= interval;
  }

  /** What a call found on entry never blocks its own reading. */
  lemma PriorPasses(interval: int, s: State, c: Call, t: Trail)
    requires interval > 0 && GateOk(interval, s, c.icao24, t) && Accounts(t, c)
    requires c.icao24 in s.gate && s.gate[c.icao24] == c.now
    ensures Passes(interval, RolledBack(s.gate, c), c.icao24, c.now)
  {
    var i :| 0 <= i < |t.times| && Reserves(t, c, i);
    var top := |t.times| - 1;
    assert Lookup(s.gate, c.icao24) == Some(t.times[top]);
    assert i == top;
    if top > t.base {
      assert t.times[top] - t.times[top - 1] >= interval;
    }
  }

  /** When a failed insert can be retried, on every run: the same reading passes the gate right
      after the rollback if and only if by then its reservation was still on top, or had been
      evicted. Otherwise a later reservation stands in its way. */
  lemma RetryPassesIff(interval: int, states: seq<State>, steps: seq<Step>, n: nat)
    requires interval > 0 && IsRun(interval, states, steps) && n < |steps| && steps[n].Fail?
    ensures steps[n].id in states[n].inflight
    ensures var c := states[n].inflight[steps[n].id];
      Passes(interval, states[n + 1].gate, c.icao24, c.now)
      <==> c.icao24 !in states[n].gate || states[n].gate[c.icao24] == c.now
  {
    assert Next(interval, states[n], steps[n], states[n + 1]);
    var c := states[n].inflight[steps[n].id];
    var t := RunExplained(interval, states, steps, c.icao24, n);
    assert Accounts(t, c);
    if c.icao24 in states[n].gate {
      if states[n].gate[c.icao24] == c.now {
        PriorPasses(interval, states[n], c, t);
      } else {
        ShownBlocks(interval, states[n], c, t);
      }
    }
  }

  /** A phantom costs samples but never spacing. Two calls overlap and both fail: nothing is written,
      the first reading cannot be retried after its failure, the second's phantom standing in its
      way, and in the end the first's own phantom refuses a later reading. */
  lemma PhantomBlocksRetry() returns (states: seq<State>, steps: seq<Step>)
    ensures IsRun(10, states, steps) && |steps| == 4
    ensures states[|steps|].rows == {} && states[|steps|].inflight == map[]
    ensures steps[0] == Enter(0, "a1", 100) && steps[2] == Fail(0) && !Passes(10, states[3].gate, "a1", 100)
    ensures !Passes(10, states[|steps|].gate, "a1", 105)
  {
    var c0, c1 := Call("a1", 100, None), Call("a1", 110, Some(100));
    steps := [Enter(0, "a1", 100), Enter(1, "a1", 110), Fail(0), Fail(1)];
    states := [
      State(map[], map[], {}, None),
      State(map["a1" := 100], map[0 := c0], {}, None),
      State(map["a1" := 110], map[0 := c0, 1 := c1], {}, None),
      State(map["a1" := 110], map[1 := c1], {}, None),
      State(map["a1" := 100], map[], {}, None)
    ];
    assert Next(10, states[0], steps[0], states[1]);
    assert Next(10, states[1], steps[1], states[2]);
    assert map[0 := c0, 1 := c1] - {0} == map[1 := c1];
    assert Next(10, states[2], steps[2], states[3]);
    assert map[1 := c1] - {1} == map[];
    assert Next(10, states[3], steps[3], states[4]);
  }

  /** Eviction is unobservable to a reading, whatever the gate holds, exactly when the reading
      comes a full interval after the newest entry that can have been evicted. Before that, a
      row just forgotten is followed too soon. */
  lemma EvictionUnobservableIff(interval: int, cutoff: int, now: int)
    ensures (forall gate: Gate, a: string :: Passes(interval, Evicted(gate, cutoff), a, now) == Passes(interval, gate, a, now))
       <==> now - (cutoff - 1) >= interval
  {
    if now - (cutoff - 1) < interval {
      var gate := map["a1" := cutoff - 1];
      assert Passes(interval, Evicted(gate, cutoff), "a1", now) != Passes(interval, gate, "a1", now);
    }
  }
}
