/** The browser's reconnecting client (web/src/api/ws.ts). */
module BrowserClient {
  import opened Prelude
  import opened Filtering
  import opened Gateway
  import opened Geo

  /** The resume point, the updates handed to `onFlightUpdate` and the number of
      `onResumeFailed` calls. */
  datatype Progress = Progress(lastSeq: Option<nat>, passed: seq<nat>, failures: nat)

  /** The effect of one server message. A sequence number of 0 is omitted on the wire, so an
      acknowledgement carrying it sets nothing. */
  function Receive(p: Progress, m: ServerMessage): Progress {
    match m
    case Subscribed(n) => if n == 0 then p else p.(lastSeq := Some(n))
    case FlightUpdate(n) => p.(lastSeq := if n == 0 then p.lastSeq else Some(n), passed := p.passed + [n])
    case ResumeFailed => p.(lastSeq := None, failures := p.failures + 1)
  }

  function ReceiveAll(ms: seq<ServerMessage>): Progress {
    if ms == [] then Progress(None, [], 0) else Receive(ReceiveAll(ms[..|ms| - 1]), ms[|ms| - 1])
  }

  /** Message `i` is the last to tell the browser where it is: it carries the number `n`, not 0, and
      neither a number nor a failed resume has come since. */
  ghost predicate TellsLast(ms: seq<ServerMessage>, i: int, n: nat) {
    && 0 <= i < |ms| && n > 0 && !ms[i].ResumeFailed? && ms[i].sequence == n
    && forall j :: i < j < |ms| ==> !ms[j].ResumeFailed? && ms[j].sequence == 0
  }

  /** The resume point after any messages is the last number heard since the last failed resume. */
  lemma {:induction false} ResumePointExact(ms: seq<ServerMessage>, n: nat)
    ensures ReceiveAll(ms).lastSeq == Some(n) <==> exists i :: TellsLast(ms, i, n)
  {
    if ms != [] {
      var init, last := ms[..|ms| - 1], |ms| - 1;
      ResumePointExact(init, n);
      if i :| TellsLast(init, i, n) && !ms[last].ResumeFailed? && ms[last].sequence == 0 {
        assert TellsLast(ms, i, n);
      }
      if i :| TellsLast(ms, i, n) && i < last {
        assert TellsLast(init, i, n);
      }
      assert TellsLast(ms, last, n) <==> n > 0 && !ms[last].ResumeFailed? && ms[last].sequence == n;
    }
  }

  /** The updates passed on are exactly those received, in order, and each failed resume is told once. */
  lemma {:induction false} PassedOnExact(ms: seq<ServerMessage>)
    ensures var updates := Filter(ms, (m: ServerMessage) => m.FlightUpdate?);
      && |ReceiveAll(ms).passed| == |updates|
      && forall i :: 0 <= i < |updates| ==> updates[i] == FlightUpdate(ReceiveAll(ms).passed[i])
    ensures ReceiveAll(ms).failures == |Filter(ms, (m: ServerMessage) => m.ResumeFailed?)|
  {
    if ms != [] {
      PassedOnExact(ms[..|ms| - 1]);
    }
  }

  class FlightSocket {
    var lastSeq: Option<nat>
    var passed: seq<nat>
    var failures: nat
    var bbox: BBox
    var connected: bool
    var closedByCaller: bool
    var reconnectAttempt: nat

    constructor (box: BBox)
      ensures State() == Progress(None, [], 0) && bbox == box
      ensures !connected && !closedByCaller && reconnectAttempt == 0
    {
      lastSeq, passed, failures := None, [], 0;
      bbox := box;
      connected, closedByCaller, reconnectAttempt := false, false, 0;
    }

    function State(): Progress
      reads this
    {
      Progress(lastSeq, passed, failures)
    }

    /** `onopen`: the subscribe message carries the current viewport and the resume point. */
    method OnOpen() returns (box: BBox, resumeFrom: Option<nat>)
      modifies this`connected
      ensures connected && box == bbox && resumeFrom == lastSeq
    {
      connected := true;
      box, resumeFrom := bbox, lastSeq;
    }

    method OnMessage(m: ServerMessage)
      modifies this`lastSeq, this`passed, this`failures, this`reconnectAttempt
      ensures State() == Receive(old(State()), m)
      ensures reconnectAttempt == if m.Subscribed? then 0 else old(reconnectAttempt)
    {
      match m {
        case Subscribed(n) =>
          reconnectAttempt := 0;
          if n != 0 {
            lastSeq := Some(n);
          }
        case FlightUpdate(n) =>
          if n != 0 {
            lastSeq := Some(n);
          }
          passed := passed + [n];
        case ResumeFailed =>
          lastSeq := None;
          failures := failures + 1;
      }
    }

    /** `onclose`: a reconnect is scheduled unless the caller closed the socket; the resume
        point survives either way. */
    method OnClose() returns (retryAfterMs: Option<nat>)
      modifies this`connected, this`reconnectAttempt
      ensures !connected
      ensures retryAfterMs.Some? <==> !closedByCaller
      ensures retryAfterMs.Some? ==>
        retryAfterMs.value == Backoff(old(reconnectAttempt)) && reconnectAttempt == old(reconnectAttempt) + 1
      ensures retryAfterMs.None? ==> reconnectAttempt == old(reconnectAttempt)
    {
      connected := false;
      if closedByCaller {
        return None;
      }
      retryAfterMs := Some(Backoff(reconnectAttempt));
      reconnectAttempt := reconnectAttempt + 1;
    }

    /** `close`: whatever closes the socket from now on, nothing reconnects it. */
    method Close()
      modifies this`closedByCaller
      ensures closedByCaller
    {
      closedByCaller := true;
    }

    /** `updateBBox`: remembered for the next connect, and sent now if one is open. */
    method UpdateBBox(box: BBox) returns (sent: bool)
      modifies this`bbox
      ensures bbox == box && sent == connected
    {
      bbox := box;
      sent := connected;
    }
  }

  function Pow2(n: nat): nat {
    if n == 0 then 1 else 2 * Pow2(n - 1)
  }

  /** The reconnect delay: 1 s doubled per failed attempt, at most 30 s. */
  function Backoff(attempt: nat): nat {
    var d := 1000 * Pow2(attempt);
    if d <= 30_000 then d else 30_000
  }

  /** The delay never shrinks while attempts keep failing, and settles at 30 s exactly from
      the sixth attempt on. */
  lemma {:induction false} BackoffGrows(a: nat, b: nat)
    requires a <= b
    ensures 1000 <= Backoff(a) <= Backoff(b) <= 30_000
    ensures Backoff(0) == 1000 && (b > 0 && Backoff(b) < 30_000 ==> Backoff(b) == 2 * Backoff(b - 1))
    ensures Backoff(b) == 30_000 <==> b >= 5
    ensures Pow2(a) <= Pow2(b)
    decreases b
  {
    if a < b {
      BackoffGrows(a, b - 1);
    } else if b > 0 {
      BackoffGrows(b - 1, b - 1);
    }
  }
}
