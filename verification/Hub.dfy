/** The WebSocket fan-out hub (cmd/apigateway/ws_hub.go). */
module Hub {
  import opened Geo
  import opened FlightStream

  /** wsSendBufferSize. */
  const SEND_BUFFER: nat := 64

  /** One connected client: its viewport and the bounded channel the hub fills. */
  class WsClient {
    var send: seq<FlightStateMessage>
    var bbox: BBox

    constructor (box: BBox)
      ensures send == [] && bbox == box
    {
      send := [];
      bbox := box;
    }

    method SetBBox(box: BBox)
      modifies this`bbox
      ensures bbox == box
    {
      bbox := box;
    }
  }

  /** What a broadcast does to one client's channel: out-of-view messages are filtered and a
      full channel drops the message. */
  function Offer(queue: seq<FlightStateMessage>, box: BBox, msg: FlightStateMessage): seq<FlightStateMessage> {
    if box.Contains(msg.state.position) && |queue| < SEND_BUFFER then queue + [msg] else queue
  }

  class WsHub {
    var clients: set<WsClient>

    constructor ()
      ensures clients == {}
    {
      clients := {};
    }

    method Register(c: WsClient)
      modifies this
      ensures clients == old(clients) + {c}
    {
      clients := clients + {c};
    }

    method Unregister(c: WsClient)
      modifies this
      ensures clients == old(clients) - {c}
    {
      clients := clients - {c};
    }

    /** Every registered client is offered the message on its own terms: no client's full
        channel or viewport affects what another one receives. */
    method Broadcast(msg: FlightStateMessage)
      modifies clients`send
      ensures forall c :: c in clients ==> c.send == Offer(old(c.send), c.bbox, msg)
    {
      var todo := clients;
      while todo != {}
        invariant todo <= clients
        invariant forall c :: c in todo ==> c.send == old(c.send)
        invariant forall c :: c in clients - todo ==> c.send == Offer(old(c.send), c.bbox, msg)
        decreases todo
      {
        var c :| c in todo;
        if c.bbox.Contains(msg.state.position) {
          if |c.send| < SEND_BUFFER {
            c.send := c.send + [msg];
          }
        }
        todo := todo - {c};
      }
    }
  }

  function OfferAll(queue: seq<FlightStateMessage>, box: BBox, msgs: seq<FlightStateMessage>): seq<FlightStateMessage>
    decreases |msgs|
  {
    if msgs == [] then queue else OfferAll(Offer(queue, box, msgs[0]), box, msgs[1..])
  }

  function Visible(box: BBox, msgs: seq<FlightStateMessage>): seq<FlightStateMessage> {
    if msgs == [] then []
    else (if box.Contains(msgs[0].state.position) then [msgs[0]] else []) + Visible(box, msgs[1..])
  }

  /** A client that reads nothing holds the first SEND_BUFFER messages of its viewport: the
      hub drops the newest, never reorders, and never evicts what is queued. */
  lemma {:induction false} UnreadQueueIsPrefix(queue: seq<FlightStateMessage>, box: BBox, msgs: seq<FlightStateMessage>)
    requires |queue| <= SEND_BUFFER
    ensures var all := queue + Visible(box, msgs);
      OfferAll(queue, box, msgs) == all[..if |all| <= SEND_BUFFER then |all| else SEND_BUFFER]
    decreases |msgs|
  {
    if msgs != [] {
      var q := Offer(queue, box, msgs[0]);
      UnreadQueueIsPrefix(q, box, msgs[1..]);
      if box.Contains(msgs[0].state.position) {
        assert queue + Visible(box, msgs) == (queue + [msgs[0]]) + Visible(box, msgs[1..]);
        if |queue| == SEND_BUFFER {
          assert (queue + Visible(box, msgs))[..SEND_BUFFER] == queue;
          assert (queue + Visible(box, msgs[1..]))[..SEND_BUFFER] == queue;
        }
      } else {
        assert Visible(box, msgs) == Visible(box, msgs[1..]);
      }
    } else {
      assert queue + Visible(box, msgs) == queue;
    }
  }
}
