/**
 * The real-time channel client (wsService.ts): one WebSocket per call, a
 * list of transcript listeners, guarded sending of audio frames, and close.
 * The browser's WebSocket is modelled by the Socket class below, with its
 * ready state changed only by the client's calls and by the two events the
 * network delivers (opened, closed).
 */
module CallChannel {
  import opened Wrappers
  import opened Values
  import Decimal

  const SocketUrlPrefix := "ws://localhost:8000/ws/calls/"

  /** `ws://localhost:8000/ws/calls/${callId}/`. */
  function SocketUrl(callId: nat): (url: string)
    ensures SocketUrlPrefix <= url && url[|url| - 1] == '/'
  {
    SocketUrlPrefix + Decimal.NatToDecimal(callId) + "/"
  }

  /** Each call has its own socket path. */
  lemma SocketUrlInjective(a: nat, b: nat)
    requires SocketUrl(a) == SocketUrl(b)
    ensures a == b
  {
    var n := |SocketUrlPrefix|;
    var da, db := Decimal.NatToDecimal(a), Decimal.NatToDecimal(b);
    assert da == SocketUrl(a)[n..|SocketUrl(a)| - 1];
    assert db == SocketUrl(b)[n..|SocketUrl(b)| - 1];
    Decimal.NatToDecimalInjective(a, b);
  }

  datatype ReadyState = Connecting | Open | Closing | Closed

  type Frame = seq<Byte>

  /** The browser's WebSocket, seen through its ready state and the frames handed to it. */
  class Socket {
    const url: string
    var readyState: ReadyState
    var sent: seq<Frame>

    constructor(url: string)
      ensures this.url == url && readyState == Connecting && sent == []
    {
      this.url := url;
      readyState := Connecting;
      sent := [];
    }

    /** The handshake completed. */
    method Opened()
      requires readyState == Connecting
      modifies this
      ensures readyState == Open && sent == old(sent)
    {
      readyState := Open;
    }

    /** The connection went down, by either side's doing. */
    method ConnectionLost()
      modifies this
      ensures readyState == Closed && sent == old(sent)
    {
      readyState := Closed;
    }

    method Send(frame: Frame)
      requires readyState == Open
      modifies this
      ensures sent == old(sent) + [frame] && readyState == Open
    {
      sent := sent + [frame];
    }

    /** close(): a connecting or open socket starts closing; otherwise nothing happens. */
    method Close()
      modifies this
      ensures readyState == (if old(readyState) in {Connecting, Open} then Closing else old(readyState))
      ensures sent == old(sent)
    {
      if readyState == Connecting || readyState == Open {
        readyState := Closing;
      }
    }
  }

  /** A registered callback, known by its identity; the same one may be registered twice. */
  type Listener = nat

  /** One call `cb(data)` made while dispatching a message. */
  datatype Delivery = Delivery(listener: Listener, data: Json)

  /** What dispatching `data` to `listeners` amounts to: each listener once, in registration order. */
  function Deliveries(listeners: seq<Listener>, data: Json): (r: seq<Delivery>)
    ensures |r| == |listeners|
    ensures forall i | 0 <= i < |r| :: r[i] == Delivery(listeners[i], data)
  {
    seq(|listeners|, i requires 0 <= i < |listeners| => Delivery(listeners[i], data))
  }

  /** The index of the first listener that throws on this message, or the list's length when none does. */
  function FirstThrow(listeners: seq<Listener>, throws: Listener -> bool): (r: nat)
    ensures r <= |listeners|
    ensures forall k | 0 <= k < r :: !throws(listeners[k])
    ensures r < |listeners| ==> throws(listeners[r])
  {
    if listeners == [] then 0
    else if throws(listeners[0]) then 0
    else 1 + FirstThrow(listeners[1..], throws)
  }

  /** How many listeners `forEach` reaches: up to and including the first one that throws. */
  function Reached(listeners: seq<Listener>, throws: Listener -> bool): (n: nat)
    ensures n <= |listeners|
    ensures forall k | 0 <= k < n - 1 :: !throws(listeners[k])
    ensures n < |listeners| ==> n > 0 && throws(listeners[n - 1])
  {
    var f := FirstThrow(listeners, throws);
    if f < |listeners| then f + 1 else f
  }

  /** When no listener throws, every listener receives the message. */
  lemma NoThrowReachesAll(listeners: seq<Listener>, throws: Listener -> bool)
    requires forall k | 0 <= k < |listeners| :: !throws(listeners[k])
    ensures Reached(listeners, throws) == |listeners|
  {
  }

  /** A listener that throws ends the dispatch: the listeners after it miss the message. */
  lemma ThrowStopsDispatch(listeners: seq<Listener>, throws: Listener -> bool, j: nat)
    requires j < |listeners| && throws(listeners[j])
    ensures Reached(listeners, throws) <= j + 1
  {
  }

  class CallWebSocket {
    var ws: Socket?
    var listeners: seq<Listener>

    constructor(callId: nat)
      ensures ws != null && fresh(ws)
      ensures ws.url == SocketUrl(callId) && ws.readyState == Connecting && ws.sent == []
      ensures listeners == []
    {
      ws := new Socket(SocketUrl(callId));
      listeners := [];
    }

    /**
     * `ws.onmessage`: the event text is parsed once and the same value is handed
     * to the listeners in registration order. Text that does not parse makes
     * JSON.parse throw before any listener runs, and a listener that throws ends
     * the `forEach`. `parse` stands for JSON.parse; `throws` says which
     * listeners throw on this message.
     */
    method OnMessage(eventData: string, parse: string -> Option<Json>, throws: Listener -> bool)
        returns (calls: seq<Delivery>)
      ensures parse(eventData).None? ==> calls == []
      ensures parse(eventData).Some? ==>
                calls == Deliveries(listeners[..Reached(listeners, throws)], parse(eventData).value)
    {
      calls := [];
      var parsed := parse(eventData);
      if parsed.None? {
        return;
      }
      var data := parsed.value;
      var i := 0;
      var thrown := false;
      while i < |listeners| && !thrown
        invariant 0 <= i <= |listeners|
        invariant |calls| == i
        invariant forall k | 0 <= k < i :: calls[k] == Delivery(listeners[k], data)
        invariant thrown <==> i > 0 && throws(listeners[i - 1])
        invariant forall k | 0 <= k < i - 1 :: !throws(listeners[k])
      {
        calls := calls + [Delivery(listeners[i], data)];
        thrown := throws(listeners[i]);
        i := i + 1;
      }
      assert i == Reached(listeners, throws);
    }

    /** sendAudioChunk: only an existing, open socket transmits; otherwise the frame is dropped without an error. */
    method SendAudioChunk(chunk: Frame)
      modifies ws
      ensures ws == old(ws) && listeners == old(listeners)
      ensures ws != null ==> ws.readyState == old(ws.readyState)
      ensures ws != null && old(ws.readyState) == Open ==> ws.sent == old(ws.sent) + [chunk]
      ensures ws != null && old(ws.readyState) != Open ==> ws.sent == old(ws.sent)
    {
      if ws != null && ws.readyState == Open {
        ws.Send(chunk);
      }
    }

    /** onTranscript: the callback goes to the end of the list; earlier ones keep their places. */
    method OnTranscript(cb: Listener)
      modifies this`listeners
      ensures listeners == old(listeners) + [cb]
      ensures listeners[..|old(listeners)|] == old(listeners) && listeners[|listeners| - 1] == cb
    {
      listeners := listeners + [cb];
    }

    /** close: closes the socket if there is one; the field and the listener list are kept. */
    method Close()
      modifies ws
      ensures ws == old(ws) && listeners == old(listeners)
      ensures ws != null ==> ws.sent == old(ws.sent)
      ensures ws != null ==> ws.readyState == (if old(ws.readyState) in {Connecting, Open} then Closing else old(ws.readyState))
    {
      if ws != null {
        ws.Close();
      }
    }
  }

  /** Once closed by the client, the channel drops every chunk until the socket is replaced. */
  method CloseThenSend(channel: CallWebSocket, chunk: Frame)
    requires channel.ws != null
    modifies channel.ws
    ensures channel.ws.sent == old(channel.ws.sent)
  {
    channel.Close();
    channel.SendAudioChunk(chunk);
  }
}
