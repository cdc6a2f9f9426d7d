/** The Python server's `/api/deepgram` WebSocket handler: one object per
    client socket. Sends that the SDK reports as failed trigger a reconnect;
    the callbacks registered by `setup_deepgram` are never removed, and they
    forward events only while the socket's application state is CONNECTED.
    What the SDK reports (start and send results) and the socket's state
    changes are parameters or environment steps. */
module RelayPy {
  import opened Common

  /** Starlette's `WebSocketState` as seen through `application_state`. */
  datatype WsState = WsConnecting | WsConnected | WsDisconnected

  /** One connection made by `setup_deepgram`. */
  datatype DgConnection = DgConnection(started: bool, finishCalls: nat, audio: seq<Bytes>)

  /** A connection straight after `start(live_options)` returned `started`. */
  function NewConnection(started: bool): DgConnection
  {
    DgConnection(started, 0, [])
  }

  /** `await connection.finish()` */
  function Finish(d: DgConnection): DgConnection
  {
    d.(finishCalls := d.finishCalls + 1)
  }

  class DeepgramSocket {
    /** Every connection this handler has made, oldest first. */
    var connections: seq<DgConnection>
    /** The `dg_connection` variable: an index into `connections`. */
    var current: nat
    var applicationState: WsState
    /** Everything `websocket.send_text` has sent, as `str(payload)`. */
    var outbox: seq<string>
    /** The handler is still in its `while True` receive loop. */
    var receiving: bool

    ghost predicate Valid()
      reads this
    {
      |connections| > 0 && current == |connections| - 1
    }

    /** `await websocket.accept()` and the first `setup_deepgram`, whose
        `start` returned `started`. */
    constructor (started: bool)
      ensures Valid()
      ensures connections == [NewConnection(started)] && current == 0
      ensures applicationState == WsConnected && outbox == [] && receiving
    {
      connections := [NewConnection(started)];
      current := 0;
      applicationState := WsConnected;
      outbox := [];
      receiving := true;
    }

    /** One turn of the receive loop: `data` arrived and `dg_connection.send`
        reported `sent`. On failure the connection is finished and replaced by
        one whose `start` returned `started`; the chunk is not sent again. */
    method OnReceiveBytes(data: Bytes, sent: bool, started: bool)
      requires Valid() && receiving
      modifies this
      ensures Valid()
      ensures sent ==>
        connections == old(connections)[old(current) := old(connections[current]).(audio := old(connections[current].audio) + [data])]
      ensures !sent ==>
        connections == old(connections)[old(current) := Finish(old(connections[current]))] + [NewConnection(started)]
      ensures !sent ==> current == |old(connections)| && current != old(current)
      ensures applicationState == old(applicationState) && outbox == old(outbox) && receiving
    {
      if sent {
        connections := connections[current := connections[current].(audio := connections[current].audio + [data])];
      } else {
        connections := connections[current := Finish(connections[current])];
        connections := connections + [NewConnection(started)];
        current := |connections| - 1;
      }
    }

    /** `WebSocketDisconnect` ends the loop; the handler finishes the
        connection it holds. */
    method OnDisconnect()
      requires Valid() && receiving
      modifies this
      ensures Valid()
      ensures connections == old(connections)[old(current) := Finish(old(connections[current]))]
      ensures current == old(current) && !receiving
      ensures applicationState == old(applicationState) && outbox == old(outbox)
    {
      connections := connections[current := Finish(connections[current])];
      receiving := false;
    }

    /** The socket's application state changes underneath the handler. */
    method OnApplicationState(state: WsState)
      modifies this
      ensures applicationState == state
      ensures connections == old(connections) && current == old(current)
      ensures outbox == old(outbox) && receiving == old(receiving)
    {
      applicationState := state;
    }

    /** The body shared by `on_transcript`, `on_metadata` and
        `on_utterance_end`: send the payload only while CONNECTED. */
    method SendIfConnected(payload: string)
      modifies this
      ensures outbox == old(outbox) + (if old(applicationState) == WsConnected then [payload] else [])
      ensures connections == old(connections) && current == old(current)
      ensures applicationState == old(applicationState) && receiving == old(receiving)
    {
      if applicationState == WsConnected {
        outbox := outbox + [payload];
      }
    }

    /** A Transcript event on connection `k`, current or replaced: the
        callbacks stay registered, so both reach the client. */
    method OnTranscript(k: nat, result: string)
      requires Valid() && k < |connections|
      modifies this
      ensures Valid()
      ensures outbox == old(outbox) + (if old(applicationState) == WsConnected then [result] else [])
      ensures connections == old(connections) && current == old(current)
      ensures applicationState == old(applicationState) && receiving == old(receiving)
    {
      SendIfConnected(result);
    }

    /** A Metadata event on connection `k`: sent as `str(metadata)`, with no
        envelope. */
    method OnMetadata(k: nat, metadata: string)
      requires Valid() && k < |connections|
      modifies this
      ensures Valid()
      ensures outbox == old(outbox) + (if old(applicationState) == WsConnected then [metadata] else [])
      ensures connections == old(connections) && current == old(current)
      ensures applicationState == old(applicationState) && receiving == old(receiving)
    {
      SendIfConnected(metadata);
    }

    /** An UtteranceEnd event on connection `k`. */
    method OnUtteranceEnd(k: nat, utteranceEnd: string)
      requires Valid() && k < |connections|
      modifies this
      ensures Valid()
      ensures outbox == old(outbox) + (if old(applicationState) == WsConnected then [utteranceEnd] else [])
      ensures connections == old(connections) && current == old(current)
      ensures applicationState == old(applicationState) && receiving == old(receiving)
    {
      SendIfConnected(utteranceEnd);
    }

    /** A Close event on connection `k`: `on_close` finishes that connection. */
    method OnClose(k: nat)
      requires Valid() && k < |connections|
      modifies this
      ensures Valid()
      ensures connections == old(connections)[k := Finish(old(connections[k]))]
      ensures current == old(current) && outbox == old(outbox)
      ensures applicationState == old(applicationState) && receiving == old(receiving)
    {
      connections := connections[k := Finish(connections[k])];
    }
  }
}
