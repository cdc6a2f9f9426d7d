/** The Node server's audio relay: every client WebSocket is bound to one live
    speech-recognition session, which is replaced on the next audio chunk once
    it is closing or closed. The speech SDK is not modelled: its sessions are
    records in a table, and its readiness changes and events are environment
    steps (the `OnBackend...` methods). */
module RelayJs {
  import opened Common

  type ClientId = nat
  type SessionId = nat

  /** A serialised event payload. */
  type Json = string

  /** What the server sends to a client: a backend event as received, or a
      metadata event wrapped as `{metadata: data}`. */
  datatype ClientMessage = Verbatim(json: Json) | MetadataEnvelope(metadata: Json)

  /** One backend session created by `setupDeepgram(ws)`.
      `openListener` is the Open listener added at creation; `eventListeners`
      are the Transcript, Close, Error, Warning, Metadata and UtteranceEnd
      listeners that the Open listener adds. */
  datatype Session = Session(
    owner: ClientId,
    readiness: ReadyState,
    openListener: bool,
    eventListeners: bool,
    finishCalls: nat,
    keepAlives: nat,
    audio: seq<Bytes>)

  /** One `setInterval` handle; the interval calls `keepAlive()` on `target`. */
  datatype Timer = Timer(target: SessionId, active: bool)

  /** A session straight out of `listen.live(...)` with its Open listener. */
  function NewSession(owner: ClientId): Session
  {
    Session(owner, CONNECTING, true, false, 0, 0, [])
  }

  /** `session.finish()` */
  function Finish(s: Session): Session
  {
    s.(finishCalls := s.finishCalls + 1)
  }

  /** `session.removeAllListeners()` */
  function Detach(s: Session): Session
  {
    s.(openListener := false, eventListeners := false)
  }

  /** `clearInterval(handle)`; clearing `undefined` does nothing. */
  function ClearTimer(timers: seq<Timer>, handle: Option<nat>): (r: seq<Timer>)
    ensures |r| == |timers|
    ensures forall i :: 0 <= i < |r| ==> r[i].target == timers[i].target
    ensures forall i :: 0 <= i < |r| ==> r[i].active == (timers[i].active && handle != Some(i))
  {
    if handle.Some? && handle.value < |timers| then
      timers[handle.value := timers[handle.value].(active := false)]
    else
      timers
  }

  class Relay {
    /** Every session ever created, indexed by id. */
    var sessions: seq<Session>
    /** The `deepgram` variable of each connection handler; `None` once the
        client has disconnected (`deepgram = null`). */
    var bindings: map<ClientId, Option<SessionId>>
    /** Everything `ws.send` has sent to each client. */
    var outbox: map<ClientId, seq<ClientMessage>>
    /** Every interval ever armed, indexed by handle. */
    var timers: seq<Timer>
    /** The module-level `keepAlive` variable: the last handle armed. */
    var keepAlive: Option<nat>

    /** Session `s` is the one its client's handler currently holds. */
    ghost predicate Bound(s: SessionId)
      reads this
      requires s < |sessions|
    {
      sessions[s].owner in bindings && bindings[sessions[s].owner] == Some(s)
    }

    ghost predicate Valid()
      reads this
    {
      && bindings.Keys == outbox.Keys
      // each handler holds a session created for its own client
      && (forall c :: c in bindings && bindings[c].Some? ==>
            bindings[c].value < |sessions| && sessions[bindings[c].value].owner == c)
      && (forall s :: 0 <= s < |sessions| ==> sessions[s].owner in bindings)
      // a session nobody holds has no listeners left: no listener outlives its session
      && (forall s :: 0 <= s < |sessions| && !Bound(s) ==>
            !sessions[s].openListener && !sessions[s].eventListeners)
      // listeners for events are only ever added by the Open listener, on Open
      && (forall s :: 0 <= s < |sessions| && sessions[s].eventListeners ==> sessions[s].readiness != CONNECTING)
      && |timers| == |sessions|
      && TimersValid()
    }

    /** One interval per session, aimed at it; only the last one armed can be
        running. */
    ghost predicate TimersValid()
      reads this
    {
      && (forall i :: 0 <= i < |timers| ==> timers[i].target == i)
      && (keepAlive.Some? ==> keepAlive.value == |timers| - 1)
      && (forall i :: 0 <= i < |timers| && timers[i].active ==> keepAlive == Some(i))
    }

    constructor ()
      ensures Valid()
      ensures sessions == [] && bindings == map[] && outbox == map[] && timers == [] && keepAlive == None
    {
      sessions, bindings, outbox, timers, keepAlive := [], map[], map[], [], None;
    }

    /** `setupDeepgram(ws)`: open a session for client `c`, stop the previous
        keepalive interval and arm a new one aimed at the new session. */
    method SetupDeepgram(c: ClientId) returns (s: SessionId)
      requires TimersValid() && |timers| == |sessions|
      modifies this
      ensures s == |old(sessions)| && sessions == old(sessions) + [NewSession(c)]
      ensures timers == ClearTimer(old(timers), old(keepAlive)) + [Timer(s, true)]
      ensures keepAlive == Some(|old(timers)|)
      ensures bindings == old(bindings) && outbox == old(outbox)
      ensures TimersValid() && |timers| == |sessions|
    {
      s := |sessions|;
      sessions := sessions + [NewSession(c)];
      ghost var armed := timers;
      timers := ClearTimer(timers, keepAlive);
      keepAlive := Some(|timers|);
      timers := timers + [Timer(s, true)];
      // an interval still running before was the one `keepAlive` named, so
      // it has just been cleared: only the new one runs
      forall i | 0 <= i < |timers| && timers[i].active
        ensures i == |armed|
      {
      }
    }

    /** `wss.on("connection")` for a new client socket `c`. */
    method OnConnection(c: ClientId)
      requires Valid() && c !in bindings
      modifies this
      ensures Valid()
      ensures sessions == old(sessions) + [NewSession(c)]
      ensures bindings == old(bindings)[c := Some(|old(sessions)|)]
      ensures outbox == old(outbox)[c := []]
      ensures timers == ClearTimer(old(timers), old(keepAlive)) + [Timer(|old(sessions)|, true)]
      ensures keepAlive == Some(|old(sessions)|)
    {
      ghost var before := sessions;
      var s := SetupDeepgram(c);
      bindings := bindings[c := Some(s)];
      outbox := outbox[c := []];
      forall t | 0 <= t < |before|
        ensures sessions[t] == before[t] && (Bound(t) <==> old(Bound(t)))
      {
        assert sessions[t].owner != c;
      }
    }

    /** `ws.on("message")`: an audio chunk from client `c`, dispatched on the
        readiness of the session its handler holds. */
    method OnClientMessage(c: ClientId, chunk: Bytes)
      requires Valid() && c in bindings && bindings[c].Some?
      modifies this
      ensures Valid()
      ensures outbox == old(outbox)
      // Open: the chunk goes to the bound session, nothing else changes
      ensures old(sessions[bindings[c].value].readiness) == OPEN ==>
        var s := old(bindings[c].value);
        && sessions == old(sessions)[s := old(sessions[s]).(audio := old(sessions[s].audio) + [chunk])]
        && bindings == old(bindings) && timers == old(timers) && keepAlive == old(keepAlive)
      // Closing or Closed: the dead session is finished and detached, a new
      // one is bound, and the chunk is dropped
      ensures old(sessions[bindings[c].value].readiness) >= CLOSING ==>
        var s, n := old(bindings[c].value), |old(sessions)|;
        && sessions == old(sessions)[s := Detach(Finish(old(sessions[s])))] + [NewSession(c)]
        && bindings == old(bindings)[c := Some(n)]
        && timers == ClearTimer(old(timers), old(keepAlive)) + [Timer(n, true)]
        && keepAlive == Some(n)
      // Connecting: the chunk is dropped and nothing changes
      ensures old(sessions[bindings[c].value].readiness) == CONNECTING ==>
        sessions == old(sessions) && bindings == old(bindings) && timers == old(timers) && keepAlive == old(keepAlive)
    {
      var s := bindings[c].value;
      var readiness := sessions[s].readiness;
      if readiness == OPEN {
        sessions := sessions[s := sessions[s].(audio := sessions[s].audio + [chunk])];
        forall t | 0 <= t < |sessions|
          ensures (Bound(t) <==> old(Bound(t))) && sessions[t].openListener == old(sessions[t].openListener)
        {
        }
      } else if readiness >= CLOSING {
        Reconnect(c);
      }
    }

    /** The reconnect branch of `ws.on("message")`: finish the dead session,
        remove its listeners and bind a fresh one to the same client. */
    method Reconnect(c: ClientId)
      requires Valid() && c in bindings && bindings[c].Some?
      requires sessions[bindings[c].value].readiness >= CLOSING
      modifies this
      ensures Valid()
      ensures var s, n := old(bindings[c].value), |old(sessions)|;
        && sessions == old(sessions)[s := Detach(Finish(old(sessions[s])))] + [NewSession(c)]
        && bindings == old(bindings)[c := Some(n)]
        && timers == ClearTimer(old(timers), old(keepAlive)) + [Timer(n, true)]
        && keepAlive == Some(n)
      ensures outbox == old(outbox)
    {
      Retire(bindings[c].value);
      Rebind(c);
    }

    /** `deepgram.finish()` then `deepgram.removeAllListeners()` on session `s`. */
    method Retire(s: SessionId)
      requires Valid() && s < |sessions|
      modifies this
      ensures Valid()
      ensures sessions == old(sessions)[s := Detach(Finish(old(sessions[s])))]
      ensures bindings == old(bindings) && outbox == old(outbox) && timers == old(timers) && keepAlive == old(keepAlive)
    {
      sessions := sessions[s := Detach(Finish(sessions[s]))];
      forall t | 0 <= t < |sessions|
        ensures Bound(t) <==> old(Bound(t))
      {
        assert sessions[t].owner == old(sessions[t].owner);
      }
    }

    /** `deepgram = setupDeepgram(ws)` for a client whose held session has no
        listeners left. */
    method Rebind(c: ClientId)
      requires Valid() && c in bindings && bindings[c].Some?
      requires !sessions[bindings[c].value].openListener && !sessions[bindings[c].value].eventListeners
      modifies this
      ensures Valid()
      ensures sessions == old(sessions) + [NewSession(c)]
      ensures bindings == old(bindings)[c := Some(|old(sessions)|)]
      ensures timers == ClearTimer(old(timers), old(keepAlive)) + [Timer(|old(sessions)|, true)]
      ensures keepAlive == Some(|old(sessions)|)
      ensures outbox == old(outbox)
    {
      ghost var before := sessions;
      ghost var held := bindings[c].value;
      var replacement := SetupDeepgram(c);
      bindings := bindings[c := Some(replacement)];
      forall t | 0 <= t < |before| && t != held
        ensures sessions[t] == before[t] && (Bound(t) <==> old(Bound(t)))
      {
      }
      assert sessions[held] == before[held];
    }

    /** `ws.on("close")`: finish the held session if it is Open, detach its
        listeners either way, and let go of it. */
    method OnClientClose(c: ClientId)
      requires Valid() && c in bindings && bindings[c].Some?
      modifies this
      ensures Valid()
      ensures var s := old(bindings[c].value);
        var finished := if old(sessions[s].readiness) == OPEN then Finish(old(sessions[s])) else old(sessions[s]);
        sessions == old(sessions)[s := Detach(finished)]
      ensures bindings == old(bindings)[c := None]
      ensures outbox == old(outbox) && timers == old(timers) && keepAlive == old(keepAlive)
    {
      var s := bindings[c].value;
      if sessions[s].readiness == OPEN {
        FinishSession(s);
      }
      Release(c);
    }

    /** `deepgram.removeAllListeners()` then `deepgram = null`: client `c` lets
        go of the session it holds. */
    method Release(c: ClientId)
      requires Valid() && c in bindings && bindings[c].Some?
      modifies this
      ensures Valid()
      ensures var s := old(bindings[c].value); sessions == old(sessions)[s := Detach(old(sessions[s]))]
      ensures bindings == old(bindings)[c := None]
      ensures outbox == old(outbox) && timers == old(timers) && keepAlive == old(keepAlive)
    {
      var s := bindings[c].value;
      sessions := sessions[s := Detach(sessions[s])];
      bindings := bindings[c := None];
      // only the session `c` held loses its binding, and it has no listeners left
      forall t | 0 <= t < |sessions| && t != s
        ensures sessions[t] == old(sessions[t]) && (Bound(t) <==> old(Bound(t)))
      {
      }
    }

    /** `session.finish()` on session `s`; nothing else changes. */
    method FinishSession(s: SessionId)
      requires Valid() && s < |sessions|
      modifies this
      ensures Valid()
      ensures sessions == old(sessions)[s := Finish(old(sessions[s]))]
      ensures bindings == old(bindings) && outbox == old(outbox) && timers == old(timers) && keepAlive == old(keepAlive)
    {
      sessions := sessions[s := Finish(sessions[s])];
      forall t | 0 <= t < |sessions|
        ensures sessions[t].owner == old(sessions[t].owner) && (Bound(t) <==> old(Bound(t)))
      {
      }
    }

    /** `clearInterval(keepAlive)`: the interval `keepAlive` names stops, and
        since only that one could be running, none runs any more. */
    method StopKeepAlive()
      requires Valid()
      modifies this
      ensures Valid()
      ensures timers == ClearTimer(old(timers), old(keepAlive))
      ensures forall i :: 0 <= i < |timers| ==> !timers[i].active
      ensures sessions == old(sessions) && bindings == old(bindings) && outbox == old(outbox) && keepAlive == old(keepAlive)
    {
      ghost var armed := timers;
      timers := ClearTimer(timers, keepAlive);
      forall i | 0 <= i < |timers|
        ensures !timers[i].active
      {
        assert armed[i].active ==> keepAlive == Some(i);
      }
    }

    /** The backend acknowledges session `s`: it becomes Open, and if its Open
        listener is still attached, the event listeners are added. */
    method OnBackendOpen(s: SessionId)
      requires Valid() && s < |sessions| && sessions[s].readiness == CONNECTING
      modifies this
      ensures Valid()
      ensures sessions == old(sessions)[s := old(sessions[s]).(readiness := OPEN, eventListeners := old(sessions[s].openListener))]
      ensures bindings == old(bindings) && outbox == old(outbox) && timers == old(timers) && keepAlive == old(keepAlive)
    {
      sessions := sessions[s := sessions[s].(readiness := OPEN, eventListeners := sessions[s].openListener)];
    }

    /** The connection of session `s` starts closing or is closed; readiness
        never goes back. */
    method OnBackendReadiness(s: SessionId, r: ReadyState)
      requires Valid() && s < |sessions| && r >= CLOSING && sessions[s].readiness <= r
      modifies this
      ensures Valid()
      ensures sessions == old(sessions)[s := old(sessions[s]).(readiness := r)]
      ensures bindings == old(bindings) && outbox == old(outbox) && timers == old(timers) && keepAlive == old(keepAlive)
    {
      sessions := sessions[s := sessions[s].(readiness := r)];
    }

    /** A Close event on session `s`. Its listener, if attached, clears the
        interval that `keepAlive` names (whichever session that is aimed at)
        and finishes the session if it still reports Open. */
    method OnBackendClose(s: SessionId)
      requires Valid() && s < |sessions|
      modifies this
      ensures Valid()
      ensures !old(sessions[s].eventListeners) ==>
        sessions == old(sessions) && timers == old(timers)
      ensures old(sessions[s].eventListeners) ==>
        && timers == ClearTimer(old(timers), old(keepAlive))
        && sessions == old(sessions)[s := if old(sessions[s].readiness) == OPEN then Finish(old(sessions[s])) else old(sessions[s])]
      ensures old(sessions[s].eventListeners) ==> forall i :: 0 <= i < |timers| ==> !timers[i].active
      ensures bindings == old(bindings) && outbox == old(outbox) && keepAlive == old(keepAlive)
    {
      if sessions[s].eventListeners {
        StopKeepAlive();
        if sessions[s].readiness == OPEN {
          FinishSession(s);
        }
      }
    }

    /** The running interval `h` fires and sends a keepalive on its session. */
    method OnKeepAliveTick(h: nat)
      requires Valid() && h < |timers| && timers[h].active
      modifies this
      ensures Valid()
      ensures h == |sessions| - 1
      ensures sessions == old(sessions)[h := old(sessions[h]).(keepAlives := old(sessions[h].keepAlives) + 1)]
      ensures bindings == old(bindings) && outbox == old(outbox) && timers == old(timers) && keepAlive == old(keepAlive)
    {
      var target := timers[h].target;
      sessions := sessions[target := sessions[target].(keepAlives := sessions[target].keepAlives + 1)];
    }

    /** Append `m` to the outbox of the client that owns session `s`, if the
        session still has its event listeners. */
    method Forward(s: SessionId, m: ClientMessage)
      requires Valid() && s < |sessions|
      modifies this
      ensures Valid()
      ensures var c := old(sessions[s].owner);
        outbox == if old(sessions[s].eventListeners) then old(outbox)[c := old(outbox[c]) + [m]] else old(outbox)
      ensures sessions == old(sessions) && bindings == old(bindings) && timers == old(timers) && keepAlive == old(keepAlive)
      ensures old(sessions[s].eventListeners) ==> Bound(s)
    {
      if sessions[s].eventListeners {
        var c := sessions[s].owner;
        outbox := outbox[c := outbox[c] + [m]];
      }
    }

    /** A Transcript event on session `s`: sent to its client as received. */
    method OnBackendTranscript(s: SessionId, data: Json)
      requires Valid() && s < |sessions|
      modifies this
      ensures Valid()
      ensures var c := old(sessions[s].owner);
        outbox == if old(sessions[s].eventListeners) then old(outbox)[c := old(outbox[c]) + [Verbatim(data)]] else old(outbox)
      ensures sessions == old(sessions) && bindings == old(bindings) && timers == old(timers) && keepAlive == old(keepAlive)
    {
      Forward(s, Verbatim(data));
    }

    /** A Metadata event on session `s`: sent wrapped as `{metadata: data}`. */
    method OnBackendMetadata(s: SessionId, data: Json)
      requires Valid() && s < |sessions|
      modifies this
      ensures Valid()
      ensures var c := old(sessions[s].owner);
        outbox == if old(sessions[s].eventListeners) then old(outbox)[c := old(outbox[c]) + [MetadataEnvelope(data)]] else old(outbox)
      ensures sessions == old(sessions) && bindings == old(bindings) && timers == old(timers) && keepAlive == old(keepAlive)
    {
      Forward(s, MetadataEnvelope(data));
    }

    /** An UtteranceEnd event on session `s`: sent to its client as received. */
    method OnBackendUtteranceEnd(s: SessionId, data: Json)
      requires Valid() && s < |sessions|
      modifies this
      ensures Valid()
      ensures var c := old(sessions[s].owner);
        outbox == if old(sessions[s].eventListeners) then old(outbox)[c := old(outbox[c]) + [Verbatim(data)]] else old(outbox)
      ensures sessions == old(sessions) && bindings == old(bindings) && timers == old(timers) && keepAlive == old(keepAlive)
    {
      Forward(s, Verbatim(data));
    }
  }

  /** A backend that never opens: every chunk is dropped and the client keeps
      the same connecting session. */
  method ScenarioNeverOpens(c: ClientId, a: Bytes, b: Bytes, d: Bytes)
  {
    var relay := new Relay();
    relay.OnConnection(c);
    relay.OnClientMessage(c, a);
    relay.OnClientMessage(c, b);
    relay.OnClientMessage(c, d);
    assert relay.sessions == [NewSession(c)];
    assert relay.bindings[c] == Some(0) && relay.outbox[c] == [];
  }

  /** A client connects and the backend opens its session: the session gets
      its event listeners and the keepalive interval aimed at it runs. */
  method ScenarioOpens(c: ClientId) returns (relay: Relay)
    ensures fresh(relay) && relay.Valid()
    ensures relay.sessions == [NewSession(c).(readiness := OPEN, eventListeners := true)]
    ensures relay.bindings == map[c := Some(0)] && relay.outbox == map[c := []]
    ensures relay.timers == [Timer(0, true)] && relay.keepAlive == Some(0)
  {
    relay := new Relay();
    relay.OnConnection(c);
    assert relay.sessions == [NewSession(c)] && relay.bindings == map[c := Some(0)];
    assert relay.timers == [Timer(0, true)];
    relay.OnBackendOpen(0);
  }

  /** One chunk and one metadata event then pass through: the chunk reaches
      the session and the metadata reaches the client wrapped. */
  method ScenarioPassThrough(c: ClientId, a: Bytes, meta: Json) returns (relay: Relay)
    ensures fresh(relay) && relay.Valid()
    ensures relay.sessions == [NewSession(c).(readiness := OPEN, eventListeners := true, audio := [a])]
    ensures relay.bindings == map[c := Some(0)] && relay.outbox == map[c := [MetadataEnvelope(meta)]]
    ensures relay.timers == [Timer(0, true)] && relay.keepAlive == Some(0)
  {
    relay := ScenarioOpens(c);
    var live := relay.sessions[0];
    relay.OnClientMessage(c, a);
    assert live.audio + [a] == [a];
    assert relay.sessions == [live.(audio := [a])];
    relay.OnBackendMetadata(0, meta);
    assert relay.outbox[c] == [] + [MetadataEnvelope(meta)] == [MetadataEnvelope(meta)];
  }

  /** The backend then closes: the keepalive interval is cleared and the
      session keeps its audio. */
  method ScenarioBackendCloses(c: ClientId, a: Bytes, meta: Json) returns (relay: Relay)
    ensures fresh(relay) && relay.Valid()
    ensures relay.sessions == [NewSession(c).(readiness := CLOSED, eventListeners := true, audio := [a])]
    ensures relay.bindings == map[c := Some(0)] && relay.outbox == map[c := [MetadataEnvelope(meta)]]
    ensures relay.timers == [Timer(0, false)] && relay.keepAlive == Some(0)
  {
    relay := ScenarioPassThrough(c, a, meta);
    relay.OnBackendReadiness(0, CLOSED);
    relay.OnBackendClose(0);
  }

  /** After the backend has closed, the next chunk is dropped and a new,
      distinct session is bound, with the only running keepalive aimed at it. */
  method ScenarioCloseThenReconnect(c: ClientId, a: Bytes, b: Bytes, meta: Json)
  {
    var relay := ScenarioBackendCloses(c, a, meta);
    var dead := relay.sessions[0];
    relay.OnClientMessage(c, b);
    assert relay.sessions == [Detach(Finish(dead)), NewSession(c)];
    assert relay.sessions[0].audio == [a] && relay.sessions[0].finishCalls == 1;
    assert relay.bindings[c] == Some(1);
    assert relay.outbox[c] == [MetadataEnvelope(meta)];
    assert relay.timers == [Timer(0, false), Timer(1, true)] && relay.keepAlive == Some(1);
    relay.OnClientClose(c);
    assert relay.bindings[c] == None && relay.sessions[1].finishCalls == 0;
  }
}
