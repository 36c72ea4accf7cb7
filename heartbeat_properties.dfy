/** What the heartbeat monitor promises: the per-call rules of `send_packets`
    and `handle_packets`, the effect of a whole event batch, and what holds
    over any interleaving of ticks and batches. */
module HeartbeatProperties {
  import opened Heartbeat

  // ---------------------------------------------------------------------------
  // send_packets

  /** With `last_ping` at its default of zero no heartbeat goes out before
      `PingFreq` seconds have passed, even on a connected client. */
  lemma NoEarlyPingFromDefault(r: Reader, isServer: bool, now: real)
    requires r.lastPing == 0.0 && now <= PingFreq
    ensures Broadcast(Ping) !in Tick(r, isServer, now).actions
    ensures Tick(r, isServer, now).next.lastPing == 0.0
  {
  }

  /** Two heartbeats on consecutive ticks of a client are more than
      `PingFreq` apart, whatever batch of events it handles between them
      (`PingSpacingInRun` covers any number of ticks in between). */
  lemma PingSpacing(r: Reader, t1: real, t: real, events: seq<NetworkEvent>, t2: real)
    requires Broadcast(Ping) in Tick(r, false, t1).actions
    requires Broadcast(Ping) in Tick(OnEvents(Tick(r, false, t1).next, false, t, events).next, false, t2).actions
    ensures t2 > t1 + PingFreq
  {
  }

  /** The desync warning is level-triggered: on a node that sends no ping
      (a server, or a disconnected client) it repeats on every tick while the
      timestamps stay as they are. */
  lemma WarningRepeatsWithoutPing(r: Reader, isServer: bool, t1: real, t2: real)
    requires isServer || !r.connected
    ensures Tick(r, isServer, t1).next == r
    ensures (Warn in Tick(r, isServer, t1).actions) == (Warn in Tick(Tick(r, isServer, t1).next, isServer, t2).actions)
  {
  }

  // ---------------------------------------------------------------------------
  // handle_packets, one event

  /** `Connected` and `Disconnected` set or clear the flag, ignore the
      handle, keep both timestamps and emit nothing. */
  lemma LifecycleEvent(r: Reader, isServer: bool, now: real, e: NetworkEvent)
    requires e.Connected? || e.Disconnected?
    ensures OnEvent(r, isServer, now, e).next == r.(connected := e.Connected?)
    ensures OnEvent(r, isServer, now, e).actions == []
  {
  }

  /** A client takes a payload starting with "PONG" as an echo: it records
      the arrival time and answers nothing. */
  lemma EchoOnClient(r: Reader, now: real, h: ConnectionHandle, payload: string)
    requires IsPongPayload(payload)
    ensures OnEvent(r, false, now, Packet(h, payload)) == Step(r.(lastPong := now), [])
  {
  }

  /** A server ignores the same payload: it cannot also be "PING". */
  lemma EchoOnServer(r: Reader, now: real, h: ConnectionHandle, payload: string)
    requires IsPongPayload(payload)
    ensures OnEvent(r, true, now, Packet(h, payload)) == Step(r, [])
  {
    PingIsNotPong();
  }

  /** "PING" is answered by exactly one pong to its sender, on both roles,
      and leaves the record as it was. */
  lemma PingAnswered(r: Reader, isServer: bool, now: real, h: ConnectionHandle)
    ensures OnEvent(r, isServer, now, Packet(h, "PING")) == Step(r, [Send(h, Pong(now))])
  {
  }

  /** Any other payload changes nothing and emits nothing. */
  lemma OtherPayloadIgnored(r: Reader, isServer: bool, now: real, h: ConnectionHandle, payload: string)
    requires !IsPongPayload(payload) && !IsPingPayload(payload)
    ensures OnEvent(r, isServer, now, Packet(h, payload)) == Step(r, [])
  {
  }

  // ---------------------------------------------------------------------------
  // handle_packets, a whole batch

  predicate IsLifecycle(e: NetworkEvent)
  {
    e.Connected? || e.Disconnected?
  }

  /** The last `Connected`/`Disconnected` event of the batch is a `Connected`. */
  predicate LastLifecycleIsConnect(events: seq<NetworkEvent>)
  {
    exists j :: 0 <= j < |events| && events[j].Connected? &&
      forall k :: j < k < |events| ==> !IsLifecycle(events[k])
  }

  /** The batch holds no `Connected`/`Disconnected` event. */
  predicate NoLifecycle(events: seq<NetworkEvent>)
  {
    forall k :: 0 <= k < |events| ==> !IsLifecycle(events[k])
  }

  /** The connection flag after a batch is true exactly when the batch's last
      lifecycle event is `Connected`, and is the old flag when it has none. */
  lemma {:induction false} ConnectedFollowsLastLifecycle(r: Reader, isServer: bool, now: real,
                                                         events: seq<NetworkEvent>)
    ensures OnEvents(r, isServer, now, events).next.connected <==>
      LastLifecycleIsConnect(events) || (r.connected && NoLifecycle(events))
  {
    if events != [] {
      var n := |events| - 1;
      var init, e := events[..n], events[n];
      assert forall k :: 0 <= k < n ==> init[k] == events[k];
      ConnectedFollowsLastLifecycle(r, isServer, now, init);
      if IsLifecycle(e) {
        assert !NoLifecycle(events);
        if e.Disconnected? {
          if LastLifecycleIsConnect(events) {
            var j :| 0 <= j < |events| && events[j].Connected? &&
              forall k :: j < k < |events| ==> !IsLifecycle(events[k]);
            assert false;
          }
        }
      } else {
        if LastLifecycleIsConnect(init) {
          var j :| 0 <= j < n && init[j].Connected? &&
            forall k :: j < k < n ==> !IsLifecycle(init[k]);
          assert events[j].Connected? && forall k :: j < k < |events| ==> !IsLifecycle(events[k]);
        }
        if LastLifecycleIsConnect(events) {
          var j :| 0 <= j < |events| && events[j].Connected? &&
            forall k :: j < k < |events| ==> !IsLifecycle(events[k]);
          assert j < n && init[j].Connected? && forall k :: j < k < n ==> !IsLifecycle(init[k]);
        }
        assert NoLifecycle(events) <==> NoLifecycle(init);
      }
    }
  }

  /** Some packet of the batch starts with "PONG". */
  predicate SomeEcho(events: seq<NetworkEvent>)
  {
    exists j :: 0 <= j < |events| && events[j].Packet? && IsPongPayload(events[j].payload)
  }

  /** After a batch `last_pong` is the batch's `now` on a client that got an
      echo in it, and is untouched otherwise: lifecycle events, pings and
      unknown payloads never move it, and a server never does. */
  lemma {:induction false} LastPongFollowsEchoes(r: Reader, isServer: bool, now: real,
                                                 events: seq<NetworkEvent>)
    ensures OnEvents(r, isServer, now, events).next.lastPong ==
      if !isServer && SomeEcho(events) then now else r.lastPong
  {
    if events != [] {
      var n := |events| - 1;
      var init, e := events[..n], events[n];
      LastPongFollowsEchoes(r, isServer, now, init);
      PingIsNotPong();
      if SomeEcho(init) {
        var j :| 0 <= j < n && init[j].Packet? && IsPongPayload(init[j].payload);
        assert events[j] == init[j];
      }
      if e.Packet? && IsPongPayload(e.payload) {
        assert SomeEcho(events) by { assert events[n] == e; }
      } else if SomeEcho(events) {
        var j :| 0 <= j < |events| && events[j].Packet? && IsPongPayload(events[j].payload);
        assert j < n && init[j] == events[j];
      }
    }
  }

  /** The replies a batch calls for, computed front to back: one pong,
      stamped with the batch's `now`, to the sender of each "PING", in
      arrival order. */
  function Replies(events: seq<NetworkEvent>, now: real): (rs: seq<Action>)
  {
    if events == [] then []
    else
      (if events[0].Packet? && IsPingPayload(events[0].payload)
       then [Send(events[0].handle, Pong(now))] else [])
      + Replies(events[1..], now)
  }

  lemma {:induction false} RepliesAppend(events: seq<NetworkEvent>, e: NetworkEvent, now: real)
    ensures Replies(events + [e], now) == Replies(events, now) + Replies([e], now)
  {
    if events != [] {
      assert (events + [e])[1..] == events[1..] + [e];
      RepliesAppend(events[1..], e, now);
    }
  }

  /** A batch emits exactly its replies, in arrival order, whatever the
      role and the record: a client answers "PING" too. */
  lemma {:induction false} BatchEmitsReplies(r: Reader, isServer: bool, now: real,
                                             events: seq<NetworkEvent>)
    ensures OnEvents(r, isServer, now, events).actions == Replies(events, now)
  {
    if events != [] {
      var n := |events| - 1;
      BatchEmitsReplies(r, isServer, now, events[..n]);
      RepliesAppend(events[..n], events[n], now);
      assert events[..n] + [events[n]] == events;
    }
  }

  /** Hence the same batch sends the same pongs on a server and on a client,
      from any record. */
  lemma RepliesIndependentOfRole(r1: Reader, r2: Reader, now: real, events: seq<NetworkEvent>)
    ensures OnEvents(r1, true, now, events).actions == OnEvents(r2, false, now, events).actions
  {
    BatchEmitsReplies(r1, true, now, events);
    BatchEmitsReplies(r2, false, now, events);
  }

  // ---------------------------------------------------------------------------
  // Runs: any interleaving of ticks and event batches

  /** One call of either system, with its time. */
  datatype Input = TickAt(now: real) | Batch(now: real, events: seq<NetworkEvent>)

  /** A tick either keeps `last_ping` or moves it to a `now` above it; a
      batch never touches it. */
  function Apply(r: Reader, isServer: bool, input: Input): (s: Step)
    ensures s.next.lastPing >= r.lastPing
    ensures input.Batch? ==> s.next.lastPing == r.lastPing
    ensures s.next.lastPing != r.lastPing ==> input.TickAt? && s.next.lastPing == input.now > r.lastPing
  {
    match input
    case TickAt(now) => Tick(r, isServer, now)
    case Batch(now, events) => OnEvents(r, isServer, now, events)
  }

  /** The record and the actions after the inputs, in order. */
  function Run(r: Reader, isServer: bool, inputs: seq<Input>): (s: Step)
    decreases |inputs|
  {
    if inputs == [] then Step(r, [])
    else
      var before := Run(r, isServer, inputs[..|inputs| - 1]);
      var last := Apply(before.next, isServer, inputs[|inputs| - 1]);
      Step(last.next, before.actions + last.actions)
  }

  predicate SomeTick(inputs: seq<Input>)
  {
    exists i :: 0 <= i < |inputs| && inputs[i].TickAt?
  }

  /** A server keeps both timestamps forever, never broadcasts, and warns
      (on some tick) exactly when its record was desynced from the start and
      it has ticked at least once. */
  lemma {:induction false} ServerRun(r: Reader, inputs: seq<Input>)
    ensures Run(r, true, inputs).next.lastPing == r.lastPing
    ensures Run(r, true, inputs).next.lastPong == r.lastPong
    ensures Broadcast(Ping) !in Run(r, true, inputs).actions
    ensures (Warn in Run(r, true, inputs).actions) <==> Desynced(r) && SomeTick(inputs)
  {
    if inputs != [] {
      var n := |inputs| - 1;
      var init := inputs[..n];
      ServerRun(r, init);
      var before := Run(r, true, init);
      var last := Apply(before.next, true, inputs[n]);
      if inputs[n].Batch? {
        LastPongFollowsEchoes(before.next, true, inputs[n].now, inputs[n].events);
        assert Warn !in last.actions;
      }
      assert Run(r, true, inputs).actions == before.actions + last.actions;
      if SomeTick(init) {
        var i :| 0 <= i < n && init[i].TickAt?;
        assert inputs[i] == init[i];
      }
      if SomeTick(inputs) && !inputs[n].TickAt? {
        var i :| 0 <= i < |inputs| && inputs[i].TickAt?;
        assert i < n && init[i] == inputs[i];
      }
    }
  }

  /** From the default record a server never warns and never pings. */
  lemma ServerQuietFromDefault(inputs: seq<Input>)
    ensures Warn !in Run(Initial, true, inputs).actions
    ensures Broadcast(Ping) !in Run(Initial, true, inputs).actions
  {
    ServerRun(Initial, inputs);
  }

  predicate NeverConnects(inputs: seq<Input>)
  {
    forall i, j :: 0 <= i < |inputs| && inputs[i].Batch? && 0 <= j < |inputs[i].events| ==>
      !inputs[i].events[j].Connected?
  }

  /** No heartbeat goes out while a client is disconnected: a client that
      starts disconnected and sees no `Connected` event never broadcasts. */
  lemma {:induction false} NoPingWhileDisconnected(r: Reader, inputs: seq<Input>)
    requires !r.connected && NeverConnects(inputs)
    ensures !Run(r, false, inputs).next.connected
    ensures Broadcast(Ping) !in Run(r, false, inputs).actions
  {
    if inputs != [] {
      var n := |inputs| - 1;
      var init := inputs[..n];
      assert forall i :: 0 <= i < n ==> init[i] == inputs[i];
      NoPingWhileDisconnected(r, init);
      var before := Run(r, false, init);
      if inputs[n].Batch? {
        var b := inputs[n];
        ConnectedFollowsLastLifecycle(before.next, false, b.now, b.events);
        assert forall j :: 0 <= j < |b.events| ==> !b.events[j].Connected?;
      }
    }
  }

  /** `last_ping` never drops along a run, whatever the clock does: the
      record after any prefix of the inputs has a `last_ping` no later than
      the one after all of them. */
  lemma {:induction false} LastPingNeverDrops(r: Reader, isServer: bool, inputs: seq<Input>, k: nat)
    requires k <= |inputs|
    ensures Run(r, isServer, inputs[..k]).next.lastPing <= Run(r, isServer, inputs).next.lastPing
  {
    if k < |inputs| {
      var n := |inputs| - 1;
      assert inputs[..n][..k] == inputs[..k];
      LastPingNeverDrops(r, isServer, inputs[..n], k);
    } else {
      assert inputs[..k] == inputs;
    }
  }

  /** Any two heartbeats of a client run, whatever ticks and batches come
      between them, are more than `PingFreq` apart. */
  lemma PingSpacingInRun(r: Reader, inputs: seq<Input>, i: nat, j: nat)
    requires i < j < |inputs| && inputs[i].TickAt? && inputs[j].TickAt?
    requires Broadcast(Ping) in Tick(Run(r, false, inputs[..i]).next, false, inputs[i].now).actions
    requires Broadcast(Ping) in Tick(Run(r, false, inputs[..j]).next, false, inputs[j].now).actions
    ensures inputs[j].now > inputs[i].now + PingFreq
  {
    assert inputs[..i + 1][..i] == inputs[..i];
    assert Run(r, false, inputs[..i + 1]).next.lastPing == inputs[i].now;
    assert inputs[..j][..i + 1] == inputs[..i + 1];
    LastPingNeverDrops(r, false, inputs[..j], i + 1);
  }

  /** The clock of a run: it never goes back and starts no earlier than the
      record's `last_pong`. */
  predicate ClockFrom(r: Reader, inputs: seq<Input>)
  {
    (forall i :: 0 <= i < |inputs| ==> r.lastPong <= inputs[i].now) &&
    (forall i, j :: 0 <= i < j < |inputs| ==> inputs[i].now <= inputs[j].now)
  }

  /** `last_pong` after a run is the starting one or the time of one of the
      inputs. */
  lemma {:induction false} LastPongIsSomeNow(r: Reader, isServer: bool, inputs: seq<Input>)
    ensures Run(r, isServer, inputs).next.lastPong == r.lastPong ||
      exists i :: 0 <= i < |inputs| && Run(r, isServer, inputs).next.lastPong == inputs[i].now
  {
    if inputs != [] {
      var n := |inputs| - 1;
      var init := inputs[..n];
      LastPongIsSomeNow(r, isServer, init);
      var before := Run(r, isServer, init);
      if inputs[n].Batch? {
        LastPongFollowsEchoes(before.next, isServer, inputs[n].now, inputs[n].events);
      }
      if Run(r, isServer, inputs).next.lastPong != r.lastPong &&
         Run(r, isServer, inputs).next.lastPong != inputs[n].now {
        var i :| 0 <= i < n && before.next.lastPong == init[i].now;
        assert inputs[i] == init[i];
      }
    }
  }

  /** While the clock does not go back, `last_pong` never drops along a run. */
  lemma {:induction false} LastPongNeverDrops(r: Reader, isServer: bool, inputs: seq<Input>, k: nat)
    requires k <= |inputs| && ClockFrom(r, inputs)
    ensures Run(r, isServer, inputs[..k]).next.lastPong <= Run(r, isServer, inputs).next.lastPong
  {
    if k < |inputs| {
      var n := |inputs| - 1;
      var init := inputs[..n];
      assert init[..k] == inputs[..k];
      assert forall i :: 0 <= i < n ==> init[i] == inputs[i];
      LastPongNeverDrops(r, isServer, init, k);
      var before := Run(r, isServer, init);
      LastPongIsSomeNow(r, isServer, init);
      assert before.next.lastPong <= inputs[n].now;
      if inputs[n].Batch? {
        LastPongFollowsEchoes(before.next, isServer, inputs[n].now, inputs[n].events);
      }
    } else {
      assert inputs[..k] == inputs;
    }
  }

  // ---------------------------------------------------------------------------
  // Worked scenarios

  /** The first heartbeat of a freshly connected client: none at 0.5 or at
      exactly 1.0 (the comparison is strict), one at 1.5. */
  lemma FirstPingWaitsForFreq()
    ensures Broadcast(Ping) !in Tick(Initial.(connected := true), false, 0.5).actions
    ensures Broadcast(Ping) !in Tick(Initial.(connected := true), false, 1.0).actions
    ensures Tick(Initial.(connected := true), false, 1.5) ==
      Step(Reader(true, 1.5, 0.0), [Broadcast(Ping)])
  {
  }

  /** With `last_ping` 10 and `last_pong` 4 a server warns at any time; with
      `last_ping` 9 it does not, since 9 is not above 4 + 5. A connected
      client with `last_ping` 9 that ticks at 11 first pings, moving
      `last_ping` to 11, and then warns. */
  lemma DesyncExample(now: real)
    ensures Tick(Reader(true, 10.0, 4.0), true, now).actions == [Warn]
    ensures Tick(Reader(true, 9.0, 4.0), true, now).actions == []
    ensures Tick(Reader(true, 9.0, 4.0), false, 11.0) ==
      Step(Reader(true, 11.0, 4.0), [Broadcast(Ping), Warn])
  {
  }

  /** The ping test reads `last_ping`, not the time of connecting: a client
      that first connects at 3.0 pings on its very next tick. */
  lemma LateConnectPingsAtOnce(h: ConnectionHandle)
    ensures Run(Initial, false, [Batch(3.0, [Connected(h)]), TickAt(3.0)]) ==
      Step(Reader(true, 3.0, 0.0), [Broadcast(Ping)])
  {
    var inputs := [Batch(3.0, [Connected(h)]), TickAt(3.0)];
    assert [Connected(h)][..0] == [];
    assert inputs[..1][..0] == [];
    assert OnEvents(Initial, false, 3.0, [Connected(h)]) == Step(Reader(true, 0.0, 0.0), []);
    assert Run(Initial, false, inputs[..1]) == Step(Reader(true, 0.0, 0.0), []);
  }

  /** A round trip. The server, connected at 0.0, answers a "PING" at 1.6
      with one pong. The client connects at 0.1, pings at 1.5, records the
      echo at 1.7, and its tick at 2.0 neither pings nor warns. */
  lemma RoundTrip(server: ConnectionHandle, client: ConnectionHandle, reply: string)
    requires IsPongPayload(reply)
    ensures Run(Initial, true, [Batch(0.0, [Connected(client)]), Batch(1.6, [Packet(client, "PING")])]) ==
      Step(Reader(true, 0.0, 0.0), [Send(client, Pong(1.6))])
    ensures Run(Initial, false, [Batch(0.1, [Connected(server)]), TickAt(1.5),
                                 Batch(1.7, [Packet(server, reply)]), TickAt(2.0)]) ==
      Step(Reader(true, 1.5, 1.7), [Broadcast(Ping)])
  {
    var serverRun := [Batch(0.0, [Connected(client)]), Batch(1.6, [Packet(client, "PING")])];
    assert [Connected(client)][..0] == [] && [Packet(client, "PING")][..0] == [];
    assert serverRun[..1][..0] == [];
    assert OnEvents(Initial, true, 0.0, [Connected(client)]) == Step(Reader(true, 0.0, 0.0), []);
    assert OnEvents(Reader(true, 0.0, 0.0), true, 1.6, [Packet(client, "PING")]) ==
      Step(Reader(true, 0.0, 0.0), [Send(client, Pong(1.6))]);
    assert Run(Initial, true, serverRun[..1]).next == Reader(true, 0.0, 0.0);
    assert Run(Initial, true, serverRun) == Step(Reader(true, 0.0, 0.0), [Send(client, Pong(1.6))]);

    var clientRun := [Batch(0.1, [Connected(server)]), TickAt(1.5),
                      Batch(1.7, [Packet(server, reply)]), TickAt(2.0)];
    assert [Connected(server)][..0] == [] && [Packet(server, reply)][..0] == [];
    var connected := Reader(true, 0.0, 0.0);
    var pinged := Reader(true, 1.5, 0.0);
    var echoed := Reader(true, 1.5, 1.7);
    assert clientRun[..1][..0] == [];
    assert OnEvents(Initial, false, 0.1, [Connected(server)]) == Step(connected, []);
    assert OnEvents(pinged, false, 1.7, [Packet(server, reply)]) == Step(echoed, []);
    assert Run(Initial, false, clientRun[..1]) == Step(connected, []);
    assert clientRun[..2][..1] == clientRun[..1];
    assert Run(Initial, false, clientRun[..2]) == Step(pinged, [Broadcast(Ping)]);
    assert clientRun[..3][..2] == clientRun[..2];
    assert Run(Initial, false, clientRun[..3]) == Step(echoed, [Broadcast(Ping)]);
  }
}
