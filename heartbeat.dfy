/** The heartbeat monitor of the `simple` networking example: one shared
    `NetworkReader` record, the `send_packets` tick step and the
    `handle_packets` event loop. Time is elapsed seconds as a `real`, a packet
    payload is its already-decoded text, and every call into the transport or
    the logger that matters to the protocol is an `Action` the step emits. */
module Heartbeat {

  /** Seconds between two heartbeats sent by a client. */
  const PingFreq: real := 1.0
  /** Gap between the last ping and the last pong above which a node warns. */
  const DesyncThresh: real := 5.0

  /** The transport's connection handle (a 32-bit value; only compared and
      echoed back here, so its width plays no part). */
  type ConnectionHandle = nat

  /** The events the transport delivers, in arrival order. */
  datatype NetworkEvent =
    | Connected(handle: ConnectionHandle)
    | Disconnected(handle: ConnectionHandle)
    | Packet(handle: ConnectionHandle, payload: string)

  /** The two messages this protocol sends: the text "PING", and
      "PONG @ <now>" kept abstract as the time it carries. */
  datatype Message = Ping | Pong(stamp: real)

  /** What one step asks of the outside world, in the order it asks it. */
  datatype Action =
    | Broadcast(msg: Message)
    | Send(to: ConnectionHandle, msg: Message)
    | Warn   // the "Probably disconnected..." warning

  /** What the transport answers to a `send`; the monitor only logs it. */
  datatype SendResult = Sent | SendError

  /** The value of the shared record (without the event cursor). */
  datatype Reader = Reader(connected: bool, lastPing: real, lastPong: real)

  /** The record as `Default` builds it. */
  const Initial: Reader := Reader(false, 0.0, 0.0)

  /** The state after a step and the actions it emitted. */
  datatype Step = Step(next: Reader, actions: seq<Action>)

  /** The rule under which a client sends a heartbeat (strict comparison). */
  predicate PingDue(r: Reader, isServer: bool, now: real)
  {
    !isServer && r.connected && now > r.lastPing + PingFreq
  }

  /** The warning rule: it reads only the two timestamps. */
  predicate Desynced(r: Reader)
  {
    r.lastPing > r.lastPong + DesyncThresh
  }

  /** A payload a client takes as an echo: text starting with "PONG". */
  predicate IsPongPayload(payload: string)
  {
    "PONG" <= payload
  }

  /** A payload every node answers: exactly the text "PING". */
  predicate IsPingPayload(payload: string)
  {
    payload == "PING"
  }

  /** "PING" is not an echo, so a client answers it like a server does. */
  lemma PingIsNotPong()
    ensures !IsPongPayload("PING")
  {
    assert "PING"[1] != "PONG"[1];
  }

  /** `send_packets` at time `now`. */
  function Tick(r: Reader, isServer: bool, now: real): (s: Step)
    ensures s.next.connected == r.connected && s.next.lastPong == r.lastPong
    ensures s.next.lastPing == (if PingDue(r, isServer, now) then now else r.lastPing)
    ensures (Broadcast(Ping) in s.actions) <==> PingDue(r, isServer, now)
    ensures (Warn in s.actions) <==> Desynced(s.next)
    ensures forall a :: a in s.actions ==> a == Broadcast(Ping) || a == Warn
    ensures |s.actions| <= 2 && (|s.actions| == 2 ==> s.actions == [Broadcast(Ping), Warn])
    ensures isServer ==> s.next == r && s.actions == (if Desynced(r) then [Warn] else [])
  {
    var pinged := PingDue(r, isServer, now);
    var next := if pinged then r.(lastPing := now) else r;
    Step(next, (if pinged then [Broadcast(Ping)] else []) + (if Desynced(next) then [Warn] else []))
  }

  /** One event of `handle_packets`, every event of the batch seeing the same `now`. */
  function OnEvent(r: Reader, isServer: bool, now: real, e: NetworkEvent): (s: Step)
    ensures s.next.lastPing == r.lastPing
    ensures s.next.connected != r.connected ==> !e.Packet?
    ensures s.next.lastPong != r.lastPong ==> s.next.lastPong == now
    ensures e.Packet? && IsPingPayload(e.payload) ==> s.next == r && s.actions == [Send(e.handle, Pong(now))]
    ensures !(e.Packet? && IsPingPayload(e.payload)) ==> s.actions == []
  {
    match e
    case Connected(_) => Step(r.(connected := true), [])
    case Disconnected(_) => Step(r.(connected := false), [])
    case Packet(handle, payload) =>
      PingIsNotPong();
      if !isServer && IsPongPayload(payload) then Step(r.(lastPong := now), [])
      else if IsPingPayload(payload) then Step(r, [Send(handle, Pong(now))])
      else Step(r, [])
  }

  /** A whole batch of `handle_packets`, events taken in arrival order. */
  function OnEvents(r: Reader, isServer: bool, now: real, events: seq<NetworkEvent>): (s: Step)
    decreases |events|
    ensures s.next.lastPing == r.lastPing
    ensures forall a :: a in s.actions ==> a.Send? && a.msg == Pong(now)
  {
    if events == [] then Step(r, [])
    else
      var before := OnEvents(r, isServer, now, events[..|events| - 1]);
      var last := OnEvent(before.next, isServer, now, events[|events| - 1]);
      Step(last.next, before.actions + last.actions)
  }

  /** The `NetworkReader` resource, updated in place by the two systems. */
  class NetworkReader {
    var connected: bool
    var lastPing: real
    var lastPong: real

    function View(): Reader
      reads this
    {
      Reader(connected, lastPing, lastPong)
    }

    /** `#[derive(Default)]`: disconnected, both timestamps zero. */
    constructor ()
      ensures View() == Initial
    {
      connected := false;
      lastPing := 0.0;
      lastPong := 0.0;
    }

    /** The `send_packets` system. */
    method SendPackets(isServer: bool, now: real) returns (actions: seq<Action>)
      modifies this
      ensures Step(View(), actions) == Tick(old(View()), isServer, now)
    {
      actions := [];
      if !isServer && connected {
        if now > lastPing + PingFreq {
          actions := actions + [Broadcast(Ping)];
          lastPing := now;
        }
      }
      if lastPing > lastPong + DesyncThresh {
        actions := actions + [Warn];
      }
    }

    /** The `handle_packets` system: drains `events` once, in order. The
        transport's answer to the send for event `i` is `outcome(i)`. */
    method HandlePackets(isServer: bool, now: real, events: seq<NetworkEvent>,
                         outcome: nat -> SendResult)
      returns (actions: seq<Action>)
      modifies this
      ensures Step(View(), actions) == OnEvents(old(View()), isServer, now, events)
    {
      actions := [];
      for i := 0 to |events|
        invariant Step(View(), actions) == OnEvents(old(View()), isServer, now, events[..i])
      {
        assert events[..i + 1][..i] == events[..i];
        match events[i]
        case Connected(_) =>
          connected := true;
        case Disconnected(_) =>
          connected := false;
        case Packet(handle, payload) =>
          if !isServer && "PONG" <= payload {
            lastPong := now;
          } else if payload == "PING" {
            actions := actions + [Send(handle, Pong(now))];
            match outcome(i)
            case Sent =>
            case SendError =>
          }
      }
      assert events[..|events|] == events;
    }
  }
}
