# Heartbeat monitor of the `simple` networking example

The `simple` example of bevy_networking_turbulence runs a liveness check over a
packet transport. A client sends `"PING"` about once a second. Every node
answers a `"PING"` with `"PONG @ <now>"` to the sender. A client records when
an echo arrives. Every node warns "Probably disconnected..." once its last
ping is more than five seconds newer than its last pong.

This project models that monitor in Dafny:

- `Heartbeat` (heartbeat.dfy) holds the constants `PingFreq` (1.0) and
  `DesyncThresh` (5.0), the transport events, the messages and the emitted
  actions (`Broadcast(Ping)`, `Send(handle, Pong(now))`, `Warn`). It holds the
  value of the shared `NetworkReader` record (`Reader`) and three
  specification functions: `Tick` for `send_packets`, `OnEvent` for one event
  of `handle_packets`, and `OnEvents` for a whole batch. Its class
  `NetworkReader` has the record's three fields, updated in place. Its
  methods `SendPackets` and `HandlePackets` are the two systems, the latter a
  `for` loop over the batch. Each method is proved to leave the record and
  emit the actions that its specification function gives.
- `HeartbeatProperties` (heartbeat_properties.dfy) proves what the code
  promises about those functions. It covers the ping rule, the warning rule,
  each kind of event, a whole batch, and any interleaving of ticks and batches
  (`Run`). It also works through a few concrete scenarios.

Time is elapsed seconds as a `real`, passed in as `now`. The role is the
boolean `isServer`, passed to every step. The code's behaviour is kept where it
differs from a more general design of the protocol:

- The ping test compares `now` with `last_ping`, not with the time of
  connecting. A ping fires on the first tick after connecting only if
  `now > last_ping + 1.0`. From the default record, where `last_ping` is 0,
  that means not before `now > 1.0`.
- `Connected` only sets the flag. It does not reset either timestamp.
- There is one shared record, not one session per peer.
- A client also answers `"PING"`, because the `"PONG"` prefix test comes first
  and `"PING"` fails it.
- `last_ping` never decreases, whatever the clock does. `last_pong` never
  decreases only while the clock does not go back, since it is set to the
  current `now`.

## Model

| member | source | states |
|---|---|---|
| `Heartbeat.PingIsNotPong` | examples/simple.rs:117-119 | `"PING"` does not start with `"PONG"`, so the echo branch never catches a ping |
| `Heartbeat.Tick` | examples/simple.rs:74-86 | `connected` and `last_pong` never change. `last_ping` becomes `now` exactly when a ping is due and is kept otherwise. `Broadcast(Ping)` is emitted iff `!is_server && connected && now > last_ping + PING_FREQ`. `Warn` is emitted iff the new record has `last_ping > last_pong + DESYNC_THRESH`, so after the ping update. Only these two actions occur, ping first. A server changes nothing and only possibly warns |
| `Heartbeat.OnEvent` | examples/simple.rs:105-131 | one event never changes `last_ping`. Only lifecycle events change `connected`. `last_pong` can only become `now`. Exactly `"PING"` yields exactly `[Send(handle, Pong(now))]` with no state change. Every other event emits nothing |
| `Heartbeat.OnEvents` | examples/simple.rs:103-133 | a batch never changes `last_ping`, and everything it emits is a `Send` of `Pong(now)` with the batch's one `now` |
| `Heartbeat.NetworkReader.constructor` | examples/simple.rs:88-94 | the default record: disconnected, both timestamps 0 |
| `Heartbeat.NetworkReader.SendPackets` | examples/simple.rs:74-86 | updating the fields in place gives exactly the record and actions of `Tick` |
| `Heartbeat.NetworkReader.HandlePackets` | examples/simple.rs:96-133 | draining the batch in order gives exactly the record and actions of `OnEvents`. This holds for every send outcome, since the outcome is only matched and dropped |
| `HeartbeatProperties.NoEarlyPingFromDefault` | examples/simple.rs:75-81 | with `last_ping` at its default 0, no ping fires at any `now <= PING_FREQ`, even when connected, and `last_ping` stays 0 |
| `HeartbeatProperties.PingSpacing` | examples/simple.rs:77-80 | two pings of a client on consecutive ticks are more than `PING_FREQ` apart, whatever batch of events comes between them |
| `HeartbeatProperties.WarningRepeatsWithoutPing` | examples/simple.rs:83-85 | on a server or a disconnected client a tick changes nothing, and the warning repeats on the next tick exactly when it fired on this one |
| `HeartbeatProperties.LifecycleEvent` | examples/simple.rs:106-113 | `Connected`/`Disconnected` set/clear the flag, ignore the handle, keep both timestamps, emit nothing |
| `HeartbeatProperties.EchoOnClient` | examples/simple.rs:117-118 | on a client a payload starting with `"PONG"` sets `last_pong = now` and emits nothing |
| `HeartbeatProperties.EchoOnServer` | examples/simple.rs:117-119 | on a server the same payload changes nothing and emits nothing |
| `HeartbeatProperties.PingAnswered` | examples/simple.rs:119-128 | exactly `"PING"` gives one `Send(handle, Pong(now))` to the same handle on both roles, state unchanged |
| `HeartbeatProperties.OtherPayloadIgnored` | examples/simple.rs:114-131 | any other payload changes nothing and emits nothing |
| `HeartbeatProperties.ConnectedFollowsLastLifecycle` | examples/simple.rs:104-113 | after a batch, `connected` is true iff the batch's last `Connected`/`Disconnected` event is `Connected`. With no such event the flag keeps its old value |
| `HeartbeatProperties.LastPongFollowsEchoes` | examples/simple.rs:104-118 | after a batch, `last_pong` is `now` if the node is a client and some packet started with `"PONG"`. Otherwise `last_pong` is unchanged |
| `HeartbeatProperties.BatchEmitsReplies` | examples/simple.rs:114-131 | a batch emits exactly one `Send(h, Pong(now))` per `"PING"` packet to its sender, in arrival order. Nothing else is emitted, and neither role nor record matters |
| `HeartbeatProperties.RepliesIndependentOfRole` | examples/simple.rs:117-128 | a server and a client, from any records, send the same pongs for the same batch |
| `HeartbeatProperties.ServerRun` | examples/simple.rs:74-133 | over any interleaving of ticks and batches, a server keeps both timestamps and never broadcasts. It warns iff its record was desynced from the start and it ticked at least once |
| `HeartbeatProperties.ServerQuietFromDefault` | examples/simple.rs:83-94 | from the default record a server never warns and never pings |
| `HeartbeatProperties.NoPingWhileDisconnected` | examples/simple.rs:75-113 | a client that starts disconnected and sees no `Connected` event stays disconnected and never broadcasts |
| `HeartbeatProperties.Apply` | examples/simple.rs:77-80 | one call of either system never lowers `last_ping`: a tick keeps it or raises it to a `now` above it, and a batch keeps it |
| `HeartbeatProperties.LastPingNeverDrops` | examples/simple.rs:77-80 | along any run, whatever the clock does, `last_ping` after a prefix of the inputs is at most `last_ping` after all of them |
| `HeartbeatProperties.PingSpacingInRun` | examples/simple.rs:77-80 | any two pings of a client run are more than `PING_FREQ` apart, however many ticks and batches come between them |
| `HeartbeatProperties.LastPongIsSomeNow` | examples/simple.rs:103-118 | after any run, `last_pong` is its starting value or the `now` of one of the inputs |
| `HeartbeatProperties.LastPongNeverDrops` | examples/simple.rs:103-118 | when the clock never goes back and starts at or after `last_pong`, `last_pong` never drops along a run |
| `HeartbeatProperties.FirstPingWaitsForFreq` | examples/simple.rs:77-92 | a freshly connected client does not ping at 0.5 or at exactly 1.0, because the comparison is strict. It pings at 1.5 and records it |
| `HeartbeatProperties.DesyncExample` | examples/simple.rs:75-85 | on a server, at any `now`, `last_ping` 10 with `last_pong` 4 warns, and `last_ping` 9 with `last_pong` 4 does not. A connected client at (9, 4) that ticks at 11 pings, which moves `last_ping` to 11, and then warns |
| `HeartbeatProperties.LateConnectPingsAtOnce` | examples/simple.rs:75-80 | a client that first connects at 3.0 pings on its very next tick at 3.0, because the test reads `last_ping` and not the time of connecting |
| `HeartbeatProperties.RoundTrip` | examples/simple.rs:74-133 | two composed runs. The server connects at 0.0 and answers a `"PING"` at 1.6 with one pong. The client connects at 0.1, pings at 1.5 and records the echo at 1.7. Its tick at 2.0 neither pings nor warns |

## Left out

- `main` and `startup`: logger setup, building the Bevy app, the schedule
  runner, the server address and `listen`/`connect`. They do not change the
  monitor's state.
- `parse_args`/`Args` belong to the `utils` module, which is not part of this
  model. The role is the parameter `isServer`.
- The Bevy event cursor (`EventReader`, `Events`). Each batch is an explicit
  sequence, handed to one `HandlePackets` call.
- The `Time` resource: `now` is a parameter. `f64` is modelled as `real`, so
  rounding and NaN are not modelled.
- The transport: `broadcast` and `send` are emitted actions. The result of
  `send` is the parameter `outcome`, which only the log would show.
- `String::from_utf8_lossy`: payloads are already-decoded text. The code only
  tests the ASCII prefix `"PONG"` and the exact text `"PING"`, and a
  replacement character is never ASCII. So classifying the bytes or the
  decoded text gives the same answer.
- The text of the reply: `format!("PONG @ {}", now)` is the abstract
  `Pong(now)`. The decimal formatting is not modelled.
- All `log::info!` output, and the text of the warning, which is the action
  `Warn`.
- The order of the two systems within one frame is left to the Bevy
  scheduler. `Run` therefore allows any interleaving of ticks and batches
  rather than fixing one.
