# Feather view updates and server tick systems, in Dafny

This project models two pieces of per-tick logic of the Feather Minecraft server:

- **View differ.** A player's `View` is a centre chunk plus a view distance. When the player
  crosses into a new chunk, `ViewUpdateEvent::new` takes the old and the new view. It lists
  the chunks entering the view, nearest to the new centre first, and the chunks leaving it,
  nearest to the old centre first (modules `Chunks`, `Views`, `DistanceSort`, `Events`).
  `ChunkCrossEvent` and `ChunkLoadFailEvent` are modelled as plain records in `Events`;
  they carry no logic of their own.
- **Server systems.** `register` inserts the `Server` resource into the `Game`. It then
  registers the systems in a fixed order. `handle_packets` first drains every connected
  player's received packets into one list, then hands each packet to the packet handler.
  A handler error is logged and processing continues. The player's `Name` is an argument of
  the warning, so it is looked up only when the `Warn` log level is enabled. A missing
  `Name` at that point ends the system with an error. `send_keepalives` broadcasts a keepalive once more than five
  seconds have passed since the last one (module `ServerSystems`).

Several things are parameters of the model: the packet handler
(`(State, EntityId, Packet) -> Handled`), `broadcast_keepalive` (`Server -> Server`), the
current time (integer milliseconds), the ECS query order (`Ecs.entities`), and whether the
`Warn` log level is enabled (`warnEnabled`).

The view is modelled as a square. It covers every chunk whose x and z each lie within
`radius` of the centre. Its chunks are enumerated one strip of constant x after another.
Every property below depends only on which chunks a view covers, not on this shape.

## Model

| member | source | states |
|---|---|---|
| `Chunks.DistanceSquared` | feather/common/src/events.rs:36-39 | the sort key is never negative and is zero exactly at the centre chunk itself |
| `Views.Difference` | feather/common/src/events.rs:33-34 | `a.difference(b)` lists each chunk covered by `a` and not by `b` exactly once, and nothing else |
| `DistanceSort.SortByDistance` | feather/common/src/events.rs:36-39 | the sorted list has non-decreasing squared distance to the centre and is a permutation of its input |
| `Events.NewViewUpdate` | feather/common/src/events.rs:28-41 | both views are stored unchanged; `new_chunks` holds each chunk only the new view covers exactly once, and `old_chunks` each chunk only the old view covers; each list is a permutation of the matching `difference` and is sorted by distance to its own view's centre |
| `Events.ViewUpdateMembership` | feather/common/src/events.rs:22-34 | both directions: a chunk is in `new_chunks` iff the new view covers it and the old one does not, and in `old_chunks` iff the reverse |
| `Events.ViewUpdateDisjoint` | feather/common/src/events.rs:22-34 | the two lists share no chunk, and a chunk both views cover is in neither |
| `Events.ViewUpdateSymmetricDifference` | feather/common/src/events.rs:33-34 | the chunks of both lists together are exactly the symmetric difference of the two covered sets |
| `Events.SameViewNoChunks` | feather/common/src/events.rs:33-34 | an update between equal views has both lists empty |
| `Events.StepAlongX` | feather/common/src/events.rs:29-41 | a one-chunk move along x with view distance r: the new far column (2r+1 chunks) enters, the old far column leaves, and each list starts with the chunk in line with its centre |
| `ServerSystems.Register` | crates/server/src/systems.rs:17-30 | the server becomes the game's resource before any registrar runs, so the view and entity registrars see it; earlier schedule entries are kept; the order is player_join, `handle_packets`, `send_keepalives` (Server group), view, chunk_subscriptions, player_leave, tablist, entity |
| `ServerSystems.RegisterOrder` | crates/server/src/systems.rs:20-29 | on a schedule without Server-group systems, `handle_packets` and `send_keepalives` each appear exactly once, `handle_packets` strictly first, right after player_join, with only other registrars after them |
| `ServerSystems.Collect` | crates/server/src/systems.rs:35-43 | every collected packet comes from a queried entity whose `ClientId` is in the client table; every visited client's buffer is drained and every other client is untouched |
| `ServerSystems.CollectIsConcatenation` | crates/server/src/systems.rs:37-43 | when no two entities share a client, the collected list is the concatenation, in query order, of each connected player's buffer in its own order |
| `ServerSystems.CollectTwice` | crates/server/src/systems.rs:39 | draining again without new arrivals collects nothing |
| `ServerSystems.Classify` | crates/server/src/systems.rs:46-50 | a handler result is a success; or, with the `Warn` level disabled, a silent failure with no `Name` lookup; or, with it enabled, a logged warning carrying the player's `Name` and the error, or an unnamed failure when the `Name` lookup on the game the handler left fails |
| `ServerSystems.Dispatch` | crates/server/src/systems.rs:45-55 | at most one outcome per packet; on `Ok` every packet was handed to the handler; an `Err` comes right after an unnamed failure, which is the last outcome; with the `Warn` level disabled the phase always succeeds and logs nothing |
| `ServerSystems.DispatchReplays` | crates/server/src/systems.rs:45-46 | each handler call sees the state the previous call left, the first sees the starting state, and each recorded outcome judges its own call |
| `ServerSystems.DispatchStopsOnlyOnMissingName` | crates/server/src/systems.rs:45-55 | the dispatch fails iff some call ended with the `Name` missing; that call is the last one made and its player is named in the error; on success every packet was handled |
| `ServerSystems.DispatchLog` | crates/server/src/systems.rs:46-51 | the log is the sequence of warnings of the logged failures, in packet order |
| `ServerSystems.HandlePackets` | crates/server/src/systems.rs:34-56 | the handler is called on the collected packets, in order, each call seeing the state the previous one left and the first seeing the game unchanged with the server as the collect phase left it; every connected buffer is already drained then (collect before dispatch); with distinct clients the collected list is the per-player concatenation; on `Ok` every collected packet was handled, and on `Err` the error names the player of the last packet handled; with the `Warn` level disabled the result is `Ok` |
| `ServerSystems.NoConnectedPlayers` | crates/server/src/systems.rs:37-38 | entities without a client in the table contribute no packets and no error |
| `ServerSystems.FailuresAreIsolated` | crates/server/src/systems.rs:45-55 | if every dispatched player has a `Name` at the start and the handler never takes a `Name` away, or if the `Warn` level is disabled, then every packet is handled whatever the handler returns and the system returns `Ok`; there is one warning per failed packet, or none when the level is disabled |
| `ServerSystems.SendKeepalives` | crates/server/src/systems.rs:59-65 | a keepalive is broadcast iff strictly more than 5000 ms have passed since the last one; the server changes only by that broadcast; the game is untouched; the result is always `Ok` |
| `ServerSystems.KeepaliveDebounce` | crates/server/src/systems.rs:59-65 | if `broadcast_keepalive` stamps the server with the broadcast time, a check against the returned server broadcasts again iff strictly more than 5000 ms have passed since that broadcast |
| `ServerSystems.KeepaliveBoundary` | crates/server/src/systems.rs:60-61 | exactly 5000 ms after the last keepalive nothing is sent; at 5001 ms one is |

## Left out

- The concrete `View`, `ChunkPosition` and `Chunk` types are not part of this model. The square shape and the strip-by-strip enumeration of `Views.Cells` are this model's choice.
- `ChunkLoadEvent` is left out. Its `Arc<RwLock<Chunk>>` payload exists for shared ownership and locking and carries no logic.
- `PlayerJoinEvent`, `EntityCreateEvent` and `EntityRemoveEvent` are left out. They are marker structs without data. The "alive one more tick" rule concerns ECS internals that are not part of this model.
- `BlockChangeEvent` is left out. Its module is not part of this model.
- Chunks.DistanceSquared: coordinates and distances are unbounded integers. The 32-bit arithmetic of the real `distance_squared_to` is not modelled, and no overflow is considered.
- Events.NewViewUpdate: the contract fixes only sortedness and the multiset of chunks. `sort_unstable_by_key` leaves the order among chunks at equal distance unspecified. The model's insertion sort happens to fix one such order, and nothing depends on it.
- The bodies of `player_join::register`, `view::register`, `chunk_subscriptions::register`, `player_leave::register`, `tablist::register` and `entity::register` are left out. Each is one opaque schedule entry, and none changes the game in this model.
- `packet_handlers::handle_packet` is a function parameter. Its effects are whatever the parameter returns.
- `received_packets` network I/O is left out. Each client's buffer is a given sequence.
- `log::warn!` becomes an appended `Warning` when the `Warn` level is enabled. The logger and its level filter are outside this model, so whether the level is enabled is the parameter `warnEnabled`.
- `Instant::now` is a parameter.
- ServerSystems.SendKeepalives: time is integer milliseconds. `Instant` and `Duration` have a finer resolution, so two instants within one millisecond are not told apart.
- `broadcast_keepalive` is a parameter. Any update of `last_keepalive_time` it might make is not asserted, because `send_keepalives` itself does not update it.
- The ECS is taken as given: `Ecs.entities` is assumed to list every entity that holds a `ClientId`, each once, as `query::<&ClientId>()` visits them. The model does not enforce this, and an entity with a `ClientId` that is missing from `Ecs.entities` is never collected.
- The system executor's handling of a system's `Err` and the ECS query machinery are not part of this model. The query order is the given `Ecs.entities`.

## Notes

- The keepalive check `last_keepalive_time + 5s < now` is strict. A check exactly five seconds after the last keepalive does not broadcast (`KeepaliveBoundary`), although "a keepalive every five seconds" might be read as including that instant. The model follows the code.
- `send_keepalives` does not itself update the last-keepalive timestamp. Whether the next broadcast is debounced depends on `broadcast_keepalive`, which is outside this model; `KeepaliveDebounce` states the debounce under the hypothesis that it stamps the server with the broadcast time.
- The `Name` lookup sits inside the arguments of `log::warn!`, which are evaluated only when the `Warn` level is enabled. With no logger installed the level is off, a handler error is silently dropped, and a missing `Name` never ends the system (`Classify`, `Dispatch`).
- Two entities sharing one `ClientId` are not excluded by the code. The first one visited drains the buffer and the second collects nothing; `Collect` models this. `CollectIsConcatenation` states the plain concatenation under the assumption that clients are distinct.
