# pointerrace-server: the session core, modelled in Dafny

The server in `server.js` keeps a registry of connected players. A module-level
counter, `game.playerCount`, tracks them. Each connection has a lifecycle
handle, `PlayerState`, built on a state-machine library.
Its states are `none → connecting → connected → disconnected`, and
`disconnected` is final. Entering `connected` adds one to the counter.
Entering `disconnected` deletes the player from the registry and subtracts
one. Both enter hooks then call `gameLoop.check()`. That call starts a
repeating timer when players are present and stops it when none are left.
On every timer tick, `_loop` builds a snapshot of the serialized players and
the counter. It broadcasts `serverstate` only when that snapshot differs from
the one kept from the previous broadcast. A `move` message overwrites the
sender's position.

The project has three modules, one file each:

- `lifecycle.dfy`, module `Lifecycle`. The declared transition table becomes
  the partial function `Step`, specified against the one forward path.
  `Run` fires a sequence of events. The class `PlayerState` is the mutable
  handle of one connection: its constructor fires `startup`, and `Fire`
  fires any event.
- `game.dfy`, module `Game`. The whole shared state as one value, `World`:
  the registry, the counter, the timer handle and the retained snapshot.
  It holds one function per operation of `server.js` and the invariant
  `Inv`: the counter equals the number of registered players in state
  `connected`, every registered player is `connected`, and the loop runs
  exactly while the counter is positive. Lemmas prove that every operation
  keeps `Inv`, and that any admissible sequence of connections,
  disconnections, moves and ticks does too.
- `server.dfy`, module `Server`. The objects of `server.js`. `Player` has a
  mutable `x`/`y` and its own `PlayerState`. `Server` gathers the module-level
  `players`, `game` and `gameLoop` state. Handlers take the `Player` object
  that the source's closures capture. Each method `ensures View() ==
  Game.<Op>(old(View()), …)` for the function `Op` that specifies it. `Valid()` includes `Game.Inv(View())`, so the
  counting invariant holds between any two events on the heap as well.

## Model

| member | source | states |
|---|---|---|
| Lifecycle.Step | server.js:72-81 | an event is legal exactly from its one `from` state; each legal step advances one place along none, connecting, connected, disconnected; nothing leaves `disconnected`; a refused event reports the state and event |
| Lifecycle.Run | server.js:76-80 | firing events one after another: a run that succeeds ends as many places along the path as it fired events; a refused run reports one of the events it was given |
| Lifecycle.RunFollowsPath | server.js:72-81 | any successful run of events from a state on the path fires exactly the next events of startup, connect, disconnect and ends that many places further on |
| Lifecycle.LifecycleFromNone | server.js:72-81 | from `none`, the only successful event sequences are prefixes of startup, connect, disconnect, ending at the matching state |
| Lifecycle.FinalIsAbsorbing | server.js:74 | from the final state every event sequence is refused at its first event |
| Lifecycle.PlayerState.constructor | server.js:52-55 | a new lifecycle handle has fired `startup` and is `connecting` |
| Lifecycle.PlayerState.Fire | server.js:76-80 | a legal event advances the state by `Step` and reports success; an illegal one is refused and leaves the state unchanged |
| Game.Start | server.js:42-44 | the loop is running with a handle not used before; registry, counter and retained snapshot are unchanged |
| Game.Stop | server.js:46-49 | the handle is 0 (stopped); nothing else changes |
| Game.Check | server.js:34-40 | afterwards the loop runs iff the count is positive (for a count that is not negative); when that already holds, or the loop was running and still is, nothing changes; registry, counter and snapshot never change |
| Game.CheckIdempotent | server.js:34-40 | calling `check` a second time with the count unchanged changes nothing |
| Game.Loop | server.js:21-32 | a broadcast happens iff the fresh snapshot differs from the retained one, and then carries the fresh snapshot; afterwards the retained snapshot is the fresh one and nothing else changed |
| Game.Serialize | server.js:90-96 | the serialized player carries exactly its id, x and y, and nothing of its lifecycle state |
| Game.SnapshotOf | server.js:22-25 | the snapshot has one entry per registered id, the serialization of that player, and the counter |
| Game.TimerTick | server.js:21-32 | a timer tick while the loop is stopped (`clearInterval` at server.js:47) sends nothing and changes nothing; while it runs, a tick is one `_loop` |
| Game.Fire | server.js:76-80 | on a registered player, the event succeeds iff the lifecycle step is legal, then sets that player's state to the event's target; otherwise the state is unchanged |
| Game.EnterConnected | server.js:57-62 | the counter goes up by 1, registry and retained snapshot are unchanged, and afterwards the loop is running |
| Game.EnterDisconnected | server.js:64-70 | the player's id leaves the registry, the counter goes down by 1, and afterwards the loop runs exactly while players are left |
| Game.Register | server.js:104 | the id now holds a new player at the origin, `connecting`; every other entry, the counter and the loop are unchanged |
| Game.ConnectEvent | server.js:107 | on a `connecting` player: it becomes `connected`, the counter goes up by 1 and the loop runs; from any other state nothing changes |
| Game.DisconnectEvent | server.js:110 | on a `connected` player: its id leaves the registry and the counter goes down by 1; from any other state nothing changes |
| Game.OnConnection | server.js:103-108 | the id holds a connected player at the origin (whether or not it was registered before), the counter goes up by 1 and the loop runs |
| Game.OnDisconnect | server.js:109-111 | a registered, connected player leaves the registry and the counter goes down by 1; an unregistered or not connected player changes nothing |
| Game.OnMove | server.js:113-116 | that player's x/y are the message values; no other player, no registry key, no counter and no loop state changes |
| Game.InitialInv | server.js:10-19 | the empty registry, counter 0 and stopped loop satisfy the invariant |
| Game.CountIsRegistrySize | server.js:13-15 | under the invariant every registered player is counted, so the counter is the registry size and never negative |
| Game.OnConnectionKeepsInv | server.js:103-111 | a connection under an unused id registers exactly that player, connected at the origin; it adds 1 to the counter, leaves the loop running, and keeps the invariant |
| Game.OnDisconnectKeepsInv | server.js:64-70 | disconnecting a registered player removes exactly its id (every other entry unchanged), subtracts 1 and keeps the invariant; disconnecting an unregistered player changes nothing |
| Game.LastDisconnectStopsLoop | server.js:64-70 | when the last player disconnects, the registry is empty, the counter is 0 and the loop is stopped |
| Game.NoBroadcastAfterLastDisconnect | server.js:34-49 | after the last player disconnects, a timer tick broadcasts nothing and changes nothing |
| Game.OnMoveKeepsInv | server.js:113-116 | a move sets that player's x/y and changes no other player, no registry key, no counter and no loop state; it keeps the invariant |
| Game.RepeatedMoveSilent | server.js:113-116 | moving a player to the position it already has changes nothing, so the tick after a broadcast sends nothing |
| Game.LoopKeepsInv | server.js:21-32 | a tick keeps the invariant |
| Game.SecondLoopSilent | server.js:27-31 | a second tick with no state change in between broadcasts nothing and changes nothing |
| Game.SnapshotSeesPositionsOnly | server.js:22-25 | two states have equal snapshots iff they agree on the registered ids, each player's x/y and the counter; lifecycle states, timers and the retained snapshot do not matter |
| Game.DuplicateIdBreaksCount | server.js:104 | a second connection under an id that is already registered overwrites the entry but counts again, which breaks the invariant; this is why connection ids must be unique |
| Game.ApplyKeepsInv | server.js:103-117 | every single event (connection under an unused id, disconnection, move, timer tick) keeps the invariant |
| Game.RunKeepsInv | server.js:57-70 | across any sequence of events where no connection reuses a registered id, the counter equals the number of connected registered players, equals the registry size, is never negative, and the loop runs exactly while it is positive |
| Server.Player.constructor | server.js:83-88 | a new player has the given id, is at x = 0, y = 0, and its new lifecycle handle is `connecting` |
| Server.Player.Serialize | server.js:90-96 | returns `Game.Serialize` of the player's id, x and y; it reads only the player object, never the lifecycle handle |
| Server.Server.constructor | server.js:10-19 | the server starts with the empty registry, counter 0, a stopped loop and no retained snapshot, and it is valid |
| Server.Server.Start | server.js:42-44 | follows `Game.Start` |
| Server.Server.Stop | server.js:46-49 | follows `Game.Stop` |
| Server.Server.Check | server.js:34-40 | follows `Game.Check` |
| Server.Server.Loop | server.js:21-32 | called only while the timer is installed, it returns the broadcast and updates the retained snapshot as `Game.Loop` and `Game.TimerTick` do, building the snapshot with `Player.Serialize`; the server stays valid |
| Server.Server.OnConnected | server.js:57-62 | adds 1 to the counter, then checks the loop |
| Server.Server.OnDisconnected | server.js:64-70 | deletes exactly the player's id from the registry, subtracts 1 and checks the loop |
| Server.Server.Register | server.js:104 | a fresh, connecting player is added under its id, as `Game.Register` does; every other player and handle is unchanged |
| Server.Server.FireConnect | server.js:107 | `connect()` on a registered player: the transition, then the enter hook if the transition was taken |
| Server.Server.FireDisconnect | server.js:110 | `disconnect()`: on a registered player, the transition and then the enter hook; on a player that has already left, a refusal that changes nothing |
| Server.Server.OnConnection | server.js:103-111 | registers a new player under the id and connects it, as `Game.OnConnection` does; the server stays valid, so the counting invariant holds |
| Server.Server.OnDisconnect | server.js:109-111 | disconnects the connection's player, as `Game.OnDisconnect` does; the server stays valid |
| Server.Server.OnMove | server.js:113-116 | sets the player's x and y to the message values and changes the shared state as `Game.OnMove` does; the server stays valid |

## Left out

- Transport. The socket.io calls (`listen`, `configure`, `io.sockets.on`,
  `client.on`) are network I/O. Each handler is a method, and the transport is
  whoever calls it. The `connected {uuid}` reply to the new client is not
  modelled. The `serverstate` broadcast is the value that `Loop` returns.
- Timers. `setInterval` and `clearInterval` are replaced by a handle field.
  `Start` takes its handle from a counter of timers started, so the handle is
  never 0. A timer tick is an explicit call of `Loop`. The 1 ms period and
  `PORT` have no bearing on the logic.
- Server.Server.Loop: requires `Valid()` and a nonzero handle. The timer only
  fires between handler runs, when the server is valid, and only while it is
  installed (`clearInterval` at server.js:47 cancels it), so this excludes no
  call the source makes. `Game.TimerTick` states the stopped case: nothing is
  sent.
- Unbound `this` in `_loop`. `setInterval(this._loop, …)` passes `_loop`
  unbound, so at run time `this._previous` lives on the timer object. Each new
  timer would then start with no retained snapshot. The model keeps
  `_previous` as the loop's own field, in both `Game.World` and
  `Server.Server`.
- Aliasing of `game`. The snapshot holds `game` by reference, so at run time
  its `game` part always equals the retained copy. The model compares the
  counter by value, as a copy.
- Key order. `_.invoke(players, 'serialize')` gives an array in key insertion
  order. The model keeps the serialized players as a map from id, so two
  registries with the same contents in a different order count as the same
  snapshot.
- State-machine library internals. How the library reports an illegal event
  (for example by throwing) is not modelled. An illegal event is refused and
  leaves every state unchanged.
- PlayerState back-reference. The `player` field that points back to the
  player is not a field in the model. The enter hooks are `Server` methods;
  the disconnect hook takes the player as a parameter.
- Server.Server.OnConnection: requires that no player ever constructed had
  this id. socket.io gives every connection a fresh id, and
  `Game.DuplicateIdBreaksCount` shows what a reused id would do.
- Server.Server.OnDisconnect and Server.Server.OnMove: require that `p` is a
  player this server constructed. Only the connection handler creates players.
- Console logging: not modelled.
- Coordinates are integers. The source does no arithmetic on them.
- Level progression, quorum sets and drift-compensated scheduling do not
  appear in `server.js` and are not modelled.
