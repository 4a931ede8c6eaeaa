/** The server's shared state as a value: the participant registry, the global
    player counter and the broadcast loop's timer handle and retained snapshot,
    with one function per operation of server.js. The classes in module
    Server are proved to follow these functions step by step; the invariants
    of the server are proved here, once, about the values. */
module Game {
  import Lifecycle

  /** A connection id, assigned by the transport. */
  type Id = string

  datatype Option<T> = None | Some(value: T)

  /** What the registry holds for one player: its position and the current
      state of its lifecycle handle. */
  datatype Entry = Entry(x: int, y: int, state: Lifecycle.State)

  /** `Player.prototype.serialize`: only the id and the position. */
  datatype PlayerData = PlayerData(id: Id, x: int, y: int)

  /** The global `game` object. */
  datatype GameState = GameState(playerCount: int)

  /** What one loop iteration compares and broadcasts as `serverstate`. */
  datatype Snapshot = Snapshot(players: map<Id, PlayerData>, game: GameState)

  /** All shared state: `players`, `game.playerCount`, and the loop's
      `_interval` (0 while stopped) and `_previous` (None until the first
      broadcast). `timers` counts the timers started so far and is the source
      of fresh nonzero interval handles. */
  datatype World = World(
    players: map<Id, Entry>,
    playerCount: int,
    interval: nat,
    timers: nat,
    previous: Option<Snapshot>)

  /** The state at process start. */
  const Initial: World := World(map[], 0, 0, 0, None)

  /** A freshly constructed player: at the origin, lifecycle `connecting`. */
  const NewEntry: Entry := Entry(0, 0, Lifecycle.Connecting)

  /** Ids of the registered players whose lifecycle is `connected`. */
  function ConnectedIds(players: map<Id, Entry>): set<Id>
  {
    set id | id in players && players[id].state == Lifecycle.Connected
  }

  predicate Running(w: World)
  {
    w.interval != 0
  }

  /** The invariant the server keeps between events: the counter is the
      number of connected registered players, every registered player is
      connected, and the loop runs exactly while someone is connected. */
  predicate Inv(w: World)
  {
    && w.playerCount == |ConnectedIds(w.players)|
    && (forall id | id in w.players :: w.players[id].state == Lifecycle.Connected)
    && (Running(w) <==> w.playerCount > 0)
  }

  /** `Player.prototype.serialize` of the player `id` at (`x`, `y`): the id
      and the position, and nothing of the lifecycle state. */
  function Serialize(id: Id, x: int, y: int): (d: PlayerData)
    ensures d.id == id && d.x == x && d.y == y
  {
    PlayerData(id, x, y)
  }

  /** The `state` object built at the top of `_loop`: every registered
      player, serialized under its id, and the counter. */
  function SnapshotOf(w: World): (s: Snapshot)
    ensures s.players.Keys == w.players.Keys
    ensures forall id | id in w.players :: s.players[id] == Serialize(id, w.players[id].x, w.players[id].y)
    ensures s.game.playerCount == w.playerCount
  {
    Snapshot(map id | id in w.players :: Serialize(id, w.players[id].x, w.players[id].y), GameState(w.playerCount))
  }

  // ---------------------------------------------------------------- loop

  /** `gameLoop.start`: installs a fresh nonzero timer handle. */
  function Start(w: World): (r: World)
    ensures Running(r) && r.interval > w.timers
    ensures r.players == w.players && r.playerCount == w.playerCount && r.previous == w.previous
  {
    w.(timers := w.timers + 1, interval := w.timers + 1)
  }

  /** `gameLoop.stop`: clears the handle. */
  function Stop(w: World): (r: World)
    ensures !Running(r)
    ensures r.players == w.players && r.playerCount == w.playerCount && r.previous == w.previous
    ensures r.timers == w.timers
  {
    w.(interval := 0)
  }

  /** `gameLoop.check`: afterwards the loop runs exactly when the count is
      positive (for any count that is not negative); when that already holds,
      nothing changes. */
  function Check(w: World): (r: World)
    ensures r.players == w.players && r.playerCount == w.playerCount && r.previous == w.previous
    ensures w.playerCount >= 0 ==> (Running(r) <==> w.playerCount > 0)
    ensures (Running(w) <==> w.playerCount > 0) ==> r == w
    ensures Running(w) && Running(r) ==> r == w
  {
    if w.playerCount > 0 && w.interval == 0 then Start(w)
    else if w.playerCount == 0 && w.interval != 0 then Stop(w)
    else w
  }

  /** `_loop`: broadcasts the fresh snapshot exactly when it differs from the
      retained one; afterwards the retained snapshot is the fresh one, and
      nothing else changes. */
  function Loop(w: World): (r: (World, Option<Snapshot>))
    ensures r.1.Some? <==> w.previous != Some(SnapshotOf(w))
    ensures r.1.Some? ==> r.1.value == SnapshotOf(w)
    ensures r.0 == w.(previous := Some(SnapshotOf(w)))
  {
    var state := SnapshotOf(w);
    if w.previous != Some(state) then (w.(previous := Some(state)), Some(state))
    else (w, None)
  }

  // ---------------------------------------------------------------- lifecycle

  /** Fires a lifecycle event on the registered player `id`. */
  function Fire(w: World, id: Id, e: Lifecycle.Event): (r: (World, bool))
    requires id in w.players
    ensures r.1 <==> Lifecycle.Step(w.players[id].state, e).Ok?
    ensures r.1 ==> r.0 == w.(players := w.players[id := w.players[id].(state := Lifecycle.To(e))])
    ensures !r.1 ==> r.0 == w
  {
    match Lifecycle.Step(w.players[id].state, e)
    case Ok(t) => (w.(players := w.players[id := w.players[id].(state := t)]), true)
    case InvalidTransition(_, _) => (w, false)
  }

  /** `PlayerState.prototype.onconnected`: counts one more player and
      checks the loop, which is then running. */
  function EnterConnected(w: World): (r: World)
    ensures r.players == w.players && r.playerCount == w.playerCount + 1 && r.previous == w.previous
    ensures w.playerCount >= 0 ==> Running(r)
  {
    Check(w.(playerCount := w.playerCount + 1))
  }

  /** `PlayerState.prototype.ondisconnected` of the player `id`: deletes it,
      counts one player less and checks the loop, which then runs exactly
      while someone is left. */
  function EnterDisconnected(w: World, id: Id): (r: World)
    ensures r.players == w.players - {id} && r.playerCount == w.playerCount - 1 && r.previous == w.previous
    ensures w.playerCount >= 1 ==> (Running(r) <==> w.playerCount > 1)
  {
    Check(w.(players := w.players - {id}, playerCount := w.playerCount - 1))
  }

  // ---------------------------------------------------------------- handlers

  /** The `connect` event of the registered player `id`: the transition,
      and on success the `onconnected` hook. */
  function ConnectEvent(w: World, id: Id): (r: World)
    requires id in w.players
    ensures w.players[id].state == Lifecycle.Connecting ==>
      && r.players == w.players[id := w.players[id].(state := Lifecycle.Connected)]
      && r.playerCount == w.playerCount + 1
      && (w.playerCount >= 0 ==> Running(r))
    ensures w.players[id].state != Lifecycle.Connecting ==> r == w
    ensures r.previous == w.previous
  {
    var f := Fire(w, id, Lifecycle.Connect);
    if f.1 then EnterConnected(f.0) else f.0
  }

  /** The `disconnect` event of the registered player `id`: the transition,
      and on success the `ondisconnected` hook. */
  function DisconnectEvent(w: World, id: Id): (r: World)
    requires id in w.players
    ensures w.players[id].state == Lifecycle.Connected ==>
      r.players == w.players - {id} && r.playerCount == w.playerCount - 1
    ensures w.players[id].state != Lifecycle.Connected ==> r == w
    ensures r.previous == w.previous
  {
    var f := Fire(w, id, Lifecycle.Disconnect);
    if f.1 then EnterDisconnected(f.0, id) else f.0
  }

  /** `players[client.id] = new Player(client.id)`: the id now holds a
      fresh player; every other entry and all other state is unchanged. */
  function Register(w: World, id: Id): (r: World)
    ensures r.players.Keys == w.players.Keys + {id} && r.players[id] == NewEntry
    ensures forall k | k in w.players && k != id :: r.players[k] == w.players[k]
    ensures r.(players := w.players) == w
  {
    w.(players := w.players[id := NewEntry])
  }

  /** The `connection` handler: registers a new player, then fires `connect`,
      whose enter hook counts the player and checks the loop. */
  function OnConnection(w: World, id: Id): (r: World)
    ensures r.players == w.players[id := Entry(0, 0, Lifecycle.Connected)]
    ensures r.playerCount == w.playerCount + 1 && r.previous == w.previous
    ensures w.playerCount >= 0 ==> Running(r)
  {
    ConnectEvent(Register(w, id), id)
  }

  /** The `disconnect` handler: fires `disconnect` on the player. A player no
      longer in the registry has already reached the final state, so the
      event is refused and nothing changes. */
  function OnDisconnect(w: World, id: Id): (r: World)
    ensures id in w.players && w.players[id].state == Lifecycle.Connected ==>
      r.players == w.players - {id} && r.playerCount == w.playerCount - 1
    ensures id in w.players && w.players[id].state != Lifecycle.Connected ==> r == w
    ensures id !in w.players ==> r == w
    ensures r.previous == w.previous
  {
    if id !in w.players then w else DisconnectEvent(w, id)
  }

  /** The `move` handler: overwrites the player's position. A player no
      longer in the registry is not part of any snapshot, so moving it
      changes nothing that is shared. */
  function OnMove(w: World, id: Id, x: int, y: int): (r: World)
    ensures r.players.Keys == w.players.Keys
    ensures id in w.players ==> r.players[id] == w.players[id].(x := x, y := y)
    ensures forall k | k in w.players && k != id :: r.players[k] == w.players[k]
    ensures r.(players := w.players) == w
  {
    if id in w.players then w.(players := w.players[id := w.players[id].(x := x, y := y)])
    else w
  }

  // ---------------------------------------------------------------- properties

  lemma InitialInv()
    ensures Inv(Initial)
  {
  }

  /** Under the invariant every registered player is counted, so the counter
      is the size of the registry and never negative. */
  lemma CountIsRegistrySize(w: World)
    requires Inv(w)
    ensures ConnectedIds(w.players) == w.players.Keys
    ensures w.playerCount == |w.players| >= 0
  {
  }

  lemma ConnectedIdsInsert(players: map<Id, Entry>, id: Id, e: Entry)
    requires id !in players && e.state == Lifecycle.Connected
    ensures ConnectedIds(players[id := e]) == ConnectedIds(players) + {id}
    ensures |ConnectedIds(players[id := e])| == |ConnectedIds(players)| + 1
  {
  }

  lemma ConnectedIdsRemove(players: map<Id, Entry>, id: Id)
    requires id in ConnectedIds(players)
    ensures ConnectedIds(players - {id}) == ConnectedIds(players) - {id}
    ensures |ConnectedIds(players - {id})| == |ConnectedIds(players)| - 1
  {
  }

  /** A connection with an id not in the registry registers exactly that
      player, connected and at the origin, counts it, starts the loop if it
      was stopped, and keeps the invariant. */
  lemma OnConnectionKeepsInv(w: World, id: Id)
    requires Inv(w) && id !in w.players
    ensures Inv(OnConnection(w, id))
    ensures OnConnection(w, id).players == w.players[id := Entry(0, 0, Lifecycle.Connected)]
    ensures OnConnection(w, id).playerCount == w.playerCount + 1
    ensures Running(OnConnection(w, id))
    ensures OnConnection(w, id).previous == w.previous
  {
    var r := OnConnection(w, id);
    var e := Entry(0, 0, Lifecycle.Connected);
    assert r.players == w.players[id := e];
    ConnectedIdsInsert(w.players, id, e);
  }

  /** The disconnect of a registered player removes exactly its id (every
      other entry is unchanged), subtracts one, stops the loop when this was
      the last player, and keeps the invariant; the disconnect of a player
      not registered changes nothing. */
  lemma OnDisconnectKeepsInv(w: World, id: Id)
    requires Inv(w)
    ensures Inv(OnDisconnect(w, id))
    ensures id in w.players ==> OnDisconnect(w, id).players == w.players - {id}
    ensures id in w.players ==> OnDisconnect(w, id).playerCount == w.playerCount - 1
    ensures id !in w.players ==> OnDisconnect(w, id) == w
    ensures OnDisconnect(w, id).previous == w.previous
  {
    if id in w.players {
      var f := Fire(w, id, Lifecycle.Disconnect);
      assert f.1;
      var e := w.players[id].(state := Lifecycle.Disconnected);
      assert f.0.players == w.players[id := e];
      assert f.0.players - {id} == w.players - {id};
      assert id in ConnectedIds(w.players);
      ConnectedIdsRemove(w.players, id);
    }
  }

  /** Moving touches that player's position only: no other player, not the
      counter, not the loop; the invariant is kept. */
  lemma OnMoveKeepsInv(w: World, id: Id, x: int, y: int)
    requires Inv(w)
    ensures Inv(OnMove(w, id, x, y))
    ensures id in w.players ==> OnMove(w, id, x, y).players[id] == w.players[id].(x := x, y := y)
    ensures OnMove(w, id, x, y).players.Keys == w.players.Keys
    ensures forall k | k in w.players && k != id :: OnMove(w, id, x, y).players[k] == w.players[k]
    ensures OnMove(w, id, x, y).(players := w.players) == w
  {
    var r := OnMove(w, id, x, y);
    assert ConnectedIds(r.players) == ConnectedIds(w.players);
  }

  /** Calling `check` a second time, with the count unchanged, changes
      nothing, whatever the count. */
  lemma CheckIdempotent(w: World)
    ensures Check(Check(w)) == Check(w)
  {
  }

  /** A loop iteration keeps the invariant. */
  lemma LoopKeepsInv(w: World)
    requires Inv(w)
    ensures Inv(Loop(w).0)
  {
  }

  /** A second iteration with no state change in between broadcasts nothing
      and changes nothing. */
  lemma SecondLoopSilent(w: World)
    ensures Loop(Loop(w).0).1 == None
    ensures Loop(Loop(w).0).0 == Loop(w).0
  {
  }

  /** The snapshot sees exactly the registered ids, their positions and the
      counter: two states agree on those exactly when their snapshots are
      equal, whatever their lifecycle states, timers or retained snapshots. */
  lemma SnapshotSeesPositionsOnly(w1: World, w2: World)
    ensures SnapshotOf(w1) == SnapshotOf(w2) <==>
      && w1.players.Keys == w2.players.Keys
      && (forall id | id in w1.players && id in w2.players ::
            w1.players[id].x == w2.players[id].x && w1.players[id].y == w2.players[id].y)
      && w1.playerCount == w2.playerCount
  {
    var s1, s2 := SnapshotOf(w1), SnapshotOf(w2);
    if s1 == s2 {
      assert s1.players.Keys == w1.players.Keys;
      assert s2.players.Keys == w2.players.Keys;
      forall id | id in w1.players && id in w2.players
        ensures w1.players[id].x == w2.players[id].x && w1.players[id].y == w2.players[id].y
      {
        assert s1.players[id] == s2.players[id];
      }
    }
  }

  /** Sending the position a player already has leaves the shared state as it
      was, so the next loop iteration after a broadcast sends nothing. */
  lemma RepeatedMoveSilent(w: World, id: Id, x: int, y: int)
    requires id in w.players && w.players[id].x == x && w.players[id].y == y
    ensures OnMove(Loop(w).0, id, x, y) == Loop(w).0
    ensures Loop(OnMove(Loop(w).0, id, x, y)).1 == None
  {
  }

  /** When the last player disconnects the counter reaches 0 and the loop
      stops. */
  lemma LastDisconnectStopsLoop(w: World, id: Id)
    requires Inv(w) && w.players.Keys == {id}
    ensures OnDisconnect(w, id).players == map[]
    ensures OnDisconnect(w, id).playerCount == 0
    ensures !Running(OnDisconnect(w, id))
  {
    OnDisconnectKeepsInv(w, id);
    CountIsRegistrySize(w);
    assert w.players - {id} == map[];
  }

  /** The invariant needs connection ids to be unique among registered
      players: a second connection with an id already registered overwrites
      the entry yet counts again. */
  lemma DuplicateIdBreaksCount()
    ensures Inv(OnConnection(Initial, "a"))
    ensures !Inv(OnConnection(OnConnection(Initial, "a"), "a"))
  {
    var w := OnConnection(Initial, "a");
    InitialInv();
    OnConnectionKeepsInv(Initial, "a");
    var w2 := OnConnection(w, "a");
    assert w2.players == map["a" := Entry(0, 0, Lifecycle.Connected)];
    assert ConnectedIds(w2.players) == {"a"};
    assert w2.playerCount == 2;
  }

  // ---------------------------------------------------------------- event sequences

  /** One thing that can happen to the server. */
  datatype Input = Connection(id: Id) | Disconnection(id: Id) | Move(id: Id, x: int, y: int) | Tick

  /** A timer tick: `_loop` runs only while its timer is installed, so a
      stopped loop sends nothing and changes nothing. */
  function TimerTick(w: World): (r: (World, Option<Snapshot>))
    ensures !Running(w) ==> r.1 == None && r.0 == w
    ensures Running(w) ==> r == Loop(w)
  {
    if Running(w) then Loop(w) else (w, None)
  }

  function Apply(w: World, i: Input): World
  {
    match i
    case Connection(id) => OnConnection(w, id)
    case Disconnection(id) => OnDisconnect(w, id)
    case Move(id, x, y) => OnMove(w, id, x, y)
    case Tick => TimerTick(w).0
  }

  function Run(w: World, ins: seq<Input>): World
    decreases |ins|
  {
    if ins == [] then w else Run(Apply(w, ins[0]), ins[1..])
  }

  /** The transport's promise: a new connection never reuses a registered id. */
  predicate Admissible(w: World, ins: seq<Input>)
    decreases |ins|
  {
    ins == [] ||
    ((ins[0].Connection? ==> ins[0].id !in w.players) && Admissible(Apply(w, ins[0]), ins[1..]))
  }

  lemma ApplyKeepsInv(w: World, i: Input)
    requires Inv(w)
    requires i.Connection? ==> i.id !in w.players
    ensures Inv(Apply(w, i))
  {
    match i
    case Connection(id) => OnConnectionKeepsInv(w, id);
    case Disconnection(id) => OnDisconnectKeepsInv(w, id);
    case Move(id, x, y) => OnMoveKeepsInv(w, id, x, y);
    case Tick => LoopKeepsInv(w);
  }

  /** Once the last player has disconnected, timer ticks broadcast nothing. */
  lemma NoBroadcastAfterLastDisconnect(w: World, id: Id)
    requires Inv(w) && w.players.Keys == {id}
    ensures TimerTick(OnDisconnect(w, id)).1 == None
    ensures TimerTick(OnDisconnect(w, id)).0 == OnDisconnect(w, id)
  {
    LastDisconnectStopsLoop(w, id);
  }

  /** Across any admissible sequence of connections, disconnections, moves
      and loop iterations, the counter equals the number of connected
      registered players, is never negative, and the loop runs exactly while
      it is positive. */
  lemma {:induction false} RunKeepsInv(w: World, ins: seq<Input>)
    requires Inv(w) && Admissible(w, ins)
    ensures Inv(Run(w, ins))
    ensures Run(w, ins).playerCount == |Run(w, ins).players| >= 0
    decreases |ins|
  {
    if ins == [] {
      CountIsRegistrySize(w);
    } else {
      ApplyKeepsInv(w, ins[0]);
      RunKeepsInv(Apply(w, ins[0]), ins[1..]);
    }
  }
}
