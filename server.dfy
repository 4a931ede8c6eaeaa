/** The server of server.js as objects: `Player` (with its lifecycle handle)
    and `Server`, which gathers the module-level `players`, `game` and
    `gameLoop` state. Each method is tied to the function of module Game that
    specifies it, through the abstraction `Server.View()`. */
module Server {
  import Lifecycle
  import Game

  class Player {
    const id: Game.Id
    var x: int
    var y: int
    const state: Lifecycle.PlayerState

    /** `new Player(id)`: at the origin, with a new lifecycle handle, which
        has already fired `startup`. */
    constructor (id: Game.Id)
      ensures this.id == id && x == 0 && y == 0
      ensures fresh(state) && state.current == Lifecycle.Connecting
    {
      this.id := id;
      x, y := 0, 0;
      state := new Lifecycle.PlayerState();
    }

    /** `serialize`: the id and the position. It reads this object only, so
        it cannot depend on the lifecycle handle's state. */
    function Serialize(): (d: Game.PlayerData)
      reads this
      ensures d.id == id && d.x == x && d.y == y
      ensures d == Game.Serialize(id, x, y)
    {
      Game.Serialize(id, x, y)
    }
  }

  class Server {
    var players: map<Game.Id, Player>
    var playerCount: int
    var interval: nat
    var timers: nat
    var previous: Game.Option<Game.Snapshot>
    /** Every player ever constructed, registered or not, by its id. */
    ghost var byId: map<Game.Id, Player>
    /** The same players, by their lifecycle handle. */
    ghost var byState: map<Lifecycle.PlayerState, Player>

    /** What the registry holds for player `q`. */
    static ghost function EntryOf(q: Player): Game.Entry
      reads q, q.state
    {
      Game.Entry(q.x, q.y, q.state.current)
    }

    /** The registry as a value. */
    ghost function Registry(): map<Game.Id, Game.Entry>
      reads this`players, players.Values, set p | p in players.Values :: p.state
    {
      map k | k in players :: EntryOf(players[k])
    }

    /** The registry and the loop as a value. */
    ghost function View(): Game.World
      reads this, players.Values, set p | p in players.Values :: p.state
    {
      Game.World(Registry(), playerCount, interval, timers, previous)
    }

    /** Registered players are constructed ones, under their own id. */
    ghost predicate Keyed()
      reads this`players, this`byId
    {
      forall k | k in players :: k in byId && players[k] == byId[k]
    }

    /** Constructed players have distinct ids and distinct lifecycle handles. */
    ghost predicate Distinct()
      reads this`byId, this`byState
    {
      forall k | k in byId ::
        byId[k].id == k && byId[k].state in byState && byState[byId[k].state] == byId[k]
    }

    /** A constructed player is `connected` while registered and
        `disconnected` once it has left the registry. */
    ghost predicate StatesMatch()
      reads this`players, this`byId, this`byState, byState.Keys
    {
      forall k | k in byId && byId[k].state in byState ::
        byId[k].state.current == if k in players then Lifecycle.Connected else Lifecycle.Disconnected
    }

    /** The object invariant: the three above, and the invariant of module
        Game for the value the server stands for. */
    ghost predicate Valid()
      reads this, byId.Values, byState.Keys
    {
      Keyed() && Distinct() && StatesMatch() && Game.Inv(View())
    }

    /** The globals at process start. */
    constructor ()
      ensures Valid() && byId == map[]
      ensures View() == Game.Initial
    {
      players := map[];
      playerCount := 0;
      interval := 0;
      timers := 0;
      previous := Game.None;
      byId := map[];
      byState := map[];
      new;
      Game.InitialInv();
    }

    /** `gameLoop.start`. */
    method Start()
      modifies this`interval, this`timers
      ensures View() == Game.Start(old(View()))
    {
      timers := timers + 1;
      interval := timers;
    }

    /** `gameLoop.stop`. */
    method Stop()
      modifies this`interval
      ensures View() == Game.Stop(old(View()))
    {
      interval := 0;
    }

    /** `gameLoop.check`. */
    method Check()
      modifies this`interval, this`timers
      ensures View() == Game.Check(old(View()))
    {
      if playerCount > 0 && interval == 0 {
        Start();
      } else if playerCount == 0 && interval != 0 {
        Stop();
      }
    }

    /** `gameLoop._loop`: returns the `serverstate` broadcast, if any. The
        timer calls it only while it is installed. */
    method Loop() returns (sent: Game.Option<Game.Snapshot>)
      requires Valid() && interval != 0
      modifies this`previous
      ensures Valid()
      ensures (View(), sent) == Game.Loop(old(View()))
      ensures (View(), sent) == Game.TimerTick(old(View()))
    {
      var state := Game.Snapshot(
        map k | k in players :: players[k].Serialize(),
        Game.GameState(playerCount));
      assert state == Game.SnapshotOf(View());
      if previous != Game.Some(state) {
        sent := Game.Some(state);
        previous := Game.Some(state);
      } else {
        sent := Game.None;
      }
    }

    /** `PlayerState.prototype.onconnected`. */
    method OnConnected()
      modifies this`playerCount, this`interval, this`timers
      ensures View() == Game.EnterConnected(old(View()))
    {
      playerCount := playerCount + 1;
      Check();
    }

    /** `PlayerState.prototype.ondisconnected` of player `p`. */
    method OnDisconnected(p: Player)
      modifies this`players, this`playerCount, this`interval, this`timers
      ensures players == old(players) - {p.id}
      ensures View() == Game.EnterDisconnected(old(View()), p.id)
    {
      players := players - {p.id};
      playerCount := playerCount - 1;
      Check();
    }

    /** `players[client.id] = new Player(client.id)`: the new player is
        registered, still `connecting`. */
    method Register(id: Game.Id) returns (p: Player)
      requires Valid() && id !in byId
      modifies this`players, this`byId, this`byState
      ensures fresh(p) && fresh(p.state) && p.id == id
      ensures players == old(players)[id := p]
      ensures byId == old(byId)[id := p] && byState == old(byState)[p.state := p]
      ensures Keyed() && Distinct() && p.state.current == Lifecycle.Connecting
      ensures forall k | k in old(byId) :: byId[k].state != p.state && byId[k].state.current == old(byId[k].state.current)
      ensures Registry() == old(Registry())[id := Game.NewEntry]
      ensures View() == Game.Register(old(View()), id)
    {
      ghost var r0 := Registry();
      p := new Player(id);
      assert Registry() == r0;
      players := players[id := p];
      assert Registry() == r0[id := Game.NewEntry];
      byId := byId[id := p];
      byState := byState[p.state := p];
    }

    /** `player.state.connect()`: the transition and, when it is taken, the
        `onconnected` hook. */
    method FireConnect(p: Player)
      requires Keyed() && Distinct() && p.id in players && players[p.id] == p
      modifies this`playerCount, this`interval, this`timers, p.state
      ensures p.state.current == if old(p.state.current) == Lifecycle.Connecting then Lifecycle.Connected else old(p.state.current)
      ensures View() == Game.ConnectEvent(old(View()), p.id)
    {
      ghost var w := View();
      assert forall k | k in players && k != p.id :: players[k].state != p.state by {
        forall k | k in players && k != p.id ensures players[k].state != p.state {
          assert byState[players[k].state] == players[k];
        }
      }
      var ok := p.state.Fire(Lifecycle.Connect);
      if ok {
        assert Registry() == w.players[p.id := w.players[p.id].(state := Lifecycle.Connected)];
        OnConnected();
      } else {
        assert Registry() == w.players;
      }
    }

    /** `player.state.disconnect()`: the transition and, when it is taken,
        the `ondisconnected` hook. */
    method FireDisconnect(p: Player)
      requires Keyed() && Distinct() && p.id in byId && byId[p.id] == p
      requires p.id in players || p.state.current == Lifecycle.Disconnected
      modifies this`players, this`playerCount, this`interval, this`timers, p.state
      ensures p.state.current == if old(p.state.current) == Lifecycle.Connected then Lifecycle.Disconnected else old(p.state.current)
      ensures p.id in old(players) ==> View() == Game.DisconnectEvent(old(View()), p.id)
      ensures p.id !in old(players) ==> View() == old(View())
      ensures players == if p.state.current != old(p.state.current) then old(players) - {p.id} else old(players)
    {
      ghost var w := View();
      assert forall k | k in players && k != p.id :: players[k].state != p.state by {
        forall k | k in players && k != p.id ensures players[k].state != p.state {
          assert byState[players[k].state] == players[k];
        }
      }
      var ok := p.state.Fire(Lifecycle.Disconnect);
      if ok {
        assert p.id in players;
        assert Registry() == w.players[p.id := w.players[p.id].(state := Lifecycle.Disconnected)];
        OnDisconnected(p);
      } else {
        assert Registry() == w.players;
      }
    }

    /** The `connection` handler: registers a new player under the
        connection's id and fires `connect`. The transport never reuses an
        id. */
    method OnConnection(id: Game.Id) returns (p: Player)
      requires Valid() && id !in byId
      modifies this
      ensures Valid()
      ensures fresh(p) && fresh(p.state) && p.id == id && byId == old(byId)[id := p]
      ensures View() == Game.OnConnection(old(View()), id)
    {
      ghost var w := View();
      ghost var before := byId;
      p := Register(id);
      assert View() == Game.Register(w, id);
      FireConnect(p);
      assert View() == Game.OnConnection(w, id);
      Game.OnConnectionKeepsInv(w, id);
      forall k | k in byId && byId[k].state in byState
        ensures byId[k].state.current == if k in players then Lifecycle.Connected else Lifecycle.Disconnected
      {
        if k != id {
          assert k in before;
        }
      }
    }

    /** The `disconnect` handler of the connection whose player is `p`. */
    method OnDisconnect(p: Player)
      requires Valid() && p.id in byId && byId[p.id] == p
      modifies this, p.state
      ensures Valid() && byId == old(byId)
      ensures View() == Game.OnDisconnect(old(View()), p.id)
    {
      ghost var w := View();
      FireDisconnect(p);
      Game.OnDisconnectKeepsInv(w, p.id);
      forall k | k in byId && byId[k].state in byState
        ensures byId[k].state.current == if k in players then Lifecycle.Connected else Lifecycle.Disconnected
      {
        if byId[k].state == p.state {
          assert byId[k] == byState[p.state] == p;
        }
      }
    }

    /** The `move` handler of the connection whose player is `p`. */
    method OnMove(p: Player, newX: int, newY: int)
      requires Valid() && p.id in byId && byId[p.id] == p
      modifies p
      ensures Valid()
      ensures p.x == newX && p.y == newY
      ensures View() == Game.OnMove(old(View()), p.id, newX, newY)
    {
      ghost var w := View();
      p.x := newX;
      p.y := newY;
      if p.id in players {
        assert Registry() == w.players[p.id := w.players[p.id].(x := newX, y := newY)];
      } else {
        assert Registry() == w.players;
      }
      Game.OnMoveKeepsInv(w, p.id, newX, newY);
    }
  }
}
