/** The per-connection lifecycle of a player (`PlayerState` in server.js).
    The declarative transition table given to the state-machine library is
    written out as an explicit partial transition function `Step`; the
    mutable current state of one connection is the class `PlayerState`. */
module Lifecycle {

  datatype State = None | Connecting | Connected | Disconnected

  datatype Event = Startup | Connect | Disconnect

  /** The result of firing an event: the new state, or the rejected request. */
  datatype Outcome = Ok(next: State) | InvalidTransition(from: State, event: Event)

  /** The single forward path of the machine, in order, and the events that
      walk it: `Events[i]` leads from `Path[i]` to `Path[i + 1]`. */
  const Path: seq<State> := [None, Connecting, Connected, Disconnected]
  const Events: seq<Event> := [Startup, Connect, Disconnect]

  /** Position of a state on the forward path. */
  function Index(s: State): (i: nat)
    ensures i < |Path| && Path[i] == s
  {
    match s
    case None => 0
    case Connecting => 1
    case Connected => 2
    case Disconnected => 3
  }

  /** Position of an event in the walk along the path. */
  function EventIndex(e: Event): (i: nat)
    ensures i < |Events| && Events[i] == e
  {
    match e
    case Startup => 0
    case Connect => 1
    case Disconnect => 2
  }

  /** The `from` column of the declared transition table. */
  function From(e: Event): State
  {
    match e
    case Startup => None
    case Connect => Connecting
    case Disconnect => Connected
  }

  /** The `to` column of the declared transition table. */
  function To(e: Event): State
  {
    match e
    case Startup => Connecting
    case Connect => Connected
    case Disconnect => Disconnected
  }

  /** `disconnected` is declared final. */
  predicate IsFinal(s: State)
  {
    s == Disconnected
  }

  /** Firing event `e` in state `s`: legal exactly when `s` is the event's one
      `from` state; every legal step advances one place along the path, and
      nothing leaves the final state. */
  function Step(s: State, e: Event): (r: Outcome)
    ensures r.Ok? <==> Index(s) == EventIndex(e)
    ensures r.Ok? ==> Index(r.next) == Index(s) + 1
    ensures IsFinal(s) ==> r.InvalidTransition?
    ensures r.InvalidTransition? ==> r == InvalidTransition(s, e)
  {
    if s == From(e) then Ok(To(e)) else InvalidTransition(s, e)
  }

  /** Firing a sequence of events one after another; the first rejected
      event stops the run. A run that succeeds ends as many places further
      along the path as it fired events; a run that fails was refused one of
      the events it was given. */
  function Run(s: State, es: seq<Event>): (r: Outcome)
    ensures r.Ok? ==> Index(r.next) == Index(s) + |es|
    ensures r.InvalidTransition? ==> r.event in es
    decreases |es|
  {
    if es == [] then Ok(s)
    else
      match Step(s, es[0])
      case Ok(t) => Run(t, es[1..])
      case InvalidTransition(f, e) => InvalidTransition(f, e)
  }

  /** Any run that succeeds from a state on the path fires exactly the next
      events of the walk and ends that many places further along. */
  lemma {:induction false} RunFollowsPath(i: nat, es: seq<Event>)
    requires i < |Path|
    requires Run(Path[i], es).Ok?
    ensures i + |es| < |Path|
    ensures es == Events[i..i + |es|]
    ensures Run(Path[i], es).next == Path[i + |es|]
    decreases |es|
  {
    if es != [] {
      var t := Step(Path[i], es[0]);
      assert t.Ok?;
      assert Index(Path[i]) == i;
      assert EventIndex(es[0]) == i;
      assert Index(t.next) == i + 1;
      assert t.next == Path[i + 1];
      RunFollowsPath(i + 1, es[1..]);
      assert es == [es[0]] + es[1..];
    }
  }

  /** From `none`, the only successful event sequences are prefixes of
      startup, connect, disconnect. */
  lemma LifecycleFromNone(es: seq<Event>)
    requires Run(None, es).Ok?
    ensures |es| <= 3 && es == [Startup, Connect, Disconnect][..|es|]
    ensures Run(None, es).next == [None, Connecting, Connected, Disconnected][|es|]
  {
    RunFollowsPath(0, es);
  }

  /** Once final, every further event is rejected and the state stays final. */
  lemma FinalIsAbsorbing(es: seq<Event>)
    requires es != []
    ensures Run(Disconnected, es) == InvalidTransition(Disconnected, es[0])
  {
  }

  /** The mutable lifecycle handle of one connection. */
  class PlayerState {
    var current: State

    /** Construction fires `startup`, so a new handle is `connecting`. */
    constructor ()
      ensures current == Connecting
    {
      current := None;
      new;
      var ok := Fire(Startup);
    }

    /** Fires one event: on a legal transition the state advances and `ok`
        is true; an event not legal from the current state is refused and
        leaves the state as it was. */
    method Fire(e: Event) returns (ok: bool)
      modifies this
      ensures ok <==> Step(old(current), e).Ok?
      ensures current == if ok then Step(old(current), e).next else old(current)
    {
      match Step(current, e)
      case Ok(t) =>
        current := t;
        ok := true;
      case InvalidTransition(_, _) =>
        ok := false;
    }
  }
}
