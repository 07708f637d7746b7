/**
 * The WebSocket server's session state and the handlers that change it:
 * connections, handshakes (and the timer that registers a silent connection
 * as a board), releasing control, state updates from the master, closing a
 * connection (with the grace period for a master's token) and the promotion
 * of the oldest slave. Times and the newly generated tokens are parameters;
 * sent messages are appended to `outbox`.
 */
module Session {
  import opened Wrappers
  import opened JsValue
  import opened Arbitration
  import GameStateValidation

  /** How long a departed master's token stays good, in milliseconds. */
  const GracePeriodMs := 5000

  /** `xs` without `x`. */
  function Without(xs: seq<ClientId>, x: ClientId): seq<ClientId>
  {
    if |xs| == 0 then []
    else (if xs[0] == x then [] else [xs[0]]) + Without(xs[1..], x)
  }

  /** Removing an element keeps every other one and drops it; repetition-free lists stay so. */
  lemma {:induction false} WithoutSpec(xs: seq<ClientId>, x: ClientId)
    ensures forall y :: y in Without(xs, x) <==> y in xs && y != x
    ensures Distinct(xs) ==> Distinct(Without(xs, x))
  {
    if |xs| > 0 {
      WithoutSpec(xs[1..], x);
      var head := if xs[0] == x then [] else [xs[0]];
      assert Without(xs, x) == head + Without(xs[1..], x);
      if Distinct(xs) {
        var w, rest := Without(xs, x), Without(xs[1..], x);
        assert Distinct(rest);
        if head != [] {
          assert |w| > 0 && w[0] == xs[0] && w[1..] == rest;
          assert xs[0] !in rest;
        } else {
          assert w == rest;
        }
      }
    }
  }

  class Session {
    /** Registered connections, by id. */
    var clients: map<ClientId, ClientInfo>
    /** The ids of `clients` in registration order (the order of the server's map). */
    var order: seq<ClientId>
    /** Connections that are open. */
    var open: set<ClientId>
    /** Connections whose per-connection record has been set, by a handshake or by the timer. */
    var registered: set<ClientId>
    /** Connections whose handshake timer is still pending. */
    var awaitingHandshake: set<ClientId>
    /** The next connection id. */
    var nextId: nat
    var masterClientId: Option<ClientId>
    var masterToken: Option<Token>
    var grace: Option<Grace>
    /** Grace timers set by closing masters and not yet fired. */
    var graceTimers: nat
    var currentGameState: Value
    /** What was last written to the saved game file. */
    ghost var persisted: Value
    var outbox: seq<(ClientId, Msg)>

    ghost predicate Valid()
      reads this`order, this`clients, this`registered, this`open, this`awaitingHandshake, this`nextId
    {
      Distinct(order)
      && (forall id :: id in clients <==> id in order)
      && clients.Keys <= registered
      && open * registered <= clients.Keys
      && (forall id :: id in open ==> id < nextId)
      && (forall id :: id in registered ==> id < nextId)
      && (forall id :: id in awaitingHandshake ==> id < nextId)
    }

    /** The control record. */
    function ControlState(): Control
      reads this`masterClientId, this`masterToken, this`grace
    {
      Control(masterClientId, masterToken, grace)
    }

    /** The connection `id` is registered with the role master. */
    predicate IsMaster(id: ClientId)
      reads this`registered, this`clients
    {
      id in registered && id in clients && clients[id].role == Master
    }

    /**
     * The registration time a handshake of `id` at `now` records: the time of
     * an earlier registration, unless there is none or it is zero.
     */
    function JoinTime(id: ClientId, now: int): int
      reads this`registered, this`clients
    {
      if id in registered && id in clients && clients[id].connectedAt != 0 then clients[id].connectedAt else now
    }

    /** The server starts with no connections and with the saved game state, or `null`. */
    constructor(loaded: Value)
      ensures Valid()
      ensures clients == map[] && order == [] && open == {} && registered == {} && awaitingHandshake == {}
      ensures ControlState() == Control(None, None, None) && graceTimers == 0
      ensures currentGameState == loaded && persisted == loaded && outbox == []
    {
      clients, order, open, registered, awaitingHandshake := map[], [], {}, {}, {};
      nextId := 0;
      masterClientId, masterToken, grace := None, None, None;
      graceTimers := 0;
      currentGameState := loaded;
      persisted := loaded;
      outbox := [];
    }

    /** Appends `m` for `id` to the outbox, if `id` is open. */
    method Send(id: ClientId, m: Msg)
      modifies this`outbox
      ensures outbox == old(outbox) + SendTo(open, id, m)
    {
      outbox := outbox + SendTo(open, id, m);
    }

    /** Records `info` for `id`, at the end of `order` if `id` was not recorded before. */
    method Register(id: ClientId, info: ClientInfo)
      requires Valid() && id < nextId
      modifies this`clients, this`order, this`registered
      ensures Valid()
      ensures clients == old(clients)[id := info] && registered == old(registered) + {id}
      ensures order == if id in old(clients) then old(order) else old(order) + [id]
    {
      if id !in clients {
        DistinctSnoc(order, id);
        order := order + [id];
      }
      clients := clients[id := info];
      registered := registered + {id};
    }

    /** A new connection: a fresh id, open, with its handshake timer running. */
    method Connect() returns (id: ClientId)
      requires Valid()
      modifies this`open, this`awaitingHandshake, this`nextId
      ensures Valid()
      ensures id !in old(open) && id !in old(registered) && id !in old(awaitingHandshake)
      ensures open == old(open) + {id} && awaitingHandshake == old(awaitingHandshake) + {id}
      ensures nextId == old(nextId) + 1
    {
      id := nextId;
      nextId := nextId + 1;
      open := open + {id};
      awaitingHandshake := awaitingHandshake + {id};
    }

    /**
     * The handshake timer of `id` fires at `now`: a connection that has not
     * registered is registered as a board viewer and is sent the game state.
     * The timer runs even after the connection closed.
     */
    method HandshakeTimeout(id: ClientId, now: int)
      requires Valid() && id in awaitingHandshake
      modifies this`clients, this`order, this`registered, this`awaitingHandshake, this`outbox
      ensures Valid()
      ensures awaitingHandshake == old(awaitingHandshake) - {id}
      ensures id !in old(registered) ==>
        clients == old(clients)[id := ClientInfo(Str("board"), Viewer, now)]
        && registered == old(registered) + {id} && order == old(order) + [id]
        && outbox == old(outbox) + (if Truthy(currentGameState) then SendTo(open, id, GameState(currentGameState)) else [])
      ensures id in old(registered) ==>
        clients == old(clients) && order == old(order) && registered == old(registered) && outbox == old(outbox)
    {
      awaitingHandshake := awaitingHandshake - {id};
      if id !in registered {
        Register(id, ClientInfo(Str("board"), Viewer, now));
        if Truthy(currentGameState) {
          Send(id, GameState(currentGameState));
        }
      }
    }

    /**
     * A message from the open connection `id`, already parsed, at time `now`;
     * `newToken` is the token generated if the message makes a new master.
     * The route, decided on the sender's role before the message, selects the
     * handler whose effect the message has; a dropped or ignored message
     * changes nothing.
     */
    method Receive(id: ClientId, data: Value, now: int, newToken: Token)
      requires Valid() && id in open
      modifies this`clients, this`order, this`registered, this`awaitingHandshake, this`outbox
      modifies this`masterClientId, this`masterToken, this`grace, this`currentGameState, this`persisted
      ensures RouteEffect(RouteOf(data, old(IsMaster(id))), id, data, now, newToken)
      ensures Valid()
    {
      var route := RouteOf(data, IsMaster(id));
      match route {
        case Dropped =>
        case Ignored =>
        case HandshakeRoute =>
          Handshake(id, data, now, newToken);
        case ReleaseRoute =>
          Release(id, newToken);
        case UpdateRoute(gameData) =>
          Update(id, gameData);
          assert Valid();  // Update leaves every field Valid reads alone
      }
    }

    /**
     * The effect of a message from `id` taking `route`: that of the handler
     * the route selects, with every field outside that handler's reach
     * unchanged; a dropped or ignored message changes nothing.
     */
    twostate predicate RouteEffect(route: Route, id: ClientId, data: Value, now: int, newToken: Token)
      reads this
    {
      match route
      case Dropped | Ignored =>
        clients == old(clients) && order == old(order) && registered == old(registered)
        && awaitingHandshake == old(awaitingHandshake) && ControlState() == old(ControlState())
        && outbox == old(outbox) && currentGameState == old(currentGameState) && persisted == old(persisted)
      case HandshakeRoute => HandshakeEffect(id, data, now, newToken)
      case ReleaseRoute => ReleaseEffect(id, newToken)
      case UpdateRoute(gameData) =>
        UpdateEffect(id, gameData)
        && clients == old(clients) && order == old(order) && registered == old(registered)
        && awaitingHandshake == old(awaitingHandshake) && ControlState() == old(ControlState())
    }

    /**
     * The effect of a handshake from `id`: the role and the control record
     * are those `Classify` decides, the connection is (re-)registered keeping
     * the time it was first registered (at the end of the order if it is
     * new), its handshake timer is cleared, and it is sent its role and then
     * the game state, which stays as it was.
     */
    twostate predicate HandshakeEffect(id: ClientId, data: Value, now: int, newToken: Token)
      reads this
    {
      var d := Classify(id, ClientType(data), Prop(data, "masterToken"), old(ControlState()), now, newToken);
      ControlState() == d.control
      && clients == old(clients)[id := ClientInfo(ClientType(data), d.role, old(JoinTime(id, now)))]
      && order == (if id in old(clients) then old(order) else old(order) + [id])
      && registered == old(registered) + {id} && awaitingHandshake == old(awaitingHandshake) - {id}
      && outbox == old(outbox) + [(id, RoleAssignment(d.role, id, d.control.masterClientId, d.tokenToSend))]
           + (if Truthy(currentGameState) then [(id, GameState(currentGameState))] else [])
      && currentGameState == old(currentGameState) && persisted == old(persisted)
    }

    /** A handshake from the open connection `id`. */
    method Handshake(id: ClientId, data: Value, now: int, newToken: Token)
      requires Valid() && id in open
      modifies this`clients, this`order, this`registered, this`awaitingHandshake, this`outbox
      modifies this`masterClientId, this`masterToken, this`grace
      ensures Valid()
      ensures HandshakeEffect(id, data, now, newToken)
    {
      awaitingHandshake := awaitingHandshake - {id};
      var kind := ClientType(data);
      var d := Classify(id, kind, Prop(data, "masterToken"), ControlState(), now, newToken);
      Admit(id, ClientInfo(kind, d.role, JoinTime(id, now)), d);
    }

    /** Applies the decision `d` of a handshake from `id`, registers `id` with `info`, and replies. */
    method Admit(id: ClientId, info: ClientInfo, d: Decision)
      requires Valid() && id in open
      modifies this`clients, this`order, this`registered, this`outbox
      modifies this`masterClientId, this`masterToken, this`grace
      ensures Valid()
      ensures ControlState() == d.control && clients == old(clients)[id := info]
      ensures registered == old(registered) + {id}
      ensures order == if id in old(clients) then old(order) else old(order) + [id]
      ensures outbox == old(outbox) + [(id, RoleAssignment(d.role, id, d.control.masterClientId, d.tokenToSend))]
        + (if Truthy(currentGameState) then [(id, GameState(currentGameState))] else [])
    {
      masterClientId, masterToken, grace := d.control.masterClientId, d.control.masterToken, d.control.grace;
      Register(id, info);
      Send(id, RoleAssignment(d.role, id, masterClientId, d.tokenToSend));
      if Truthy(currentGameState) {
        Send(id, GameState(currentGameState));
      }
    }

    /**
     * Promotes the oldest operation slave other than `exclude`: it becomes the
     * recorded master with the token `newToken` and is told so. Without a
     * candidate nothing changes.
     */
    method Promote(reason: string, exclude: Option<ClientId>, newToken: Token) returns (promoted: bool)
      requires Valid()
      modifies this`clients, this`masterClientId, this`masterToken, this`outbox
      ensures Valid()
      ensures var pick := OldestSlave(old(clients), order, exclude);
        promoted == pick.Some?
        && (pick.Some? ==>
              clients == old(clients)[pick.value := old(clients)[pick.value].(role := Master)]
              && masterClientId == pick && masterToken == Some(newToken)
              && outbox == old(outbox) + SendTo(open, pick.value, Promoted(newToken, reason)))
        && (pick.None? ==>
              clients == old(clients) && masterClientId == old(masterClientId)
              && masterToken == old(masterToken) && outbox == old(outbox))
    {
      var pick := OldestSlave(clients, order, exclude);
      if pick.Some? {
        var c := pick.value;
        masterClientId := pick;
        clients := clients[c := clients[c].(role := Master)];
        masterToken := Some(newToken);
        Send(c, Promoted(newToken, reason));
        promoted := true;
      } else {
        promoted := false;
      }
    }

    /**
     * The effect of the master `id` giving up control: the token is revoked
     * and no master is recorded, `id` becomes a slave, the oldest other slave
     * is promoted, and `id` is told to drop its token. The grace record, the
     * registrations and the game state are left alone.
     */
    twostate predicate ReleaseEffect(id: ClientId, newToken: Token)
      reads this
    {
      id in old(clients) &&
      var demoted := old(clients)[id := old(clients)[id].(role := Slave)];
      var pick := OldestSlave(demoted, order, Some(id));
      (pick.Some? ==>
         clients == demoted[pick.value := demoted[pick.value].(role := Master)]
         && masterClientId == pick && masterToken == Some(newToken)
         && outbox == old(outbox) + SendTo(open, pick.value, Promoted(newToken, "master_released"))
              + [(id, Demoted("master_released"))])
      && (pick.None? ==>
            clients == demoted && masterClientId == None && masterToken == None
            && outbox == old(outbox) + [(id, Demoted("master_released"))])
      && grace == old(grace)
      && order == old(order) && registered == old(registered) && awaitingHandshake == old(awaitingHandshake)
      && currentGameState == old(currentGameState) && persisted == old(persisted)
    }

    /** The master `id` releases control. */
    method Release(id: ClientId, newToken: Token)
      requires Valid() && id in open && IsMaster(id)
      modifies this`clients, this`masterClientId, this`masterToken, this`outbox
      ensures Valid()
      ensures ReleaseEffect(id, newToken)
    {
      masterToken := None;
      masterClientId := None;
      Demote(id);
      var _ := Promote("master_released", Some(id), newToken);
      Send(id, Demoted("master_released"));
    }

    /** Records the registered connection `id` as a slave. */
    method Demote(id: ClientId)
      requires Valid() && id in clients
      modifies this`clients
      ensures Valid() && clients == old(clients)[id := old(clients)[id].(role := Slave)]
    {
      clients := clients[id := clients[id].(role := Slave)];
      assert clients.Keys == old(clients).Keys;
    }

    /**
     * The effect of a proposed game state from `id`. Only the master's
     * proposals count; an invalid one is answered with an error to the sender
     * alone, a valid one replaces the current state with its sanitised form,
     * is saved, and is sent to every other registered open connection.
     */
    twostate predicate UpdateEffect(id: ClientId, gameData: Value)
      reads this
    {
      (!old(IsMaster(id)) ==>
         currentGameState == old(currentGameState) && persisted == old(persisted) && outbox == old(outbox))
      && (old(IsMaster(id)) ==>
            match GameStateValidation.Validate(gameData)
            case Err(e) =>
              currentGameState == old(currentGameState) && persisted == old(persisted)
              && outbox == old(outbox) + [(id, ErrorMsg("Invalid game state data", GameStateValidation.Message(e)))]
            case Ok(sanitized) =>
              currentGameState == Obj(sanitized) && persisted == Obj(sanitized)
              && outbox == old(outbox) + Deliveries(order, open, id, GameState(Obj(sanitized))))
    }

    /** A proposed game state from the open connection `id`. */
    method Update(id: ClientId, gameData: Value)
      requires id in open
      modifies this`currentGameState, this`persisted, this`outbox
      ensures UpdateEffect(id, gameData)
    {
      if !IsMaster(id) {
        return;
      }
      var validation := GameStateValidation.ValidateGameState(gameData);
      match validation {
        case Err(e) =>
          Send(id, ErrorMsg("Invalid game state data", GameStateValidation.Message(e)));
        case Ok(sanitized) =>
          currentGameState := Obj(sanitized);
          persisted := currentGameState;
          Broadcast(GameState(currentGameState), id);
      }
    }

    /** Sends `m` to every registered open connection except `sender`, in registration order. */
    method Broadcast(m: Msg, sender: ClientId)
      modifies this`outbox
      ensures outbox == old(outbox) + Deliveries(order, open, sender, m)
    {
      var i := 0;
      while i < |order|
        invariant 0 <= i <= |order|
        invariant outbox == old(outbox) + Deliveries(order[..i], open, sender, m)
      {
        var id := order[i];
        assert order[..i + 1][..i] == order[..i];
        if id != sender {
          Send(id, m);
        }
        i := i + 1;
      }
      assert order[..i] == order;
    }

    /**
     * The connection `id` closes at `now`. It leaves `clients`; if it was
     * registered as master, its token becomes the grace token until
     * `now + 5000`, no master is recorded and the current token is cleared, and
     * a grace timer is set.
     */
    method Close(id: ClientId, now: int)
      requires Valid() && id in open
      modifies this`clients, this`order, this`open, this`masterClientId, this`masterToken, this`grace, this`graceTimers
      ensures Valid()
      ensures clients == old(clients) - {id} && open == old(open) - {id} && order == Without(old(order), id)
      ensures old(IsMaster(id)) ==>
        grace == Some(Grace(old(masterToken), now + GracePeriodMs))
        && masterClientId == None && masterToken == None && graceTimers == old(graceTimers) + 1
      ensures !old(IsMaster(id)) ==> ControlState() == old(ControlState()) && graceTimers == old(graceTimers)
    {
      var wasMaster := IsMaster(id);
      Forget(id);
      if wasMaster {
        grace := Some(Grace(masterToken, now + GracePeriodMs));
        masterClientId := None;
        masterToken := None;
        graceTimers := graceTimers + 1;
      }
    }

    /** The connection `id` is closed and leaves `clients` and `order`. */
    method Forget(id: ClientId)
      requires Valid()
      modifies this`clients, this`order, this`open
      ensures Valid()
      ensures clients == old(clients) - {id} && open == old(open) - {id} && order == Without(old(order), id)
    {
      WithoutSpec(order, id);
      clients := clients - {id};
      order := Without(order, id);
      open := open - {id};
    }

    /**
     * A grace timer fires. If no master has been recorded since and the grace
     * record is still there, the record is cleared and the oldest slave is
     * promoted; otherwise nothing changes.
     */
    method GraceExpired(newToken: Token)
      requires Valid() && graceTimers > 0
      modifies this`clients, this`masterClientId, this`masterToken, this`grace, this`graceTimers, this`outbox
      ensures Valid()
      ensures graceTimers == old(graceTimers) - 1
      ensures old(masterClientId.None? && grace.Some?) ==>
        grace == None
        && var pick := OldestSlave(old(clients), order, None);
          (pick.Some? ==>
             masterClientId == pick && masterToken == Some(newToken)
             && clients == old(clients)[pick.value := old(clients)[pick.value].(role := Master)]
             && outbox == old(outbox) + SendTo(open, pick.value, Promoted(newToken, "master_disconnected")))
          && (pick.None? ==>
                clients == old(clients) && masterClientId == None && masterToken == old(masterToken)
                && outbox == old(outbox))
      ensures !old(masterClientId.None? && grace.Some?) ==>
        ControlState() == old(ControlState()) && clients == old(clients) && outbox == old(outbox)
    {
      graceTimers := graceTimers - 1;
      if masterClientId.None? && grace.Some? {
        grace := None;
        var _ := Promote("master_disconnected", None, newToken);
      }
    }
  }
}
