/**
 * The decisions the WebSocket server takes about who controls the board:
 * the role a handshake is given, which slave is promoted when the master
 * goes away, how an inbound message is routed, and who receives a
 * broadcast. These are values and functions; `Session` applies them to its
 * state.
 */
module Arbitration {
  import opened Wrappers
  import opened JsValue

  /** A connection's id; the server hands them out in increasing order. */
  type ClientId = nat

  /** A master token; the server's tokens are never empty. */
  type Token = s: string | |s| > 0 witness "t"

  datatype Role = Viewer | Slave | Master

  /** What the server records about a registered connection. */
  datatype ClientInfo = ClientInfo(kind: Value, role: Role, connectedAt: int)

  /** The token of a master that went away, and until when it may come back with it. */
  datatype Grace = Grace(token: Option<Token>, expiresAt: int)

  /** The process-wide control record: the master's id, its token and the grace record. */
  datatype Control = Control(masterClientId: Option<ClientId>, masterToken: Option<Token>, grace: Option<Grace>)

  /** The messages the server sends. */
  datatype Msg =
    | RoleAssignment(role: Role, clientId: ClientId, masterClientId: Option<ClientId>, masterToken: Option<Token>)
    | GameState(data: Value)
    | Promoted(newToken: Token, reason: string)     // `role_changed` to master, with the new token
    | Demoted(reason: string)                       // `role_changed` to slave, telling the client to drop its token
    | ErrorMsg(message: string, error: string)

  /** The client type a handshake declares, `board` when it declares none. */
  function ClientType(data: Value): Value
  {
    Or(Prop(data, "client_type"), Str("board"))
  }

  predicate IsOperation(kind: Value)
  {
    kind == Str("operation")
  }

  /** A supplied token equals the token `t`. */
  predicate TokenMatches(provided: Value, t: Option<Token>)
  {
    Truthy(provided) && t.Some? && provided == Str(t.value)
  }

  /** A supplied token is the grace token and the grace period has not run out at `now`. */
  predicate GraceAccepts(provided: Value, grace: Option<Grace>, now: int)
  {
    Truthy(provided) && grace.Some? && TokenMatches(provided, grace.value.token) && now < grace.value.expiresAt
  }

  /** The outcome of a handshake: the role, the new control record and the token sent back. */
  datatype Decision = Decision(role: Role, control: Control, tokenToSend: Option<Token>)

  /**
   * The handshake of connection `id` that declares client type `kind` and
   * supplies `provided` as its token, at time `now`; `newToken` is the token the
   * server would generate. A client made master is the recorded master and is
   * sent the token now current: the one it supplied when that was current,
   * else its unexpired grace token, else the generated one. The grace record
   * is cleared only when its token is used. A client that is not made master
   * changes nothing and is sent no token.
   */
  function Classify(id: ClientId, kind: Value, provided: Value, c: Control, now: int, newToken: Token): (d: Decision)
    ensures d.role == Master ==>
      d.control.masterClientId == Some(id) && d.tokenToSend.Some? && d.control.masterToken == d.tokenToSend
    ensures d.role == Master ==>
      d.tokenToSend == if TokenMatches(provided, c.masterToken) then c.masterToken
        else if GraceAccepts(provided, c.grace, now) then c.grace.value.token
        else Some(newToken)
    ensures d.control.grace ==
      if d.role == Master && !TokenMatches(provided, c.masterToken) && GraceAccepts(provided, c.grace, now) then None
      else c.grace
    ensures d.role != Master ==> d.control == c && d.tokenToSend.None?
  {
    if !IsOperation(kind) then Decision(Viewer, c, None)
    else if TokenMatches(provided, c.masterToken) then
      Decision(Master, c.(masterClientId := Some(id)), c.masterToken)
    else if GraceAccepts(provided, c.grace, now) then
      Decision(Master, Control(Some(id), c.grace.value.token, None), c.grace.value.token)
    else if Truthy(provided) then Decision(Slave, c, None)
    else if c.masterClientId.None? then
      Decision(Master, c.(masterClientId := Some(id), masterToken := Some(newToken)), Some(newToken))
    else Decision(Slave, c, None)
  }

  /**
   * An operation client becomes master exactly when its token is the current
   * one, or is the grace token in time, or it supplies no token while no
   * master is recorded; any other operation client is a slave, and every other
   * client a viewer.
   */
  lemma ClassifyRoles(id: ClientId, kind: Value, provided: Value, c: Control, now: int, newToken: Token)
    ensures var d := Classify(id, kind, provided, c, now, newToken);
      (d.role == Viewer <==> !IsOperation(kind))
      && (d.role == Master <==>
            IsOperation(kind)
            && (TokenMatches(provided, c.masterToken) || GraceAccepts(provided, c.grace, now)
                || (!Truthy(provided) && c.masterClientId.None?)))
  {
  }

  /** A supplied token that is neither current nor an unexpired grace token makes a slave, whatever else holds. */
  lemma UnknownTokenIsSlave(id: ClientId, provided: Value, c: Control, now: int, newToken: Token)
    requires Truthy(provided) && !TokenMatches(provided, c.masterToken) && !GraceAccepts(provided, c.grace, now)
    ensures Classify(id, Str("operation"), provided, c, now, newToken) == Decision(Slave, c, None)
  {
  }

  /**
   * The grace token of a departed master brings it back before `expiresAt`:
   * the token becomes current again and the grace record is cleared; from
   * `expiresAt` on the same token only makes a slave.
   */
  lemma GraceWindow(id: ClientId, t: Token, expiresAt: int, c: Control, now: int, newToken: Token)
    requires c.grace == Some(Grace(Some(t), expiresAt)) && c.masterToken != Some(t)
    ensures var d := Classify(id, Str("operation"), Str(t), c, now, newToken);
      (now < expiresAt ==> d == Decision(Master, Control(Some(id), Some(t), None), Some(t)))
      && (now >= expiresAt ==> d == Decision(Slave, c, None))
  {
  }

  /**
   * The current token makes its holder the recorded master, whoever is
   * recorded before (nobody, the holder itself, or another client): the
   * control record names the newcomer, the token and the grace record stay as
   * they are, the same token is sent back, and nothing in the decision touches
   * another client's role.
   */
  lemma CurrentTokenTakesOver(id: ClientId, t: Token, c: Control, now: int, newToken: Token)
    requires c.masterToken == Some(t)
    ensures Classify(id, Str("operation"), Str(t), c, now, newToken)
      == Decision(Master, c.(masterClientId := Some(id)), Some(t))
  {
  }

  /**
   * An operation client that supplies no token becomes master only while no
   * master is recorded: it is recorded with the freshly generated token, which
   * it is sent, and the grace record of a departed master is kept, so that
   * master can still come back with its grace token. While a master is
   * recorded it is a slave and nothing changes.
   */
  lemma TokenlessHandshake(id: ClientId, provided: Value, c: Control, now: int, newToken: Token)
    requires !Truthy(provided)
    ensures var d := Classify(id, Str("operation"), provided, c, now, newToken);
      (c.masterClientId.None? ==> d == Decision(Master, Control(Some(id), Some(newToken), c.grace), Some(newToken)))
      && (c.masterClientId.Some? ==> d == Decision(Slave, c, None))
  {
  }

  /** A client other than an operation client is a viewer and leaves the control record as it was. */
  lemma ViewerLeavesControl(id: ClientId, data: Value, c: Control, now: int, newToken: Token)
    requires !IsOperation(ClientType(data))
    ensures Classify(id, ClientType(data), Prop(data, "masterToken"), c, now, newToken) == Decision(Viewer, c, None)
  {
  }

  /** A handshake without `client_type` is a board's. */
  lemma DefaultClientType(data: Value)
    requires !Truthy(Prop(data, "client_type"))
    ensures ClientType(data) == Str("board") && !IsOperation(ClientType(data))
  {
  }

  /** A registered client that may be promoted: an operation slave other than `exclude`. */
  predicate IsCandidate(clients: map<ClientId, ClientInfo>, exclude: Option<ClientId>, id: ClientId)
  {
    id in clients && Some(id) != exclude && IsOperation(clients[id].kind) && clients[id].role == Slave
  }

  /** No id is listed twice. */
  predicate Distinct(xs: seq<ClientId>)
    decreases |xs|
  {
    |xs| == 0 || (xs[0] !in xs[1..] && Distinct(xs[1..]))
  }

  /** `Distinct` says that the entries at any two positions differ. */
  lemma {:induction false} DistinctIff(xs: seq<ClientId>)
    ensures Distinct(xs) <==> forall i, j :: 0 <= i < j < |xs| ==> xs[i] != xs[j]
    decreases |xs|
  {
    if |xs| > 0 {
      DistinctIff(xs[1..]);
      if Distinct(xs) {
        forall i, j | 0 <= i < j < |xs| ensures xs[i] != xs[j] {
          if i > 0 {
            assert xs[i] == xs[1..][i - 1] && xs[j] == xs[1..][j - 1];
          } else {
            assert xs[j] in xs[1..] by { assert xs[j] == xs[1..][j - 1]; }
          }
        }
      }
      if forall i, j :: 0 <= i < j < |xs| ==> xs[i] != xs[j] {
        forall i, j | 0 <= i < j < |xs[1..]| ensures xs[1..][i] != xs[1..][j] {
          assert xs[1..][i] == xs[i + 1] && xs[1..][j] == xs[j + 1];
        }
        forall j | 0 <= j < |xs[1..]| ensures xs[1..][j] != xs[0] {
          assert xs[1..][j] == xs[j + 1];
        }
      }
    }
  }

  /** Appending an id that is not listed keeps a list without repetitions. */
  lemma {:induction false} DistinctSnoc(xs: seq<ClientId>, x: ClientId)
    requires Distinct(xs) && x !in xs
    ensures Distinct(xs + [x])
    decreases |xs|
  {
    if |xs| > 0 {
      assert (xs + [x])[1..] == xs[1..] + [x];
      DistinctSnoc(xs[1..], x);
    }
  }

  /**
   * The client `promoteNextMaster` picks: of the candidates in `order` (the
   * order of registration), the first with the least `connectedAt`.
   */
  function OldestSlave(clients: map<ClientId, ClientInfo>, order: seq<ClientId>, exclude: Option<ClientId>)
    : (r: Option<ClientId>)
    ensures r.Some? ==> r.value in order && IsCandidate(clients, exclude, r.value)
    decreases |order|
  {
    if |order| == 0 then None
    else
      var rest := OldestSlave(clients, order[1..], exclude);
      if IsCandidate(clients, exclude, order[0])
        && (rest.None? || clients[order[0]].connectedAt <= clients[rest.value].connectedAt)
      then Some(order[0])
      else rest
  }

  /**
   * In a list without repetitions, there is a pick exactly when some
   * candidate is listed; the pick connected no later than any candidate, and
   * strictly earlier than every candidate listed before it.
   */
  lemma {:induction false} OldestSlaveSpec(clients: map<ClientId, ClientInfo>, order: seq<ClientId>, exclude: Option<ClientId>)
    requires Distinct(order)
    ensures var r := OldestSlave(clients, order, exclude);
      (r.None? <==> forall k :: 0 <= k < |order| ==> !IsCandidate(clients, exclude, order[k]))
      && (r.Some? ==>
            (forall k :: 0 <= k < |order| && IsCandidate(clients, exclude, order[k]) ==>
               clients[r.value].connectedAt <= clients[order[k]].connectedAt)
            && (forall i, k :: 0 <= k < i < |order| && order[i] == r.value && IsCandidate(clients, exclude, order[k]) ==>
                  clients[r.value].connectedAt < clients[order[k]].connectedAt))
    decreases |order|
  {
    if |order| > 0 {
      var tail := order[1..];
      OldestSlaveSpec(clients, tail, exclude);
      var r := OldestSlave(clients, order, exclude);
      var rest := OldestSlave(clients, tail, exclude);
      forall k | 0 < k < |order| ensures order[k] == tail[k - 1] { }
      if r.Some? && r != Some(order[0]) {
        assert r == rest;
        forall i, k | 0 <= k < i < |order| && order[i] == r.value && IsCandidate(clients, exclude, order[k])
          ensures clients[r.value].connectedAt < clients[order[k]].connectedAt
        {
          if k == 0 {
          } else {
            assert tail[i - 1] == r.value && IsCandidate(clients, exclude, tail[k - 1]);
          }
        }
      }
    }
  }

  /** How the server routes an inbound message. */
  datatype Route =
    | Dropped                  // reading its `type` throws, and the error is caught
    | HandshakeRoute
    | ReleaseRoute
    | UpdateRoute(gameData: Value)
    | Ignored

  /** The route of a parsed message from a client whose recorded role is master exactly when `isMaster`. */
  function RouteOf(data: Value, isMaster: bool): (r: Route)
    ensures r == Dropped <==> data.Null? || data.Undefined?
    ensures r == ReleaseRoute ==> isMaster
  {
    if data.Null? || data.Undefined? then Dropped
    else
      var t := Prop(data, "type");
      if t == Str("handshake") then HandshakeRoute
      else if t == Str("release_master") && isMaster then ReleaseRoute
      else if t == Str("game_state_update") || !Truthy(t) then UpdateRoute(Or(Prop(data, "data"), data))
      else Ignored
  }

  /**
   * A release is routed only from the master; from anyone else it is ignored.
   * A message is an update exactly when it is typed `game_state_update` or
   * carries no type, and the state it proposes is its `data` member when that
   * is set, the message itself otherwise.
   */
  lemma RouteRules(data: Value, isMaster: bool)
    requires !data.Null? && !data.Undefined?
    ensures RouteOf(data, isMaster) == ReleaseRoute <==> Prop(data, "type") == Str("release_master") && isMaster
    ensures Prop(data, "type") == Str("release_master") && !isMaster ==> RouteOf(data, isMaster) == Ignored
    ensures RouteOf(data, isMaster).UpdateRoute? <==>
      Prop(data, "type") == Str("game_state_update") || !Truthy(Prop(data, "type"))
    ensures RouteOf(data, isMaster).UpdateRoute? && Truthy(Prop(data, "data")) ==>
      RouteOf(data, isMaster).gameData == Prop(data, "data")
    ensures RouteOf(data, isMaster).UpdateRoute? && !Truthy(Prop(data, "data")) ==>
      RouteOf(data, isMaster).gameData == data
  {
  }

  /** The message `m` sent to `id`: delivered only while the connection is open. */
  function SendTo(open: set<ClientId>, id: ClientId, m: Msg): (r: seq<(ClientId, Msg)>)
    ensures |r| <= 1 && (r != [] <==> id in open)
  {
    if id in open then [(id, m)] else []
  }

  /** The deliveries of a broadcast of `m` to the clients listed in `order`, except `sender`. */
  function Deliveries(order: seq<ClientId>, open: set<ClientId>, sender: ClientId, m: Msg): (r: seq<(ClientId, Msg)>)
    ensures |r| <= |order|
    ensures forall k :: 0 <= k < |r| ==> r[k].0 in open && r[k].0 != sender && r[k].1 == m
  {
    if |order| == 0 then []
    else
      var last := order[|order| - 1];
      Deliveries(order[..|order| - 1], open, sender, m)
        + (if last != sender then SendTo(open, last, m) else [])
  }

  /**
   * A broadcast reaches every open listed client other than the sender, and
   * nobody else, always with `m`.
   */
  lemma {:induction false} DeliveriesIff(order: seq<ClientId>, open: set<ClientId>, sender: ClientId, m: Msg, id: ClientId, m': Msg)
    ensures (id, m') in Deliveries(order, open, sender, m) <==>
      id in order && id in open && id != sender && m' == m
    decreases |order|
  {
    if |order| > 0 {
      var front := order[..|order| - 1];
      DeliveriesIff(front, open, sender, m, id, m');
      assert order == front + [order[|order| - 1]];
    }
  }
}
