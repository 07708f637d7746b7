/**
 * The display board's connection keeper: on a close it schedules a
 * reconnection after a delay that doubles with every attempt (capped at 30
 * seconds), gives up after ten attempts, and starts counting again once a
 * connection opens. Timers are explicit: scheduling one records it as
 * pending, and the environment fires or the board cancels it.
 */
module Reconnect {
  import opened Wrappers

  datatype Status = Connecting | Connected | Reconnecting | Disconnected

  const MaxReconnectAttempts: nat := 10
  const ReconnectDelay: nat := 1000
  const MaxDelay: nat := 30000

  function Pow2(n: nat): (r: nat)
    ensures r >= 1
  {
    if n == 0 then 1 else 2 * Pow2(n - 1)
  }

  /** The wait before reconnection attempt `attempts + 1`: `min(1000 * 2^attempts, 30000)`. */
  function Delay(attempts: nat): (r: nat)
    ensures ReconnectDelay <= r <= MaxDelay
  {
    if ReconnectDelay * Pow2(attempts) < MaxDelay then ReconnectDelay * Pow2(attempts) else MaxDelay
  }

  /** Powers of two grow: from the fifth on they are at least 32. */
  lemma {:induction false} Pow2AtLeast32(n: nat)
    requires n >= 5
    ensures Pow2(n) >= 32
  {
    if n > 5 {
      Pow2AtLeast32(n - 1);
    } else {
      assert Pow2(5) == 2 * Pow2(4) == 4 * Pow2(3) == 8 * Pow2(2) == 16 * Pow2(1) == 32;
    }
  }

  /**
   * Every delay lies between one and thirty seconds; it doubles from one
   * second for the first five attempts and is thirty seconds from the sixth on.
   */
  lemma DelayBounds(attempts: nat)
    ensures 1000 <= Delay(attempts) <= 30000
    ensures attempts <= 4 ==> Delay(attempts) == 1000 * Pow2(attempts)
    ensures attempts >= 5 ==> Delay(attempts) == 30000
  {
    if attempts >= 5 {
      Pow2AtLeast32(attempts);
    } else {
      assert Pow2(attempts) <= 16 by {
        assert Pow2(0) == 1 && Pow2(1) == 2 && Pow2(2) == 4 && Pow2(3) == 8 && Pow2(4) == 16;
      }
    }
  }

  /** The delays double while they are below the cap. */
  lemma DelayDoubles(attempts: nat)
    requires attempts < 4
    ensures Delay(attempts + 1) == 2 * Delay(attempts)
  {
    DelayBounds(attempts);
    DelayBounds(attempts + 1);
  }

  /** A timer set by `setTimeout`; the board keeps the id of its reconnection timer. */
  type TimerId = nat

  class BoardConnection {
    var status: Status
    var reconnectAttempts: nat
    /** The id held in `reconnectTimer`, if any; it may be that of a timer that already fired. */
    var reconnectTimer: Option<TimerId>
    /** Timers set and neither fired nor cleared. */
    var pending: set<TimerId>
    /** The delay each timer was set with. */
    var delays: map<TimerId, nat>
    var nextTimer: TimerId

    /**
     * At most one timer is pending, and it is the one whose id the board
     * holds; no reconnection is pending once the attempts are used up.
     */
    ghost predicate Valid()
      reads this
    {
      reconnectAttempts <= MaxReconnectAttempts
      && (forall t :: t in pending ==> reconnectTimer == Some(t) && t in delays)
      && (pending != {} ==> reconnectAttempts < MaxReconnectAttempts)
      && (forall t :: t in delays ==> t < nextTimer)
    }

    /** The board starts connecting with no attempts made and no timer. */
    constructor()
      ensures Valid()
      ensures status == Connecting && reconnectAttempts == 0 && reconnectTimer == None && pending == {}
    {
      status := Connecting;
      reconnectAttempts := 0;
      reconnectTimer := None;
      pending := {};
      delays := map[];
      nextTimer := 0;
    }

    /** `cancelReconnect`: clears the held timer, if any, and forgets its id. */
    method CancelReconnect()
      requires Valid()
      modifies this`reconnectTimer, this`pending
      ensures Valid()
      ensures reconnectTimer == None && pending == {}
    {
      if reconnectTimer.Some? {
        pending := pending - {reconnectTimer.value};
        reconnectTimer := None;
      }
    }

    /**
     * The timers after `scheduleReconnect`: with attempts left, exactly one is
     * pending, a new one, held by the board and set with the backoff delay
     * for the attempt about to be made; with none left the board has given
     * up and holds no timer.
     */
    twostate predicate Scheduled()
      reads this
    {
      if reconnectAttempts < MaxReconnectAttempts then
        reconnectTimer == Some(old(nextTimer)) && pending == {old(nextTimer)}
        && old(nextTimer) in delays && delays[old(nextTimer)] == Delay(reconnectAttempts)
      else
        status == Disconnected && reconnectTimer == None && pending == {}
    }

    /**
     * `scheduleReconnect`: after clearing any held timer, gives up when the
     * attempts are used up; otherwise sets one timer with the backoff delay.
     */
    method ScheduleReconnect()
      requires Valid()
      modifies this`status, this`reconnectTimer, this`pending, this`delays, this`nextTimer
      ensures Valid()
      ensures Scheduled()
      ensures reconnectAttempts < MaxReconnectAttempts ==> status == old(status)
    {
      CancelReconnect();
      if reconnectAttempts >= MaxReconnectAttempts {
        status := Disconnected;
        return;
      }
      var t := nextTimer;
      nextTimer := nextTimer + 1;
      delays := delays[t := Delay(reconnectAttempts)];
      pending := pending + {t};
      reconnectTimer := Some(t);
    }

    /** `connectWebSocket`: when the socket cannot be created, a reconnection is scheduled. */
    method ConnectWebSocket(created: bool)
      requires Valid()
      modifies this`status, this`reconnectTimer, this`pending, this`delays, this`nextTimer
      ensures Valid()
      ensures created ==> status == old(status) && pending == old(pending) && reconnectTimer == old(reconnectTimer)
      ensures !created ==> Scheduled() && (reconnectAttempts < MaxReconnectAttempts ==> status == old(status))
    {
      if !created {
        ScheduleReconnect();
      }
    }

    /** `handleWebSocketOpen`: connected, and the attempts start again from zero. */
    method HandleOpen()
      requires Valid()
      modifies this`status, this`reconnectAttempts
      ensures Valid()
      ensures status == Connected && reconnectAttempts == 0
    {
      status := Connected;
      reconnectAttempts := 0;
    }

    /** `handleWebSocketClose`: unless the board gave up, it is reconnecting and schedules an attempt. */
    method HandleClose()
      requires Valid()
      modifies this`status, this`reconnectTimer, this`pending, this`delays, this`nextTimer
      ensures Valid()
      ensures old(status) == Disconnected ==>
        status == Disconnected && pending == old(pending) && reconnectTimer == old(reconnectTimer)
      ensures old(status) != Disconnected ==>
        Scheduled() && (reconnectAttempts < MaxReconnectAttempts ==> status == Reconnecting)
    {
      if status != Disconnected {
        status := Reconnecting;
        ScheduleReconnect();
      }
    }

    /**
     * The pending timer `t` fires: one more attempt is counted and a socket is
     * created (`created` says whether that succeeded).
     */
    method TimerFires(t: TimerId, created: bool)
      requires Valid() && t in pending
      modifies this`status, this`reconnectAttempts, this`reconnectTimer, this`pending, this`delays, this`nextTimer
      ensures Valid()
      ensures reconnectAttempts == old(reconnectAttempts) + 1 <= MaxReconnectAttempts
      ensures created ==> pending == {} && status == old(status) && reconnectTimer == old(reconnectTimer)
      ensures !created ==> Scheduled() && (reconnectAttempts < MaxReconnectAttempts ==> status == old(status))
    {
      pending := pending - {t};
      reconnectAttempts := reconnectAttempts + 1;
      ConnectWebSocket(created);
    }
  }
}
