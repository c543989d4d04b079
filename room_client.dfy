/**
 * One multiplayer client of ProjectASL/src/MultiplayerPaceGame/multiplayerpace.js as a state
 * machine: the globals the script reassigns are the fields of `RoomClient`, every
 * `client.publish` appends to `outbox`, every `client.subscribe`/`unsubscribe` edits
 * `subscriptions`, and the clocks (`Date.now()` as `now`, `millis()` as `millis`) and the
 * random draws are parameters. The roster transformations are the functions of `Roster`.
 */
module RoomSync {
  import opened Wrappers
  import opened JsText
  import opened Roster
  import Countdown
  import opened Signing

  /** `gameDuration`: a round lasts one minute. */
  const GameDuration := 60000

  /** `currentState`. */
  datatype Screen = MenuScreen | RoomScreen | CountdownScreen | GameScreen | GameOverScreen

  const UsernameRule := "Username must be 3–10 chars (letters, numbers, or _)"
  const NameFirst := "Set a valid username first (3–10 chars)."
  const NoRoomCode := "Please enter a Room ID!"
  const NameSaved := "Username saved!"

  /** What `publishPlayers` sends: the sanitised roster, retained. */
  function SnapshotPublication(roomId: string, players: map<string, Player>, now: int): Publication
  {
    Publication(Topic(roomId, "/players"), Snapshot(Sanitize(players, now)), true)
  }

  /** The retained `/state` message. */
  function StatePublication(roomId: string, state: string): Publication
  {
    Publication(Topic(roomId, "/state"), StateSignal(state), true)
  }

  /** A `/players/update` message carrying one record. */
  function UpdatePublication(roomId: string, id: string, p: Player, now: int): Publication
  {
    Publication(Topic(roomId, "/players/update"), PlayerUpdate(id, p.name, p.score, p.ready, p.left, now), false)
  }

  /** The empty retained `/players` payload that makes the room disappear at the broker. */
  function Tombstone(roomId: string): Publication
  {
    Publication(Topic(roomId, "/players"), EmptyPayload, true)
  }

  /** `leaveRoom` unsubscribes the room's wildcard and hand topics only: the explicit `/state` subscription of `joinRoom` survives it. */
  lemma StateSubscriptionOutlivesLeave(roomId: string)
    ensures Topic(roomId, "/state") !in {Topic(roomId, "/#"), Topic(roomId, "/hands/#")}
  {
    var pre := "game/rooms/" + RoomSegment(roomId);
    assert Topic(roomId, "/state")[|pre| + 1] == 's';
    assert Topic(roomId, "/#")[|pre| + 1] == '#';
    assert Topic(roomId, "/hands/#")[|pre| + 1] == 'h';
  }

  /** Two publications sent one after the other. */
  lemma SentInTurn(outbox: seq<Publication>, first: Publication, second: Publication)
    ensures outbox + [first] + [second] == outbox + [first, second]
  {
  }

  class RoomClient {
    var players: map<string, Player>
    var gameState: string
    var screen: Screen
    /** `roomId`; "" stands for `null`. */
    var roomId: string
    /** `playerId`; "" stands for `null`. */
    var playerId: string
    var playerName: string
    var playerScore: int
    var currentWord: string
    var currentIndex: int
    var lastMatchTime: int
    var countdownStartTime: int
    var startTime: int
    var lastHandPublishAt: int
    var errorMessage: string
    var errorAt: int
    var infoMessage: string
    var infoAt: int
    /** The tail of `joinRoom` after its half-second wait has not run yet. */
    var joinPending: bool
    var subscriptions: set<string>
    var outbox: seq<Publication>

    /** The letter cursor stays inside the current word. */
    ghost predicate Valid()
      reads this
    {
      0 <= currentIndex <= |currentWord|
    }

    /** `setup()`: the default name is "Player" and a draw of `floor(random(1000, 9999))`. */
    constructor(nameDraw: nat, word: string)
      requires 1000 <= nameDraw < 9999
      ensures Valid()
      ensures players == map[] && gameState == "waiting" && screen == MenuScreen
      ensures roomId == "" && playerId == "" && playerName == "Player" + NatToString(nameDraw)
      ensures playerScore == 0 && currentWord == word && currentIndex == 0 && lastMatchTime == 0
      ensures countdownStartTime == 0 && startTime == 0 && lastHandPublishAt == 0
      ensures errorMessage == "" && infoMessage == "" && errorAt == 0 && infoAt == 0
      ensures !joinPending && subscriptions == {} && outbox == []
    {
      players := map[];
      gameState := "waiting";
      screen := MenuScreen;
      roomId := "";
      playerId := "";
      playerName := "Player" + NatToString(nameDraw);
      playerScore := 0;
      currentWord := word;
      currentIndex := 0;
      lastMatchTime := 0;
      countdownStartTime := 0;
      startTime := 0;
      lastHandPublishAt := 0;
      errorMessage := "";
      errorAt := 0;
      infoMessage := "";
      infoAt := 0;
      joinPending := false;
      subscriptions := {};
      outbox := [];
    }

    /** `publishPlayers`: the retained snapshot of the named records. */
    method PublishPlayers(now: int)
      modifies this`outbox
      ensures outbox == old(outbox) + [SnapshotPublication(roomId, players, now)]
    {
      var clean := CleanPlayers(players, now);
      outbox := outbox + [Publication(Topic(roomId, "/players"), Snapshot(clean), true)];
    }

    /** `addPlayer`: a fresh record for the local player and a `/players/update` announcing it. */
    method AddPlayer(name: string, now: int, draw: nat) returns (id: string)
      requires draw < 1000
      modifies this`players, this`outbox
      ensures id == PlayerIdFor(now, draw) && id != ""
      ensures players == old(players)[id := Player(name, 0, false, false, now, None)]
      ensures outbox == old(outbox) + [UpdatePublication(roomId, id, Player(name, 0, false, false, now, None), now)]
    {
      id := PlayerIdFor(now, draw);
      players := players[id := Player(name, 0, false, false, now, None)];
      outbox := outbox + [Publication(Topic(roomId, "/players/update"), PlayerUpdate(id, name, 0, false, false, now), false)];
    }

    // -------------------------------------------------------------------------
    // Round transitions
    // -------------------------------------------------------------------------

    /** `restartGame`, run by every client on `/start`. */
    method RestartGame(now: int, millis: int, nextWord: string)
      modifies this`screen, this`countdownStartTime, this`players, this`playerScore, this`outbox
      modifies this`gameState, this`currentWord, this`currentIndex
      ensures Valid()
      ensures screen == CountdownScreen && countdownStartTime == millis
      ensures players == RoundReset(WithoutDeparted(old(players)))
      ensures playerScore == 0 && gameState == "in-progress" && currentWord == nextWord && currentIndex == 0
      ensures outbox == old(outbox) + [SnapshotPublication(roomId, players, now), StatePublication(roomId, "in-progress")]
    {
      screen := CountdownScreen;
      countdownStartTime := millis;

      DropDeparted();
      playerScore := 0;
      ResetRound();
      PublishPlayers(now);

      outbox := outbox + [Publication(Topic(roomId, "/state"), StateSignal("in-progress"), true)];
      gameState := "in-progress";
      currentWord := nextWord;
      currentIndex := 0;
    }

    /** The deletion loop of `restartGame`: departed records go. */
    method DropDeparted()
      modifies this`players
      ensures players == WithoutDeparted(old(players))
    {
      ghost var start := players;
      var todo := players.Keys;
      while todo != {}
        modifies this`players
        invariant todo <= start.Keys
        invariant forall id :: id in players <==> id in start && (id in todo || !start[id].left)
        invariant forall id :: id in players ==> players[id] == start[id]
        decreases todo
      {
        var id :| id in todo;
        if players[id].left {
          players := players - {id};
        }
        todo := todo - {id};
      }
      assert players == WithoutDeparted(start);
    }

    /** The reset loop of `restartGame`: every record unready with a zero score. */
    method ResetRound()
      modifies this`players
      ensures players == RoundReset(old(players))
    {
      ghost var kept := players;
      var todo := players.Keys;
      while todo != {}
        modifies this`players
        invariant todo <= kept.Keys && players.Keys == kept.Keys
        invariant forall id :: id in players ==>
                    players[id] == if id in todo then kept[id] else kept[id].(ready := false, score := 0)
        decreases todo
      {
        var id :| id in todo;
        players := players[id := players[id].(ready := false, score := 0)];
        todo := todo - {id};
      }
      assert players == RoundReset(kept);
    }

    /** `endGame`: everyone unready, snapshot, then the retained "gameover" state. */
    method EndGame(now: int)
      modifies this`screen, this`players, this`outbox, this`gameState
      ensures screen == GameOverScreen && gameState == "gameover"
      ensures players == AllUnready(old(players))
      ensures outbox == old(outbox) + [SnapshotPublication(roomId, players, now), StatePublication(roomId, "gameover")]
    {
      screen := GameOverScreen;
      ghost var start := players;
      var todo := players.Keys;
      while todo != {}
        modifies this`players
        invariant todo <= start.Keys && players.Keys == start.Keys
        invariant forall id :: id in players ==>
                    players[id] == if id in todo then start[id] else start[id].(ready := false)
        decreases todo
      {
        var id :| id in todo;
        players := players[id := players[id].(ready := false)];
        todo := todo - {id};
      }
      assert players == AllUnready(start);
      PublishPlayers(now);
      outbox := outbox + [Publication(Topic(roomId, "/state"), StateSignal("gameover"), true)];
      gameState := "gameover";
    }

    /** `startCountdown`. */
    method StartCountdown(millis: int)
      modifies this`screen, this`countdownStartTime
      ensures screen == CountdownScreen && countdownStartTime == millis
    {
      screen := CountdownScreen;
      countdownStartTime := millis;
    }

    /** The countdown screen's frame: once the number shown would drop below zero the round starts. */
    method CountdownTick(millis: int)
      requires screen == CountdownScreen
      modifies this`screen, this`startTime
      ensures Countdown.Remaining(millis - countdownStartTime) >= 0 ==> screen == old(screen) && startTime == old(startTime)
      ensures Countdown.Remaining(millis - countdownStartTime) < 0 ==> screen == GameScreen && startTime == millis
    {
      var remaining := Countdown.Remaining(millis - countdownStartTime);
      if remaining < 0 {
        screen := GameScreen;
        startTime := millis;
      }
    }

    /** The game screen's frame: after `gameDuration` the round ends. */
    method GameTick(millis: int, now: int)
      requires screen == GameScreen
      modifies this`screen, this`players, this`outbox, this`gameState
      ensures millis - startTime < GameDuration ==>
                screen == old(screen) && players == old(players) && outbox == old(outbox) && gameState == old(gameState)
      ensures millis - startTime >= GameDuration ==>
                && screen == GameOverScreen && gameState == "gameover" && players == AllUnready(old(players))
                && outbox == old(outbox) + [SnapshotPublication(roomId, players, now), StatePublication(roomId, "gameover")]
    {
      if millis - startTime >= GameDuration {
        EndGame(now);
      }
    }

    // -------------------------------------------------------------------------
    // Inbound messages and timers
    // -------------------------------------------------------------------------

    /**
     * `handleMQTTMessage`: the empty payload is dropped, `/start` restarts the round
     * whatever it carries, `/state` adopts the announced state, and every other route
     * changes the roster as `Inbound` says and nothing else.
     */
    method HandleMessage(topic: string, msg: Message, now: int, millis: int, nextWord: string)
      requires Valid()
      modifies this`players, this`gameState, this`screen, this`countdownStartTime, this`playerScore
      modifies this`outbox, this`currentWord, this`currentIndex
      ensures Valid()
      ensures !msg.EmptyPayload? && RouteOf(topic) == StartRoute ==>
                && screen == CountdownScreen && countdownStartTime == millis
                && players == RoundReset(WithoutDeparted(old(players)))
                && playerScore == 0 && gameState == "in-progress" && currentWord == nextWord && currentIndex == 0
                && outbox == old(outbox) + [SnapshotPublication(roomId, players, now), StatePublication(roomId, "in-progress")]
      ensures msg.EmptyPayload? || RouteOf(topic) != StartRoute ==>
                && players == Inbound(RouteOf(topic), msg, old(players), playerId, now)
                && gameState == (if RouteOf(topic) == StateRoute && msg.StateSignal? then msg.state else old(gameState))
                && screen == old(screen) && countdownStartTime == old(countdownStartTime) && playerScore == old(playerScore)
                && outbox == old(outbox) && currentWord == old(currentWord) && currentIndex == old(currentIndex)
    {
      if msg.EmptyPayload? {
        return;
      }
      var route := RouteOf(topic);
      if route == StartRoute {
        RestartGame(now, millis, nextWord);
      } else if route == StateRoute {
        if msg.StateSignal? {
          gameState := msg.state;
        }
      } else {
        ApplyToRoster(route, msg, now);
      }
    }

    /** The roster branches of `handleMQTTMessage` for one decoded, non-empty payload. */
    method ApplyToRoster(route: Route, msg: Message, now: int)
      requires !msg.EmptyPayload?
      modifies this`players
      ensures players == Inbound(route, msg, old(players), playerId, now)
    {
      if route == UpdateRoute {
        if msg.PlayerUpdate? {
          ReceiveUpdate(msg.playerId, msg.name, msg.score, msg.ready, msg.left, msg.timestamp);
        }
      } else if route == PlayersRoute {
        var entries := if msg.Snapshot? then msg.entries else map[];
        players := ParseSnapshot(entries, now);
      } else if route == PingRoute {
        if msg.Ping? || msg.PlayerUpdate? {
          ReceivePing(msg.playerId, msg.timestamp);
        }
      } else if route == HandsRoute {
        if msg.HandFrame? {
          ReceiveHand(msg.playerId, msg.hand, msg.ts, now);
        } else if msg.PlayerUpdate? || msg.Ping? {
          ReceiveHand(msg.playerId, None, 0, now);
        }
      }
    }

    /** The `/players/update` branch: a record with an id and a name replaces the stored one. */
    method ReceiveUpdate(id: string, name: string, score: int, ready: bool, left: bool, timestamp: int)
      modifies this`players
      ensures players == WithUpdate(old(players), id, name, score, ready, left, timestamp)
    {
      if id != "" && name != "" {
        players := players[id := Player(name, score, ready, left, timestamp, None)];
      }
    }

    /** The `/ping` branch: a known sender's `lastUpdate` takes the ping's timestamp. */
    method ReceivePing(id: string, timestamp: int)
      modifies this`players
      ensures players == WithPing(old(players), id, timestamp)
    {
      if id in players {
        players := players[id := players[id].(lastUpdate := timestamp)];
      }
    }

    /** The `/hands/` branch: a remote sender, placeholder-created when unknown, gets the hand and the stamp. */
    method ReceiveHand(sender: string, hand: Option<Pose>, ts: int, now: int)
      modifies this`players
      ensures players == WithHandFrame(old(players), playerId, sender, hand, ts, now)
    {
      if sender != "" && sender != playerId {
        ghost var start := players;
        ghost var base := if sender in players then players[sender] else Placeholder(now);
        if sender !in players {
          players := players[sender := Placeholder(now)];
        }
        assert players == start[sender := base];
        var stamp := if ts != 0 then ts else now;
        players := players[sender := players[sender].(remoteHand := Some(RemoteHand(hand, stamp)))];
        players := players[sender := players[sender].(lastUpdate := stamp)];
        assert players == start[sender := base.(remoteHand := Some(RemoteHand(hand, stamp)), lastUpdate := stamp)];
      }
    }

    /** `sendHeartbeat`: a `/ping` with the local id, unless there is no room, no id, or the menu is showing. */
    method SendHeartbeat(now: int)
      modifies this`outbox
      ensures roomId == "" || playerId == "" || screen == MenuScreen ==> outbox == old(outbox)
      ensures roomId != "" && playerId != "" && screen != MenuScreen ==>
                outbox == old(outbox) + [Publication(Topic(roomId, "/ping"), Ping(playerId, now), false)]
    {
      if roomId == "" || playerId == "" || screen == MenuScreen {
        return;
      }
      outbox := outbox + [Publication(Topic(roomId, "/ping"), Ping(playerId, now), false)];
    }

    /**
     * `cleanInactivePlayers`: deletes every stale record; only if one went, republishes the
     * snapshot, followed by the tombstone when the roster became empty inside a room.
     */
    method CleanInactivePlayers(now: int)
      modifies this`players, this`outbox
      ensures players == Evict(old(players), now)
      ensures players == old(players) ==> outbox == old(outbox)
      ensures players != old(players) ==>
                outbox == old(outbox) + [SnapshotPublication(roomId, players, now)]
                          + (if players == map[] && roomId != "" then [Tombstone(roomId)] else [])
    {
      ghost var start := players;
      var removed := false;
      var todo := players.Keys;
      while todo != {}
        modifies this`players
        invariant todo <= start.Keys && players.Keys <= start.Keys
        invariant forall id :: id in players <==> id in start && (id in todo || !IsStale(start[id], now))
        invariant forall id :: id in players ==> players[id] == start[id]
        invariant !removed ==> players == start
        invariant removed ==> players.Keys < start.Keys
        decreases todo
      {
        var id :| id in todo;
        if now - players[id].lastUpdate > PlayerTimeout {
          players := players - {id};
          removed := true;
        }
        todo := todo - {id};
      }
      assert players == Evict(start, now);
      if removed {
        PublishPlayers(now);
        if |players| == 0 && roomId != "" {
          outbox := outbox + [Publication(Topic(roomId, "/players"), EmptyPayload, true)];
        }
      }
    }

    // -------------------------------------------------------------------------
    // Joining, creating and leaving rooms
    // -------------------------------------------------------------------------

    /** `joinRoom` up to its half-second wait for retained messages. */
    method JoinRoom(id: string)
      modifies this`players, this`roomId, this`gameState, this`screen, this`subscriptions, this`joinPending
      ensures id == "" ==>
                && players == old(players) && roomId == old(roomId) && gameState == old(gameState)
                && screen == old(screen) && subscriptions == old(subscriptions) && joinPending == old(joinPending)
      ensures id != "" ==>
                && players == map[] && roomId == id && gameState == "waiting" && screen == RoomScreen
                && subscriptions == old(subscriptions) + {Topic(id, "/#"), Topic(id, "/state")} && joinPending
    {
      if id == "" {
        return;
      }
      players := map[];
      roomId := id;
      gameState := "waiting";
      screen := RoomScreen;
      subscriptions := subscriptions + {Topic(roomId, "/#")};
      subscriptions := subscriptions + {Topic(roomId, "/state")};
      joinPending := true;
    }

    /**
     * The rest of `joinRoom`, once the retained messages have been handled: a running round
     * or an empty roster sends the player back to the menu through `leaveRoom` without adding
     * them; otherwise the hand stream is subscribed and the local player added and announced.
     */
    method FinishJoin(millis: int, now: int, draw: nat)
      requires joinPending && draw < 1000
      modifies this`joinPending, this`errorMessage, this`errorAt, this`screen, this`players, this`outbox
      modifies this`subscriptions, this`gameState, this`roomId, this`playerId
      ensures !joinPending
      ensures old(gameState) != "waiting" || |old(players)| == 0 ==>
                && errorMessage == (if old(gameState) != "waiting" then "Game is in progress" else "Room does not exist!")
                && errorAt == millis
                && players.Keys <= old(players).Keys
                && players == WithoutHands(LeftRoster(old(players), old(playerId), false))
                && screen == MenuScreen && gameState == "waiting" && roomId == "" && playerId == ""
      ensures old(gameState) != "waiting" || |old(players)| == 0 ==>
                var rest := LeftRoster(old(players), old(playerId), false);
                && outbox == old(outbox)
                     + (if old(playerId) != "" && old(playerId) in old(players) then [SnapshotPublication(old(roomId), rest, now)] else [])
                     + (if ActiveSet(rest) == {} && old(roomId) != "" then [Tombstone(old(roomId))] else [])
                && subscriptions == if old(roomId) != "" then old(subscriptions) - {Topic(old(roomId), "/#"), Topic(old(roomId), "/hands/#")}
                                    else old(subscriptions)
      ensures old(gameState) != "waiting" || |old(players)| == 0 ==>
                forall i :: |old(outbox)| <= i < |outbox| ==> !outbox[i].payload.PlayerUpdate?
      ensures old(gameState) == "waiting" && |old(players)| > 0 ==>
                && playerId == PlayerIdFor(now, draw)
                && players == old(players)[playerId := Player(playerName, 0, false, false, now, None)]
                && subscriptions == old(subscriptions) + {Topic(roomId, "/hands/#")}
                && outbox == old(outbox) + [UpdatePublication(roomId, playerId, players[playerId], now),
                                            SnapshotPublication(roomId, players, now)]
                && errorMessage == old(errorMessage) && errorAt == old(errorAt)
                && screen == old(screen) && gameState == old(gameState) && roomId == old(roomId)
    {
      joinPending := false;
      var rejection := JoinRejection(gameState, players);
      if rejection.Some? {
        RejectJoin(rejection.value, millis, now);
      } else {
        AcceptJoin(now, draw);
      }
    }

    /** An accepted join: the room's hand stream is subscribed and the local player added and announced. */
    method AcceptJoin(now: int, draw: nat)
      requires draw < 1000
      modifies this`players, this`playerId, this`outbox, this`subscriptions
      ensures playerId == PlayerIdFor(now, draw)
      ensures players == old(players)[playerId := Player(playerName, 0, false, false, now, None)]
      ensures subscriptions == old(subscriptions) + {Topic(roomId, "/hands/#")}
      ensures outbox == old(outbox) + [UpdatePublication(roomId, playerId, players[playerId], now),
                                       SnapshotPublication(roomId, players, now)]
    {
      subscriptions := subscriptions + {Topic(roomId, "/hands/#")};
      EnterAsPlayer(now, draw);
    }

    /** A refused join: the error is shown and `leaveRoom` runs from the menu screen, so the own record, if any, is deleted. */
    method RejectJoin(message: string, millis: int, now: int)
      modifies this`errorMessage, this`errorAt, this`screen, this`players, this`outbox
      modifies this`subscriptions, this`gameState, this`roomId, this`playerId
      ensures errorMessage == message && errorAt == millis
      ensures players == WithoutHands(LeftRoster(old(players), old(playerId), false))
      ensures players.Keys <= old(players).Keys
      ensures var rest := LeftRoster(old(players), old(playerId), false);
              outbox == old(outbox)
                + (if old(playerId) != "" && old(playerId) in old(players) then [SnapshotPublication(old(roomId), rest, now)] else [])
                + (if ActiveSet(rest) == {} && old(roomId) != "" then [Tombstone(old(roomId))] else [])
      ensures forall i :: |old(outbox)| <= i < |outbox| ==> !outbox[i].payload.PlayerUpdate?
      ensures subscriptions == if old(roomId) != "" then old(subscriptions) - {Topic(old(roomId), "/#"), Topic(old(roomId), "/hands/#")}
                               else old(subscriptions)
      ensures screen == MenuScreen && gameState == "waiting" && roomId == "" && playerId == ""
    {
      ShowError(message, millis);
      screen := MenuScreen;
      LeaveRoom(now);
    }

    /** `createRoom`: a fresh "room-XXXXXX" code, subscriptions, and a roster holding only the local player. */
    method CreateRoom(draws: seq<int>, now: int, draw: nat)
      requires |draws| == 6 && forall i :: 0 <= i < 6 ==> 0 <= draws[i] < |RoomCodeChars|
      requires draw < 1000
      modifies this`roomId, this`players, this`gameState, this`screen, this`subscriptions, this`playerId, this`outbox
      ensures |roomId| == 11 && roomId[..5] == "room-"
      ensures forall i :: 5 <= i < 11 ==> roomId[i] == RoomCodeChars[draws[i - 5]]
      ensures gameState == "waiting" && screen == RoomScreen
      ensures subscriptions == old(subscriptions) + {Topic(roomId, "/#"), Topic(roomId, "/hands/#")}
      ensures playerId == PlayerIdFor(now, draw)
      ensures players == map[playerId := Player(playerName, 0, false, false, now, None)]
      ensures outbox == old(outbox) + [UpdatePublication(roomId, playerId, players[playerId], now),
                                       SnapshotPublication(roomId, players, now)]
    {
      var suffix := RandomRoomSuffix(draws);
      var code := "room" + suffix;
      assert code[..5] == "room-" && forall i :: 5 <= i < 11 ==> code[i] == suffix[i - 4];
      OpenRoom(code);
      EnterAsPlayer(now, draw);
    }

    /** `playerId = addPlayer(playerName); publishPlayers()`, the common tail of creating and joining a room. */
    method EnterAsPlayer(now: int, draw: nat)
      requires draw < 1000
      modifies this`players, this`playerId, this`outbox
      ensures playerId == PlayerIdFor(now, draw)
      ensures players == old(players)[playerId := Player(playerName, 0, false, false, now, None)]
      ensures outbox == old(outbox) + [UpdatePublication(roomId, playerId, players[playerId], now),
                                       SnapshotPublication(roomId, players, now)]
    {
      ghost var sent := outbox;
      playerId := AddPlayer(playerName, now, draw);
      PublishPlayers(now);
      SentInTurn(sent, UpdatePublication(roomId, playerId, players[playerId], now), SnapshotPublication(roomId, players, now));
    }

    /** The first half of `createRoom`: the new code, an empty roster and the room's two subscriptions. */
    method OpenRoom(code: string)
      modifies this`roomId, this`players, this`gameState, this`screen, this`subscriptions
      ensures roomId == code && players == map[] && gameState == "waiting" && screen == RoomScreen
      ensures subscriptions == old(subscriptions) + {Topic(code, "/#"), Topic(code, "/hands/#")}
    {
      roomId := code;
      players := map[];
      gameState := "waiting";
      screen := RoomScreen;
      subscriptions := subscriptions + {Topic(roomId, "/#")};
      subscriptions := subscriptions + {Topic(roomId, "/hands/#")};
    }

    /**
     * `leaveRoom`: the own record is marked departed at game over and deleted otherwise (with a
     * snapshot either way); the tombstone goes out exactly when no active record remains inside a
     * room; then the room topics are unsubscribed, hands cleared and the client is back in the menu.
     */
    method LeaveRoom(now: int)
      modifies this`players, this`outbox, this`subscriptions, this`gameState, this`screen, this`roomId, this`playerId
      ensures var rest := LeftRoster(old(players), old(playerId), old(screen) == GameOverScreen);
              && players == WithoutHands(rest)
              && outbox == old(outbox)
                   + (if old(playerId) != "" && old(playerId) in old(players) then [SnapshotPublication(old(roomId), rest, now)] else [])
                   + (if ActiveSet(rest) == {} && old(roomId) != "" then [Tombstone(old(roomId))] else [])
      ensures subscriptions == if old(roomId) != "" then old(subscriptions) - {Topic(old(roomId), "/#"), Topic(old(roomId), "/hands/#")}
                               else old(subscriptions)
      ensures gameState == "waiting" && screen == MenuScreen && roomId == "" && playerId == ""
    {
      DepartSelf(now);
      if ActiveSet(players) == {} && roomId != "" {
        outbox := outbox + [Publication(Topic(roomId, "/players"), EmptyPayload, true)];
      }
      BackToMenu();
    }

    /** The end of `leaveRoom`: the room topics are unsubscribed, every hand forgotten and the client is back in the menu with no room and no id. */
    method BackToMenu()
      modifies this`subscriptions, this`gameState, this`players, this`screen, this`roomId, this`playerId
      ensures subscriptions == if old(roomId) != "" then old(subscriptions) - {Topic(old(roomId), "/#"), Topic(old(roomId), "/hands/#")}
                               else old(subscriptions)
      ensures players == WithoutHands(old(players))
      ensures gameState == "waiting" && screen == MenuScreen && roomId == "" && playerId == ""
    {
      if roomId != "" {
        subscriptions := subscriptions - {Topic(roomId, "/#")};
        subscriptions := subscriptions - {Topic(roomId, "/hands/#")};
      }

      gameState := "waiting";
      ClearHands();
      screen := MenuScreen;
      roomId := "";
      playerId := "";
    }

    /** The first step of `leaveRoom`: the own record is marked departed at game over, deleted otherwise, and the snapshot republished. */
    method DepartSelf(now: int)
      modifies this`players, this`outbox
      ensures players == LeftRoster(old(players), playerId, screen == GameOverScreen)
      ensures outbox == old(outbox) + (if playerId != "" && playerId in old(players) then [SnapshotPublication(roomId, players, now)] else [])
    {
      if playerId != "" && playerId in players {
        if screen == GameOverScreen {
          players := players[playerId := players[playerId].(left := true)];
          PublishPlayers(now);
        } else {
          players := players - {playerId};
          PublishPlayers(now);
        }
      }
    }

    /** The loop at the end of `leaveRoom` that forgets every remote hand. */
    method ClearHands()
      modifies this`players
      ensures players == WithoutHands(old(players))
    {
      ghost var start := players;
      var todo := players.Keys;
      while todo != {}
        modifies this`players
        invariant todo <= start.Keys && players.Keys == start.Keys
        invariant forall id :: id in players ==>
                    players[id] == if id in todo then start[id] else start[id].(remoteHand := None)
        decreases todo
      {
        var id :| id in todo;
        players := players[id := players[id].(remoteHand := None)];
        todo := todo - {id};
      }
      assert players == WithoutHands(start);
    }

    // -------------------------------------------------------------------------
    // Menu buttons and the local player
    // -------------------------------------------------------------------------

    /** The Join Room button: the name must match the 16-character rule and the trimmed code must be non-empty. */
    method JoinButton(code: string, millis: int)
      modifies this`errorMessage, this`errorAt
      modifies this`players, this`roomId, this`gameState, this`screen, this`subscriptions, this`joinPending
      ensures !ValidUsername(playerName, 16) ==>
                && errorMessage == NameFirst && errorAt == millis
                && roomId == old(roomId) && players == old(players) && joinPending == old(joinPending)
                && gameState == old(gameState) && screen == old(screen) && subscriptions == old(subscriptions)
      ensures ValidUsername(playerName, 16) && Trim(code) == "" ==>
                && errorMessage == NoRoomCode && errorAt == millis
                && roomId == old(roomId) && players == old(players) && joinPending == old(joinPending)
                && gameState == old(gameState) && screen == old(screen) && subscriptions == old(subscriptions)
      ensures ValidUsername(playerName, 16) && Trim(code) != "" ==>
                && errorMessage == old(errorMessage) && errorAt == old(errorAt)
                && players == map[] && roomId == Trim(code) && gameState == "waiting" && screen == RoomScreen
                && subscriptions == old(subscriptions) + {Topic(roomId, "/#"), Topic(roomId, "/state")} && joinPending
    {
      var customCode := Trim(code);
      JoinWithCode(customCode, millis);
    }

    /** The Join Room button once the typed code has been trimmed. */
    method JoinWithCode(customCode: string, millis: int)
      modifies this`errorMessage, this`errorAt
      modifies this`players, this`roomId, this`gameState, this`screen, this`subscriptions, this`joinPending
      ensures !ValidUsername(playerName, 16) ==>
                && errorMessage == NameFirst && errorAt == millis
                && roomId == old(roomId) && players == old(players) && joinPending == old(joinPending)
                && gameState == old(gameState) && screen == old(screen) && subscriptions == old(subscriptions)
      ensures ValidUsername(playerName, 16) && customCode == "" ==>
                && errorMessage == NoRoomCode && errorAt == millis
                && roomId == old(roomId) && players == old(players) && joinPending == old(joinPending)
                && gameState == old(gameState) && screen == old(screen) && subscriptions == old(subscriptions)
      ensures ValidUsername(playerName, 16) && customCode != "" ==>
                && errorMessage == old(errorMessage) && errorAt == old(errorAt)
                && players == map[] && roomId == customCode && gameState == "waiting" && screen == RoomScreen
                && subscriptions == old(subscriptions) + {Topic(roomId, "/#"), Topic(roomId, "/state")} && joinPending
    {
      if !ValidUsername(playerName, 16) {
        ShowError(NameFirst, millis);
        return;
      }
      if customCode == "" {
        ShowError(NoRoomCode, millis);
        return;
      } else {
        JoinRoom(customCode);
      }
    }

    /** The red message line and the time it appeared. */
    method ShowError(message: string, millis: int)
      modifies this`errorMessage, this`errorAt
      ensures errorMessage == message && errorAt == millis
    {
      errorMessage := message;
      errorAt := millis;
    }

    /** The Create Room button: the name must match the 10-character rule. */
    method CreateButton(draws: seq<int>, now: int, draw: nat, millis: int)
      requires |draws| == 6 && forall i :: 0 <= i < 6 ==> 0 <= draws[i] < |RoomCodeChars|
      requires draw < 1000
      modifies this`errorMessage, this`errorAt
      modifies this`roomId, this`players, this`gameState, this`screen, this`subscriptions, this`playerId, this`outbox
      ensures !ValidUsername(playerName, 10) ==>
                && errorMessage == NameFirst && errorAt == millis
                && roomId == old(roomId) && players == old(players) && outbox == old(outbox)
                && subscriptions == old(subscriptions) && screen == old(screen) && gameState == old(gameState)
                && playerId == old(playerId)
      ensures ValidUsername(playerName, 10) ==>
                && errorMessage == old(errorMessage) && errorAt == old(errorAt)
                && |roomId| == 11 && roomId[..5] == "room-"
                && (forall i :: 5 <= i < 11 ==> roomId[i] == RoomCodeChars[draws[i - 5]])
                && gameState == "waiting" && screen == RoomScreen
                && subscriptions == old(subscriptions) + {Topic(roomId, "/#"), Topic(roomId, "/hands/#")}
                && playerId == PlayerIdFor(now, draw)
                && players == map[playerId := Player(playerName, 0, false, false, now, None)]
                && outbox == old(outbox) + [UpdatePublication(roomId, playerId, players[playerId], now),
                                            SnapshotPublication(roomId, players, now)]
    {
      if !ValidUsername(playerName, 10) {
        ShowError(NameFirst, millis);
        return;
      }
      CreateRoom(draws, now, draw);
    }

    /**
     * `saveUsername`: the trimmed name must match the 10-character rule; a valid one becomes
     * the local name and, inside a room with an own record, is renamed there and announced.
     */
    method SaveUsername(raw: string, millis: int, now: int)
      modifies this`playerName, this`players, this`outbox, this`errorMessage, this`errorAt, this`infoMessage, this`infoAt
      ensures !ValidUsername(Trim(raw), 10) ==>
                && errorMessage == UsernameRule && errorAt == millis
                && playerName == old(playerName) && players == old(players) && outbox == old(outbox)
                && infoMessage == old(infoMessage) && infoAt == old(infoAt)
      ensures ValidUsername(Trim(raw), 10) ==>
                && playerName == Trim(raw) && infoMessage == NameSaved && infoAt == millis
                && errorMessage == old(errorMessage) && errorAt == old(errorAt)
      ensures ValidUsername(Trim(raw), 10) && roomId != "" && playerId != "" && playerId in old(players) ==>
                && players == old(players)[playerId := old(players)[playerId].(name := Trim(raw))]
                && outbox == old(outbox) + [UpdatePublication(roomId, playerId, players[playerId], now),
                                            SnapshotPublication(roomId, players, now)]
      ensures !(roomId != "" && playerId != "" && playerId in old(players)) ==>
                players == old(players) && outbox == old(outbox)
    {
      var newName := Trim(raw);
      SaveName(newName, millis, now);
    }

    /** `saveUsername` once the typed name has been trimmed. */
    method SaveName(newName: string, millis: int, now: int)
      modifies this`playerName, this`players, this`outbox, this`errorMessage, this`errorAt, this`infoMessage, this`infoAt
      ensures !ValidUsername(newName, 10) ==>
                && errorMessage == UsernameRule && errorAt == millis
                && playerName == old(playerName) && players == old(players) && outbox == old(outbox)
                && infoMessage == old(infoMessage) && infoAt == old(infoAt)
      ensures ValidUsername(newName, 10) ==>
                && playerName == newName && infoMessage == NameSaved && infoAt == millis
                && errorMessage == old(errorMessage) && errorAt == old(errorAt)
      ensures ValidUsername(newName, 10) && roomId != "" && playerId != "" && playerId in old(players) ==>
                && players == old(players)[playerId := old(players)[playerId].(name := newName)]
                && outbox == old(outbox) + [UpdatePublication(roomId, playerId, players[playerId], now),
                                            SnapshotPublication(roomId, players, now)]
      ensures !(roomId != "" && playerId != "" && playerId in old(players)) ==>
                players == old(players) && outbox == old(outbox)
    {
      if !ValidUsername(newName, 10) {
        ShowError(UsernameRule, millis);
        return;
      }
      playerName := newName;
      RenameSelf(newName, now);
      infoMessage := NameSaved;
      infoAt := millis;
    }

    /** The part of `saveUsername` that runs inside a room: the own record is renamed, announced and the snapshot republished. */
    method RenameSelf(newName: string, now: int)
      modifies this`players, this`outbox
      ensures roomId != "" && playerId != "" && playerId in old(players) ==>
                && players == old(players)[playerId := old(players)[playerId].(name := newName)]
                && outbox == old(outbox) + [UpdatePublication(roomId, playerId, players[playerId], now),
                                            SnapshotPublication(roomId, players, now)]
      ensures !(roomId != "" && playerId != "" && playerId in old(players)) ==>
                players == old(players) && outbox == old(outbox)
    {
      if roomId != "" && playerId != "" && playerId in players {
        players := players[playerId := players[playerId].(name := newName)];
        var p := players[playerId];
        outbox := outbox + [Publication(Topic(roomId, "/players/update"), PlayerUpdate(playerId, newName, p.score, p.ready, p.left, now), false)];
        PublishPlayers(now);
      }
    }

    /**
     * `setReady`: without an own record nothing happens; otherwise only the own `ready` flips,
     * an update and a snapshot go out, and `/start` follows exactly when the start rule holds.
     */
    method SetReady(now: int)
      modifies this`players, this`outbox
      ensures playerId == "" || playerId !in old(players) ==> players == old(players) && outbox == old(outbox)
      ensures playerId != "" && playerId in old(players) ==>
                && players == old(players)[playerId := old(players)[playerId].(ready := !old(players)[playerId].ready)]
                && outbox == old(outbox)
                     + [UpdatePublication(roomId, playerId, players[playerId], now), SnapshotPublication(roomId, players, now)]
                     + (if StartsRound(gameState, players) then [Publication(Topic(roomId, "/start"), StartSignal(now), false)] else [])
    {
      if playerId == "" || playerId !in players {
        return;
      }
      players := players[playerId := players[playerId].(ready := !players[playerId].ready)];
      var p := players[playerId];
      outbox := outbox + [Publication(Topic(roomId, "/players/update"), PlayerUpdate(playerId, p.name, p.score, p.ready, p.left, now), false)];
      PublishPlayers(now);
      if gameState == "waiting" || gameState == "gameover" {
        var all := AllActiveReady(players);
        if all {
          outbox := outbox + [Publication(Topic(roomId, "/start"), StartSignal(now), false)];
        }
      }
    }

    // -------------------------------------------------------------------------
    // Letters and hands
    // -------------------------------------------------------------------------

    /**
     * The letter logic of `gotClassification`. An accepted letter advances the cursor; the last
     * one of the word scores, credits the score to a record carrying the local name (which one,
     * when several do, is not determined; `credited` says which), publishes the snapshot and
     * draws the next word.
     */
    method GotClassification(sign: string, confident: bool, millis: int, now: int, nextWord: string)
      returns (credited: Option<string>)
      requires Valid()
      modifies this`currentIndex, this`lastMatchTime, this`playerScore, this`players, this`outbox, this`currentWord
      ensures Valid()
      ensures !Accepts(old(currentWord), old(currentIndex), old(lastMatchTime), sign, confident, millis) ==>
                && currentIndex == old(currentIndex) && lastMatchTime == old(lastMatchTime) && playerScore == old(playerScore)
                && players == old(players) && outbox == old(outbox) && currentWord == old(currentWord) && credited.None?
      ensures Accepts(old(currentWord), old(currentIndex), old(lastMatchTime), sign, confident, millis) ==>
                lastMatchTime == millis
      ensures Accepts(old(currentWord), old(currentIndex), old(lastMatchTime), sign, confident, millis)
              && old(currentIndex) + 1 < |old(currentWord)| ==>
                && currentIndex == old(currentIndex) + 1 && playerScore == old(playerScore)
                && players == old(players) && outbox == old(outbox) && currentWord == old(currentWord) && credited.None?
      ensures Accepts(old(currentWord), old(currentIndex), old(lastMatchTime), sign, confident, millis)
              && old(currentIndex) + 1 == |old(currentWord)| ==>
                && playerScore == old(playerScore) + 1 && currentWord == nextWord && currentIndex == 0
                && outbox == old(outbox) + [SnapshotPublication(roomId, players, now)]
                && (credited.None? ==>
                      players == old(players) && forall id :: id in old(players) ==> old(players)[id].name != playerName)
                && (credited.Some? ==>
                      && credited.value in old(players) && old(players)[credited.value].name == playerName
                      && players == old(players)[credited.value := old(players)[credited.value].(score := playerScore)])
    {
      credited := None;
      if !confident || currentIndex >= |currentWord| {
        return;
      }
      if sign == [currentWord[currentIndex]] && millis - lastMatchTime > MatchGapMs {
        currentIndex := currentIndex + 1;
        lastMatchTime := millis;
        if currentIndex >= |currentWord| {
          playerScore := playerScore + 1;
          var named := set id | id in players && players[id].name == playerName;
          if named != {} {
            var id :| id in named;
            players := players[id := players[id].(score := playerScore)];
            credited := Some(id);
          } else {
            forall id | id in players
              ensures players[id].name != playerName
            {
              assert id in named <==> players[id].name == playerName;
            }
          }
          PublishPlayers(now);
          currentWord := nextWord;
          currentIndex := 0;
        }
      }
    }

    /**
     * The hand stream in `draw()`: only inside a room on the lobby or game screen, at most once per
     * `1000 / HAND_FPS` ms; the gate's clock moves even when no frame goes out (no id or no hand).
     */
    method MaybePublishHand(millis: int, now: int, pose: Option<Pose>)
      modifies this`lastHandPublishAt, this`outbox
      ensures !(roomId != "" && (screen == RoomScreen || screen == GameScreen)) || millis - old(lastHandPublishAt) < HandInterval ==>
                lastHandPublishAt == old(lastHandPublishAt) && outbox == old(outbox)
      ensures roomId != "" && (screen == RoomScreen || screen == GameScreen) && millis - old(lastHandPublishAt) >= HandInterval ==>
                && lastHandPublishAt == millis
                && outbox == old(outbox)
                     + (if playerId != "" && pose.Some? then [Publication(Topic(roomId, "/hands/" + playerId), HandFrame(playerId, pose, now), false)] else [])
    {
      if !(roomId != "" && (screen == RoomScreen || screen == GameScreen)) {
        return;
      }
      if millis - lastHandPublishAt < HandInterval {
        return;
      }
      lastHandPublishAt := millis;
      if roomId == "" || playerId == "" {
        return;
      }
      if pose.None? {
        return;
      }
      outbox := outbox + [Publication(Topic(roomId, "/hands/" + playerId), HandFrame(playerId, pose, now), false)];
    }
  }
}
