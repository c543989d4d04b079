/**
 * The values the multiplayer room engine (ProjectASL/src/MultiplayerPaceGame/multiplayerpace.js)
 * keeps and exchanges: player records, the roster map, the decoded payloads of each topic,
 * the topics themselves and how an inbound topic is routed, together with the roster
 * transformations the engine's handlers and timers apply, stated as functions.
 *
 * Payloads are already-decoded values; JSON text is not modelled, except that the empty
 * payload (the tombstone that clears a retained topic) is a value of its own, because
 * decoding it fails.
 */
module Roster {
  import opened Wrappers
  import opened JsText

  const HeartbeatInterval := 10000
  const PlayerTimeout := 60000
  const HandFps := 10
  const HandStaleMs := 2000
  /** `1000 / HAND_FPS`: the minimum spacing of hand frames, in milliseconds. */
  const HandInterval := 1000 / HandFps

  // ---------------------------------------------------------------------------
  // Records and payloads
  // ---------------------------------------------------------------------------

  /** A joint position, normalised to the sender's video size; the coordinates are carried, never computed with. */
  datatype Point = Point(x: real, y: real)
  type Pose = map<string, Point>

  /** The last hand frame received from a remote player and its timestamp. */
  datatype RemoteHand = RemoteHand(data: Option<Pose>, ts: int)

  /** One roster record: `{ name, score, ready, left, lastUpdate, remoteHand }`; an absent `left` reads as false. */
  datatype Player = Player(name: string, score: int, ready: bool, left: bool, lastUpdate: int, remoteHand: Option<RemoteHand>)

  /** One record of a published `/players` snapshot. */
  datatype Entry = Entry(name: string, score: int, ready: bool, left: bool, lastUpdate: int)

  /** The decoded payload of an inbound or outbound message. An empty `playerId` or `name` stands for a missing one. */
  datatype Message =
    | EmptyPayload
    | Snapshot(entries: map<string, Entry>)
    | PlayerUpdate(playerId: string, name: string, score: int, ready: bool, left: bool, timestamp: int)
    | Ping(playerId: string, timestamp: int)
    | StartSignal(timestamp: int)
    | StateSignal(state: string)
    | HandFrame(playerId: string, hand: Option<Pose>, ts: int)

  /** One `client.publish(topic, payload, { retain })` call. */
  datatype Publication = Publication(topic: string, payload: Message, retain: bool)

  // ---------------------------------------------------------------------------
  // Topics
  // ---------------------------------------------------------------------------

  /** The room id as it appears inside a topic; the model writes the source's `null` room as "". */
  function RoomSegment(roomId: string): string
  {
    if roomId == "" then "null" else roomId
  }

  /** `game/rooms/${roomId}${suffix}` */
  function Topic(roomId: string, suffix: string): string
  {
    "game/rooms/" + RoomSegment(roomId) + suffix
  }

  /** Which branch of the inbound handler a topic reaches. */
  datatype Route = UpdateRoute | PlayersRoute | StartRoute | PingRoute | StateRoute | HandsRoute | Unrouted

  /** The handler's dispatch: suffix tests in the source's order, then the `/hands/` infix test. */
  function RouteOf(topic: string): Route
  {
    if EndsWith(topic, "/players/update") then UpdateRoute
    else if EndsWith(topic, "/players") then PlayersRoute
    else if EndsWith(topic, "/start") then StartRoute
    else if EndsWith(topic, "/ping") then PingRoute
    else if EndsWith(topic, "/state") then StateRoute
    else if Contains(topic, "/hands/") then HandsRoute
    else Unrouted
  }

  /** A topic ending in `suffix` does not end in `other` when the two differ `j` places from their ends. */
  lemma EndsWithDiffers(pre: string, suffix: string, other: string, j: nat)
    requires |other| <= |pre + suffix| && j < |suffix| && j < |other|
    requires suffix[|suffix| - 1 - j] != other[|other| - 1 - j]
    ensures !EndsWith(pre + suffix, other)
  {
    var s := pre + suffix;
    assert s[|s| - 1 - j] == suffix[|suffix| - 1 - j];
    if EndsWith(s, other) {
      assert s[|s| - 1 - j] == s[|s| - |other|..][|other| - 1 - j];
    }
  }

  lemma EndsWithSelf(pre: string, suffix: string)
    ensures EndsWith(pre + suffix, suffix)
  {
    var s := pre + suffix;
    assert s[|s| - |suffix|..] == suffix;
  }

  lemma RoutesUpdate(pre: string)
    ensures RouteOf(pre + "/players/update") == UpdateRoute
  {
    EndsWithSelf(pre, "/players/update");
  }

  lemma RoutesPlayers(pre: string)
    requires |pre| >= 7
    ensures RouteOf(pre + "/players") == PlayersRoute
  {
    EndsWithSelf(pre, "/players");
    EndsWithDiffers(pre, "/players", "/players/update", 0);
  }

  lemma RoutesStart(pre: string)
    requires |pre| >= 9
    ensures RouteOf(pre + "/start") == StartRoute
  {
    EndsWithSelf(pre, "/start");
    EndsWithDiffers(pre, "/start", "/players/update", 0);
    EndsWithDiffers(pre, "/start", "/players", 0);
  }

  lemma RoutesPing(pre: string)
    requires |pre| >= 10
    ensures RouteOf(pre + "/ping") == PingRoute
  {
    EndsWithSelf(pre, "/ping");
    EndsWithDiffers(pre, "/ping", "/players/update", 0);
    EndsWithDiffers(pre, "/ping", "/players", 0);
    EndsWithDiffers(pre, "/ping", "/start", 0);
  }

  lemma RoutesState(pre: string)
    requires |pre| >= 9
    ensures RouteOf(pre + "/state") == StateRoute
  {
    EndsWithSelf(pre, "/state");
    EndsWithDiffers(pre, "/state", "/players/update", 3);
    EndsWithDiffers(pre, "/state", "/players", 0);
    EndsWithDiffers(pre, "/state", "/start", 0);
    EndsWithDiffers(pre, "/state", "/ping", 0);
  }

  /** Every topic the engine subscribes to for a room, whatever the room, reaches the handler branch meant for it. */
  lemma OwnTopicsRoute(roomId: string)
    ensures RouteOf(Topic(roomId, "/players/update")) == UpdateRoute
    ensures RouteOf(Topic(roomId, "/players")) == PlayersRoute
    ensures RouteOf(Topic(roomId, "/start")) == StartRoute
    ensures RouteOf(Topic(roomId, "/ping")) == PingRoute
    ensures RouteOf(Topic(roomId, "/state")) == StateRoute
  {
    var pre := "game/rooms/" + RoomSegment(roomId);
    RoutesUpdate(pre);
    RoutesPlayers(pre);
    RoutesStart(pre);
    RoutesPing(pre);
    RoutesState(pre);
  }

  /** `p_${Date.now()}_${Math.floor(Math.random() * 1000)}`: the id `addPlayer` gives the local player. */
  function PlayerIdFor(stamp: int, draw: nat): (id: string)
    ensures |id| >= 5 && id[..2] == "p_" && IsDigit(id[|id| - 1])
  {
    "p_" + IntToString(stamp) + "_" + NatToString(draw)
  }

  /** A hand frame published by `publishHand` reaches the `/hands/` branch of every subscriber: its topic ends in a digit, not in one of the other suffixes. */
  lemma HandTopicRoutes(roomId: string, stamp: int, draw: nat)
    ensures RouteOf(Topic(roomId, "/hands/" + PlayerIdFor(stamp, draw))) == HandsRoute
  {
    var id := PlayerIdFor(stamp, draw);
    var pre := "game/rooms/" + RoomSegment(roomId);
    var t := Topic(roomId, "/hands/" + id);
    assert t == (pre + "/hands/") + id;
    EndsWithDiffers(pre + "/hands/", id, "/players/update", 0);
    EndsWithDiffers(pre + "/hands/", id, "/players", 0);
    EndsWithDiffers(pre + "/hands/", id, "/start", 0);
    EndsWithDiffers(pre + "/hands/", id, "/ping", 0);
    EndsWithDiffers(pre + "/hands/", id, "/state", 0);
    assert t[|pre|..|pre| + 7] == "/hands/";
    assert OccursAt(t, "/hands/", |pre|);
  }

  // ---------------------------------------------------------------------------
  // Snapshots: publishPlayers and the `/players` handler
  // ---------------------------------------------------------------------------

  /** `t || Date.now()`: a zero timestamp is replaced by the current time. */
  function OrNow(t: int, now: int): int
  {
    if t == 0 then now else t
  }

  /** The record `publishPlayers` writes for one named player. */
  function ToEntry(p: Player, now: int): Entry
  {
    Entry(p.name, p.score, p.ready, p.left, OrNow(p.lastUpdate, now))
  }

  /** The record the `/players` handler keeps for one named snapshot entry; it carries no hand. */
  function FromEntry(e: Entry, now: int): Player
  {
    Player(e.name, e.score, e.ready, e.left, OrNow(e.lastUpdate, now), None)
  }

  /** The snapshot `publishPlayers` sends: every record with a non-empty name, field-complete. */
  function Sanitize(players: map<string, Player>, now: int): map<string, Entry>
  {
    map id | id in players && players[id].name != "" :: ToEntry(players[id], now)
  }

  /** The roster the `/players` handler installs: it replaces the old roster by the named entries. */
  function FromSnapshot(entries: map<string, Entry>, now: int): map<string, Player>
  {
    map id | id in entries && entries[id].name != "" :: FromEntry(entries[id], now)
  }

  /**
   * Applying a published snapshot reproduces the publisher's roster: the same named
   * ids with the same fields, zero timestamps replaced by the publish time, hands dropped.
   */
  lemma SnapshotRoundTrip(players: map<string, Player>, now: int, later: int)
    requires now != 0
    ensures var r := FromSnapshot(Sanitize(players, now), later);
            && (forall id :: id in r <==> id in players && players[id].name != "")
            && (forall id :: id in r ==> r[id] == players[id].(lastUpdate := OrNow(players[id].lastUpdate, now), remoteHand := None))
  {
    var s := Sanitize(players, now);
    var r := FromSnapshot(s, later);
    forall id | id in r
      ensures r[id] == players[id].(lastUpdate := OrNow(players[id].lastUpdate, now), remoteHand := None)
    {
      assert s[id] == ToEntry(players[id], now);
    }
  }

  /** A roster whose records all have names, non-zero timestamps and no hands survives publish-then-apply unchanged. */
  lemma SnapshotRoundTripExact(players: map<string, Player>, now: int, later: int)
    requires forall id :: id in players ==>
               players[id].name != "" && players[id].lastUpdate != 0 && players[id].remoteHand == None
    ensures FromSnapshot(Sanitize(players, now), later) == players
  {
    var s := Sanitize(players, now);
    var r := FromSnapshot(s, later);
    forall id | id in r
      ensures r[id] == players[id]
    {
      assert s[id] == ToEntry(players[id], now);
    }
  }

  /**
   * A snapshot is self-sufficient: a subscriber that applies it and then publishes its own
   * roster publishes the same snapshot again, whatever its own clock says.
   */
  lemma SnapshotSelfSufficient(players: map<string, Player>, now: int, later: int, again: int)
    requires now != 0
    ensures Sanitize(FromSnapshot(Sanitize(players, now), later), again) == Sanitize(players, now)
  {
    SnapshotRoundTrip(players, now, later);
  }

  /** Applying a snapshot does not depend on the roster it replaces, and applying it twice is applying it once. */
  lemma SnapshotIdempotent(entries: map<string, Entry>, now: int, later: int)
    requires now != 0
    ensures FromSnapshot(Sanitize(FromSnapshot(entries, now), later), now) == FromSnapshot(entries, now)
  {
    var r := FromSnapshot(entries, now);
    assert forall id :: id in r ==> r[id].name != "" && r[id].lastUpdate != 0 && r[id].remoteHand == None;
    SnapshotRoundTripExact(r, later, now);
  }

  /** Builds the snapshot one record at a time, as `publishPlayers` does. */
  method CleanPlayers(players: map<string, Player>, now: int) returns (clean: map<string, Entry>)
    ensures clean == Sanitize(players, now)
  {
    clean := map[];
    var todo := players.Keys;
    while todo != {}
      invariant todo <= players.Keys
      invariant forall id :: id in clean <==> id in players && id !in todo && players[id].name != ""
      invariant forall id :: id in clean ==> clean[id] == ToEntry(players[id], now)
      decreases todo
    {
      var id :| id in todo;
      var p := players[id];
      if p.name != "" {
        clean := clean[id := ToEntry(p, now)];
      }
      todo := todo - {id};
    }
  }

  /** Builds the replacement roster one entry at a time, as the `/players` handler does. */
  method ParseSnapshot(entries: map<string, Entry>, now: int) returns (clean: map<string, Player>)
    ensures clean == FromSnapshot(entries, now)
  {
    clean := map[];
    var todo := entries.Keys;
    while todo != {}
      invariant todo <= entries.Keys
      invariant forall id :: id in clean <==> id in entries && id !in todo && entries[id].name != ""
      invariant forall id :: id in clean ==> clean[id] == FromEntry(entries[id], now)
      decreases todo
    {
      var id :| id in todo;
      var e := entries[id];
      if e.name != "" {
        clean := clean[id := FromEntry(e, now)];
      }
      todo := todo - {id};
    }
  }

  // ---------------------------------------------------------------------------
  // Deltas: `/players/update`, `/ping`, `/hands/`
  // ---------------------------------------------------------------------------

  /** The `/players/update` handler: without an id or a name nothing changes, otherwise that id's record is overwritten. */
  function WithUpdate(players: map<string, Player>, id: string, name: string, score: int, ready: bool, left: bool, timestamp: int)
    : (r: map<string, Player>)
    ensures id == "" || name == "" ==> r == players
    ensures id != "" && name != "" ==>
              && r.Keys == players.Keys + {id}
              && r[id] == Player(name, score, ready, left, timestamp, None)
    ensures forall other :: other != id ==> (other in r <==> other in players)
    ensures forall other :: other != id && other in r ==> r[other] == players[other]
  {
    if id == "" || name == "" then players
    else players[id := Player(name, score, ready, left, timestamp, None)]
  }

  /** The `/ping` handler: an unknown id changes nothing; a known one gets exactly `lastUpdate := timestamp`, even an older one. */
  function WithPing(players: map<string, Player>, id: string, timestamp: int): (r: map<string, Player>)
    ensures r.Keys == players.Keys
    ensures forall other :: other in r && other != id ==> r[other] == players[other]
    ensures id in r ==> r[id].lastUpdate == timestamp && r[id].(lastUpdate := players[id].lastUpdate) == players[id]
  {
    if id in players then players[id := players[id].(lastUpdate := timestamp)] else players
  }

  /** The stored pings are not monotonic: a delayed, older ping moves `lastUpdate` backwards. */
  lemma PingCanMoveBackwards(players: map<string, Player>, id: string, newer: int, older: int)
    requires id in players && older < newer
    ensures WithPing(WithPing(players, id, newer), id, older)[id].lastUpdate < WithPing(players, id, newer)[id].lastUpdate
  {
  }

  /** The placeholder record created for an unknown sender of a hand frame. */
  function Placeholder(now: int): Player
  {
    Player("Player?", 0, false, false, now, None)
  }

  /**
   * The `/hands/` handler: a frame without a sender or from the local id changes nothing;
   * otherwise the sender's record (a placeholder if it was unknown) gets the frame and the
   * frame time as its last update.
   */
  function WithHandFrame(players: map<string, Player>, self: string, sender: string, hand: Option<Pose>, ts: int, now: int)
    : (r: map<string, Player>)
    ensures sender == "" || sender == self ==> r == players
    ensures sender != "" && sender != self ==>
              && r.Keys == players.Keys + {sender}
              && r[sender].remoteHand == Some(RemoteHand(hand, OrNow(ts, now)))
              && r[sender].lastUpdate == OrNow(ts, now)
              && (sender in players ==> r[sender].(lastUpdate := players[sender].lastUpdate, remoteHand := players[sender].remoteHand) == players[sender])
              && (sender !in players ==> r[sender].name == "Player?" && r[sender].score == 0 && !r[sender].ready && !r[sender].left)
    ensures forall other :: other in r && other != sender ==> other in players && r[other] == players[other]
  {
    if sender == "" || sender == self then players
    else
      var base := if sender in players then players[sender] else Placeholder(now);
      var stamp := OrNow(ts, now);
      players[sender := base.(remoteHand := Some(RemoteHand(hand, stamp)), lastUpdate := stamp)]
  }

  /**
   * The roster after one decoded, non-empty payload on a topic with the given route.
   * A payload of another shape is read the way the handler reads it: on `/players` it holds
   * no named records, so the roster empties; on `/ping` an update's `playerId` and `timestamp`
   * act as a ping; on `/hands/` an update or ping has a sender but no hand and no `ts`.
   * A hand frame on `/ping` from a known sender would set its `lastUpdate` to `undefined`,
   * which an integer cannot hold; the model leaves the roster as it is for it, as for every
   * other mismatch.
   */
  function Inbound(route: Route, msg: Message, players: map<string, Player>, self: string, now: int): map<string, Player>
  {
    if msg.EmptyPayload? then players
    else match route
      case UpdateRoute =>
        if msg.PlayerUpdate? then WithUpdate(players, msg.playerId, msg.name, msg.score, msg.ready, msg.left, msg.timestamp)
        else players
      case PlayersRoute => FromSnapshot(if msg.Snapshot? then msg.entries else map[], now)
      case PingRoute =>
        if msg.Ping? then WithPing(players, msg.playerId, msg.timestamp)
        else if msg.PlayerUpdate? then WithPing(players, msg.playerId, msg.timestamp)
        else players
      case HandsRoute =>
        if msg.HandFrame? then WithHandFrame(players, self, msg.playerId, msg.hand, msg.ts, now)
        else if msg.PlayerUpdate? || msg.Ping? then WithHandFrame(players, self, msg.playerId, None, 0, now)
        else players
      case _ => players
  }

  /** An empty payload, the tombstone that clears a retained snapshot, fails to decode and leaves the local roster as it is. */
  lemma TombstoneIgnored(route: Route, players: map<string, Player>, self: string, now: int)
    ensures Inbound(route, EmptyPayload, players, self, now) == players
  {
  }

  // ---------------------------------------------------------------------------
  // Timers and round transitions
  // ---------------------------------------------------------------------------

  /** A record silent for longer than the timeout. */
  predicate IsStale(p: Player, now: int)
  {
    now - p.lastUpdate > PlayerTimeout
  }

  /** What `cleanInactivePlayers` leaves: departed or not, every stale record is gone and every other record stays as it was. */
  function Evict(players: map<string, Player>, now: int): (r: map<string, Player>)
    ensures forall id :: id in r ==> id in players && r[id] == players[id] && now - r[id].lastUpdate <= PlayerTimeout
    ensures forall id :: id in players && now - players[id].lastUpdate <= PlayerTimeout ==> id in r
  {
    map id | id in players && !IsStale(players[id], now) :: players[id]
  }

  /** A later sweep removes at least what an earlier one did, and sweeping twice at once is sweeping once. */
  lemma EvictMonotone(players: map<string, Player>, earlier: int, later: int)
    requires earlier <= later
    ensures Evict(players, later).Keys <= Evict(players, earlier).Keys
    ensures Evict(Evict(players, later), later) == Evict(players, later)
  {
  }

  /** The roster without departed records, as `restartGame` leaves it. */
  function WithoutDeparted(players: map<string, Player>): (r: map<string, Player>)
    ensures forall id :: id in r <==> id in players && !players[id].left
    ensures forall id :: id in r ==> r[id] == players[id]
  {
    map id | id in players && !players[id].left :: players[id]
  }

  /** Every record with `ready` and `score` cleared, as `restartGame` leaves them. */
  function RoundReset(players: map<string, Player>): (r: map<string, Player>)
    ensures r.Keys == players.Keys
    ensures forall id :: id in r ==> r[id] == players[id].(ready := false, score := 0)
  {
    map id | id in players :: players[id].(ready := false, score := 0)
  }

  /** Every record with `ready` cleared, as `endGame` leaves them. */
  function AllUnready(players: map<string, Player>): (r: map<string, Player>)
    ensures r.Keys == players.Keys
    ensures forall id :: id in r ==> r[id] == players[id].(ready := false)
  {
    map id | id in players :: players[id].(ready := false)
  }

  /** Every record without its remote hand, as `leaveRoom` leaves them. */
  function WithoutHands(players: map<string, Player>): (r: map<string, Player>)
    ensures r.Keys == players.Keys
    ensures forall id :: id in r ==> r[id] == players[id].(remoteHand := None)
  {
    map id | id in players :: players[id].(remoteHand := None)
  }

  /** After a round restart no record is departed, unready-ness is universal and every score is zero. */
  lemma RestartedRosterIsClean(players: map<string, Player>)
    ensures var r := RoundReset(WithoutDeparted(players));
            && r.Keys == set id | id in players && !players[id].left
            && forall id :: id in r ==> !r[id].left && !r[id].ready && r[id].score == 0
  {
  }

  /** The own record as `leaveRoom` leaves it: marked departed at game over, deleted otherwise, untouched without one. */
  function LeftRoster(players: map<string, Player>, self: string, atGameOver: bool): (r: map<string, Player>)
    ensures self == "" || self !in players ==> r == players
    ensures self != "" && self in players && atGameOver ==>
              r.Keys == players.Keys && r[self] == players[self].(left := true)
    ensures self != "" && self in players && !atGameOver ==> r.Keys == players.Keys - {self}
    ensures forall id :: id in r && id != self ==> r[id] == players[id]
  {
    if self != "" && self in players then
      if atGameOver then players[self := players[self].(left := true)] else players - {self}
    else players
  }

  /** Leaving never leaves the local player among the active records, and at game over the score stays on the board. */
  lemma LeaverInactive(players: map<string, Player>, self: string, atGameOver: bool)
    requires self != "" && self in players
    ensures self !in ActiveSet(LeftRoster(players, self, atGameOver))
    ensures atGameOver ==> self in LeftRoster(players, self, atGameOver) && LeftRoster(players, self, atGameOver)[self].score == players[self].score
    ensures ActiveSet(LeftRoster(players, self, atGameOver)) == ActiveSet(players) - {self}
  {
    var r := LeftRoster(players, self, atGameOver);
    forall id | id in ActiveSet(players) - {self}
      ensures id in ActiveSet(r)
    {
      assert r[id] == players[id];
    }
  }

  // ---------------------------------------------------------------------------
  // Ready/start rule
  // ---------------------------------------------------------------------------

  /** The ids of the records that have not left. */
  function ActiveSet(players: map<string, Player>): set<string>
  {
    set id | id in players && !players[id].left
  }

  /** `setReady` publishes `/start` exactly when this holds after its own toggle. */
  predicate StartsRound(gameState: string, players: map<string, Player>)
  {
    && (gameState == "waiting" || gameState == "gameover")
    && ActiveSet(players) != {}
    && forall id :: id in ActiveSet(players) ==> players[id].ready
  }

  /** A single active player who is ready starts the round alone; departed records do not count. */
  lemma SoloStart(gameState: string, players: map<string, Player>, id: string)
    requires gameState == "waiting" || gameState == "gameover"
    requires id in players && !players[id].left && players[id].ready
    requires forall other :: other in players && other != id ==> players[other].left
    ensures StartsRound(gameState, players)
  {
    assert id in ActiveSet(players);
  }

  /** One active record that is not ready blocks the start, whatever the others say. */
  lemma UnreadyBlocksStart(gameState: string, players: map<string, Player>, id: string)
    requires id in players && !players[id].left && !players[id].ready
    ensures !StartsRound(gameState, players)
  {
    assert id in ActiveSet(players);
  }

  /** The readiness of a departed record never changes the outcome of the start rule. */
  lemma DepartedReadinessIrrelevant(gameState: string, players: map<string, Player>, id: string, ready: bool)
    requires id in players && players[id].left
    ensures StartsRound(gameState, players[id := players[id].(ready := ready)]) == StartsRound(gameState, players)
  {
    var q := players[id := players[id].(ready := ready)];
    assert ActiveSet(q) == ActiveSet(players);
  }

  /** `activePlayers.length > 0 && activePlayers.every(p => p.ready)`, walking the records one by one. */
  method AllActiveReady(players: map<string, Player>) returns (all: bool)
    ensures all <==> ActiveSet(players) != {} && forall id :: id in ActiveSet(players) ==> players[id].ready
  {
    var anyActive := false;
    all := true;
    var todo := players.Keys;
    while todo != {}
      invariant todo <= players.Keys
      invariant anyActive <==> exists id :: id in players.Keys - todo && !players[id].left
      invariant all <==> forall id :: id in players.Keys - todo && !players[id].left ==> players[id].ready
      decreases todo
    {
      var id :| id in todo;
      if !players[id].left {
        anyActive := true;
        if !players[id].ready {
          all := false;
        }
      }
      todo := todo - {id};
    }
    if !anyActive {
      all := false;
    }
    assert ActiveSet(players) != {} <==> anyActive by {
      if anyActive {
        var w :| w in players.Keys && !players[w].left;
        assert w in ActiveSet(players);
      }
    }
  }

  // ---------------------------------------------------------------------------
  // Hand rendering filter and join policy
  // ---------------------------------------------------------------------------

  /** The remote hands `drawAllHands` draws: not the local id, only records holding hand data, none older than the staleness bound. */
  function VisibleHands(players: map<string, Player>, self: string, now: int): (r: map<string, Pose>)
    ensures forall id :: id in r <==>
              && id in players && id != self
              && players[id].remoteHand.Some? && players[id].remoteHand.value.data.Some?
              && now - players[id].remoteHand.value.ts <= HandStaleMs
    ensures forall id :: id in r ==> r[id] == players[id].remoteHand.value.data.value
  {
    map id | id in players && id != self
             && players[id].remoteHand.Some? && players[id].remoteHand.value.data.Some?
             && !(now - players[id].remoteHand.value.ts > HandStaleMs)
      :: players[id].remoteHand.value.data.value
  }

  /** After the retained-message wait, why a join is refused, if it is: a running round first, then a missing room. */
  function JoinRejection(gameState: string, players: map<string, Player>): Option<string>
  {
    if gameState != "waiting" then Some("Game is in progress")
    else if |players| == 0 then Some("Room does not exist!")
    else None
  }

  // ---------------------------------------------------------------------------
  // Names and room codes
  // ---------------------------------------------------------------------------

  /** The characters of `[A-Za-z0-9_]`. */
  predicate IsNameChar(c: char)
  {
    ('A' <= c <= 'Z') || ('a' <= c <= 'z') || ('0' <= c <= '9') || c == '_'
  }

  /** `/^[A-Za-z0-9_]{3,maxLength}$/.test(name)` */
  predicate ValidUsername(name: string, maxLength: nat)
  {
    3 <= |name| <= maxLength && forall i :: 0 <= i < |name| ==> IsNameChar(name[i])
  }

  /** The Join button checks names against 16 characters, Create and Save against 10: a saved name passes both, not conversely. */
  lemma JoinAndCreateLimitsDiffer()
    ensures forall name :: ValidUsername(name, 10) ==> ValidUsername(name, 16)
    ensures ValidUsername("Player_12345", 16) && !ValidUsername("Player_12345", 10)
  {
  }

  const RoomCodeChars := "ABCDEFGHIJKLMNOPQRSTUVWXYZ0123456789"

  /** `getRandomLetterAndNumber()`; `draws` are the six values of `Math.floor(Math.random() * 36)`. */
  method RandomRoomSuffix(draws: seq<int>) returns (code: string)
    requires |draws| == 6 && forall i :: 0 <= i < 6 ==> 0 <= draws[i] < |RoomCodeChars|
    ensures |code| == 7 && code[0] == '-'
    ensures forall i :: 1 <= i < 7 ==> code[i] == RoomCodeChars[draws[i - 1]]
  {
    var result := "";
    var i := 0;
    while i < 6
      invariant 0 <= i <= 6 && |result| == i
      invariant forall k :: 0 <= k < i ==> result[k] == RoomCodeChars[draws[k]]
    {
      result := result + [RoomCodeChars[draws[i]]];
      i := i + 1;
    }
    code := "-" + result;
  }
}
