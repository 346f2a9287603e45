/** The lobby service's in-memory store: a dictionary of login sessions
    and a dictionary of rooms, with the request handlers that create and
    join rooms and pick characters, the once-a-second room state machine
    (Waiting, Countdown, Starting, Running; Ended rooms are deleted) and the
    heartbeat-timeout sweep.

    Every block the service runs under its lock is one method of
    `LobbyStore`. The clock and the generated uuids are parameters. */
module Lobby {
  import opened Common

  const HEARTBEAT_TIMEOUT_SECONDS: real := 60.0
  const CLEANUP_INTERVAL_SECONDS := 10
  const COUNTDOWN_SECONDS := 20
  const MAX_PLAYERS_PER_ROOM := 4
  /** Seconds a room stays Starting while its game server boots. */
  const STARTUP_DELAY := 3
  /** The hosted game server; `spawn_game_server` always returns it. */
  const GAME_SERVER_URL := "wss://switchyard.proxy.rlwy.net:19296"

  type SessionId = string
  type RoomId = string

  datatype Session = Session(username: string, lastSeen: real,
                             roomId: Option<RoomId>, character: Option<string>)

  datatype RoomState = Waiting | Countdown | Starting | Running | Ended

  /** What `spawn_game_server` reports about the server it chose. */
  datatype ServerData = ServerData(containerId: Option<string>, port: Option<int>, wsUrl: string)

  /** A room. `startupDelay` is only meaningful while Starting (the source
      adds that key when the room enters Starting). */
  datatype Room = Room(name: string, createdAt: real, lastSeen: real,
                       players: set<SessionId>, charactersTaken: set<string>,
                       state: RoomState, countdown: int, startupDelay: int,
                       wsUrl: Option<string>, server: Option<ServerData>)

  /** One row of the `/rooms` listing. */
  datatype RoomInfo = RoomInfo(roomId: RoomId, roomName: string, playerCount: int,
                               state: RoomState, charactersTaken: set<string>,
                               wsUrl: Option<string>, countdown: int)

  /** The successor of a state in the room lifecycle. */
  function NextState(s: RoomState): RoomState
  {
    match s
    case Waiting => Countdown
    case Countdown => Starting
    case Starting => Running
    case Running => Running
    case Ended => Ended
  }

  /** What every stored room satisfies: never more than MAX_PLAYERS_PER_ROOM
      players, counters in range in the states that count down, and a game
      server URL once the room is Starting or Running. */
  ghost predicate RoomOk(r: Room)
  {
    && |r.players| <= MAX_PLAYERS_PER_ROOM
    && (r.state == Countdown ==> 1 <= r.countdown <= COUNTDOWN_SECONDS)
    && (r.state == Starting ==> 1 <= r.startupDelay <= STARTUP_DELAY)
    && (r.state == Starting || r.state == Running ==> r.wsUrl == Some(GAME_SERVER_URL))
  }

  /** `spawn_game_server`: the hosted URL is configured, so no container is
      started and the same server is returned for every room. */
  function SpawnGameServer(roomId: RoomId): ServerData
  {
    ServerData(None, None, GAME_SERVER_URL)
  }

  /** One pass of the countdown loop over one room; `None` deletes it. */
  function TickRoom(rid: RoomId, r: Room): (o: Option<Room>)
    ensures o.None? <==> r.state == Ended
    ensures o.Some? ==> o.value.state == r.state || o.value.state == NextState(r.state)
    ensures o.Some? ==> o.value.players == r.players && o.value.charactersTaken == r.charactersTaken
                        && o.value.name == r.name
    ensures o.Some? && r.state == Waiting ==>
      (o.value.state == Countdown <==> |r.players| >= 1)
    ensures o.Some? && o.value.state == Starting && r.state == Countdown ==>
      o.value.wsUrl == Some(GAME_SERVER_URL) && o.value.startupDelay == STARTUP_DELAY
    ensures o.Some? && RoomOk(r) ==> RoomOk(o.value)
    ensures r.state == Waiting && |r.players| >= 1 ==> o.Some? && o.value.countdown == COUNTDOWN_SECONDS
    ensures r.state == Countdown ==>
      && o.Some? && o.value.countdown == r.countdown - 1
      && (o.value.state == Starting <==> r.countdown - 1 <= 0)
    ensures r.state == Starting ==>
      && o.Some? && o.value.startupDelay == r.startupDelay - 1
      && (o.value.state == Running <==> r.startupDelay - 1 <= 0)
    ensures r.state == Running || (r.state == Waiting && |r.players| == 0) ==> o == Some(r)
  {
    match r.state
    case Waiting =>
      if |r.players| >= 1 then Some(r.(state := Countdown, countdown := COUNTDOWN_SECONDS))
      else Some(r)
    case Countdown =>
      var c := r.countdown - 1;
      if c <= 0 then
        var server := SpawnGameServer(rid);
        Some(r.(countdown := c, wsUrl := Some(server.wsUrl), server := Some(server),
                state := Starting, startupDelay := STARTUP_DELAY))
      else Some(r.(countdown := c))
    case Starting =>
      var d := r.startupDelay - 1;
      Some(r.(startupDelay := d, state := if d <= 0 then Running else Starting))
    case Running => Some(r)
    case Ended => None
  }

  /** The rooms after one full pass of the countdown loop. */
  function TickAll(rooms: map<RoomId, Room>): (r: map<RoomId, Room>)
    ensures r.Keys == set rid | rid in rooms && rooms[rid].state != Ended
    ensures forall rid | rid in r :: Some(r[rid]) == TickRoom(rid, rooms[rid])
  {
    map rid | rid in rooms && TickRoom(rid, rooms[rid]).Some? :: TickRoom(rid, rooms[rid]).value
  }

  /** The sessions the cleanup sweep drops: not seen since `cutoff`. */
  function Expired(sessions: map<SessionId, Session>, cutoff: real): set<SessionId>
  {
    set sid | sid in sessions && sessions[sid].lastSeen < cutoff
  }

  /** Sessions among `among` that expired and whose recorded room is `rid`. */
  function Leavers(sessions: map<SessionId, Session>, cutoff: real, among: set<SessionId>,
                   rid: RoomId): set<SessionId>
  {
    set sid | sid in among && sid in sessions && sessions[sid].lastSeen < cutoff
                && Truthy(sessions[sid].roomId) && sessions[sid].roomId.value == rid
  }

  /** The rooms once every expired session has been discarded from the room
      its session records (and from no other room). */
  function Evicted(rooms: map<RoomId, Room>, sessions: map<SessionId, Session>,
                   cutoff: real): map<RoomId, Room>
  {
    map rid | rid in rooms ::
      rooms[rid].(players := rooms[rid].players - Leavers(sessions, cutoff, sessions.Keys, rid))
  }

  /** The rooms that still have players. */
  function NonEmpty(rooms: map<RoomId, Room>): map<RoomId, Room>
  {
    map rid | rid in rooms && |rooms[rid].players| > 0 :: rooms[rid]
  }

  /** The first check of `join_room_internal` that fails, in the order the
      handler makes them. */
  function JoinError(sessions: map<SessionId, Session>, rooms: map<RoomId, Room>,
                     sid: SessionId, rid: RoomId): (e: Option<Error>)
    ensures e.None? <==>
      sid in sessions && rid in rooms && rooms[rid].state != Running
      && |rooms[rid].players| < MAX_PLAYERS_PER_ROOM
    ensures e.Some? ==> e.value.status in {400, 403, 404}
    ensures e.Some? && e.value.status == 400 <==> sid !in sessions
    ensures e.Some? && e.value.status == 404 <==> sid in sessions && rid !in rooms
  {
    if sid !in sessions then Some(Error(400, "Invalid session_id"))
    else if rid !in rooms then Some(Error(404, "Room does not exist"))
    else if rooms[rid].state == Running then Some(Error(403, "Game already started"))
    else if |rooms[rid].players| >= MAX_PLAYERS_PER_ROOM then Some(Error(403, "Room is full"))
    else None
  }

  /** Python's `s[:6]`. */
  function Take6(s: string): string
  {
    if |s| <= 6 then s else s[..6]
  }

  class LobbyStore {
    var sessions: map<SessionId, Session>
    var rooms: map<RoomId, Room>

    ghost predicate Valid()
      reads this
    {
      forall rid | rid in rooms :: RoomOk(rooms[rid])
    }

    constructor ()
      ensures Valid() && sessions == map[] && rooms == map[]
    {
      sessions := map[];
      rooms := map[];
    }

    /** `create_session`: a new session with no room and no character under
        a fresh uuid. */
    method CreateSession(sid: SessionId, username: string, now: real)
      requires sid !in sessions
      requires Valid()
      modifies this
      ensures Valid()
      ensures sessions == old(sessions)[sid := Session(username, now, None, None)]
      ensures rooms == old(rooms)
    {
      sessions := sessions[sid := Session(username, now, None, None)];
    }

    /** `create_room_internal`: 400 for an unknown session; otherwise a new
        Waiting room holding only its creator, with the full countdown and
        no character taken, recorded as the creator's room. The creator is
        not taken out of the room it was in before. */
    method CreateRoom(sid: SessionId, roomName: Option<string>, nameUuid: string,
                      rid: RoomId, now: real) returns (r: Result<RoomId>)
      requires rid !in rooms
      requires Valid()
      modifies this
      ensures Valid()
      ensures sid !in old(sessions) ==>
        r == Err(Error(400, "Invalid session_id")) && unchanged(this)
      ensures sid in old(sessions) ==>
        && r == Ok(rid)
        && rooms == old(rooms)[rid := Room(OrDefault(roomName, "Room-" + Take6(nameUuid)),
                                           now, now, {sid}, {}, Waiting, COUNTDOWN_SECONDS, 0,
                                           None, None)]
        && sessions == old(sessions)[sid := old(sessions)[sid].(roomId := Some(rid))]
    {
      if sid !in sessions {
        return Err(Error(400, "Invalid session_id"));
      }
      var name := if Truthy(roomName) then roomName.value else "Room-" + Take6(nameUuid);
      rooms := rooms[rid := Room(name, now, now, {sid}, {}, Waiting, COUNTDOWN_SECONDS, 0,
                                 None, None)];
      sessions := sessions[sid := sessions[sid].(roomId := Some(rid))];
      r := Ok(rid);
    }

    /** `join_room_internal`: the checks of `JoinError` in order, with no
        change on error; on success the session moves from the room it
        records to the new one (see `MovedShape` and `MovedOk`). */
    method JoinRoom(sid: SessionId, rid: RoomId, now: real) returns (r: Result<()>)
      requires Valid()
      modifies this
      ensures Valid()
      ensures r.Err? <==> JoinError(old(sessions), old(rooms), sid, rid).Some?
      ensures r.Err? ==> r.error == JoinError(old(sessions), old(rooms), sid, rid).value
                         && unchanged(this)
      ensures r.Ok? ==>
        && rooms == Moved(old(rooms), sid, old(sessions)[sid].roomId, rid, now)
        && sessions == old(sessions)[sid := old(sessions)[sid].(roomId := Some(rid))]
    {
      var e := JoinError(sessions, rooms, sid, rid);
      if e.Some? {
        return Err(e.value);
      }
      MoveSession(sid, rid, now);
      r := Ok(());
    }

    /** A join that passed every check: the session is discarded from the
        room it records, if that room still exists, and added to `rid`. */
    method MoveSession(sid: SessionId, rid: RoomId, now: real)
      requires Valid() && sid in sessions && rid in rooms
      requires |rooms[rid].players| < MAX_PLAYERS_PER_ROOM
      modifies this
      ensures Valid()
      ensures rooms == Moved(old(rooms), sid, old(sessions)[sid].roomId, rid, now)
      ensures sessions == old(sessions)[sid := old(sessions)[sid].(roomId := Some(rid))]
    {
      var prev := sessions[sid].roomId;
      MovedOk(rooms, sid, prev, rid, now);
      if Truthy(prev) && prev.value in rooms {
        rooms := rooms[prev.value := rooms[prev.value].(players := rooms[prev.value].players - {sid})];
      }
      rooms := rooms[rid := rooms[rid].(players := rooms[rid].players + {sid}, lastSeen := now)];
      sessions := sessions[sid := sessions[sid].(roomId := Some(rid))];
    }

    /** `choose_character_internal`: 400 for an unknown session, 404 for an
        unknown room, 403 for a character the room already lists (the
        caller's own current one included); otherwise the caller's previous
        character is released in this room, the new one is taken, and a
        Waiting room starts its countdown afresh. */
    method ChooseCharacter(sid: SessionId, rid: RoomId, character: string) returns (r: Result<()>)
      requires Valid()
      modifies this
      ensures Valid()
      ensures sid !in old(sessions) ==>
        r == Err(Error(400, "Invalid session_id")) && unchanged(this)
      ensures sid in old(sessions) && rid !in old(rooms) ==>
        r == Err(Error(404, "Room does not exist")) && unchanged(this)
      ensures sid in old(sessions) && rid in old(rooms)
              && character in old(rooms)[rid].charactersTaken ==>
        r == Err(Error(403, "Character already taken")) && unchanged(this)
      ensures sid in old(sessions) && rid in old(rooms)
              && character !in old(rooms)[rid].charactersTaken ==>
        && r == Ok(())
        && var room := old(rooms)[rid];
        && var prev := old(sessions)[sid].character;
        && sessions == old(sessions)[sid := old(sessions)[sid].(character := Some(character))]
        && rooms == old(rooms)[rid := room.(
             charactersTaken := (if prev.Some? then room.charactersTaken - {prev.value}
                                 else room.charactersTaken) + {character},
             state := if room.state == Waiting then Countdown else room.state,
             countdown := if room.state == Waiting then COUNTDOWN_SECONDS else room.countdown)]
    {
      if sid !in sessions {
        return Err(Error(400, "Invalid session_id"));
      }
      if rid !in rooms {
        return Err(Error(404, "Room does not exist"));
      }
      var room := rooms[rid];
      if character in room.charactersTaken {
        return Err(Error(403, "Character already taken"));
      }
      var prev := sessions[sid].character;
      var taken := room.charactersTaken;
      if prev.Some? && prev.value in taken {
        taken := taken - {prev.value};
      }
      assert taken == if prev.Some? then room.charactersTaken - {prev.value} else room.charactersTaken;
      sessions := sessions[sid := sessions[sid].(character := Some(character))];
      room := room.(charactersTaken := taken + {character});
      if room.state == Waiting {
        room := room.(state := Countdown, countdown := COUNTDOWN_SECONDS);
      }
      rooms := rooms[rid := room];
      r := Ok(());
    }

    /** One pass of `countdown_loop` under the lock: every room advances by
        at most one state and Ended rooms are deleted. */
    method CountdownLoopTick()
      requires Valid()
      modifies this`rooms
      ensures Valid()
      ensures rooms == TickAll(old(rooms))
      ensures sessions == old(sessions)
    {
      ghost var before := rooms;
      var todo := rooms.Keys;
      ghost var done: set<RoomId> := {};
      while todo != {}
        invariant todo <= before.Keys && done <= before.Keys
        invariant forall q | q in before :: q in done <==> q !in todo
        invariant forall q | q in todo :: q in rooms && rooms[q] == before[q]
        invariant forall q | q in rooms :: q in before
        invariant forall q | q in done ::
          q in rooms <==> TickRoom(q, before[q]).Some?
        invariant forall q | q in done && q in rooms :: rooms[q] == TickRoom(q, before[q]).value
        decreases todo
      {
        var q :| q in todo;
        var next := TickRoom(q, rooms[q]);
        if next.Some? {
          rooms := rooms[q := next.value];
        } else {
          rooms := rooms - {q};
        }
        todo := todo - {q};
        done := done + {q};
      }
      assert rooms.Keys == TickAll(before).Keys;
      TickAllOk(before);
    }

    /** The first loop of `cleanup_loop`: discards every expired session
        from the room it records and collects the expired sessions. */
    method DiscardExpired(cutoff: real) returns (toDelete: set<SessionId>)
      modifies this`rooms
      ensures toDelete == Expired(sessions, cutoff)
      ensures rooms == Evicted(old(rooms), sessions, cutoff)
    {
      toDelete := {};
      var todo := sessions.Keys;
      ghost var done: set<SessionId> := {};
      while todo != {}
        invariant todo + done == sessions.Keys && todo !! done
        invariant toDelete == Expired(sessions, cutoff) * done
        invariant rooms.Keys == old(rooms).Keys
        invariant forall q | q in rooms ::
          rooms[q] == old(rooms)[q].(players := old(rooms)[q].players - Leavers(sessions, cutoff, done, q))
        decreases todo
      {
        var sid :| sid in todo;
        var p := sessions[sid];
        LeaversGrow(sessions, cutoff, done, sid);
        if p.lastSeen < cutoff {
          var rid := p.roomId;
          if Truthy(rid) && rid.value in rooms {
            rooms := rooms[rid.value := rooms[rid.value].(players := rooms[rid.value].players - {sid})];
          }
          toDelete := toDelete + {sid};
        }
        forall q | q in rooms
          ensures rooms[q] == old(rooms)[q].(players := old(rooms)[q].players - Leavers(sessions, cutoff, done + {sid}, q))
        {
          var a := old(rooms)[q].players;
          var l := Leavers(sessions, cutoff, done, q);
          if p.lastSeen < cutoff && Truthy(p.roomId) && p.roomId.value == q {
            assert a - l - {sid} == a - (l + {sid});
          }
        }
        todo := todo - {sid};
        done := done + {sid};
      }
      assert done == sessions.Keys;
    }

    /** One pass of `cleanup_loop` at time `now`: every session not seen for
        HEARTBEAT_TIMEOUT_SECONDS is dropped and discarded from the room it
        records, then every room left with no players is deleted. */
    method CleanupTick(now: real)
      requires Valid()
      modifies this
      ensures Valid()
      ensures var cutoff := now - HEARTBEAT_TIMEOUT_SECONDS;
        && sessions == old(sessions) - Expired(old(sessions), cutoff)
        && rooms == NonEmpty(Evicted(old(rooms), old(sessions), cutoff))
    {
      var cutoff := now - HEARTBEAT_TIMEOUT_SECONDS;
      var toDelete := DiscardExpired(cutoff);
      sessions := sessions - toDelete;
      rooms := NonEmpty(rooms);
      forall q | q in rooms ensures RoomOk(rooms[q]) {
        SubsetSize(rooms[q].players, old(rooms)[q].players);
      }
    }

    /** `heartbeat`: refreshes `last_seen` of a known session only, and
        always answers "ok". */
    method Heartbeat(sid: SessionId, now: real) returns (status: string)
      requires Valid()
      modifies this
      ensures Valid()
      ensures status == "ok"
      ensures sessions == if sid in old(sessions)
                          then old(sessions)[sid := old(sessions)[sid].(lastSeen := now)]
                          else old(sessions)
      ensures rooms == old(rooms)
    {
      if sid in sessions {
        sessions := sessions[sid := sessions[sid].(lastSeen := now)];
      }
      status := "ok";
    }

    /** `list_rooms`: one row per room, with the room's own fields and its
        number of players. */
    function ListRooms(): (infos: map<RoomId, RoomInfo>)
      reads this
      ensures infos.Keys == rooms.Keys
      ensures forall rid | rid in infos ::
        && infos[rid].roomId == rid
        && infos[rid].playerCount == |rooms[rid].players|
        && infos[rid].state == rooms[rid].state
        && infos[rid].charactersTaken == rooms[rid].charactersTaken
        && infos[rid].roomName == rooms[rid].name
        && infos[rid].wsUrl == rooms[rid].wsUrl
        && infos[rid].countdown == rooms[rid].countdown
      ensures Valid() ==> forall rid | rid in infos :: infos[rid].playerCount <= MAX_PLAYERS_PER_ROOM
    {
      map rid | rid in rooms ::
        RoomInfo(rid, rooms[rid].name, |rooms[rid].players|, rooms[rid].state,
                 rooms[rid].charactersTaken, rooms[rid].wsUrl, rooms[rid].countdown)
    }
  }

  /** The rooms after a successful join: the session is discarded from
      room `prev` when that room exists, then added to room `rid`, whose
      `last_seen` is refreshed. */
  function Moved(rooms: map<RoomId, Room>, sid: SessionId, prev: Option<RoomId>,
                 rid: RoomId, now: real): map<RoomId, Room>
    requires rid in rooms
  {
    var left := if Truthy(prev) && prev.value in rooms
                then rooms[prev.value := rooms[prev.value].(players := rooms[prev.value].players - {sid})]
                else rooms;
    left[rid := left[rid].(players := left[rid].players + {sid}, lastSeen := now)]
  }

  /** A join creates and deletes no room; the joined room gains the
      session, the room recorded before loses it, and every other room is
      untouched. */
  lemma MovedShape(rooms: map<RoomId, Room>, sid: SessionId, prev: Option<RoomId>,
                   rid: RoomId, now: real)
    requires rid in rooms
    ensures var m := Moved(rooms, sid, prev, rid, now);
      && m.Keys == rooms.Keys
      && m[rid] == rooms[rid].(players := rooms[rid].players + {sid}, lastSeen := now)
      && sid in m[rid].players
      && forall q | q in m && q != rid ::
           m[q] == if Truthy(prev) && prev.value == q
                   then rooms[q].(players := rooms[q].players - {sid})
                   else rooms[q]
  {
    if Truthy(prev) && prev.value == rid {
      assert rooms[rid].players - {sid} + {sid} == rooms[rid].players + {sid};
    }
  }

  /** Joining a room that the checks found below MAX_PLAYERS_PER_ROOM keeps
      every room well formed, the one left included. */
  lemma MovedOk(rooms: map<RoomId, Room>, sid: SessionId, prev: Option<RoomId>,
                rid: RoomId, now: real)
    requires forall q | q in rooms :: RoomOk(rooms[q])
    requires rid in rooms && |rooms[rid].players| < MAX_PLAYERS_PER_ROOM
    ensures var m := Moved(rooms, sid, prev, rid, now);
      forall q | q in m :: RoomOk(m[q])
  {
    MovedShape(rooms, sid, prev, rid, now);
    var m := Moved(rooms, sid, prev, rid, now);
    forall q | q in m
      ensures RoomOk(m[q])
    {
      var players := rooms[q].players;
      if q == rid {
        if sid in players {
          assert players + {sid} == players;
        } else {
          assert |players + {sid}| == |players| + 1;
        }
      } else if Truthy(prev) && prev.value == q {
        SubsetSize(players - {sid}, players);
      }
    }
  }

  /** Adding one session to those examined adds it to the leavers of
      exactly the room it records, when it has expired. */
  lemma LeaversGrow(sessions: map<SessionId, Session>, cutoff: real, done: set<SessionId>,
                    sid: SessionId)
    requires sid in sessions
    ensures forall q ::
      Leavers(sessions, cutoff, done + {sid}, q)
        == Leavers(sessions, cutoff, done, q)
           + (if sessions[sid].lastSeen < cutoff && Truthy(sessions[sid].roomId)
                 && sessions[sid].roomId.value == q then {sid} else {})
  {
  }

  /** A pass of the countdown loop keeps every room well formed. */
  lemma TickAllOk(rooms: map<RoomId, Room>)
    requires forall rid | rid in rooms :: RoomOk(rooms[rid])
    ensures forall rid | rid in TickAll(rooms) :: RoomOk(TickAll(rooms)[rid])
  {
  }

  lemma SubsetSize<T>(a: set<T>, b: set<T>)
    requires a <= b
    ensures |a| <= |b|
  {
    assert b == a + (b - a);
  }

  /** After a cleanup pass no room is empty, no remaining session is stale,
      and every surviving room lost only players. */
  lemma CleanupSpec(rooms: map<RoomId, Room>, sessions: map<SessionId, Session>, cutoff: real)
    ensures var rooms' := NonEmpty(Evicted(rooms, sessions, cutoff));
      && (forall rid | rid in rooms' :: |rooms'[rid].players| > 0)
      && (forall rid | rid in rooms' :: rid in rooms && rooms'[rid].players <= rooms[rid].players)
      && (forall rid | rid in rooms && |rooms[rid].players - Leavers(sessions, cutoff, sessions.Keys, rid)| > 0
            :: rid in rooms')
    ensures var sessions' := sessions - Expired(sessions, cutoff);
      forall sid | sid in sessions' :: sessions'[sid].lastSeen >= cutoff
  {
  }

  /** An expired session recorded in a surviving room is no longer one of
      its players. */
  lemma CleanupRemovesExpired(rooms: map<RoomId, Room>, sessions: map<SessionId, Session>,
                              cutoff: real, sid: SessionId)
    requires sid in sessions && sessions[sid].lastSeen < cutoff
    requires Truthy(sessions[sid].roomId)
    ensures var rid := sessions[sid].roomId.value;
      rid in NonEmpty(Evicted(rooms, sessions, cutoff)) ==>
        sid !in NonEmpty(Evicted(rooms, sessions, cutoff))[rid].players
  {
    var rid := sessions[sid].roomId.value;
    assert sid in Leavers(sessions, cutoff, sessions.Keys, rid);
  }
}
