/**
 * ClientHandler: one client's session over the shared registry of rooms. ProcessCommand
 * sets the session fields and calls the room objects step by step, and is proved to do
 * exactly what Protocol.Step says of the rooms' values.
 */
module Server {
  import opened Wrappers
  import opened Text
  import opened Uuids
  import opened Rules
  import opened RoomSpec
  import opened Game
  import opened Protocol

  class ClientHandler {
    /** ClientState's roomID and colorID, both null or both set. */
    var session: Session
    var shouldBeRunning: bool
    /** ServerState.gameRooms. */
    const registry: Registry

    constructor(registry: Registry)
      ensures session == Unbound && shouldBeRunning && this.registry == registry
    {
      session := Unbound;
      shouldBeRunning := true;
      this.registry := registry;
    }

    /** processCommand: the reply to one line; SERVER_ERROR stands for an exception. */
    method ProcessCommand(command: string, env: Env) returns (outcome: Outcome)
      requires registry.Valid()
      modifies this, registry, registry.rooms.Values, registry.Boards()
      ensures registry.Valid()
      ensures Step(old(session), old(shouldBeRunning), old(registry.Rooms()), command, env) ==
              Next(session, shouldBeRunning, registry.Rooms(), outcome)
    {
      var next;
      next, outcome := DispatchCommand(command, env);
      ghost var after := registry.Rooms();
      // QUIT only clears the flag; no command reads it, so it is set after the dispatch.
      session, shouldBeRunning := next, if command == "QUIT" then false else shouldBeRunning;
      registry.RoomsUnchanged(after);
    }

    /** The body of processCommand after the QUIT check: which command runs, and its reply. */
    method DispatchCommand(command: string, env: Env) returns (next: Session, outcome: Outcome)
      requires registry.Valid()
      modifies registry, registry.rooms.Values, registry.Boards()
      ensures registry.Valid()
      ensures Effect(next, registry.Rooms(), outcome) == Dispatch(session, old(registry.Rooms()), command, env)
    {
      next := session;
      match session
      case Unbound =>
        if StartsWith(command, "JOIN") {
          next, outcome := JoinRoom(command, env);
        } else if StartsWith(command, "CREATE") {
          if command != "CREATE" {
            return next, Reply(INVALID_SYNTAX);
          }
          next, outcome := CreateRoom(env);
        } else {
          outcome := Reply(UNBOUND_FALLBACK);
        }
      case Bound(roomId, colorId) =>
        if command == "GET_STATE" {
          outcome := GetState(env.now);
        } else if StartsWith(command, "MOVE") {
          outcome := MakeMove(Split(command)[1..], env.now);
        } else if command == "LEAVE" {
          next, outcome := LeaveRoom();
        } else if command == "REQUEST_A_DRAW" {
          outcome := RequestADraw();
        } else if command == "CANCEL_DRAW_REQUEST" {
          outcome := CancelDrawRequest();
        } else {
          outcome := Reply(BOUND_FALLBACK);
        }
    }

    /** JOIN <room> <colour> on an unbound session. */
    method JoinRoom(command: string, env: Env) returns (next: Session, outcome: Outcome)
      requires registry.Valid()
      modifies registry.rooms.Values
      ensures registry.Valid()
      ensures Effect(next, registry.Rooms(), outcome) == JoinCommand(old(registry.Rooms()), command, env)
    {
      ghost var before := registry.Rooms();
      next := Unbound;
      var fragments := Split(command);
      if |fragments| != 3 {
        assert JoinCommand(before, command, env) == Effect(Unbound, before, Reply(INVALID_SYNTAX));
        return next, Reply(INVALID_SYNTAX);
      }
      var room := env.parseUuid(fragments[1]);
      var color := env.parseUuid(fragments[2]);
      if room.None? || color.None? {
        assert JoinCommand(before, command, env) == Effect(Unbound, before, Reply(INVALID_SYNTAX));
        return next, Reply(INVALID_SYNTAX);
      }
      if room.value !in registry.rooms {
        assert JoinCommand(before, command, env) == Effect(Unbound, before, Reply(ROOM_NOT_FOUND));
        return next, Reply(ROOM_NOT_FOUND);
      }
      ghost var joined := RoomSpec.Join(before[room.value], room.value, color.value);
      var ok := registry.JoinAt(room.value, color.value);
      if ok {
        assert JoinCommand(before, command, env) ==
               Effect(Bound(room.value, color.value), before[room.value := joined.0], Reply(ROOM_JOINED));
        return Bound(room.value, color.value), Reply(ROOM_JOINED);
      }
      JoinOutcome(before[room.value], room.value, color.value);
      RefileUnchanged(before, room.value);
      assert JoinCommand(before, command, env) == Effect(Unbound, before, Reply(ROOM_NOT_FOUND));
      return next, Reply(ROOM_NOT_FOUND);
    }

    /** CREATE on an unbound session: a new room, joined with the colour the coin gives. */
    method CreateRoom(env: Env) returns (next: Session, outcome: Outcome)
      requires registry.Valid()
      modifies registry
      ensures registry.Valid()
      ensures Effect(next, registry.Rooms(), outcome) == CreateCommand(old(registry.Rooms()), env)
    {
      ghost var before := registry.Rooms();
      var gameRoom := new GameRoom(env.newRoom, env.newWhite, env.newBlack, env.now, registry);
      ghost var filed := registry.Rooms();
      assert filed == before[env.newRoom := Initial(env.newRoom, env.newWhite, env.newBlack, env.now)];
      var own, enemy := env.newBlack, env.newWhite;
      if env.creatorIsWhite {
        own, enemy := env.newWhite, env.newBlack;
      }
      next := Bound(env.newRoom, own);
      ghost var created := RoomSpec.Join(Initial(env.newRoom, env.newWhite, env.newBlack, env.now), env.newRoom, own).0;
      var _ := registry.JoinAt(env.newRoom, own);
      assert registry.Rooms() == filed[env.newRoom := created];
      OverwriteTwice(before, env.newRoom, Initial(env.newRoom, env.newWhite, env.newBlack, env.now), created);
      assert own == CreatorColor(env) && enemy == EnemyColor(env);
      assert CreateCommand(before, env) ==
             Effect(Bound(env.newRoom, own), before[env.newRoom := created], Reply(CreatedReply(env.newRoom, own, enemy)));
      return next, Reply(CreatedReply(env.newRoom, own, enemy));
    }

    /** GET_STATE on a bound session. */
    method GetState(now: int) returns (outcome: Outcome)
      requires registry.Valid() && session.Bound?
      modifies registry.rooms.Values
      ensures registry.Valid()
      ensures Effect(session, registry.Rooms(), outcome) == GetStateCommand(session, old(registry.Rooms()), now)
    {
      if session.roomId !in registry.rooms {
        return Reply(ROOM_NOT_FOUND);
      }
      var text := registry.SnapshotAt(session.roomId, now);
      return Reply(STATUS_OK + " " + text);
    }

    /** MOVE <square> <square> ... on a bound session. */
    method MakeMove(tokens: seq<string>, now: int) returns (outcome: Outcome)
      requires registry.Valid() && session.Bound?
      modifies registry.rooms.Values, registry.Boards()
      ensures registry.Valid()
      ensures Effect(session, registry.Rooms(), outcome) == MoveCommand(session, old(registry.Rooms()), tokens, now)
    {
      ghost var before := registry.Rooms();
      if session.roomId !in registry.rooms {
        outcome := ServerError;
      } else if session.colorId != registry.rooms[session.roomId].whiteId && session.colorId != registry.rooms[session.roomId].blackId {
        assert !IsMember(before[session.roomId], session.colorId);
        outcome := ServerError;
      } else {
        ghost var st := before[session.roomId];
        MoveOutcome(st, tokens, session.colorId, now);
        var verdict := registry.MoveAt(session.roomId, tokens, session.colorId, now);
        if verdict == Throws {
          RefileUnchanged(before, session.roomId);
        }
        outcome := if verdict == Throws then ServerError else Reply(if verdict == Legal then MOVE_OK else MOVE_REFUSED);
      }
    }

    /** LEAVE on a bound session. */
    method LeaveRoom() returns (next: Session, outcome: Outcome)
      requires registry.Valid() && session.Bound?
      modifies registry, registry.rooms.Values
      ensures registry.Valid()
      ensures Effect(next, registry.Rooms(), outcome) == LeaveCommand(session, old(registry.Rooms()))
    {
      if session.roomId !in registry.rooms {
        return session, Reply(ROOM_NOT_FOUND);
      }
      registry.LeaveAt(session.roomId, session.colorId);
      return Unbound, Reply(ROOM_LEFT);
    }

    /** REQUEST_A_DRAW on a bound session. */
    method RequestADraw() returns (outcome: Outcome)
      requires registry.Valid() && session.Bound?
      modifies registry.rooms.Values
      ensures registry.Valid()
      ensures Effect(session, registry.Rooms(), outcome) == RequestDrawCommand(session, old(registry.Rooms()))
    {
      if session.roomId !in registry.rooms {
        return Reply(ROOM_NOT_FOUND);
      }
      var gameRoom := registry.rooms[session.roomId];
      if session.colorId != gameRoom.whiteId && session.colorId != gameRoom.blackId {
        return ServerError;
      }
      var ok := registry.RequestDrawAt(session.roomId, session.colorId);
      return Reply(if ok then DRAW_OK else DRAW_FAIL);
    }

    /** CANCEL_DRAW_REQUEST on a bound session. */
    method CancelDrawRequest() returns (outcome: Outcome)
      requires registry.Valid() && session.Bound?
      modifies registry.rooms.Values
      ensures registry.Valid()
      ensures Effect(session, registry.Rooms(), outcome) == CancelDrawCommand(session, old(registry.Rooms()))
    {
      if session.roomId !in registry.rooms {
        return Reply(ROOM_NOT_FOUND);
      }
      var gameRoom := registry.rooms[session.roomId];
      if session.colorId != gameRoom.whiteId && session.colorId != gameRoom.blackId {
        return ServerError;
      }
      var ok := registry.CancelDrawAt(session.roomId, session.colorId);
      return Reply(if ok then DRAW_CANCEL_OK else DRAW_CANCEL_FAIL);
    }
  }

  /** Filing a room and then replacing it is one filing; kept apart from the heap so the solver sees only maps. */
  lemma OverwriteTwice(rooms: map<Uuid, RoomState>, key: Uuid, first: RoomState, second: RoomState)
    ensures rooms[key := first][key := second] == rooms[key := second]
  {
  }

  /** Filing a room under its key again, unchanged, leaves the registry as it was. */
  lemma RefileUnchanged(rooms: map<Uuid, RoomState>, key: Uuid)
    requires key in rooms
    ensures rooms[key := rooms[key]] == rooms
  {
  }
}
