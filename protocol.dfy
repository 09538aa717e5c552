/**
 * ClientHandler.processCommand as a function: one protocol line applied to a session, its
 * running flag and the open rooms (as RoomSpec values) gives the new session, flag, rooms
 * and the reply. The UUID parser, the fresh ids of a created room, the random colour of
 * its creator and the current time are inputs. An exception that the session loop turns
 * into SERVER_ERROR is the outcome ServerError.
 */
module Protocol {
  import opened Wrappers
  import opened Text
  import opened Uuids
  import opened Rules
  import opened RoomSpec

  // ServerCodes
  const ROOM_JOINED: string := "ROOM_JOINED"
  const ROOM_LEFT: string := "ROOM_LEFT"
  const ROOM_CREATED: string := "ROOM_CREATED"
  const MOVE_OK: string := "MOVE_OK"
  const MOVE_FAIL: string := "MOVE_FAIL"
  const DRAW_OK: string := "DRAFT_OK"
  const DRAW_FAIL: string := "DRAW_FAIL"
  const STATUS_OK: string := "STATUS_OK"
  const DRAW_CANCEL_OK: string := "DRAW_CANCEL_OK"
  const DRAW_CANCEL_FAIL: string := "DRAW_CANCEL_FAIL"
  const INVALID_SYNTAX: string := "INVALID_SYNTAX"
  const ROOM_NOT_FOUND: string := "ROOM_NOT_FOUND"

  const UNBOUND_FALLBACK: string := INVALID_SYNTAX + " - please join or create room"
  const BOUND_FALLBACK: string := INVALID_SYNTAX + " - please input a valid command for the ROOM you are in"
  const MOVE_REFUSED: string := MOVE_FAIL + " - please check if move is indeed legal for current position"

  /** ClientState: no room yet, or the room and colour token the client plays with. */
  datatype Session = Unbound | Bound(roomId: Uuid, colorId: Uuid)

  /** The line sent back, or SERVER_ERROR for an exception. */
  datatype Outcome = Reply(line: string) | ServerError

  /** What processCommand takes from its environment. */
  datatype Env = Env(
    now: int,
    parseUuid: string -> Option<Uuid>,
    newRoom: Uuid,
    newWhite: Uuid,
    newBlack: Uuid,
    creatorIsWhite: bool)

  datatype Next = Next(session: Session, running: bool, rooms: map<Uuid, RoomState>, outcome: Outcome)

  /** Every open room is filed under its own id. */
  predicate Consistent(rooms: map<Uuid, RoomState>) {
    forall k :: k in rooms ==> rooms[k].roomId == k && WellFormed(rooms[k])
  }

  /** The ROOM_CREATED reply: the room, the creator's own token, then the opponent's. */
  function CreatedReply(roomId: Uuid, own: Uuid, enemy: Uuid): string {
    ROOM_CREATED + " ROOM_ID=" + UuidText(roomId) +
    " PLAYER_COLOR_ID=" + UuidText(own) +
    " ENEMY_COLOR_ID=" + UuidText(enemy)
  }

  /** What one command does to the session, to the rooms, and what it answers. */
  datatype Effect = Effect(session: Session, rooms: map<Uuid, RoomState>, outcome: Outcome)

  /** processCommand: QUIT clears the running flag and still goes through the dispatch. */
  function Step(session: Session, running: bool, rooms: map<Uuid, RoomState>, command: string, env: Env): Next
    requires Consistent(rooms)
  {
    var e := Dispatch(session, rooms, command, env);
    Next(e.session, if command == "QUIT" then false else running, e.rooms, e.outcome)
  }

  function Dispatch(session: Session, rooms: map<Uuid, RoomState>, command: string, env: Env): Effect
    requires Consistent(rooms)
  {
    match session
    case Unbound =>
      if StartsWith(command, "JOIN") then JoinCommand(rooms, command, env)
      else if StartsWith(command, "CREATE") then
        if command != "CREATE" then Effect(session, rooms, Reply(INVALID_SYNTAX))
        else CreateCommand(rooms, env)
      else Effect(session, rooms, Reply(UNBOUND_FALLBACK))
    case Bound(roomId, colorId) =>
      if command == "GET_STATE" then GetStateCommand(session, rooms, env.now)
      else if StartsWith(command, "MOVE") then MoveCommand(session, rooms, Split(command)[1..], env.now)
      else if command == "LEAVE" then LeaveCommand(session, rooms)
      else if command == "REQUEST_A_DRAW" then RequestDrawCommand(session, rooms)
      else if command == "CANCEL_DRAW_REQUEST" then CancelDrawCommand(session, rooms)
      else Effect(session, rooms, Reply(BOUND_FALLBACK))
  }

  /** JOIN <room> <colour>: three fragments, two UUIDs, an open room and a free seat. */
  function JoinCommand(rooms: map<Uuid, RoomState>, command: string, env: Env): Effect
    requires Consistent(rooms)
  {
    var fragments := Split(command);
    if |fragments| != 3 then
      Effect(Unbound, rooms, Reply(INVALID_SYNTAX))
    else
      match (env.parseUuid(fragments[1]), env.parseUuid(fragments[2]))
      case (Some(room), Some(color)) =>
        if room in rooms && RoomSpec.Join(rooms[room], room, color).1 then
          Effect(Bound(room, color), rooms[room := RoomSpec.Join(rooms[room], room, color).0], Reply(ROOM_JOINED))
        else
          Effect(Unbound, rooms, Reply(ROOM_NOT_FOUND))
      case _ =>
        Effect(Unbound, rooms, Reply(INVALID_SYNTAX))
  }

  /** The creator's colour token: white or black as the coin falls. */
  function CreatorColor(env: Env): Uuid {
    if env.creatorIsWhite then env.newWhite else env.newBlack
  }

  function EnemyColor(env: Env): Uuid {
    if env.creatorIsWhite then env.newBlack else env.newWhite
  }

  /** CREATE: a new room is filed under its id and the creator joins it. */
  function CreateCommand(rooms: map<Uuid, RoomState>, env: Env): Effect {
    var room := RoomSpec.Join(Initial(env.newRoom, env.newWhite, env.newBlack, env.now), env.newRoom, CreatorColor(env)).0;
    Effect(Bound(env.newRoom, CreatorColor(env)), rooms[env.newRoom := room],
           Reply(CreatedReply(env.newRoom, CreatorColor(env), EnemyColor(env))))
  }

  function GetStateCommand(session: Session, rooms: map<Uuid, RoomState>, now: int): Effect
    requires session.Bound? && Consistent(rooms)
  {
    if session.roomId !in rooms then
      Effect(session, rooms, Reply(ROOM_NOT_FOUND))
    else
      var (room, text) := Snapshot(rooms[session.roomId], now);
      Effect(session, rooms[session.roomId := room], Reply(STATUS_OK + " " + text))
  }

  /** MOVE: a missing room or a foreign token is an exception, as is a king's jump chain. */
  function MoveCommand(session: Session, rooms: map<Uuid, RoomState>, tokens: seq<string>, now: int): Effect
    requires session.Bound? && Consistent(rooms)
  {
    if session.roomId !in rooms || !IsMember(rooms[session.roomId], session.colorId) then
      Effect(session, rooms, ServerError)
    else
      var (room, verdict) := RoomSpec.Move(rooms[session.roomId], tokens, session.colorId, now);
      if verdict == Throws then
        Effect(session, rooms, ServerError)
      else
        Effect(session, rooms[session.roomId := room], Reply(if verdict == Legal then MOVE_OK else MOVE_REFUSED))
  }

  function LeaveCommand(session: Session, rooms: map<Uuid, RoomState>): Effect
    requires session.Bound? && Consistent(rooms)
  {
    if session.roomId !in rooms then
      Effect(session, rooms, Reply(ROOM_NOT_FOUND))
    else
      var room := RoomSpec.Leave(rooms[session.roomId], session.colorId);
      Effect(Unbound, if Vacant(room) then rooms - {session.roomId} else rooms[session.roomId := room],
             Reply(ROOM_LEFT))
  }

  function RequestDrawCommand(session: Session, rooms: map<Uuid, RoomState>): Effect
    requires session.Bound? && Consistent(rooms)
  {
    if session.roomId !in rooms then
      Effect(session, rooms, Reply(ROOM_NOT_FOUND))
    else if !IsMember(rooms[session.roomId], session.colorId) then
      Effect(session, rooms, ServerError)
    else
      var (room, ok) := RequestDraw(rooms[session.roomId], session.colorId);
      Effect(session, rooms[session.roomId := room], Reply(if ok then DRAW_OK else DRAW_FAIL))
  }

  function CancelDrawCommand(session: Session, rooms: map<Uuid, RoomState>): Effect
    requires session.Bound? && Consistent(rooms)
  {
    if session.roomId !in rooms then
      Effect(session, rooms, Reply(ROOM_NOT_FOUND))
    else if !IsMember(rooms[session.roomId], session.colorId) then
      Effect(session, rooms, ServerError)
    else
      var (room, ok) := CancelDraw(rooms[session.roomId], session.colorId);
      Effect(session, rooms[session.roomId := room], Reply(if ok then DRAW_CANCEL_OK else DRAW_CANCEL_FAIL))
  }

  // ---------------------------------------------------------------- what a command promises

  /** The rooms a server holds: each filed under its own id and keeping the room invariant. */
  predicate RoomsValid(rooms: map<Uuid, RoomState>) {
    forall k :: k in rooms ==> rooms[k].roomId == k && Invariant(rooms[k])
  }

  /** A bound session's colour token belongs to its room, as long as that room is open. */
  predicate SessionMember(session: Session, rooms: map<Uuid, RoomState>) {
    session.Bound? && session.roomId in rooms ==> IsMember(rooms[session.roomId], session.colorId)
  }

  /** `after` has the rooms of `before`, unchanged, except possibly the one under `key`. */
  predicate SameExcept(before: map<Uuid, RoomState>, after: map<Uuid, RoomState>, key: Uuid) {
    before.Keys - {key} == after.Keys - {key} &&
    forall k :: k in before && k in after && k != key ==> after[k] == before[k]
  }

  /** Every room open both before and after keeps its id and its two colour tokens. */
  predicate SeatsKept(before: map<Uuid, RoomState>, after: map<Uuid, RoomState>) {
    forall k :: k in before && k in after ==> SameSeats(before[k], after[k])
  }

  /** Filing a room that keeps the invariant under its own id, or removing one, keeps the rooms valid. */
  lemma FileKeepsValid(rooms: map<Uuid, RoomState>, k: Uuid, room: RoomState)
    requires RoomsValid(rooms) && room.roomId == k && Invariant(room)
    ensures RoomsValid(rooms[k := room]) && RoomsValid(rooms - {k})
  {
  }

  lemma JoinCommandKeepsRooms(rooms: map<Uuid, RoomState>, command: string, env: Env)
    requires RoomsValid(rooms)
    ensures RoomsValid(JoinCommand(rooms, command, env).rooms)
    ensures SeatsKept(rooms, JoinCommand(rooms, command, env).rooms)
  {
    var fragments := Split(command);
    if |fragments| == 3 && env.parseUuid(fragments[1]).Some? && env.parseUuid(fragments[2]).Some? {
      var room, color := env.parseUuid(fragments[1]).value, env.parseUuid(fragments[2]).value;
      if room in rooms {
        PresenceKeepsInvariant(rooms[room], room, color);
        PresenceKeepsSeats(rooms[room], room, color);
        FileKeepsValid(rooms, room, RoomSpec.Join(rooms[room], room, color).0);
      }
    }
  }

  /** A created room's id is fresh (a random UUID): no open room is replaced. */
  lemma CreateCommandKeepsRooms(rooms: map<Uuid, RoomState>, env: Env)
    requires RoomsValid(rooms)
    ensures RoomsValid(CreateCommand(rooms, env).rooms)
    ensures env.newRoom !in rooms ==> SeatsKept(rooms, CreateCommand(rooms, env).rooms)
  {
    var st0 := Initial(env.newRoom, env.newWhite, env.newBlack, env.now);
    InitialInvariant(env.newRoom, env.newWhite, env.newBlack, env.now);
    PresenceKeepsInvariant(st0, env.newRoom, CreatorColor(env));
    PresenceKeepsSeats(st0, env.newRoom, CreatorColor(env));
    FileKeepsValid(rooms, env.newRoom, RoomSpec.Join(st0, env.newRoom, CreatorColor(env)).0);
  }

  lemma GetStateCommandKeepsRooms(session: Session, rooms: map<Uuid, RoomState>, now: int)
    requires session.Bound? && RoomsValid(rooms)
    ensures RoomsValid(GetStateCommand(session, rooms, now).rooms)
    ensures SeatsKept(rooms, GetStateCommand(session, rooms, now).rooms)
  {
    if session.roomId in rooms {
      var st := rooms[session.roomId];
      ClockAndDrawKeepInvariant(st, session.colorId, now);
      ClockAndDrawKeepSeats(st, session.colorId, now);
      FileKeepsValid(rooms, session.roomId, Snapshot(st, now).0);
    }
  }

  lemma MoveCommandKeepsRooms(session: Session, rooms: map<Uuid, RoomState>, tokens: seq<string>, now: int)
    requires session.Bound? && RoomsValid(rooms)
    ensures RoomsValid(MoveCommand(session, rooms, tokens, now).rooms)
    ensures SeatsKept(rooms, MoveCommand(session, rooms, tokens, now).rooms)
  {
    if session.roomId in rooms && IsMember(rooms[session.roomId], session.colorId) {
      var st := rooms[session.roomId];
      MoveKeepsInvariant(st, tokens, session.colorId, now);
      MoveKeepsSeats(st, tokens, session.colorId, now);
      FileKeepsValid(rooms, session.roomId, RoomSpec.Move(st, tokens, session.colorId, now).0);
    }
  }

  lemma LeaveCommandKeepsRooms(session: Session, rooms: map<Uuid, RoomState>)
    requires session.Bound? && RoomsValid(rooms)
    ensures RoomsValid(LeaveCommand(session, rooms).rooms)
    ensures SeatsKept(rooms, LeaveCommand(session, rooms).rooms)
  {
    if session.roomId in rooms {
      var st := rooms[session.roomId];
      PresenceKeepsInvariant(st, session.roomId, session.colorId);
      PresenceKeepsSeats(st, session.roomId, session.colorId);
      FileKeepsValid(rooms, session.roomId, RoomSpec.Leave(st, session.colorId));
    }
  }

  lemma DrawCommandsKeepRooms(session: Session, rooms: map<Uuid, RoomState>)
    requires session.Bound? && RoomsValid(rooms)
    ensures RoomsValid(RequestDrawCommand(session, rooms).rooms)
    ensures RoomsValid(CancelDrawCommand(session, rooms).rooms)
    ensures SeatsKept(rooms, RequestDrawCommand(session, rooms).rooms)
    ensures SeatsKept(rooms, CancelDrawCommand(session, rooms).rooms)
  {
    if session.roomId in rooms && IsMember(rooms[session.roomId], session.colorId) {
      var st := rooms[session.roomId];
      ClockAndDrawKeepInvariant(st, session.colorId, 0);
      ClockAndDrawKeepSeats(st, session.colorId, 0);
      FileKeepsValid(rooms, session.roomId, RequestDraw(st, session.colorId).0);
      FileKeepsValid(rooms, session.roomId, CancelDraw(st, session.colorId).0);
    }
  }

  lemma UnboundCommandKeepsRooms(rooms: map<Uuid, RoomState>, command: string, env: Env)
    requires RoomsValid(rooms)
    ensures RoomsValid(Dispatch(Unbound, rooms, command, env).rooms)
    ensures env.newRoom !in rooms ==> SeatsKept(rooms, Dispatch(Unbound, rooms, command, env).rooms)
  {
    if StartsWith(command, "JOIN") {
      JoinCommandKeepsRooms(rooms, command, env);
    } else if command == "CREATE" {
      CreateCommandKeepsRooms(rooms, env);
    }
  }

  lemma BoundCommandKeepsRooms(session: Session, rooms: map<Uuid, RoomState>, command: string, env: Env)
    requires session.Bound? && RoomsValid(rooms)
    ensures RoomsValid(Dispatch(session, rooms, command, env).rooms)
    ensures SeatsKept(rooms, Dispatch(session, rooms, command, env).rooms)
  {
    if command == "GET_STATE" {
      GetStateCommandKeepsRooms(session, rooms, env.now);
    } else if StartsWith(command, "MOVE") {
      MoveCommandKeepsRooms(session, rooms, Split(command)[1..], env.now);
    } else if command == "LEAVE" {
      LeaveCommandKeepsRooms(session, rooms);
    } else {
      DrawCommandsKeepRooms(session, rooms);
    }
  }

  /**
   * Every command keeps every open room filed under its id and within the room invariant,
   * and, when a created room's id is fresh, no open room changes its id or colour tokens.
   */
  lemma StepKeepsRooms(session: Session, running: bool, rooms: map<Uuid, RoomState>, command: string, env: Env)
    requires RoomsValid(rooms)
    ensures Consistent(rooms) && RoomsValid(Step(session, running, rooms, command, env).rooms)
    ensures env.newRoom !in rooms ==> SeatsKept(rooms, Step(session, running, rooms, command, env).rooms)
  {
    if session.Unbound? {
      UnboundCommandKeepsRooms(rooms, command, env);
    } else {
      BoundCommandKeepsRooms(session, rooms, command, env);
    }
  }

  lemma JoinCommandBinds(rooms: map<Uuid, RoomState>, command: string, env: Env)
    requires Consistent(rooms)
    ensures var e := JoinCommand(rooms, command, env);
            (e.session.Bound? <==> e.outcome == Reply(ROOM_JOINED)) &&
            e.rooms.Keys == rooms.Keys && e.outcome != ServerError &&
            (e.session.Bound? ==> SessionMember(e.session, e.rooms) && SameExcept(rooms, e.rooms, e.session.roomId)) &&
            (e.session.Unbound? ==> e.rooms == rooms)
  {
    var fragments := Split(command);
    if |fragments| == 3 && env.parseUuid(fragments[1]).Some? && env.parseUuid(fragments[2]).Some? {
      var room, color := env.parseUuid(fragments[1]).value, env.parseUuid(fragments[2]).value;
      if room in rooms {
        JoinOutcome(rooms[room], room, color);
        PresenceKeepsSeats(rooms[room], room, color);
      }
    }
  }

  lemma CreateCommandBinds(rooms: map<Uuid, RoomState>, env: Env)
    ensures var e := CreateCommand(rooms, env);
            e.session == Bound(env.newRoom, CreatorColor(env)) &&
            SessionMember(e.session, e.rooms) && SameExcept(rooms, e.rooms, env.newRoom)
  {
    PresenceKeepsSeats(Initial(env.newRoom, env.newWhite, env.newBlack, env.now), env.newRoom, CreatorColor(env));
  }

  /**
   * An unbound session becomes bound exactly when it joins (ROOM_JOINED) or creates a room,
   * and then plays in that room with one of its colour tokens; only that room changes. A
   * session that stays unbound changes no room.
   */
  lemma UnboundCommandBinds(rooms: map<Uuid, RoomState>, command: string, env: Env)
    requires Consistent(rooms)
    ensures var e := Dispatch(Unbound, rooms, command, env);
            (e.session.Bound? <==> e.outcome == Reply(ROOM_JOINED) || command == "CREATE") &&
            (e.session.Bound? ==> SessionMember(e.session, e.rooms) && SameExcept(rooms, e.rooms, e.session.roomId)) &&
            (e.session.Unbound? ==> e.rooms == rooms) &&
            e.rooms.Keys <= rooms.Keys + {env.newRoom} && e.outcome != ServerError
  {
    if StartsWith(command, "JOIN") {
      assert command[..4][0] == 'J' != "CREATE"[0];
      JoinCommandBinds(rooms, command, env);
    } else if command == "CREATE" {
      CreateCommandBinds(rooms, env);
    }
  }

  /**
   * Why a move can answer SERVER_ERROR: its room is closed (a null room), or the token is
   * not one of the room's, or the squares describe a king's jump chain.
   */
  predicate MoveFails(session: Session, rooms: map<Uuid, RoomState>, tokens: seq<string>, now: int)
    requires session.Bound? && Consistent(rooms)
  {
    session.roomId !in rooms || !IsMember(rooms[session.roomId], session.colorId) ||
    RoomSpec.Move(rooms[session.roomId], tokens, session.colorId, now).1 == Throws
  }

  /** A bound command other than LEAVE keeps the session and changes at most the session's room. */
  lemma GetStateStaysHome(session: Session, rooms: map<Uuid, RoomState>, now: int)
    requires session.Bound? && Consistent(rooms)
    ensures var e := GetStateCommand(session, rooms, now);
            e.session == session && e.outcome != Reply(ROOM_LEFT) && e.outcome != ServerError &&
            SameExcept(rooms, e.rooms, session.roomId) && e.rooms.Keys <= rooms.Keys
  {
  }

  lemma MoveStaysHome(session: Session, rooms: map<Uuid, RoomState>, tokens: seq<string>, now: int)
    requires session.Bound? && Consistent(rooms)
    ensures var e := MoveCommand(session, rooms, tokens, now);
            e.session == session && e.outcome != Reply(ROOM_LEFT) &&
            SameExcept(rooms, e.rooms, session.roomId) && e.rooms.Keys <= rooms.Keys &&
            (e.outcome == ServerError ==> e.rooms == rooms && MoveFails(session, rooms, tokens, now))
  {
  }

  lemma DrawCommandsStayHome(session: Session, rooms: map<Uuid, RoomState>)
    requires session.Bound? && Consistent(rooms)
    ensures var e := RequestDrawCommand(session, rooms);
            e.session == session && e.outcome != Reply(ROOM_LEFT) &&
            SameExcept(rooms, e.rooms, session.roomId) && e.rooms.Keys <= rooms.Keys &&
            (e.outcome == ServerError ==> e.rooms == rooms && !SessionMember(session, rooms))
    ensures var e := CancelDrawCommand(session, rooms);
            e.session == session && e.outcome != Reply(ROOM_LEFT) &&
            SameExcept(rooms, e.rooms, session.roomId) && e.rooms.Keys <= rooms.Keys &&
            (e.outcome == ServerError ==> e.rooms == rooms && !SessionMember(session, rooms))
  {
  }

  lemma LeaveCommandUnbinds(session: Session, rooms: map<Uuid, RoomState>)
    requires session.Bound? && Consistent(rooms)
    ensures var e := LeaveCommand(session, rooms);
            (e.session != session <==> e.outcome == Reply(ROOM_LEFT)) &&
            (e.session == session || e.session == Unbound) && e.outcome != ServerError &&
            SameExcept(rooms, e.rooms, session.roomId) && e.rooms.Keys <= rooms.Keys
  {
  }

  /**
   * A bound session changes only by leaving (ROOM_LEFT), which unbinds it; whatever the
   * command, no room but the session's own changes and no room is opened.
   */
  lemma BoundCommandStaysHome(session: Session, rooms: map<Uuid, RoomState>, command: string, env: Env)
    requires session.Bound? && Consistent(rooms)
    ensures var e := Dispatch(session, rooms, command, env);
            (e.session != session <==> e.outcome == Reply(ROOM_LEFT)) &&
            (e.session == session || e.session == Unbound) &&
            SameExcept(rooms, e.rooms, session.roomId) && e.rooms.Keys <= rooms.Keys
  {
    if command == "GET_STATE" {
      GetStateStaysHome(session, rooms, env.now);
    } else if StartsWith(command, "MOVE") {
      MoveStaysHome(session, rooms, Split(command)[1..], env.now);
    } else if command == "LEAVE" {
      LeaveCommandUnbinds(session, rooms);
    } else if command == "REQUEST_A_DRAW" || command == "CANCEL_DRAW_REQUEST" {
      DrawCommandsStayHome(session, rooms);
    }
  }

  /**
   * A bound command that answers SERVER_ERROR changes nothing and, for a session whose token
   * belongs to its room, is a move that fails as MoveFails says.
   */
  lemma BoundServerError(session: Session, rooms: map<Uuid, RoomState>, command: string, env: Env)
    requires session.Bound? && Consistent(rooms)
    ensures var e := Dispatch(session, rooms, command, env);
            e.outcome == ServerError ==>
              e.session == session && e.rooms == rooms &&
              (SessionMember(session, rooms) ==>
                 StartsWith(command, "MOVE") && |Split(command)| >= 1 &&
                 MoveFails(session, rooms, Split(command)[1..], env.now))
  {
    if command == "GET_STATE" {
      GetStateStaysHome(session, rooms, env.now);
    } else if StartsWith(command, "MOVE") {
      MoveStaysHome(session, rooms, Split(command)[1..], env.now);
    } else if command == "LEAVE" {
      LeaveCommandUnbinds(session, rooms);
    } else if command == "REQUEST_A_DRAW" || command == "CANCEL_DRAW_REQUEST" {
      DrawCommandsStayHome(session, rooms);
    }
  }

  /**
   * What one command does to the client's session and to the open rooms: the session
   * changes exactly when an unbound client joins (ROOM_JOINED) or creates a room, or a bound
   * one leaves (ROOM_LEFT); at most one room changes, the one the session is in before or
   * after the command, and only a created room is ever added.
   */
  lemma StepIsLocal(session: Session, running: bool, rooms: map<Uuid, RoomState>, command: string, env: Env)
    requires Consistent(rooms)
    ensures var next := Step(session, running, rooms, command, env);
            (next.session != session <==>
               (session.Unbound? && (next.outcome == Reply(ROOM_JOINED) || command == "CREATE")) ||
               (session.Bound? && next.outcome == Reply(ROOM_LEFT))) &&
            (session.Bound? ==> SameExcept(rooms, next.rooms, session.roomId) && next.rooms.Keys <= rooms.Keys) &&
            (session.Unbound? && next.session.Bound? ==>
               SameExcept(rooms, next.rooms, next.session.roomId) && SessionMember(next.session, next.rooms)) &&
            (session.Unbound? && next.session.Unbound? ==> next.rooms == rooms) &&
            next.rooms.Keys <= rooms.Keys + {env.newRoom}
  {
    if session.Unbound? {
      UnboundCommandBinds(rooms, command, env);
    } else {
      BoundCommandStaysHome(session, rooms, command, env);
    }
  }

  /**
   * SERVER_ERROR changes neither the session nor any room; a client that joined or created
   * its room properly gets it only from a move, as MoveFails says.
   */
  lemma ServerErrorChangesNothing(session: Session, running: bool, rooms: map<Uuid, RoomState>, command: string, env: Env)
    requires Consistent(rooms)
    ensures var next := Step(session, running, rooms, command, env);
            next.outcome == ServerError ==>
              next.session == session && next.rooms == rooms && session.Bound? &&
              (SessionMember(session, rooms) ==>
                 StartsWith(command, "MOVE") && |Split(command)| >= 1 &&
                 MoveFails(session, rooms, Split(command)[1..], env.now))
  {
    if session.Unbound? {
      UnboundCommandBinds(rooms, command, env);
    } else {
      BoundServerError(session, rooms, command, env);
    }
  }

  /** A token keeps belonging to its room when seats are kept and only rooms in `added` may be new. */
  lemma MemberStays(rooms: map<Uuid, RoomState>, after: map<Uuid, RoomState>, s: Session, added: set<Uuid>)
    requires SeatsKept(rooms, after) && after.Keys <= rooms.Keys + added && SessionMember(s, rooms)
    requires s.Bound? ==> s.roomId !in added
    ensures SessionMember(s, after)
  {
    if s.Bound? && s.roomId in after {
      assert SameSeats(rooms[s.roomId], after[s.roomId]);
    }
  }

  /**
   * A client's colour token keeps belonging to its room: the command's own client ends in a
   * room that knows its token, and so does any other client, as long as a created room's
   * id was never used before.
   */
  lemma StepKeepsMembership(session: Session, running: bool, rooms: map<Uuid, RoomState>, command: string, env: Env,
                            other: Session)
    requires RoomsValid(rooms) && env.newRoom !in rooms && (other.Bound? ==> other.roomId != env.newRoom)
    requires SessionMember(session, rooms) && SessionMember(other, rooms)
    ensures var next := Step(session, running, rooms, command, env);
            SessionMember(next.session, next.rooms) && SessionMember(other, next.rooms)
  {
    StepKeepsRooms(session, running, rooms, command, env);
    StepIsLocal(session, running, rooms, command, env);
    var next := Step(session, running, rooms, command, env);
    MemberStays(rooms, next.rooms, other, {env.newRoom});
    if session.Bound? && next.session == session {
      MemberStays(rooms, next.rooms, session, {});
    }
  }

  // ---------------------------------------------------------------- reply codes

  /**
   * The replies to JOIN: INVALID_SYNTAX exactly when the line is not three fragments or
   * either id does not parse; otherwise ROOM_JOINED exactly when the room is open and its
   * join accepts the token, and ROOM_NOT_FOUND exactly when it is closed or refuses.
   */
  lemma JoinReplies(rooms: map<Uuid, RoomState>, command: string, env: Env)
    requires Consistent(rooms)
    ensures var e := JoinCommand(rooms, command, env);
            var fs := Split(command);
            var wellFormed := |fs| == 3 && env.parseUuid(fs[1]).Some? && env.parseUuid(fs[2]).Some?;
            (e.outcome == Reply(INVALID_SYNTAX) <==> !wellFormed) &&
            (e.outcome == Reply(ROOM_JOINED) <==>
               wellFormed && env.parseUuid(fs[1]).value in rooms &&
               RoomSpec.Join(rooms[env.parseUuid(fs[1]).value], env.parseUuid(fs[1]).value, env.parseUuid(fs[2]).value).1) &&
            (e.outcome == Reply(ROOM_NOT_FOUND) <==>
               wellFormed && !(env.parseUuid(fs[1]).value in rooms &&
               RoomSpec.Join(rooms[env.parseUuid(fs[1]).value], env.parseUuid(fs[1]).value, env.parseUuid(fs[2]).value).1))
  {
    assert INVALID_SYNTAX[0] != ROOM_JOINED[0] && INVALID_SYNTAX[0] != ROOM_NOT_FOUND[0];
    assert ROOM_JOINED[5] != ROOM_NOT_FOUND[5];
  }

  /**
   * The reply to GET_STATE: ROOM_NOT_FOUND exactly when the session's room is closed,
   * otherwise STATUS_OK followed by the snapshot of the room.
   */
  lemma GetStateReplies(session: Session, rooms: map<Uuid, RoomState>, now: int)
    requires session.Bound? && Consistent(rooms)
    ensures var e := GetStateCommand(session, rooms, now);
            (e.outcome == Reply(ROOM_NOT_FOUND) <==> session.roomId !in rooms) &&
            (session.roomId in rooms ==>
               e.outcome == Reply(STATUS_OK + " " + Snapshot(rooms[session.roomId], now).1))
  {
    assert forall t :: (STATUS_OK + " " + t)[0] != ROOM_NOT_FOUND[0];
  }

  /**
   * The reply to MOVE: SERVER_ERROR exactly when the room is closed, the token is not one
   * of the room's, or the verdict is a throw; otherwise MOVE_OK exactly for an accepted
   * move and MOVE_FAIL exactly for a refused one.
   */
  lemma MoveReplies(session: Session, rooms: map<Uuid, RoomState>, tokens: seq<string>, now: int)
    requires session.Bound? && Consistent(rooms)
    ensures var e := MoveCommand(session, rooms, tokens, now);
            (e.outcome == ServerError <==> MoveFails(session, rooms, tokens, now)) &&
            (!MoveFails(session, rooms, tokens, now) ==>
               var verdict := RoomSpec.Move(rooms[session.roomId], tokens, session.colorId, now).1;
               (e.outcome == Reply(MOVE_OK) <==> verdict == Legal) &&
               (e.outcome == Reply(MOVE_REFUSED) <==> verdict == Illegal))
  {
    assert |MOVE_OK| != |MOVE_REFUSED|;
  }

  /**
   * The reply to LEAVE: ROOM_NOT_FOUND exactly when the room is closed, and the session then
   * stays bound with no room changed; otherwise ROOM_LEFT and the session is unbound.
   */
  lemma LeaveReplies(session: Session, rooms: map<Uuid, RoomState>)
    requires session.Bound? && Consistent(rooms)
    ensures var e := LeaveCommand(session, rooms);
            (e.outcome == Reply(ROOM_NOT_FOUND) <==> session.roomId !in rooms) &&
            (session.roomId !in rooms ==> e.session == session && e.rooms == rooms) &&
            (session.roomId in rooms ==> e.outcome == Reply(ROOM_LEFT) && e.session == Unbound)
  {
    assert ROOM_LEFT[5] != ROOM_NOT_FOUND[5];
  }

  /**
   * The replies to the draw commands: ROOM_NOT_FOUND exactly when the room is closed; for a
   * token of the room, DRAFT_OK or DRAW_FAIL as the request succeeds or not, and
   * DRAW_CANCEL_OK or DRAW_CANCEL_FAIL as the cancellation does.
   */
  lemma DrawReplies(session: Session, rooms: map<Uuid, RoomState>)
    requires session.Bound? && Consistent(rooms)
    ensures var r := RequestDrawCommand(session, rooms);
            var c := CancelDrawCommand(session, rooms);
            (r.outcome == Reply(ROOM_NOT_FOUND) <==> session.roomId !in rooms) &&
            (c.outcome == Reply(ROOM_NOT_FOUND) <==> session.roomId !in rooms) &&
            (session.roomId in rooms && IsMember(rooms[session.roomId], session.colorId) ==>
               (r.outcome == Reply(DRAW_OK) <==> RequestDraw(rooms[session.roomId], session.colorId).1) &&
               (r.outcome == Reply(DRAW_FAIL) <==> !RequestDraw(rooms[session.roomId], session.colorId).1) &&
               (c.outcome == Reply(DRAW_CANCEL_OK) <==> CancelDraw(rooms[session.roomId], session.colorId).1) &&
               (c.outcome == Reply(DRAW_CANCEL_FAIL) <==> !CancelDraw(rooms[session.roomId], session.colorId).1))
  {
    assert DRAW_OK[3] != DRAW_FAIL[3] && DRAW_OK[0] != ROOM_NOT_FOUND[0] && DRAW_FAIL[0] != ROOM_NOT_FOUND[0];
    assert |DRAW_CANCEL_OK| != |DRAW_CANCEL_FAIL|;
    assert DRAW_CANCEL_OK[0] != ROOM_NOT_FOUND[0] && DRAW_CANCEL_FAIL[0] != ROOM_NOT_FOUND[0];
  }

  /**
   * Unbound lines other than JOIN and CREATE: CREATE with anything after it is a syntax error,
   * any other line gets the unbound fallback reply, and neither changes the session or a room.
   * No reply of JOIN or CREATE is the fallback.
   */
  lemma UnboundFallbackReplies(rooms: map<Uuid, RoomState>, command: string, env: Env)
    requires Consistent(rooms)
    ensures !StartsWith(command, "JOIN") && StartsWith(command, "CREATE") && command != "CREATE" ==>
            Dispatch(Unbound, rooms, command, env) == Effect(Unbound, rooms, Reply(INVALID_SYNTAX))
    ensures !StartsWith(command, "JOIN") && !StartsWith(command, "CREATE") ==>
            Dispatch(Unbound, rooms, command, env) == Effect(Unbound, rooms, Reply(UNBOUND_FALLBACK))
    ensures Dispatch(Unbound, rooms, command, env).outcome == Reply(UNBOUND_FALLBACK) <==>
            !StartsWith(command, "JOIN") && !StartsWith(command, "CREATE")
  {
    UnboundFallbackOnly(rooms, command, env);
  }

  /**
   * A bound line that is none of GET_STATE, MOVE..., LEAVE, REQUEST_A_DRAW and
   * CANCEL_DRAW_REQUEST gets the bound fallback reply and changes nothing; no other line gets it.
   */
  lemma BoundFallbackReplies(session: Session, rooms: map<Uuid, RoomState>, command: string, env: Env)
    requires session.Bound? && Consistent(rooms)
    ensures var known := command in {"GET_STATE", "LEAVE", "REQUEST_A_DRAW", "CANCEL_DRAW_REQUEST"} ||
                         StartsWith(command, "MOVE");
            (!known ==> Dispatch(session, rooms, command, env) == Effect(session, rooms, Reply(BOUND_FALLBACK))) &&
            (Dispatch(session, rooms, command, env).outcome == Reply(BOUND_FALLBACK) <==> !known)
  {
    if StartsWith(command, "MOVE") {
      BoundFallbackOnly(session, rooms, Split(command)[1..], env.now);
    } else {
      BoundFallbackOnly(session, rooms, [], env.now);
    }
  }

  /** No reply of JOIN or CREATE is the unbound fallback. */
  lemma UnboundFallbackOnly(rooms: map<Uuid, RoomState>, command: string, env: Env)
    requires Consistent(rooms)
    ensures StartsWith(command, "JOIN") || StartsWith(command, "CREATE") ==>
            Dispatch(Unbound, rooms, command, env).outcome != Reply(UNBOUND_FALLBACK)
  {
    assert |UNBOUND_FALLBACK| != |INVALID_SYNTAX|;
    assert UNBOUND_FALLBACK[0] != ROOM_JOINED[0] && UNBOUND_FALLBACK[0] != ROOM_NOT_FOUND[0];
    if !StartsWith(command, "JOIN") && command == "CREATE" {
      assert UNBOUND_FALLBACK[0] != CreatedReply(env.newRoom, CreatorColor(env), EnemyColor(env))[0];
    }
  }

  /** No reply of a bound command is the bound fallback. */
  lemma BoundFallbackOnly(session: Session, rooms: map<Uuid, RoomState>, tokens: seq<string>, now: int)
    requires session.Bound? && Consistent(rooms)
    ensures GetStateCommand(session, rooms, now).outcome != Reply(BOUND_FALLBACK)
    ensures MoveCommand(session, rooms, tokens, now).outcome != Reply(BOUND_FALLBACK)
    ensures LeaveCommand(session, rooms).outcome != Reply(BOUND_FALLBACK)
    ensures RequestDrawCommand(session, rooms).outcome != Reply(BOUND_FALLBACK)
    ensures CancelDrawCommand(session, rooms).outcome != Reply(BOUND_FALLBACK)
  {
    assert BOUND_FALLBACK[0] != ROOM_NOT_FOUND[0] && BOUND_FALLBACK[0] != STATUS_OK[0];
    assert BOUND_FALLBACK[0] != MOVE_OK[0] && BOUND_FALLBACK[0] != MOVE_REFUSED[0];
    assert BOUND_FALLBACK[0] != ROOM_LEFT[0];
    assert BOUND_FALLBACK[0] != DRAW_OK[0] && BOUND_FALLBACK[0] != DRAW_FAIL[0];
    assert BOUND_FALLBACK[0] != DRAW_CANCEL_OK[0] && BOUND_FALLBACK[0] != DRAW_CANCEL_FAIL[0];
  }

  /**
   * QUIT is not a command of either state: it stops the session loop and is still answered
   * with the fallback reply of the client's state, changing nothing else.
   */
  lemma QuitFallsThrough(session: Session, running: bool, rooms: map<Uuid, RoomState>, env: Env)
    requires Consistent(rooms)
    ensures Step(session, running, rooms, "QUIT", env) ==
            Next(session, false, rooms, Reply(if session.Unbound? then UNBOUND_FALLBACK else BOUND_FALLBACK))
  {
    assert "QUIT"[..4][0] == 'Q';
  }

  // ---------------------------------------------------------------- the ROOM_CREATED reply

  /** A client's reading of the ROOM_CREATED reply: the room id, its own token, the opponent's. */
  function ParseCreatedReply(line: string): Option<(Uuid, Uuid, Uuid)> {
    var ws := Split(line);
    if |ws| != 4 || ws[0] != ROOM_CREATED then None
    else
      var roomId :- FieldValue(ws[1], "ROOM_ID=", ParseUuidText);
      var own :- FieldValue(ws[2], "PLAYER_COLOR_ID=", ParseUuidText);
      var enemy :- FieldValue(ws[3], "ENEMY_COLOR_ID=", ParseUuidText);
      Some((roomId, own, enemy))
  }

  /** The ROOM_CREATED reply is four words: the code and the three keyed values. */
  lemma CreatedReplyWords(code: string, r: string, o: string, e: string)
    ensures code + " ROOM_ID=" + r + " PLAYER_COLOR_ID=" + o + " ENEMY_COLOR_ID=" + e ==
            JoinWords([code, "ROOM_ID=" + r, "PLAYER_COLOR_ID=" + o, "ENEMY_COLOR_ID=" + e])
  {
    var t := code;
    var p := [t];
    AppendStep(t, p, " ROOM_ID=", "ROOM_ID=", r);
    t, p := t + " ROOM_ID=" + r, p + ["ROOM_ID=" + r];
    AppendStep(t, p, " PLAYER_COLOR_ID=", "PLAYER_COLOR_ID=", o);
    t, p := t + " PLAYER_COLOR_ID=" + o, p + ["PLAYER_COLOR_ID=" + o];
    AppendStep(t, p, " ENEMY_COLOR_ID=", "ENEMY_COLOR_ID=", e);
    p := p + ["ENEMY_COLOR_ID=" + e];
    assert p == [code, "ROOM_ID=" + r, "PLAYER_COLOR_ID=" + o, "ENEMY_COLOR_ID=" + e];
  }

  /** A client reading the ROOM_CREATED reply recovers the room id and both colour tokens. */
  lemma CreatedReplyRoundTrip(roomId: Uuid, own: Uuid, enemy: Uuid)
    ensures ParseCreatedReply(CreatedReply(roomId, own, enemy)) == Some((roomId, own, enemy))
  {
    var r, o, e := UuidText(roomId), UuidText(own), UuidText(enemy);
    var ws := [ROOM_CREATED, "ROOM_ID=" + r, "PLAYER_COLOR_ID=" + o, "ENEMY_COLOR_ID=" + e];
    CreatedReplyWords(ROOM_CREATED, r, o, e);
    UuidTextIsWord(roomId);
    UuidTextIsWord(own);
    UuidTextIsWord(enemy);
    WordHasNoSpace("ROOM_ID=", r);
    WordHasNoSpace("PLAYER_COLOR_ID=", o);
    WordHasNoSpace("ENEMY_COLOR_ID=", e);
    SplitJoinWords(ws);
    UuidTextRoundTrip(roomId);
    UuidTextRoundTrip(own);
    UuidTextRoundTrip(enemy);
    FieldValueOf("ROOM_ID=", r, ParseUuidText, roomId);
    FieldValueOf("PLAYER_COLOR_ID=", o, ParseUuidText, own);
    FieldValueOf("ENEMY_COLOR_ID=", e, ParseUuidText, enemy);
  }

  /** The JOIN line a client sends: the command and two ids, one space apart. */
  lemma JoinLineWords(a: string, b: string)
    ensures "JOIN " + a + " " + b == JoinWords(["JOIN", a, b])
  {
    AppendStep("JOIN", ["JOIN"], " ", "", a);
    assert "" + a == a && "JOIN" + " " == "JOIN ";
    AppendStep("JOIN " + a, ["JOIN", a], " ", "", b);
    assert "" + b == b && ["JOIN"] + [a] + [b] == ["JOIN", a, b];
  }

  /** The JOIN line built from two ids reads back as JOIN and those two ids. */
  lemma JoinLineReads(roomId: Uuid, colorId: Uuid, parse: string -> Option<Uuid>)
    requires forall s :: parse(s) == ParseUuidText(s)
    ensures var line := "JOIN " + UuidText(roomId) + " " + UuidText(colorId);
            StartsWith(line, "JOIN") && |Split(line)| == 3 &&
            parse(Split(line)[1]) == Some(roomId) && parse(Split(line)[2]) == Some(colorId)
  {
    var a, b := UuidText(roomId), UuidText(colorId);
    var line := "JOIN " + a + " " + b;
    JoinLineWords(a, b);
    UuidTextIsWord(roomId);
    UuidTextIsWord(colorId);
    SplitJoinWords(["JOIN", a, b]);
    assert line[..4] == "JOIN";
    UuidTextRoundTrip(roomId);
    UuidTextRoundTrip(colorId);
  }

  /** CREATE files the new room, with its creator seated, and binds the creator to it. */
  lemma CreateStep(rooms: map<Uuid, RoomState>, running: bool, env: Env)
    requires RoomsValid(rooms)
    ensures var created := Step(Unbound, running, rooms, "CREATE", env);
            created.session == Bound(env.newRoom, CreatorColor(env)) && created.running == running &&
            created.outcome == Reply(CreatedReply(env.newRoom, CreatorColor(env), EnemyColor(env))) &&
            created.rooms ==
              rooms[env.newRoom := RoomSpec.Join(Initial(env.newRoom, env.newWhite, env.newBlack, env.now),
                                                 env.newRoom, CreatorColor(env)).0] &&
            RoomsValid(created.rooms)
  {
    StepKeepsRooms(Unbound, running, rooms, "CREATE", env);
    assert "CREATE"[..4][0] == 'C';
  }

  /** A JOIN line that names an open room and a free seat of it binds the client to the room. */
  lemma JoinStep(rooms: map<Uuid, RoomState>, running: bool, line: string, env: Env, roomId: Uuid, colorId: Uuid)
    requires Consistent(rooms)
    requires StartsWith(line, "JOIN") && |Split(line)| == 3
    requires env.parseUuid(Split(line)[1]) == Some(roomId) && env.parseUuid(Split(line)[2]) == Some(colorId)
    requires roomId in rooms && RoomSpec.Join(rooms[roomId], roomId, colorId).1
    ensures Step(Unbound, running, rooms, line, env) ==
            Next(Bound(roomId, colorId), running, rooms[roomId := RoomSpec.Join(rooms[roomId], roomId, colorId).0],
                 Reply(ROOM_JOINED))
  {
  }

  /**
   * A created room is joined by its opponent with the ids of the ROOM_CREATED reply: the
   * reply reads back as the room and both tokens, the join with the other token is
   * accepted, binds the opponent to the room and starts the game.
   */
  lemma CreateThenJoin(rooms: map<Uuid, RoomState>, running: bool, env: Env, joinerEnv: Env)
    requires RoomsValid(rooms) && env.newWhite != env.newBlack
    requires forall s :: joinerEnv.parseUuid(s) == ParseUuidText(s)
    ensures var created := Step(Unbound, running, rooms, "CREATE", env);
            created.session == Bound(env.newRoom, CreatorColor(env)) &&
            created.outcome.Reply? &&
            ParseCreatedReply(created.outcome.line) == Some((env.newRoom, CreatorColor(env), EnemyColor(env))) &&
            Consistent(created.rooms) &&
            var joined := Step(Unbound, running, created.rooms,
                               "JOIN " + UuidText(env.newRoom) + " " + UuidText(EnemyColor(env)), joinerEnv);
            joined.outcome == Reply(ROOM_JOINED) && joined.session == Bound(env.newRoom, EnemyColor(env)) &&
            Consistent(joined.rooms) && env.newRoom in joined.rooms && Status(joined.rooms[env.newRoom]) == Playing
  {
    var own, enemy := CreatorColor(env), EnemyColor(env);
    CreatedReplyRoundTrip(env.newRoom, own, enemy);
    CreateStep(rooms, running, env);
    var created := Step(Unbound, running, rooms, "CREATE", env);
    var line := "JOIN " + UuidText(env.newRoom) + " " + UuidText(enemy);
    JoinLineReads(env.newRoom, enemy, joinerEnv.parseUuid);
    SecondJoinStartsGame(env.newRoom, env.newWhite, env.newBlack, env.now, own, enemy);
    JoinStep(created.rooms, running, line, joinerEnv, env.newRoom, enemy);
    StepKeepsRooms(Unbound, running, created.rooms, line, joinerEnv);
  }
}
