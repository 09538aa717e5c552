/**
 * GameRoom as the server holds it: an object whose fields the operations assign, with the
 * board as an 8x8 character array written in place, and the registry of open rooms
 * (ServerState.gameRooms) that rooms add themselves to and remove themselves from. Every
 * method is proved to do to the room's value exactly what the RoomSpec function of the
 * same operation does.
 */
module Game {
  import opened Text
  import opened Uuids
  import opened Rules
  import opened RoomSpec

  class GameRoom {
    const roomId: Uuid
    const whiteId: Uuid
    const blackId: Uuid
    var lastTimeUpdate: int
    var whiteMillis: int
    var blackMillis: int
    var currentTurn: Color
    var whiteWantsDraw: bool
    var blackWantsDraw: bool
    var gameStarted: bool
    var whiteInTheRoom: bool
    var blackInTheRoom: bool
    const board: array2<char>

    /** The board is 8 by 8; this never changes, so it reads no state. */
    predicate Valid() {
      board.Length0 == 8 && board.Length1 == 8
    }

    /** The board array as a value, row by row. */
    function Cells(): (b: Board)
      requires Valid()
      reads board
      ensures IsBoard(b)
      ensures forall r, c :: 0 <= r < 8 && 0 <= c < 8 ==> b[r][c] == board[r, c]
    {
      seq(8, r requires 0 <= r < 8 reads board =>
        seq(8, c requires 0 <= c < 8 reads board => board[r, c]))
    }

    /** The room's fields as a RoomSpec value. */
    function Abs(): (st: RoomState)
      requires Valid()
      reads this, board
      ensures WellFormed(st) && st.roomId == roomId
    {
      RoomState(roomId, whiteId, blackId, lastTimeUpdate, whiteMillis, blackMillis,
                currentTurn, whiteWantsDraw, blackWantsDraw, gameStarted,
                whiteInTheRoom, blackInTheRoom, Cells())
    }

    /**
     * `new GameRoom()`: the ids (random UUIDs in the server) and the creation time are inputs;
     * the room registers itself under its id.
     */
    constructor(roomId: Uuid, whiteId: Uuid, blackId: Uuid, now: int, registry: Registry)
      requires registry.Valid()
      modifies registry
      ensures Valid() && Abs() == Initial(roomId, whiteId, blackId, now)
      ensures fresh(board)
      ensures registry.rooms == old(registry.rooms)[roomId := this]
      ensures registry.Valid() && registry.Rooms() == old(registry.Rooms())[roomId := Abs()]
    {
      ghost var before := registry.Rooms();
      this.roomId := roomId;
      this.whiteId := whiteId;
      this.blackId := blackId;
      lastTimeUpdate := now;
      whiteMillis := InitialMillis;
      blackMillis := InitialMillis;
      currentTurn := White;
      whiteWantsDraw := false;
      blackWantsDraw := false;
      gameStarted := false;
      whiteInTheRoom := false;
      blackInTheRoom := false;
      board := new char[8, 8]((r, c) requires 0 <= r < 8 && 0 <= c < 8 => InitialBoard[r][c]);
      new;
      InitialBoardSymbols();
      assert forall r :: 0 <= r < 8 ==> Cells()[r] == InitialBoard[r];
      registry.RoomsUnchanged(before);
      registry.Register(this);
    }

    /** join */
    method Join(roomId: Uuid, colorId: Uuid) returns (ok: bool)
      requires Valid()
      modifies this
      ensures (Abs(), ok) == RoomSpec.Join(old(Abs()), roomId, colorId)
    {
      if roomId != this.roomId {
        return false;
      }
      if colorId == whiteId && !whiteInTheRoom {
        whiteInTheRoom := true;
        if blackInTheRoom && !gameStarted {
          gameStarted := true;
        }
        return true;
      }
      if colorId == blackId && !blackInTheRoom {
        blackInTheRoom := true;
        if whiteInTheRoom && !gameStarted {
          gameStarted := true;
        }
        return true;
      }
      return false;
    }

    /** leave: frees the seat; once both seats are free the room leaves the registry. */
    method Leave(colorId: Uuid, registry: Registry)
      requires Valid() && registry.Valid()
      modifies this, registry
      ensures Abs() == RoomSpec.Leave(old(Abs()), colorId)
      ensures registry.rooms ==
                if Vacant(Abs()) then old(registry.rooms) - {roomId} else old(registry.rooms)
      ensures registry.Valid()
    {
      if colorId == whiteId {
        whiteInTheRoom := false;
      }
      if colorId == blackId {
        blackInTheRoom := false;
      }
      if !blackInTheRoom && !whiteInTheRoom {
        registry.rooms := registry.rooms - {roomId};
      }
    }

    /** getColorForUUID; GameRoom throws for any other token. */
    function ColorForUuid(colorId: Uuid): (c: Color)
      requires colorId == whiteId || colorId == blackId
    {
      if colorId == whiteId then White else Black
    }

    /** requestADraw */
    method RequestADraw(colorId: Uuid) returns (ok: bool)
      requires Valid() && (colorId == whiteId || colorId == blackId)
      modifies this
      ensures (Abs(), ok) == RequestDraw(old(Abs()), colorId)
    {
      var color := ColorForUuid(colorId);
      if color == Black && blackWantsDraw {
        return false;
      }
      if color == White && whiteWantsDraw {
        return false;
      }
      if color == Black {
        blackWantsDraw := true;
      } else {
        whiteWantsDraw := true;
      }
      return true;
    }

    /** cancelDrawRequest */
    method CancelDrawRequest(colorId: Uuid) returns (ok: bool)
      requires Valid() && (colorId == whiteId || colorId == blackId)
      modifies this
      ensures (Abs(), ok) == CancelDraw(old(Abs()), colorId)
    {
      var color := ColorForUuid(colorId);
      if whiteWantsDraw && blackWantsDraw {
        return false;
      }
      if color == Black && blackWantsDraw {
        blackWantsDraw := false;
        return true;
      }
      if color == White && whiteWantsDraw {
        whiteWantsDraw := false;
        return true;
      }
      return false;
    }

    /** updateTime, with the current time as an input. */
    method UpdateTime(now: int)
      requires Valid()
      modifies this
      ensures Abs() == RoomSpec.UpdateTime(old(Abs()), now)
    {
      if !gameStarted {
        return;
      }
      var passed := now - lastTimeUpdate;
      if currentTurn == White {
        whiteMillis := whiteMillis - passed;
      } else {
        blackMillis := blackMillis - passed;
      }
      lastTimeUpdate := now;
      blackMillis := Max(blackMillis, 0);
      whiteMillis := Max(whiteMillis, 0);
    }

    /** getGameState: reads the room and changes nothing. */
    method GetGameState() returns (s: GameStatus)
      requires Valid()
      ensures s == Status(Abs())
    {
      if !gameStarted {
        return Waiting;
      }
      if whiteWantsDraw && blackWantsDraw {
        return Draw;
      }
      var blackLost := DidEnemyLose(Cells(), 'b', 'B', blackMillis);
      if blackLost {
        return WhiteWon;
      }
      var whiteLost := DidEnemyLose(Cells(), 'w', 'W', whiteMillis);
      if whiteLost {
        return BlackWon;
      }
      return Playing;
    }

    /** setPieceOnArrayCords */
    method SetPiece(p: Coord, piece: char)
      requires Valid() && InBounds(p)
      modifies board
      ensures Cells() == SetCell(old(Cells()), p, piece)
    {
      board[p.row, p.col] := piece;
      assert forall r :: 0 <= r < 8 ==> Cells()[r] == SetCell(old(Cells()), p, piece)[r];
    }

    /**
     * finalizeMove: empties the square jumped over at each step of two rows, then the start
     * square, and writes the mover's man or (on the promotion row) king on the last square.
     */
    method FinalizeMove(cmds: seq<Coord>, mover: Color)
      requires Valid() && |cmds| >= 1 && AllInBounds(cmds)
      modifies board
      ensures Cells() == Apply(old(Cells()), cmds, mover)
    {
      var i := 0;
      while i < |cmds| - 1
        invariant 0 <= i <= |cmds| - 1
        invariant Cells() == ClearCaptured(old(Cells()), cmds, i)
      {
        if AbsInt(cmds[i].row - cmds[i + 1].row) == 2 {
          SetPiece(Midpoint(cmds[i], cmds[i + 1]), EmptyCell);
        }
        i := i + 1;
      }
      var last := cmds[|cmds| - 1];
      SetPiece(cmds[0], EmptyCell);
      SetPiece(last, LandingSymbol(last, mover));
    }

    /**
     * move: the verdict Throws stands for the exception validateMove raises on a king's
     * jump chain, before anything has changed.
     */
    method Move(tokens: seq<string>, colorId: Uuid, now: int) returns (v: Verdict)
      requires Valid() && (colorId == whiteId || colorId == blackId)
      modifies this, board
      ensures (Abs(), v) == RoomSpec.Move(old(Abs()), tokens, colorId, now)
    {
      var mover := ColorForUuid(colorId);
      var status := GetGameState();
      if status != Playing {
        return Illegal;
      }
      if |tokens| < 2 {
        return Illegal;
      }
      var parsed := ParseCoords(tokens);
      if parsed.None? {
        return Illegal;
      }
      var cmds := parsed.value;
      var piece := board[cmds[0].row, cmds[0].col];
      if !IsValidPiece(mover, piece) {
        return Illegal;
      }
      v := ValidateMove(Cells(), cmds, piece, mover);
      if v == Throws {
        return;
      }
      UpdateTime(now);
      if v == Legal {
        FinalizeMove(cmds, mover);
        currentTurn := Opponent(currentTurn);
      }
    }

    /** getWholeRoomStateAsString: debits the clock, then writes the fields and the 64 squares. */
    method GetWholeRoomStateAsString(now: int) returns (s: string)
      requires Valid()
      modifies this
      ensures (Abs(), s) == Snapshot(old(Abs()), now)
    {
      UpdateTime(now);
      var status := GetGameState();
      s := "STATE=" + StatusName(status) +
           " PLAYER_TURN=" + ColorName(currentTurn) +
           " WHITE_WANTS_DRAW=" + BoolText(whiteWantsDraw) +
           " BLACK_WANTS_DRAW=" + BoolText(blackWantsDraw) +
           " BLACK_TIME=" + IntText(blackMillis) +
           " WHITE_TIME=" + IntText(whiteMillis) +
           " WHITE_ONLINE=" + BoolText(whiteInTheRoom) +
           " BLACK_ONLINE=" + BoolText(blackInTheRoom) +
           " BOARD=";
      s := AppendCells(s);
    }

    /** The loop over the board in getWholeRoomStateAsString: appends the 64 squares row by row. */
    method AppendCells(prefix: string) returns (s: string)
      requires Valid()
      ensures s == prefix + Flatten(Cells())
    {
      s := prefix;
      ghost var b := Cells();
      for r := 0 to 8
        invariant s == prefix + Flatten(b[..r])
      {
        for c := 0 to 8
          invariant s == prefix + Flatten(b[..r]) + b[r][..c]
        {
          s := s + [board[r, c]];
          assert b[r][..c + 1] == b[r][..c] + [b[r][c]];
        }
        assert b[..r + 1][..r] == b[..r];
        assert b[r][..8] == b[r];
      }
      assert b[..8] == b;
    }
  }

  /** ServerState.gameRooms: the open rooms by id. */
  class Registry {
    var rooms: map<Uuid, GameRoom>

    /** Each room is filed under its own id, and no two rooms share a board. */
    predicate Valid()
      reads this
    {
      (forall k :: k in rooms ==> rooms[k].roomId == k && rooms[k].Valid()) &&
      (forall k1, k2 :: k1 in rooms && k2 in rooms && k1 != k2 ==> rooms[k1].board != rooms[k2].board)
    }

    /** The boards of the open rooms. */
    function Boards(): set<array2<char>>
      reads this
    {
      set k | k in rooms :: rooms[k].board
    }

    /** gameRooms.put: files a new room under its id. */
    method Register(room: GameRoom)
      requires Valid() && room.Valid() && room.board !in Boards()
      modifies this
      ensures rooms == old(rooms)[room.roomId := room]
      ensures Valid() && Rooms() == old(Rooms())[room.roomId := room.Abs()]
    {
      ghost var before := Rooms();
      rooms := rooms[room.roomId := room];
      RoomsAfterUpdate(before, room.roomId);
    }

    /** gameRooms.get(key).join(key, colorId): only the room filed under key changes. */
    method JoinAt(key: Uuid, colorId: Uuid) returns (ok: bool)
      requires Valid() && key in rooms
      modifies rooms[key]
      ensures Valid() && rooms == old(rooms)
      ensures ok == RoomSpec.Join(old(Rooms())[key], key, colorId).1
      ensures Rooms() == old(Rooms())[key := RoomSpec.Join(old(Rooms())[key], key, colorId).0]
    {
      ghost var before := Rooms();
      var room := rooms[key];
      ok := room.Join(key, colorId);
      assert forall k :: k in rooms && k != key ==> rooms[k] != room;
      assert forall k :: k in rooms && k != key ==> rooms[k].Abs() == before[k];
      RoomsAfterUpdate(before, key);
    }

    /** gameRooms.get(key).getWholeRoomStateAsString(): only the room filed under key changes. */
    method SnapshotAt(key: Uuid, now: int) returns (text: string)
      requires Valid() && key in rooms
      modifies rooms[key]
      ensures Valid() && rooms == old(rooms)
      ensures text == Snapshot(old(Rooms())[key], now).1
      ensures Rooms() == old(Rooms())[key := Snapshot(old(Rooms())[key], now).0]
    {
      ghost var before := Rooms();
      var room := rooms[key];
      text := room.GetWholeRoomStateAsString(now);
      assert forall k :: k in rooms && k != key ==> rooms[k] != room;
      assert forall k :: k in rooms && k != key ==> rooms[k].Abs() == before[k];
      RoomsAfterUpdate(before, key);
    }

    /** gameRooms.get(key).move(...): only the room filed under key and its board change. */
    method MoveAt(key: Uuid, tokens: seq<string>, colorId: Uuid, now: int) returns (v: Verdict)
      requires Valid() && key in rooms
      requires colorId == rooms[key].whiteId || colorId == rooms[key].blackId
      modifies rooms[key], rooms[key].board
      ensures Valid() && rooms == old(rooms)
      ensures v == RoomSpec.Move(old(Rooms())[key], tokens, colorId, now).1
      ensures Rooms() == old(Rooms())[key := RoomSpec.Move(old(Rooms())[key], tokens, colorId, now).0]
    {
      ghost var before := Rooms();
      var room := rooms[key];
      v := room.Move(tokens, colorId, now);
      assert forall k :: k in rooms && k != key ==> rooms[k] != room && rooms[k].board != room.board;
      assert forall k :: k in rooms && k != key ==> rooms[k].Abs() == before[k];
      RoomsAfterUpdate(before, key);
    }

    /** gameRooms.get(key).requestADraw(colorId): only the room filed under key changes. */
    method RequestDrawAt(key: Uuid, colorId: Uuid) returns (ok: bool)
      requires Valid() && key in rooms
      requires colorId == rooms[key].whiteId || colorId == rooms[key].blackId
      modifies rooms[key]
      ensures Valid() && rooms == old(rooms)
      ensures ok == RequestDraw(old(Rooms())[key], colorId).1
      ensures Rooms() == old(Rooms())[key := RequestDraw(old(Rooms())[key], colorId).0]
    {
      ghost var before := Rooms();
      var room := rooms[key];
      ok := room.RequestADraw(colorId);
      assert forall k :: k in rooms && k != key ==> rooms[k] != room;
      assert forall k :: k in rooms && k != key ==> rooms[k].Abs() == before[k];
      RoomsAfterUpdate(before, key);
    }

    /** gameRooms.get(key).cancelDrawRequest(colorId): only the room filed under key changes. */
    method CancelDrawAt(key: Uuid, colorId: Uuid) returns (ok: bool)
      requires Valid() && key in rooms
      requires colorId == rooms[key].whiteId || colorId == rooms[key].blackId
      modifies rooms[key]
      ensures Valid() && rooms == old(rooms)
      ensures ok == CancelDraw(old(Rooms())[key], colorId).1
      ensures Rooms() == old(Rooms())[key := CancelDraw(old(Rooms())[key], colorId).0]
    {
      ghost var before := Rooms();
      var room := rooms[key];
      ok := room.CancelDrawRequest(colorId);
      assert forall k :: k in rooms && k != key ==> rooms[k] != room;
      assert forall k :: k in rooms && k != key ==> rooms[k].Abs() == before[k];
      RoomsAfterUpdate(before, key);
    }

    /** gameRooms.get(key).leave(colorId): the room changes, and goes once both seats are empty. */
    method LeaveAt(key: Uuid, colorId: Uuid)
      requires Valid() && key in rooms
      modifies this, rooms[key]
      ensures Valid()
      ensures var room := RoomSpec.Leave(old(Rooms())[key], colorId);
              Rooms() == if Vacant(room) then old(Rooms()) - {key} else old(Rooms())[key := room]
    {
      ghost var before := Rooms();
      var room := rooms[key];
      room.Leave(colorId, this);
      assert forall k :: k in rooms && k != key ==> rooms[k] != room;
      assert forall k :: k in rooms && k != key ==> rooms[k].Abs() == before[k];
      if Vacant(room.Abs()) {
        RoomsAfterRemoval(before, key);
      } else {
        RoomsAfterUpdate(before, key);
      }
    }

    /** The open rooms as values. */
    ghost function Rooms(): (m: map<Uuid, RoomState>)
      requires Valid()
      reads this, rooms.Values, Boards()
      ensures m.Keys == rooms.Keys
      ensures forall k :: k in m ==> m[k] == rooms[k].Abs()
      ensures forall k :: k in m ==> m[k].roomId == k && WellFormed(m[k])
    {
      map k | k in rooms :: rooms[k].Abs()
    }

    /**
     * After one room has been added or changed and the others have not, the values differ
     * at that room only.
     */
    lemma RoomsAfterUpdate(before: map<Uuid, RoomState>, key: Uuid)
      requires Valid() && rooms.Keys == before.Keys + {key}
      requires forall k :: k in rooms && k != key ==> rooms[k].Abs() == before[k]
      ensures Rooms() == before[key := rooms[key].Abs()]
    {
    }

    /** When every room still has the value it had, so do the open rooms as a whole. */
    lemma RoomsUnchanged(before: map<Uuid, RoomState>)
      requires Valid() && rooms.Keys == before.Keys
      requires forall k :: k in rooms ==> rooms[k].Abs() == before[k]
      ensures Rooms() == before
    {
    }

    /** After one room has been removed and the others have not changed, its key is all that is gone. */
    lemma RoomsAfterRemoval(before: map<Uuid, RoomState>, key: Uuid)
      requires Valid() && rooms.Keys == before.Keys - {key}
      requires forall k :: k in rooms ==> rooms[k].Abs() == before[k]
      ensures Rooms() == before - {key}
    {
    }

    constructor()
      ensures rooms == map[] && Valid()
    {
      rooms := map[];
    }
  }
}
