/**
 * One GameRoom as a value and its operations as functions from the old value to the new
 * one: join, leave, the draw flags, the clock debit, the game status, a move and the
 * text snapshot. The class Game.GameRoom is proved against these functions, and the
 * lemmas here state what the operations promise.
 */
module RoomSpec {
  import opened Wrappers
  import opened Text
  import opened Uuids
  import opened Rules

  /** Each side's clock starts at ten minutes, in milliseconds. */
  const InitialMillis: int := 1000 * 10 * 60

  /** GameRoom.State. */
  datatype GameStatus = Waiting | Playing | Draw | WhiteWon | BlackWon

  /** The fields of a GameRoom; clocks and timestamps are in milliseconds. */
  datatype RoomState = RoomState(
    roomId: Uuid,
    whiteId: Uuid,
    blackId: Uuid,
    lastTimeUpdate: int,
    whiteMillis: int,
    blackMillis: int,
    currentTurn: Color,
    whiteWantsDraw: bool,
    blackWantsDraw: bool,
    gameStarted: bool,
    whiteInTheRoom: bool,
    blackInTheRoom: bool,
    board: Board)

  predicate WellFormed(st: RoomState) {
    IsBoard(st.board)
  }

  /** A freshly constructed room: nobody present, white to move, full clocks. */
  function Initial(roomId: Uuid, whiteId: Uuid, blackId: Uuid, now: int): (st: RoomState)
    ensures WellFormed(st)
  {
    InitialBoardHasBothColours();
    RoomState(roomId, whiteId, blackId, now, InitialMillis, InitialMillis, White,
              false, false, false, false, false, InitialBoard)
  }

  /** The token is one of the room's two colour tokens (getColorForUUID does not throw). */
  predicate IsMember(st: RoomState, colorId: Uuid) {
    colorId == st.whiteId || colorId == st.blackId
  }

  /** getColorForUUID. */
  function ColorOf(st: RoomState, colorId: Uuid): Color
    requires IsMember(st, colorId)
  {
    if colorId == st.whiteId then White else Black
  }

  function Max(a: int, b: int): int {
    if a >= b then a else b
  }

  // ---------------------------------------------------------------- presence

  /**
   * join: the room id must be this room's, and the token a colour whose seat is free; the
   * game starts once both seats have been taken.
   */
  function Join(st: RoomState, roomId: Uuid, colorId: Uuid): (RoomState, bool) {
    if roomId != st.roomId then
      (st, false)
    else if colorId == st.whiteId && !st.whiteInTheRoom then
      (st.(whiteInTheRoom := true, gameStarted := st.gameStarted || st.blackInTheRoom), true)
    else if colorId == st.blackId && !st.blackInTheRoom then
      (st.(blackInTheRoom := true, gameStarted := st.gameStarted || st.whiteInTheRoom), true)
    else
      (st, false)
  }

  /** leave: frees the seat of each colour whose token matches; an unknown token changes nothing. */
  function Leave(st: RoomState, colorId: Uuid): RoomState {
    var afterWhite := if colorId == st.whiteId then st.(whiteInTheRoom := false) else st;
    if colorId == st.blackId then afterWhite.(blackInTheRoom := false) else afterWhite
  }

  /** Both seats are free: leave then removes the room from the registry. */
  predicate Vacant(st: RoomState) {
    !st.whiteInTheRoom && !st.blackInTheRoom
  }

  /**
   * join succeeds exactly for this room's id and a colour whose seat is free; it then takes
   * that seat only, starts the game if the other seat is taken, and touches nothing else.
   * A refused join changes nothing.
   */
  lemma JoinOutcome(st: RoomState, roomId: Uuid, colorId: Uuid)
    ensures var (next, ok) := Join(st, roomId, colorId);
            (ok <==> roomId == st.roomId &&
                     ((colorId == st.whiteId && !st.whiteInTheRoom) ||
                      (colorId == st.blackId && !st.blackInTheRoom))) &&
            (!ok ==> next == st) &&
            (ok ==> next.whiteInTheRoom == (st.whiteInTheRoom || colorId == st.whiteId) &&
                    next.blackInTheRoom == (st.blackInTheRoom || (colorId != st.whiteId || st.whiteInTheRoom)) &&
                    next.gameStarted == (st.gameStarted || (next.whiteInTheRoom && next.blackInTheRoom)) &&
                    next == st.(whiteInTheRoom := next.whiteInTheRoom,
                                blackInTheRoom := next.blackInTheRoom,
                                gameStarted := next.gameStarted))
  {
  }

  /** leave clears exactly the seats whose token matches and nothing else. */
  lemma LeaveOutcome(st: RoomState, colorId: Uuid)
    ensures var next := Leave(st, colorId);
            next.whiteInTheRoom == (st.whiteInTheRoom && colorId != st.whiteId) &&
            next.blackInTheRoom == (st.blackInTheRoom && colorId != st.blackId) &&
            next == st.(whiteInTheRoom := next.whiteInTheRoom, blackInTheRoom := next.blackInTheRoom)
  {
  }

  // ---------------------------------------------------------------- draws

  /** requestADraw: raises the caller's draw flag unless it is already raised. */
  function RequestDraw(st: RoomState, colorId: Uuid): (RoomState, bool)
    requires IsMember(st, colorId)
  {
    var color := ColorOf(st, colorId);
    if color == Black && st.blackWantsDraw then (st, false)
    else if color == White && st.whiteWantsDraw then (st, false)
    else if color == Black then (st.(blackWantsDraw := true), true)
    else (st.(whiteWantsDraw := true), true)
  }

  /** cancelDrawRequest: lowers the caller's raised flag, unless both flags are already raised. */
  function CancelDraw(st: RoomState, colorId: Uuid): (RoomState, bool)
    requires IsMember(st, colorId)
  {
    var color := ColorOf(st, colorId);
    if st.whiteWantsDraw && st.blackWantsDraw then (st, false)
    else if color == Black && st.blackWantsDraw then (st.(blackWantsDraw := false), true)
    else if color == White && st.whiteWantsDraw then (st.(whiteWantsDraw := false), true)
    else (st, false)
  }

  /**
   * The draw flags, for any room and either player: a request succeeds exactly when the
   * caller's flag is down, and raises it; a cancellation succeeds exactly when the caller's
   * flag is up and the other's is not, and lowers it. The other player's flag and the rest
   * of the room never change, and a refusal changes nothing.
   */
  lemma DrawOutcome(st: RoomState, colorId: Uuid)
    requires IsMember(st, colorId)
    ensures var c := ColorOf(st, colorId);
            var (r, rok) := RequestDraw(st, colorId);
            var (k, kok) := CancelDraw(st, colorId);
            var own := if c == White then st.whiteWantsDraw else st.blackWantsDraw;
            var other := if c == White then st.blackWantsDraw else st.whiteWantsDraw;
            (rok <==> !own) && (!rok ==> r == st) &&
            (rok ==> r == (if c == White then st.(whiteWantsDraw := true) else st.(blackWantsDraw := true))) &&
            (kok <==> own && !other) && (!kok ==> k == st) &&
            (kok ==> k == (if c == White then st.(whiteWantsDraw := false) else st.(blackWantsDraw := false)))
  {
  }

  // ---------------------------------------------------------------- clocks and status

  /**
   * updateTime: once the game has started, the time since the last debit is taken from the
   * clock of the colour whose turn it is, both clocks are clamped at zero and the debit
   * time is reset; before that it does nothing.
   */
  function UpdateTime(st: RoomState, now: int): RoomState {
    if !st.gameStarted then st
    else
      var passed := now - st.lastTimeUpdate;
      var white := if st.currentTurn == White then st.whiteMillis - passed else st.whiteMillis;
      var black := if st.currentTurn == White then st.blackMillis else st.blackMillis - passed;
      st.(lastTimeUpdate := now, blackMillis := Max(black, 0), whiteMillis := Max(white, 0))
  }

  /**
   * getGameState, in the order of its tests: not started, both want a draw, black has lost
   * (no black piece or no black time), white has lost, otherwise playing.
   */
  function Status(st: RoomState): GameStatus
    requires WellFormed(st)
  {
    if !st.gameStarted then Waiting
    else if st.whiteWantsDraw && st.blackWantsDraw then Draw
    else if EnemyLost(st.board, ManSymbol(Black), KingSymbol(Black), st.blackMillis) then WhiteWon
    else if EnemyLost(st.board, ManSymbol(White), KingSymbol(White), st.whiteMillis) then BlackWon
    else Playing
  }

  /** A colour has lost when none of its pieces is left or its clock has run out. */
  predicate HasLost(st: RoomState, c: Color)
    requires WellFormed(st)
  {
    !OccursInRows(st.board, 8, ManSymbol(c), KingSymbol(c)) ||
    (if c == White then st.whiteMillis else st.blackMillis) <= 0
  }

  /**
   * The status in terms of the room: play goes on exactly when the game has started, no
   * draw is agreed and neither side has lost; an agreed draw hides a loss, and a black
   * loss is reported before a white one.
   */
  lemma StatusCases(st: RoomState)
    requires WellFormed(st)
    ensures Status(st) == Waiting <==> !st.gameStarted
    ensures Status(st) == Draw <==> st.gameStarted && st.whiteWantsDraw && st.blackWantsDraw
    ensures Status(st) == WhiteWon <==>
              st.gameStarted && !(st.whiteWantsDraw && st.blackWantsDraw) && HasLost(st, Black)
    ensures Status(st) == BlackWon <==>
              st.gameStarted && !(st.whiteWantsDraw && st.blackWantsDraw) && !HasLost(st, Black) &&
              HasLost(st, White)
    ensures Status(st) == Playing <==>
              st.gameStarted && !(st.whiteWantsDraw && st.blackWantsDraw) &&
              !HasLost(st, Black) && !HasLost(st, White)
  {
  }

  /**
   * Clock accounting, for a clock that is not running backwards: nothing moves before the
   * game starts; afterwards only the clock of the side to move goes down, by the time
   * elapsed, never below zero, and the debit time becomes `now`.
   */
  lemma ClockAccounting(st: RoomState, now: int)
    requires st.whiteMillis >= 0 && st.blackMillis >= 0 && now >= st.lastTimeUpdate
    ensures var next := UpdateTime(st, now);
            (!st.gameStarted ==> next == st) &&
            (st.gameStarted ==> next.lastTimeUpdate == now) &&
            0 <= next.whiteMillis <= st.whiteMillis && 0 <= next.blackMillis <= st.blackMillis &&
            (st.currentTurn == White ==> next.blackMillis == st.blackMillis) &&
            (st.currentTurn == Black ==> next.whiteMillis == st.whiteMillis) &&
            (st.gameStarted && st.currentTurn == White ==>
               next.whiteMillis == Max(st.whiteMillis - (now - st.lastTimeUpdate), 0)) &&
            (st.gameStarted && st.currentTurn == Black ==>
               next.blackMillis == Max(st.blackMillis - (now - st.lastTimeUpdate), 0)) &&
            next == st.(lastTimeUpdate := next.lastTimeUpdate,
                        whiteMillis := next.whiteMillis, blackMillis := next.blackMillis)
  {
  }

  // ---------------------------------------------------------------- moves

  /**
   * move: the caller's colour comes from its token, never from `currentTurn`. The move is
   * refused without any change unless the game is being played, at least two squares are
   * given, all of them parse and the first holds the caller's piece. A validation that
   * throws changes nothing either. Otherwise the clock is debited, and an accepted move is
   * applied to the board and passes the turn.
   */
  function Move(st: RoomState, tokens: seq<string>, colorId: Uuid, now: int): (RoomState, Verdict)
    requires WellFormed(st) && IsMember(st, colorId)
  {
    var mover := ColorOf(st, colorId);
    if Status(st) != Playing then (st, Illegal)
    else if |tokens| < 2 then (st, Illegal)
    else
      match ParseCoords(tokens)
      case None => (st, Illegal)
      case Some(cmds) =>
        var piece := At(st.board, cmds[0]);
        if !IsValidPiece(mover, piece) then (st, Illegal)
        else
          var verdict := Validate(st.board, cmds, piece, mover);
          if verdict == Throws then (st, Throws)
          else
            var timed := UpdateTime(st, now);
            if verdict == Legal then
              (timed.(board := Apply(timed.board, cmds, mover), currentTurn := Opponent(timed.currentTurn)), Legal)
            else
              (timed, Illegal)
  }

  /** The checks move makes before it validates the move itself. */
  predicate PassesEarlyChecks(st: RoomState, tokens: seq<string>, colorId: Uuid)
    requires WellFormed(st) && IsMember(st, colorId)
  {
    Status(st) == Playing && |tokens| >= 2 && ParseCoords(tokens).Some? &&
    IsValidPiece(ColorOf(st, colorId), At(st.board, ParseCoords(tokens).value[0]))
  }

  /**
   * What a move does to the room: a move failing the early checks changes nothing; one
   * that throws changes nothing; otherwise the clocks are debited; an accepted move
   * applies the squares to the board and flips the turn once, a refused one keeps board
   * and turn.
   */
  lemma MoveOutcome(st: RoomState, tokens: seq<string>, colorId: Uuid, now: int)
    requires WellFormed(st) && IsMember(st, colorId)
    ensures var (next, verdict) := Move(st, tokens, colorId, now);
            WellFormed(next) &&
            (!PassesEarlyChecks(st, tokens, colorId) ==> next == st && verdict == Illegal) &&
            (verdict == Throws ==> next == st) &&
            (verdict != Legal ==> next.board == st.board && next.currentTurn == st.currentTurn) &&
            (PassesEarlyChecks(st, tokens, colorId) && verdict != Throws ==>
               next.(board := st.board, currentTurn := st.currentTurn) == UpdateTime(st, now)) &&
            (verdict == Legal ==>
               PassesEarlyChecks(st, tokens, colorId) &&
               next.currentTurn == Opponent(st.currentTurn) &&
               next.board == Apply(st.board, ParseCoords(tokens).value, ColorOf(st, colorId)))
  {
  }

  /** `currentTurn` is never consulted: the verdict is the same whoever's turn it is. */
  lemma MoveIgnoresTurn(st: RoomState, tokens: seq<string>, colorId: Uuid, now: int, turn: Color)
    requires WellFormed(st) && IsMember(st, colorId)
    ensures Move(st.(currentTurn := turn), tokens, colorId, now).1 == Move(st, tokens, colorId, now).1
  {
    assert Status(st.(currentTurn := turn)) == Status(st);
  }

  /**
   * A king whose jump chain validates step by step makes validateMove throw before the
   * clock or the board is touched.
   */
  lemma KingJumpThrows(st: RoomState, tokens: seq<string>, colorId: Uuid, now: int)
    requires WellFormed(st) && IsMember(st, colorId)
    requires PassesEarlyChecks(st, tokens, colorId)
    requires var cmds := ParseCoords(tokens).value;
             var piece := At(st.board, cmds[0]);
             IsUpperCase(piece) && AbsInt(cmds[1].row - cmds[0].row) == 2 &&
             AllSingleJumps(st.board, cmds, piece, ColorOf(st, colorId))
    ensures Move(st, tokens, colorId, now) == (st, Throws)
  {
  }

  // ---------------------------------------------------------------- snapshot

  function StatusName(s: GameStatus): string {
    match s
    case Waiting => "WAITING"
    case Playing => "PLAYING"
    case Draw => "DRAW"
    case WhiteWon => "WHITE_WON"
    case BlackWon => "BLACK_WON"
  }

  function ColorName(c: Color): string {
    if c == White then "WHITE" else "BLACK"
  }

  function BoolText(b: bool): string {
    if b then "TRUE" else "FALSE"
  }

  /** The rows of the board one after another, row 0 first. */
  function Flatten(b: seq<seq<char>>): string {
    if b == [] then [] else Flatten(b[..|b| - 1]) + b[|b| - 1]
  }

  /** The text getWholeRoomStateAsString builds from a room whose clock is already debited. */
  function SnapshotText(st: RoomState): string
    requires WellFormed(st)
  {
    "STATE=" + StatusName(Status(st)) +
    " PLAYER_TURN=" + ColorName(st.currentTurn) +
    " WHITE_WANTS_DRAW=" + BoolText(st.whiteWantsDraw) +
    " BLACK_WANTS_DRAW=" + BoolText(st.blackWantsDraw) +
    " BLACK_TIME=" + IntText(st.blackMillis) +
    " WHITE_TIME=" + IntText(st.whiteMillis) +
    " WHITE_ONLINE=" + BoolText(st.whiteInTheRoom) +
    " BLACK_ONLINE=" + BoolText(st.blackInTheRoom) +
    " BOARD=" + Flatten(st.board)
  }

  /** getWholeRoomStateAsString: debit the clock, then describe the room. */
  function Snapshot(st: RoomState, now: int): (RoomState, string)
    requires WellFormed(st)
  {
    var timed := UpdateTime(st, now);
    (timed, SnapshotText(timed))
  }

  /** What a client can read from a snapshot. */
  datatype SnapshotView = SnapshotView(
    status: GameStatus,
    turn: Color,
    whiteWantsDraw: bool,
    blackWantsDraw: bool,
    blackMillis: int,
    whiteMillis: int,
    whiteOnline: bool,
    blackOnline: bool,
    board: Board)

  function ViewOf(st: RoomState): SnapshotView
    requires WellFormed(st)
  {
    SnapshotView(Status(st), st.currentTurn, st.whiteWantsDraw, st.blackWantsDraw,
                 st.blackMillis, st.whiteMillis, st.whiteInTheRoom, st.blackInTheRoom, st.board)
  }

  function Field(word: string, key: string): Option<string> {
    if StartsWith(word, key) then Some(word[|key|..]) else None
  }

  function ParseStatus(s: string): Option<GameStatus> {
    if s == "WAITING" then Some(Waiting)
    else if s == "PLAYING" then Some(Playing)
    else if s == "DRAW" then Some(Draw)
    else if s == "WHITE_WON" then Some(WhiteWon)
    else if s == "BLACK_WON" then Some(BlackWon)
    else None
  }

  function ParseColor(s: string): Option<Color> {
    if s == "WHITE" then Some(White) else if s == "BLACK" then Some(Black) else None
  }

  function ParseBool(s: string): Option<bool> {
    if s == "TRUE" then Some(true) else if s == "FALSE" then Some(false) else None
  }

  /** 64 characters read back as eight rows of eight. */
  function ParseBoardText(s: string): (r: Option<Board>)
    ensures r.Some? ==> IsBoard(r.value)
  {
    if |s| == 64 then Some(seq(8, r requires 0 <= r < 8 => s[8 * r .. 8 * r + 8])) else None
  }

  /** A client-side reader of snapshots: nine space-separated KEY=value fields in order. */
  function DecodeSnapshot(s: string): Option<SnapshotView> {
    DecodeWords(Split(s))
  }

  /** The value of one `KEY=value` word, read by the parser for its field. */
  function FieldValue<T>(word: string, key: string, parse: string -> Option<T>): Option<T> {
    var text :- Field(word, key);
    parse(text)
  }

  /** The nine space-separated words of a snapshot, each checked for its key and parsed. */
  function DecodeWords(ws: seq<string>): Option<SnapshotView> {
    if |ws| != 9 then None
    else
      var status :- FieldValue(ws[0], "STATE=", ParseStatus);
      var turn :- FieldValue(ws[1], "PLAYER_TURN=", ParseColor);
      var whiteDraw :- FieldValue(ws[2], "WHITE_WANTS_DRAW=", ParseBool);
      var blackDraw :- FieldValue(ws[3], "BLACK_WANTS_DRAW=", ParseBool);
      var blackTime :- FieldValue(ws[4], "BLACK_TIME=", ParseInt);
      var whiteTime :- FieldValue(ws[5], "WHITE_TIME=", ParseInt);
      var whiteOnline :- FieldValue(ws[6], "WHITE_ONLINE=", ParseBool);
      var blackOnline :- FieldValue(ws[7], "BLACK_ONLINE=", ParseBool);
      var board :- FieldValue(ws[8], "BOARD=", ParseBoardText);
      Some(SnapshotView(status, turn, whiteDraw, blackDraw, blackTime, whiteTime,
                        whiteOnline, blackOnline, board))
  }

  /** The words a snapshot reporting v is made of. */
  function ViewWords(v: SnapshotView): seq<string> {
    ["STATE=" + StatusName(v.status),
     "PLAYER_TURN=" + ColorName(v.turn),
     "WHITE_WANTS_DRAW=" + BoolText(v.whiteWantsDraw),
     "BLACK_WANTS_DRAW=" + BoolText(v.blackWantsDraw),
     "BLACK_TIME=" + IntText(v.blackMillis),
     "WHITE_TIME=" + IntText(v.whiteMillis),
     "WHITE_ONLINE=" + BoolText(v.whiteOnline),
     "BLACK_ONLINE=" + BoolText(v.blackOnline),
     "BOARD=" + Flatten(v.board)]
  }

  function SnapshotWords(st: RoomState): seq<string>
    requires WellFormed(st)
  {
    ViewWords(ViewOf(st))
  }

  lemma SnapshotTextIsWords(st: RoomState)
    requires WellFormed(st)
    ensures SnapshotText(st) == JoinWords(SnapshotWords(st))
  {
    NineFields(StatusName(Status(st)), ColorName(st.currentTurn),
               BoolText(st.whiteWantsDraw), BoolText(st.blackWantsDraw),
               IntText(st.blackMillis), IntText(st.whiteMillis),
               BoolText(st.whiteInTheRoom), BoolText(st.blackInTheRoom), Flatten(st.board));
  }

  /** The snapshot layout for arbitrary field values. */
  lemma NineFields(v0: string, v1: string, v2: string, v3: string, v4: string,
                   v5: string, v6: string, v7: string, v8: string)
    ensures "STATE=" + v0 + " PLAYER_TURN=" + v1 + " WHITE_WANTS_DRAW=" + v2 +
            " BLACK_WANTS_DRAW=" + v3 + " BLACK_TIME=" + v4 + " WHITE_TIME=" + v5 +
            " WHITE_ONLINE=" + v6 + " BLACK_ONLINE=" + v7 + " BOARD=" + v8 ==
            JoinWords(["STATE=" + v0, "PLAYER_TURN=" + v1, "WHITE_WANTS_DRAW=" + v2,
                       "BLACK_WANTS_DRAW=" + v3, "BLACK_TIME=" + v4, "WHITE_TIME=" + v5,
                       "WHITE_ONLINE=" + v6, "BLACK_ONLINE=" + v7, "BOARD=" + v8])
  {
    var t := "STATE=" + v0 + " PLAYER_TURN=" + v1 + " WHITE_WANTS_DRAW=" + v2 + " BLACK_WANTS_DRAW=" + v3;
    var p := ["STATE=" + v0, "PLAYER_TURN=" + v1, "WHITE_WANTS_DRAW=" + v2, "BLACK_WANTS_DRAW=" + v3];
    FourFields(v0, v1, v2, v3);
    AppendStep(t, p, " BLACK_TIME=", "BLACK_TIME=", v4);
    t, p := t + " BLACK_TIME=" + v4, p + ["BLACK_TIME=" + v4];
    AppendStep(t, p, " WHITE_TIME=", "WHITE_TIME=", v5);
    t, p := t + " WHITE_TIME=" + v5, p + ["WHITE_TIME=" + v5];
    AppendStep(t, p, " WHITE_ONLINE=", "WHITE_ONLINE=", v6);
    t, p := t + " WHITE_ONLINE=" + v6, p + ["WHITE_ONLINE=" + v6];
    AppendStep(t, p, " BLACK_ONLINE=", "BLACK_ONLINE=", v7);
    t, p := t + " BLACK_ONLINE=" + v7, p + ["BLACK_ONLINE=" + v7];
    AppendStep(t, p, " BOARD=", "BOARD=", v8);
    p := p + ["BOARD=" + v8];
    assert p == ["STATE=" + v0, "PLAYER_TURN=" + v1, "WHITE_WANTS_DRAW=" + v2,
                 "BLACK_WANTS_DRAW=" + v3, "BLACK_TIME=" + v4, "WHITE_TIME=" + v5,
                 "WHITE_ONLINE=" + v6, "BLACK_ONLINE=" + v7, "BOARD=" + v8];
  }

  /** The first four fields of the snapshot layout. */
  lemma FourFields(v0: string, v1: string, v2: string, v3: string)
    ensures "STATE=" + v0 + " PLAYER_TURN=" + v1 + " WHITE_WANTS_DRAW=" + v2 + " BLACK_WANTS_DRAW=" + v3 ==
            JoinWords(["STATE=" + v0, "PLAYER_TURN=" + v1, "WHITE_WANTS_DRAW=" + v2, "BLACK_WANTS_DRAW=" + v3])
  {
    ThreeMore("STATE=" + v0, ["STATE=" + v0], " PLAYER_TURN=", "PLAYER_TURN=", v1,
              " WHITE_WANTS_DRAW=", "WHITE_WANTS_DRAW=", v2, " BLACK_WANTS_DRAW=", "BLACK_WANTS_DRAW=", v3);
  }

  /** Three more " KEY=value" pieces on the text are three more KEY=value words in the list. */
  lemma ThreeMore(t: string, p: seq<string>, s1: string, k1: string, v1: string,
                  s2: string, k2: string, v2: string, s3: string, k3: string, v3: string)
    requires p != [] && t == JoinWords(p)
    requires s1 == " " + k1 && s2 == " " + k2 && s3 == " " + k3
    ensures t + s1 + v1 + s2 + v2 + s3 + v3 == JoinWords(p + [k1 + v1, k2 + v2, k3 + v3])
  {
    AppendStep(t, p, s1, k1, v1);
    AppendStep(t + s1 + v1, p + [k1 + v1], s2, k2, v2);
    AppendStep(t + s1 + v1 + s2 + v2, p + [k1 + v1] + [k2 + v2], s3, k3, v3);
    assert p + [k1 + v1] + [k2 + v2] + [k3 + v3] == p + [k1 + v1, k2 + v2, k3 + v3];
  }

  /** One more " KEY=value" on the text is one more KEY=value word in the list. */
  lemma AppendStep(t: string, p: seq<string>, spacedKey: string, key: string, v: string)
    requires p != [] && t == JoinWords(p) && spacedKey == " " + key
    ensures t + spacedKey + v == JoinWords(p + [key + v])
  {
    JoinWordsSnoc(p, key + v);
  }
  lemma {:induction false} FlattenRows(b: seq<seq<char>>)
    requires forall r :: 0 <= r < |b| ==> |b[r]| == 8
    ensures |Flatten(b)| == 8 * |b|
    ensures forall r :: 0 <= r < |b| ==> Flatten(b)[8 * r .. 8 * r + 8] == b[r]
  {
    if b != [] {
      var init := b[..|b| - 1];
      FlattenRows(init);
      var f := Flatten(b);
      forall r | 0 <= r < |b|
        ensures f[8 * r .. 8 * r + 8] == b[r]
      {
        if r < |b| - 1 {
          assert f[8 * r .. 8 * r + 8] == Flatten(init)[8 * r .. 8 * r + 8];
        }
      }
    }
  }

  lemma FlattenHasNoSpace(b: Board)
    requires IsBoard(b) && OnlyPieceSymbols(b)
    ensures ' ' !in Flatten(b)
  {
    FlattenRows(b);
    var f := Flatten(b);
    forall j | 0 <= j < |f|
      ensures f[j] != ' '
    {
      var r, c := j / 8, j % 8;
      assert 8 * r + c == j && 0 <= r < 8;
      assert f[8 * r .. 8 * r + 8] == b[r];
      assert f[8 * r .. 8 * r + 8][c] == f[j];
    }
  }

  lemma ParseBoardTextOfFlatten(b: Board)
    requires IsBoard(b)
    ensures ParseBoardText(Flatten(b)) == Some(b)
  {
    FlattenRows(b);
    var f := Flatten(b);
    var rows := seq(8, r requires 0 <= r < 8 => f[8 * r .. 8 * r + 8]);
    assert forall r :: 0 <= r < 8 ==> rows[r] == b[r];
    assert rows == b;
  }

  lemma FieldOf(key: string, v: string)
    ensures Field(key + v, key) == Some(v)
  {
    assert (key + v)[..|key|] == key;
    assert (key + v)[|key|..] == v;
  }

  lemma ParseNames(s: GameStatus, c: Color, b: bool)
    ensures ParseStatus(StatusName(s)) == Some(s)
    ensures ParseColor(ColorName(c)) == Some(c)
    ensures ParseBool(BoolText(b)) == Some(b)
  {
  }

  lemma SnapshotWordsHaveNoSpace(st: RoomState)
    requires WellFormed(st) && OnlyPieceSymbols(st.board)
    ensures forall i :: 0 <= i < |SnapshotWords(st)| ==> ' ' !in SnapshotWords(st)[i]
  {
    ViewWordsHaveNoSpace(ViewOf(st));
  }

  lemma ViewWordsHaveNoSpace(v: SnapshotView)
    requires IsBoard(v.board) && OnlyPieceSymbols(v.board)
    ensures forall i :: 0 <= i < |ViewWords(v)| ==> ' ' !in ViewWords(v)[i]
  {
    FlattenHasNoSpace(v.board);
    WordHasNoSpace("STATE=", StatusName(v.status));
    WordHasNoSpace("PLAYER_TURN=", ColorName(v.turn));
    WordHasNoSpace("WHITE_WANTS_DRAW=", BoolText(v.whiteWantsDraw));
    WordHasNoSpace("BLACK_WANTS_DRAW=", BoolText(v.blackWantsDraw));
    WordHasNoSpace("BLACK_TIME=", IntText(v.blackMillis));
    WordHasNoSpace("WHITE_TIME=", IntText(v.whiteMillis));
    WordHasNoSpace("WHITE_ONLINE=", BoolText(v.whiteOnline));
    WordHasNoSpace("BLACK_ONLINE=", BoolText(v.blackOnline));
    WordHasNoSpace("BOARD=", Flatten(v.board));
  }

  /** A key and a value without spaces make a word without spaces. */
  lemma WordHasNoSpace(key: string, value: string)
    requires ' ' !in key && ' ' !in value
    ensures ' ' !in key + value
  {
  }

  /**
   * A client reading a snapshot recovers every reported field: the status, the turn, both
   * draw flags, both clocks, both presence flags and the whole board.
   */
  lemma SnapshotRoundTrip(st: RoomState)
    requires WellFormed(st) && OnlyPieceSymbols(st.board)
    ensures DecodeSnapshot(SnapshotText(st)) == Some(ViewOf(st))
  {
    var ws := SnapshotWords(st);
    SnapshotTextIsWords(st);
    SnapshotWordsHaveNoSpace(st);
    SplitJoinWords(ws);
    ViewWordsRoundTrip(ViewOf(st));
  }

  /** Each word of a snapshot parses back to the value it reports. */
  lemma ViewWordsRoundTrip(v: SnapshotView)
    requires IsBoard(v.board)
    ensures DecodeWords(ViewWords(v)) == Some(v)
  {
    HeadFieldsRoundTrip(v);
    DrawFieldsRoundTrip(v);
    ClockFieldsRoundTrip(v);
    TailFieldsRoundTrip(v);
  }

  /** The status and the turn read back from their words. */
  lemma HeadFieldsRoundTrip(v: SnapshotView)
    ensures FieldValue(ViewWords(v)[0], "STATE=", ParseStatus) == Some(v.status)
    ensures FieldValue(ViewWords(v)[1], "PLAYER_TURN=", ParseColor) == Some(v.turn)
  {
    ParseNames(v.status, v.turn, v.whiteWantsDraw);
    FieldValueOf("STATE=", StatusName(v.status), ParseStatus, v.status);
    FieldValueOf("PLAYER_TURN=", ColorName(v.turn), ParseColor, v.turn);
  }

  /** The two draw flags read back from their words. */
  lemma DrawFieldsRoundTrip(v: SnapshotView)
    ensures FieldValue(ViewWords(v)[2], "WHITE_WANTS_DRAW=", ParseBool) == Some(v.whiteWantsDraw)
    ensures FieldValue(ViewWords(v)[3], "BLACK_WANTS_DRAW=", ParseBool) == Some(v.blackWantsDraw)
  {
    ParseNames(v.status, v.turn, v.whiteWantsDraw);
    ParseNames(v.status, v.turn, v.blackWantsDraw);
    FieldValueOf("WHITE_WANTS_DRAW=", BoolText(v.whiteWantsDraw), ParseBool, v.whiteWantsDraw);
    FieldValueOf("BLACK_WANTS_DRAW=", BoolText(v.blackWantsDraw), ParseBool, v.blackWantsDraw);
  }

  /** The two clocks read back from their words. */
  lemma ClockFieldsRoundTrip(v: SnapshotView)
    ensures FieldValue(ViewWords(v)[4], "BLACK_TIME=", ParseInt) == Some(v.blackMillis)
    ensures FieldValue(ViewWords(v)[5], "WHITE_TIME=", ParseInt) == Some(v.whiteMillis)
  {
    IntTextRoundTrip(v.blackMillis);
    IntTextRoundTrip(v.whiteMillis);
    FieldValueOf("BLACK_TIME=", IntText(v.blackMillis), ParseInt, v.blackMillis);
    FieldValueOf("WHITE_TIME=", IntText(v.whiteMillis), ParseInt, v.whiteMillis);
  }

  /** The presence flags and the board read back from their words. */
  lemma TailFieldsRoundTrip(v: SnapshotView)
    requires IsBoard(v.board)
    ensures FieldValue(ViewWords(v)[6], "WHITE_ONLINE=", ParseBool) == Some(v.whiteOnline)
    ensures FieldValue(ViewWords(v)[7], "BLACK_ONLINE=", ParseBool) == Some(v.blackOnline)
    ensures FieldValue(ViewWords(v)[8], "BOARD=", ParseBoardText) == Some(v.board)
  {
    ParseNames(v.status, v.turn, v.whiteOnline);
    ParseNames(v.status, v.turn, v.blackOnline);
    ParseBoardTextOfFlatten(v.board);
    FieldValueOf("WHITE_ONLINE=", BoolText(v.whiteOnline), ParseBool, v.whiteOnline);
    FieldValueOf("BLACK_ONLINE=", BoolText(v.blackOnline), ParseBool, v.blackOnline);
    FieldValueOf("BOARD=", Flatten(v.board), ParseBoardText, v.board);
  }

  lemma FieldValueOf<T>(key: string, text: string, parse: string -> Option<T>, x: T)
    requires parse(text) == Some(x)
    ensures FieldValue(key + text, key, parse) == Some(x)
  {
    FieldOf(key, text);
  }

  // ---------------------------------------------------------------- invariant and scenarios

  /**
   * What every room keeps: a board of the five symbols, clocks that never go negative,
   * and a game that has started whenever both players are present.
   */
  predicate Invariant(st: RoomState) {
    WellFormed(st) && OnlyPieceSymbols(st.board) &&
    st.whiteMillis >= 0 && st.blackMillis >= 0 &&
    (st.whiteInTheRoom && st.blackInTheRoom ==> st.gameStarted)
  }

  lemma InitialInvariant(roomId: Uuid, whiteId: Uuid, blackId: Uuid, now: int)
    ensures Invariant(Initial(roomId, whiteId, blackId, now))
  {
    InitialBoardSymbols();
  }

  /**
   * Every operation of a room keeps its invariant, and none of them ever takes back the
   * start of the game. Joining and leaving first.
   */
  lemma PresenceKeepsInvariant(st: RoomState, roomId: Uuid, colorId: Uuid)
    requires Invariant(st)
    ensures Invariant(Join(st, roomId, colorId).0) && Invariant(Leave(st, colorId))
    ensures st.gameStarted ==> Join(st, roomId, colorId).0.gameStarted && Leave(st, colorId).gameStarted
  {
  }

  /** The clock update, the snapshot and the draw offers keep the invariant. */
  lemma ClockAndDrawKeepInvariant(st: RoomState, colorId: Uuid, now: int)
    requires Invariant(st)
    ensures Invariant(UpdateTime(st, now)) && Invariant(Snapshot(st, now).0)
    ensures st.gameStarted ==> UpdateTime(st, now).gameStarted
    ensures IsMember(st, colorId) ==>
              Invariant(RequestDraw(st, colorId).0) && Invariant(CancelDraw(st, colorId).0)
  {
  }

  lemma MoveKeepsInvariant(st: RoomState, tokens: seq<string>, colorId: Uuid, now: int)
    requires Invariant(st) && IsMember(st, colorId)
    ensures Invariant(Move(st, tokens, colorId, now).0)
    ensures st.gameStarted ==> Move(st, tokens, colorId, now).0.gameStarted
  {
    MoveOutcome(st, tokens, colorId, now);
    var (next, verdict) := Move(st, tokens, colorId, now);
    if verdict == Legal {
      ApplyKeepsSymbols(st.board, ParseCoords(tokens).value, ColorOf(st, colorId));
    }
  }

  /** Two values of one room: the same room id and the same two colour tokens. */
  predicate SameSeats(a: RoomState, b: RoomState) {
    a.roomId == b.roomId && a.whiteId == b.whiteId && a.blackId == b.blackId
  }

  /** Joining and leaving never change the room's id or its colour tokens, which are final fields. */
  lemma PresenceKeepsSeats(st: RoomState, roomId: Uuid, colorId: Uuid)
    ensures SameSeats(st, Join(st, roomId, colorId).0) && SameSeats(st, Leave(st, colorId))
  {
  }

  /** Nor do the clock update and the draw offers. */
  lemma ClockAndDrawKeepSeats(st: RoomState, colorId: Uuid, now: int)
    ensures SameSeats(st, UpdateTime(st, now))
    ensures IsMember(st, colorId) ==>
              SameSeats(st, RequestDraw(st, colorId).0) && SameSeats(st, CancelDraw(st, colorId).0)
  {
  }

  /** Nor does a move, whatever its verdict. */
  lemma MoveKeepsSeats(st: RoomState, tokens: seq<string>, colorId: Uuid, now: int)
    requires WellFormed(st) && IsMember(st, colorId)
    ensures SameSeats(st, Move(st, tokens, colorId, now).0)
  {
    MoveOutcome(st, tokens, colorId, now);
    var next := Move(st, tokens, colorId, now).0;
    if next != st {
      assert next.(board := st.board, currentTurn := st.currentTurn) == UpdateTime(st, now);
    }
  }

  /**
   * A full game start: on a new room white and then black join, the room waits until both
   * are in and is then being played; neither seat can be taken twice, a player leaving does
   * not end the game, and the room is vacant once both have left.
   */
  lemma GameLifecycle(roomId: Uuid, whiteId: Uuid, blackId: Uuid, now: int)
    requires whiteId != blackId
    ensures var st0 := Initial(roomId, whiteId, blackId, now);
            var (st1, ok1) := Join(st0, roomId, whiteId);
            var (st2, ok2) := Join(st1, roomId, blackId);
            ok1 && ok2 &&
            Status(st0) == Waiting && Status(st1) == Waiting && Status(st2) == Playing &&
            !Join(st2, roomId, whiteId).1 && !Join(st2, roomId, blackId).1 &&
            Status(Leave(st2, whiteId)) == Playing &&
            Vacant(Leave(Leave(st2, whiteId), blackId))
  {
    InitialBoardHasBothColours();
  }

  /** Whichever seat is taken first, the second join is accepted and starts the game. */
  lemma SecondJoinStartsGame(roomId: Uuid, whiteId: Uuid, blackId: Uuid, now: int, first: Uuid, second: Uuid)
    requires whiteId != blackId
    requires (first == whiteId && second == blackId) || (first == blackId && second == whiteId)
    ensures var (st1, ok1) := Join(Initial(roomId, whiteId, blackId, now), roomId, first);
            var (st2, ok2) := Join(st1, roomId, second);
            ok1 && ok2 && Status(st1) == Waiting && Status(st2) == Playing
  {
    InitialBoardHasBothColours();
  }

  /**
   * The first move of the game: on the opening board, once play has started, white's man
   * on c3 steps to d4; the move is accepted, lands a man on d4, empties c3 and passes the
   * turn.
   */
  lemma OpeningMoveAccepted(st: RoomState, now: int)
    requires st.board == InitialBoard && Status(st) == Playing
    ensures var (next, verdict) := Move(st, ["c3", "d4"], st.whiteId, now);
            verdict == Legal && next.currentTurn == Opponent(st.currentTurn) &&
            At(next.board, Coord(4, 3)) == ManSymbol(White) && At(next.board, Coord(5, 2)) == EmptyCell
  {
    var cmds := OpeningStep();
    MoveOutcome(st, ["c3", "d4"], st.whiteId, now);
    ApplyCell(st.board, cmds, White, Coord(4, 3));
    ApplyCell(st.board, cmds, White, Coord(5, 2));
  }

  /** c3 d4 reads as the squares (5, 2) and (4, 3), a legal simple step for white's man. */
  lemma OpeningStep() returns (cmds: seq<Coord>)
    ensures ParseCoords(["c3", "d4"]) == Some(cmds) && cmds == [Coord(5, 2), Coord(4, 3)]
    ensures IsValidPiece(White, At(InitialBoard, cmds[0]))
    ensures Validate(InitialBoard, cmds, At(InitialBoard, cmds[0]), White) == Legal
  {
    InitialBoardSymbols();
    cmds := [Coord(5, 2), Coord(4, 3)];
    var ts := ["c3", "d4"];
    assert ParseCoord(ts[0]) == Some(cmds[0]) && ParseCoord(ts[1]) == Some(cmds[1]);
    var r := ParseCoords(ts);
    assert r.Some? && |r.value| == 2;
    assert r.value[0] == cmds[0] && r.value[1] == cmds[1];
    assert r.value == cmds;
    SimpleMoveLegalIff(InitialBoard, cmds, At(InitialBoard, cmds[0]), White);
  }

  /**
   * The draw handshake: a request raises the asker's flag once; until the other side
   * agrees, only the asker can take it back; once both agree the game is a draw and
   * neither can withdraw.
   */
  lemma DrawNegotiation(st: RoomState, asker: Uuid, other: Uuid)
    requires WellFormed(st) && st.whiteId != st.blackId
    requires (asker == st.whiteId && other == st.blackId) || (asker == st.blackId && other == st.whiteId)
    requires !st.whiteWantsDraw && !st.blackWantsDraw
    ensures var (s1, ok1) := RequestDraw(st, asker);
            ok1 && RequestDraw(s1, asker) == (s1, false) &&
            CancelDraw(s1, other) == (s1, false) && CancelDraw(s1, asker) == (st, true) &&
            var (s2, ok2) := RequestDraw(s1, other);
            ok2 && s2.whiteWantsDraw && s2.blackWantsDraw &&
            (st.gameStarted ==> Status(s2) == Draw) &&
            CancelDraw(s2, asker) == (s2, false) && CancelDraw(s2, other) == (s2, false)
  {
  }

  /**
   * The clock is not restarted when the game starts: the first debit after both players
   * have joined counts from the room's creation.
   */
  lemma FirstDebitCountsFromCreation(roomId: Uuid, whiteId: Uuid, blackId: Uuid, created: int, now: int)
    requires whiteId != blackId
    ensures var st1 := Join(Initial(roomId, whiteId, blackId, created), roomId, whiteId).0;
            var st2 := Join(st1, roomId, blackId).0;
            Snapshot(st2, now).0.whiteMillis == Max(InitialMillis - (now - created), 0) &&
            Snapshot(st2, now).0.blackMillis == InitialMillis
  {
  }
}
