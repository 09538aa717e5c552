# Socket checkers server: rooms, rules and the command protocol, in Dafny

The server runs two-player checkers matches over a line-based text protocol. A client
creates a room or joins one with a room id and a colour token. It then sends `GET_STATE`,
`MOVE <square> <square> ...`, `LEAVE`, `REQUEST_A_DRAW` or `CANCEL_DRAW_REQUEST`, and
gets one reply line per command. This project models the two classes that do the work:

- `GameRoom`: one match. It holds an 8×8 board of `char`s, two clocks, the turn, the draw
  flags, presence flags and the started flag. It validates moves (simple steps, jump
  chains with the obligation to keep jumping, promotion) and writes the text snapshot.
- `ClientHandler.processCommand`: the per-connection state machine. An unbound client may
  JOIN or CREATE. A bound client sends room commands. The room registry is shared.

The modules:

| module | file | what it holds |
|---|---|---|
| `Wrappers` | wrappers.dfy | `Option` |
| `Text` | text.dfy | `startsWith`, `split(" ")`, the decimal text of a `long` and its parser |
| `Uuids` | uuids.dfy | a UUID as a 128-bit number, its canonical 8-4-4-4-12 text and a parser for it |
| `Rules` | rules.dfy | board, squares, `convertIntoArrayCommand`, `validateMove`, `validateSingleJump`, `finalizeMove` on a board value, `didEnemyLose` |
| `RoomSpec` | room_spec.dfy | one room as a value (`RoomState`) with every `GameRoom` operation as a function, a snapshot decoder, the room invariant and scenario lemmas |
| `Game` | game_room.dfy | class `GameRoom` (fields, an `array2<char>` board, methods proved against `RoomSpec`) and class `Registry`, the shared map from room id to room |
| `Protocol` | protocol.dfy | `processCommand` as a function `Step` over a session and a map of room values, with what a command promises |
| `Server` | client_handler.dfy | class `ClientHandler` with its session, running flag and registry; `ProcessCommand` is proved equal to `Step` |

Each imperative method is tied to a specification function over values:
- `GameRoom.Move` satisfies `(Abs(), v) == RoomSpec.Move(old(Abs()), ...)`.
- `ClientHandler.ProcessCommand` is `Protocol.Step` of the old session and registry contents.

The lemmas in `RoomSpec`, `Rules` and `Protocol` state what those functions promise.

Where the code and its written description differ, the model follows the code:

- **No turn check.** `move` derives the mover's colour from the token and never looks at
  `currentTurn`, so either player may move at any time (GameRoom.java:166-205).
  `RoomSpec.MoveIgnoresTurn` states this.
- **King jump chains throw.** For a king, `validateMove` calls `add` on the fixed-size list
  that `Arrays.asList` returns (GameRoom.java:275-279), so no king jump chain is ever
  accepted. A chain whose steps all validate throws instead. The session loop answers
  that exception with `SERVER_ERROR`, and the room is left unchanged.
- **Kings can lose their crown.** `finalizeMove` writes the man symbol on any last square
  off the promotion row (GameRoom.java:352-360), even when the piece moved was a king.
- **The draw-accepted reply reads `DRAFT_OK`** (ServerCodes.java:12).
- **The fallback replies carry a suffix.** They are `INVALID_SYNTAX - please ...`, not a bare
  `INVALID_SYNTAX` (ClientHandler.java:126, 178).
- **The clock starts at room creation.** The debit time is not reset when the game
  starts, so the first debit counts from the room's creation
  (`RoomSpec.FirstDebitCountsFromCreation`).
- **`QUIT` still goes through dispatch.** It clears the running flag and is then answered
  with the fallback reply of the client's state (`Protocol.QuitFallsThrough`).

Inputs:
- The current time is an argument `now`, in milliseconds.
- The fresh room id and colour tokens, and the random choice of the creator's colour, are
  fields of `Protocol.Env`.
- `UUID.fromString` is the function `Env.parseUuid`. The scenario lemma
  `Protocol.CreateThenJoin` instantiates it with the canonical parser `Uuids.ParseUuidText`.

## Model

| member | source | states |
|---|---|---|
| Game.GameRoom.constructor | src/main/java/wnukowski/damian/game/GameRoom.java:14-46 | A new room has both clocks at ten minutes, white to move, no draw flag, nobody present, the game not started and the opening board. The registry files it under its own id and keeps every other room. |
| Game.GameRoom.Join | src/main/java/wnukowski/damian/game/GameRoom.java:48-68 | The fields after `join` and its answer are `RoomSpec.Join` of the fields before. |
| Game.GameRoom.Leave | src/main/java/wnukowski/damian/game/GameRoom.java:70-82 | The fields after `leave` are `RoomSpec.Leave` of the fields before. The registry drops the room exactly when both seats are then free, and keeps it otherwise. |
| Game.GameRoom.RequestADraw | src/main/java/wnukowski/damian/game/GameRoom.java:84-99 | The fields and the answer are `RoomSpec.RequestDraw` of the fields before. |
| Game.GameRoom.CancelDrawRequest | src/main/java/wnukowski/damian/game/GameRoom.java:101-118 | The fields and the answer are `RoomSpec.CancelDraw` of the fields before. |
| Game.GameRoom.UpdateTime | src/main/java/wnukowski/damian/game/GameRoom.java:390-406 | The fields after the debit are `RoomSpec.UpdateTime` of the fields before. |
| Game.GameRoom.GetGameState | src/main/java/wnukowski/damian/game/GameRoom.java:142-160 | Answers `RoomSpec.Status` of the room and changes nothing. Its five cases are characterised by `RoomSpec.StatusCases`. |
| Game.GameRoom.SetPiece | src/main/java/wnukowski/damian/game/GameRoom.java:367-369 | The board array afterwards is the old board with one square overwritten. |
| Game.GameRoom.FinalizeMove | src/main/java/wnukowski/damian/game/GameRoom.java:341-361 | The in-place loop over the array leaves exactly the board `Rules.Apply` computes from the old one. |
| Game.GameRoom.Move | src/main/java/wnukowski/damian/game/GameRoom.java:166-205 | The fields and board after `move` and its verdict (accepted, refused or thrown) are `RoomSpec.Move` of the room before. |
| Game.GameRoom.GetWholeRoomStateAsString | src/main/java/wnukowski/damian/game/GameRoom.java:120-140 | Debits the clock and returns the text of the debited room: `RoomSpec.Snapshot`. |
| Game.GameRoom.AppendCells | src/main/java/wnukowski/damian/game/GameRoom.java:133-137 | The nested loop appends the 64 cells row by row to the prefix. |
| Game.Registry.Register | src/main/java/wnukowski/damian/game/GameRoom.java:44 | Filing a room puts it under its own id and keeps every other room and board as they were. |
| Game.Registry.JoinAt | src/main/java/wnukowski/damian/server/ClientHandler.java:92-93 | `join` on the room filed under the id: its answer and the new room are `RoomSpec.Join` of that room, and no other room changes. |
| Game.Registry.SnapshotAt | src/main/java/wnukowski/damian/server/ClientHandler.java:130-134 | The snapshot text of the filed room is `RoomSpec.Snapshot`; only that room's clock debit is kept. |
| Game.Registry.MoveAt | src/main/java/wnukowski/damian/server/ClientHandler.java:137-139 | `move` on the filed room: its verdict and new room are `RoomSpec.Move` of that room, and no other room or board changes. |
| Game.Registry.RequestDrawAt | src/main/java/wnukowski/damian/server/ClientHandler.java:158-165 | `requestADraw` on the filed room: its answer and new room are `RoomSpec.RequestDraw`, and no other room changes. |
| Game.Registry.CancelDrawAt | src/main/java/wnukowski/damian/server/ClientHandler.java:169-176 | `cancelDrawRequest` on the filed room: its answer and new room are `RoomSpec.CancelDraw`, and no other room changes. |
| Game.Registry.LeaveAt | src/main/java/wnukowski/damian/game/GameRoom.java:70-82 | `leave` on the filed room applies `RoomSpec.Leave`. The room is removed from the registry exactly when both seats are then free, and kept with its new state otherwise. |
| Rules.ParseCoordIff | src/main/java/wnukowski/damian/game/GameRoom.java:236-254 | A token parses to a square exactly when the square is on the board and the token is its two-character notation, so `a1` is row 7, column 0. |
| Rules.ParseCoords | src/main/java/wnukowski/damian/game/GameRoom.java:176-183 | The token list is accepted exactly when every token parses, and then gives each token's square in order. |
| Rules.ValidateMove | src/main/java/wnukowski/damian/game/GameRoom.java:256-313 | The loops over the chain and over the follow-up squares compute `Rules.Validate`: accepted, refused or thrown. |
| Rules.SimpleMoveLegalIff | src/main/java/wnukowski/damian/game/GameRoom.java:295-312 | A move whose first step is not two rows long is accepted exactly when it is two squares forming one diagonal step (forward, or either way for a king) from the mover's piece onto an empty square. It never throws. |
| Rules.ManChainLegalIff | src/main/java/wnukowski/damian/game/GameRoom.java:259-292 | A man's jump chain is accepted exactly when every step is a single jump and no further forward jump is open from the last square. It never throws. |
| Rules.KingChainNeverLegal | src/main/java/wnukowski/damian/game/GameRoom.java:271-279 | A king's jump chain is never accepted. It throws exactly when every step is a single jump. |
| Rules.ManJumpIsFollowUp | src/main/java/wnukowski/damian/game/GameRoom.java:267-270 | Every jump a man can make lands on one of the two probed follow-up squares, so the probe misses no forward jump. |
| Rules.ChainMustBeCompleted | src/main/java/wnukowski/damian/game/GameRoom.java:281-292 | A man's chain that stops where a jump is still open is refused. The chain extended by that jump is accepted once no jump is open after it. |
| Rules.ApplyCell | src/main/java/wnukowski/damian/game/GameRoom.java:341-361 | After an applied move, the last square holds the landing symbol, the start square and every jumped-over square are empty, and every other square is unchanged. |
| Rules.ApplyKeepsSymbols | src/main/java/wnukowski/damian/game/GameRoom.java:341-361 | An applied move keeps the board to the five cell symbols. |
| Rules.LandingPromotion | src/main/java/wnukowski/damian/game/GameRoom.java:351-360 | The mover gets a king on the last square exactly when it is the far row, and a man otherwise, whatever piece moved. |
| Rules.DidEnemyLose | src/main/java/wnukowski/damian/game/GameRoom.java:371-387 | The row scan with its inner `break` answers exactly "no symbol of that colour on the board, or its clock at or below zero". |
| Rules.InitialBoardSymbols | src/main/java/wnukowski/damian/game/GameRoom.java:28-38 | The opening board has eight rows of eight cells, all of them among the five cell symbols. |
| RoomSpec.JoinOutcome | src/main/java/wnukowski/damian/game/GameRoom.java:48-68 | A join succeeds exactly for this room's id and a colour whose seat is free. It then takes that seat only and starts the game once both seats are taken. A refused join changes nothing. |
| RoomSpec.LeaveOutcome | src/main/java/wnukowski/damian/game/GameRoom.java:70-76 | Leaving frees exactly the seats whose token matches and changes nothing else. |
| RoomSpec.DrawOutcome | src/main/java/wnukowski/damian/game/GameRoom.java:84-118 | A draw request succeeds exactly when the caller's flag is down, and raises it. A cancellation succeeds exactly when the caller's flag is up and the other's is not, and lowers it. A refusal changes nothing, and no other field ever changes. |
| RoomSpec.StatusCases | src/main/java/wnukowski/damian/game/GameRoom.java:142-160 | The status is waiting iff the game has not started, and a draw iff both flags are up. It is white won or black won by pieces and clocks, with a black loss reported first, and playing otherwise, each stated in both directions. |
| RoomSpec.ClockAccounting | src/main/java/wnukowski/damian/game/GameRoom.java:390-406 | Before the game starts the debit changes nothing. Afterwards only the clock of the side to move goes down, by the time elapsed and never below zero, and the debit time becomes `now`. |
| RoomSpec.MoveOutcome | src/main/java/wnukowski/damian/game/GameRoom.java:166-205 | A move that fails the early checks (status, at least two squares, every square parses, the mover's own piece first) changes nothing, and neither does one that throws. Otherwise the clock is debited. An accepted move applies the squares and flips the turn once; a refused one keeps board and turn. |
| RoomSpec.MoveIgnoresTurn | src/main/java/wnukowski/damian/game/GameRoom.java:166-191 | The verdict of a move does not depend on whose turn the room records. |
| RoomSpec.KingJumpThrows | src/main/java/wnukowski/damian/game/GameRoom.java:275-279 | A king's valid jump chain makes `move` throw with the room untouched. |
| RoomSpec.SnapshotTextIsWords | src/main/java/wnukowski/damian/game/GameRoom.java:120-140 | The snapshot text is its nine `KEY=value` words joined by single spaces, in the order STATE, PLAYER_TURN, WHITE_WANTS_DRAW, BLACK_WANTS_DRAW, BLACK_TIME, WHITE_TIME, WHITE_ONLINE, BLACK_ONLINE, BOARD. |
| RoomSpec.SnapshotRoundTrip | src/main/java/wnukowski/damian/game/GameRoom.java:120-140 | A client that splits the snapshot at spaces and parses each field recovers the status, turn, draw flags, both clocks, presence flags and the whole board. |
| RoomSpec.InitialInvariant | src/main/java/wnukowski/damian/game/GameRoom.java:14-46 | A new room satisfies the room invariant: a board of the five symbols, clocks not negative, and a started game when both players are present. |
| RoomSpec.PresenceKeepsInvariant | src/main/java/wnukowski/damian/game/GameRoom.java:48-82 | Joining and leaving keep the invariant and never un-start a game. |
| RoomSpec.ClockAndDrawKeepInvariant | src/main/java/wnukowski/damian/game/GameRoom.java:84-140 | The clock debit, the snapshot and the draw operations keep the invariant. |
| RoomSpec.MoveKeepsInvariant | src/main/java/wnukowski/damian/game/GameRoom.java:166-205 | Every move, whatever its verdict, keeps the invariant and never un-starts a game. |
| RoomSpec.MoveKeepsSeats | src/main/java/wnukowski/damian/game/GameRoom.java:15-17 | A move never changes the room id or the two colour tokens, which are final fields. |
| RoomSpec.GameLifecycle | src/main/java/wnukowski/damian/game/GameRoom.java:48-82 | On a new room, white then black join. The room waits until both are in and is then played. Neither seat can be taken twice, one player leaving does not end the game, and the room is vacant once both have left. |
| RoomSpec.SecondJoinStartsGame | src/main/java/wnukowski/damian/game/GameRoom.java:48-68 | Whichever seat is taken first, the second join is accepted and starts the game. |
| RoomSpec.OpeningMoveAccepted | src/main/java/wnukowski/damian/game/GameRoom.java:166-205 | On the opening board in play, white's `c3 d4` is accepted. It lands a man on d4, empties c3 and passes the turn. |
| RoomSpec.DrawNegotiation | src/main/java/wnukowski/damian/game/GameRoom.java:84-118 | A request raises the asker's flag once. Until the other side agrees, only the asker can withdraw it. Once both agree the game is drawn and neither can withdraw. |
| RoomSpec.FirstDebitCountsFromCreation | src/main/java/wnukowski/damian/game/GameRoom.java:14 | The first debit after both players join counts from the room's creation, because the debit time is not reset at the start. |
| Text.SplitJoinWords | src/main/java/wnukowski/damian/server/ClientHandler.java:85 | `split(" ")` of words joined by single spaces gives back the words, when none holds a space and the last is not empty. |
| Text.IntTextRoundTrip | src/main/java/wnukowski/damian/game/GameRoom.java:127-128 | The decimal text of a clock value parses back to the value. |
| Uuids.UuidTextRoundTrip | src/main/java/wnukowski/damian/server/ClientHandler.java:114-116 | The canonical text of a UUID parses back to the UUID. |
| Server.ClientHandler.constructor | src/main/java/wnukowski/damian/server/ClientHandler.java:22-36 | A new handler is unbound and running, over the shared registry. |
| Server.ClientHandler.ProcessCommand | src/main/java/wnukowski/damian/server/ClientHandler.java:76-180 | The session, running flag, registry contents and reply after one command are `Protocol.Step` of those before. |
| Server.ClientHandler.DispatchCommand | src/main/java/wnukowski/damian/server/ClientHandler.java:83-179 | The branch on the session and the command prefix: session, registry contents and reply are `Protocol.Dispatch` of those before. |
| Server.ClientHandler.GetState | src/main/java/wnukowski/damian/server/ClientHandler.java:129-135 | The registry and reply are `Protocol.GetStateCommand` of the registry before. |
| Server.ClientHandler.JoinRoom | src/main/java/wnukowski/damian/server/ClientHandler.java:84-103 | The session, registry and reply are `Protocol.JoinCommand` of the registry before. |
| Server.ClientHandler.CreateRoom | src/main/java/wnukowski/damian/server/ClientHandler.java:104-125 | The new room is registered with its creator seated, the session is bound to it, and the reply is `Protocol.CreateCommand`'s. |
| Server.ClientHandler.MakeMove | src/main/java/wnukowski/damian/server/ClientHandler.java:136-145 | The registry and reply are `Protocol.MoveCommand` of the registry before, with `SERVER_ERROR` where the code throws. |
| Server.ClientHandler.LeaveRoom | src/main/java/wnukowski/damian/server/ClientHandler.java:146-155 | The session, registry and reply are `Protocol.LeaveCommand` of the registry before. |
| Server.ClientHandler.RequestADraw | src/main/java/wnukowski/damian/server/ClientHandler.java:157-166 | The registry and reply are `Protocol.RequestDrawCommand` of the registry before. |
| Server.ClientHandler.CancelDrawRequest | src/main/java/wnukowski/damian/server/ClientHandler.java:168-177 | The registry and reply are `Protocol.CancelDrawCommand` of the registry before. |
| Protocol.StepKeepsRooms | src/main/java/wnukowski/damian/server/ClientHandler.java:76-180 | Every command keeps every open room filed under its own id and within the room invariant. When a created room's id is fresh, no open room changes its id or its colour tokens. |
| Protocol.StepIsLocal | src/main/java/wnukowski/damian/server/ClientHandler.java:83-179 | The session changes exactly when an unbound client joins (`ROOM_JOINED`) or creates a room, or a bound one leaves (`ROOM_LEFT`). At most the session's own room changes, and only a created room is ever added. |
| Protocol.UnboundCommandBinds | src/main/java/wnukowski/damian/server/ClientHandler.java:83-126 | An unbound client becomes bound exactly on `ROOM_JOINED` or `CREATE`. It then holds a token of that room, and no other room changes. A client that stays unbound changes no room and never gets `SERVER_ERROR`. |
| Protocol.BoundCommandStaysHome | src/main/java/wnukowski/damian/server/ClientHandler.java:127-179 | A bound session changes only by leaving, which unbinds it. No room but its own changes and no room is opened. |
| Protocol.ServerErrorChangesNothing | src/main/java/wnukowski/damian/server/ClientHandler.java:136-145 | `SERVER_ERROR` changes neither the session nor any room, and comes only from a bound session. For a client whose token belongs to its room, it comes only from a `MOVE` whose room is closed or which is a king's jump chain. |
| Protocol.JoinReplies | src/main/java/wnukowski/damian/server/ClientHandler.java:84-103 | `JOIN` answers `INVALID_SYNTAX` exactly when the command is not three words or either id fails to parse, `ROOM_JOINED` exactly when it is well formed, the room is open and `join` accepts, and `ROOM_NOT_FOUND` exactly in the remaining cases. |
| Protocol.GetStateReplies | src/main/java/wnukowski/damian/server/ClientHandler.java:129-135 | `GET_STATE` answers `ROOM_NOT_FOUND` exactly when the room is closed, and otherwise `STATUS_OK` followed by the room's snapshot. |
| Protocol.MoveReplies | src/main/java/wnukowski/damian/server/ClientHandler.java:136-145 | `MOVE` gives `SERVER_ERROR` exactly when the room is closed, the token is foreign or the move throws. Otherwise it answers `MOVE_OK` exactly when the verdict is accepted and `MOVE_FAIL` with its hint exactly when it is refused. |
| Protocol.LeaveReplies | src/main/java/wnukowski/damian/server/ClientHandler.java:146-155 | `LEAVE` answers `ROOM_NOT_FOUND` exactly when the room is closed, and then the session stays bound and nothing changes. Otherwise it answers `ROOM_LEFT` and unbinds the session. |
| Protocol.DrawReplies | src/main/java/wnukowski/damian/server/ClientHandler.java:157-177 | Both draw commands answer `ROOM_NOT_FOUND` exactly when the room is closed. For a member, the request answers `DRAFT_OK` exactly when `requestADraw` accepts and `DRAW_FAIL` otherwise; the cancellation answers `DRAW_CANCEL_OK` exactly when `cancelDrawRequest` accepts and `DRAW_CANCEL_FAIL` otherwise. |
| Protocol.UnboundFallbackReplies | src/main/java/wnukowski/damian/server/ClientHandler.java:104-126 | For an unbound client, a line starting with `CREATE` that is not exactly `CREATE` (and does not start with `JOIN`) is answered `INVALID_SYNTAX`. A line starting with neither `JOIN` nor `CREATE` gets the unbound fallback reply. Neither changes the session or a room, and the fallback comes from no other line. |
| Protocol.BoundFallbackReplies | src/main/java/wnukowski/damian/server/ClientHandler.java:178 | For a bound client, a line that is none of `GET_STATE`, `MOVE...`, `LEAVE`, `REQUEST_A_DRAW` and `CANCEL_DRAW_REQUEST` gets the bound fallback reply and changes nothing, and no other line gets that reply. |
| Protocol.StepKeepsMembership | src/main/java/wnukowski/damian/server/ClientHandler.java:76-180 | A client's colour token keeps belonging to its room through any command, its own or another client's, as long as created room ids are fresh. |
| Protocol.QuitFallsThrough | src/main/java/wnukowski/damian/server/ClientHandler.java:79-81 | `QUIT` clears the running flag and is answered with the fallback reply of the client's state, changing nothing else. |
| Protocol.CreatedReplyRoundTrip | src/main/java/wnukowski/damian/server/ClientHandler.java:114-123 | A client reading the `ROOM_CREATED` reply recovers the room id, its own token and the opponent's token. |
| Protocol.CreateThenJoin | src/main/java/wnukowski/damian/server/ClientHandler.java:84-125 | After `CREATE`, the opponent's `JOIN` with the ids from the reply is accepted. It binds the opponent to the room, and the game is being played. |

Members without a row are proof helpers: the per-command pieces of the protocol lemmas (`...KeepsRooms`, `...StaysHome`, `...Binds`, `...FallbackOnly`), the field-by-field pieces of the snapshot round trip and the text layout lemmas, the specification functions the rows refer to, and the map identities `Server.OverwriteTwice` and `Server.RefileUnchanged`, which keep map reasoning out of the heap-heavy handler methods.

## Left out

- The read-reply loop, the socket and its charset, and the leave on disconnect in `finally` (ClientHandler.java:38-71) are I/O around `processCommand`. `ProcessCommand` models one turn of that loop, with its catch-all for exceptions as the `ServerError` outcome.
- Logging is not modelled: it has no effect on state or replies.
- `synchronized` and the threads of several clients are not modelled. Each room operation is atomic here, and clients interleave only as a sequence of whole `Step`s. `Protocol.StepKeepsMembership` covers another client's command.
- `LocalDateTime.now()` is the argument `now`, the same value for both calls inside one `updateTime`. `Duration.toMillis` is the difference of two millisecond values.
- `UUID.randomUUID` and `Random.nextBoolean` are inputs in `Protocol.Env`. Fresh ids are assumed only where a lemma says so.
- `UUID.fromString` is a parameter (`Env.parseUuid`). Its leniency towards short hexadecimal groups is not modelled.
- `ClientState` and `ServerState` are not part of this model. The session is the datatype `Protocol.Session`, and the registry is `Game.Registry`, a map from room id to room.
- `Server.java`, which accepts connections and starts handlers, is not part of this model.
- Integer widths are not modelled: clocks are unbounded integers, so the `long` clocks cannot overflow here.
- `Integer.parseInt` on the rank character also accepts non-ASCII Unicode digits. Only `'0'`–`'9'` are modelled as digits.
- Game.GameRoom.RequestADraw: requires the token to be one of the room's. For a foreign token, `getColorForUUID` throws; that case is modelled one level up, where `Protocol.RequestDrawCommand` answers `ServerError`.
- Game.GameRoom.CancelDrawRequest: requires the token to be one of the room's. The foreign-token exception is modelled as `ServerError` in `Protocol.CancelDrawCommand`.
- Game.GameRoom.Move: requires the token to be one of the room's. The foreign-token exception is modelled as `ServerError` in `Protocol.MoveCommand`. The exception from a king's jump chain is the verdict `Throws`, with the room unchanged.
- Server.ClientHandler.MakeMove: a missing room, which makes the code throw a `NullPointerException`, is checked and answered `ServerError` without calling the room.
