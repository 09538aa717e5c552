/**
 * The checkers rules of GameRoom: piece symbols, the 8x8 board as a value, the
 * coordinate notation of MOVE commands, validation of a simple step or a jump chain
 * (validateMove, validateSingleJump), the board update of an accepted move
 * (finalizeMove) and the elimination test behind the game status (didEnemyLose).
 * Row 0 is the top row (rank 8, black's side); row 7 is rank 1 (white's side).
 */
module Rules {
  import opened Wrappers

  datatype Color = White | Black

  function Opponent(c: Color): Color {
    if c == White then Black else White
  }

  /** `Color.piecesSymbols[0]`: the man. */
  function ManSymbol(c: Color): char {
    if c == White then 'w' else 'b'
  }

  /** `Color.piecesSymbols[1]`: the king. */
  function KingSymbol(c: Color): char {
    if c == White then 'W' else 'B'
  }

  /** `Color.isValidPiece`: the symbol is one of this colour's two symbols. */
  predicate IsValidPiece(c: Color, piece: char) {
    piece == ManSymbol(c) || piece == KingSymbol(c)
  }

  /** `Character.isUpperCase` on the ASCII letters; of the piece symbols, exactly the kings. */
  predicate IsUpperCase(ch: char) {
    'A' <= ch <= 'Z'
  }

  const EmptyCell: char := '0'

  /** The `char[8][8]` board as a value, row by row. */
  type Board = seq<seq<char>>

  predicate IsBoard(b: Board) {
    |b| == 8 && forall r :: 0 <= r < 8 ==> |b[r]| == 8
  }

  /** Twelve men per side on the dark squares, black on rows 0-2 and white on rows 5-7. */
  const InitialBoard: Board := [
    "0b0b0b0b",
    "b0b0b0b0",
    "0b0b0b0b",
    "00000000",
    "00000000",
    "w0w0w0w0",
    "0w0w0w0w",
    "w0w0w0w0"
  ]

  /** Every square holds '0' or one of the four piece symbols. */
  predicate OnlyPieceSymbols(b: Board)
    requires IsBoard(b)
  {
    forall r, c :: 0 <= r < 8 && 0 <= c < 8 ==>
      b[r][c] == EmptyCell || IsValidPiece(White, b[r][c]) || IsValidPiece(Black, b[r][c])
  }

  /** A square as GameRoom holds it, an `int[] {row, column}`. */
  datatype Coord = Coord(row: int, col: int)

  predicate InBounds(p: Coord) {
    0 <= p.row < 8 && 0 <= p.col < 8
  }

  predicate AllInBounds(ps: seq<Coord>) {
    forall i :: 0 <= i < |ps| ==> InBounds(ps[i])
  }

  function At(b: Board, p: Coord): char
    requires IsBoard(b) && InBounds(p)
  {
    b[p.row][p.col]
  }

  function SetCell(b: Board, p: Coord, ch: char): (r: Board)
    requires IsBoard(b) && InBounds(p)
    ensures IsBoard(r)
  {
    b[p.row := b[p.row][p.col := ch]]
  }

  // ---------------------------------------------------------------- coordinates

  /**
   * convertIntoArrayCommand: "<file><rank>" becomes (8 - rank, file - 'a'); a token that
   * is not two characters long, whose rank is not a digit, or that falls off the board
   * is refused.
   */
  function ParseCoord(t: string): (p: Option<Coord>)
    ensures p.Some? ==> InBounds(p.value)
  {
    if |t| != 2 then None
    else if !('0' <= t[1] <= '9') then None
    else
      var row := 8 - (t[1] as int - '0' as int);
      var col := t[0] as int - 'a' as int;
      if row > 7 || row < 0 || col > 7 || col < 0 then None else Some(Coord(row, col))
  }

  /** The notation of a square, as a client writes it in a MOVE command. */
  function CoordText(p: Coord): string
    requires InBounds(p)
  {
    [('a' as int + p.col) as char, ('0' as int + 8 - p.row) as char]
  }

  /** A token parses to a square exactly when it is that square's notation (so a1 is (7, 0)). */
  lemma ParseCoordIff(t: string, p: Coord)
    ensures ParseCoord(t) == Some(p) <==> InBounds(p) && t == CoordText(p)
  {
    if ParseCoord(t) == Some(p) {
      assert t == [t[0], t[1]];
    }
  }

  /** The stream map/filter of `move`: every token must parse, or the whole list is refused. */
  function ParseCoords(ts: seq<string>): (r: Option<seq<Coord>>)
    ensures r.Some? <==> forall i :: 0 <= i < |ts| ==> ParseCoord(ts[i]).Some?
    ensures r.Some? ==> |r.value| == |ts| && AllInBounds(r.value)
    ensures r.Some? ==> forall i :: 0 <= i < |ts| ==> ParseCoord(ts[i]) == Some(r.value[i])
  {
    if ts == [] then Some([])
    else
      match ParseCoord(ts[0])
      case None => None
      case Some(p) =>
        match ParseCoords(ts[1..])
        case None => None
        case Some(ps) => Some([p] + ps)
  }

  // ---------------------------------------------------------------- validation

  function AbsInt(x: int): nat {
    if x < 0 then -x else x
  }

  /** The row change of a man's jump: white moves up the board, black down. */
  function JumpRows(mover: Color): int {
    if mover == White then -2 else 2
  }

  /** The row change of a man's simple step. */
  function StepRows(mover: Color): int {
    if mover == White then -1 else 1
  }

  /** The square jumped over (both coordinates are non-negative, so `/` truncates as in Java). */
  function Midpoint(a: Coord, b: Coord): Coord {
    Coord((a.row + b.row) / 2, (a.col + b.col) / 2)
  }

  /**
   * validateSingleJump: two columns sideways, two rows forward for a man or two rows
   * either way for a king, an opposing piece in between and an empty landing square.
   * `piece` is the symbol on the move's first square, not the symbol at `from`.
   */
  predicate IsSingleJump(b: Board, from: Coord, to: Coord, piece: char, mover: Color)
    requires IsBoard(b) && InBounds(from) && InBounds(to)
  {
    AbsInt(from.col - to.col) == 2 &&
    (if IsUpperCase(piece) then AbsInt(to.row - from.row) == 2 else to.row - from.row == JumpRows(mover)) &&
    IsValidPiece(mover, piece) &&
    IsValidPiece(Opponent(mover), At(b, Midpoint(from, to))) &&
    At(b, to) == EmptyCell
  }

  predicate AllSingleJumps(b: Board, cmds: seq<Coord>, piece: char, mover: Color)
    requires IsBoard(b) && AllInBounds(cmds)
  {
    forall i :: 0 <= i < |cmds| - 1 ==> IsSingleJump(b, cmds[i], cmds[i + 1], piece, mover)
  }

  /** The two squares a man could still jump to from `last` (the king's two are never probed). */
  function FollowUps(last: Coord, mover: Color): seq<Coord> {
    [Coord(last.row + JumpRows(mover), last.col + 2), Coord(last.row + JumpRows(mover), last.col - 2)]
  }

  predicate OpenJump(b: Board, from: Coord, to: Coord, piece: char, mover: Color)
    requires IsBoard(b) && InBounds(from)
  {
    InBounds(to) && IsSingleJump(b, from, to, piece, mover)
  }

  /** One of the follow-up squares is a legal further jump: the chain stopped too early. */
  predicate CanJumpFurther(b: Board, last: Coord, piece: char, mover: Color)
    requires IsBoard(b) && InBounds(last)
  {
    OpenJump(b, last, FollowUps(last, mover)[0], piece, mover) ||
    OpenJump(b, last, FollowUps(last, mover)[1], piece, mover)
  }

  /** A one-square diagonal step: forward for anyone, either way for a king. */
  predicate IsSimpleStep(start: Coord, dest: Coord, piece: char, mover: Color) {
    (dest.row - start.row == StepRows(mover) && AbsInt(dest.col - start.col) == 1) ||
    (IsUpperCase(piece) && AbsInt(dest.col - start.col) == 1 && AbsInt(dest.row - start.row) == 1)
  }

  /** What validateMove does: return true, return false, or throw. */
  datatype Verdict = Legal | Illegal | Throws

  /**
   * validateMove. A first step of two rows makes the move a jump chain: every step must be
   * a single jump on the board as it is before the move, a king then reaches the `add` on
   * the fixed-size list of follow-up squares and throws, and a man must not be able to jump
   * further. Otherwise the move is a single simple step onto an empty square.
   */
  function Validate(b: Board, cmds: seq<Coord>, piece: char, mover: Color): Verdict
    requires IsBoard(b) && |cmds| >= 2 && AllInBounds(cmds)
  {
    if AbsInt(cmds[1].row - cmds[0].row) == 2 then
      if !AllSingleJumps(b, cmds, piece, mover) then Illegal
      else if IsUpperCase(piece) then Throws
      else if CanJumpFurther(b, cmds[|cmds| - 1], piece, mover) then Illegal
      else Legal
    else if |cmds| > 2 then Illegal
    else if IsSimpleStep(cmds[0], cmds[1], piece, mover) then
      if IsValidPiece(mover, At(b, cmds[0])) && At(b, cmds[1]) == EmptyCell then Legal else Illegal
    else Illegal
  }

  /** validateMove as GameRoom runs it: a loop over the steps, then over the follow-ups. */
  method ValidateMove(b: Board, cmds: seq<Coord>, piece: char, mover: Color) returns (v: Verdict)
    requires IsBoard(b) && |cmds| >= 2 && AllInBounds(cmds)
    ensures v == Validate(b, cmds, piece, mover)
  {
    var verticalDifference := JumpRows(mover);
    var isQueen := IsUpperCase(piece);
    if AbsInt(cmds[1].row - cmds[0].row) == 2 {
      for i := 0 to |cmds| - 1
        invariant forall j :: 0 <= j < i ==> IsSingleJump(b, cmds[j], cmds[j + 1], piece, mover)
      {
        if !IsSingleJump(b, cmds[i], cmds[i + 1], piece, mover) {
          return Illegal;
        }
      }
      var last := cmds[|cmds| - 1];
      var proposed := [Coord(last.row + verticalDifference, last.col + 2),
                       Coord(last.row + verticalDifference, last.col - 2)];
      if isQueen {
        // the list from Arrays.asList has a fixed size: adding the backward squares throws
        return Throws;
      }
      for k := 0 to |proposed|
        invariant forall j :: 0 <= j < k ==> !OpenJump(b, last, proposed[j], piece, mover)
      {
        if InBounds(proposed[k]) && IsSingleJump(b, last, proposed[k], piece, mover) {
          return Illegal;
        }
      }
      return Legal;
    }
    if |cmds| > 2 {
      return Illegal;
    }
    var singleFieldMoveDifference := StepRows(mover);
    var start, dest := cmds[0], cmds[1];
    if (dest.row - start.row == singleFieldMoveDifference && AbsInt(dest.col - start.col) == 1) ||
       (isQueen && AbsInt(dest.col - start.col) == 1 && AbsInt(dest.row - start.row) == 1)
    {
      v := if IsValidPiece(mover, At(b, start)) && At(b, dest) == EmptyCell then Legal else Illegal;
      return;
    }
    return Illegal;
  }

  /**
   * A move whose first step is not a two-row step is legal exactly when it is one simple
   * step from the mover's piece onto an empty square.
   */
  lemma SimpleMoveLegalIff(b: Board, cmds: seq<Coord>, piece: char, mover: Color)
    requires IsBoard(b) && |cmds| >= 2 && AllInBounds(cmds)
    requires AbsInt(cmds[1].row - cmds[0].row) != 2
    ensures Validate(b, cmds, piece, mover) == Legal <==>
              |cmds| == 2 && IsSimpleStep(cmds[0], cmds[1], piece, mover) &&
              IsValidPiece(mover, At(b, cmds[0])) && At(b, cmds[1]) == EmptyCell
    ensures Validate(b, cmds, piece, mover) != Throws
  {
  }

  /** A man's jump chain is legal exactly when every step is a jump and no further jump is open. */
  lemma ManChainLegalIff(b: Board, cmds: seq<Coord>, piece: char, mover: Color)
    requires IsBoard(b) && |cmds| >= 2 && AllInBounds(cmds)
    requires AbsInt(cmds[1].row - cmds[0].row) == 2 && !IsUpperCase(piece)
    ensures Validate(b, cmds, piece, mover) == Legal <==>
              AllSingleJumps(b, cmds, piece, mover) && !CanJumpFurther(b, cmds[|cmds| - 1], piece, mover)
    ensures Validate(b, cmds, piece, mover) != Throws
  {
  }

  /** No king jump chain is ever accepted: a valid one throws, any other is refused. */
  lemma KingChainNeverLegal(b: Board, cmds: seq<Coord>, piece: char, mover: Color)
    requires IsBoard(b) && |cmds| >= 2 && AllInBounds(cmds)
    requires AbsInt(cmds[1].row - cmds[0].row) == 2 && IsUpperCase(piece)
    ensures Validate(b, cmds, piece, mover) != Legal
    ensures Validate(b, cmds, piece, mover) == Throws <==> AllSingleJumps(b, cmds, piece, mover)
  {
  }

  /**
   * Every jump a man can make from a square lands on one of the two follow-up squares,
   * so the follow-up probe misses no forward jump.
   */
  lemma ManJumpIsFollowUp(b: Board, from: Coord, to: Coord, piece: char, mover: Color)
    requires IsBoard(b) && InBounds(from) && InBounds(to) && !IsUpperCase(piece)
    requires IsSingleJump(b, from, to, piece, mover)
    ensures to == FollowUps(from, mover)[0] || to == FollowUps(from, mover)[1]
  {
  }

  /**
   * Jump-chain completion: a man's chain that stops where another jump is open is refused,
   * and the chain extended by that jump is accepted once no jump is open after it.
   */
  lemma ChainMustBeCompleted(b: Board, cmds: seq<Coord>, next: Coord, piece: char, mover: Color)
    requires IsBoard(b) && |cmds| >= 2 && AllInBounds(cmds) && InBounds(next)
    requires AbsInt(cmds[1].row - cmds[0].row) == 2 && !IsUpperCase(piece)
    requires AllSingleJumps(b, cmds, piece, mover)
    requires IsSingleJump(b, cmds[|cmds| - 1], next, piece, mover)
    ensures Validate(b, cmds, piece, mover) == Illegal
    ensures !CanJumpFurther(b, next, piece, mover) ==> Validate(b, cmds + [next], piece, mover) == Legal
  {
    var last := cmds[|cmds| - 1];
    ManJumpIsFollowUp(b, last, next, piece, mover);
    assert CanJumpFurther(b, last, piece, mover);
    var longer := cmds + [next];
    assert AllInBounds(longer);
    forall i | 0 <= i < |longer| - 1
      ensures IsSingleJump(b, longer[i], longer[i + 1], piece, mover)
    {
      if i < |cmds| - 1 {
        assert longer[i] == cmds[i] && longer[i + 1] == cmds[i + 1];
      } else {
        assert longer[i] == last && longer[i + 1] == next;
      }
    }
  }

  // ---------------------------------------------------------------- board update

  /** The row on which a colour's man is crowned. */
  function PromotionRow(mover: Color): int {
    if mover == White then 0 else 7
  }

  /** The symbol written on the last square: the king on the promotion row, else the man. */
  function LandingSymbol(last: Coord, mover: Color): char {
    if last.row == PromotionRow(mover) then KingSymbol(mover) else ManSymbol(mover)
  }

  /** Step `i` (from cmds[i] to cmds[i + 1]) spans two rows and so jumps over `p`. */
  predicate JumpsOver(cmds: seq<Coord>, i: int, p: Coord)
    requires 0 <= i < |cmds| - 1
  {
    AbsInt(cmds[i].row - cmds[i + 1].row) == 2 && Midpoint(cmds[i], cmds[i + 1]) == p
  }

  /** Some of the first `n` steps jumps over `p`. */
  predicate IsCaptured(cmds: seq<Coord>, n: nat, p: Coord)
    requires n < |cmds|
  {
    exists i :: 0 <= i < n && JumpsOver(cmds, i, p)
  }

  /** The board after the first `n` iterations of finalizeMove's loop. */
  function ClearCaptured(b: Board, cmds: seq<Coord>, n: nat): (r: Board)
    requires IsBoard(b) && AllInBounds(cmds) && n < |cmds|
    ensures IsBoard(r)
  {
    if n == 0 then b
    else
      var prev := ClearCaptured(b, cmds, n - 1);
      if AbsInt(cmds[n - 1].row - cmds[n].row) == 2 then
        SetCell(prev, Midpoint(cmds[n - 1], cmds[n]), EmptyCell)
      else
        prev
  }

  /**
   * finalizeMove on a board value: empty every jumped square, empty the start square,
   * then write the mover's symbol on the last square.
   */
  function Apply(b: Board, cmds: seq<Coord>, mover: Color): (r: Board)
    requires IsBoard(b) && |cmds| >= 1 && AllInBounds(cmds)
    ensures IsBoard(r)
  {
    var last := cmds[|cmds| - 1];
    var cleared := ClearCaptured(b, cmds, |cmds| - 1);
    SetCell(SetCell(cleared, cmds[0], EmptyCell), last, LandingSymbol(last, mover))
  }

  lemma {:induction false} ClearCapturedCell(b: Board, cmds: seq<Coord>, n: nat, p: Coord)
    requires IsBoard(b) && AllInBounds(cmds) && n < |cmds| && InBounds(p)
    ensures At(ClearCaptured(b, cmds, n), p) == if IsCaptured(cmds, n, p) then EmptyCell else At(b, p)
  {
    if n > 0 {
      ClearCapturedCell(b, cmds, n - 1, p);
      if JumpsOver(cmds, n - 1, p) {
        assert IsCaptured(cmds, n, p);
      } else if IsCaptured(cmds, n, p) {
        var i :| 0 <= i < n && JumpsOver(cmds, i, p);
        assert i < n - 1;
        assert IsCaptured(cmds, n - 1, p);
      }
    }
  }

  /**
   * An applied move changes exactly these squares: the last one gets the landing symbol,
   * the start square and every jumped square become empty, and every other square keeps
   * its piece.
   */
  lemma ApplyCell(b: Board, cmds: seq<Coord>, mover: Color, p: Coord)
    requires IsBoard(b) && |cmds| >= 1 && AllInBounds(cmds) && InBounds(p)
    ensures At(Apply(b, cmds, mover), p) ==
              if p == cmds[|cmds| - 1] then LandingSymbol(p, mover)
              else if p == cmds[0] || IsCaptured(cmds, |cmds| - 1, p) then EmptyCell
              else At(b, p)
  {
    ClearCapturedCell(b, cmds, |cmds| - 1, p);
  }

  /** An applied move writes only '0' and the mover's symbols, so the board keeps to the five symbols. */
  lemma ApplyKeepsSymbols(b: Board, cmds: seq<Coord>, mover: Color)
    requires IsBoard(b) && |cmds| >= 1 && AllInBounds(cmds) && OnlyPieceSymbols(b)
    ensures OnlyPieceSymbols(Apply(b, cmds, mover))
  {
    var a := Apply(b, cmds, mover);
    forall r, c | 0 <= r < 8 && 0 <= c < 8
      ensures a[r][c] == EmptyCell || IsValidPiece(White, a[r][c]) || IsValidPiece(Black, a[r][c])
    {
      ApplyCell(b, cmds, mover, Coord(r, c));
    }
  }

  lemma InitialBoardSymbols()
    ensures IsBoard(InitialBoard) && OnlyPieceSymbols(InitialBoard)
  {
  }

  /**
   * Promotion looks at the last square only: the mover gets a king there exactly when it
   * is the far row, and otherwise a man, even if the piece that moved was a king.
   */
  lemma LandingPromotion(b: Board, cmds: seq<Coord>, mover: Color)
    requires IsBoard(b) && |cmds| >= 1 && AllInBounds(cmds)
    ensures var last := cmds[|cmds| - 1];
            (At(Apply(b, cmds, mover), last) == KingSymbol(mover) <==> last.row == PromotionRow(mover)) &&
            (At(Apply(b, cmds, mover), last) == ManSymbol(mover) <==> last.row != PromotionRow(mover))
  {
    ApplyCell(b, cmds, mover, cmds[|cmds| - 1]);
  }

  // ---------------------------------------------------------------- elimination

  /** One of the two symbols stands somewhere in the first `rows` rows. */
  predicate OccursInRows(b: Board, rows: int, s1: char, s2: char)
    requires IsBoard(b) && rows <= 8
  {
    exists r, c :: 0 <= r < rows && 0 <= c < 8 && (b[r][c] == s1 || b[r][c] == s2)
  }

  /** didEnemyLose: none of the opponent's symbols is left, or the opponent's clock is out. */
  predicate EnemyLost(b: Board, s1: char, s2: char, millis: int)
    requires IsBoard(b)
  {
    !OccursInRows(b, 8, s1, s2) || millis <= 0
  }

  /** didEnemyLose as GameRoom runs it: a scan of the rows that stops a row at the first hit. */
  method DidEnemyLose(b: Board, s1: char, s2: char, millis: int) returns (enemyLost: bool)
    requires IsBoard(b)
    ensures enemyLost == EnemyLost(b, s1, s2, millis)
  {
    enemyLost := true;
    var r := 0;
    while r < 8
      invariant 0 <= r <= 8
      invariant enemyLost == !OccursInRows(b, r, s1, s2)
    {
      var c := 0;
      while c < 8
        invariant 0 <= c <= 8
        invariant enemyLost == !(OccursInRows(b, r, s1, s2) ||
                                 exists k :: 0 <= k < c && (b[r][k] == s1 || b[r][k] == s2))
      {
        if b[r][c] == s1 || b[r][c] == s2 {
          enemyLost := false;
          break;
        }
        c := c + 1;
      }
      r := r + 1;
    }
    if millis <= 0 {
      enemyLost := true;
    }
  }

  /** Both colours have pieces on the opening board. */
  lemma InitialBoardHasBothColours()
    ensures IsBoard(InitialBoard)
    ensures OccursInRows(InitialBoard, 8, ManSymbol(White), KingSymbol(White))
    ensures OccursInRows(InitialBoard, 8, ManSymbol(Black), KingSymbol(Black))
  {
    assert InitialBoard[7][0] == 'w';
    assert InitialBoard[0][1] == 'b';
  }
}
