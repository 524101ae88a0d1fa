/** The two tables of lib/db/schema.ts as record types: chess_games and
    chess_moves, their column defaults and their column constraints, and the
    status values of lib/games.ts. Timestamps are the values of an injected
    clock, not wall-clock dates. */
module Schema {
  import opened Wrappers
  import opened Board

  /** GameStatus of lib/games.ts. */
  datatype GameStatus = Active | Checkmate | Stalemate | Draw | Resigned

  /** The text stored in the status column. */
  function StatusName(s: GameStatus): (name: string)
  {
    match s
    case Active => "active"
    case Checkmate => "checkmate"
    case Stalemate => "stalemate"
    case Draw => "draw"
    case Resigned => "resigned"
  }

  // Column widths (varchar lengths) of the two tables.
  const GameCodeMaxLength: nat := 10
  const PlayerIdMaxLength: nat := 255
  const NextTurnMaxLength: nat := 5
  const StatusMaxLength: nat := 20
  const NotationMaxLength: nat := 10
  const PieceMovedMaxLength: nat := 10
  const SquareMaxLength: nat := 2

  // Column defaults of chess_games.
  const DefaultFen: string := "rnbqkbnr/pppppppp/8/8/8/8/PPPPPPPP/RNBQKBNR w KQkq - 0 1"
  const DefaultPgn: string := ""
  const DefaultNextTurn: PieceColor := White
  const DefaultStatus: GameStatus := Active

  /** A row of chess_games. The pgn column is nullable, but every row the
      application inserts takes its default, the empty string. */
  datatype Game = Game(
    id: nat,
    gameCode: string,
    fenPosition: string,
    pgn: string,
    whitePlayerId: Option<string>,
    blackPlayerId: Option<string>,
    nextTurn: PieceColor,
    status: GameStatus,
    createdAt: nat,
    updatedAt: nat)

  /** A row of chess_moves; gameId references chess_games.id. */
  datatype Move = Move(
    id: nat,
    gameId: nat,
    moveNotation: string,
    fenAfterMove: string,
    pieceMoved: string,
    fromSquare: string,
    toSquare: string,
    isCapture: bool,
    isCheck: bool,
    isCheckmate: bool,
    createdAt: nat)

  /** The values an insert into chess_games supplies: the code and the two seats. */
  datatype GameInsert = GameInsert(gameCode: string, whitePlayerId: Option<string>, blackPlayerId: Option<string>)

  /** The values an insert into chess_moves supplies; a flag left out (None)
      takes the column default. */
  datatype MoveInsert = MoveInsert(
    gameId: nat,
    moveNotation: string,
    fenAfterMove: string,
    pieceMoved: string,
    fromSquare: string,
    toSquare: string,
    isCapture: Option<bool>,
    isCheck: Option<bool>,
    isCheckmate: Option<bool>)

  /** A boolean column with default false: an omitted value reads as false. */
  function FlagColumn(v: Option<bool>): (b: bool)
    ensures b <==> v == Some(true)
  {
    match v
    case None => false
    case Some(x) => x
  }

  // ---------------------------------------------------------------------
  // varchar(n) columns

  /** Whether PostgreSQL accepts a value for a varchar(n) column: one of at
      most n characters, or a longer one whose characters past the n-th are
      all spaces. Any other value makes the statement fail. */
  predicate VarcharAccepts(s: string, n: nat)
  {
    |s| <= n || forall k :: n <= k < |s| ==> s[k] == ' '
  }

  /** The value a varchar(n) column stores: the value itself when it fits,
      otherwise its first n characters. For an accepted value the part cut
      off is spaces only. */
  function VarcharStored(s: string, n: nat): (t: string)
    ensures |t| <= n && t <= s
    ensures |s| <= n ==> t == s
    ensures |s| > n ==> |t| == n
  {
    if |s| <= n then s else s[..n]
  }

  /** An accepted value is its stored value followed by spaces only, and
      the stored value is accepted and stored again unchanged. */
  lemma VarcharRoundTrip(s: string, n: nat)
    requires VarcharAccepts(s, n)
    ensures var t := VarcharStored(s, n);
      && VarcharAccepts(t, n) && VarcharStored(t, n) == t
      && s == t + seq(|s| - |t|, _ => ' ')
  {
  }

  /** A nullable player-id column accepts null and any accepted text. */
  predicate SeatAccepts(seat: Option<string>)
  {
    seat.None? || VarcharAccepts(seat.value, PlayerIdMaxLength)
  }

  /** The value a player-id column stores. */
  function StoredSeat(seat: Option<string>): (t: Option<string>)
    ensures t.None? <==> seat.None?
    ensures t.Some? ==> t.value == VarcharStored(seat.value, PlayerIdMaxLength)
    ensures SeatFits(seat) ==> t == seat
    ensures SeatFits(t)
  {
    if seat.None? then None else Some(VarcharStored(seat.value, PlayerIdMaxLength))
  }

  /** Whether each supplied value of a chess_games insert is accepted by its column. */
  predicate GameInsertAccepted(ins: GameInsert)
  {
    VarcharAccepts(ins.gameCode, GameCodeMaxLength) && SeatAccepts(ins.whitePlayerId) && SeatAccepts(ins.blackPlayerId)
  }

  /** Whether each supplied text of a chess_moves insert is accepted by its column. */
  predicate MoveInsertAccepted(ins: MoveInsert)
  {
    && VarcharAccepts(ins.moveNotation, NotationMaxLength)
    && VarcharAccepts(ins.pieceMoved, PieceMovedMaxLength)
    && VarcharAccepts(ins.fromSquare, SquareMaxLength)
    && VarcharAccepts(ins.toSquare, SquareMaxLength)
  }

  // ---------------------------------------------------------------------
  // Inserted rows

  /** The row an insert into chess_games creates: the supplied columns as
      their columns store them, and every other column at its default
      (created_at and updated_at at now). */
  function InsertedGame(id: nat, ins: GameInsert, now: nat): (g: Game)
  {
    Game(id, VarcharStored(ins.gameCode, GameCodeMaxLength), DefaultFen, DefaultPgn,
         StoredSeat(ins.whitePlayerId), StoredSeat(ins.blackPlayerId),
         DefaultNextTurn, DefaultStatus, now, now)
  }

  /** The row an insert into chess_moves creates. */
  function InsertedMove(id: nat, ins: MoveInsert, now: nat): (m: Move)
  {
    Move(id, ins.gameId, VarcharStored(ins.moveNotation, NotationMaxLength), ins.fenAfterMove,
         VarcharStored(ins.pieceMoved, PieceMovedMaxLength),
         VarcharStored(ins.fromSquare, SquareMaxLength), VarcharStored(ins.toSquare, SquareMaxLength),
         FlagColumn(ins.isCapture), FlagColumn(ins.isCheck), FlagColumn(ins.isCheckmate), now)
  }

  /** A player-id value that fits its column as it is. */
  predicate SeatFits(seat: Option<string>)
  {
    seat.None? || |seat.value| <= PlayerIdMaxLength
  }

  /** The varchar constraints of chess_games hold of a row. */
  predicate GameRowFits(g: Game)
  {
    && |g.gameCode| <= GameCodeMaxLength
    && SeatFits(g.whitePlayerId)
    && SeatFits(g.blackPlayerId)
    && |ColorName(g.nextTurn)| <= NextTurnMaxLength
    && |StatusName(g.status)| <= StatusMaxLength
  }

  /** The varchar constraints of chess_moves hold of a row. */
  predicate MoveRowFits(m: Move)
  {
    && |m.moveNotation| <= NotationMaxLength
    && |m.pieceMoved| <= PieceMovedMaxLength
    && |m.fromSquare| <= SquareMaxLength
    && |m.toSquare| <= SquareMaxLength
  }

  /** Every status value has its own text, and every text fits the status
      column; every turn text fits the next_turn column. So writing any
      status or turn never violates a column width, and comparing the
      stored text with 'active' is comparing the value with Active. */
  lemma StatusAndTurnColumns(s: GameStatus, s': GameStatus, c: PieceColor)
    ensures 0 < |StatusName(s)| <= StatusMaxLength
    ensures StatusName(s) == StatusName(s') ==> s == s'
    ensures |ColorName(c)| <= NextTurnMaxLength
  {
    if StatusName(s) == StatusName(s') {
      assert StatusName(s)[0] == StatusName(s')[0];
      assert |StatusName(s)| == |StatusName(s')|;
    }
  }

  /** A new game row holds the schema defaults: the standard initial
      position, an empty pgn, white to move, status active, both timestamps
      at the insertion time; it holds the supplied code and seats as their
      columns store them, unchanged when they fit; and it satisfies every
      column constraint. */
  lemma InsertedGameDefaults(id: nat, ins: GameInsert, now: nat)
    ensures var g := InsertedGame(id, ins, now);
      && g.fenPosition == DefaultFen && g.pgn == "" && g.nextTurn == White && g.status == Active
      && g.createdAt == now && g.updatedAt == now
      && g.gameCode == VarcharStored(ins.gameCode, GameCodeMaxLength)
      && g.whitePlayerId == StoredSeat(ins.whitePlayerId) && g.blackPlayerId == StoredSeat(ins.blackPlayerId)
      && (|ins.gameCode| <= GameCodeMaxLength ==> g.gameCode == ins.gameCode)
      && GameRowFits(g)
  {
    StatusAndTurnColumns(Active, Active, White);
  }

  /** A new move row satisfies every column constraint, and holds each
      supplied text unchanged when it fits its column. */
  lemma InsertedMoveFits(id: nat, ins: MoveInsert, now: nat)
    ensures var m := InsertedMove(id, ins, now);
      && MoveRowFits(m)
      && (|ins.moveNotation| <= NotationMaxLength ==> m.moveNotation == ins.moveNotation)
      && (|ins.pieceMoved| <= PieceMovedMaxLength ==> m.pieceMoved == ins.pieceMoved)
      && (|ins.fromSquare| <= SquareMaxLength ==> m.fromSquare == ins.fromSquare)
      && (|ins.toSquare| <= SquareMaxLength ==> m.toSquare == ins.toSquare)
  {
  }
}
