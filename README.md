# chess-example game sessions in Dafny

A model of the game-session core of the chess-example web application. Two
players share a game through a short code. The server actions create a game,
seat players, accept moves, list the move history and set the game status.
They read and write two database tables: `chess_games`, with one row per
game, and `chess_moves`, an append-only move log. A board component in the
browser lets the player select a piece and a destination. It submits the
move to the server and shows the board from the player's side.

The project has these modules:

- `Board` (`board.dfy`): pieces, colours, squares and the initial board of
  `lib/chess/types.ts`, with lemmas on what stands where at the start.
- `Schema` (`schema.dfy`): the two tables of `lib/db/schema.ts` as record
  types, their column widths and their defaults.
- `Store` (`store.dfy`): the store of `lib/games.ts` as a class `GameStore`.
  It holds the two tables and the serial counters, and timestamps come from a
  monotone clock. Its methods insert and update rows. A method that would
  break a column constraint fails and changes nothing, as a failed SQL
  statement does. The constraints are the unique game code, the reference
  from a move to its game and the varchar widths. PostgreSQL's rule for a
  varchar(n) column is modelled as it stands: a longer value whose excess
  characters are all spaces is stored cut to n characters, and any other
  longer value is refused. `Valid()` states the table constraints and the
  ordering facts the store keeps.
- `Session` (`session.dfy`): the server actions of `lib/actions/chess.ts`.
  joinGame and makeMove read the game by its code, check it, then write;
  createGame and updateGameStatus write without reading first;
  getGameByCode and getGameMoves only read. Every
  failure becomes the action's one generic error message.
- `BoardView` (`board_view.dfy`): `components/chess/ChessBoard.tsx`. It
  holds the selection state a click updates (class `BoardController`), the
  move data a move submits, the flipped view for black and the square
  shading.
- `Scenarios` (`scenarios.dfy`): verified call sequences of the actions on a fresh
  store. Each pins down one behaviour of the actions as written.

Behaviours of the code a reader might not expect:

- createGame does not check the new code against the store and does not
  retry. A code already in use makes the insert fail, and the action fails
  with it.
- The code is not of fixed length. It takes characters 2 to 7 of
  `Math.random().toString(36)`, so it has six characters at most and fewer
  when that text is short.
- joinGame reports "Failed to join game" for a missing game, a full game
  and a refused write alike. The seat write is not conditioned on the seat
  still being open.
- makeMove has no turn check. A second move by the same side is accepted
  (`Scenarios.NoTurnCheck`).
- makeMove never sets stalemate. A move leaves the game active or, when it
  mates, at checkmate.
- makeMove's game-row update and move insert are two separate statements.
  When the insert is refused, the game row stays updated.
- updateGameStatus sets any status on any game, so a finished game can be
  made active again. It reports success even when no game has the code.
- updateGamePlayer changes only the seat. It leaves `updated_at` as it was.
- No error kinds are surfaced, and there are no bounded retries. Every
  action rethrows one message of its own.
- In the board component, a move that makeMove rejects is caught and
  logged. The selection is then not cleared, although the local board,
  last move and check flag have already changed. An engine that throws on
  the move request is caught the same way, before anything changes.

## Model

| member | source | states |
|---|---|---|
| Board.Opposite | lib/actions/chess.ts:121 | the next turn is the other colour |
| Board.InitialBoard | lib/chess/types.ts:17-22 | the initial board has eight ranks of eight squares |
| Board.InitialLabels | lib/chess/types.ts:23-24 | square (r, f) is labelled file 'a'+f and rank 8-r, so the 64 coordinates are distinct |
| Board.InitialPawns | lib/chess/types.ts:27-30 | rank index 1 holds black pawns and rank index 6 white pawns on every file |
| Board.InitialBackRanks | lib/chess/types.ts:31-52 | rank indices 0 (black) and 7 (white) hold rook, knight, bishop, queen, king, bishop, knight, rook from file a to h |
| Board.InitialEmptyMiddle | lib/chess/types.ts:25-53 | rank indices 2 to 5 are empty |
| Board.InitialRankCount | lib/chess/types.ts:27-53 | each colour has eight pieces on each of its two home ranks and none elsewhere |
| Board.InitialRankKings | lib/chess/types.ts:31-52 | each colour has one king, on its back rank |
| Board.InitialCounts | lib/chess/types.ts:17-61 | each colour starts with sixteen pieces, exactly one of them a king |
| Schema.FlagColumn | lib/db/schema.ts:30-32 | a flag column reads true exactly when true was supplied; an omitted flag reads false |
| Schema.StatusAndTurnColumns | lib/db/schema.ts:11-12 | every status text is non-empty, fits the status column and names one status only; every turn text fits next_turn |
| Schema.VarcharAccepts | lib/db/schema.ts:6-12 | a varchar(n) column accepts a value of at most n characters, or a longer one whose characters past the n-th are all spaces, and refuses any other |
| Schema.VarcharStored | lib/db/schema.ts:6-12 | a varchar(n) column stores a value as it is when it has at most n characters, and its first n otherwise; the stored value never exceeds n |
| Schema.VarcharRoundTrip | lib/db/schema.ts:25-29 | an accepted value is its stored value followed by spaces only, and storing the stored value again changes nothing |
| Schema.StoredSeat | lib/db/schema.ts:9-10 | a player-id column keeps null as null, stores a text as varchar(255) does, and never holds more than 255 characters |
| Schema.GameRowFits | lib/db/schema.ts:6-12 | a chess_games row keeps every varchar width: code 10, seats 255, next_turn 5, status 20 |
| Schema.MoveRowFits | lib/db/schema.ts:25-29 | a chess_moves row keeps every varchar width: notation 10, piece 10, squares 2 |
| Schema.InsertedGameDefaults | lib/db/schema.ts:4-14 | a new game row has the initial position, an empty pgn, white to move, status active and both timestamps at insertion; it holds the code and seats as their columns store them, unchanged when they fit, and keeps every column width |
| Schema.InsertedMoveFits | lib/db/schema.ts:22-33 | a new move row keeps every column width and holds each supplied text unchanged when it fits |
| Store.IndexOfCode | lib/games.ts:36-38 | the index of the first row with the code, or -1 exactly when no row has it |
| Store.FindByCode | lib/games.ts:32-43 | getGameByCode returns a row of the table with that code, and null exactly when no row has it |
| Store.CodesUnique | lib/db/schema.ts:6 | no two rows of chess_games have the same game code |
| Store.FindByCodeUnique | lib/db/schema.ts:6 | with unique codes, looking up a row's code finds that very row |
| Store.MovesOf | lib/games.ts:116-122 | the move list of a game holds every logged move of that game and nothing else |
| Store.MovesOfAppend | lib/games.ts:100-110 | appending a move extends its own game's list by that move and leaves every other game's list as it was |
| Store.MovesOfAll | lib/games.ts:118-121 | a log holding only one game's moves is returned whole and in order |
| Store.MovesOfChronological | lib/games.ts:121 | the moves of a game from a chronological log are in ascending created_at order |
| Store.WithSeat | lib/games.ts:52-59 | updateGamePlayer puts the player in the chosen seat and changes no other column, updated_at included |
| Store.WithState | lib/games.ts:72-80 | updateGameState sets position, turn, status and updated_at and keeps identity, seats and pgn |
| Store.WithStatus | lib/games.ts:130-136 | updateGameStatus sets status and updated_at and keeps everything else |
| Store.RecordedMoveFields | lib/games.ts:100-110 | the inserted move row carries the game id, the position and the flags of the move, and its texts as their columns store them; when those fit, it copies every field |
| Store.GameStore.Valid | lib/db/schema.ts:5-33 | the store's invariant: codes are unique, every move's game exists, every row keeps its column widths, ids increase in table order, and the move log is in created_at order (the order lib/games.ts:121 reads it in) |
| Store.GameStore.constructor | lib/db/schema.ts:5 | the tables start empty and the serial ids start at 1 |
| Store.GameStore.CreateGameRecord | lib/games.ts:16-29 | values a column does not accept fail first, then a taken code; otherwise exactly the default row, with the values as stored, is appended; a failure changes no row |
| Store.GameStore.UpdateGamePlayer | lib/games.ts:46-62 | without a matching row nothing changes and no row is returned; an id the column does not accept fails; otherwise only that row's seat changes, to the id as stored, and the new row is returned |
| Store.GameStore.UpdateGameState | lib/games.ts:65-83 | the matching row, and only it, gets the new position, turn, status and time; none matching changes nothing |
| Store.GameStore.UpdateGameStatus | lib/games.ts:125-139 | the matching row, and only it, gets the new status and time; none matching changes nothing |
| Store.GameStore.RecordMove | lib/games.ts:86-113 | fields a column does not accept fail, then a missing game; otherwise exactly the move row, with the fields as stored, is appended; a failure leaves the log as it was |
| Session.GenerateGameCode | lib/actions/chess.ts:27-29 | the code has at most six characters, all digits or capitals; lower-cased, they are the random text's characters from index 2; it is empty only for a zero random number |
| Session.AssignSeats | lib/actions/chess.ts:39-55 | without a truthy player id neither seat is set; otherwise exactly the preferred seat is set, and under random preference white exactly when the roll exceeds 0.5 |
| Session.CreateGame | lib/actions/chess.ts:32-63 | success exactly when the code is free and the player id is accepted by its column; the new game has the defaults, the generated code and the chosen seats holding the id as stored; a failure writes nothing |
| Session.JoinGame | lib/actions/chess.ts:66-91 | fills white if open, else black if open (null or "" counts as open), writing only that seat, with the id as stored; a missing or full game or an id the column does not accept fails without a write |
| Session.GetGameByCode | lib/actions/chess.ts:94-104 | returns the game with the code, or null exactly when there is none |
| Session.StatusAfterMove | lib/actions/chess.ts:122 | a move leaves checkmate exactly when it mates and active otherwise, never any other status |
| Session.MakeMove | lib/actions/chess.ts:107-148 | a missing or inactive game fails with no write; otherwise the row gets the move's position, the opposite turn and the new status, and the move joins that game's list only; a refused move row fails with the state already written |
| Session.GetGameMoves | lib/actions/chess.ts:151-164 | fails exactly when no game has the code; otherwise returns every move of that game and only those, in created_at order |
| Session.UpdateGameStatus | lib/actions/chess.ts:167-177 | always reports success; sets the status of the game with the code, whatever it was, and changes nothing when there is none |
| BoardView.PieceMoved | components/chess/ChessBoard.tsx:136 | the descriptor is the colour name, '_' and the piece letter, seven characters, within the column width |
| BoardView.MoveDataOf | components/chess/ChessBoard.tsx:128-142 | the submitted move is a capture exactly when the engine reports a captured piece; it carries the clicked squares, the SAN, the position and flags after the move |
| BoardView.MoveDataFitsMoveRow | components/chess/ChessBoard.tsx:132-142 | for two-character squares and a SAN of at most ten characters, every column of chess_moves accepts the submitted move and stores it unchanged |
| BoardView.Reverse | components/chess/ChessBoard.tsx:178 | reversing puts element n-1-i at position i |
| BoardView.DisplayBoard | components/chess/ChessBoard.tsx:177-179 | white sees the board as it is; black sees at (i, j) the board square mirrored in both ranks and files |
| BoardView.FlipTwice | components/chess/ChessBoard.tsx:177-179 | flipping the board twice gives it back |
| BoardView.BlackViewOn8x8 | components/chess/ChessBoard.tsx:177-179 | on an 8 by 8 board black's display square (i, j) is board square (7-i, 7-j) |
| BoardView.IsLight | components/chess/ChessBoard.tsx:186 | a display square is light exactly when its rank and file indices have an even sum |
| BoardView.ShadingIsViewIndependent | components/chess/ChessBoard.tsx:186 | a square has the same shade in both views; a1 is dark and h1 light |
| BoardView.BoardController.constructor | components/chess/ChessBoard.tsx:36-52 | the board starts with no selection, no last move and the given position and check flag |
| BoardView.BoardController.HandleSquareClick | components/chess/ChessBoard.tsx:91-159 | no effect off turn or on an opponent's piece; a first click selects one's own piece with its destinations; a second click on it deselects; elsewhere, a move is tried only on a listed destination with queen promotion; a played move updates board, last move and check and is always submitted to makeMove, and it is relayed only when makeMove resolves; a caught error leaves the selection |
| Scenarios.SeatsFillWhiteThenBlack | lib/actions/chess.ts:76-86 | on a game created without a player, the first joiner gets white, the second black, and a third is refused |
| Scenarios.EmptyPlayerIdTakesNoSeat | lib/actions/chess.ts:42 | a creator whose id is the empty string takes no seat |
| Scenarios.OverlongPlayerIds | lib/db/schema.ts:9-10 | a 256-character id is refused when its last character is not a space; 255 characters and a space are accepted and stored without the space |
| Scenarios.NoTurnCheck | lib/actions/chess.ts:116-125 | two moves in a row by white are both accepted and recorded, and the turn returns to white |
| Scenarios.StatusIsUnchecked | lib/actions/chess.ts:167-172 | setting the status of a missing game reports success; a resigned game refuses moves, and once set back to active it accepts them again |

## Left out

- The socket relay (`useSocket`, the socket route and handlers) is not modelled. The component's relayed move is an output of the click and nothing more.
- The database connection, query building and drizzle's row mapping are not modelled. The tables are sequences in memory, and a connection error is not a case the model has.
- The chess engine is not modelled, and positions are not parsed. The engine's destinations, its answer to a move request and the position and check flags after it are inputs. `findValidMoves` and `parseFenToBoard` are the engine's work, and the board is shown only through its position text.
- Randomness is an input: the text of `Math.random().toString(36)` for the code, and a number in [0, 1) for the seat.
- Timestamps are values of an injected monotone clock (`now`), not dates.
- Concurrency is not modelled: racing joins or moves, and the atomicity of two statements. Every action runs alone from start to end.
- `revalidatePath`, `console` logging, the glyphs, CSS classes and the check highlight of the king are not modelled. They are presentation only.
- A game is never deleted, so the ON DELETE CASCADE from chess_games to chess_moves is not modelled.
- Store.GameStore.CreateGameRecord: a failed insert does not use up a serial id in the model, as a Postgres sequence would. Ids stay increasing either way.
- Session.GenerateGameCode: `toUpperCase` is modelled on ASCII only. Base-36 text holds nothing else.
- Store.MovesOf: rows with equal created_at are returned in log order. SQL leaves the order of such ties open.
- The pgn column is nullable, but every row the application inserts takes the empty default, so the model gives it type `string`.
- The errors of getGameByCode and updateGameStatus come only from a failing database. The model has no such failure, so those two actions always succeed.
