/** The session store of lib/games.ts: the chess_games table and the
    append-only chess_moves log held in memory, the read-only queries over
    them, and the statements that insert and update rows. A statement that
    would break a column constraint (a value PostgreSQL does not accept for
    its varchar column, a game code already taken, a move whose game does
    not exist) fails and changes nothing, as a failed SQL statement does. A
    too-long value whose excess is spaces only is accepted, cut to the
    column width. */
module Store {
  import opened Wrappers
  import opened Board
  import opened Schema

  /** Why a statement is refused by the database. */
  datatype StoreError = ValueTooLong | UniqueViolation | ForeignKeyViolation

  /** The move fields recordMove receives. */
  datatype MoveData = MoveData(
    moveNotation: string,
    fenAfterMove: string,
    pieceMoved: string,
    fromSquare: string,
    toSquare: string,
    isCapture: bool,
    isCheck: bool,
    isCheckmate: bool)

  /** The index of the first row whose game_code is code, or -1 when there is none. */
  function IndexOfCode(rows: seq<Game>, code: string): (i: int)
    ensures -1 <= i < |rows|
    ensures 0 <= i ==> rows[i].gameCode == code
    ensures 0 <= i ==> forall j :: 0 <= j < i ==> rows[j].gameCode != code
    ensures i == -1 <==> forall j :: 0 <= j < |rows| ==> rows[j].gameCode != code
  {
    if |rows| == 0 then -1
    else if rows[0].gameCode == code then 0
    else
      var k := IndexOfCode(rows[1..], code);
      if k < 0 then -1 else k + 1
  }

  /** getGameByCode: the row whose game_code is code, or none (null). */
  function FindByCode(rows: seq<Game>, code: string): (r: Option<Game>)
    ensures r.Some? ==> r.value in rows && r.value.gameCode == code
    ensures r.None? <==> forall j :: 0 <= j < |rows| ==> rows[j].gameCode != code
  {
    var i := IndexOfCode(rows, code);
    if i < 0 then None else Some(rows[i])
  }

  /** The unique constraint on chess_games.game_code. */
  ghost predicate CodesUnique(rows: seq<Game>)
  {
    forall i, j :: 0 <= i < j < |rows| ==> rows[i].gameCode != rows[j].gameCode
  }

  /** With unique codes, looking a row's code up finds that very row. */
  lemma FindByCodeUnique(rows: seq<Game>, k: int)
    requires CodesUnique(rows) && 0 <= k < |rows|
    ensures IndexOfCode(rows, rows[k].gameCode) == k
    ensures FindByCode(rows, rows[k].gameCode) == Some(rows[k])
  {
  }

  /** Whether some row of chess_games has the given id. */
  predicate HasGame(rows: seq<Game>, id: nat)
  {
    exists i :: 0 <= i < |rows| && rows[i].id == id
  }

  /** Appending a row keeps every id that was there. */
  lemma HasGameAppend(rows: seq<Game>, row: Game, id: nat)
    requires HasGame(rows, id)
    ensures HasGame(rows + [row], id)
  {
    var i :| 0 <= i < |rows| && rows[i].id == id;
    assert (rows + [row])[i] == rows[i];
  }

  /** getMovesByGameId: the moves of one game, in log order. */
  function MovesOf(log: seq<Move>, gameId: nat): (r: seq<Move>)
    ensures |r| <= |log|
    ensures forall k :: 0 <= k < |r| ==> r[k].gameId == gameId && r[k] in log
    ensures forall k :: 0 <= k < |log| && log[k].gameId == gameId ==> log[k] in r
  {
    if |log| == 0 then []
    else
      var last := log[|log| - 1];
      MovesOf(log[..|log| - 1], gameId) + (if last.gameId == gameId then [last] else [])
  }

  /** Rows in ascending created_at order. */
  ghost predicate Chronological(log: seq<Move>)
  {
    forall i, j :: 0 <= i < j < |log| ==> log[i].createdAt <= log[j].createdAt
  }

  /** Appending a move to the log adds it to the moves of its own game and
      leaves the moves of every other game as they were. */
  lemma MovesOfAppend(log: seq<Move>, m: Move, gameId: nat)
    ensures MovesOf(log + [m], gameId) == MovesOf(log, gameId) + (if m.gameId == gameId then [m] else [])
  {
    assert (log + [m])[..|log|] == log;
  }

  /** A log holding only moves of one game is that game's move list, whole
      and in order. */
  lemma {:induction false} MovesOfAll(log: seq<Move>, gameId: nat)
    requires forall k :: 0 <= k < |log| ==> log[k].gameId == gameId
    ensures MovesOf(log, gameId) == log
  {
    if |log| > 0 {
      var init, last := log[..|log| - 1], log[|log| - 1];
      MovesOfAll(init, gameId);
      assert MovesOf(log, gameId) == MovesOf(init, gameId) + [last];
      assert init + [last] == log;
    }
  }

  /** The moves of a game taken from a chronological log are in ascending
      created_at order. */
  lemma {:induction false} MovesOfChronological(log: seq<Move>, gameId: nat)
    requires Chronological(log)
    ensures Chronological(MovesOf(log, gameId))
  {
    if |log| > 0 {
      var init, last := log[..|log| - 1], log[|log| - 1];
      assert Chronological(init);
      MovesOfChronological(init, gameId);
      var prefix := MovesOf(init, gameId);
      forall k | 0 <= k < |prefix|
        ensures prefix[k].createdAt <= last.createdAt
      {
        var j :| 0 <= j < |init| && init[j] == prefix[k];
        assert log[j] == init[j];
      }
      var r := MovesOf(log, gameId);
      assert r == prefix + (if last.gameId == gameId then [last] else []);
      forall i, j | 0 <= i < j < |r|
        ensures r[i].createdAt <= r[j].createdAt
      {
        assert r[i] == prefix[i];
        if j < |prefix| {
          assert r[j] == prefix[j];
        }
      }
    }
  }

  /** The seat of a colour. */
  function Seat(g: Game, c: PieceColor): (seat: Option<string>)
  {
    if c == White then g.whitePlayerId else g.blackPlayerId
  }

  /** The row after updateGamePlayer: the chosen seat holds the player and
      every other column, updated_at included, is as before. */
  function WithSeat(g: Game, color: PieceColor, playerId: string): (g': Game)
    ensures Seat(g', color) == Some(playerId)
    ensures Seat(g', Opposite(color)) == Seat(g, Opposite(color))
    ensures g'.id == g.id && g'.gameCode == g.gameCode && g'.fenPosition == g.fenPosition && g'.pgn == g.pgn
    ensures g'.nextTurn == g.nextTurn && g'.status == g.status
    ensures g'.createdAt == g.createdAt && g'.updatedAt == g.updatedAt
  {
    if color == White then g.(whitePlayerId := Some(playerId)) else g.(blackPlayerId := Some(playerId))
  }

  /** The row after updateGameState: position, turn, status and updated_at
      take the new values; identity, seats and pgn are as before. */
  function WithState(g: Game, fen: string, turn: PieceColor, status: GameStatus, now: nat): (g': Game)
    ensures g'.fenPosition == fen && g'.nextTurn == turn && g'.status == status && g'.updatedAt == now
    ensures g'.id == g.id && g'.gameCode == g.gameCode && g'.pgn == g.pgn && g'.createdAt == g.createdAt
    ensures g'.whitePlayerId == g.whitePlayerId && g'.blackPlayerId == g.blackPlayerId
  {
    g.(fenPosition := fen, nextTurn := turn, status := status, updatedAt := now)
  }

  /** The row after updateGameStatus: status and updated_at take the new
      values; seats, position and turn are as before. */
  function WithStatus(g: Game, status: GameStatus, now: nat): (g': Game)
    ensures g'.status == status && g'.updatedAt == now
    ensures g'.id == g.id && g'.gameCode == g.gameCode && g'.pgn == g.pgn && g'.createdAt == g.createdAt
    ensures g'.whitePlayerId == g.whitePlayerId && g'.blackPlayerId == g.blackPlayerId
    ensures g'.fenPosition == g.fenPosition && g'.nextTurn == g.nextTurn
  {
    g.(status := status, updatedAt := now)
  }

  /** The four varchar fields of a move fit their columns as they are. */
  predicate MoveDataFits(data: MoveData)
  {
    && |data.moveNotation| <= NotationMaxLength && |data.pieceMoved| <= PieceMovedMaxLength
    && |data.fromSquare| <= SquareMaxLength && |data.toSquare| <= SquareMaxLength
  }

  /** The values recordMove inserts: the game id and every field of the
      move, with all three flags supplied. */
  function MoveInsertOf(gameId: nat, data: MoveData): (ins: MoveInsert)
  {
    MoveInsert(gameId, data.moveNotation, data.fenAfterMove, data.pieceMoved,
               data.fromSquare, data.toSquare,
               Some(data.isCapture), Some(data.isCheck), Some(data.isCheckmate))
  }

  /** The row recordMove appends carries the game id, the position and the
      three flags of the move, and its four varchar fields as their columns
      store them; when these fit, the row copies every field of the move. */
  lemma RecordedMoveFields(id: nat, gameId: nat, data: MoveData, now: nat)
    ensures var m := InsertedMove(id, MoveInsertOf(gameId, data), now);
      && m.gameId == gameId && m.createdAt == now && m.fenAfterMove == data.fenAfterMove
      && m.isCapture == data.isCapture && m.isCheck == data.isCheck && m.isCheckmate == data.isCheckmate
      && m.moveNotation == VarcharStored(data.moveNotation, NotationMaxLength)
      && m.pieceMoved == VarcharStored(data.pieceMoved, PieceMovedMaxLength)
      && m.fromSquare == VarcharStored(data.fromSquare, SquareMaxLength)
      && m.toSquare == VarcharStored(data.toSquare, SquareMaxLength)
      && (MoveDataFits(data) ==>
            MoveData(m.moveNotation, m.fenAfterMove, m.pieceMoved, m.fromSquare, m.toSquare,
                     m.isCapture, m.isCheck, m.isCheckmate) == data)
  {
  }

  /** The two tables. The serial counters give the id of the next row, and
      clock is the latest timestamp written so far. */
  class GameStore {
    var games: seq<Game>
    var moves: seq<Move>
    var nextGameId: nat
    var nextMoveId: nat
    var clock: nat

    /** The table constraints, and the facts the serial ids and the clock keep. */
    ghost predicate Valid()
      reads this
    {
      && CodesUnique(games)
      && (forall i, j :: 0 <= i < j < |games| ==> games[i].id < games[j].id)
      && (forall i :: 0 <= i < |games| ==>
            games[i].id < nextGameId && GameRowFits(games[i]) && games[i].updatedAt <= clock)
      && (forall k :: 0 <= k < |moves| ==>
            HasGame(games, moves[k].gameId) && MoveRowFits(moves[k])
            && moves[k].id < nextMoveId && moves[k].createdAt <= clock)
      && (forall k, l :: 0 <= k < l < |moves| ==> moves[k].id < moves[l].id)
      && Chronological(moves)
    }

    /** Empty tables; serial ids start at 1. */
    constructor ()
      ensures Valid()
      ensures games == [] && moves == [] && nextGameId == 1 && nextMoveId == 1 && clock == 0
    {
      games, moves := [], [];
      nextGameId, nextMoveId := 1, 1;
      clock := 0;
    }

    /** createGameRecord: insert one row with the given code and seats, as
        their columns store them; the other columns take their defaults.
        Fails, changing no row, when a value is not accepted by its column
        or the stored code is already taken. */
    method CreateGameRecord(gameCode: string, whitePlayerId: Option<string>, blackPlayerId: Option<string>, now: nat)
      returns (r: Result<Game, StoreError>)
      requires Valid() && clock <= now
      modifies this`games, this`nextGameId, this`clock
      ensures Valid() && clock == now
      ensures var ins := GameInsert(gameCode, whitePlayerId, blackPlayerId);
        var row := InsertedGame(old(nextGameId), ins, now);
        && (!GameInsertAccepted(ins) ==> r == Failure(ValueTooLong))
        && (GameInsertAccepted(ins) && FindByCode(old(games), row.gameCode).Some? ==> r == Failure(UniqueViolation))
        && (GameInsertAccepted(ins) && FindByCode(old(games), row.gameCode).None? ==>
              r == Success(row) && games == old(games) + [row])
      ensures r.Failure? ==> games == old(games)
      ensures nextGameId == old(nextGameId) + (if r.Success? then 1 else 0)
    {
      var ins := GameInsert(gameCode, whitePlayerId, blackPlayerId);
      var row := InsertedGame(nextGameId, ins, now);
      Tick(now);
      if !GameInsertAccepted(ins) {
        return Failure(ValueTooLong);
      }
      if FindByCode(games, row.gameCode).Some? {
        return Failure(UniqueViolation);
      }
      InsertedGameDefaults(row.id, ins, now);
      AppendGame(row);
      r := Success(row);
    }

    /** updateGamePlayer: put the player in the seat of the given colour on
        the row with that code, as the column stores the id. Without such a
        row nothing changes and no row is returned; a player id the column
        does not accept fails. */
    method UpdateGamePlayer(gameCode: string, playerId: string, color: PieceColor)
      returns (r: Result<Option<Game>, StoreError>)
      requires Valid()
      modifies this`games
      ensures Valid()
      ensures var i := IndexOfCode(old(games), gameCode);
        && (i < 0 ==> r == Success(None) && games == old(games))
        && (0 <= i && !VarcharAccepts(playerId, PlayerIdMaxLength) ==> r == Failure(ValueTooLong) && games == old(games))
        && (0 <= i && VarcharAccepts(playerId, PlayerIdMaxLength) ==>
              var stored := VarcharStored(playerId, PlayerIdMaxLength);
              games == old(games)[i := WithSeat(old(games)[i], color, stored)] && r == Success(Some(games[i])))
    {
      var i := IndexOfCode(games, gameCode);
      if i < 0 {
        return Success(None);
      }
      if !VarcharAccepts(playerId, PlayerIdMaxLength) {
        return Failure(ValueTooLong);
      }
      ReplaceRow(i, WithSeat(games[i], color, VarcharStored(playerId, PlayerIdMaxLength)));
      r := Success(Some(games[i]));
    }

    /** updateGameState: set position, turn, status and updated_at on the
        row with that code; without such a row nothing changes. */
    method UpdateGameState(gameCode: string, fenPosition: string, nextTurn: PieceColor, status: GameStatus, now: nat)
      returns (r: Option<Game>)
      requires Valid() && clock <= now
      modifies this`games, this`clock
      ensures Valid() && clock == now
      ensures var i := IndexOfCode(old(games), gameCode);
        && (i < 0 ==> r == None && games == old(games))
        && (0 <= i ==> games == old(games)[i := WithState(old(games)[i], fenPosition, nextTurn, status, now)]
                       && r == Some(games[i]))
    {
      Tick(now);
      var i := IndexOfCode(games, gameCode);
      if i < 0 {
        return None;
      }
      StatusAndTurnColumns(status, status, nextTurn);
      ReplaceRow(i, WithState(games[i], fenPosition, nextTurn, status, now));
      r := Some(games[i]);
    }

    /** updateGameStatus: set status and updated_at on the row with that
        code; without such a row nothing changes. */
    method UpdateGameStatus(gameCode: string, status: GameStatus, now: nat)
      returns (r: Option<Game>)
      requires Valid() && clock <= now
      modifies this`games, this`clock
      ensures Valid() && clock == now
      ensures var i := IndexOfCode(old(games), gameCode);
        && (i < 0 ==> r == None && games == old(games))
        && (0 <= i ==> games == old(games)[i := WithStatus(old(games)[i], status, now)] && r == Some(games[i]))
    {
      Tick(now);
      var i := IndexOfCode(games, gameCode);
      if i < 0 {
        return None;
      }
      StatusAndTurnColumns(status, status, White);
      ReplaceRow(i, WithStatus(games[i], status, now));
      r := Some(games[i]);
    }

    /** recordMove: append one row to the move log with the given game id and
        the fields of the move, as their columns store them. Fails, changing
        nothing, when a field is not accepted by its column or no game has
        that id. */
    method RecordMove(gameId: nat, data: MoveData, now: nat)
      returns (r: Result<Move, StoreError>)
      requires Valid() && clock <= now
      modifies this`moves, this`nextMoveId, this`clock
      ensures Valid() && clock == now
      ensures var ins := MoveInsertOf(gameId, data);
        var row := InsertedMove(old(nextMoveId), ins, now);
        && (!MoveInsertAccepted(ins) ==> r == Failure(ValueTooLong))
        && (MoveInsertAccepted(ins) && !HasGame(games, gameId) ==> r == Failure(ForeignKeyViolation))
        && (MoveInsertAccepted(ins) && HasGame(games, gameId) ==> r == Success(row) && moves == old(moves) + [row])
      ensures r.Failure? ==> moves == old(moves)
      ensures nextMoveId == old(nextMoveId) + (if r.Success? then 1 else 0)
    {
      var ins := MoveInsertOf(gameId, data);
      var row := InsertedMove(nextMoveId, ins, now);
      Tick(now);
      if !MoveInsertAccepted(ins) {
        return Failure(ValueTooLong);
      }
      if !HasGame(games, gameId) {
        return Failure(ForeignKeyViolation);
      }
      InsertedMoveFits(row.id, ins, now);
      AppendMove(row);
      r := Success(row);
    }

    /** Advance the clock to now; no row changes. */
    method Tick(now: nat)
      requires Valid() && clock <= now
      modifies this`clock
      ensures Valid() && clock == now
    {
      clock := now;
    }

    /** Append a row with the next id, a code no row has, fitting columns
        and a timestamp no newer than the clock. */
    method AppendGame(row: Game)
      requires Valid() && row.id == nextGameId && FindByCode(games, row.gameCode).None?
      requires GameRowFits(row) && row.updatedAt <= clock
      modifies this`games, this`nextGameId
      ensures Valid() && games == old(games) + [row] && nextGameId == old(nextGameId) + 1
    {
      ghost var before := games;
      assert forall k :: 0 <= k < |moves| ==> HasGame(before, moves[k].gameId);
      games := games + [row];
      nextGameId := nextGameId + 1;
      forall i | 0 <= i < |before|
        ensures games[i] == before[i] && before[i].gameCode != row.gameCode && before[i].id < row.id
      {
      }
      assert CodesUnique(games);
      forall k | 0 <= k < |moves|
        ensures HasGame(games, moves[k].gameId)
      {
        HasGameAppend(before, row, moves[k].gameId);
      }
    }

    /** Append a move with the next id, of a game that exists, fitting
        columns and stamped with the current clock value. */
    method AppendMove(row: Move)
      requires Valid() && row.id == nextMoveId && HasGame(games, row.gameId)
      requires MoveRowFits(row) && row.createdAt == clock
      modifies this`moves, this`nextMoveId
      ensures Valid() && moves == old(moves) + [row] && nextMoveId == old(nextMoveId) + 1
    {
      ghost var before := moves;
      moves := moves + [row];
      nextMoveId := nextMoveId + 1;
      forall k | 0 <= k < |before|
        ensures moves[k] == before[k] && before[k].id < row.id && before[k].createdAt <= row.createdAt
      {
      }
    }

    /** Replace row i by a row with the same id and code that fits the
        columns and is no newer than the clock. */
    method ReplaceRow(i: int, g: Game)
      requires Valid() && 0 <= i < |games|
      requires g.id == games[i].id && g.gameCode == games[i].gameCode
      requires GameRowFits(g) && g.updatedAt <= clock
      modifies this`games
      ensures Valid() && games == old(games)[i := g]
    {
      ghost var before := games;
      games := games[i := g];
      forall k | 0 <= k < |moves|
        ensures HasGame(games, moves[k].gameId)
      {
        var j :| 0 <= j < |before| && before[j].id == moves[k].gameId;
        assert games[j].id == before[j].id;
      }
    }
  }
}
