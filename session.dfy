/** The session manager of lib/actions/chess.ts: the server actions over
    the store. joinGame and makeMove read the game by its code, check it,
    then write; createGame and updateGameStatus write without reading
    first; getGameByCode and getGameMoves only read. Every failure,
    whatever its cause, is rethrown as one generic message per action, and
    nothing else of the cause reaches the caller. The random sources of
    createGame are inputs: the text of Math.random().toString(36) for the
    code and a second random number for the seat; timestamps are the
    injected clock value now. */
module Session {
  import opened Wrappers
  import opened Board
  import opened Schema
  import opened Store

  datatype ColorPreference = PreferWhite | PreferBlack | PreferRandom

  /** The move a client submits (GameMove); its gameId is not used. */
  datatype GameMove = GameMove(
    gameId: int,
    moveNotation: string,
    fenAfterMove: string,
    pieceMoved: string,
    fromSquare: string,
    toSquare: string,
    isCapture: bool,
    isCheck: bool,
    isCheckmate: bool)

  const CreateFailed: string := "Failed to create game"
  const JoinFailed: string := "Failed to join game"
  const MoveFailed: string := "Failed to make move"
  const MovesFailed: string := "Failed to get game moves"

  /** JavaScript truthiness of a value that is a string or null/undefined:
      the empty string is as false as null. */
  predicate Truthy(s: Option<string>)
  {
    s.Some? && s.value != ""
  }

  // ---------------------------------------------------------------------
  // generateGameCode

  predicate IsBase36Digit(c: char)
  {
    '0' <= c <= '9' || 'a' <= c <= 'z'
  }

  predicate IsCodeChar(c: char)
  {
    '0' <= c <= '9' || 'A' <= c <= 'Z'
  }

  /** The text of Math.random().toString(36) for a number in [0, 1):
      "0" for zero, otherwise "0." followed by base-36 digits. */
  predicate IsRandomText(s: string)
  {
    s == "0" || (|s| >= 3 && s[0] == '0' && s[1] == '.' && forall i :: 2 <= i < |s| ==> IsBase36Digit(s[i]))
  }

  /** String.prototype.substring: both bounds are clamped to [0, |s|] and
      swapped when the first exceeds the second. */
  function Substring(s: string, start: int, end: int): (r: string)
    ensures |r| <= |s|
  {
    var a := if start < 0 then 0 else if start > |s| then |s| else start;
    var b := if end < 0 then 0 else if end > |s| then |s| else end;
    if a <= b then s[a..b] else s[b..a]
  }

  function UpperChar(c: char): char
  {
    if 'a' <= c <= 'z' then (c as int - 32) as char else c
  }

  function LowerChar(c: char): char
  {
    if 'A' <= c <= 'Z' then (c as int + 32) as char else c
  }

  /** toUpperCase, on the ASCII letters. */
  function ToUpper(s: string): (r: string)
    ensures |r| == |s|
    ensures forall i :: 0 <= i < |s| ==> r[i] == UpperChar(s[i])
  {
    seq(|s|, i requires 0 <= i < |s| => UpperChar(s[i]))
  }

  /** generateGameCode: characters 2 to 7 of the random text, upper-cased.
      The code has at most six characters, all digits or capital letters;
      lower-casing it gives back those characters of the text; and it is
      empty exactly when the random number was zero. */
  function GenerateGameCode(randomText: string): (code: string)
    requires IsRandomText(randomText)
    ensures |code| == if randomText == "0" then 0 else if |randomText| >= 8 then 6 else |randomText| - 2
    ensures forall i :: 0 <= i < |code| ==> IsCodeChar(code[i])
    ensures forall i :: 0 <= i < |code| ==> LowerChar(code[i]) == randomText[2 + i]
    ensures |code| <= 6 < GameCodeMaxLength
  {
    ToUpper(Substring(randomText, 2, 8))
  }

  // ---------------------------------------------------------------------
  // createGame

  /** The colour preference in effect: random when the caller gave none. */
  function Preference(colorPreference: Option<ColorPreference>): ColorPreference
  {
    if colorPreference.None? then PreferRandom else colorPreference.value
  }

  /** The seats createGame fills from the colour preference and the player id. roll is the
      second random number in [0, 1). */
  method AssignSeats(colorPreference: Option<ColorPreference>, playerId: Option<string>, roll: real)
    returns (whitePlayerId: Option<string>, blackPlayerId: Option<string>)
    requires 0.0 <= roll < 1.0
    ensures !Truthy(playerId) ==> whitePlayerId == None && blackPlayerId == None
    ensures Truthy(playerId) && Preference(colorPreference) == PreferWhite ==>
              whitePlayerId == playerId && blackPlayerId == None
    ensures Truthy(playerId) && Preference(colorPreference) == PreferBlack ==>
              whitePlayerId == None && blackPlayerId == playerId
    ensures Truthy(playerId) && Preference(colorPreference) == PreferRandom ==>
              (whitePlayerId == playerId && blackPlayerId == None) != (whitePlayerId == None && blackPlayerId == playerId)
    ensures Truthy(playerId) && Preference(colorPreference) == PreferRandom ==>
              (whitePlayerId == playerId <==> roll > 0.5)
  {
    var preference := Preference(colorPreference);
    whitePlayerId := None;
    blackPlayerId := None;
    if Truthy(playerId) {
      if preference == PreferWhite {
        whitePlayerId := playerId;
      } else if preference == PreferBlack {
        blackPlayerId := playerId;
      } else {
        if roll > 0.5 {
          whitePlayerId := playerId;
        } else {
          blackPlayerId := playerId;
        }
      }
    }
  }

  /** createGame: generate a code, choose the seats and insert the game; a
      player id with trailing spaces past the column width is stored cut.
      The code is not checked against the store first: a code already in use
      makes the insert, and so the action, fail. */
  method CreateGame(store: GameStore, colorPreference: Option<ColorPreference>, playerId: Option<string>,
                    randomText: string, roll: real, now: nat)
    returns (r: Result<Game, string>)
    requires store.Valid() && store.clock <= now
    requires IsRandomText(randomText) && 0.0 <= roll < 1.0
    modifies store`games, store`nextGameId, store`clock
    ensures store.Valid() && store.clock == now
    ensures var code := GenerateGameCode(randomText);
      r.Success? <==> FindByCode(old(store.games), code).None? && (!Truthy(playerId) || SeatAccepts(playerId))
    ensures r.Failure? ==> r == Failure(CreateFailed) && store.games == old(store.games)
    ensures r.Success? ==>
      && store.games == old(store.games) + [r.value]
      && r.value.id == old(store.nextGameId)
      && r.value.gameCode == GenerateGameCode(randomText)
      && r.value.fenPosition == DefaultFen && r.value.pgn == "" && r.value.nextTurn == White && r.value.status == Active
      && r.value.createdAt == now && r.value.updatedAt == now
    ensures r.Success? && !Truthy(playerId) ==> r.value.whitePlayerId == None && r.value.blackPlayerId == None
    ensures r.Success? && Truthy(playerId) && Preference(colorPreference) == PreferWhite ==>
              r.value.whitePlayerId == StoredSeat(playerId) && r.value.blackPlayerId == None
    ensures r.Success? && Truthy(playerId) && Preference(colorPreference) == PreferBlack ==>
              r.value.whitePlayerId == None && r.value.blackPlayerId == StoredSeat(playerId)
    ensures r.Success? && Truthy(playerId) && Preference(colorPreference) == PreferRandom ==>
              (if roll > 0.5 then r.value.whitePlayerId == StoredSeat(playerId) && r.value.blackPlayerId == None
               else r.value.whitePlayerId == None && r.value.blackPlayerId == StoredSeat(playerId))
  {
    var gameCode := GenerateGameCode(randomText);
    var whitePlayerId, blackPlayerId := AssignSeats(colorPreference, playerId, roll);
    var created := store.CreateGameRecord(gameCode, whitePlayerId, blackPlayerId, now);
    InsertedGameDefaults(old(store.nextGameId), GameInsert(gameCode, whitePlayerId, blackPlayerId), now);
    if created.Failure? {
      return Failure(CreateFailed);
    }
    r := Success(created.value);
  }

  // ---------------------------------------------------------------------
  // joinGame

  /** A seat joinGame treats as open: null or the empty string. */
  predicate SeatOpen(g: Game, c: PieceColor)
  {
    !Truthy(Seat(g, c))
  }

  /** joinGame: put the player in the white seat when it is open, otherwise
      in the black seat when that is open; only that one seat is written.
      The seat stores the id as its column does. Fails without any write
      when there is no such game, when both seats are taken, or when the
      column does not accept the player id. */
  method JoinGame(store: GameStore, gameCode: string, playerId: string)
    returns (r: Result<Option<Game>, string>)
    requires store.Valid()
    modifies store`games
    ensures store.Valid()
    ensures var i := IndexOfCode(old(store.games), gameCode);
      && (i < 0 ==> r == Failure(JoinFailed) && store.games == old(store.games))
      && (0 <= i && !SeatOpen(old(store.games)[i], White) && !SeatOpen(old(store.games)[i], Black) ==>
            r == Failure(JoinFailed) && store.games == old(store.games))
      && (0 <= i && (SeatOpen(old(store.games)[i], White) || SeatOpen(old(store.games)[i], Black)) ==>
            var seat := if SeatOpen(old(store.games)[i], White) then White else Black;
            var g' := WithSeat(old(store.games)[i], seat, VarcharStored(playerId, PlayerIdMaxLength));
            && (VarcharAccepts(playerId, PlayerIdMaxLength) ==>
                  r == Success(Some(g')) && store.games == old(store.games)[i := g'])
            && (!VarcharAccepts(playerId, PlayerIdMaxLength) ==>
                  r == Failure(JoinFailed) && store.games == old(store.games)))
  {
    var game := FindByCode(store.games, gameCode);
    if game.None? {
      return Failure(JoinFailed);
    }
    var result: Result<Option<Game>, StoreError>;
    if SeatOpen(game.value, White) {
      result := store.UpdateGamePlayer(gameCode, playerId, White);
    } else if SeatOpen(game.value, Black) {
      result := store.UpdateGamePlayer(gameCode, playerId, Black);
    } else {
      return Failure(JoinFailed);
    }
    if result.Failure? {
      return Failure(JoinFailed);
    }
    r := Success(result.value);
  }

  // ---------------------------------------------------------------------
  // getGameByCode

  /** getGameByCode: the game with that code, or null when there is none. */
  method GetGameByCode(store: GameStore, gameCode: string) returns (r: Result<Option<Game>, string>)
    requires store.Valid()
    ensures r.Success?
    ensures r.value.None? <==> forall k :: 0 <= k < |store.games| ==> store.games[k].gameCode != gameCode
    ensures forall k :: 0 <= k < |store.games| && store.games[k].gameCode == gameCode ==>
              r.value == Some(store.games[k])
  {
    var game := FindByCode(store.games, gameCode);
    forall k | 0 <= k < |store.games| && store.games[k].gameCode == gameCode
      ensures game == Some(store.games[k])
    {
      FindByCodeUnique(store.games, k);
    }
    r := Success(game);
  }

  // ---------------------------------------------------------------------
  // makeMove

  /** The status a move leaves behind: checkmate when the move mates, else
      active. A move never produces stalemate, draw or resignation. */
  function StatusAfterMove(isCheckmate: bool): (s: GameStatus)
    ensures s == Checkmate <==> isCheckmate
    ensures s == Active <==> !isCheckmate
  {
    if isCheckmate then Checkmate else Active
  }

  /** The fields of the move that recordMove receives. */
  function MoveFields(move: GameMove): MoveData
  {
    MoveData(move.moveNotation, move.fenAfterMove, move.pieceMoved, move.fromSquare, move.toSquare,
             move.isCapture, move.isCheck, move.isCheckmate)
  }

  /** makeMove: on an active game, write the new position, the opposite
      turn and the new status, then append the move under the game's own id
      (the client's gameId is ignored). The mover's side is never compared
      with the stored turn. Fails without writing when there is no such game
      or it is not active. The two writes are separate: when the move row is
      refused, the game row has already been updated and stays so. */
  method MakeMove(store: GameStore, gameCode: string, move: GameMove, now: nat)
    returns (r: Result<Option<Game>, string>)
    requires store.Valid() && store.clock <= now
    modifies store`games, store`moves, store`nextMoveId, store`clock
    ensures store.Valid() && old(store.clock) <= store.clock <= now
    ensures var i := IndexOfCode(old(store.games), gameCode);
      && (i < 0 ==> r == Failure(MoveFailed) && store.games == old(store.games) && store.moves == old(store.moves))
      && (0 <= i && old(store.games)[i].status != Active ==>
            r == Failure(MoveFailed) && store.games == old(store.games) && store.moves == old(store.moves))
    ensures var i := IndexOfCode(old(store.games), gameCode);
      0 <= i && old(store.games)[i].status == Active ==>
        var g := old(store.games)[i];
        var g' := WithState(g, move.fenAfterMove, Opposite(g.nextTurn), StatusAfterMove(move.isCheckmate), now);
        var ins := MoveInsertOf(g.id, MoveFields(move));
        var row := InsertedMove(old(store.nextMoveId), ins, now);
        && store.games == old(store.games)[i := g']
        && (MoveInsertAccepted(ins) ==>
              && r == Success(Some(g'))
              && store.moves == old(store.moves) + [row]
              && MovesOf(store.moves, g.id) == MovesOf(old(store.moves), g.id) + [row])
        && (!MoveInsertAccepted(ins) ==> r == Failure(MoveFailed) && store.moves == old(store.moves))
        && (forall id :: id != g.id ==> MovesOf(store.moves, id) == MovesOf(old(store.moves), id))
  {
    var game := FindByCode(store.games, gameCode);
    if game.None? {
      return Failure(MoveFailed);
    }
    var g := game.value;
    if g.status != Active {
      return Failure(MoveFailed);
    }
    ghost var i := IndexOfCode(store.games, gameCode);
    ghost var log := store.moves;
    var nextTurn := Opposite(g.nextTurn);
    var status := StatusAfterMove(move.isCheckmate);
    var _ := store.UpdateGameState(gameCode, move.fenAfterMove, nextTurn, status, now);
    assert store.games[i].id == g.id;
    var recorded := store.RecordMove(g.id, MoveFields(move), now);
    if recorded.Failure? {
      return Failure(MoveFailed);
    }
    forall id | true
      ensures MovesOf(store.moves, id) == MovesOf(log, id) + (if recorded.value.gameId == id then [recorded.value] else [])
    {
      MovesOfAppend(log, recorded.value, id);
    }
    var updatedGame := FindByCode(store.games, gameCode);
    FindByCodeUnique(store.games, i);
    r := Success(updatedGame);
  }

  // ---------------------------------------------------------------------
  // getGameMoves

  /** getGameMoves: the moves of the game with that code, every one and
      only those, in ascending created_at order; fails when there is no
      such game. */
  method GetGameMoves(store: GameStore, gameCode: string) returns (r: Result<seq<Move>, string>)
    requires store.Valid()
    ensures r.Failure? <==> forall k :: 0 <= k < |store.games| ==> store.games[k].gameCode != gameCode
    ensures r.Failure? ==> r.error == MovesFailed
    ensures forall k :: 0 <= k < |store.games| && store.games[k].gameCode == gameCode ==>
              && r == Success(MovesOf(store.moves, store.games[k].id))
              && (forall j :: 0 <= j < |r.value| ==> r.value[j].gameId == store.games[k].id)
              && Chronological(r.value)
  {
    var game := FindByCode(store.games, gameCode);
    if game.None? {
      return Failure(MovesFailed);
    }
    forall k | 0 <= k < |store.games| && store.games[k].gameCode == gameCode
      ensures game == Some(store.games[k])
    {
      FindByCodeUnique(store.games, k);
    }
    MovesOfChronological(store.moves, game.value.id);
    r := Success(MovesOf(store.moves, game.value.id));
  }

  // ---------------------------------------------------------------------
  // updateGameStatus

  /** updateGameStatus: set the status of the game with that code, whatever
      its current status, and report success, also when no game has that
      code. */
  method UpdateGameStatus(store: GameStore, gameCode: string, status: GameStatus, now: nat)
    returns (r: Result<bool, string>)
    requires store.Valid() && store.clock <= now
    modifies store`games, store`clock
    ensures store.Valid() && store.clock == now
    ensures r == Success(true)
    ensures var i := IndexOfCode(old(store.games), gameCode);
      && (i < 0 ==> store.games == old(store.games))
      && (0 <= i ==> store.games == old(store.games)[i := WithStatus(old(store.games)[i], status, now)])
  {
    var _ := store.UpdateGameStatus(gameCode, status, now);
    r := Success(true);
  }
}
