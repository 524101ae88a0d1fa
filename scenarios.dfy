/** Scenarios: verified call sequences of the server actions of
    lib/actions/chess.ts on a fresh store, each pinning down one behaviour
    of the actions as they are written. The scenarios work on a store holding a single game, through small steps that
    each call one action on it. */
module Scenarios {
  import opened Wrappers
  import opened Board
  import opened Schema
  import opened Store
  import opened Session

  /** A move by white that fits every column of chess_moves and does not mate. */
  function SampleMove(san: string, fen: string, from: string, to: string): GameMove
  {
    GameMove(0, san, fen, "white_p", from, to, false, false, false)
  }

  // ---------------------------------------------------------------------
  // Steps on a store holding one game

  /** createGame on a fresh store, the creator (if any) asking for white. */
  method StoreWithOneGame(randomText: string, playerId: Option<string>) returns (store: GameStore, g: Game)
    requires IsRandomText(randomText) && SeatFits(playerId)
    ensures fresh(store) && store.Valid() && store.clock == 1 && store.games == [g] && store.moves == []
    ensures g.gameCode == GenerateGameCode(randomText) && g.status == Active && g.nextTurn == White
    ensures g.whitePlayerId == (if Truthy(playerId) then playerId else None) && g.blackPlayerId == None
  {
    store := new GameStore();
    var created := CreateGame(store, Some(PreferWhite), playerId, randomText, 0.0, 1);
    g := created.value;
  }

  /** joinGame on the only game of the store. */
  method JoinOnlyGame(store: GameStore, playerId: string) returns (r: Result<Option<Game>, string>)
    requires store.Valid() && |store.games| == 1 && |playerId| <= PlayerIdMaxLength
    modifies store`games
    ensures store.Valid() && |store.games| == 1
    ensures var g := old(store.games[0]);
      && (SeatOpen(g, White) ==> store.games[0] == WithSeat(g, White, playerId) && r == Success(Some(store.games[0])))
      && (!SeatOpen(g, White) && SeatOpen(g, Black) ==>
            store.games[0] == WithSeat(g, Black, playerId) && r == Success(Some(store.games[0])))
      && (!SeatOpen(g, White) && !SeatOpen(g, Black) ==> store.games == old(store.games) && r == Failure(JoinFailed))
  {
    assert IndexOfCode(store.games, store.games[0].gameCode) == 0;
    r := JoinGame(store, store.games[0].gameCode, playerId);
  }

  /** makeMove on the only game of the store, when it is active, with a
      move that fits the columns and does not mate. */
  method PlayOnOnlyGame(store: GameStore, move: GameMove, now: nat) returns (r: Result<Option<Game>, string>, recorded: Move)
    requires store.Valid() && store.clock <= now
    requires |store.games| == 1 && store.games[0].status == Active
    requires |move.moveNotation| <= NotationMaxLength && |move.pieceMoved| <= PieceMovedMaxLength
    requires |move.fromSquare| <= SquareMaxLength && |move.toSquare| <= SquareMaxLength
    requires !move.isCheckmate
    modifies store`games, store`moves, store`nextMoveId, store`clock
    ensures store.Valid() && store.clock == now
    ensures |store.games| == 1 && store.games[0].status == Active
    ensures store.games[0].id == old(store.games[0].id) && store.games[0].gameCode == old(store.games[0].gameCode)
    ensures store.games[0].nextTurn == Opposite(old(store.games[0].nextTurn))
    ensures r == Success(Some(store.games[0]))
    ensures store.moves == old(store.moves) + [recorded]
    ensures recorded.gameId == store.games[0].id && recorded.pieceMoved == move.pieceMoved
  {
    assert IndexOfCode(store.games, store.games[0].gameCode) == 0;
    r := MakeMove(store, store.games[0].gameCode, move, now);
    recorded := store.moves[|store.moves| - 1];
  }

  /** updateGameStatus on the only game of the store. */
  method SetStatusOfOnlyGame(store: GameStore, status: GameStatus, now: nat)
    requires store.Valid() && store.clock <= now && |store.games| == 1
    modifies store`games, store`clock
    ensures store.Valid() && store.clock == now && |store.games| == 1
    ensures store.games[0] == WithStatus(old(store.games[0]), status, now)
  {
    assert IndexOfCode(store.games, store.games[0].gameCode) == 0;
    var _ := UpdateGameStatus(store, store.games[0].gameCode, status, now);
  }

  /** getGameMoves on the only game of the store: every move in the log
      belongs to it. */
  method MovesOfOnlyGame(store: GameStore) returns (r: Result<seq<Move>, string>)
    requires store.Valid() && |store.games| == 1
    ensures r == Success(store.moves)
  {
    assert IndexOfCode(store.games, store.games[0].gameCode) == 0;
    forall k | 0 <= k < |store.moves|
      ensures store.moves[k].gameId == store.games[0].id
    {
      assert HasGame(store.games, store.moves[k].gameId);
    }
    MovesOfAll(store.moves, store.games[0].id);
    r := GetGameMoves(store, store.games[0].gameCode);
  }

  // ---------------------------------------------------------------------
  // Scenarios

  /** A game created without a player has both seats open; the first joiner
      takes white, the second black, and a third is turned away. */
  method SeatsFillWhiteThenBlack()
    returns (first: Result<Option<Game>, string>, second: Result<Option<Game>, string>, third: Result<Option<Game>, string>)
    ensures first.Success? && first.value.Some?
    ensures first.value.value.whitePlayerId == Some("alice") && first.value.value.blackPlayerId == None
    ensures second.Success? && second.value.Some?
    ensures second.value.value.whitePlayerId == Some("alice") && second.value.value.blackPlayerId == Some("bob")
    ensures third == Failure(JoinFailed)
  {
    var store, g := StoreWithOneGame("0.abc123xyz", None);
    first := JoinOnlyGame(store, "alice");
    second := JoinOnlyGame(store, "bob");
    third := JoinOnlyGame(store, "carol");
  }

  /** A creator whose player id is the empty string counts as no creator:
      the game starts with both seats open. */
  method EmptyPlayerIdTakesNoSeat() returns (g: Game)
    ensures g.whitePlayerId == None && g.blackPlayerId == None
  {
    var store;
    store, g := StoreWithOneGame("0.q1", Some(""));
  }

  /** A player id longer than its column is refused when the excess holds
      anything but spaces; one whose excess is a single space is accepted,
      and the seat stores it without that space. */
  method OverlongPlayerIds() returns (refused: Result<Option<Game>, string>, joined: Result<Option<Game>, string>)
    ensures refused == Failure(JoinFailed)
    ensures joined.Success? && joined.value.Some?
    ensures joined.value.value.whitePlayerId == Some(seq(PlayerIdMaxLength, _ => 'a'))
  {
    var store, g := StoreWithOneGame("0.pad", None);
    var name := seq(PlayerIdMaxLength, _ => 'a');
    var tooLong := name + "a";
    var padded := name + " ";
    assert tooLong[PlayerIdMaxLength] == 'a';
    assert VarcharAccepts(padded, PlayerIdMaxLength);
    assert padded[..PlayerIdMaxLength] == name;
    assert IndexOfCode(store.games, store.games[0].gameCode) == 0;
    refused := JoinGame(store, store.games[0].gameCode, tooLong);
    joined := JoinGame(store, store.games[0].gameCode, padded);
  }

  /** makeMove does not compare the mover with the side to move: two moves
      in a row by white are both accepted, both are recorded, and the stored
      turn goes back to white. */
  method NoTurnCheck() returns (first: Result<Option<Game>, string>, second: Result<Option<Game>, string>,
      moves: Result<seq<Move>, string>, m1: Move, m2: Move)
    ensures first.Success? && first.value.Some? && first.value.value.nextTurn == Black
    ensures second.Success? && second.value.Some? && second.value.value.nextTurn == White
    ensures moves == Success([m1, m2]) && m1.pieceMoved == "white_p" && m2.pieceMoved == "white_p"
  {
    var store, g := StoreWithOneGame("0.k2", Some("alice"));
    first, m1 := PlayOnOnlyGame(store, SampleMove("e4", "fen1", "e2", "e4"), 2);
    second, m2 := PlayOnOnlyGame(store, SampleMove("d4", "fen2", "d2", "d4"), 3);
    assert store.moves == [m1, m2];
    moves := MovesOfOnlyGame(store);
  }

  /** updateGameStatus reports success for a code no game has, and it can
      set a resigned game back to active, after which moves are accepted
      again. */
  method StatusIsUnchecked() returns (missing: Result<bool, string>, refused: Result<Option<Game>, string>,
      accepted: Result<Option<Game>, string>)
    ensures missing == Success(true)
    ensures refused == Failure(MoveFailed)
    ensures accepted.Success? && accepted.value.Some? && accepted.value.value.status == Active
  {
    var store, g := StoreWithOneGame("0.zz", None);
    missing := UpdateGameStatus(store, "NOPE", Draw, 2);
    SetStatusOfOnlyGame(store, Resigned, 3);
    assert IndexOfCode(store.games, store.games[0].gameCode) == 0;
    refused := MakeMove(store, store.games[0].gameCode, SampleMove("e4", "fen1", "e2", "e4"), 4);
    SetStatusOfOnlyGame(store, Active, 5);
    var recorded;
    accepted, recorded := PlayOnOnlyGame(store, SampleMove("e4", "fen1", "e2", "e4"), 6);
  }
}
