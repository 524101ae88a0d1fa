/** The board component of components/chess/ChessBoard.tsx: the selection
    state a click updates, the move it submits, the flipped view for the
    black player and the shading of the squares. The chess engine the
    component holds is not modelled: what it answers (the destinations of a
    piece, the result of a move, the position and check flags after it) is
    given to a click as input, and so is whether the server action makeMove
    resolved or threw. The board itself is shown only through its position
    text, since turning a position into squares is the engine's work. */
module BoardView {
  import opened Wrappers
  import opened Board
  import opened Schema
  import opened Store
  import opened Session

  /** A piece as the component holds it: the engine's type letter and a colour. */
  datatype ViewPiece = ViewPiece(kind: char, color: PieceColor)

  /** A square as the component holds it: its coordinate ("e4") and its piece. */
  datatype ViewSquare = ViewSquare(file: string, rank: string, coordinate: string, piece: Option<ViewPiece>)

  /** The move the engine reports back: its SAN, the mover's colour, the
      moved piece's letter and the captured piece's letter, if any. */
  datatype EngineMove = EngineMove(san: string, color: PieceColor, piece: char, captured: Option<char>)

  /** The engine's answer to a move request: the move, and the position and
      the check and checkmate flags after it. */
  datatype EngineReply = EngineReply(move: EngineMove, fen: string, inCheck: bool, isCheckmate: bool)

  /** What the engine does with a move request: plays it, refuses it (a
      falsy result) or throws. */
  datatype EngineOutcome = Played(reply: EngineReply) | Refused | Threw

  /** What the component asks the engine to play. */
  datatype MoveRequest = MoveRequest(from: string, to: string, promotion: char)

  /** The promotion piece every move request carries: a queen. */
  const Promotion: char := 'q'

  /** The moved-piece descriptor: the colour's name, '_', the piece letter. */
  function PieceMoved(color: PieceColor, piece: char): (s: string)
    ensures |s| == 7 <= PieceMovedMaxLength
    ensures s[..5] == ColorName(color) && s[5] == '_' && s[6] == piece
  {
    ColorName(color) + "_" + [piece]
  }

  /** The move data the component submits for a move from one clicked
      square to another. */
  function MoveDataOf(from: string, to: string, reply: EngineReply): (d: GameMove)
    ensures d.isCapture <==> reply.move.captured.Some?
    ensures d.pieceMoved == PieceMoved(reply.move.color, reply.move.piece)
    ensures d.fromSquare == from && d.toSquare == to
    ensures d.moveNotation == reply.move.san && d.fenAfterMove == reply.fen
    ensures d.isCheck == reply.inCheck && d.isCheckmate == reply.isCheckmate
  {
    GameMove(0, reply.move.san, reply.fen, PieceMoved(reply.move.color, reply.move.piece), from, to,
             reply.move.captured.Some?, reply.inCheck, reply.isCheckmate)
  }

  /** The values makeMove asks the store to insert for this move data are
      accepted by the columns of chess_moves, and stored unchanged, whenever
      the clicked coordinates have two characters and the SAN at most ten;
      so the move row is never refused. */
  lemma MoveDataFitsMoveRow(id: nat, gameId: nat, from: string, to: string, reply: EngineReply, now: nat)
    requires |from| == 2 && |to| == 2 && |reply.move.san| <= NotationMaxLength
    ensures var ins := MoveInsertOf(gameId, MoveFields(MoveDataOf(from, to, reply)));
      var m := InsertedMove(id, ins, now);
      && MoveInsertAccepted(ins)
      && m.moveNotation == reply.move.san && m.fromSquare == from && m.toSquare == to
      && m.pieceMoved == PieceMoved(reply.move.color, reply.move.piece)
  {
  }

  /** The reverse of a sequence (slice().reverse()). */
  function Reverse<T>(s: seq<T>): (r: seq<T>)
    ensures |r| == |s|
    ensures forall i :: 0 <= i < |s| ==> r[i] == s[|s| - 1 - i]
  {
    if |s| == 0 then [] else Reverse(s[1..]) + [s[0]]
  }

  /** The board turned half round: ranks in reverse order, each reversed. */
  function Flip<T>(board: seq<seq<T>>): seq<seq<T>>
  {
    var ranks := Reverse(board);
    seq(|ranks|, i requires 0 <= i < |ranks| => Reverse(ranks[i]))
  }

  /** displayBoard: the board as shown to the player. White sees it as it
      is; black sees display square (i, j) at board square (7 - i, 7 - j). */
  function DisplayBoard<T>(board: seq<seq<T>>, playerColor: PieceColor): (d: seq<seq<T>>)
    ensures |d| == |board|
    ensures playerColor == White ==> d == board
    ensures playerColor == Black ==> forall i, j :: 0 <= i < |board| && 0 <= j < |board[|board| - 1 - i]| ==>
              |d[i]| == |board[|board| - 1 - i]| && d[i][j] == board[|board| - 1 - i][|board[|board| - 1 - i]| - 1 - j]
  {
    if playerColor == Black then Flip(board) else board
  }

  /** Turning the board half round twice gives it back. */
  lemma FlipTwice<T>(board: seq<seq<T>>)
    ensures Flip(Flip(board)) == board
  {
    var f := Flip(board);
    var ff := Flip(f);
    assert |ff| == |board|;
    forall i | 0 <= i < |board|
      ensures ff[i] == board[i]
    {
      assert f[|board| - 1 - i] == Reverse(board[i]);
      assert ff[i] == Reverse(f[|board| - 1 - i]);
    }
  }

  /** On an 8 by 8 board, black's view puts board square (7 - i, 7 - j) at
      display square (i, j). */
  lemma BlackViewOn8x8<T>(board: seq<seq<T>>, i: int, j: int)
    requires |board| == 8 && forall r :: 0 <= r < 8 ==> |board[r]| == 8
    requires 0 <= i < 8 && 0 <= j < 8
    ensures DisplayBoard(board, Black)[i][j] == board[7 - i][7 - j]
  {
  }

  /** isLight: the shading of the display square (rankIndex, fileIndex). */
  predicate IsLight(rankIndex: int, fileIndex: int)
  {
    (rankIndex + fileIndex) % 2 == 0
  }

  /** A board square has the same shade in both views, and the shading is
      the chessboard's: a1 (board square (7, 0)) is dark and h1 (board
      square (7, 7)) light. */
  lemma ShadingIsViewIndependent(r: int, f: int)
    requires 0 <= r < 8 && 0 <= f < 8
    ensures IsLight(r, f) <==> IsLight(7 - r, 7 - f)
    ensures !IsLight(7, 0) && IsLight(7, 7)
  {
  }

  /** The selection state of one board component. The component's own
      engine is abstracted away; boardFen is the position the board shows. */
  class BoardController {
    const gameCode: string
    const isPlayerTurn: bool
    const playerColor: PieceColor
    var selectedSquare: Option<ViewSquare>
    var validMoves: seq<string>
    var boardFen: string
    var lastMove: Option<(string, string)>
    var isCheck: bool

    /** Destinations are listed only for a selection, and only a square
        holding one of the player's own pieces is ever selected. */
    ghost predicate Valid()
      reads this
    {
      && (selectedSquare.None? ==> validMoves == [])
      && (selectedSquare.Some? ==>
            selectedSquare.value.piece.Some? && selectedSquare.value.piece.value.color == playerColor)
    }

    /** The component as first rendered: nothing selected, no last move. */
    constructor (gameCode: string, initialFen: string, isPlayerTurn: bool, playerColor: PieceColor, inCheck: bool)
      ensures Valid()
      ensures this.gameCode == gameCode && this.isPlayerTurn == isPlayerTurn && this.playerColor == playerColor
      ensures selectedSquare == None && validMoves == [] && boardFen == initialFen && lastMove == None
      ensures isCheck == inCheck
    {
      this.gameCode := gameCode;
      this.isPlayerTurn := isPlayerTurn;
      this.playerColor := playerColor;
      selectedSquare := None;
      validMoves := [];
      boardFen := initialFen;
      lastMove := None;
      isCheck := inCheck;
    }

    /** Whether a click on the square is handled at all: only on the
        player's turn, and never on a square holding an opponent's piece. */
    predicate Clickable(square: ViewSquare)
      reads this
    {
      isPlayerTurn && !(square.piece.Some? && square.piece.value.color != playerColor)
    }

    /** handleSquareClick. destinations is what the engine lists for the
        clicked square, outcome what it does with the move request, and
        serverAccepted whether makeMove resolved. Returns the move request
        (if one was made), the move data given to makeMove and the one
        relayed to the other players. An exception from the engine or from
        makeMove is caught, and the selection is then left as it was. */
    method HandleSquareClick(square: ViewSquare, destinations: seq<string>, outcome: EngineOutcome, serverAccepted: bool)
      returns (request: Option<MoveRequest>, submitted: Option<GameMove>, relayed: Option<GameMove>)
      requires Valid()
      modifies this`selectedSquare, this`validMoves, this`boardFen, this`lastMove, this`isCheck
      ensures Valid()
      ensures request.Some? ==> request.value.promotion == Promotion
      ensures relayed == (if serverAccepted then submitted else None)
      // A click that is not handled changes nothing.
      ensures !Clickable(square) ==>
        && request == None && submitted == None
        && selectedSquare == old(selectedSquare) && validMoves == old(validMoves)
        && boardFen == old(boardFen) && lastMove == old(lastMove) && isCheck == old(isCheck)
      // First click: select one's own piece with its destinations; an empty square changes nothing.
      ensures Clickable(square) && old(selectedSquare).None? ==>
        && request == None && submitted == None
        && boardFen == old(boardFen) && lastMove == old(lastMove) && isCheck == old(isCheck)
        && (square.piece.Some? ==> selectedSquare == Some(square) && validMoves == destinations)
        && (square.piece.None? ==> selectedSquare == None && validMoves == old(validMoves))
      // Clicking the selected square again clears the selection.
      ensures Clickable(square) && old(selectedSquare).Some? && old(selectedSquare).value.coordinate == square.coordinate ==>
        && request == None && submitted == None
        && selectedSquare == None && validMoves == []
        && boardFen == old(boardFen) && lastMove == old(lastMove) && isCheck == old(isCheck)
      // Any other square: a move is tried only when it is a listed destination.
      ensures Clickable(square) && old(selectedSquare).Some? && old(selectedSquare).value.coordinate != square.coordinate ==>
        var from, to := old(selectedSquare).value.coordinate, square.coordinate;
        && (to !in old(validMoves) ==> request == None)
        && (to in old(validMoves) ==> request == Some(MoveRequest(from, to, Promotion)))
        && (request.None? || outcome.Refused? ==>
              && submitted == None
              && selectedSquare == None && validMoves == []
              && boardFen == old(boardFen) && lastMove == old(lastMove) && isCheck == old(isCheck))
        && (request.Some? && outcome.Threw? ==>
              && submitted == None
              && selectedSquare == old(selectedSquare) && validMoves == old(validMoves)
              && boardFen == old(boardFen) && lastMove == old(lastMove) && isCheck == old(isCheck))
        && (request.Some? && outcome.Played? ==>
              && submitted == Some(MoveDataOf(from, to, outcome.reply))
              && boardFen == outcome.reply.fen && lastMove == Some((from, to)) && isCheck == outcome.reply.inCheck
              && (serverAccepted ==> selectedSquare == None && validMoves == [])
              && (!serverAccepted ==> selectedSquare == old(selectedSquare) && validMoves == old(validMoves)))
    {
      request, submitted, relayed := None, None, None;
      if !isPlayerTurn {
        return;
      }
      if square.piece.Some? && square.piece.value.color != playerColor {
        return;
      }
      if selectedSquare.None? {
        if square.piece.Some? && square.piece.value.color == playerColor {
          selectedSquare := Some(square);
          validMoves := destinations;
        }
      } else if selectedSquare.value.coordinate == square.coordinate {
        selectedSquare := None;
        validMoves := [];
      } else {
        var from := selectedSquare.value.coordinate;
        var to := square.coordinate;
        if to in validMoves {
          request := Some(MoveRequest(from, to, Promotion));
          match outcome {
            case Threw =>
              // The engine threw: caught and logged, selection left as it was.
              return;
            case Refused =>
            case Played(reply) =>
              boardFen := reply.fen;
              lastMove := Some((from, to));
              isCheck := reply.inCheck;
              var moveData := MoveDataOf(from, to, reply);
              submitted := Some(moveData);
              if !serverAccepted {
                // makeMove threw: caught and logged, selection left as it was.
                return;
              }
              relayed := Some(moveData);
          }
        }
        selectedSquare := None;
        validMoves := [];
      }
    }
  }
}
