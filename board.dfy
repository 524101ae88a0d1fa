/** The board vocabulary of lib/chess/types.ts: piece types and colours, a
    square with its file and rank labels, and the initial board, built as an
    8 by 8 array whose outer index is the rank index (0 = rank 8, the black
    side) and whose inner index is the file index (0 = file a). */
module Board {
  import opened Wrappers

  datatype PieceType = Pawn | Rook | Knight | Bishop | Queen | King

  datatype PieceColor = White | Black

  datatype ChessPiece = ChessPiece(kind: PieceType, color: PieceColor)

  /** A square of the board: its file letter, its rank digit and what stands on it. */
  datatype Square = Square(file: string, rank: string, piece: Option<ChessPiece>)

  type BoardState = seq<seq<Square>>

  /** The text of a colour, as stored in the next_turn column and used in
      the moved-piece descriptor. */
  function ColorName(c: PieceColor): (s: string)
    ensures |s| == 5
    ensures s[0] == (if c == White then 'w' else 'b')
  {
    match c
    case White => "white"
    case Black => "black"
  }

  /** The other colour. */
  function Opposite(c: PieceColor): (o: PieceColor)
    ensures o != c
  {
    if c == White then Black else White
  }

  /** The file letter of a file index: String.fromCharCode(97 + fileIndex). */
  function FileLetter(fileIndex: int): (letter: string)
    requires 0 <= fileIndex < 8
  {
    [(97 + fileIndex) as char]
  }

  /** The rank label of a rank index: String(8 - rankIndex), one decimal digit. */
  function RankLabel(rankIndex: int): (s: string)
    requires 0 <= rankIndex < 8
  {
    [('0' as int + 8 - rankIndex) as char]
  }

  /** The piece type on a back rank by file index; the switch's default
      case gives a pawn for any index outside 0..7. */
  function BackRankType(fileIndex: int): (t: PieceType)
  {
    if fileIndex == 0 || fileIndex == 7 then Rook
    else if fileIndex == 1 || fileIndex == 6 then Knight
    else if fileIndex == 2 || fileIndex == 5 then Bishop
    else if fileIndex == 3 then Queen
    else if fileIndex == 4 then King
    else Pawn
  }

  /** What stands on (rankIndex, fileIndex) at the start of a game. */
  function InitialPiece(rankIndex: int, fileIndex: int): (p: Option<ChessPiece>)
  {
    if rankIndex == 1 then Some(ChessPiece(Pawn, Black))
    else if rankIndex == 6 then Some(ChessPiece(Pawn, White))
    else if rankIndex == 0 || rankIndex == 7 then
      Some(ChessPiece(BackRankType(fileIndex), if rankIndex == 0 then Black else White))
    else None
  }

  function InitialSquare(rankIndex: int, fileIndex: int): Square
    requires 0 <= rankIndex < 8 && 0 <= fileIndex < 8
  {
    Square(FileLetter(fileIndex), RankLabel(rankIndex), InitialPiece(rankIndex, fileIndex))
  }

  function InitialRank(rankIndex: int): seq<Square>
    requires 0 <= rankIndex < 8
  {
    seq(8, fileIndex requires 0 <= fileIndex < 8 => InitialSquare(rankIndex, fileIndex))
  }

  /** initialBoardState: eight ranks of eight squares. */
  function InitialBoard(): (b: BoardState)
    ensures |b| == 8
    ensures forall r :: 0 <= r < 8 ==> |b[r]| == 8
  {
    seq(8, rankIndex requires 0 <= rankIndex < 8 => InitialRank(rankIndex))
  }

  /** The order of the pieces on either back rank, from file a to file h. */
  const BackRankOrder: seq<PieceType> := [Rook, Knight, Bishop, Queen, King, Bishop, Knight, Rook]

  /** The square at (rankIndex, fileIndex) is labelled file 'a' + fileIndex and
      rank 8 - rankIndex, so the 64 squares carry 64 distinct coordinates. */
  lemma InitialLabels(r: int, f: int, r': int, f': int)
    requires 0 <= r < 8 && 0 <= f < 8 && 0 <= r' < 8 && 0 <= f' < 8
    ensures InitialBoard()[r][f].file == ['a' + (f as char)]
    ensures InitialBoard()[r][f].rank == ['1' + ((7 - r) as char)]
    ensures InitialBoard()[r][f].file + InitialBoard()[r][f].rank
            == InitialBoard()[r'][f'].file + InitialBoard()[r'][f'].rank
            ==> r == r' && f == f'
  {
    var b: BoardState := InitialBoard();
    if b[r][f].file + b[r][f].rank == b[r'][f'].file + b[r'][f'].rank {
      assert (b[r][f].file + b[r][f].rank)[0] == b[r][f].file[0];
      assert (b[r][f].file + b[r][f].rank)[1] == b[r][f].rank[0];
      assert (b[r'][f'].file + b[r'][f'].rank)[0] == b[r'][f'].file[0];
      assert (b[r'][f'].file + b[r'][f'].rank)[1] == b[r'][f'].rank[0];
    }
  }

  /** Rank index 1 holds eight black pawns and rank index 6 eight white pawns. */
  lemma InitialPawns(f: int)
    requires 0 <= f < 8
    ensures InitialBoard()[1][f].piece == Some(ChessPiece(Pawn, Black))
    ensures InitialBoard()[6][f].piece == Some(ChessPiece(Pawn, White))
  {
  }

  /** Rank index 0 is black's back rank and rank index 7 white's, both in the
      order rook, knight, bishop, queen, king, bishop, knight, rook. */
  lemma InitialBackRanks(f: int)
    requires 0 <= f < 8
    ensures InitialBoard()[0][f].piece == Some(ChessPiece(BackRankOrder[f], Black))
    ensures InitialBoard()[7][f].piece == Some(ChessPiece(BackRankOrder[f], White))
  {
  }

  /** Rank indices 2 to 5 are empty. */
  lemma InitialEmptyMiddle(r: int, f: int)
    requires 2 <= r <= 5 && 0 <= f < 8
    ensures InitialBoard()[r][f].piece == None
  {
  }

  /** Whether a square holds a piece of colour c (of the given type, when one is given). */
  predicate Holds(s: Square, c: PieceColor, kind: Option<PieceType>)
  {
    s.piece.Some? && s.piece.value.color == c && (kind.None? || s.piece.value.kind == kind.value)
  }

  /** The number of squares of a rank holding a matching piece. */
  function CountInRank(rank: seq<Square>, c: PieceColor, kind: Option<PieceType>): nat
  {
    if |rank| == 0 then 0
    else (if Holds(rank[0], c, kind) then 1 else 0) + CountInRank(rank[1..], c, kind)
  }

  /** The number of matching pieces on the first n ranks of a board. */
  function CountInRanks(b: BoardState, n: nat, c: PieceColor, kind: Option<PieceType>): nat
    requires n <= |b|
  {
    if n == 0 then 0 else CountInRanks(b, n - 1, c, kind) + CountInRank(b[n - 1], c, kind)
  }

  function CountOnBoard(b: BoardState, c: PieceColor, kind: Option<PieceType>): nat
  {
    CountInRanks(b, |b|, c, kind)
  }

  lemma {:induction false} CountAll(rank: seq<Square>, c: PieceColor, kind: Option<PieceType>)
    requires forall i :: 0 <= i < |rank| ==> Holds(rank[i], c, kind)
    ensures CountInRank(rank, c, kind) == |rank|
  {
    if |rank| > 0 {
      CountAll(rank[1..], c, kind);
    }
  }

  lemma {:induction false} CountNone(rank: seq<Square>, c: PieceColor, kind: Option<PieceType>)
    requires forall i :: 0 <= i < |rank| ==> !Holds(rank[i], c, kind)
    ensures CountInRank(rank, c, kind) == 0
  {
    if |rank| > 0 {
      CountNone(rank[1..], c, kind);
    }
  }

  lemma {:induction false} CountSingle(rank: seq<Square>, c: PieceColor, kind: Option<PieceType>, j: int)
    requires 0 <= j < |rank| && Holds(rank[j], c, kind)
    requires forall i :: 0 <= i < |rank| && i != j ==> !Holds(rank[i], c, kind)
    ensures CountInRank(rank, c, kind) == 1
  {
    if j == 0 {
      CountNone(rank[1..], c, kind);
    } else {
      CountSingle(rank[1..], c, kind, j - 1);
    }
  }

  /** The pieces of colour c on each rank of the initial board:
      eight on each of that colour's two home ranks, none elsewhere. */
  lemma InitialRankCount(r: int, c: PieceColor)
    requires 0 <= r < 8
    ensures CountInRank(InitialBoard()[r], c, None)
            == if (c == Black && r <= 1) || (c == White && r >= 6) then 8 else 0
  {
    var rank: seq<Square> := InitialBoard()[r];
    if (c == Black && r <= 1) || (c == White && r >= 6) {
      CountAll(rank, c, None);
    } else {
      CountNone(rank, c, None);
    }
  }

  /** The kings of colour c on each rank of the initial board: one, on the
      back rank of that colour. */
  lemma InitialRankKings(r: int, c: PieceColor)
    requires 0 <= r < 8
    ensures CountInRank(InitialBoard()[r], c, Some(King))
            == if (c == Black && r == 0) || (c == White && r == 7) then 1 else 0
  {
    var rank: seq<Square> := InitialBoard()[r];
    if (c == Black && r == 0) || (c == White && r == 7) {
      CountSingle(rank, c, Some(King), 4);
    } else {
      CountNone(rank, c, Some(King));
    }
  }

  /** Each colour starts with sixteen pieces, exactly one of them a king. */
  lemma InitialCounts(c: PieceColor)
    ensures CountOnBoard(InitialBoard(), c, None) == 16
    ensures CountOnBoard(InitialBoard(), c, Some(King)) == 1
  {
    var b: BoardState := InitialBoard();
    forall r | 0 <= r < 8
      ensures CountInRank(b[r], c, None)
              == if (c == Black && r <= 1) || (c == White && r >= 6) then 8 else 0
      ensures CountInRank(b[r], c, Some(King))
              == if (c == Black && r == 0) || (c == White && r == 7) then 1 else 0
    {
      InitialRankCount(r, c);
      InitialRankKings(r, c);
    }
    assert CountInRanks(b, 8, c, None) == 16 by {
      assert CountInRanks(b, 2, c, None) == CountInRank(b[0], c, None) + CountInRank(b[1], c, None);
      assert CountInRanks(b, 4, c, None) == CountInRanks(b, 2, c, None) + CountInRank(b[2], c, None) + CountInRank(b[3], c, None);
      assert CountInRanks(b, 6, c, None) == CountInRanks(b, 4, c, None) + CountInRank(b[4], c, None) + CountInRank(b[5], c, None);
      assert CountInRanks(b, 8, c, None) == CountInRanks(b, 6, c, None) + CountInRank(b[6], c, None) + CountInRank(b[7], c, None);
    }
    assert CountInRanks(b, 8, c, Some(King)) == 1 by {
      assert CountInRanks(b, 2, c, Some(King)) == CountInRank(b[0], c, Some(King)) + CountInRank(b[1], c, Some(King));
      assert CountInRanks(b, 4, c, Some(King)) == CountInRanks(b, 2, c, Some(King)) + CountInRank(b[2], c, Some(King)) + CountInRank(b[3], c, Some(King));
      assert CountInRanks(b, 6, c, Some(King)) == CountInRanks(b, 4, c, Some(King)) + CountInRank(b[4], c, Some(King)) + CountInRank(b[5], c, Some(King));
      assert CountInRanks(b, 8, c, Some(King)) == CountInRanks(b, 6, c, Some(King)) + CountInRank(b[6], c, Some(King)) + CountInRank(b[7], c, Some(King));
    }
  }
}
