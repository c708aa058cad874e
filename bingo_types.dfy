/** The square and board records the client components pass around
    (`BingoSquare` and `BingoBoard` in the dashboard and board component). */
module BingoTypes {

  datatype SquareKind = Toleration | Task | FreeSpace

  /** A square of a board; `id` is the square's index in the generated board. */
  datatype Square = Square(id: int, content: string, kind: SquareKind, isCompleted: bool)

  /** A board of one month. The creation timestamp is not modelled. */
  datatype Board = Board(id: string, size: nat, month: int, year: int, squares: seq<Square>)

  /** The test every line check applies to a square: completed, or the free
      space whatever its completion flag. */
  predicate Satisfied(s: Square) {
    s.isCompleted || s.kind == FreeSpace
  }

  /** The satisfaction flags of a row-major square list, as the line rules
      of module Lines consume them. */
  function Flags(squares: seq<Square>): (sat: seq<bool>)
    ensures |sat| == |squares|
    ensures forall i :: 0 <= i < |squares| ==> sat[i] == Satisfied(squares[i])
  {
    seq(|squares|, i requires 0 <= i < |squares| => Satisfied(squares[i]))
  }

  /** Replacing one square changes that square's mark alone, and the new
      mark is the new square's own test. */
  lemma FlagsUpdate(squares: seq<Square>, i: nat, s: Square)
    requires i < |squares|
    ensures Flags(squares[i := s]) == Flags(squares)[i := Satisfied(s)]
  {
    var a, b := Flags(squares[i := s]), Flags(squares)[i := Satisfied(s)];
    assert forall k :: 0 <= k < |a| ==> a[k] == b[k];
  }
}
