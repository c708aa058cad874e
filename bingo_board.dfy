/** The interactive board component: toggling a square, recomputing the
    board's bingo labels from scratch, deciding whether anything new was won
    (confetti, and the treasure chest when there are rewards), and the
    progress figures. */
module BingoBoardComponent {
  import opened Text
  import opened BingoTypes
  import opened Lines
  import TreasureChest

  // -----------------------------------------------------------------------
  // Toggling

  /** `prev.map(...)`: the square list with `isCompleted` flipped on every
      square whose id is `id`. */
  function Toggled(squares: seq<Square>, id: int): (r: seq<Square>)
    ensures |r| == |squares|
  {
    seq(|squares|, i requires 0 <= i < |squares| =>
      if squares[i].id == id then squares[i].(isCompleted := !squares[i].isCompleted) else squares[i])
  }

  /** Toggling changes only the completion flag of the squares with that id;
      every other square, and every other field, is left as it was. */
  lemma ToggledChangesOnlyThatSquare(squares: seq<Square>, id: int, i: nat)
    requires i < |squares|
    ensures Toggled(squares, id)[i].isCompleted == (squares[i].isCompleted != (squares[i].id == id))
    ensures Toggled(squares, id)[i].(isCompleted := squares[i].isCompleted) == squares[i]
  {
  }

  /** Toggling the same square twice restores the board. */
  lemma ToggleTwiceRestores(squares: seq<Square>, id: int)
    ensures Toggled(Toggled(squares, id), id) == squares
  {
  }

  // -----------------------------------------------------------------------
  // Labels

  /** The label the component records for a line. */
  function Label(l: Line): string {
    match l
    case Row(r) => "row-" + NatToString(r)
    case Column(c) => "col-" + NatToString(c)
    case MainDiagonal => "diagonal-1"
    case AntiDiagonal => "diagonal-2"
  }

  function Labels(ls: seq<Line>): (labels: seq<string>)
    ensures |labels| == |ls|
  {
    seq(|ls|, k requires 0 <= k < |ls| => Label(ls[k]))
  }

  /** Different lines get different labels, so comparing labels compares lines. */
  lemma LabelInjective(a: Line, b: Line)
    requires Label(a) == Label(b)
    ensures a == b
  {
    match a
    case Row(r) =>
      assert Label(b)[0] == 'r';
      var s := NatToString(r);
      var t := NatToString(b.index);
      assert Label(a)[4..] == s && Label(b)[4..] == t;
      NatToStringInjective(r, b.index);
    case Column(c) =>
      assert Label(b)[0] == 'c';
      assert Label(a)[4..] == NatToString(c) && Label(b)[4..] == NatToString(b.index);
      NatToStringInjective(c, b.index);
    case MainDiagonal =>
      assert Label(b)[0] == 'd';
    case AntiDiagonal =>
      assert Label(b)[0] == 'd';
  }

  lemma LabelsAppend(ls: seq<Line>, l: Line)
    ensures Labels(ls + [l]) == Labels(ls) + [Label(l)]
  {
  }

  lemma LabelsMembers(ls: seq<Line>, l: Line)
    ensures Label(l) in Labels(ls) <==> l in ls
  {
    if Label(l) in Labels(ls) {
      var k :| 0 <= k < |ls| && Labels(ls)[k] == Label(l);
      LabelInjective(ls[k], l);
    }
    if l in ls {
      var k :| 0 <= k < |ls| && ls[k] == l;
      assert Labels(ls)[k] == Label(l);
    }
  }

  /** The labels the board reports for its squares. */
  function BoardLabels(squares: seq<Square>, size: nat): seq<string>
    requires size >= 1
  {
    Labels(WonLines(Flags(squares), size))
  }

  /** One check of `checkForBingos`: when `line`, the k-th line in
      reporting order, is won, push its label. */
  method PushIfWon(sat: seq<bool>, size: nat, k: nat, line: Line, text: string, labels: seq<string>)
    returns (pushed: seq<string>)
    requires size >= 1 && k < 2 * size + 2
    requires line == AllLines(size)[k] && text == Label(line)
    requires labels == Labels(Won(sat, size, AllLines(size)[..k]))
    ensures pushed == Labels(Won(sat, size, AllLines(size)[..k + 1]))
  {
    WonPrefixStep(sat, size, k);
    LabelsAppend(Won(sat, size, AllLines(size)[..k]), line);
    if LineWon(sat, size, line) {
      pushed := labels + [text];
    } else {
      pushed := labels;
    }
  }

  /** The row loop of `checkForBingos`. */
  method RowLabels(sat: seq<bool>, size: nat) returns (labels: seq<string>)
    requires size >= 1
    ensures labels == Labels(Won(sat, size, AllLines(size)[..size]))
  {
    labels := [];
    for row := 0 to size
      invariant labels == Labels(Won(sat, size, AllLines(size)[..row]))
    {
      AllLinesAt(size, row);
      labels := PushIfWon(sat, size, row, Row(row), "row-" + NatToString(row), labels);
    }
  }

  /** The column loop of `checkForBingos`, continuing after the rows. */
  method ColumnLabels(sat: seq<bool>, size: nat, rowLabels: seq<string>) returns (labels: seq<string>)
    requires size >= 1
    requires rowLabels == Labels(Won(sat, size, AllLines(size)[..size]))
    ensures labels == Labels(Won(sat, size, AllLines(size)[..2 * size]))
  {
    labels := rowLabels;
    for col := 0 to size
      invariant labels == Labels(Won(sat, size, AllLines(size)[..size + col]))
    {
      AllLinesAt(size, size + col);
      labels := PushIfWon(sat, size, size + col, Column(col), "col-" + NatToString(col), labels);
    }
  }

  /** `checkForBingos` recomputing the labels: rows, then columns, then the
      two diagonals, pushing the label of each won line. */
  method CurrentLabels(squares: seq<Square>, size: nat) returns (labels: seq<string>)
    requires size >= 1
    ensures labels == BoardLabels(squares, size)
  {
    var sat := Flags(squares);
    labels := RowLabels(sat, size);
    labels := ColumnLabels(sat, size, labels);
    AllLinesAt(size, 2 * size);
    labels := PushIfWon(sat, size, 2 * size, MainDiagonal, "diagonal-1", labels);
    AllLinesAt(size, 2 * size + 1);
    labels := PushIfWon(sat, size, 2 * size + 1, AntiDiagonal, "diagonal-2", labels);
    WonWholePrefix(sat, size);
  }

  // -----------------------------------------------------------------------
  // What counts as new

  /** `newBingos.filter(b => !completedBingos.includes(b)).length`. */
  function NewLabelCount(current: seq<string>, previous: seq<string>): nat {
    if current == [] then 0
    else NewLabelCount(current[..|current| - 1], previous)
         + (if current[|current| - 1] !in previous then 1 else 0)
  }

  /** Something new was won exactly when some current label was not
      recorded before. */
  lemma {:induction false} NewLabelCountPositive(current: seq<string>, previous: seq<string>)
    ensures NewLabelCount(current, previous) > 0
        <==> exists k :: 0 <= k < |current| && current[k] !in previous
    decreases |current|
  {
    if current != [] {
      var init := current[..|current| - 1];
      NewLabelCountPositive(init, previous);
      if NewLabelCount(init, previous) > 0 {
        var k :| 0 <= k < |init| && init[k] !in previous;
        assert current[k] == init[k];
      }
      if exists k :: 0 <= k < |current| && current[k] !in previous {
        var k :| 0 <= k < |current| && current[k] !in previous;
        if k < |init| { assert init[k] == current[k]; }
      }
    }
  }

  /** Re-evaluating an unchanged board after its labels were stored finds
      nothing new. */
  lemma {:induction false} NothingNewAgainstItself(current: seq<string>)
    ensures NewLabelCount(current, current) == 0
  {
    NewLabelCountPositive(current, current);
  }

  /** On a board whose squares are all satisfied the recomputed labels are
      the 2n+2 distinct labels of all lines. */
  lemma FullBoardLabels(squares: seq<Square>, size: nat)
    requires size >= 1
    requires forall i :: 0 <= i < |squares| ==> Satisfied(squares[i])
    ensures BoardLabels(squares, size) == Labels(AllLines(size))
    ensures |BoardLabels(squares, size)| == 2 * size + 2
    ensures forall i, j :: 0 <= i < j < 2 * size + 2 ==> BoardLabels(squares, size)[i] != BoardLabels(squares, size)[j]
  {
    FullBoardWinsEveryLine(Flags(squares), size);
    AllLinesRankIncreasing(size);
    forall i, j | 0 <= i < j < 2 * size + 2
      ensures BoardLabels(squares, size)[i] != BoardLabels(squares, size)[j]
    {
      if BoardLabels(squares, size)[i] == BoardLabels(squares, size)[j] {
        LabelInjective(AllLines(size)[i], AllLines(size)[j]);
      }
    }
  }

  /** A free-space square counts as satisfied whatever its completion flag:
      flipping the flag of a free space never changes the labels. */
  lemma FreeSpaceFlagIrrelevant(squares: seq<Square>, size: nat, i: nat)
    requires size >= 1 && i < |squares| && squares[i].kind == FreeSpace
    ensures BoardLabels(squares[i := squares[i].(isCompleted := !squares[i].isCompleted)], size)
         == BoardLabels(squares, size)
  {
    assert Flags(squares[i := squares[i].(isCompleted := !squares[i].isCompleted)]) == Flags(squares);
  }

  // -----------------------------------------------------------------------
  // Progress

  /** `squares.filter(s => s.isCompleted).length`. */
  function CompletedCount(squares: seq<Square>): (c: nat)
    ensures c <= |squares|
  {
    if squares == [] then 0
    else CompletedCount(squares[..|squares| - 1]) + (if squares[|squares| - 1].isCompleted then 1 else 0)
  }

  /** The progress bar percentage: completed squares over all squares but
      one (the free space), and 0 when that total is not positive. */
  function Progress(squares: seq<Square>): real {
    var total := |squares| - 1;
    if total > 0 then (CompletedCount(squares) as real / total as real) * 100.0 else 0.0
  }

  /** Progress is never negative; it is 0 exactly when nothing is completed
      (or the board has at most one square); it stays within 100 as long as
      some square (normally the free space) is not completed. */
  lemma ProgressBounds(squares: seq<Square>)
    ensures Progress(squares) >= 0.0
    ensures Progress(squares) == 0.0 <==> (|squares| <= 1 || CompletedCount(squares) == 0)
    ensures CompletedCount(squares) < |squares| ==> Progress(squares) <= 100.0
  {
    var total := |squares| - 1;
    if total > 0 {
      RatioBounds(CompletedCount(squares) as real, total as real);
    }
  }

  lemma RatioBounds(c: real, t: real)
    requires t > 0.0 && c >= 0.0
    ensures c / t * 100.0 >= 0.0
    ensures c / t * 100.0 == 0.0 <==> c == 0.0
    ensures c <= t ==> c / t * 100.0 <= 100.0
  {
    var q := c / t;
    assert q * t == c;
    if c <= t {
      assert q <= 1.0;
    }
  }

  /** `CompletedCount` is the number of completed squares, counted another way. */
  lemma {:induction false} CompletedCountIsCardinality(squares: seq<Square>)
    ensures CompletedCount(squares) == |set i | 0 <= i < |squares| && squares[i].isCompleted|
    decreases |squares|
  {
    var s := set i | 0 <= i < |squares| && squares[i].isCompleted;
    if squares != [] {
      var init := squares[..|squares| - 1];
      var last := |squares| - 1;
      CompletedCountIsCardinality(init);
      var s0 := set i | 0 <= i < |init| && init[i].isCompleted;
      if squares[last].isCompleted {
        assert s == s0 + {last};
      } else {
        assert s == s0;
      }
    } else {
      assert s == {};
    }
  }

  // -----------------------------------------------------------------------
  // The component state

  /** The demo board the database seed creates: 3×3, the free space in the
      middle, three squares completed. */
  const SeedSquares: seq<Square> := [
    Square(0, "Fix the broken cabinet door", Toleration, false),
    Square(1, "Call the dentist", Task, true),
    Square(2, "Organize the garage", Toleration, false),
    Square(3, "Buy new laundry bin", Toleration, false),
    Square(4, "FREE SPACE", FreeSpace, true),
    Square(5, "Schedule car maintenance", Task, false),
    Square(6, "Clean out email inbox", Task, true),
    Square(7, "Update resume", Task, false),
    Square(8, "Fix squeaky door", Toleration, false)
  ]

  /** The completion flags of the seed board. */
  const SeedFlags: seq<bool> := [false, true, false, false, true, false, true, false, false]

  /** Every line of the seed board misses a square: square 0 blocks the
      first row, the first column and the main diagonal, and squares 3, 7, 7,
      2 and 2 block the other rows, columns and the anti-diagonal. */
  lemma SeedLineBlocked(l: Line)
    requires ValidLine(3, l)
    ensures !LineWon(SeedFlags, 3, l)
  {
    match l
    case Row(r) =>
      var i := if r == 0 then 0 else if r == 1 then 3 else 7;
      assert OnFilter(3, l, i) && !SeedFlags[i];
    case Column(c) =>
      var i := if c == 0 then 0 else if c == 1 then 7 else 2;
      assert OnFilter(3, l, i) && !SeedFlags[i];
    case MainDiagonal =>
      assert OnFilter(3, l, 0) && !SeedFlags[0];
    case AntiDiagonal =>
      assert OnFilter(3, l, 2) && !SeedFlags[2];
  }

  /** The seed board has no bingo yet. */
  lemma SeedBoardHasNoBingo()
    ensures BoardLabels(SeedSquares, 3) == []
  {
    assert Flags(SeedSquares) == SeedFlags;
    var k := 0;
    while k < 8
      invariant k <= 8
      invariant Won(SeedFlags, 3, AllLines(3)[..k]) == []
    {
      AllLinesAt(3, k);
      SeedLineBlocked(AllLines(3)[k]);
      WonPrefixStep(SeedFlags, 3, k);
      k := k + 1;
    }
    WonWholePrefix(SeedFlags, 3);
  }

  /** The seed board with squares 0 and 2 ticked off. */
  const TopRowFlags: seq<bool> := [true, true, true, false, true, false, true, false, false]

  /** On that board the top row and the anti-diagonal (squares 2, 4, 6)
      are won, and every other line misses a square. */
  lemma TopRowLineVerdict(l: Line)
    requires ValidLine(3, l)
    ensures LineWon(TopRowFlags, 3, l) <==> l == Row(0) || l == AntiDiagonal
  {
    match l
    case Row(r) =>
      if r == 0 {
        forall i | 0 <= i < 9 && OnFilter(3, l, i) ensures TopRowFlags[i] {
          assert i < 3;
        }
      } else {
        var i := if r == 1 then 3 else 7;
        assert OnFilter(3, l, i) && !TopRowFlags[i];
      }
    case Column(c) =>
      var i := if c == 0 then 3 else if c == 1 then 7 else 5;
      assert OnFilter(3, l, i) && !TopRowFlags[i];
    case MainDiagonal =>
      assert OnFilter(3, l, 8) && !TopRowFlags[8];
    case AntiDiagonal =>
      forall i | 0 <= i < 9 && OnFilter(3, l, i) ensures TopRowFlags[i] {
        AntiDiagonalOf3(i);
      }
  }

  lemma AntiDiagonalOf3(i: nat)
    requires i < 9 && OnFilter(3, AntiDiagonal, i)
    ensures i == 2 || i == 4 || i == 6
  {
    if i < 3 {
      DivModOf(i, 3, 0, i);
    } else if i < 6 {
      DivModOf(i, 3, 1, i - 3);
    } else {
      DivModOf(i, 3, 2, i - 6);
    }
  }

  lemma TopRowFlagsOfSeed()
    ensures Flags(Toggled(Toggled(SeedSquares, 0), 2)) == TopRowFlags
  {
    var once := Toggled(SeedSquares, 0);
    assert once[0].isCompleted && once[1..] == SeedSquares[1..];
    var twice := Toggled(once, 2);
    assert twice[2].isCompleted && twice[..2] == once[..2] && twice[3..] == once[3..];
  }

  lemma TopRowWonLines()
    ensures WonLines(TopRowFlags, 3) == [Row(0), AntiDiagonal]
  {
    var k := 0;
    while k < 8
      invariant k <= 8
      invariant Won(TopRowFlags, 3, AllLines(3)[..k])
             == (if k == 0 then [] else if k < 8 then [Row(0)] else [Row(0), AntiDiagonal])
    {
      AllLinesAt(3, k);
      TopRowLineVerdict(AllLines(3)[k]);
      WonPrefixStep(TopRowFlags, 3, k);
      k := k + 1;
    }
    WonWholePrefix(TopRowFlags, 3);
  }

  /** Ticking off the two open squares of the seed's top row gives two
      bingos: that row, and the anti-diagonal already held by the free space
      and square 6. */
  lemma SeedTopRowAndAntiDiagonal()
    ensures BoardLabels(Toggled(Toggled(SeedSquares, 0), 2), 3) == ["row-0", "diagonal-2"]
  {
    TopRowFlagsOfSeed();
    TopRowWonLines();
    assert Label(Row(0)) == "row-0" by {
      assert NatToString(0) == "0";
    }
    assert Labels([Row(0), AntiDiagonal]) == [Label(Row(0)), Label(AntiDiagonal)];
  }

  class BingoBoard {
    const size: nat
    const rewards: seq<TreasureChest.Reward>
    var squares: seq<Square>
    var showConfetti: bool
    var completedBingos: seq<string>
    var showTreasureChest: bool

    constructor (board: Board, rewards: seq<TreasureChest.Reward>)
      requires board.size >= 1
      ensures size == board.size && this.rewards == rewards && squares == board.squares
      ensures !showConfetti && completedBingos == [] && !showTreasureChest
    {
      size := board.size;
      this.rewards := rewards;
      squares := board.squares;
      showConfetti := false;
      completedBingos := [];
      showTreasureChest := false;
    }

    /** `checkForBingos`: recompute the labels; when one of them was not
        recorded before, show confetti and, if there are rewards, the chest;
        then record the fresh list, so lines lost by un-completing a square
        are dropped. */
    method CheckForBingos(sq: seq<Square>)
      requires size >= 1
      modifies this
      ensures completedBingos == BoardLabels(sq, size)
      ensures var isNew := NewLabelCount(BoardLabels(sq, size), old(completedBingos)) > 0;
              && showConfetti == (isNew || old(showConfetti))
              && showTreasureChest == ((isNew && |rewards| > 0) || old(showTreasureChest))
      ensures squares == old(squares)
    {
      var newBingos := CurrentLabels(sq, size);
      var newBingoCount := NewLabelCount(newBingos, completedBingos);
      if newBingoCount > 0 {
        showConfetti := true;
        if |rewards| > 0 {
          showTreasureChest := true;
        }
      }
      completedBingos := newBingos;
    }

    /** `toggleSquare`: flip the square with that id and re-check the board. */
    method ToggleSquare(id: int)
      requires size >= 1
      modifies this
      ensures squares == Toggled(old(squares), id)
      ensures completedBingos == BoardLabels(squares, size)
      ensures var isNew := NewLabelCount(BoardLabels(squares, size), old(completedBingos)) > 0;
              && showConfetti == (isNew || old(showConfetti))
              && showTreasureChest == ((isNew && |rewards| > 0) || old(showTreasureChest))
    {
      var newSquares := Toggled(squares, id);
      CheckForBingos(newSquares);
      squares := newSquares;
    }

    /** The confetti timer running out. */
    method HideConfetti()
      modifies this
      ensures !showConfetti
      ensures squares == old(squares) && completedBingos == old(completedBingos)
      ensures showTreasureChest == old(showTreasureChest)
    {
      showConfetti := false;
    }

    /** The chest's `onOpen` (reward claimed, passed on to `onRewardClaimed`)
        and `onClose` both hide the chest. */
    method CloseTreasureChest(claimed: TreasureChest.Reward) returns (passedOn: TreasureChest.Reward)
      modifies this
      ensures passedOn == claimed && !showTreasureChest
      ensures squares == old(squares) && completedBingos == old(completedBingos)
      ensures showConfetti == old(showConfetti)
    {
      passedOn := claimed;
      showTreasureChest := false;
    }
  }

  /** A second check of an unchanged board celebrates nothing. */
  lemma SecondCheckCelebratesNothing(squares: seq<Square>, size: nat)
    requires size >= 1
    ensures NewLabelCount(BoardLabels(squares, size), BoardLabels(squares, size)) == 0
  {
    NothingNewAgainstItself(BoardLabels(squares, size));
  }

  /** A line is newly celebrated exactly when it is won now and its label was
      not recorded, whatever lines were recorded before. */
  lemma NewLineCelebrated(squares: seq<Square>, size: nat, previous: seq<Line>, l: Line)
    requires size >= 1
    requires ValidLine(size, l) && LineWon(Flags(squares), size, l) && l !in previous
    ensures NewLabelCount(BoardLabels(squares, size), Labels(previous)) > 0
  {
    var w := WonLines(Flags(squares), size);
    WonLinesMembers(Flags(squares), size, l);
    var k :| 0 <= k < |w| && w[k] == l;
    LabelsMembers(previous, l);
    assert BoardLabels(squares, size)[k] == Label(l);
    NewLabelCountPositive(BoardLabels(squares, size), Labels(previous));
  }
}
