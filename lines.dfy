/** The bingo line rules shared by the board component and the completion
    route: which squares each of the 2n+2 lines of an n×n board covers, when a
    line is won, and the fixed order in which won lines are reported.

    A board is given here by its satisfaction flags in row-major order: flag i
    says whether square i is completed or is the free space. Each line is
    described by the same index filter the source applies to the square
    array (`slice(row*size, (row+1)*size)`, `index % size === col`,
    `index % (size+1) === 0`, `floor(index/size) + index % size === size-1`),
    and the lemmas below show that on an n×n board these filters are exactly
    the rows, columns and diagonals of the grid. */
module Lines {

  /** A line of the board. The completion route stores these as
      (ROW, r), (COLUMN, c), (DIAGONAL, 0) and (DIAGONAL, 1). */
  datatype Line = Row(index: nat) | Column(index: nat) | MainDiagonal | AntiDiagonal

  /** The lines an n×n board has. */
  predicate ValidLine(n: nat, l: Line) {
    match l
    case Row(r) => r < n
    case Column(c) => c < n
    case _ => true
  }

  /** The source's index filter: does square i take part in line l? */
  predicate OnFilter(n: nat, l: Line, i: nat)
    requires n >= 1
  {
    match l
    case Row(r) => r * n <= i < (r + 1) * n
    case Column(c) => i % n == c
    case MainDiagonal => i % (n + 1) == 0
    case AntiDiagonal => i / n + i % n == n - 1
  }

  /** The geometric description: does cell (row, col) lie on line l? */
  predicate OnCell(n: nat, l: Line, row: nat, col: nat) {
    match l
    case Row(r) => row == r
    case Column(c) => col == c
    case MainDiagonal => row == col
    case AntiDiagonal => row + col == n - 1
  }

  /** `squares.filter(onLine).every(isSatisfied)`: every square the filter
      selects is satisfied (vacuously true when it selects none). */
  predicate LineWon(sat: seq<bool>, n: nat, l: Line)
    requires n >= 1
  {
    forall i :: 0 <= i < |sat| && OnFilter(n, l, i) ==> sat[i]
  }

  /** All lines in the order the source checks them: rows 0..n-1, columns
      0..n-1, the main diagonal, the anti-diagonal. */
  function AllLines(n: nat): (ls: seq<Line>)
    ensures |ls| == 2 * n + 2
  {
    seq(n, r requires 0 <= r => Row(r)) + seq(n, c requires 0 <= c => Column(c)) + [MainDiagonal, AntiDiagonal]
  }

  /** Position of a line in the reporting order. */
  function Rank(n: nat, l: Line): nat {
    match l
    case Row(r) => r
    case Column(c) => n + c
    case MainDiagonal => 2 * n
    case AntiDiagonal => 2 * n + 1
  }

  predicate RankIncreasing(n: nat, ls: seq<Line>) {
    forall i, j :: 0 <= i < j < |ls| ==> Rank(n, ls[i]) < Rank(n, ls[j])
  }

  /** The won lines among ls, in the order of ls. */
  function Won(sat: seq<bool>, n: nat, ls: seq<Line>): seq<Line>
    requires n >= 1
  {
    if ls == [] then []
    else
      var last := ls[|ls| - 1];
      Won(sat, n, ls[..|ls| - 1]) + (if LineWon(sat, n, last) then [last] else [])
  }

  /** Every won line of the board, in reporting order. */
  function WonLines(sat: seq<bool>, n: nat): seq<Line>
    requires n >= 1
  {
    Won(sat, n, AllLines(n))
  }

  // ---------------------------------------------------------------------
  // The reporting order

  lemma AllLinesAt(n: nat, k: nat)
    requires k < 2 * n + 2
    ensures Rank(n, AllLines(n)[k]) == k
    ensures ValidLine(n, AllLines(n)[k])
    ensures k < n ==> AllLines(n)[k] == Row(k)
    ensures n <= k < 2 * n ==> AllLines(n)[k] == Column(k - n)
    ensures k == 2 * n ==> AllLines(n)[k] == MainDiagonal
    ensures k == 2 * n + 1 ==> AllLines(n)[k] == AntiDiagonal
  {
  }

  lemma AllLinesRankIncreasing(n: nat)
    ensures RankIncreasing(n, AllLines(n))
  {
    forall i, j | 0 <= i < j < 2 * n + 2
      ensures Rank(n, AllLines(n)[i]) < Rank(n, AllLines(n)[j])
    {
      AllLinesAt(n, i);
      AllLinesAt(n, j);
    }
  }

  /** AllLines(n) lists exactly the lines of an n×n board. */
  lemma AllLinesMembers(n: nat, l: Line)
    ensures l in AllLines(n) <==> ValidLine(n, l)
  {
    if ValidLine(n, l) {
      var k := Rank(n, l);
      AllLinesAt(n, k);
      assert AllLines(n)[k] == l;
    } else if l in AllLines(n) {
      var k :| 0 <= k < |AllLines(n)| && AllLines(n)[k] == l;
      AllLinesAt(n, k);
    }
  }

  lemma {:induction false} WonMembers(sat: seq<bool>, n: nat, ls: seq<Line>, l: Line)
    requires n >= 1
    ensures l in Won(sat, n, ls) <==> l in ls && LineWon(sat, n, l)
    decreases |ls|
  {
    if ls != [] {
      var init := ls[..|ls| - 1];
      WonMembers(sat, n, init, l);
      assert ls == init + [ls[|ls| - 1]];
    }
  }

  lemma {:induction false} WonKeepsRankOrder(sat: seq<bool>, n: nat, ls: seq<Line>)
    requires n >= 1
    requires RankIncreasing(n, ls)
    ensures RankIncreasing(n, Won(sat, n, ls))
    decreases |ls|
  {
    if ls != [] {
      var init := ls[..|ls| - 1];
      var last := ls[|ls| - 1];
      WonKeepsRankOrder(sat, n, init);
      var w := Won(sat, n, init);
      forall k | 0 <= k < |w| ensures Rank(n, w[k]) < Rank(n, last) {
        WonMembers(sat, n, init, w[k]);
        var j :| 0 <= j < |init| && init[j] == w[k];
      }
    }
  }

  /** A line is reported exactly when it is a line of the board and won. */
  lemma WonLinesMembers(sat: seq<bool>, n: nat, l: Line)
    requires n >= 1
    ensures l in WonLines(sat, n) <==> ValidLine(n, l) && LineWon(sat, n, l)
  {
    WonMembers(sat, n, AllLines(n), l);
    AllLinesMembers(n, l);
  }

  /** Won lines come out rows first, then columns, then the main diagonal,
      then the anti-diagonal, each group in increasing index, so no line is
      reported twice. */
  lemma WonLinesOrdered(sat: seq<bool>, n: nat)
    requires n >= 1
    ensures RankIncreasing(n, WonLines(sat, n))
    ensures forall i, j :: 0 <= i < j < |WonLines(sat, n)| ==> WonLines(sat, n)[i] != WonLines(sat, n)[j]
  {
    AllLinesRankIncreasing(n);
    WonKeepsRankOrder(sat, n, AllLines(n));
  }

  lemma {:induction false} WonAll(sat: seq<bool>, n: nat, ls: seq<Line>)
    requires n >= 1
    requires forall k :: 0 <= k < |ls| ==> LineWon(sat, n, ls[k])
    ensures Won(sat, n, ls) == ls
    decreases |ls|
  {
    if ls != [] {
      WonAll(sat, n, ls[..|ls| - 1]);
    }
  }

  lemma {:induction false} WonNone(sat: seq<bool>, n: nat, ls: seq<Line>)
    requires n >= 1
    requires forall k :: 0 <= k < |ls| ==> !LineWon(sat, n, ls[k])
    ensures Won(sat, n, ls) == []
    decreases |ls|
  {
    if ls != [] {
      WonNone(sat, n, ls[..|ls| - 1]);
    }
  }

  /** A board whose squares are all satisfied reports all 2n+2 lines, each
      once, in reporting order. */
  lemma FullBoardWinsEveryLine(sat: seq<bool>, n: nat)
    requires n >= 1
    requires forall i :: 0 <= i < |sat| ==> sat[i]
    ensures WonLines(sat, n) == AllLines(n)
    ensures |WonLines(sat, n)| == 2 * n + 2
  {
    WonAll(sat, n, AllLines(n));
  }

  /** Extending the checked prefix of AllLines by one line appends that line
      to the report exactly when it is won; the loops of both callers follow
      this step. */
  lemma WonPrefixStep(sat: seq<bool>, n: nat, k: nat)
    requires n >= 1 && k < 2 * n + 2
    ensures Won(sat, n, AllLines(n)[..k + 1])
         == Won(sat, n, AllLines(n)[..k]) + (if LineWon(sat, n, AllLines(n)[k]) then [AllLines(n)[k]] else [])
  {
    assert AllLines(n)[..k + 1][..k] == AllLines(n)[..k];
  }

  lemma WonWholePrefix(sat: seq<bool>, n: nat)
    requires n >= 1
    ensures Won(sat, n, AllLines(n)[..2 * n + 2]) == WonLines(sat, n)
  {
    assert AllLines(n)[..2 * n + 2] == AllLines(n);
  }

  // ---------------------------------------------------------------------
  // The filters are the grid's rows, columns and diagonals

  /** Quotient and remainder are determined by any decomposition. */
  lemma DivModOf(i: nat, n: nat, q: nat, m: nat)
    requires n >= 1 && m < n && i == q * n + m
    ensures i / n == q && i % n == m
  {
    var q', m' := i / n, i % n;
    assert i == q' * n + m';
    if q' < q {
      NoCheckMulMonotone(q' + 1, q, n);
      NoCheckMulSucc(q', n);
    } else if q < q' {
      NoCheckMulMonotone(q + 1, q', n);
      NoCheckMulSucc(q, n);
    }
    assert q' == q;
  }

  lemma MulSucc(a: nat, n: nat)
    ensures (a + 1) * n == a * n + n
  {
  }

  lemma MulMonotone(a: nat, b: nat, n: nat)
    requires a <= b
    ensures a * n <= b * n
  {
  }

  /** The same two facts with nothing to check at the call, for the case
      splits whose other branch is the impossible one. */
  lemma NoCheckMulMonotone(a: int, b: int, n: int)
    ensures 0 <= n && a <= b ==> a * n <= b * n
  {
    if 0 <= n && a <= b {
      assert a * n + (b - a) * n == b * n;
    }
  }

  lemma NoCheckMulSucc(a: int, n: int)
    ensures (a + 1) * n == a * n + n
  {
  }

  /** The slice `[r*n, (r+1)*n)` holds exactly the squares of grid row r. */
  lemma RowFilterIsRow(n: nat, r: nat, i: nat)
    requires n >= 1
    ensures (r * n <= i < (r + 1) * n) <==> i / n == r
  {
    var q, m := i / n, i % n;
    assert i == q * n + m;
    if q < r {
      MulMonotone(q + 1, r, n);
    } else if r < q {
      MulMonotone(r + 1, q, n);
    }
  }

  /** On an n×n board the filter `i % (n+1) == 0` selects exactly the
      squares whose row equals their column. */
  lemma MainDiagonalFilterIsDiagonal(n: nat, i: nat)
    requires n >= 1 && i < n * n
    ensures (i % (n + 1) == 0) <==> (i / n == i % n)
  {
    if i / n == i % n { OnFilterIfDiagonal(n, i); }
    if i % (n + 1) == 0 { DiagonalIfOnFilter(n, i); }
  }

  lemma OnFilterIfDiagonal(n: nat, i: nat)
    requires n >= 1 && i / n == i % n
    ensures i % (n + 1) == 0
  {
    var q := i / n;
    assert i == q * n + q;
    assert i == q * (n + 1) + 0;
    DivModOf(i, n + 1, q, 0);
  }

  lemma DiagonalIfOnFilter(n: nat, i: nat)
    requires n >= 1 && i < n * n && i % (n + 1) == 0
    ensures i / n == i % n
  {
    var k := i / (n + 1);
    assert i == k * (n + 1);
    if k >= n {
      NoCheckMulMonotone(n, k, n + 1);
      assert false;
    }
    assert i == k * n + k;
    DivModOf(i, n, k, k);
  }

  /** On an n×n board each filter agrees with the geometric description. */
  lemma FilterIsGeometric(n: nat, l: Line, i: nat)
    requires n >= 1 && i < n * n
    ensures OnFilter(n, l, i) <==> OnCell(n, l, i / n, i % n)
  {
    match l
    case Row(r) => RowFilterIsRow(n, r, i);
    case Column(_) =>
    case MainDiagonal => MainDiagonalFilterIsDiagonal(n, i);
    case AntiDiagonal =>
  }

  /** The cell at (row, col) of a row-major board. */
  function Cell(sat: seq<bool>, n: nat, row: nat, col: nat): bool
    requires |sat| == n * n && row < n && col < n
  {
    CellIndexInRange(n, row, col);
    sat[row * n + col]
  }

  lemma CellIndexInRange(n: nat, row: nat, col: nat)
    requires row < n && col < n
    ensures row * n + col < n * n
  {
    MulMonotone(row + 1, n, n);
  }

  /** Reference definition: every cell (row, col) of the grid that lies on
      the line is satisfied. */
  predicate LineWonOnGrid(sat: seq<bool>, n: nat, l: Line)
    requires |sat| == n * n
  {
    forall row: nat, col: nat :: 0 <= row < n && 0 <= col < n && OnCell(n, l, row, col) ==> Cell(sat, n, row, col)
  }

  /** Square i of an n×n board is the cell at (i / n, i % n). */
  lemma CellOfIndex(sat: seq<bool>, n: nat, i: nat)
    requires n >= 1 && |sat| == n * n && i < n * n
    ensures i / n < n && Cell(sat, n, i / n, i % n) == sat[i]
  {
    var q := i / n;
    assert i == q * n + i % n;
    if q >= n {
      NoCheckMulMonotone(n, q, n);
    }
  }

  lemma LineWonOnGridIfWon(sat: seq<bool>, n: nat, l: Line)
    requires n >= 1 && |sat| == n * n
    requires LineWon(sat, n, l)
    ensures LineWonOnGrid(sat, n, l)
  {
    forall row: nat, col: nat | row < n && col < n && OnCell(n, l, row, col)
      ensures Cell(sat, n, row, col)
    {
      var i := row * n + col;
      CellIndexInRange(n, row, col);
      DivModOf(i, n, row, col);
      FilterIsGeometric(n, l, i);
      assert OnFilter(n, l, i);
    }
  }

  lemma WonIfLineWonOnGrid(sat: seq<bool>, n: nat, l: Line)
    requires n >= 1 && |sat| == n * n
    requires LineWonOnGrid(sat, n, l)
    ensures LineWon(sat, n, l)
  {
    forall i | 0 <= i < |sat| && OnFilter(n, l, i) ensures sat[i] {
      FilterIsGeometric(n, l, i);
      CellOfIndex(sat, n, i);
      var row, col := i / n, i % n;
      assert 0 <= col < n && OnCell(n, l, row, col);
      assert Cell(sat, n, row, col);
    }
  }

  /** The source's filter-based check and the grid definition agree on every
      n×n board and every line. */
  lemma LineWonIsGeometric(sat: seq<bool>, n: nat, l: Line)
    requires n >= 1 && |sat| == n * n
    ensures LineWon(sat, n, l) <==> LineWonOnGrid(sat, n, l)
  {
    if LineWon(sat, n, l) { LineWonOnGridIfWon(sat, n, l); }
    if LineWonOnGrid(sat, n, l) { WonIfLineWonOnGrid(sat, n, l); }
  }

  /** A square on the board that each line of the board passes through. */
  function Witness(n: nat, l: Line): (i: nat)
    requires n >= 1 && ValidLine(n, l)
    ensures i < n * n && OnFilter(n, l, i)
  {
    match l
    case Row(r) =>
      CellIndexInRange(n, r, 0);
      assert r * n <= r * n < (r + 1) * n;
      r * n
    case Column(c) =>
      CellIndexInRange(n, 0, c);
      DivModOf(c, n, 0, c);
      c
    case MainDiagonal =>
      CellIndexInRange(n, 0, 0);
      0
    case AntiDiagonal =>
      CellIndexInRange(n, 0, n - 1);
      DivModOf(n - 1, n, 0, n - 1);
      n - 1
  }

  /** On an n×n board with no satisfied square no line is won. */
  lemma EmptyBoardWinsNothing(sat: seq<bool>, n: nat)
    requires n >= 1 && |sat| == n * n
    requires forall i :: 0 <= i < |sat| ==> !sat[i]
    ensures WonLines(sat, n) == []
  {
    var ls := AllLines(n);
    forall k | 0 <= k < |ls| ensures !LineWon(sat, n, ls[k]) {
      AllLinesAt(n, k);
      var w := Witness(n, ls[k]);
      assert !sat[w];
    }
    WonNone(sat, n, ls);
  }

  /** On a 1×1 board the single square is every row, column and both
      diagonals: all four lines are won together or not at all. */
  lemma SingleSquareBoard(sat: seq<bool>)
    requires |sat| == 1
    ensures WonLines(sat, 1) == if sat[0] then [Row(0), Column(0), MainDiagonal, AntiDiagonal] else []
  {
    var ls := AllLines(1);
    assert ls == [Row(0), Column(0), MainDiagonal, AntiDiagonal];
    forall k | 0 <= k < |ls| ensures LineWon(sat, 1, ls[k]) == sat[0] {
      AllLinesAt(1, k);
      var w := Witness(1, ls[k]);
      assert w == 0;
    }
    if sat[0] { WonAll(sat, 1, ls); } else { WonNone(sat, 1, ls); }
  }

  /** Making square i unsatisfied removes every line through it from the
      report and leaves every other line as it was: the report is recomputed
      from the board, not accumulated. */
  lemma UncompletingRemovesItsLines(sat: seq<bool>, n: nat, i: nat, l: Line)
    requires n >= 1 && i < |sat|
    ensures OnFilter(n, l, i) ==> l !in WonLines(sat[i := false], n)
    ensures !OnFilter(n, l, i) ==> (l in WonLines(sat[i := false], n) <==> l in WonLines(sat, n))
  {
    var sat' := sat[i := false];
    WonLinesMembers(sat, n, l);
    WonLinesMembers(sat', n, l);
    if OnFilter(n, l, i) {
      assert !sat'[i];
    } else {
      assert LineWon(sat', n, l) <==> LineWon(sat, n, l) by {
        forall j | 0 <= j < |sat| && OnFilter(n, l, j) ensures sat'[j] == sat[j] {
        }
      }
    }
  }
}
