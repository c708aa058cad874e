/** The dashboard's month handling: find this month's board among the
    stored ones; without one, offer to carry over the unfinished squares of
    last month's board into the setup wizard; and store the board the wizard
    creates. The browser's localStorage list is the field `stored`. */
module Dashboard {
  import opened Text
  import opened BingoTypes
  import opened Lines

  datatype MonthYear = MonthYear(month: int, year: int)

  predicate ValidMonth(d: MonthYear) {
    1 <= d.month <= 12
  }

  /** Months counted from year 0, January first. */
  function MonthNumber(d: MonthYear): int {
    d.year * 12 + d.month - 1
  }

  /** `getPreviousMonthYear`: `new Date(year, month - 1)` one month back,
      with January rolling over to December of the year before. */
  function PreviousMonthYear(d: MonthYear): (p: MonthYear)
    requires ValidMonth(d)
    ensures ValidMonth(p)
    ensures MonthNumber(p) == MonthNumber(d) - 1
  {
    if d.month > 1 then MonthYear(d.month - 1, d.year) else MonthYear(12, d.year - 1)
  }

  function NextMonthYear(d: MonthYear): (p: MonthYear)
    requires ValidMonth(d)
    ensures ValidMonth(p)
    ensures MonthNumber(p) == MonthNumber(d) + 1
  {
    if d.month < 12 then MonthYear(d.month + 1, d.year) else MonthYear(1, d.year + 1)
  }

  /** Going back a month and forward again lands on the same month. */
  lemma PreviousThenNext(d: MonthYear)
    requires ValidMonth(d)
    ensures NextMonthYear(PreviousMonthYear(d)) == d
  {
  }

  /** Two valid months with the same month number are the same month, so
      the previous month is the only valid month one before. */
  lemma PreviousMonthUnique(d: MonthYear, p: MonthYear)
    requires ValidMonth(d) && ValidMonth(p) && MonthNumber(p) == MonthNumber(d) - 1
    ensures p == PreviousMonthYear(d)
  {
    var q := PreviousMonthYear(d);
    MonthNumberInjective(p, q);
  }

  lemma MonthNumberInjective(a: MonthYear, b: MonthYear)
    requires ValidMonth(a) && ValidMonth(b) && MonthNumber(a) == MonthNumber(b)
    ensures a == b
  {
  }

  predicate IsOf(b: Board, d: MonthYear) {
    b.month == d.month && b.year == d.year
  }

  /** `storedBoards.find(...)`: the first board of that month and year. */
  function FindBoard(boards: seq<Board>, d: MonthYear): (r: Option<Board>)
    ensures r.None? <==> forall k :: 0 <= k < |boards| ==> !IsOf(boards[k], d)
    ensures r.Some? ==> exists k :: 0 <= k < |boards| && boards[k] == r.value
                                    && forall j :: 0 <= j < k ==> !IsOf(boards[j], d)
    ensures r.Some? ==> IsOf(r.value, d)
  {
    if boards == [] then None
    else if IsOf(boards[0], d) then
      Some(boards[0])
    else
      var r := FindBoard(boards[1..], d);
      assert forall k :: 1 <= k < |boards| ==> boards[k] == boards[1..][k - 1];
      if r.Some? then
        var k :| 0 <= k < |boards[1..]| && boards[1..][k] == r.value
                 && forall j :: 0 <= j < k ==> !IsOf(boards[1..][j], d);
        assert boards[k + 1] == r.value;
        r
      else
        r
  }

  /** The carried-over tasks: the contents of the squares that are neither
      completed nor the free space, in board order. */
  function IncompleteTasks(squares: seq<Square>): (tasks: seq<string>)
    ensures |tasks| <= |squares|
  {
    if squares == [] then []
    else
      var last := squares[|squares| - 1];
      IncompleteTasks(squares[..|squares| - 1]) + (if !last.isCompleted && last.kind != FreeSpace then [last.content] else [])
  }

  /** Carrying over distributes over concatenation: the carried tasks keep
      board order, and each unsatisfied square adds its own copy even when
      another square holds the same content. */
  lemma {:induction false} IncompleteTasksAppend(a: seq<Square>, b: seq<Square>)
    ensures IncompleteTasks(a + b) == IncompleteTasks(a) + IncompleteTasks(b)
    decreases |b|
  {
    if b == [] {
      assert a + b == a;
    } else {
      var init := b[..|b| - 1];
      assert (a + b)[..|a + b| - 1] == a + init;
      assert (a + b)[|a + b| - 1] == b[|b| - 1];
      IncompleteTasksAppend(a, init);
    }
  }

  /** A single square is carried over, once, exactly when it is unsatisfied. */
  lemma IncompleteTasksOfOne(s: Square)
    ensures IncompleteTasks([s]) == if Satisfied(s) then [] else [s.content]
  {
    assert [s][..0] == [];
  }

  /** A content is carried over exactly when some unsatisfied square holds it. */
  lemma {:induction false} IncompleteTasksMembers(squares: seq<Square>, c: string)
    ensures c in IncompleteTasks(squares)
        <==> exists i :: 0 <= i < |squares| && !Satisfied(squares[i]) && squares[i].content == c
    decreases |squares|
  {
    if c in IncompleteTasks(squares) {
      var i := CarriedTaskSource(squares, c);
    }
    if exists i :: 0 <= i < |squares| && !Satisfied(squares[i]) && squares[i].content == c {
      var i :| 0 <= i < |squares| && !Satisfied(squares[i]) && squares[i].content == c;
      UnsatisfiedSquareIsCarried(squares, i);
    }
  }

  /** Every carried-over content comes from an unsatisfied square. */
  lemma {:induction false} CarriedTaskSource(squares: seq<Square>, c: string) returns (i: nat)
    requires c in IncompleteTasks(squares)
    ensures i < |squares| && !Satisfied(squares[i]) && squares[i].content == c
    decreases |squares|
  {
    var init := squares[..|squares| - 1];
    var last := squares[|squares| - 1];
    if c in IncompleteTasks(init) {
      i := CarriedTaskSource(init, c);
      assert squares[i] == init[i];
    } else {
      i := |squares| - 1;
    }
  }

  /** Every unsatisfied square's content is carried over. */
  lemma {:induction false} UnsatisfiedSquareIsCarried(squares: seq<Square>, i: nat)
    requires i < |squares| && !Satisfied(squares[i])
    ensures squares[i].content in IncompleteTasks(squares)
    decreases |squares|
  {
    var init := squares[..|squares| - 1];
    if i < |init| {
      assert init[i] == squares[i];
      UnsatisfiedSquareIsCarried(init, i);
    }
  }

  /** Nothing is carried over exactly when every square of last month's
      board is satisfied. */
  lemma {:induction false} NoCarryOverIffAllSatisfied(squares: seq<Square>)
    ensures IncompleteTasks(squares) == [] <==> forall i :: 0 <= i < |squares| ==> Satisfied(squares[i])
    decreases |squares|
  {
    if squares != [] {
      var init := squares[..|squares| - 1];
      NoCarryOverIffAllSatisfied(init);
      if forall i :: 0 <= i < |squares| ==> Satisfied(squares[i]) {
        assert forall i :: 0 <= i < |init| ==> init[i] == squares[i];
      }
      if IncompleteTasks(squares) == [] {
        forall i | 0 <= i < |squares| ensures Satisfied(squares[i]) {
          if i < |init| { assert init[i] == squares[i]; }
        }
      }
    }
  }

  /** Last month's board offers no carry-over exactly when it won every line. */
  lemma NoCarryOverIffEveryLineWon(squares: seq<Square>, size: nat)
    requires size >= 1 && |squares| == size * size
    ensures IncompleteTasks(squares) == [] <==> WonLines(Flags(squares), size) == AllLines(size)
  {
    if IncompleteTasks(squares) == [] {
      NothingCarriedWinsAll(squares, size);
    } else {
      CarriedTaskBlocksALine(squares, size);
    }
  }

  lemma NothingCarriedWinsAll(squares: seq<Square>, size: nat)
    requires size >= 1 && IncompleteTasks(squares) == []
    ensures WonLines(Flags(squares), size) == AllLines(size)
  {
    NoCarryOverIffAllSatisfied(squares);
    FullBoardWinsEveryLine(Flags(squares), size);
  }

  lemma CarriedTaskBlocksALine(squares: seq<Square>, size: nat)
    requires size >= 1 && |squares| == size * size && IncompleteTasks(squares) != []
    ensures WonLines(Flags(squares), size) != AllLines(size)
  {
    var i := UnsatisfiedSquare(squares);
    var sat := Flags(squares);
    assert |sat| == size * size && i < |sat| && !sat[i];
    UnsatisfiedSquareLosesALine(sat, size, i);
  }

  lemma UnsatisfiedSquareLosesALine(sat: seq<bool>, n: nat, i: nat)
    requires n >= 1 && |sat| == n * n && i < |sat| && !sat[i]
    ensures WonLines(sat, n) != AllLines(n)
  {
    var l := Row(i / n);
    assert l in AllLines(n) && l !in WonLines(sat, n) by {
      UnsatisfiedSquareBlocksItsRow(sat, n, i);
      AllLinesMembers(n, l);
    }
  }

  lemma UnsatisfiedSquare(squares: seq<Square>) returns (i: nat)
    requires IncompleteTasks(squares) != []
    ensures i < |squares| && !Satisfied(squares[i])
  {
    NoCarryOverIffAllSatisfied(squares);
    i :| 0 <= i < |squares| && !Satisfied(squares[i]);
  }

  lemma UnsatisfiedSquareBlocksItsRow(sat: seq<bool>, n: nat, i: nat)
    requires n >= 1 && |sat| == n * n && i < |sat| && !sat[i]
    ensures ValidLine(n, Row(i / n)) && Row(i / n) !in WonLines(sat, n)
  {
    CellOfIndex(sat, n, i);
    RowFilterIsRow(n, i / n, i);
    UncompletingRemovesItsLines(sat, n, i, Row(i / n));
    assert sat[i := false] == sat;
  }

  class Dashboard {
    var stored: seq<Board>
    var boards: seq<Board>
    var currentBoard: Option<Board>
    var incompleteTasks: seq<string>
    var showTaskCarryoverPrompt: bool
    var showWizard: bool

    /** A fresh dashboard over what localStorage holds. */
    constructor (stored: seq<Board>)
      ensures this.stored == stored && boards == [] && currentBoard == None
      ensures incompleteTasks == [] && !showTaskCarryoverPrompt && !showWizard
    {
      this.stored := stored;
      boards := [];
      currentBoard := None;
      incompleteTasks := [];
      showTaskCarryoverPrompt := false;
      showWizard := false;
    }

    /** `checkForPreviousMonthTasks`: when last month has a board with
        unfinished squares, remember their contents and show the prompt. */
    method CheckForPreviousMonthTasks(today: MonthYear)
      requires ValidMonth(today)
      modifies this
      ensures var prev := FindBoard(stored, PreviousMonthYear(today));
              var offer := prev.Some? && IncompleteTasks(prev.value.squares) != [];
              && incompleteTasks == (if offer then IncompleteTasks(prev.value.squares) else old(incompleteTasks))
              && showTaskCarryoverPrompt == (offer || old(showTaskCarryoverPrompt))
      ensures stored == old(stored) && boards == old(boards) && currentBoard == old(currentBoard)
      ensures showWizard == old(showWizard)
    {
      var previousMonthBoard := FindBoard(stored, PreviousMonthYear(today));
      if previousMonthBoard.Some? {
        var tasks := IncompleteTasks(previousMonthBoard.value.squares);
        if |tasks| > 0 {
          incompleteTasks := tasks;
          showTaskCarryoverPrompt := true;
        }
      }
    }

    /** `loadCurrentMonthBoard`: show this month's board when there is one,
        else look at last month's. */
    method LoadCurrentMonthBoard(today: MonthYear)
      requires ValidMonth(today)
      modifies this
      ensures FindBoard(stored, today).Some? ==>
                currentBoard == FindBoard(stored, today) && incompleteTasks == old(incompleteTasks)
                && showTaskCarryoverPrompt == old(showTaskCarryoverPrompt)
      ensures FindBoard(stored, today).None? ==>
                var prev := FindBoard(stored, PreviousMonthYear(today));
                var offer := prev.Some? && IncompleteTasks(prev.value.squares) != [];
                && currentBoard == old(currentBoard)
                && incompleteTasks == (if offer then IncompleteTasks(prev.value.squares) else old(incompleteTasks))
                && showTaskCarryoverPrompt == (offer || old(showTaskCarryoverPrompt))
      ensures stored == old(stored) && boards == old(boards) && showWizard == old(showWizard)
    {
      var currentMonthBoard := FindBoard(stored, today);
      if currentMonthBoard.Some? {
        currentBoard := currentMonthBoard;
      } else {
        CheckForPreviousMonthTasks(today);
      }
    }

    /** `handleTaskCarryover`: either answer hides the prompt and opens the
        wizard; the carried tasks are handed to it either way. */
    method HandleTaskCarryover(carryOver: bool)
      modifies this
      ensures !showTaskCarryoverPrompt && showWizard
      ensures stored == old(stored) && boards == old(boards) && currentBoard == old(currentBoard)
      ensures incompleteTasks == old(incompleteTasks)
    {
      showTaskCarryoverPrompt := false;
      if carryOver {
        showWizard := true;
      } else {
        showWizard := true;
      }
    }

    /** The wizard's `onComplete`: store the new board after all stored
        ones, add it to the page's list, show it and close the wizard. */
    method OnComplete(newBoard: Board)
      modifies this
      ensures stored == old(stored) + [newBoard] && boards == old(boards) + [newBoard]
      ensures currentBoard == Some(newBoard) && !showWizard
      ensures incompleteTasks == old(incompleteTasks) && showTaskCarryoverPrompt == old(showTaskCarryoverPrompt)
    {
      stored := stored + [newBoard];
      boards := boards + [newBoard];
      currentBoard := Some(newBoard);
      showWizard := false;
    }

    /** The wizard's `onClose`. */
    /** The "Create New Board" and "Create This Month's Board!" buttons open
        the wizard. */
    method OpenWizard()
      modifies this
      ensures showWizard
      ensures stored == old(stored) && boards == old(boards) && currentBoard == old(currentBoard)
      ensures incompleteTasks == old(incompleteTasks) && showTaskCarryoverPrompt == old(showTaskCarryoverPrompt)
    {
      showWizard := true;
    }

    method OnClose()
      modifies this
      ensures !showWizard
      ensures stored == old(stored) && boards == old(boards) && currentBoard == old(currentBoard)
      ensures incompleteTasks == old(incompleteTasks) && showTaskCarryoverPrompt == old(showTaskCarryoverPrompt)
    {
      showWizard := false;
    }
  }

  /** After the wizard stores a board for this month, loading finds a board
      of this month (the first one stored, should there be several). */
  lemma {:induction false} StoredBoardIsFound(stored: seq<Board>, b: Board, d: MonthYear)
    requires IsOf(b, d)
    ensures FindBoard(stored + [b], d) == if FindBoard(stored, d).Some? then FindBoard(stored, d) else Some(b)
    decreases |stored|
  {
    if stored == [] {
      assert stored + [b] == [b];
    } else {
      assert (stored + [b])[0] == stored[0];
      if !IsOf(stored[0], d) {
        assert (stored + [b])[1..] == stored[1..] + [b];
        StoredBoardIsFound(stored[1..], b, d);
      }
    }
  }
}
