/** The `POST /api/bingo/complete` handler: mark a square completed, then
    look for every line of its board that is won and has no bingo record
    yet, create a record for each and answer with those new records.
    The database tables are the fields of a `Store`. */
module CompleteRoute {
  import opened Text
  import opened BingoTypes
  import opened Lines

  /** A row of the square table; `completedAt` is a timestamp. */
  datatype SquareRow = SquareRow(content: string, kind: SquareKind, isCompleted: bool, completedAt: Option<int>)

  /** A row of the board table, with the ids of its squares in position order. */
  datatype BoardRow = BoardRow(size: nat, squareIds: seq<string>)

  datatype BingoType = RowType | ColumnType | DiagonalType

  /** A row of the bingo table: board, line type and position. */
  datatype BingoRow = BingoRow(id: nat, boardId: string, kind: BingoType, position: nat)

  /** The handler's answers. */
  datatype Reply =
    | Invalid
    | Failure
    | BoardNotFound
    | Completed(square: SquareRow, bingos: seq<BingoRow>)

  function Status(r: Reply): (status: nat)
    ensures status == 200 <==> r.Completed?
  {
    match r
    case Invalid => 400
    case Failure => 500
    case BoardNotFound => 404
    case Completed(_, _) => 200
  }

  function Message(r: Reply): string {
    match r
    case Invalid => "Square ID and Board ID are required"
    case Failure => "Failed to complete square"
    case BoardNotFound => "Board not found"
    case Completed(_, _) => "Square completed successfully"
  }

  /** The reply's message and its status determine each other. */
  lemma MessageMatchesStatus(a: Reply, b: Reply)
    ensures Message(a) == Message(b) <==> Status(a) == Status(b)
  {
  }

  // -----------------------------------------------------------------------
  // Bingo keys

  /** The type a bingo record of line l carries. */
  function TypeOf(l: Line): BingoType {
    match l
    case Row(_) => RowType
    case Column(_) => ColumnType
    case MainDiagonal => DiagonalType
    case AntiDiagonal => DiagonalType
  }

  /** The position a bingo record of line l carries: the row or column
      index, 0 for the main diagonal and 1 for the anti-diagonal. */
  function PositionOf(l: Line): nat {
    match l
    case Row(r) => r
    case Column(c) => c
    case MainDiagonal => 0
    case AntiDiagonal => 1
  }

  /** Distinct lines get distinct (type, position) keys. */
  lemma KeyInjective(a: Line, b: Line)
    requires TypeOf(a) == TypeOf(b) && PositionOf(a) == PositionOf(b)
    ensures a == b
  {
  }

  /** The `findFirst` filter: record `row` is the bingo of line l on board b. */
  predicate Matches(row: BingoRow, b: string, l: Line) {
    row.boardId == b && row.kind == TypeOf(l) && row.position == PositionOf(l)
  }

  predicate Recorded(bingos: seq<BingoRow>, b: string, l: Line) {
    exists k :: 0 <= k < |bingos| && Matches(bingos[k], b, l)
  }

  /** `prisma.bingo.findFirst`: the first record of line l on board b. */
  function FindFirst(bingos: seq<BingoRow>, b: string, l: Line): (r: Option<BingoRow>)
    ensures r.Some? <==> Recorded(bingos, b, l)
    ensures r.Some? ==> r.value in bingos && Matches(r.value, b, l)
    ensures r.Some? ==> exists k :: 0 <= k < |bingos| && bingos[k] == r.value
                                    && forall j :: 0 <= j < k ==> !Matches(bingos[j], b, l)
  {
    if bingos == [] then None
    else if Matches(bingos[0], b, l) then
      Some(bingos[0])
    else
      var r := FindFirst(bingos[1..], b, l);
      if r.Some? then
        var k :| 0 <= k < |bingos[1..]| && bingos[1..][k] == r.value
                 && forall j :: 0 <= j < k ==> !Matches(bingos[1..][j], b, l);
        assert bingos[k + 1] == r.value;
        assert forall j :: 0 <= j < k + 1 ==> !Matches(bingos[j], b, l) by {
          forall j | 0 <= j < k + 1 ensures !Matches(bingos[j], b, l) {
            if j > 0 { assert bingos[j] == bingos[1..][j - 1]; }
          }
        }
        r
      else
        assert forall k :: 1 <= k < |bingos| ==> bingos[k] == bingos[1..][k - 1];
        r
  }

  lemma RecordedAppend(a: seq<BingoRow>, c: seq<BingoRow>, b: string, l: Line)
    ensures Recorded(a + c, b, l) <==> Recorded(a, b, l) || Recorded(c, b, l)
  {
    if Recorded(a + c, b, l) {
      var k :| 0 <= k < |a + c| && Matches((a + c)[k], b, l);
      if k >= |a| { assert c[k - |a|] == (a + c)[k]; }
    }
    if Recorded(c, b, l) {
      var k :| 0 <= k < |c| && Matches(c[k], b, l);
      assert (a + c)[|a| + k] == c[k];
    }
    if Recorded(a, b, l) {
      var k :| 0 <= k < |a| && Matches(a[k], b, l);
      assert (a + c)[k] == a[k];
    }
  }

  /** No two bingo records share board, type and position. */
  predicate KeysUnique(bingos: seq<BingoRow>) {
    forall i, j :: 0 <= i < j < |bingos| ==>
      !(bingos[i].boardId == bingos[j].boardId && bingos[i].kind == bingos[j].kind
        && bingos[i].position == bingos[j].position)
  }

  // -----------------------------------------------------------------------
  // What one call creates

  /** The lines of ls that have no record on board b yet, in the order of ls. */
  function FreshLines(ls: seq<Line>, bingos: seq<BingoRow>, b: string): seq<Line> {
    if ls == [] then []
    else
      var last := ls[|ls| - 1];
      FreshLines(ls[..|ls| - 1], bingos, b) + (if Recorded(bingos, b, last) then [] else [last])
  }

  /** The records `prisma.bingo.create` makes for lines ls on board b, with
      ids handed out from firstId on. */
  function Records(ls: seq<Line>, b: string, firstId: nat): (rows: seq<BingoRow>)
    ensures |rows| == |ls|
  {
    seq(|ls|, k requires 0 <= k < |ls| => BingoRow(firstId + k, b, TypeOf(ls[k]), PositionOf(ls[k])))
  }

  /** The records created after checking the first k lines of the reporting
      order against the table `bingos` as it was before the check. */
  function Created(sat: seq<bool>, n: nat, b: string, k: nat, bingos: seq<BingoRow>, firstId: nat): seq<BingoRow>
    requires n >= 1 && k <= 2 * n + 2
  {
    Records(FreshLines(Won(sat, n, AllLines(n)[..k]), bingos, b), b, firstId)
  }

  lemma {:induction false} FreshLinesMembers(ls: seq<Line>, bingos: seq<BingoRow>, b: string, l: Line)
    ensures l in FreshLines(ls, bingos, b) <==> l in ls && !Recorded(bingos, b, l)
    decreases |ls|
  {
    if ls != [] {
      var init := ls[..|ls| - 1];
      FreshLinesMembers(init, bingos, b, l);
      assert ls == init + [ls[|ls| - 1]];
    }
  }

  lemma {:induction false} FreshLinesKeepRankOrder(n: nat, ls: seq<Line>, bingos: seq<BingoRow>, b: string)
    requires RankIncreasing(n, ls)
    ensures RankIncreasing(n, FreshLines(ls, bingos, b))
    decreases |ls|
  {
    if ls != [] {
      var init := ls[..|ls| - 1];
      var last := ls[|ls| - 1];
      FreshLinesKeepRankOrder(n, init, bingos, b);
      var f := FreshLines(init, bingos, b);
      forall k | 0 <= k < |f| ensures Rank(n, f[k]) < Rank(n, last) {
        FreshLinesMembers(init, bingos, b, f[k]);
        var j :| 0 <= j < |init| && init[j] == f[k];
      }
    }
  }

  /** Without any earlier record, every line is fresh. */
  lemma {:induction false} NothingRecordedAllFresh(ls: seq<Line>, b: string)
    ensures FreshLines(ls, [], b) == ls
    decreases |ls|
  {
    if ls != [] {
      NothingRecordedAllFresh(ls[..|ls| - 1], b);
    }
  }

  /** Against a table that records all of ls, nothing is fresh. */
  lemma {:induction false} AllRecordedNoneFresh(ls: seq<Line>, bingos: seq<BingoRow>, b: string)
    requires forall k :: 0 <= k < |ls| ==> Recorded(bingos, b, ls[k])
    ensures FreshLines(ls, bingos, b) == []
    decreases |ls|
  {
    if ls != [] {
      AllRecordedNoneFresh(ls[..|ls| - 1], bingos, b);
    }
  }

  /** The created records are for board b and record exactly the lines of ls. */
  lemma RecordsRecord(ls: seq<Line>, b: string, firstId: nat, b': string, l: Line)
    ensures Recorded(Records(ls, b, firstId), b', l) <==> b' == b && l in ls
  {
    var rows := Records(ls, b, firstId);
    if Recorded(rows, b', l) {
      var k :| 0 <= k < |rows| && Matches(rows[k], b', l);
      KeyInjective(ls[k], l);
    }
    if b' == b && l in ls {
      var k :| 0 <= k < |ls| && ls[k] == l;
      assert Matches(rows[k], b', l);
    }
  }

  lemma RecordsAppend(ls: seq<Line>, l: Line, b: string, firstId: nat)
    ensures Records(ls + [l], b, firstId)
         == Records(ls, b, firstId) + [BingoRow(firstId + |ls|, b, TypeOf(l), PositionOf(l))]
  {
  }

  /** Lines with distinct ranks that are not recorded yet keep the keys unique. */
  lemma AddingFreshKeepsKeysUnique(bingos: seq<BingoRow>, n: nat, ls: seq<Line>, b: string, firstId: nat)
    requires KeysUnique(bingos)
    requires RankIncreasing(n, ls)
    requires forall k :: 0 <= k < |ls| ==> !Recorded(bingos, b, ls[k])
    ensures KeysUnique(bingos + Records(ls, b, firstId))
  {
    var rows := Records(ls, b, firstId);
    var all := bingos + rows;
    forall i, j | 0 <= i < j < |all|
      ensures !(all[i].boardId == all[j].boardId && all[i].kind == all[j].kind
                && all[i].position == all[j].position)
    {
      if j >= |bingos| {
        var l := ls[j - |bingos|];
        assert all[j] == rows[j - |bingos|];
        if i < |bingos| {
          if all[i].boardId == all[j].boardId && all[i].kind == all[j].kind && all[i].position == all[j].position {
            assert Matches(bingos[i], b, l);
          }
        } else {
          assert all[i] == rows[i - |bingos|];
        }
      }
    }
  }

  // -----------------------------------------------------------------------
  // Properties of one check (FreshLines of the won lines)

  /** A call creates a record exactly for each line of the board that is won
      and not yet recorded. */
  lemma CreatedLines(sat: seq<bool>, n: nat, bingos: seq<BingoRow>, b: string, l: Line)
    requires n >= 1
    ensures l in FreshLines(WonLines(sat, n), bingos, b)
        <==> ValidLine(n, l) && LineWon(sat, n, l) && !Recorded(bingos, b, l)
  {
    FreshLinesMembers(WonLines(sat, n), bingos, b, l);
    WonLinesMembers(sat, n, l);
  }

  /** After a call every won line of the board has a record. */
  lemma EveryWonLineRecorded(sat: seq<bool>, n: nat, bingos: seq<BingoRow>, b: string, firstId: nat, l: Line)
    requires n >= 1 && ValidLine(n, l) && LineWon(sat, n, l)
    ensures Recorded(bingos + Records(FreshLines(WonLines(sat, n), bingos, b), b, firstId), b, l)
  {
    var newLines := FreshLines(WonLines(sat, n), bingos, b);
    RecordedAppend(bingos, Records(newLines, b, firstId), b, l);
    RecordsRecord(newLines, b, firstId, b, l);
    CreatedLines(sat, n, bingos, b, l);
  }

  /** A second call with the same satisfaction flags creates nothing. */
  lemma {:induction false} SecondCheckCreatesNothing(sat: seq<bool>, n: nat, bingos: seq<BingoRow>, b: string, firstId: nat)
    requires n >= 1
    ensures FreshLines(WonLines(sat, n), bingos + Records(FreshLines(WonLines(sat, n), bingos, b), b, firstId), b) == []
  {
    var won := WonLines(sat, n);
    forall k | 0 <= k < |won|
      ensures Recorded(bingos + Records(FreshLines(won, bingos, b), b, firstId), b, won[k])
    {
      WonLinesMembers(sat, n, won[k]);
      EveryWonLineRecorded(sat, n, bingos, b, firstId, won[k]);
    }
    AllRecordedNoneFresh(won, bingos + Records(FreshLines(won, bingos, b), b, firstId), b);
  }

  /** A call keeps the (board, type, position) keys unique. */
  lemma CheckKeepsKeysUnique(sat: seq<bool>, n: nat, bingos: seq<BingoRow>, b: string, firstId: nat)
    requires n >= 1 && KeysUnique(bingos)
    ensures KeysUnique(bingos + Records(FreshLines(WonLines(sat, n), bingos, b), b, firstId))
  {
    var newLines := FreshLines(WonLines(sat, n), bingos, b);
    WonLinesOrdered(sat, n);
    FreshLinesKeepRankOrder(n, WonLines(sat, n), bingos, b);
    forall k | 0 <= k < |newLines| ensures !Recorded(bingos, b, newLines[k]) {
      FreshLinesMembers(WonLines(sat, n), bingos, b, newLines[k]);
    }
    AddingFreshKeepsKeysUnique(bingos, n, newLines, b, firstId);
  }

  /** A call leaves the records of every other board as they were. */
  lemma OtherBoardsUntouched(sat: seq<bool>, n: nat, bingos: seq<BingoRow>, b: string, firstId: nat, b': string, l: Line)
    requires n >= 1 && b' != b
    ensures Recorded(bingos + Records(FreshLines(WonLines(sat, n), bingos, b), b, firstId), b', l)
        <==> Recorded(bingos, b', l)
  {
    var newLines := FreshLines(WonLines(sat, n), bingos, b);
    RecordedAppend(bingos, Records(newLines, b, firstId), b', l);
    RecordsRecord(newLines, b, firstId, b', l);
  }

  /** On a board without records, the new records are the won lines in the
      same order the board component reports them. */
  lemma FirstCheckRecordsWonLines(sat: seq<bool>, n: nat, b: string)
    requires n >= 1
    ensures FreshLines(WonLines(sat, n), [], b) == WonLines(sat, n)
  {
    NothingRecordedAllFresh(WonLines(sat, n), b);
  }

  /** The step of the loops: what is recorded against the growing table is
      what is recorded against the table before the check, for the line
      checked next. */
  lemma RecordedSoFar(sat: seq<bool>, n: nat, b: string, k: nat, bingos: seq<BingoRow>, firstId: nat)
    requires n >= 1 && k < 2 * n + 2
    ensures Recorded(bingos + Created(sat, n, b, k, bingos, firstId), b, AllLines(n)[k])
        <==> Recorded(bingos, b, AllLines(n)[k])
  {
    var l := AllLines(n)[k];
    var newLines := FreshLines(Won(sat, n, AllLines(n)[..k]), bingos, b);
    RecordedAppend(bingos, Records(newLines, b, firstId), b, l);
    RecordsRecord(newLines, b, firstId, b, l);
    if l in newLines {
      FreshLinesMembers(Won(sat, n, AllLines(n)[..k]), bingos, b, l);
      WonMembers(sat, n, AllLines(n)[..k], l);
      var j :| 0 <= j < k && AllLines(n)[..k][j] == l;
      AllLinesAt(n, j);
      AllLinesAt(n, k);
    }
  }

  lemma CreatedStep(sat: seq<bool>, n: nat, b: string, k: nat, bingos: seq<BingoRow>, firstId: nat)
    requires n >= 1 && k < 2 * n + 2
    ensures var l := AllLines(n)[k];
            var before := Created(sat, n, b, k, bingos, firstId);
            Created(sat, n, b, k + 1, bingos, firstId)
            == before + (if LineWon(sat, n, l) && !Recorded(bingos, b, l)
                         then [BingoRow(firstId + |before|, b, TypeOf(l), PositionOf(l))] else [])
  {
    var l := AllLines(n)[k];
    WonPrefixStep(sat, n, k);
    var won := Won(sat, n, AllLines(n)[..k]);
    var f := FreshLines(won, bingos, b);
    if LineWon(sat, n, l) {
      assert (won + [l])[..|won + [l]| - 1] == won;
      assert Won(sat, n, AllLines(n)[..k + 1]) == won + [l];
      if !Recorded(bingos, b, l) {
        assert FreshLines(won + [l], bingos, b) == f + [l];
        RecordsAppend(f, l, b, firstId);
      } else {
        assert FreshLines(won + [l], bingos, b) == f;
      }
    } else {
      assert Won(sat, n, AllLines(n)[..k + 1]) == won;
    }
  }

  // -----------------------------------------------------------------------
  // The store

  class Store {
    var squares: map<string, SquareRow>
    var boards: map<string, BoardRow>
    var bingos: seq<BingoRow>
    var nextBingoId: nat

    /** Boards have a positive size and list only existing squares; bingo
        keys are unique and every record id was handed out already. */
    ghost predicate Valid()
      reads this
    {
      && (forall b :: b in boards ==> boards[b].size >= 1)
      && (forall b, i :: b in boards && 0 <= i < |boards[b].squareIds| ==> boards[b].squareIds[i] in squares)
      && KeysUnique(bingos)
      && (forall k :: 0 <= k < |bingos| ==> bingos[k].id < nextBingoId)
    }

    constructor ()
      ensures Valid()
      ensures squares == map[] && boards == map[] && bingos == [] && nextBingoId == 0
    {
      squares := map[];
      boards := map[];
      bingos := [];
      nextBingoId := 0;
    }

    /** `prisma.bingo.create`: append a record of line l on board b. */
    method Create(b: string, l: Line) returns (bingo: BingoRow)
      modifies this
      ensures bingo == BingoRow(old(nextBingoId), b, TypeOf(l), PositionOf(l))
      ensures bingos == old(bingos) + [bingo] && nextBingoId == old(nextBingoId) + 1
      ensures squares == old(squares) && boards == old(boards)
    {
      bingo := BingoRow(nextBingoId, b, TypeOf(l), PositionOf(l));
      bingos := bingos + [bingo];
      nextBingoId := nextBingoId + 1;
    }

    /** One check of `checkForBingos`: when `line`, the k-th line of the
        reporting order, is won and `findFirst` finds no record of it,
        create one and push it. */
    method CheckLine(sat: seq<bool>, size: nat, b: string, k: nat, line: Line,
                     newBingos: seq<BingoRow>, ghost before: seq<BingoRow>, ghost firstId: nat)
      returns (pushed: seq<BingoRow>)
      requires size >= 1 && k < 2 * size + 2 && line == AllLines(size)[k]
      requires bingos == before + newBingos && nextBingoId == firstId + |newBingos|
      requires newBingos == Created(sat, size, b, k, before, firstId)
      modifies this
      ensures bingos == before + pushed && nextBingoId == firstId + |pushed|
      ensures pushed == Created(sat, size, b, k + 1, before, firstId)
      ensures squares == old(squares) && boards == old(boards)
    {
      CreatedStep(sat, size, b, k, before, firstId);
      RecordedSoFar(sat, size, b, k, before, firstId);
      pushed := newBingos;
      if LineWon(sat, size, line) {
        var existingBingo := FindFirst(bingos, b, line);
        if existingBingo.None? {
          var bingo := Create(b, line);
          pushed := newBingos + [bingo];
        }
      }
    }

    /** The row loop of `checkForBingos`. */
    method CheckRows(sat: seq<bool>, size: nat, b: string) returns (newBingos: seq<BingoRow>)
      requires size >= 1
      modifies this
      ensures bingos == old(bingos) + newBingos && nextBingoId == old(nextBingoId) + |newBingos|
      ensures newBingos == Created(sat, size, b, size, old(bingos), old(nextBingoId))
      ensures squares == old(squares) && boards == old(boards)
    {
      newBingos := [];
      for row := 0 to size
        invariant bingos == old(bingos) + newBingos && nextBingoId == old(nextBingoId) + |newBingos|
        invariant newBingos == Created(sat, size, b, row, old(bingos), old(nextBingoId))
        invariant squares == old(squares) && boards == old(boards)
      {
        AllLinesAt(size, row);
        newBingos := CheckLine(sat, size, b, row, Row(row), newBingos, old(bingos), old(nextBingoId));
      }
    }

    /** The column loop of `checkForBingos`, continuing after the rows. */
    method CheckColumns(sat: seq<bool>, size: nat, b: string, rowBingos: seq<BingoRow>,
                        ghost before: seq<BingoRow>, ghost firstId: nat)
      returns (newBingos: seq<BingoRow>)
      requires size >= 1
      requires bingos == before + rowBingos && nextBingoId == firstId + |rowBingos|
      requires rowBingos == Created(sat, size, b, size, before, firstId)
      modifies this
      ensures bingos == before + newBingos && nextBingoId == firstId + |newBingos|
      ensures newBingos == Created(sat, size, b, 2 * size, before, firstId)
      ensures squares == old(squares) && boards == old(boards)
    {
      newBingos := rowBingos;
      for col := 0 to size
        invariant bingos == before + newBingos && nextBingoId == firstId + |newBingos|
        invariant newBingos == Created(sat, size, b, size + col, before, firstId)
        invariant squares == old(squares) && boards == old(boards)
      {
        AllLinesAt(size, size + col);
        newBingos := CheckLine(sat, size, b, size + col, Column(col), newBingos, before, firstId);
      }
    }

    /** `checkForBingos`: rows, columns, then the two diagonals; the result
        is the list of records created, one per won line that had none. */
    method CheckForBingos(sat: seq<bool>, size: nat, b: string) returns (newBingos: seq<BingoRow>)
      requires size >= 1
      modifies this
      ensures newBingos == Records(FreshLines(WonLines(sat, size), old(bingos), b), b, old(nextBingoId))
      ensures bingos == old(bingos) + newBingos && nextBingoId == old(nextBingoId) + |newBingos|
      ensures squares == old(squares) && boards == old(boards)
    {
      ghost var before, firstId := bingos, nextBingoId;
      newBingos := CheckRows(sat, size, b);
      newBingos := CheckColumns(sat, size, b, newBingos, before, firstId);
      AllLinesAt(size, 2 * size);
      newBingos := CheckLine(sat, size, b, 2 * size, MainDiagonal, newBingos, before, firstId);
      AllLinesAt(size, 2 * size + 1);
      newBingos := CheckLine(sat, size, b, 2 * size + 1, AntiDiagonal, newBingos, before, firstId);
      WonWholePrefix(sat, size);
    }

    /** The satisfaction flags of a board's squares in position order. */
    function BoardFlags(board: BoardRow): (sat: seq<bool>)
      reads this
      requires forall i :: 0 <= i < |board.squareIds| ==> board.squareIds[i] in squares
      ensures |sat| == |board.squareIds|
    {
      var table := squares;
      seq(|board.squareIds|, i requires 0 <= i < |board.squareIds| =>
        table[board.squareIds[i]].isCompleted || table[board.squareIds[i]].kind == FreeSpace)
    }

    /** `POST`: `now` is the server clock at the update. */
    method Post(squareId: Option<string>, bingoBoardId: Option<string>, now: int) returns (reply: Reply)
      requires Valid()
      modifies this
      ensures Valid()
      ensures !Present(squareId) || !Present(bingoBoardId) ==>
                reply == Invalid && squares == old(squares) && bingos == old(bingos) && nextBingoId == old(nextBingoId)
      ensures Present(squareId) && Present(bingoBoardId) && squareId.value !in old(squares) ==>
                reply == Failure && squares == old(squares) && bingos == old(bingos) && nextBingoId == old(nextBingoId)
      ensures Present(squareId) && Present(bingoBoardId) && squareId.value in old(squares) ==>
                squares == old(squares)[squareId.value :=
                  old(squares)[squareId.value].(isCompleted := true, completedAt := Some(now))]
      ensures Present(squareId) && Present(bingoBoardId) && squareId.value in old(squares)
              && bingoBoardId.value !in boards ==>
                reply == BoardNotFound && bingos == old(bingos) && nextBingoId == old(nextBingoId)
      ensures Present(squareId) && Present(bingoBoardId) && squareId.value in old(squares)
              && bingoBoardId.value in boards ==>
                reply.Completed? && reply.square == squares[squareId.value]
                && reply.bingos == Records(FreshLines(WonLines(BoardFlags(boards[bingoBoardId.value]),
                                                               boards[bingoBoardId.value].size),
                                                      old(bingos), bingoBoardId.value),
                                           bingoBoardId.value, old(nextBingoId))
                && bingos == old(bingos) + reply.bingos
                && nextBingoId == old(nextBingoId) + |reply.bingos|
      ensures boards == old(boards)
    {
      if !Present(squareId) || !Present(bingoBoardId) {
        return Invalid;
      }
      var sid, bid := squareId.value, bingoBoardId.value;
      if sid !in squares {
        return Failure;
      }
      var updatedSquare := squares[sid].(isCompleted := true, completedAt := Some(now));
      squares := squares[sid := updatedSquare];
      if bid !in boards {
        return BoardNotFound;
      }
      var board := boards[bid];
      var sat := BoardFlags(board);
      CheckKeepsKeysUnique(sat, board.size, bingos, bid, nextBingoId);
      var bingos' := CheckForBingos(sat, board.size, bid);
      reply := Completed(updatedSquare, bingos');
    }
  }
}
