# Productivity Bingo — a Dafny model

Productivity Bingo is a Next.js app for households. Each month a user sets up
an n×n bingo board (n = 3, 4 or 5) in a setup wizard. The board is filled from
"tolerations" (nagging chores) and tasks, with one free space. Ticking off
squares wins rows, columns and diagonals. A new bingo shows confetti and a
treasure chest that hands out one of the user's rewards. Unfinished squares from
last month can be carried over into the next board. Two mascots, a knight on the
board and an orc in the wizard, react to clicks with tips and, as the clicks pile
up, insults, until they die or walk off. The server side has a square-completion
route that records bingos, and registration and login routes for accounts.

The model has one module per source file, plus three shared modules:

- `Text` holds the decimal rendering behind template literals such as
  `row-${row}`, `String.prototype.trim` and request-field truthiness.
- `BingoTypes` holds the square and board records and the test a line applies to
  a square: completed, or the free space.
- `Lines` is the line evaluator that the board component and the server route
  both implement. It keeps the source's index filters literally: a row is a
  slice, a column is `i % n == c`, the main diagonal is `i % (n + 1) == 0` and
  the anti-diagonal is `i / n + i % n == n - 1`. It proves them equal to the
  geometric rows, columns and diagonals of an n×n grid.

The file-by-file modules are these:

- **`BingoBoardComponent`** (`components/BingoBoard.tsx`) models toggling, the
  `checkForBingos` loops as methods proved against `Lines`, what counts as a new
  bingo, and progress.
- **`CompleteRoute`** (`app/api/bingo/complete/route.ts`) models the database as
  a class. Its fields are the square and board tables and the bingo table.
  `checkForBingos` creates a bingo record for every won line not yet recorded.
- **`SetupWizard`** models the step machine, the list editing and board
  generation as a loop.
- **`Dashboard`** models the month lookup and the carry-over.
- **`TreasureChest`**, **`RewardsManager`**, **`Settings`**, **`KnightGuide`**,
  **`OrcWizard`**, **`SpriteAnimation`** and **`MusicControls`** model the
  components of the same names. A `SpriteAnimation` is a class whose props can
  change while it stays mounted. React keeps its frame and playing flag across
  such a change. So when the orc's sprite, which has no `key`, switches from the
  8-frame walk to the 6-frame idle on walk frame 6 or 7, the frame stays past
  the idle sheet: the next step stops there and an empty window is drawn.
- **`Auth`** models the `register` and `login` routes.

Components that change state step by step are classes. Those whose state has
an invariant (`Auth.AccountStore`, `CompleteRoute.Store`, `KnightGuide.Knight`,
`OrcWizard.Orc`, `MusicControls.Controls`, `SetupWizard.Wizard` and
`TreasureChest.Chest`) carry a `Valid()` predicate.
Timers and intervals become methods called once per firing.
Randomness (`Math.random`) and the clock (`Date.now`, `new Date()`) become
parameters with stated ranges:

- `draw` is the free-space index or the reward draw;
- `pick` is the orc's final message;
- `now` is a time-based id;
- `today` is the current month;
- `salt` is bcrypt's salt.

## Model

| member | source | states |
|---|---|---|
| Text.NatToString | components/BingoBoard.tsx:62-67 | The decimal rendering used in labels is a non-empty string of digits. |
| Text.ParseNatToString | components/BingoBoard.tsx:62-75 | Reading the rendered digits back gives the number, so the rendering loses nothing. |
| Text.NatToStringInjective | components/BingoBoard.tsx:62-75 | Different numbers render differently, so `row-${r}` labels of different rows differ. |
| Text.TrimStart | components/SetupWizard.tsx:155-162 | The result is a suffix of the input, what was cut is whitespace, and the result does not start with whitespace. |
| Text.TrimEnd | components/SetupWizard.tsx:155-162 | The result is a prefix of the input, what was cut is whitespace, and the result does not end with whitespace. |
| Text.Trim | components/SetupWizard.tsx:155-162 | The result is a slice of the input with only whitespace around it, and it starts and ends with a non-whitespace character. |
| Text.TrimEmptyIffBlank | components/SetupWizard.tsx:156 | `value.trim()` is falsy exactly when the value is all whitespace. |
| Text.TrimIdempotent | components/SetupWizard.tsx:159 | Trimming twice is trimming once. |
| BingoTypes.FlagsUpdate | components/BingoBoard.tsx:64 | A square's mark is its own test: replacing one square changes that square's mark alone, to whether the new square is completed or the free space. |
| Lines.AllLines | components/BingoBoard.tsx:60-90 | An n×n board has 2n+2 lines: n rows, n columns and the two diagonals. |
| Lines.AllLinesAt | components/BingoBoard.tsx:60-90 | The k-th line checked is row k, then column k−n, then the main and the anti-diagonal; its rank is k. |
| Lines.AllLinesRankIncreasing | components/BingoBoard.tsx:60-90 | Lines are checked in strictly increasing rank order. |
| Lines.AllLinesMembers | components/BingoBoard.tsx:60-90 | A line is checked exactly when it is a line of the board. |
| Lines.WonMembers | components/BingoBoard.tsx:62-90 | A line is reported exactly when it is among those checked and every square its filter selects is marked. |
| Lines.WonKeepsRankOrder | components/BingoBoard.tsx:59-90 | The reported lines keep the checking order. |
| Lines.WonLinesMembers | components/BingoBoard.tsx:62-90 | A line is reported exactly when it is a valid line and is won. |
| Lines.WonLinesOrdered | components/BingoBoard.tsx:59-90 | The reported lines are in increasing rank order and have no duplicates. |
| Lines.WonAll | components/BingoBoard.tsx:62-90 | When every checked line is won, all of them are reported, in order. |
| Lines.WonNone | components/BingoBoard.tsx:62-90 | When no checked line is won, nothing is reported. |
| Lines.FullBoardWinsEveryLine | components/BingoBoard.tsx:62-90 | On a fully marked board all 2n+2 lines are reported. |
| Lines.WonPrefixStep | components/BingoBoard.tsx:62-90 | Checking one more line appends it exactly when it is won. |
| Lines.RowFilterIsRow | components/BingoBoard.tsx:63 | The slice `[r·n, (r+1)·n)` holds exactly the indices in row r. |
| Lines.MainDiagonalFilterIsDiagonal | components/BingoBoard.tsx:78 | On an n×n board `i % (n+1) == 0` holds exactly when row equals column. |
| Lines.FilterIsGeometric | components/BingoBoard.tsx:63-87 | Each index filter selects exactly the cells on the geometric line. |
| Lines.CellOfIndex | components/BingoBoard.tsx:84-85 | Index i is the cell (i / n, i % n) of the grid. |
| Lines.LineWonIsGeometric | components/BingoBoard.tsx:62-90 | The filter-based check wins a line exactly when every grid cell on that line is marked. |
| Lines.Witness | components/BingoBoard.tsx:63-87 | Every valid line selects at least one square, so no line is won vacuously on an n×n board. |
| Lines.EmptyBoardWinsNothing | components/BingoBoard.tsx:62-90 | A board with nothing marked reports no line. |
| Lines.SingleSquareBoard | components/BingoBoard.tsx:62-90 | On a 1×1 board the single square wins all four lines or none. |
| Lines.UncompletingRemovesItsLines | components/BingoBoard.tsx:62-90 | Unmarking square i loses exactly the lines whose filter selects i; every other line's verdict is unchanged. |
| BingoBoardComponent.ToggledChangesOnlyThatSquare | components/BingoBoard.tsx:42-55 | Toggling flips `isCompleted` of the squares with that id and changes nothing else. |
| BingoBoardComponent.ToggleTwiceRestores | components/BingoBoard.tsx:42-55 | Toggling the same square twice restores the board. |
| BingoBoardComponent.LabelInjective | components/BingoBoard.tsx:62-90 | Different lines get different labels. |
| BingoBoardComponent.LabelsMembers | components/BingoBoard.tsx:93 | A line's label is in a label list exactly when the line is in the line list, so `includes` on labels compares lines. |
| BingoBoardComponent.PushIfWon | components/BingoBoard.tsx:64-67 | One line check extends the labels of the lines won so far by this line's label exactly when it is won. |
| BingoBoardComponent.RowLabels | components/BingoBoard.tsx:62-67 | The row loop yields the labels of the won rows, in row order. |
| BingoBoardComponent.ColumnLabels | components/BingoBoard.tsx:70-75 | The column loop extends that with the labels of the won columns. |
| BingoBoardComponent.CurrentLabels | components/BingoBoard.tsx:57-90 | The whole check yields the labels of exactly the won lines, in the order rows, columns, diagonal-1, diagonal-2. |
| BingoBoardComponent.NewLabelCountPositive | components/BingoBoard.tsx:93-94 | The count of new bingos is positive exactly when some current label was not recorded before. |
| BingoBoardComponent.NothingNewAgainstItself | components/BingoBoard.tsx:93 | Labels compared against themselves contain nothing new. |
| BingoBoardComponent.FullBoardLabels | components/BingoBoard.tsx:57-90 | A fully satisfied board reports 2n+2 distinct labels, one per line. |
| BingoBoardComponent.FreeSpaceFlagIrrelevant | components/BingoBoard.tsx:64 | Flipping the completion flag of a free space never changes the reported labels. |
| BingoBoardComponent.CompletedCountIsCardinality | components/BingoBoard.tsx:131 | The completed count is the number of completed squares. |
| BingoBoardComponent.ProgressBounds | components/BingoBoard.tsx:131-133 | Progress is never negative. It is 0 exactly when nothing is completed or there is at most one square. It is at most 100 while some square is not completed. |
| BingoBoardComponent.SeedLineBlocked | prisma/seed.ts:52-60 | Every line of the demo board has an open square. |
| BingoBoardComponent.SeedBoardHasNoBingo | prisma/seed.ts:43-67 | The demo board reports no bingo. |
| BingoBoardComponent.SeedTopRowAndAntiDiagonal | prisma/seed.ts:52-60 | Ticking squares 0 and 2 of the demo board reports exactly `row-0` and `diagonal-2`. |
| BingoBoardComponent.BingoBoard.CheckForBingos | components/BingoBoard.tsx:57-105 | The recorded labels become the current labels. Confetti, and the chest when there are rewards, show exactly when something new was won. |
| BingoBoardComponent.BingoBoard.ToggleSquare | components/BingoBoard.tsx:42-55 | The squares become the toggled squares, re-checked as above. |
| BingoBoardComponent.BingoBoard.CloseTreasureChest | components/BingoBoard.tsx:243-250 | The claimed reward is passed on unchanged and the chest is hidden. |
| BingoBoardComponent.SecondCheckCelebratesNothing | components/BingoBoard.tsx:93-104 | Re-checking an unchanged board right after a check celebrates nothing. |
| BingoBoardComponent.NewLineCelebrated | components/BingoBoard.tsx:93-104 | A line won now and not recorded before always triggers the celebration. |
| BingoBoardComponent.Toggled | components/BingoBoard.tsx:42-55 | The board keeps its length; `ToggledChangesOnlyThatSquare` and `ToggleTwiceRestores` state what changes. |
| BingoBoardComponent.CompletedCount | components/BingoBoard.tsx:131 | The count is at most the number of squares; `CompletedCountIsCardinality` ties it to the set of completed squares. |
| BingoBoardComponent.BingoBoard.constructor | components/BingoBoard.tsx:37-40 | The component starts with the board's squares, no recorded bingos, and neither confetti nor chest shown. |
| BingoBoardComponent.BingoBoard.HideConfetti | components/BingoBoard.tsx:96 | The 3-second timer hides the confetti and changes nothing else. |
| TreasureChest.RewardIcon | components/TreasureChest.tsx:51-55 | Crown from 10 points, star from 5 to 9, gift below 5. |
| TreasureChest.RewardIconMonotone | components/TreasureChest.tsx:51-55 | More points never give a lesser icon. |
| TreasureChest.Chest.HandleOpen | components/TreasureChest.tsx:32-42 | Without rewards nothing happens; otherwise the chest starts opening. |
| TreasureChest.Chest.RevealReward | components/TreasureChest.tsx:38-41 | The drawn reward is the rewards entry at the drawn index. |
| TreasureChest.Chest.HandleClaimReward | components/TreasureChest.tsx:44-49 | The drawn reward, and only one that exists, is handed on; the chest asks to close exactly when a reward was drawn. |
| TreasureChest.Chest.constructor | components/TreasureChest.tsx:22-23 | The chest starts closed with nothing drawn. |
| CompleteRoute.Status | app/api/bingo/complete/route.ts:6-57 | The status is 200 exactly for a completed square; the refusals are 400, 500 and 404. |
| CompleteRoute.MessageMatchesStatus | app/api/bingo/complete/route.ts:10-55 | Each status comes with its own message, so the message and the status determine each other. |
| CompleteRoute.KeyInjective | app/api/bingo/complete/route.ts:67-133 | (type, position) identifies a line: diagonal positions 0 and 1 keep the two diagonals apart. |
| CompleteRoute.FindFirst | app/api/bingo/complete/route.ts:67-74 | `findFirst` finds a record exactly when one matches, and returns the first match. |
| CompleteRoute.RecordedAppend | app/api/bingo/complete/route.ts:75-84 | A line is recorded in a table with rows appended exactly when it is recorded in either part. |
| CompleteRoute.FreshLinesMembers | app/api/bingo/complete/route.ts:63-160 | A line gets a new record exactly when it is won and not already recorded for this board. |
| CompleteRoute.FreshLinesKeepRankOrder | app/api/bingo/complete/route.ts:63-160 | New records are created in checking order. |
| CompleteRoute.NothingRecordedAllFresh | app/api/bingo/complete/route.ts:63-160 | With no records, every won line gets one. |
| CompleteRoute.AllRecordedNoneFresh | app/api/bingo/complete/route.ts:63-160 | When every won line is recorded, nothing is created. |
| CompleteRoute.RecordsRecord | app/api/bingo/complete/route.ts:76-83 | The created rows record exactly the given lines for this board. |
| CompleteRoute.AddingFreshKeepsKeysUnique | app/api/bingo/complete/route.ts:63-160 | Appending records for unrecorded lines keeps (board, type, position) unique. |
| CompleteRoute.CreatedLines | app/api/bingo/complete/route.ts:63-160 | A line is created exactly when it is valid, won and not yet recorded. |
| CompleteRoute.EveryWonLineRecorded | app/api/bingo/complete/route.ts:63-160 | After a check every won line of the board is recorded. |
| CompleteRoute.SecondCheckCreatesNothing | app/api/bingo/complete/route.ts:63-160 | Checking the same board again right after creates no record. |
| CompleteRoute.CheckKeepsKeysUnique | app/api/bingo/complete/route.ts:63-160 | A check never creates a duplicate record. |
| CompleteRoute.OtherBoardsUntouched | app/api/bingo/complete/route.ts:63-160 | A check adds no record for any other board. |
| CompleteRoute.FirstCheckRecordsWonLines | app/api/bingo/complete/route.ts:63-160 | On a board with no records, the check creates one per won line, in order. |
| CompleteRoute.RecordedSoFar | app/api/bingo/complete/route.ts:63-160 | After the k-th line's check, that line is recorded when won. |
| CompleteRoute.CreatedStep | app/api/bingo/complete/route.ts:63-160 | One line check appends a record exactly when the line is won and not recorded. |
| CompleteRoute.Records | app/api/bingo/complete/route.ts:76-83 | One row per line; `RecordsRecord` proves that row k records line k under the k-th consecutive id. |
| CompleteRoute.Store.Create | app/api/bingo/complete/route.ts:76-83 | Creating appends one bingo row with a new id, the line's type and position, and changes nothing else. |
| CompleteRoute.Store.CheckLine | app/api/bingo/complete/route.ts:64-85 | One line check extends the created records exactly as `Created` says. |
| CompleteRoute.Store.CheckRows | app/api/bingo/complete/route.ts:63-86 | The row loop creates the records for the won, unrecorded rows. |
| CompleteRoute.Store.CheckColumns | app/api/bingo/complete/route.ts:89-111 | The column loop extends that with the columns. |
| CompleteRoute.Store.CheckForBingos | app/api/bingo/complete/route.ts:59-163 | The created records are exactly the won lines not yet recorded for the board, in checking order, with consecutive new ids. They are appended and nothing else changes. |
| CompleteRoute.Store.BoardFlags | app/api/bingo/complete/route.ts:27-33 | The board's squares are read in position order with their satisfied flags. |
| CompleteRoute.Store.Post | app/api/bingo/complete/route.ts:6-57 | A missing field gives 400 and no change (the bingo counter included). An unknown square gives 500 and no change. Otherwise the square is updated first; an unknown board then gives 404 and no new bingo; else the bingos are checked, and 200 returns the updated square and the new bingos, the counter advancing by their number. |
| SetupWizard.WithList | components/SetupWizard.tsx:155-176 | Replacing one list leaves the other lists and the size unchanged. |
| SetupWizard.Added | components/SetupWizard.tsx:155-162 | A blank value changes nothing; otherwise exactly the trimmed value is appended. |
| SetupWizard.Removed | components/SetupWizard.tsx:164-169 | The item at the index is cut out; an index outside the list changes nothing. |
| SetupWizard.Duplicated | components/SetupWizard.tsx:171-176 | A copy of the item at the index is appended. |
| SetupWizard.RemovedMultiset | components/SetupWizard.tsx:164-169 | Removing takes out exactly one occurrence of that item. |
| SetupWizard.DuplicatedMultiset | components/SetupWizard.tsx:171-176 | Duplicating adds exactly one occurrence of that item. |
| SetupWizard.RemoveDuplicateRestores | components/SetupWizard.tsx:164-176 | Removing the copy just appended restores the list. |
| SetupWizard.FreeSpaceIndex | components/SetupWizard.tsx:123-126 | Odd sizes put the free space in the centre; even sizes at the drawn index. |
| SetupWizard.ItemContent | components/SetupWizard.tsx:137-142 | The items are cycled, and an empty item falls back to `Task i+1`. |
| SetupWizard.SquareAt | components/SetupWizard.tsx:128-150 | Square i has id i, is not completed, and is the free space exactly at the free index. |
| SetupWizard.GenerateBingoSquares | components/SetupWizard.tsx:120-153 | It produces n² squares, square i being `SquareAt(i)`, with exactly one free space. |
| SetupWizard.EnoughItemsLaidOutInOrder | components/SetupWizard.tsx:128-150 | With enough items, item k lands on square k, or k+1 past the free space. |
| SetupWizard.TypeFollowsIndexNotItem | components/SetupWizard.tsx:143-146 | A square's type uses the raw index while its content uses the item index: on a 3×3 board with five tolerations, square 5 shows toleration `t4` typed as a task. |
| SetupWizard.Wizard.constructor | components/SetupWizard.tsx:24-31 | The wizard starts on step 0 with a 3×3 board, no tolerations, the carried-over tasks pre-filled, no rewards and no orc message. |
| SetupWizard.Wizard.SetOrcMessage | components/SetupWizard.tsx:374 | The orc's `onMessageChange` is `setOrcMessage`: the message it reports becomes the wizard's orc message, and the step and the data are unchanged. |
| SetupWizard.Wizard.HandleNext | components/SetupWizard.tsx:48-100 | At step 2 with too few items, or at step 3 without rewards, it returns that error and nothing moves. Otherwise it advances one step (up to the last) and clears the orc message, so the bubble (`getWizardMessage`) shows the new step's default text. |
| SetupWizard.Wizard.HandlePrevious | components/SetupWizard.tsx:73-100 | It goes back one step and clears the orc message, so the bubble shows that step's default text; at step 0 it does nothing. |
| SetupWizard.Wizard.SelectSize | components/SetupWizard.tsx:193-198 | Only the board size changes. |
| SetupWizard.Wizard.AddItem | components/SetupWizard.tsx:155-162 | The list of that kind becomes `Added`, and the invariant is kept. |
| SetupWizard.Wizard.RemoveItem | components/SetupWizard.tsx:164-169 | The list of that kind becomes `Removed`, and the invariant is kept. |
| SetupWizard.Wizard.DuplicateItem | components/SetupWizard.tsx:171-176 | The task list becomes `Duplicated`, and the invariant is kept. |
| SetupWizard.Wizard.HandleComplete | components/SetupWizard.tsx:102-118 | The board has a time-based id, the chosen size, the month and the generated squares; it is built only with enough items and some reward. |
| Dashboard.PreviousMonthYear | app/dashboard/page.tsx:62-66 | It gives the valid month exactly one before (January goes to December of the previous year). |
| Dashboard.NextMonthYear | app/dashboard/page.tsx:62-66 | It gives the valid month exactly one after. |
| Dashboard.PreviousThenNext | app/dashboard/page.tsx:62-66 | Going back a month and forward again returns the same month. |
| Dashboard.PreviousMonthUnique | app/dashboard/page.tsx:62-66 | The previous month is the only valid month one before. |
| Dashboard.MonthNumberInjective | app/dashboard/page.tsx:56-66 | Valid months with the same month number are equal. |
| Dashboard.FindBoard | app/dashboard/page.tsx:75-78 | `find` returns the first board of that month and year, and nothing exactly when there is none. |
| Dashboard.IncompleteTasks | app/dashboard/page.tsx:98-100 | The contents of the squares that are neither completed nor the free space; never more of them than squares. |
| Dashboard.IncompleteTasksAppend | app/dashboard/page.tsx:98-100 | The carry-over of two stretches of board is the carry-over of the first followed by that of the second: board order is kept and a repeated content is carried once per square. |
| Dashboard.IncompleteTasksOfOne | app/dashboard/page.tsx:98-100 | A single square is carried over, once, exactly when it is unsatisfied. |
| Dashboard.IncompleteTasksMembers | app/dashboard/page.tsx:98-100 | A content is carried over exactly when an unsatisfied square holds it. |
| Dashboard.CarriedTaskSource | app/dashboard/page.tsx:98-100 | Every carried-over content is held by some square that is neither completed nor the free space. |
| Dashboard.UnsatisfiedSquareIsCarried | app/dashboard/page.tsx:98-100 | The content of every square that is neither completed nor the free space is carried over. |
| Dashboard.NoCarryOverIffAllSatisfied | app/dashboard/page.tsx:98-104 | Nothing is carried over exactly when every square is satisfied. |
| Dashboard.NoCarryOverIffEveryLineWon | app/dashboard/page.tsx:98-104 | On an n×n board nothing is carried over exactly when every line is won. |
| Dashboard.UnsatisfiedSquareBlocksItsRow | app/dashboard/page.tsx:98-104 | An unsatisfied square keeps its row from being won. |
| Dashboard.StoredBoardIsFound | app/dashboard/page.tsx:75-78 | After a board is stored, its month finds a board: the earlier one if there was one, else the new one. |
| Dashboard.Dashboard.constructor | app/dashboard/page.tsx:41-46 | The dashboard starts with no boards, no current board, no carry-over, and neither prompt nor wizard shown. |
| Dashboard.Dashboard.CheckForPreviousMonthTasks | app/dashboard/page.tsx:88-107 | When last month's board has unfinished squares, their contents are kept and the prompt is shown; otherwise nothing changes. |
| Dashboard.Dashboard.LoadCurrentMonthBoard | app/dashboard/page.tsx:69-85 | This month's board is shown if stored; otherwise last month is checked as above. |
| Dashboard.Dashboard.HandleTaskCarryover | app/dashboard/page.tsx:110-119 | Either answer hides the prompt and opens the wizard. |
| Dashboard.Dashboard.OnComplete | app/dashboard/page.tsx:348-356 | The new board is appended to storage and to the list, shown, and the wizard closes. |
| Dashboard.Dashboard.OpenWizard | app/dashboard/page.tsx:255 | The "Create New Board" button (and "Create This Month's Board!" at line 274) opens the wizard; nothing else changes. |
| Dashboard.Dashboard.OnClose | app/dashboard/page.tsx:347 | The wizard closes. |
| RewardsManager.RewardRarity | components/RewardsManager.tsx:54-59 | Legendary from 10, epic from 5 to 9, rare from 3 to 4, common below 3. |
| RewardsManager.IconFor | components/RewardsManager.tsx:47-52 | Crown from 10, trophy from 5 to 9, star from 3 to 4, gift below 3. |
| RewardsManager.IconFollowsRarity | components/RewardsManager.tsx:47-59 | The icon is the rarity's icon: both use the same cut-points. |
| RewardsManager.RarityMonotone | components/RewardsManager.tsx:54-59 | More points never give a lower rarity. |
| RewardsManager.MorePointsKeepRedeemable | components/RewardsManager.tsx:155 | `canRedeem` needs enough points and an unredeemed reward, so earning more points never takes redeemability away. |
| RewardsManager.Shortfall | components/RewardsManager.tsx:209-211 | The "need n more points" figure is positive and closes the gap exactly. |
| RewardsManager.ShortfallIsExact | components/RewardsManager.tsx:155-211 | Earning the shortfall makes the reward redeemable; less does not. |
| RewardsManager.RedeemedStaysRedeemed | components/RewardsManager.tsx:155 | A redeemed reward is never redeemable. |
| RewardsManager.RewardForm.HandleAddReward | components/RewardsManager.tsx:33-40 | A blank name adds nothing. Otherwise the draft is handed on as typed, and the form is reset and hidden. |
| RewardsManager.RewardForm.constructor | components/RewardsManager.tsx:25-31 | The form starts hidden, with an empty draft worth 1 point. |
| RewardsManager.RewardForm.OpenForm | components/RewardsManager.tsx:77 | The form is shown and the draft kept. |
| RewardsManager.RewardForm.CancelForm | components/RewardsManager.tsx:141 | The form is hidden and the draft kept as typed. |
| RewardsManager.RewardForm.SetName | components/RewardsManager.tsx:101 | Only the draft's name changes. |
| RewardsManager.RewardForm.SetDescription | components/RewardsManager.tsx:113 | Only the draft's description changes. |
| RewardsManager.RewardForm.SetPoints | components/RewardsManager.tsx:124 | Only the draft's points change. |
| Settings.WithoutUser | app/settings/page.tsx:46-49 | No remaining user has the removed id. |
| Settings.WithoutUserMembers | app/settings/page.tsx:46-49 | Exactly the users with another id remain. |
| Settings.WithoutAbsentUser | app/settings/page.tsx:46-49 | Removing an id nobody has changes nothing. |
| Settings.WithoutUserAppend | app/settings/page.tsx:46-49 | The filter keeps order and distributes over concatenation. |
| Settings.RemoveAddedUser | app/settings/page.tsx:31-49 | Removing a just-added user's id gives what removing it before the add gives. |
| Settings.SettingsPage.HandleAddUser | app/settings/page.tsx:31-44 | With a name and an email, a user with the time-based id is appended, and the form is cleared and hidden; otherwise nothing changes. |
| Settings.SettingsPage.HandleRemoveUser | app/settings/page.tsx:46-49 | The users become `WithoutUser`. |
| Settings.SettingsPage.HandleEmailSettingsChange | app/settings/page.tsx:51-54 | Exactly that setting takes the new value. |
| Settings.SettingsPage.constructor | app/settings/page.tsx:11-22 | The page starts with the two sample users, an empty hidden form and every email setting as given. |
| Settings.SettingsPage.OpenAddUser | app/settings/page.tsx:113 | The "Add User" button shows the form; the users, the draft and the email settings are unchanged. |
| Settings.SettingsPage.CancelAddUser | app/settings/page.tsx:200 | Cancel hides the form and keeps the draft as typed. |
| Settings.SettingsPage.SetNewUser | app/settings/page.tsx:174-186 | Only the form's name and email change. |
| KnightGuide.KnightQuote | components/KnightGuide.tsx:368-398 | Inspirational quotes up to click 20; a cynical one every third click up to 50 and every second up to 80; cynical only from 81; every index lies within its list. |
| KnightGuide.CynicalClicks | components/KnightGuide.tsx:368-398 | A click is cynical exactly on every third click from 21 to 50, the even clicks from 51 to 80, and every click from 81 on. |
| KnightGuide.FrameAfter | components/KnightGuide.tsx:312-357 | The frame stays below the frame count as the animation steps. |
| KnightGuide.FrameAfterIsCapped | components/KnightGuide.tsx:312-357 | The hurt and death animations stop on their last frame. |
| KnightGuide.Knight.HandleKnightClick | components/KnightGuide.tsx:284-414 | A dead knight ignores clicks. Otherwise the count goes up and the knight celebrates; the 100th click kills it and starts the hurt animation; earlier clicks give the phase's quote. |
| KnightGuide.Knight.SettleAfterClick | components/KnightGuide.tsx:405-412 | Unless the click's render was hurt or dying, the knight goes back to idle. |
| KnightGuide.Knight.KillKnight | components/KnightGuide.tsx:120-192 | A live knight dies at once with the count at 100 and the hurt animation; a dead one is left alone. |
| KnightGuide.Knight.StartDeath | components/KnightGuide.tsx:324-346 | The timer after the hurt animation starts the death animation at frame 0 and touches nothing else. |
| KnightGuide.Knight.HurtTick | components/KnightGuide.tsx:312-320 | One hurt step advances the frame; on the last frame it stays there and the interval stops. |
| KnightGuide.Knight.DeathTick | components/KnightGuide.tsx:348-357 | One death step advances the frame; on the last frame the interval stops and the knight is no longer animating. |
| KnightGuide.Knight.ResetKnight | components/KnightGuide.tsx:81-92 | Every field returns to its initial value and the reset message is given. |
| KnightGuide.Knight.constructor | components/KnightGuide.tsx:15-21 | The knight starts alive and idle, with no clicks and both frames at 0. |
| OrcWizard.OrcQuote | components/OrcWizard.tsx:361-394 | Tips up to 12 clicks; a mild insult every third click up to 30 and every second up to 60; extreme insults after that; every index lies within its list. |
| OrcWizard.InsultClicks | components/OrcWizard.tsx:361-394 | Extreme insults come exactly from click 61 on. Mild insults come exactly on the multiples of 3 from 13 to 30 and the even clicks from 31 to 60. |
| OrcWizard.Orc.BeginLeaving | components/OrcWizard.tsx:277-293 | The drawn final message is stored, the bubble text is cleared and the bubble is hidden; nothing else changes. |
| OrcWizard.Orc.HandleOrcClick | components/OrcWizard.tsx:267-410 | An orc that left ignores clicks. Otherwise the count goes up and it casts; at 100 the final message is drawn and the bubble cleared and hidden; earlier clicks give the phase's quote. |
| OrcWizard.Orc.SettleAfterClick | components/OrcWizard.tsx:402-409 | The orc always goes back to idle, even mid-walk, because the timer's `hasLeft` is the one from the click. |
| OrcWizard.Orc.MakeOrcLeave | components/OrcWizard.tsx:97-181 | Nothing happens once gone or while walking; otherwise the leave sequence starts without touching the count. |
| OrcWizard.Orc.StartWalking | components/OrcWizard.tsx:132-137 | The walk starts at frame 0, animating. |
| OrcWizard.Orc.WalkTick | components/OrcWizard.tsx:146-177 | One step of the walk interval (the click path at lines 325-358 has the same one) advances the counter. The interval runs while the counter is below 16, whether or not the orc is still walking away, since only reaching 16 clears it. At 16 the walk ends and the orc has finished walking; before that, nothing else changes. |
| OrcWizard.Orc.ResetMidWalkStillLeaves | components/OrcWizard.tsx:82-95 | `resetOrc` does not clear a running walk interval. After a reset mid-walk, the interval climbs from 0 to 16 again, the walk finishes and the orc leaves with its click count at 0. |
| OrcWizard.Orc.FinishLeaving | components/OrcWizard.tsx:173-176 | The orc is gone. |
| OrcWizard.Orc.ResetOrc | components/OrcWizard.tsx:82-95 | Every field returns to its initial value and the reset message is given. |
| OrcWizard.Orc.constructor | components/OrcWizard.tsx:16-26 | The orc starts idle, present and not walking, with no clicks and its bubble shown. |
| SpriteAnimation.NextFrame | components/SpriteAnimation.tsx:34-46 | One step from any frame, including one past the end of a sheet that shrank. Before the last frame it advances. At or past it, a looping animation goes to frame 0; a one-shot animation keeps the frame, stops and reports completion, which happens exactly when playing stops. A frame on the sheet stays on it. |
| SpriteAnimation.OffSheetOneShotFreezes | components/SpriteAnimation.tsx:34-43 | A one-shot step from a frame past the sheet's end stops on that frame, reports completion, and leaves an empty window drawn. |
| SpriteAnimation.Run | components/SpriteAnimation.tsx:30-50 | The frame after any number of steps is a frame of the sheet. |
| SpriteAnimation.LoopingCycles | components/SpriteAnimation.tsx:30-50 | A looping animation never stops and shows frame k mod frameCount after k steps. |
| SpriteAnimation.PlayedOnce | components/SpriteAnimation.tsx:30-50 | A one-shot animation climbs a frame per step and holds the last frame; it plays exactly during the first frameCount−1 steps. |
| SpriteAnimation.CompletesOnce | components/SpriteAnimation.tsx:39-42 | A one-shot animation reports completion on exactly one step, the frameCount-th. |
| SpriteAnimation.FrameOnSheetIff | components/SpriteAnimation.tsx:104-105 | The 100-pixel window at offset frame·100 lies on the frameCount·100-pixel sheet exactly when frame < frameCount. |
| SpriteAnimation.RenderedRunStaysOnSheet | components/SpriteAnimation.tsx:30-105 | When the render guard lets a sprite through and its props stay fixed, the window drawn after any number of steps from mount lies on the sheet. |
| SpriteAnimation.WalkToIdleFreezesOffSheet | components/OrcWizard.tsx:512-524 | The orc renders its sprite without a `key`. Switching from walk (8 frames, looping) to idle (6 frames, one-shot) on walk frame 6 or 7 keeps that frame; the next step stops there, past the idle sheet, and reports completion. |
| SpriteAnimation.Sprite.constructor | components/SpriteAnimation.tsx:17-27 | A mounted sprite holds its props, shows frame 0 and plays as `autoplay` says. |
| SpriteAnimation.Sprite.SetProps | components/SpriteAnimation.tsx:17-30 | A re-render with new props replaces the props and keeps the frame and the playing flag, since `useState` ignores its initial value then. |
| SpriteAnimation.Sprite.Tick | components/SpriteAnimation.tsx:30-50 | While paused or frameless nothing changes; otherwise it takes one `NextFrame` step. The props are unchanged, and a frame on the sheet stays on it. |
| SpriteAnimation.Sprite.Play | components/SpriteAnimation.tsx:52 | Playing resumes on the same frame. |
| SpriteAnimation.Sprite.Pause | components/SpriteAnimation.tsx:53 | Playing stops on the same frame. |
| SpriteAnimation.Sprite.Reset | components/SpriteAnimation.tsx:54-57 | Back to frame 0, and playing as at mount. |
| MusicControls.Stepped | components/MusicControls.tsx:19 | The stored volume is a multiple of ten within 5 of the input, with ties going up. |
| MusicControls.SteppedUnique | components/MusicControls.tsx:19 | That multiple of ten is the only one. |
| MusicControls.SliderValuesUnchanged | components/MusicControls.tsx:49-55 | The slider's own values (0 to 100 in steps of 10) are kept unchanged. |
| MusicControls.SteppedIdempotent | components/MusicControls.tsx:19 | Stepping twice is stepping once. |
| MusicControls.Controls.HandleVolumeChange | components/MusicControls.tsx:17-23 | The volume becomes the stepped value, muted exactly when that is 0. |
| MusicControls.Controls.ToggleMute | components/MusicControls.tsx:25-31 | Muted goes to 30 and unmuted; unmuted goes to 0 and muted. |
| MusicControls.Controls.constructor | components/MusicControls.tsx:9-10 | It starts at 70, not muted. |
| Auth.Hash | app/api/auth/register/route.ts:30 | A digest verifies against the password it was made from. |
| Auth.Verify | app/api/auth/login/route.ts:33 | `bcrypt.compare`: a password matches a digest exactly when the digest was made from it. |
| Auth.VerifyOnlyThePassword | app/api/auth/login/route.ts:33 | A digest admits exactly its own password, whatever the salt. |
| Auth.UsersOf | app/api/auth/login/route.ts:18-23 | The included users are exactly the users of that account. |
| Auth.UsersOfNewAccount | app/api/auth/register/route.ts:33-48 | A new account's included users are exactly the one user created with it. |
| Auth.View | app/api/auth/login/route.ts:43 | The reply account carries every column but the password, and exactly its users. |
| Auth.AccountNameNeverEmpty | app/api/auth/register/route.ts:37 | `accountName \|\| null` never stores an empty name, and applying it to what it stored changes nothing. |
| Auth.LoginStatus | app/api/auth/login/route.ts:10-47 | Login answers 200 exactly on success. |
| Auth.LoginMessageMatchesStatus | app/api/auth/login/route.ts:10-47 | Each login status has its own message, so the two determine each other; unknown email and wrong password share both. |
| Auth.Login | app/api/auth/login/route.ts:5-47 | A missing field gives 400. An unknown email and a wrong password both give the single 401 "Invalid credentials". Success returns the password-free view. The store is only read. |
| Auth.RegistrationKeepsInvariant | app/api/auth/register/route.ts:32-47 | Adding a new account row under its email and its first user under the next two ids keeps every row keyed by its email and every id below the counter. |
| Auth.RegisterStatus | app/api/auth/register/route.ts:10-56 | Registration answers 200 exactly when the account is created. |
| Auth.RegisterMessageNamesReply | app/api/auth/register/route.ts:10-56 | The message tells the three replies apart, although the two refusals share the status 400. |
| Auth.AccountStore.Register | app/api/auth/register/route.ts:5-56 | A missing field or a taken email gives 400 and no change. Otherwise exactly one account (with the hash) and one user are added, and the reply has no password. |
| Auth.LoginOfStoredEmail | app/api/auth/login/route.ts:17-47 | For an email on file with both fields present, login answers only by whether the password matches the stored digest. |
| Auth.LoginAfterRegister | app/api/auth/register/route.ts:30-55 | After registering, login with the same password returns the view registration returned; any other password is refused like an unknown email. |
| Auth.RegisterKeepsOtherLogins | app/api/auth/register/route.ts:33-48 | Registering a new email leaves every other email's login result unchanged. |

## Left out

- Rendering, animation, audio and toasts are not modelled. This covers framer-motion, JSX, CSS, sound playback and volume fades, `MusicContext` and `useAudio`, and `setMasterVolume(stepped / 100)`, which passes a float to the audio layer. They have no effect on the state modelled here.
- Timers and intervals (`setTimeout`, `setInterval`) are not modelled as such. Each firing is a method the caller invokes; the model does not capture ordering between timers, or a second interval started by a click during the orc's walk.
- React closures: `SettleAfterClick` takes the state of the click's render as React gives it, which is stale. Other effects of stale state in the components are not modelled.
- `Math.random` and `Date.now` are not modelled: their values are parameters with the range the source guarantees (`getMonth() + 1` is a month from 1 to 12).
- Prisma's cuid record ids, and the database ordering that is not specified, are not modelled. Ids are counters, and a board's squares are assumed to come back in position order.
- Concurrent requests are not modelled; in particular, two simultaneous completions could each create the same bingo.
- Store errors other than a missing square (connection loss, unique-constraint races) are not modelled. The source turns them into 500.
- Request bodies that are not JSON, and JSON bodies whose fields are not strings, are not modelled. A request field is a string or absent. In all three routes `await request.json()` throws on an unparsable body, and the catch answers 500.
- `parseInt` of a non-number in the reward form (NaN) is not modelled. Points are an integer.
- Auth.Hash: bcrypt is modelled as an exact, collision-free hash/verify pair that keeps the password in the digest. bcrypt's 72-byte truncation and its cost are not modelled; no reply exposes the digest.
- CompleteRoute.Store.Post: board sizes are assumed to be at least 1 (a `Valid` invariant), which every board created by the wizard satisfies.
- BingoBoardComponent.BingoBoard.CheckForBingos: requires a board size of at least 1, as every wizard board has; `BingoBoardComponent.BingoBoard.ToggleSquare` and the constructor require the same.
- SetupWizard.Wizard.HandleComplete: requires a month from 1 to 12, which `new Date().getMonth() + 1` always is.
- SetupWizard.Duplicated: requires an index inside the list. The duplicate buttons only exist for listed items; an index past the end would append `undefined`.
- BingoBoardComponent.Progress is real-valued. JavaScript's floating point and its rounding are not modelled.
- The message-change effects of the two mascots are not modelled. The knight's (KnightGuide.tsx:270-282) plays `celebrate` for 2 s whenever its message or `isDead` changes and it is alive. The orc's (OrcWizard.tsx:255-265) plays `cast` for 3 s when it is active and its message changes. So the model does not capture that right after `resetKnight` or `resetOrc` (whose reset message changes the message) the mascot animates instead of standing idle as `KnightGuide.Knight.ResetKnight` and `OrcWizard.Orc.ResetOrc` leave it.
- The unused `deathQuotes` list in the knight component is not modelled.
- The dashboard's debug tools and encouraging messages, the settings tabs and profile fields, and the login and register pages are not modelled. They are forms and display only.
