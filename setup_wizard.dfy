/** The board setup wizard: five steps (size, tolerations, tasks, rewards,
    confirmation) guarded by item-count and reward checks, the list editing
    of the three item lists, and the generation of the new board's squares. */
module SetupWizard {
  import opened Text
  import opened BingoTypes

  datatype ListKind = Tolerations | Tasks | Rewards

  datatype WizardData = WizardData(boardSize: nat, tolerations: seq<string>, tasks: seq<string>, rewards: seq<string>)

  /** `steps.length`. */
  const StepCount: nat := 5

  /** Squares to fill besides the free space. */
  function NeededItems(d: WizardData): int {
    d.boardSize * d.boardSize - 1
  }

  function TotalItems(d: WizardData): nat {
    |d.tolerations| + |d.tasks|
  }

  /** `[...tolerations, ...tasks]`. */
  function AllItems(d: WizardData): (items: seq<string>)
    ensures |items| == TotalItems(d)
  {
    d.tolerations + d.tasks
  }

  function ListOf(d: WizardData, kind: ListKind): seq<string> {
    match kind
    case Tolerations => d.tolerations
    case Tasks => d.tasks
    case Rewards => d.rewards
  }

  /** `{ ...prev, [type]: items }`: only the named list is replaced. */
  function WithList(d: WizardData, kind: ListKind, items: seq<string>): (r: WizardData)
    ensures ListOf(r, kind) == items && r.boardSize == d.boardSize
    ensures forall k :: k != kind ==> ListOf(r, k) == ListOf(d, k)
  {
    match kind
    case Tolerations => d.(tolerations := items)
    case Tasks => d.(tasks := items)
    case Rewards => d.(rewards := items)
  }

  // -----------------------------------------------------------------------
  // List editing

  /** `addItem`: blank input is ignored; anything else is appended trimmed. */
  function Added(items: seq<string>, value: string): (r: seq<string>)
    ensures IsBlank(value) ==> r == items
    ensures !IsBlank(value) ==> |r| == |items| + 1 && r[..|items|] == items
    ensures !IsBlank(value) ==> r[|items|] != [] && r[|items|] == Trim(value)
    ensures !IsBlank(value) ==> !IsWhitespace(r[|items|][0]) && !IsWhitespace(r[|items|][|r[|items|]| - 1])
  {
    TrimEmptyIffBlank(value);
    if Trim(value) != [] then items + [Trim(value)] else items
  }

  /** `filter((_, i) => i !== index)`, written as the filter it is. */
  function Removed(items: seq<string>, index: int): (r: seq<string>)
    ensures 0 <= index < |items| ==> r == items[..index] + items[index + 1..]
    ensures !(0 <= index < |items|) ==> r == items
    decreases |items|
  {
    if items == [] then []
    else
      var init := items[..|items| - 1];
      var r := Removed(init, index) + (if |items| - 1 != index then [items[|items| - 1]] else []);
      assert 0 <= index < |init| ==> init[..index] == items[..index]
                                      && init[index + 1..] + [items[|items| - 1]] == items[index + 1..];
      assert index == |init| ==> items[..index] == init && items[index + 1..] == [];
      assert !(0 <= index < |items|) ==> init + [items[|items| - 1]] == items;
      r
  }

  /** `duplicateItem`: a copy of the element at index goes to the end. */
  function Duplicated(items: seq<string>, index: nat): (r: seq<string>)
    requires index < |items|
    ensures |r| == |items| + 1 && r[..|items|] == items && r[|items|] == items[index]
  {
    items + [items[index]]
  }

  /** Removing takes out one occurrence of the element and nothing else. */
  lemma RemovedMultiset(items: seq<string>, index: nat)
    requires index < |items|
    ensures multiset(Removed(items, index)) + multiset{items[index]} == multiset(items)
  {
    var before, after := items[..index], items[index + 1..];
    assert items == before + [items[index]] + after;
    MultisetAround(before, items[index], after);
  }

  lemma MultisetAround<T>(before: seq<T>, x: T, after: seq<T>)
    ensures multiset(before + [x] + after) == multiset(before + after) + multiset{x}
  {
    assert before + [x] + after == (before + [x]) + after;
  }

  /** Duplicating adds exactly one more copy of the element. */
  lemma DuplicatedMultiset(items: seq<string>, index: nat)
    requires index < |items|
    ensures multiset(Duplicated(items, index)) == multiset(items) + multiset{items[index]}
  {
  }

  /** Duplicating and then removing the copy restores the list. */
  lemma RemoveDuplicateRestores(items: seq<string>, index: nat)
    requires index < |items|
    ensures Removed(Duplicated(items, index), |items|) == items
  {
  }

  // -----------------------------------------------------------------------
  // Square generation

  /** `freeSpaceIndex`: the middle square for odd sizes, the drawn index
      (`floor(random() * totalSquares)`) for even ones. */
  function FreeSpaceIndex(size: nat, draw: nat): (i: nat)
    requires size >= 1 && (size % 2 == 0 ==> draw < size * size)
    ensures i < size * size
    ensures size % 2 == 1 ==> i == size * size / 2
    ensures size % 2 == 0 ==> i == draw
  {
    if size % 2 == 1 then size * size / 2 else draw
  }

  /** `allItems[itemIndex % allItems.length] || \`Task ${i + 1}\``: an empty
      item list or an empty item falls back to the numbered placeholder. */
  function ItemContent(allItems: seq<string>, itemIndex: nat, i: nat): (content: string)
    ensures |allItems| > 0 && allItems[itemIndex % |allItems|] != [] ==> content == allItems[itemIndex % |allItems|]
    ensures (|allItems| == 0 || allItems[itemIndex % |allItems|] == []) ==> content == "Task " + NatToString(i + 1)
    ensures content != []
  {
    if |allItems| > 0 && allItems[itemIndex % |allItems|] != [] then allItems[itemIndex % |allItems|]
    else "Task " + NatToString(i + 1)
  }

  /** Square i of the generated board with the free space at `free`. */
  function SquareAt(d: WizardData, free: nat, i: nat): (s: Square)
    ensures s.id == i && !s.isCompleted
    ensures s.kind == FreeSpace <==> i == free
  {
    if i == free then Square(i, "FREE SPACE", FreeSpace, false)
    else
      var itemIndex := if i > free then i - 1 else i;
      Square(i, ItemContent(AllItems(d), itemIndex, i), if i < |d.tolerations| then Toleration else Task, false)
  }

  /** `generateBingoSquares`. */
  method GenerateBingoSquares(d: WizardData, draw: nat) returns (squares: seq<Square>)
    requires d.boardSize >= 1 && (d.boardSize % 2 == 0 ==> draw < d.boardSize * d.boardSize)
    ensures |squares| == d.boardSize * d.boardSize
    ensures forall i :: 0 <= i < |squares| ==> squares[i] == SquareAt(d, FreeSpaceIndex(d.boardSize, draw), i)
    ensures squares[FreeSpaceIndex(d.boardSize, draw)].kind == FreeSpace
    ensures forall i :: 0 <= i < |squares| && squares[i].kind == FreeSpace ==> i == FreeSpaceIndex(d.boardSize, draw)
    ensures forall i :: 0 <= i < |squares| ==> squares[i].id == i && !squares[i].isCompleted
  {
    var totalSquares := d.boardSize * d.boardSize;
    var freeSpaceIndex := FreeSpaceIndex(d.boardSize, draw);
    var allItems := d.tolerations + d.tasks;
    squares := [];
    for i := 0 to totalSquares
      invariant |squares| == i
      invariant forall j :: 0 <= j < i ==> squares[j] == SquareAt(d, freeSpaceIndex, j)
    {
      if i == freeSpaceIndex {
        squares := squares + [Square(i, "FREE SPACE", FreeSpace, false)];
      } else {
        var itemIndex := if i > freeSpaceIndex then i - 1 else i;
        var content := ItemContent(allItems, itemIndex, i);
        squares := squares + [Square(i, content, if i < |d.tolerations| then Toleration else Task, false)];
      }
    }
  }

  /** With at least size²−1 items (what step 2 insists on), the squares
      other than the free space show the first size²−1 items in order, each
      once: item k sits at k before the free space and at k+1 after it. */
  lemma EnoughItemsLaidOutInOrder(d: WizardData, free: nat, k: nat)
    requires TotalItems(d) >= NeededItems(d) && free < d.boardSize * d.boardSize
    requires k < d.boardSize * d.boardSize - 1 && AllItems(d)[k] != []
    ensures SquareAt(d, free, if k < free then k else k + 1).content == AllItems(d)[k]
  {
    assert k % |AllItems(d)| == k;
  }

  /** The square type follows the raw index, not the item: on a 3×3 board
      with five tolerations, square 5 shows the fifth toleration (item 4,
      shifted past the free space) yet is typed TASK. */
  lemma TypeFollowsIndexNotItem()
    ensures var d := WizardData(3, ["t0", "t1", "t2", "t3", "t4"], ["k0", "k1", "k2"], []);
            SquareAt(d, FreeSpaceIndex(3, 0), 5).content == "t4"
            && SquareAt(d, FreeSpaceIndex(3, 0), 5).kind == Task
  {
    var d := WizardData(3, ["t0", "t1", "t2", "t3", "t4"], ["k0", "k1", "k2"], []);
    assert FreeSpaceIndex(3, 0) == 4;
    assert AllItems(d)[4] == "t4";
  }

  // -----------------------------------------------------------------------
  // The step machine

  /** The step on which a list's editor is shown. */
  function EditStep(kind: ListKind): nat {
    match kind
    case Tolerations => 1
    case Tasks => 2
    case Rewards => 3
  }

  /** The default text of the wizard's speech bubble on each step. */
  function StepMessage(step: nat): string {
    if step == 0 then "Welcome, brave adventurer! I'll help you create your productivity quest. First, choose the difficulty of your challenge!"
    else if step == 1 then "Now, tell me about the things that have been bothering you - those pesky tasks that keep getting put off!"
    else if step == 2 then "Excellent! Now let's add some regular tasks to your quest. What else needs to be done?"
    else if step == 3 then "Perfect! Now for the most important part - what rewards will motivate you to complete your quest?"
    else if step == 4 then "Magnificent! Your quest is ready. Time to begin your adventure!"
    else "Let's create your productivity quest together!"
  }

  /** The error toast of step 2. */
  function NotEnoughItemsMessage(needed: nat, total: nat): string {
    "You need at least " + NatToString(needed) + " total items (tolerations + tasks). You have "
    + NatToString(total) + ". Please add more!"
  }

  const NoRewardsMessage: string := "Please add at least one reward to motivate yourself!"

  class Wizard {
    var currentStep: nat
    var data: WizardData
    var orcMessage: string

    /** The step stays within the five steps; the size is one of the three
        offered; past the tasks step the lists fill the board, and on the
        last step there is a reward. */
    ghost predicate Valid()
      reads this
    {
      && currentStep < StepCount
      && data.boardSize in {3, 4, 5}
      && (currentStep >= 3 ==> TotalItems(data) >= NeededItems(data))
      && (currentStep == 4 ==> |data.rewards| > 0)
    }

    /** A new wizard starts on step 0 with a 3×3 board and the carried-over
        tasks pre-filled. */
    constructor (previousTasks: seq<string>)
      ensures Valid()
      ensures currentStep == 0 && data == WizardData(3, [], previousTasks, []) && orcMessage == ""
    {
      currentStep := 0;
      data := WizardData(3, [], previousTasks, []);
      orcMessage := "";
    }

    /** `getWizardMessage`: the mascot's message when it has one, else the
        step's default. */
    function WizardMessage(): string
      reads this
    {
      if orcMessage != [] then orcMessage else StepMessage(currentStep)
    }

    /** `handleNext`: refused with an error toast on step 2 when the lists do
        not fill the board and on step 3 without rewards; otherwise one step
        forward, unless already on the last. */
    method HandleNext() returns (error: Option<string>)
      requires Valid()
      modifies this
      ensures Valid() && data == old(data)
      ensures old(currentStep) == 2 && TotalItems(data) < NeededItems(data) ==>
                error == Some(NotEnoughItemsMessage(NeededItems(data) as nat, TotalItems(data)))
      ensures old(currentStep) == 3 && |data.rewards| == 0 ==> error == Some(NoRewardsMessage)
      ensures error.Some? ==> currentStep == old(currentStep) && orcMessage == old(orcMessage)
      ensures error.None? && old(currentStep) < StepCount - 1 ==> currentStep == old(currentStep) + 1 && orcMessage == ""
      ensures error.None? && old(currentStep) < StepCount - 1 ==> WizardMessage() == StepMessage(currentStep)
      ensures error.None? && old(currentStep) == StepCount - 1 ==> currentStep == old(currentStep) && orcMessage == old(orcMessage)
      ensures error.None? <==> !(old(currentStep) == 2 && TotalItems(data) < NeededItems(data))
                               && !(old(currentStep) == 3 && |data.rewards| == 0)
    {
      if currentStep == 2 {
        var neededItems := data.boardSize * data.boardSize - 1;
        var totalItems := |data.tolerations| + |data.tasks|;
        if totalItems < neededItems {
          return Some(NotEnoughItemsMessage(neededItems, totalItems));
        }
      }
      if currentStep == 3 {
        if |data.rewards| == 0 {
          return Some(NoRewardsMessage);
        }
      }
      if currentStep < StepCount - 1 {
        currentStep := currentStep + 1;
        orcMessage := "";
      }
      return None;
    }

    /** `handlePrevious`: one step back, unless on the first. */
    method HandlePrevious()
      requires Valid()
      modifies this
      ensures Valid() && data == old(data)
      ensures old(currentStep) > 0 ==> currentStep == old(currentStep) - 1 && orcMessage == ""
      ensures old(currentStep) > 0 ==> WizardMessage() == StepMessage(currentStep)
      ensures old(currentStep) == 0 ==> currentStep == 0 && orcMessage == old(orcMessage)
    {
      if currentStep > 0 {
        currentStep := currentStep - 1;
        orcMessage := "";
      }
    }

    /** A size button of step 0. */
    method SelectSize(size: nat)
      requires Valid() && currentStep == 0 && size in {3, 4, 5}
      modifies this
      ensures Valid()
      ensures data == old(data).(boardSize := size)
      ensures currentStep == old(currentStep) && orcMessage == old(orcMessage)
    {
      data := data.(boardSize := size);
    }

    /** The mascot reporting a message (`onMessageChange`). */
    method SetOrcMessage(message: string)
      requires Valid()
      modifies this
      ensures Valid() && orcMessage == message
      ensures currentStep == old(currentStep) && data == old(data)
    {
      orcMessage := message;
    }

    /** The add form of a list's editor, shown on that list's step. */
    method AddItem(kind: ListKind, value: string)
      requires Valid() && currentStep == EditStep(kind)
      modifies this
      ensures Valid()
      ensures data == WithList(old(data), kind, Added(ListOf(old(data), kind), value))
      ensures currentStep == old(currentStep) && orcMessage == old(orcMessage)
    {
      data := WithList(data, kind, Added(ListOf(data, kind), value));
    }

    /** The remove button of an item, shown on that list's step. */
    method RemoveItem(kind: ListKind, index: int)
      requires Valid() && currentStep == EditStep(kind)
      modifies this
      ensures Valid()
      ensures data == WithList(old(data), kind, Removed(ListOf(old(data), kind), index))
      ensures currentStep == old(currentStep) && orcMessage == old(orcMessage)
    {
      data := WithList(data, kind, Removed(ListOf(data, kind), index));
    }

    /** The duplicate button, offered on the tasks list only. */
    method DuplicateItem(index: nat)
      requires Valid() && currentStep == EditStep(Tasks) && index < |data.tasks|
      modifies this
      ensures Valid()
      ensures data == WithList(old(data), Tasks, Duplicated(old(data).tasks, index))
      ensures currentStep == old(currentStep) && orcMessage == old(orcMessage)
    {
      data := WithList(data, Tasks, Duplicated(data.tasks, index));
    }

    /** `handleComplete` on the last step: the new board, handed to
        `onComplete`. `now` is `Date.now()`, `month` and `year` the current
        date, `draw` the random free-space index for even sizes. */
    method HandleComplete(now: nat, month: int, year: int, draw: nat) returns (board: Board)
      requires Valid() && currentStep == StepCount - 1
      requires 1 <= month <= 12
      requires data.boardSize % 2 == 0 ==> draw < data.boardSize * data.boardSize
      ensures board.id == NatToString(now) && board.size == data.boardSize
      ensures board.month == month && board.year == year
      ensures |board.squares| == data.boardSize * data.boardSize
      ensures forall i :: 0 <= i < |board.squares| ==>
                board.squares[i] == SquareAt(data, FreeSpaceIndex(data.boardSize, draw), i)
      ensures TotalItems(data) >= NeededItems(data) && |data.rewards| > 0
    {
      var squares := GenerateBingoSquares(data, draw);
      board := Board(NatToString(now), data.boardSize, month, year, squares);
    }
  }
}
