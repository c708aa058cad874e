/** The orc mascot of the setup wizard: each click brings a tip, the tips
    give way to insults as the clicks pile up, and the hundredth click makes
    the orc leave — speech bubble hidden, sixteen walking frames, gone. */
module OrcWizard {
  import opened Text

  const Tips: seq<string> := [
    "Tolerations are those annoying things that keep nagging at you!",
    "Don't fill your whole board with tolerations - mix it up!",
    "Add as many tolerations as you want here, we'll fill the rest later!",
    "Tolerations are perfect for monthly bingo - they add up over time!",
    "Think of tolerations as mental clutter you want to clear out!",
    "You can always add more tasks on the next step!",
    "Tolerations should be actionable - things you can actually do!",
    "Mix tolerations with regular tasks for a balanced quest!",
    "Remember, tolerations are things that drain your mental energy!",
    "A few tolerations each month can make a huge difference!",
    "Don't overthink it - just list what's been bothering you!",
    "Tolerations are like weeds in your mental garden - pull them out!"
  ]

  const MildInsults: seq<string> := [
    "What, can't think of anything? Even a goblin could do better!",
    "Is that all? My grandmother's cat has more problems than you!",
    "Pathetic! A single orc could list more tolerations than this!",
    "Are you even trying? This is weaker than a newborn goblin!",
    "Ha! I've seen more action in a sleeping dragon's cave!",
    "This is embarrassing! Even the village idiot has more tolerations!",
    "What kind of adventurer are you? This is pitiful!",
    "I've seen more substance in a ghost's shadow than this list!",
    "Are you sure you're not a rock? Rocks have more problems!",
    "This is so weak, I'm starting to feel sorry for you!"
  ]

  const ExtremeInsults: seq<string> := [
    "I'M DONE! This is absolutely ridiculous!",
    "I can't take this anymore! You're hopeless!",
    "I'm wasting my time here! Even a stone has more ambition!",
    "This is the worst list I've ever seen! I'm leaving!",
    "I'M OUT! I can't watch this disaster anymore!",
    "You're impossible! I'm going to find someone competent!",
    "This is torture! I'm abandoning this quest!",
    "I'M DONE WITH YOU! This is a complete waste!",
    "I can't believe I'm stuck with you! I'M LEAVING!",
    "This is the last straw! I'M OUT OF HERE!"
  ]

  const FinalMessages: seq<string> := [
    "You just annoyed your guide into early retirement. I bet you're a blast in elevators.",
    "You've proven that persistence and poor judgment are the same thing.",
    "You broke the orc. Hope your family dinners aren't this unbearable.",
    "If there were a medal for pointless persistence, you'd have annoyed the blacksmith that makes them into quitting too.",
    "The orc didn't rage-quit. They just realized life's too short to deal with you.",
    "An orc survived war, famine, and plague—then met you and finally gave up.",
    "Congratulations, you've annoyed a creature bred for battle into giving his 2 weeks. Imagine what you do to normal people."
  ]

  /** Clicks that make the orc leave. */
  const LeaveClicks: nat := 100

  /** Walking frames before the orc is off screen (two cycles of eight). */
  const WalkFrames: nat := 16

  const ResetMessage: string := "Orc has been reset! Ready for action! \U{1FA84}"

  datatype Quote = Tip(index: nat) | MildInsult(index: nat) | ExtremeInsult(index: nat)

  predicate InBounds(q: Quote) {
    match q
    case Tip(i) => i < |Tips|
    case MildInsult(i) => i < |MildInsults|
    case ExtremeInsult(i) => i < |ExtremeInsults|
  }

  function QuoteText(q: Quote): string
    requires InBounds(q)
  {
    match q
    case Tip(i) => Tips[i]
    case MildInsult(i) => MildInsults[i]
    case ExtremeInsult(i) => ExtremeInsults[i]
  }

  /** The quote for the click that brings the count to `count` (below 100):
      tips up to 12; then every third click a mild insult up to 30; every
      second up to 60; from 61 on only extreme insults. Every index lies
      within its list. */
  function OrcQuote(count: nat): (q: Quote)
    requires count < LeaveClicks
    ensures InBounds(q)
    ensures count <= 12 ==> q == Tip(count % 12)
    ensures 13 <= count <= 30 ==>
              q == if (count - 12) % 3 == 0 then MildInsult((count - 12) / 3 % 10) else Tip((count - 12) % 12)
    ensures 31 <= count <= 60 ==>
              q == if (count - 30) % 2 == 0 then MildInsult((count - 30) / 2 % 10) else Tip((count - 30) % 12)
    ensures 61 <= count ==> q == ExtremeInsult((count - 60) % 10)
  {
    if count <= 12 then Tip(count % |Tips|)
    else if count <= 30 then
      var phase2Count := count - 12;
      if phase2Count % 3 == 0 then MildInsult(phase2Count / 3 % |MildInsults|)
      else Tip(phase2Count % |Tips|)
    else if count <= 60 then
      var phase3Count := count - 30;
      if phase3Count % 2 == 0 then MildInsult(phase3Count / 2 % |MildInsults|)
      else Tip(phase3Count % |Tips|)
    else
      var phase4Count := count - 60;
      ExtremeInsult(phase4Count % |ExtremeInsults|)
  }

  /** Extreme insults come exactly from the 61st click on, and a tip never
      follows from then on. */
  lemma InsultClicks(count: nat)
    requires count < LeaveClicks
    ensures OrcQuote(count).ExtremeInsult? <==> 61 <= count
    ensures OrcQuote(count).MildInsult?
        <==> (13 <= count <= 30 && count % 3 == 0) || (31 <= count <= 60 && count % 2 == 0)
  {
  }

  datatype Animation = Idle | Cast | Walk | Attack

  class Orc {
    var clickCount: nat
    var hasLeft: bool
    var finalMessage: string
    var isWalkingAway: bool
    var hasFinishedWalking: bool
    var walkCycleCount: nat
    var speechBubbleVisible: bool
    var animation: Animation
    var isAnimating: bool

    /** The walk counter never passes 16 and is below it while walking. */
    ghost predicate Valid()
      reads this
    {
      && walkCycleCount <= WalkFrames
      && (isWalkingAway ==> walkCycleCount < WalkFrames)
    }

    constructor ()
      ensures Valid()
      ensures clickCount == 0 && !hasLeft && finalMessage == "" && !isWalkingAway && !hasFinishedWalking
      ensures walkCycleCount == 0 && speechBubbleVisible && animation == Idle && !isAnimating
    {
      clickCount := 0;
      hasLeft := false;
      finalMessage := "";
      isWalkingAway := false;
      hasFinishedWalking := false;
      walkCycleCount := 0;
      speechBubbleVisible := true;
      animation := Idle;
      isAnimating := false;
    }

    /** The start of the leave sequence: the final message drawn (`pick`
        stands for `floor(random() * finalMessages.length)`), the bubble
        text cleared and the bubble hidden. */
    method BeginLeaving(pick: nat) returns (message: string)
      requires Valid() && pick < |FinalMessages|
      modifies this
      ensures Valid()
      ensures finalMessage == FinalMessages[pick] && !speechBubbleVisible && message == ""
      ensures clickCount == old(clickCount) && hasLeft == old(hasLeft) && isWalkingAway == old(isWalkingAway)
      ensures hasFinishedWalking == old(hasFinishedWalking) && walkCycleCount == old(walkCycleCount)
      ensures animation == old(animation) && isAnimating == old(isAnimating)
    {
      finalMessage := FinalMessages[pick];
      speechBubbleVisible := false;
      message := "";
    }

    /** `handleOrcClick`: ignored once the orc has left; otherwise the count
        goes up and the new count either starts the leave sequence or picks
        the next quote. The click itself does not look at `isWalkingAway`. */
    method HandleOrcClick(pick: nat) returns (message: Option<string>)
      requires Valid() && pick < |FinalMessages|
      modifies this
      ensures Valid()
      ensures old(hasLeft) ==>
                message == None && clickCount == old(clickCount) && hasLeft
                && finalMessage == old(finalMessage) && speechBubbleVisible == old(speechBubbleVisible)
                && animation == old(animation) && isAnimating == old(isAnimating)
      ensures !old(hasLeft) ==> clickCount == old(clickCount) + 1 && animation == Cast && isAnimating && !hasLeft
      ensures !old(hasLeft) && clickCount >= LeaveClicks ==>
                message == Some("") && finalMessage == FinalMessages[pick] && !speechBubbleVisible
      ensures !old(hasLeft) && clickCount < LeaveClicks ==>
                message == Some(QuoteText(OrcQuote(clickCount)))
                && finalMessage == old(finalMessage) && speechBubbleVisible == old(speechBubbleVisible)
      ensures isWalkingAway == old(isWalkingAway) && hasFinishedWalking == old(hasFinishedWalking)
      ensures walkCycleCount == old(walkCycleCount)
    {
      if hasLeft {
        return None;
      }
      animation := Cast;
      isAnimating := true;
      var newCount := clickCount + 1;
      clickCount := newCount;
      if newCount >= LeaveClicks {
        var m := BeginLeaving(pick);
        return Some(m);
      }
      var q := OrcQuote(newCount);
      return Some(QuoteText(q));
    }

    /** The 3-second timer after a click. Its closure sees `hasLeft` as it
        was when the click went through, which is false, so the orc always
        goes back to idle — even when the walk has started meanwhile. */
    method SettleAfterClick()
      requires Valid()
      modifies this
      ensures Valid()
      ensures animation == Idle && !isAnimating
      ensures clickCount == old(clickCount) && hasLeft == old(hasLeft) && isWalkingAway == old(isWalkingAway)
      ensures walkCycleCount == old(walkCycleCount) && finalMessage == old(finalMessage)
      ensures speechBubbleVisible == old(speechBubbleVisible) && hasFinishedWalking == old(hasFinishedWalking)
    {
      animation := Idle;
      isAnimating := false;
    }

    /** `makeOrcLeave`: nothing once left or while walking away; otherwise
        the leave sequence starts, without touching the click count. */
    method MakeOrcLeave(pick: nat) returns (message: Option<string>)
      requires Valid() && pick < |FinalMessages|
      modifies this
      ensures Valid()
      ensures old(hasLeft) || old(isWalkingAway) ==>
                message == None && finalMessage == old(finalMessage) && speechBubbleVisible == old(speechBubbleVisible)
      ensures !old(hasLeft) && !old(isWalkingAway) ==>
                message == Some("") && finalMessage == FinalMessages[pick] && !speechBubbleVisible
      ensures clickCount == old(clickCount) && hasLeft == old(hasLeft) && isWalkingAway == old(isWalkingAway)
      ensures walkCycleCount == old(walkCycleCount) && hasFinishedWalking == old(hasFinishedWalking)
      ensures animation == old(animation) && isAnimating == old(isAnimating)
    {
      if hasLeft || isWalkingAway {
        return None;
      }
      var m := BeginLeaving(pick);
      return Some(m);
    }

    /** The 500 ms timer of the leave sequence: the walk starts at frame 0. */
    method StartWalking()
      requires Valid()
      modifies this
      ensures Valid()
      ensures isWalkingAway && animation == Walk && isAnimating && walkCycleCount == 0
      ensures clickCount == old(clickCount) && hasLeft == old(hasLeft) && finalMessage == old(finalMessage)
      ensures speechBubbleVisible == old(speechBubbleVisible) && hasFinishedWalking == old(hasFinishedWalking)
    {
      isWalkingAway := true;
      animation := Walk;
      isAnimating := true;
      walkCycleCount := 0;
    }

    /** One 312.5 ms step of the walk interval: the counter goes up, and at
        16 the interval clears itself (`running` false), the walk ends and
        the orc has finished walking. Nothing else clears the interval, so it
        steps on below 16 whether or not the orc is still walking away (a
        reset puts the counter back to 0 without stopping it). */
    method WalkTick() returns (running: bool)
      requires Valid() && walkCycleCount < WalkFrames
      modifies this
      ensures Valid()
      ensures walkCycleCount == old(walkCycleCount) + 1
      ensures running <==> walkCycleCount < WalkFrames
      ensures running ==> isWalkingAway == old(isWalkingAway) && hasFinishedWalking == old(hasFinishedWalking)
                          && isAnimating == old(isAnimating)
      ensures !running ==> !isWalkingAway && hasFinishedWalking && !isAnimating
      ensures clickCount == old(clickCount) && hasLeft == old(hasLeft) && finalMessage == old(finalMessage)
      ensures speechBubbleVisible == old(speechBubbleVisible) && animation == old(animation)
    {
      var newCycleCount := walkCycleCount + 1;
      walkCycleCount := newCycleCount;
      if newCycleCount >= WalkFrames {
        isWalkingAway := false;
        hasFinishedWalking := true;
        isAnimating := false;
        return false;
      }
      return true;
    }

    /** The 1-second timer after the walk: the orc is gone. */
    method FinishLeaving()
      requires Valid()
      modifies this
      ensures Valid() && hasLeft
      ensures clickCount == old(clickCount) && isWalkingAway == old(isWalkingAway)
      ensures walkCycleCount == old(walkCycleCount) && hasFinishedWalking == old(hasFinishedWalking)
      ensures finalMessage == old(finalMessage) && speechBubbleVisible == old(speechBubbleVisible)
      ensures animation == old(animation) && isAnimating == old(isAnimating)
    {
      hasLeft := true;
    }

    /** A reset in the middle of the walk, and the walk interval that goes
        on stepping: the counter climbs again from 0 to 16, the walk
        finishes and the timer after it sends the orc off, although its
        click count is back at 0. */
    method ResetMidWalkStillLeaves() returns (message: string)
      requires Valid() && isWalkingAway
      modifies this
      ensures message == ResetMessage
      ensures hasLeft && clickCount == 0 && hasFinishedWalking && !isWalkingAway
      ensures walkCycleCount == WalkFrames && speechBubbleVisible && finalMessage == ""
    {
      message := ResetOrc();
      var running := true;
      while running
        invariant Valid() && clickCount == 0 && !hasLeft
        invariant speechBubbleVisible && finalMessage == ""
        invariant running <==> walkCycleCount < WalkFrames
        invariant !running ==> hasFinishedWalking && !isWalkingAway
        decreases WalkFrames - walkCycleCount
      {
        running := WalkTick();
      }
      FinishLeaving();
    }

    /** `resetOrc`. */
    method ResetOrc() returns (message: string)
      requires Valid()
      modifies this
      ensures Valid()
      ensures clickCount == 0 && !hasLeft && finalMessage == "" && !isWalkingAway && !hasFinishedWalking
      ensures walkCycleCount == 0 && speechBubbleVisible && animation == Idle && !isAnimating
      ensures message == ResetMessage
    {
      clickCount := 0;
      hasLeft := false;
      finalMessage := "";
      isWalkingAway := false;
      hasFinishedWalking := false;
      walkCycleCount := 0;
      speechBubbleVisible := true;
      animation := Idle;
      isAnimating := false;
      message := ResetMessage;
    }
  }
}
