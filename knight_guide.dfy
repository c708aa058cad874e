/** The knight mascot of the dashboard: each click brings another quote,
    the quotes turn cynical as the clicks pile up, and the hundredth click
    kills the knight (hurt animation, then death animation, both frozen on
    their last frame). */
module KnightGuide {
  import opened Text

  const InspirationalQuotes: seq<string> := [
    "Every great quest begins with a single step!",
    "You've got this! I believe in your potential!",
    "Challenges are just opportunities in disguise!",
    "The path to greatness is paved with determination!",
    "Your dedication inspires me, brave adventurer!",
    "Every bingo square is a step closer to victory!",
    "You're doing amazing! Keep up the excellent work!",
    "Success is the sum of small efforts repeated!",
    "Your progress today is tomorrow's foundation!",
    "I'm proud to be your companion on this journey!",
    "Every completed task is a victory worth celebrating!",
    "You're building habits that will serve you well!",
    "The best time to start was yesterday, the second best is now!",
    "Your commitment to improvement is truly admirable!",
    "Every small win is a step toward your goals!"
  ]

  const CynicalQuotes: seq<string> := [
    "Oh, you're still here? How... persistent.",
    "I suppose clicking me repeatedly is a form of productivity?",
    "Are you sure you don't have better things to do?",
    "This is getting a bit... excessive, don't you think?",
    "I'm starting to question your life choices.",
    "There are actual tasks waiting for you, you know.",
    "I'm beginning to regret this whole 'motivational' thing.",
    "You do realize I'm not going to do your work for you, right?",
    "This is getting old. Very old.",
    "I'm running out of encouraging things to say.",
    "Seriously, go do something productive.",
    "I'm not your personal cheerleader, you know.",
    "This is getting ridiculous. Stop it.",
    "I'm done with this. Completely done.",
    "You're testing my patience, and I'm running out."
  ]

  /** Clicks that kill the knight. */
  const DeathClicks: nat := 100

  /** Frames of the hurt and of the death sprite sheets. */
  const HurtFrameCount: nat := 4
  const DeathFrameCount: nat := 4

  const DeathMessage: string := "..."
  const ResetMessage: string := "Knight has been reset! Ready for action!"

  datatype Quote = Inspirational(index: nat) | Cynical(index: nat)

  predicate InBounds(q: Quote) {
    match q
    case Inspirational(i) => i < |InspirationalQuotes|
    case Cynical(i) => i < |CynicalQuotes|
  }

  function QuoteText(q: Quote): string
    requires InBounds(q)
  {
    match q
    case Inspirational(i) => InspirationalQuotes[i]
    case Cynical(i) => CynicalQuotes[i]
  }

  /** The quote for the click that brings the count to `count` (below 100):
      inspirational up to 20; then every third click cynical up to 50;
      every second up to 80; from 81 on only cynical. Every index lies
      within its list. */
  function KnightQuote(count: nat): (q: Quote)
    requires count < DeathClicks
    ensures InBounds(q)
    ensures count <= 20 ==> q == Inspirational(count % 15)
    ensures 21 <= count <= 50 ==>
              q == if (count - 20) % 3 == 0 then Cynical((count - 20) / 3 % 15) else Inspirational((count - 20) % 15)
    ensures 51 <= count <= 80 ==>
              q == if (count - 50) % 2 == 0 then Cynical((count - 50) / 2 % 15) else Inspirational((count - 50) % 15)
    ensures 81 <= count ==> q == Cynical((count - 80) % 15)
  {
    if count <= 20 then Inspirational(count % |InspirationalQuotes|)
    else if count <= 50 then
      var phase2Count := count - 20;
      if phase2Count % 3 == 0 then Cynical(phase2Count / 3 % |CynicalQuotes|)
      else Inspirational(phase2Count % |InspirationalQuotes|)
    else if count <= 80 then
      var phase3Count := count - 50;
      if phase3Count % 2 == 0 then Cynical(phase3Count / 2 % |CynicalQuotes|)
      else Inspirational(phase3Count % |InspirationalQuotes|)
    else
      var phase4Count := count - 80;
      Cynical(phase4Count % |CynicalQuotes|)
  }

  /** Which clicks bring a cynical quote: none of the first twenty, every
      third of the next thirty, every second of the thirty after, and all
      from the 81st on. */
  lemma CynicalClicks(count: nat)
    requires count < DeathClicks
    ensures KnightQuote(count).Cynical?
        <==> (21 <= count <= 50 && (count - 20) % 3 == 0)
             || (51 <= count <= 80 && count % 2 == 0)
             || 81 <= count
  {
  }

  /** The interval step of the hurt and death animations: one frame on,
      stopping on the last frame. */
  function NextFrame(frame: nat, frameCount: nat): (next: nat)
    requires frame < frameCount
    ensures next < frameCount
    ensures next == frame + 1 || (next == frame && frame == frameCount - 1)
  {
    if frame + 1 >= frameCount then frame else frame + 1
  }

  /** The frame after k interval steps from frame 0. */
  function FrameAfter(k: nat, frameCount: nat): (frame: nat)
    requires frameCount >= 1
    ensures frame < frameCount
  {
    if k == 0 then 0 else NextFrame(FrameAfter(k - 1, frameCount), frameCount)
  }

  /** An animation started at frame 0 shows frame k until it reaches the
      last frame, and stays there. */
  lemma {:induction false} FrameAfterIsCapped(k: nat, frameCount: nat)
    requires frameCount >= 1
    ensures FrameAfter(k, frameCount) == if k < frameCount then k else frameCount - 1
  {
    if k > 0 {
      FrameAfterIsCapped(k - 1, frameCount);
    }
  }

  datatype Animation = Idle | Celebrate | Attack | Walk | Hurt | Death

  class Knight {
    var clickCount: nat
    var isDead: bool
    var hurtFrame: nat
    var deathFrame: nat
    var animation: Animation
    var isAnimating: bool
    var animationKey: nat

    /** The knight is dead exactly when the count is at 100, and both
        frame counters stay on their sheets. */
    ghost predicate Valid()
      reads this
    {
      && clickCount <= DeathClicks
      && (isDead <==> clickCount == DeathClicks)
      && hurtFrame < HurtFrameCount && deathFrame < DeathFrameCount
    }

    constructor ()
      ensures Valid()
      ensures clickCount == 0 && !isDead && hurtFrame == 0 && deathFrame == 0
      ensures animation == Idle && !isAnimating && animationKey == 0
    {
      clickCount := 0;
      isDead := false;
      hurtFrame := 0;
      deathFrame := 0;
      animation := Idle;
      isAnimating := false;
      animationKey := 0;
    }

    /** `handleKnightClick`: ignored once dead; otherwise the count goes up,
        and the new count either kills the knight (message "...") or picks
        the next quote. The result is what goes to `onMessageChange`. */
    method HandleKnightClick() returns (message: Option<string>)
      requires Valid()
      modifies this
      ensures Valid()
      ensures old(isDead) ==>
                message == None && clickCount == old(clickCount) && isDead
                && animation == old(animation) && isAnimating == old(isAnimating)
                && hurtFrame == old(hurtFrame) && deathFrame == old(deathFrame)
                && animationKey == old(animationKey)
      ensures !old(isDead) ==> clickCount == old(clickCount) + 1 && isAnimating
                               && animationKey == old(animationKey) + 1 && deathFrame == old(deathFrame)
      ensures !old(isDead) && clickCount == DeathClicks ==>
                isDead && animation == Hurt && hurtFrame == 0 && message == Some(DeathMessage)
      ensures !old(isDead) && clickCount < DeathClicks ==>
                !isDead && animation == Celebrate && hurtFrame == old(hurtFrame)
                && message == Some(QuoteText(KnightQuote(clickCount)))
    {
      if isDead {
        return None;
      }
      animation := Celebrate;
      isAnimating := true;
      animationKey := animationKey + 1;
      var newCount := clickCount + 1;
      clickCount := newCount;
      if newCount >= DeathClicks {
        isDead := true;
        animation := Hurt;
        isAnimating := true;
        hurtFrame := 0;
        return Some(DeathMessage);
      }
      var q := KnightQuote(newCount);
      return Some(QuoteText(q));
    }

    /** The 2-second timer after a click. Its closure sees the state of the
        render the click came from: `isDead` was false there (the click went
        through), so only `captured`, that render's animation, decides
        whether the knight goes back to idle. */
    method SettleAfterClick(captured: Animation)
      requires Valid()
      modifies this
      ensures Valid()
      ensures captured != Hurt && captured != Death ==> animation == Idle && !isAnimating
      ensures captured == Hurt || captured == Death ==>
                animation == old(animation) && isAnimating == old(isAnimating)
      ensures clickCount == old(clickCount) && isDead == old(isDead)
      ensures hurtFrame == old(hurtFrame) && deathFrame == old(deathFrame) && animationKey == old(animationKey)
    {
      if captured != Hurt && captured != Death {
        isAnimating := false;
        animation := Idle;
      }
    }

    /** `killKnight`: nothing if already dead; otherwise dead at once, the
        count set to 100 and the hurt animation started. */
    method KillKnight() returns (message: Option<string>)
      requires Valid()
      modifies this
      ensures Valid()
      ensures old(isDead) ==>
                message == None && clickCount == old(clickCount) && animation == old(animation)
                && isAnimating == old(isAnimating) && hurtFrame == old(hurtFrame)
      ensures !old(isDead) ==>
                isDead && clickCount == DeathClicks && animation == Hurt && isAnimating
                && hurtFrame == 0 && message == Some(DeathMessage)
      ensures deathFrame == old(deathFrame) && animationKey == old(animationKey)
    {
      if isDead {
        return None;
      }
      isDead := true;
      clickCount := DeathClicks;
      animation := Hurt;
      isAnimating := true;
      hurtFrame := 0;
      return Some(DeathMessage);
    }

    /** One 200 ms step of the hurt animation; `running` is false once the
        interval is cleared on the last frame. */
    method HurtTick() returns (running: bool)
      requires Valid()
      modifies this
      ensures Valid()
      ensures hurtFrame == NextFrame(old(hurtFrame), HurtFrameCount)
      ensures running <==> old(hurtFrame) + 1 < HurtFrameCount
      ensures clickCount == old(clickCount) && isDead == old(isDead) && deathFrame == old(deathFrame)
      ensures animation == old(animation) && isAnimating == old(isAnimating) && animationKey == old(animationKey)
    {
      var nextFrame := hurtFrame + 1;
      if nextFrame >= HurtFrameCount {
        return false;
      }
      hurtFrame := nextFrame;
      return true;
    }

    /** The 2-second timer after the hurt animation starts: the death
        animation begins at frame 0. */
    method StartDeath()
      requires Valid()
      modifies this
      ensures Valid()
      ensures animation == Death && isAnimating && deathFrame == 0
      ensures clickCount == old(clickCount) && isDead == old(isDead) && hurtFrame == old(hurtFrame)
      ensures animationKey == old(animationKey)
    {
      animation := Death;
      isAnimating := true;
      deathFrame := 0;
    }

    /** One 200 ms step of the death animation; on the last frame the
        interval is cleared and the animation flag drops. */
    method DeathTick() returns (running: bool)
      requires Valid()
      modifies this
      ensures Valid()
      ensures deathFrame == NextFrame(old(deathFrame), DeathFrameCount)
      ensures running <==> old(deathFrame) + 1 < DeathFrameCount
      ensures isAnimating == (running && old(isAnimating))
      ensures clickCount == old(clickCount) && isDead == old(isDead) && hurtFrame == old(hurtFrame)
      ensures animation == old(animation) && animationKey == old(animationKey)
    {
      var nextFrame := deathFrame + 1;
      if nextFrame >= DeathFrameCount {
        isAnimating := false;
        return false;
      }
      deathFrame := nextFrame;
      return true;
    }

    /** `resetKnight`. */
    method ResetKnight() returns (message: string)
      requires Valid()
      modifies this
      ensures Valid()
      ensures clickCount == 0 && !isDead && animation == Idle && !isAnimating
      ensures hurtFrame == 0 && deathFrame == 0 && animationKey == old(animationKey) + 1
      ensures message == ResetMessage
    {
      clickCount := 0;
      isDead := false;
      animation := Idle;
      isAnimating := false;
      deathFrame := 0;
      hurtFrame := 0;
      animationKey := animationKey + 1;
      message := ResetMessage;
    }
  }
}
