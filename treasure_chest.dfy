/** The treasure chest shown after a new bingo: opening it draws one of the
    rewards, and claiming hands the drawn reward to the board and closes the
    chest. */
module TreasureChest {
  import opened Text

  datatype Reward = Reward(id: string, name: string, description: string, points: int)

  datatype Icon = Gift | Star | Crown

  /** The chest's reward icon: crown from 10 points, star from 5, else gift. */
  function RewardIcon(points: int): (icon: Icon)
    ensures icon == Crown <==> points >= 10
    ensures icon == Star <==> 5 <= points < 10
    ensures icon == Gift <==> points < 5
  {
    if points >= 10 then Crown else if points >= 5 then Star else Gift
  }

  function IconLevel(icon: Icon): nat {
    match icon
    case Gift => 0
    case Star => 1
    case Crown => 2
  }

  /** More points never earn a lesser icon. */
  lemma RewardIconMonotone(p: int, q: int)
    requires p <= q
    ensures IconLevel(RewardIcon(p)) <= IconLevel(RewardIcon(q))
  {
  }

  class Chest {
    const rewards: seq<Reward>
    var isOpening: bool
    var selectedReward: Option<Reward>

    /** The chest only opens with rewards to draw from, and whatever it has
        drawn is one of them. */
    ghost predicate Valid()
      reads this
    {
      && (isOpening ==> |rewards| > 0)
      && (selectedReward.Some? ==> selectedReward.value in rewards)
    }

    constructor (rewards: seq<Reward>)
      ensures Valid()
      ensures this.rewards == rewards && !isOpening && selectedReward == None
    {
      this.rewards := rewards;
      isOpening := false;
      selectedReward := None;
    }

    /** `handleOpen`: nothing happens without rewards; otherwise the chest
        starts opening and the draw is scheduled. */
    method HandleOpen()
      requires Valid()
      modifies this
      ensures Valid()
      ensures isOpening == (|rewards| > 0 || old(isOpening))
      ensures selectedReward == old(selectedReward)
    {
      if |rewards| == 0 {
        return;
      }
      isOpening := true;
    }

    /** The scheduled draw: `draw` stands for `floor(random() * rewards.length)`,
        an index in [0, |rewards|). */
    method RevealReward(draw: nat)
      requires Valid() && isOpening && draw < |rewards|
      modifies this
      ensures Valid()
      ensures selectedReward == Some(rewards[draw]) && isOpening
    {
      selectedReward := Some(rewards[draw]);
    }

    /** `handleClaimReward`: without a drawn reward nothing happens; with one,
        that exact reward goes to the `onOpen` callback and the chest asks to
        be closed. */
    method HandleClaimReward() returns (claimed: Option<Reward>, closeRequested: bool)
      requires Valid()
      ensures claimed == selectedReward
      ensures closeRequested <==> selectedReward.Some?
      ensures claimed.Some? ==> claimed.value in rewards
    {
      if selectedReward.Some? {
        claimed := selectedReward;
        closeRequested := true;
      } else {
        claimed := None;
        closeRequested := false;
      }
    }
  }
}
