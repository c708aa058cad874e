/** The rewards list: rarity and icon by points, whether a reward can be
    redeemed with the points earned so far, how many points are missing,
    and the form that adds a reward. */
module RewardsManager {
  import opened Text

  datatype Rarity = Common | Rare | Epic | Legendary

  datatype RewardIcon = GiftIcon | StarIcon | TrophyIcon | CrownIcon

  datatype Reward = Reward(id: string, name: string, description: string, points: int, isRedeemed: bool)

  /** The add form's contents: a reward without an id. */
  datatype RewardDraft = RewardDraft(name: string, description: string, points: int, isRedeemed: bool)

  const EmptyDraft: RewardDraft := RewardDraft("", "", 1, false)

  /** `getRewardRarity`. */
  function RewardRarity(points: int): (r: Rarity)
    ensures r == Legendary <==> points >= 10
    ensures r == Epic <==> 5 <= points < 10
    ensures r == Rare <==> 3 <= points < 5
    ensures r == Common <==> points < 3
  {
    if points >= 10 then Legendary else if points >= 5 then Epic else if points >= 3 then Rare else Common
  }

  /** `getRewardIcon`. */
  function IconFor(points: int): (icon: RewardIcon)
    ensures icon == CrownIcon <==> points >= 10
    ensures icon == TrophyIcon <==> 5 <= points < 10
    ensures icon == StarIcon <==> 3 <= points < 5
    ensures icon == GiftIcon <==> points < 3
  {
    if points >= 10 then CrownIcon else if points >= 5 then TrophyIcon else if points >= 3 then StarIcon else GiftIcon
  }

  function RarityIcon(r: Rarity): RewardIcon {
    match r
    case Common => GiftIcon
    case Rare => StarIcon
    case Epic => TrophyIcon
    case Legendary => CrownIcon
  }

  function RarityLevel(r: Rarity): nat {
    match r
    case Common => 0
    case Rare => 1
    case Epic => 2
    case Legendary => 3
  }

  /** The icon and the rarity use the same cut-points: the icon is the
      rarity's icon. */
  lemma IconFollowsRarity(points: int)
    ensures IconFor(points) == RarityIcon(RewardRarity(points))
  {
  }

  /** More points never give a lower rarity. */
  lemma RarityMonotone(p: int, q: int)
    requires p <= q
    ensures RarityLevel(RewardRarity(p)) <= RarityLevel(RewardRarity(q))
  {
  }

  /** `canRedeem`: enough points, and not redeemed yet. Its properties are
      the lemmas below. */
  predicate CanRedeem(totalPoints: int, r: Reward) {
    totalPoints >= r.points && !r.isRedeemed
  }

  /** The "Need n more points" figure, shown for rewards that are neither
      redeemable nor redeemed. */
  function Shortfall(totalPoints: int, r: Reward): (need: int)
    requires !CanRedeem(totalPoints, r) && !r.isRedeemed
    ensures need > 0
    ensures totalPoints + need == r.points
  {
    r.points - totalPoints
  }

  /** Earning exactly the shortfall makes the reward redeemable, and no
      smaller gain does. */
  lemma ShortfallIsExact(totalPoints: int, r: Reward, gain: int)
    requires !CanRedeem(totalPoints, r) && !r.isRedeemed
    ensures CanRedeem(totalPoints + Shortfall(totalPoints, r), r)
    ensures gain < Shortfall(totalPoints, r) ==> !CanRedeem(totalPoints + gain, r)
  {
  }

  /** Earning more points never makes a redeemable reward unredeemable. */
  lemma MorePointsKeepRedeemable(p: int, q: int, r: Reward)
    requires p <= q && CanRedeem(p, r)
    ensures CanRedeem(q, r)
  {
  }

  /** A redeemed reward is never redeemable again, whatever the points. */
  lemma RedeemedStaysRedeemed(totalPoints: int, r: Reward)
    requires r.isRedeemed
    ensures !CanRedeem(totalPoints, r)
  {
  }

  class RewardForm {
    var newReward: RewardDraft
    var showAddForm: bool

    constructor ()
      ensures newReward == EmptyDraft && !showAddForm
    {
      newReward := EmptyDraft;
      showAddForm := false;
    }

    /** `handleAddReward`: with a name that is not blank, the draft as typed
        (untrimmed) goes to `onAddReward`, the form is reset and hidden;
        with a blank name nothing happens. */
    method HandleAddReward() returns (added: Option<RewardDraft>)
      modifies this
      ensures IsBlank(old(newReward).name) ==>
                added == None && newReward == old(newReward) && showAddForm == old(showAddForm)
      ensures !IsBlank(old(newReward).name) ==>
                added == Some(old(newReward)) && newReward == EmptyDraft && !showAddForm
    {
      TrimEmptyIffBlank(newReward.name);
      if Trim(newReward.name) != [] {
        added := Some(newReward);
        newReward := EmptyDraft;
        showAddForm := false;
      } else {
        added := None;
      }
    }

    method OpenForm()
      modifies this
      ensures showAddForm && newReward == old(newReward)
    {
      showAddForm := true;
    }

    /** The cancel button hides the form and keeps what was typed. */
    method CancelForm()
      modifies this
      ensures !showAddForm && newReward == old(newReward)
    {
      showAddForm := false;
    }

    method SetName(name: string)
      modifies this
      ensures newReward == old(newReward).(name := name) && showAddForm == old(showAddForm)
    {
      newReward := newReward.(name := name);
    }

    method SetDescription(description: string)
      modifies this
      ensures newReward == old(newReward).(description := description) && showAddForm == old(showAddForm)
    {
      newReward := newReward.(description := description);
    }

    method SetPoints(points: int)
      modifies this
      ensures newReward == old(newReward).(points := points) && showAddForm == old(showAddForm)
    {
      newReward := newReward.(points := points);
    }
  }
}
