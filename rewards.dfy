/** The rewards screen (`src/pages/Rewards.tsx`): the active rewards, the XP
    balance, the Redeem button and the redemption it files. A redemption is
    only a request: the balance is compared with the cost, but nothing is
    deducted. */
module Rewards {
  import opened Common
  import opened Tables

  /** The balance shown and checked: the profile's XP, absent reading as 0. */
  function Balance(profile: Option<ProfileRow>): (xp: int)
    ensures profile.None? ==> xp == 0
    ensures profile.Some? ==> xp == profile.value.xp
  {
    if profile.Some? then profile.value.xp else 0
  }

  /** The rewards listed: the active ones, in table order. */
  function ActiveRewards(rewards: seq<RewardRow>): (r: seq<RewardRow>)
    ensures SubsequenceOf(r, rewards)
    ensures forall i :: 0 <= i < |r| ==> r[i].isActive
    ensures forall i :: 0 <= i < |rewards| && rewards[i].isActive ==> rewards[i] in r
  {
    FilterIsSubsequence(rewards, (w: RewardRow) => w.isActive);
    Filter(rewards, (w: RewardRow) => w.isActive)
  }

  /** The Redeem button of `reward` is disabled. */
  predicate RedeemDisabled(profile: Option<ProfileRow>, reward: RewardRow): (disabled: bool)
    ensures profile.None? ==> (disabled <==> reward.xpCost > 0)
    ensures reward.xpCost <= 0 && (profile.None? || profile.value.xp >= 0) ==> !disabled
  {
    Balance(profile) < reward.xpCost
  }

  /** How a click on Redeem ends. */
  datatype Outcome = NotSignedIn | NotEnoughXp | Requested

  /** The decision `handleRedeem` takes before writing anything. */
  function Decide(user: Option<UserId>, profile: Option<ProfileRow>, reward: RewardRow): (o: Outcome)
    ensures o == NotSignedIn <==> user.None?
    ensures o == NotEnoughXp <==> user.Some? && Balance(profile) < reward.xpCost
    ensures o == Requested <==> user.Some? && Balance(profile) >= reward.xpCost
  {
    if user.None? then NotSignedIn
    else if Balance(profile) < reward.xpCost then NotEnoughXp
    else Requested
  }

  /** For a signed-in user the button is enabled exactly when the guard lets the
      redemption through. */
  lemma ButtonMatchesGuard(user: UserId, profile: Option<ProfileRow>, reward: RewardRow)
    ensures !RedeemDisabled(profile, reward) <==> Decide(Some(user), profile, reward) == Requested
  {
  }

  /** A reward that costs nothing can always be redeemed by a user with
      non-negative XP, even without a loaded profile. */
  lemma FreeRewardAlwaysRedeemable(user: UserId, profile: Option<ProfileRow>, reward: RewardRow)
    requires reward.xpCost <= 0
    requires profile.Some? ==> profile.value.xp >= 0
    ensures Decide(Some(user), profile, reward) == Requested
  {
  }

  class RewardsScreen {
    const user: Option<UserId>
    /** The profile of the signed-in user as last loaded. */
    const profile: Option<ProfileRow>
    const db: Backend

    constructor (user: Option<UserId>, profile: Option<ProfileRow>, db: Backend)
      ensures this.user == user && this.profile == profile && this.db == db
    {
      this.user, this.profile, this.db := user, profile, db;
    }

    /** A click on Redeem: without a user nothing happens; with too little XP
        the request is refused and nothing is written; otherwise exactly one
        pending redemption is appended. No other table changes. */
    method HandleRedeem(reward: RewardRow) returns (outcome: Outcome)
      modifies db`redemptions, db`writes
      ensures outcome == Decide(user, profile, reward)
      ensures outcome != Requested ==> db.redemptions == old(db.redemptions) && db.writes == old(db.writes)
      ensures outcome == Requested ==>
                var row := RedemptionRow(user.value, reward.id, "pending");
                db.redemptions == old(db.redemptions) + [row] && db.writes == old(db.writes) + [InsertRedemption(row)]
      ensures db.profiles == old(db.profiles)
    {
      if user.None? {
        return NotSignedIn;
      }
      if Balance(profile) < reward.xpCost {
        return NotEnoughXp;
      }
      db.InsertRedemptionRow(RedemptionRow(user.value, reward.id, "pending"));
      outcome := Requested;
    }

    /** Two clicks on an affordable reward file two pending requests and leave
        the balance as it was. */
    method RedeemTwice(reward: RewardRow)
      requires user.Some? && !RedeemDisabled(profile, reward)
      modifies db`redemptions, db`writes
      ensures |db.redemptions| == |old(db.redemptions)| + 2
      ensures db.redemptions[|db.redemptions| - 1] == db.redemptions[|db.redemptions| - 2]
                == RedemptionRow(user.value, reward.id, "pending")
      ensures db.profiles == old(db.profiles)
    {
      var first := HandleRedeem(reward);
      var second := HandleRedeem(reward);
    }
  }
}
