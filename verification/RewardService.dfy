/** core/util/reward.ts: computing rewards and airdrops, and paying them. */
module RewardService {
  import opened Model
  import opened Transactions
  import opened Verify
  import opened Store

  /** The reward and the unstake amount of a vote over the sender's stakes. */
  method CalculateTotalRewardAndUnstake(stakes: seq<Stake>, createdAt: Timestamp, isDownVote: bool, height: nat)
    returns (reward: int, unstake: int)
    ensures reward == if isDownVote then 0 else TotalReward(stakes, createdAt, height)
    ensures unstake == if isDownVote then 0 else TotalUnstake(stakes, createdAt)
  {
    reward, unstake := 0, 0;
    if isDownVote {
      return;
    }
    for i := 0 to |stakes|
      invariant reward == TotalReward(stakes[..i], createdAt, height)
      invariant unstake == TotalUnstake(stakes[..i], createdAt)
    {
      assert stakes[..i + 1][..i] == stakes[..i];
      var stake := stakes[i];
      if Due(stake, createdAt) {
        if stake.voteCount > 0 && (stake.voteCount + 1) % REWARD_VOTE_COUNT == 0 {
          var percent := REWARD_MILESTONES[MilestoneAt(height)];
          reward := reward + CeilDiv(stake.amount * percent, 100);
        }
        if stake.voteCount + 1 == UNSTAKE_VOTE_COUNT {
          unstake := unstake + stake.amount;
        }
      }
    }
    assert stakes[..|stakes|] == stakes;
  }

  /** The sponsors a reward owes, or none when the airdrop account cannot pay. */
  method GetAirdropReward(store: LedgerStore, sender: Address, amount: int, freeze: bool) returns (result: seq<Sponsor>)
    requires sender in store.accounts && AIRDROP_ADDRESS in store.accounts
    ensures result == AirdropFor(store.View(), Acc(store.View(), sender), amount, freeze)
  {
    AbstractAt(store.accounts, sender);
    AbstractAt(store.accounts, AIRDROP_ADDRESS);
    if amount == 0 {
      return [];
    }
    var available := store.accounts[AIRDROP_ADDRESS].balance;
    var referrals := store.accounts[sender].referrals;
    if |referrals| == 0 {
      return [];
    }
    var total := 0;
    var sponsors: seq<Sponsor> := [];
    if freeze {
      total := CeilDiv(amount * FREEZE_SPONSOR_PERCENT, 100);
      sponsors := [Sponsor(referrals[0], total)];
    } else {
      for i := 0 to |referrals|
        invariant (sponsors, total) == LevelRewards(referrals[..i], amount)
      {
        assert referrals[..i + 1][..i] == referrals[..i];
        var reward := CeilDiv(Permille(i) * amount, 1000);
        sponsors := SetSponsor(sponsors, referrals[i], reward);
        total := total + reward;
      }
      assert referrals[..|referrals|] == referrals;
    }
    if available < total {
      return [];
    }
    result := sponsors;
  }

  /** All the sponsors can be paid: their accounts and the airdrop account exist. */
  predicate Payable(accounts: map<Address, AccountData>, sponsors: seq<Sponsor>) {
    (sponsors != [] ==> AIRDROP_ADDRESS in accounts) &&
    forall i :: 0 <= i < |sponsors| ==> sponsors[i].address in accounts
  }

  /** What paying `amount` from the airdrop account adds to one balance. */
  function FromAirdrop(to: Address, amount: int, a: Address): int {
    At(to, a, amount) + At(AIRDROP_ADDRESS, a, -amount)
  }

  method PayFromAirdrop(store: LedgerStore, to: Address, amount: int)
    requires AIRDROP_ADDRESS in store.accounts && to in store.accounts
    modifies store`accounts
    ensures store.accounts.Keys == old(store.accounts.Keys)
    ensures Shifted(old(store.View()), store.View(), (b: Address) => FromAirdrop(to, amount, b))
  {
    hide Shifted, AbstractAll, Abstract, Acc, At;
    ghost var before := store.View();
    store.AddBalance(to, amount);
    ghost var middle := store.View();
    store.AddBalance(AIRDROP_ADDRESS, -amount);
    ShiftTwice(before, middle, store.View(),
               (b: Address) => At(to, b, amount),
               (b: Address) => At(AIRDROP_ADDRESS, b, -amount),
               (b: Address) => FromAirdrop(to, amount, b));
  }

  lemma NoSponsors(a: Address)
    ensures SponsorChange([], a) == 0
  {
  }

  lemma OneMoreSponsor(sponsors: seq<Sponsor>, i: nat, a: Address)
    requires i < |sponsors|
    ensures SponsorChange(sponsors[..i + 1], a) ==
              SponsorChange(sponsors[..i], a) + FromAirdrop(sponsors[i].address, sponsors[i].reward, a)
    ensures -SponsorChange(sponsors[..i + 1], a) ==
              -SponsorChange(sponsors[..i], a) + FromAirdrop(sponsors[i].address, -sponsors[i].reward, a)
    ensures sponsors[i].reward == 0 ==> SponsorChange(sponsors[..i + 1], a) == SponsorChange(sponsors[..i], a)
  {
    assert sponsors[..i + 1][..i] == sponsors[..i];
  }

  lemma ShiftSame(l: Ledger, m: Ledger, f: Address -> int, g: Address -> int)
    requires Shifted(l, m, f) && forall a :: f(a) == g(a)
    ensures Shifted(l, m, g)
  {
    hide Acc;
  }

  method SendAirdropReward(store: LedgerStore, sponsors: seq<Sponsor>)
    requires Payable(store.accounts, sponsors)
    modifies store`accounts
    ensures store.accounts.Keys == old(store.accounts.Keys)
    ensures Shifted(old(store.View()), store.View(), (b: Address) => SponsorChange(sponsors, b))
  {
    hide Shifted, SponsorChange, FromAirdrop, AbstractAll, Abstract, Acc, At;
    ghost var before := store.View();
    forall b ensures SponsorChange([], b) == 0 { NoSponsors(b); }
    ShiftNone(before, (b: Address) => SponsorChange([], b));
    for i := 0 to |sponsors|
      invariant store.accounts.Keys == old(store.accounts.Keys)
      invariant Shifted(before, store.View(), (b: Address) => SponsorChange(sponsors[..i], b))
    {
      ghost var middle := store.View();
      ghost var done := (b: Address) => SponsorChange(sponsors[..i], b);
      ghost var next := (b: Address) => SponsorChange(sponsors[..i + 1], b);
      var sponsor, reward := sponsors[i].address, sponsors[i].reward;
      forall b
        ensures next(b) == done(b) + FromAirdrop(sponsor, reward, b)
        ensures reward == 0 ==> done(b) == next(b)
      {
        OneMoreSponsor(sponsors, i, b);
      }
      if reward == 0 {
        ShiftSame(before, middle, done, next);
        continue;
      }
      PayFromAirdrop(store, sponsor, reward);
      ShiftTwice(before, middle, store.View(), done, (b: Address) => FromAirdrop(sponsor, reward, b), next);
    }
    assert sponsors[..|sponsors|] == sponsors;
  }

  method UndoAirdropReward(store: LedgerStore, sponsors: seq<Sponsor>)
    requires Payable(store.accounts, sponsors)
    modifies store`accounts
    ensures store.accounts.Keys == old(store.accounts.Keys)
    ensures Shifted(old(store.View()), store.View(), (b: Address) => -SponsorChange(sponsors, b))
  {
    hide Shifted, SponsorChange, FromAirdrop, AbstractAll, Abstract, Acc, At;
    ghost var before := store.View();
    forall b ensures SponsorChange([], b) == 0 { NoSponsors(b); }
    ShiftNone(before, (b: Address) => -SponsorChange([], b));
    for i := 0 to |sponsors|
      invariant store.accounts.Keys == old(store.accounts.Keys)
      invariant Shifted(before, store.View(), (b: Address) => -SponsorChange(sponsors[..i], b))
    {
      ghost var middle := store.View();
      ghost var done := (b: Address) => -SponsorChange(sponsors[..i], b);
      ghost var next := (b: Address) => -SponsorChange(sponsors[..i + 1], b);
      var sponsor, reward := sponsors[i].address, sponsors[i].reward;
      forall b
        ensures next(b) == done(b) + FromAirdrop(sponsor, -reward, b)
        ensures reward == 0 ==> done(b) == next(b)
      {
        OneMoreSponsor(sponsors, i, b);
      }
      if reward == 0 {
        ShiftSame(before, middle, done, next);
        continue;
      }
      PayFromAirdrop(store, sponsor, -reward);
      ShiftTwice(before, middle, store.View(), done, (b: Address) => FromAirdrop(sponsor, -reward, b), next);
    }
    assert sponsors[..|sponsors|] == sponsors;
  }
}
