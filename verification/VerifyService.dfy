/** The checks of transactions, run on the repositories. */
module VerifyService {
  import opened Model
  import opened Transactions
  import opened Verify
  import opened Store
  import opened RewardService

  method VerifyVote(store: LedgerStore, height: nat, t: Transaction) returns (ok: bool)
    requires t.asset.Vote? && t.sender in store.accounts && AIRDROP_ADDRESS in store.accounts
    ensures ok == VoteOk(store.View(), height, t)
  {
    hide AbstractAll, AirdropFor, TotalReward, TotalUnstake;
    ghost var l := store.View();
    ghost var x := Acc(l, t.sender);
    store.StoredAt(t.sender);
    var sender := store.accounts[t.sender];
    if height > VOTE_WITH_ACTIVE_STAKE && forall i :: 0 <= i < |sender.stakes| ==> !sender.stakes[i].isActive {
      return false;
    }
    var isDown := t.IsDown();
    var reward, unstake := CalculateTotalRewardAndUnstake(sender.stakes, t.createdAt, isDown, height);
    var sponsors := GetAirdropReward(store, t.sender, reward, false);
    ok := reward == t.asset.reward && unstake == t.asset.unstake && SameSponsors(sponsors, t.asset.voteSponsors);

    var votes := t.asset.votes;
    var additions, removals := 0, 0;
    var itemsOk := true;
    for i := 0 to |votes|
      invariant itemsOk <==> forall k :: 0 <= k < i ==> VoteItemOk(l, x, votes[k])
      invariant itemsOk ==> additions == CountUp(votes[..i]) && removals == i - CountUp(votes[..i])
    {
      assert votes[..i + 1][..i] == votes[..i];
      var v := votes[i];
      if v.up {
        if v.delegate in sender.votes {
          itemsOk := false;
        } else {
          additions := additions + 1;
        }
      } else {
        if v.delegate !in sender.votes {
          itemsOk := false;
        } else {
          removals := removals + 1;
        }
      }
      DelegateAt(store, v.delegate);
      if v.delegate !in store.accounts || !store.accounts[v.delegate].isDelegate {
        itemsOk := false;
      }
    }
    assert votes[..|votes|] == votes;
    var total := |sender.votes| + additions - removals;
    ok := ok && itemsOk && total <= MAX_VOTES;
  }

  lemma DelegateAt(store: LedgerStore, a: Address)
    ensures Acc(store.View(), a).isDelegate <==> a in store.accounts && store.accounts[a].isDelegate
  {
    AbstractAt(store.accounts, a);
  }

  method VerifyFreeze(store: LedgerStore, height: nat, t: Transaction) returns (ok: bool)
    requires t.asset.Freeze? && t.sender in store.accounts && AIRDROP_ADDRESS in store.accounts
    ensures ok == FreezeOk(store.View(), height, t)
  {
    hide AbstractAll, AirdropFor;
    ok := !(height > PRE_ORDER_LAST_MIGRATED_BLOCK && t.asset.startVoteCount != 0);
    var sponsors := GetAirdropReward(store, t.sender, t.asset.amount, true);
    if !SameSponsors(sponsors, t.asset.stakeSponsors) {
      ok := false;
    }
    if (t.asset.amount < MONEY_FACTOR || t.asset.amount % MONEY_FACTOR != 0) && height > VERIFY_STAKE_HEIGHT {
      ok := false;
    }
  }

  /** The check before a transaction is applied, in the order the program makes it. */
  method VerifyUnconfirmed(store: LedgerStore, height: nat, t: Transaction) returns (ok: bool)
    requires t.sender in store.accounts && AIRDROP_ADDRESS in store.accounts
    ensures ok == Verified(store.View(), height, t)
  {
    hide AbstractAll, VoteOk, FreezeOk, Trim;
    store.StoredAt(t.sender);
    if t.id in store.confirmed {
      return false;
    }
    var sender := store.accounts[t.sender];
    if sender.balance < Spent(t) {
      return false;
    }
    match t.asset {
      case Register(_) =>
        assert sender.votes == [] <==> multiset(sender.votes) == multiset{};
        ok := !(sender.secondKey != None || sender.balance != 0 || sender.isDelegate || |sender.votes| != 0 ||
                |sender.referrals| != 0 || |sender.stakes| != 0);
      case Send(_, sent) =>
        ok := !(t.fee + sent >= sender.balance);
      case Signature(_) =>
        ok := sender.secondKey == None;
      case NewDelegate(username, _) =>
        ok := !sender.isDelegate && Trim(username) !in store.usernames;
      case Freeze(_, _, _) =>
        ok := VerifyFreeze(store, height, t);
      case Vote(_, _, _, _) =>
        ok := VerifyVote(store, height, t);
    }
  }
}
