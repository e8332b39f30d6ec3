/** Balances stay non-negative, and airdrops stay within their bounds. */
module Solvent {
  import opened Model
  import opened Transactions
  import opened Verify

  function SumRewards(s: seq<Sponsor>): int {
    if s == [] then 0 else SumRewards(s[..|s| - 1]) + s[|s| - 1].reward
  }

  predicate RewardsPositive(s: seq<Sponsor>) {
    forall i :: 0 <= i < |s| ==> s[i].reward >= 0
  }

  // ---------- the airdrop the check computes ----------

  lemma {:induction false} SetSponsorAt(s: seq<Sponsor>, a: Address, reward: int, p: Sponsor)
    requires DistinctSponsors(s)
    ensures p in SetSponsor(s, a, reward) <==> p == Sponsor(a, reward) || (p in s && p.address != a)
  {
    if s != [] {
      var init, last := s[..|s| - 1], s[|s| - 1];
      assert s == init + [last];
      if exists i :: 0 <= i < |init| && init[i].address == a {
        SetSponsorAt(init, a, reward, p);
      } else {
        assert p in init ==> p.address != a;
      }
    }
  }

  lemma {:induction false} SetSponsorDistinct(s: seq<Sponsor>, a: Address, reward: int)
    requires DistinctSponsors(s)
    ensures DistinctSponsors(SetSponsor(s, a, reward))
  {
    if s != [] {
      var init, last := s[..|s| - 1], s[|s| - 1];
      if exists i :: 0 <= i < |init| && init[i].address == a {
        SetSponsorDistinct(init, a, reward);
        var r := SetSponsor(init, a, reward);
        forall i | 0 <= i < |r|
          ensures r[i].address != last.address
        {
          assert r[i] in r;
          SetSponsorAt(init, a, reward, r[i]);
        }
      }
    }
  }

  /** Setting a sponsor replaces the entry of its address and changes no other. */
  lemma SetSponsorShape(s: seq<Sponsor>, a: Address, reward: int)
    requires DistinctSponsors(s)
    ensures DistinctSponsors(SetSponsor(s, a, reward))
    ensures forall p :: p in SetSponsor(s, a, reward) <==> p == Sponsor(a, reward) || (p in s && p.address != a)
  {
    hide SetSponsor, DistinctSponsors;
    SetSponsorDistinct(s, a, reward);
    forall p
      ensures p in SetSponsor(s, a, reward) <==> p == Sponsor(a, reward) || (p in s && p.address != a)
    {
      SetSponsorAt(s, a, reward, p);
    }
  }

  lemma {:induction false} SetSponsorKeeps(s: seq<Sponsor>, a: Address, reward: int)
    requires RewardsPositive(s) && reward >= 0
    ensures RewardsPositive(SetSponsor(s, a, reward))
    ensures SumRewards(SetSponsor(s, a, reward)) <= SumRewards(s) + reward
  {
    if s != [] {
      var init, last := s[..|s| - 1], s[|s| - 1];
      var r := SetSponsor(s, a, reward);
      if exists i :: 0 <= i < |init| && init[i].address == a {
        SetSponsorKeeps(init, a, reward);
        assert r[..|r| - 1] == SetSponsor(init, a, reward);
      } else if last.address == a {
        assert r[..|r| - 1] == init;
      } else {
        assert r[..|r| - 1] == s;
      }
    }
  }

  /** The rewards of the first `n` levels take at most this share of the amount. */
  function PermilleSum(n: nat): nat {
    if n == 0 then 0 else PermilleSum(n - 1) + Permille(n - 1)
  }

  lemma Distribute(a: nat, b: nat, n: int)
    requires n >= 0
    ensures (a + b) * n == a * n + b * n && b * n >= 0
  {
  }

  lemma {:induction false} LevelRewardsBounds(referrals: seq<Address>, amount: int)
    requires amount >= 0
    ensures var (sponsors, total) := LevelRewards(referrals, amount);
      && DistinctSponsors(sponsors) && RewardsPositive(sponsors)
      && SumRewards(sponsors) <= total
      && PermilleSum(|referrals|) * amount <= 1000 * total <= PermilleSum(|referrals|) * amount + 999 * |referrals|
  {
    hide SumRewards, SetSponsor, Permille, DistinctSponsors, RewardsPositive;
    if referrals != [] {
      var i := |referrals| - 1;
      LevelRewardsBounds(referrals[..i], amount);
      Distribute(PermilleSum(i), Permille(i), amount);
      SetSponsorShape(LevelRewards(referrals[..i], amount).0, referrals[i], LevelReward(i, amount));
      SetSponsorKeeps(LevelRewards(referrals[..i], amount).0, referrals[i], LevelReward(i, amount));
    } else {
      NoRewards();
    }
  }

  lemma NoRewards()
    ensures SumRewards([]) == 0 && DistinctSponsors([]) && RewardsPositive([])
  {
  }

  lemma PermilleTotal()
    ensures PermilleSum(REFERRAL_MAX_COUNT) == 200
  {
    assert PermilleSum(1) == 50;
    assert PermilleSum(2) == 80;
    assert PermilleSum(3) == 100;
    assert PermilleSum(4) == 120;
    assert PermilleSum(5) == 130;
    assert PermilleSum(6) == 140;
    assert PermilleSum(7) == 150;
    assert PermilleSum(8) == 159;
    assert PermilleSum(9) == 167;
    assert PermilleSum(10) == 174;
    assert PermilleSum(11) == 180;
    assert PermilleSum(12) == 185;
    assert PermilleSum(13) == 190;
    assert PermilleSum(14) == 195;
  }

  lemma {:induction false} PermilleGrows(m: nat, n: nat)
    requires m <= n
    ensures PermilleSum(m) <= PermilleSum(n)
  {
    if m < n {
      PermilleGrows(m, n - 1);
    }
  }

  /** The levels of a chain of the length kept take less than a fifth of the amount
      and one unit for each sponsor. */
  lemma LevelsBelowFifth(referrals: seq<Address>, amount: int)
    requires amount >= 0 && 0 < |referrals| <= REFERRAL_MAX_COUNT
    ensures 1000 * LevelRewards(referrals, amount).1 < 200 * amount + 1000 * |referrals|
  {
    hide LevelRewards, PermilleSum;
    LevelRewardsBounds(referrals, amount);
    PermilleTotal();
    PermilleGrows(|referrals|, REFERRAL_MAX_COUNT);
    var short := PermilleSum(|referrals|);
    Distribute(short, 200 - short, amount);
  }

  /** Every referral chain is cut to the length that the rewards are laid out for. */
  ghost predicate ChainsShort(l: Ledger) {
    forall a :: |Acc(l, a).referrals| <= REFERRAL_MAX_COUNT
  }

  /** Whatever is applied, checked or not, keeps the chains short: a registration
      cuts the chain it takes over. */
  lemma ChainsKept(l: Ledger, t: Transaction)
    requires ChainsShort(l)
    ensures ChainsShort(ApplyUnconfirmed(l, t)) && ChainsShort(UndoUnconfirmed(l, t))
  {
    hide ApplyUnconfirmed, UndoUnconfirmed, Change, Acc;
    forall a
      ensures |Acc(ApplyUnconfirmed(l, t), a).referrals| <= REFERRAL_MAX_COUNT
      ensures |Acc(UndoUnconfirmed(l, t), a).referrals| <= REFERRAL_MAX_COUNT
    {
      ApplyAt(l, t, a);
      UndoAt(l, t, a);
    }
  }

  /** MAIN: the airdrop that a verified vote carries is below a fifth of its reward
      and one unit for each sponsor; without a reward there is none. */
  lemma AirdropBelowFifth(l: Ledger, height: nat, t: Transaction)
    requires ChainsShort(l) && WellFormed(t) && t.IsUp() && Verified(l, height, t)
    ensures t.asset.reward > 0 ==>
              1000 * SumRewards(t.asset.voteSponsors) < 200 * t.asset.reward + 1000 * |Acc(l, t.sender).referrals|
    ensures t.asset.reward == 0 ==> t.asset.voteSponsors == []
  {
    hide SumRewards, LevelRewards, SameSponsors, TotalReward, TotalUnstake, DistinctSponsors, RewardsPositive, Acc;
    var x, reward := Acc(l, t.sender), t.asset.reward;
    var due := AirdropFor(l, x, reward, false);
    NoRewards();
    if reward > 0 {
      LevelRewardsBounds(x.referrals, reward);
      SameSponsorsSum(due, t.asset.voteSponsors);
      if x.referrals != [] {
        LevelsBelowFifth(x.referrals, reward);
      }
    } else if reward == 0 {
      SameAsNone(t.asset.voteSponsors);
    }
  }

  lemma SameAsNone(s: seq<Sponsor>)
    requires SameSponsors([], s)
    ensures s == []
  {
  }

  lemma AirdropPayable(l: Ledger, x: Account, amount: int, freeze: bool)
    requires amount >= 0 && Acc(l, AIRDROP_ADDRESS).balance >= 0
    ensures var s := AirdropFor(l, x, amount, freeze);
      DistinctSponsors(s) && RewardsPositive(s) && SumRewards(s) <= Acc(l, AIRDROP_ADDRESS).balance
  {
    LevelRewardsBounds(x.referrals, amount);
    if amount != 0 && x.referrals != [] && freeze {
      var s := [Sponsor(x.referrals[0], CeilDiv(amount * FREEZE_SPONSOR_PERCENT, 100))];
      assert s[..0] == [];
      assert SumRewards(s) == s[0].reward;
    }
  }

  // ---------- the airdrop the transaction carries ----------

  lemma {:induction false} SumRemove(s: seq<Sponsor>, k: nat)
    requires k < |s|
    ensures SumRewards(s[..k] + s[k + 1..]) == SumRewards(s) - s[k].reward
  {
    if k == |s| - 1 {
      assert s[..k] + s[k + 1..] == s[..k];
    } else {
      var init := s[..|s| - 1];
      SumRemove(init, k);
      var cut := s[..k] + s[k + 1..];
      assert cut[..|cut| - 1] == init[..k] + init[k + 1..];
    }
  }

  /** Both maps without one entry they share. */
  lemma SameWithout(s: seq<Sponsor>, r: seq<Sponsor>) returns (k: nat)
    requires SameSponsors(s, r) && DistinctSponsors(s) && DistinctSponsors(r) && s != []
    ensures k < |r| && r[k] == s[|s| - 1]
    ensures var cut := r[..k] + r[k + 1..];
      SameSponsors(s[..|s| - 1], cut) && DistinctSponsors(s[..|s| - 1]) && DistinctSponsors(cut)
  {
    var init, x := s[..|s| - 1], s[|s| - 1];
    assert x in r;
    k :| 0 <= k < |r| && r[k] == x;
    var cut := r[..k] + r[k + 1..];
    forall i | 0 <= i < |init|
      ensures init[i] in cut
    {
      assert s[i] in r;
      var j :| 0 <= j < |r| && r[j] == s[i];
      assert j != k;
      assert cut[if j < k then j else j - 1] == s[i];
    }
  }

  lemma PositiveWith(r: seq<Sponsor>, k: nat)
    requires k < |r| && RewardsPositive(r[..k] + r[k + 1..]) && r[k].reward >= 0
    ensures RewardsPositive(r)
  {
    var cut := r[..k] + r[k + 1..];
    forall j | 0 <= j < |r|
      ensures r[j].reward >= 0
    {
      if j != k {
        assert cut[if j < k then j else j - 1] == r[j];
      }
    }
  }

  /** Equal maps have equal sums, whatever their order. */
  lemma {:induction false} SameSponsorsSum(s: seq<Sponsor>, r: seq<Sponsor>)
    requires SameSponsors(s, r) && DistinctSponsors(s) && DistinctSponsors(r)
    ensures SumRewards(s) == SumRewards(r)
    ensures RewardsPositive(s) ==> RewardsPositive(r)
  {
    if s == [] {
      SameAsNone(r);
    } else {
      hide SameSponsors, DistinctSponsors;
      var k := SameWithout(s, r);
      SameSponsorsSum(s[..|s| - 1], r[..k] + r[k + 1..]);
      SumRemove(r, k);
      if RewardsPositive(s) {
        PositiveWith(r, k);
      }
    }
  }

  lemma {:induction false} SponsorChangeBounds(s: seq<Sponsor>, a: Address)
    requires RewardsPositive(s)
    ensures a != AIRDROP_ADDRESS ==> SponsorChange(s, a) >= 0
    ensures SponsorChange(s, a) >= -SumRewards(s)
    ensures SumRewards(s) >= 0
  {
    if s != [] {
      SponsorChangeBounds(s[..|s| - 1], a);
    }
  }

  // ---------- balances ----------

  ghost predicate StakesPositive(l: Ledger) {
    forall a, i :: 0 <= i < |Acc(l, a).stakes| ==> Acc(l, a).stakes[i].amount >= 0
  }

  /** No balance but the supply's is negative. */
  ghost predicate BalancesPositive(l: Ledger) {
    StakesPositive(l) && forall a :: a != SUPPLY_ADDRESS ==> Acc(l, a).balance >= 0
  }

  lemma {:induction false} RewardPositive(ss: seq<Stake>, now: Timestamp, height: nat)
    requires forall i :: 0 <= i < |ss| ==> ss[i].amount >= 0
    ensures TotalReward(ss, now, height) >= 0 && TotalUnstake(ss, now) >= 0
  {
    if ss != [] {
      RewardPositive(ss[..|ss| - 1], now, height);
    }
  }

  /** The airdrop account can pay what a verified transaction makes it pay. */
  lemma CarriedPayable(l: Ledger, height: nat, t: Transaction)
    requires BalancesPositive(l) && WellFormed(t) && Verified(l, height, t)
    ensures RewardsPositive(t.Sponsors()) && SumRewards(t.Sponsors()) <= Acc(l, AIRDROP_ADDRESS).balance
    ensures t.asset.Vote? ==> t.asset.reward >= 0 && t.asset.unstake >= 0
  {
    hide SumRewards, SameSponsors, AirdropFor, LevelRewards, TotalReward, TotalUnstake;
    assert Acc(l, AIRDROP_ADDRESS).balance >= 0;
    var x := Acc(l, t.sender);
    match t.asset
    case Freeze(amount, _, sponsors) =>
      AirdropPayable(l, x, amount, true);
      SameSponsorsSum(AirdropFor(l, x, amount, true), sponsors);
    case Vote(_, reward, _, sponsors) =>
      RewardPositive(x.stakes, t.createdAt, height);
      AirdropPayable(l, x, reward, false);
      SameSponsorsSum(AirdropFor(l, x, reward, false), sponsors);
    case _ => EmptySum();
  }

  lemma EmptySum()
    ensures SumRewards([]) == 0
  {
  }

  lemma ChangeBounds(l: Ledger, height: nat, t: Transaction, a: Address)
    requires BalancesPositive(l) && WellFormed(t) && Verified(l, height, t)
    requires t.sender != SUPPLY_ADDRESS && t.sender != AIRDROP_ADDRESS && a != SUPPLY_ADDRESS
    ensures Acc(l, a).balance + Change(t, a) >= 0
  {
    hide SumRewards, SponsorChange, FreezeOk, VoteOk, Normal;
    CarriedPayable(l, height, t);
    SponsorChangeBounds(t.Sponsors(), a);
  }

  /** MAIN: a verified transaction of an ordinary sender leaves no balance but the
      supply's below zero; the airdrop account too pays no more than it holds. */
  lemma BalancesKept(l: Ledger, height: nat, t: Transaction)
    requires BalancesPositive(l) && WellFormed(t) && Verified(l, height, t)
    requires t.sender != SUPPLY_ADDRESS && t.sender != AIRDROP_ADDRESS
    ensures BalancesPositive(ApplyUnconfirmed(l, t))
  {
    hide ApplyUnconfirmed, Verified, Change, VoteOk, ReferralsRead;
    var m := ApplyUnconfirmed(l, t);
    forall a | a != SUPPLY_ADDRESS
      ensures Acc(m, a).balance >= 0
    {
      ApplyAt(l, t, a);
      ChangeBounds(l, height, t, a);
    }
    forall a, i | 0 <= i < |Acc(m, a).stakes|
      ensures Acc(m, a).stakes[i].amount >= 0
    {
      ApplyAt(l, t, a);
      if i < |Acc(l, a).stakes| {
        assert Acc(l, a).stakes[i].amount >= 0;
      }
    }
  }
}
