/** Which sponsor of an account an airdrop pays, and how much, in plain numbers. */
module Airdrops {
  import opened Model
  import opened Transactions
  import opened Verify
  import opened Solvent

  /** What each level of sponsors gets of a vote's reward, in thousandths. */
  const LEVELS: seq<nat> := [50, 30, 20, 20, 10, 10, 10, 9, 8, 7, 6, 5, 5, 5, 5]

  /** The least amount that is `part` of `whole` parts. */
  predicate IsPart(r: int, amount: int, part: int, whole: int) {
    whole * (r - 1) < part * amount <= whole * r
  }

  lemma LevelIs(i: nat, amount: int)
    requires i < 15
    ensures IsPart(LevelReward(i, amount), amount, [50, 30, 20, 20, 10, 10, 10, 9, 8, 7, 6, 5, 5, 5, 5][i], 1000)
  {
  }

  // ---------- stakes ----------

  /** MAIN: a stake pays a tenth, rounded up, to the first sponsor and to nobody else, or
      nothing when the airdrop account holds less. */
  lemma StakePays(l: Ledger, x: Account, amount: int)
    requires amount > 0
    ensures var s := AirdropFor(l, x, amount, true);
      && |s| <= 1 && (x.referrals == [] ==> s == [])
      && (|s| == 1 ==> s[0].address == x.referrals[0] && IsPart(s[0].reward, amount, 10, 100))
      && (x.referrals != [] ==>
            (s == [] <==> exists r: int :: IsPart(r, amount, 10, 100) && Acc(l, AIRDROP_ADDRESS).balance < r))
  {
    if x.referrals != [] {
      var r := CeilDiv(amount * FREEZE_SPONSOR_PERCENT, 100);
      assert IsPart(r, amount, 10, 100);
      forall q: int | IsPart(q, amount, 10, 100)
        ensures q == r
      {
        OnePart(q, r, amount, 10, 100);
      }
    }
  }

  lemma OnePart(q: int, r: int, amount: int, part: int, whole: int)
    requires whole > 0 && IsPart(q, amount, part, whole) && IsPart(r, amount, part, whole)
    ensures q == r
  {
    Grows(whole, q, r - 1);
    Grows(whole, r, q - 1);
  }

  lemma {:induction false} Grows(n: int, a: int, b: int)
    requires n > 0
    ensures a <= b ==> n * a <= n * b
    decreases b - a
  {
    if a < b {
      Grows(n, a, b - 1);
      Next(n, b);
    }
  }

  lemma Next(n: int, b: int)
    ensures n * b == n * (b - 1) + n
  {
  }

  // ---------- votes ----------

  /** No later level has the same sponsor. */
  predicate LastLevel(referrals: seq<Address>, i: nat) {
    i < |referrals| && forall j :: i < j < |referrals| ==> referrals[j] != referrals[i]
  }

  lemma {:induction false} LevelPaid(referrals: seq<Address>, amount: int, i: nat)
    requires amount >= 0 && LastLevel(referrals, i)
    ensures Sponsor(referrals[i], LevelReward(i, amount)) in LevelRewards(referrals, amount).0
  {
    hide SetSponsor, LevelReward;
    var n := |referrals| - 1;
    var init := referrals[..n];
    LevelRewardsBounds(init, amount);
    SetSponsorShape(LevelRewards(init, amount).0, referrals[n], LevelReward(n, amount));
    if i < n {
      LevelPaid(init, amount, i);
    }
  }

  lemma {:induction false} PaidLevel(referrals: seq<Address>, amount: int, p: Sponsor) returns (i: nat)
    requires amount >= 0 && p in LevelRewards(referrals, amount).0
    ensures LastLevel(referrals, i) && p == Sponsor(referrals[i], LevelReward(i, amount))
  {
    hide SetSponsor, LevelReward;
    var n := |referrals| - 1;
    var init := referrals[..n];
    LevelRewardsBounds(init, amount);
    SetSponsorShape(LevelRewards(init, amount).0, referrals[n], LevelReward(n, amount));
    if p == Sponsor(referrals[n], LevelReward(n, amount)) {
      i := n;
    } else {
      i := PaidLevel(init, amount, p);
    }
  }

  /** What the first levels get together. */
  function LevelSum(n: nat, amount: int): int {
    if n == 0 then 0 else LevelSum(n - 1, amount) + CeilDiv((if n <= 15 then LEVELS[n - 1] else 0) * amount, 1000)
  }

  lemma {:induction false} LevelTotal(referrals: seq<Address>, amount: int)
    ensures LevelRewards(referrals, amount).1 == LevelSum(|referrals|, amount)
  {
    hide SetSponsor;
    if referrals != [] {
      LevelTotal(referrals[..|referrals| - 1], amount);
    }
  }

  /** MAIN: a vote's reward pays each sponsor the thousandths of its last level, rounded
      up, or nobody when the airdrop account holds less than all levels together. */
  lemma VotePays(l: Ledger, x: Account, amount: int, p: Sponsor) returns (i: nat)
    requires amount > 0 && 0 < |x.referrals| <= 15
    ensures var s := AirdropFor(l, x, amount, false);
      && (s == [] <==> Acc(l, AIRDROP_ADDRESS).balance < LevelSum(|x.referrals|, amount))
      && (s != [] ==>
            (p in s ==> LastLevel(x.referrals, i) && p.address == x.referrals[i] && IsPart(p.reward, amount, LEVELS[i], 1000))
            && forall k: nat :: LastLevel(x.referrals, k) ==>
                 k < |LEVELS| && exists r: int :: IsPart(r, amount, LEVELS[k], 1000) && Sponsor(x.referrals[k], r) in s)
  {
    hide LevelReward, LevelRewards, LastLevel, IsPart, LevelSum;
    i := 0;
    var s := LevelRewards(x.referrals, amount).0;
    LevelTotal(x.referrals, amount);
    if p in s {
      i := PaidLevel(x.referrals, amount, p);
      LastIn(x.referrals, i);
      LevelIs(i, amount);
    }
    forall k: nat | LastLevel(x.referrals, k)
      ensures k < |x.referrals| && IsPart(LevelReward(k, amount), amount, LEVELS[k], 1000) && Sponsor(x.referrals[k], LevelReward(k, amount)) in s
    {
      LastIn(x.referrals, k);
      LevelPaid(x.referrals, amount, k);
      LevelIs(k, amount);
    }
    LastOne(x.referrals);
  }

  lemma LastIn(referrals: seq<Address>, i: nat)
    requires LastLevel(referrals, i)
    ensures i < |referrals|
  {
  }

  lemma LastOne(referrals: seq<Address>)
    requires referrals != []
    ensures LastLevel(referrals, |referrals| - 1)
  {
  }
}
