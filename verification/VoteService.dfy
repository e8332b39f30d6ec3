/** core/service/transaction/vote.ts: votes, the stakes they count for, and the
    rewards and airdrops they pay. */
module VoteService {
  import opened Model
  import opened Transactions
  import opened Verify
  import opened Store
  import opened VoteLists
  import opened RewardService
  import opened Services
  import opened Caught

  // ---------- tallies ----------

  lemma TallyNone(ds: map<Address, Delegate>, k: int)
    ensures Tally(ds, multiset{}, k) == ds
  {
  }

  lemma OneKeyMore(k: int, n: nat)
    ensures k * (n + 1) == k * n + k
  {
  }

  lemma TallyAt(ds: map<Address, Delegate>, keys: multiset<Address>, k: int, e: Address)
    requires e in ds
    ensures Tally(ds, keys, k).Keys == ds.Keys && Tally(ds, keys, k)[e] == AddVotes(ds[e], k * keys[e])
  {
  }

  lemma TallyOne(ds: map<Address, Delegate>, keys: multiset<Address>, d: Address, k: int)
    requires d in ds
    ensures var m := Tally(ds, keys, k);
      d in m && m[d := AddVotes(m[d], k)] == Tally(ds, keys + multiset{d}, k)
  {
    hide Tally;
    var m := Tally(ds, keys, k);
    var n := Tally(ds, keys + multiset{d}, k);
    TallyAt(ds, keys, k, d);
    TallyAt(ds, keys + multiset{d}, k, d);
    forall e | e in ds
      ensures m[d := AddVotes(m[d], k)][e] == n[e]
    {
      TallyAt(ds, keys, k, e);
      TallyAt(ds, keys + multiset{d}, k, e);
      OneKeyMore(k, keys[e]);
    }
  }

  /** Count the keys up (k = 1) or down (k = -1), one delegate at a time. */
  method CountKeys(store: LedgerStore, keys: seq<Address>, k: int)
    requires forall i :: 0 <= i < |keys| ==> keys[i] in store.delegates
    modifies store`delegates
    ensures store.delegates == Tally(old(store.delegates), multiset(keys), k)
  {
    hide Tally;
    TallyNone(store.delegates, k);
    ghost var ds := store.delegates;
    for i := 0 to |keys|
      invariant store.delegates == Tally(ds, multiset(keys[..i]), k)
    {
      assert keys[..i + 1] == keys[..i] + [keys[i]];
      var d := keys[i];
      TallyOne(ds, multiset(keys[..i]), d, k);
      store.delegates := store.delegates[d := AddVotes(store.delegates[d], k)];
    }
    assert keys[..|keys|] == keys;
  }

  /** Cut the keys out of a vote list, one after the other. */
  method CutVotes(votes: seq<Address>, keys: seq<Address>) returns (left: seq<Address>)
    ensures left == CutAll(votes, keys)
  {
    left := votes;
    for i := 0 to |keys|
      invariant left == CutAll(votes, keys[..i])
    {
      assert keys[..i + 1][..i] == keys[..i];
      left := CutOut(left, keys[i]);
    }
    assert keys[..|keys|] == keys;
  }

  /** Count the keys until one is no delegate; there the program throws. */
  method CountUntil(store: LedgerStore, keys: seq<Address>, k: int) returns (reached: nat)
    modifies store`delegates
    ensures reached == FirstMissing(old(store.delegates), keys)
    ensures store.delegates == Tally(old(store.delegates), multiset(keys[..reached]), k)
  {
    hide Tally;
    TallyNone(store.delegates, k);
    ghost var ds := store.delegates;
    reached := 0;
    while reached < |keys| && keys[reached] in store.delegates
      invariant reached <= |keys| && forall i :: 0 <= i < reached ==> keys[i] in ds
      invariant store.delegates == Tally(ds, multiset(keys[..reached]), k) && store.delegates.Keys == ds.Keys
    {
      assert keys[..reached + 1] == keys[..reached] + [keys[reached]];
      var d := keys[reached];
      TallyOne(ds, multiset(keys[..reached]), d, k);
      store.delegates := store.delegates[d := AddVotes(store.delegates[d], k)];
      reached := reached + 1;
    }
    MissingIs(ds, keys, reached);
  }

  lemma {:induction false} MissingIs(ds: map<Address, Delegate>, keys: seq<Address>, k: nat)
    requires k <= |keys| && (forall i :: 0 <= i < k ==> keys[i] in ds) && (k < |keys| ==> keys[k] !in ds)
    ensures FirstMissing(ds, keys) == k
  {
    if k > 0 {
      assert keys[0] in ds;
      MissingIs(ds, keys[1..], k - 1);
    }
  }

  // ---------- down-votes ----------

  lemma DownFields(t: Transaction, x: AccountData)
    requires t.IsDown()
    ensures LeaveVotes(t.sender, multiset(CutAll(x.votes, Keys(t.asset.votes))), t.sender, ApplyFields(t, [], Abstract(x)))
         == Abstract(x).(votes := multiset(CutAll(x.votes, Keys(t.asset.votes))))
  {
  }

  lemma DownUndoFields(t: Transaction, x: AccountData)
    requires t.IsDown()
    ensures UndoFields(t, Abstract(x)) == Abstract(x).(votes := multiset(x.votes + Keys(t.asset.votes)))
  {
  }

  /** Cut the keys of a down-vote out of the list; one that is not there takes the
      last entry with it. */
  method DownApply(store: LedgerStore, t: Transaction)
    requires t.IsDown() && Ready(store, t)
    modifies store`accounts, store`delegates
    ensures store.accounts.Keys == old(store.accounts.Keys)
    ensures ServedLeaving(old(store.View()), store.View(), t,
                          multiset(CutAll(old(store.accounts[t.sender].votes), Keys(t.asset.votes))))
  {
    hide Acc, Abstract, AbstractAll, ApplyFields, ApplyWith, AssetChange, ReferralsRead, Tally, CutAll;
    ghost var before := store.View();
    var keys := Keys(t.asset.votes);
    store.StoredAt(t.sender);
    DownFields(t, store.accounts[t.sender]);
    CountKeys(store, keys, -1);
    SameAccounts(before, store.View());
    var left := CutVotes(store.accounts[t.sender].votes, keys);
    store.SetVotes(t.sender, left);
    DownServes(before, store.View(), t, multiset(left));
  }

  lemma DownServes(l: Ledger, m: Ledger, t: Transaction, left: multiset<Address>)
    requires t.IsDown()
    requires forall b :: Acc(m, b) == if b == t.sender then Acc(l, b).(votes := left) else Acc(l, b)
    ensures forall b :: Acc(m, b) ==
              LeaveVotes(t.sender, left, b, ApplyWith(t, ReferralsRead(l, t), b, AssetChange(t, b), Acc(l, b)))
  {
    hide Acc;
  }

  /** Put the keys back and count them; a delegate that is gone throws. */
  method DownUndo(store: LedgerStore, t: Transaction) returns (threw: bool)
    requires t.IsDown() && ReadyUndo(store, t)
    modifies store`accounts, store`delegates
    ensures store.accounts.Keys == old(store.accounts.Keys)
    ensures threw <==> FirstMissing(old(store.delegates), Keys(t.asset.votes)) < |t.asset.votes|
    ensures !threw ==> Unserved(old(store.View()), store.View(), t)
    ensures threw ==> ThrownAt(old(store.View()), store.View(), t,
                               multiset(old(store.accounts[t.sender].votes) + Keys(t.asset.votes)))
  {
    hide Acc, Abstract, AbstractAll, UndoFields, UndoWith, AssetChange, Tally, FirstMissing;
    ghost var before := store.View();
    var keys := Keys(t.asset.votes);
    store.StoredAt(t.sender);
    DownUndoFields(t, store.accounts[t.sender]);
    store.SetVotes(t.sender, store.accounts[t.sender].votes + keys);
    ghost var listed := store.View();
    var reached := CountUntil(store, keys, 1);
    SameAccounts(listed, store.View());
    threw := reached < |keys|;
    if !threw {
      assert keys[..reached] == keys;
      FieldsUnserve(before, store.View(), t);
    }
  }

  // ---------- up-votes ----------

  /** A due stake with the vote counted and the milestone moved, but not released. */
  function CountVote(s: Stake, now: Timestamp): Stake {
    s.(voteCount := s.voteCount + 1, previous := s.previous + [s.next.GetOr(0)], next := Some(now + VOTE_MILESTONE))
  }

  /** Count the vote on every due stake; `processed` are the places of those. */
  method CountOnStakes(stakes: seq<Stake>, now: Timestamp) returns (counted: seq<Stake>, processed: seq<nat>)
    ensures |counted| == |stakes|
    ensures forall i :: 0 <= i < |stakes| ==> counted[i] == if Due(stakes[i], now) then CountVote(stakes[i], now) else stakes[i]
    ensures forall j :: 0 <= j < |processed| ==> processed[j] < |stakes| && Due(stakes[processed[j]], now)
    ensures forall i :: 0 <= i < |stakes| && Due(stakes[i], now) ==> i in processed
  {
    counted, processed := stakes, [];
    for i := 0 to |stakes|
      invariant |counted| == |stakes|
      invariant forall k :: 0 <= k < i ==> counted[k] == if Due(stakes[k], now) then CountVote(stakes[k], now) else stakes[k]
      invariant forall k :: i <= k < |stakes| ==> counted[k] == stakes[k]
      invariant forall j :: 0 <= j < |processed| ==> processed[j] < i && Due(stakes[processed[j]], now)
      invariant forall k :: 0 <= k < i && Due(stakes[k], now) ==> k in processed
    {
      if Due(stakes[i], now) {
        counted := counted[i := CountVote(stakes[i], now)];
        processed := processed + [i];
      }
    }
  }

  /** Release the processed stakes that reached the last vote count. */
  method ReleaseStakes(counted: seq<Stake>, processed: seq<nat>) returns (released: seq<Stake>)
    requires forall j :: 0 <= j < |processed| ==> processed[j] < |counted|
    ensures |released| == |counted|
    ensures forall i :: 0 <= i < |counted| ==>
              released[i] == if i in processed && counted[i].voteCount == UNSTAKE_VOTE_COUNT
                             then counted[i].(isActive := false) else counted[i]
  {
    released := counted;
    for j := 0 to |processed|
      invariant |released| == |counted|
      invariant forall i :: 0 <= i < |counted| ==>
                  released[i] == if i in processed[..j] && counted[i].voteCount == UNSTAKE_VOTE_COUNT
                                 then counted[i].(isActive := false) else counted[i]
    {
      assert processed[..j + 1] == processed[..j] + [processed[j]];
      var i := processed[j];
      if released[i].voteCount == UNSTAKE_VOTE_COUNT {
        released := released[i := released[i].(isActive := false)];
      }
    }
    assert processed[..|processed|] == processed;
  }

  lemma ReleasedAreRipe(stakes: seq<Stake>, counted: seq<Stake>, processed: seq<nat>, released: seq<Stake>, now: Timestamp)
    requires |counted| == |stakes| && |released| == |stakes|
    requires forall i :: 0 <= i < |stakes| ==> counted[i] == if Due(stakes[i], now) then CountVote(stakes[i], now) else stakes[i]
    requires forall j :: 0 <= j < |processed| ==> processed[j] < |stakes| && Due(stakes[processed[j]], now)
    requires forall i :: 0 <= i < |stakes| && Due(stakes[i], now) ==> i in processed
    requires forall i :: 0 <= i < |counted| ==>
               released[i] == if i in processed && counted[i].voteCount == UNSTAKE_VOTE_COUNT
                              then counted[i].(isActive := false) else counted[i]
    ensures released == RipenAll(stakes, now)
  {
    forall i | 0 <= i < |stakes|
      ensures released[i] == Ripen(stakes[i], now)
    {
      assert i in processed <==> Due(stakes[i], now);
    }
  }

  lemma UpFields(t: Transaction, x: Account)
    requires t.IsUp()
    ensures ApplyFields(t, [], x) == x.(votes := x.votes + VoteKeys(t)).(stakes := RipenAll(x.stakes, t.createdAt))
    ensures UndoFields(t, x) == x.(votes := x.votes - VoteKeys(t)).(stakes := UnripenAll(x.stakes, t.createdAt))
  {
  }

  lemma UpTotal(t: Transaction)
    requires t.IsUp()
    ensures forall b :: AssetChange(t, b) == OwnChange(t, b) + SponsorChange(t.asset.voteSponsors, b)
  {
  }

  method ApplyRewards(store: LedgerStore, t: Transaction)
    requires t.asset.Vote? && t.sender in store.accounts && SUPPLY_ADDRESS in store.accounts
    modifies store`accounts
    ensures store.accounts.Keys == old(store.accounts.Keys)
    ensures store.accounts[t.sender].stakes == old(store.accounts[t.sender].stakes)
    ensures Shifted(old(store.View()), store.View(),
                    (b: Address) => At(t.sender, b, t.asset.reward) + At(SUPPLY_ADDRESS, b, -t.asset.reward))
  {
    hide Shifted, Abstract, AbstractAll;
    ghost var before := store.View();
    store.AddBalance(t.sender, t.asset.reward);
    ghost var middle := store.View();
    store.AddBalance(SUPPLY_ADDRESS, -t.asset.reward);
    ShiftTwice(before, middle, store.View(), (b: Address) => At(t.sender, b, t.asset.reward),
               (b: Address) => At(SUPPLY_ADDRESS, b, -t.asset.reward),
               (b: Address) => At(t.sender, b, t.asset.reward) + At(SUPPLY_ADDRESS, b, -t.asset.reward));
  }

  /** What a vote adds to balances besides the airdrop. */
  function OwnChange(t: Transaction, b: Address): int
    requires t.asset.Vote?
  {
    At(t.sender, b, t.asset.reward) + At(SUPPLY_ADDRESS, b, -t.asset.reward) + At(t.sender, b, t.asset.unstake)
  }

  /** Pay the reward, release the processed stakes and pay back their amount. */
  method ApplyRewardAndUnstake(store: LedgerStore, t: Transaction, processed: seq<nat>) returns (ghost released: seq<Stake>)
    requires t.IsUp() && t.sender in store.accounts && SUPPLY_ADDRESS in store.accounts
    requires forall j :: 0 <= j < |processed| ==> processed[j] < |store.accounts[t.sender].stakes|
    modifies store`accounts
    ensures store.accounts.Keys == old(store.accounts.Keys)
    ensures var counted := old(store.accounts[t.sender].stakes);
      && |released| == |counted|
      && forall i :: 0 <= i < |counted| ==>
              released[i] == if i in processed && counted[i].voteCount == UNSTAKE_VOTE_COUNT
                             then counted[i].(isActive := false) else counted[i]
    ensures Reworked(old(store.View()), store.View(), t.sender,
                     Acc(old(store.View()), t.sender).(stakes := released), (b: Address) => OwnChange(t, b))
  {
    hide Acc, Abstract, AbstractAll, Reworked, Shifted;
    ghost var before := store.View();
    ghost var x := Acc(before, t.sender);
    ghost var none := (b: Address) => 0;
    ghost var reward := (b: Address) => At(t.sender, b, t.asset.reward) + At(SUPPLY_ADDRESS, b, -t.asset.reward);
    ReworkedStart(before, before, t.sender, x, none);
    ApplyRewards(store, t);
    ghost var rewarded := store.View();
    ReworkedShift(before, before, rewarded, t.sender, x, none, reward, reward);
    var left := ReleaseStakes(store.accounts[t.sender].stakes, processed);
    store.SetStakes(t.sender, left);
    ghost var freed := store.View();
    ReworkedCore(before, rewarded, freed, t.sender, x, left, reward);
    store.AddBalance(t.sender, t.asset.unstake);
    ReworkedShift(before, freed, store.View(), t.sender, x.(stakes := left), reward,
                  (b: Address) => At(t.sender, b, t.asset.unstake), (b: Address) => OwnChange(t, b));
    released := left;
  }

  /** Two changes of the sender's account one after the other. */
  lemma ReworkedThen(l: Ledger, m: Ledger, n: Ledger, who: Address, core: Account, stakes: seq<Stake>, f: Address -> int)
    requires forall b :: Acc(m, b) == if b == who then core else Acc(l, b)
    requires Reworked(m, n, who, Acc(m, who).(stakes := stakes), f)
    ensures Reworked(l, n, who, core.(stakes := stakes), f)
  {
    hide Acc;
  }

  /** Add the keys to the sender's list and count them for their delegates. */
  method AddVoteKeys(store: LedgerStore, t: Transaction)
    requires t.IsUp() && Ready(store, t)
    modifies store`accounts, store`delegates
    ensures store.accounts.Keys == old(store.accounts.Keys)
    ensures store.accounts[t.sender].stakes == old(store.accounts[t.sender].stakes)
    ensures store.delegates == ApplyDelegates(old(store.delegates), t)
    ensures forall b :: Acc(store.View(), b) ==
              if b == t.sender then Acc(old(store.View()), b).(votes := Acc(old(store.View()), b).votes + VoteKeys(t))
              else Acc(old(store.View()), b)
  {
    hide Acc, Abstract, AbstractAll, Tally;
    ghost var before := store.View();
    var keys := Keys(t.asset.votes);
    store.StoredAt(t.sender);
    StakesOf(store.accounts[t.sender]);
    CountKeys(store, keys, 1);
    SameAccounts(before, store.View());
    store.SetVotes(t.sender, store.accounts[t.sender].votes + keys);
  }

  method UpApply(store: LedgerStore, t: Transaction)
    requires t.IsUp() && Ready(store, t)
    modifies store`accounts, store`delegates
    ensures store.accounts.Keys == old(store.accounts.Keys)
    ensures Served(old(store.View()), store.View(), t)
  {
    hide Acc, Abstract, AbstractAll, ApplyFields, ApplyWith, AssetChange, ReferralsRead, ApplyDelegates, Reworked, Shifted,
      SponsorChange, RipenAll, CountVote, VoteKeys, OwnChange;
    ghost var before := store.View();
    ghost var x := Acc(before, t.sender);
    store.StoredAt(t.sender);
    StakesOf(store.accounts[t.sender]);
    UpFields(t, x);
    AddVoteKeys(store, t);
    ghost var core := x.(votes := x.votes + VoteKeys(t));
    ghost var listed := store.View();

    var stakes := store.accounts[t.sender].stakes;
    var counted, processed := CountOnStakes(stakes, t.createdAt);
    store.SetStakes(t.sender, counted);
    ghost var staked := store.View();
    var released := ApplyRewardAndUnstake(store, t, processed);
    ReleasedAreRipe(stakes, counted, processed, released, t.createdAt);
    ghost var unstaked := store.View();
    ghost var own := (b: Address) => OwnChange(t, b);
    ReworkedThen(before, staked, unstaked, t.sender, core.(stakes := counted), released, own);

    SendAirdropReward(store, t.asset.voteSponsors);
    ghost var all := (b: Address) => AssetChange(t, b);
    UpTotal(t);
    ReworkedShift(before, unstaked, store.View(), t.sender, core.(stakes := released), own,
                  (b: Address) => SponsorChange(t.asset.voteSponsors, b), all);
    ReworkedServes(before, store.View(), t, all);
  }

  // ---------- undoing an up-vote ----------

  /** Take the keys off the sender's list and off their delegates, one by one; a
      delegate that is gone throws. */
  method DropVoteKeys(store: LedgerStore, t: Transaction) returns (threw: bool)
    requires t.IsUp() && t.sender in store.accounts
    modifies store`accounts, store`delegates
    ensures store.accounts.Keys == old(store.accounts.Keys)
    ensures store.accounts[t.sender].stakes == old(store.accounts[t.sender].stakes)
    ensures threw <==> FirstMissing(old(store.delegates), Keys(t.asset.votes)) < |t.asset.votes|
    ensures store.delegates == Tally(old(store.delegates), multiset(Reached(old(store.delegates), t)), -1)
    ensures forall b :: Acc(store.View(), b) ==
              LeaveVotes(t.sender, multiset(CutUntil(old(store.delegates), t, old(store.accounts[t.sender].votes))), b,
                         Acc(old(store.View()), b))
  {
    hide Acc, Abstract, AbstractAll, Tally, CutAll, FirstMissing;
    ghost var before := store.View();
    ghost var ds := store.delegates;
    var keys := Keys(t.asset.votes);
    var left := store.accounts[t.sender].votes;
    TallyNone(ds, -1);
    assert keys[..0] == [] && CutAll(left, keys[..0]) == left by { CutNone(left); }
    var i := 0;
    threw := false;
    while i < |keys| && !threw
      invariant i <= |keys| && store.accounts == old(store.accounts) && store.delegates.Keys == ds.Keys
      invariant forall j :: 0 <= j < i ==> keys[j] in ds
      invariant threw ==> i < |keys| && keys[i] !in ds
      invariant store.delegates == Tally(ds, multiset(keys[..i]), -1)
      invariant left == CutAll(old(store.accounts[t.sender].votes), if threw then keys[..i + 1] else keys[..i])
      decreases |keys| - i, !threw
    {
      var d := keys[i];
      assert keys[..i + 1] == keys[..i] + [d];
      CutNext(old(store.accounts[t.sender].votes), keys, i);
      left := CutOut(left, d);
      if d !in store.delegates {
        threw := true;
      } else {
        TallyOne(ds, multiset(keys[..i]), d, -1);
        store.delegates := store.delegates[d := AddVotes(store.delegates[d], -1)];
        i := i + 1;
      }
    }
    MissingIs(ds, keys, i);
    assert !threw ==> keys[..i] == keys;
    ghost var counted := store.View();
    SameAccounts(before, counted);
    store.SetVotes(t.sender, left);
  }

  lemma CutNone(s: seq<Address>)
    ensures CutAll(s, []) == s
  {
  }

  lemma CutNext(s: seq<Address>, keys: seq<Address>, i: nat)
    requires i < |keys|
    ensures CutAll(s, keys[..i + 1]) == CutOut(CutAll(s, keys[..i]), keys[i])
  {
    assert keys[..i + 1][..i] == keys[..i];
  }

  /** What is left of the list when every key, or each up to the one that throws, is cut. */
  function CutUntil(ds: map<Address, Delegate>, t: Transaction, list: seq<Address>): seq<Address>
    requires t.asset.Vote?
  {
    var keys, k := Keys(t.asset.votes), FirstMissing(ds, Keys(t.asset.votes));
    CutAll(list, if k < |keys| then keys[..k + 1] else keys)
  }

  function Revive(s: Stake, now: Timestamp): Stake {
    if Carries(s, now) then s.(isActive := true) else s
  }

  function ReviveAll(ss: seq<Stake>, now: Timestamp): seq<Stake> {
    seq(|ss|, i requires 0 <= i < |ss| => Revive(ss[i], now))
  }

  function Uncount(s: Stake, now: Timestamp): Stake {
    if s.isActive && Carries(s, now) then Unripen(s, now) else s
  }

  function UncountAll(ss: seq<Stake>, now: Timestamp): seq<Stake> {
    seq(|ss|, i requires 0 <= i < |ss| => Uncount(ss[i], now))
  }

  /** Reviving first and then uncounting the active ones undoes the vote on every stake. */
  lemma ReviveThenUncount(ss: seq<Stake>, now: Timestamp)
    ensures UncountAll(ReviveAll(ss, now), now) == UnripenAll(ss, now)
  {
    forall i | 0 <= i < |ss|
      ensures Uncount(Revive(ss[i], now), now) == Unripen(ss[i], now)
    {
    }
  }

  /** Make every stake that carries the vote's milestone active again. */
  method ReviveStakes(stakes: seq<Stake>, now: Timestamp) returns (revived: seq<Stake>)
    ensures revived == ReviveAll(stakes, now)
  {
    revived := stakes;
    for i := 0 to |stakes|
      invariant |revived| == |stakes|
      invariant forall k :: 0 <= k < i ==> revived[k] == Revive(stakes[k], now)
      invariant forall k :: i <= k < |stakes| ==> revived[k] == stakes[k]
    {
      if Carries(stakes[i], now) && !stakes[i].isActive {
        revived := revived[i := stakes[i].(isActive := true)];
      }
    }
  }

  /** Take the vote back from every active stake that carries its milestone. */
  method UncountOnStakes(revived: seq<Stake>, now: Timestamp) returns (left: seq<Stake>)
    ensures left == UncountAll(revived, now)
  {
    left := revived;
    for i := 0 to |revived|
      invariant |left| == |revived|
      invariant forall k :: 0 <= k < i ==> left[k] == Uncount(revived[k], now)
      invariant forall k :: i <= k < |revived| ==> left[k] == revived[k]
    {
      var s := revived[i];
      if s.isActive && Carries(s, now) {
        var n := |s.previous|;
        left := left[i := s.(voteCount := s.voteCount - 1,
                             next := if n == 0 then None else Some(s.previous[n - 1]),
                             previous := if n == 0 then [] else s.previous[..n - 1])];
      }
    }
  }

  method UncountVote(store: LedgerStore, t: Transaction)
    requires t.sender in store.accounts
    modifies store`accounts
    ensures store.accounts.Keys == old(store.accounts.Keys)
    ensures forall b :: Acc(store.View(), b) ==
              if b == t.sender then Acc(old(store.View()), b).(stakes := UncountAll(Acc(old(store.View()), b).stakes, t.createdAt))
              else Acc(old(store.View()), b)
  {
    hide Acc, Abstract, AbstractAll, UncountAll;
    store.StoredAt(t.sender);
    StakesOf(store.accounts[t.sender]);
    var left := UncountOnStakes(store.accounts[t.sender].stakes, t.createdAt);
    store.SetStakes(t.sender, left);
  }

  /** Revive the released stakes and take back their amount and the reward. */
  method UndoRewardAndUnstake(store: LedgerStore, t: Transaction)
    requires t.IsUp() && t.sender in store.accounts && SUPPLY_ADDRESS in store.accounts
    modifies store`accounts
    ensures store.accounts.Keys == old(store.accounts.Keys)
    ensures var x := Acc(old(store.View()), t.sender);
      Reworked(old(store.View()), store.View(), t.sender, x.(stakes := ReviveAll(x.stakes, t.createdAt)),
               (b: Address) => -OwnChange(t, b))
  {
    hide Acc, Abstract, AbstractAll, Reworked, Shifted, ReviveAll;
    ghost var before := store.View();
    ghost var x := Acc(before, t.sender);
    store.StoredAt(t.sender);
    StakesOf(store.accounts[t.sender]);
    ghost var none := (b: Address) => 0;
    ReworkedStart(before, before, t.sender, x, none);
    var again := ReviveStakes(store.accounts[t.sender].stakes, t.createdAt);
    store.SetStakes(t.sender, again);
    ghost var active := store.View();
    ReworkedCore(before, before, active, t.sender, x, again, none);
    store.AddBalance(t.sender, -t.asset.unstake);
    ghost var unstaked := store.View();
    ghost var unstake := (b: Address) => At(t.sender, b, -t.asset.unstake);
    ReworkedShift(before, active, unstaked, t.sender, x.(stakes := again), none, unstake, unstake);
    store.AddBalance(t.sender, -t.asset.reward);
    ghost var unrewarded := store.View();
    ghost var both := (b: Address) => unstake(b) + At(t.sender, b, -t.asset.reward);
    ReworkedShift(before, unstaked, unrewarded, t.sender, x.(stakes := again), unstake,
                  (b: Address) => At(t.sender, b, -t.asset.reward), both);
    store.AddBalance(SUPPLY_ADDRESS, t.asset.reward);
    ReworkedShift(before, unrewarded, store.View(), t.sender, x.(stakes := again), both,
                  (b: Address) => At(SUPPLY_ADDRESS, b, t.asset.reward), (b: Address) => -OwnChange(t, b));
  }

  /** Take back the reward, the unstake and the airdrop. */
  method UndoPayments(store: LedgerStore, t: Transaction)
    requires t.IsUp() && t.sender in store.accounts && SUPPLY_ADDRESS in store.accounts
    requires Payable(store.accounts, t.asset.voteSponsors)
    modifies store`accounts
    ensures store.accounts.Keys == old(store.accounts.Keys)
    ensures var x := Acc(old(store.View()), t.sender);
      Reworked(old(store.View()), store.View(), t.sender, x.(stakes := ReviveAll(x.stakes, t.createdAt)),
               (b: Address) => -AssetChange(t, b))
  {
    hide Acc, Abstract, AbstractAll, AssetChange, Reworked, Shifted, SponsorChange, ReviveAll, OwnChange;
    ghost var before := store.View();
    ghost var x := Acc(before, t.sender);
    UndoRewardAndUnstake(store, t);
    ghost var unrewarded := store.View();
    UndoAirdropReward(store, t.asset.voteSponsors);
    UpTotal(t);
    ReworkedShift(before, unrewarded, store.View(), t.sender, x.(stakes := ReviveAll(x.stakes, t.createdAt)),
                  (b: Address) => -OwnChange(t, b), (b: Address) => -SponsorChange(t.asset.voteSponsors, b),
                  (b: Address) => -AssetChange(t, b));
  }

  /** Undo an up-vote. When a delegate is gone it throws before anything but keys was
      taken back. */
  method UpUndo(store: LedgerStore, t: Transaction) returns (threw: bool)
    requires t.IsUp() && ReadyUndo(store, t)
    modifies store`accounts, store`delegates
    ensures store.accounts.Keys == old(store.accounts.Keys)
    ensures threw <==> FirstMissing(old(store.delegates), Keys(t.asset.votes)) < |t.asset.votes|
    ensures var left := multiset(CutUntil(old(store.delegates), t, old(store.accounts[t.sender].votes)));
      if threw then ThrownAt(old(store.View()), store.View(), t, left) else UnservedLeaving(old(store.View()), store.View(), t, left)
  {
    hide Acc, Abstract, AbstractAll, UndoFields, UndoWith, AssetChange, Reworked, Tally, FirstMissing,
      UnripenAll, ReviveAll, UncountAll, CutUntil;
    ghost var before := store.View();
    threw := DropVoteKeys(store, t);
    if threw {
      return;
    }
    AllReached(old(store.delegates), t);
    ghost var cut := store.View();
    UndoPayments(store, t);
    ghost var unpaid := store.View();
    UncountVote(store, t);
    UpUndone(before, cut, unpaid, store.View(), t,
             multiset(CutUntil(old(store.delegates), t, old(store.accounts[t.sender].votes))));
  }

  lemma AllReached(ds: map<Address, Delegate>, t: Transaction)
    requires t.asset.Vote? && FirstMissing(ds, Keys(t.asset.votes)) >= |t.asset.votes|
    ensures multiset(Reached(ds, t)) == VoteKeys(t)
  {
    assert Keys(t.asset.votes)[..|t.asset.votes|] == Keys(t.asset.votes);
  }

  /** The three steps of undoing an up-vote together. */
  lemma UpUndone(before: Ledger, cut: Ledger, unpaid: Ledger, after: Ledger, t: Transaction, left: multiset<Address>)
    requires t.IsUp()
    requires forall b :: Acc(cut, b) == LeaveVotes(t.sender, left, b, Acc(before, b))
    requires Reworked(cut, unpaid, t.sender, Acc(cut, t.sender).(stakes := ReviveAll(Acc(cut, t.sender).stakes, t.createdAt)),
                      (b: Address) => -AssetChange(t, b))
    requires forall b :: Acc(after, b) ==
               if b == t.sender then Acc(unpaid, b).(stakes := UncountAll(Acc(unpaid, b).stakes, t.createdAt)) else Acc(unpaid, b)
    ensures forall b :: Acc(after, b) == LeaveVotes(t.sender, left, b, UndoWith(t, b, -AssetChange(t, b), Acc(before, b)))
  {
    hide Acc, UndoFields, UndoWith, AssetChange, Reworked, UnripenAll, ReviveAll, UncountAll, VoteKeys;
    var x := Acc(before, t.sender);
    var core := x.(votes := left);
    var revived := ReviveAll(x.stakes, t.createdAt);
    var undone := core.(stakes := UnripenAll(x.stakes, t.createdAt));
    var all := (b: Address) => -AssetChange(t, b);
    ReworkedThen(before, cut, unpaid, t.sender, core, revived, all);
    ReworkedStakes(before, unpaid, t.sender, core.(stakes := revived), all);
    ReviveThenUncount(x.stakes, t.createdAt);
    ReworkedCore(before, unpaid, after, t.sender, core.(stakes := revived), UnripenAll(x.stakes, t.createdAt), all);
    forall b
      ensures Acc(after, b) == LeaveVotes(t.sender, left, b, UndoWith(t, b, -AssetChange(t, b), Acc(before, b)))
    {
      ReworkedAt(before, after, t.sender, undone, all, b);
      UpLeaves(t, left, b, -AssetChange(t, b), Acc(before, b));
    }
  }

  lemma ReworkedAt(l: Ledger, m: Ledger, who: Address, core: Account, f: Address -> int, b: Address)
    requires Reworked(l, m, who, core, f)
    ensures Acc(m, b) == Credit(if b == who then core else Acc(l, b), f(b))
  {
  }

  lemma UpLeaves(t: Transaction, left: multiset<Address>, b: Address, d: int, x: Account)
    requires t.IsUp()
    ensures LeaveVotes(t.sender, left, b, UndoWith(t, b, d, x)) ==
              Credit(if b == t.sender then x.(votes := left).(stakes := UnripenAll(x.stakes, t.createdAt)) else x, d)
  {
  }

  lemma ReworkedStakes(l: Ledger, m: Ledger, who: Address, core: Account, f: Address -> int)
    requires Reworked(l, m, who, core, f)
    ensures Acc(m, who).stakes == core.stakes
  {
  }
}
