/** core/service/block.ts: applying, confirming, rolling back and deleting the
    transactions of a block on the repositories. */
module BlockService {
  import opened Model
  import opened Transactions
  import opened Inverse
  import opened Verify
  import opened Blocks
  import opened Sound
  import opened Solvent
  import opened BlockRuns
  import opened Store
  import opened RewardService
  import opened Services
  import opened Pool
  import opened UnderPool
  import opened CheckUnderPool
  import TS = TransactionService
  import VS = VerifyService

  // ---------- accounts that must exist ----------

  /** The configured accounts exist, and so does every account named as a referral
      or kept as a delegate. */
  ghost predicate LedgerHosted(keys: set<Address>, l: Ledger) {
    && AIRDROP_ADDRESS in keys && SUPPLY_ADDRESS in keys
    && (forall a, i :: 0 <= i < |Acc(l, a).referrals| ==> Acc(l, a).referrals[i] in keys)
    && l.delegates.Keys <= keys
  }

  ghost predicate StoreOk(store: LedgerStore)
    reads store
  {
    LedgerHosted(store.accounts.Keys, store.View())
  }

  /** The accounts a transaction has touched exist. */
  predicate Hosted(keys: set<Address>, t: Transaction) {
    && t.sender in keys && AIRDROP_ADDRESS in keys && SUPPLY_ADDRESS in keys
    && (forall i :: 0 <= i < |t.Sponsors()| ==> t.Sponsors()[i].address in keys)
    && (t.asset.Send? ==> t.asset.recipient in keys)
  }

  ghost predicate AllHosted(keys: set<Address>, ts: seq<Transaction>) {
    forall k :: 0 <= k < |ts| ==> Hosted(keys, ts[k])
  }

  /** Maps of the same size, one within the other, have the same entries. */
  lemma {:induction false} SameSponsorsBack(s: seq<Sponsor>, r: seq<Sponsor>, p: Sponsor)
    requires SameSponsors(s, r) && DistinctSponsors(s) && DistinctSponsors(r) && p in r
    ensures p in s
  {
    if s != [] {
      var init, x := s[..|s| - 1], s[|s| - 1];
      var k :| 0 <= k < |r| && r[k] == x;
      var cut := r[..k] + r[k + 1..];
      forall i | 0 <= i < |init|
        ensures init[i] in cut
      {
        assert s[i] in r;
        var j :| 0 <= j < |r| && r[j] == s[i];
        assert cut[if j < k then j else j - 1] == s[i];
      }
      if p != x {
        var j :| 0 <= j < |r| && r[j] == p;
        assert cut[if j < k then j else j - 1] == p;
        SameSponsorsBack(init, cut, p);
      }
    }
  }

  lemma {:induction false} LevelShape(referrals: seq<Address>, amount: int)
    ensures var s := LevelRewards(referrals, amount).0;
      DistinctSponsors(s) && forall p :: p in s ==> p.address in referrals
  {
    if referrals != [] {
      var i := |referrals| - 1;
      LevelShape(referrals[..i], amount);
      SetSponsorShape(LevelRewards(referrals[..i], amount).0, referrals[i], LevelReward(i, amount));
    }
  }

  lemma AirdropShape(l: Ledger, x: Account, amount: int, freeze: bool)
    ensures var s := AirdropFor(l, x, amount, freeze);
      DistinctSponsors(s) && forall p :: p in s ==> p.address in x.referrals
  {
    hide LevelRewards;
    LevelShape(x.referrals, amount);
  }

  /** The sponsors a verified transaction carries are referrals of its sender. */
  lemma SponsorsAreReferrals(l: Ledger, height: nat, t: Transaction, i: nat)
    requires WellFormed(t) && Verified(l, height, t) && i < |t.Sponsors()|
    ensures t.Sponsors()[i].address in Acc(l, t.sender).referrals
  {
    hide SameSponsors, AirdropFor, TotalReward, TotalUnstake;
    var x := Acc(l, t.sender);
    var freeze := t.asset.Freeze?;
    var amount := if freeze then t.asset.amount else t.asset.reward;
    AirdropShape(l, x, amount, freeze);
    SameSponsorsBack(AirdropFor(l, x, amount, freeze), t.Sponsors(), t.Sponsors()[i]);
  }

  lemma KeyTargets(t: Transaction, i: nat)
    requires t.asset.Vote? && i < |t.asset.votes|
    ensures t.asset.votes[i].delegate in VoteKeys(t)
  {
    assert Keys(t.asset.votes)[i] == t.asset.votes[i].delegate;
  }

  lemma TargetsAreDelegates(l: Ledger, height: nat, t: Transaction)
    requires DelegatesAgree(l) && WellFormed(t) && Verified(l, height, t)
    ensures TS.TargetsKnown(l.delegates, t)
  {
    if t.asset.Vote? {
      forall i | 0 <= i < |t.asset.votes|
        ensures t.asset.votes[i].delegate in l.delegates
      {
        assert VoteItemOk(l, Acc(l, t.sender), t.asset.votes[i]);
      }
    }
  }

  /** A verified transaction can be served: nothing it needs is missing. */
  lemma VerifiedReady(store: LedgerStore, height: nat, t: Transaction)
    requires StoreOk(store) && DelegatesAgree(store.View()) && t.sender in store.accounts
    requires WellFormed(t) && Verified(store.View(), height, t)
    ensures Ready(store, t) && (forall i :: 0 <= i < |t.Sponsors()| ==> t.Sponsors()[i].address in store.accounts)
    ensures DownOnly(t) && t.IsDown() ==> VoteKeys(t) <= Acc(store.View(), t.sender).votes
  {
    hide AbstractAll, Acc, VoteOk, FreezeOk, Trim, VoteKeys, AllDown;
    var l := store.View();
    forall i | 0 <= i < |t.Sponsors()|
      ensures t.Sponsors()[i].address in store.accounts
    {
      SponsorsAreReferrals(l, height, t, i);
    }
    TargetsAreDelegates(l, height, t);
    if DownOnly(t) && t.IsDown() {
      DownVoteKeys(l, height, t);
    }
  }

  lemma HostedReadyUndo(store: LedgerStore, t: Transaction)
    requires Hosted(store.accounts.Keys, t)
    ensures ReadyUndo(store, t)
  {
  }

  lemma KnownTargets(l: Ledger, t: Transaction)
    ensures TS.TargetsKnown(l.delegates, t) <==> Targets(l, t)
  {
    if t.asset.Vote? {
      if Targets(l, t) {
        forall i | 0 <= i < |t.asset.votes|
          ensures t.asset.votes[i].delegate in l.delegates
        {
          KeyTargets(t, i);
        }
      }
      if TS.TargetsKnown(l.delegates, t) {
        forall d | d in VoteKeys(t)
          ensures d in l.delegates
        {
          assert d in Keys(t.asset.votes);
        }
      }
    }
  }

  lemma StoreOkKept(store: LedgerStore, l: Ledger, keys: set<Address>, t: Transaction)
    requires AIRDROP_ADDRESS in keys && SUPPLY_ADDRESS in keys && t.sender in keys
    requires forall a, i :: 0 <= i < |Acc(l, a).referrals| ==> Acc(l, a).referrals[i] in keys
    requires l.delegates.Keys <= keys
    requires keys <= store.accounts.Keys && store.View() == ApplyUnconfirmed(l, t)
    requires t.asset.Register? ==> t.asset.referral in store.accounts
    ensures StoreOk(store)
  {
    hide AbstractAll, Acc, ApplyUnconfirmed, Change, ApplyVotes, ApplyStakes;
    ApplyParts(l, t);
    forall a, i | 0 <= i < |Acc(store.View(), a).referrals|
      ensures Acc(store.View(), a).referrals[i] in store.accounts
    {
      ApplyAt(l, t, a);
    }
  }

  // ---------- a block's transactions ----------

  ghost predicate DistinctIds(ts: seq<Transaction>) {
    forall i, j :: 0 <= i < j < |ts| ==> ts[i].id != ts[j].id
  }

  lemma {:induction false} VerifiedNew(l: Ledger, height: nat, ts: seq<Transaction>)
    requires AllVerified(l, height, ts) && DistinctIds(ts) && Normal(l)
    ensures NewIds(l.confirmed, ts)
  {
    hide WellFormed, DownOnly, ApplyUnconfirmed, Normal;
    if ts != [] {
      var init, t := ts[..|ts| - 1], ts[|ts| - 1];
      VerifiedNew(l, height, init);
      ApplyAllNormal(l, init);
      assert t.id !in l.confirmed;
      forall i | 0 <= i < |ts|
        ensures ts[i].id !in l.confirmed
      {
        assert i < |init| ==> init[i] == ts[i];
      }
    }
  }

  lemma AllVerifiedNext(l: Ledger, height: nat, ts: seq<Transaction>, i: nat)
    requires i < |ts| && AllVerified(l, height, ts[..i]) && WellFormed(ts[i]) && DownOnly(ts[i])
    ensures AllVerified(l, height, ts[..i + 1]) <==> Verified(ApplyAll(l, ts[..i]), height, ts[i])
    ensures ApplyAll(l, ts[..i + 1]) == ApplyUnconfirmed(ApplyAll(l, ts[..i]), ts[i])
  {
    hide Verified, WellFormed, DownOnly, ApplyUnconfirmed;
    assert ts[..i + 1][..i] == ts[..i];
  }

  lemma {:induction false} AllVerifiedPrefix(l: Ledger, height: nat, ts: seq<Transaction>, i: nat)
    requires i <= |ts| && AllVerified(l, height, ts)
    ensures AllVerified(l, height, ts[..i])
    ensures i < |ts| ==> Verified(ApplyAll(l, ts[..i]), height, ts[i]) && WellFormed(ts[i])
    decreases |ts|
  {
    hide Verified, WellFormed, DownOnly, ApplyAll;
    if i == |ts| {
      assert ts[..i] == ts;
    } else {
      var init := ts[..|ts| - 1];
      if i < |ts| - 1 {
        AllVerifiedPrefix(l, height, init, i);
      }
      assert init[..i] == ts[..i];
    }
  }

  /** Check one transaction of a block and apply it. */
  method CheckAndApply(store: LedgerStore, height: nat, t: Transaction) returns (ok: bool)
    requires StoreOk(store) && Sane(store.View()) && WellFormed(t) && DownOnly(t)
    modifies store
    ensures StoreOk(store) && old(store.accounts.Keys) <= store.accounts.Keys
    ensures ok == Verified(old(store.View()), height, t)
    ensures ok ==> store.View() == ApplyUnconfirmed(old(store.View()), t) && Hosted(store.accounts.Keys, t)
    ensures !ok ==> store.View() == old(store.View())
  {
    hide AbstractAll, Acc, Verified, WellFormed, ApplyUnconfirmed, DownOnly, VoteKeys;
    ghost var before := store.View();
    store.Ensure(t.sender);
    ok := VS.VerifyUnconfirmed(store, height, t);
    if ok {
      VerifiedReady(store, height, t);
      ghost var keys := store.accounts.Keys;
      TS.Apply(store, t);
      StoreOkKept(store, before, keys, t);
    }
  }

  /** Undo transactions, last first; none of these undos throws. */
  method RollBack(store: LedgerStore, ts: seq<Transaction>)
    requires AllReady(store.View(), ts) && AllHosted(store.accounts.Keys, ts)
    modifies store
    ensures store.View() == UndoAll(old(store.View()), ts) && store.accounts.Keys == old(store.accounts.Keys)
  {
    hide store.View, UndoUnconfirmed, Hosted, ReadyUndo, Targets, Held, VoteKeys;
    var i := |ts| - 1;
    assert ts[..i + 1] == ts;
    while i >= 0
      invariant -1 <= i < |ts|
      invariant UndoAll(store.View(), ts[..i + 1]) == UndoAll(old(store.View()), ts) && AllReady(store.View(), ts[..i + 1])
      invariant store.accounts.Keys == old(store.accounts.Keys)
    {
      assert ts[..i + 1][..i] == ts[..i];
      HostedReadyUndo(store, ts[i]);
      var _ := TS.Undo(store, ts[i]);
      i := i - 1;
    }
    assert ts[..0] == [];
  }

  /** MAIN: check and apply a block's transactions in order; when one fails the
      check, everything before it is undone, and the ledger is as it was if all that
      was applied could be undone. */
  method CheckTransactionsAndApply(store: LedgerStore, height: nat, ts: seq<Transaction>) returns (ok: bool, ghost passed: nat)
    requires StoreOk(store) && Sane(store.View())
    requires forall k :: 0 <= k < |ts| ==> WellFormed(ts[k]) && DownOnly(ts[k])
    modifies store
    ensures old(store.accounts.Keys) <= store.accounts.Keys
    ensures ok <==> AllVerified(old(store.View()), height, ts)
    ensures ok ==> store.View() == ApplyAll(old(store.View()), ts)
    ensures ok ==> StoreOk(store) && AllHosted(store.accounts.Keys, ts)
    ensures !ok ==>
              && passed < |ts| && AllVerified(old(store.View()), height, ts[..passed])
              && !Verified(ApplyAll(old(store.View()), ts[..passed]), height, ts[passed])
              && store.View() == UndoAll(ApplyAll(old(store.View()), ts[..passed]), ts[..passed])
    ensures !ok && AllUndoable(old(store.View()), ts[..passed]) ==> store.View() == old(store.View())
  {
    hide AbstractAll, Acc, ApplyUnconfirmed, Sane, Verified, WellFormed, DownOnly, Hosted, Undoable, StoreOk,
      AllVerified, ApplyAll, UndoAll, AllReady, AllUndoable;
    ghost var l := store.View();
    BlockStart(l, height, ts);
    var i := 0;
    passed := 0;
    while i < |ts|
      invariant 0 <= i <= |ts|
      invariant StoreOk(store) && old(store.accounts.Keys) <= store.accounts.Keys
      invariant AllVerified(l, height, ts[..i]) && store.View() == ApplyAll(l, ts[..i])
      invariant forall k :: 0 <= k < i ==> Hosted(store.accounts.Keys, ts[k])
    {
      SaneBlock(l, height, ts[..i]);
      AllVerifiedNext(l, height, ts, i);
      var good := CheckAndApply(store, height, ts[i]);
      HostedGrow(ts[..i]);
      if !good {
        RollReady(l, height, ts[..i]);
        RollBack(store, ts[..i]);
        PrefixFails(l, height, ts, i);
        if AllUndoable(l, ts[..i]) {
          UndoAllRestores(l, ts[..i]);
        }
        return false, i;
      }
      i := i + 1;
    }
    assert ts[..i] == ts;
    ok := true;
  }

  lemma BlockStart(l: Ledger, height: nat, ts: seq<Transaction>)
    ensures ts[..0] == [] && AllVerified(l, height, ts[..0]) && ApplyAll(l, ts[..0]) == l
  {
  }

  lemma HostedGrow(ts: seq<Transaction>)
    ensures forall keys, more, k :: keys <= more && 0 <= k < |ts| && Hosted(keys, ts[k]) ==> Hosted(more, ts[k])
  {
  }

  lemma PrefixFails(l: Ledger, height: nat, ts: seq<Transaction>, i: nat)
    requires i < |ts| && !Verified(ApplyAll(l, ts[..i]), height, ts[i])
    ensures !AllVerified(l, height, ts)
  {
    hide AllVerified, ApplyAll, Verified;
    if AllVerified(l, height, ts) {
      AllVerifiedPrefix(l, height, ts, i);
    }
  }

  // ---------- saving and deleting a block ----------

  lemma StoreDelegates(store: LedgerStore)
    ensures store.View().delegates == store.delegates && store.View().confirmed == store.confirmed
    ensures StoreOk(store) ==> store.delegates.Keys <= store.accounts.Keys
  {
  }

  lemma TargetsConfirmed(l: Ledger, ts: seq<Transaction>, t: Transaction)
    requires Targets(l, t)
    ensures TS.TargetsKnown(ConfirmAll(l, ts).delegates, t)
  {
    hide ConfirmAll, VoteKeys;
    ConfirmAllKeys(l, ts);
    KnownTargets(ConfirmAll(l, ts), t);
  }

  /** Confirm the transactions of a saved block, first to last. */
  method ConfirmTransactions(store: LedgerStore, ts: seq<Transaction>)
    requires AllReady(store.View(), ts)
    modifies store`delegates, store`confirmed
    ensures store.View() == ConfirmAll(old(store.View()), ts)
  {
    hide AllReady, TS.TargetsKnown, Confirm, store.View, Targets, Held;
    ghost var l := store.View();
    for i := 0 to |ts|
      invariant store.View() == ConfirmAll(l, ts[..i])
    {
      StaysPooled(l, ts, i);
      TargetsConfirmed(l, ts[..i], ts[i]);
      StoreDelegates(store);
      assert ts[..i + 1][..i] == ts[..i];
      TS.ConfirmTransaction(store, ts[i]);
    }
    assert ts[..|ts|] == ts;
  }

  /** Unconfirm and undo the transactions of the last block, last to first. */
  method DeleteTransactions(store: LedgerStore, ts: seq<Transaction>)
    requires AllReady(store.View(), ts) && AllHosted(store.accounts.Keys, ts) && StoreOk(store)
    modifies store
    ensures store.View() == DeleteBlock(old(store.View()), ts)
    ensures StoreOk(store) && store.accounts.Keys == old(store.accounts.Keys)
  {
    hide TS.TargetsKnown, store.View, LedgerHosted, Hosted, UndoUnconfirmed, Unconfirm, ReadyUndo, Targets, Held, VoteKeys;
    var i := |ts| - 1;
    assert ts[..i + 1] == ts;
    while i >= 0
      invariant -1 <= i < |ts|
      invariant DeleteBlock(store.View(), ts[..i + 1]) == DeleteBlock(old(store.View()), ts) && AllReady(store.View(), ts[..i + 1])
      invariant StoreOk(store) && store.accounts.Keys == old(store.accounts.Keys)
    {
      ghost var l := store.View();
      ghost var upto := ts[..i + 1];
      assert upto[..i] == ts[..i];
      StoreDelegates(store);
      KnownTargets(l, ts[i]);
      ConfirmOneUnder(l, upto, ts[i]);
      TS.UnconfirmTransaction(store, ts[i]);
      HostedReadyUndo(store, ts[i]);
      UnconfirmHosted(store.accounts.Keys, l, ts[i]);
      UndoHosted(store.accounts.Keys, store.View(), ts[i]);
      var _ := TS.Undo(store, ts[i]);
      i := i - 1;
    }
    assert ts[..0] == [];
  }

  lemma SameHosted(keys: set<Address>, l: Ledger, m: Ledger)
    requires l.accounts == m.accounts && l.delegates.Keys == m.delegates.Keys
    ensures LedgerHosted(keys, l) <==> LedgerHosted(keys, m)
  {
    assert forall a :: Acc(l, a) == Acc(m, a);
  }

  lemma UnconfirmHosted(keys: set<Address>, l: Ledger, t: Transaction)
    ensures LedgerHosted(keys, l) <==> LedgerHosted(keys, Unconfirm(l, t))
    ensures LedgerHosted(keys, l) <==> LedgerHosted(keys, Confirm(l, t))
  {
    SameHosted(keys, l, Unconfirm(l, t));
    SameHosted(keys, l, Confirm(l, t));
  }

  lemma UndoHosted(keys: set<Address>, l: Ledger, t: Transaction)
    requires LedgerHosted(keys, l)
    ensures LedgerHosted(keys, UndoUnconfirmed(l, t))
  {
    hide Acc, UndoUnconfirmed, Change, UndoVotes, UndoStakes;
    UndoParts(l, t);
    forall a, i | 0 <= i < |Acc(UndoUnconfirmed(l, t), a).referrals|
      ensures Acc(UndoUnconfirmed(l, t), a).referrals[i] in keys
    {
      UndoAt(l, t, a);
    }
  }

  lemma {:induction false} UndoAllHosted(keys: set<Address>, l: Ledger, p: seq<Transaction>)
    requires LedgerHosted(keys, l)
    ensures LedgerHosted(keys, UndoAll(l, p))
    decreases |p|
  {
    hide LedgerHosted, UndoUnconfirmed;
    if p != [] {
      UndoHosted(keys, l, p[|p| - 1]);
      UndoAllHosted(keys, UndoUnconfirmed(l, p[|p| - 1]), p[..|p| - 1]);
    }
  }

  lemma {:induction false} ConfirmAllHosted(keys: set<Address>, l: Ledger, ts: seq<Transaction>)
    ensures LedgerHosted(keys, l) ==> LedgerHosted(keys, ConfirmAll(l, ts))
  {
    hide LedgerHosted, Confirm;
    if ts != [] {
      ConfirmAllHosted(keys, l, ts[..|ts| - 1]);
      UnconfirmHosted(keys, ConfirmAll(l, ts[..|ts| - 1]), ts[|ts| - 1]);
    }
  }
}
