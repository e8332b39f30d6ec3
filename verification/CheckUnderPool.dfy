/** The checks of a block's transactions on the ledger with the pool on top, against
    the checks on the ledger of the chain. */
module CheckUnderPool {
  import opened Model
  import opened Transactions
  import opened Inverse
  import opened Verify
  import opened Blocks
  import opened Sound
  import opened BlockRuns
  import opened Pool
  import opened PoolOrder
  import opened UnderPool

  // ---------- what a check reads besides the sender ----------

  /** The sponsors it carries are those that the airdrop account can pay. */
  predicate SponsorsRight(l: Ledger, t: Transaction) {
    match t.asset
    case Freeze(amount, _, sponsors) => SameSponsors(AirdropFor(l, Acc(l, t.sender), amount, true), sponsors)
    case Vote(_, reward, _, sponsors) => SameSponsors(AirdropFor(l, Acc(l, t.sender), reward, false), sponsors)
    case _ => true
  }

  predicate VotesForDelegates(l: Ledger, t: Transaction) {
    t.asset.Vote? ==> forall i :: 0 <= i < |t.asset.votes| ==> Acc(l, t.asset.votes[i].delegate).isDelegate
  }

  predicate NameFree(l: Ledger, t: Transaction) {
    t.asset.NewDelegate? ==> Trim(t.asset.username) !in l.usernames
  }

  lemma VerifiedReads(l: Ledger, height: nat, t: Transaction)
    requires Verified(l, height, t)
    ensures SponsorsRight(l, t) && VotesForDelegates(l, t) && NameFree(l, t)
  {
    hide Trim, SameSponsors, AirdropFor, TotalReward, TotalUnstake;
    if t.asset.Vote? {
      forall i | 0 <= i < |t.asset.votes|
        ensures Acc(l, t.asset.votes[i].delegate).isDelegate
      {
        assert VoteItemOk(l, Acc(l, t.sender), t.asset.votes[i]);
      }
    }
  }

  lemma VerifiedSame(l: Ledger, m: Ledger, height: nat, t: Transaction)
    requires Verified(l, height, t) && Acc(m, t.sender) == Acc(l, t.sender) && m.confirmed == l.confirmed
    requires SponsorsRight(m, t) && VotesForDelegates(m, t) && NameFree(m, t)
    ensures Verified(m, height, t)
  {
    hide Trim, SameSponsors, AirdropFor, TotalReward, TotalUnstake, Acc;
    if t.asset.Vote? {
      forall i | 0 <= i < |t.asset.votes|
        ensures VoteItemOk(m, Acc(m, t.sender), t.asset.votes[i])
      {
        assert VoteItemOk(l, Acc(l, t.sender), t.asset.votes[i]);
      }
    }
  }

  // ---------- an account that the pool leaves alone ----------

  /** Neither sends nor is paid by a pooled transaction. */
  predicate Bystander(a: Address, p: seq<Transaction>) {
    forall i :: 0 <= i < |p| ==> p[i].sender != a && Change(p[i], a) == 0
  }

  lemma {:induction false} BystanderSame(l: Ledger, p: seq<Transaction>, a: Address)
    requires Bystander(a, p)
    ensures Acc(UndoAll(l, p), a) == Acc(l, a)
    decreases |p|
  {
    hide UndoUnconfirmed, Change;
    if p != [] {
      var init, t := p[..|p| - 1], p[|p| - 1];
      assert forall i :: 0 <= i < |init| ==> init[i] == p[i];
      UndoAt(l, t, a);
      BystanderSame(UndoUnconfirmed(l, t), init, a);
    }
  }

  lemma NamesBelow(l: Ledger, p: seq<Transaction>)
    ensures UndoAll(l, p).usernames <= l.usernames && UndoAll(l, p).confirmed == l.confirmed
  {
    hide UndoAll, NotFreed;
    forall u {
      UndoAllNames(l, p, u);
    }
    UndoAllNames(l, p, "");
  }

  /** MAIN: a block's transaction of a bystander that passes the check over the pool
      passes it on the chain's ledger if and only if the airdrop account pays the same
      there and it votes for no pooled new delegate; and one that passes on the
      chain's ledger passes over the pool if and only if the airdrop account pays the
      same and no pooled new delegate has its name. */
  lemma VerifiedUnderPoolIff(l: Ledger, p: seq<Transaction>, height: nat, t: Transaction)
    requires Bystander(t.sender, p)
    ensures var base := UndoAll(l, p);
      && (Verified(l, height, t) ==> (Verified(base, height, t) <==> SponsorsRight(base, t) && VotesForDelegates(base, t)))
      && (Verified(base, height, t) ==> (Verified(l, height, t) <==> SponsorsRight(l, t) && NameFree(l, t)))
  {
    hide UndoAll, Verified, SponsorsRight, Bystander, Acc;
    var base := UndoAll(l, p);
    BystanderSame(l, p, t.sender);
    NamesBelow(l, p);
    if Verified(l, height, t) {
      VerifiedReads(l, height, t);
      if SponsorsRight(base, t) && VotesForDelegates(base, t) {
        VerifiedSame(l, base, height, t);
      }
    }
    if Verified(base, height, t) {
      VerifiedReads(base, height, t);
      DelegatesAbove(l, p, t);
      if SponsorsRight(l, t) && NameFree(l, t) {
        VerifiedSame(base, l, height, t);
      }
      if Verified(l, height, t) {
        VerifiedReads(l, height, t);
      }
    }
    if Verified(base, height, t) && Verified(l, height, t) {
      VerifiedReads(base, height, t);
    }
  }

  lemma DelegatesAbove(l: Ledger, p: seq<Transaction>, t: Transaction)
    requires VotesForDelegates(UndoAll(l, p), t)
    ensures VotesForDelegates(l, t)
  {
    hide UndoAll, Acc;
    if t.asset.Vote? {
      forall i | 0 <= i < |t.asset.votes|
        ensures Acc(l, t.asset.votes[i].delegate).isDelegate
      {
        DelegateAbove(l, p, t.asset.votes[i].delegate);
      }
    }
  }

  lemma DelegateAbove(l: Ledger, p: seq<Transaction>, d: Address)
    ensures Acc(UndoAll(l, p), d).isDelegate <==> Acc(l, d).isDelegate && !Any(p, Makes(d))
  {
    hide UndoAll, Acc, Any, StakesUndone, VotesUndone, PoolChange;
    UndoAllAt(l, p, d);
  }

  // ---------- a block over the pool ----------

  /** The block neither votes for a pooled new delegate nor takes its name. */
  predicate Unmixed(b: Transaction, p: seq<Transaction>) {
    forall i :: 0 <= i < |p| && p[i].asset.NewDelegate? ==>
      && p[i].sender !in VoteKeys(b)
      && (b.asset.NewDelegate? ==> Trim(b.asset.username) != p[i].asset.username)
  }

  /** The airdrop account pays each transaction of the block the same with and without
      the pool. */
  predicate SponsorsAgree(l: Ledger, base: Ledger, ts: seq<Transaction>) {
    forall k :: 0 <= k < |ts| ==> (SponsorsRight(ApplyAll(l, ts[..k]), ts[k]) <==> SponsorsRight(ApplyAll(base, ts[..k]), ts[k]))
  }

  ghost predicate BlockFits(ts: seq<Transaction>, p: seq<Transaction>) {
    AllApart(ts, p) && forall k :: 0 <= k < |ts| ==> Bystander(ts[k].sender, p) && Unmixed(ts[k], p)
  }

  lemma UnmixedVotes(l: Ledger, p: seq<Transaction>, t: Transaction)
    requires Unmixed(t, p)
    ensures VotesForDelegates(UndoAll(l, p), t) <==> VotesForDelegates(l, t)
  {
    hide UndoAll, Acc, Any;
    if t.asset.Vote? {
      forall i | 0 <= i < |t.asset.votes|
        ensures Acc(UndoAll(l, p), t.asset.votes[i].delegate).isDelegate <==> Acc(l, t.asset.votes[i].delegate).isDelegate
      {
        var d := t.asset.votes[i].delegate;
        assert Keys(t.asset.votes)[i] == d;
        assert d in VoteKeys(t);
        DelegateAbove(l, p, d);
        NotMade(p, d);
      }
    }
  }

  lemma NotMade(p: seq<Transaction>, d: Address)
    requires forall i :: 0 <= i < |p| && p[i].asset.NewDelegate? ==> p[i].sender != d
    ensures !Any(p, Makes(d))
  {
  }

  lemma UnmixedName(l: Ledger, p: seq<Transaction>, t: Transaction)
    requires AllReady(l, p) && Unmixed(t, p)
    ensures NameFree(UndoAll(l, p), t) <==> NameFree(l, t)
  {
    hide UndoAll, AllReady, Trim, Targets;
    if t.asset.NewDelegate? {
      UndoAllNames(l, p, Trim(t.asset.username));
      forall i | 0 <= i < |p| && p[i].asset.NewDelegate? && p[i].sender in l.delegates
        ensures l.delegates[p[i].sender].username != Trim(t.asset.username)
      {
        StaysPooled(l, p, i);
      }
    }
  }

  lemma OneFits(l: Ledger, p: seq<Transaction>, height: nat, t: Transaction)
    requires AllReady(l, p) && Bystander(t.sender, p) && Unmixed(t, p)
    requires SponsorsRight(l, t) <==> SponsorsRight(UndoAll(l, p), t)
    ensures Verified(l, height, t) <==> Verified(UndoAll(l, p), height, t)
  {
    hide UndoAll, AllReady, Verified, SponsorsRight, VotesForDelegates, NameFree, Unmixed, Bystander;
    VerifiedUnderPoolIff(l, p, height, t);
    UnmixedVotes(l, p, t);
    UnmixedName(l, p, t);
    if Verified(l, height, t) {
      VerifiedReads(l, height, t);
    }
    if Verified(UndoAll(l, p), height, t) {
      VerifiedReads(UndoAll(l, p), height, t);
    }
  }

  /** MAIN: a block that fits the pool passes the checks over the pool if and only if
      it passes them on the chain's ledger. */
  lemma {:induction false} AllVerifiedUnderPool(l: Ledger, p: seq<Transaction>, height: nat, ts: seq<Transaction>)
    requires AllReady(l, p) && BlockFits(ts, p) && SponsorsAgree(l, UndoAll(l, p), ts)
    ensures AllVerified(l, height, ts) <==> AllVerified(UndoAll(l, p), height, ts)
  {
    hide UndoAll, AllReady, Verified, SponsorsRight, Unmixed, Bystander, ApplyUnconfirmed, WellFormed, DownOnly, Apart;
    if ts != [] {
      var init, t := ts[..|ts| - 1], ts[|ts| - 1];
      assert forall k :: 0 <= k < |init| ==> init[k] == ts[k] && init[..k] == ts[..k];
      AllVerifiedUnderPool(l, p, height, init);
      ApplyAllUnderPool(l, p, init);
      OneFits(ApplyAll(l, init), p, height, t);
    }
  }

  // ---------- undoing a block over the pool ----------

  lemma UndoableUnder(l: Ledger, p: seq<Transaction>, t: Transaction)
    requires AllReady(l, p) && Bystander(t.sender, p) && ApartFrom(t, p)
    ensures Undoable(l, t) <==> Undoable(UndoAll(l, p), t)
  {
    hide UndoAll, AllReady, UndoableAccount, Acc, Targets, Change;
    BystanderSame(l, p, t.sender);
    if t.asset.NewDelegate? {
      UndoAllDelegates(l, p, t.sender);
      NotMade(p, t.sender);
      UndoAllNames(l, p, t.asset.username);
      forall i | 0 <= i < |p| && p[i].asset.NewDelegate? && p[i].sender in l.delegates
        ensures l.delegates[p[i].sender].username != t.asset.username
      {
        StaysPooled(l, p, i);
        assert Apart(t, p[i]);
      }
    }
  }

  /** A block that fits can be rolled back over the pool whenever it can below. */
  lemma {:induction false} AllUndoableUnder(l: Ledger, p: seq<Transaction>, ts: seq<Transaction>)
    requires AllReady(l, p) && BlockFits(ts, p)
    ensures AllUndoable(l, ts) <==> AllUndoable(UndoAll(l, p), ts)
  {
    hide UndoAll, AllReady, Undoable, Unmixed, Bystander, ApplyUnconfirmed, Apart;
    if ts != [] {
      var init, t := ts[..|ts| - 1], ts[|ts| - 1];
      assert forall k :: 0 <= k < |init| ==> init[k] == ts[k];
      AllUndoableUnder(l, p, init);
      ApplyAllUnderPool(l, p, init);
      UndoableUnder(ApplyAll(l, init), p, t);
    }
  }

  // ---------- accounts and delegates above the pool ----------

  /** The ledger over the pool is as sane as the chain's. */
  lemma SaneUnderPool(l: Ledger, p: seq<Transaction>)
    requires Normal(l) && AllReady(l, p) && Sane(UndoAll(l, p))
    ensures Sane(l)
  {
    hide UndoAll, AllReady, Acc, Any, Normal;
    forall a
      ensures Acc(l, a).isDelegate <==> a in l.delegates
    {
      DelegateAbove(l, p, a);
      UndoAllDelegates(l, p, a);
      if Any(p, Makes(a)) {
        MadeIsThere(l, p, a);
      }
    }
    forall a, d | d in Acc(l, a).votes
      ensures d in l.delegates
    {
      ListedIsThere(l, p, a, d);
    }
  }

  lemma MadeIsThere(l: Ledger, p: seq<Transaction>, a: Address)
    requires AllReady(l, p) && Any(p, Makes(a))
    ensures a in l.delegates && Acc(l, a).isDelegate
  {
    hide AllReady;
    var i :| 0 <= i < |p| && Makes(a)(p[i]);
    StaysPooled(l, p, i);
  }

  lemma ListedIsThere(l: Ledger, p: seq<Transaction>, a: Address, d: Address)
    requires AllReady(l, p) && DelegatesAgree(UndoAll(l, p)) && d in Acc(l, a).votes
    ensures d in l.delegates
  {
    hide UndoAll, AllReady, Acc, Any, Sum;
    UndoAllAt(l, p, a);
    UndoneVotes(p, a, Acc(l, a));
    VotesNet(l, p, a, d);
    if d in Acc(UndoAll(l, p), a).votes {
      UndoAllDelegates(l, p, d);
    } else if forall i :: 0 <= i < |p| ==> VotesBy(a, d)(p[i]) == 0 {
      NothingVoted(p, a, d);
    } else {
      var i :| 0 <= i < |p| && VotesBy(a, d)(p[i]) != 0;
      VotedFor(p[i], a, d);
      StaysPooled(l, p, i);
    }
  }

  lemma {:induction false} NothingVoted(p: seq<Transaction>, a: Address, d: Address)
    requires forall i :: 0 <= i < |p| ==> VotesBy(a, d)(p[i]) == 0
    ensures Sum(p, VotesBy(a, d)) == 0
  {
    if p != [] {
      var init := p[..|p| - 1];
      assert forall i :: 0 <= i < |init| ==> init[i] == p[i];
      NothingVoted(init, a, d);
    }
  }

  lemma VotedFor(t: Transaction, a: Address, d: Address)
    requires VotesBy(a, d)(t) != 0
    ensures d in VoteKeys(t)
  {
  }

  // ---------- rolling back finds everything ----------

  lemma UndoLookups(l: Ledger, m: Ledger, t: Transaction)
    requires SameLookups(l, m)
    ensures SameLookups(UndoUnconfirmed(l, t), UndoUnconfirmed(m, t))
  {
    hide UndoUnconfirmed, UndoStakes, UndoVotes, Change, Acc;
    UndoParts(l, t);
    UndoParts(m, t);
    forall a
      ensures SameShown(Acc(UndoUnconfirmed(l, t), a), Acc(UndoUnconfirmed(m, t), a))
    {
      UndoAt(l, t, a);
      UndoAt(m, t, a);
    }
  }

  lemma {:induction false} LookupsReady(l: Ledger, m: Ledger, p: seq<Transaction>)
    requires SameLookups(l, m)
    ensures AllReady(l, p) <==> AllReady(m, p)
    decreases |p|
  {
    hide UndoUnconfirmed, UndoReady, SameLookups;
    if p != [] {
      SameReady(l, m, p[|p| - 1]);
      UndoLookups(l, m, p[|p| - 1]);
      LookupsReady(UndoUnconfirmed(l, p[|p| - 1]), UndoUnconfirmed(m, p[|p| - 1]), p[..|p| - 1]);
    }
  }

  /** What the check says of the sender's own account. */
  predicate Reverts(t: Transaction, x: Account) {
    && (t.IsDown() ==> VoteKeys(t) <= x.votes)
    && (t.asset.NewDelegate? ==> !x.isDelegate)
    && (t.asset.Register? ==> x.votes == multiset{} && x.referrals == [] && !x.isDelegate)
  }

  /** Undoing the transaction finds all it looks up, and leaves all that others do. */
  predicate Returnable(l: Ledger, t: Transaction) {
    Reverts(t, Acc(l, t.sender)) && (t.asset.NewDelegate? ==> t.sender !in l.delegates) && Targets(l, t)
  }

  lemma VerifiedReturnable(l: Ledger, height: nat, t: Transaction)
    requires Sane(l) && WellFormed(t) && DownOnly(t) && Verified(l, height, t)
    ensures Returnable(l, t)
  {
    hide WellFormed, FreezeOk, VoteOk, Trim, Acc, VoteKeys, DelegatesAgree;
    VerifiedTargets(l, height, t);
    if t.IsDown() {
      DownVoteKeys(l, height, t);
    }
    if t.asset.NewDelegate? {
      NewcomerUnknown(l, height, t);
    }
  }

  lemma BackShown(t: Transaction, chain: seq<Address>, a: Address, d: int, e: int, x: Account)
    requires a == t.sender ==> Reverts(t, x)
    ensures SameShown(x, UndoWith(t, a, e, ApplyWith(t, chain, a, d, x)))
    ensures a == t.sender ==>
              var y := ApplyWith(t, chain, a, d, x);
              && (t.asset.NewDelegate? ==> y.isDelegate) && (t.asset.Register? ==> y.referrals != [])
              && (t.IsUp() ==> VoteKeys(t) <= y.votes)
  {
    hide ApplyStakes, UndoStakes, VoteKeys;
  }

  /** Whatever the undo of such a transaction gets wrong, it is not what undos look up. */
  lemma BackLookups(l: Ledger, t: Transaction)
    requires Returnable(l, t)
    ensures SameLookups(l, UndoUnconfirmed(ApplyUnconfirmed(l, t), t)) && UndoReady(ApplyUnconfirmed(l, t), t)
  {
    hide ApplyUnconfirmed, UndoUnconfirmed, Change, ApplyWith, UndoWith, Reverts, Acc, SameShown;
    var m := ApplyUnconfirmed(l, t);
    ApplyParts(l, t);
    UndoParts(m, t);
    forall a
      ensures SameShown(Acc(l, a), Acc(UndoUnconfirmed(m, t), a))
    {
      ApplyAt(l, t, a);
      UndoAt(m, t, a);
      BackShown(t, ReferralsRead(l, t), a, Change(t, a), -Change(t, a), Acc(l, a));
    }
    ApplyAt(l, t, t.sender);
    BackShown(t, ReferralsRead(l, t), t.sender, Change(t, t.sender), -Change(t, t.sender), Acc(l, t.sender));
    BackDelegates(l.delegates, t);
  }

  /** A pool that finds all it looks up still does with one more transaction on top,
      regular or not. */
  lemma PushedReady(l: Ledger, p: seq<Transaction>, t: Transaction)
    requires AllReady(l, p) && Returnable(l, t)
    ensures AllReady(ApplyUnconfirmed(l, t), p + [t])
  {
    hide ApplyUnconfirmed, UndoUnconfirmed, UndoReady, SameLookups, AllReady, Returnable;
    BackLookups(l, t);
    LookupsReady(l, UndoUnconfirmed(ApplyUnconfirmed(l, t), t), p);
    AllReadyLast(ApplyUnconfirmed(l, t), p, t);
  }

  lemma VerifiedTargets(l: Ledger, height: nat, t: Transaction)
    requires Sane(l) && WellFormed(t) && Verified(l, height, t)
    ensures Targets(l, t)
  {
    hide Verified, WellFormed, DelegatesAgree;
    forall d {
      KeysAreDelegates(l, height, t, d);
    }
  }

  lemma BackDelegates(ds: map<Address, Delegate>, t: Transaction)
    requires t.asset.NewDelegate? ==> t.sender !in ds
    ensures var back := UndoDelegates(ApplyDelegates(ds, t), t);
      back.Keys == ds.Keys && forall d :: d in ds ==> back[d].username == ds[d].username
  {
    DelegatesInverse(ds, t);
  }

  /** MAIN: undoing a verified block, last first, finds every delegate and every key,
      regular or not. */
  lemma {:induction false} RollReady(l: Ledger, height: nat, ts: seq<Transaction>)
    requires Sane(l) && AllVerified(l, height, ts)
    ensures AllReady(ApplyAll(l, ts), ts)
  {
    hide ApplyUnconfirmed, UndoUnconfirmed, Sane, Verified, WellFormed, DownOnly, UndoReady, SameLookups, Returnable;
    if ts != [] {
      var init, t := ts[..|ts| - 1], ts[|ts| - 1];
      var m := ApplyAll(l, init);
      RollReady(l, height, init);
      SaneBlock(l, height, init);
      VerifiedReturnable(m, height, t);
      BackLookups(m, t);
      LookupsReady(m, UndoUnconfirmed(ApplyUnconfirmed(m, t), t), init);
    }
  }

  /** Deleting the last block finds everything too. */
  lemma DeleteReady(l: Ledger, height: nat, ts: seq<Transaction>)
    requires Sane(l) && AllVerified(l, height, ts)
    ensures AllReady(ApplyBlock(l, ts), ts)
  {
    hide ApplyAll, ConfirmAll, AllReady, Sane, AllVerified;
    RollReady(l, height, ts);
    ConfirmUnderPool(ApplyAll(l, ts), ts, ts);
  }
}
