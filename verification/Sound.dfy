/** What every ledger keeps: vote tallies, vote lists, delegates and names. */
module Sound {
  import opened Model
  import opened Transactions
  import opened Verify

  /** The accounts that list a delegate. */
  function Voters(m: map<Address, Account>, d: Address): set<Address> {
    set a | a in m && d in m[a].votes
  }

  ghost predicate DelegatesAgree(l: Ledger) {
    && (forall a :: Acc(l, a).isDelegate <==> a in l.delegates)
    && (forall a, d :: d in Acc(l, a).votes ==> d in l.delegates)
  }

  /** The names in use are those of the delegates, each once. */
  ghost predicate NamesAgree(ds: map<Address, Delegate>, names: set<string>) {
    && (forall d :: d in ds ==> ds[d].username in names)
    && (forall u :: u in names ==> exists d :: d in ds && ds[d].username == u)
    && (forall d, e :: d in ds && e in ds && d != e ==> ds[d].username != ds[e].username)
  }

  /** Each delegate has as many votes as accounts list it. */
  ghost predicate TalliesAgree(l: Ledger) {
    forall d :: d in l.delegates ==> l.delegates[d].votes == |Voters(l.accounts, d)|
  }

  /** Vote lists have no duplicates and are short enough. */
  ghost predicate ListsShort(l: Ledger) {
    forall a :: (forall d :: Acc(l, a).votes[d] <= 1) && |Acc(l, a).votes| <= MAX_VOTES
  }

  /** Accounts, delegates and vote lists name each other: what the checks rely on. */
  ghost predicate Sane(l: Ledger) {
    Normal(l) && DelegatesAgree(l)
  }

  ghost predicate Consistent(l: Ledger) {
    Normal(l) && DelegatesAgree(l) && NamesAgree(l.delegates, l.usernames) && TalliesAgree(l) && ListsShort(l)
  }

  lemma VotersAt(l: Ledger, d: Address, a: Address)
    ensures a in Voters(l.accounts, d) <==> d in Acc(l, a).votes
  {
  }

  /** A vote changes the voters of its delegates by its sender, and no others. */
  lemma VotersChange(l: Ledger, t: Transaction, d: Address)
    requires t.asset.Register? ==> Acc(l, t.sender).votes == multiset{}
    ensures var before, after := Voters(l.accounts, d), Voters(ApplyUnconfirmed(l, t).accounts, d);
      && after - {t.sender} == before - {t.sender}
      && (t.sender in after <==> d in ApplyVotes(t, Acc(l, t.sender).votes))
      && (t.sender in before <==> d in Acc(l, t.sender).votes)
  {
    hide ApplyUnconfirmed, Change, ReferralsRead, Voters;
    var m := ApplyUnconfirmed(l, t);
    forall a
      ensures a in Voters(m.accounts, d) <==> if a == t.sender then d in ApplyVotes(t, Acc(l, a).votes) else d in Acc(l, a).votes
      ensures a in Voters(l.accounts, d) <==> d in Acc(l, a).votes
    {
      VotersAt(l, d, a);
      VotersAt(m, d, a);
      ApplyAt(l, t, a);
    }
  }

  lemma SetChange(before: set<Address>, after: set<Address>, who: Address)
    requires after - {who} == before - {who}
    ensures |after| == |before| + (if who in after then 1 else 0) - (if who in before then 1 else 0)
  {
    assert |after - {who}| == |after| - (if who in after then 1 else 0);
    assert |before - {who}| == |before| - (if who in before then 1 else 0);
  }

  /** What a verified vote of one sign says about each delegate. */
  lemma VoteKeyOnce(l: Ledger, height: nat, t: Transaction, d: Address)
    requires WellFormed(t) && t.asset.Vote? && VoteOk(l, height, t) && KeepsConsistent(l, t)
    ensures VoteKeys(t)[d] <= 1
    ensures d in VoteKeys(t) ==> Acc(l, d).isDelegate && (d in Acc(l, t.sender).votes <==> t.IsDown())
  {
    KeysDistinct(t.asset.votes, d);
    if d in VoteKeys(t) {
      var i :| 0 <= i < |t.asset.votes| && t.asset.votes[i].delegate == d;
      assert VoteItemOk(l, Acc(l, t.sender), t.asset.votes[i]);
    }
  }

  /** The votes of one delegate after applying. */
  lemma VotesAfter(ds: map<Address, Delegate>, t: Transaction, d: Address)
    requires d in ApplyDelegates(ds, t)
    ensures ApplyDelegates(ds, t)[d].votes ==
              if t.asset.NewDelegate? && d == t.sender then 0 else ds[d].votes + Sign(t) * VoteKeys(t)[d]
  {
  }

  lemma NoVoters(l: Ledger, d: Address)
    requires DelegatesAgree(l) && d !in l.delegates
    ensures Voters(l.accounts, d) == {}
  {
    forall a
      ensures a !in Voters(l.accounts, d)
    {
      VotersAt(l, d, a);
    }
  }

  lemma TalliesKept(l: Ledger, height: nat, t: Transaction, d: Address)
    requires Consistent(l) && WellFormed(t) && Verified(l, height, t) && KeepsConsistent(l, t)
    requires d in ApplyUnconfirmed(l, t).delegates
    ensures ApplyUnconfirmed(l, t).delegates[d].votes == |Voters(ApplyUnconfirmed(l, t).accounts, d)|
  {
    hide Voters, ApplyUnconfirmed, ApplyDelegates, NamesAgree, VoteOk, FreezeOk, Fresh, WellFormed, Trim, DelegatesAgree;
    var before, after := Voters(l.accounts, d), Voters(ApplyUnconfirmed(l, t).accounts, d);
    ApplyParts(l, t);
    VotesAfter(l.delegates, t, d);
    VotersChange(l, t, d);
    SetChange(before, after, t.sender);
    assert Acc(l, t.sender).votes[d] <= 1;
    if t.asset.Vote? {
      VoteKeyOnce(l, height, t, d);
      DelegatesSame(l.delegates, t, d);
    } else if t.asset.NewDelegate? && d == t.sender {
      NewcomerUnknown(l, height, t);
      NoVoters(l, d);
    } else {
      DelegatesSame(l.delegates, t, d);
    }
  }

  lemma DelegatesSame(ds: map<Address, Delegate>, t: Transaction, d: Address)
    ensures d in ApplyDelegates(ds, t) <==> d in ds || (t.asset.NewDelegate? && d == t.sender)
  {
  }

  lemma NewcomerUnknown(l: Ledger, height: nat, t: Transaction)
    requires DelegatesAgree(l) && Verified(l, height, t) && t.asset.NewDelegate?
    ensures t.sender !in l.delegates
  {
    hide Trim;
  }

  /** A verified vote names delegates only. */
  lemma KeysAreDelegates(l: Ledger, height: nat, t: Transaction, d: Address)
    requires DelegatesAgree(l) && WellFormed(t) && Verified(l, height, t)
    ensures d in VoteKeys(t) ==> d in l.delegates
  {
    if t.asset.Vote? && d in VoteKeys(t) {
      KeysDistinct(t.asset.votes, d);
      var i :| 0 <= i < |t.asset.votes| && t.asset.votes[i].delegate == d;
      assert VoteItemOk(l, Acc(l, t.sender), t.asset.votes[i]);
    }
  }

  /** Every verified transaction, of whatever signs and names, keeps the ledger sane. */
  lemma SaneKept(l: Ledger, height: nat, t: Transaction)
    requires Sane(l) && WellFormed(t) && Verified(l, height, t)
    ensures Sane(ApplyUnconfirmed(l, t))
  {
    hide ApplyAccounts, VoteOk, FreezeOk, WellFormed, Trim, Change, Normal;
    ApplyParts(l, t);
    var m := ApplyUnconfirmed(l, t);
    forall a
      ensures Acc(m, a).isDelegate <==> a in m.delegates
    {
      ApplyAt(l, t, a);
    }
    forall a, d | d in Acc(m, a).votes
      ensures d in m.delegates
    {
      ApplyAt(l, t, a);
      KeysAreDelegates(l, height, t, d);
    }
  }

  lemma NameAfter(ds: map<Address, Delegate>, t: Transaction, d: Address)
    requires d in ApplyDelegates(ds, t)
    ensures ApplyDelegates(ds, t)[d].username ==
              if t.asset.NewDelegate? && d == t.sender then t.asset.username else ds[d].username
  {
  }

  lemma NamesKept(ds: map<Address, Delegate>, names: set<string>, t: Transaction)
    requires NamesAgree(ds, names)
    requires t.asset.NewDelegate? ==> t.sender !in ds && t.asset.username !in names
    ensures NamesAgree(ApplyDelegates(ds, t), names + NamesTaken(t))
  {
    hide ApplyDelegates;
    var after := ApplyDelegates(ds, t);
    forall d {
      DelegatesSame(ds, t, d);
    }
    forall d | d in after {
      NameAfter(ds, t, d);
    }
    forall u | u in names + NamesTaken(t)
      ensures exists d :: d in after && after[d].username == u
    {
      if u in NamesTaken(t) {
        assert after[t.sender].username == u;
      } else {
        var d :| d in ds && ds[d].username == u;
        assert after[d].username == u;
      }
    }
  }

  lemma {:induction false} CountUpBounds(votes: seq<VoteItem>)
    ensures CountUp(votes) <= |votes|
    ensures AllUp(votes) ==> CountUp(votes) == |votes|
    ensures AllDown(votes) ==> CountUp(votes) == 0
  {
    if votes != [] {
      CountUpBounds(votes[..|votes| - 1]);
    }
  }

  lemma ListsKept(l: Ledger, height: nat, t: Transaction, a: Address)
    requires Consistent(l) && WellFormed(t) && Verified(l, height, t) && KeepsConsistent(l, t)
    ensures (forall d :: Acc(ApplyUnconfirmed(l, t), a).votes[d] <= 1) && |Acc(ApplyUnconfirmed(l, t), a).votes| <= MAX_VOTES
  {
    hide ApplyUnconfirmed, NamesAgree, FreezeOk, Fresh, WellFormed, Trim, TalliesAgree, Change, DelegatesAgree;
    ApplyAt(l, t, a);
    if t.asset.Vote? && a == t.sender {
      CountUpBounds(t.asset.votes);
      assert |VoteKeys(t)| == |t.asset.votes|;
      forall d
        ensures ApplyVotes(t, Acc(l, a).votes)[d] <= 1
      {
        VoteKeyOnce(l, height, t, d);
      }
    }
  }

  lemma ConsistentKept(l: Ledger, height: nat, t: Transaction)
    requires Consistent(l) && WellFormed(t) && Verified(l, height, t) && KeepsConsistent(l, t)
    ensures Consistent(ApplyUnconfirmed(l, t))
  {
    hide ApplyUnconfirmed, Verified, WellFormed, Voters, DelegatesAgree, NamesAgree;
    SaneKept(l, height, t);
    ApplyParts(l, t);
    if t.asset.NewDelegate? {
      NewcomerUnknown(l, height, t);
    }
    NamesKept(l.delegates, l.usernames, t);
    forall d | d in ApplyUnconfirmed(l, t).delegates {
      TalliesKept(l, height, t, d);
    }
    forall a {
      ListsKept(l, height, t, a);
    }
  }

  /** A name in use, stored a second time, belongs to two delegates. */
  lemma NameTwice(l: Ledger, height: nat, t: Transaction)
    requires Consistent(l) && Verified(l, height, t) && t.asset.NewDelegate? && t.asset.username in l.usernames
    ensures !NamesAgree(ApplyUnconfirmed(l, t).delegates, ApplyUnconfirmed(l, t).usernames)
  {
    hide ApplyAccounts, Trim, TalliesAgree, ListsShort;
    NewcomerUnknown(l, height, t);
    var d :| d in l.delegates && l.delegates[d].username == t.asset.username;
    var ds := ApplyUnconfirmed(l, t).delegates;
    assert d in ds && t.sender in ds && ds[d].username == ds[t.sender].username;
  }

  /** An up-vote that is counted down: its delegate loses a vote it never had. */
  lemma MixedDownBreaks(l: Ledger, height: nat, t: Transaction)
    requires Consistent(l) && WellFormed(t) && Verified(l, height, t) && t.IsDown() && !AllDown(t.asset.votes)
    ensures !TalliesAgree(ApplyUnconfirmed(l, t))
  {
    hide ApplyUnconfirmed, ApplyDelegates, Voters, NamesAgree, ListsShort;
    var i :| 0 <= i < |t.asset.votes| && t.asset.votes[i].up;
    var d := t.asset.votes[i].delegate;
    assert VoteItemOk(l, Acc(l, t.sender), t.asset.votes[i]);
    KeysDistinct(t.asset.votes, d);
    ApplyParts(l, t);
    DelegatesSame(l.delegates, t, d);
    VotesAfter(l.delegates, t, d);
    VotersChange(l, t, d);
    SetChange(Voters(l.accounts, d), Voters(ApplyUnconfirmed(l, t).accounts, d), t.sender);
  }

  /** A down-vote that is counted up: its delegate is listed twice. */
  lemma MixedUpBreaks(l: Ledger, height: nat, t: Transaction)
    requires WellFormed(t) && Verified(l, height, t) && t.IsUp() && !AllUp(t.asset.votes)
    ensures !ListsShort(ApplyUnconfirmed(l, t))
  {
    hide ApplyUnconfirmed, Change;
    var i :| 0 <= i < |t.asset.votes| && !t.asset.votes[i].up;
    var d := t.asset.votes[i].delegate;
    assert VoteItemOk(l, Acc(l, t.sender), t.asset.votes[i]);
    KeysDistinct(t.asset.votes, d);
    ApplyAt(l, t, t.sender);
    assert Acc(ApplyUnconfirmed(l, t), t.sender).votes[d] >= 2;
  }

  /** MAIN: a verified transaction keeps a consistent ledger consistent if and only
      if its name is free as it is stored and its votes are of one sign. */
  lemma ConsistentKeptIff(l: Ledger, height: nat, t: Transaction)
    requires Consistent(l) && WellFormed(t) && Verified(l, height, t)
    ensures Consistent(ApplyUnconfirmed(l, t)) <==> KeepsConsistent(l, t)
  {
    hide ApplyUnconfirmed, Verified, WellFormed, NamesAgree, TalliesAgree, ListsShort, DelegatesAgree;
    if KeepsConsistent(l, t) {
      ConsistentKept(l, height, t);
    } else if t.asset.NewDelegate? {
      NameTwice(l, height, t);
    } else if t.IsDown() {
      MixedDownBreaks(l, height, t);
    } else {
      MixedUpBreaks(l, height, t);
    }
  }
}
