/** What each kind of transaction does to balances, lists and delegates, spelled out;
    stakes are in StakeVotes, referrals in Referrals. */
module Effects {
  import opened Model
  import opened Transactions
  import opened Verify
  import opened Solvent
  import opened Pool
  import opened Caught

  // ---------- balances ----------

  /** What one address gets as a sponsor. */
  function Share(s: seq<Sponsor>, a: Address): int {
    if s == [] then 0 else Share(s[1..], a) + (if s[0].address == a then s[0].reward else 0)
  }

  lemma {:induction false} ShareLast(s: seq<Sponsor>, a: Address)
    requires s != []
    ensures Share(s, a) == Share(s[..|s| - 1], a) + (if s[|s| - 1].address == a then s[|s| - 1].reward else 0)
  {
    if |s| == 1 {
      assert s[1..] == [] && s[..0] == [];
    } else {
      ShareLast(s[1..], a);
      assert s[..|s| - 1][1..] == s[1..][..|s| - 2];
    }
  }

  /** Every sponsor gets its reward, and the airdrop account pays all of them. */
  lemma {:induction false} SponsorsGet(s: seq<Sponsor>, a: Address)
    ensures SponsorChange(s, a) == Share(s, a) - (if a == AIRDROP_ADDRESS then SumRewards(s) else 0)
  {
    if s != [] {
      SponsorsGet(s[..|s| - 1], a);
      ShareLast(s, a);
    }
  }

  predicate StartsDown(t: Transaction) {
    t.asset.Vote? && t.asset.votes != [] && !t.asset.votes[0].up
  }

  /** Whom the airdrop account pays. */
  function Sponsored(t: Transaction): seq<Sponsor> {
    if t.asset.Freeze? then t.asset.stakeSponsors
    else if t.asset.Vote? && !StartsDown(t) then t.asset.voteSponsors
    else []
  }

  /** What the sender pays: the fee and what it sends or freezes. */
  function Lost(t: Transaction): int {
    t.fee + (if t.asset.Send? then t.asset.sent else if t.asset.Freeze? then t.asset.amount else 0)
  }

  /** What comes in: a transfer, and for an up-vote reward and unstake, the reward from
      the supply. */
  function Gained(t: Transaction, a: Address): int {
    if t.asset.Send? then (if a == t.asset.recipient then t.asset.sent else 0)
    else if t.asset.Vote? && !StartsDown(t) then
      (if a == t.sender then t.asset.reward + t.asset.unstake else 0) - (if a == 13566253584516829136 then t.asset.reward else 0)
    else 0
  }

  /** MAIN: what a transaction adds to each balance. Sponsors are paid by the airdrop
      account; a down-vote pays nobody. */
  lemma BalanceAfter(l: Ledger, t: Transaction, a: Address)
    requires t.asset.Register? ==> Acc(l, t.sender).balance == t.fee
    ensures Acc(ApplyUnconfirmed(l, t), a).balance ==
              Acc(l, a).balance + Gained(t, a) - (if a == t.sender then Lost(t) else 0)
              + Share(Sponsored(t), a) - (if a == 11696703665952770027 then SumRewards(Sponsored(t)) else 0)
  {
    hide ApplyUnconfirmed, Acc, ReferralsRead, ApplyVotes, ApplyStakes;
    ApplyAt(l, t, a);
    SponsorsGet(Sponsored(t), a);
    assert Share([], a) == 0 && SumRewards([]) == 0;
  }

  // ---------- votes, keys and delegates ----------

  /** How often the items of a vote name a delegate. */
  function Named(votes: seq<VoteItem>, d: Address): int {
    if votes == [] then 0 else Named(votes[1..], d) + (if votes[0].delegate == d then 1 else 0)
  }

  lemma {:induction false} KeysNamed(votes: seq<VoteItem>, d: Address)
    ensures multiset(Keys(votes))[d] == Named(votes, d)
  {
    if votes != [] {
      KeysNamed(votes[1..], d);
      assert Keys(votes) == [votes[0].delegate] + Keys(votes[1..]);
    }
  }

  /** MAIN: an up-vote lists each delegate it names once more, a down-vote once less
      where it is listed; nobody else's list changes. */
  lemma ListAfter(l: Ledger, t: Transaction, a: Address, d: Address)
    requires !t.asset.Register?
    ensures var before, after := Acc(l, a).votes[d], Acc(ApplyUnconfirmed(l, t), a).votes[d];
      if a == t.sender && t.asset.Vote? then
        var n := Named(t.asset.votes, d);
        if StartsDown(t) then after == (if n <= before then before - n else 0)
        else after == before + n
      else after == before
  {
    hide ApplyUnconfirmed, Acc, ReferralsRead, Change, ApplyStakes, Named;
    ApplyAt(l, t, a);
    if t.asset.Vote? {
      KeysNamed(t.asset.votes, d);
    }
  }

  /** MAIN: what a delegate's record is afterwards: votes go up or down once for each
      item that names it, and a new delegate starts from nothing. */
  lemma DelegateAfter(l: Ledger, t: Transaction, d: Address)
    ensures var m := ApplyUnconfirmed(l, t);
      if t.asset.NewDelegate? && d == t.sender
      then d in m.delegates && m.delegates[d] == Delegate(t.asset.username, t.asset.url, 0, 0, 0, 0)
      else
        && (d in m.delegates <==> d in l.delegates)
        && (d in l.delegates ==>
              var e, f := l.delegates[d], m.delegates[d];
              && f == e.(votes := f.votes)
              && f.votes == e.votes +
                   (if !t.asset.Vote? then 0
                    else if StartsDown(t) then -Named(t.asset.votes, d)
                    else Named(t.asset.votes, d)))
  {
    hide ApplyAccounts, Named;
    if t.asset.Vote? {
      KeysNamed(t.asset.votes, d);
    }
  }

  /** MAIN: second keys, delegate marks and names. */
  lemma MarksAfter(l: Ledger, t: Transaction, a: Address)
    requires !t.asset.Register?
    ensures var x, y := Acc(l, a), Acc(ApplyUnconfirmed(l, t), a);
      && y.secondKey == (if a == t.sender && t.asset.Signature? then Some(t.asset.publicKey) else x.secondKey)
      && y.isDelegate == (x.isDelegate || (a == t.sender && t.asset.NewDelegate?))
      && ApplyUnconfirmed(l, t).usernames == l.usernames + (if t.asset.NewDelegate? then {t.asset.username} else {})
      && ApplyUnconfirmed(l, t).confirmed == l.confirmed
  {
    hide Acc, ReferralsRead, Change, ApplyStakes, ApplyVotes;
    ApplyAt(l, t, a);
    ApplyParts(l, t);
  }

  /** A registration leaves nothing but its sponsors. */
  lemma RegisteredAccount(l: Ledger, t: Transaction)
    requires t.asset.Register?
    ensures var y := Acc(ApplyUnconfirmed(l, t), t.sender);
      y.balance == 0 && y.votes == multiset{} && y.stakes == [] && y.secondKey == None && !y.isDelegate
  {
    hide ApplyUnconfirmed, Acc, Change;
    ApplyAt(l, t, t.sender);
  }

  // ---------- confirming ----------

  /** MAIN: confirming adds the id and counts the confirmed votes, once. */
  lemma ConfirmedAfter(l: Ledger, t: Transaction, d: Address)
    ensures var m := Confirm(l, t);
      && m.accounts == l.accounts && m.usernames == l.usernames && m.confirmed == l.confirmed + {t.id}
      && (d in m.delegates <==> d in l.delegates)
      && (d in l.delegates ==>
            var e, f := l.delegates[d], m.delegates[d];
            && f == e.(confirmedVoteCount := f.confirmedVoteCount)
            && f.confirmedVoteCount == e.confirmedVoteCount +
                 (if t.id in l.confirmed || !t.asset.Vote? then 0
                  else if StartsDown(t) then -Named(t.asset.votes, d)
                  else Named(t.asset.votes, d)))
  {
    hide Named;
    if t.asset.Vote? {
      KeysNamed(t.asset.votes, d);
    }
  }

  // ---------- undoing ----------

  /** MAIN: undoing gives back to every balance what applying took. */
  lemma BalanceUndone(l: Ledger, m: Ledger, t: Transaction, a: Address)
    requires t.asset.Register? ==> Acc(l, t.sender).balance == t.fee
    ensures Acc(UndoUnconfirmed(m, t), a).balance - Acc(m, a).balance ==
              Acc(l, a).balance - Acc(ApplyUnconfirmed(l, t), a).balance
  {
    hide ApplyUnconfirmed, UndoUnconfirmed, Acc, ReferralsRead, ApplyVotes, ApplyStakes, UndoVotes, UndoStakes, AssetChange;
    ApplyAt(l, t, a);
    UndoAt(m, t, a);
    if t.asset.Register? {
      NoAsset(t, a);
    }
  }

  lemma NoAsset(t: Transaction, a: Address)
    requires t.asset.Register?
    ensures AssetChange(t, a) == 0
  {
  }

  /** The `k`-th item is the first whose delegate is gone. */
  predicate GoneAt(l: Ledger, t: Transaction, k: nat) {
    && t.asset.Vote? && k < |t.asset.votes| && t.asset.votes[k].delegate !in l.delegates
    && forall i :: 0 <= i < k ==> t.asset.votes[i].delegate in l.delegates
  }

  /** MAIN: when the undo of a vote throws, the fee is back, and no account has changed
      but the sender's balance and list. */
  lemma ThrownAccounts(l: Ledger, t: Transaction, k: nat, a: Address)
    requires GoneAt(l, t, k)
    ensures var x, y := Acc(l, a), Acc(UndoCaught(l, t), a);
      && y.balance == x.balance + (if a == t.sender then t.fee else 0)
      && y.stakes == x.stakes && y.referrals == x.referrals && (a != t.sender ==> y == x)
  {
    hide Acc, CutShort, CutList, FirstMissing;
    MissingAt(l, t, k);
    CutAt(l, t, CutList(l.delegates, t, Acc(l, t.sender).votes), a);
  }

  /** MAIN: an up-vote's keys up to the missing one are cut, a down-vote's are all back. */
  lemma ThrownList(l: Ledger, t: Transaction, k: nat, d: Address)
    requires GoneAt(l, t, k)
    ensures var before, after := Acc(l, t.sender).votes[d], Acc(UndoCaught(l, t), t.sender).votes[d];
      if StartsDown(t) then after == before + Named(t.asset.votes, d)
      else
        var n := Named(t.asset.votes[..k + 1], d);
        after == if n <= before then before - n else 0
  {
    hide Acc, CutShort, FirstMissing, Named;
    MissingAt(l, t, k);
    CutAt(l, t, CutList(l.delegates, t, Acc(l, t.sender).votes), t.sender);
    KeysNamed(t.asset.votes, d);
    KeysNamed(t.asset.votes[..k + 1], d);
    assert Keys(t.asset.votes)[..k + 1] == Keys(t.asset.votes[..k + 1]);
  }

  /** MAIN: and the delegates of the items before have lost or regained one vote each. */
  lemma ThrownDelegates(l: Ledger, t: Transaction, k: nat, d: Address)
    requires GoneAt(l, t, k)
    ensures var m := UndoCaught(l, t);
      && m.usernames == l.usernames && m.confirmed == l.confirmed && (d in m.delegates <==> d in l.delegates)
      && (d in l.delegates ==>
            var n := Named(t.asset.votes[..k], d);
            m.delegates[d] == l.delegates[d].(votes := l.delegates[d].votes + (if StartsDown(t) then n else -n)))
  {
    hide Acc, CutShort, CutList, Named, FirstMissing, Tally, Reached, Sign, StartsDown, Keys, Targets;
    MissingAt(l, t, k);
    CutParts(l, t, CutList(l.delegates, t, Acc(l, t.sender).votes));
    KeysNamed(t.asset.votes[..k], d);
    TalliedOne(l.delegates, multiset(Reached(l.delegates, t)), -Sign(t), d);
    SignIs(t, Named(t.asset.votes[..k], d));
  }

  lemma SignIs(t: Transaction, n: int)
    requires t.asset.Vote?
    ensures -Sign(t) * n == if StartsDown(t) then n else -n
  {
  }

  lemma TalliedOne(ds: map<Address, Delegate>, keys: multiset<Address>, n: int, d: Address)
    ensures d in Tally(ds, keys, n) <==> d in ds
    ensures d in ds ==> Tally(ds, keys, n)[d] == ds[d].(votes := ds[d].votes + n * keys[d])
  {
  }

  lemma MissingAt(l: Ledger, t: Transaction, k: nat)
    requires GoneAt(l, t, k)
    ensures FirstMissing(l.delegates, Keys(t.asset.votes)) == k && !Targets(l, t)
    ensures Reached(l.delegates, t) == Keys(t.asset.votes[..k])
  {
    hide FirstMissing;
    var keys := Keys(t.asset.votes);
    assert keys[k] in multiset(keys);
    assert forall i :: 0 <= i < k ==> keys[i] in l.delegates;
  }

  // ---------- waiting in the pool ----------

  /** MAIN: transactions are sorted by type, then time, then id. */
  lemma SortedOrder(p: seq<Transaction>, i: nat, j: nat)
    requires i < j < |SortTrs(p)|
    ensures multiset(SortTrs(p)) == multiset(p)
    ensures var s, t := SortTrs(p)[i], SortTrs(p)[j];
      && s.Code() <= t.Code()
      && (s.Code() == t.Code() ==> s.createdAt <= t.createdAt)
      && (s.Code() == t.Code() && s.createdAt == t.createdAt ==> s.id <= t.id)
  {
    hide SortTrs;
    SortTrsIs(p);
  }

  lemma TypesSort(t: Transaction)
    ensures t.Code() == match t.asset
                        case Register(_) => 0
                        case Send(_, _) => 10
                        case Signature(_) => 20
                        case NewDelegate(_, _) => 30
                        case Freeze(_, _, _) => 40
                        case Vote(_, _, _, _) => 60
  {
  }

  /** `q` is sent by the sender of `t`, or pays it: a transfer, a stake that sponsors, a
      vote that sponsors and has a reward or an unstake. */
  predicate Concerns(q: Transaction, t: Transaction) {
    || q.sender == t.sender
    || (q.asset.Send? && q.asset.recipient == t.sender)
    || (q.asset.Freeze? && HasSponsor(q, t.sender))
    || (q.asset.Vote? && (q.asset.reward != 0 || q.asset.unstake != 0) && HasSponsor(q, t.sender))
  }

  predicate HasSponsor(q: Transaction, a: Address) {
    exists i :: 0 <= i < |q.Sponsors()| && q.Sponsors()[i].address == a
  }

  lemma DependsIs(q: Transaction, t: Transaction)
    ensures DependsOn(t, q) <==> Concerns(q, t)
  {
    SponsorIn(q.Sponsors(), t.sender);
  }

  lemma SponsorIn(s: seq<Sponsor>, a: Address)
    ensures a in SponsorAddresses(s) <==> exists i :: 0 <= i < |s| && s[i].address == a
  {
    if a in SponsorAddresses(s) {
      var p :| p in s && p.address == a;
    }
    if i :| 0 <= i < |s| && s[i].address == a {
      assert s[i] in s;
    }
  }

  /** MAIN: a transaction waits exactly when a pooled one that concerns its sender would
      sort behind it, or it is a signature and there is any, or both register. */
  lemma WaitsIff(pool: seq<Transaction>, t: Transaction)
    ensures Conflict(pool, t) <==>
              exists i :: 0 <= i < |pool| && Concerns(pool[i], t) &&
                (t.asset.Signature? || (t.asset.Register? && pool[i].asset.Register?)
                 || pool[i].Code() > t.Code()
                 || (pool[i].Code() == t.Code() &&
                       (pool[i].createdAt > t.createdAt || (pool[i].createdAt == t.createdAt && pool[i].id > t.id))))
  {
    hide Concerns, DependsOn;
    forall i | 0 <= i < |pool| {
      DependsIs(pool[i], t);
    }
  }
}
