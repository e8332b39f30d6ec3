/** What the transactions of a chain make of a ledger, whatever rounds were closed
    between them. */
module Made {
  import opened Model
  import opened Transactions
  import opened Verify
  import opened Blocks
  import opened BlockRuns
  import opened Rounds

  /** The blocks after the first, applied one after the other. */
  function MadeBy(l: Ledger, chain: seq<Block>): Ledger {
    if |chain| <= 1 then l else ApplyBlock(MadeBy(l, chain[..|chain| - 1]), chain[|chain| - 1].transactions)
  }

  function Unpaid(x: Account): Account {
    x.(balance := 0)
  }

  function Uncounted(d: Delegate): Delegate {
    d.(forgedBlocks := 0, missedBlocks := 0)
  }

  /** Equal but for balances and for the counters of blocks. */
  ghost predicate SameMade(l: Ledger, m: Ledger) {
    && (forall a :: Unpaid(Acc(l, a)) == Unpaid(Acc(m, a)))
    && l.delegates.Keys == m.delegates.Keys
    && (forall d :: d in l.delegates ==> Uncounted(l.delegates[d]) == Uncounted(m.delegates[d]))
    && l.usernames == m.usernames && l.confirmed == m.confirmed
  }

  lemma SameThrough(l: Ledger, m: Ledger, n: Ledger)
    requires SameMade(l, m) && SameMade(m, n)
    ensures SameMade(l, n)
  {
    hide Acc;
  }

  lemma ApplyUnpaid(t: Transaction, chain: seq<Address>, a: Address, d: int, x: Account, y: Account)
    requires Unpaid(x) == Unpaid(y)
    ensures Unpaid(ApplyWith(t, chain, a, d, x)) == Unpaid(ApplyWith(t, chain, a, d, y))
  {
  }

  lemma ApplyUncounted(ds: map<Address, Delegate>, es: map<Address, Delegate>, t: Transaction)
    requires ds.Keys == es.Keys && forall d :: d in ds ==> Uncounted(ds[d]) == Uncounted(es[d])
    ensures var dt, et := ApplyDelegates(ds, t), ApplyDelegates(es, t);
      dt.Keys == et.Keys && forall d :: d in dt ==> Uncounted(dt[d]) == Uncounted(et[d])
  {
    var dt, et := ApplyDelegates(ds, t), ApplyDelegates(es, t);
    forall d | d in dt
      ensures d in et && Uncounted(dt[d]) == Uncounted(et[d])
    {
      if t.asset.Vote? {
        CountedSame(ds[d], es[d], Sign(t) * VoteKeys(t)[d]);
      }
    }
    assert dt.Keys == et.Keys;
  }

  lemma CountedSame(d: Delegate, e: Delegate, n: int)
    requires Uncounted(d) == Uncounted(e)
    ensures Uncounted(AddVotes(d, n)) == Uncounted(AddVotes(e, n))
    ensures Uncounted(AddConfirmed(d, n)) == Uncounted(AddConfirmed(e, n))
  {
  }

  lemma ApplySame(l: Ledger, m: Ledger, t: Transaction)
    requires SameMade(l, m)
    ensures SameMade(ApplyUnconfirmed(l, t), ApplyUnconfirmed(m, t))
  {
    hide ApplyUnconfirmed, Change, ApplyDelegates, ApplyWith, Acc;
    ApplyParts(l, t);
    ApplyParts(m, t);
    ApplyUncounted(l.delegates, m.delegates, t);
    ReadSame(l, m, t);
    forall a
      ensures Unpaid(Acc(ApplyUnconfirmed(l, t), a)) == Unpaid(Acc(ApplyUnconfirmed(m, t), a))
    {
      ApplyAt(l, t, a);
      ApplyAt(m, t, a);
      ApplyUnpaid(t, ReferralsRead(l, t), a, Change(t, a), Acc(l, a), Acc(m, a));
    }
  }

  lemma ReadSame(l: Ledger, m: Ledger, t: Transaction)
    requires SameMade(l, m)
    ensures ReferralsRead(l, t) == ReferralsRead(m, t)
  {
    if t.asset.Register? {
      assert Unpaid(Acc(l, t.asset.referral)).referrals == Unpaid(Acc(m, t.asset.referral)).referrals;
    }
  }

  lemma ConfirmSame(l: Ledger, m: Ledger, t: Transaction)
    requires SameMade(l, m)
    ensures SameMade(Confirm(l, t), Confirm(m, t))
  {
    hide Acc;
    var k, keys := Sign(t), VoteKeys(t);
    forall d | d in l.delegates
      ensures Uncounted(AddConfirmed(l.delegates[d], k * keys[d])) == Uncounted(AddConfirmed(m.delegates[d], k * keys[d]))
    {
      CountedSame(l.delegates[d], m.delegates[d], k * keys[d]);
    }
    ConfirmAccounts(l, t);
    ConfirmAccounts(m, t);
  }

  lemma ConfirmAccounts(l: Ledger, t: Transaction)
    ensures forall a :: Acc(Confirm(l, t), a) == Acc(l, a)
  {
  }

  lemma {:induction false} ApplyAllSame(l: Ledger, m: Ledger, ts: seq<Transaction>)
    requires SameMade(l, m)
    ensures SameMade(ApplyAll(l, ts), ApplyAll(m, ts))
  {
    hide ApplyUnconfirmed, SameMade;
    if ts != [] {
      ApplyAllSame(l, m, ts[..|ts| - 1]);
      ApplySame(ApplyAll(l, ts[..|ts| - 1]), ApplyAll(m, ts[..|ts| - 1]), ts[|ts| - 1]);
    }
  }

  lemma {:induction false} ConfirmAllSame(l: Ledger, m: Ledger, ts: seq<Transaction>)
    requires SameMade(l, m)
    ensures SameMade(ConfirmAll(l, ts), ConfirmAll(m, ts))
  {
    hide Confirm, SameMade;
    if ts != [] {
      ConfirmAllSame(l, m, ts[..|ts| - 1]);
      ConfirmSame(ConfirmAll(l, ts[..|ts| - 1]), ConfirmAll(m, ts[..|ts| - 1]), ts[|ts| - 1]);
    }
  }

  /** A block makes the same of ledgers that differ in what rounds paid. */
  lemma BlockSame(l: Ledger, m: Ledger, ts: seq<Transaction>)
    requires SameMade(l, m)
    ensures SameMade(ApplyBlock(l, ts), ApplyBlock(m, ts))
  {
    hide ApplyAll, ConfirmAll, SameMade;
    ApplyAllSame(l, m, ts);
    ConfirmAllSame(ApplyAll(l, ts), ApplyAll(m, ts), ts);
  }

  /** Paying a round, or taking it back, makes nothing. */
  lemma PaySame(l: Ledger, r: Round, chain: seq<Block>, k: int)
    ensures SameMade(l, Pay(l, r, chain, k))
  {
    if ForgedCount(r) > 0 {
      PayUncounted(l, r, chain, k);
      hide Pay, FeeShare, Generators;
      forall a
        ensures Unpaid(Acc(l, a)) == Unpaid(Acc(Pay(l, r, chain, k), a))
      {
        PayAt(l, r, chain, k, a);
      }
    }
  }

  lemma PayUncounted(l: Ledger, r: Round, chain: seq<Block>, k: int)
    ensures var m := Pay(l, r, chain, k);
      && m.delegates.Keys == l.delegates.Keys && m.usernames == l.usernames && m.confirmed == l.confirmed
      && forall d :: d in l.delegates ==> Uncounted(l.delegates[d]) == Uncounted(m.delegates[d])
  {
  }

  /** Whether a block can be undone does not depend on what rounds paid. */
  lemma {:induction false} RegularSame(l: Ledger, m: Ledger, ts: seq<Transaction>)
    requires SameMade(l, m)
    ensures AllRegular(l, ts) <==> AllRegular(m, ts)
  {
    hide ApplyAll, SameMade, Regular;
    if ts != [] {
      var init, t := ts[..|ts| - 1], ts[|ts| - 1];
      RegularSame(l, m, init);
      ApplyAllSame(l, m, init);
      OneRegularSame(ApplyAll(l, init), ApplyAll(m, init), t);
    }
  }

  lemma OneRegularSame(l: Ledger, m: Ledger, t: Transaction)
    requires SameMade(l, m)
    ensures Regular(l, t) <==> Regular(m, t)
  {
    hide Acc;
    assert Unpaid(Acc(l, t.sender)).stakes == Unpaid(Acc(m, t.sender)).stakes;
  }
}
