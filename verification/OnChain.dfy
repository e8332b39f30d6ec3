/** The transactions of a chain, one after the other: accounts, but for what rounds
    pay, are what these make, and no registration ever meets an account in use. */
module OnChain {
  import opened Model
  import opened Transactions
  import opened Verify
  import opened Blocks
  import opened BlockRuns
  import opened Rounds
  import opened Node
  import opened Journal
  import opened Runs
  import M = Made

  /** The transactions of all blocks after the first. */
  function Flat(chain: seq<Block>): seq<Transaction> {
    if |chain| <= 1 then [] else Flat(chain[..|chain| - 1]) + chain[|chain| - 1].transactions
  }

  // ---------- accounts ----------

  lemma AccountsOnly(l: Ledger, m: Ledger, t: Transaction)
    requires l.accounts == m.accounts
    ensures ApplyUnconfirmed(l, t).accounts == ApplyUnconfirmed(m, t).accounts
  {
    hide ApplyAccounts;
  }

  lemma {:induction false} AllAccountsOnly(l: Ledger, m: Ledger, ts: seq<Transaction>)
    requires l.accounts == m.accounts
    ensures ApplyAll(l, ts).accounts == ApplyAll(m, ts).accounts
  {
    hide ApplyUnconfirmed;
    if ts != [] {
      AllAccountsOnly(l, m, ts[..|ts| - 1]);
      AccountsOnly(ApplyAll(l, ts[..|ts| - 1]), ApplyAll(m, ts[..|ts| - 1]), ts[|ts| - 1]);
    }
  }

  lemma {:induction false} ApplyBoth(l: Ledger, ts: seq<Transaction>, more: seq<Transaction>)
    ensures ApplyAll(l, ts + more) == ApplyAll(ApplyAll(l, ts), more)
  {
    hide ApplyUnconfirmed;
    if more == [] {
      assert ts + more == ts;
    } else {
      ApplyBoth(l, ts, more[..|more| - 1]);
      assert (ts + more)[..|ts + more| - 1] == ts + more[..|more| - 1];
    }
  }

  /** The accounts a chain makes are those its transactions make. */
  lemma {:induction false} FlatAccounts(l: Ledger, chain: seq<Block>)
    ensures M.MadeBy(l, chain).accounts == ApplyAll(l, Flat(chain)).accounts
  {
    hide ApplyAll, ConfirmAll;
    if |chain| <= 1 {
      NoneApplied(l);
    } else {
      var init, ts := chain[..|chain| - 1], chain[|chain| - 1].transactions;
      FlatAccounts(l, init);
      ConfirmAllIds(ApplyAll(M.MadeBy(l, init), ts), ts);
      AllAccountsOnly(M.MadeBy(l, init), ApplyAll(l, Flat(init)), ts);
      ApplyBoth(l, Flat(init), ts);
    }
  }

  lemma NoneApplied(l: Ledger)
    ensures ApplyAll(l, []) == l
  {
  }

  /** The ledger before the `i`-th of these transactions. */
  function Until(l: Ledger, ts: seq<Transaction>, i: nat): Ledger
    requires i <= |ts|
  {
    ApplyAll(l, ts[..i])
  }

  lemma UntilNext(l: Ledger, ts: seq<Transaction>, i: nat)
    requires i < |ts|
    ensures Until(l, ts, i + 1) == ApplyUnconfirmed(Until(l, ts, i), ts[i])
  {
    hide ApplyUnconfirmed;
    assert ts[..i + 1][..i] == ts[..i];
  }

  // ---------- registrations ----------

  /** A registration meets an account without stakes and referrals. */
  predicate LawfulAt(l: Ledger, t: Transaction) {
    t.asset.Register? ==> Acc(l, t.sender).stakes == [] && Acc(l, t.sender).referrals == []
  }

  ghost predicate Lawful(l: Ledger, ts: seq<Transaction>) {
    forall i :: 0 <= i < |ts| ==> LawfulAt(Until(l, ts, i), ts[i])
  }

  lemma UntilBefore(l: Ledger, ts: seq<Transaction>, more: seq<Transaction>, i: nat)
    requires i < |ts|
    ensures (ts + more)[i] == ts[i] && Until(l, ts + more, i) == Until(l, ts, i)
  {
    assert (ts + more)[..i] == ts[..i];
  }

  lemma UntilAfter(l: Ledger, ts: seq<Transaction>, more: seq<Transaction>, i: nat)
    requires |ts| <= i < |ts| + |more|
    ensures (ts + more)[i] == more[i - |ts|] && Until(l, ts + more, i) == Until(ApplyAll(l, ts), more, i - |ts|)
  {
    hide ApplyAll;
    assert (ts + more)[..i] == ts + more[..i - |ts|];
    ApplyBoth(l, ts, more[..i - |ts|]);
  }

  lemma LawfulMore(l: Ledger, ts: seq<Transaction>, more: seq<Transaction>)
    requires Lawful(l, ts) && Lawful(ApplyAll(l, ts), more)
    ensures Lawful(l, ts + more)
  {
    hide ApplyAll, Until, LawfulAt;
    var all := ts + more;
    forall i | 0 <= i < |all|
      ensures LawfulAt(Until(l, all, i), all[i])
    {
      if i < |ts| {
        UntilBefore(l, ts, more, i);
      } else {
        UntilAfter(l, ts, more, i);
      }
    }
  }

  lemma LawfulSame(l: Ledger, m: Ledger, ts: seq<Transaction>)
    requires M.SameMade(l, m) && Lawful(l, ts)
    ensures Lawful(m, ts)
  {
    hide ApplyAll, M.SameMade, Acc;
    forall i | 0 <= i < |ts|
      ensures LawfulAt(Until(m, ts, i), ts[i])
    {
      M.ApplyAllSame(l, m, ts[..i]);
      SameParts(Until(l, ts, i), Until(m, ts, i), ts[i].sender);
    }
  }

  lemma SameParts(l: Ledger, m: Ledger, a: Address)
    requires M.SameMade(l, m)
    ensures Acc(l, a).stakes == Acc(m, a).stakes && Acc(l, a).referrals == Acc(m, a).referrals
  {
    hide Acc;
    assert M.Unpaid(Acc(l, a)) == M.Unpaid(Acc(m, a));
  }

  lemma LawfulAccounts(l: Ledger, m: Ledger, ts: seq<Transaction>)
    requires l.accounts == m.accounts && Lawful(l, ts)
    ensures Lawful(m, ts)
  {
    hide ApplyAll;
    forall i | 0 <= i < |ts|
      ensures Until(m, ts, i).accounts == Until(l, ts, i).accounts
    {
      AllAccountsOnly(l, m, ts[..i]);
    }
  }

  /** A verified block is lawful. */
  lemma {:induction false} VerifiedLawful(l: Ledger, height: nat, ts: seq<Transaction>)
    requires AllVerified(l, height, ts)
    ensures Lawful(l, ts)
  {
    hide ApplyAll, Verified, WellFormed, DownOnly;
    if ts != [] {
      var init, t := ts[..|ts| - 1], ts[|ts| - 1];
      VerifiedLawful(l, height, init);
      VerifiedRegistrant(ApplyAll(l, init), height, t);
      OneLawful(ApplyAll(l, init), t);
      LawfulMore(l, init, [t]);
      assert init + [t] == ts;
    }
  }

  lemma VerifiedRegistrant(l: Ledger, height: nat, t: Transaction)
    requires Verified(l, height, t)
    ensures t.asset.Register? ==> Acc(l, t.sender) == EMPTY_ACCOUNT
  {
  }

  lemma OneLawful(l: Ledger, t: Transaction)
    requires t.asset.Register? ==> Acc(l, t.sender) == EMPTY_ACCOUNT
    ensures Lawful(l, [t])
  {
    NoneApplied(l);
    assert [t][..0] == [];
  }

  lemma {:induction false} JournalLawful(start: Node, j: seq<Event>, hash: Hash)
    requires IsStart(start) && LegalJournal(start, j, hash)
    ensures Lawful(start.ledger, Flat(Replay(start, j, hash).chain))
  {
    hide NodeOk, Forward, Append, Legal, M.SameMade, M.MadeBy, Lawful, IsStart, ApplyAll;
    StartChain(start);
    if j == [] {
      NothingLawful(start.ledger);
    } else {
      var m := Replay(start, Init(j), hash);
      JournalLawful(start, Init(j), hash);
      ReplayOk(start, Init(j), hash);
      LegalMeans(m, Last(j));
      if Last(j).Appended? {
        var b := Last(j).block;
        AppendedVerified(m, b);
        VerifiedLawful(m.ledger, Last(m.chain).height, b.transactions);
        JournalMade(start, Init(j), hash);
        LawfulSame(m.ledger, M.MadeBy(start.ledger, m.chain), b.transactions);
        FlatAccounts(start.ledger, m.chain);
        LawfulAccounts(M.MadeBy(start.ledger, m.chain), ApplyAll(start.ledger, Flat(m.chain)), b.transactions);
        LawfulMore(start.ledger, Flat(m.chain), b.transactions);
        AppendChain(m, b);
        assert (m.chain + [b])[..|m.chain|] == m.chain;
      } else {
        ForwardChain(m, hash);
      }
    }
  }

  lemma StartChain(start: Node)
    requires IsStart(start)
    ensures |start.chain| == 1 && NodeOk(start) && Flat(start.chain) == []
  {
    hide NodeOk;
  }

  lemma NothingLawful(l: Ledger)
    ensures Lawful(l, [])
  {
  }

  lemma AppendedVerified(n: Node, b: Block)
    requires n.rounds != [] && n.chain != [] && Legal(n, b)
    ensures AllVerified(n.ledger, Last(n.chain).height, b.transactions)
  {
  }

  lemma ForwardChain(n: Node, hash: Hash)
    requires n.rounds != [] && n.chain != [] && Last(n.rounds) != []
    ensures Forward(n, hash).chain == n.chain
  {
  }

  /** MAIN: after every run, stakes and referrals are those the transactions of the
      chain make, one after the other, and no registration met an account in use. */
  lemma RunIsFlat(start: Node, ops: seq<Op>, hash: Hash, a: Address)
    requires IsStart(start) && Careful(start, ops, hash)
    ensures var n := Run(start, ops, hash);
      var ts := Flat(n.chain);
      && Lawful(start.ledger, ts)
      && Acc(n.ledger, a).stakes == Acc(Until(start.ledger, ts, |ts|), a).stakes
      && Acc(n.ledger, a).referrals == Acc(Until(start.ledger, ts, |ts|), a).referrals
  {
    hide Run, LegalJournal, Replay, NodeOk, M.SameMade, M.MadeBy, Lawful, ApplyAll;
    var n := Run(start, ops, hash);
    assert Journaled(start, n, hash);
    var j :| LegalJournal(start, j, hash) && Replay(start, j, hash) == n;
    JournalLawful(start, j, hash);
    RunMade(start, ops, hash);
    SameParts(n.ledger, M.MadeBy(start.ledger, n.chain), a);
    FlatAccounts(start.ledger, n.chain);
    var ts := Flat(n.chain);
    assert ts[..|ts|] == ts;
  }
}
