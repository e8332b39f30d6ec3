/** Blocks and rounds while transactions are pooled: applying, deleting, paying and
    checking act on the ledger below the pool, and exactly when. */
module UnderPool {
  import opened Model
  import opened Transactions
  import opened Inverse
  import opened Commute
  import opened Blocks
  import opened Rounds
  import opened Pool
  import opened PoolOrder

  // ---------- one transaction of a block and one of the pool ----------

  /** What must hold of a block's `b` and a pooled `t`, from the two alone. */
  predicate Apart(b: Transaction, t: Transaction) {
    && b.sender != t.sender
    && (b.asset.Register? ==>
          && Change(t, b.sender) == 0
          && !(t.asset.Register? && b.asset.referral == t.sender))
    && (b.asset.NewDelegate? ==>
          && VoteKeys(t)[b.sender] == 0
          && (t.asset.NewDelegate? ==> b.asset.username != t.asset.username))
  }

  lemma ApartSeparate(l: Ledger, b: Transaction, t: Transaction)
    requires Held(l, t) && Apart(b, t)
    ensures Separate(l.delegates, b, t)
  {
  }

  /** A registration takes over a balance that the pool has changed. */
  lemma RegistrantLeaks(l: Ledger, b: Transaction, t: Transaction)
    requires b.asset.Register? && b.sender != t.sender && Change(t, b.sender) != 0
    ensures UndoUnconfirmed(ApplyUnconfirmed(l, b), t) != ApplyUnconfirmed(UndoUnconfirmed(l, t), b)
  {
    hide ApplyUnconfirmed, UndoUnconfirmed, Change;
    ApplyAt(l, b, b.sender);
    UndoAt(ApplyUnconfirmed(l, b), t, b.sender);
    UndoAt(l, t, b.sender);
    ApplyAt(UndoUnconfirmed(l, t), b, b.sender);
  }

  /** A new delegate that the pool votes for loses those votes. */
  lemma NewcomerLeaks(l: Ledger, b: Transaction, t: Transaction)
    requires b.asset.NewDelegate? && b.sender != t.sender && b.sender in VoteKeys(t)
    ensures UndoUnconfirmed(ApplyUnconfirmed(l, b), t) != ApplyUnconfirmed(UndoUnconfirmed(l, t), b)
    ensures b.sender in UndoUnconfirmed(ApplyUnconfirmed(l, b), t).delegates
    ensures UndoUnconfirmed(ApplyUnconfirmed(l, b), t).delegates[b.sender].votes == -Sign(t) * VoteKeys(t)[b.sender]
  {
    hide ApplyUnconfirmed, UndoUnconfirmed;
    ApplyParts(l, b);
    UndoParts(ApplyUnconfirmed(l, b), t);
    UndoParts(l, t);
    ApplyParts(UndoUnconfirmed(l, t), b);
  }

  /** A name that a pooled new delegate holds is freed with it. */
  lemma NameLeaks(l: Ledger, b: Transaction, t: Transaction)
    requires b.asset.NewDelegate? && t.asset.NewDelegate? && b.sender != t.sender
    requires b.asset.username == t.asset.username && Held(l, t)
    ensures UndoUnconfirmed(ApplyUnconfirmed(l, b), t) != ApplyUnconfirmed(UndoUnconfirmed(l, t), b)
  {
    hide ApplyUnconfirmed, UndoUnconfirmed, Acc;
    ApplyParts(l, b);
    UndoParts(ApplyUnconfirmed(l, b), t);
    UndoParts(l, t);
    ApplyParts(UndoUnconfirmed(l, t), b);
    assert b.asset.username in ApplyUnconfirmed(UndoUnconfirmed(l, t), b).usernames;
    assert b.asset.username !in UndoUnconfirmed(ApplyUnconfirmed(l, b), t).usernames;
  }

  /** MAIN: a block's transaction acts below a pooled one of another sender as if it
      were not pooled, if and only if the two are apart. */
  lemma ApplyUndoIff(l: Ledger, b: Transaction, t: Transaction)
    requires Held(l, t) && b.sender != t.sender
    ensures UndoUnconfirmed(ApplyUnconfirmed(l, b), t) == ApplyUnconfirmed(UndoUnconfirmed(l, t), b) <==> Apart(b, t)
  {
    hide ApplyUnconfirmed, UndoUnconfirmed, Separate, Change;
    if Apart(b, t) {
      ApartSeparate(l, b, t);
      ApplyUndoCommute(l, b, t);
    } else if b.asset.Register? {
      if Change(t, b.sender) != 0 {
        RegistrantLeaks(l, b, t);
      } else {
        RegistrationLeaks(l, b, t);
      }
    } else if b.sender in VoteKeys(t) {
      NewcomerLeaks(l, b, t);
    } else {
      NameLeaks(l, b, t);
    }
  }

  /** What `batchRemove` leaves in the pool is apart from the block, but for two
      cases: a registration below a pooled one, and a new delegate that the pool
      votes for or whose name it takes. */
  lemma KeptApart(b: Transaction, t: Transaction)
    requires !DependsOn(b, t)
    requires b.sender != SUPPLY_ADDRESS && b.sender != AIRDROP_ADDRESS
    requires t.asset.Vote? && t.asset.reward == 0 && t.asset.unstake == 0 ==> t.asset.voteSponsors == []
    ensures Change(t, b.sender) == 0
    ensures Apart(b, t) <==>
              && !(b.asset.Register? && t.asset.Register? && b.asset.referral == t.sender)
              && (b.asset.NewDelegate? ==>
                    b.sender !in VoteKeys(t) && (t.asset.NewDelegate? ==> b.asset.username != t.asset.username))
  {
    hide SponsorChange;
    SponsorChangeOutside(t.Sponsors(), b.sender);
  }

  // ---------- a block applied over the pool ----------

  ghost predicate AllApart(ts: seq<Transaction>, p: seq<Transaction>) {
    forall k, i :: 0 <= k < |ts| && 0 <= i < |p| ==> Apart(ts[k], p[i])
  }

  ghost predicate ApartFrom(b: Transaction, p: seq<Transaction>) {
    forall i :: 0 <= i < |p| ==> Apart(b, p[i])
  }

  lemma ReadyApplied(l: Ledger, b: Transaction, t: Transaction)
    requires UndoReady(l, t) && Apart(b, t)
    ensures UndoReady(ApplyUnconfirmed(l, b), t)
  {
    hide ApplyUnconfirmed, Change, Acc;
    ApplyParts(l, b);
    ApplyAt(l, b, t.sender);
  }

  lemma {:induction false} ApplyUnderPool(l: Ledger, p: seq<Transaction>, b: Transaction)
    requires AllReady(l, p) && ApartFrom(b, p)
    ensures UndoAll(ApplyUnconfirmed(l, b), p) == ApplyUnconfirmed(UndoAll(l, p), b)
    ensures AllReady(ApplyUnconfirmed(l, b), p)
    decreases |p|
  {
    hide ApplyUnconfirmed, UndoUnconfirmed, Apart, Targets, Held;
    if p != [] {
      var init, t := p[..|p| - 1], p[|p| - 1];
      ReadyApplied(l, b, t);
      ApartSender(b, t);
      ApplyUndoIff(l, b, t);
      assert forall i :: 0 <= i < |init| ==> init[i] == p[i];
      ApplyUnderPool(UndoUnconfirmed(l, t), init, b);
    }
  }

  lemma ApartSender(b: Transaction, t: Transaction)
    requires Apart(b, t)
    ensures b.sender != t.sender
  {
  }

  lemma {:induction false} ApplyAllUnderPool(l: Ledger, p: seq<Transaction>, ts: seq<Transaction>)
    requires AllReady(l, p) && AllApart(ts, p)
    ensures UndoAll(ApplyAll(l, ts), p) == ApplyAll(UndoAll(l, p), ts)
    ensures AllReady(ApplyAll(l, ts), p)
  {
    hide ApplyUnconfirmed, UndoAll, AllReady, Apart;
    if ts != [] {
      var init := ts[..|ts| - 1];
      assert forall k :: 0 <= k < |init| ==> init[k] == ts[k];
      ApplyAllUnderPool(l, p, init);
      ApplyUnderPool(ApplyAll(l, init), p, ts[|ts| - 1]);
    }
  }

  // ---------- steps that change only ids and counters ----------

  predicate SameShown(x: Account, y: Account) {
    x.votes == y.votes && x.referrals == y.referrals && x.isDelegate == y.isDelegate
  }

  /** What the undos look up. */
  ghost predicate SameLookups(l: Ledger, m: Ledger) {
    && l.delegates.Keys == m.delegates.Keys
    && (forall d :: d in l.delegates ==> l.delegates[d].username == m.delegates[d].username)
    && (forall a :: SameShown(Acc(l, a), Acc(m, a)))
  }

  lemma SameReady(l: Ledger, m: Ledger, t: Transaction)
    requires SameLookups(l, m)
    ensures UndoReady(l, t) <==> UndoReady(m, t)
  {
    hide Acc;
  }

  lemma ConfirmLookups(l: Ledger, b: Transaction)
    ensures SameLookups(l, Confirm(l, b)) && SameLookups(l, Unconfirm(l, b))
    ensures Confirm(l, b).accounts == l.accounts && Unconfirm(l, b).accounts == l.accounts
  {
    assert forall a :: Acc(Confirm(l, b), a) == Acc(l, a) && Acc(Unconfirm(l, b), a) == Acc(l, a);
  }

  lemma UnconfirmUndoCommute(l: Ledger, b: Transaction, t: Transaction)
    ensures UndoUnconfirmed(Unconfirm(l, b), t) == Unconfirm(UndoUnconfirmed(l, t), b)
  {
    ConfirmUndoDelegates(l.delegates, VoteKeys(b), -Sign(b), t);
  }

  lemma {:induction false} ConfirmOneUnder(l: Ledger, p: seq<Transaction>, b: Transaction)
    ensures UndoAll(Confirm(l, b), p) == Confirm(UndoAll(l, p), b)
    ensures UndoAll(Unconfirm(l, b), p) == Unconfirm(UndoAll(l, p), b)
    ensures AllReady(Confirm(l, b), p) <==> AllReady(l, p)
    ensures AllReady(Unconfirm(l, b), p) <==> AllReady(l, p)
    decreases |p|
  {
    hide UndoUnconfirmed, Confirm, Unconfirm, UndoReady, SameLookups;
    if p != [] {
      var t := p[|p| - 1];
      ConfirmUndoCommute(l, b, t);
      UnconfirmUndoCommute(l, b, t);
      ConfirmLookups(l, b);
      SameReady(l, Confirm(l, b), t);
      SameReady(l, Unconfirm(l, b), t);
      ConfirmOneUnder(UndoUnconfirmed(l, t), p[..|p| - 1], b);
    }
  }

  lemma {:induction false} ConfirmUnderPool(l: Ledger, p: seq<Transaction>, ts: seq<Transaction>)
    ensures UndoAll(ConfirmAll(l, ts), p) == ConfirmAll(UndoAll(l, p), ts)
    ensures AllReady(ConfirmAll(l, ts), p) <==> AllReady(l, p)
  {
    hide UndoAll, AllReady, Confirm;
    if ts != [] {
      ConfirmUnderPool(l, p, ts[..|ts| - 1]);
      ConfirmOneUnder(ConfirmAll(l, ts[..|ts| - 1]), p, ts[|ts| - 1]);
    }
  }

  /** MAIN: a block applied while transactions are pooled acts on the chain's ledger
      as if the pool were empty, and every pooled transaction can still be undone. */
  lemma BlockUnderPool(l: Ledger, p: seq<Transaction>, ts: seq<Transaction>)
    requires AllReady(l, p) && AllApart(ts, p)
    ensures UndoAll(ApplyBlock(l, ts), p) == ApplyBlock(UndoAll(l, p), ts)
    ensures AllReady(ApplyBlock(l, ts), p)
  {
    hide AllApart, ApplyAll, ConfirmAll, UndoAll, AllReady;
    ApplyAllUnderPool(l, p, ts);
    ConfirmUnderPool(ApplyAll(l, ts), p, ts);
  }

  // ---------- a block deleted under the pool ----------

  function UnconfirmAll(l: Ledger, ts: seq<Transaction>): Ledger
    decreases |ts|
  {
    if ts == [] then l else UnconfirmAll(Unconfirm(l, ts[|ts| - 1]), ts[..|ts| - 1])
  }

  lemma {:induction false} UnconfirmAllUnder(l: Ledger, p: seq<Transaction>, ts: seq<Transaction>)
    ensures UndoAll(UnconfirmAll(l, ts), p) == UnconfirmAll(UndoAll(l, p), ts)
    ensures AllReady(UnconfirmAll(l, ts), p) <==> AllReady(l, p)
    ensures UnconfirmAll(l, ts).accounts == l.accounts
    decreases |ts|
  {
    hide UndoAll, AllReady, Unconfirm, SameLookups;
    if ts != [] {
      ConfirmOneUnder(l, p, ts[|ts| - 1]);
      ConfirmLookups(l, ts[|ts| - 1]);
      UnconfirmAllUnder(Unconfirm(l, ts[|ts| - 1]), p, ts[..|ts| - 1]);
    }
  }

  /** Deleting is unconfirming all and undoing all. */
  lemma {:induction false} DeleteIs(l: Ledger, ts: seq<Transaction>)
    ensures DeleteBlock(l, ts) == UndoAll(UnconfirmAll(l, ts), ts)
    decreases |ts|
  {
    hide UndoUnconfirmed, Unconfirm;
    if ts != [] {
      var init, t := ts[..|ts| - 1], ts[|ts| - 1];
      var m := UndoUnconfirmed(Unconfirm(l, t), t);
      DeleteIs(m, init);
      UnconfirmAllUnder(Unconfirm(l, t), [t], init);
      UndoOne(UnconfirmAll(Unconfirm(l, t), init), t);
      UndoOne(Unconfirm(l, t), t);
    }
  }

  lemma UndoOne(l: Ledger, t: Transaction)
    ensures UndoAll(l, [t]) == UndoUnconfirmed(l, t)
  {
    hide UndoUnconfirmed;
    assert [t][..0] == [];
    assert UndoAll(UndoUnconfirmed(l, t), []) == UndoUnconfirmed(l, t);
  }

  lemma UndoBoth(l: Ledger, p: seq<Transaction>, q: seq<Transaction>)
    ensures UndoAll(l, p + q) == UndoAll(UndoAll(l, q), p)
    ensures AllReady(l, p + q) <==> AllReady(l, q) && AllReady(UndoAll(l, q), p)
  {
    hide UndoAll, AllReady;
    AllReadyFrom(l, p + q, |p|);
    assert (p + q)[|p|..] == q && (p + q)[..|p|] == p;
  }

  lemma ReturnsSame(l: Ledger, m: Ledger, p: seq<Transaction>, q: seq<Transaction>)
    requires l.accounts == m.accounts
    ensures SameReturns(l, p, q) <==> SameReturns(m, p, q)
  {
    hide SameReturnsAt;
    assert forall a :: Acc(l, a) == Acc(m, a);
  }

  /** MAIN: deleting the last block under a pool gives the ledger of the chain without
      it if and only if every stake gives back as many milestones whether the block
      or the pool is undone first, while each finds what it looks up. */
  lemma DeleteUnderPoolIff(l: Ledger, p: seq<Transaction>, ts: seq<Transaction>)
    requires Normal(l) && AllReady(l, ts + p) && AllReady(l, p + ts)
    ensures UndoAll(DeleteBlock(l, ts), p) == DeleteBlock(UndoAll(l, p), ts) <==> SameReturns(l, p + ts, ts + p)
    ensures AllReady(DeleteBlock(l, ts), p)
  {
    hide UndoAll, AllReady, UnconfirmAll, DeleteBlock, SameReturns, Normal;
    var u := UnconfirmAll(l, ts);
    DeleteIs(l, ts);
    DeleteIs(UndoAll(l, p), ts);
    UnconfirmAllUnder(l, p, ts);
    UnconfirmAllUnder(l, p + ts, ts);
    UnconfirmAllUnder(l, ts + p, ts);
    UndoBoth(u, p, ts);
    UndoBoth(u, ts, p);
    NormalSame(l, u);
    SameItemsBoth(p, ts);
    OrderIff(u, p + ts, ts + p);
    ReturnsSame(l, u, p + ts, ts + p);
  }

  lemma NormalSame(l: Ledger, m: Ledger)
    requires Normal(l) && l.accounts == m.accounts
    ensures Normal(m)
  {
  }

  lemma SameItemsBoth(p: seq<Transaction>, q: seq<Transaction>)
    ensures multiset(p + q) == multiset(q + p)
  {
  }

  // ---------- a round paid under the pool ----------

  lemma PayDelegatesUndo(ds: map<Address, Delegate>, gens: multiset<Address>, missed: multiset<Address>, k: int, t: Transaction)
    ensures UndoDelegates(PayDelegates(ds, gens, missed, k), t) == PayDelegates(UndoDelegates(ds, t), gens, missed, k)
    ensures NamesFreed(PayDelegates(ds, gens, missed, k), t) == NamesFreed(ds, t)
  {
    var pt, tp := UndoDelegates(PayDelegates(ds, gens, missed, k), t), PayDelegates(UndoDelegates(ds, t), gens, missed, k);
    assert pt.Keys == tp.Keys;
    forall d | d in pt
      ensures pt[d] == tp[d]
    {
    }
  }

  lemma UndoCredit(t: Transaction, a: Address, d: int, x: Account, paid: int)
    ensures UndoWith(t, a, d, Credit(x, paid)) == Credit(UndoWith(t, a, d, x), paid)
  {
  }

  lemma PayUndoAt(l: Ledger, r: Round, chain: seq<Block>, k: int, t: Transaction, a: Address)
    requires ForgedCount(r) > 0
    ensures Acc(UndoUnconfirmed(Pay(l, r, chain, k), t), a) == Acc(Pay(UndoUnconfirmed(l, t), r, chain, k), a)
  {
    hide UndoUnconfirmed, Pay, FeeShare, Generators, UndoWith, Change, Acc;
    UndoAt(Pay(l, r, chain, k), t, a);
    PayAt(l, r, chain, k, a);
    UndoAt(l, t, a);
    PayAt(UndoUnconfirmed(l, t), r, chain, k, a);
    UndoCredit(t, a, -Change(t, a), Acc(l, a),
               k * FeeShare(RoundBlocks(chain, r)) * multiset(Generators(RoundBlocks(chain, r)))[a]);
  }

  lemma PayUndoCommute(l: Ledger, r: Round, chain: seq<Block>, k: int, t: Transaction)
    requires Normal(l)
    ensures UndoUnconfirmed(Pay(l, r, chain, k), t) == Pay(UndoUnconfirmed(l, t), r, chain, k)
  {
    if ForgedCount(r) == 0 {
      NothingPaid(l, r, chain, k);
      NothingPaid(UndoUnconfirmed(l, t), r, chain, k);
    } else {
      hide UndoUnconfirmed, PayAccounts, PayDelegates, FeeShare, Generators, ForgedCount, Missed, Normal;
      var gens := multiset(Generators(RoundBlocks(chain, r)));
      PayDelegatesUndo(l.delegates, gens, multiset(Missed(r)), k, t);
      UndoParts(Pay(l, r, chain, k), t);
      UndoParts(l, t);
      PayParts(l, r, chain, k);
      PayParts(UndoUnconfirmed(l, t), r, chain, k);
      forall a {
        PayUndoAt(l, r, chain, k, t, a);
      }
      SameLedger(UndoUnconfirmed(Pay(l, r, chain, k), t), Pay(UndoUnconfirmed(l, t), r, chain, k));
    }
  }

  lemma PayLookups(l: Ledger, r: Round, chain: seq<Block>, k: int)
    ensures SameLookups(l, Pay(l, r, chain, k))
  {
    if ForgedCount(r) == 0 {
      NothingPaid(l, r, chain, k);
    } else {
      PayNames(l, r, chain, k);
      hide Pay, FeeShare, Generators, Acc;
      forall a
        ensures SameShown(Acc(l, a), Acc(Pay(l, r, chain, k), a))
      {
        PayAt(l, r, chain, k, a);
      }
    }
  }

  lemma PayNames(l: Ledger, r: Round, chain: seq<Block>, k: int)
    ensures var m := Pay(l, r, chain, k);
      m.delegates.Keys == l.delegates.Keys && forall d :: d in l.delegates ==> m.delegates[d].username == l.delegates[d].username
  {
  }

  /** MAIN: paying a round, or taking it back, never gets in the way of the pool. */
  lemma {:induction false} PayUnderPool(l: Ledger, p: seq<Transaction>, r: Round, chain: seq<Block>, k: int)
    requires Normal(l)
    ensures UndoAll(Pay(l, r, chain, k), p) == Pay(UndoAll(l, p), r, chain, k)
    ensures AllReady(Pay(l, r, chain, k), p) <==> AllReady(l, p)
    decreases |p|
  {
    hide UndoUnconfirmed, Pay, UndoReady, Normal, SameLookups;
    if p != [] {
      var t := p[|p| - 1];
      PayUndoCommute(l, r, chain, k, t);
      PayLookups(l, r, chain, k);
      SameReady(l, Pay(l, r, chain, k), t);
      UndoParts(l, t);
      PayUnderPool(UndoUnconfirmed(l, t), p[..|p| - 1], r, chain, k);
    }
  }
}
