/** What a block of verified transactions keeps, transaction by transaction. */
module BlockRuns {
  import opened Model
  import opened Transactions
  import opened Inverse
  import opened Verify
  import opened Blocks
  import opened Sound
  import opened Solvent
  import opened Totals

  /** Each transaction passes the check where the block applies it. A down-vote that
      holds an up-vote passes too, but applying it is not followed here. */
  ghost predicate AllVerified(l: Ledger, height: nat, ts: seq<Transaction>) {
    ts == [] ||
    (var init, t := ts[..|ts| - 1], ts[|ts| - 1];
     && AllVerified(l, height, init)
     && WellFormed(t) && DownOnly(t) && Verified(ApplyAll(l, init), height, t))
  }

  /** Each transaction can be undone where the block applies it. */
  predicate AllRegular(l: Ledger, ts: seq<Transaction>) {
    ts == [] || (AllRegular(l, ts[..|ts| - 1]) && Regular(ApplyAll(l, ts[..|ts| - 1]), ts[|ts| - 1]))
  }

  /** Each transaction keeps the ledger consistent where the block applies it. */
  predicate AllKeep(l: Ledger, ts: seq<Transaction>) {
    ts == [] || (AllKeep(l, ts[..|ts| - 1]) && KeepsConsistent(ApplyAll(l, ts[..|ts| - 1]), ts[|ts| - 1]))
  }

  /** Every stake comes from a known transaction. */
  ghost predicate SourcesIn(l: Ledger, ids: set<TrsId>) {
    forall a, i :: 0 <= i < |Acc(l, a).stakes| ==> Acc(l, a).stakes[i].source in ids
  }

  lemma SourcesKept(l: Ledger, ids: set<TrsId>, t: Transaction)
    requires SourcesIn(l, ids)
    ensures SourcesIn(ApplyUnconfirmed(l, t), ids + {t.id})
  {
    hide ApplyUnconfirmed, Change, ReferralsRead;
    var m := ApplyUnconfirmed(l, t);
    forall a, i | 0 <= i < |Acc(m, a).stakes|
      ensures Acc(m, a).stakes[i].source in ids + {t.id}
    {
      ApplyAt(l, t, a);
      if i < |Acc(l, a).stakes| {
        assert Acc(l, a).stakes[i].source in ids;
      }
    }
  }

  lemma SourcesSame(l: Ledger, m: Ledger, ids: set<TrsId>)
    requires SourcesIn(l, ids) && m.accounts == l.accounts
    ensures SourcesIn(m, ids)
  {
    assert forall a :: Acc(m, a) == Acc(l, a);
  }

  lemma SourceNew(l: Ledger, ids: set<TrsId>, t: Transaction)
    requires SourcesIn(l, ids) && t.id !in ids
    ensures NewSource(l, t)
  {
  }

  lemma NewIdsPrefix(confirmed: set<TrsId>, ts: seq<Transaction>)
    requires ts != [] && NewIds(confirmed, ts)
    ensures NewIds(confirmed, ts[..|ts| - 1]) && ts[|ts| - 1].id !in confirmed + Ids(ts[..|ts| - 1])
    ensures confirmed + Ids(ts) == confirmed + Ids(ts[..|ts| - 1]) + {ts[|ts| - 1].id}
  {
    assert ts == ts[..|ts| - 1] + [ts[|ts| - 1]];
  }

  /** A verified block keeps the ledger sane. */
  lemma {:induction false} SaneBlock(l: Ledger, height: nat, ts: seq<Transaction>)
    requires Sane(l) && AllVerified(l, height, ts)
    ensures Sane(ApplyAll(l, ts))
  {
    hide ApplyUnconfirmed, Verified, WellFormed, Sane, DownOnly;
    if ts != [] {
      SaneBlock(l, height, ts[..|ts| - 1]);
      SaneKept(ApplyAll(l, ts[..|ts| - 1]), height, ts[|ts| - 1]);
    }
  }

  lemma {:induction false} SourcesBlock(l: Ledger, ts: seq<Transaction>)
    requires SourcesIn(l, l.confirmed)
    ensures SourcesIn(ApplyAll(l, ts), l.confirmed + Ids(ts))
  {
    hide ApplyUnconfirmed, SourcesIn, Ids;
    if ts != [] {
      var init, t := ts[..|ts| - 1], ts[|ts| - 1];
      SourcesBlock(l, init);
      SourcesKept(ApplyAll(l, init), l.confirmed + Ids(init), t);
      IdsLast(ts);
      assert l.confirmed + Ids(ts) == l.confirmed + Ids(init) + {t.id};
    } else {
      NoIds();
      assert l.confirmed + Ids(ts) == l.confirmed;
    }
  }

  lemma IdsLast(ts: seq<Transaction>)
    requires ts != []
    ensures Ids(ts) == Ids(ts[..|ts| - 1]) + {ts[|ts| - 1].id}
  {
    assert ts == ts[..|ts| - 1] + [ts[|ts| - 1]];
  }

  /** Each transaction of a verified block can be undone where it is applied if and
      only if the block is regular. */
  lemma {:induction false} VerifiedBlockIff(l: Ledger, height: nat, ts: seq<Transaction>)
    requires Sane(l) && AllVerified(l, height, ts) && NewIds(l.confirmed, ts) && SourcesIn(l, l.confirmed)
    ensures AllUndoable(l, ts) <==> AllRegular(l, ts)
  {
    hide ApplyUnconfirmed, Verified, Regular, Undoable, WellFormed, Sane, SourcesIn, NewIds, NewSource, Ids, DownOnly;
    if ts != [] {
      var init, t := ts[..|ts| - 1], ts[|ts| - 1];
      var m := ApplyAll(l, init);
      NewIdsPrefix(l.confirmed, ts);
      VerifiedBlockIff(l, height, init);
      SaneBlock(l, height, init);
      SourcesBlock(l, init);
      SourceNew(m, l.confirmed + Ids(init), t);
      SaneDelegates(m, t.sender);
      RegularUndoableIff(m, height, t);
    }
  }

  lemma NoIds()
    ensures Ids([]) == {}
  {
  }

  lemma SaneDelegates(l: Ledger, a: Address)
    requires Sane(l)
    ensures Acc(l, a).isDelegate <==> a in l.delegates
  {
  }

  /** Consistency reads names and votes of the delegates, nothing else. */
  lemma DelegatesRead(l: Ledger, m: Ledger)
    requires Consistent(l) && m.accounts == l.accounts && m.usernames == l.usernames
    requires m.delegates.Keys == l.delegates.Keys
    requires forall d :: d in l.delegates ==>
               m.delegates[d].votes == l.delegates[d].votes && m.delegates[d].username == l.delegates[d].username
    ensures Consistent(m)
  {
    hide Voters;
    assert forall a :: Acc(m, a) == Acc(l, a);
    forall u | u in m.usernames
      ensures exists d :: d in m.delegates && m.delegates[d].username == u
    {
      var d :| d in l.delegates && l.delegates[d].username == u;
      assert m.delegates[d].username == u;
    }
  }

  lemma ConfirmConsistent(l: Ledger, t: Transaction)
    requires Consistent(l)
    ensures Consistent(Confirm(l, t))
  {
    hide Consistent;
    DelegatesRead(l, Confirm(l, t));
  }

  lemma {:induction false} ConfirmAllConsistent(l: Ledger, ts: seq<Transaction>)
    requires Consistent(l)
    ensures Consistent(ConfirmAll(l, ts))
  {
    hide Consistent, Confirm;
    if ts != [] {
      ConfirmAllConsistent(l, ts[..|ts| - 1]);
      ConfirmConsistent(ConfirmAll(l, ts[..|ts| - 1]), ts[|ts| - 1]);
    }
  }

  lemma ConfirmAllSane(l: Ledger, ts: seq<Transaction>)
    requires Sane(l)
    ensures Sane(ConfirmAll(l, ts))
  {
    hide ConfirmAll;
    ConfirmAllIds(l, ts);
    ConfirmAllKeys(l, ts);
    assert forall a :: Acc(ConfirmAll(l, ts), a) == Acc(l, a);
  }

  lemma {:induction false} ConfirmAllKeys(l: Ledger, ts: seq<Transaction>)
    ensures ConfirmAll(l, ts).delegates.Keys == l.delegates.Keys
  {
    if ts != [] {
      ConfirmAllKeys(l, ts[..|ts| - 1]);
    }
  }

  /** MAIN: every verified block keeps the ledger sane, and deleting it is exact when
      its transactions are regular. */
  lemma BlockKeeps(l: Ledger, height: nat, ts: seq<Transaction>)
    requires Sane(l) && AllVerified(l, height, ts) && NewIds(l.confirmed, ts) && SourcesIn(l, l.confirmed)
    ensures Sane(ApplyBlock(l, ts))
    ensures SourcesIn(ApplyBlock(l, ts), ApplyBlock(l, ts).confirmed)
    ensures AllRegular(l, ts) ==> DeleteBlock(ApplyBlock(l, ts), ts) == l
  {
    hide ApplyAll, ConfirmAll, AllVerified, DeleteBlock, DelegatesAgree, Normal, Ids, AllRegular, AllUndoable;
    VerifiedBlockIff(l, height, ts);
    SaneBlock(l, height, ts);
    SourcesBlock(l, ts);
    ConfirmAllSane(ApplyAll(l, ts), ts);
    ConfirmAllIds(ApplyAll(l, ts), ts);
    ApplyAllNormal(l, ts);
    SourcesSame(ApplyAll(l, ts), ApplyBlock(l, ts), l.confirmed + Ids(ts));
    if AllRegular(l, ts) {
      DeleteRestores(l, ts);
    }
  }

  /** MAIN: a verified block whose names are free and whose votes are of one sign
      keeps the ledger consistent. */
  lemma BlockConsistent(l: Ledger, height: nat, ts: seq<Transaction>)
    requires Consistent(l) && AllVerified(l, height, ts) && AllKeep(l, ts)
    ensures Consistent(ApplyBlock(l, ts))
  {
    hide Consistent, ApplyAll, ConfirmAll, AllVerified, AllKeep;
    ApplyAllConsistent(l, height, ts);
    ConfirmAllConsistent(ApplyAll(l, ts), ts);
  }

  lemma {:induction false} ApplyAllConsistent(l: Ledger, height: nat, ts: seq<Transaction>)
    requires Consistent(l) && AllVerified(l, height, ts) && AllKeep(l, ts)
    ensures Consistent(ApplyAll(l, ts))
  {
    hide ApplyUnconfirmed, Verified, WellFormed, Consistent, KeepsConsistent, DownOnly;
    if ts != [] {
      ApplyAllConsistent(l, height, ts[..|ts| - 1]);
      ConsistentKept(ApplyAll(l, ts[..|ts| - 1]), height, ts[|ts| - 1]);
    }
  }

  function SumFees(ts: seq<Transaction>): int {
    if ts == [] then 0 else SumFees(ts[..|ts| - 1]) + ts[|ts| - 1].fee
  }

  lemma TotalConfirm(l: Ledger, m: Ledger)
    requires l.accounts == m.accounts
    ensures Total(l) == Total(m)
  {
    SumZero(l.accounts.Keys, (a: Address) => Worth(Acc(m, a)) - Worth(Acc(l, a)));
    SumAdd(l.accounts.Keys, (a: Address) => Worth(Acc(l, a)), (a: Address) => Worth(Acc(m, a)) - Worth(Acc(l, a)),
           (a: Address) => Worth(Acc(m, a)));
  }

  lemma {:induction false} ApplyAllTotal(l: Ledger, height: nat, ts: seq<Transaction>)
    requires AllVerified(l, height, ts)
    ensures Total(ApplyAll(l, ts)) == Total(l) - SumFees(ts)
  {
    hide ApplyUnconfirmed, Total, WellFormed, Verified;
    if ts != [] {
      var init, t := ts[..|ts| - 1], ts[|ts| - 1];
      ApplyAllTotal(l, height, init);
      VerifiedLands(ApplyAll(l, init), height, t);
      OnlyTheFeeLeaves(ApplyAll(l, init), t);
    }
  }

  lemma VerifiedLands(l: Ledger, height: nat, t: Transaction)
    requires WellFormed(t) && Verified(l, height, t)
    ensures Lands(t, Acc(l, t.sender)) && UnstakeRight(l, t)
  {
  }

  /** MAIN: a verified block takes exactly its fees out of the ledger. */
  lemma BlockTotal(l: Ledger, height: nat, ts: seq<Transaction>)
    requires AllVerified(l, height, ts)
    ensures Total(ApplyBlock(l, ts)) == Total(l) - SumFees(ts)
  {
    hide ApplyAll, ConfirmAll, AllVerified, Total;
    ApplyAllTotal(l, height, ts);
    ConfirmAllIds(ApplyAll(l, ts), ts);
    TotalConfirm(ApplyAll(l, ts), ApplyBlock(l, ts));
  }

  predicate OrdinarySenders(ts: seq<Transaction>) {
    forall i :: 0 <= i < |ts| ==> ts[i].sender != SUPPLY_ADDRESS && ts[i].sender != AIRDROP_ADDRESS
  }

  /** MAIN: no verified block of ordinary senders makes a balance negative. */
  lemma {:induction false} BlockBalances(l: Ledger, height: nat, ts: seq<Transaction>)
    requires BalancesPositive(l) && AllVerified(l, height, ts) && OrdinarySenders(ts)
    ensures BalancesPositive(ApplyAll(l, ts))
  {
    hide ApplyUnconfirmed, Verified, WellFormed, BalancesPositive;
    if ts != [] {
      BlockBalances(l, height, ts[..|ts| - 1]);
      BalancesKept(ApplyAll(l, ts[..|ts| - 1]), height, ts[|ts| - 1]);
    }
  }
}
