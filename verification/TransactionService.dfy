/** core/service/transaction.ts: applying, undoing, confirming and unconfirming a
    transaction of any kind, and the check before. */
module TransactionService {
  import opened Model
  import opened Transactions
  import opened Verify
  import opened Store
  import opened RewardService
  import opened Services
  import opened VoteLists
  import opened VoteService
  import opened Caught
  import Pool

  /** A vote list after applying and after undoing, entry by entry. */
  function ListAfter(list: seq<Address>, t: Transaction): seq<Address> {
    if t.IsDown() then CutAll(list, Keys(t.asset.votes))
    else if t.IsUp() then list + Keys(t.asset.votes)
    else list
  }

  function ListBack(list: seq<Address>, t: Transaction): seq<Address> {
    if t.IsDown() then list + Keys(t.asset.votes)
    else if t.IsUp() then CutAll(list, Keys(t.asset.votes))
    else list
  }

  /** When the list holds what is cut, it is the list of the specification. */
  lemma ListsAre(list: seq<Address>, t: Transaction)
    ensures (t.IsDown() ==> VoteKeys(t) <= multiset(list)) ==> multiset(ListAfter(list, t)) == ApplyVotes(t, multiset(list))
    ensures (t.IsUp() ==> VoteKeys(t) <= multiset(list)) ==> multiset(ListBack(list, t)) == UndoVotes(t, multiset(list))
  {
    hide CutAll;
    if t.asset.Vote? && VoteKeys(t) <= multiset(list) {
      CutAllMultiset(list, Keys(t.asset.votes));
    }
  }

  /** Taking the fee first and serving then is applying. */
  lemma FeeThenServe(l: Ledger, paid: Ledger, m: Ledger, t: Transaction, left: multiset<Address>)
    requires Shifted(l, paid, (b: Address) => At(t.sender, b, -t.fee)) && ServedLeaving(paid, m, t, left)
    requires paid.delegates == l.delegates && paid.usernames == l.usernames && paid.confirmed == l.confirmed
    requires Normal(m)
    ensures m == Leaving(ApplyUnconfirmed(l, t), t.sender, left)
  {
    hide Acc, ApplyUnconfirmed, ApplyWith, AssetChange, ApplyDelegates, Normal, Leaving;
    var applied := ApplyUnconfirmed(l, t);
    ReadSame(l, paid, t);
    forall b
      ensures Acc(m, b) == Acc(Leaving(applied, t.sender, left), b)
    {
      ApplyAt(l, t, b);
      LeavingAt(applied, t.sender, left, b);
      FeeFields(t, ReferralsRead(l, t), b, Acc(l, b));
    }
    ApplyParts(l, t);
    LeavingParts(applied, t.sender, left);
    SameLedger(m, Leaving(applied, t.sender, left));
  }

  lemma ReadSame(l: Ledger, paid: Ledger, t: Transaction)
    requires Shifted(l, paid, (b: Address) => At(t.sender, b, -t.fee))
    ensures ReferralsRead(paid, t) == ReferralsRead(l, t)
  {
  }

  lemma FeeFields(t: Transaction, chain: seq<Address>, b: Address, x: Account)
    ensures ApplyWith(t, chain, b, AssetChange(t, b), Credit(x, At(t.sender, b, -t.fee))) ==
              ApplyWith(t, chain, b, Change(t, b), x)
    ensures UndoWith(t, b, -AssetChange(t, b), Credit(x, At(t.sender, b, t.fee))) == UndoWith(t, b, -Change(t, b), x)
  {
    hide AssetChange, ApplyFields, UndoFields;
    assert Credit(Credit(x, At(t.sender, b, -t.fee)), AssetChange(t, b)) == Credit(x, Change(t, b));
    assert Credit(Credit(x, At(t.sender, b, t.fee)), -AssetChange(t, b)) == Credit(x, -Change(t, b));
  }

  lemma FeeThenUnserve(l: Ledger, paid: Ledger, m: Ledger, t: Transaction, left: multiset<Address>)
    requires Shifted(l, paid, (b: Address) => At(t.sender, b, t.fee)) && UnservedLeaving(paid, m, t, left)
    requires paid.delegates == l.delegates && paid.usernames == l.usernames && paid.confirmed == l.confirmed
    requires Normal(m)
    ensures m == Leaving(UndoUnconfirmed(l, t), t.sender, left)
  {
    hide Acc, UndoUnconfirmed, UndoWith, AssetChange, UndoDelegates, Normal, Leaving;
    var undone := UndoUnconfirmed(l, t);
    forall b
      ensures Acc(m, b) == Acc(Leaving(undone, t.sender, left), b)
    {
      UndoAt(l, t, b);
      LeavingAt(undone, t.sender, left, b);
      FeeFields(t, [], b, Acc(l, b));
    }
    UndoParts(l, t);
    LeavingParts(undone, t.sender, left);
    SameLedger(m, Leaving(undone, t.sender, left));
  }

  lemma FeeThenThrow(l: Ledger, paid: Ledger, m: Ledger, t: Transaction, left: multiset<Address>)
    requires t.asset.Vote?
    requires Shifted(l, paid, (b: Address) => At(t.sender, b, t.fee)) && ThrownAt(paid, m, t, left)
    requires paid.delegates == l.delegates && paid.usernames == l.usernames && paid.confirmed == l.confirmed
    requires Normal(m)
    ensures m == CutShort(l, t, left)
  {
    hide Acc, CutShort, Normal, Tally, Reached;
    forall b
      ensures Acc(m, b) == Acc(CutShort(l, t, left), b)
    {
      CutAt(l, t, left, b);
    }
    CutParts(l, t, left);
    SameLedger(m, CutShort(l, t, left));
  }

  /** Take the fee and serve the transaction. A key of a down-vote that is not listed
      takes the last entry of the list; otherwise this is applying. */
  method Apply(store: LedgerStore, t: Transaction)
    requires Ready(store, t)
    modifies store`accounts, store`delegates, store`usernames
    ensures old(store.accounts.Keys) <= store.accounts.Keys
    ensures t.asset.Send? ==> t.asset.recipient in store.accounts
    ensures t.asset.Register? ==> t.asset.referral in store.accounts
    ensures !t.IsDown() ==> store.View() == ApplyUnconfirmed(old(store.View()), t)
    ensures t.IsDown() ==>
              store.View() == Leaving(ApplyUnconfirmed(old(store.View()), t), t.sender,
                                      multiset(ListAfter(old(store.accounts[t.sender].votes), t)))
    ensures t.IsDown() && VoteKeys(t) <= Acc(old(store.View()), t.sender).votes ==>
              store.View() == ApplyUnconfirmed(old(store.View()), t)
  {
    hide Acc, AbstractAll, Shifted, Served, ServedLeaving, ApplyUnconfirmed, Abstract, Leaving, CutAll;
    ghost var before := store.View();
    ghost var list := store.accounts[t.sender].votes;
    ListedAt(store, t.sender);
    store.AddBalance(t.sender, -t.fee);
    ghost var paid := store.View();
    match t.asset {
      case Register(_) => RegisterApply(store, t);
      case Send(_, _) => SendApply(store, t);
      case Signature(_) => SignatureApply(store, t);
      case NewDelegate(_, _) => DelegateApply(store, t);
      case Freeze(_, _, _) => FreezeApply(store, t);
      case Vote(_, _, _, _) =>
        if t.IsDown() {
          DownApply(store, t);
        } else {
          UpApply(store, t);
        }
    }
    if t.IsDown() {
      FeeThenServe(before, paid, store.View(), t, multiset(ListAfter(list, t)));
      Relisted(before, list, t);
    } else {
      ServedLeaves(paid, store.View(), t);
      FeeThenServe(before, paid, store.View(), t, Acc(store.View(), t.sender).votes);
      LeavesItself(store.View(), ApplyUnconfirmed(before, t), before, paid, t);
    }
  }

  lemma ListedAt(store: LedgerStore, a: Address)
    requires a in store.accounts
    ensures Acc(store.View(), a).votes == multiset(store.accounts[a].votes)
  {
    AbstractAt(store.accounts, a);
  }

  lemma Relisted(l: Ledger, list: seq<Address>, t: Transaction)
    requires Acc(l, t.sender).votes == multiset(list) && t.asset.Vote?
    ensures (t.IsDown() ==> VoteKeys(t) <= multiset(list)) ==>
              Leaving(ApplyUnconfirmed(l, t), t.sender, multiset(ListAfter(list, t))) == ApplyUnconfirmed(l, t)
    ensures (t.IsUp() ==> VoteKeys(t) <= multiset(list)) ==>
              Leaving(UndoUnconfirmed(l, t), t.sender, multiset(ListBack(list, t))) == UndoUnconfirmed(l, t)
  {
    hide ApplyUnconfirmed, UndoUnconfirmed, Leaving, Change, ApplyVotes, UndoVotes, ListAfter, ListBack;
    ListsAre(list, t);
    ApplyAt(l, t, t.sender);
    UndoAt(l, t, t.sender);
    ApplyParts(l, t);
    UndoParts(l, t);
    if t.IsDown() ==> VoteKeys(t) <= multiset(list) {
      LeavingNone(ApplyUnconfirmed(l, t), t.sender, multiset(ListAfter(list, t)));
    }
    if t.IsUp() ==> VoteKeys(t) <= multiset(list) {
      LeavingNone(UndoUnconfirmed(l, t), t.sender, multiset(ListBack(list, t)));
    }
  }

  /** A served transaction leaves the list that applying gives. */
  lemma LeavesItself(m: Ledger, applied: Ledger, l: Ledger, paid: Ledger, t: Transaction)
    requires applied == ApplyUnconfirmed(l, t) && Served(paid, m, t)
    requires Shifted(l, paid, (b: Address) => At(t.sender, b, -t.fee))
    requires m == Leaving(applied, t.sender, Acc(m, t.sender).votes)
    ensures m == applied
  {
    hide Leaving, ApplyUnconfirmed, ApplyWith, AssetChange, Acc;
    ReadSame(l, paid, t);
    ApplyAt(l, t, t.sender);
    FeeFields(t, ReferralsRead(l, t), t.sender, Acc(l, t.sender));
    ApplyParts(l, t);
    LeavingNone(applied, t.sender, Acc(m, t.sender).votes);
  }

  lemma LeavesBack(m: Ledger, undone: Ledger, l: Ledger, paid: Ledger, t: Transaction)
    requires undone == UndoUnconfirmed(l, t) && Unserved(paid, m, t)
    requires Shifted(l, paid, (b: Address) => At(t.sender, b, t.fee))
    requires m == Leaving(undone, t.sender, Acc(m, t.sender).votes)
    ensures m == undone
  {
    hide Leaving, UndoUnconfirmed, UndoWith, AssetChange, Acc;
    UndoAt(l, t, t.sender);
    FeeFields(t, [], t.sender, Acc(l, t.sender));
    UndoParts(l, t);
    LeavingNone(undone, t.sender, Acc(m, t.sender).votes);
  }

  /** What is left of the list when an undo has thrown. */
  function ListCut(ds: map<Address, Delegate>, list: seq<Address>, t: Transaction): seq<Address>
    requires t.asset.Vote?
  {
    if t.IsDown() then list + Keys(t.asset.votes) else CutUntil(ds, t, list)
  }

  lemma ThrowsIff(l: Ledger, t: Transaction)
    requires t.asset.Vote?
    ensures FirstMissing(l.delegates, Keys(t.asset.votes)) < |t.asset.votes| <==> !Pool.Targets(l, t)
  {
    var keys := Keys(t.asset.votes);
    var k := FirstMissing(l.delegates, keys);
    if k < |keys| {
      assert keys[k] in multiset(keys);
    }
    if d :| d in VoteKeys(t) && d !in l.delegates {
      assert d in keys;
    }
  }

  /** Give the fee back and take back what the transaction did. It throws when a
      delegate it votes for is gone: then only the fee and some keys are taken back. */
  method Undo(store: LedgerStore, t: Transaction) returns (threw: bool)
    requires ReadyUndo(store, t)
    modifies store`accounts, store`delegates, store`usernames
    ensures store.accounts.Keys == old(store.accounts.Keys)
    ensures threw <==> !Pool.Targets(old(store.View()), t)
    ensures !threw ==>
              store.View() == if t.IsUp() then Leaving(UndoUnconfirmed(old(store.View()), t), t.sender,
                                                       multiset(ListBack(old(store.accounts[t.sender].votes), t)))
                              else UndoUnconfirmed(old(store.View()), t)
    ensures !threw && (t.IsUp() ==> VoteKeys(t) <= Acc(old(store.View()), t.sender).votes) ==>
              store.View() == UndoUnconfirmed(old(store.View()), t)
    ensures threw ==> t.asset.Vote?
    ensures threw ==>
              store.View() == CutShort(old(store.View()), t,
                                       multiset(ListCut(old(store.delegates), old(store.accounts[t.sender].votes), t)))
  {
    hide Acc, AbstractAll, Shifted, Unserved, UnservedLeaving, ThrownAt, UndoUnconfirmed, Abstract, Leaving, CutAll, CutShort, FirstMissing,
      Pool.Targets;
    ghost var before := store.View();
    ghost var list := store.accounts[t.sender].votes;
    ListedAt(store, t.sender);
    NoTargets(before, t);
    store.AddBalance(t.sender, t.fee);
    ghost var paid := store.View();
    threw := false;
    match t.asset {
      case Register(_) => RegisterUndo(store, t);
      case Send(_, _) => SendUndo(store, t);
      case Signature(_) => SignatureUndo(store, t);
      case NewDelegate(_, _) => DelegateUndo(store, t);
      case Freeze(_, _, _) => FreezeUndo(store, t);
      case Vote(_, _, _, _) =>
        ThrowsIff(before, t);
        if t.IsDown() {
          threw := DownUndo(store, t);
        } else {
          threw := UpUndo(store, t);
        }
    }
    if threw {
      FeeThenThrow(before, paid, store.View(), t, multiset(ListCut(old(store.delegates), list, t)));
    } else if t.IsUp() {
      AllCut(old(store.delegates), t, list);
      FeeThenUnserve(before, paid, store.View(), t, multiset(ListBack(list, t)));
      Relisted(before, list, t);
    } else {
      UnservedLeaves(paid, store.View(), t);
      FeeThenUnserve(before, paid, store.View(), t, Acc(store.View(), t.sender).votes);
      LeavesBack(store.View(), UndoUnconfirmed(before, t), before, paid, t);
    }
  }

  lemma AllCut(ds: map<Address, Delegate>, t: Transaction, list: seq<Address>)
    requires t.IsUp() && FirstMissing(ds, Keys(t.asset.votes)) >= |t.asset.votes|
    ensures CutUntil(ds, t, list) == ListBack(list, t)
  {
  }

  lemma NoTargets(l: Ledger, t: Transaction)
    ensures !t.asset.Vote? ==> Pool.Targets(l, t)
  {
  }

  lemma ConfirmNone(ds: map<Address, Delegate>, k: int)
    ensures TallyConfirmed(ds, multiset{}, k) == ds
  {
  }

  lemma ConfirmAt(ds: map<Address, Delegate>, keys: multiset<Address>, k: int, e: Address)
    requires e in ds
    ensures TallyConfirmed(ds, keys, k).Keys == ds.Keys && TallyConfirmed(ds, keys, k)[e] == AddConfirmed(ds[e], k * keys[e])
  {
  }

  lemma ConfirmOne(ds: map<Address, Delegate>, keys: multiset<Address>, d: Address, k: int)
    requires d in ds
    ensures var m := TallyConfirmed(ds, keys, k);
      d in m && m[d := AddConfirmed(m[d], k)] == TallyConfirmed(ds, keys + multiset{d}, k)
  {
    hide TallyConfirmed;
    var m := TallyConfirmed(ds, keys, k);
    var n := TallyConfirmed(ds, keys + multiset{d}, k);
    ConfirmAt(ds, keys, k, d);
    ConfirmAt(ds, keys + multiset{d}, k, d);
    forall e | e in ds
      ensures m[d := AddConfirmed(m[d], k)][e] == n[e]
    {
      ConfirmAt(ds, keys, k, e);
      ConfirmAt(ds, keys + multiset{d}, k, e);
      OneKeyMore(k, keys[e]);
    }
  }

  /** Count confirmed votes up (k = 1) or down (k = -1). */
  method CountConfirmed(store: LedgerStore, keys: seq<Address>, k: int)
    requires forall i :: 0 <= i < |keys| ==> keys[i] in store.delegates
    modifies store`delegates
    ensures store.delegates == TallyConfirmed(old(store.delegates), multiset(keys), k)
  {
    hide TallyConfirmed;
    ConfirmNone(store.delegates, k);
    ghost var ds := store.delegates;
    for i := 0 to |keys|
      invariant store.delegates == TallyConfirmed(ds, multiset(keys[..i]), k)
    {
      assert keys[..i + 1] == keys[..i] + [keys[i]];
      ConfirmOne(ds, multiset(keys[..i]), keys[i], k);
      store.delegates := store.delegates[keys[i] := AddConfirmed(store.delegates[keys[i]], k)];
    }
    assert keys[..|keys|] == keys;
  }

  predicate TargetsKnown(ds: map<Address, Delegate>, t: Transaction) {
    t.asset.Vote? ==> forall i :: 0 <= i < |t.asset.votes| ==> t.asset.votes[i].delegate in ds
  }

  method ConfirmTransaction(store: LedgerStore, t: Transaction)
    requires TargetsKnown(store.delegates, t)
    modifies store`delegates, store`confirmed
    ensures store.View() == Confirm(old(store.View()), t)
  {
    hide AbstractAll, TallyConfirmed;
    if t.id in store.confirmed {
      return;
    }
    store.confirmed := store.confirmed + {t.id};
    if t.asset.Vote? {
      CountConfirmed(store, Keys(t.asset.votes), if t.IsDown() then -1 else 1);
    }
  }

  method UnconfirmTransaction(store: LedgerStore, t: Transaction)
    requires TargetsKnown(store.delegates, t)
    modifies store`delegates, store`confirmed
    ensures store.View() == Unconfirm(old(store.View()), t)
  {
    hide AbstractAll, TallyConfirmed;
    if t.id !in store.confirmed {
      return;
    }
    store.confirmed := store.confirmed - {t.id};
    if t.asset.Vote? {
      CountConfirmed(store, Keys(t.asset.votes), if t.IsDown() then 1 else -1);
    }
  }
}
