/** core/service/transaction: the services that apply and undo each kind of
    transaction on the repositories. */
module Services {
  import opened Model
  import opened Transactions
  import opened Verify
  import opened Store
  import opened VoteLists
  import opened RewardService
  import opened Caught

  // ---------- what a service must do ----------

  /** Everything a transaction does but take its fee. */
  ghost predicate Served(l: Ledger, m: Ledger, t: Transaction) {
    && (forall b :: Acc(m, b) == ApplyWith(t, ReferralsRead(l, t), b, AssetChange(t, b), Acc(l, b)))
    && m.delegates == ApplyDelegates(l.delegates, t)
    && m.usernames == l.usernames + NamesTaken(t)
    && m.confirmed == l.confirmed
  }

  ghost predicate Unserved(l: Ledger, m: Ledger, t: Transaction) {
    && (forall b :: Acc(m, b) == UndoWith(t, b, -AssetChange(t, b), Acc(l, b)))
    && m.delegates == UndoDelegates(l.delegates, t)
    && m.usernames == l.usernames - NamesFreed(l.delegates, t)
    && m.confirmed == l.confirmed
  }

  /** The same, but for what is left of the sender's vote list. */
  ghost predicate ServedLeaving(l: Ledger, m: Ledger, t: Transaction, left: multiset<Address>) {
    && (forall b :: Acc(m, b) ==
          LeaveVotes(t.sender, left, b, ApplyWith(t, ReferralsRead(l, t), b, AssetChange(t, b), Acc(l, b))))
    && m.delegates == ApplyDelegates(l.delegates, t)
    && m.usernames == l.usernames + NamesTaken(t)
    && m.confirmed == l.confirmed
  }

  ghost predicate UnservedLeaving(l: Ledger, m: Ledger, t: Transaction, left: multiset<Address>) {
    && (forall b :: Acc(m, b) == LeaveVotes(t.sender, left, b, UndoWith(t, b, -AssetChange(t, b), Acc(l, b))))
    && m.delegates == UndoDelegates(l.delegates, t)
    && m.usernames == l.usernames - NamesFreed(l.delegates, t)
    && m.confirmed == l.confirmed
  }

  /** Where the undo of a vote throws: only the list and some delegates have changed. */
  ghost predicate ThrownAt(l: Ledger, m: Ledger, t: Transaction, left: multiset<Address>)
    requires t.asset.Vote?
  {
    && (forall b :: Acc(m, b) == LeaveVotes(t.sender, left, b, Acc(l, b)))
    && m.delegates == Tally(l.delegates, multiset(Reached(l.delegates, t)), -Sign(t))
    && m.usernames == l.usernames && m.confirmed == l.confirmed
  }

  lemma ServedLeaves(l: Ledger, m: Ledger, t: Transaction)
    requires Served(l, m, t)
    ensures ServedLeaving(l, m, t, Acc(m, t.sender).votes)
  {
    hide ApplyWith, AssetChange, ReferralsRead, Acc;
  }

  lemma UnservedLeaves(l: Ledger, m: Ledger, t: Transaction)
    requires Unserved(l, m, t)
    ensures UnservedLeaving(l, m, t, Acc(m, t.sender).votes)
  {
    hide UndoWith, AssetChange, Acc;
  }

  /** `m` is `l` with the account of `who` replaced by `core` and balances shifted. */
  ghost predicate Reworked(l: Ledger, m: Ledger, who: Address, core: Account, f: Address -> int) {
    forall b :: Acc(m, b) == Credit(if b == who then core else Acc(l, b), f(b))
  }

  /** What the program dereferences without a check: the accounts and delegates of
      the transaction exist. */
  predicate Ready(store: LedgerStore, t: Transaction)
    reads store
  {
    && t.sender in store.accounts
    && Payable(store.accounts, t.Sponsors())
    && (t.asset.Vote? ==>
          && SUPPLY_ADDRESS in store.accounts
          && forall i :: 0 <= i < |t.asset.votes| ==> t.asset.votes[i].delegate in store.delegates)
  }

  lemma CreditFields(t: Transaction, chain: seq<Address>, x: Account, d: int)
    requires !t.asset.Register?
    ensures ApplyFields(t, chain, Credit(x, d)) == Credit(ApplyFields(t, chain, x), d)
    ensures UndoFields(t, Credit(x, d)) == Credit(UndoFields(t, x), d)
  {
  }

  lemma ReworkedServes(l: Ledger, m: Ledger, t: Transaction, f: Address -> int)
    requires !t.asset.Register?
    requires Reworked(l, m, t.sender, ApplyFields(t, [], Acc(l, t.sender)), f)
    requires forall b :: f(b) == AssetChange(t, b)
    ensures forall b :: Acc(m, b) == ApplyWith(t, ReferralsRead(l, t), b, AssetChange(t, b), Acc(l, b))
  {
    hide Acc, AssetChange;
    forall b
      ensures Acc(m, b) == ApplyWith(t, ReferralsRead(l, t), b, AssetChange(t, b), Acc(l, b))
    {
      hide ApplyFields, Credit;
      CreditFields(t, [], Acc(l, b), AssetChange(t, b));
    }
  }

  lemma ReworkedUnserves(l: Ledger, m: Ledger, t: Transaction, f: Address -> int)
    requires Reworked(l, m, t.sender, UndoFields(t, Acc(l, t.sender)), f)
    requires forall b :: f(b) == -AssetChange(t, b)
    ensures forall b :: Acc(m, b) == UndoWith(t, b, -AssetChange(t, b), Acc(l, b))
  {
    hide Acc, AssetChange;
    forall b
      ensures Acc(m, b) == UndoWith(t, b, -AssetChange(t, b), Acc(l, b))
    {
    }
  }

  lemma ReworkedShift(l: Ledger, m: Ledger, n: Ledger, who: Address, core: Account, f: Address -> int, g: Address -> int, h: Address -> int)
    requires Reworked(l, m, who, core, f) && Shifted(m, n, g) && forall b :: h(b) == f(b) + g(b)
    ensures Reworked(l, n, who, core, h)
  {
    hide Acc;
  }

  lemma ReworkedStart(l: Ledger, m: Ledger, who: Address, core: Account, f: Address -> int)
    requires forall b :: Acc(m, b) == if b == who then core else Acc(l, b)
    requires forall b :: f(b) == 0
    ensures Reworked(l, m, who, core, f)
  {
    hide Acc;
  }

  lemma ReworkedCore(l: Ledger, m: Ledger, n: Ledger, who: Address, core: Account, stakes: seq<Stake>, f: Address -> int)
    requires Reworked(l, m, who, core, f)
    requires forall b :: Acc(n, b) == if b == who then Acc(m, b).(stakes := stakes) else Acc(m, b)
    ensures Reworked(l, n, who, core.(stakes := stakes), f)
  {
    hide Acc;
  }

  // ---------- send ----------

  method SendApply(store: LedgerStore, t: Transaction)
    requires t.asset.Send? && Ready(store, t)
    modifies store`accounts
    ensures old(store.accounts.Keys) <= store.accounts.Keys && t.asset.recipient in store.accounts
    ensures Served(old(store.View()), store.View(), t)
  {
    hide Shifted, Acc, Abstract, AbstractAll, AssetChange, SponsorChange;
    SendTotal(t);
    ghost var before := store.View();
    var amount := t.asset.sent;
    store.AddBalance(t.sender, -amount);
    ghost var paid := store.View();
    store.Ensure(t.asset.recipient);
    store.AddBalance(t.asset.recipient, amount);
    ShiftTwice(before, paid, store.View(), (b: Address) => At(t.sender, b, -amount),
               (b: Address) => At(t.asset.recipient, b, amount), (b: Address) => AssetChange(t, b));
    ShiftServes(before, store.View(), t);
  }

  lemma SendTotal(t: Transaction)
    requires t.asset.Send?
    ensures forall b :: AssetChange(t, b) == At(t.sender, b, -t.asset.sent) + At(t.asset.recipient, b, t.asset.sent)
  {
  }

  lemma ShiftServes(l: Ledger, m: Ledger, t: Transaction)
    requires t.asset.Send? && Shifted(l, m, (b: Address) => AssetChange(t, b))
    requires m.delegates == l.delegates && m.usernames == l.usernames && m.confirmed == l.confirmed
    ensures Served(l, m, t)
  {
    hide Acc, AssetChange;
    SendFields(t, Acc(l, t.sender));
    ReworkedServes(l, m, t, (b: Address) => AssetChange(t, b));
  }

  lemma SendFields(t: Transaction, x: Account)
    requires t.asset.Send?
    ensures ApplyFields(t, [], x) == x && UndoFields(t, x) == x
  {
  }

  /** What undoing dereferences: also the recipient. A delegate that is missing makes
      it throw. */
  predicate ReadyUndo(store: LedgerStore, t: Transaction)
    reads store
  {
    && t.sender in store.accounts
    && Payable(store.accounts, t.Sponsors())
    && (t.asset.Send? ==> t.asset.recipient in store.accounts)
    && (t.asset.Vote? ==> SUPPLY_ADDRESS in store.accounts)
  }

  method SendUndo(store: LedgerStore, t: Transaction)
    requires t.asset.Send? && ReadyUndo(store, t)
    modifies store`accounts
    ensures store.accounts.Keys == old(store.accounts.Keys)
    ensures Unserved(old(store.View()), store.View(), t)
  {
    hide Shifted, Acc, Abstract, AbstractAll, AssetChange, SponsorChange;
    SendTotal(t);
    ghost var before := store.View();
    var amount := t.asset.sent;
    store.AddBalance(t.sender, amount);
    ghost var paid := store.View();
    store.AddBalance(t.asset.recipient, -amount);
    ShiftTwice(before, paid, store.View(), (b: Address) => At(t.sender, b, amount),
               (b: Address) => At(t.asset.recipient, b, -amount), (b: Address) => -AssetChange(t, b));
    ShiftUnserves(before, store.View(), t);
  }

  lemma ShiftUnserves(l: Ledger, m: Ledger, t: Transaction)
    requires t.asset.Send? && Shifted(l, m, (b: Address) => -AssetChange(t, b))
    requires m.delegates == l.delegates && m.usernames == l.usernames && m.confirmed == l.confirmed
    ensures Unserved(l, m, t)
  {
    hide Acc, AssetChange;
    SendFields(t, Acc(l, t.sender));
    ReworkedUnserves(l, m, t, (b: Address) => -AssetChange(t, b));
  }

  // ---------- register ----------

  method RegisterApply(store: LedgerStore, t: Transaction)
    requires t.asset.Register? && Ready(store, t)
    modifies store`accounts
    ensures old(store.accounts.Keys) <= store.accounts.Keys && t.asset.referral in store.accounts
    ensures Served(old(store.View()), store.View(), t)
  {
    hide Acc;
    ghost var before := store.View();
    var referral := t.asset.referral;
    store.Ensure(referral);
    ReferralsAt(store.accounts, referral, before);
    var chain := store.accounts[referral].referrals;
    var target := NEW_ACCOUNT.(referrals := ReferralsVia(referral, chain));
    store.Put(t.sender, target);
    forall b
      ensures Acc(store.View(), b) == ApplyWith(t, chain, b, AssetChange(t, b), Acc(before, b))
    {
      NoCredit(Acc(before, b));
    }
  }

  lemma ReferralsAt(m: map<Address, AccountData>, a: Address, l: Ledger)
    requires a in m && l.accounts == AbstractAll(m)
    ensures Acc(l, a).referrals == m[a].referrals
  {
    AbstractAt(m, a);
  }

  lemma NoCredit(x: Account)
    ensures Credit(x, 0) == x
  {
  }

  method RegisterUndo(store: LedgerStore, t: Transaction)
    requires t.asset.Register? && ReadyUndo(store, t)
    modifies store`accounts
    ensures store.accounts.Keys == old(store.accounts.Keys)
    ensures Unserved(old(store.View()), store.View(), t)
  {
    hide Acc, Abstract, AbstractAll, UndoFields, UndoWith, AssetChange;
    ghost var before := store.View();
    store.StoredAt(t.sender);
    RegisterFields(t, store.accounts[t.sender]);
    store.Put(t.sender, store.accounts[t.sender].(referrals := []));
    FieldsUnserve(before, store.View(), t);
  }

  lemma RegisterFields(t: Transaction, x: AccountData)
    requires t.asset.Register?
    ensures UndoFields(t, Abstract(x)) == Abstract(x.(referrals := []))
  {
  }

  /** Services that move no money. */
  lemma FieldsServe(l: Ledger, m: Ledger, t: Transaction)
    requires t.asset.Signature? || t.asset.NewDelegate? || t.IsDown()
    requires forall b :: Acc(m, b) == if b == t.sender then ApplyFields(t, [], Acc(l, b)) else Acc(l, b)
    ensures forall b :: Acc(m, b) == ApplyWith(t, ReferralsRead(l, t), b, AssetChange(t, b), Acc(l, b))
  {
    hide Acc, ApplyFields;
    ReworkedStart(l, m, t.sender, ApplyFields(t, [], Acc(l, t.sender)), (b: Address) => AssetChange(t, b));
    ReworkedServes(l, m, t, (b: Address) => AssetChange(t, b));
  }

  lemma FieldsUnserve(l: Ledger, m: Ledger, t: Transaction)
    requires t.asset.Register? || t.asset.Signature? || t.asset.NewDelegate? || t.IsDown()
    requires forall b :: Acc(m, b) == if b == t.sender then UndoFields(t, Acc(l, b)) else Acc(l, b)
    ensures forall b :: Acc(m, b) == UndoWith(t, b, -AssetChange(t, b), Acc(l, b))
  {
    hide Acc, UndoFields;
    ReworkedStart(l, m, t.sender, UndoFields(t, Acc(l, t.sender)), (b: Address) => -AssetChange(t, b));
    ReworkedUnserves(l, m, t, (b: Address) => -AssetChange(t, b));
  }

  // ---------- signature ----------

  lemma SignatureFields(t: Transaction, x: AccountData)
    requires t.asset.Signature?
    ensures ApplyFields(t, [], Abstract(x)) == Abstract(x.(secondKey := Some(t.asset.publicKey)))
    ensures UndoFields(t, Abstract(x)) == Abstract(x.(secondKey := None))
  {
  }

  method SignatureApply(store: LedgerStore, t: Transaction)
    requires t.asset.Signature? && Ready(store, t)
    modifies store`accounts
    ensures store.accounts.Keys == old(store.accounts.Keys)
    ensures Served(old(store.View()), store.View(), t)
  {
    hide Acc, Abstract, AbstractAll, ApplyFields, ApplyWith, AssetChange, ReferralsRead;
    ghost var before := store.View();
    store.StoredAt(t.sender);
    SignatureFields(t, store.accounts[t.sender]);
    store.Put(t.sender, store.accounts[t.sender].(secondKey := Some(t.asset.publicKey)));
    FieldsServe(before, store.View(), t);
  }

  method SignatureUndo(store: LedgerStore, t: Transaction)
    requires t.asset.Signature? && ReadyUndo(store, t)
    modifies store`accounts
    ensures store.accounts.Keys == old(store.accounts.Keys)
    ensures Unserved(old(store.View()), store.View(), t)
  {
    hide Acc, Abstract, AbstractAll, UndoFields, UndoWith, AssetChange;
    ghost var before := store.View();
    store.StoredAt(t.sender);
    SignatureFields(t, store.accounts[t.sender]);
    store.Put(t.sender, store.accounts[t.sender].(secondKey := None));
    FieldsUnserve(before, store.View(), t);
  }

  // ---------- delegate ----------

  lemma DelegateFields(t: Transaction, x: AccountData)
    requires t.asset.NewDelegate?
    ensures ApplyFields(t, [], Abstract(x)) == Abstract(x.(isDelegate := true))
    ensures UndoFields(t, Abstract(x)) == Abstract(x.(isDelegate := false))
  {
  }

  method DelegateApply(store: LedgerStore, t: Transaction)
    requires t.asset.NewDelegate? && Ready(store, t)
    modifies store`accounts, store`delegates, store`usernames
    ensures store.accounts.Keys == old(store.accounts.Keys)
    ensures Served(old(store.View()), store.View(), t)
  {
    hide Acc, Abstract, AbstractAll, ApplyFields, ApplyWith, AssetChange, ReferralsRead;
    ghost var before := store.View();
    store.StoredAt(t.sender);
    DelegateFields(t, store.accounts[t.sender]);
    store.delegates := store.delegates[t.sender := Delegate(t.asset.username, t.asset.url, 0, 0, 0, 0)];
    store.usernames := store.usernames + {t.asset.username};
    SameAccounts(before, store.View());
    store.Put(t.sender, store.accounts[t.sender].(isDelegate := true));
    FieldsServe(before, store.View(), t);
  }

  lemma SameAccounts(l: Ledger, m: Ledger)
    requires l.accounts == m.accounts
    ensures forall b :: Acc(l, b) == Acc(m, b)
  {
  }

  method DelegateUndo(store: LedgerStore, t: Transaction)
    requires t.asset.NewDelegate? && ReadyUndo(store, t)
    modifies store`accounts, store`delegates, store`usernames
    ensures store.accounts.Keys == old(store.accounts.Keys)
    ensures Unserved(old(store.View()), store.View(), t)
  {
    hide Acc, Abstract, AbstractAll, UndoFields, UndoWith, AssetChange;
    ghost var before := store.View();
    store.StoredAt(t.sender);
    DelegateFields(t, store.accounts[t.sender]);
    if t.sender in store.delegates {
      store.usernames := store.usernames - {store.delegates[t.sender].username};
    }
    store.delegates := store.delegates - {t.sender};
    SameAccounts(before, store.View());
    store.Put(t.sender, store.accounts[t.sender].(isDelegate := false));
    FieldsUnserve(before, store.View(), t);
  }

  // ---------- stake ----------

  method FreezeApply(store: LedgerStore, t: Transaction)
    requires t.asset.Freeze? && Ready(store, t)
    modifies store`accounts
    ensures store.accounts.Keys == old(store.accounts.Keys)
    ensures Served(old(store.View()), store.View(), t)
  {
    hide Acc, Shifted, Reworked, AssetChange, Abstract, AbstractAll, ApplyFields, ApplyWith, ReferralsRead, SponsorChange;
    ghost var before := store.View();
    store.StoredAt(t.sender);
    StakesOf(store.accounts[t.sender]);
    ghost var x := Acc(before, t.sender);
    ghost var stakes := x.stakes + [StakeOf(t)];
    ghost var core := x.(stakes := stakes);
    store.AddBalance(t.sender, -t.asset.amount);
    ghost var paid := store.View();
    ReworkedStart(before, before, t.sender, x, (b: Address) => 0);
    ReworkedShift(before, before, paid, t.sender, x, (b: Address) => 0,
                  (b: Address) => At(t.sender, b, -t.asset.amount), (b: Address) => At(t.sender, b, -t.asset.amount));
    store.SetStakes(t.sender, store.accounts[t.sender].stakes + [StakeOf(t)]);
    ghost var pushed := store.View();
    ReworkedCore(before, paid, pushed, t.sender, x, stakes, (b: Address) => At(t.sender, b, -t.asset.amount));
    SendAirdropReward(store, t.asset.stakeSponsors);
    FreezeTotal(t);
    ReworkedShift(before, pushed, store.View(), t.sender, core, (b: Address) => At(t.sender, b, -t.asset.amount),
                  (b: Address) => SponsorChange(t.asset.stakeSponsors, b), (b: Address) => AssetChange(t, b));
    FreezeFields(t, x);
    ReworkedServes(before, store.View(), t, (b: Address) => AssetChange(t, b));
  }

  lemma StakesOf(x: AccountData)
    ensures Abstract(x).stakes == x.stakes && Abstract(x).votes == multiset(x.votes)
  {
  }

  lemma FreezeTotal(t: Transaction)
    requires t.asset.Freeze?
    ensures forall b :: AssetChange(t, b) == At(t.sender, b, -t.asset.amount) + SponsorChange(t.asset.stakeSponsors, b)
  {
  }

  lemma FreezeFields(t: Transaction, x: Account)
    requires t.asset.Freeze?
    ensures ApplyFields(t, [], x) == x.(stakes := x.stakes + [StakeOf(t)])
    ensures UndoFields(t, x) == x.(stakes := DropSource(x.stakes, t.id))
  {
  }

  /** Drop the stakes of a transaction, walking the array backwards. */
  method DropStakes(stakes: seq<Stake>, id: TrsId) returns (left: seq<Stake>)
    ensures left == DropSource(stakes, id)
  {
    left := stakes;
    var i := |stakes| - 1;
    assert stakes[..i + 1] == stakes;
    while i > -1
      invariant -1 <= i < |stakes| && i < |left|
      invariant left[..i + 1] == stakes[..i + 1]
      invariant DropSource(left[..i + 1], id) + left[i + 1..] == DropSource(stakes, id)
    {
      assert left[..i + 1][..i] == left[..i];
      if left[i].source == id {
        left := left[..i] + left[i + 1..];
      } else {
        assert left[i..] == [left[i]] + left[i + 1..];
      }
      i := i - 1;
    }
    assert left[..0] == [];
  }

  method FreezeUndo(store: LedgerStore, t: Transaction)
    requires t.asset.Freeze? && ReadyUndo(store, t)
    modifies store`accounts
    ensures store.accounts.Keys == old(store.accounts.Keys)
    ensures Unserved(old(store.View()), store.View(), t)
  {
    hide Acc, Shifted, AssetChange, Abstract, AbstractAll, UndoFields, UndoWith, SponsorChange, DropSource;
    ghost var before := store.View();
    store.StoredAt(t.sender);
    StakesOf(store.accounts[t.sender]);
    store.AddBalance(t.sender, t.asset.amount);
    ghost var paid := store.View();
    var left := DropStakes(store.accounts[t.sender].stakes, t.id);
    store.SetStakes(t.sender, left);
    ghost var dropped := store.View();
    UndoAirdropReward(store, t.asset.stakeSponsors);
    Unfrozen(before, paid, dropped, store.View(), t);
  }

  /** The three steps of undoing a stake together. */
  lemma Unfrozen(before: Ledger, paid: Ledger, dropped: Ledger, after: Ledger, t: Transaction)
    requires t.asset.Freeze?
    requires Shifted(before, paid, (b: Address) => At(t.sender, b, t.asset.amount))
    requires forall b :: Acc(dropped, b) ==
               if b == t.sender then Acc(paid, b).(stakes := DropSource(Acc(before, b).stakes, t.id)) else Acc(paid, b)
    requires Shifted(dropped, after, (b: Address) => -SponsorChange(t.asset.stakeSponsors, b))
    ensures forall b :: Acc(after, b) == UndoWith(t, b, -AssetChange(t, b), Acc(before, b))
  {
    hide Acc, Shifted, Reworked, AssetChange, UndoFields, UndoWith, SponsorChange, DropSource;
    var x := Acc(before, t.sender);
    var left := DropSource(x.stakes, t.id);
    var own := (b: Address) => At(t.sender, b, t.asset.amount);
    var none := (b: Address) => 0;
    ReworkedStart(before, before, t.sender, x, none);
    ReworkedShift(before, before, paid, t.sender, x, none, own, own);
    ReworkedCore(before, paid, dropped, t.sender, x, left, own);
    FreezeTotal(t);
    ReworkedShift(before, dropped, after, t.sender, x.(stakes := left), own,
                  (b: Address) => -SponsorChange(t.asset.stakeSponsors, b), (b: Address) => -AssetChange(t, b));
    FreezeFields(t, x);
    ReworkedUnserves(before, after, t, (b: Address) => -AssetChange(t, b));
  }
}
