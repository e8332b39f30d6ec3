/** The repositories of accounts, delegates and confirmed transactions, as the
    node keeps and changes them in memory. */
module Store {
  import opened Model
  import opened Transactions

  /** An account as stored: its vote list is ordered. */
  datatype AccountData = AccountData(
    balance: int,
    votes: seq<Address>,
    stakes: seq<Stake>,
    referrals: seq<Address>,
    secondKey: Option<Key>,
    isDelegate: bool)

  const NEW_ACCOUNT := AccountData(0, [], [], [], None, false)

  function Abstract(x: AccountData): Account {
    Account(x.balance, multiset(x.votes), x.stakes, x.referrals, x.secondKey, x.isDelegate)
  }

  function AbstractAll(m: map<Address, AccountData>): map<Address, Account> {
    map a | a in m && Abstract(m[a]) != EMPTY_ACCOUNT :: Abstract(m[a])
  }

  lemma AbstractAt(m: map<Address, AccountData>, a: Address)
    ensures Find(AbstractAll(m), a) == if a in m then Abstract(m[a]) else EMPTY_ACCOUNT
  {
  }

  lemma UpdateAt(m: map<Address, AccountData>, a: Address, x: AccountData, b: Address)
    ensures Find(AbstractAll(m[a := x]), b) == if b == a then Abstract(x) else Find(AbstractAll(m), b)
  {
    AbstractAt(m, b);
    AbstractAt(m[a := x], b);
  }

  /** `m` is `l` with `f` added to the balances. */
  ghost predicate Shifted(l: Ledger, m: Ledger, f: Address -> int) {
    forall a :: Acc(m, a) == Credit(Acc(l, a), f(a))
  }

  lemma ShiftTwice(l: Ledger, m: Ledger, n: Ledger, f: Address -> int, g: Address -> int, h: Address -> int)
    requires Shifted(l, m, f) && Shifted(m, n, g) && forall a :: h(a) == f(a) + g(a)
    ensures Shifted(l, n, h)
  {
    hide Acc;
  }

  lemma ShiftNone(l: Ledger, f: Address -> int)
    requires forall a :: f(a) == 0
    ensures Shifted(l, l, f)
  {
    hide Acc;
  }

  lemma AbstractCredit(x: AccountData, amount: int)
    ensures Abstract(x.(balance := x.balance + amount)) == Credit(Abstract(x), amount)
  {
  }

  lemma AbsentAt(m: map<Address, AccountData>, a: Address, l: Ledger)
    requires a !in m && l.accounts == AbstractAll(m)
    ensures Acc(l, a) == EMPTY_ACCOUNT == Abstract(NEW_ACCOUNT)
  {
  }

  class LedgerStore {
    var accounts: map<Address, AccountData>
    var delegates: map<Address, Delegate>
    var usernames: set<string>
    var confirmed: set<TrsId>

    /** The ledger that the repositories hold. */
    ghost function View(): (l: Ledger)
      reads this
      ensures Normal(l)
    {
      Ledger(AbstractAll(accounts), delegates, usernames, confirmed)
    }

    lemma StoredAt(a: Address)
      requires a in accounts
      ensures Acc(View(), a) == Abstract(accounts[a])
    {
      AbstractAt(accounts, a);
    }

    constructor ()
      ensures View() == Ledger(map[], map[], {}, {})
    {
      accounts, delegates, usernames, confirmed := map[], map[], {}, {};
    }

    /** Put `x` at an address; a new account replaces an old one. */
    method Put(a: Address, x: AccountData)
      modifies `accounts
      ensures accounts == old(accounts)[a := x]
      ensures forall b :: Acc(View(), b) == if b == a then Abstract(x) else Acc(old(View()), b)
    {
      accounts := accounts[a := x];
      forall b {
        UpdateAt(old(accounts), a, x, b);
      }
    }

    method SetVotes(a: Address, votes: seq<Address>)
      requires a in accounts
      modifies `accounts
      ensures accounts == old(accounts)[a := old(accounts)[a].(votes := votes)]
      ensures forall b :: Acc(View(), b) ==
                if b == a then Acc(old(View()), b).(votes := multiset(votes)) else Acc(old(View()), b)
    {
      AbstractAt(accounts, a);
      Put(a, accounts[a].(votes := votes));
    }

    method SetStakes(a: Address, stakes: seq<Stake>)
      requires a in accounts
      modifies `accounts
      ensures accounts == old(accounts)[a := old(accounts)[a].(stakes := stakes)]
      ensures forall b :: Acc(View(), b) ==
                if b == a then Acc(old(View()), b).(stakes := stakes) else Acc(old(View()), b)
    {
      AbstractAt(accounts, a);
      Put(a, accounts[a].(stakes := stakes));
    }

    method AddBalance(a: Address, amount: int)
      requires a in accounts
      modifies `accounts
      ensures accounts == old(accounts)[a := old(accounts)[a].(balance := old(accounts)[a].balance + amount)]
      ensures Shifted(old(View()), View(), (b: Address) => At(a, b, amount))
    {
      hide Acc, AbstractAll, Abstract;
      StoredAt(a);
      AbstractCredit(accounts[a], amount);
      ghost var before := View();
      Put(a, accounts[a].(balance := accounts[a].balance + amount));
      forall b
        ensures Acc(View(), b) == Credit(Acc(before, b), At(a, b, amount))
      {
      }
    }

    /** Create an empty account where there is none; the ledger stays the same. */
    method Ensure(a: Address)
      modifies `accounts
      ensures a in accounts && old(accounts.Keys) <= accounts.Keys
      ensures forall b :: b in old(accounts) ==> accounts[b] == old(accounts)[b]
      ensures View() == old(View())
    {
      if a !in accounts {
        hide Acc, AbstractAll, Abstract, Normal;
        ghost var before := View();
        Put(a, NEW_ACCOUNT);
        AbsentAt(old(accounts), a, before);
        ghost var after := View();
        assert forall b :: Acc(after, b) == Acc(before, b);
        SameLedger(after, before);
      }
    }
  }
}
