/** Conservation: what a transaction does to all the money in the ledger. */
module Totals {
  import opened Model
  import opened Transactions
  import opened Inverse
  import opened Verify

  // ---------- sums over a set of addresses ----------

  ghost function SumOver(s: set<Address>, f: Address -> int): int {
    if s == {} then 0 else var a :| a in s; f(a) + SumOver(s - {a}, f)
  }

  lemma {:induction false} SumPick(s: set<Address>, f: Address -> int, a: Address)
    requires a in s
    ensures SumOver(s, f) == f(a) + SumOver(s - {a}, f)
  {
    var b :| b in s && SumOver(s, f) == f(b) + SumOver(s - {b}, f);
    if a != b {
      SumPick(s - {b}, f, a);
      SumPick(s - {a}, f, b);
      assert s - {a} - {b} == s - {b} - {a};
    }
  }

  lemma {:induction false} SumAdd(s: set<Address>, f: Address -> int, g: Address -> int, h: Address -> int)
    requires forall a :: a in s ==> h(a) == f(a) + g(a)
    ensures SumOver(s, h) == SumOver(s, f) + SumOver(s, g)
  {
    if s != {} {
      var a :| a in s;
      SumPick(s, f, a);
      SumPick(s, g, a);
      SumPick(s, h, a);
      SumAdd(s - {a}, f, g, h);
    }
  }

  lemma {:induction false} SumZero(s: set<Address>, f: Address -> int)
    requires forall a :: a in s ==> f(a) == 0
    ensures SumOver(s, f) == 0
  {
    if s != {} {
      var a :| a in s;
      SumPick(s, f, a);
      SumZero(s - {a}, f);
    }
  }

  lemma SumAt(s: set<Address>, f: Address -> int, who: Address, amount: int)
    requires who in s && forall a :: a in s ==> f(a) == At(who, a, amount)
    ensures SumOver(s, f) == amount
  {
    SumPick(s, f, who);
    SumZero(s - {who}, f);
  }

  lemma {:induction false} SumGrow(s: set<Address>, big: set<Address>, f: Address -> int)
    requires s <= big && forall a :: a in big - s ==> f(a) == 0
    ensures SumOver(s, f) == SumOver(big, f)
  {
    if forall a :: a in big ==> a in s {
      assert s == big;
    } else {
      var a :| a in big && a !in s;
      SumPick(big, f, a);
      SumGrow(s, big - {a}, f);
    }
  }

  // ---------- the balance changes of a transaction ----------

  /** Airdrops neither make nor destroy money. */
  lemma {:induction false} SponsorsBalance(s: set<Address>, sponsors: seq<Sponsor>)
    requires AIRDROP_ADDRESS in s && SponsorAddresses(sponsors) <= s
    ensures SumOver(s, (a: Address) => SponsorChange(sponsors, a)) == 0
  {
    if sponsors == [] {
      SumZero(s, (a: Address) => SponsorChange(sponsors, a));
    } else {
      var init, last := sponsors[..|sponsors| - 1], sponsors[|sponsors| - 1];
      assert last in sponsors;
      assert SponsorAddresses(init) <= SponsorAddresses(sponsors);
      SponsorsBalance(s, init);
      var paid := (a: Address) => At(last.address, a, last.reward);
      var taken := (a: Address) => At(AIRDROP_ADDRESS, a, -last.reward);
      var both := (a: Address) => At(last.address, a, last.reward) + At(AIRDROP_ADDRESS, a, -last.reward);
      SumAt(s, paid, last.address, last.reward);
      SumAt(s, taken, AIRDROP_ADDRESS, -last.reward);
      SumAdd(s, paid, taken, both);
      SumAdd(s, (a: Address) => SponsorChange(init, a), both, (a: Address) => SponsorChange(sponsors, a));
    }
  }

  /** What a transaction takes out of all balances together. */
  function NetChange(t: Transaction): int {
    -t.fee + match t.asset
             case Freeze(amount, _, _) => -amount
             case Vote(_, _, unstake, _) => if t.IsDown() then 0 else unstake
             case _ => 0
  }

  /** What the changes of an asset add up to, without the fee. */
  lemma AssetSum(s: set<Address>, t: Transaction, rest: Address -> int)
    requires Touched(t) <= s
    requires forall a :: rest(a) == Change(t, a) - At(t.sender, a, -t.fee)
    ensures SumOver(s, rest) == NetChange(t) + t.fee
  {
    hide SponsorChange, SumOver;
    var sponsors := (a: Address) => SponsorChange(t.Sponsors(), a);
    SponsorsBalance(s, t.Sponsors());
    match t.asset
    case Send(recipient, sent) =>
      var taken := (a: Address) => At(t.sender, a, -sent);
      var given := (a: Address) => At(recipient, a, sent);
      SumAt(s, taken, t.sender, -sent);
      SumAt(s, given, recipient, sent);
      SumAdd(s, taken, given, rest);
    case Freeze(amount, _, _) =>
      var taken := (a: Address) => At(t.sender, a, -amount);
      SumAt(s, taken, t.sender, -amount);
      SumAdd(s, taken, sponsors, rest);
    case Vote(_, reward, unstake, _) =>
      if t.IsDown() {
        SumZero(s, rest);
      } else {
        UpVoteSum(s, t, sponsors, rest);
      }
    case _ => SumZero(s, rest);
  }

  lemma UpVoteSum(s: set<Address>, t: Transaction, sponsors: Address -> int, rest: Address -> int)
    requires t.sender in s && SUPPLY_ADDRESS in s && t.IsUp()
    requires forall a :: rest(a) ==
               At(t.sender, a, t.asset.reward + t.asset.unstake) + At(SUPPLY_ADDRESS, a, -t.asset.reward) + sponsors(a)
    requires SumOver(s, sponsors) == 0
    ensures SumOver(s, rest) == t.asset.unstake
  {
    var got := (a: Address) => At(t.sender, a, t.asset.reward + t.asset.unstake);
    var supply := (a: Address) => At(SUPPLY_ADDRESS, a, -t.asset.reward);
    var own := (a: Address) => got(a) + supply(a);
    SumAt(s, got, t.sender, t.asset.reward + t.asset.unstake);
    SumAt(s, supply, SUPPLY_ADDRESS, -t.asset.reward);
    SumAdd(s, got, supply, own);
    SumAdd(s, own, sponsors, rest);
  }

  lemma ChangesSum(s: set<Address>, t: Transaction)
    requires Touched(t) <= s
    ensures SumOver(s, (a: Address) => Change(t, a)) == NetChange(t)
  {
    hide Change;
    var fee := (a: Address) => At(t.sender, a, -t.fee);
    var rest := (a: Address) => Change(t, a) - At(t.sender, a, -t.fee);
    SumAt(s, fee, t.sender, -t.fee);
    AssetSum(s, t, rest);
    SumAdd(s, fee, rest, (a: Address) => Change(t, a));
  }

  // ---------- all the money ----------

  function ActiveStake(ss: seq<Stake>): int {
    if ss == [] then 0
    else ActiveStake(ss[..|ss| - 1]) + (if ss[|ss| - 1].isActive then ss[|ss| - 1].amount else 0)
  }

  /** The amounts of the active stakes, added up. */
  lemma {:induction false} ActiveStakeAdds(ss: seq<Stake>, tt: seq<Stake>, s: Stake)
    ensures ActiveStake([]) == 0 && ActiveStake([s]) == (if s.isActive then s.amount else 0)
    ensures ActiveStake(ss + tt) == ActiveStake(ss) + ActiveStake(tt)
    decreases |tt|
  {
    assert [s][..0] == [];
    if tt == [] {
      assert ss + tt == ss;
    } else {
      ActiveStakeAdds(ss, tt[..|tt| - 1], s);
      assert (ss + tt)[..|ss + tt| - 1] == ss + tt[..|tt| - 1];
    }
  }

  function Worth(x: Account): int {
    x.balance + ActiveStake(x.stakes)
  }

  /** Balances and active stakes of all accounts. */
  ghost function Total(l: Ledger): int {
    SumOver(l.accounts.Keys, (a: Address) => Worth(Acc(l, a)))
  }

  lemma TotalOver(l: Ledger, s: set<Address>)
    requires l.accounts.Keys <= s
    ensures Total(l) == SumOver(s, (a: Address) => Worth(Acc(l, a)))
  {
    SumGrow(l.accounts.Keys, s, (a: Address) => Worth(Acc(l, a)));
  }

  /** The stakes a vote releases are those whose amount the check added up. */
  lemma {:induction false} UnstakeMatches(ss: seq<Stake>, now: Timestamp)
    ensures ActiveStake(RipenAll(ss, now)) == ActiveStake(ss) - TotalUnstake(ss, now)
  {
    if ss != [] {
      UnstakeMatches(ss[..|ss| - 1], now);
      assert RipenAll(ss, now)[..|ss| - 1] == RipenAll(ss[..|ss| - 1], now);
    }
  }

  /** The unstake the check computed. */
  predicate UnstakeRight(l: Ledger, t: Transaction) {
    t.IsUp() ==> t.asset.unstake == TotalUnstake(Acc(l, t.sender).stakes, t.createdAt)
  }

  /** How the stakes of the sender change. */
  function StakeChange(t: Transaction): int {
    match t.asset
    case Freeze(amount, _, _) => amount
    case Vote(_, _, unstake, _) => if t.IsDown() then 0 else -unstake
    case _ => 0
  }

  /** Only an empty account is replaced by a registration. */
  predicate Lands(t: Transaction, x: Account) {
    t.asset.Register? ==> x == EMPTY_ACCOUNT.(balance := t.fee)
  }

  lemma WorthChange(l: Ledger, t: Transaction, a: Address)
    requires Lands(t, Acc(l, t.sender)) && UnstakeRight(l, t)
    ensures Worth(Acc(ApplyUnconfirmed(l, t), a)) ==
              Worth(Acc(l, a)) + (Change(t, a) + At(t.sender, a, StakeChange(t)))
  {
    hide ApplyUnconfirmed, TotalUnstake, RipenAll, Change, ReferralsRead;
    ApplyAt(l, t, a);
    var x := Acc(l, a);
    if a != t.sender {
      assert At(t.sender, a, StakeChange(t)) == 0;
    } else if t.asset.Register? {
      RegistrantChange(t);
    } else {
      StakesChange(t, x);
    }
  }

  lemma RegistrantChange(t: Transaction)
    requires t.asset.Register?
    ensures Change(t, t.sender) == -t.fee
  {
  }

  lemma StakesChange(t: Transaction, x: Account)
    requires t.IsUp() ==> t.asset.unstake == TotalUnstake(x.stakes, t.createdAt)
    ensures ActiveStake(ApplyStakes(t, x.stakes)) == ActiveStake(x.stakes) + StakeChange(t)
  {
    hide TotalUnstake, RipenAll;
    var ss := x.stakes;
    if t.asset.Freeze? {
      assert (ss + [StakeOf(t)])[..|ss|] == ss;
    } else if t.IsUp() {
      UnstakeMatches(ss, t.createdAt);
    }
  }

  /** MAIN: a transaction takes exactly its fee out of the ledger. */
  lemma OnlyTheFeeLeaves(l: Ledger, t: Transaction)
    requires Lands(t, Acc(l, t.sender)) && UnstakeRight(l, t)
    ensures Total(ApplyUnconfirmed(l, t)) == Total(l) - t.fee
  {
    hide ApplyUnconfirmed, Worth, Change, Touched, Lands, UnstakeRight;
    var m := ApplyUnconfirmed(l, t);
    var s := l.accounts.Keys + m.accounts.Keys + Touched(t);
    assert t.sender in s by { SenderTouched(t); }
    TotalOver(l, s);
    TotalOver(m, s);
    var stake := (a: Address) => At(t.sender, a, StakeChange(t));
    var both := (a: Address) => Change(t, a) + At(t.sender, a, StakeChange(t));
    SumAt(s, stake, t.sender, StakeChange(t));
    ChangesSum(s, t);
    SumAdd(s, (a: Address) => Change(t, a), stake, both);
    forall a {
      WorthChange(l, t, a);
    }
    SumAdd(s, (a: Address) => Worth(Acc(l, a)), both, (a: Address) => Worth(Acc(m, a)));
  }

  lemma SenderTouched(t: Transaction)
    ensures t.sender in Touched(t)
  {
  }
}
