/** What applying, undoing, confirming and unconfirming a transaction does to
    the ledger, account by account. */
module Transactions {
  import opened Model

  // ---------- balances ----------

  function At(who: Address, a: Address, amount: int): int {
    if who == a then amount else 0
  }

  /** What paying the sponsors from the airdrop account adds to one balance. */
  function SponsorChange(s: seq<Sponsor>, a: Address): int {
    if s == [] then 0
    else
      var last := s[|s| - 1];
      SponsorChange(s[..|s| - 1], a) + At(last.address, a, last.reward) + At(AIRDROP_ADDRESS, a, -last.reward)
  }

  /** What a transaction's asset adds to one balance. */
  function AssetChange(t: Transaction, a: Address): int {
    match t.asset
    case Send(recipient, sent) => At(t.sender, a, -sent) + At(recipient, a, sent)
    case Freeze(amount, _, sponsors) => At(t.sender, a, -amount) + SponsorChange(sponsors, a)
    case Vote(_, reward, unstake, sponsors) =>
      if t.IsDown() then 0
      else At(t.sender, a, reward + unstake) + At(SUPPLY_ADDRESS, a, -reward) + SponsorChange(sponsors, a)
    case _ => 0
  }

  /** What applying a transaction adds to one balance; it depends on nothing else. */
  function Change(t: Transaction, a: Address): int {
    At(t.sender, a, -t.fee) + AssetChange(t, a)
  }

  function SponsorAddresses(s: seq<Sponsor>): set<Address> {
    set p | p in s :: p.address
  }

  /** The addresses whose account a transaction can change. */
  function Touched(t: Transaction): set<Address> {
    {t.sender, SUPPLY_ADDRESS, AIRDROP_ADDRESS} + SponsorAddresses(t.Sponsors()) +
    (if t.asset.Send? then {t.asset.recipient} else {})
  }

  lemma {:induction false} SponsorChangeOutside(s: seq<Sponsor>, a: Address)
    requires a != AIRDROP_ADDRESS && a !in SponsorAddresses(s)
    ensures SponsorChange(s, a) == 0
  {
    if s != [] {
      assert s[|s| - 1] in s;
      assert SponsorAddresses(s[..|s| - 1]) <= SponsorAddresses(s);
      SponsorChangeOutside(s[..|s| - 1], a);
    }
  }

  lemma UntouchedChange(t: Transaction, a: Address)
    requires a !in Touched(t)
    ensures Change(t, a) == 0
  {
    SponsorChangeOutside(t.Sponsors(), a);
  }

  // ---------- stakes ----------

  /** A stake that a vote made at `now` counts for. */
  predicate Due(s: Stake, now: Timestamp) {
    s.isActive && s.next.Some? && now >= s.next.value
  }

  /** A due stake counts the vote, moves its milestone and is released at the last count. */
  function Ripen(s: Stake, now: Timestamp): Stake {
    if Due(s, now) then
      s.(voteCount := s.voteCount + 1,
         previous := s.previous + [s.next.value],
         next := Some(now + VOTE_MILESTONE),
         isActive := s.voteCount + 1 != UNSTAKE_VOTE_COUNT)
    else s
  }

  /** Undoing finds the stakes by their milestone alone. */
  predicate Carries(s: Stake, now: Timestamp) {
    s.next == Some(now + VOTE_MILESTONE)
  }

  function Unripen(s: Stake, now: Timestamp): Stake {
    if Carries(s, now) then
      s.(isActive := true,
         voteCount := s.voteCount - 1,
         next := if s.previous == [] then None else Some(s.previous[|s.previous| - 1]),
         previous := if s.previous == [] then [] else s.previous[..|s.previous| - 1])
    else s
  }

  function RipenAll(ss: seq<Stake>, now: Timestamp): seq<Stake> {
    seq(|ss|, i requires 0 <= i < |ss| => Ripen(ss[i], now))
  }

  function UnripenAll(ss: seq<Stake>, now: Timestamp): seq<Stake> {
    seq(|ss|, i requires 0 <= i < |ss| => Unripen(ss[i], now))
  }

  /** No stake already carries the milestone that a vote at `now` sets. */
  predicate Fresh(ss: seq<Stake>, now: Timestamp) {
    forall i :: 0 <= i < |ss| ==> !Carries(ss[i], now)
  }

  function DropSource(ss: seq<Stake>, id: TrsId): seq<Stake> {
    if ss == [] then []
    else
      var rest := DropSource(ss[..|ss| - 1], id);
      if ss[|ss| - 1].source == id then rest else rest + [ss[|ss| - 1]]
  }

  function StakeOf(t: Transaction): Stake
    requires t.asset.Freeze?
  {
    Stake(t.createdAt, true, t.asset.amount, t.asset.startVoteCount, Some(t.createdAt), [], t.id, t.asset.stakeSponsors)
  }

  // ---------- accounts ----------

  function ReferralsVia(referral: Address, chain: seq<Address>): seq<Address> {
    [referral] + (if |chain| <= REFERRAL_MAX_COUNT - 1 then chain else chain[..REFERRAL_MAX_COUNT - 1])
  }

  /** The referrals a registration reads: those of the account it names. */
  function ReferralsRead(l: Ledger, t: Transaction): seq<Address> {
    if t.asset.Register? then Acc(l, t.asset.referral).referrals else []
  }

  function Credit(x: Account, amount: int): Account {
    x.(balance := x.balance + amount)
  }

  function ApplyVotes(t: Transaction, v: multiset<Address>): multiset<Address> {
    if t.IsDown() then v - VoteKeys(t) else v + VoteKeys(t)
  }

  function UndoVotes(t: Transaction, v: multiset<Address>): multiset<Address> {
    if t.IsDown() then v + VoteKeys(t) else v - VoteKeys(t)
  }

  function ApplyStakes(t: Transaction, ss: seq<Stake>): seq<Stake> {
    if t.asset.Freeze? then ss + [StakeOf(t)]
    else if t.IsUp() then RipenAll(ss, t.createdAt)
    else ss
  }

  function UndoStakes(t: Transaction, ss: seq<Stake>): seq<Stake> {
    if t.asset.Freeze? then DropSource(ss, t.id)
    else if t.IsUp() then UnripenAll(ss, t.createdAt)
    else ss
  }

  /** Besides balances, only the sender's own account changes. A registration
      puts a new account in its place; `chain` is what it read. */
  function ApplyFields(t: Transaction, chain: seq<Address>, x: Account): Account {
    if t.asset.Register? then EMPTY_ACCOUNT.(referrals := ReferralsVia(t.asset.referral, chain))
    else
      Account(x.balance,
              ApplyVotes(t, x.votes),
              ApplyStakes(t, x.stakes),
              x.referrals,
              if t.asset.Signature? then Some(t.asset.publicKey) else x.secondKey,
              t.asset.NewDelegate? || x.isDelegate)
  }

  function UndoFields(t: Transaction, x: Account): Account {
    Account(x.balance,
            UndoVotes(t, x.votes),
            UndoStakes(t, x.stakes),
            if t.asset.Register? then [] else x.referrals,
            if t.asset.Signature? then None else x.secondKey,
            !t.asset.NewDelegate? && x.isDelegate)
  }

  /** One account after applying or undoing `t`, which adds `d` to its balance. */
  function ApplyWith(t: Transaction, chain: seq<Address>, a: Address, d: int, x: Account): Account {
    if a == t.sender then ApplyFields(t, chain, Credit(x, d)) else Credit(x, d)
  }

  function UndoWith(t: Transaction, a: Address, d: int, x: Account): Account {
    if a == t.sender then UndoFields(t, Credit(x, d)) else Credit(x, d)
  }

  function ApplyAccount(t: Transaction, chain: seq<Address>, a: Address, x: Account): Account {
    ApplyWith(t, chain, a, Change(t, a), x)
  }

  function UndoAccount(t: Transaction, a: Address, x: Account): Account {
    UndoWith(t, a, -Change(t, a), x)
  }

  function ApplyAccounts(m: map<Address, Account>, t: Transaction, chain: seq<Address>): map<Address, Account> {
    map a | a in m.Keys + Touched(t) && ApplyAccount(t, chain, a, Find(m, a)) != EMPTY_ACCOUNT
      :: ApplyAccount(t, chain, a, Find(m, a))
  }

  function UndoAccounts(m: map<Address, Account>, t: Transaction): map<Address, Account> {
    map a | a in m.Keys + Touched(t) && UndoAccount(t, a, Find(m, a)) != EMPTY_ACCOUNT
      :: UndoAccount(t, a, Find(m, a))
  }

  // ---------- delegates ----------

  function AddVotes(d: Delegate, n: int): Delegate {
    d.(votes := d.votes + n)
  }

  function AddConfirmed(d: Delegate, n: int): Delegate {
    d.(confirmedVoteCount := d.confirmedVoteCount + n)
  }

  /** Add `k` to a delegate's votes for each time it is listed. */
  function Tally(ds: map<Address, Delegate>, keys: multiset<Address>, k: int): map<Address, Delegate> {
    map d | d in ds :: AddVotes(ds[d], k * keys[d])
  }

  function TallyConfirmed(ds: map<Address, Delegate>, keys: multiset<Address>, k: int): map<Address, Delegate> {
    map d | d in ds :: AddConfirmed(ds[d], k * keys[d])
  }

  function Sign(t: Transaction): int {
    if t.IsDown() then -1 else 1
  }

  function ApplyDelegates(ds: map<Address, Delegate>, t: Transaction): map<Address, Delegate> {
    match t.asset
    case NewDelegate(username, url) => ds[t.sender := Delegate(username, url, 0, 0, 0, 0)]
    case Vote(_, _, _, _) => Tally(ds, VoteKeys(t), Sign(t))
    case _ => ds
  }

  function UndoDelegates(ds: map<Address, Delegate>, t: Transaction): map<Address, Delegate> {
    match t.asset
    case NewDelegate(_, _) => ds - {t.sender}
    case Vote(_, _, _, _) => Tally(ds, VoteKeys(t), -Sign(t))
    case _ => ds
  }

  /** The names an apply takes and an undo gives back. */
  function NamesTaken(t: Transaction): set<string> {
    if t.asset.NewDelegate? then {t.asset.username} else {}
  }

  function NamesFreed(ds: map<Address, Delegate>, t: Transaction): set<string> {
    if t.asset.NewDelegate? && t.sender in ds then {ds[t.sender].username} else {}
  }

  // ---------- the ledger ----------

  function ApplyUnconfirmed(l: Ledger, t: Transaction): Ledger {
    Ledger(ApplyAccounts(l.accounts, t, ReferralsRead(l, t)), ApplyDelegates(l.delegates, t),
           l.usernames + NamesTaken(t), l.confirmed)
  }

  function UndoUnconfirmed(l: Ledger, t: Transaction): Ledger {
    Ledger(UndoAccounts(l.accounts, t), UndoDelegates(l.delegates, t),
           l.usernames - NamesFreed(l.delegates, t), l.confirmed)
  }

  /** Confirming a transaction that is already confirmed does nothing. */
  function Confirm(l: Ledger, t: Transaction): Ledger {
    if t.id in l.confirmed then l
    else l.(confirmed := l.confirmed + {t.id},
            delegates := if t.asset.Vote? then TallyConfirmed(l.delegates, VoteKeys(t), Sign(t)) else l.delegates)
  }

  function Unconfirm(l: Ledger, t: Transaction): Ledger {
    if t.id !in l.confirmed then l
    else l.(confirmed := l.confirmed - {t.id},
            delegates := if t.asset.Vote? then TallyConfirmed(l.delegates, VoteKeys(t), -Sign(t)) else l.delegates)
  }

  lemma UntouchedAccount(t: Transaction, chain: seq<Address>, a: Address, x: Account)
    requires a !in Touched(t)
    ensures ApplyAccount(t, chain, a, x) == x && UndoAccount(t, a, x) == x
  {
    UntouchedChange(t, a);
  }

  lemma ApplyAt(l: Ledger, t: Transaction, a: Address)
    ensures Acc(ApplyUnconfirmed(l, t), a) == ApplyWith(t, ReferralsRead(l, t), a, Change(t, a), Acc(l, a))
  {
    hide ApplyWith, Change, Touched, ReferralsRead;
    if a !in Touched(t) {
      UntouchedAccount(t, ReferralsRead(l, t), a, Acc(l, a));
    }
  }

  lemma UndoAt(l: Ledger, t: Transaction, a: Address)
    ensures Acc(UndoUnconfirmed(l, t), a) == UndoWith(t, a, -Change(t, a), Acc(l, a))
  {
    hide UndoWith, Change, Touched;
    if a !in Touched(t) {
      UntouchedAccount(t, [], a, Acc(l, a));
    }
  }

  lemma ApplyParts(l: Ledger, t: Transaction)
    ensures var m := ApplyUnconfirmed(l, t);
      && Normal(m) && m.delegates == ApplyDelegates(l.delegates, t)
      && m.usernames == l.usernames + NamesTaken(t) && m.confirmed == l.confirmed
  {
  }

  lemma UndoParts(l: Ledger, t: Transaction)
    ensures var m := UndoUnconfirmed(l, t);
      && Normal(m) && m.delegates == UndoDelegates(l.delegates, t)
      && m.usernames == l.usernames - NamesFreed(l.delegates, t) && m.confirmed == l.confirmed
  {
  }
}
