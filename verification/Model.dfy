/** The node's constants (main network) and the values its ledger is made of. */
module Model {

  type Address = nat
  type TrsId = nat
  type BlockId = nat
  type Key = nat
  type Timestamp = int

  datatype Option<+T> = None | Some(value: T) {
    function GetOr(other: T): T {
      if Some? then value else other
    }
  }

  const AIRDROP_ADDRESS: Address := 11696703665952770027
  const SUPPLY_ADDRESS: Address := 13566253584516829136
  const VOTE_MILESTONE := 604800
  const REWARD_VOTE_COUNT := 4
  const UNSTAKE_VOTE_COUNT := 24
  const REFERRAL_MAX_COUNT := 15
  const MAX_VOTES := 201
  const MONEY_FACTOR := 100000000

  /** A sponsor of an airdrop and what it is paid. */
  datatype Sponsor = Sponsor(address: Address, reward: int)

  /** A frozen amount. `next` is None where the program's field is `undefined`. */
  datatype Stake = Stake(
    createdAt: Timestamp,
    isActive: bool,
    amount: int,
    voteCount: int,
    next: Option<Timestamp>,
    previous: seq<Timestamp>,
    source: TrsId,
    sponsors: seq<Sponsor>)

  datatype Delegate = Delegate(
    username: string,
    url: string,
    missedBlocks: int,
    forgedBlocks: int,
    votes: int,
    confirmedVoteCount: int)

  /** An account, its vote list taken as a multiset: undoing a down-vote appends. */
  datatype Account = Account(
    balance: int,
    votes: multiset<Address>,
    stakes: seq<Stake>,
    referrals: seq<Address>,
    secondKey: Option<Key>,
    isDelegate: bool)

  const EMPTY_ACCOUNT := Account(0, multiset{}, [], [], None, false)

  datatype VoteItem = VoteItem(up: bool, delegate: Address)

  datatype Asset =
    | Register(referral: Address)
    | Send(recipient: Address, sent: int)
    | Signature(publicKey: Key)
    | NewDelegate(username: string, url: string)
    | Freeze(amount: int, startVoteCount: int, stakeSponsors: seq<Sponsor>)
    | Vote(votes: seq<VoteItem>, reward: int, unstake: int, voteSponsors: seq<Sponsor>)

  datatype Transaction = Transaction(
    id: TrsId,
    sender: Address,
    createdAt: Timestamp,
    fee: int,
    asset: Asset)
  {
    /** The numeric type code, by which transactions are sorted first. */
    function Code(): int {
      match asset
      case Register(_) => 0
      case Send(_, _) => 10
      case Signature(_) => 20
      case NewDelegate(_, _) => 30
      case Freeze(_, _, _) => 40
      case Vote(_, _, _, _) => 60
    }

    /** Applying looks at the sign of the first vote only. */
    predicate IsDown() {
      asset.Vote? && asset.votes != [] && !asset.votes[0].up
    }

    predicate IsUp() {
      asset.Vote? && !IsDown()
    }

    /** The sponsors an airdrop of this transaction pays. */
    function Sponsors(): seq<Sponsor> {
      match asset
      case Freeze(_, _, s) => s
      case Vote(_, _, _, s) => s
      case _ => []
    }
  }

  function Keys(votes: seq<VoteItem>): seq<Address> {
    seq(|votes|, i requires 0 <= i < |votes| => votes[i].delegate)
  }

  /** The vote keys of a transaction, as applying and undoing see them. */
  function VoteKeys(t: Transaction): multiset<Address> {
    if t.asset.Vote? then multiset(Keys(t.asset.votes)) else multiset{}
  }

  datatype Block = Block(
    id: BlockId,
    previous: BlockId,
    height: nat,
    createdAt: Timestamp,
    generator: Address,
    fee: int,
    transactions: seq<Transaction>)

  /** Accounts by address; an address without an entry has the empty account. */
  datatype Ledger = Ledger(
    accounts: map<Address, Account>,
    delegates: map<Address, Delegate>,
    usernames: set<string>,
    confirmed: set<TrsId>)

  function Find(m: map<Address, Account>, a: Address): Account {
    if a in m then m[a] else EMPTY_ACCOUNT
  }

  function Acc(l: Ledger, a: Address): Account {
    Find(l.accounts, a)
  }

  /** No entry holds the empty account, so equal ledgers are equal values. */
  ghost predicate Normal(l: Ledger) {
    forall a :: a in l.accounts ==> l.accounts[a] != EMPTY_ACCOUNT
  }

  lemma SameLedger(l: Ledger, m: Ledger)
    requires Normal(l) && Normal(m)
    requires forall a :: Acc(l, a) == Acc(m, a)
    requires l.delegates == m.delegates && l.usernames == m.usernames && l.confirmed == m.confirmed
    ensures l == m
  {
    assert l.accounts == m.accounts by {
      forall a
        ensures a in l.accounts <==> a in m.accounts
        ensures a in l.accounts ==> l.accounts[a] == m.accounts[a]
      {
        assert Acc(l, a) == Acc(m, a);
      }
    }
  }
}
