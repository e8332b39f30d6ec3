/** What the node checks before it applies a transaction. Signatures, blacklists
    and the clock are not part of this model: they only reject more. */
module Verify {
  import opened Model
  import opened Transactions
  import opened Inverse

  const FREEZE_SPONSOR_PERCENT := 10
  const SPONSOR_PERMILLE: seq<nat> := [50, 30, 20, 20, 10, 10, 10, 9, 8, 7, 6, 5, 5, 5, 5]
  const REWARD_MILESTONES: seq<nat> := [10, 10, 10, 10, 10, 10]
  const REWARD_DISTANCE := 30
  const VOTE_WITH_ACTIVE_STAKE := 245000
  const VERIFY_STAKE_HEIGHT := 1009955
  const PRE_ORDER_LAST_MIGRATED_BLOCK := 18142

  function CeilDiv(n: int, d: int): (q: int)
    requires d > 0
    ensures d * (q - 1) < n <= d * q
  {
    -((-n) / d)
  }

  // ---------- rewards ----------

  /** The index of the reward milestone; past the last one it stays there. */
  function MilestoneAt(height: nat): (i: nat)
    ensures i < |REWARD_MILESTONES|
  {
    var location := height / REWARD_DISTANCE;
    if location > |REWARD_MILESTONES| - 1 then |REWARD_MILESTONES| - 1 else location
  }

  function StakeReward(s: Stake, height: nat): int {
    if s.voteCount > 0 && (s.voteCount + 1) % REWARD_VOTE_COUNT == 0
    then CeilDiv(s.amount * REWARD_MILESTONES[MilestoneAt(height)], 100)
    else 0
  }

  /** The reward of a vote over all due stakes. */
  function TotalReward(ss: seq<Stake>, now: Timestamp, height: nat): int {
    if ss == [] then 0
    else
      TotalReward(ss[..|ss| - 1], now, height) +
      (if Due(ss[|ss| - 1], now) then StakeReward(ss[|ss| - 1], height) else 0)
  }

  /** The amount of the due stakes that reach the last vote count. */
  function TotalUnstake(ss: seq<Stake>, now: Timestamp): int {
    if ss == [] then 0
    else
      var s := ss[|ss| - 1];
      TotalUnstake(ss[..|ss| - 1], now) +
      (if Due(s, now) && s.voteCount + 1 == UNSTAKE_VOTE_COUNT then s.amount else 0)
  }

  // ---------- airdrops ----------

  function Permille(i: nat): nat {
    if i < |SPONSOR_PERMILLE| then SPONSOR_PERMILLE[i] else 0
  }

  /** Setting a key of an ordered map: a known key keeps its place, a new one comes last. */
  function SetSponsor(s: seq<Sponsor>, a: Address, reward: int): seq<Sponsor> {
    if s == [] then [Sponsor(a, reward)]
    else
      var init, last := s[..|s| - 1], s[|s| - 1];
      if exists i :: 0 <= i < |init| && init[i].address == a then SetSponsor(init, a, reward) + [last]
      else if last.address == a then init + [Sponsor(a, reward)]
      else s + [Sponsor(a, reward)]
  }

  function LevelReward(i: nat, amount: int): int {
    CeilDiv(Permille(i) * amount, 1000)
  }

  function LevelRewards(referrals: seq<Address>, amount: int): (r: (seq<Sponsor>, int)) {
    if referrals == [] then ([], 0)
    else
      var i := |referrals| - 1;
      var (sponsors, total) := LevelRewards(referrals[..i], amount);
      (SetSponsor(sponsors, referrals[i], LevelReward(i, amount)), total + LevelReward(i, amount))
  }

  /** The airdrop a reward of `amount` owes the sponsors of `x`; it is dropped as a
      whole when the airdrop account cannot pay it. */
  function AirdropFor(l: Ledger, x: Account, amount: int, freeze: bool): seq<Sponsor> {
    if amount == 0 || x.referrals == [] then []
    else
      var (sponsors, total) :=
        if freeze then
          var r := CeilDiv(amount * FREEZE_SPONSOR_PERCENT, 100);
          ([Sponsor(x.referrals[0], r)], r)
        else LevelRewards(x.referrals, amount);
      if Acc(l, AIRDROP_ADDRESS).balance < total then [] else sponsors
  }

  ghost predicate DistinctSponsors(s: seq<Sponsor>) {
    forall i, j :: 0 <= i < j < |s| ==> s[i].address != s[j].address
  }

  /** Equality of two ordered maps of sponsors. */
  predicate SameSponsors(s: seq<Sponsor>, r: seq<Sponsor>) {
    |s| == |r| && forall i :: 0 <= i < |s| ==> s[i] in r
  }

  // ---------- the checks ----------

  predicate IsSpace(c: char) {
    c == ' ' || c == '\t' || c == '\n' || c == '\r'
  }

  function TrimLeft(s: string): string {
    if s != [] && IsSpace(s[0]) then TrimLeft(s[1..]) else s
  }

  function TrimRight(s: string): string {
    if s != [] && IsSpace(s[|s| - 1]) then TrimRight(s[..|s| - 1]) else s
  }

  function Trim(s: string): string {
    TrimRight(TrimLeft(s))
  }

  /** What `validate` promises before a transaction is verified. Names are lower
      case there; sponsors come as a map, so no address repeats. */
  ghost predicate WellFormed(t: Transaction) {
    && t.fee >= 0
    && DistinctSponsors(t.Sponsors())
    && match t.asset
       case Send(_, sent) => sent > 0
       case Freeze(amount, _, _) => amount > 0
       case Vote(votes, _, _, _) =>
         && votes != []
         && (forall i, j :: 0 <= i < j < |votes| ==> votes[i].delegate != votes[j].delegate)
       case _ => true
  }

  function Spent(t: Transaction): int {
    t.fee + match t.asset
            case Send(_, sent) => sent
            case Freeze(amount, _, _) => amount
            case _ => 0
  }

  predicate VoteItemOk(l: Ledger, x: Account, v: VoteItem) {
    && (if v.up then v.delegate !in x.votes else v.delegate in x.votes)
    && Acc(l, v.delegate).isDelegate
  }

  function CountUp(votes: seq<VoteItem>): nat {
    if votes == [] then 0
    else CountUp(votes[..|votes| - 1]) + (if votes[|votes| - 1].up then 1 else 0)
  }

  predicate VoteOk(l: Ledger, height: nat, t: Transaction)
    requires t.asset.Vote?
  {
    var x := Acc(l, t.sender);
    var ups := CountUp(t.asset.votes);
    && (height > VOTE_WITH_ACTIVE_STAKE ==> exists i :: 0 <= i < |x.stakes| && x.stakes[i].isActive)
    && t.asset.reward == (if t.IsDown() then 0 else TotalReward(x.stakes, t.createdAt, height))
    && t.asset.unstake == (if t.IsDown() then 0 else TotalUnstake(x.stakes, t.createdAt))
    && SameSponsors(AirdropFor(l, x, t.asset.reward, false), t.asset.voteSponsors)
    && (forall i :: 0 <= i < |t.asset.votes| ==> VoteItemOk(l, x, t.asset.votes[i]))
    && |x.votes| + ups - (|t.asset.votes| - ups) <= MAX_VOTES
  }

  predicate FreezeOk(l: Ledger, height: nat, t: Transaction)
    requires t.asset.Freeze?
  {
    && (height > PRE_ORDER_LAST_MIGRATED_BLOCK ==> t.asset.startVoteCount == 0)
    && SameSponsors(AirdropFor(l, Acc(l, t.sender), t.asset.amount, true), t.asset.stakeSponsors)
    && (height > VERIFY_STAKE_HEIGHT ==> t.asset.amount >= MONEY_FACTOR && t.asset.amount % MONEY_FACTOR == 0)
  }

  /** The check of a transaction that is not in the genesis block. */
  predicate Verified(l: Ledger, height: nat, t: Transaction) {
    var x := Acc(l, t.sender);
    && t.id !in l.confirmed
    && x.balance >= Spent(t)
    && match t.asset
       case Register(_) => x == EMPTY_ACCOUNT
       case Send(_, sent) => t.fee + sent < x.balance
       case Signature(_) => x.secondKey == None
       case NewDelegate(username, _) => !x.isDelegate && Trim(username) !in l.usernames
       case Freeze(_, _, _) => FreezeOk(l, height, t)
       case Vote(_, _, _, _) => VoteOk(l, height, t)
  }

  predicate AllUp(votes: seq<VoteItem>) {
    forall i :: 0 <= i < |votes| ==> votes[i].up
  }

  predicate AllDown(votes: seq<VoteItem>) {
    forall i :: 0 <= i < |votes| ==> !votes[i].up
  }

  /** A vote that is taken for a down-vote holds no up-vote. */
  predicate DownOnly(t: Transaction) {
    t.IsDown() ==> AllDown(t.asset.votes)
  }

  /** What the checks leave open and every undo depends on. */
  predicate Regular(l: Ledger, t: Transaction) {
    var x := Acc(l, t.sender);
    match t.asset
    case NewDelegate(username, _) => username !in l.usernames
    case Vote(votes, _, _, _) => if t.IsDown() then AllDown(votes) else Fresh(x.stakes, t.createdAt)
    case _ => true
  }

  /** What the checks leave open and the consistency of the ledger depends on. */
  predicate KeepsConsistent(l: Ledger, t: Transaction) {
    match t.asset
    case NewDelegate(username, _) => username !in l.usernames
    case Vote(votes, _, _, _) => if t.IsDown() then AllDown(votes) else AllUp(votes)
    case _ => true
  }

  /** The sender has no stake that this transaction made. */
  predicate NewSource(l: Ledger, t: Transaction) {
    forall i :: 0 <= i < |Acc(l, t.sender).stakes| ==> Acc(l, t.sender).stakes[i].source != t.id
  }

  lemma {:induction false} KeysDistinct(votes: seq<VoteItem>, d: Address)
    requires forall i, j :: 0 <= i < j < |votes| ==> votes[i].delegate != votes[j].delegate
    ensures multiset(Keys(votes))[d] <= 1
    ensures d in multiset(Keys(votes)) <==> exists i :: 0 <= i < |votes| && votes[i].delegate == d
  {
    if votes != [] {
      var init, last := votes[..|votes| - 1], votes[|votes| - 1];
      KeysDistinct(init, d);
      assert Keys(votes) == Keys(init) + [last.delegate];
      if last.delegate == d {
        assert d !in multiset(Keys(init));
      }
    }
  }

  /** A verified down-vote finds its keys if and only if every item is a down-vote. */
  lemma DownVoteKeys(l: Ledger, height: nat, t: Transaction)
    requires WellFormed(t) && t.IsDown() && VoteOk(l, height, t)
    ensures VoteKeys(t) <= Acc(l, t.sender).votes <==> AllDown(t.asset.votes)
  {
    var x := Acc(l, t.sender);
    var votes := t.asset.votes;
    if AllDown(votes) {
      forall d
        ensures VoteKeys(t)[d] <= x.votes[d]
      {
        KeysDistinct(votes, d);
      }
    } else {
      var i :| 0 <= i < |votes| && votes[i].up;
      KeysDistinct(votes, votes[i].delegate);
      assert VoteItemOk(l, x, votes[i]);
      assert votes[i].delegate in VoteKeys(t) && votes[i].delegate !in x.votes;
    }
  }

  /** MAIN: exactly which verified transactions can be undone. */
  lemma VerifiedUndoableIff(l: Ledger, height: nat, t: Transaction)
    requires WellFormed(t) && Verified(l, height, t)
    requires Acc(l, t.sender).isDelegate <==> t.sender in l.delegates
    ensures Undoable(l, t) <==>
              match t.asset
              case NewDelegate(username, _) => username !in l.usernames
              case Freeze(_, _, _) => NewSource(l, t)
              case Vote(votes, _, _, _) =>
                if t.IsDown() then AllDown(votes) else Fresh(Acc(l, t.sender).stakes, t.createdAt)
              case _ => true
  {
    if t.IsDown() {
      DownVoteKeys(l, height, t);
    }
  }

  lemma RegularUndoableIff(l: Ledger, height: nat, t: Transaction)
    requires WellFormed(t) && Verified(l, height, t) && NewSource(l, t)
    requires Acc(l, t.sender).isDelegate <==> t.sender in l.delegates
    ensures Undoable(l, t) <==> Regular(l, t)
  {
    VerifiedUndoableIff(l, height, t);
  }
}
