/** The votes a stake counts, in plain numbers: when one counts, what it pays, and how
    long a stake is frozen. */
module StakeVotes {
  import opened Model
  import opened Transactions
  import opened Verify
  import opened Blocks
  import opened Node
  import opened Rounds
  import opened Journal
  import opened OnChain

  /** An up-vote of this sender: the sign of the first item decides. */
  predicate IsUpVote(t: Transaction, a: Address) {
    t.sender == a && t.asset.Vote? && t.asset.votes != [] && t.asset.votes[0].up
  }

  // ---------- one vote ----------

  /** MAIN: an up-vote counts on exactly those stakes of its sender that are active and
      whose milestone has come: the count grows by one, the milestone moves to a week
      after the vote, the old one is kept, and the 24th vote releases the stake. All
      other stakes stay. */
  lemma UpVoteCounts(l: Ledger, t: Transaction, a: Address, i: nat)
    requires IsUpVote(t, a) && i < |Acc(l, a).stakes|
    ensures |Acc(ApplyUnconfirmed(l, t), a).stakes| == |Acc(l, a).stakes|
    ensures var s, r := Acc(l, a).stakes[i], Acc(ApplyUnconfirmed(l, t), a).stakes[i];
      && (s.isActive && s.next.Some? && s.next.value <= t.createdAt ==>
            && r.voteCount == s.voteCount + 1 && r.next == Some(t.createdAt + 604800)
            && r.previous == s.previous + [s.next.value] && (r.isActive <==> s.voteCount + 1 != 24)
            && r.amount == s.amount && r.createdAt == s.createdAt && r.source == s.source && r.sponsors == s.sponsors)
      && (!(s.isActive && s.next.Some? && s.next.value <= t.createdAt) ==> r == s)
  {
    hide Change, ApplyUnconfirmed, Acc, ApplyVotes, ReferralsRead;
    ApplyAt(l, t, a);
  }

  /** Nothing but an up-vote changes a stake, and nothing but a registration takes one
      away; a frozen amount comes last, with no vote counted on the chain of today. */
  lemma StakesOtherwise(l: Ledger, t: Transaction, a: Address)
    requires !(t.sender == a && t.IsUp()) && !(t.sender == a && t.asset.Register?)
    ensures var ss, rr := Acc(l, a).stakes, Acc(ApplyUnconfirmed(l, t), a).stakes;
      if t.sender == a && t.asset.Freeze?
      then rr == ss + [Stake(t.createdAt, true, t.asset.amount, t.asset.startVoteCount, Some(t.createdAt), [], t.id, t.asset.stakeSponsors)]
      else rr == ss
  {
    hide Change, ApplyUnconfirmed, Acc, ApplyVotes, ReferralsRead;
    ApplyAt(l, t, a);
  }

  /** MAIN: undoing an up-vote takes one count back from exactly those stakes of its
      sender whose milestone is a week after it; they are active again, and the milestone
      before is theirs again. All other stakes stay. */
  lemma UpVoteUncounts(l: Ledger, t: Transaction, a: Address, i: nat)
    requires IsUpVote(t, a) && i < |Acc(l, a).stakes|
    ensures |Acc(UndoUnconfirmed(l, t), a).stakes| == |Acc(l, a).stakes|
    ensures var s, r := Acc(l, a).stakes[i], Acc(UndoUnconfirmed(l, t), a).stakes[i];
      && (s.next == Some(t.createdAt + 604800) ==>
            && r.isActive && r.voteCount == s.voteCount - 1
            && (s.previous != [] ==> r.next == Some(s.previous[|s.previous| - 1]) && r.previous == s.previous[..|s.previous| - 1])
            && (s.previous == [] ==> r.next == None && r.previous == [])
            && r.amount == s.amount && r.createdAt == s.createdAt && r.source == s.source && r.sponsors == s.sponsors)
      && (s.next != Some(t.createdAt + 604800) ==> r == s)
  {
    hide Change, UndoUnconfirmed, Acc, UndoVotes;
    UndoAt(l, t, a);
  }

  // ---------- what a vote pays ----------

  /** MAIN: a stake pays with every fourth vote, and then the least amount that is a
      tenth of it; without its milestone it pays nothing. */
  lemma RewardOfOne(s: Stake, now: Timestamp, height: nat)
    ensures var r := TotalReward([s], now, height);
      if s.isActive && s.next.Some? && s.next.value <= now && s.voteCount > 0 && (s.voteCount + 1) % 4 == 0
      then 100 * (r - 1) < 10 * s.amount <= 100 * r
      else r == 0
    ensures TotalUnstake([s], now) ==
              if s.isActive && s.next.Some? && s.next.value <= now && s.voteCount + 1 == 24 then s.amount else 0
  {
    assert [s][..0] == [];
    assert REWARD_MILESTONES[MilestoneAt(height)] == 10;
  }

  /** Rewards and unstakes add up over the stakes. */
  lemma {:induction false} RewardAdds(ss: seq<Stake>, tt: seq<Stake>, now: Timestamp, height: nat)
    ensures TotalReward([], now, height) == 0 && TotalUnstake([], now) == 0
    ensures TotalReward(ss + tt, now, height) == TotalReward(ss, now, height) + TotalReward(tt, now, height)
    ensures TotalUnstake(ss + tt, now) == TotalUnstake(ss, now) + TotalUnstake(tt, now)
    decreases |tt|
  {
    hide Due, StakeReward;
    if tt == [] {
      assert ss + tt == ss;
    } else {
      RewardAdds(ss, tt[..|tt| - 1], now, height);
      assert (ss + tt)[..|ss + tt| - 1] == ss + tt[..|tt| - 1];
    }
  }

  // ---------- a stake over many transactions ----------

  function StakesAt(l: Ledger, ts: seq<Transaction>, i: nat, a: Address): seq<Stake>
    requires i <= |ts|
  {
    Acc(Until(l, ts, i), a).stakes
  }

  /** The `i`-th transaction counts on stake `k` of `a`. */
  predicate Counts(l: Ledger, ts: seq<Transaction>, i: nat, a: Address, k: nat) {
    && i < |ts| && k < |StakesAt(l, ts, i, a)| && k < |StakesAt(l, ts, i + 1, a)|
    && StakesAt(l, ts, i + 1, a)[k].voteCount != StakesAt(l, ts, i, a)[k].voteCount
  }

  /** One transaction, seen from a stake that has a milestone. */
  lemma OneStep(l: Ledger, ts: seq<Transaction>, i: nat, a: Address, k: nat)
    requires Lawful(l, ts) && i < |ts| && k < |StakesAt(l, ts, i, a)| && StakesAt(l, ts, i, a)[k].next.Some?
    ensures k < |StakesAt(l, ts, i + 1, a)| && StakesAt(l, ts, i + 1, a)[k].next.Some?
    ensures var s, r := StakesAt(l, ts, i, a)[k], StakesAt(l, ts, i + 1, a)[k];
      && r.amount == s.amount && r.source == s.source
      && (Counts(l, ts, i, a, k) ==>
            && ts[i].sender == a && s.isActive && s.next.value <= ts[i].createdAt
            && r.voteCount == s.voteCount + 1 && r.next.value == ts[i].createdAt + 604800 && (r.isActive <==> r.voteCount != 24))
      && (!Counts(l, ts, i, a, k) ==> r == s)
  {
    hide ApplyUnconfirmed, Acc, Until, Ripen, Due, ApplyVotes, Change;
    var t := ts[i];
    UntilNext(l, ts, i);
    KeepsItsStakes(l, ts, i, a, k);
    if t.sender == a && t.IsUp() {
      ApplyAt(Until(l, ts, i), t, a);
      var s := StakesAt(l, ts, i, a)[k];
      assert StakesAt(l, ts, i + 1, a)[k] == Ripen(s, t.createdAt);
      RipenIs(s, t.createdAt);
    } else {
      StakesOtherwise(Until(l, ts, i), t, a);
    }
  }

  lemma KeepsItsStakes(l: Ledger, ts: seq<Transaction>, i: nat, a: Address, k: nat)
    requires Lawful(l, ts) && i < |ts| && k < |StakesAt(l, ts, i, a)|
    ensures !(ts[i].sender == a && ts[i].asset.Register?)
  {
    hide Until, Acc;
    assert LawfulAt(Until(l, ts, i), ts[i]);
  }

  lemma RipenIs(s: Stake, now: Timestamp)
    ensures var r := Ripen(s, now);
      if s.isActive && s.next.Some? && s.next.value <= now
      then
        && r.voteCount == s.voteCount + 1 && r.next == Some(now + 604800) && (r.isActive <==> r.voteCount != 24)
        && r.amount == s.amount && r.source == s.source
      else r == s
  {
  }

  /** Each count moves the milestone on by a week or more. */
  lemma {:induction false} WeeksPass(l: Ledger, ts: seq<Transaction>, i: nat, j: nat, a: Address, k: nat)
    requires Lawful(l, ts) && i <= j <= |ts| && k < |StakesAt(l, ts, i, a)| && StakesAt(l, ts, i, a)[k].next.Some?
    ensures k < |StakesAt(l, ts, j, a)| && StakesAt(l, ts, j, a)[k].next.Some?
    ensures var s, r := StakesAt(l, ts, i, a)[k], StakesAt(l, ts, j, a)[k];
      && r.voteCount >= s.voteCount && r.amount == s.amount && r.source == s.source
      && r.next.value >= s.next.value + 604800 * (r.voteCount - s.voteCount)
    decreases j - i
  {
    hide StakesAt, Counts, Lawful;
    if i < j {
      WeeksPass(l, ts, i, j - 1, a, k);
      OneStep(l, ts, j - 1, a, k);
    }
  }

  /** MAIN: two votes that count on one stake are at least a week apart. */
  lemma CountsApart(l: Ledger, ts: seq<Transaction>, i: nat, j: nat, a: Address, k: nat)
    requires Lawful(l, ts) && i < j && Counts(l, ts, i, a, k) && Counts(l, ts, j, a, k)
    requires StakesAt(l, ts, i, a)[k].next.Some?
    ensures ts[i].sender == a && ts[j].sender == a && ts[j].createdAt - ts[i].createdAt >= 604800
  {
    hide StakesAt, Lawful;
    OneStep(l, ts, i, a, k);
    WeeksPass(l, ts, i + 1, j, a, k);
    OneStep(l, ts, j, a, k);
  }

  /** MAIN: a stake that starts with no vote counted is released by its 24th vote, at
      least 23 weeks after its first milestone. */
  lemma {:induction false} ReleaseTakes(l: Ledger, ts: seq<Transaction>, i: nat, j: nat, a: Address, k: nat) returns (m: nat)
    requires Lawful(l, ts) && i <= j <= |ts| && k < |StakesAt(l, ts, i, a)| && StakesAt(l, ts, i, a)[k].next.Some?
    requires StakesAt(l, ts, i, a)[k].isActive && StakesAt(l, ts, i, a)[k].voteCount == 0
    ensures k < |StakesAt(l, ts, j, a)|
    ensures !StakesAt(l, ts, j, a)[k].isActive ==>
              && i <= m < j && Counts(l, ts, m, a, k) && StakesAt(l, ts, j, a)[k].voteCount == 24
              && ts[m].createdAt >= StakesAt(l, ts, i, a)[k].next.value + 23 * 604800
    ensures StakesAt(l, ts, j, a)[k].isActive ==> StakesAt(l, ts, j, a)[k].voteCount < 24
    decreases j - i
  {
    hide StakesAt, Lawful, Counts;
    m := i;
    if i < j {
      m := ReleaseTakes(l, ts, i, j - 1, a, k);
      WeeksPass(l, ts, i, j - 1, a, k);
      OneStep(l, ts, j - 1, a, k);
      if StakesAt(l, ts, j - 1, a)[k].isActive {
        m := j - 1;
      }
    }
  }

  // ---------- the rewards of a stake ----------

  /** What the `i`-th transaction pays for stake `k` of `a` alone. */
  function PaidFor(l: Ledger, ts: seq<Transaction>, i: nat, a: Address, k: nat, height: nat): int {
    if i < |ts| && ts[i].sender == a && ts[i].IsUp() && k < |StakesAt(l, ts, i, a)|
    then TotalReward([StakesAt(l, ts, i, a)[k]], ts[i].createdAt, height) else 0
  }

  /** How many of these transactions pay for the stake. */
  function Payments(l: Ledger, ts: seq<Transaction>, i: nat, j: nat, a: Address, k: nat, height: nat): nat
    decreases j - i
  {
    if j <= i then 0 else Payments(l, ts, i, j - 1, a, k, height) + (if PaidFor(l, ts, j - 1, a, k, height) != 0 then 1 else 0)
  }

  lemma PaysWhenCounted(l: Ledger, ts: seq<Transaction>, i: nat, a: Address, k: nat, height: nat)
    requires Lawful(l, ts) && i < |ts| && k < |StakesAt(l, ts, i, a)| && StakesAt(l, ts, i, a)[k].next.Some?
    requires StakesAt(l, ts, i, a)[k].amount > 0 && StakesAt(l, ts, i, a)[k].voteCount >= 0
    ensures PaidFor(l, ts, i, a, k, height) != 0 <==>
              Counts(l, ts, i, a, k) && (StakesAt(l, ts, i, a)[k].voteCount + 1) % 4 == 0
  {
    hide Acc, Until, Lawful, TotalReward, TotalUnstake, ApplyUnconfirmed;
    var t := ts[i];
    var s := StakesAt(l, ts, i, a)[k];
    OneStep(l, ts, i, a, k);
    UntilNext(l, ts, i);
    RewardOfOne(s, t.createdAt, height);
    if t.sender == a && t.IsUp() {
      VoteRipens(Until(l, ts, i), t, a, k);
      RipenIs(s, t.createdAt);
    } else {
      KeepsItsStakes(l, ts, i, a, k);
      StakesOtherwise(Until(l, ts, i), t, a);
    }
  }

  lemma VoteRipens(l: Ledger, t: Transaction, a: Address, k: nat)
    requires t.sender == a && t.IsUp() && k < |Acc(l, a).stakes|
    ensures k < |Acc(ApplyUnconfirmed(l, t), a).stakes| && Acc(ApplyUnconfirmed(l, t), a).stakes[k] == Ripen(Acc(l, a).stakes[k], t.createdAt)
  {
    hide Change, ApplyUnconfirmed, Acc, ApplyVotes, ReferralsRead, Ripen;
    ApplyAt(l, t, a);
  }

  /** MAIN: a stake that starts with no vote counted has paid once for every four votes
      counted so far; released, it has paid exactly six times. */
  lemma {:induction false} SixPayments(l: Ledger, ts: seq<Transaction>, i: nat, j: nat, a: Address, k: nat, height: nat)
    requires Lawful(l, ts) && i <= j <= |ts| && k < |StakesAt(l, ts, i, a)| && StakesAt(l, ts, i, a)[k].next.Some?
    requires StakesAt(l, ts, i, a)[k].isActive && StakesAt(l, ts, i, a)[k].voteCount == 0 && StakesAt(l, ts, i, a)[k].amount > 0
    ensures k < |StakesAt(l, ts, j, a)|
    ensures Payments(l, ts, i, j, a, k, height) == StakesAt(l, ts, j, a)[k].voteCount / 4
    ensures !StakesAt(l, ts, j, a)[k].isActive ==> Payments(l, ts, i, j, a, k, height) == 6
    decreases j - i
  {
    hide StakesAt, Lawful, Counts, PaidFor;
    WeeksPass(l, ts, i, j, a, k);
    var _ := ReleaseTakes(l, ts, i, j, a, k);
    if i < j {
      SixPayments(l, ts, i, j - 1, a, k, height);
      WeeksPass(l, ts, i, j - 1, a, k);
      OneStep(l, ts, j - 1, a, k);
      PaysWhenCounted(l, ts, j - 1, a, k, height);
      Quarters(StakesAt(l, ts, j - 1, a)[k].voteCount);
    }
  }

  lemma Quarters(n: int)
    requires n >= 0
    ensures (n + 1) / 4 == n / 4 + if (n + 1) % 4 == 0 then 1 else 0
  {
  }

  // ---------- runs ----------

  /** MAIN: on the chain of every run two votes that count on one stake are at least a
      week apart, and the stakes of the node are those so counted. */
  lemma RunCountsApart(start: Node, ops: seq<Op>, hash: Hash, i: nat, j: nat, a: Address, k: nat)
    requires IsStart(start) && Careful(start, ops, hash)
    requires var ts := Flat(Run(start, ops, hash).chain);
      && i < j && Counts(start.ledger, ts, i, a, k) && Counts(start.ledger, ts, j, a, k)
      && StakesAt(start.ledger, ts, i, a)[k].next.Some?
    ensures var ts := Flat(Run(start, ops, hash).chain);
      && ts[j].createdAt - ts[i].createdAt >= 604800
      && Acc(Run(start, ops, hash).ledger, a).stakes == StakesAt(start.ledger, ts, |ts|, a)
  {
    hide Run, IsStart, Careful, Counts, Lawful, Until, Acc, Flat;
    RunIsFlat(start, ops, hash, a);
    CountsApart(start.ledger, Flat(Run(start, ops, hash).chain), i, j, a, k);
  }

  /** MAIN: a stake without votes that a run has released was frozen for at least 23
      weeks after its first milestone, and has paid six times. */
  lemma RunReleases(start: Node, ops: seq<Op>, hash: Hash, i: nat, a: Address, k: nat, height: nat) returns (m: nat)
    requires IsStart(start) && Careful(start, ops, hash)
    requires var ts := Flat(Run(start, ops, hash).chain);
      && i <= |ts| && k < |StakesAt(start.ledger, ts, i, a)|
      && var s := StakesAt(start.ledger, ts, i, a)[k];
        s.next.Some? && s.isActive && s.voteCount == 0 && s.amount > 0
    ensures k < |Acc(Run(start, ops, hash).ledger, a).stakes|
    ensures var ts := Flat(Run(start, ops, hash).chain);
      !Acc(Run(start, ops, hash).ledger, a).stakes[k].isActive ==>
        && i <= m < |ts| && ts[m].createdAt >= StakesAt(start.ledger, ts, i, a)[k].next.value + 23 * 604800
        && Payments(start.ledger, ts, i, |ts|, a, k, height) == 6
  {
    hide Run, IsStart, Careful, Counts, Lawful, Until, Acc, Flat, Payments;
    RunIsFlat(start, ops, hash, a);
    var ts := Flat(Run(start, ops, hash).chain);
    m := ReleaseTakes(start.ledger, ts, i, |ts|, a, k);
    SixPayments(start.ledger, ts, i, |ts|, a, k, height);
  }
}
