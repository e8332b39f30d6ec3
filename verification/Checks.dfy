/** What a transaction that passes the checks is known to be, in plain numbers, and what
    every block of a run therefore holds. */
module Checks {
  import opened Model
  import opened Transactions
  import opened Verify
  import opened Solvent
  import opened Airdrops
  import opened Totals
  import opened Blocks
  import opened BlockRuns
  import opened Rounds
  import opened Node
  import opened Journal
  import opened Runs
  import opened OnChain

  // ---------- one transaction ----------

  /** MAIN: a registration is accepted exactly of an account that nothing was ever done
      with; a transfer, when something is left; a second key, when there is none. */
  lemma PlainChecks(l: Ledger, height: nat, t: Transaction)
    ensures var x := Acc(l, t.sender);
      && (t.asset.Register? ==>
            (Verified(l, height, t) <==>
               && t.id !in l.confirmed && t.fee <= 0
               && x.balance == 0 && x.votes == multiset{} && x.stakes == [] && x.referrals == [] && x.secondKey == None && !x.isDelegate))
      && (t.asset.Send? ==> (Verified(l, height, t) <==> t.id !in l.confirmed && x.balance > t.fee + t.asset.sent))
      && (t.asset.Signature? ==> (Verified(l, height, t) <==> t.id !in l.confirmed && x.balance >= t.fee && x.secondKey == None))
  {
  }

  /** The name without the blanks around it. */
  predicate IsTrimmed(name: string, core: string, before: nat, after: nat) {
    && before <= after <= |name| && core == name[before..after]
    && (forall i :: 0 <= i < |name| && (i < before || after <= i) ==> name[i] in " \t\n\r")
    && (core != [] ==> core[0] !in " \t\n\r" && core[|core| - 1] !in " \t\n\r")
  }

  lemma {:induction false} LeftTrimmed(s: string) returns (k: nat)
    ensures k <= |s| && TrimLeft(s) == s[k..] && (forall i :: 0 <= i < k ==> s[i] in " \t\n\r")
    ensures k < |s| ==> s[k] !in " \t\n\r"
  {
    k := 0;
    if s != [] && IsSpace(s[0]) {
      var m := LeftTrimmed(s[1..]);
      k := m + 1;
      assert s[1..][m..] == s[k..];
    }
  }

  lemma {:induction false} RightTrimmed(s: string) returns (k: nat)
    ensures k <= |s| && TrimRight(s) == s[..k] && (forall i :: k <= i < |s| ==> s[i] in " \t\n\r")
    ensures k > 0 ==> s[k - 1] !in " \t\n\r"
  {
    k := |s|;
    if s != [] && IsSpace(s[|s| - 1]) {
      k := RightTrimmed(s[..|s| - 1]);
      assert s[..|s| - 1][..k] == s[..k];
    } else {
      assert s[..|s|] == s;
    }
  }

  /** Trimming takes the blanks off both ends and nothing else. */
  lemma TrimIs(s: string) returns (before: nat, after: nat)
    ensures IsTrimmed(s, Trim(s), before, after)
  {
    hide TrimLeft, TrimRight;
    before := LeftTrimmed(s);
    var core := s[before..];
    var k := RightTrimmed(core);
    after := before + k;
    assert core[..k] == s[before..after];
    forall i | after <= i < |s|
      ensures s[i] in " \t\n\r"
    {
      assert core[i - before] in " \t\n\r";
    }
    if k > 0 {
      assert core[k - 1] == s[after - 1];
    }
  }

  /** MAIN: a new delegate is accepted exactly when it is none yet, can pay, and its
      name without the blanks around it is free. */
  lemma DelegateCheck(l: Ledger, height: nat, t: Transaction) returns (core: string, before: nat, after: nat)
    requires t.asset.NewDelegate?
    ensures IsTrimmed(t.asset.username, core, before, after)
    ensures Verified(l, height, t) <==>
              t.id !in l.confirmed && Acc(l, t.sender).balance >= t.fee && !Acc(l, t.sender).isDelegate && core !in l.usernames
  {
    hide Trim, IsTrimmed;
    core := Trim(t.asset.username);
    before, after := TrimIs(t.asset.username);
  }

  /** MAIN: an amount is frozen exactly when the sender can pay it, no vote is counted in
      advance, late amounts are whole coins, and the sponsor is the first one. */
  lemma FreezeCheck(l: Ledger, height: nat, t: Transaction)
    requires t.asset.Freeze?
    ensures Verified(l, height, t) <==>
              && t.id !in l.confirmed && Acc(l, t.sender).balance >= t.fee + t.asset.amount
              && (t.asset.startVoteCount == 0 || height <= 18142)
              && (height <= 1009955 || (t.asset.amount >= 100000000 && t.asset.amount % 100000000 == 0))
              && SameSponsors(AirdropFor(l, Acc(l, t.sender), t.asset.amount, true), t.asset.stakeSponsors)
  {
    hide AirdropFor, SameSponsors;
  }

  /** Up-votes less down-votes. */
  function Added(votes: seq<VoteItem>): int {
    if votes == [] then 0 else Added(votes[1..]) + (if votes[0].up then 1 else -1)
  }

  lemma {:induction false} AddedLast(votes: seq<VoteItem>)
    requires votes != []
    ensures Added(votes) == Added(votes[..|votes| - 1]) + (if votes[|votes| - 1].up then 1 else -1)
  {
    if |votes| == 1 {
      assert votes[1..] == [] && votes[..0] == [];
    } else {
      AddedLast(votes[1..]);
      assert votes[1..][..|votes| - 2] == votes[..|votes| - 1][1..];
    }
  }

  lemma {:induction false} AddedIs(votes: seq<VoteItem>)
    ensures Added(votes) == 2 * CountUp(votes) - |votes|
  {
    if votes != [] {
      AddedIs(votes[..|votes| - 1]);
      AddedLast(votes);
    }
  }

  /** MAIN: a vote is accepted exactly when, late enough, the sender has an active stake;
      it carries the reward and unstake of the stakes that are due, or none when it
      starts with a down-vote; each item votes for a delegate that is not listed, or
      against one that is; and the list stays within 201. */
  lemma VoteCheck(l: Ledger, height: nat, t: Transaction)
    requires t.asset.Vote? && t.asset.votes != []
    ensures var x, votes := Acc(l, t.sender), t.asset.votes;
      Verified(l, height, t) <==>
        && t.id !in l.confirmed && x.balance >= t.fee
        && (height <= 245000 || exists i :: 0 <= i < |x.stakes| && x.stakes[i].isActive)
        && t.asset.reward == (if votes[0].up then TotalReward(x.stakes, t.createdAt, height) else 0)
        && t.asset.unstake == (if votes[0].up then TotalUnstake(x.stakes, t.createdAt) else 0)
        && SameSponsors(AirdropFor(l, x, t.asset.reward, false), t.asset.voteSponsors)
        && (forall i :: 0 <= i < |votes| ==>
              Acc(l, votes[i].delegate).isDelegate && (votes[i].up <==> votes[i].delegate !in x.votes))
        && |x.votes| + Added(votes) <= 201
  {
    hide AirdropFor, SameSponsors, TotalReward, TotalUnstake, Acc;
    AddedIs(t.asset.votes);
  }

  // ---------- the blocks of a run ----------

  /** What a block's transaction is by itself, after a chain of this height. */
  ghost predicate Plain(height: nat, t: Transaction) {
    && t.fee >= 0
    && (t.asset.Send? ==> t.asset.sent > 0)
    && (t.asset.Freeze? ==>
          && t.asset.amount > 0 && (height > 18142 ==> t.asset.startVoteCount == 0)
          && (height > 1009955 ==> t.asset.amount >= 100000000 && t.asset.amount % 100000000 == 0))
    && (t.asset.Vote? ==>
          && t.asset.votes != []
          && (forall i, j :: 0 <= i < j < |t.asset.votes| ==> t.asset.votes[i].delegate != t.asset.votes[j].delegate)
          && (!t.asset.votes[0].up ==> t.asset.reward == 0 && t.asset.unstake == 0))
  }

  ghost predicate AllPlain(height: nat, ts: seq<Transaction>) {
    forall i :: 0 <= i < |ts| ==> Plain(height, ts[i])
  }

  lemma {:induction false} VerifiedPlain(l: Ledger, height: nat, ts: seq<Transaction>)
    requires AllVerified(l, height, ts)
    ensures AllPlain(height, ts)
  {
    hide ApplyAll, Verified, WellFormed, DownOnly, Plain;
    if ts != [] {
      var init, t := ts[..|ts| - 1], ts[|ts| - 1];
      VerifiedPlain(l, height, init);
      OnePlain(ApplyAll(l, init), height, t);
    }
  }

  lemma OnePlain(l: Ledger, height: nat, t: Transaction)
    requires WellFormed(t) && Verified(l, height, t)
    ensures Plain(height, t)
  {
    hide Acc, AirdropFor, SameSponsors, TotalReward, TotalUnstake;
  }

  function FeeSum(ts: seq<Transaction>): int {
    if ts == [] then 0 else ts[0].fee + FeeSum(ts[1..])
  }

  lemma {:induction false} FeesAre(ts: seq<Transaction>)
    ensures SumFees(ts) == FeeSum(ts)
  {
    if ts != [] {
      FeesAre(ts[..|ts| - 1]);
      FeeLast(ts);
    }
  }

  lemma {:induction false} FeeLast(ts: seq<Transaction>)
    requires ts != []
    ensures FeeSum(ts) == FeeSum(ts[..|ts| - 1]) + ts[|ts| - 1].fee
  {
    if |ts| == 1 {
      assert ts[1..] == [] && ts[..0] == [];
    } else {
      FeeLast(ts[1..]);
      assert ts[1..][..|ts| - 2] == ts[..|ts| - 1][1..];
    }
  }

  ghost predicate ChainPlain(chain: seq<Block>) {
    forall k :: 0 < k < |chain| ==> AllPlain(chain[k - 1].height, chain[k].transactions) && chain[k].fee == FeeSum(chain[k].transactions)
  }

  lemma {:induction false} JournalPlain(start: Node, j: seq<Event>, hash: Hash)
    requires IsStart(start) && LegalJournal(start, j, hash)
    ensures ChainPlain(Replay(start, j, hash).chain)
  {
    hide NodeOk, Forward, Append, Legal, IsStart, AllPlain, FeeSum;
    StartChain(start);
    if j != [] {
      var m := Replay(start, Init(j), hash);
      JournalPlain(start, Init(j), hash);
      ReplayOk(start, Init(j), hash);
      LegalMeans(m, Last(j));
      if Last(j).Appended? {
        var b := Last(j).block;
        LegalPlain(m, b);
        AppendChain(m, b);
      } else {
        ForwardChain(m, hash);
      }
    }
  }

  lemma LegalPlain(n: Node, b: Block)
    requires n.rounds != [] && n.chain != [] && Legal(n, b)
    ensures AllPlain(Last(n.chain).height, b.transactions) && b.fee == FeeSum(b.transactions)
  {
    hide AllPlain, AllVerified, SumFees;
    VerifiedPlain(n.ledger, Last(n.chain).height, b.transactions);
    FeesAre(b.transactions);
  }

  /** MAIN: in every block of a run but the first, fees are not negative and add up to
      the block's, late stakes are whole coins without votes counted in advance, votes
      name each delegate once, and a vote that starts with a down-vote pays nothing. */
  lemma RunPlain(start: Node, ops: seq<Op>, hash: Hash, k: nat, i: nat)
    requires IsStart(start) && Careful(start, ops, hash)
    requires 0 < k < |Run(start, ops, hash).chain| && i < |Run(start, ops, hash).chain[k].transactions|
    ensures var b := Run(start, ops, hash).chain[k];
      Plain(Run(start, ops, hash).chain[k - 1].height, b.transactions[i]) && b.fee == FeeSum(b.transactions)
  {
    hide Run, LegalJournal, Replay, NodeOk, IsStart, Careful, Plain, FeeSum;
    var n := Run(start, ops, hash);
    assert Journaled(start, n, hash);
    var j :| LegalJournal(start, j, hash) && Replay(start, j, hash) == n;
    JournalPlain(start, j, hash);
    assert AllPlain(n.chain[k - 1].height, n.chain[k].transactions);
  }
}
