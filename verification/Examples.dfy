/** Ledgers a node can hold, and transactions its checks accept on them, at which
    applying and undoing part or the ledger stops being consistent. */
module Examples {
  import opened Model
  import opened Transactions
  import opened Inverse
  import opened Verify
  import opened Sound

  /** A voter and two delegates; the voter lists the first of them or none. */
  function Small(a: Address, d: Address, e: Address, listed: bool, stakes: seq<Stake>): Ledger {
    Ledger(map[a := EMPTY_ACCOUNT.(votes := if listed then multiset{d} else multiset{}, stakes := stakes, balance := 100),
               d := EMPTY_ACCOUNT.(isDelegate := true),
               e := EMPTY_ACCOUNT.(isDelegate := true)],
           map[d := Delegate("d", "", 0, 0, if listed then 1 else 0, 0), e := Delegate(" e", "", 0, 0, 0, 0)],
           {"d", " e"}, {5})
  }

  predicate Apart3(a: Address, d: Address, e: Address) {
    a != d && a != e && d != e
  }

  lemma SmallAccounts(a: Address, d: Address, e: Address, listed: bool, stakes: seq<Stake>, b: Address)
    requires Apart3(a, d, e)
    ensures Acc(Small(a, d, e, listed, stakes), b) ==
              if b == a then EMPTY_ACCOUNT.(votes := if listed then multiset{d} else multiset{}, stakes := stakes, balance := 100)
              else if b == d || b == e then EMPTY_ACCOUNT.(isDelegate := true)
              else EMPTY_ACCOUNT
  {
  }

  lemma SmallKnown(a: Address, d: Address, e: Address, listed: bool, stakes: seq<Stake>)
    requires Apart3(a, d, e)
    ensures var l := Small(a, d, e, listed, stakes);
      && Normal(l) && l.delegates.Keys == {d, e} && l.confirmed == {5} && l.usernames == {"d", " e"}
      && l.delegates[d].username == "d" && l.delegates[e].username == " e"
      && l.delegates[d].votes == (if listed then 1 else 0) && l.delegates[e].votes == 0
  {
  }

  lemma SmallVoters(a: Address, d: Address, e: Address, listed: bool, stakes: seq<Stake>)
    requires Apart3(a, d, e)
    ensures Voters(Small(a, d, e, listed, stakes).accounts, d) == if listed then {a} else {}
    ensures Voters(Small(a, d, e, listed, stakes).accounts, e) == {}
  {
    hide Voters, Small, Acc;
    var l := Small(a, d, e, listed, stakes);
    forall b
      ensures b in Voters(l.accounts, d) <==> b == a && listed
      ensures b !in Voters(l.accounts, e)
    {
      VotersAt(l, d, b);
      VotersAt(l, e, b);
      SmallAccounts(a, d, e, listed, stakes, b);
    }
  }

  lemma SmallAgrees(a: Address, d: Address, e: Address, listed: bool, stakes: seq<Stake>)
    requires Apart3(a, d, e)
    ensures DelegatesAgree(Small(a, d, e, listed, stakes)) && ListsShort(Small(a, d, e, listed, stakes))
  {
    hide Small, Acc;
    SmallKnown(a, d, e, listed, stakes);
    forall b, l: Ledger | l == Small(a, d, e, listed, stakes)
      ensures Acc(l, b).isDelegate <==> b in l.delegates
      ensures forall c :: Acc(l, b).votes[c] <= 1 && (c in Acc(l, b).votes ==> c in l.delegates)
      ensures |Acc(l, b).votes| <= 1
    {
      SmallAccounts(a, d, e, listed, stakes, b);
    }
  }

  lemma SmallConsistent(a: Address, d: Address, e: Address, listed: bool, stakes: seq<Stake>)
    requires Apart3(a, d, e)
    ensures Consistent(Small(a, d, e, listed, stakes))
  {
    hide Voters, Acc, Small, DelegatesAgree, ListsShort;
    var l := Small(a, d, e, listed, stakes);
    SmallKnown(a, d, e, listed, stakes);
    SmallVoters(a, d, e, listed, stakes);
    SmallAgrees(a, d, e, listed, stakes);
    assert d in l.delegates && e in l.delegates;
    assert "d"[0] != " e"[0];
  }

  function VoteOf(id: TrsId, a: Address, at: Timestamp, votes: seq<VoteItem>): Transaction {
    Transaction(id, a, at, 0, Vote(votes, 0, 0, []))
  }

  /** A vote without reward, unstake and sponsors passes the check item by item. */
  lemma PlainVoteVerified(l: Ledger, t: Transaction)
    requires t.asset.Vote? && t.asset.reward == 0 && t.asset.unstake == 0 && t.asset.voteSponsors == [] && t.fee == 0
    requires t.id !in l.confirmed && Acc(l, t.sender).balance >= 0
    requires !t.IsDown() ==>
               TotalReward(Acc(l, t.sender).stakes, t.createdAt, 2) == 0 && TotalUnstake(Acc(l, t.sender).stakes, t.createdAt) == 0
    requires forall i :: 0 <= i < |t.asset.votes| ==> VoteItemOk(l, Acc(l, t.sender), t.asset.votes[i])
    requires |Acc(l, t.sender).votes| + |t.asset.votes| <= MAX_VOTES
    ensures Verified(l, 2, t)
  {
    hide TotalReward, TotalUnstake, VoteItemOk;
    CountUpBounds(t.asset.votes);
  }

  /** The voter may drop the delegate it lists and add the other one in one vote. */
  lemma MixedAccepted(a: Address, d: Address, e: Address, votes: seq<VoteItem>)
    requires Apart3(a, d, e)
    requires votes == [VoteItem(false, d), VoteItem(true, e)] || votes == [VoteItem(true, e), VoteItem(false, d)]
    ensures
      var l := Small(a, d, e, true, []);
      var t := VoteOf(1, a, 10, votes);
      && Consistent(l) && WellFormed(t) && Verified(l, 2, t) && Keys(votes) == [votes[0].delegate, votes[1].delegate]
      && Acc(l, a) == EMPTY_ACCOUNT.(votes := multiset{d}, balance := 100)
  {
    hide Voters, Acc, ApplyUnconfirmed, Small, Consistent, Verified;
    var l := Small(a, d, e, true, []);
    SmallConsistent(a, d, e, true, []);
    SmallAccounts(a, d, e, true, [], a);
    SmallAccounts(a, d, e, true, [], d);
    SmallAccounts(a, d, e, true, [], e);
    SmallKnown(a, d, e, true, []);
    PlainVoteVerified(l, VoteOf(1, a, 10, votes));
  }

  /** A vote that begins with a down-vote and holds an up-vote is accepted; it can
      neither be undone nor does it leave the tallies right. */
  lemma MixedDownPasses(a: Address, d: Address, e: Address)
    requires Apart3(a, d, e)
    ensures
      var l := Small(a, d, e, true, []);
      var t := VoteOf(1, a, 10, [VoteItem(false, d), VoteItem(true, e)]);
      && Consistent(l) && WellFormed(t) && Verified(l, 2, t)
      && !Undoable(l, t) && !Consistent(ApplyUnconfirmed(l, t))
  {
    hide Voters, Acc, ApplyUnconfirmed, Small, Consistent, Verified, VoteOk;
    var l := Small(a, d, e, true, []);
    var votes := [VoteItem(false, d), VoteItem(true, e)];
    var t := VoteOf(1, a, 10, votes);
    MixedAccepted(a, d, e, votes);
    VotePart(l, 2, t);
    assert !AllDown(votes) by { assert votes[1].up; }
    DownVoteKeys(l, 2, t);
    ConsistentKeptIff(l, 2, t);
  }

  /** A vote that begins with an up-vote and holds a down-vote is accepted; it can be
      undone, but while it stays the delegate it means to drop is listed twice. */
  lemma MixedUpPasses(a: Address, d: Address, e: Address)
    requires Apart3(a, d, e)
    ensures
      var l := Small(a, d, e, true, []);
      var t := VoteOf(1, a, 10, [VoteItem(true, e), VoteItem(false, d)]);
      && Consistent(l) && WellFormed(t) && Verified(l, 2, t)
      && Undoable(l, t) && !Consistent(ApplyUnconfirmed(l, t))
      && Acc(ApplyUnconfirmed(l, t), a).votes[d] == 2
  {
    hide Voters, Acc, ApplyUnconfirmed, Small, Consistent, Verified, VoteOk;
    var l := Small(a, d, e, true, []);
    var votes := [VoteItem(true, e), VoteItem(false, d)];
    var t := VoteOf(1, a, 10, votes);
    MixedAccepted(a, d, e, votes);
    assert !AllUp(votes) by { assert !votes[1].up; }
    ConsistentKeptIff(l, 2, t);
    ApplyAt(l, t, a);
  }

  lemma VotePart(l: Ledger, height: nat, t: Transaction)
    requires t.asset.Vote? && Verified(l, height, t)
    ensures VoteOk(l, height, t)
  {
    hide VoteOk;
  }

  /** Two votes of one sender at one time are both accepted, and the second cannot
      be undone: its undo takes back what the first vote counted. */
  lemma SecondVotePasses(a: Address, d: Address, e: Address)
    requires Apart3(a, d, e)
    ensures
      var l := Small(a, d, e, false, [Stake(0, true, 100, 0, Some(0), [], 5, [])]);
      var v := VoteOf(1, a, 10, [VoteItem(true, d)]);
      var w := VoteOf(2, a, 10, [VoteItem(true, e)]);
      var m := ApplyUnconfirmed(l, v);
      && Consistent(l) && WellFormed(v) && Verified(l, 2, v) && Undoable(l, v)
      && Consistent(m) && WellFormed(w) && Verified(m, 2, w) && !Undoable(m, w)
      && UndoUnconfirmed(ApplyUnconfirmed(m, w), w) != m
  {
    hide Voters, ApplyUnconfirmed, UndoUnconfirmed, Small, Verified, Undoable, Consistent, Acc, WellFormed;
    var s := Stake(0, true, 100, 0, Some(0), [], 5, []);
    var l := Small(a, d, e, false, [s]);
    var v := VoteOf(1, a, 10, [VoteItem(true, d)]);
    var w := VoteOf(2, a, 10, [VoteItem(true, e)]);
    FirstVote(a, d, e, s);
    SecondVote(a, d, e, s);
    SmallAccounts(a, d, e, false, [s], a);
    SecondVoteAtOneTime(l, v, w, 0);
  }

  lemma FirstVote(a: Address, d: Address, e: Address, s: Stake)
    requires Apart3(a, d, e) && Due(s, 10) && s.voteCount == 0 && s.next == Some(0)
    ensures
      var l := Small(a, d, e, false, [s]);
      var v := VoteOf(1, a, 10, [VoteItem(true, d)]);
      && Consistent(l) && WellFormed(v) && Verified(l, 2, v) && Undoable(l, v) && Consistent(ApplyUnconfirmed(l, v))
  {
    hide Voters, ApplyUnconfirmed, Small, Acc, Consistent, Verified;
    var l := Small(a, d, e, false, [s]);
    var v := VoteOf(1, a, 10, [VoteItem(true, d)]);
    SmallConsistent(a, d, e, false, [s]);
    SmallAccounts(a, d, e, false, [s], a);
    SmallAccounts(a, d, e, false, [s], d);
    SmallKnown(a, d, e, false, [s]);
    OneStake(s, 10);
    PlainVoteVerified(l, v);
    ConsistentKept(l, 2, v);
  }

  lemma SecondVote(a: Address, d: Address, e: Address, s: Stake)
    requires Apart3(a, d, e) && Due(s, 10) && s.voteCount == 0
    ensures
      var m := ApplyUnconfirmed(Small(a, d, e, false, [s]), VoteOf(1, a, 10, [VoteItem(true, d)]));
      var w := VoteOf(2, a, 10, [VoteItem(true, e)]);
      WellFormed(w) && Verified(m, 2, w)
  {
    hide ApplyUnconfirmed, Small, Acc, Change, ReferralsRead, RipenAll, Verified;
    var l := Small(a, d, e, false, [s]);
    var v := VoteOf(1, a, 10, [VoteItem(true, d)]);
    var w := VoteOf(2, a, 10, [VoteItem(true, e)]);
    var m := ApplyUnconfirmed(l, v);
    SmallKnown(a, d, e, false, [s]);
    SmallAccounts(a, d, e, false, [s], a);
    SmallAccounts(a, d, e, false, [s], e);
    ApplyAt(l, v, a);
    ApplyAt(l, v, e);
    ApplyParts(l, v);
    assert Keys(v.asset.votes) == [d];
    NoChange(v, a);
    OneStake(s, 10);
    PlainVoteVerified(m, w);
  }

  lemma NoChange(t: Transaction, a: Address)
    requires t.asset.Vote? && t.asset.reward == 0 && t.asset.unstake == 0 && t.asset.voteSponsors == [] && t.fee == 0
    ensures Change(t, a) == 0
  {
  }

  lemma OneStake(s: Stake, now: Timestamp)
    requires Due(s, now) && s.voteCount == 0
    ensures TotalReward([s], now, 2) == 0 && TotalUnstake([s], now) == 0
    ensures TotalReward(RipenAll([s], now), now, 2) == 0 && TotalUnstake(RipenAll([s], now), now) == 0
    ensures Fresh([s], now) ==> RipenAll([s], now) == [Ripen(s, now)]
  {
    assert [s][..0] == [];
    var r := RipenAll([s], now);
    assert r == [Ripen(s, now)] && r[..0] == [];
  }

  /** A name in use, padded with a blank, is accepted a second time: undoing it
      frees the name of the other delegate, and two delegates share it. */
  lemma TakenNamePasses(a: Address, d: Address, e: Address, c: Address)
    requires Apart3(a, d, e) && c != a && c != d && c != e
    ensures
      var l := Small(a, d, e, true, []);
      var t := Transaction(1, c, 10, 0, NewDelegate(" e", ""));
      && Consistent(l) && WellFormed(t) && Verified(l, 2, t)
      && !Undoable(l, t) && !Consistent(ApplyUnconfirmed(l, t))
  {
    hide Voters, Acc, ApplyUnconfirmed, Small;
    var l := Small(a, d, e, true, []);
    var t := Transaction(1, c, 10, 0, NewDelegate(" e", ""));
    SmallConsistent(a, d, e, true, []);
    SmallAccounts(a, d, e, true, [], c);
    SmallKnown(a, d, e, true, []);
    TrimmedE();
    ConsistentKeptIff(l, 2, t);
  }

  lemma TrimmedE()
    ensures Trim(" e") == "e" && "e" != " e" && "e" != "d"
  {
    var s := " e";
    assert s[1..] == "e";
    assert TrimLeft("e") == "e";
  }
}
