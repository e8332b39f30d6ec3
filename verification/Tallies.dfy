/** Confirmed vote counts are a count over the chain. */
module Tallies {
  import opened Model
  import opened Transactions
  import opened Inverse
  import opened Verify
  import opened Blocks
  import opened Sound
  import opened BlockRuns
  import opened Rounds
  import opened RoundRuns
  import opened Node
  import opened Journal
  import opened Runs

  /** Up-votes minus down-votes for a delegate in a block. */
  function BlockVotes(ts: seq<Transaction>, d: Address): int {
    if ts == [] then 0 else BlockVotes(ts[..|ts| - 1], d) + Sign(ts[|ts| - 1]) * VoteKeys(ts[|ts| - 1])[d]
  }

  /** The same over the blocks after the first. */
  function ChainVotes(chain: seq<Block>, d: Address): int {
    if |chain| <= 1 then 0 else ChainVotes(chain[..|chain| - 1], d) + BlockVotes(chain[|chain| - 1].transactions, d)
  }

  function CountOf(ds: map<Address, Delegate>, d: Address): int {
    if d in ds then ds[d].confirmedVoteCount else 0
  }

  lemma ApplyCount(l: Ledger, height: nat, t: Transaction, d: Address)
    requires Sane(l) && Verified(l, height, t)
    ensures CountOf(ApplyUnconfirmed(l, t).delegates, d) == CountOf(l.delegates, d)
    ensures d in l.delegates ==> d in ApplyUnconfirmed(l, t).delegates
  {
    hide ApplyUnconfirmed, Verified;
    ApplyParts(l, t);
    if t.asset.NewDelegate? {
      NewcomerUnknown(l, height, t);
    }
  }

  lemma {:induction false} ApplyAllCount(l: Ledger, height: nat, ts: seq<Transaction>, d: Address)
    requires Sane(l) && AllVerified(l, height, ts)
    ensures CountOf(ApplyAll(l, ts).delegates, d) == CountOf(l.delegates, d)
    ensures d in l.delegates ==> d in ApplyAll(l, ts).delegates
  {
    hide ApplyUnconfirmed, Sane, Verified, WellFormed, DownOnly;
    if ts != [] {
      ApplyAllCount(l, height, ts[..|ts| - 1], d);
      SaneBlock(l, height, ts[..|ts| - 1]);
      ApplyCount(ApplyAll(l, ts[..|ts| - 1]), height, ts[|ts| - 1], d);
    }
  }

  lemma {:induction false} ConfirmAllCount(l: Ledger, ts: seq<Transaction>, d: Address)
    requires NewIds(l.confirmed, ts)
    ensures ConfirmAll(l, ts).delegates.Keys == l.delegates.Keys
    ensures d in l.delegates ==> CountOf(ConfirmAll(l, ts).delegates, d) == CountOf(l.delegates, d) + BlockVotes(ts, d)
  {
    if ts != [] {
      var init, t := ts[..|ts| - 1], ts[|ts| - 1];
      NewIdsPrefix(l.confirmed, ts);
      ConfirmAllIds(l, init);
      ConfirmAllCount(l, init, d);
      hide ConfirmAll;
      assert t.id !in ConfirmAll(l, init).confirmed;
    }
  }

  /** A block votes only for delegates there are when it has been applied. */
  lemma {:induction false} UnknownUnvoted(l: Ledger, height: nat, ts: seq<Transaction>, d: Address)
    requires Sane(l) && AllVerified(l, height, ts)
    requires d !in ApplyAll(l, ts).delegates
    ensures BlockVotes(ts, d) == 0
  {
    hide ApplyUnconfirmed, Verified, WellFormed, Normal, DownOnly;
    if ts != [] {
      var init, t := ts[..|ts| - 1], ts[|ts| - 1];
      SaneBlock(l, height, init);
      ApplyCount(ApplyAll(l, init), height, t, d);
      KeysAreDelegates(ApplyAll(l, init), height, t, d);
      UnknownUnvoted(l, height, init, d);
    }
  }

  lemma BlockCount(l: Ledger, height: nat, ts: seq<Transaction>, d: Address)
    requires Sane(l) && AllVerified(l, height, ts) && NewIds(l.confirmed, ts)
    ensures CountOf(ApplyBlock(l, ts).delegates, d) == CountOf(l.delegates, d) + BlockVotes(ts, d)
  {
    hide ApplyAll, ConfirmAll, AllVerified, Sane, NewIds, SourcesIn;
    ApplyAllCount(l, height, ts, d);
    KeepsConfirmed(l, ts);
    ConfirmAllCount(ApplyAll(l, ts), ts, d);
    if d !in ApplyAll(l, ts).delegates {
      UnknownUnvoted(l, height, ts, d);
    }
  }

  lemma KeepsConfirmed(l: Ledger, ts: seq<Transaction>)
    requires Sane(l)
    ensures ApplyAll(l, ts).confirmed == l.confirmed
  {
    ApplyAllNormal(l, ts);
  }

  lemma PayCount(l: Ledger, r: Round, chain: seq<Block>, d: Address)
    ensures CountOf(Pay(l, r, chain, 1).delegates, d) == CountOf(l.delegates, d)
  {
  }

  lemma StepCount(m: Node, e: Event, hash: Hash, d: Address)
    requires NodeOk(m) && LegalEvent(m, e)
    ensures CountOf(Step(m, e, hash).ledger.delegates, d) - ChainVotes(Step(m, e, hash).chain, d)
         == CountOf(m.ledger.delegates, d) - ChainVotes(m.chain, d)
  {
    hide CountOf, Pay, Generate, ApplyBlock, Sane, AllVerified, RoundsTiled, FlagsMatch, TailOfRound, Linked;
    NodeShape(m);
    if e.Appended? {
      BlockCount(m.ledger, Last(m.chain).height, e.block.transactions, d);
      assert (m.chain + [e.block])[..|m.chain|] == m.chain;
    } else {
      PayCount(m.ledger, Last(m.rounds), m.chain, d);
    }
  }

  lemma {:induction false} JournalCount(start: Node, j: seq<Event>, hash: Hash, d: Address)
    requires NodeOk(start) && LegalJournal(start, j, hash)
    ensures CountOf(Replay(start, j, hash).ledger.delegates, d) - ChainVotes(Replay(start, j, hash).chain, d)
         == CountOf(start.ledger.delegates, d) - ChainVotes(start.chain, d)
  {
    hide NodeOk, LegalEvent, Step, CountOf, ChainVotes;
    if j != [] {
      ReplayOk(start, Init(j), hash);
      JournalCount(start, Init(j), hash, d);
      StepCount(Replay(start, Init(j), hash), Last(j), hash, d);
    }
  }

  /** MAIN: after every run, a delegate's confirmed votes are those it started with
      plus the up-votes minus the down-votes on the chain. */
  lemma ConfirmedVotesCounted(start: Node, ops: seq<Op>, hash: Hash, d: Address)
    requires IsStart(start) && Careful(start, ops, hash)
    ensures CountOf(Run(start, ops, hash).ledger.delegates, d)
         == CountOf(start.ledger.delegates, d) + ChainVotes(Run(start, ops, hash).chain, d)
  {
    hide Run, LegalJournal, Replay, NodeOk;
    var n := Run(start, ops, hash);
    assert Journaled(start, n, hash);
    var j :| LegalJournal(start, j, hash) && Replay(start, j, hash) == n;
    JournalCount(start, j, hash, d);
  }
}
