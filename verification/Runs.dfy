/** What holds at the end of every run of the node. */
module Runs {
  import opened Model
  import opened Transactions
  import opened Verify
  import opened Blocks
  import opened Sound
  import opened Solvent
  import opened Totals
  import opened BlockRuns
  import opened Rounds
  import opened RoundRuns
  import opened Node
  import opened Journal
  import M = Made

  // ---------- one chain and one number of rounds, one state ----------

  lemma {:induction false} ReplayFront(n: Node, e: Event, j: seq<Event>, hash: Hash)
    ensures Replay(n, [e] + j, hash) == Replay(Step(n, e, hash), j, hash)
    ensures LegalJournal(n, [e] + j, hash) <==> LegalEvent(n, e) && LegalJournal(Step(n, e, hash), j, hash)
  {
    hide LegalEvent, Step;
    if j == [] {
      assert Init([e]) == [] && Last([e]) == e;
      assert [e] + j == [e];
    } else {
      assert Init([e] + j) == [e] + Init(j) && Last([e] + j) == Last(j);
      ReplayFront(n, e, Init(j), hash);
    }
  }

  /** Events only add to the chain and to the stack of rounds; a later block lies
      in the round that was current, or after it. */
  lemma {:induction false} ReplayGrows(n: Node, j: seq<Event>, hash: Hash)
    requires NodeOk(n) && LegalJournal(n, j, hash)
    ensures var m := Replay(n, j, hash);
      && NodeOk(m)
      && |m.chain| >= |n.chain| && m.chain[..|n.chain|] == n.chain
      && |m.rounds| >= |n.rounds|
      && Last(m.rounds)[0].slot >= Last(n.rounds)[0].slot
      && (forall k :: |n.chain| <= k < |m.chain| ==> BlockSlot(m.chain[k]) >= Last(n.rounds)[0].slot)
      && (|m.chain| + |m.rounds| == |n.chain| + |n.rounds| + |j|)
  {
    hide NodeOk, LegalEvent, Forward, Legal, LastSlot;
    NodeShape(n);
    if j != [] {
      ReplayGrows(n, Init(j), hash);
      var m := Replay(n, Init(j), hash);
      NodeShape(m);
      LegalMeans(m, Last(j));
      if Last(j).Appended? {
        AppendGrows(m, Last(j).block);
      } else {
        CloseGrows(m, hash);
      }
    }
  }

  lemma LegalMeans(n: Node, e: Event)
    requires NodeOk(n)
    ensures LegalEvent(n, e) ==> n.rounds != [] && n.chain != [] && Last(n.rounds) != []
    ensures LegalEvent(n, e) && e.Appended? ==> Legal(n, e.block)
  {
  }

  lemma AppendGrows(m: Node, b: Block)
    requires NodeOk(m) && Legal(m, b)
    ensures NodeOk(Append(m, b))
    ensures var a := Append(m, b);
      && a.chain == m.chain + [b] && |a.rounds| == |m.rounds| && a.rounds != [] && Last(a.rounds) != []
      && Last(a.rounds)[0].slot == Last(m.rounds)[0].slot
      && BlockSlot(b) >= Last(m.rounds)[0].slot
  {
    AppendOk(m, b);
    NodeShape(m);
    LastTiled(m.rounds);
    var r := Last(m.rounds);
    var p :| 0 <= p < |r| && r[p].generator == b.generator && r[p].slot == BlockSlot(b);
  }

  lemma CloseGrows(m: Node, hash: Hash)
    requires NodeOk(m)
    ensures NodeOk(Forward(m, hash))
    ensures var a := Forward(m, hash);
      && a.chain == m.chain && |a.rounds| == |m.rounds| + 1 && Last(a.rounds) != []
      && Last(a.rounds)[0].slot == LastSlot(Last(m.rounds)) + 1
      && LastSlot(Last(m.rounds)) >= Last(m.rounds)[0].slot
  {
    ForwardOk(m, hash);
    NextRoundIs(m, hash);
    LastTiled(m.rounds);
    TiledLast(Last(m.rounds), Last(m.rounds)[0].slot);
  }

  /** Legal journals that end in the same chain and as many rounds are the same. */
  lemma {:induction false} JournalUnique(n: Node, i: seq<Event>, j: seq<Event>, hash: Hash)
    requires NodeOk(n) && LegalJournal(n, i, hash) && LegalJournal(n, j, hash)
    requires Replay(n, i, hash).chain == Replay(n, j, hash).chain
    requires |Replay(n, i, hash).rounds| == |Replay(n, j, hash).rounds|
    ensures i == j
    decreases |i|
  {
    hide NodeOk, LegalEvent, Replay, LegalJournal, Forward, Append;
    ReplayGrows(n, i, hash);
    ReplayGrows(n, j, hash);
    if i != [] {
      var e, f := i[0], j[0];
      assert i == [e] + i[1..] && j == [f] + j[1..];
      ReplayFront(n, e, i[1..], hash);
      ReplayFront(n, f, j[1..], hash);
      FirstEventSame(n, e, i[1..], f, j[1..], hash);
      StepOk(n, e, hash);
      JournalUnique(Step(n, e, hash), i[1..], j[1..], hash);
    }
  }

  lemma FirstEventSame(n: Node, e: Event, i: seq<Event>, f: Event, j: seq<Event>, hash: Hash)
    requires NodeOk(n) && LegalEvent(n, e) && LegalEvent(n, f)
    requires LegalJournal(Step(n, e, hash), i, hash) && LegalJournal(Step(n, f, hash), j, hash)
    requires Replay(Step(n, e, hash), i, hash).chain == Replay(Step(n, f, hash), j, hash).chain
    requires |Replay(Step(n, e, hash), i, hash).rounds| == |Replay(Step(n, f, hash), j, hash).rounds|
    ensures e == f
  {
    hide NodeOk, Replay, LegalJournal, Forward, Append, Legal;
    StepOk(n, e, hash);
    StepOk(n, f, hash);
    ReplayGrows(Step(n, e, hash), i, hash);
    ReplayGrows(Step(n, f, hash), j, hash);
    if e.Appended? {
      FirstAppended(n, e.block, i, f, j, hash);
    } else if f.Appended? {
      FirstAppended(n, f.block, j, e, i, hash);
    }
  }

  lemma FirstAppended(n: Node, b: Block, i: seq<Event>, f: Event, j: seq<Event>, hash: Hash)
    requires NodeOk(n) && LegalEvent(n, Appended(b)) && LegalEvent(n, f)
    requires LegalJournal(Step(n, Appended(b), hash), i, hash) && LegalJournal(Step(n, f, hash), j, hash)
    requires Replay(Step(n, Appended(b), hash), i, hash).chain == Replay(Step(n, f, hash), j, hash).chain
    ensures f == Appended(b)
  {
    hide NodeOk, Replay, LegalJournal, Forward, Append, Legal, LastSlot, BlockSlot;
    var m, p := Step(n, Appended(b), hash), Step(n, f, hash);
    StepOk(n, Appended(b), hash);
    StepOk(n, f, hash);
    ReplayGrows(m, i, hash);
    ReplayGrows(p, j, hash);
    var chain := Replay(m, i, hash).chain;
    LegalMeans(n, Appended(b));
    AppendGrows(n, b);
    assert chain[..|m.chain|] == m.chain;
    assert chain[|n.chain|] == b;
    if f.Appended? {
      LegalMeans(n, f);
      AppendGrows(n, f.block);
      assert chain[..|p.chain|] == p.chain;
    } else {
      CloseGrows(n, hash);
      assert p.chain == n.chain;
      assert BlockSlot(chain[|n.chain|]) >= Last(p.rounds)[0].slot;
      LegalInRound(n, b);
    }
  }

  lemma LegalInRound(n: Node, b: Block)
    requires NodeOk(n) && Legal(n, b)
    ensures n.rounds != [] && Last(n.rounds) != [] && BlockSlot(b) <= LastSlot(Last(n.rounds))
  {
    LastTiled(n.rounds);
    TiledIn(Last(n.rounds), Last(n.rounds)[0].slot, BlockSlot(b));
  }

  /** MAIN: two runs that end with the same chain and as many rounds end in the
      same state: ledger, rounds and marks do not depend on the path. */
  lemma PathIndependent(start: Node, ops: seq<Op>, other: seq<Op>, hash: Hash)
    requires IsStart(start) && Careful(start, ops, hash) && Careful(start, other, hash)
    requires Run(start, ops, hash).chain == Run(start, other, hash).chain
    requires |Run(start, ops, hash).rounds| == |Run(start, other, hash).rounds|
    ensures Run(start, ops, hash) == Run(start, other, hash)
  {
    hide Run, LegalJournal, Replay, NodeOk;
    var i :| LegalJournal(start, i, hash) && Replay(start, i, hash) == Run(start, ops, hash);
    var j :| LegalJournal(start, j, hash) && Replay(start, j, hash) == Run(start, other, hash);
    JournalUnique(start, i, j, hash);
  }

  /** MAIN: but for balances and the counters of blocks, the ledger after a run is
      that of the chain applied to the start, whatever rounds were closed. */
  lemma RunMade(start: Node, ops: seq<Op>, hash: Hash)
    requires IsStart(start) && Careful(start, ops, hash)
    ensures M.SameMade(Run(start, ops, hash).ledger, M.MadeBy(start.ledger, Run(start, ops, hash).chain))
  {
    hide Run, LegalJournal, Replay, NodeOk, M.SameMade, M.MadeBy;
    assert Journaled(start, Run(start, ops, hash), hash);
    var j :| LegalJournal(start, j, hash) && Replay(start, j, hash) == Run(start, ops, hash);
    JournalMade(start, j, hash);
  }

  /** Stakes, vote lists, tallies, names, keys, referrals and confirmed ids depend on
      the chain alone: two runs may have closed different numbers of rounds. */
  lemma ChainDecides(start: Node, ops: seq<Op>, other: seq<Op>, hash: Hash)
    requires IsStart(start) && Careful(start, ops, hash) && Careful(start, other, hash)
    requires Run(start, ops, hash).chain == Run(start, other, hash).chain
    ensures M.SameMade(Run(start, ops, hash).ledger, Run(start, other, hash).ledger)
  {
    hide Run, NodeOk, M.SameMade, M.MadeBy, Careful;
    RunMade(start, ops, hash);
    RunMade(start, other, hash);
    var l := M.MadeBy(start.ledger, Run(start, ops, hash).chain);
    SameBack(Run(start, other, hash).ledger, l);
    M.SameThrough(Run(start, ops, hash).ledger, l, Run(start, other, hash).ledger);
  }

  // ---------- tallies, lists and names ----------

  /** Every name on the chain was free and every vote of one sign where it was made. */
  ghost predicate ChainKeeps(l: Ledger, chain: seq<Block>) {
    |chain| <= 1 || (ChainKeeps(l, Init(chain)) && AllKeep(M.MadeBy(l, Init(chain)), Last(chain).transactions))
  }

  lemma {:induction false} KeepSame(l: Ledger, m: Ledger, ts: seq<Transaction>)
    requires M.SameMade(l, m)
    ensures AllKeep(l, ts) <==> AllKeep(m, ts)
  {
    hide ApplyAll, Acc;
    if ts != [] {
      KeepSame(l, m, ts[..|ts| - 1]);
      M.ApplyAllSame(l, m, ts[..|ts| - 1]);
    }
  }

  lemma {:induction false} JournalConsistent(start: Node, j: seq<Event>, hash: Hash)
    requires IsStart(start) && LegalJournal(start, j, hash) && Consistent(start.ledger)
    requires ChainKeeps(start.ledger, Replay(start, j, hash).chain)
    ensures Consistent(Replay(start, j, hash).ledger)
  {
    hide NodeOk, LegalEvent, Consistent, Forward, Legal, Append, M.SameMade, AllKeep, M.MadeBy;
    if j != [] {
      var m := Replay(start, Init(j), hash);
      ReplayOk(start, Init(j), hash);
      LegalMeans(m, Last(j));
      NodeShape(m);
      if Last(j).Appended? {
        var b := Last(j).block;
        AppendGrows(m, b);
        assert Init(m.chain + [b]) == m.chain && Last(m.chain + [b]) == b;
        JournalConsistent(start, Init(j), hash);
        JournalMade(start, Init(j), hash);
        KeepSame(m.ledger, M.MadeBy(start.ledger, m.chain), b.transactions);
        AppendConsistent(m, b);
      } else {
        CloseGrows(m, hash);
        JournalConsistent(start, Init(j), hash);
        ForwardConsistent(m, hash);
      }
    }
  }

  lemma AppendConsistent(m: Node, b: Block)
    requires NodeOk(m) && Legal(m, b) && Consistent(m.ledger) && AllKeep(m.ledger, b.transactions)
    ensures m.rounds != [] && Consistent(Append(m, b).ledger)
  {
    hide Consistent, AllKeep, AllVerified, ApplyBlock, MarkLast;
    NodeShape(m);
    BlockConsistent(m.ledger, Last(m.chain).height, b.transactions);
  }

  lemma ForwardConsistent(m: Node, hash: Hash)
    requires NodeOk(m) && Consistent(m.ledger)
    ensures Consistent(Forward(m, hash).ledger)
  {
    NodeShape(m);
    hide Pay, Generate, TalliesAgree, ListsShort, NamesAgree, SourcesIn;
    PayConsistent(m.ledger, Last(m.rounds), m.chain, 1);
  }

  /** MAIN: while the names on the chain are free as they are stored and its votes are
      of one sign, the ledger stays consistent over every run. */
  lemma RunConsistent(start: Node, ops: seq<Op>, hash: Hash)
    requires IsStart(start) && Careful(start, ops, hash) && Consistent(start.ledger)
    requires ChainKeeps(start.ledger, Run(start, ops, hash).chain)
    ensures Consistent(Run(start, ops, hash).ledger)
  {
    hide Run, LegalJournal, Replay, NodeOk, Consistent, ChainKeeps;
    assert Journaled(start, Run(start, ops, hash), hash);
    var j :| LegalJournal(start, j, hash) && Replay(start, j, hash) == Run(start, ops, hash);
    JournalConsistent(start, j, hash);
  }

  // ---------- airdrops ----------

  lemma {:induction false} ApplyAllShort(l: Ledger, ts: seq<Transaction>)
    requires ChainsShort(l)
    ensures ChainsShort(ApplyAll(l, ts))
  {
    hide ApplyUnconfirmed, ChainsShort;
    if ts != [] {
      ApplyAllShort(l, ts[..|ts| - 1]);
      ChainsKept(ApplyAll(l, ts[..|ts| - 1]), ts[|ts| - 1]);
    }
  }

  lemma {:induction false} MadeShort(l: Ledger, chain: seq<Block>)
    requires ChainsShort(l)
    ensures ChainsShort(M.MadeBy(l, chain))
  {
    hide ApplyAll, ConfirmAll, Acc;
    if |chain| > 1 {
      var m, ts := M.MadeBy(l, chain[..|chain| - 1]), chain[|chain| - 1].transactions;
      MadeShort(l, chain[..|chain| - 1]);
      ApplyAllShort(m, ts);
      ConfirmAllIds(ApplyAll(m, ts), ts);
      SameReferrals(ApplyAll(m, ts), ApplyBlock(m, ts));
    }
  }

  lemma SameReferrals(l: Ledger, m: Ledger)
    requires ChainsShort(l) && (l.accounts == m.accounts || M.SameMade(m, l))
    ensures ChainsShort(m)
  {
    forall a
      ensures Acc(m, a).referrals == Acc(l, a).referrals
    {
      if l.accounts != m.accounts {
        assert M.Unpaid(Acc(m, a)) == M.Unpaid(Acc(l, a));
      }
    }
  }

  /** MAIN: at the end of every run, a vote that passes the check pays its sponsors
      less than a fifth of its reward and one unit for each. */
  lemma RunAirdrop(start: Node, ops: seq<Op>, hash: Hash, height: nat, t: Transaction)
    requires IsStart(start) && Careful(start, ops, hash) && ChainsShort(start.ledger)
    requires WellFormed(t) && t.IsUp() && Verified(Run(start, ops, hash).ledger, height, t)
    ensures ChainsShort(Run(start, ops, hash).ledger)
    ensures t.asset.reward > 0 ==>
              1000 * SumRewards(t.asset.voteSponsors)
              < 200 * t.asset.reward + 1000 * |Acc(Run(start, ops, hash).ledger, t.sender).referrals|
  {
    hide Run, NodeOk, ChainsShort, WellFormed, Verified, SumRewards, M.SameMade;
    RunMade(start, ops, hash);
    MadeShort(start.ledger, Run(start, ops, hash).chain);
    SameReferrals(M.MadeBy(start.ledger, Run(start, ops, hash).chain), Run(start, ops, hash).ledger);
    AirdropBelowFifth(Run(start, ops, hash).ledger, height, t);
  }

  // ---------- conservation ----------

  /** The fees of the current round's blocks: taken, and not paid out yet. */
  function Unpaid(n: Node): int
    requires n.rounds != []
  {
    BlockFees(RoundBlocks(n.chain, Last(n.rounds)))
  }

  /** What rounding up may add when the current round is closed. */
  function RoundingOf(n: Node): nat
    requires n.rounds != []
  {
    if ForgedCount(Last(n.rounds)) == 0 then 0 else ForgedCount(Last(n.rounds)) - 1
  }

  /** What rounding up may add over a journal. */
  ghost function Rounding(n: Node, j: seq<Event>, hash: Hash): nat {
    if j == [] then 0
    else
      var m := Replay(n, Init(j), hash);
      Rounding(n, Init(j), hash) + (if Last(j).Closed? && m.rounds != [] then RoundingOf(m) else 0)
  }

  /** One more marked slot and one more block: the round's unpaid fees grow by the block's. */
  lemma TailFees(chain: seq<Block>, r: Round, marked: Round, b: Block)
    requires ForgedCount(r) <= |chain| && ForgedCount(marked) == ForgedCount(r) + 1
    ensures BlockFees(RoundBlocks(chain + [b], marked)) == BlockFees(RoundBlocks(chain, r)) + b.fee
  {
    var tail, longer := RoundBlocks(chain, r), RoundBlocks(chain + [b], marked);
    assert longer == tail + [b];
    assert longer[..|longer| - 1] == tail;
  }

  lemma AppendMoney(n: Node, b: Block)
    requires NodeOk(n) && Legal(n, b)
    ensures Append(n, b).rounds != []
    ensures Total(Append(n, b).ledger) + Unpaid(Append(n, b)) == Total(n.ledger) + Unpaid(n)
  {
    hide Sane, SourcesIn, AllVerified, Total, ApplyBlock, FlagsMatch, RoundsTiled, Linked, BlockFees, RoundBlocks, Mark, NewIds,
      GeneratorsKnown, ForgedCount, TailOfRound;
    NodeShape(n);
    BlockTotal(n.ledger, Last(n.chain).height, b.transactions);
    var r := Last(n.rounds);
    AppendCounts(n, b);
    MarkLastIs(n.rounds, b.generator, true);
    TailFees(n.chain, r, Mark(r, b.generator, true), b);
  }

  lemma CloseMoney(n: Node, hash: Hash)
    requires NodeOk(n)
    ensures Forward(n, hash).rounds != [] && n.rounds != []
    ensures var before, after := Total(n.ledger) + Unpaid(n), Total(Forward(n, hash).ledger) + Unpaid(Forward(n, hash));
      before <= after <= before + RoundingOf(n)
  {
    hide Sane, SourcesIn, Total, Pay, Generate, FlagsMatch, RoundsTiled, Linked, FeeShare;
    NodeShape(n);
    NextRoundIs(n, hash);
    var r := Last(n.rounds);
    assert RoundBlocks(n.chain, NextRound(n, hash)) == [];
    if ForgedCount(r) > 0 {
      PayTotal(n.ledger, r, n.chain);
      ShareBounds(RoundBlocks(n.chain, r));
    } else {
      assert RoundBlocks(n.chain, r) == [];
      NothingPaid(n.ledger, r, n.chain, 1);
    }
  }

  lemma {:induction false} JournalMoney(start: Node, j: seq<Event>, hash: Hash)
    requires NodeOk(start) && LegalJournal(start, j, hash)
    ensures var n := Replay(start, j, hash);
      && n.rounds != [] && start.rounds != []
      && Total(start.ledger) + Unpaid(start) <= Total(n.ledger) + Unpaid(n)
           <= Total(start.ledger) + Unpaid(start) + Rounding(start, j, hash)
  {
    hide NodeOk, LegalEvent, Total, Unpaid, Forward, Append, RoundingOf, Legal;
    NodeShape(start);
    if j != [] {
      JournalMoney(start, Init(j), hash);
      ReplayOk(start, Init(j), hash);
      var m := Replay(start, Init(j), hash);
      LegalMeans(m, Last(j));
      if Last(j).Appended? {
        AppendMoney(m, Last(j).block);
      } else {
        CloseMoney(m, hash);
      }
    }
  }

  /** MAIN: after every run, balances, active stakes and unpaid fees are what they
      were, and at most what rounding up in the closed rounds has added. */
  lemma MoneyConserved(start: Node, ops: seq<Op>, hash: Hash)
    requires IsStart(start) && Careful(start, ops, hash)
    ensures var n := Run(start, ops, hash);
      exists j :: LegalJournal(start, j, hash) && Replay(start, j, hash) == n &&
        Total(start.ledger) + Unpaid(start) <= Total(n.ledger) + Unpaid(n)
          <= Total(start.ledger) + Unpaid(start) + Rounding(start, j, hash)
  {
    hide Run, LegalJournal, Replay, NodeOk, Total, Unpaid, Rounding;
    var n := Run(start, ops, hash);
    NodeShape(n);
    var j :| LegalJournal(start, j, hash) && Replay(start, j, hash) == n;
    JournalMoney(start, j, hash);
  }

  // ---------- balances ----------

  ghost predicate OrdinaryBlocks(chain: seq<Block>) {
    forall k :: 0 < k < |chain| ==> OrdinarySenders(chain[k].transactions)
  }

  lemma {:induction false} VerifiedFees(l: Ledger, height: nat, ts: seq<Transaction>)
    requires AllVerified(l, height, ts)
    ensures SumFees(ts) >= 0
  {
    if ts != [] {
      VerifiedFees(l, height, ts[..|ts| - 1]);
    }
  }

  ghost predicate FeesPositive(chain: seq<Block>) {
    forall k :: 0 < k < |chain| ==> chain[k].fee >= 0
  }

  lemma {:induction false} FeesSum(bs: seq<Block>)
    requires forall k :: 0 <= k < |bs| ==> bs[k].fee >= 0
    ensures BlockFees(bs) >= 0
  {
    if bs != [] {
      FeesSum(bs[..|bs| - 1]);
    }
  }

  lemma ShareOfTail(r: Round, chain: seq<Block>)
    requires FeesPositive(chain) && ForgedCount(r) < |chain|
    ensures FeeShare(RoundBlocks(chain, r)) >= 0
  {
    var blocks := RoundBlocks(chain, r);
    assert forall k :: 0 <= k < |blocks| ==> blocks[k] == chain[|chain| - ForgedCount(r) + k];
    FeesSum(blocks);
  }

  lemma PayPositiveAt(l: Ledger, r: Round, chain: seq<Block>, a: Address)
    requires ForgedCount(r) > 0 && FeeShare(RoundBlocks(chain, r)) >= 0
    ensures Acc(Pay(l, r, chain, 1), a).balance >= Acc(l, a).balance
    ensures Acc(Pay(l, r, chain, 1), a).stakes == Acc(l, a).stakes
  {
    hide Pay, FeeShare, Generators;
    PayAt(l, r, chain, 1, a);
    TimesPositive(FeeShare(RoundBlocks(chain, r)), multiset(Generators(RoundBlocks(chain, r)))[a]);
  }

  lemma PayPositive(l: Ledger, r: Round, chain: seq<Block>)
    requires BalancesPositive(l) && FeesPositive(chain) && ForgedCount(r) < |chain|
    ensures BalancesPositive(Pay(l, r, chain, 1))
  {
    if ForgedCount(r) == 0 {
      NothingPaid(l, r, chain, 1);
    } else {
      ShareOfTail(r, chain);
      hide Pay, FeeShare, FeesPositive;
      forall a {
        PayPositiveAt(l, r, chain, a);
      }
    }
  }

  lemma TimesPositive(share: int, n: int)
    requires share >= 0 && n >= 0
    ensures 1 * share * n >= 0
  {
  }

  lemma ConfirmPositive(l: Ledger, m: Ledger)
    requires BalancesPositive(l) && m.accounts == l.accounts
    ensures BalancesPositive(m)
  {
    assert forall a :: Acc(m, a) == Acc(l, a);
  }

  lemma AppendPositive(n: Node, b: Block)
    requires NodeOk(n) && Legal(n, b) && BalancesPositive(n.ledger) && OrdinarySenders(b.transactions)
    ensures BalancesPositive(Append(n, b).ledger) && b.fee >= 0
  {
    hide Sane, BalancesPositive, ApplyAll, ConfirmAll, AllVerified, RoundsTiled, FlagsMatch, TailOfRound, Linked, OrdinarySenders;
    NodeShape(n);
    BlockBalances(n.ledger, Last(n.chain).height, b.transactions);
    ConfirmAllIds(ApplyAll(n.ledger, b.transactions), b.transactions);
    ConfirmPositive(ApplyAll(n.ledger, b.transactions), ApplyBlock(n.ledger, b.transactions));
    VerifiedFees(n.ledger, Last(n.chain).height, b.transactions);
  }

  lemma {:induction false} JournalPositive(start: Node, j: seq<Event>, hash: Hash)
    requires IsStart(start) && LegalJournal(start, j, hash) && BalancesPositive(start.ledger)
    requires OrdinaryBlocks(Replay(start, j, hash).chain)
    ensures BalancesPositive(Replay(start, j, hash).ledger) && FeesPositive(Replay(start, j, hash).chain)
  {
    hide NodeOk, LegalEvent, BalancesPositive, Forward, Legal, OrdinarySenders, Append;
    if j != [] {
      var m, n := Replay(start, Init(j), hash), Replay(start, j, hash);
      ReplayOk(start, Init(j), hash);
      LegalMeans(m, Last(j));
      NodeShape(m);
      if Last(j).Appended? {
        var b := Last(j).block;
        AppendGrows(m, b);
        ReplayGrows(start, Init(j), hash);
        assert n.chain[|m.chain|] == b && forall k :: 0 <= k < |m.chain| ==> n.chain[k] == m.chain[k];
        JournalPositive(start, Init(j), hash);
        AppendPositive(m, b);
      } else {
        CloseGrows(m, hash);
        JournalPositive(start, Init(j), hash);
        ForwardPositive(m, hash);
      }
    }
  }

  lemma ForwardPositive(m: Node, hash: Hash)
    requires NodeOk(m) && BalancesPositive(m.ledger) && FeesPositive(m.chain)
    ensures BalancesPositive(Forward(m, hash).ledger)
  {
    hide BalancesPositive, Pay, Generate, FeesPositive;
    NodeShape(m);
    PayPositive(m.ledger, Last(m.rounds), m.chain);
  }

  /** MAIN: over every run whose chain holds only ordinary senders, no balance but
      the supply's is negative: the airdrop account pays only what it holds. */
  lemma NeverNegative(start: Node, ops: seq<Op>, hash: Hash, a: Address)
    requires IsStart(start) && Careful(start, ops, hash) && BalancesPositive(start.ledger)
    requires OrdinaryBlocks(Run(start, ops, hash).chain) && a != SUPPLY_ADDRESS
    ensures Acc(Run(start, ops, hash).ledger, a).balance >= 0
  {
    hide Run, LegalJournal, Replay, NodeOk;
    var j :| LegalJournal(start, j, hash) && Replay(start, j, hash) == Run(start, ops, hash);
    JournalPositive(start, j, hash);
  }
}
