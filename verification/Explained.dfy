/** After any run, every balance and every delegate's record is a sum over the
    chain and its closed rounds. */
module Explained {
  import opened Model
  import opened Transactions
  import opened Inverse
  import opened Verify
  import opened Totals
  import opened Blocks
  import opened Sound
  import opened BlockRuns
  import opened Rounds
  import opened RoundRuns
  import opened Node
  import opened Journal
  import opened Runs

  // ---------- sums over a chain and its rounds ----------

  function BlockChange(ts: seq<Transaction>, a: Address): int {
    if ts == [] then 0 else BlockChange(ts[..|ts| - 1], a) + Change(ts[|ts| - 1], a)
  }

  /** The fixed changes of all transactions after the first block. */
  function ChainChange(chain: seq<Block>, a: Address): int {
    if |chain| <= 1 then 0 else ChainChange(chain[..|chain| - 1], a) + BlockChange(chain[|chain| - 1].transactions, a)
  }

  /** The chain without the blocks of a round. */
  function Without(chain: seq<Block>, r: Round): seq<Block> {
    if ForgedCount(r) <= |chain| then chain[..|chain| - ForgedCount(r)] else []
  }

  /** What one closed round credits: the fee share once for each of its blocks. */
  function Credits(chain: seq<Block>, r: Round, a: Address): int {
    FeeShare(RoundBlocks(chain, r)) * multiset(Generators(RoundBlocks(chain, r)))[a]
  }

  /** What all rounds but the current one credit to a balance. */
  function RoundCredits(chain: seq<Block>, rounds: seq<Round>, a: Address): int
    decreases |rounds|
  {
    if |rounds| <= 1 then 0
    else
      var before := Without(chain, Last(rounds));
      Credits(before, Last(Init(rounds)), a) + RoundCredits(before, Init(rounds), a)
  }

  /** How many blocks a delegate forged, and slots it missed, in the closed rounds. */
  function RoundsForged(chain: seq<Block>, rounds: seq<Round>, d: Address): int
    decreases |rounds|
  {
    if |rounds| <= 1 then 0
    else
      var before := Without(chain, Last(rounds));
      multiset(Generators(RoundBlocks(before, Last(Init(rounds)))))[d] + RoundsForged(before, Init(rounds), d)
  }

  function MissedBy(r: Round, d: Address): int {
    if ForgedCount(r) == 0 then 0 else multiset(Missed(r))[d]
  }

  function RoundsMissed(rounds: seq<Round>, d: Address): int {
    if |rounds| <= 1 then 0 else MissedBy(Last(Init(rounds)), d) + RoundsMissed(Init(rounds), d)
  }

  function ForgedOf(ds: map<Address, Delegate>, d: Address): int {
    if d in ds then ds[d].forgedBlocks else 0
  }

  function MissedOf(ds: map<Address, Delegate>, d: Address): int {
    if d in ds then ds[d].missedBlocks else 0
  }

  // ---------- blocks ----------

  lemma ApplyBalance(l: Ledger, t: Transaction, a: Address)
    requires Lands(t, Acc(l, t.sender))
    ensures Acc(ApplyUnconfirmed(l, t), a).balance == Acc(l, a).balance + Change(t, a)
  {
    hide ApplyUnconfirmed, Change;
    ApplyAt(l, t, a);
    if t.asset.Register? && a == t.sender {
      assert Change(t, a) == -t.fee by {
        RegistrantChange(t);
      }
    }
  }

  lemma ApplyRecord(l: Ledger, t: Transaction, d: Address)
    requires t.asset.NewDelegate? ==> t.sender !in l.delegates
    ensures ForgedOf(ApplyUnconfirmed(l, t).delegates, d) == ForgedOf(l.delegates, d)
    ensures MissedOf(ApplyUnconfirmed(l, t).delegates, d) == MissedOf(l.delegates, d)
  {
    hide ApplyUnconfirmed;
    ApplyParts(l, t);
  }

  lemma {:induction false} ApplyAllExplained(l: Ledger, height: nat, ts: seq<Transaction>, a: Address)
    requires Sane(l) && AllVerified(l, height, ts)
    ensures Acc(ApplyAll(l, ts), a).balance == Acc(l, a).balance + BlockChange(ts, a)
    ensures ForgedOf(ApplyAll(l, ts).delegates, a) == ForgedOf(l.delegates, a)
    ensures MissedOf(ApplyAll(l, ts).delegates, a) == MissedOf(l.delegates, a)
  {
    hide ApplyUnconfirmed, Change, Lands, ForgedOf, MissedOf, Sane, Verified, WellFormed, DownOnly;
    if ts != [] {
      var m := ApplyAll(l, ts[..|ts| - 1]);
      ApplyAllExplained(l, height, ts[..|ts| - 1], a);
      SaneBlock(l, height, ts[..|ts| - 1]);
      VerifiedLands(m, height, ts[|ts| - 1]);
      VerifiedNewcomer(m, height, ts[|ts| - 1]);
      ApplyBalance(m, ts[|ts| - 1], a);
      ApplyRecord(m, ts[|ts| - 1], a);
    }
  }

  lemma VerifiedNewcomer(l: Ledger, height: nat, t: Transaction)
    requires Sane(l) && Verified(l, height, t)
    ensures t.asset.NewDelegate? ==> t.sender !in l.delegates
  {
    if t.asset.NewDelegate? {
      NewcomerUnknown(l, height, t);
    }
  }

  lemma {:induction false} ConfirmAllRecord(l: Ledger, ts: seq<Transaction>, d: Address)
    ensures ConfirmAll(l, ts).accounts == l.accounts
    ensures ForgedOf(ConfirmAll(l, ts).delegates, d) == ForgedOf(l.delegates, d)
    ensures MissedOf(ConfirmAll(l, ts).delegates, d) == MissedOf(l.delegates, d)
  {
    if ts != [] {
      ConfirmAllRecord(l, ts[..|ts| - 1], d);
    }
  }

  // ---------- steps ----------

  /** What a node owes its start: nothing of this changes over a journal. */
  ghost function Unexplained(n: Node, a: Address): (int, int, int) {
    (Acc(n.ledger, a).balance - ChainChange(n.chain, a) - RoundCredits(n.chain, n.rounds, a),
     ForgedOf(n.ledger.delegates, a) - RoundsForged(n.chain, n.rounds, a),
     MissedOf(n.ledger.delegates, a) - RoundsMissed(n.rounds, a))
  }

  lemma AppendRounds(n: Node, b: Block, a: Address)
    requires NodeOk(n) && Legal(n, b)
    ensures var m := Append(n, b);
      && RoundCredits(m.chain, m.rounds, a) == RoundCredits(n.chain, n.rounds, a)
      && RoundsForged(m.chain, m.rounds, a) == RoundsForged(n.chain, n.rounds, a)
      && RoundsMissed(m.rounds, a) == RoundsMissed(n.rounds, a)
  {
    hide NodeOk, Legal, ApplyBlock, Credits, Generators, MissedBy, Mark, ForgedCount;
    NodeShape(n);
    var r := Last(n.rounds);
    AppendCounts(n, b);
    MarkLastIs(n.rounds, b.generator, true);
    assert Without(n.chain + [b], Mark(r, b.generator, true)) == Without(n.chain, r);
  }

  lemma AppendExplained(n: Node, b: Block, a: Address)
    requires NodeOk(n) && Legal(n, b)
    ensures Unexplained(Append(n, b), a) == Unexplained(n, a)
  {
    hide Sane, SourcesIn, NewIds, AllVerified, FlagsMatch, RoundsTiled, Linked, GeneratorsKnown, TailOfRound, RoundCredits,
      RoundsForged, RoundsMissed, ApplyAll, ConfirmAll, ForgedOf, MissedOf, AllUndoable;
    NodeShape(n);
    AppendRounds(n, b, a);
    ApplyAllExplained(n.ledger, Last(n.chain).height, b.transactions, a);
    ConfirmAllRecord(ApplyAll(n.ledger, b.transactions), b.transactions, a);
    assert (n.chain + [b])[..|n.chain|] == n.chain;
  }

  /** The blocks a round pays for are forged by delegates, and its missed slots are theirs. */
  lemma PaidKnown(n: Node, d: Address)
    requires NodeOk(n) && d !in n.ledger.delegates
    ensures n.rounds != []
    ensures d !in multiset(Generators(RoundBlocks(n.chain, Last(n.rounds)))) && d !in multiset(Missed(Last(n.rounds)))
  {
    hide Sane, SourcesIn, FlagsMatch, RoundsTiled, Linked;
    NodeShape(n);
    var r := Last(n.rounds);
    assert r == n.rounds[|n.rounds| - 1];
    var blocks := RoundBlocks(n.chain, r);
    forall i | 0 <= i < |blocks|
      ensures blocks[i].generator != d
    {
      var k := |n.chain| - ForgedCount(r) + i;
      assert InSlot(r, n.chain[k].generator, BlockSlot(n.chain[k]));
      var s :| 0 <= s < |r| && r[s].generator == blocks[i].generator;
      assert n.rounds[|n.rounds| - 1][s].generator in n.ledger.delegates;
    }
    MissedKnown(r, d);
  }

  lemma {:induction false} MissedKnown(r: Round, d: Address)
    requires forall i :: 0 <= i < |r| ==> r[i].generator != d
    ensures d !in multiset(Missed(r))
  {
    if r != [] {
      MissedKnown(r[..|r| - 1], d);
    }
  }

  lemma PayRecord(l: Ledger, r: Round, chain: seq<Block>, d: Address)
    requires d !in l.delegates ==>
               d !in multiset(Generators(RoundBlocks(chain, r))) && d !in multiset(Missed(r))
    ensures ForgedOf(Pay(l, r, chain, 1).delegates, d) ==
              ForgedOf(l.delegates, d) + multiset(Generators(RoundBlocks(chain, r)))[d]
    ensures MissedOf(Pay(l, r, chain, 1).delegates, d) == MissedOf(l.delegates, d) + MissedBy(r, d)
  {
    if ForgedCount(r) == 0 {
      assert Generators(RoundBlocks(chain, r)) == [];
    }
  }

  lemma PayBalance(l: Ledger, r: Round, chain: seq<Block>, a: Address)
    ensures Acc(Pay(l, r, chain, 1), a).balance == Acc(l, a).balance + Credits(chain, r, a)
  {
    if ForgedCount(r) == 0 {
      NothingPaid(l, r, chain, 1);
      assert RoundBlocks(chain, r) == [];
    } else {
      hide Pay, FeeShare, Generators;
      PayAt(l, r, chain, 1, a);
    }
  }

  /** What a close adds to the sums over the closed rounds. */
  lemma ForwardRounds(chain: seq<Block>, rounds: seq<Round>, next: Round, a: Address)
    requires rounds != [] && ForgedCount(next) == 0
    ensures var more := rounds + [next];
      && RoundCredits(chain, more, a) == RoundCredits(chain, rounds, a) + Credits(chain, Last(rounds), a)
      && RoundsForged(chain, more, a) ==
           RoundsForged(chain, rounds, a) + multiset(Generators(RoundBlocks(chain, Last(rounds))))[a]
      && RoundsMissed(more, a) == RoundsMissed(rounds, a) + MissedBy(Last(rounds), a)
  {
    hide Credits, Generators, MissedBy;
    var more: seq<Round> := rounds + [next];
    assert Init(more) == rounds && Last(more) == next;
    assert Without(chain, next) == chain;
  }

  lemma ForwardExplained(n: Node, hash: Hash, a: Address)
    requires NodeOk(n)
    ensures n.rounds != [] && n.chain != [] && Last(n.rounds) != []
    ensures Unexplained(Forward(n, hash), a) == Unexplained(n, a)
  {
    hide NodeOk, Generate, Pay, ChainChange, Credits, Generators, MissedBy, ForgedOf, MissedOf, Missed, RoundCredits, RoundsForged,
      RoundsMissed, ForgedCount, RoundBlocks;
    NodeShape(n);
    NextRoundIs(n, hash);
    var r := Last(n.rounds);
    if a !in n.ledger.delegates {
      PaidKnown(n, a);
    }
    PayRecord(n.ledger, r, n.chain, a);
    PayBalance(n.ledger, r, n.chain, a);
    ForwardRounds(n.chain, n.rounds, NextRound(n, hash), a);
  }

  lemma {:induction false} JournalExplained(start: Node, j: seq<Event>, hash: Hash, a: Address)
    requires NodeOk(start) && LegalJournal(start, j, hash)
    ensures Unexplained(Replay(start, j, hash), a) == Unexplained(start, a)
  {
    hide NodeOk, LegalEvent, Unexplained, Forward, Append, Legal;
    if j != [] {
      var m := Replay(start, Init(j), hash);
      ReplayOk(start, Init(j), hash);
      JournalExplained(start, Init(j), hash, a);
      LegalMeans(m, Last(j));
      if Last(j).Appended? {
        AppendExplained(m, Last(j).block, a);
      } else {
        ForwardExplained(m, hash, a);
      }
    }
  }

  /** MAIN: after every run each balance is its start, plus the fixed changes of the
      transactions on the chain, plus the shares of the closed rounds; and a
      delegate's forged and missed blocks are those of the closed rounds. */
  lemma StateExplained(start: Node, ops: seq<Op>, hash: Hash, a: Address)
    requires IsStart(start) && Careful(start, ops, hash)
    ensures var n := Run(start, ops, hash);
      && Acc(n.ledger, a).balance ==
           Acc(start.ledger, a).balance + ChainChange(n.chain, a) + RoundCredits(n.chain, n.rounds, a)
      && ForgedOf(n.ledger.delegates, a) == ForgedOf(start.ledger.delegates, a) + RoundsForged(n.chain, n.rounds, a)
      && MissedOf(n.ledger.delegates, a) == MissedOf(start.ledger.delegates, a) + RoundsMissed(n.rounds, a)
  {
    hide Run, LegalJournal, Replay, NodeOk, ForgedOf, MissedOf;
    var n := Run(start, ops, hash);
    assert Journaled(start, n, hash);
    var j :| LegalJournal(start, j, hash) && Replay(start, j, hash) == n;
    JournalExplained(start, j, hash, a);
  }

  // ---------- the blocks of a closed round ----------

  /** The last blocks of the chain are those of the last round, the ones before them
      those of the round before, and so on. */
  ghost predicate AllTails(chain: seq<Block>, rounds: seq<Round>)
    decreases |rounds|
  {
    && rounds != [] && TailOfRound(chain, Last(rounds))
    && (|rounds| > 1 ==> AllTails(Without(chain, Last(rounds)), Init(rounds)))
  }

  /** The chain up to the end of round `i`, cut off by counting. */
  function UpTo(chain: seq<Block>, rounds: seq<Round>, i: nat): seq<Block>
    decreases |rounds|
  {
    if i + 1 >= |rounds| then chain else UpTo(Without(chain, Last(rounds)), Init(rounds), i)
  }

  lemma AppendTails(n: Node, b: Block)
    requires NodeOk(n) && Legal(n, b) && AllTails(n.chain, n.rounds)
    ensures AllTails(Append(n, b).chain, Append(n, b).rounds)
  {
    hide NodeOk, Legal, ApplyBlock, TailOfRound, Mark, MarkLast, ForgedCount;
    AppendOk(n, b);
    NodeShape(n);
    NodeTail(Append(n, b));
    AppendCounts(n, b);
    MarkLastIs(n.rounds, b.generator, true);
    MarkedTails(n.chain, n.rounds, b, Append(n, b).rounds);
  }

  lemma NodeTail(n: Node)
    requires NodeOk(n)
    ensures n.rounds != [] && TailOfRound(n.chain, Last(n.rounds))
  {
  }

  lemma MarkedTails(chain: seq<Block>, rounds: seq<Round>, b: Block, marked: seq<Round>)
    requires AllTails(chain, rounds) && marked != [] && Init(marked) == Init(rounds)
    requires TailOfRound(chain + [b], Last(marked)) && ForgedCount(Last(marked)) == ForgedCount(Last(rounds)) + 1
    ensures AllTails(chain + [b], marked)
  {
    hide TailOfRound, ForgedCount;
    if ForgedCount(Last(rounds)) <= |chain| {
      assert Without(chain + [b], Last(marked)) == Without(chain, Last(rounds));
    }
  }

  lemma ForwardTails(n: Node, hash: Hash)
    requires NodeOk(n) && AllTails(n.chain, n.rounds)
    ensures AllTails(Forward(n, hash).chain, Forward(n, hash).rounds)
  {
    hide NodeOk, Generate, Pay, TailOfRound, ForgedCount;
    ForwardOk(n, hash);
    NodeShape(n);
    NextRoundIs(n, hash);
    NodeTail(Forward(n, hash));
    var m := Forward(n, hash);
    assert Init(m.rounds) == n.rounds;
    assert Without(n.chain, Last(m.rounds)) == n.chain;
  }

  lemma {:induction false} JournalTails(start: Node, j: seq<Event>, hash: Hash)
    requires IsStart(start) && LegalJournal(start, j, hash)
    ensures AllTails(Replay(start, j, hash).chain, Replay(start, j, hash).rounds)
  {
    hide NodeOk, LegalEvent, Forward, Append, Legal, AllTails;
    if j != [] {
      var m := Replay(start, Init(j), hash);
      ReplayOk(start, Init(j), hash);
      JournalTails(start, Init(j), hash);
      LegalMeans(m, Last(j));
      if Last(j).Appended? {
        AppendTails(m, Last(j).block);
      } else {
        ForwardTails(m, hash);
      }
    } else {
      StartTails(start);
    }
  }

  lemma StartTails(start: Node)
    requires IsStart(start)
    ensures AllTails(start.chain, start.rounds)
  {
  }

  /** A block's slot lies in a round exactly when the count puts the block there. */
  lemma {:induction false} TailIff(chain: seq<Block>, rounds: seq<Round>, i: nat, k: nat)
    requires AllTails(chain, rounds) && RoundsTiled(rounds) && i < |rounds| && k < |chain|
    ensures var c := UpTo(chain, rounds, i);
      && c <= chain && ForgedCount(rounds[i]) <= |c|
      && (InRound(rounds[i], BlockSlot(chain[k])) <==> |c| - ForgedCount(rounds[i]) <= k < |c|)
    decreases |rounds|
  {
    hide RoundsTiled, InRound, ForgedCount, Tiled;
    LastTiled(rounds);
    TailSplit(chain, Last(rounds), k);
    if i + 1 < |rounds| {
      var before := Without(chain, Last(rounds));
      InitTiled(rounds);
      RoundApart(rounds, i, BlockSlot(chain[k]));
      if k < |before| {
        TailIff(before, Init(rounds), i, k);
      } else {
        TailIff(before, Init(rounds), i, 0);
      }
    }
  }

  lemma TailSplit(chain: seq<Block>, r: Round, k: nat)
    requires TailOfRound(chain, r) && Tiled(r, r[0].slot) && k < |chain|
    ensures ForgedCount(r) < |chain| && Without(chain, r) != [] && Without(chain, r) <= chain
    ensures |Without(chain, r)| == |chain| - ForgedCount(r)
    ensures InRound(r, BlockSlot(chain[k])) <==> |chain| - ForgedCount(r) <= k
    ensures k >= |chain| - ForgedCount(r) ==> r[0].slot <= BlockSlot(chain[k])
  {
    TiledIn(r, r[0].slot, BlockSlot(chain[k]));
  }

  /** A slot of the last round or later is in no earlier round. */
  lemma RoundApart(rounds: seq<Round>, i: nat, slot: int)
    requires RoundsTiled(rounds) && i + 1 < |rounds|
    ensures Last(rounds) != []
    ensures slot >= Last(rounds)[0].slot ==> !InRound(rounds[i], slot)
  {
    LastTiled(rounds);
    RoundsIncrease(rounds, i, |rounds| - 1);
    TiledIn(rounds[i], rounds[i][0].slot, slot);
  }

  /** MAIN: in every reachable node the blocks that are cut off by counting for a
      round, and paid for when it closes, are exactly those whose slots lie in it. */
  lemma CutIsRound(start: Node, ops: seq<Op>, hash: Hash, i: nat, k: nat)
    requires IsStart(start) && Careful(start, ops, hash)
    requires i < |Run(start, ops, hash).rounds| && k < |Run(start, ops, hash).chain|
    ensures var n := Run(start, ops, hash);
      var c := UpTo(n.chain, n.rounds, i);
      && c <= n.chain && ForgedCount(n.rounds[i]) <= |c|
      && (InRound(n.rounds[i], BlockSlot(n.chain[k])) <==> |c| - ForgedCount(n.rounds[i]) <= k < |c|)
  {
    hide Run, LegalJournal, Replay, AllTails, InRound, ForgedCount, UpTo, Sane, SourcesIn, RoundsTiled;
    var n := Run(start, ops, hash);
    assert Journaled(start, n, hash);
    var j :| LegalJournal(start, j, hash) && Replay(start, j, hash) == n;
    JournalTails(start, j, hash);
    TailIff(n.chain, n.rounds, i, k);
  }
}
