/** What closing rounds pays and counts, in slots and blocks alone: nothing here reads
    the marks of a round. */
module Closing {
  import opened Model
  import opened Transactions
  import opened Verify
  import opened Totals
  import opened Sound
  import opened BlockRuns
  import opened Rounds
  import opened RoundRuns
  import opened Node
  import opened Journal
  import opened Runs
  import opened Explained

  // ---------- blocks and slots ----------

  /** A slot lasts ten seconds. */
  predicate InTime(slot: int, b: Block) {
    10 * slot <= b.createdAt < 10 * slot + 10
  }

  predicate Within(r: Round, b: Block) {
    exists i :: 0 <= i < |r| && InTime(r[i].slot, b)
  }

  function BlocksIn(chain: seq<Block>, r: Round): nat {
    if chain == [] then 0 else BlocksIn(chain[..|chain| - 1], r) + (if Within(r, chain[|chain| - 1]) then 1 else 0)
  }

  function FeesIn(chain: seq<Block>, r: Round): int {
    if chain == [] then 0
    else FeesIn(chain[..|chain| - 1], r) + (if Within(r, chain[|chain| - 1]) then chain[|chain| - 1].fee else 0)
  }

  /** How many blocks of the round a delegate has on the chain. */
  function BlocksBy(chain: seq<Block>, r: Round, d: Address): nat {
    if chain == [] then 0
    else
      var last := chain[|chain| - 1];
      BlocksBy(chain[..|chain| - 1], r, d) + (if Within(r, last) && last.generator == d then 1 else 0)
  }

  /** The delegate has a slot in the round, and the chain no block of it there. */
  predicate Misses(chain: seq<Block>, r: Round, d: Address) {
    exists i :: 0 <= i < |r| && r[i].generator == d &&
      forall k :: 0 <= k < |chain| ==> !(chain[k].generator == d && InTime(r[i].slot, chain[k]))
  }

  /** The fees of the round's blocks, divided among them and rounded up. */
  function Share(chain: seq<Block>, r: Round): (q: int)
    ensures BlocksIn(chain, r) > 0 ==> BlocksIn(chain, r) * (q - 1) < FeesIn(chain, r) <= BlocksIn(chain, r) * q
  {
    if BlocksIn(chain, r) == 0 then 0 else CeilDiv(FeesIn(chain, r), BlocksIn(chain, r))
  }

  lemma TimeIs(slot: int, b: Block)
    ensures InTime(slot, b) <==> BlockSlot(b) == slot
  {
  }

  lemma WithinIs(r: Round, b: Block)
    ensures Within(r, b) <==> InRound(r, BlockSlot(b))
  {
    hide InTime;
    forall i | 0 <= i < |r| {
      TimeIs(r[i].slot, b);
    }
  }

  /** Where the blocks of the round are one stretch of the chain. */
  lemma {:induction false} StretchIs(chain: seq<Block>, r: Round, lo: nat, hi: nat, d: Address)
    requires lo <= hi <= |chain| && forall k :: 0 <= k < |chain| ==> (Within(r, chain[k]) <==> lo <= k < hi)
    ensures BlocksIn(chain, r) == hi - lo && FeesIn(chain, r) == BlockFees(chain[lo..hi])
    ensures BlocksBy(chain, r, d) == multiset(Generators(chain[lo..hi]))[d]
  {
    hide Within;
    if chain != [] {
      var n := |chain| - 1;
      var init := chain[..n];
      if lo < hi == |chain| {
        StretchIs(init, r, lo, n, d);
        StretchLast(chain, lo);
      } else {
        var high := if hi <= n then hi else n;
        var low := if lo <= high then lo else high;
        StretchIs(init, r, low, high, d);
        if lo == hi {
          assert chain[lo..hi] == [] && init[low..high] == [];
        } else {
          assert init[low..high] == chain[lo..hi];
        }
      }
    }
  }

  lemma StretchLast(chain: seq<Block>, lo: nat)
    requires lo < |chain|
    ensures var some, last := chain[..|chain| - 1][lo..|chain| - 1], chain[|chain| - 1];
      && BlockFees(chain[lo..|chain|]) == BlockFees(some) + last.fee
      && forall d :: multiset(Generators(chain[lo..|chain|]))[d] == multiset(Generators(some))[d] + (if last.generator == d then 1 else 0)
  {
    var all, some, last := chain[lo..|chain|], chain[..|chain| - 1][lo..|chain| - 1], chain[|chain| - 1];
    assert all == some + [last] && all[..|all| - 1] == some;
    assert Generators(all) == Generators(some) + [last.generator];
  }

  // ---------- marks ----------

  predicate Unmarked(r: Round, d: Address) {
    exists i :: 0 <= i < |r| && r[i].generator == d && !r[i].isForged
  }

  predicate OneSlotEach(r: Round) {
    forall i, j :: 0 <= i < j < |r| ==> r[i].generator != r[j].generator
  }

  lemma UnmarkedLast(r: Round, d: Address)
    requires r != []
    ensures var init, last := r[..|r| - 1], r[|r| - 1];
      && (Unmarked(r, d) <==> Unmarked(init, d) || (last.generator == d && !last.isForged))
      && (OneSlotEach(r) ==> OneSlotEach(init) && (last.generator == d ==> !Unmarked(init, d)))
  {
    var init, last := r[..|r| - 1], r[|r| - 1];
    assert forall i :: 0 <= i < |init| ==> init[i] == r[i];
    if last.generator == d && !last.isForged {
      assert r[|r| - 1].generator == d;
    }
  }

  lemma {:induction false} MissedOnce(r: Round, d: Address)
    requires OneSlotEach(r)
    ensures multiset(Missed(r))[d] == if Unmarked(r, d) then 1 else 0
  {
    hide OneSlotEach, Unmarked;
    if r == [] {
      assert !Unmarked([], d) by {
        NothingUnmarked(d);
      }
    } else {
      UnmarkedLast(r, d);
      MissedOnce(r[..|r| - 1], d);
      MissedLast(r, d);
    }
  }

  lemma NothingUnmarked(d: Address)
    ensures !Unmarked([], d)
  {
  }

  lemma MissedLast(r: Round, d: Address)
    requires r != []
    ensures multiset(Missed(r))[d] ==
              multiset(Missed(r[..|r| - 1]))[d] + (if r[|r| - 1].generator == d && !r[|r| - 1].isForged then 1 else 0)
  {
  }

  /** In a round of the node the marks say what the chain holds. */
  lemma MissesIs(chain: seq<Block>, rounds: seq<Round>, i: nat, d: Address)
    requires FlagsMatch(rounds, chain) && i < |rounds| && chain != [] && !Within(rounds[i], chain[0])
    ensures Misses(chain, rounds[i], d) <==> Unmarked(rounds[i], d)
  {
    hide Within, InTime;
    var r := rounds[i];
    forall j, k | 0 <= j < |r| && 0 <= k < |chain| {
      TimeIs(r[j].slot, chain[k]);
    }
    forall j | 0 <= j < |r|
      ensures !r[j].isForged <==> forall k :: 0 <= k < |chain| ==> !(chain[k].generator == r[j].generator && InTime(r[j].slot, chain[k]))
    {
      NotTheFirst(r, j, chain[0]);
    }
  }

  lemma NotTheFirst(r: Round, j: nat, b: Block)
    requires j < |r| && !Within(r, b)
    ensures !InTime(r[j].slot, b)
  {
  }

  // ---------- one round ----------

  /** What the sums over a round's marks are, in blocks and slots. */
  lemma RoundIs(n: Node, i: nat, d: Address)
    requires NodeOk(n) && AllTails(n.chain, n.rounds) && i < |n.rounds|
    ensures var r := n.rounds[i];
      var c := UpTo(n.chain, n.rounds, i);
      && Credits(c, r, d) == Share(n.chain, r) * BlocksBy(n.chain, r, d)
      && multiset(Generators(RoundBlocks(c, r)))[d] == BlocksBy(n.chain, r, d)
      && MissedBy(r, d) == (if BlocksIn(n.chain, r) > 0 && Misses(n.chain, r, d) then 1 else 0)
  {
    hide NodeOk, AllTails, UpTo, Within, BlocksIn, FeesIn, BlocksBy, Misses, Generators, BlockFees, ForgedCount, InRound, Missed;
    var r := n.rounds[i];
    var c := UpTo(n.chain, n.rounds, i);
    NodeParts(n, i);
    forall k | 0 <= k < |n.chain|
      ensures Within(r, n.chain[k]) <==> |c| - ForgedCount(r) <= k < |c|
    {
      WithinIs(r, n.chain[k]);
      TailIff(n.chain, n.rounds, i, k);
    }
    TailIff(n.chain, n.rounds, i, 0);
    StretchIs(n.chain, r, |c| - ForgedCount(r), |c|, d);
    assert RoundBlocks(c, r) == n.chain[|c| - ForgedCount(r)..|c|];
    FirstOutside(n.chain, n.rounds, i);
    MissesIs(n.chain, n.rounds, i, d);
    MissedOnce(r, d);
  }

  lemma NodeParts(n: Node, i: nat)
    requires NodeOk(n) && i < |n.rounds|
    ensures RoundsTiled(n.rounds) && FlagsMatch(n.rounds, n.chain) && n.chain != [] && n.rounds[i] != []
    ensures OneSlotEach(n.rounds[i])
  {
    hide Sane, SourcesIn, FlagsMatch, Linked, GeneratorsKnown, TailOfRound;
    assert Tiled(n.rounds[i], n.rounds[i][0].slot);
    NodeShape(n);
  }

  /** The first block of the chain lies in no round. */
  lemma FirstOutside(chain: seq<Block>, rounds: seq<Round>, i: nat)
    requires AllTails(chain, rounds) && RoundsTiled(rounds) && i < |rounds| && chain != []
    ensures !Within(rounds[i], chain[0])
  {
    hide AllTails, RoundsTiled, InRound, ForgedCount, UpTo;
    TailIff(chain, rounds, i, 0);
    CutKeepsOne(chain, rounds, i);
    WithinIs(rounds[i], chain[0]);
  }

  lemma {:induction false} CutKeepsOne(chain: seq<Block>, rounds: seq<Round>, i: nat)
    requires AllTails(chain, rounds) && i < |rounds|
    ensures |UpTo(chain, rounds, i)| > ForgedCount(rounds[i])
    decreases |rounds|
  {
    hide ForgedCount;
    if i + 1 < |rounds| {
      CutKeepsOne(Without(chain, Last(rounds)), Init(rounds), i);
    }
  }

  /** MAIN: closing the current round pays every account the round's share for each of
      its blocks in it, counts these blocks, and counts a missed one for exactly the
      delegates that have a slot in it and no block there, as long as it has a block. */
  lemma ClosingPays(start: Node, ops: seq<Op>, hash: Hash, a: Address)
    requires IsStart(start) && Careful(start, ops, hash)
    ensures var n := Run(start, ops, hash);
      && n.rounds != [] && n.chain != [] && Last(n.rounds) != []
      && var m, r := Forward(n, hash), Last(n.rounds);
        && Acc(m.ledger, a).balance == Acc(n.ledger, a).balance + Share(n.chain, r) * BlocksBy(n.chain, r, a)
        && ForgedOf(m.ledger.delegates, a) == ForgedOf(n.ledger.delegates, a) + BlocksBy(n.chain, r, a)
        && MissedOf(m.ledger.delegates, a) ==
             MissedOf(n.ledger.delegates, a) + (if BlocksIn(n.chain, r) > 0 && Misses(n.chain, r, a) then 1 else 0)
  {
    hide Run, IsStart, Careful, NodeOk, Pay, Generate, AllTails, ForgedOf, MissedOf, MissedBy, Credits, Share, BlocksBy, BlocksIn, Misses,
      RoundBlocks, Generators;
    var n := Run(start, ops, hash);
    RunTails(start, ops, hash);
    NodeShape(n);
    RoundIs(n, |n.rounds| - 1, a);
    if a !in n.ledger.delegates {
      PaidKnown(n, a);
    }
    PayRecord(n.ledger, Last(n.rounds), n.chain, a);
    PayBalance(n.ledger, Last(n.rounds), n.chain, a);
  }

  lemma RunTails(start: Node, ops: seq<Op>, hash: Hash)
    requires IsStart(start) && Careful(start, ops, hash)
    ensures NodeOk(Run(start, ops, hash)) && AllTails(Run(start, ops, hash).chain, Run(start, ops, hash).rounds)
  {
    hide Run, LegalJournal, Replay, AllTails, NodeOk, IsStart, Careful;
    var n := Run(start, ops, hash);
    assert Journaled(start, n, hash);
    var j :| LegalJournal(start, j, hash) && Replay(start, j, hash) == n;
    JournalTails(start, j, hash);
  }

  // ---------- all closed rounds ----------

  /** Sums over the first `m` rounds. */
  function PaidOver(chain: seq<Block>, rounds: seq<Round>, m: nat, a: Address): int
    requires m <= |rounds|
  {
    if m == 0 then 0
    else PaidOver(chain, rounds, m - 1, a) + Share(chain, rounds[m - 1]) * BlocksBy(chain, rounds[m - 1], a)
  }

  function BlocksOver(chain: seq<Block>, rounds: seq<Round>, m: nat, d: Address): nat
    requires m <= |rounds|
  {
    if m == 0 then 0 else BlocksOver(chain, rounds, m - 1, d) + BlocksBy(chain, rounds[m - 1], d)
  }

  /** The rounds with a block in which the delegate has a slot and no block. */
  function MissedOver(chain: seq<Block>, rounds: seq<Round>, m: nat, d: Address): nat
    requires m <= |rounds|
  {
    if m == 0 then 0
    else
      MissedOver(chain, rounds, m - 1, d) +
      (if BlocksIn(chain, rounds[m - 1]) > 0 && Misses(chain, rounds[m - 1], d) then 1 else 0)
  }

  lemma {:induction false} CutStep(chain: seq<Block>, rounds: seq<Round>, i: nat)
    requires i + 1 < |rounds|
    ensures UpTo(chain, rounds, i) == Without(UpTo(chain, rounds, i + 1), rounds[i + 1])
    decreases |rounds|
  {
    hide Without;
    if i + 2 < |rounds| {
      CutStep(Without(chain, Last(rounds)), Init(rounds), i);
    }
  }

  lemma {:induction false} SumsAre(n: Node, m: nat, d: Address)
    requires NodeOk(n) && AllTails(n.chain, n.rounds) && 0 < m <= |n.rounds|
    ensures var c := UpTo(n.chain, n.rounds, m - 1);
      && RoundCredits(c, n.rounds[..m], d) == PaidOver(n.chain, n.rounds, m - 1, d)
      && RoundsForged(c, n.rounds[..m], d) == BlocksOver(n.chain, n.rounds, m - 1, d)
      && RoundsMissed(n.rounds[..m], d) == MissedOver(n.chain, n.rounds, m - 1, d)
    decreases m
  {
    hide NodeOk, AllTails, UpTo, Share, BlocksBy, BlocksIn, Misses, Credits, MissedBy, Generators, Without, RoundBlocks;
    if m > 1 {
      SumsAre(n, m - 1, d);
      CutStep(n.chain, n.rounds, m - 2);
      RoundIs(n, m - 2, d);
      var some := n.rounds[..m];
      assert Last(some) == n.rounds[m - 1] && Init(some) == n.rounds[..m - 1] && Last(Init(some)) == n.rounds[m - 2];
    }
  }

  /** MAIN: after every run each balance is its start, the fixed changes of the chain's
      transactions and the shares of its blocks in closed rounds; a delegate has forged
      its blocks in closed rounds, and missed once for each closed round with a block in
      which it has a slot and no block. */
  lemma StateInSlots(start: Node, ops: seq<Op>, hash: Hash, a: Address)
    requires IsStart(start) && Careful(start, ops, hash)
    ensures var n := Run(start, ops, hash);
      && n.rounds != []
      && var closed := |n.rounds| - 1;
        && Acc(n.ledger, a).balance ==
             Acc(start.ledger, a).balance + ChainChange(n.chain, a) + PaidOver(n.chain, n.rounds, closed, a)
        && ForgedOf(n.ledger.delegates, a) == ForgedOf(start.ledger.delegates, a) + BlocksOver(n.chain, n.rounds, closed, a)
        && MissedOf(n.ledger.delegates, a) == MissedOf(start.ledger.delegates, a) + MissedOver(n.chain, n.rounds, closed, a)
  {
    hide Run, IsStart, Careful, NodeOk, AllTails, ForgedOf, MissedOf, RoundCredits, RoundsForged, RoundsMissed, ChainChange,
      PaidOver, BlocksOver, MissedOver;
    var n := Run(start, ops, hash);
    RunTails(start, ops, hash);
    NodeShape(n);
    StateExplained(start, ops, hash, a);
    SumsAre(n, |n.rounds|, a);
    assert n.rounds[..|n.rounds|] == n.rounds;
  }
}
