/** The node as a state machine over its chain, its rounds and its ledger. */
module Node {
  import opened Model
  import opened Transactions
  import opened Verify
  import opened Blocks
  import opened Sound
  import opened BlockRuns
  import opened Rounds
  import opened RoundRuns

  /** `rounds` is the stack of rounds, the current one last. */
  datatype Node = Node(chain: seq<Block>, rounds: seq<Round>, ledger: Ledger)

  function Last<T>(s: seq<T>): T
    requires s != []
  {
    s[|s| - 1]
  }

  function Init<T>(s: seq<T>): seq<T>
    requires s != []
  {
    s[..|s| - 1]
  }

  // ---------- the steps ----------

  function MarkLast(rounds: seq<Round>, generator: Address, forged: bool): seq<Round>
    requires rounds != []
  {
    Init(rounds) + [Mark(Last(rounds), generator, forged)]
  }

  /** Apply a block that passed every check. */
  function Append(n: Node, b: Block): Node
    requires n.rounds != []
  {
    Node(n.chain + [b], MarkLast(n.rounds, b.generator, true), ApplyBlock(n.ledger, b.transactions))
  }

  /** Take the last block off, in the round that holds it. */
  function RemoveLast(n: Node): Node
    requires n.rounds != [] && n.chain != []
  {
    var b := Last(n.chain);
    Node(Init(n.chain), MarkLast(n.rounds, b.generator, false), DeleteBlock(n.ledger, b.transactions))
  }

  /** Close the current round and generate the next one. */
  ghost function Forward(n: Node, hash: Hash): Node
    requires n.rounds != [] && n.chain != [] && Last(n.rounds) != []
  {
    var paid := Pay(n.ledger, Last(n.rounds), n.chain, 1);
    var next := Generate(paid.delegates, Last(n.chain).height, hash, Last(n.chain).id, LastSlot(Last(n.rounds)) + 1);
    Node(n.chain, n.rounds + [next], paid)
  }

  /** Reopen the previous round; with no previous round nothing happens. */
  function Backward(n: Node): Node {
    if |n.rounds| > 1 then
      Node(n.chain, Init(n.rounds), Pay(n.ledger, Last(Init(n.rounds)), n.chain, -1))
    else n
  }

  // ---------- what every state keeps ----------

  ghost predicate RoundsTiled(rounds: seq<Round>) {
    && rounds != []
    && (forall i :: 0 <= i < |rounds| ==> rounds[i] != [] && Tiled(rounds[i], rounds[i][0].slot))
    && (forall i :: 0 < i < |rounds| ==> rounds[i][0].slot == LastSlot(rounds[i - 1]) + 1)
  }

  /** Heights count up from the first block, each block names the one before it,
      and slots increase. */
  ghost predicate Linked(chain: seq<Block>) {
    && chain != [] && chain[0].height == 1
    && forall i :: 0 < i < |chain| ==>
         && chain[i].height == chain[i - 1].height + 1
         && chain[i].previous == chain[i - 1].id
         && BlockSlot(chain[i - 1]) < BlockSlot(chain[i])
  }

  /** The chain holds this generator's block in this slot. */
  predicate Forged(chain: seq<Block>, generator: Address, slot: int) {
    exists k :: 0 < k < |chain| && chain[k].generator == generator && BlockSlot(chain[k]) == slot
  }

  ghost predicate FlagsMatch(rounds: seq<Round>, chain: seq<Block>) {
    forall i, j :: 0 <= i < |rounds| && 0 <= j < |rounds[i]| ==>
      (rounds[i][j].isForged <==> Forged(chain, rounds[i][j].generator, rounds[i][j].slot))
  }

  /** The last blocks, as many as the round has marks, are the blocks of the round. */
  ghost predicate TailOfRound(chain: seq<Block>, r: Round) {
    && r != []
    && ForgedCount(r) < |chain|
    && (forall k :: 0 <= k < |chain| - ForgedCount(r) ==> BlockSlot(chain[k]) < r[0].slot)
    && (forall k :: |chain| - ForgedCount(r) <= k < |chain| ==>
          r[0].slot <= BlockSlot(chain[k]) <= LastSlot(r) && InSlot(r, chain[k].generator, BlockSlot(chain[k])))
  }

  /** Every slot belongs to a delegate. */
  ghost predicate GeneratorsKnown(rounds: seq<Round>, ds: map<Address, Delegate>) {
    forall i, j :: 0 <= i < |rounds| && 0 <= j < |rounds[i]| ==> rounds[i][j].generator in ds
  }

  ghost predicate NodeOk(n: Node) {
    && RoundsTiled(n.rounds)
    && Linked(n.chain)
    && FlagsMatch(n.rounds, n.chain)
    && TailOfRound(n.chain, Last(n.rounds))
    && Sane(n.ledger)
    && SourcesIn(n.ledger, n.ledger.confirmed)
    && n.ledger.delegates != map[]
    && GeneratorsKnown(n.rounds, n.ledger.delegates)
  }

  /** What moving between rounds needs. */
  ghost predicate Running(n: Node) {
    RoundsTiled(n.rounds) && n.chain != [] && Normal(n.ledger) && n.ledger.delegates != map[]
  }

  /** What the node checks before it appends a block. */
  ghost predicate Legal(n: Node, b: Block)
    requires n.rounds != [] && n.chain != []
  {
    && b.height == Last(n.chain).height + 1
    && b.previous == Last(n.chain).id
    && BlockSlot(b) > BlockSlot(Last(n.chain))
    && InSlot(Last(n.rounds), b.generator, BlockSlot(b))
    && NewIds(n.ledger.confirmed, b.transactions)
    && AllVerified(n.ledger, Last(n.chain).height, b.transactions)
    && b.fee == SumFees(b.transactions)
  }

  lemma NodeShape(n: Node)
    requires NodeOk(n)
    ensures n.rounds != [] && n.chain != [] && Last(n.rounds) != [] && ForgedCount(Last(n.rounds)) < |n.chain|
    ensures Running(n)
  {
  }

  // ---------- one step and back ----------

  lemma {:induction false} MarkedCount(r: Round, i: nat, first: int)
    requires Tiled(r, first) && i < |r| && !r[i].isForged
    ensures ForgedCount(Mark(r, r[i].generator, true)) == ForgedCount(r) + 1
  {
    var g := r[i].generator;
    var marked := Mark(r, g, true);
    assert marked[..|r| - 1] == Mark(r[..|r| - 1], g, true);
    if i == |r| - 1 {
      UnmarkedCount(r[..|r| - 1], g);
    } else {
      MarkedCount(r[..|r| - 1], i, first);
    }
  }

  lemma {:induction false} UnmarkedCount(r: Round, g: Address)
    requires forall i :: 0 <= i < |r| ==> r[i].generator != g
    ensures Mark(r, g, true) == r
  {
  }

  lemma MarkBack(r: Round, i: nat, first: int)
    requires Tiled(r, first) && i < |r| && !r[i].isForged
    ensures Mark(Mark(r, r[i].generator, true), r[i].generator, false) == r
  {
  }

  lemma {:induction false} SlotsIncrease(chain: seq<Block>, i: nat, j: nat)
    requires Linked(chain) && i < j < |chain|
    ensures BlockSlot(chain[i]) < BlockSlot(chain[j])
  {
    if i + 1 < j {
      SlotsIncrease(chain, i, j - 1);
    }
  }

  lemma {:induction false} HeightsCount(chain: seq<Block>, i: nat)
    requires Linked(chain) && i < |chain|
    ensures chain[i].height == i + 1
  {
    if i > 0 {
      HeightsCount(chain, i - 1);
    }
  }

  lemma {:induction false} RoundsIncrease(rounds: seq<Round>, i: nat, j: nat)
    requires RoundsTiled(rounds) && i < j < |rounds|
    ensures LastSlot(rounds[i]) < rounds[j][0].slot <= LastSlot(rounds[j])
  {
    TiledLast(rounds[j], rounds[j][0].slot);
    if i + 1 < j {
      RoundsIncrease(rounds, i, j - 1);
    }
  }

  /** Slots of different rounds, or of different places in a round, differ. */
  lemma SlotsApart(rounds: seq<Round>, i: nat, j: nat, k: nat)
    requires RoundsTiled(rounds) && i + 1 < |rounds| && j < |rounds[i]| && k < |Last(rounds)|
    ensures rounds[i][j].slot < Last(rounds)[k].slot
  {
    RoundsIncrease(rounds, i, |rounds| - 1);
    TiledLast(rounds[i], rounds[i][0].slot);
  }

  /** The slot of a legal block is not marked yet. */
  lemma SlotUnmarked(n: Node, b: Block, i: nat)
    requires NodeOk(n) && Legal(n, b)
    requires i < |Last(n.rounds)| && Last(n.rounds)[i].slot == BlockSlot(b)
    ensures !Last(n.rounds)[i].isForged
  {
    hide Sane, AllVerified, NewIds, SourcesIn, RoundsTiled, TailOfRound;
    NodeShape(n);
    if Last(n.rounds)[i].isForged {
      assert n.rounds[|n.rounds| - 1][i] == Last(n.rounds)[i];
      var k :| 0 < k < |n.chain| && BlockSlot(n.chain[k]) == BlockSlot(b);
      if k + 1 < |n.chain| {
        SlotsIncrease(n.chain, k, |n.chain| - 1);
      }
    }
  }

  lemma AppendFlags(rounds: seq<Round>, chain: seq<Block>, b: Block, p: nat)
    requires RoundsTiled(rounds) && FlagsMatch(rounds, chain) && chain != []
    requires p < |Last(rounds)| && Last(rounds)[p].generator == b.generator && Last(rounds)[p].slot == BlockSlot(b)
    ensures FlagsMatch(MarkLast(rounds, b.generator, true), chain + [b])
  {
    var after: seq<Round> := MarkLast(rounds, b.generator, true);
    var longer := chain + [b];
    forall i, j | 0 <= i < |after| && 0 <= j < |after[i]|
      ensures after[i][j].isForged <==> Forged(longer, after[i][j].generator, after[i][j].slot)
    {
      var s := rounds[i][j];
      assert after[i][j].generator == s.generator && after[i][j].slot == s.slot;
      ForgedAppend(chain, b, s.generator, s.slot);
      if i + 1 < |rounds| {
        SlotsApart(rounds, i, j, p);
      }
    }
  }

  lemma ForgedAppend(chain: seq<Block>, b: Block, generator: Address, slot: int)
    requires chain != []
    ensures Forged(chain + [b], generator, slot) <==>
              Forged(chain, generator, slot) || (b.generator == generator && BlockSlot(b) == slot)
  {
    var longer := chain + [b];
    assert forall k :: 0 <= k < |chain| ==> longer[k] == chain[k];
    assert longer[|chain|] == b;
  }

  lemma AppendTiled(rounds: seq<Round>, g: Address, forged: bool)
    requires RoundsTiled(rounds)
    ensures RoundsTiled(MarkLast(rounds, g, forged))
  {
    var after: seq<Round> := MarkLast(rounds, g, forged);
    var r := Last(rounds);
    assert Tiled(Mark(r, g, forged), r[0].slot);
    TiledLast(r, r[0].slot);
    TiledLast(Mark(r, g, forged), r[0].slot);
    forall i | 0 < i < |after|
      ensures after[i][0].slot == LastSlot(after[i - 1]) + 1
    {
      assert rounds[i][0].slot == LastSlot(rounds[i - 1]) + 1;
    }
  }

  lemma AppendTail(chain: seq<Block>, r: Round, b: Block, p: nat)
    requires TailOfRound(chain, r) && Tiled(r, r[0].slot)
    requires p < |r| && r[p].generator == b.generator && r[p].slot == BlockSlot(b) && !r[p].isForged
    ensures TailOfRound(chain + [b], Mark(r, b.generator, true))
  {
    var marked := Mark(r, b.generator, true);
    MarkedCount(r, p, r[0].slot);
    TiledLast(r, r[0].slot);
    assert Tiled(marked, r[0].slot);
    TiledLast(marked, r[0].slot);
    assert marked[p].generator == b.generator && marked[p].slot == BlockSlot(b);
    forall k | |chain| - ForgedCount(r) <= k < |chain|
      ensures InSlot(marked, chain[k].generator, BlockSlot(chain[k]))
    {
      MarkInSlot(r, b.generator, true, chain[k].generator, BlockSlot(chain[k]));
    }
  }

  /** A legal block adds one to the marks of the current round. */
  lemma AppendCounts(n: Node, b: Block)
    requires NodeOk(n) && Legal(n, b)
    ensures n.rounds != [] && Last(n.rounds) != []
    ensures ForgedCount(Mark(Last(n.rounds), b.generator, true)) == ForgedCount(Last(n.rounds)) + 1
  {
    hide Sane, AllVerified, NewIds, SourcesIn, RoundsTiled, TailOfRound, FlagsMatch, Linked, Mark, GeneratorsKnown, ForgedCount;
    NodeShape(n);
    var r := Last(n.rounds);
    var p :| 0 <= p < |r| && r[p].generator == b.generator && r[p].slot == BlockSlot(b);
    SlotUnmarked(n, b, p);
    LastTiled(n.rounds);
    MarkedCount(r, p, r[0].slot);
  }

  lemma MarkInSlot(r: Round, g: Address, forged: bool, generator: Address, slot: int)
    requires InSlot(r, generator, slot)
    ensures InSlot(Mark(r, g, forged), generator, slot)
  {
    var i :| 0 <= i < |r| && r[i].generator == generator && r[i].slot == slot;
    assert Mark(r, g, forged)[i].generator == generator && Mark(r, g, forged)[i].slot == slot;
  }

  lemma AppendOk(n: Node, b: Block)
    requires NodeOk(n) && Legal(n, b)
    ensures NodeOk(Append(n, b))
  {
    hide Sane, AllVerified, NewIds, SourcesIn, RoundsTiled, TailOfRound, FlagsMatch, ApplyBlock, MarkLast, Linked, Mark, GeneratorsKnown;
    NodeShape(n);
    var r := Last(n.rounds);
    var p :| 0 <= p < |r| && r[p].generator == b.generator && r[p].slot == BlockSlot(b);
    SlotUnmarked(n, b, p);
    LastTiled(n.rounds);
    AppendTiled(n.rounds, b.generator, true);
    AppendFlags(n.rounds, n.chain, b, p);
    AppendTail(n.chain, r, b, p);
    MarkLastIs(n.rounds, b.generator, true);
    AppendLinked(n.chain, b);
    BlockKeeps(n.ledger, Last(n.chain).height, b.transactions);
    DelegatesGrow(n.ledger, b.transactions);
    assert n.ledger.delegates.Keys != {};
    assert Append(n, b).ledger.delegates.Keys != {};
    AppendKnown(n.rounds, b.generator, n.ledger.delegates, Append(n, b).ledger.delegates);
  }

  lemma AppendKnown(rounds: seq<Round>, g: Address, ds: map<Address, Delegate>, es: map<Address, Delegate>)
    requires rounds != [] && GeneratorsKnown(rounds, ds) && ds.Keys <= es.Keys
    ensures GeneratorsKnown(MarkLast(rounds, g, true), es)
  {
  }

  lemma AppendLinked(chain: seq<Block>, b: Block)
    requires Linked(chain) && b.height == Last(chain).height + 1 && b.previous == Last(chain).id
    requires BlockSlot(b) > BlockSlot(Last(chain))
    ensures Linked(chain + [b])
  {
  }

  lemma LastTiled(rounds: seq<Round>)
    requires RoundsTiled(rounds)
    ensures Last(rounds) != [] && Tiled(Last(rounds), Last(rounds)[0].slot)
  {
  }

  lemma InitTiled(rounds: seq<Round>)
    requires RoundsTiled(rounds) && |rounds| > 1
    ensures RoundsTiled(Init(rounds)) && LastSlot(Last(Init(rounds))) + 1 == Last(rounds)[0].slot
  {
  }

  lemma MarkLastIs(rounds: seq<Round>, g: Address, forged: bool)
    requires rounds != []
    ensures var after := MarkLast(rounds, g, forged);
      after != [] && Last(after) == Mark(Last(rounds), g, forged) && Init(after) == Init(rounds)
  {
  }

  lemma {:induction false} DelegatesGrow(l: Ledger, ts: seq<Transaction>)
    ensures l.delegates.Keys <= ApplyBlock(l, ts).delegates.Keys
  {
    DelegatesGrowApply(l, ts);
    DelegatesGrowConfirm(ApplyAll(l, ts), ts);
  }

  lemma {:induction false} DelegatesGrowApply(l: Ledger, ts: seq<Transaction>)
    ensures l.delegates.Keys <= ApplyAll(l, ts).delegates.Keys
  {
    if ts != [] {
      DelegatesGrowApply(l, ts[..|ts| - 1]);
      hide ApplyUnconfirmed;
      ApplyParts(ApplyAll(l, ts[..|ts| - 1]), ts[|ts| - 1]);
    }
  }

  lemma {:induction false} DelegatesGrowConfirm(l: Ledger, ts: seq<Transaction>)
    ensures l.delegates.Keys <= ConfirmAll(l, ts).delegates.Keys
  {
    if ts != [] {
      DelegatesGrowConfirm(l, ts[..|ts| - 1]);
    }
  }

  /** MAIN: taking off the block just appended restores chain, marks and ledger when
      its transactions are regular. */
  lemma RemoveUndoesAppend(n: Node, b: Block)
    requires NodeOk(n) && Legal(n, b) && AllRegular(n.ledger, b.transactions)
    ensures RemoveLast(Append(n, b)) == n
  {
    hide Sane, AllVerified, AllRegular, NewIds, SourcesIn, RoundsTiled, TailOfRound, FlagsMatch, ApplyBlock, DeleteBlock;
    NodeShape(n);
    var r := Last(n.rounds);
    var p :| 0 <= p < |r| && r[p].generator == b.generator && r[p].slot == BlockSlot(b);
    SlotUnmarked(n, b, p);
    LastTiled(n.rounds);
    MarkBack(r, p, r[0].slot);
    BlockKeeps(n.ledger, Last(n.chain).height, b.transactions);
    var m := Append(n, b);
    assert Init(m.chain) == n.chain && Last(m.chain) == b;
    assert MarkLast(m.rounds, b.generator, false) == n.rounds;
  }

  lemma {:induction false} FreshCount(r: Round)
    requires forall i :: 0 <= i < |r| ==> !r[i].isForged
    ensures ForgedCount(r) == 0
  {
    if r != [] {
      FreshCount(r[..|r| - 1]);
    }
  }

  ghost function NextRound(n: Node, hash: Hash): Round
    requires n.rounds != [] && n.chain != [] && Last(n.rounds) != []
  {
    Last(Forward(n, hash).rounds)
  }

  lemma RunningShape(n: Node)
    requires Running(n)
    ensures n.rounds != [] && n.chain != [] && Last(n.rounds) != [] && Tiled(Last(n.rounds), Last(n.rounds)[0].slot)
    ensures n.ledger.delegates != map[]
  {
  }

  lemma NextRoundIs(n: Node, hash: Hash)
    requires Running(n)
    ensures var r := NextRound(n, hash);
      && r != [] && Tiled(r, LastSlot(Last(n.rounds)) + 1) && r[0].slot == LastSlot(Last(n.rounds)) + 1
      && (forall i :: 0 <= i < |r| ==> !r[i].isForged && r[i].generator in n.ledger.delegates) && ForgedCount(r) == 0
  {
    hide RoundsTiled, Generate, Pay, ActiveDelegates;
    RunningShape(n);
    var paid := Pay(n.ledger, Last(n.rounds), n.chain, 1);
    PayParts(n.ledger, Last(n.rounds), n.chain, 1);
    assert paid.delegates != map[] by {
      assert n.ledger.delegates.Keys != {};
      assert paid.delegates.Keys != {};
    }
    GenerateTiles(paid.delegates, Last(n.chain).height, hash, Last(n.chain).id, LastSlot(Last(n.rounds)) + 1);
    ActiveKnown(paid.delegates, Last(n.chain).height);
    FreshCount(NextRound(n, hash));
  }

  /** Closing a round, the next one lies behind it. */
  lemma ForwardRuns(n: Node, hash: Hash)
    requires Running(n)
    ensures Running(Forward(n, hash))
    ensures LastSlot(Last(Forward(n, hash).rounds)) > LastSlot(Last(n.rounds))
    ensures Last(Forward(n, hash).rounds)[0].slot == LastSlot(Last(n.rounds)) + 1
  {
    hide RoundsTiled, Generate, Pay, LastSlot;
    RunningShape(n);
    NextRoundIs(n, hash);
    var r := NextRound(n, hash);
    ForwardTiled(n.rounds, r);
    TiledLast(r, r[0].slot);
    PayParts(n.ledger, Last(n.rounds), n.chain, 1);
    assert n.ledger.delegates.Keys != {};
    assert Forward(n, hash).ledger.delegates.Keys != {};
    assert Forward(n, hash).rounds == n.rounds + [r];
  }

  lemma ActiveKnown(ds: map<Address, Delegate>, height: nat)
    ensures forall d :: d in ActiveDelegates(ds, height) ==> d in ds
  {
    RankedIs(ds, ds.Keys);
  }

  lemma SaneNormal(l: Ledger)
    requires Sane(l)
    ensures Normal(l)
  {
  }

  lemma ForwardTiled(rounds: seq<Round>, r: Round)
    requires RoundsTiled(rounds) && r != [] && Tiled(r, r[0].slot) && r[0].slot == LastSlot(Last(rounds)) + 1
    ensures RoundsTiled(rounds + [r])
  {
  }

  lemma ForwardFlags(rounds: seq<Round>, chain: seq<Block>, r: Round)
    requires FlagsMatch(rounds, chain) && forall i :: 0 <= i < |r| ==> !r[i].isForged
    requires r != [] && Tiled(r, r[0].slot)
    requires forall k :: 0 <= k < |chain| ==> BlockSlot(chain[k]) < r[0].slot
    ensures FlagsMatch(rounds + [r], chain)
  {
  }

  /** All blocks of the chain lie below the end of the current round. */
  lemma ChainBelow(chain: seq<Block>, r: Round, k: nat)
    requires TailOfRound(chain, r) && Tiled(r, r[0].slot) && k < |chain|
    ensures BlockSlot(chain[k]) <= LastSlot(r)
  {
    TiledLast(r, r[0].slot);
  }

  lemma ForwardOk(n: Node, hash: Hash)
    requires NodeOk(n)
    ensures NodeOk(Forward(n, hash))
  {
    hide Sane, SourcesIn, RoundsTiled, FlagsMatch, Generate, Pay, Linked, TailOfRound, GeneratorsKnown;
    NodeShape(n);
    var r := NextRound(n, hash);
    NextRoundIs(n, hash);
    LastTiled(n.rounds);
    TailMeans(n.chain, Last(n.rounds));
    forall k | 0 <= k < |n.chain| {
      ChainBelow(n.chain, Last(n.rounds), k);
    }
    ForwardTiled(n.rounds, r);
    ForwardFlags(n.rounds, n.chain, r);
    EmptyTail(n.chain, r);
    PayConsistent(n.ledger, Last(n.rounds), n.chain, 1);
    SaneNormal(n.ledger);
    PayParts(n.ledger, Last(n.rounds), n.chain, 1);
    var m := Forward(n, hash);
    assert m.rounds == n.rounds + [r];
    assert n.ledger.delegates.Keys != {};
    assert m.ledger.delegates.Keys != {};
    ForwardKnown(n.rounds, r, n.ledger.delegates, m.ledger.delegates);
  }

  lemma ForwardKnown(rounds: seq<Round>, r: Round, ds: map<Address, Delegate>, es: map<Address, Delegate>)
    requires GeneratorsKnown(rounds, ds) && ds.Keys == es.Keys
    requires forall i :: 0 <= i < |r| ==> r[i].generator in ds
    ensures GeneratorsKnown(rounds + [r], es)
  {
  }

  lemma TailMeans(chain: seq<Block>, r: Round)
    requires TailOfRound(chain, r)
    ensures r != [] && ForgedCount(r) < |chain|
  {
  }

  lemma EmptyTail(chain: seq<Block>, r: Round)
    requires r != [] && ForgedCount(r) == 0 && chain != []
    requires forall k :: 0 <= k < |chain| ==> BlockSlot(chain[k]) < r[0].slot
    ensures TailOfRound(chain, r)
  {
  }

  /** MAIN: reopening the round just closed takes back exactly what closing paid. */
  lemma BackwardUndoesForward(n: Node, hash: Hash)
    requires NodeOk(n)
    ensures Backward(Forward(n, hash)) == n
  {
    hide Sane, SourcesIn, RoundsTiled, FlagsMatch, Generate, Pay, Linked;
    NodeShape(n);
    SaneNormal(n.ledger);
    UnpayRestores(n.ledger, Last(n.rounds), n.chain);
    var m := Forward(n, hash);
    assert Init(m.rounds) == n.rounds;
  }
}
