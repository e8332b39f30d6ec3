/** core/service/round.ts and core/service/block.ts: the node in memory, which
    appends and deletes blocks and moves between rounds step by step. */
module NodeService {
  import opened Model
  import opened Transactions
  import opened Inverse
  import opened Verify
  import opened Blocks
  import opened Sound
  import opened BlockRuns
  import opened Rounds
  import opened RoundRuns
  import opened Node
  import opened Store
  import opened Services
  import opened BlockService
  import opened RoundService
  import opened Pool
  import opened PoolOrder
  import opened Caught
  import opened UnderPool
  import opened CheckUnderPool
  import opened PooledNode
  import opened PoolService
  import J = Journal
  import Re = Restore
  import E = Explained
  import TS = TransactionService
  import R = Receive

  const MAX_TRANSACTIONS_PER_BLOCK := 250

  /** The accounts of every transaction that a delete may undo exist. */
  ghost predicate ChainHosted(keys: set<Address>, chain: seq<Block>) {
    forall k :: 0 < k < |chain| ==> AllHosted(keys, chain[k].transactions)
  }

  // ---------- facts the steps rely on ----------

  lemma PayHosted(keys: set<Address>, l: Ledger, r: Round, chain: seq<Block>, k: int)
    requires LedgerHosted(keys, l) && Normal(l)
    ensures LedgerHosted(keys, Pay(l, r, chain, k))
  {
    hide Pay, FeeShare, Generators, Acc;
    if ForgedCount(r) > 0 {
      PayParts(l, r, chain, k);
      forall a
        ensures Acc(Pay(l, r, chain, k), a).referrals == Acc(l, a).referrals
      {
        PayAt(l, r, chain, k, a);
      }
    } else {
      assert Pay(l, r, chain, k) == l by { NothingPaid(l, r, chain, k); }
    }
  }

  lemma PayKeys(l: Ledger, r: Round, chain: seq<Block>, k: int)
    ensures Pay(l, r, chain, k).delegates.Keys == l.delegates.Keys
  {
  }

  lemma PaidIsDelegate(n: Node, d: Address)
    requires NodeOk(n)
    ensures n.rounds != []
    ensures d in multiset(Generators(RoundBlocks(n.chain, Last(n.rounds)))) ==> d in n.ledger.delegates
    ensures d in multiset(Missed(Last(n.rounds))) ==> d in n.ledger.delegates
  {
    NodeShape(n);
    hide NodeOk, Missed, Generators, RoundBlocks;
    if d !in n.ledger.delegates {
      E.PaidKnown(n, d);
    }
  }

  /** Everyone a round pays or counts as missing is a delegate. */
  lemma RoundIsKnown(n: Node, ds: map<Address, Delegate>)
    requires NodeOk(n) && n.ledger.delegates.Keys <= ds.Keys
    ensures n.rounds != [] && RoundKnown(ds, Last(n.rounds), n.chain)
  {
    NodeShape(n);
    hide NodeOk, Missed, RoundBlocks;
    var r := Last(n.rounds);
    var blocks := RoundBlocks(n.chain, r);
    forall i | 0 <= i < |blocks|
      ensures blocks[i].generator in ds
    {
      assert Generators(blocks)[i] == blocks[i].generator;
      PaidIsDelegate(n, blocks[i].generator);
    }
    forall i | 0 <= i < |Missed(r)|
      ensures Missed(r)[i] in ds
    {
      PaidIsDelegate(n, Missed(r)[i]);
    }
  }

  lemma NodeLedger(n: Node)
    requires NodeOk(n)
    ensures Sane(n.ledger) && Normal(n.ledger) && SourcesIn(n.ledger, n.ledger.confirmed) && n.ledger.delegates != map[]
  {
  }

  lemma NodeTiled(n: Node)
    requires NodeOk(n)
    ensures RoundsTiled(n.rounds) && n.rounds != [] && Last(n.rounds) != [] && n.rounds[0] != []
    ensures Tiled(Last(n.rounds), Last(n.rounds)[0].slot)
    ensures n.chain != [] && BlockSlot(Last(n.chain)) <= LastSlot(Last(n.rounds))
  {
    J.LastBelow(n);
    LastTiled(n.rounds);
  }

  /** While both slots lie below the current round there is a round to reopen. */
  lemma BackwardPass(n: Node, slot: int, stop: int)
    requires RoundsTiled(n.rounds) && slot <= LastSlot(Last(n.rounds)) && stop <= LastSlot(Last(n.rounds))
    requires !Re.BeforeAllRounds(n.rounds, slot, stop)
    requires !InRound(Last(n.rounds), slot) && !InRound(Last(n.rounds), stop)
    ensures |n.rounds| > 1 && |Backward(n).rounds| == |n.rounds| - 1
    ensures RoundsTiled(Backward(n).rounds) && Last(Backward(n).rounds) != []
    ensures slot <= LastSlot(Last(Backward(n).rounds)) && stop <= LastSlot(Last(Backward(n).rounds))
    ensures Backward(n).rounds[0] == n.rounds[0] && !Re.BeforeAllRounds(Backward(n).rounds, slot, stop)
    ensures Backward(n).chain == n.chain
    ensures J.RestoreBackward(n, slot, stop) == J.RestoreBackward(Backward(n), slot, stop)
  {
    hide InRound, Pay, Tiled, RoundsTiled, LastSlot;
    Re.SlotBelow(n.rounds, slot);
    Re.SlotBelow(n.rounds, stop);
    if |n.rounds| > 1 {
      InitTiled(n.rounds);
    }
  }

  /** One pass of the loop towards a later slot. */
  lemma ForwardPass(n: Node, slot: int, hash: Hash)
    requires NodeOk(n) && n.rounds != [] && slot > LastSlot(Last(n.rounds))
    ensures var f := Forward(n, hash);
      && NodeOk(f) && f.rounds != [] && f.rounds[0] != [] && Last(f.rounds) != [] && f.chain == n.chain
      && LastSlot(Last(f.rounds)) > LastSlot(Last(n.rounds))
      && (slot > LastSlot(Last(f.rounds)) || InRound(Last(f.rounds), slot))
      && J.RestoreForward(n, slot, hash) == J.RestoreForward(f, slot, hash)
  {
    J.ForwardGoesOn(n, hash);
    Re.ForwardGrows(n, hash);
    hide NodeOk, Forward, InRound, LastSlot;
    Re.SlotInLast(Forward(n, hash), slot);
    NodeTiled(Forward(n, hash));
  }

  /** The round of the last block is on the stack. */
  lemma LastBlockHasRound(start: Node, n: Node, hash: Hash)
    requires J.IsStart(start) && NodeOk(n) && J.Journaled(start, n, hash) && |n.chain| > 1
    ensures n.rounds != [] && n.rounds[0] != []
    ensures !Re.BeforeAllRounds(n.rounds, BlockSlot(Last(n.chain)), BlockSlot(Last(n.chain)))
  {
    hide NodeOk, J.Journaled, J.IsStart, J.Replay, J.LegalJournal, J.LegalEvent, InRound;
    NodeTiled(n);
    var slot := BlockSlot(Last(n.chain));
    J.BackwardJournaled(start, n, slot, hash);
    J.BackwardStops(n, slot, slot);
    Re.BackwardEnds(n, slot, slot);
    var m := J.RestoreBackward(n, slot, slot);
    if !InRound(Last(m.rounds), slot) {
      HeldByRound(start, m, hash);
    }
  }

  lemma HeldByRound(start: Node, m: Node, hash: Hash)
    requires J.IsStart(start) && NodeOk(m) && J.Journaled(start, m, hash)
    requires |m.chain| > 1 && (|m.rounds| <= 1 || InRound(Last(m.rounds), BlockSlot(Last(m.chain))))
    ensures m.rounds != [] && InRound(Last(m.rounds), BlockSlot(Last(m.chain)))
  {
    hide NodeOk, J.IsStart, J.Replay, J.LegalJournal, J.LegalEvent, InRound, Legal, Append, Forward, Backward, RemoveLast;
    NodeShape(m);
    var j :| J.LegalJournal(start, j, hash) && J.Replay(start, j, hash) == m;
    J.TopIsAppended(start, j, hash);
    J.TopEvent(start, j, hash);
  }

  lemma AppendLedger(n: Node, b: Block)
    requires n.rounds != []
    ensures Append(n, b).ledger == ApplyBlock(n.ledger, b.transactions)
  {
  }

  /** The ledger from which the last block led here. */
  lemma LastBlockApplied(start: Node, m: Node, hash: Hash) returns (before: Node)
    requires J.IsStart(start) && NodeOk(m) && J.Journaled(start, m, hash)
    requires |m.chain| > 1 && (|m.rounds| <= 1 || InRound(Last(m.rounds), BlockSlot(Last(m.chain))))
    ensures NodeOk(before) && before.rounds != [] && before.chain != [] && Legal(before, Last(m.chain))
    ensures m == Append(before, Last(m.chain)) && m.rounds != []
    ensures J.Removable(start, m.chain) ==> RemoveLast(m) == before
    ensures m.ledger == ApplyBlock(before.ledger, Last(m.chain).transactions)
    ensures J.Journaled(start, before, hash)
  {
    hide NodeOk, J.IsStart, J.Replay, J.LegalJournal, J.LegalEvent, InRound, Legal, Append, Forward, Backward, RemoveLast, J.Removable;
    NodeShape(m);
    var j :| J.LegalJournal(start, j, hash) && J.Replay(start, j, hash) == m;
    J.TopIsAppended(start, j, hash);
    J.TopEvent(start, j, hash);
    before := J.Replay(start, Init(j), hash);
    NodeShape(before);
    J.InitLegal(start, j, hash);
    AppendLedger(before, Last(m.chain));
  }

  // ---------- checking a block ----------

  /** What the payload check asks of the transactions of a block. */
  ghost predicate PayloadOk(b: Block) {
    |b.transactions| <= MAX_TRANSACTIONS_PER_BLOCK && DistinctIds(b.transactions) && b.fee == SumFees(b.transactions)
  }

  method VerifyPayload(b: Block) returns (ok: bool)
    ensures ok <==> PayloadOk(b)
    ensures ok <==>
              && |b.transactions| <= 250 && b.fee == SumFees(b.transactions)
              && forall i, j :: 0 <= i < j < |b.transactions| ==> b.transactions[i].id != b.transactions[j].id
  {
    var ts := b.transactions;
    ok := |ts| <= MAX_TRANSACTIONS_PER_BLOCK;
    var applied: set<TrsId> := {};
    var totalFee := 0;
    var repeated := false;
    for i := 0 to |ts|
      invariant totalFee == SumFees(ts[..i])
      invariant forall k :: k in applied <==> exists j :: 0 <= j < i && ts[j].id == k
      invariant !repeated <==> DistinctIds(ts[..i])
    {
      assert ts[..i + 1][..i] == ts[..i];
      DistinctNext(ts, i);
      if ts[i].id in applied {
        repeated := true;
      }
      applied := applied + {ts[i].id};
      totalFee := totalFee + ts[i].fee;
    }
    assert ts[..|ts|] == ts;
    ok := ok && !repeated && totalFee == b.fee;
  }

  lemma DistinctNext(ts: seq<Transaction>, i: nat)
    requires i < |ts|
    ensures DistinctIds(ts[..i + 1]) <==> DistinctIds(ts[..i]) && forall j :: 0 <= j < i ==> ts[j].id != ts[i].id
  {
    var init, upto := ts[..i], ts[..i + 1];
    assert forall j :: 0 <= j < i ==> upto[j] == init[j];
    assert upto[i] == ts[i];
  }

  method HasBlock(chain: seq<Block>, id: BlockId) returns (found: bool)
    ensures found <==> exists k :: 0 <= k < |chain| && chain[k].id == id
  {
    found := false;
    for i := 0 to |chain|
      invariant found <==> exists k :: 0 <= k < i && chain[k].id == id
    {
      if chain[i].id == id {
        found := true;
      }
    }
  }

  /** The block comes in the slot that the round gives its generator. */
  method VerifyBlockSlot(round: Round, b: Block) returns (ok: bool)
    ensures ok <==> InSlot(round, b.generator, BlockSlot(b))
    ensures ok <==> exists k :: 0 <= k < |round| && round[k].generator == b.generator && 10 * round[k].slot <= b.createdAt < 10 * round[k].slot + 10
  {
    ok := false;
    for i := 0 to |round|
      invariant ok <==> exists k :: 0 <= k < i && round[k].generator == b.generator && round[k].slot == BlockSlot(b)
    {
      if round[i].generator == b.generator && round[i].slot == BlockSlot(b) {
        ok := true;
      }
    }
  }

  /** The checks of a block that follows the last one. */
  ghost predicate Accepted(n: Node, b: Block, currentSlot: int)
    requires n.rounds != [] && n.chain != []
  {
    var last := Last(n.chain);
    && PayloadOk(b)
    && BlockSlot(last) < BlockSlot(b) <= currentSlot + ActiveDelegatesCount(last.height) - 1
    && InSlot(Last(n.rounds), b.generator, BlockSlot(b))
    && (forall k :: 0 <= k < |n.chain| ==> n.chain[k].id != b.id)
    && AllVerified(n.ledger, last.height, b.transactions)
  }

  /** MAIN: a block is accepted exactly when it holds at most 250 different transactions
      with the fees it says, comes in a later slot than the last block and not too far
      ahead, in a slot of its generator, is not known yet, and its transactions pass. */
  lemma AcceptedIff(n: Node, b: Block, currentSlot: int)
    requires n.rounds != [] && n.chain != []
    ensures var last, round, ts := n.chain[|n.chain| - 1], n.rounds[|n.rounds| - 1], b.transactions;
      Accepted(n, b, currentSlot) <==>
        && |ts| <= 250 && b.fee == SumFees(ts) && (forall i, j :: 0 <= i < j < |ts| ==> ts[i].id != ts[j].id)
        && last.createdAt / 10 < b.createdAt / 10 < currentSlot + (if last.height <= 251000 then 11 else if last.height <= 453500 then 61 else 101)
        && (exists i :: 0 <= i < |round| && round[i].generator == b.generator && round[i].slot == b.createdAt / 10)
        && (forall k :: 0 <= k < |n.chain| ==> n.chain[k].id != b.id)
        && AllVerified(n.ledger, last.height, ts)
  {
    hide AllVerified, SumFees;
  }

  lemma AcceptedLegal(n: Node, b: Block, currentSlot: int)
    requires NodeOk(n) && n.rounds != [] && n.chain != [] && Accepted(n, b, currentSlot)
    requires b.height == Last(n.chain).height + 1 && b.previous == Last(n.chain).id
    ensures Legal(n, b)
  {
    hide NodeOk, AllVerified, DistinctIds, NewIds, Normal;
    NodeLedger(n);
    VerifiedNew(n.ledger, Last(n.chain).height, b.transactions);
  }

  // ---------- accounts stay ----------

  lemma HostedMore(keys: set<Address>, more: set<Address>, l: Ledger, chain: seq<Block>)
    requires LedgerHosted(keys, l) && ChainHosted(keys, chain) && keys <= more
    ensures LedgerHosted(more, l) && ChainHosted(more, chain)
  {
    forall k | 0 < k < |chain|
      ensures AllHosted(more, chain[k].transactions)
    {
      assert AllHosted(keys, chain[k].transactions);
    }
  }

  lemma ChainHostedAppend(keys: set<Address>, chain: seq<Block>, b: Block)
    requires ChainHosted(keys, chain) && AllHosted(keys, b.transactions)
    ensures ChainHosted(keys, chain + [b])
  {
    hide AllHosted;
  }

  lemma ChainHostedInit(keys: set<Address>, chain: seq<Block>)
    requires ChainHosted(keys, chain) && |chain| > 1
    ensures ChainHosted(keys, Init(chain)) && AllHosted(keys, Last(chain).transactions)
  {
    hide AllHosted;
  }

  lemma LegalParts(n: Node, b: Block)
    requires NodeOk(n) && n.rounds != [] && n.chain != [] && Legal(n, b)
    ensures AllVerified(n.ledger, Last(n.chain).height, b.transactions) && NewIds(n.ledger.confirmed, b.transactions)
    ensures Sane(n.ledger) && SourcesIn(n.ledger, n.ledger.confirmed)
  {
  }

  // ---------- the node with its pool ----------

  /** Whatever of the block has passed the checks can be rolled back. */
  ghost predicate RegularWhereVerified(l: Ledger, height: nat, ts: seq<Transaction>) {
    forall i :: 0 <= i <= |ts| && AllVerified(l, height, ts[..i]) ==> AllRegular(l, ts[..i])
  }

  lemma VerifiedUndoable(l: Ledger, height: nat, ts: seq<Transaction>, i: nat)
    requires i <= |ts| && Sane(l) && SourcesIn(l, l.confirmed) && DistinctIds(ts)
    requires RegularWhereVerified(l, height, ts) && AllVerified(l, height, ts[..i])
    ensures AllUndoable(l, ts[..i])
  {
    hide AllVerified, AllRegular, AllUndoable, SourcesIn, Sane, NewIds;
    SaneNormal(l);
    DistinctTake(ts, i);
    VerifiedNew(l, height, ts[..i]);
    VerifiedBlockIff(l, height, ts[..i]);
  }

  lemma DistinctTake(ts: seq<Transaction>, i: nat)
    requires i <= |ts| && DistinctIds(ts)
    ensures DistinctIds(ts[..i])
  {
  }

  /** The state over the pool can move between rounds when that below it can. */
  lemma SeenRuns(n: Node, p: seq<Transaction>)
    requires NodeOk(Below(n, p)) && Normal(n.ledger)
    ensures Running(n) && Running(Below(n, p)) && UndoAll(n.ledger, p).delegates.Keys <= n.ledger.delegates.Keys
  {
    NodeShape(Below(n, p));
    hide NodeOk, UndoAll, RoundsTiled, Normal;
    CountsBelow(n.ledger, p);
    assert UndoAll(n.ledger, p).delegates.Keys != {} by {
      RunningShape(Below(n, p));
    }
    assert n.ledger.delegates.Keys != {};
  }

  lemma StoreNormal(store: LedgerStore)
    ensures Normal(store.View())
  {
  }

  /** Restoring towards an earlier slot changes nothing that undoing reads. */
  lemma RestoredSame(n: Node, p: seq<Transaction>, q: seq<Transaction>, slot: int, hash: Hash)
    requires Running(n) && Normal(n.ledger) && slot <= LastSlot(Last(n.rounds))
    ensures var m := J.Restore(n, slot, hash);
      && Normal(m.ledger) && m.chain == n.chain
      && (AllReady(m.ledger, p) <==> AllReady(n.ledger, p))
      && (SameReturns(m.ledger, p, q) <==> SameReturns(n.ledger, p, q))
  {
    RunningShape(n);
    hide Running, AllReady, SameReturns, Normal, J.RestoreBackward, InRound;
    var stop := BlockSlot(Last(n.chain));
    RestoreBackwardBelow(n, p, slot, stop);
    forall a {
      BackwardStakes(n, slot, stop, a);
    }
    ReturnsPaid(n.ledger, J.RestoreBackward(n, slot, stop).ledger, p, q);
  }

  class NodeState {
    const store: LedgerStore
    const pool: TransactionPool
    const hash: Hash
    var chain: seq<Block>
    var rounds: seq<Round>
    /** The state the node started from. */
    ghost const start: Node

    /** The state in memory, pooled transactions included. */
    ghost function Seen(): Node
      reads this, store
    {
      Node(chain, rounds, store.View())
    }

    /** The state of the chain, below the pool. */
    ghost function State(): Node
      reads this, store, pool
    {
      Below(Seen(), pool.pool)
    }

    ghost predicate Valid()
      reads this, store, pool, pool.store
    {
      && pool.store == store
      && J.IsStart(start) && NodeOk(State()) && J.Journaled(start, State(), hash)
      && StoreOk(store) && ChainHosted(store.accounts.Keys, chain)
      && pool.Valid()
    }

    /** A node that holds its first block and its first round. */
    constructor (store: LedgerStore, hash: Hash, first: Block, round: Round)
      requires J.IsStart(Node([first], [round], store.View())) && StoreOk(store)
      ensures Valid() && this.store == store && this.hash == hash && pool.pool == []
      ensures State() == start == Node([first], [round], store.View())
    {
      this.store, this.hash, chain, rounds := store, hash, [first], [round];
      start := Node([first], [round], store.View());
      pool := new TransactionPool(store);
      new;
      hide NodeOk, J.IsStart, J.Journaled, LedgerHosted, AllHosted, store.View;
      J.StartJournaled(start, hash);
    }

    /** Close the current round: pay its fees and generate the next one. The round is
        that of the chain exactly when no pooled new delegate ranks for it. */
    method ForwardProcess()
      requires Valid() && chain != []
      modifies `rounds, store`accounts, store`delegates
      ensures Seen() == Forward(old(Seen()), hash)
      ensures State() == Forward(old(State()), hash) <==> Idle(old(store.View()).delegates, Last(chain).height, pool.pool)
      ensures Idle(old(store.View()).delegates, Last(chain).height, pool.pool) ==> Valid()
      ensures store.accounts.Keys == old(store.accounts.Keys)
    {
      hide NodeOk, J.Journaled, J.IsStart, Pay, LedgerHosted, ChainHosted, RoundKnown, store.View, Generate, UndoAll, AllReady, Idle,
        Running, pool.Filed, pool.Indexed, SponsorsDistinct, AllHosted, LastSlot;
      ghost var n := State();
      ghost var seen := Seen();
      ghost var p := pool.pool;
      StoreNormal(store);
      PoolParts(pool);
      SeenRuns(seen, p);
      RunningShape(seen);
      var round := rounds[|rounds| - 1];
      StoreDelegates(store);
      RoundIsKnown(n, store.delegates);
      PayHosted(store.accounts.Keys, seen.ledger, round, chain, 1);
      ProcessReward(store, round, chain, false);
      StoreDelegates(store);
      var last := chain[|chain| - 1];
      var next := GenerateRound(store.delegates, last.height, hash, last.id, LastSlot(round) + 1);
      rounds := rounds + [next];
      ForwardBelowIff(seen, p, hash);
      J.ForwardGoesOn(n, hash);
      J.OneClose(start, n, hash);
      PoolStays(pool, old(store.accounts.Keys));
    }

    /** Reopen the round before, when there is one, and take its fees back. */
    method BackwardProcess()
      requires Valid()
      requires rounds != [] && chain != []
      requires |rounds| > 1 ==> !InRound(Last(rounds), BlockSlot(Last(chain)))
      modifies `rounds, store`accounts, store`delegates
      ensures Valid() && State() == Backward(old(State())) && Seen() == Backward(old(Seen()))
      ensures store.accounts.Keys == old(store.accounts.Keys)
    {
      hide NodeOk, J.Journaled, J.IsStart, Pay, LedgerHosted, ChainHosted, RoundKnown, store.View, InRound, UndoAll, AllReady, pool.Filed, pool.Indexed, SponsorsDistinct, AllHosted;
      ghost var n := State();
      ghost var seen := Seen();
      StoreNormal(store);
      PoolParts(pool);
      if |rounds| > 1 {
        J.BackStep(start, n, hash);
        BackwardBelow(seen, pool.pool);
        rounds := rounds[..|rounds| - 1];
        var round := rounds[|rounds| - 1];
        StoreDelegates(store);
        SeenRuns(seen, pool.pool);
        BackwardKnown(n, store.delegates);
        PayHosted(store.accounts.Keys, seen.ledger, round, chain, -1);
        ProcessReward(store, round, chain, true);
        PoolStays(pool, old(store.accounts.Keys));
      }
    }

    /** Close or reopen rounds until the slot is in the current one. `impossible`
        is the error that the program logs when it has gone past the slot. */
    method RestoreToSlot(slot: int) returns (impossible: bool)
      requires Valid() && rounds != [] && rounds[0] != [] && chain != []
      requires slot > LastSlot(Last(rounds)) || !Re.BeforeAllRounds(rounds, slot, BlockSlot(Last(chain)))
      requires slot > LastSlot(Last(rounds)) ==> Idle(store.View().delegates, Last(chain).height, pool.pool)
      modifies `rounds, store`accounts, store`delegates
      ensures Valid() && State() == J.Restore(old(State()), slot, hash)
      ensures Running(old(Seen())) && Seen() == J.Restore(old(Seen()), slot, hash)
      ensures store.accounts.Keys == old(store.accounts.Keys)
      ensures !impossible
    {
      hide NodeOk, J.Journaled, J.IsStart, Pay, LedgerHosted, ChainHosted, StoreOk, store.View, InRound, Forward, Backward,
        Re.BeforeAllRounds, LastSlot, J.RestoreForward, J.RestoreBackward, J.Restore, UndoAll, AllReady, Idle, Running, pool.Filed, pool.Indexed,
        SponsorsDistinct, AllHosted;
      ghost var n := State();
      ghost var seen := Seen();
      ghost var p := pool.pool;
      StoreNormal(store);
      PoolParts(pool);
      SeenRuns(seen, p);
      NodeTiled(n);
      impossible := false;
      if InRound(rounds[|rounds| - 1], slot) {
        NothingRestored(n, slot, hash);
        NothingRestored(seen, slot, hash);
        return;
      }
      var isForward := slot > LastSlot(rounds[|rounds| - 1]);
      var stop := BlockSlot(chain[|chain| - 1]);
      while !InRound(rounds[|rounds| - 1], slot)
        invariant Valid() && rounds != [] && chain == n.chain && store.accounts.Keys == old(store.accounts.Keys)
        invariant !impossible && Last(rounds) != [] && rounds[0] != [] && Running(Seen()) && Running(State())
        invariant isForward ==> slot > LastSlot(Last(rounds)) || InRound(Last(rounds), slot)
        invariant isForward ==> Idle(store.View().delegates, Last(chain).height, p)
        invariant isForward ==> J.RestoreForward(State(), slot, hash) == J.RestoreForward(n, slot, hash)
        invariant isForward ==> J.RestoreForward(Seen(), slot, hash) == J.RestoreForward(seen, slot, hash)
        invariant !isForward ==> slot <= LastSlot(Last(rounds)) && !Re.BeforeAllRounds(rounds, slot, stop)
        invariant !isForward ==> J.RestoreBackward(State(), slot, stop) == J.RestoreBackward(n, slot, stop)
        invariant !isForward ==> J.RestoreBackward(Seen(), slot, stop) == J.RestoreBackward(seen, slot, stop)
        decreases if isForward then slot - LastSlot(Last(rounds)) else |rounds|
      {
        ghost var m := State();
        ghost var s := Seen();
        NodeTiled(m);
        if isForward {
          if LastSlot(rounds[|rounds| - 1]) > slot {
            impossible := true;
            break;
          }
          ForwardProcess();
          ForwardIdle(s, p, hash);
          ForwardPass(m, slot, hash);
          ForwardSeen(s, slot, hash);
        } else {
          if LastSlot(rounds[|rounds| - 1]) < slot {
            impossible := true;
            break;
          } else if InRound(rounds[|rounds| - 1], stop) {
            break;
          }
          BackwardPass(m, slot, stop);
          BackwardSeen(s, slot, stop);
          BackwardProcess();
        }
        StoreNormal(store);
        SeenRuns(Seen(), p);
      }
      InLast(State(), slot);
      SeenStops(State(), slot, stop, hash);
      SeenStops(Seen(), slot, stop, hash);
      RestoreMeans(n, slot, stop, isForward, hash);
      RestoreMeans(seen, slot, stop, isForward, hash);
    }

    /** Check a block that follows the last one, apply it over the pool, save it and
        confirm it. `saved` is the answer of the database. */
    method Process(b: Block, currentSlot: int, saved: bool) returns (ok: bool)
      requires Valid() && rounds != [] && chain != []
      requires b.height == Last(chain).height + 1 && b.previous == Last(chain).id
      requires forall k :: 0 <= k < |b.transactions| ==> WellFormed(b.transactions[k]) && DownOnly(b.transactions[k])
      requires BlockFits(b.transactions, pool.pool) && SponsorsAgree(store.View(), pool.Base(), b.transactions)
      modifies `chain, `rounds, store
      ensures ok <==> saved && Accepted(old(State()), b, currentSlot)
      ensures ok ==> Valid() && Legal(old(State()), b) && State() == Append(old(State()), b)
      ensures !ok ==> chain == old(chain) && rounds == old(rounds)
      ensures !ok && RegularWhereVerified(old(State()).ledger, Last(old(chain)).height, b.transactions) ==> Valid() && Seen() == old(Seen())
    {
      hide NodeOk, J.Journaled, J.IsStart, LedgerHosted, ChainHosted, store.View, InSlot, AllVerified, Legal, WellFormed, DownOnly,
        RegularWhereVerified, ApplyAll, ConfirmAll, Sane, SourcesIn, NewIds, Hosted, Mark, DistinctIds, Normal, Confirm, UndoAll,
        AllReady, BlockFits, SponsorsAgree, AllUndoable, pool.Filed, pool.Indexed, SponsorsDistinct, AllHosted;
      ghost var n := State();
      ghost var seen := Seen();
      ghost var l := store.View();
      ghost var p := pool.pool;
      StoreNormal(store);
      PoolParts(pool);
      NodeLedger(n);
      StoreDelegates(store);
      var last := chain[|chain| - 1];
      var ts := b.transactions;
      var payloadOk := VerifyPayload(b);
      var slot := BlockSlot(b);
      if !payloadOk || slot > currentSlot + ActiveDelegatesCount(last.height) - 1 || slot <= BlockSlot(last) {
        return false;
      }
      var slotOk := VerifyBlockSlot(rounds[|rounds| - 1], b);
      if !slotOk {
        return false;
      }
      var exists_ := HasBlock(chain, b.id);
      if exists_ {
        return false;
      }
      ghost var keys := store.accounts.Keys;
      SaneUnderPool(l, p);
      AllVerifiedUnderPool(l, p, last.height, ts);
      ghost var passed: nat;
      ok, passed := CheckTransactionsAndApply(store, last.height, ts);
      HostedMore(keys, store.accounts.Keys, l, chain);
      if !ok {
        if RegularWhereVerified(n.ledger, last.height, ts) {
          FitsTake(l, p, ts, passed);
          AllVerifiedUnderPool(l, p, last.height, ts[..passed]);
          VerifiedUndoable(n.ledger, last.height, ts, passed);
          AllUndoableUnder(l, p, ts[..passed]);
          PoolStays(pool, keys);
        }
        return;
      }
      AcceptedLegal(n, b, currentSlot);
      RollReady(l, last.height, ts);
      FitsApart(ts, p);
      if !saved {
        RollBack(store, ts);
        if RegularWhereVerified(n.ledger, last.height, ts) {
          assert ts[..|ts|] == ts;
          VerifiedUndoable(n.ledger, last.height, ts, |ts|);
          AllUndoableUnder(l, p, ts);
          UndoAllRestores(l, ts);
          PoolStays(pool, keys);
        }
        return false;
      }
      chain := chain + [b];
      ConfirmAllHosted(store.accounts.Keys, store.View(), ts);
      ConfirmTransactions(store, ts);
      rounds := MarkLast(rounds, b.generator, true);
      AppendBelow(seen, p, b);
      J.ReceiveJournaled(start, n, b, hash);
      ChainHostedAppend(store.accounts.Keys, n.chain, b);
      PoolStays(pool, keys);
    }

    /** Delete the last block, in its round, under the pool. `deleted` is the answer of
        the database. The state is that of the chain without the block exactly when
        every stake gives back as many milestones before the pool as after it. */
    method DeleteLastBlock(deleted: bool) returns (ok: bool)
      requires Valid() && rounds != [] && chain != []
      requires deleted && |chain| > 1 ==> AllReady(store.View(), pool.pool + Last(chain).transactions)
      modifies `chain, `rounds, store
      ensures ok <==> deleted && old(|chain|) > 1
      ensures !ok ==> Valid() && Seen() == old(Seen())
      ensures ok ==> Running(old(Seen())) && Running(old(State())) && chain == Init(old(chain)) && Seen() == J.Delete(old(Seen()), hash)
      ensures ok ==>
                var ts := Last(old(chain)).transactions;
                && (State() == J.Delete(old(State()), hash) <==> SameReturns(old(store.View()), pool.pool + ts, ts + pool.pool))
                && (J.Removable(start, old(chain)) && SameReturns(old(store.View()), pool.pool + ts, ts + pool.pool) ==> Valid())
    {
      hide NodeOk, J.Journaled, J.IsStart, LedgerHosted, ChainHosted, StoreOk, store.View, InRound, AllVerified, Legal, ApplyAll, ConfirmAll,
        Sane, SourcesIn, NewIds, Hosted, Mark, Normal, Append, J.RestoreBackward, J.RestoreForward, DeleteBlock, J.Restore,
        ApplyBlock, Re.BeforeAllRounds, AllReady, UndoAll, SameReturns, J.Removable, Running, pool.Filed, pool.Indexed, SponsorsDistinct, AllHosted, Idle;
      ghost var n := State();
      ghost var seen := Seen();
      ghost var p := pool.pool;
      NodeTiled(n);
      J.LastBelow(n);
      var last := chain[|chain| - 1];
      if last.height == 1 || !deleted {
        return false;
      }
      ghost var ts := last.transactions;
      StoreNormal(store);
      PoolParts(pool);
      SeenRuns(seen, p);
      LastBlockHasRound(start, n, hash);
      var _ := RestoreToSlot(BlockSlot(last));
      ghost var m := State();
      ghost var s := Seen();
      RestoredToLast(start, n, hash);
      RestoredSame(seen, p + ts, ts + p, BlockSlot(last), hash);
      UndoBoth(s.ledger, p, ts);
      ghost var before := LastBlockApplied(start, m, hash);
      LegalParts(before, last);
      DeleteReady(before.ledger, Last(before.chain).height, ts);
      UndoBoth(s.ledger, ts, p);
      ChainHostedInit(store.accounts.Keys, chain);
      rounds := MarkLast(rounds, last.generator, false);
      chain := chain[..|chain| - 1];
      DeleteTransactions(store, last.transactions);
      RemoveBelowIff(s, p);
      DeleteMeans(n, BlockSlot(last), m, hash);
      DeleteMeans(seen, BlockSlot(last), s, hash);
      if J.Removable(start, n.chain) {
        J.DeleteJournaled(start, n, hash);
      }
      PoolStays(pool, old(store.accounts.Keys));
      ok := true;
    }

    /** Take the last block off, in its round, for one of the same height. */
    method ReplaceLast(deleted: bool)
      requires Valid() && rounds != [] && chain != [] && deleted && |chain| > 1 && Running(Seen()) && Running(State())
      requires Replaceable(start, Seen(), pool.pool)
      modifies `chain, `rounds, store
      ensures Valid() && chain == Init(old(chain))
      ensures State() == J.Delete(old(State()), hash) && Seen() == J.Delete(old(Seen()), hash)
    {
      hide NodeOk, J.Journaled, J.IsStart, StoreOk, ChainHosted, store.View, InRound, J.Restore, J.Delete, Re.BeforeAllRounds, AllReady,
        UndoAll, SameReturns, J.Removable, Running, pool.Filed, Idle, LastSlot, Replaceable;
      ghost var n := State();
      ghost var seen := Seen();
      ghost var p := pool.pool;
      NodeTiled(n);
      var last := chain[|chain| - 1];
      LastBlockHasRound(start, n, hash);
      ReplaceableMeans(start, seen, p, hash);
      var _ := RestoreToSlot(BlockSlot(last));
      RestoreKeepsChain(start, n, BlockSlot(last), hash);
      DeleteAfterRestore(start, n, hash);
      SeenDeleteAfterRestore(n, seen, p, start, hash);
      NodeTiled(State());
      var _ := DeleteLastBlock(deleted);
    }

    /** Make room in the pool for the transactions of a block. */
    method MakePoolRoom(ts: seq<Transaction>) returns (removed: seq<Transaction>)
      requires Valid()
      requires var order := Select(pool.pool, KeptFrom(ts)) + Reversed(Removed(pool.pool, ts));
        AllReady(store.View(), order) && SameReturns(store.View(), pool.pool, order)
      modifies store, pool`pool, pool`poolBySender, pool`poolByRecipient
      ensures Valid() && State() == old(State())
      ensures pool.pool == Select(old(pool.pool), KeptFrom(ts)) && removed == Removed(old(pool.pool), ts)
      ensures store.View() == UndoAll(old(store.View()), Reversed(removed))
    {
      hide NodeOk, J.Journaled, J.IsStart, LedgerHosted, ChainHosted, store.View, AllReady, UndoAll, SameReturns, pool.Filed,
        Select, Removed, Reversed, KeptFrom, CaughtAll, AllListed;
      ghost var l := store.View();
      StoreHosted(store);
      removed := pool.BatchRemove(ts);
      UndoAllHosted(store.accounts.Keys, l, Reversed(removed));
      StoreHosted(store);
    }

    /** What comes before a received block: replace the last block when it has the same
        height, and restore the rounds to its slot. */
    method Prepare(b: Block, deleted: bool)
      requires Valid() && rounds != [] && chain != [] && Running(Seen()) && Running(State())
      requires R.ValidateReceived(Last(chain), b, true) || R.ValidateReceived(Last(chain), b, false)
      requires b.height == Last(chain).height ==> R.Replaced(chain, deleted) && Replaceable(start, Seen(), pool.pool)
      requires Fits(State(), Seen(), pool.pool, b, hash)
      modifies `chain, `rounds, store
      ensures Valid() && rounds != [] && chain != []
      ensures chain == if b.height == Last(old(chain)).height then Init(old(chain)) else old(chain)
      ensures b.height == Last(chain).height + 1 && b.previous == Last(chain).id
      ensures Running(old(State())) && Running(old(Seen()))
      ensures State() == Prepared(old(State()), b, hash) && Seen() == Prepared(old(Seen()), b, hash)
    {
      hide NodeOk, J.Journaled, J.IsStart, LedgerHosted, ChainHosted, StoreOk, store.View, InRound, Legal, Accepted, WellFormed, DownOnly,
        RegularWhereVerified, Append, J.Restore, J.Delete, Re.BeforeAllRounds, Linked, AllReady, UndoAll, SameReturns,
        J.Removable, Running, pool.Filed, pool.Indexed, SponsorsDistinct, AllHosted, Idle, BlockFits, SponsorsAgree, Select, Removed, Reversed, KeptFrom, LastSlot, Replaceable;
      ghost var n := State();
      ghost var seen := Seen();
      ghost var p := pool.pool;
      NodeTiled(n);
      NodeLinked(n);
      J.LastBelow(n);
      if b.height == chain[|chain| - 1].height {
        ReplaceLast(deleted);
        ReplacementNext(n.chain, b);
      }
      ghost var m := State();
      ghost var s := Seen();
      StoreNormal(store);
      SeenRuns(s, p);
      NodeTiled(m);
      if |chain| > 1 {
        CanAlwaysRestore(start, m, BlockSlot(b), hash);
      }
      FitsRestores(n, seen, p, b, hash);
      var _ := RestoreToSlot(BlockSlot(b));
      RestoreKeepsChain(start, m, BlockSlot(b), hash);
      NodeTiled(State());
    }

    /** Receive a block from a peer: replace the last block when it has the same
        height, restore the rounds to its slot, make room in the pool and process it. */
    method OnReceiveBlock(b: Block, consensus: bool, currentSlot: int, deleted: bool, saved: bool)
      returns (ok: bool, removed: seq<Transaction>)
      requires Valid() && rounds != [] && chain != []
      requires forall k :: 0 <= k < |b.transactions| ==> WellFormed(b.transactions[k]) && DownOnly(b.transactions[k])
      requires Running(Seen()) && Running(State())
      requires R.ValidateReceived(Last(chain), b, consensus) ==>
                 && (b.height == Last(chain).height ==> R.Replaced(chain, deleted) && Replaceable(start, Seen(), pool.pool))
                 && Fits(State(), Seen(), pool.pool, b, hash)
      modifies `chain, `rounds, store, pool`pool, pool`poolBySender, pool`poolByRecipient
      ensures chain == R.OnReceive(old(chain), b, R.Answers(consensus, deleted, ok))
      ensures !R.ValidateReceived(Last(old(chain)), b, consensus) ==>
                !ok && Valid() && Seen() == old(Seen()) && pool.pool == old(pool.pool) && removed == []
      ensures R.ValidateReceived(Last(old(chain)), b, consensus) ==>
                var p := Prepared(old(State()), b, hash);
                && p.rounds != [] && p.chain != []
                && pool.pool == Select(old(pool.pool), KeptFrom(b.transactions)) && removed == Removed(old(pool.pool), b.transactions)
                && (ok <==> saved && Accepted(p, b, currentSlot))
                && (ok ==> Valid() && State() == Append(p, b))
                && (!ok && RegularWhereVerified(p.ledger, Last(p.chain).height, b.transactions) ==> Valid() && State() == p)
    {
      hide NodeOk, J.Journaled, J.IsStart, LedgerHosted, ChainHosted, StoreOk, store.View, InRound, Legal, Accepted, WellFormed, DownOnly,
        RegularWhereVerified, Append, J.Restore, J.Delete, Re.BeforeAllRounds, Linked, AllReady, UndoAll, SameReturns,
        J.Removable, Running, pool.Filed, pool.Indexed, SponsorsDistinct, AllHosted, Idle, BlockFits, SponsorsAgree, Select, Removed, Reversed, KeptFrom, LastSlot, Replaceable;
      ghost var n := State();
      ghost var seen := Seen();
      ghost var p := pool.pool;
      NodeTiled(n);
      J.LastBelow(n);
      removed := [];
      var last := chain[|chain| - 1];
      if !R.ValidateReceived(last, b, consensus) {
        return false, [];
      }
      Prepare(b, deleted);
      ghost var r := State();
      NodeTiled(r);
      FitsRoom(n, seen, p, b, hash);
      removed := MakePoolRoom(b.transactions);
      ok := Process(b, currentSlot, saved);
      AppendChain(r, b);
    }
  }

  // ---------- what a received block needs ----------

  /** The node once the block that `b` replaces is gone. */
  ghost function MadeRoom(n: Node, b: Block, hash: Hash): Node
    requires Running(n)
  {
    if b.height == Last(n.chain).height then J.Delete(n, hash) else n
  }

  /** The node on which a received block is processed. */
  ghost function Prepared(n: Node, b: Block, hash: Hash): Node
    requires Running(n)
  {
    var m := MadeRoom(n, b, hash);
    if Running(m) then J.Restore(m, BlockSlot(b), hash) else m
  }

  /** The last block can be deleted under the pool. */
  ghost predicate Replaceable(start: Node, seen: Node, p: seq<Transaction>)
    requires seen.chain != []
  {
    var ts := Last(seen.chain).transactions;
    && J.Removable(start, seen.chain)
    && AllReady(seen.ledger, p + ts) && SameReturns(seen.ledger, p + ts, ts + p)
  }

  /** The rounds can be restored to the slot: the loop ends. */
  ghost predicate CanRestore(n: Node, slot: int) {
    && n.chain != [] && n.rounds != [] && Last(n.rounds) != [] && n.rounds[0] != []
    && (slot > LastSlot(Last(n.rounds)) || !Re.BeforeAllRounds(n.rounds, slot, BlockSlot(Last(n.chain))))
  }

  /** The rounds in between do not depend on the pool, the removals of `batchRemove`
      keep the ledger below it, and the block fits what they leave. */
  ghost predicate Fits(n: Node, seen: Node, p: seq<Transaction>, b: Block, hash: Hash)
    requires Running(n) && Running(seen)
  {
    var m, s := MadeRoom(n, b, hash), MadeRoom(seen, b, hash);
    var l := Prepared(seen, b, hash).ledger;
    var kept, gone := Select(p, KeptFrom(b.transactions)), Reversed(Removed(p, b.transactions));
    && (|m.chain| <= 1 ==> CanRestore(m, BlockSlot(b)))
    && (s.rounds != [] && Last(s.rounds) != [] && s.chain != [] && BlockSlot(b) > LastSlot(Last(s.rounds)) ==>
          Idle(s.ledger.delegates, Last(s.chain).height, p))
    && AllReady(l, kept + gone) && SameReturns(l, p, kept + gone)
    && BlockFits(b.transactions, kept)
    && SponsorsAgree(UndoAll(l, gone), Prepared(n, b, hash).ledger, b.transactions)
  }

  lemma ReplaceableMeans(start: Node, seen: Node, p: seq<Transaction>, hash: Hash)
    requires Running(seen) && Replaceable(start, seen, p) && BlockSlot(Last(seen.chain)) <= LastSlot(Last(seen.rounds))
    ensures var ts := Last(seen.chain).transactions;
      var m := J.Restore(seen, BlockSlot(Last(seen.chain)), hash);
      && m.chain == seen.chain && AllReady(m.ledger, p + ts) && SameReturns(m.ledger, p + ts, ts + p)
      && J.Removable(start, seen.chain)
  {
    hide AllReady, SameReturns, J.Restore, J.Removable;
    RunningNormal(seen);
    var ts := Last(seen.chain).transactions;
    RestoredSame(seen, p + ts, ts + p, BlockSlot(Last(seen.chain)), hash);
    RestoredSame(seen, ts + p, p + ts, BlockSlot(Last(seen.chain)), hash);
  }

  lemma FitsRestores(n: Node, seen: Node, p: seq<Transaction>, b: Block, hash: Hash)
    requires Running(n) && Running(seen) && Fits(n, seen, p, b, hash)
    ensures var m, s := MadeRoom(n, b, hash), MadeRoom(seen, b, hash);
      && (|m.chain| <= 1 ==> CanRestore(m, BlockSlot(b)))
      && (s.rounds != [] && Last(s.rounds) != [] && s.chain != [] && BlockSlot(b) > LastSlot(Last(s.rounds)) ==>
            Idle(s.ledger.delegates, Last(s.chain).height, p))
  {
  }

  lemma FitsRoom(n: Node, seen: Node, p: seq<Transaction>, b: Block, hash: Hash)
    requires Running(n) && Running(seen) && Fits(n, seen, p, b, hash)
    ensures var l := Prepared(seen, b, hash).ledger;
      var kept, gone := Select(p, KeptFrom(b.transactions)), Reversed(Removed(p, b.transactions));
      && AllReady(l, kept + gone) && SameReturns(l, p, kept + gone)
      && BlockFits(b.transactions, kept)
      && SponsorsAgree(UndoAll(l, gone), Prepared(n, b, hash).ledger, b.transactions)
  {
  }

  lemma FitsTake(l: Ledger, p: seq<Transaction>, ts: seq<Transaction>, i: nat)
    requires i <= |ts| && BlockFits(ts, p) && SponsorsAgree(l, UndoAll(l, p), ts)
    ensures BlockFits(ts[..i], p) && SponsorsAgree(l, UndoAll(l, p), ts[..i])
  {
    hide Apart, Bystander, Unmixed, SponsorsRight, ApplyAll, UndoAll;
    var some := ts[..i];
    assert forall k :: 0 <= k < i ==> some[k] == ts[k] && some[..k] == ts[..k];
  }

  lemma FitsApart(ts: seq<Transaction>, p: seq<Transaction>)
    requires BlockFits(ts, p)
    ensures AllApart(ts, p)
  {
  }

  // ---------- facts about the steps ----------

  lemma StoreHosted(store: LedgerStore)
    ensures StoreOk(store) <==> LedgerHosted(store.accounts.Keys, store.View())
  {
  }

  lemma PoolParts(pool: TransactionPool)
    requires pool.Filed()
    ensures pool.Indexed() && SponsorsDistinct(pool.pool) && AllHosted(pool.store.accounts.Keys, pool.pool)
  {
  }

  lemma PoolStays(pool: TransactionPool, keys: set<Address>)
    requires pool.Indexed() && SponsorsDistinct(pool.pool) && AllHosted(keys, pool.pool) && keys <= pool.store.accounts.Keys
    ensures pool.Filed()
  {
  }

  lemma BackwardKnown(n: Node, ds: map<Address, Delegate>)
    requires NodeOk(Backward(n)) && n.ledger.delegates.Keys <= ds.Keys && |n.rounds| > 1
    ensures RoundKnown(ds, Last(Init(n.rounds)), n.chain)
  {
    hide NodeOk, RoundKnown, Pay;
    PayKeys(n.ledger, Last(Init(n.rounds)), n.chain, -1);
    RoundIsKnown(Backward(n), ds);
  }

  lemma ForwardSeen(n: Node, slot: int, hash: Hash)
    requires Running(n) && slot > LastSlot(Last(n.rounds))
    ensures Running(Forward(n, hash)) && J.RestoreForward(n, slot, hash) == J.RestoreForward(Forward(n, hash), slot, hash)
  {
    hide Forward;
    ForwardRuns(n, hash);
  }

  lemma BackwardSeen(n: Node, slot: int, stop: int)
    requires n.rounds != [] && !InRound(Last(n.rounds), slot) && !InRound(Last(n.rounds), stop)
    ensures J.RestoreBackward(n, slot, stop) == J.RestoreBackward(Backward(n), slot, stop)
  {
    hide Pay, InRound;
  }

  /** Where the loops stop, restoring further changes nothing. */
  lemma SeenStops(n: Node, slot: int, stop: int, hash: Hash)
    requires Running(n) && n.rounds != []
    ensures InRound(Last(n.rounds), slot) || InRound(Last(n.rounds), stop) ==> J.RestoreBackward(n, slot, stop) == n
    ensures slot <= LastSlot(Last(n.rounds)) ==> J.RestoreForward(n, slot, hash) == n
  {
  }

  lemma NothingRestored(n: Node, slot: int, hash: Hash)
    requires Running(n) && n.rounds != [] && InRound(Last(n.rounds), slot)
    ensures J.Restore(n, slot, hash) == n
  {
    hide InRound;
  }

  lemma RestoreMeans(n: Node, slot: int, stop: int, isForward: bool, hash: Hash)
    requires Running(n) && !InRound(Last(n.rounds), slot) && stop == BlockSlot(Last(n.chain))
    requires isForward <==> slot > LastSlot(Last(n.rounds))
    ensures J.Restore(n, slot, hash) == if isForward then J.RestoreForward(n, slot, hash) else J.RestoreBackward(n, slot, stop)
  {
  }

  lemma DeleteMeans(n: Node, slot: int, m: Node, hash: Hash)
    requires Running(n) && Last(n.chain).height != 1 && slot == BlockSlot(Last(n.chain)) && m == J.Restore(n, slot, hash)
    requires m.rounds != [] && m.chain != []
    ensures J.Delete(n, hash) == RemoveLast(m)
  {
  }

  /** With a second block on the chain every slot can be restored to. */
  lemma CanAlwaysRestore(start: Node, n: Node, slot: int, hash: Hash)
    requires J.IsStart(start) && NodeOk(n) && J.Journaled(start, n, hash) && |n.chain| > 1
    ensures CanRestore(n, slot)
  {
    hide NodeOk, J.Journaled, J.IsStart;
    NodeTiled(n);
    LastBlockHasRound(start, n, hash);
  }

  /** Restoring twice to the last block is restoring once. */
  lemma DeleteAfterRestore(start: Node, n: Node, hash: Hash)
    requires J.IsStart(start) && NodeOk(n) && J.Journaled(start, n, hash) && |n.chain| > 1
    ensures n.rounds != []
    ensures var m := J.Restore(n, BlockSlot(Last(n.chain)), hash);
      NodeOk(m) && J.Delete(m, hash) == J.Delete(n, hash)
  {
    hide NodeOk, J.Journaled, J.IsStart, J.RestoreBackward, J.RestoreForward, InRound, RemoveLast;
    NodeShape(n);
    var slot := BlockSlot(Last(n.chain));
    J.LastBelow(n);
    J.BackwardJournaled(start, n, slot, hash);
    RestoredToLast(start, n, hash);
    HeldByRound(start, J.Restore(n, slot, hash), hash);
    NodeShape(J.Restore(n, slot, hash));
  }

  /** The same over the pool: the rounds are those below it. */
  lemma SeenDeleteAfterRestore(n: Node, seen: Node, p: seq<Transaction>, start: Node, hash: Hash)
    requires J.IsStart(start) && NodeOk(n) && J.Journaled(start, n, hash) && |n.chain| > 1
    requires n == Below(seen, p) && Running(seen) && Running(n) && AllReady(seen.ledger, p)
    ensures var slot := BlockSlot(Last(n.chain));
      var s := J.Restore(seen, slot, hash);
      Running(s) ==> J.Delete(s, hash) == J.Delete(seen, hash)
  {
    hide NodeOk, J.Journaled, J.IsStart, J.RestoreBackward, J.RestoreForward, InRound, RemoveLast, UndoAll, AllReady, Running;
    NodeShape(n);
    RunningNormal(seen);
    var slot := BlockSlot(Last(n.chain));
    J.LastBelow(n);
    RestoredToLast(start, n, hash);
    RestoreBackwardBelow(seen, p, slot, slot);
    J.BackwardJournaled(start, n, slot, hash);
    HeldByRound(start, J.Restore(n, slot, hash), hash);
  }

  lemma RestoreKeepsChain(start: Node, n: Node, slot: int, hash: Hash)
    requires J.IsStart(start) && NodeOk(n) && J.Journaled(start, n, hash)
    ensures J.Restore(n, slot, hash).chain == n.chain
  {
    hide NodeOk, J.Journaled, J.IsStart, J.RestoreBackward, J.RestoreForward, InRound;
    NodeShape(n);
    if slot > LastSlot(Last(n.rounds)) {
      Re.ForwardEnds(n, slot, hash);
    } else {
      J.BackwardJournaled(start, n, slot, hash);
    }
  }

  lemma ReplacementNext(chain: seq<Block>, b: Block)
    requires Linked(chain) && |chain| > 1 && b.height == Last(chain).height && b.previous == Last(chain).previous
    ensures b.height == Last(Init(chain)).height + 1 && b.previous == Last(Init(chain)).id
  {
  }

  lemma AppendChain(p: Node, b: Block)
    requires p.rounds != []
    ensures Append(p, b).chain == p.chain + [b]
  {
  }

  lemma NodeLinked(n: Node)
    requires NodeOk(n)
    ensures Linked(n.chain)
  {
  }

  /** Restoring to the slot of the last block ends in its round. */
  lemma RestoredToLast(start: Node, n: Node, hash: Hash)
    requires J.IsStart(start) && NodeOk(n) && J.Journaled(start, n, hash) && n.chain != [] && n.rounds != []
    ensures var m := J.Restore(n, BlockSlot(Last(n.chain)), hash);
      && m.chain == n.chain && m.rounds != []
      && (|m.rounds| <= 1 || InRound(Last(m.rounds), BlockSlot(Last(m.chain))))
  {
    hide NodeOk, J.Journaled, J.IsStart, J.RestoreBackward, J.RestoreForward, InRound;
    var slot := BlockSlot(Last(n.chain));
    J.LastBelow(n);
    J.BackwardJournaled(start, n, slot, hash);
    J.BackwardStops(n, slot, slot);
    NodeShape(J.RestoreBackward(n, slot, slot));
  }

  lemma InLast(n: Node, slot: int)
    requires NodeOk(n)
    ensures n.rounds != [] && Last(n.rounds) != []
    ensures InRound(Last(n.rounds), slot) ==> slot <= LastSlot(Last(n.rounds))
  {
    LastTiled(n.rounds);
    TiledIn(Last(n.rounds), Last(n.rounds)[0].slot, slot);
  }
}
