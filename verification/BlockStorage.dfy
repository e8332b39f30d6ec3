/** core/service/blockStorage.ts, core/repository/block and
    core/service/transactionStorage.ts: the blocks and transactions kept in memory,
    a window over the end of the chain. */
module BlockStorage {
  import opened Model
  import opened Blocks

  const MEMORY_BLOCKS_LIMIT := 1000

  // ---------- the chain the window looks at ----------

  /** Heights count up from one; block ids and transaction ids do not repeat. */
  ghost predicate ChainOk(chain: seq<Block>) {
    && (forall k :: 0 <= k < |chain| ==> chain[k].height == k + 1)
    && (forall j, k :: 0 <= j < k < |chain| ==> chain[j].id != chain[k].id)
    && (forall j, k :: 0 <= j < k < |chain| ==> Ids(chain[j].transactions) !! Ids(chain[k].transactions))
  }

  function ChainIds(chain: seq<Block>): set<TrsId> {
    set k, i | 0 <= k < |chain| && 0 <= i < |chain[k].transactions| :: chain[k].transactions[i].id
  }

  lemma IdsAt(ts: seq<Transaction>, id: TrsId)
    ensures id in Ids(ts) <==> exists i :: 0 <= i < |ts| && ts[i].id == id
  {
    if id in Ids(ts) {
      var t :| t in ts && t.id == id;
      var i :| 0 <= i < |ts| && ts[i] == t;
    }
  }

  lemma ChainIdsAt(chain: seq<Block>, id: TrsId)
    ensures id in ChainIds(chain) <==> exists k :: 0 <= k < |chain| && id in Ids(chain[k].transactions)
  {
    if id in ChainIds(chain) {
      var k, i :| 0 <= k < |chain| && 0 <= i < |chain[k].transactions| && chain[k].transactions[i].id == id;
      IdsAt(chain[k].transactions, id);
    }
    if k :| 0 <= k < |chain| && id in Ids(chain[k].transactions) {
      IdsAt(chain[k].transactions, id);
    }
  }

  lemma ChainIdsAppend(chain: seq<Block>, b: Block)
    ensures ChainIds(chain + [b]) == ChainIds(chain) + Ids(b.transactions)
  {
    var longer := chain + [b];
    hide ChainIds, Ids;
    forall id
      ensures id in ChainIds(longer) <==> id in ChainIds(chain) + Ids(b.transactions)
    {
      ChainIdsAt(longer, id);
      ChainIdsAt(chain, id);
      assert longer[|chain|] == b && forall k :: 0 <= k < |chain| ==> longer[k] == chain[k];
    }
  }

  lemma ChainIdsTail(chain: seq<Block>)
    requires chain != []
    ensures ChainIds(chain) == Ids(chain[0].transactions) + ChainIds(chain[1..])
  {
    hide ChainIds, Ids;
    forall id
      ensures id in ChainIds(chain) <==> id in Ids(chain[0].transactions) + ChainIds(chain[1..])
    {
      ChainIdsAt(chain, id);
      ChainIdsAt(chain[1..], id);
      assert forall k :: 0 < k < |chain| ==> chain[k] == chain[1..][k - 1];
    }
  }

  lemma LastApart(chain: seq<Block>)
    requires ChainOk(chain) && chain != []
    ensures Ids(chain[|chain| - 1].transactions) !! ChainIds(chain[..|chain| - 1])
  {
    hide ChainIds, Ids;
    var shorter := chain[..|chain| - 1];
    forall id | id in ChainIds(shorter)
      ensures id !in Ids(chain[|chain| - 1].transactions)
    {
      ChainIdsAt(shorter, id);
      var k :| 0 <= k < |shorter| && id in Ids(shorter[k].transactions);
      assert shorter[k] == chain[k];
    }
  }

  // ---------- the window and its indexes ----------

  predicate IsTail(chain: seq<Block>, window: seq<Block>) {
    |window| <= |chain| && window == chain[|chain| - |window|..]
  }

  predicate HasId(blocks: seq<Block>, id: BlockId) {
    exists k :: 0 <= k < |blocks| && blocks[k].id == id
  }

  ghost predicate IndexedById(m: map<BlockId, Block>, window: seq<Block>) {
    && (forall id :: id in m <==> HasId(window, id))
    && (forall k :: 0 <= k < |window| ==> window[k].id in m && m[window[k].id] == window[k])
  }

  ghost predicate IndexedByHeight(m: map<nat, Block>, chain: seq<Block>, window: seq<Block>) {
    && |window| <= |chain|
    && (forall h :: h in m <==> |chain| - |window| < h <= |chain|)
    && (forall h :: h in m ==> m[h] == chain[h - 1])
  }

  ghost predicate DistinctBlocks(window: seq<Block>) {
    forall j, k :: 0 <= j < k < |window| ==> window[j].id != window[k].id
  }

  lemma TailDistinct(chain: seq<Block>, window: seq<Block>)
    requires ChainOk(chain) && IsTail(chain, window)
    ensures DistinctBlocks(window)
    ensures forall k :: 0 <= k < |window| ==> window[k].height == |chain| - |window| + k + 1
  {
    hide Ids;
    assert forall k :: 0 <= k < |window| ==> window[k] == chain[|chain| - |window| + k];
  }

  lemma HasIdMore(rest: seq<Block>, b: Block, id: BlockId)
    ensures HasId([b] + rest, id) <==> HasId(rest, id) || b.id == id
    ensures HasId(rest + [b], id) <==> HasId(rest, id) || b.id == id
  {
    var front, back := [b] + rest, rest + [b];
    assert front[0] == b && back[|rest|] == b;
    if HasId(rest, id) {
      var k :| 0 <= k < |rest| && rest[k].id == id;
      assert front[k + 1] == rest[k] && back[k] == rest[k];
    }
  }

  lemma NotThere(blocks: seq<Block>, k: nat)
    requires DistinctBlocks(blocks) && k < |blocks|
    ensures !HasId(blocks[..k], blocks[k].id) && !HasId(blocks[k + 1..], blocks[k].id)
  {
    var before, after := blocks[..k], blocks[k + 1..];
    assert forall j :: 0 <= j < k ==> before[j] == blocks[j];
    assert forall j :: 0 <= j < |after| ==> after[j] == blocks[k + 1 + j];
  }

  lemma IdsWithout(m: map<BlockId, Block>, window: seq<Block>, rest: seq<Block>, b: Block)
    requires IndexedById(m, window) && !HasId(rest, b.id)
    requires forall id :: HasId(window, id) <==> HasId(rest, id) || b.id == id
    requires forall k :: 0 <= k < |rest| ==> rest[k] in window
    ensures IndexedById(m - {b.id}, rest)
  {
    forall k | 0 <= k < |rest|
      ensures rest[k].id in m && m[rest[k].id] == rest[k] && rest[k].id != b.id
    {
      var j :| 0 <= j < |window| && window[j] == rest[k];
      assert m[window[j].id] == window[j];
    }
    hide HasId;
  }

  lemma IdsWith(m: map<BlockId, Block>, window: seq<Block>, b: Block)
    requires IndexedById(m, window) && !HasId(window, b.id)
    ensures IndexedById(m[b.id := b], window + [b])
  {
    var wider := window + [b];
    assert wider[|window|] == b && forall k :: 0 <= k < |window| ==> wider[k] == window[k];
    assert forall k :: 0 <= k < |window| ==> HasId(window, window[k].id);
    hide HasId;
    forall id {
      HasIdMore(window, b, id);
    }
  }

  lemma DropFirst(byId: map<BlockId, Block>, byHeight: map<nat, Block>, chain: seq<Block>, window: seq<Block>)
    requires ChainOk(chain) && window != [] && IsTail(chain, window)
    requires IndexedById(byId, window) && IndexedByHeight(byHeight, chain, window)
    ensures IsTail(chain, window[1..])
    ensures IndexedById(byId - {window[0].id}, window[1..])
    ensures IndexedByHeight(byHeight - {window[0].height}, chain, window[1..])
  {
    hide ChainOk, IndexedById, DistinctBlocks;
    TailDistinct(chain, window);
    assert window == [window[0]] + window[1..];
    hide HasId;
    forall id {
      HasIdMore(window[1..], window[0], id);
    }
    NotThere(window, 0);
    IdsWithout(byId, window, window[1..], window[0]);
  }

  lemma DropLast(byId: map<BlockId, Block>, byHeight: map<nat, Block>, chain: seq<Block>, window: seq<Block>)
    requires ChainOk(chain) && window != [] && IsTail(chain, window)
    requires IndexedById(byId, window) && IndexedByHeight(byHeight, chain, window)
    ensures var last := window[|window| - 1];
      && last == chain[|chain| - 1]
      && IsTail(chain[..|chain| - 1], window[..|window| - 1])
      && IndexedById(byId - {last.id}, window[..|window| - 1])
      && IndexedByHeight(byHeight - {last.height}, chain[..|chain| - 1], window[..|window| - 1])
  {
    hide ChainOk, IndexedById, DistinctBlocks;
    TailDistinct(chain, window);
    var last := window[|window| - 1];
    var rest := window[..|window| - 1];
    assert window == rest + [last];
    hide HasId;
    forall id {
      HasIdMore(rest, last, id);
    }
    NotThere(window, |window| - 1);
    IdsWithout(byId, window, rest, last);
  }

  lemma AddLast(byId: map<BlockId, Block>, byHeight: map<nat, Block>, chain: seq<Block>, window: seq<Block>, b: Block)
    requires ChainOk(chain + [b]) && IsTail(chain, window)
    requires IndexedById(byId, window) && IndexedByHeight(byHeight, chain, window)
    ensures IsTail(chain + [b], window + [b])
    ensures IndexedById(byId[b.id := b], window + [b])
    ensures IndexedByHeight(byHeight[b.height := b], chain + [b], window + [b])
  {
    hide ChainOk, IndexedById;
    var longer, wider := chain + [b], window + [b];
    assert wider == longer[|longer| - |wider|..];
    TailDistinct(longer, wider);
    assert forall k :: 0 <= k < |window| ==> wider[k] == window[k];
    assert wider[|window|] == b;
    NotThere(wider, |window|);
    assert wider[..|window|] == window;
    IdsWith(byId, window, b);
  }

  // ---------- reading a slice ----------

  /** What the window answers when asked for `limit` blocks after `offset`: the chain's
      slice when it begins inside the window, nothing otherwise. */
  function Slice(chain: seq<Block>, window: nat, limit: nat, offset: nat): seq<Block>
    requires window <= |chain|
  {
    if offset < |chain| - window || offset >= |chain| then []
    else chain[offset..if offset + limit <= |chain| then offset + limit else |chain|]
  }

  /** MAIN: the last `n` blocks, which a closing round pays for, are found in the
      window if and only if the window holds as many. */
  lemma LastBlocksIff(chain: seq<Block>, window: nat, n: nat)
    requires window <= |chain| && 0 < n <= |chain|
    ensures Slice(chain, window, n, |chain| - n) == chain[|chain| - n..] <==> n <= window
  {
  }

  // ---------- the storage ----------

  class BlockStorageService {
    var memoryBlocks: seq<Block>
    var memoryBlocksById: map<BlockId, Block>
    var memoryBlocksByHeight: map<nat, Block>
    var headers: set<BlockId>
    var transactions: map<TrsId, Transaction>
    var confirmed: set<TrsId>
    /** The whole chain, most of it in the database. */
    ghost var chain: seq<Block>

    constructor ()
      ensures BlocksOk() && TransactionsOk() && chain == []
    {
      memoryBlocks, memoryBlocksById, memoryBlocksByHeight, headers := [], map[], map[], {};
      transactions, confirmed, chain := map[], {}, [];
    }

    ghost predicate Indexed()
      reads this
    {
      && IsTail(chain, memoryBlocks)
      && IndexedById(memoryBlocksById, memoryBlocks)
      && IndexedByHeight(memoryBlocksByHeight, chain, memoryBlocks)
    }

    /** The blocks in memory are the end of the chain, at most the limit, and all
        indexes agree with them. */
    ghost predicate BlocksOk()
      reads this
    {
      && ChainOk(chain) && Indexed() && |memoryBlocks| <= MEMORY_BLOCKS_LIMIT
      && headers == set k | 0 <= k < |chain| :: chain[k].id
    }

    /** The transactions in memory are those of the window; the confirmed ids those
        of the whole chain. */
    ghost predicate TransactionsOk()
      reads this
    {
      transactions.Keys == ChainIds(memoryBlocks) && confirmed == ChainIds(chain)
    }

    method DeleteFirst()
      requires ChainOk(chain) && Indexed() && memoryBlocks != []
      modifies `memoryBlocks, `memoryBlocksById, `memoryBlocksByHeight
      ensures Indexed() && memoryBlocks == old(memoryBlocks)[1..]
    {
      hide IndexedById, IndexedByHeight, ChainOk;
      var block := memoryBlocks[0];
      DropFirst(memoryBlocksById, memoryBlocksByHeight, chain, memoryBlocks);
      memoryBlocks := memoryBlocks[1..];
      memoryBlocksByHeight := memoryBlocksByHeight - {block.height};
      memoryBlocksById := memoryBlocksById - {block.id};
    }

    method DropTransactions(ts: seq<Transaction>)
      modifies `transactions
      ensures transactions == old(transactions) - Ids(ts)
    {
      for i := 0 to |ts|
        invariant transactions == old(transactions) - Ids(ts[..i])
      {
        IdsNext(ts, i);
        transactions := transactions - {ts[i].id};
      }
      assert ts[..|ts|] == ts;
    }

    lemma IdsNext(ts: seq<Transaction>, i: nat)
      requires i < |ts|
      ensures Ids(ts[..i + 1]) == Ids(ts[..i]) + {ts[i].id}
    {
      assert ts[..i + 1] == ts[..i] + [ts[i]];
    }

    /** Shorten the window to the limit, and forget the transactions that leave it. */
    method Cleanup(ghost last: set<TrsId>)
      requires ChainOk(chain) && Indexed()
      requires transactions.Keys == ChainIds(memoryBlocks) - last
      modifies `memoryBlocks, `memoryBlocksById, `memoryBlocksByHeight, `transactions
      ensures Indexed() && transactions.Keys == ChainIds(memoryBlocks) - last
      ensures |memoryBlocks| == if old(|memoryBlocks|) > 1000 then 1000 else old(|memoryBlocks|)
    {
      hide ChainIds, Ids, ChainOk, IndexedById, IndexedByHeight;
      while |memoryBlocks| > MEMORY_BLOCKS_LIMIT
        invariant Indexed() && transactions.Keys == ChainIds(memoryBlocks) - last
        invariant |memoryBlocks| == old(|memoryBlocks|) || MEMORY_BLOCKS_LIMIT <= |memoryBlocks| < old(|memoryBlocks|)
      {
        ghost var window := memoryBlocks;
        var removed := memoryBlocks[0];
        WindowFirst(chain, window);
        DeleteFirst();
        DropTransactions(removed.transactions);
      }
    }

    /** Add a block at the end of the chain, then its transactions. */
    method Push(block: Block)
      requires BlocksOk() && TransactionsOk() && ChainOk(chain + [block])
      modifies this
      ensures BlocksOk() && TransactionsOk() && chain == old(chain) + [block]
      ensures |memoryBlocks| == if old(|memoryBlocks|) == 1000 then 1000 else old(|memoryBlocks|) + 1
    {
      hide ChainIds, Ids, IndexedById, IndexedByHeight, ChainOk;
      PushFacts(chain, memoryBlocks, block);
      AddLast(memoryBlocksById, memoryBlocksByHeight, chain, memoryBlocks, block);
      HeadersAppend(chain, block);
      memoryBlocks := memoryBlocks + [block];
      memoryBlocksById := memoryBlocksById[block.id := block];
      memoryBlocksByHeight := memoryBlocksByHeight[block.height := block];
      headers := headers + {block.id};
      chain := chain + [block];
      Cleanup(Ids(block.transactions));
      AddTransactions(block.transactions);
      WindowHolds(chain, memoryBlocks);
    }

    method AddTransactions(ts: seq<Transaction>)
      modifies `transactions, `confirmed
      ensures transactions.Keys == old(transactions.Keys) + Ids(ts) && confirmed == old(confirmed) + Ids(ts)
    {
      for i := 0 to |ts|
        invariant transactions.Keys == old(transactions.Keys) + Ids(ts[..i]) && confirmed == old(confirmed) + Ids(ts[..i])
      {
        IdsNext(ts, i);
        transactions := transactions[ts[i].id := ts[i]];
        confirmed := confirmed + {ts[i].id};
      }
      assert ts[..|ts|] == ts;
    }

    /** Take the last block off, then its transactions. The window gets shorter and
        is not filled up again. */
    method PopLast()
      requires BlocksOk() && TransactionsOk() && memoryBlocks != []
      modifies this
      ensures BlocksOk() && TransactionsOk()
      ensures chain == old(chain)[..|old(chain)| - 1] && |memoryBlocks| == old(|memoryBlocks|) - 1
    {
      hide ChainIds, Ids, IndexedById, IndexedByHeight, ChainOk;
      var block := memoryBlocks[|memoryBlocks| - 1];
      PopFacts(chain, memoryBlocks);
      HeadersPop(chain);
      DropLast(memoryBlocksById, memoryBlocksByHeight, chain, memoryBlocks);
      memoryBlocks := memoryBlocks[..|memoryBlocks| - 1];
      memoryBlocksById := memoryBlocksById - {block.id};
      memoryBlocksByHeight := memoryBlocksByHeight - {block.height};
      headers := headers - {block.id};
      chain := chain[..|chain| - 1];
      DropTransactions(block.transactions);
      confirmed := confirmed - set i | 0 <= i < |block.transactions| :: block.transactions[i].id;
      IdsIndexed(block.transactions);
    }

    /** Blocks after `offset`, up to the first that is not in memory. */
    method GetMany(limit: nat, offset: nat) returns (blocks: seq<Block>)
      requires BlocksOk()
      ensures blocks == Slice(chain, |memoryBlocks|, limit, offset)
    {
      blocks := [];
      var height := offset + 1;
      while height <= offset + limit
        invariant offset + 1 <= height <= offset + limit + 1
        invariant |blocks| == height - 1 - offset
        invariant |blocks| > 0 ==> |chain| - |memoryBlocks| <= offset && offset + |blocks| <= |chain|
        invariant |blocks| > 0 ==> blocks == chain[offset..offset + |blocks|]
      {
        if height !in memoryBlocksByHeight {
          return;
        }
        blocks := blocks + [memoryBlocksByHeight[height]];
        height := height + 1;
      }
    }

    method Has(id: BlockId) returns (found: bool)
      requires BlocksOk()
      ensures found <==> exists k :: 0 <= k < |chain| && chain[k].id == id
    {
      found := id in headers;
    }
  }

  lemma IdsIndexed(ts: seq<Transaction>)
    ensures (set i | 0 <= i < |ts| :: ts[i].id) == Ids(ts)
  {
    forall id
      ensures id in (set i | 0 <= i < |ts| :: ts[i].id) <==> id in Ids(ts)
    {
      IdsAt(ts, id);
    }
  }

  lemma WindowFirst(chain: seq<Block>, window: seq<Block>)
    requires ChainOk(chain) && window != [] && IsTail(chain, window)
    ensures ChainIds(window) == Ids(window[0].transactions) + ChainIds(window[1..])
    ensures Ids(window[0].transactions) !! ChainIds(window[1..])
  {
    hide ChainIds, Ids;
    ChainIdsTail(window);
    var first := |chain| - |window|;
    forall id | id in ChainIds(window[1..])
      ensures id !in Ids(window[0].transactions)
    {
      ChainIdsAt(window[1..], id);
      var k :| 0 <= k < |window[1..]| && id in Ids(window[1..][k].transactions);
      assert window[1..][k] == chain[first + k + 1] && window[0] == chain[first];
    }
  }

  lemma PushFacts(chain: seq<Block>, window: seq<Block>, b: Block)
    requires ChainOk(chain + [b]) && IsTail(chain, window)
    ensures ChainIds(window + [b]) == ChainIds(window) + Ids(b.transactions)
    ensures ChainIds(chain + [b]) == ChainIds(chain) + Ids(b.transactions)
    ensures ChainIds(window) !! Ids(b.transactions)
    ensures b.height == |chain| + 1 && forall k :: 0 <= k < |chain| ==> chain[k].id != b.id
  {
    hide ChainIds, Ids;
    ChainIdsAppend(window, b);
    ChainIdsAppend(chain, b);
    var longer := chain + [b];
    assert longer[|chain|] == b && forall k :: 0 <= k < |chain| ==> longer[k] == chain[k];
    forall id | id in ChainIds(window)
      ensures id !in Ids(b.transactions)
    {
      ChainIdsAt(window, id);
      var k :| 0 <= k < |window| && id in Ids(window[k].transactions);
      assert window[k] == longer[|chain| - |window| + k];
    }
  }

  lemma WindowHolds(chain: seq<Block>, window: seq<Block>)
    requires IsTail(chain, window) && window != []
    ensures Ids(chain[|chain| - 1].transactions) <= ChainIds(window)
  {
    hide ChainIds, Ids;
    forall id | id in Ids(chain[|chain| - 1].transactions)
      ensures id in ChainIds(window)
    {
      ChainIdsAt(window, id);
      assert window[|window| - 1] == chain[|chain| - 1];
    }
  }

  lemma HeadersAppend(chain: seq<Block>, b: Block)
    ensures var longer := chain + [b];
      (set k | 0 <= k < |longer| :: longer[k].id) == (set k | 0 <= k < |chain| :: chain[k].id) + {b.id}
  {
    var longer := chain + [b];
    assert longer[|chain|] == b && forall k :: 0 <= k < |chain| ==> longer[k] == chain[k];
  }

  lemma HeadersPop(chain: seq<Block>)
    requires ChainOk(chain) && chain != []
    ensures var shorter := chain[..|chain| - 1];
      (set k | 0 <= k < |shorter| :: shorter[k].id) == (set k | 0 <= k < |chain| :: chain[k].id) - {chain[|chain| - 1].id}
  {
    var shorter := chain[..|chain| - 1];
    assert forall k :: 0 <= k < |shorter| ==> shorter[k] == chain[k] && chain[k].id != chain[|chain| - 1].id;
  }

  lemma PopFacts(chain: seq<Block>, window: seq<Block>)
    requires ChainOk(chain) && window != [] && IsTail(chain, window)
    ensures window[|window| - 1] == chain[|chain| - 1] && ChainOk(chain[..|chain| - 1])
    ensures ChainIds(window[..|window| - 1]) == ChainIds(window) - Ids(window[|window| - 1].transactions)
    ensures ChainIds(chain[..|chain| - 1]) == ChainIds(chain) - Ids(chain[|chain| - 1].transactions)
  {
    hide ChainIds, Ids;
    var shorter, b := chain[..|chain| - 1], chain[|chain| - 1];
    assert chain == shorter + [b];
    assert window == window[..|window| - 1] + [b];
    assert window[..|window| - 1] == shorter[|shorter| - (|window| - 1)..];
    PushFacts(shorter, window[..|window| - 1], b);
    LastApart(chain);
  }
}
