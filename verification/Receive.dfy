/** core/controller/block.ts and core/service/sync.ts: how a received block gets
    onto the chain, and when the chain stays linked. */
module Receive {
  import opened Model
  import opened Rounds
  import opened Node

  /** The check of a received block against the last one. `consensus` is whether
      enough peers share this node's last block. */
  predicate ValidateReceived(last: Block, b: Block, consensus: bool) {
    && b.id != last.id
    && b.height >= last.height
    && (b.height > last.height ==> b.height == last.height + 1 && b.previous == last.id)
    && (b.height == last.height ==> b.createdAt > last.createdAt && !consensus && b.previous == last.previous)
  }

  /** What the outside answers while a block is received: whether the database
      deleted the block it replaces, and whether the block itself was processed. */
  datatype Answers = Answers(consensus: bool, deleted: bool, processed: bool)

  /** Deleting refuses the first block, and stops when the database fails. */
  function AfterDelete(chain: seq<Block>, deleted: bool): seq<Block>
    requires chain != []
  {
    if Last(chain).height != 1 && deleted then Init(chain) else chain
  }

  /** The chain that a block is processed on: the answer of the delete is not looked at. */
  function Base(chain: seq<Block>, b: Block, deleted: bool): seq<Block>
    requires chain != []
  {
    if b.height == Last(chain).height then AfterDelete(chain, deleted) else chain
  }

  function OnReceive(chain: seq<Block>, b: Block, answers: Answers): seq<Block>
    requires chain != []
  {
    if !ValidateReceived(Last(chain), b, answers.consensus) then chain
    else
      var base := Base(chain, b, answers.deleted);
      if answers.processed then base + [b] else base
  }

  /** A processed block has a later slot than the last one; nothing else about
      heights or previous ids is looked at there. */
  predicate Processable(base: seq<Block>, b: Block) {
    base != [] && BlockSlot(b) > BlockSlot(Last(base))
  }

  lemma LinkedInit(chain: seq<Block>)
    requires Linked(chain) && |chain| > 1
    ensures Linked(Init(chain))
  {
  }

  lemma LinkedMore(base: seq<Block>, b: Block)
    requires Linked(base)
    ensures Linked(base + [b]) <==>
              b.height == Last(base).height + 1 && b.previous == Last(base).id && BlockSlot(b) > BlockSlot(Last(base))
  {
    var longer := base + [b];
    assert longer[|base|] == b && longer[|base| - 1] == Last(base);
    assert forall i :: 0 <= i < |base| ==> longer[i] == base[i];
    if Linked(longer) {
      var i := |base|;
      assert 0 < i < |longer|;
    }
  }

  /** The replaced block is really gone. */
  predicate Replaced(chain: seq<Block>, deleted: bool) {
    |chain| > 1 && deleted
  }

  /** MAIN: after a received block was processed the chain is linked if and only if
      the block was the next one, or the block it replaces was deleted. */
  lemma LinkedIff(chain: seq<Block>, b: Block, answers: Answers)
    requires Linked(chain) && ValidateReceived(Last(chain), b, answers.consensus)
    requires answers.processed ==> Processable(Base(chain, b, answers.deleted), b)
    ensures Linked(OnReceive(chain, b, answers)) <==>
              !answers.processed || b.height == Last(chain).height + 1 || Replaced(chain, answers.deleted)
  {
    HeightsCount(chain, |chain| - 1);
    var base := Base(chain, b, answers.deleted);
    if b.height == Last(chain).height && Replaced(chain, answers.deleted) {
      LinkedInit(chain);
      assert chain[|chain| - 1].previous == chain[|chain| - 2].id;
    }
    hide Linked;
    LinkedMore(base, b);
  }

  /** MAIN: a received block is only ever put behind the last one, as its child, or in
      its place, as a later child of the same parent; and in its place only while the
      node does not agree with its peers. */
  lemma ReceivedWhere(chain: seq<Block>, b: Block, answers: Answers)
    requires Linked(chain)
    ensures var last := chain[|chain| - 1];
      var next := b.height == last.height + 1 && b.previous == last.id && b.id != last.id;
      var instead := b.height == last.height && b.previous == last.previous && b.id != last.id
                     && b.createdAt > last.createdAt && !answers.consensus;
      var kept := if instead && answers.deleted && |chain| > 1 then chain[..|chain| - 1] else chain;
      OnReceive(chain, b, answers) ==
        if !next && !instead then chain
        else if answers.processed then kept + [b]
        else kept
  {
    HeightsCount(chain, |chain| - 1);
  }

  /** A database that fails to delete leaves both blocks on the chain. */
  lemma FailedDeleteForks(first: Block, last: Block, b: Block)
    requires Linked([first, last])
    requires b.id != last.id && b.height == 2 && b.previous == last.previous && b.createdAt > last.createdAt
    requires BlockSlot(b) > BlockSlot(last)
    ensures var chain := OnReceive([first, last], b, Answers(false, false, true));
      chain == [first, last, b] && !Linked(chain)
  {
    LinkedIff([first, last], b, Answers(false, false, true));
  }

  // ---------- synchronising ----------

  /** Requested blocks are processed one after the other; the first that is refused
      ends it. A block of equal height passes the check, and nothing is deleted. */
  function SaveRequested(chain: seq<Block>, bs: seq<Block>, answers: seq<Answers>): seq<Block>
    requires chain != [] && |answers| == |bs|
    decreases |bs|
  {
    if bs == [] || !ValidateReceived(Last(chain), bs[0], answers[0].consensus) || !answers[0].processed then chain
    else SaveRequested(chain + [bs[0]], bs[1..], answers[1..])
  }

  /** Every block that is saved is the next one at that point. */
  predicate SavesNext(chain: seq<Block>, bs: seq<Block>, answers: seq<Answers>)
    requires chain != [] && |answers| == |bs|
    decreases |bs|
  {
    if bs == [] || !ValidateReceived(Last(chain), bs[0], answers[0].consensus) || !answers[0].processed then true
    else bs[0].height == Last(chain).height + 1 && SavesNext(chain + [bs[0]], bs[1..], answers[1..])
  }

  predicate AllProcessable(chain: seq<Block>, bs: seq<Block>, answers: seq<Answers>)
    requires chain != [] && |answers| == |bs|
    decreases |bs|
  {
    bs == [] || !answers[0].processed ||
    (Processable(chain, bs[0]) && AllProcessable(chain + [bs[0]], bs[1..], answers[1..]))
  }

  /** A chain once broken stays broken. */
  lemma {:induction false} BrokenStays(chain: seq<Block>, bs: seq<Block>, answers: seq<Answers>)
    requires chain != [] && !Linked(chain) && |answers| == |bs|
    ensures !Linked(SaveRequested(chain, bs, answers))
    decreases |bs|
  {
    if bs == [] || !ValidateReceived(Last(chain), bs[0], answers[0].consensus) || !answers[0].processed {
    } else {
      if Linked(chain + [bs[0]]) {
        PrefixLinked(chain, bs[0]);
      }
      BrokenStays(chain + [bs[0]], bs[1..], answers[1..]);
    }
  }

  lemma PrefixLinked(chain: seq<Block>, b: Block)
    requires chain != [] && Linked(chain + [b])
    ensures Linked(chain)
  {
    LinkedInit(chain + [b]);
    assert Init(chain + [b]) == chain;
  }

  /** MAIN: synchronising keeps the chain linked if and only if no saved block
      repeats the height of the one before it. */
  lemma {:induction false} SyncLinkedIff(chain: seq<Block>, bs: seq<Block>, answers: seq<Answers>)
    requires Linked(chain) && |answers| == |bs| && AllProcessable(chain, bs, answers)
    ensures Linked(SaveRequested(chain, bs, answers)) <==> SavesNext(chain, bs, answers)
    decreases |bs|
  {
    if bs == [] || !ValidateReceived(Last(chain), bs[0], answers[0].consensus) || !answers[0].processed {
    } else {
      LinkedMore(chain, bs[0]);
      if bs[0].height == Last(chain).height + 1 {
        SyncLinkedIff(chain + [bs[0]], bs[1..], answers[1..]);
      } else {
        BrokenStays(chain + [bs[0]], bs[1..], answers[1..]);
      }
    }
  }
}
