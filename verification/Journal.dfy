/** Runs of the node: whatever it appends, deletes, closes and restores, its
    state is that of one straight journal. */
module Journal {
  import opened Model
  import opened Blocks
  import opened BlockRuns
  import opened Rounds
  import opened Node
  import M = Made

  /** What can be added to a state, and what can be taken back. */
  datatype Event = Appended(block: Block) | Closed

  ghost predicate LegalEvent(n: Node, e: Event) {
    n.rounds != [] && n.chain != [] && Last(n.rounds) != [] &&
    (e.Appended? ==> Legal(n, e.block))
  }

  ghost function Step(n: Node, e: Event, hash: Hash): Node {
    if !LegalEvent(n, e) then n
    else if e.Appended? then Append(n, e.block)
    else Forward(n, hash)
  }

  ghost function Replay(n: Node, j: seq<Event>, hash: Hash): Node {
    if j == [] then n else Step(Replay(n, Init(j), hash), Last(j), hash)
  }

  ghost predicate LegalJournal(n: Node, j: seq<Event>, hash: Hash) {
    j == [] || (LegalJournal(n, Init(j), hash) && LegalEvent(Replay(n, Init(j), hash), Last(j)))
  }

  lemma StepOk(n: Node, e: Event, hash: Hash)
    requires NodeOk(n) && LegalEvent(n, e)
    ensures NodeOk(Step(n, e, hash))
  {
    hide NodeOk, Legal, Append, Forward;
    if e.Appended? {
      AppendOk(n, e.block);
    } else {
      ForwardOk(n, hash);
    }
  }

  lemma {:induction false} ReplayOk(n: Node, j: seq<Event>, hash: Hash)
    requires NodeOk(n) && LegalJournal(n, j, hash)
    ensures NodeOk(Replay(n, j, hash))
  {
    hide NodeOk, Step, LegalEvent;
    if j != [] {
      ReplayOk(n, Init(j), hash);
      StepOk(Replay(n, Init(j), hash), Last(j), hash);
    }
  }

  lemma ClosedLegal(n: Node)
    requires NodeOk(n)
    ensures LegalEvent(n, Closed)
  {
    NodeShape(n);
  }

  // ---------- the operations of the node ----------

  /** The loop of `restoreToSlot` towards a later slot. */
  ghost function RestoreForward(n: Node, slot: int, hash: Hash): Node
    requires Running(n)
    decreases slot - LastSlot(Last(n.rounds))
  {
    if slot <= LastSlot(Last(n.rounds)) then n
    else
      ForwardRuns(n, hash);
      RestoreForward(Forward(n, hash), slot, hash)
  }

  lemma ForwardGoesOn(n: Node, hash: Hash)
    requires NodeOk(n)
    ensures NodeOk(Forward(n, hash))
    ensures LastSlot(Last(Forward(n, hash).rounds)) > LastSlot(Last(n.rounds))
    ensures Last(Forward(n, hash).rounds)[0].slot == LastSlot(Last(n.rounds)) + 1
  {
    ForwardOk(n, hash);
    hide NodeOk, Forward;
    NextRoundIs(n, hash);
    var r := NextRound(n, hash);
    TiledLast(r, r[0].slot);
  }

  /** The loop towards an earlier slot: it stops at the round of the last block. */
  ghost function RestoreBackward(n: Node, slot: int, stop: int): Node
    decreases |n.rounds|
  {
    if |n.rounds| <= 1 || InRound(Last(n.rounds), slot) || InRound(Last(n.rounds), stop) then n
    else RestoreBackward(Backward(n), slot, stop)
  }

  ghost function Restore(n: Node, slot: int, hash: Hash): Node
    requires Running(n)
  {
    if InRound(Last(n.rounds), slot) then n
    else if slot > LastSlot(Last(n.rounds)) then RestoreForward(n, slot, hash)
    else RestoreBackward(n, slot, BlockSlot(Last(n.chain)))
  }

  /** Deleting the last block first restores its round; the first block stays. */
  ghost function Delete(n: Node, hash: Hash): Node
    requires Running(n)
  {
    if Last(n.chain).height == 1 then n
    else
      var m := Restore(n, BlockSlot(Last(n.chain)), hash);
      if m.rounds != [] && m.chain != [] then RemoveLast(m) else m
  }

  /** What can happen to a node: a block passes all checks or is refused, a round
      ends by the clock, the rounds are restored to a slot, a block is deleted. */
  datatype Op = Receive(block: Block) | RoundFinish | RestoreTo(slot: int) | DeleteLast

  ghost function Do(n: Node, op: Op, hash: Hash): Node
    requires NodeOk(n)
  {
    match op
    case Receive(b) => if Legal(n, b) then Append(n, b) else n
    case RoundFinish => Forward(n, hash)
    case RestoreTo(slot) => Restore(n, slot, hash)
    case DeleteLast => Delete(n, hash)
  }

  /** `n` is the state that some legal journal leads to. */
  ghost predicate Journaled(start: Node, n: Node, hash: Hash) {
    exists j :: LegalJournal(start, j, hash) && Replay(start, j, hash) == n
  }

  /** A node with nothing but its first block and one round. */
  ghost predicate IsStart(n: Node) {
    NodeOk(n) && |n.chain| == 1 && |n.rounds| == 1
  }

  /** The last block can be undone: its transactions are regular on what the chain
      before it made. */
  ghost predicate Removable(start: Node, chain: seq<Block>) {
    |chain| > 1 ==> AllRegular(M.MadeBy(start.ledger, Init(chain)), Last(chain).transactions)
  }

  lemma {:induction false} ExtendJournal(start: Node, j: seq<Event>, e: Event, hash: Hash)
    requires LegalJournal(start, j, hash) && LegalEvent(Replay(start, j, hash), e)
    ensures LegalJournal(start, j + [e], hash)
    ensures Replay(start, j + [e], hash) == Step(Replay(start, j, hash), e, hash)
  {
    hide LegalEvent, Step;
    assert Init(j + [e]) == j && Last(j + [e]) == e;
  }

  lemma {:induction false} ForwardJournaled(start: Node, n: Node, slot: int, hash: Hash)
    requires NodeOk(n) && Journaled(start, n, hash)
    ensures Journaled(start, RestoreForward(n, slot, hash), hash)
    ensures NodeOk(RestoreForward(n, slot, hash))
    decreases slot - LastSlot(Last(n.rounds))
  {
    hide NodeOk, Forward, LegalEvent;
    NodeShape(n);
    if slot > LastSlot(Last(n.rounds)) {
      ForwardGoesOn(n, hash);
      OneClose(start, n, hash);
      ForwardJournaled(start, Forward(n, hash), slot, hash);
    }
  }

  lemma OneClose(start: Node, n: Node, hash: Hash)
    requires NodeOk(n) && Journaled(start, n, hash)
    ensures Journaled(start, Forward(n, hash), hash)
  {
    hide NodeOk, Forward, LegalEvent, LegalJournal, Replay;
    ClosedLegal(n);
    var j :| LegalJournal(start, j, hash) && Replay(start, j, hash) == n;
    ExtendJournal(start, j, Closed, hash);
    StepClosed(n, hash);
  }

  lemma StepClosed(n: Node, hash: Hash)
    requires LegalEvent(n, Closed)
    ensures n.rounds != [] && n.chain != [] && Last(n.rounds) != []
    ensures Step(n, Closed, hash) == Forward(n, hash)
  {
  }

  /** The last event decides what the current round holds: an appended block is
      in it, a close leaves it empty. */
  lemma {:induction false} TopEvent(start: Node, j: seq<Event>, hash: Hash)
    requires IsStart(start) && LegalJournal(start, j, hash) && j != []
    ensures var n, m := Replay(start, j, hash), Replay(start, Init(j), hash);
      && NodeOk(m) && NodeOk(n)
      && (Last(j).Appended? ==>
            && Legal(m, Last(j).block) && n == Append(m, Last(j).block)
            && Last(n.chain) == Last(j).block && InRound(Last(n.rounds), BlockSlot(Last(n.chain))))
      && (Last(j).Closed? ==> n == Forward(m, hash) && Backward(n) == m)
  {
    var m := Replay(start, Init(j), hash);
    ReplayOk(start, Init(j), hash);
    StepOk(m, Last(j), hash);
    hide NodeOk, LegalJournal;
    NodeShape(m);
    if Last(j).Closed? {
      BackwardUndoesForward(m, hash);
    } else {
      AppendInRound(m, Last(j).block);
    }
  }

  lemma AppendInRound(m: Node, b: Block)
    requires NodeOk(m) && Legal(m, b)
    ensures Append(m, b).chain != [] && Last(Append(m, b).chain) == b
    ensures Append(m, b).rounds != [] && InRound(Last(Append(m, b).rounds), BlockSlot(b))
  {
    hide NodeOk;
    NodeShape(m);
    var r := Last(m.rounds);
    var p :| 0 <= p < |r| && r[p].generator == b.generator && r[p].slot == BlockSlot(b);
    assert Mark(r, b.generator, true)[p].slot == BlockSlot(b);
  }

  lemma {:induction false} StartShape(start: Node, j: seq<Event>, hash: Hash)
    requires IsStart(start) && LegalJournal(start, j, hash)
    ensures j == [] ==> |Replay(start, j, hash).rounds| == 1
  {
  }

  /** With the last block outside the current round, the last event was a close. */
  lemma BackStep(start: Node, n: Node, hash: Hash)
    requires IsStart(start) && NodeOk(n) && Journaled(start, n, hash)
    requires n.rounds != [] && n.chain != []
    requires |n.rounds| > 1 && !InRound(Last(n.rounds), BlockSlot(Last(n.chain)))
    ensures NodeOk(Backward(n)) && Journaled(start, Backward(n), hash)
  {
    hide NodeOk, Forward, LegalEvent, InRound, Pay, ForgedCount, Replay, LegalJournal, IsStart;
    var j :| LegalJournal(start, j, hash) && Replay(start, j, hash) == n;
    StartShape(start, j, hash);
    TopEvent(start, j, hash);
    InitLegal(start, j, hash);
  }

  lemma {:induction false} BackwardJournaled(start: Node, n: Node, slot: int, hash: Hash)
    requires IsStart(start) && NodeOk(n) && Journaled(start, n, hash)
    ensures var m := RestoreBackward(n, slot, BlockSlot(Last(n.chain)));
      Journaled(start, m, hash) && NodeOk(m) && m.chain == n.chain
    decreases |n.rounds|
  {
    hide NodeOk, InRound, Pay, Journaled, IsStart;
    NodeShape(n);
    if |n.rounds| > 1 && !InRound(Last(n.rounds), slot) && !InRound(Last(n.rounds), BlockSlot(Last(n.chain))) {
      BackStep(start, n, hash);
      BackwardJournaled(start, Backward(n), slot, hash);
    }
  }

  lemma InitLegal(start: Node, j: seq<Event>, hash: Hash)
    requires LegalJournal(start, j, hash) && j != []
    ensures LegalJournal(start, Init(j), hash)
  {
  }

  lemma {:induction false} BackwardStops(n: Node, slot: int, stop: int)
    ensures var m := RestoreBackward(n, slot, stop);
      |m.rounds| <= 1 || InRound(Last(m.rounds), slot) || InRound(Last(m.rounds), stop)
    decreases |n.rounds|
  {
    if |n.rounds| <= 1 || InRound(Last(n.rounds), slot) || InRound(Last(n.rounds), stop) {
    } else {
      BackwardStops(Backward(n), slot, stop);
    }
  }

  lemma LastBelow(n: Node)
    requires NodeOk(n)
    ensures BlockSlot(Last(n.chain)) <= LastSlot(Last(n.rounds))
    ensures Last(n.chain).height == |n.chain|
  {
    hide FlagsMatch, GeneratorsKnown;
    LastTiled(n.rounds);
    ChainBelow(n.chain, Last(n.rounds), |n.chain| - 1);
    HeightsCount(n.chain, |n.chain| - 1);
  }

  /** A freshly generated round holds no block. */
  lemma FreshRoundEmpty(m: Node, hash: Hash)
    requires NodeOk(m)
    ensures !InRound(Last(Forward(m, hash).rounds), BlockSlot(Last(Forward(m, hash).chain)))
  {
    LastBelow(m);
    NextRoundIs(m, hash);
    hide NodeOk, Generate, Pay;
    var r := NextRound(m, hash);
    TiledIn(r, r[0].slot, BlockSlot(Last(m.chain)));
  }

  // ---------- the ledger without what rounds paid ----------

  lemma AppendMade(start: Node, m: Node, b: Block)
    requires m.rounds != [] && m.chain != [] && M.SameMade(m.ledger, M.MadeBy(start.ledger, m.chain))
    ensures M.SameMade(Append(m, b).ledger, M.MadeBy(start.ledger, Append(m, b).chain))
  {
    hide M.SameMade, ApplyBlock, MarkLast;
    M.BlockSame(m.ledger, M.MadeBy(start.ledger, m.chain), b.transactions);
    assert (m.chain + [b])[..|m.chain|] == m.chain;
  }

  lemma ForwardMade(start: Node, m: Node, hash: Hash)
    requires m.rounds != [] && m.chain != [] && Last(m.rounds) != []
    requires M.SameMade(m.ledger, M.MadeBy(start.ledger, m.chain))
    ensures M.SameMade(Forward(m, hash).ledger, M.MadeBy(start.ledger, Forward(m, hash).chain))
  {
    hide Pay, Generate;
    M.PaySame(m.ledger, Last(m.rounds), m.chain, 1);
    hide M.SameMade, M.MadeBy;
    SameBack(m.ledger, Pay(m.ledger, Last(m.rounds), m.chain, 1));
    M.SameThrough(Pay(m.ledger, Last(m.rounds), m.chain, 1), m.ledger, M.MadeBy(start.ledger, m.chain));
  }

  lemma SameBack(l: Ledger, m: Ledger)
    requires M.SameMade(l, m)
    ensures M.SameMade(m, l)
  {
    hide Acc;
  }

  /** All but balances and the counters of blocks is what the chain made. */
  lemma {:induction false} JournalMade(start: Node, j: seq<Event>, hash: Hash)
    requires |start.chain| == 1 && LegalJournal(start, j, hash)
    ensures M.SameMade(Replay(start, j, hash).ledger, M.MadeBy(start.ledger, Replay(start, j, hash).chain))
  {
    hide Forward, Append, Legal, M.SameMade;
    if j != [] {
      var m := Replay(start, Init(j), hash);
      JournalMade(start, Init(j), hash);
      if Last(j).Appended? {
        AppendMade(start, m, Last(j).block);
      } else {
        ForwardMade(start, m, hash);
      }
    } else {
      MadeStart(start.ledger);
    }
  }

  lemma MadeStart(l: Ledger)
    ensures M.SameMade(l, l)
  {
  }

  /** A regular block was regular where the journal appended it. */
  lemma RegularWhereAppended(start: Node, j: seq<Event>, b: Block, hash: Hash)
    requires |start.chain| == 1 && LegalJournal(start, j, hash) && Replay(start, j, hash).chain != []
    requires Removable(start, Replay(start, j, hash).chain + [b])
    ensures AllRegular(Replay(start, j, hash).ledger, b.transactions)
  {
    hide Replay, LegalJournal, AllRegular, M.SameMade, M.MadeBy;
    var m := Replay(start, j, hash);
    JournalMade(start, j, hash);
    assert Init(m.chain + [b]) == m.chain && Last(m.chain + [b]) == b;
    M.RegularSame(m.ledger, M.MadeBy(start.ledger, m.chain), b.transactions);
  }

  /** When the last block is in the current round, it was the last event. */
  lemma TopIsAppended(start: Node, j: seq<Event>, hash: Hash)
    requires IsStart(start) && LegalJournal(start, j, hash)
    requires var n := Replay(start, j, hash);
      NodeOk(n) && |n.chain| > 1 && (|n.rounds| <= 1 || InRound(Last(n.rounds), BlockSlot(Last(n.chain))))
    ensures j != [] && Last(j).Appended? && NodeOk(Replay(start, Init(j), hash))
    ensures Removable(start, Replay(start, j, hash).chain) ==>
              RemoveLast(Replay(start, j, hash)) == Replay(start, Init(j), hash)
              && AllRegular(Replay(start, Init(j), hash).ledger, Last(j).block.transactions)
  {
    StartLengths(start, j, hash);
    hide NodeOk, Replay, LegalJournal, Forward, Append, RemoveLast, Legal, Removable, AllRegular;
    TopEvent(start, j, hash);
    var m := Replay(start, Init(j), hash);
    if Last(j).Closed? {
      FreshRoundEmpty(m, hash);
      ClosesGrow(m, hash);
    } else if Removable(start, Replay(start, j, hash).chain) {
      NodeShape(m);
      InitLegal(start, j, hash);
      AppendChain(m, Last(j).block);
      RegularWhereAppended(start, Init(j), Last(j).block, hash);
      RemoveUndoesAppend(m, Last(j).block);
    }
  }

  lemma AppendChain(m: Node, b: Block)
    requires m.rounds != []
    ensures Append(m, b).chain == m.chain + [b]
  {
  }

  lemma ClosesGrow(m: Node, hash: Hash)
    requires NodeOk(m)
    ensures |Forward(m, hash).rounds| == |m.rounds| + 1 >= 2
  {
  }

  lemma {:induction false} StartLengths(start: Node, j: seq<Event>, hash: Hash)
    requires IsStart(start)
    ensures |Replay(start, j, hash).chain| > 1 ==> j != []
  {
  }

  /** Deleting takes one regular block off the journal, and the closes after it. */
  lemma DeleteJournaled(start: Node, n: Node, hash: Hash)
    requires IsStart(start) && NodeOk(n) && Journaled(start, n, hash) && Removable(start, n.chain)
    ensures Journaled(start, Delete(n, hash), hash) && NodeOk(Delete(n, hash))
    ensures |n.chain| > 1 ==> Delete(n, hash).chain == Init(n.chain)
  {
    hide NodeOk, Replay, LegalJournal, Forward, Append, RemoveLast, IsStart, Legal, RestoreBackward, RestoreForward, Removable;
    NodeShape(n);
    LastBelow(n);
    if |n.chain| > 1 {
      var slot := BlockSlot(Last(n.chain));
      var m := Restore(n, slot, hash);
      if !InRound(Last(n.rounds), slot) {
        BackwardJournaled(start, n, slot, hash);
        BackwardStops(n, slot, slot);
      }
      NodeShape(m);
      var j :| LegalJournal(start, j, hash) && Replay(start, j, hash) == m;
      TopIsAppended(start, j, hash);
      InitLegal(start, j, hash);
      RemoveChain(m);
    }
  }

  lemma RemoveChain(m: Node)
    requires m.rounds != [] && m.chain != []
    ensures RemoveLast(m).chain == Init(m.chain)
  {
  }

  lemma ReceiveJournaled(start: Node, n: Node, b: Block, hash: Hash)
    requires NodeOk(n) && Journaled(start, n, hash) && Legal(n, b)
    ensures Journaled(start, Append(n, b), hash) && NodeOk(Append(n, b))
  {
    hide NodeOk, Append, Legal, LegalJournal, Replay;
    NodeShape(n);
    AppendOk(n, b);
    var j :| LegalJournal(start, j, hash) && Replay(start, j, hash) == n;
    ExtendJournal(start, j, Appended(b), hash);
    assert Step(n, Appended(b), hash) == Append(n, b);
  }

  lemma DoJournaled(start: Node, n: Node, op: Op, hash: Hash)
    requires IsStart(start) && NodeOk(n) && Journaled(start, n, hash)
    requires op.DeleteLast? ==> Removable(start, n.chain)
    ensures NodeOk(Do(n, op, hash)) && Journaled(start, Do(n, op, hash), hash)
  {
    hide NodeOk, Journaled, Forward, Append, Legal, Delete, RestoreForward, RestoreBackward, IsStart, Removable;
    match op
    case Receive(b) =>
      NodeShape(n);
      if Legal(n, b) {
        ReceiveJournaled(start, n, b, hash);
      }
    case RoundFinish =>
      ForwardGoesOn(n, hash);
      OneClose(start, n, hash);
    case RestoreTo(slot) =>
      NodeShape(n);
      if slot > LastSlot(Last(n.rounds)) {
        ForwardJournaled(start, n, slot, hash);
      } else {
        BackwardJournaled(start, n, slot, hash);
      }
    case DeleteLast => DeleteJournaled(start, n, hash);
  }

  /** The run deletes only blocks that can be undone; it may append others. */
  ghost predicate Careful(start: Node, ops: seq<Op>, hash: Hash)
    requires IsStart(start)
    decreases |ops|, 0
  {
    ops == [] ||
    (Careful(start, Init(ops), hash) &&
     (Last(ops).DeleteLast? ==> Removable(start, Run(start, Init(ops), hash).chain)))
  }

  ghost function Run(start: Node, ops: seq<Op>, hash: Hash): Node
    requires IsStart(start) && Careful(start, ops, hash)
    ensures NodeOk(Run(start, ops, hash)) && Journaled(start, Run(start, ops, hash), hash)
    decreases |ops|, 1
  {
    if ops == [] then
      StartJournaled(start, hash);
      start
    else
      DoJournaled(start, Run(start, Init(ops), hash), Last(ops), hash);
      Do(Run(start, Init(ops), hash), Last(ops), hash)
  }

  lemma StartJournaled(start: Node, hash: Hash)
    ensures Journaled(start, start, hash)
  {
    assert LegalJournal(start, [], hash) && Replay(start, [], hash) == start;
  }
}
