/** When restoring the rounds to a slot ends, and where. */
module Restore {
  import opened Model
  import opened Rounds
  import opened Node
  import J = Journal

  /** MAIN: going forward always ends with the slot in the current round; it only
      adds rounds and leaves the chain as it is. */
  lemma {:induction false} ForwardEnds(n: Node, slot: int, hash: Hash)
    requires NodeOk(n) && slot > LastSlot(Last(n.rounds))
    ensures var m := J.RestoreForward(n, slot, hash);
      && NodeOk(m) && m.rounds != [] && InRound(Last(m.rounds), slot)
      && m.chain == n.chain && |m.rounds| > |n.rounds|
    decreases slot - LastSlot(Last(n.rounds))
  {
    hide NodeOk, Forward, InRound;
    NodeShape(n);
    var f := Forward(n, hash);
    J.ForwardGoesOn(n, hash);
    ForwardGrows(n, hash);
    SlotInLast(f, slot);
    if slot > LastSlot(Last(f.rounds)) {
      ForwardEnds(f, slot, hash);
    }
  }

  lemma SlotInLast(f: Node, slot: int)
    requires NodeOk(f)
    ensures f.rounds != [] && Last(f.rounds) != []
    ensures Last(f.rounds)[0].slot <= slot <= LastSlot(Last(f.rounds)) ==> InRound(Last(f.rounds), slot)
  {
    LastTiled(f.rounds);
    TiledIn(Last(f.rounds), Last(f.rounds)[0].slot, slot);
  }

  lemma ForwardGrows(n: Node, hash: Hash)
    requires n.rounds != [] && n.chain != [] && Last(n.rounds) != []
    ensures Forward(n, hash).chain == n.chain && |Forward(n, hash).rounds| == |n.rounds| + 1
  {
  }

  /** Neither slot is in any round of the stack: there is nothing to stop at. */
  ghost predicate BeforeAllRounds(rounds: seq<Round>, slot: int, stop: int)
    requires rounds != [] && rounds[0] != []
  {
    slot < rounds[0][0].slot && stop < rounds[0][0].slot
  }

  /** MAIN: going back keeps a prefix of the stack; the rounds dropped lie above
      the slot and the last block; the loop ends with one of them in the current
      round unless both lie before all rounds. */
  lemma {:induction false} BackwardEnds(n: Node, slot: int, stop: int)
    requires RoundsTiled(n.rounds) && slot <= LastSlot(Last(n.rounds)) && stop <= LastSlot(Last(n.rounds))
    ensures var m := J.RestoreBackward(n, slot, stop);
      && m.rounds != [] && |m.rounds| <= |n.rounds| && m.rounds == n.rounds[..|m.rounds|] && m.chain == n.chain
      && Last(m.rounds) != [] && slot <= LastSlot(Last(m.rounds))
      && (forall i :: |m.rounds| <= i < |n.rounds| ==> n.rounds[i] != [] && slot < n.rounds[i][0].slot && stop < n.rounds[i][0].slot)
      && (InRound(Last(m.rounds), slot) || InRound(Last(m.rounds), stop) <==> !BeforeAllRounds(n.rounds, slot, stop))
    decreases |n.rounds|
  {
    hide Pay, InRound, Tiled, RoundsTiled, LastSlot;
    LastTiled(n.rounds);
    SlotBelow(n.rounds, slot);
    SlotBelow(n.rounds, stop);
    if InRound(Last(n.rounds), slot) || InRound(Last(n.rounds), stop) {
      FirstLowest(n.rounds);
    } else if |n.rounds| > 1 {
      InitTiled(n.rounds);
      BackwardEnds(Backward(n), slot, stop);
      var m := J.RestoreBackward(n, slot, stop);
      assert m.rounds == Init(n.rounds)[..|m.rounds|] == n.rounds[..|m.rounds|];
    }
  }

  /** A slot at or below the end of the stack is in the last round or before it. */
  lemma SlotBelow(rounds: seq<Round>, slot: int)
    requires RoundsTiled(rounds) && slot <= LastSlot(Last(rounds))
    ensures rounds != [] && Last(rounds) != [] && rounds[0] != []
    ensures InRound(Last(rounds), slot) <==> Last(rounds)[0].slot <= slot
    ensures |rounds| > 1 && !InRound(Last(rounds), slot) ==> Last(Init(rounds)) != [] && slot <= LastSlot(Last(Init(rounds)))
  {
    hide InRound, Tiled, LastSlot;
    LastTiled(rounds);
    TiledIn(Last(rounds), Last(rounds)[0].slot, slot);
    if |rounds| > 1 {
      InitTiled(rounds);
      LastTiled(Init(rounds));
    }
  }

  lemma {:induction false} FirstLowest(rounds: seq<Round>)
    requires RoundsTiled(rounds)
    ensures rounds[0][0].slot <= Last(rounds)[0].slot
  {
    if |rounds| > 1 {
      RoundsIncrease(rounds, 0, |rounds| - 1);
      LastTiled(rounds[..1]);
      TiledLast(rounds[0], rounds[0][0].slot);
    }
  }

  predicate LoopGoesOn(n: Node, slot: int, stop: int)
    requires n.rounds != []
  {
    !InRound(Last(n.rounds), slot) && !InRound(Last(n.rounds), stop)
  }

  /** When both slots lie before all rounds the loop reaches a state it repeats
      for ever: it goes on, and its body changes nothing. */
  lemma BackwardSpins(n: Node, slot: int, stop: int)
    requires RoundsTiled(n.rounds) && slot <= LastSlot(Last(n.rounds)) && stop <= LastSlot(Last(n.rounds))
    requires BeforeAllRounds(n.rounds, slot, stop)
    ensures var m := J.RestoreBackward(n, slot, stop);
      m.rounds != [] && LoopGoesOn(m, slot, stop) && Backward(m) == m
  {
    BackwardEnds(n, slot, stop);
    J.BackwardStops(n, slot, stop);
  }

  /** MAIN: restoring never drops a round that holds a block of the chain. */
  lemma KeepsRoundsWithBlocks(n: Node, slot: int, k: nat, i: nat)
    requires NodeOk(n) && slot <= LastSlot(Last(n.rounds)) && k < |n.chain|
    requires |J.RestoreBackward(n, slot, BlockSlot(Last(n.chain))).rounds| <= i < |n.rounds|
    ensures !InRound(n.rounds[i], BlockSlot(n.chain[k]))
  {
    J.LastBelow(n);
    var stop := BlockSlot(Last(n.chain));
    BackwardEnds(n, slot, stop);
    hide TailOfRound, FlagsMatch;
    var r := n.rounds[i];
    assert Tiled(r, r[0].slot);
    TiledIn(r, r[0].slot, BlockSlot(n.chain[k]));
    if k + 1 < |n.chain| {
      SlotsIncrease(n.chain, k, |n.chain| - 1);
    }
  }
}
