/** The node while transactions are pooled: what each of its steps does to the state
    below the pool, and exactly when that is the step of a node without a pool. */
module PooledNode {
  import opened Model
  import opened Transactions
  import opened Blocks
  import opened Rounds
  import opened Node
  import opened Journal
  import opened Pool
  import opened PoolOrder
  import opened UnderPool

  /** The node once its pool is taken back: the state of the chain alone. */
  function Below(n: Node, p: seq<Transaction>): Node {
    Node(n.chain, n.rounds, UndoAll(n.ledger, p))
  }

  // ---------- rounds ----------

  /** No pooled new delegate ranks among those that forge. */
  ghost predicate Idle(ds: map<Address, Delegate>, height: nat, p: seq<Transaction>) {
    forall i :: 0 <= i < |p| && p[i].asset.NewDelegate? ==> p[i].sender !in ActiveDelegates(ds, height)
  }

  function Take(s: seq<Address>, n: nat): seq<Address> {
    if |s| <= n then s else s[..n]
  }

  /** The first of a smaller ranking, as long as none of them is missing there. */
  lemma {:induction false} RankedPrefix(ds: map<Address, Delegate>, es: map<Address, Delegate>, s: set<Address>, t: set<Address>, n: nat)
    requires s <= ds.Keys && t <= es.Keys && t <= s
    requires forall d :: d in t ==> ds[d].confirmedVoteCount == es[d].confirmedVoteCount
    requires forall d :: d in Take(Ranked(ds, s), n) ==> d in t
    ensures Take(Ranked(ds, s), n) == Take(Ranked(es, t), n)
    decreases n, |s|
  {
    hide IsFirst, Before;
    if s == {} {
    } else if n == 0 {
    } else {
      var a := FirstOf(ds, s);
      var rest := Ranked(ds, s - {a});
      assert Ranked(ds, s) == [a] + rest;
      assert Take(Ranked(ds, s), n)[0] == a;
      FirstThere(ds, es, s, t, a);
      FirstUnique(es, t, a, FirstOf(es, t));
      forall d | d in Take(rest, n - 1)
        ensures d in t - {a}
      {
        var i :| 0 <= i < |Take(rest, n - 1)| && Take(rest, n - 1)[i] == d;
        assert Take(Ranked(ds, s), n)[i + 1] == d;
        RankedIs(ds, s - {a});
        assert d in rest;
      }
      RankedPrefix(ds, es, s - {a}, t - {a}, n - 1);
    }
  }

  lemma FirstThere(ds: map<Address, Delegate>, es: map<Address, Delegate>, s: set<Address>, t: set<Address>, a: Address)
    requires s <= ds.Keys && t <= es.Keys && t <= s && a in t && IsFirst(ds, s, a)
    requires forall d :: d in t ==> ds[d].confirmedVoteCount == es[d].confirmedVoteCount
    ensures IsFirst(es, t, a)
  {
    forall b | b in t
      ensures Before(es, a, b)
    {
      assert Before(ds, a, b);
    }
  }

  lemma ActiveIsTake(ds: map<Address, Delegate>, height: nat)
    ensures ActiveDelegates(ds, height) == Take(Ranked(ds, ds.Keys), ActiveDelegatesCount(height))
    ensures forall d :: d in ActiveDelegates(ds, height) ==> d in ds
  {
    ActiveKnown(ds, height);
  }

  /** Fewer delegates forge the same as long as none that forges is missing. */
  lemma ActiveSame(ds: map<Address, Delegate>, es: map<Address, Delegate>, height: nat)
    requires es.Keys <= ds.Keys && forall d :: d in es ==> ds[d].confirmedVoteCount == es[d].confirmedVoteCount
    ensures ActiveDelegates(ds, height) == ActiveDelegates(es, height) <==>
              forall d :: d in ActiveDelegates(ds, height) ==> d in es
  {
    hide ActiveDelegates, Ranked;
    ActiveIsTake(ds, height);
    ActiveIsTake(es, height);
    if forall d :: d in ActiveDelegates(ds, height) ==> d in es {
      RankedPrefix(ds, es, ds.Keys, es.Keys, ActiveDelegatesCount(height));
    }
  }

  lemma CountsBelow(l: Ledger, p: seq<Transaction>)
    ensures UndoAll(l, p).delegates.Keys <= l.delegates.Keys
    ensures forall d :: d in UndoAll(l, p).delegates ==>
              l.delegates[d].confirmedVoteCount == UndoAll(l, p).delegates[d].confirmedVoteCount
  {
    hide UndoAll, Any, Sum;
    forall d {
      UndoAllDelegates(l, p, d);
    }
  }

  lemma IdleIff(l: Ledger, p: seq<Transaction>, height: nat)
    requires AllReady(l, p)
    ensures Idle(l.delegates, height, p) <==> forall d :: d in ActiveDelegates(l.delegates, height) ==> d in UndoAll(l, p).delegates
  {
    hide UndoAll, AllReady, ActiveDelegates;
    ActiveIsTake(l.delegates, height);
    forall d
      ensures d in UndoAll(l, p).delegates <==> d in l.delegates && !Any(p, Makes(d))
    {
      UndoAllDelegates(l, p, d);
    }
    if i :| 0 <= i < |p| && p[i].asset.NewDelegate? && p[i].sender in ActiveDelegates(l.delegates, height) {
      assert Makes(p[i].sender)(p[i]);
    }
  }

  /** MAIN: the round generated over the pool is that of the chain if and only if no
      pooled new delegate ranks among those that forge. */
  lemma GenerateBelowIff(l: Ledger, p: seq<Transaction>, height: nat, hash: Hash, id: BlockId, first: int)
    requires AllReady(l, p) && UndoAll(l, p).delegates != map[]
    ensures Generate(l.delegates, height, hash, id, first) == Generate(UndoAll(l, p).delegates, height, hash, id, first)
       <==> Idle(l.delegates, height, p)
  {
    hide UndoAll, AllReady, ActiveDelegates, Idle;
    var ds, es := l.delegates, UndoAll(l, p).delegates;
    CountsBelow(l, p);
    IdleIff(l, p, height);
    ActiveSame(ds, es, height);
    if Generate(ds, height, hash, id, first) == Generate(es, height, hash, id, first) {
      assert es.Keys != {};
      assert ds.Keys != {};
      SameGenerators(ds, es, height, hash, id, first);
    }
  }

  lemma SameGenerators(ds: map<Address, Delegate>, es: map<Address, Delegate>, height: nat, hash: Hash, id: BlockId, first: int)
    requires ds != map[] && es != map[]
    requires Generate(ds, height, hash, id, first) == Generate(es, height, hash, id, first)
    ensures forall d :: d in ActiveDelegates(ds, height) ==> d in es
  {
    hide ActiveDelegates, Generate;
    GenerateTiles(ds, height, hash, id, first);
    GenerateTiles(es, height, hash, id, first);
    ActiveIsTake(es, height);
  }

  /** Paying changes no rank. */
  lemma PayRanks(l: Ledger, r: Round, chain: seq<Block>, k: int, height: nat)
    ensures ActiveDelegates(Pay(l, r, chain, k).delegates, height) == ActiveDelegates(l.delegates, height)
  {
    hide ActiveDelegates;
    var ds := Pay(l, r, chain, k).delegates;
    assert ds.Keys == l.delegates.Keys && forall d :: d in ds ==> ds[d].confirmedVoteCount == l.delegates[d].confirmedVoteCount;
    ActiveSame(l.delegates, ds, height);
    ActiveIsTake(l.delegates, height);
  }

  /** Closing a round under the pool. */
  lemma ForwardBelowIff(n: Node, p: seq<Transaction>, hash: Hash)
    requires Running(n) && Running(Below(n, p)) && AllReady(n.ledger, p)
    ensures n.rounds != [] && n.chain != [] && Last(n.rounds) != []
    ensures Below(Forward(n, hash), p) == Forward(Below(n, p), hash) <==> Idle(n.ledger.delegates, Last(n.chain).height, p)
    ensures AllReady(Forward(n, hash).ledger, p)
  {
    hide UndoAll, AllReady, Pay, Generate, Idle, ActiveDelegates, LastSlot;
    RunningShape(n);
    RunningNormal(n);
    var r, height := Last(n.rounds), Last(n.chain).height;
    var paid := Pay(n.ledger, r, n.chain, 1);
    PayUnderPool(n.ledger, p, r, n.chain, 1);
    PayRanks(n.ledger, r, n.chain, 1, height);
    SameIdle(paid.delegates, n.ledger.delegates, height, p);
    assert UndoAll(paid, p).delegates != map[] by {
      RunningShape(Below(n, p));
      PayKeysSame(UndoAll(n.ledger, p), r, n.chain, 1);
    }
    GenerateBelowIff(paid, p, height, hash, Last(n.chain).id, LastSlot(r) + 1);
    LastsDiffer(n.rounds, Generate(paid.delegates, height, hash, Last(n.chain).id, LastSlot(r) + 1),
                Generate(UndoAll(paid, p).delegates, height, hash, Last(n.chain).id, LastSlot(r) + 1));
  }

  lemma RunningNormal(n: Node)
    requires Running(n)
    ensures Normal(n.ledger)
  {
  }

  lemma PayKeysSame(l: Ledger, r: Round, chain: seq<Block>, k: int)
    ensures Pay(l, r, chain, k).delegates.Keys == l.delegates.Keys
    ensures l.delegates != map[] ==> Pay(l, r, chain, k).delegates != map[]
  {
    if l.delegates != map[] {
      assert l.delegates.Keys != {};
    }
  }

  lemma SameIdle(ds: map<Address, Delegate>, es: map<Address, Delegate>, height: nat, p: seq<Transaction>)
    requires ActiveDelegates(ds, height) == ActiveDelegates(es, height)
    ensures Idle(ds, height, p) <==> Idle(es, height, p)
  {
    hide ActiveDelegates;
  }

  lemma LastsDiffer(rounds: seq<Round>, r: Round, s: Round)
    ensures rounds + [r] == rounds + [s] <==> r == s
  {
    assert (rounds + [r])[|rounds|] == r && (rounds + [s])[|rounds|] == s;
  }

  lemma BackwardBelow(n: Node, p: seq<Transaction>)
    requires Normal(n.ledger)
    ensures Backward(Below(n, p)) == Below(Backward(n), p)
    ensures AllReady(Backward(n).ledger, p) <==> AllReady(n.ledger, p)
    ensures Normal(Backward(n).ledger) && Backward(n).chain == n.chain
  {
    hide UndoAll, AllReady, Pay, Normal;
    if |n.rounds| > 1 {
      PayUnderPool(n.ledger, p, Last(Init(n.rounds)), n.chain, -1);
      PayParts(n.ledger, Last(Init(n.rounds)), n.chain, -1);
    }
  }

  /** MAIN: restoring forward under the pool, when no pooled new delegate forges. */
  lemma {:induction false} RestoreForwardBelow(n: Node, p: seq<Transaction>, slot: int, hash: Hash)
    requires Running(n) && Running(Below(n, p)) && AllReady(n.ledger, p)
    requires Idle(n.ledger.delegates, Last(n.chain).height, p)
    ensures RestoreForward(Below(n, p), slot, hash) == Below(RestoreForward(n, slot, hash), p)
    ensures AllReady(RestoreForward(n, slot, hash).ledger, p)
    decreases slot - LastSlot(Last(n.rounds))
  {
    hide Running, AllReady, UndoAll, Idle, Forward;
    RunningShape(n);
    if slot > LastSlot(Last(n.rounds)) {
      ForwardRuns(n, hash);
      ForwardRuns(Below(n, p), hash);
      ForwardBelowIff(n, p, hash);
      ForwardIdle(n, p, hash);
      RestoreForwardBelow(Forward(n, hash), p, slot, hash);
    }
  }

  lemma ForwardIdle(n: Node, p: seq<Transaction>, hash: Hash)
    requires Running(n) && Idle(n.ledger.delegates, Last(n.chain).height, p)
    ensures Forward(n, hash).chain == n.chain
    ensures Idle(Forward(n, hash).ledger.delegates, Last(n.chain).height, p)
  {
    hide Pay, Generate, ActiveDelegates, Idle;
    RunningShape(n);
    PayRanks(n.ledger, Last(n.rounds), n.chain, 1, Last(n.chain).height);
    SameIdle(n.ledger.delegates, Forward(n, hash).ledger.delegates, Last(n.chain).height, p);
  }

  lemma {:induction false} RestoreBackwardBelow(n: Node, p: seq<Transaction>, slot: int, stop: int)
    requires Normal(n.ledger)
    ensures RestoreBackward(Below(n, p), slot, stop) == Below(RestoreBackward(n, slot, stop), p)
    ensures AllReady(RestoreBackward(n, slot, stop).ledger, p) <==> AllReady(n.ledger, p)
    ensures Normal(RestoreBackward(n, slot, stop).ledger) && RestoreBackward(n, slot, stop).chain == n.chain
    decreases |n.rounds|
  {
    hide AllReady, UndoAll, InRound, Pay, Normal;
    if |n.rounds| <= 1 || InRound(Last(n.rounds), slot) || InRound(Last(n.rounds), stop) {
    } else {
      BackwardBelow(n, p);
      RestoreBackwardBelow(Backward(n), p, slot, stop);
    }
  }

  /** Restoring under the pool; only towards a later slot are rounds generated. */
  lemma RestoreBelow(n: Node, p: seq<Transaction>, slot: int, hash: Hash)
    requires Running(n) && Running(Below(n, p)) && AllReady(n.ledger, p)
    requires slot > LastSlot(Last(n.rounds)) ==> Idle(n.ledger.delegates, Last(n.chain).height, p)
    ensures Restore(Below(n, p), slot, hash) == Below(Restore(n, slot, hash), p)
    ensures AllReady(Restore(n, slot, hash).ledger, p)
  {
    hide AllReady, UndoAll, InRound, Idle, RestoreForward, RestoreBackward;
    RunningShape(n);
    RunningNormal(n);
    if InRound(Last(n.rounds), slot) {
    } else if slot > LastSlot(Last(n.rounds)) {
      RestoreForwardBelow(n, p, slot, hash);
    } else {
      RestoreBackwardBelow(n, p, slot, BlockSlot(Last(n.chain)));
    }
  }

  // ---------- blocks ----------

  /** Appending a block that is apart from the pool. */
  lemma AppendBelow(n: Node, p: seq<Transaction>, b: Block)
    requires n.rounds != [] && AllReady(n.ledger, p) && AllApart(b.transactions, p)
    ensures Append(Below(n, p), b) == Below(Append(n, b), p)
    ensures AllReady(Append(n, b).ledger, p)
  {
    hide AllReady, UndoAll, ApplyBlock, AllApart, MarkLast;
    BlockUnderPool(n.ledger, p, b.transactions);
  }

  /** MAIN: taking off the last block under the pool is taking it off the chain's state
      if and only if every stake gives back as many milestones in either order. */
  lemma RemoveBelowIff(n: Node, p: seq<Transaction>)
    requires n.rounds != [] && n.chain != [] && Normal(n.ledger)
    requires var ts := Last(n.chain).transactions; AllReady(n.ledger, ts + p) && AllReady(n.ledger, p + ts)
    ensures var ts := Last(n.chain).transactions;
      RemoveLast(Below(n, p)) == Below(RemoveLast(n), p) <==> SameReturns(n.ledger, p + ts, ts + p)
    ensures AllReady(RemoveLast(n).ledger, p)
  {
    hide AllReady, UndoAll, DeleteBlock, SameReturns, MarkLast, Normal;
    DeleteUnderPoolIff(n.ledger, p, Last(n.chain).transactions);
  }

  // ---------- conditions that paying leaves alone ----------

  lemma ReturnsPaid(l: Ledger, m: Ledger, p: seq<Transaction>, q: seq<Transaction>)
    requires forall a :: Acc(m, a).stakes == Acc(l, a).stakes
    ensures SameReturns(l, p, q) <==> SameReturns(m, p, q)
  {
    hide SameReturnsAt, Acc;
  }

  lemma {:induction false} BackwardStakes(n: Node, slot: int, stop: int, a: Address)
    ensures Acc(RestoreBackward(n, slot, stop).ledger, a).stakes == Acc(n.ledger, a).stakes
    decreases |n.rounds|
  {
    hide InRound, Pay;
    if |n.rounds| <= 1 || InRound(Last(n.rounds), slot) || InRound(Last(n.rounds), stop) {
    } else {
      PayStakes(n.ledger, Last(Init(n.rounds)), n.chain, -1, a);
      BackwardStakes(Backward(n), slot, stop, a);
    }
  }

  lemma PayStakes(l: Ledger, r: Round, chain: seq<Block>, k: int, a: Address)
    ensures Acc(Pay(l, r, chain, k), a).stakes == Acc(l, a).stakes
  {
    if ForgedCount(r) == 0 {
      NothingPaid(l, r, chain, k);
    } else {
      hide Pay, FeeShare, Generators;
      PayAt(l, r, chain, k, a);
    }
  }
}
