/** core/service/transactionPool.ts: removing pooled transactions out of the order
    they were pushed in, and when that takes back exactly what they did. */
module PoolOrder {
  import opened Model
  import opened Transactions
  import opened Inverse
  import opened Commute
  import opened Blocks
  import opened Pool

  // ---------- two votes of one sender ----------

  /** Taking an up-vote's keys out and putting a down-vote's back may change places. */
  predicate VotesSwap(s: Transaction, t: Transaction, v: multiset<Address>) {
    && (s.IsUp() && t.IsDown() ==> forall d :: d in VoteKeys(t) ==> VoteKeys(s)[d] <= v[d])
    && (t.IsUp() && s.IsDown() ==> forall d :: d in VoteKeys(s) ==> VoteKeys(t)[d] <= v[d])
  }

  /** The stake carries the milestone of the one vote on top of that of the other. */
  predicate Stacked(s: Stake, above: Timestamp, below: Timestamp) {
    Carries(s, above) && s.previous != [] && s.previous[|s.previous| - 1] == below + VOTE_MILESTONE
  }

  predicate StakesSwap(s: Transaction, t: Transaction, ss: seq<Stake>) {
    s.IsUp() && t.IsUp() && s.createdAt != t.createdAt ==>
      forall i :: 0 <= i < |ss| ==> !Stacked(ss[i], s.createdAt, t.createdAt) && !Stacked(ss[i], t.createdAt, s.createdAt)
  }

  lemma VotesSwapIff(s: Transaction, t: Transaction, v: multiset<Address>)
    requires s.asset.Vote? && t.asset.Vote?
    ensures UndoVotes(s, UndoVotes(t, v)) == UndoVotes(t, UndoVotes(s, v)) <==> VotesSwap(s, t, v)
  {
    hide VoteKeys;
    var st, ts := UndoVotes(s, UndoVotes(t, v)), UndoVotes(t, UndoVotes(s, v));
    forall d
      ensures s.IsUp() && t.IsDown() ==> (st[d] == ts[d] <==> VoteKeys(t)[d] == 0 || VoteKeys(s)[d] <= v[d])
      ensures t.IsUp() && s.IsDown() ==> (st[d] == ts[d] <==> VoteKeys(s)[d] == 0 || VoteKeys(t)[d] <= v[d])
      ensures s.IsDown() == t.IsDown() ==> st[d] == ts[d]
    {
    }
    if VotesSwap(s, t, v) {
      forall d
        ensures st[d] == ts[d]
      {
      }
      assert st == ts;
    }
  }

  lemma UnripenSwap(x: Stake, i: Timestamp, j: Timestamp)
    requires i != j
    ensures Unripen(Unripen(x, i), j) == Unripen(Unripen(x, j), i) <==> !Stacked(x, i, j) && !Stacked(x, j, i)
  {
  }

  lemma StakesSwapIff(s: Transaction, t: Transaction, ss: seq<Stake>)
    requires s.asset.Vote? && t.asset.Vote?
    ensures UndoStakes(s, UndoStakes(t, ss)) == UndoStakes(t, UndoStakes(s, ss)) <==> StakesSwap(s, t, ss)
  {
    hide Stacked, Unripen;
    if s.IsUp() && t.IsUp() && s.createdAt != t.createdAt {
      var st, ts := UndoStakes(s, UndoStakes(t, ss)), UndoStakes(t, UndoStakes(s, ss));
      forall i | 0 <= i < |ss|
        ensures st[i] == ts[i] <==> !Stacked(ss[i], s.createdAt, t.createdAt) && !Stacked(ss[i], t.createdAt, s.createdAt)
      {
        UnripenSwap(ss[i], s.createdAt, t.createdAt);
      }
    }
  }

  /** When the undos of two transactions may change places. */
  predicate MaySwap(l: Ledger, s: Transaction, t: Transaction) {
    Ordered(s, t) ==> VotesSwap(s, t, Acc(l, s.sender).votes) && StakesSwap(s, t, Acc(l, s.sender).stakes)
  }

  lemma VotersSwapIff(s: Transaction, ds: int, t: Transaction, dt: int, x: Account)
    requires Ordered(s, t)
    ensures UndoWith(s, s.sender, ds, UndoWith(t, s.sender, dt, x)) == UndoWith(t, s.sender, dt, UndoWith(s, s.sender, ds, x))
       <==> VotesSwap(s, t, x.votes) && StakesSwap(s, t, x.stakes)
  {
    hide UndoVotes, UndoStakes, VotesSwap, StakesSwap;
    VotesSwapIff(s, t, x.votes);
    StakesSwapIff(s, t, x.stakes);
    UndoTwice(s, ds, t, dt, s.sender, x);
    UndoTwice(t, dt, s, ds, s.sender, x);
  }

  lemma SwapAt(l: Ledger, s: Transaction, t: Transaction, a: Address)
    ensures Acc(UndoUnconfirmed(UndoUnconfirmed(l, s), t), a) == Acc(UndoUnconfirmed(UndoUnconfirmed(l, t), s), a)
       <==> (a == s.sender ==> MaySwap(l, s, t))
  {
    hide UndoUnconfirmed, UndoWith, Change, VotesSwap, StakesSwap;
    UndoAt(l, s, a);
    UndoAt(l, t, a);
    UndoAt(UndoUnconfirmed(l, s), t, a);
    UndoAt(UndoUnconfirmed(l, t), s, a);
    if Ordered(s, t) && a == s.sender {
      VotersSwapIff(s, -Change(s, a), t, -Change(t, a), Acc(l, a));
    } else if Ordered(s, t) {
      StrangerSwap(s, -Change(s, a), t, -Change(t, a), a, Acc(l, a));
    } else {
      UndoAccountsCommute(s, -Change(s, a), t, -Change(t, a), a, Acc(l, a));
    }
  }

  lemma StrangerSwap(s: Transaction, ds: int, t: Transaction, dt: int, a: Address, x: Account)
    requires a != s.sender && a != t.sender
    ensures UndoWith(s, a, ds, UndoWith(t, a, dt, x)) == UndoWith(t, a, dt, UndoWith(s, a, ds, x))
  {
  }

  /** MAIN: the undos of two transactions may change places if and only if they are
      not votes of one sender, or the sender's list holds the keys of the up-vote
      that the down-vote names and no stake carries the one's milestone on the other's. */
  lemma SwapIff(l: Ledger, s: Transaction, t: Transaction)
    ensures UndoUnconfirmed(UndoUnconfirmed(l, s), t) == UndoUnconfirmed(UndoUnconfirmed(l, t), s) <==> MaySwap(l, s, t)
  {
    hide *;
    forall a {
      SwapAt(l, s, t, a);
    }
    UndoParts(l, s);
    UndoParts(l, t);
    UndoParts(UndoUnconfirmed(l, s), t);
    UndoParts(UndoUnconfirmed(l, t), s);
    UndoDelegatesCommute(l.delegates, s, t);
    UndoNamesCommute(l.usernames, l.delegates, s, t);
    SwapAt(l, s, t, s.sender);
    if MaySwap(l, s, t) {
      SameLedger(UndoUnconfirmed(UndoUnconfirmed(l, s), t), UndoUnconfirmed(UndoUnconfirmed(l, t), s));
    }
  }

  // ---------- the ledger below the pool, field by field ----------

  predicate Any(p: seq<Transaction>, f: Transaction -> bool) {
    exists i :: 0 <= i < |p| && f(p[i])
  }

  lemma AnyLast(p: seq<Transaction>, f: Transaction -> bool)
    requires p != []
    ensures Any(p, f) <==> Any(p[..|p| - 1], f) || f(p[|p| - 1])
  {
    var init := p[..|p| - 1];
    if i :| 0 <= i < |init| && f(init[i]) {
      assert p[i] == init[i];
    }
    if i :| 0 <= i < |p| && f(p[i]) && i < |p| - 1 {
      assert init[i] == p[i];
    }
  }

  lemma AnyItems(p: seq<Transaction>, q: seq<Transaction>, f: Transaction -> bool)
    requires multiset(p) == multiset(q)
    ensures Any(p, f) <==> Any(q, f)
  {
    if i :| 0 <= i < |p| && f(p[i]) {
      assert p[i] in multiset(q);
    }
    if i :| 0 <= i < |q| && f(q[i]) {
      assert q[i] in multiset(p);
    }
  }

  function Registers(a: Address): Transaction -> bool {
    (t: Transaction) => t.sender == a && t.asset.Register?
  }

  function Signs(a: Address): Transaction -> bool {
    (t: Transaction) => t.sender == a && t.asset.Signature?
  }

  function Makes(a: Address): Transaction -> bool {
    (t: Transaction) => t.sender == a && t.asset.NewDelegate?
  }

  /** What a transaction adds to the votes of `a` for `d`. */
  function VotesBy(a: Address, d: Address): Transaction -> int {
    (t: Transaction) => if t.sender == a then Sign(t) * VoteKeys(t)[d] else 0
  }

  function VotesFor(d: Address): Transaction -> int {
    (t: Transaction) => Sign(t) * VoteKeys(t)[d]
  }

  function VotesUndone(p: seq<Transaction>, a: Address, v: multiset<Address>): multiset<Address>
    decreases |p|
  {
    if p == [] then v
    else
      var t := p[|p| - 1];
      VotesUndone(p[..|p| - 1], a, if t.sender == a then UndoVotes(t, v) else v)
  }

  function StakesUndone(p: seq<Transaction>, a: Address, ss: seq<Stake>): seq<Stake>
    decreases |p|
  {
    if p == [] then ss
    else
      var t := p[|p| - 1];
      StakesUndone(p[..|p| - 1], a, if t.sender == a then UndoStakes(t, ss) else ss)
  }

  /** One account once the pooled transactions are undone. */
  function Undone(p: seq<Transaction>, a: Address, x: Account): Account {
    Account(x.balance - PoolChange(p, a),
            VotesUndone(p, a, x.votes),
            StakesUndone(p, a, x.stakes),
            if Any(p, Registers(a)) then [] else x.referrals,
            if Any(p, Signs(a)) then None else x.secondKey,
            x.isDelegate && !Any(p, Makes(a)))
  }

  lemma UndoneNext(p: seq<Transaction>, a: Address, x: Account)
    requires p != []
    ensures var t := p[|p| - 1];
      Undone(p[..|p| - 1], a, UndoWith(t, a, -Change(t, a), x)) == Undone(p, a, x)
  {
    hide Change, UndoVotes, UndoStakes, Any;
    AnyLast(p, Registers(a));
    AnyLast(p, Signs(a));
    AnyLast(p, Makes(a));
  }

  lemma {:induction false} UndoAllAt(l: Ledger, p: seq<Transaction>, a: Address)
    ensures Acc(UndoAll(l, p), a) == Undone(p, a, Acc(l, a))
    decreases |p|
  {
    hide UndoUnconfirmed, UndoWith, Change, Undone;
    if p == [] {
      UndoneNone(a, Acc(l, a));
    } else {
      UndoAt(l, p[|p| - 1], a);
      UndoneNext(p, a, Acc(l, a));
      UndoAllAt(UndoUnconfirmed(l, p[|p| - 1]), p[..|p| - 1], a);
    }
  }

  lemma UndoneNone(a: Address, x: Account)
    ensures Undone([], a, x) == x
  {
  }

  lemma {:induction false} UndoAllDelegates(l: Ledger, p: seq<Transaction>, d: Address)
    ensures d in UndoAll(l, p).delegates <==> d in l.delegates && !Any(p, Makes(d))
    ensures d in UndoAll(l, p).delegates ==>
              UndoAll(l, p).delegates[d] == AddVotes(l.delegates[d], -Sum(p, VotesFor(d)))
    decreases |p|
  {
    hide UndoUnconfirmed, Any, UndoDelegates, Makes, VotesFor, AddVotes;
    if p == [] {
      NotAny(Makes(d));
      NoVotes(l.delegates, d);
    } else {
      var t := p[|p| - 1];
      UndoParts(l, t);
      AnyLast(p, Makes(d));
      UndoAllDelegates(UndoUnconfirmed(l, t), p[..|p| - 1], d);
      DelegateStays(l.delegates, t, d);
      if d in l.delegates {
        VotesTwice(l.delegates[d], VotesFor(d)(t), Sum(p[..|p| - 1], VotesFor(d)));
      }
    }
  }

  lemma NoVotes(ds: map<Address, Delegate>, d: Address)
    ensures d in ds ==> ds[d] == AddVotes(ds[d], 0)
  {
  }

  lemma VotesTwice(x: Delegate, m: int, n: int)
    ensures AddVotes(AddVotes(x, -m), -n) == AddVotes(x, -(n + m))
  {
  }

  lemma DelegateStays(ds: map<Address, Delegate>, t: Transaction, d: Address)
    ensures d in UndoDelegates(ds, t) <==> d in ds && !Makes(d)(t)
    ensures d in UndoDelegates(ds, t) ==> UndoDelegates(ds, t)[d] == AddVotes(ds[d], -VotesFor(d)(t))
  {
    if d in ds && !Makes(d)(t) {
      OneDelegate(ds, t, d);
    }
  }

  lemma NotAny(f: Transaction -> bool)
    ensures !Any([], f)
  {
  }

  lemma OneDelegate(ds: map<Address, Delegate>, t: Transaction, d: Address)
    requires d in ds && !(t.asset.NewDelegate? && t.sender == d)
    ensures d in UndoDelegates(ds, t) && UndoDelegates(ds, t)[d] == AddVotes(ds[d], -(Sign(t) * VoteKeys(t)[d]))
  {
  }

  /** No pooled new delegate holds the name. */
  predicate NotFreed(ds: map<Address, Delegate>, p: seq<Transaction>, u: string) {
    forall i :: 0 <= i < |p| && p[i].asset.NewDelegate? && p[i].sender in ds ==> ds[p[i].sender].username != u
  }

  lemma {:induction false} UndoAllNames(l: Ledger, p: seq<Transaction>, u: string)
    ensures u in UndoAll(l, p).usernames <==> u in l.usernames && NotFreed(l.delegates, p, u)
    ensures UndoAll(l, p).confirmed == l.confirmed
    decreases |p|
  {
    hide UndoUnconfirmed;
    if p != [] {
      var init, t := p[..|p| - 1], p[|p| - 1];
      var ds := UndoDelegates(l.delegates, t);
      UndoParts(l, t);
      UndoAllNames(UndoUnconfirmed(l, t), init, u);
      forall i | 0 <= i < |init| && init[i].asset.NewDelegate?
        ensures init[i].sender in ds ==> init[i].sender in l.delegates && ds[init[i].sender].username == l.delegates[init[i].sender].username
        ensures init[i].sender in l.delegates && init[i].sender !in ds ==> t.asset.NewDelegate? && t.sender == init[i].sender
      {
      }
      assert forall i :: 0 <= i < |init| ==> init[i] == p[i];
    }
  }

  lemma {:induction false} UndoAllNormal(l: Ledger, p: seq<Transaction>)
    requires Normal(l)
    ensures Normal(UndoAll(l, p))
    decreases |p|
  {
    hide UndoUnconfirmed, Normal;
    if p != [] {
      UndoParts(l, p[|p| - 1]);
      UndoAllNormal(UndoUnconfirmed(l, p[|p| - 1]), p[..|p| - 1]);
    }
  }

  // ---------- votes in any order ----------

  /** While every undo finds its keys, the list that is left does not depend on the order. */
  lemma {:induction false} VotesNet(l: Ledger, p: seq<Transaction>, a: Address, d: Address)
    requires AllReady(l, p)
    ensures VotesUndone(p, a, Acc(l, a).votes)[d] == Acc(l, a).votes[d] - Sum(p, VotesBy(a, d))
    decreases |p|
  {
    hide UndoUnconfirmed, Change, UndoStakes, Acc;
    if p != [] {
      var t := p[|p| - 1];
      UndoAt(l, t, a);
      VotesNet(UndoUnconfirmed(l, t), p[..|p| - 1], a, d);
    }
  }

  // ---------- stakes in any order ----------

  function Freezes(a: Address, id: TrsId): Transaction -> bool {
    (t: Transaction) => t.sender == a && t.asset.Freeze? && t.id == id
  }

  /** How many milestones a stake of `a` gives back. */
  function Returns(p: seq<Transaction>, a: Address, s: Stake): nat
    decreases |p|
  {
    if p == [] then 0
    else
      var t := p[|p| - 1];
      if t.sender == a && t.IsUp() && Carries(s, t.createdAt) then 1 + Returns(p[..|p| - 1], a, Unripen(s, t.createdAt))
      else Returns(p[..|p| - 1], a, s)
  }

  /** The stake after giving back its last `n` milestones. */
  function Back(s: Stake, n: nat): Stake
    decreases n
  {
    if n == 0 then s
    else
      Back(s.(isActive := true,
              voteCount := s.voteCount - 1,
              next := if s.previous == [] then None else Some(s.previous[|s.previous| - 1]),
              previous := if s.previous == [] then [] else s.previous[..|s.previous| - 1]), n - 1)
  }

  lemma {:induction false} BackCount(s: Stake, n: nat)
    ensures Back(s, n).voteCount == s.voteCount - n && Back(s, n).source == s.source
    decreases n
  {
    if n > 0 {
      BackCount(s.(isActive := true,
                   voteCount := s.voteCount - 1,
                   next := if s.previous == [] then None else Some(s.previous[|s.previous| - 1]),
                   previous := if s.previous == [] then [] else s.previous[..|s.previous| - 1]), n - 1);
    }
  }

  lemma BackIff(s: Stake, m: nat, n: nat)
    ensures Back(s, m) == Back(s, n) <==> m == n
  {
    hide Back;
    BackCount(s, m);
    BackCount(s, n);
  }

  function OneUndone(p: seq<Transaction>, a: Address, s: Stake): seq<Stake> {
    if Any(p, Freezes(a, s.source)) then [] else [Back(s, Returns(p, a, s))]
  }

  lemma {:induction false} StakesUndoneNone(p: seq<Transaction>, a: Address)
    ensures StakesUndone(p, a, []) == []
    decreases |p|
  {
    if p != [] {
      StakesUndoneNone(p[..|p| - 1], a);
      assert UnripenAll([], p[|p| - 1].createdAt) == [];
    }
  }

  lemma UndoStakesConcat(t: Transaction, ss: seq<Stake>, tt: seq<Stake>)
    ensures UndoStakes(t, ss + tt) == UndoStakes(t, ss) + UndoStakes(t, tt)
  {
    if t.asset.Freeze? {
      DropConcat(ss, tt, t.id);
    }
  }

  lemma {:induction false} StakesUndoneConcat(p: seq<Transaction>, a: Address, ss: seq<Stake>, tt: seq<Stake>)
    ensures StakesUndone(p, a, ss + tt) == StakesUndone(p, a, ss) + StakesUndone(p, a, tt)
    decreases |p|
  {
    hide UndoStakes;
    if p != [] {
      var t := p[|p| - 1];
      UndoStakesConcat(t, ss, tt);
      if t.sender == a {
        StakesUndoneConcat(p[..|p| - 1], a, UndoStakes(t, ss), UndoStakes(t, tt));
      } else {
        StakesUndoneConcat(p[..|p| - 1], a, ss, tt);
      }
    }
  }

  lemma UndoOneStake(t: Transaction, s: Stake)
    ensures UndoStakes(t, [s]) ==
              if t.asset.Freeze? && t.id == s.source then [] else if t.IsUp() then [Unripen(s, t.createdAt)] else [s]
  {
    assert [s][..0] == [];
    assert DropSource([], t.id) == [];
    if t.IsUp() {
      assert UnripenAll([s], t.createdAt) == [Unripen(s, t.createdAt)];
    }
  }

  lemma {:induction false} OneStakeUndone(p: seq<Transaction>, a: Address, s: Stake)
    ensures StakesUndone(p, a, [s]) == OneUndone(p, a, s)
    decreases |p|
  {
    hide UndoStakes, Any, Back;
    if p == [] {
      NotAny(Freezes(a, s.source));
      assert Back(s, 0) == s by { BackNone(s); }
    } else {
      var init, t := p[..|p| - 1], p[|p| - 1];
      AnyLast(p, Freezes(a, s.source));
      UndoOneStake(t, s);
      if t.sender != a {
        OneStakeUndone(init, a, s);
      } else if t.asset.Freeze? && t.id == s.source {
        StakesUndoneNone(init, a);
      } else if t.IsUp() && Carries(s, t.createdAt) {
        OneStakeUndone(init, a, Unripen(s, t.createdAt));
        BackOne(s, t.createdAt, Returns(init, a, Unripen(s, t.createdAt)));
      } else {
        OneStakeUndone(init, a, s);
      }
    }
  }

  lemma BackNone(s: Stake)
    ensures Back(s, 0) == s
  {
  }

  lemma BackOne(s: Stake, now: Timestamp, n: nat)
    requires Carries(s, now)
    ensures Back(s, n + 1) == Back(Unripen(s, now), n) && Unripen(s, now).source == s.source
  {
  }

  /** Both orders drop the same stakes and take the others back as far. */
  predicate SameReturnsAt(p: seq<Transaction>, q: seq<Transaction>, a: Address, ss: seq<Stake>) {
    forall i :: 0 <= i < |ss| && !Any(p, Freezes(a, ss[i].source)) ==> Returns(p, a, ss[i]) == Returns(q, a, ss[i])
  }

  lemma {:induction false} StakesUndoneIff(p: seq<Transaction>, q: seq<Transaction>, a: Address, ss: seq<Stake>)
    requires multiset(p) == multiset(q)
    ensures |StakesUndone(p, a, ss)| == |StakesUndone(q, a, ss)|
    ensures StakesUndone(p, a, ss) == StakesUndone(q, a, ss) <==> SameReturnsAt(p, q, a, ss)
  {
    hide Any, Back, Returns, StakesUndone;
    if ss == [] {
      StakesUndoneNone(p, a);
      StakesUndoneNone(q, a);
    } else {
      var init, s := ss[..|ss| - 1], ss[|ss| - 1];
      assert ss == init + [s];
      StakesUndoneIff(p, q, a, init);
      StakesUndoneConcat(p, a, init, [s]);
      StakesUndoneConcat(q, a, init, [s]);
      OneStakeUndone(p, a, s);
      OneStakeUndone(q, a, s);
      AnyItems(p, q, Freezes(a, s.source));
      BackIff(s, Returns(p, a, s), Returns(q, a, s));
      ConcatIff(StakesUndone(p, a, init), OneUndone(p, a, s), StakesUndone(q, a, init), OneUndone(q, a, s));
    }
  }

  lemma ConcatIff<T>(a: seq<T>, b: seq<T>, c: seq<T>, d: seq<T>)
    requires |a| == |c|
    ensures a + b == c + d <==> a == c && b == d
  {
    if a + b == c + d {
      assert a == (a + b)[..|a|] && c == (c + d)[..|c|];
      assert b == (a + b)[|a|..] && d == (c + d)[|c|..];
    }
  }

  // ---------- any order ----------

  /** Every stake of every account gives back as many milestones in both orders. */
  ghost predicate SameReturns(l: Ledger, p: seq<Transaction>, q: seq<Transaction>) {
    forall a :: SameReturnsAt(p, q, a, Acc(l, a).stakes)
  }

  lemma UndoneSame(l: Ledger, p: seq<Transaction>, q: seq<Transaction>, a: Address)
    requires multiset(p) == multiset(q) && AllReady(l, p) && AllReady(l, q)
    ensures Undone(p, a, Acc(l, a)) == Undone(q, a, Acc(l, a)) <==> SameReturnsAt(p, q, a, Acc(l, a).stakes)
  {
    hide Any, StakesUndone, VotesUndone, SameReturnsAt, Sum, AllReady;
    var x := Acc(l, a);
    SumItems(p, q, ChangeAt(a));
    AnyItems(p, q, Registers(a));
    AnyItems(p, q, Signs(a));
    AnyItems(p, q, Makes(a));
    StakesUndoneIff(p, q, a, x.stakes);
    forall d
      ensures VotesUndone(p, a, x.votes)[d] == VotesUndone(q, a, x.votes)[d]
    {
      VotesNet(l, p, a, d);
      VotesNet(l, q, a, d);
      SumItems(p, q, VotesBy(a, d));
    }
    assert VotesUndone(p, a, x.votes) == VotesUndone(q, a, x.votes);
  }

  lemma DelegatesAnyOrder(l: Ledger, p: seq<Transaction>, q: seq<Transaction>)
    requires multiset(p) == multiset(q)
    ensures UndoAll(l, p).delegates == UndoAll(l, q).delegates
  {
    hide UndoAll, Any, Sum;
    var ds, es := UndoAll(l, p).delegates, UndoAll(l, q).delegates;
    forall d
      ensures d in ds <==> d in es
      ensures d in ds ==> ds[d] == es[d]
    {
      UndoAllDelegates(l, p, d);
      UndoAllDelegates(l, q, d);
      AnyItems(p, q, Makes(d));
      SumItems(p, q, VotesFor(d));
    }
    assert ds == es;
  }

  lemma NamesAnyOrder(l: Ledger, p: seq<Transaction>, q: seq<Transaction>)
    requires multiset(p) == multiset(q)
    ensures UndoAll(l, p).usernames == UndoAll(l, q).usernames && UndoAll(l, p).confirmed == UndoAll(l, q).confirmed
  {
    hide UndoAll;
    forall u
      ensures u in UndoAll(l, p).usernames <==> u in UndoAll(l, q).usernames
    {
      UndoAllNames(l, p, u);
      UndoAllNames(l, q, u);
      if NotFreed(l.delegates, p, u) {
        SameNames(l.delegates, p, q, u);
      }
      if NotFreed(l.delegates, q, u) {
        SameNames(l.delegates, q, p, u);
      }
    }
    UndoAllNames(l, p, "");
    UndoAllNames(l, q, "");
  }

  lemma SameNames(ds: map<Address, Delegate>, p: seq<Transaction>, q: seq<Transaction>, u: string)
    requires multiset(p) == multiset(q) && NotFreed(ds, p, u)
    ensures NotFreed(ds, q, u)
  {
    forall i | 0 <= i < |q| && q[i].asset.NewDelegate? && q[i].sender in ds
      ensures ds[q[i].sender].username != u
    {
      assert q[i] in multiset(p);
    }
  }

  /** MAIN: two orders in which every undo finds what it looks up take the pool back
      to the same ledger if and only if every stake gives back as many milestones. */
  lemma OrderIff(l: Ledger, p: seq<Transaction>, q: seq<Transaction>)
    requires Normal(l) && multiset(p) == multiset(q) && AllReady(l, p) && AllReady(l, q)
    ensures UndoAll(l, p) == UndoAll(l, q) <==> SameReturns(l, p, q)
  {
    hide UndoAll, AllReady, Normal, Undone, SameReturnsAt;
    forall a
      ensures Acc(UndoAll(l, p), a) == Acc(UndoAll(l, q), a) <==> SameReturnsAt(p, q, a, Acc(l, a).stakes)
    {
      UndoAllAt(l, p, a);
      UndoAllAt(l, q, a);
      UndoneSame(l, p, q, a);
    }
    DelegatesAnyOrder(l, p, q);
    NamesAnyOrder(l, p, q);
    UndoAllNormal(l, p);
    UndoAllNormal(l, q);
    if SameReturns(l, p, q) {
      SameLedger(UndoAll(l, p), UndoAll(l, q));
    }
  }

  // ---------- when an order finds everything ----------

  function Counts(f: Transaction -> bool): Transaction -> int {
    (t: Transaction) => if f(t) then 1 else 0
  }

  lemma {:induction false} CountAny(p: seq<Transaction>, f: Transaction -> bool)
    ensures Sum(p, Counts(f)) >= 0
    ensures Sum(p, Counts(f)) == 0 <==> !Any(p, f)
  {
    hide Any;
    if p != [] {
      CountAny(p[..|p| - 1], f);
      AnyLast(p, f);
    } else {
      NotAny(f);
    }
  }

  lemma CountTwo(p: seq<Transaction>, f: Transaction -> bool, i: nat, j: nat)
    requires i < j < |p| && f(p[i]) && f(p[j])
    ensures Sum(p, Counts(f)) >= 2
  {
    hide Sum;
    SumWithout(p, j, Counts(f));
    CountAny(Without(p, j), f);
    assert Without(p, j)[i] == p[i];
  }

  lemma {:induction false} OnlyOne(l: Ledger, p: seq<Transaction>, a: Address)
    requires AllReady(l, p)
    ensures Sum(p, Counts(Makes(a))) <= 1 && Sum(p, Counts(Registers(a))) <= 1
    decreases |p|
  {
    hide UndoUnconfirmed, Targets, Any, Acc;
    if p != [] {
      var init, t := p[..|p| - 1], p[|p| - 1];
      var m := UndoUnconfirmed(l, t);
      OnlyOne(m, init, a);
      CountAny(init, Makes(a));
      CountAny(init, Registers(a));
      UndoneGone(l, t);
      if t.sender == a && t.asset.NewDelegate? && Any(init, Makes(a)) {
        NoneLike(m, init, Makes(a), t);
      } else if t.sender == a && t.asset.Register? && Any(init, Registers(a)) {
        NoneLike(m, init, Registers(a), t);
      }
    }
  }

  lemma UndoneGone(l: Ledger, t: Transaction)
    ensures forall s :: Twice(s, t) ==> !Held(UndoUnconfirmed(l, t), s)
  {
    hide UndoUnconfirmed, Change, UndoVotes, UndoStakes;
    UndoParts(l, t);
    UndoAt(l, t, t.sender);
  }

  lemma NoneLike(m: Ledger, p: seq<Transaction>, f: Transaction -> bool, t: Transaction)
    requires AllReady(m, p) && forall s :: Twice(s, t) ==> !Held(m, s)
    requires forall s :: f(s) ==> Twice(s, t)
    ensures !Any(p, f)
  {
    hide AllReady, Twice, Held;
    forall i | 0 <= i < |p|
      ensures !f(p[i])
    {
      StaysPooled(m, p, i);
    }
  }

  /** An order in which each undo finds what it looks up, read off the ledger and the
      transactions: no delegate goes before a vote for it, and the list holds the keys
      of each up-vote when the later ones are taken back. */
  predicate InOrder(l: Ledger, q: seq<Transaction>) {
    forall i :: 0 <= i < |q| ==> OneInOrder(l, q[i], q[i + 1..])
  }

  predicate OneInOrder(l: Ledger, t: Transaction, later: seq<Transaction>) {
    && (forall j :: 0 <= j < |later| ==> !Elects(later[j], t))
    && (t.IsUp() ==> forall d :: d in VoteKeys(t) ==>
          VoteKeys(t)[d] <= Acc(l, t.sender).votes[d] - Sum(later, VotesBy(t.sender, d)))
  }

  lemma {:induction false} AllReadyFrom(l: Ledger, q: seq<Transaction>, i: nat)
    requires i <= |q|
    ensures AllReady(l, q) <==> AllReady(l, q[i..]) && AllReady(UndoAll(l, q[i..]), q[..i])
    ensures UndoAll(l, q) == UndoAll(UndoAll(l, q[i..]), q[..i])
    decreases |q|
  {
    hide UndoUnconfirmed, UndoReady;
    if i == |q| {
      assert q[i..] == [] && q[..i] == q;
    } else {
      var init, t := q[..|q| - 1], q[|q| - 1];
      AllReadyFrom(UndoUnconfirmed(l, t), init, i);
      assert q[i..] == init[i..] + [t] && init[..i] == q[..i];
      UndoAllLast(l, init[i..], t);
      AllReadyLast(l, init[i..], t);
    }
  }

  /** Whether one more transaction, undone last, finds what it looks up. */
  lemma ReadyAfter(l: Ledger, t: Transaction, later: seq<Transaction>)
    requires AllReady(l, later) && Targets(l, t) && Held(l, t) && forall j :: 0 <= j < |later| ==> !Twice(t, later[j])
    ensures UndoReady(UndoAll(l, later), t) <==> OneInOrder(l, t, later)
  {
    hide UndoAll, AllReady, Any, Undone, Sum;
    var m := UndoAll(l, later);
    HeldAfter(l, t, later);
    TargetsAfter(l, t, later);
    if t.IsUp() {
      forall d
        ensures Acc(m, t.sender).votes[d] == Acc(l, t.sender).votes[d] - Sum(later, VotesBy(t.sender, d))
      {
        UndoAllAt(l, later, t.sender);
        assert Undone(later, t.sender, Acc(l, t.sender)).votes == VotesUndone(later, t.sender, Acc(l, t.sender).votes) by {
          UndoneVotes(later, t.sender, Acc(l, t.sender));
        }
        VotesNet(l, later, t.sender, d);
      }
    }
  }

  lemma UndoneVotes(p: seq<Transaction>, a: Address, x: Account)
    ensures Undone(p, a, x).votes == VotesUndone(p, a, x.votes)
  {
  }

  lemma TargetsAfter(l: Ledger, t: Transaction, later: seq<Transaction>)
    requires Targets(l, t)
    ensures Targets(UndoAll(l, later), t) <==> forall j :: 0 <= j < |later| ==> !Elects(later[j], t)
  {
    hide UndoAll;
    forall d {
      UndoAllDelegates(l, later, d);
    }
    if j :| 0 <= j < |later| && Elects(later[j], t) {
      assert Makes(later[j].sender)(later[j]);
    }
  }

  lemma HeldAfter(l: Ledger, t: Transaction, later: seq<Transaction>)
    requires Held(l, t) && forall j :: 0 <= j < |later| ==> !Twice(t, later[j])
    ensures Held(UndoAll(l, later), t)
  {
    hide UndoAll, Sum;
    UndoAllDelegates(l, later, t.sender);
    UndoAllAt(l, later, t.sender);
  }

  lemma NoTwice(l: Ledger, p: seq<Transaction>, q: seq<Transaction>, i: nat, j: nat)
    requires AllReady(l, p) && multiset(p) == multiset(q) && i < j < |q|
    ensures !Twice(q[i], q[j])
  {
    hide AllReady, Sum;
    var a := q[i].sender;
    OnlyOne(l, p, a);
    SumItems(p, q, Counts(Makes(a)));
    SumItems(p, q, Counts(Registers(a)));
    if Makes(a)(q[i]) && Makes(a)(q[j]) {
      CountTwo(q, Makes(a), i, j);
    } else if Registers(a)(q[i]) && Registers(a)(q[j]) {
      CountTwo(q, Registers(a), i, j);
    }
  }

  lemma StaysElsewhere(l: Ledger, p: seq<Transaction>, q: seq<Transaction>, i: nat)
    requires AllReady(l, p) && multiset(p) == multiset(q) && i < |q|
    ensures Targets(l, q[i]) && Held(l, q[i])
  {
    hide AllReady, Targets, Held;
    assert q[i] in multiset(p);
    var k :| 0 <= k < |p| && p[k] == q[i];
    StaysPooled(l, p, k);
  }

  lemma {:induction false} ReadyTail(l: Ledger, p: seq<Transaction>, q: seq<Transaction>, i: nat)
    requires AllReady(l, p) && multiset(p) == multiset(q) && i <= |q|
    ensures AllReady(l, q[i..]) <==> forall k :: i <= k < |q| ==> OneInOrder(l, q[k], q[k + 1..])
    decreases |q| - i
  {
    hide AllReady, UndoAll, UndoReady, OneInOrder, Targets, Held, Twice;
    if i == |q| {
      assert q[i..] == [];
      ReadyNone(l);
    } else {
      ReadyTail(l, p, q, i + 1);
      var tail := q[i..];
      assert tail[1..] == q[i + 1..] && tail[..1] == [q[i]];
      AllReadyFrom(l, tail, 1);
      ReadyOne(UndoAll(l, q[i + 1..]), q[i]);
      StaysElsewhere(l, p, q, i);
      var later := q[i + 1..];
      forall j | 0 <= j < |later|
        ensures !Twice(q[i], later[j])
      {
        NoTwice(l, p, q, i, i + 1 + j);
      }
      if AllReady(l, later) {
        ReadyAfter(l, q[i], later);
      }
    }
  }

  lemma ReadyNone(l: Ledger)
    ensures AllReady(l, [])
  {
  }

  lemma ReadyOne(l: Ledger, t: Transaction)
    ensures AllReady(l, [t]) <==> UndoReady(l, t)
  {
    hide UndoUnconfirmed, UndoReady;
    assert [t][..0] == [];
  }

  /** MAIN: of a pool whose undos find everything in the order it was pushed, another
      order finds everything if and only if it meets `InOrder`. */
  lemma AllReadyIff(l: Ledger, p: seq<Transaction>, q: seq<Transaction>)
    requires AllReady(l, p) && multiset(p) == multiset(q)
    ensures AllReady(l, q) <==> InOrder(l, q)
  {
    hide AllReady, OneInOrder;
    ReadyTail(l, p, q, 0);
    assert q[0..] == q;
  }
}
