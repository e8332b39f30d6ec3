/** Pooled transactions and blocks that the checks accept, at which the ledger below
    the pool, a deleted block or a generated round goes wrong. */
module PoolExamples {
  import opened Model
  import opened Transactions
  import opened Inverse
  import opened Verify
  import opened Blocks
  import opened Sound
  import opened BlockRuns
  import opened Rounds
  import opened Node
  import opened Pool
  import opened PoolOrder
  import opened Caught
  import opened UnderPool
  import opened CheckUnderPool
  import opened PooledNode
  import opened Examples
  import J = Journal

  // ---------- a ledger without delegates ----------

  /** A holder of a stake that is due for a reward, and nobody else. */
  function Bare(x: Address): Ledger {
    Ledger(map[x := EMPTY_ACCOUNT.(balance := 100, stakes := [Stake(0, true, 100, 3, Some(0), [], 5, [])])], map[], {}, {5})
  }

  lemma BareAt(x: Address, a: Address)
    ensures Acc(Bare(x), a) ==
              if a == x then EMPTY_ACCOUNT.(balance := 100, stakes := [Stake(0, true, 100, 3, Some(0), [], 5, [])]) else EMPTY_ACCOUNT
  {
  }

  lemma BareParts(x: Address)
    ensures Normal(Bare(x)) && Bare(x).delegates == map[] && Bare(x).usernames == {} && Bare(x).confirmed == {5}
  {
  }

  lemma BareConsistent(x: Address)
    ensures Consistent(Bare(x))
  {
    hide Bare, Acc, Voters;
    BareParts(x);
    forall a, l: Ledger | l == Bare(x)
      ensures !Acc(l, a).isDelegate && Acc(l, a).votes == multiset{}
    {
      BareAt(x, a);
    }
  }

  function NewS(s: Address): Transaction {
    Transaction(1, s, 5, 0, NewDelegate("s", ""))
  }

  /** A vote for the new delegate that earns a reward of ten. */
  function VoteS(x: Address, s: Address): Transaction {
    Transaction(2, x, 10, 0, Vote([VoteItem(true, s)], 10, 0, []))
  }

  lemma TrimmedS()
    ensures Trim("s") == "s"
  {
    assert TrimLeft("s") == "s";
  }

  lemma DueReward()
    ensures var ss := [Stake(0, true, 100, 3, Some(0), [], 5, [])];
      TotalReward(ss, 10, 2) == 10 && TotalUnstake(ss, 10) == 0
  {
    var s := Stake(0, true, 100, 3, Some(0), [], 5, []);
    assert [s][..0] == [];
    assert MilestoneAt(2) == 0;
    assert StakeReward(s, 2) == CeilDiv(1000, 100) == 10;
  }

  /** Both are accepted, one after the other. */
  lemma BothAccepted(x: Address, s: Address)
    requires x != s && x != SUPPLY_ADDRESS && s != SUPPLY_ADDRESS
    ensures var base := Bare(x);
      var l1 := ApplyUnconfirmed(base, NewS(s));
      && Consistent(base) && WellFormed(NewS(s)) && Verified(base, 2, NewS(s)) && Undoable(base, NewS(s))
      && Consistent(l1) && WellFormed(VoteS(x, s)) && Verified(l1, 2, VoteS(x, s)) && Undoable(l1, VoteS(x, s))
      && l1.delegates.Keys == {s}
  {
    hide Bare, ApplyUnconfirmed, Acc, Voters, Change, TotalReward, TotalUnstake, NamesAgree, TalliesAgree, ListsShort, DelegatesAgree;
    var base, nd := Bare(x), NewS(s);
    var l1 := ApplyUnconfirmed(base, nd);
    BareConsistent(x);
    BareParts(x);
    BareAt(x, s);
    TrimmedS();
    ConsistentKept(base, 2, nd);
    ApplyParts(base, nd);
    SecondAccepted(x, s, l1);
  }

  lemma SecondAccepted(x: Address, s: Address, l1: Ledger)
    requires x != s && l1 == ApplyUnconfirmed(Bare(x), NewS(s))
    ensures WellFormed(VoteS(x, s)) && Verified(l1, 2, VoteS(x, s)) && Undoable(l1, VoteS(x, s))
  {
    hide Bare, ApplyUnconfirmed, Acc, TotalReward, TotalUnstake, ReferralsRead;
    BareAt(x, x);
    BareAt(x, s);
    BareParts(x);
    ApplyAt(Bare(x), NewS(s), x);
    ApplyAt(Bare(x), NewS(s), s);
    ApplyParts(Bare(x), NewS(s));
    DueReward();
    assert VoteItemOk(l1, Acc(l1, x), VoteS(x, s).asset.votes[0]);
    assert CountUp(VoteS(x, s).asset.votes) <= 1 by { CountUpBounds(VoteS(x, s).asset.votes); }
  }

  lemma BothAdmitted(x: Address, s: Address)
    requires x != s && x != SUPPLY_ADDRESS && s != SUPPLY_ADDRESS
    ensures Admitted(Bare(x), [NewS(s), VoteS(x, s)])
    ensures ApplyAll(Bare(x), [NewS(s), VoteS(x, s)]) == ApplyUnconfirmed(ApplyUnconfirmed(Bare(x), NewS(s)), VoteS(x, s))
  {
    hide Bare, ApplyUnconfirmed, Undoable, Consistent, Verified, WellFormed;
    BothAccepted(x, s);
    var nd, v := NewS(s), VoteS(x, s);
    assert [nd, v][..1] == [nd] && [nd][..0] == [];
    assert ApplyAll(Bare(x), []) == Bare(x);
    assert ApplyAll(Bare(x), [nd]) == ApplyUnconfirmed(Bare(x), nd);
    assert Keys(v.asset.votes) == [s];
    assert Admitted(Bare(x), []);
    assert Pushable(Bare(x), [], nd) && !Conflict([], nd);
    assert Admitted(Bare(x), [nd]);
    assert Pushable(ApplyUnconfirmed(Bare(x), nd), [nd], v) && !Conflict([nd], v);
  }

  /** A block with a transaction of the new delegate takes its registration out of the
      pool and leaves the vote. When that is removed its undo throws: the fee comes
      back, the reward of ten and the counted stake stay. */
  lemma BatchRemoveLeaks(x: Address, s: Address, b: Transaction)
    requires x != s && x != SUPPLY_ADDRESS && s != SUPPLY_ADDRESS && b.sender == s
    ensures var base := Bare(x);
      var pool := [NewS(s), VoteS(x, s)];
      var l := ApplyAll(base, pool);
      var left := UndoCaught(l, NewS(s));
      && Consistent(base) && Admitted(base, pool) && AllReady(l, pool) && UndoAll(l, pool) == base
      && DependsOn(b, NewS(s)) && !DependsOn(b, VoteS(x, s))
      && !AllReady(l, [VoteS(x, s), NewS(s)])
      && UndoCaught(left, VoteS(x, s)) != base
      && Acc(UndoCaught(left, VoteS(x, s)), x).balance == Acc(base, x).balance + 10
  {
    hide Bare, ApplyUnconfirmed, UndoUnconfirmed, Consistent, Undoable, Verified, WellFormed, UndoCaught, AllReady, UndoAll, Acc, NotAfter,
      ApplyAll, Admitted, TiedSorted, Normal;
    var base, nd, v := Bare(x), NewS(s), VoteS(x, s);
    var l := ApplyAll(base, [nd, v]);
    BareParts(x);
    BothAccepted(x, s);
    BothAdmitted(x, s);
    AdmittedIs(base, [nd, v]);
    var order := [v, nd];
    assert Elects(order[1], order[0]) by { assert Keys(v.asset.votes) == [s]; }
    OutOfOrder(l, [nd, v], order);
    LeakedReward(base, l, nd, v, x);
  }

  lemma OutOfOrder(l: Ledger, p: seq<Transaction>, q: seq<Transaction>)
    requires |q| == 2 && Elects(q[1], q[0]) && AllReady(l, p) && multiset(p) == multiset(q)
    ensures !AllReady(l, q)
  {
    hide AllReady, Elects;
    AllReadyIff(l, p, q);
    var later := q[1..];
    assert later[0] == q[1];
    assert !OneInOrder(l, q[0], later);
  }

  lemma LeakedReward(base: Ledger, l: Ledger, nd: Transaction, v: Transaction, x: Address)
    requires nd.asset.NewDelegate? && nd.fee == 0 && nd.sender != x && x != SUPPLY_ADDRESS && v.sender == x && v.fee == 0
    requires v.asset == Vote([VoteItem(true, nd.sender)], 10, 0, [])
    requires l == ApplyUnconfirmed(ApplyUnconfirmed(base, nd), v)
    ensures Acc(UndoCaught(UndoCaught(l, nd), v), x).balance == Acc(base, x).balance + 10
  {
    hide ApplyUnconfirmed, UndoUnconfirmed, UndoCaught, Acc;
    ApplyAt(base, nd, x);
    ApplyAt(ApplyUnconfirmed(base, nd), v, x);
    CaughtBalance(l, nd, x);
    var m := UndoCaught(l, nd);
    CaughtBalance(m, v, x);
    assert Targets(l, nd) && !Targets(m, v) by {
      Gone(l, nd, v);
    }
  }

  lemma Gone(l: Ledger, nd: Transaction, v: Transaction)
    requires nd.asset.NewDelegate? && v.asset.Vote? && v.asset.votes == [VoteItem(true, nd.sender)]
    ensures Targets(l, nd) && !Targets(UndoCaught(l, nd), v)
  {
    hide UndoUnconfirmed;
    UndoParts(l, nd);
    assert Keys(v.asset.votes) == [nd.sender];
    assert nd.sender in VoteKeys(v);
  }

  /** The block brings the registration itself: what the pool keeps is admitted, what
      the block brings is verified, and the new delegate ends below no votes. */
  lemma DelegateOverPooledVote(x: Address, s: Address)
    requires x != s && x != SUPPLY_ADDRESS && s != SUPPLY_ADDRESS
    ensures var base := Bare(x);
      var nd, v := NewS(s), VoteS(x, s);
      var left := UndoUnconfirmed(ApplyAll(base, [nd, v]), nd);
      && Consistent(base) && Admitted(base, [nd, v])
      && DependsOn(nd, nd) && !DependsOn(nd, v) && !Apart(nd, v)
      && WellFormed(nd) && Verified(left, 2, nd) && Verified(base, 2, nd)
      && UndoAll(ApplyUnconfirmed(left, nd), [v]) != ApplyUnconfirmed(base, nd)
      && s in UndoAll(ApplyUnconfirmed(left, nd), [v]).delegates
      && UndoAll(ApplyUnconfirmed(left, nd), [v]).delegates[s].votes == -1
  {
    hide Bare, ApplyUnconfirmed, UndoUnconfirmed, Consistent, Undoable, Verified, UndoAll, Acc, Admitted, ApplyAll, Change;
    var base, nd, v := Bare(x), NewS(s), VoteS(x, s);
    var l := ApplyAll(base, [nd, v]);
    var left := UndoUnconfirmed(l, nd);
    BareParts(x);
    BothAccepted(x, s);
    BothAdmitted(x, s);
    assert Keys(v.asset.votes) == [s] && VoteKeys(v) == multiset{s};
    StillVerified(x, s, left);
    UndoOne(ApplyUnconfirmed(left, nd), v);
    NewcomerLeaks(left, nd, v);
    ApplyParts(base, nd);
  }

  lemma StillVerified(x: Address, s: Address, left: Ledger)
    requires x != s && s != SUPPLY_ADDRESS
    requires left == UndoUnconfirmed(ApplyUnconfirmed(ApplyUnconfirmed(Bare(x), NewS(s)), VoteS(x, s)), NewS(s))
    ensures Verified(left, 2, NewS(s)) && s !in left.delegates
  {
    hide Bare, ApplyUnconfirmed, UndoUnconfirmed, Acc, ReferralsRead;
    var base, nd, v := Bare(x), NewS(s), VoteS(x, s);
    var l1 := ApplyUnconfirmed(base, nd);
    var l := ApplyUnconfirmed(l1, v);
    BareAt(x, s);
    BareParts(x);
    TrimmedS();
    ApplyAt(base, nd, s);
    ApplyAt(l1, v, s);
    UndoAt(l, nd, s);
    ApplyParts(base, nd);
    ApplyParts(l1, v);
    UndoParts(l, nd);
    assert VoteKeys(v)[s] == 1 by { assert Keys(v.asset.votes) == [s]; }
    assert l.delegates[s].username == "s";
  }

  /** A pooled registration, and a block's registration below it: both are accepted,
      and the block's one reads referrals that undoing the pooled one takes away. */
  lemma RegistrationOverPooled(x: Address, y: Address, r: Address, h: Address)
    requires x != y && x != r && y != r && h != x && h != y
    ensures var base := Bare(h);
      var t := Transaction(1, x, 5, 0, Register(r));
      var b := Transaction(2, y, 6, 0, Register(x));
      var l := ApplyUnconfirmed(base, t);
      && Consistent(base) && Admitted(base, [t]) && WellFormed(t) && Verified(base, 2, t)
      && !DependsOn(b, t) && WellFormed(b) && Verified(l, 2, b) && Verified(base, 2, b)
      && UndoUnconfirmed(ApplyUnconfirmed(l, b), t) != ApplyUnconfirmed(UndoUnconfirmed(l, t), b)
  {
    hide Bare, ApplyUnconfirmed, UndoUnconfirmed, Consistent, Acc;
    var base := Bare(h);
    var t := Transaction(1, x, 5, 0, Register(r));
    var b := Transaction(2, y, 6, 0, Register(x));
    var l := ApplyUnconfirmed(base, t);
    BareConsistent(h);
    BareParts(h);
    BareAt(h, x);
    BareAt(h, y);
    ApplyAt(base, t, x);
    ApplyAt(base, t, y);
    ApplyParts(base, t);
    assert [t][..0] == [] && ApplyAll(base, []) == base;
    assert Admitted(base, []) && Pushable(base, [], t) && !Conflict([], t);
    assert Admitted(base, [t]);
    ApplyUndoIff(l, b, t);
  }

  // ---------- deleting a block under the pool ----------

  /** The last block holds an up-vote, the pool the down-vote that takes it back:
      deleting the block finds no key to cut, and the list ends up with one. */
  lemma DeleteUnderPoolLeaks(a: Address, d: Address, e: Address)
    requires Apart3(a, d, e)
    ensures var base := Small(a, d, e, false, []);
      var up := VoteOf(1, a, 10, [VoteItem(true, d)]);
      var down := VoteOf(2, a, 20, [VoteItem(false, d)]);
      var top := ApplyBlock(base, [up]);
      var l := ApplyUnconfirmed(top, down);
      && Consistent(base) && AllVerified(base, 1, [up]) && AllRegular(base, [up]) && DeleteBlock(top, [up]) == base
      && Consistent(top) && WellFormed(down) && Verified(top, 2, down) && Admitted(top, [down]) && UndoAll(l, [down]) == top
      && !AllReady(l, [down] + [up])
      && UndoAll(DeleteBlock(l, [up]), [down]) != base
  {
    hide Small, ApplyUnconfirmed, UndoUnconfirmed, Consistent, Acc, AllReady, UndoAll, DeleteBlock, ApplyBlock, Admitted, AllVerified,
      AllRegular, Verified, Normal;
    var base := Small(a, d, e, false, []);
    var up := VoteOf(1, a, 10, [VoteItem(true, d)]);
    var down := VoteOf(2, a, 20, [VoteItem(false, d)]);
    var top := ApplyBlock(base, [up]);
    var l := ApplyUnconfirmed(top, down);
    SmallConsistent(a, d, e, false, []);
    UpBlock(a, d, e);
    DownPooled(a, d, e, top);
    SmallAccounts(a, d, e, false, [], a);
    UndoBoth(l, [down], [up]);
    NotThere(l, up);
    WrongList(base, l, up, down);
  }

  /** The ledger with the up-vote in its last block. */
  predicate Topped(a: Address, d: Address, e: Address, top: Ledger) {
    && Acc(top, a) == EMPTY_ACCOUNT.(votes := multiset{d}, balance := 100)
    && Acc(top, d) == EMPTY_ACCOUNT.(isDelegate := true)
    && d in top.delegates && top.confirmed == {5, 1}
  }

  lemma UpBlock(a: Address, d: Address, e: Address)
    requires Apart3(a, d, e)
    ensures var base := Small(a, d, e, false, []);
      var up := VoteOf(1, a, 10, [VoteItem(true, d)]);
      var top := ApplyBlock(base, [up]);
      && AllVerified(base, 1, [up]) && AllRegular(base, [up]) && DeleteBlock(top, [up]) == base
      && Consistent(top) && Normal(top) && Topped(a, d, e, top)
  {
    hide Small, ApplyUnconfirmed, Consistent, Acc, DeleteBlock, Verified, Change, Normal, DelegatesAgree;
    var base := Small(a, d, e, false, []);
    var up := VoteOf(1, a, 10, [VoteItem(true, d)]);
    SmallConsistent(a, d, e, false, []);
    SmallKnown(a, d, e, false, []);
    SmallAccounts(a, d, e, false, [], a);
    SmallAccounts(a, d, e, false, [], d);
    UpVerified(a, d, e);
    assert [up][..0] == [] && ApplyAll(base, []) == base;
    assert ApplyAll(base, [up]) == ApplyUnconfirmed(base, up);
    assert AllVerified(base, 1, []) && AllRegular(base, []) && AllKeep(base, []);
    assert AllVerified(base, 1, [up]) && AllRegular(base, [up]) && AllKeep(base, [up]);
    NoSources(a, d, e);
    ConsistentSane(base);
    BlockKeeps(base, 1, [up]);
    BlockConsistent(base, 1, [up]);
    ConsistentSane(ApplyBlock(base, [up]));
    ToppedBy(a, d, e, base, up);
  }

  lemma ConsistentSane(l: Ledger)
    requires Consistent(l)
    ensures Sane(l) && Normal(l)
  {
  }

  lemma NoSources(a: Address, d: Address, e: Address)
    requires Apart3(a, d, e)
    ensures SourcesIn(Small(a, d, e, false, []), {5})
  {
    hide Small, Acc;
    forall b {
      SmallAccounts(a, d, e, false, [], b);
    }
  }

  lemma UpVerified(a: Address, d: Address, e: Address)
    requires Apart3(a, d, e)
    ensures var up := VoteOf(1, a, 10, [VoteItem(true, d)]);
      WellFormed(up) && DownOnly(up) && Verified(Small(a, d, e, false, []), 1, up)
  {
    hide Small, Acc;
    SmallKnown(a, d, e, false, []);
    SmallAccounts(a, d, e, false, [], a);
    SmallAccounts(a, d, e, false, [], d);
    var votes := [VoteItem(true, d)];
    assert VoteItemOk(Small(a, d, e, false, []), Acc(Small(a, d, e, false, []), a), votes[0]);
    CountUpBounds(votes);
  }

  lemma ToppedBy(a: Address, d: Address, e: Address, base: Ledger, up: Transaction)
    requires Apart3(a, d, e) && base == Small(a, d, e, false, []) && up == VoteOf(1, a, 10, [VoteItem(true, d)])
    requires ApplyAll(base, [up]) == ApplyUnconfirmed(base, up)
    ensures Topped(a, d, e, ApplyBlock(base, [up]))
  {
    hide Small, ApplyUnconfirmed, Acc, ApplyAll, ConfirmAll, ReferralsRead;
    SmallKnown(a, d, e, false, []);
    SmallAccounts(a, d, e, false, [], a);
    SmallAccounts(a, d, e, false, [], d);
    var one := ApplyUnconfirmed(base, up);
    ApplyAt(base, up, a);
    ApplyAt(base, up, d);
    ApplyParts(base, up);
    ConfirmAllIds(one, [up]);
    ConfirmAllKeys(one, [up]);
    assert Keys(up.asset.votes) == [d];
    NoChange(up, a);
    NoChange(up, d);
    assert RipenAll([], 10) == [];
    SameAt(ApplyBlock(base, [up]), one);
    assert Ids([up]) == {1};
  }

  lemma SameAt(l: Ledger, m: Ledger)
    requires l.accounts == m.accounts
    ensures forall b :: Acc(l, b) == Acc(m, b)
  {
  }

  lemma DownPooled(a: Address, d: Address, e: Address, top: Ledger)
    requires Apart3(a, d, e) && Topped(a, d, e, top) && Normal(top)
    ensures var down := VoteOf(2, a, 20, [VoteItem(false, d)]);
      && WellFormed(down) && Verified(top, 2, down) && Admitted(top, [down])
      && UndoAll(ApplyUnconfirmed(top, down), [down]) == top
      && AllReady(ApplyUnconfirmed(top, down), [down])
      && Acc(ApplyUnconfirmed(top, down), a).votes == multiset{}
  {
    hide ApplyUnconfirmed, UndoUnconfirmed, Acc, TiedSorted, Normal;
    var votes := [VoteItem(false, d)];
    var down := VoteOf(2, a, 20, votes);
    assert Keys(votes) == [d];
    assert VoteItemOk(top, Acc(top, a), votes[0]);
    CountUpBounds(votes);
    assert [down][..0] == [] && ApplyAll(top, []) == top;
    assert Admitted(top, []) && Pushable(top, [], down) && !Conflict([], down);
    assert Admitted(top, [down]);
    assert ApplyAll(top, [down]) == ApplyUnconfirmed(top, down);
    AdmittedIs(top, [down]);
    ApplyAt(top, down, a);
  }

  lemma NotThere(l: Ledger, up: Transaction)
    requires up.IsUp() && VoteKeys(up) != multiset{} && Acc(l, up.sender).votes == multiset{}
    ensures !AllReady(l, [up])
  {
    assert VoteKeys(up) <= multiset{} ==> VoteKeys(up) == multiset{};
  }

  lemma WrongList(base: Ledger, l: Ledger, up: Transaction, down: Transaction)
    requires up.IsUp() && down.IsDown() && up.sender == down.sender
    requires VoteKeys(down) != multiset{} && Acc(l, up.sender).votes == multiset{} == Acc(base, up.sender).votes
    ensures UndoAll(DeleteBlock(l, [up]), [down]) != base
  {
    hide UndoUnconfirmed, Acc, UndoAll, DeleteBlock, Change, UndoStakes;
    DeleteIs(l, [up]);
    UnconfirmAllUnder(l, [], [up]);
    var u := UnconfirmAll(l, [up]);
    SameAt(u, l);
    UndoOne(u, up);
    UndoOne(UndoUnconfirmed(u, up), down);
    UndoAt(u, up, up.sender);
    UndoAt(UndoUnconfirmed(u, up), down, up.sender);
  }

  // ---------- rounds and airdrops ----------

  /** With few delegates a pooled one forges: the round generated over the pool is not
      that of the chain. */
  lemma PooledDelegateForges(a: Address, d: Address, e: Address, s: Address, hash: Hash, id: BlockId)
    requires Apart3(a, d, e) && s != a && s != d && s != e
    ensures var base := Small(a, d, e, false, []);
      var nd := NewS(s);
      var l := ApplyUnconfirmed(base, nd);
      && Consistent(base) && Admitted(base, [nd]) && WellFormed(nd) && Verified(base, 2, nd)
      && !Idle(l.delegates, 2, [nd])
      && Generate(l.delegates, 2, hash, id, 1) != Generate(UndoAll(l, [nd]).delegates, 2, hash, id, 1)
  {
    hide Small, ApplyUnconfirmed, UndoUnconfirmed, Consistent, Acc, UndoAll, ActiveDelegates, Generate, AllReady, TiedSorted, Normal;
    var base, nd := Small(a, d, e, false, []), NewS(s);
    var l := ApplyUnconfirmed(base, nd);
    SmallConsistent(a, d, e, false, []);
    SmallKnown(a, d, e, false, []);
    SmallAccounts(a, d, e, false, [], s);
    TrimmedS();
    assert "s"[0] != "d"[0] && "s"[0] != " e"[0];
    assert [nd][..0] == [] && ApplyAll(base, []) == base;
    assert Admitted(base, []) && Pushable(base, [], nd) && !Conflict([], nd);
    assert Admitted(base, [nd]);
    assert ApplyAll(base, [nd]) == l;
    AdmittedIs(base, [nd]);
    ApplyParts(base, nd);
    AllForge(l.delegates, {d, e, s});
    assert d in base.delegates;
    GenerateBelowIff(l, [nd], 2, hash, id, 1);
  }

  lemma AllForge(ds: map<Address, Delegate>, s: set<Address>)
    requires ds.Keys == s && |s| <= 11
    ensures forall d :: d in s ==> d in ActiveDelegates(ds, 2)
  {
    hide Ranked, Before;
    RankedIs(ds, ds.Keys);
  }

  /** Two holders with one sponsor each, and five units in the airdrop account. */
  function Sponsored(x: Address, y: Address, r: Address): Ledger {
    Ledger(map[x := EMPTY_ACCOUNT.(balance := 50, referrals := [r]),
               y := EMPTY_ACCOUNT.(balance := 50, referrals := [r]),
               AIRDROP_ADDRESS := EMPTY_ACCOUNT.(balance := 5)], map[], {}, {})
  }

  function FreezeFor(id: TrsId, x: Address, r: Address): Transaction {
    Transaction(id, x, 5, 0, Freeze(50, 0, [Sponsor(r, 5)]))
  }

  lemma SponsoredAt(x: Address, y: Address, r: Address, a: Address)
    requires x != y && x != AIRDROP_ADDRESS && y != AIRDROP_ADDRESS
    ensures Acc(Sponsored(x, y, r), a) ==
              if a == x || a == y then EMPTY_ACCOUNT.(balance := 50, referrals := [r])
              else if a == AIRDROP_ADDRESS then EMPTY_ACCOUNT.(balance := 5)
              else EMPTY_ACCOUNT
    ensures Normal(Sponsored(x, y, r)) && Sponsored(x, y, r).confirmed == {}
  {
  }

  lemma SponsoredConsistent(x: Address, y: Address, r: Address)
    requires x != y && x != AIRDROP_ADDRESS && y != AIRDROP_ADDRESS
    ensures Consistent(Sponsored(x, y, r))
  {
    hide Acc, Voters;
    forall a, l: Ledger | l == Sponsored(x, y, r)
      ensures !Acc(l, a).isDelegate && Acc(l, a).votes == multiset{}
    {
      SponsoredAt(x, y, r, a);
    }
  }

  lemma FiveDue(l: Ledger, id: TrsId, x: Address, r: Address)
    requires Acc(l, x) == EMPTY_ACCOUNT.(balance := 50, referrals := [r]) && id !in l.confirmed
    ensures WellFormed(FreezeFor(id, x, r))
    ensures Verified(l, 2, FreezeFor(id, x, r)) <==> Acc(l, AIRDROP_ADDRESS).balance >= 5
  {
    hide Acc;
    assert CeilDiv(50 * FREEZE_SPONSOR_PERCENT, 100) == 5;
    assert [Sponsor(r, 5)][0] == Sponsor(r, 5);
  }

  /** A pooled stake has taken the last of the airdrop account: a stake in a block, good
      on the chain's ledger, fails over the pool. */
  lemma PooledAirdropRefuses(x: Address, y: Address, r: Address)
    requires x != y && r != x && r != y && r != AIRDROP_ADDRESS && x != AIRDROP_ADDRESS && y != AIRDROP_ADDRESS
    requires x != SUPPLY_ADDRESS && y != SUPPLY_ADDRESS
    ensures var base := Sponsored(x, y, r);
      var t, b := FreezeFor(1, x, r), FreezeFor(2, y, r);
      var l := ApplyUnconfirmed(base, t);
      && Consistent(base) && WellFormed(t) && Verified(base, 2, t) && WellFormed(b)
      && !DependsOn(b, t) && Bystander(y, [t])
      && Verified(base, 2, b) && !Verified(l, 2, b)
      && SponsorsRight(base, b) && !SponsorsRight(l, b)
  {
    hide Sponsored, ApplyUnconfirmed, Acc, Consistent, Verified, SponsorsRight, WellFormed, ReferralsRead;
    var base := Sponsored(x, y, r);
    var t, b := FreezeFor(1, x, r), FreezeFor(2, y, r);
    var l := ApplyUnconfirmed(base, t);
    SponsoredConsistent(x, y, r);
    SponsoredAt(x, y, r, x);
    SponsoredAt(x, y, r, y);
    SponsoredAt(x, y, r, AIRDROP_ADDRESS);
    FiveDue(base, 1, x, r);
    FiveDue(base, 2, y, r);
    FreezeChanges(x, y, r);
    ApplyAt(base, t, y);
    ApplyAt(base, t, AIRDROP_ADDRESS);
    ApplyParts(base, t);
    FiveDue(l, 2, y, r);
    VerifiedReads(base, 2, b);
    Poor(l, b, r);
  }

  lemma FreezeChanges(x: Address, y: Address, r: Address)
    requires x != y && r != x && r != y && r != AIRDROP_ADDRESS && x != AIRDROP_ADDRESS && y != AIRDROP_ADDRESS
    ensures Change(FreezeFor(1, x, r), y) == 0 && Change(FreezeFor(1, x, r), AIRDROP_ADDRESS) == -5
  {
    var s := [Sponsor(r, 5)];
    assert s[..0] == [];
    assert SponsorChange([], y) == 0 && SponsorChange([], AIRDROP_ADDRESS) == 0;
    assert SponsorChange(s, y) == 0 && SponsorChange(s, AIRDROP_ADDRESS) == -5;
  }

  lemma Poor(l: Ledger, b: Transaction, r: Address)
    requires b.asset == Freeze(50, 0, [Sponsor(r, 5)]) && Acc(l, b.sender).referrals == [r] && Acc(l, AIRDROP_ADDRESS).balance < 5
    ensures !SponsorsRight(l, b)
  {
    hide Acc;
    assert CeilDiv(50 * FREEZE_SPONSOR_PERCENT, 100) == 5;
    assert AirdropFor(l, Acc(l, b.sender), 50, true) == [];
  }

  // ---------- a node to start from ----------

  function FirstBlock(): Block {
    Block(0, 0, 1, 0, 0, 0, [])
  }

  function FirstNode(a: Address, d: Address, e: Address): Node {
    Node([FirstBlock()], [[Slot(d, 1, false)]], Small(a, d, e, false, []))
  }

  /** There is a node to start from, and a block that it may append. */
  lemma StartExists(a: Address, d: Address, e: Address)
    requires Apart3(a, d, e)
    ensures J.IsStart(FirstNode(a, d, e)) && Consistent(FirstNode(a, d, e).ledger)
    ensures Legal(FirstNode(a, d, e), Block(1, 0, 2, 10, d, 0, []))
  {
    hide Small, Consistent, Acc, DelegatesAgree, Normal;
    var n := FirstNode(a, d, e);
    SmallConsistent(a, d, e, false, []);
    ConsistentSane(n.ledger);
    SmallKnown(a, d, e, false, []);
    NoSources(a, d, e);
    assert d in n.ledger.delegates;
    FirstRound(d);
    var b := Block(1, 0, 2, 10, d, 0, []);
    assert Last(n.rounds)[0].generator == d && Last(n.rounds)[0].slot == BlockSlot(b);
  }

  lemma FirstRound(d: Address)
    ensures var r: Round := [Slot(d, 1, false)];
      && RoundsTiled([r]) && Linked([FirstBlock()]) && FlagsMatch([r], [FirstBlock()]) && TailOfRound([FirstBlock()], r)
  {
    var r: Round := [Slot(d, 1, false)];
    assert r[..0] == [];
    assert ForgedCount([]) == 0;
    assert ForgedCount(r) == 0;
    assert Tiled(r, 1);
  }
}
