/** core/service/transactionPool.ts: transactions applied before a block holds
    them. Whatever is pushed and removed, the ledger stays that of the chain with
    the pooled transactions on top. */
module Pool {
  import opened Model
  import opened Transactions
  import opened Inverse
  import opened Commute
  import opened Blocks

  // ---------- the sort order ----------

  /** By type, then time, then id. */
  predicate NotAfter(s: Transaction, t: Transaction) {
    s.Code() < t.Code() ||
    (s.Code() == t.Code() && (s.createdAt < t.createdAt || (s.createdAt == t.createdAt && s.id <= t.id)))
  }

  function InsertTrs(s: seq<Transaction>, t: Transaction): seq<Transaction> {
    if s == [] then [t]
    else if NotAfter(s[|s| - 1], t) then s + [t]
    else InsertTrs(s[..|s| - 1], t) + [s[|s| - 1]]
  }

  function SortTrs(s: seq<Transaction>): seq<Transaction> {
    if s == [] then [] else InsertTrs(SortTrs(s[..|s| - 1]), s[|s| - 1])
  }

  ghost predicate SortedTrs(s: seq<Transaction>) {
    forall i, j :: 0 <= i < j < |s| ==> NotAfter(s[i], s[j])
  }

  lemma Either(s: Transaction, t: Transaction)
    ensures NotAfter(s, t) || NotAfter(t, s)
    ensures NotAfter(s, t) && NotAfter(t, s) ==> s.id == t.id
  {
  }

  lemma Through(s: Transaction, t: Transaction, u: Transaction)
    requires NotAfter(s, t) && NotAfter(t, u)
    ensures NotAfter(s, u)
  {
  }

  lemma {:induction false} InsertTrsItems(s: seq<Transaction>, t: Transaction)
    ensures multiset(InsertTrs(s, t)) == multiset(s) + multiset{t}
    ensures |InsertTrs(s, t)| == |s| + 1
    ensures forall x :: x in InsertTrs(s, t) <==> x in s || x == t
  {
    hide NotAfter;
    if s != [] && !NotAfter(s[|s| - 1], t) {
      InsertTrsItems(s[..|s| - 1], t);
      assert s == s[..|s| - 1] + [s[|s| - 1]];
    }
  }

  lemma {:induction false} InsertTrsSorted(s: seq<Transaction>, t: Transaction)
    requires SortedTrs(s)
    ensures SortedTrs(InsertTrs(s, t))
    ensures InsertTrs(s, t)[|InsertTrs(s, t)| - 1] == t <==> forall x :: x in s ==> NotAfter(x, t) || x == t
  {
    hide NotAfter;
    if s == [] {
    } else if NotAfter(s[|s| - 1], t) {
      forall x | x in s
        ensures NotAfter(x, t)
      {
        var i :| 0 <= i < |s| && s[i] == x;
        if i < |s| - 1 {
          Through(x, s[|s| - 1], t);
        }
      }
    } else {
      var init, last := s[..|s| - 1], s[|s| - 1];
      InsertTrsSorted(init, t);
      InsertTrsItems(init, t);
      Either(last, t);
      var r := InsertTrs(init, t);
      forall i | 0 <= i < |r|
        ensures NotAfter(r[i], last)
      {
        assert r[i] in r;
        if r[i] != t {
          var j :| 0 <= j < |init| && init[j] == r[i];
          assert NotAfter(s[j], s[|s| - 1]);
        }
      }
    }
  }

  lemma {:induction false} SortTrsIs(s: seq<Transaction>)
    ensures multiset(SortTrs(s)) == multiset(s) && |SortTrs(s)| == |s| && SortedTrs(SortTrs(s))
  {
    hide SortedTrs, InsertTrs;
    if s == [] {
      SortedNone();
    } else {
      SortTrsIs(s[..|s| - 1]);
      InsertTrsItems(SortTrs(s[..|s| - 1]), s[|s| - 1]);
      InsertTrsSorted(SortTrs(s[..|s| - 1]), s[|s| - 1]);
      assert s == s[..|s| - 1] + [s[|s| - 1]];
    }
  }

  lemma SortedNone()
    ensures SortedTrs([])
  {
  }

  // ---------- removing out of order ----------

  function Without(p: seq<Transaction>, i: nat): seq<Transaction>
    requires i < |p|
  {
    p[..i] + p[i + 1..]
  }

  /** `d` makes the delegate that `v` votes for. */
  predicate Elects(d: Transaction, v: Transaction) {
    d.asset.NewDelegate? && d.sender in VoteKeys(v)
  }

  /** A second registration or delegate of one sender: the undo of either takes the
      same thing back. */
  predicate Twice(s: Transaction, t: Transaction) {
    s.sender == t.sender && ((s.asset.NewDelegate? && t.asset.NewDelegate?) || (s.asset.Register? && t.asset.Register?))
  }

  /** Two transactions that may have to be undone in the opposite order. */
  predicate Tied(s: Transaction, t: Transaction) {
    Ordered(s, t) || Elects(s, t) || Elects(t, s) || Twice(s, t)
  }

  predicate Targets(l: Ledger, t: Transaction) {
    forall d :: d in VoteKeys(t) ==> d in l.delegates
  }

  /** What a registration or a new delegate made is still there. */
  predicate Held(l: Ledger, t: Transaction) {
    && (t.asset.NewDelegate? ==>
          && t.sender in l.delegates && l.delegates[t.sender].username == t.asset.username
          && Acc(l, t.sender).isDelegate)
    && (t.asset.Register? ==> Acc(l, t.sender).referrals != [])
  }

  /** What undoing looks up and takes back is there. */
  predicate UndoReady(l: Ledger, t: Transaction) {
    && Targets(l, t) && Held(l, t)
    && (t.IsUp() ==> VoteKeys(t) <= Acc(l, t.sender).votes)
  }

  predicate AllReady(l: Ledger, p: seq<Transaction>)
    decreases |p|
  {
    p == [] || (UndoReady(l, p[|p| - 1]) && AllReady(UndoUnconfirmed(l, p[|p| - 1]), p[..|p| - 1]))
  }

  predicate FreeFrom(p: seq<Transaction>, i: nat)
    requires i < |p|
  {
    forall j :: i < j < |p| ==> !Tied(p[i], p[j])
  }

  lemma WithoutLast(p: seq<Transaction>, i: nat)
    requires i < |p|
    ensures i == |p| - 1 ==> Without(p, i) == p[..i]
    ensures i < |p| - 1 ==> Without(p, i) == Without(p[..|p| - 1], i) + [p[|p| - 1]]
  {
  }

  lemma UndoAllLast(l: Ledger, p: seq<Transaction>, t: Transaction)
    ensures UndoAll(l, p + [t]) == UndoAll(UndoUnconfirmed(l, t), p)
  {
    assert (p + [t])[..|p|] == p;
  }

  lemma AllReadyLast(l: Ledger, p: seq<Transaction>, t: Transaction)
    ensures AllReady(l, p + [t]) <==> UndoReady(l, t) && AllReady(UndoUnconfirmed(l, t), p)
  {
    assert (p + [t])[..|p|] == p;
  }

  lemma TargetsCommute(l: Ledger, s: Transaction, t: Transaction)
    requires !Elects(s, t)
    ensures Targets(UndoUnconfirmed(l, s), t) <==> Targets(l, t)
  {
    hide UndoUnconfirmed;
    UndoParts(l, s);
  }

  lemma HeldCommute(l: Ledger, s: Transaction, t: Transaction)
    requires !Twice(s, t)
    ensures Held(UndoUnconfirmed(l, s), t) <==> Held(l, t)
  {
    hide UndoUnconfirmed, Change, UndoVotes, UndoStakes, Acc;
    UndoParts(l, s);
    UndoAt(l, s, t.sender);
  }

  lemma KeysCommute(l: Ledger, s: Transaction, t: Transaction)
    requires !Ordered(s, t)
    ensures t.IsUp() ==> Acc(UndoUnconfirmed(l, s), t.sender).votes == Acc(l, t.sender).votes
  {
    hide UndoUnconfirmed, Change, UndoStakes, Acc;
    UndoAt(l, s, t.sender);
  }

  /** Undoing one transaction does not take away what another's undo looks up. */
  lemma ReadyCommute(l: Ledger, s: Transaction, t: Transaction)
    requires !Tied(s, t)
    ensures UndoReady(UndoUnconfirmed(l, s), t) <==> UndoReady(l, t)
  {
    hide UndoUnconfirmed, Acc, Targets, Held, Ordered, Elects, Twice;
    TargetsCommute(l, s, t);
    HeldCommute(l, s, t);
    KeysCommute(l, s, t);
  }

  /** A transaction that is free from the later ones may be undone first. */
  lemma {:induction false} UndoEarly(l: Ledger, p: seq<Transaction>, i: nat)
    requires i < |p| && FreeFrom(p, i)
    ensures UndoAll(l, p) == UndoAll(UndoUnconfirmed(l, p[i]), Without(p, i))
    ensures AllReady(l, p) ==> UndoReady(l, p[i]) && AllReady(UndoUnconfirmed(l, p[i]), Without(p, i))
    decreases |p|
  {
    hide UndoUnconfirmed, UndoReady, Tied;
    WithoutLast(p, i);
    if i < |p| - 1 {
      var init, last := p[..|p| - 1], p[|p| - 1];
      assert !Tied(p[i], last);
      UndoEarly(UndoUnconfirmed(l, last), init, i);
      TiedIs(p[i], last);
      UndosCommute(l, last, p[i]);
      ReadyCommute(l, last, p[i]);
      ReadyCommute(l, p[i], last);
      UndoAllLast(UndoUnconfirmed(l, p[i]), Without(init, i), last);
      AllReadyLast(UndoUnconfirmed(l, p[i]), Without(init, i), last);
    }
  }

  lemma TiedIs(s: Transaction, t: Transaction)
    ensures Tied(s, t) <==> Tied(t, s)
    ensures Ordered(s, t) || Ordered(t, s) ==> Tied(s, t)
  {
  }

  // ---------- draining in sort order ----------

  /** Tied transactions were pushed in sort order. */
  ghost predicate TiedSorted(p: seq<Transaction>) {
    forall i, j :: 0 <= i < j < |p| && Tied(p[i], p[j]) ==> !NotAfter(p[j], p[i])
  }

  lemma TiedSortedWithout(p: seq<Transaction>, i: nat)
    requires TiedSorted(p) && i < |p|
    ensures TiedSorted(Without(p, i))
  {
    hide Tied, NotAfter;
    var r := Without(p, i);
    forall j, k | 0 <= j < k < |r| && Tied(r[j], r[k])
      ensures !NotAfter(r[k], r[j])
    {
      assert r[j] == p[if j < i then j else j + 1] && r[k] == p[if k < i then k else k + 1];
    }
  }

  lemma WithoutItems(p: seq<Transaction>, i: nat)
    requires i < |p|
    ensures multiset(Without(p, i)) == multiset(p) - multiset{p[i]}
  {
    assert p == p[..i] + [p[i]] + p[i + 1..];
  }

  /** The last transaction of the sort order is free in the pool. */
  lemma LastIsFree(p: seq<Transaction>, q: seq<Transaction>, i: nat)
    requires multiset(p) == multiset(q) && TiedSorted(p) && SortedTrs(q)
    requires i < |p| && q != [] && p[i] == q[|q| - 1]
    ensures FreeFrom(p, i)
  {
    hide Tied, NotAfter;
    forall j | i < j < |p|
      ensures !Tied(p[i], p[j])
    {
      assert p[j] in multiset(q);
      var k :| 0 <= k < |q| && q[k] == p[j];
      assert k < |q| - 1 ==> NotAfter(q[k], q[|q| - 1]);
      Either(q[k], q[|q| - 1]);
    }
  }

  /** Where the last of one order stands in another, and what is left of both. */
  lemma LastElsewhere(p: seq<Transaction>, q: seq<Transaction>) returns (i: nat)
    requires multiset(p) == multiset(q) && q != []
    ensures i < |p| && p[i] == q[|q| - 1]
    ensures multiset(Without(p, i)) == multiset(q[..|q| - 1])
  {
    var t := q[|q| - 1];
    assert q == q[..|q| - 1] + [t];
    assert t in multiset(p);
    i :| 0 <= i < |p| && p[i] == t;
    WithoutItems(p, i);
  }

  /** MAIN: undoing in reverse sort order is undoing in reverse push order. */
  lemma {:induction false} DrainIsUndoAll(l: Ledger, p: seq<Transaction>, q: seq<Transaction>)
    requires multiset(p) == multiset(q) && TiedSorted(p) && SortedTrs(q)
    ensures UndoAll(l, q) == UndoAll(l, p)
    ensures AllReady(l, p) ==> AllReady(l, q)
    decreases |q|
  {
    hide UndoUnconfirmed, UndoReady, Tied, NotAfter, Without;
    SameLength(p, q);
    if q != [] {
      var i := LastElsewhere(p, q);
      LastIsFree(p, q, i);
      UndoEarly(l, p, i);
      TiedSortedWithout(p, i);
      DrainIsUndoAll(UndoUnconfirmed(l, p[i]), Without(p, i), q[..|q| - 1]);
    }
  }

  lemma SameLength(p: seq<Transaction>, q: seq<Transaction>)
    requires multiset(p) == multiset(q)
    ensures |p| == |q|
  {
    assert |multiset(p)| == |p| && |multiset(q)| == |q|;
  }

  // ---------- pushing ----------

  /** The addresses under which the pool files a transaction as crediting them. */
  function Recipients(t: Transaction): set<Address> {
    match t.asset
    case Send(recipient, _) => {recipient}
    case Freeze(_, _, sponsors) => SponsorAddresses(sponsors)
    case Vote(_, reward, unstake, sponsors) => if reward != 0 || unstake != 0 then SponsorAddresses(sponsors) else {}
    case _ => {}
  }

  predicate DependsOn(t: Transaction, p: Transaction) {
    p.sender == t.sender || t.sender in Recipients(p)
  }

  /** Why a transaction has to wait for the next block. */
  predicate Conflict(pool: seq<Transaction>, t: Transaction) {
    exists i :: 0 <= i < |pool| && DependsOn(t, pool[i]) &&
      (t.asset.Signature? || (t.asset.Register? && pool[i].asset.Register?) || !NotAfter(pool[i], t))
  }

  predicate NewInPool(pool: seq<Transaction>, t: Transaction) {
    forall i :: 0 <= i < |pool| ==> pool[i].id != t.id
  }

  /** What pushing needs: the id is new, and the ledger can take it back. */
  predicate Pushable(l: Ledger, pool: seq<Transaction>, t: Transaction) {
    NewInPool(pool, t) && Undoable(l, t) && Targets(l, t)
  }

  lemma {:induction false} StaysPooled(l: Ledger, p: seq<Transaction>, i: nat)
    requires AllReady(l, p) && i < |p|
    ensures Targets(l, p[i]) && Held(l, p[i])
    decreases |p|
  {
    hide UndoUnconfirmed;
    var last := p[|p| - 1];
    if i < |p| - 1 {
      StaysPooled(UndoUnconfirmed(l, last), p[..|p| - 1], i);
      HeldBefore(l, last, p[i]);
    }
  }

  /** What is there after an undo was there before it. */
  lemma HeldBefore(l: Ledger, s: Transaction, t: Transaction)
    requires Held(UndoUnconfirmed(l, s), t) && Targets(UndoUnconfirmed(l, s), t)
    ensures Held(l, t) && Targets(l, t)
  {
    hide UndoUnconfirmed, Change, UndoVotes, UndoStakes;
    UndoParts(l, s);
    UndoAt(l, s, t.sender);
  }

  /** Neither a delegate already nor registered. */
  predicate Newcomer(l: Ledger, t: Transaction) {
    && (t.asset.NewDelegate? ==> t.sender !in l.delegates)
    && (t.asset.Register? ==> Acc(l, t.sender).referrals == [])
  }

  lemma TiedBefore(l: Ledger, pool: seq<Transaction>, t: Transaction, i: nat)
    requires AllReady(l, pool) && NewInPool(pool, t) && Newcomer(l, t) && !Conflict(pool, t) && i < |pool| && Tied(pool[i], t)
    ensures !NotAfter(t, pool[i])
  {
    hide AllReady, NotAfter, Acc;
    StaysPooled(l, pool, i);
    if Ordered(pool[i], t) {
      assert DependsOn(t, pool[i]);
      Either(t, pool[i]);
    } else {
      assert !Twice(pool[i], t);
      DelegatesFirst(pool[i], t);
    }
  }

  lemma DelegatesFirst(d: Transaction, v: Transaction)
    ensures Elects(d, v) ==> !NotAfter(v, d)
  {
  }

  /** `t` sorts after all it is tied to. */
  ghost predicate TiedAfter(pool: seq<Transaction>, t: Transaction) {
    forall i :: 0 <= i < |pool| && Tied(pool[i], t) ==> !NotAfter(t, pool[i])
  }

  /** MAIN: an admitted transaction sorts after all it is tied to. */
  lemma AdmittedLast(l: Ledger, pool: seq<Transaction>, t: Transaction)
    requires AllReady(l, pool) && NewInPool(pool, t) && Newcomer(l, t) && !Conflict(pool, t)
    ensures TiedAfter(pool, t)
  {
    hide AllReady, NotAfter, NewInPool, Newcomer, Conflict, Tied;
    forall i | 0 <= i < |pool| && Tied(pool[i], t)
      ensures !NotAfter(t, pool[i])
    {
      TiedBefore(l, pool, t, i);
    }
  }

  lemma PushableNew(l: Ledger, pool: seq<Transaction>, t: Transaction)
    requires Pushable(l, pool, t)
    ensures NewInPool(pool, t) && Newcomer(l, t)
  {
  }

  lemma TiedAppend(pool: seq<Transaction>, t: Transaction)
    requires TiedSorted(pool) && TiedAfter(pool, t)
    ensures TiedSorted(pool + [t])
  {
    hide NotAfter, Tied;
    var longer := pool + [t];
    forall i, j | 0 <= i < j < |longer| && Tied(longer[i], longer[j])
      ensures !NotAfter(longer[j], longer[i])
    {
      assert longer[i] == pool[i];
      assert j < |pool| ==> longer[j] == pool[j];
    }
  }

  lemma PushReady(l: Ledger, pool: seq<Transaction>, t: Transaction)
    requires Normal(l) && AllReady(l, pool) && Pushable(l, pool, t)
    ensures AllReady(ApplyUnconfirmed(l, t), pool + [t])
    ensures UndoAll(ApplyUnconfirmed(l, t), pool + [t]) == UndoAll(l, pool)
  {
    hide ApplyUnconfirmed, UndoUnconfirmed, Change, Undoable;
    UndoRestoresIff(l, t);
    UndoAllLast(ApplyUnconfirmed(l, t), pool, t);
    AllReadyLast(ApplyUnconfirmed(l, t), pool, t);
    ApplyParts(l, t);
    ApplyAt(l, t, t.sender);
  }

  /** Every transaction was admitted where it was pushed. */
  predicate Admitted(base: Ledger, pushed: seq<Transaction>) {
    pushed == [] ||
    (var init, t := pushed[..|pushed| - 1], pushed[|pushed| - 1];
     Admitted(base, init) && Pushable(ApplyAll(base, init), init, t) && !Conflict(init, t))
  }

  lemma {:induction false} AdmittedIs(base: Ledger, pushed: seq<Transaction>)
    requires Normal(base) && Admitted(base, pushed)
    ensures var l := ApplyAll(base, pushed);
      Normal(l) && UndoAll(l, pushed) == base && AllReady(l, pushed) && TiedSorted(pushed)
  {
    hide ApplyUnconfirmed, Normal, Pushable, Conflict, Tied, NotAfter;
    if pushed != [] {
      var init, t := pushed[..|pushed| - 1], pushed[|pushed| - 1];
      AdmittedIs(base, init);
      ApplyAllNormal(base, pushed);
      PushReady(ApplyAll(base, init), init, t);
      PushableNew(ApplyAll(base, init), init, t);
      AdmittedLast(ApplyAll(base, init), init, t);
      TiedAppend(init, t);
      assert init + [t] == pushed;
    }
  }

  /** MAIN: after any admitted pushes of any senders, draining the pool in reverse
      sort order gives the ledger back that the first push found. */
  lemma DrainRestores(base: Ledger, pushed: seq<Transaction>)
    requires Normal(base) && Admitted(base, pushed)
    ensures UndoAll(ApplyAll(base, pushed), SortTrs(pushed)) == base
  {
    hide ApplyAll, Normal, Admitted, TiedSorted, SortedTrs;
    AdmittedIs(base, pushed);
    SortTrsIs(pushed);
    DrainIsUndoAll(ApplyAll(base, pushed), pushed, SortTrs(pushed));
  }

  /** Taking only the first of the sort order may leave the ledger wrong: an
      up-vote taken while a later down-vote of the same sender stays. */
  lemma PartialPopLeaks(a: Address, d: Address)
    requires a != d
    ensures
      var base := Ledger(map[d := EMPTY_ACCOUNT.(isDelegate := true)], map[d := Delegate("d", "", 0, 0, 0, 0)], {"d"}, {});
      var up := Transaction(1, a, 0, 0, Vote([VoteItem(true, d)], 0, 0, []));
      var down := Transaction(2, a, 1, 0, Vote([VoteItem(false, d)], 0, 0, []));
      var l := ApplyAll(base, [up, down]);
      && Normal(base) && Admitted(base, [up, down])
      && SortTrs([up, down]) == [up, down]
      && UndoAll(UndoUnconfirmed(l, up), [down]) != base
  {
    var base := Ledger(map[d := EMPTY_ACCOUNT.(isDelegate := true)], map[d := Delegate("d", "", 0, 0, 0, 0)], {"d"}, {});
    var up := Transaction(1, a, 0, 0, Vote([VoteItem(true, d)], 0, 0, []));
    var down := Transaction(2, a, 1, 0, Vote([VoteItem(false, d)], 0, 0, []));
    PopSteps(base, up, down, d);
  }

  lemma SortPair(s: Transaction, t: Transaction)
    requires NotAfter(s, t)
    ensures SortTrs([s, t]) == [s, t]
  {
    hide NotAfter;
    assert [s, t][..1] == [s] && [s][..0] == [];
    assert SortTrs([]) == [];
    assert SortTrs([s]) == [s];
  }

  lemma PopSteps(base: Ledger, up: Transaction, down: Transaction, d: Address)
    requires Normal(base) && d in base.delegates && Acc(base, up.sender) == EMPTY_ACCOUNT
    requires up == Transaction(1, up.sender, 0, 0, Vote([VoteItem(true, d)], 0, 0, []))
    requires down == Transaction(2, up.sender, 1, 0, Vote([VoteItem(false, d)], 0, 0, []))
    ensures Admitted(base, [up, down]) && SortTrs([up, down]) == [up, down]
    ensures UndoAll(UndoUnconfirmed(ApplyAll(base, [up, down]), up), [down]) != base
  {
    hide ApplyUnconfirmed, UndoUnconfirmed, Change;
    assert Keys(up.asset.votes) == [d] && Keys(down.asset.votes) == [d];
    var one := ApplyUnconfirmed(base, up);
    ApplyAt(base, up, up.sender);
    ApplyParts(base, up);
    assert [up, down][..1] == [up] && [up][..0] == [];
    assert ApplyAll(base, [up]) == one;
    SortPair(up, down);
    assert Admitted(base, [up]);
    assert Pushable(one, [up], down) && !Conflict([up], down);
    UpThenDown(base, up, down, d);
  }

  lemma UpThenDown(base: Ledger, up: Transaction, down: Transaction, d: Address)
    requires Acc(base, up.sender).votes == multiset{} && up.sender == down.sender
    requires up.asset.Vote? && down.asset.Vote? && !up.IsDown() && down.IsDown()
    requires VoteKeys(up) == VoteKeys(down) == multiset{d}
    ensures UndoAll(UndoUnconfirmed(ApplyAll(base, [up, down]), up), [down]) != base
  {
    hide ApplyUnconfirmed, UndoUnconfirmed, Change, VoteKeys;
    var one := ApplyUnconfirmed(base, up);
    var two := ApplyUnconfirmed(one, down);
    var popped := UndoUnconfirmed(two, up);
    assert Acc(popped, up.sender).votes == multiset{} by {
      ApplyAt(base, up, up.sender);
      ApplyAt(one, down, up.sender);
      UndoAt(two, up, up.sender);
    }
    assert Acc(UndoUnconfirmed(popped, down), up.sender).votes == multiset{d} by {
      UndoAt(popped, down, up.sender);
    }
    assert [up, down][..1] == [up] && [up][..0] == [] && [down][..0] == [];
    assert ApplyAll(base, [up]) == one;
    assert ApplyAll(base, [up, down]) == two;
  }

  // ---------- sums over the pool ----------

  function Sum(p: seq<Transaction>, f: Transaction -> int): int {
    if p == [] then 0 else Sum(p[..|p| - 1], f) + f(p[|p| - 1])
  }

  lemma {:induction false} SumWithout(p: seq<Transaction>, i: nat, f: Transaction -> int)
    requires i < |p|
    ensures Sum(p, f) == Sum(Without(p, i), f) + f(p[i])
    decreases |p|
  {
    WithoutLast(p, i);
    if i < |p| - 1 {
      SumWithout(p[..|p| - 1], i, f);
      var r := Without(p, i);
      assert r[..|r| - 1] == Without(p[..|p| - 1], i);
    }
  }

  /** A sum over the pool does not depend on the order it is kept in. */
  lemma {:induction false} SumItems(p: seq<Transaction>, q: seq<Transaction>, f: Transaction -> int)
    requires multiset(p) == multiset(q)
    ensures Sum(p, f) == Sum(q, f)
    decreases |q|
  {
    hide Without;
    SameLength(p, q);
    if q != [] {
      var i := LastElsewhere(p, q);
      SumWithout(p, i, f);
      SumItems(Without(p, i), q[..|q| - 1], f);
    }
  }

  function ChangeAt(a: Address): Transaction -> int {
    (t: Transaction) => Change(t, a)
  }

  /** What the pooled transactions add to one balance. */
  function PoolChange(p: seq<Transaction>, a: Address): int {
    Sum(p, ChangeAt(a))
  }
}
