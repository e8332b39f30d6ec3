/** core/service/transactionPool.ts: the pool with its two indexes, pushing to and
    removing from the ledger in memory. */
module PoolService {
  import opened Model
  import opened Transactions
  import opened Inverse
  import opened Verify
  import opened Blocks
  import opened Store
  import opened Services
  import opened BlockService
  import opened Pool
  import opened PoolOrder
  import opened Caught
  import opened UnderPool
  import opened CheckUnderPool
  import TS = TransactionService
  import VL = VoteLists

  // ---------- lists ----------

  function Select(p: seq<Transaction>, f: Transaction -> bool): seq<Transaction> {
    if p == [] then []
    else if f(p[|p| - 1]) then Select(p[..|p| - 1], f) + [p[|p| - 1]]
    else Select(p[..|p| - 1], f)
  }

  function SentBy(a: Address): Transaction -> bool {
    (t: Transaction) => t.sender == a
  }

  function Crediting(a: Address): Transaction -> bool {
    (t: Transaction) => a in Recipients(t)
  }

  function Not(f: Transaction -> bool): Transaction -> bool {
    (t: Transaction) => !f(t)
  }

  /** Neither sent by nor crediting a sender of the block. */
  function KeptFrom(ts: seq<Transaction>): Transaction -> bool {
    (t: Transaction) => forall k :: 0 <= k < |ts| ==> !DependsOn(ts[k], t)
  }

  lemma SelectAppend(p: seq<Transaction>, t: Transaction, f: Transaction -> bool)
    ensures Select(p + [t], f) == if f(t) then Select(p, f) + [t] else Select(p, f)
  {
    assert (p + [t])[..|p|] == p;
  }

  lemma {:induction false} SelectItems(p: seq<Transaction>, f: Transaction -> bool)
    ensures forall t :: t in Select(p, f) <==> t in p && f(t)
    ensures multiset(Select(p, f)) + multiset(Select(p, Not(f))) == multiset(p)
    ensures |Select(p, f)| <= |p|
  {
    if p != [] {
      SelectItems(p[..|p| - 1], f);
      assert p == p[..|p| - 1] + [p[|p| - 1]];
    }
  }

  lemma {:induction false} SelectBoth(p: seq<Transaction>, f: Transaction -> bool, g: Transaction -> bool, h: Transaction -> bool)
    requires forall t :: h(t) <==> f(t) && g(t)
    ensures Select(Select(p, f), g) == Select(p, h)
  {
    if p != [] {
      var last := p[|p| - 1];
      SelectBoth(p[..|p| - 1], f, g, h);
      if f(last) {
        SelectAppend(Select(p[..|p| - 1], f), last, g);
      }
    }
  }

  lemma {:induction false} SelectAll(p: seq<Transaction>, f: Transaction -> bool)
    requires forall i :: 0 <= i < |p| ==> f(p[i])
    ensures Select(p, f) == p && Select(p, Not(f)) == []
  {
    if p != [] {
      SelectAll(p[..|p| - 1], f);
    }
  }

  /** The list without the first occurrence of an item, if there is one. */
  function CutFirst(s: seq<Transaction>, t: Transaction): seq<Transaction> {
    if s == [] then []
    else if t in s[..|s| - 1] then CutFirst(s[..|s| - 1], t) + [s[|s| - 1]]
    else if s[|s| - 1] == t then s[..|s| - 1]
    else s
  }

  lemma {:induction false} CutFirstAt(s: seq<Transaction>, t: Transaction, i: nat)
    requires i < |s| && s[i] == t && forall j :: 0 <= j < i ==> s[j] != t
    ensures CutFirst(s, t) == s[..i] + s[i + 1..]
  {
    var init := s[..|s| - 1];
    if i < |s| - 1 {
      assert init[i] == t;
      CutFirstAt(init, t, i);
      assert s[i + 1..] == init[i + 1..] + [s[|s| - 1]];
    } else {
      assert t !in init;
    }
  }

  lemma {:induction false} CutFirstNone(s: seq<Transaction>, t: Transaction)
    requires t !in s
    ensures CutFirst(s, t) == s
  {
  }

  lemma DistinctPrefix(p: seq<Transaction>)
    requires DistinctIds(p) && p != []
    ensures DistinctIds(p[..|p| - 1]) && p[|p| - 1] !in p[..|p| - 1]
  {
  }

  lemma DistinctWithout(p: seq<Transaction>, i: nat)
    requires DistinctIds(p) && i < |p|
    ensures DistinctIds(Without(p, i)) && p[i] !in Without(p, i)
  {
    var r := Without(p, i);
    assert forall j :: 0 <= j < |r| ==> r[j] == p[if j < i then j else j + 1];
  }

  /** An index without a removed transaction is the index of the pool without it. */
  lemma {:induction false} SelectWithout(p: seq<Transaction>, i: nat, f: Transaction -> bool)
    requires DistinctIds(p) && i < |p|
    ensures Select(Without(p, i), f) == CutFirst(Select(p, f), p[i])
    decreases |p|
  {
    hide DistinctIds;
    var init, last := p[..|p| - 1], p[|p| - 1];
    WithoutLast(p, i);
    DistinctPrefix(p);
    SelectItems(init, f);
    if i < |p| - 1 {
      assert init[i] == p[i];
      SelectWithout(init, i, f);
      SelectAppend(Without(init, i), last, f);
      CutFirstLast(Select(init, f), last, p[i]);
    } else if !f(last) {
      CutFirstNone(Select(p, f), last);
    }
  }

  lemma CutFirstLast(s: seq<Transaction>, last: Transaction, t: Transaction)
    requires t != last
    ensures CutFirst(s + [last], t) == CutFirst(s, t) + [last]
  {
    assert (s + [last])[..|s|] == s;
    if t !in s {
      CutFirstNone(s, t);
    }
  }

  method IndexOfTrs(s: seq<Transaction>, t: Transaction) returns (i: int)
    ensures i == -1 ==> t !in s
    ensures i != -1 ==> 0 <= i < |s| && s[i] == t && forall j :: 0 <= j < i ==> s[j] != t
  {
    i := 0;
    while i < |s|
      invariant 0 <= i <= |s| && forall j :: 0 <= j < i ==> s[j] != t
    {
      if s[i] == t {
        return;
      }
      i := i + 1;
    }
    i := -1;
  }

  // ---------- an index ----------

  function Listed(m: map<Address, seq<Transaction>>, a: Address): seq<Transaction> {
    if a in m then m[a] else []
  }

  function AddOne(m: map<Address, seq<Transaction>>, a: Address, t: Transaction): map<Address, seq<Transaction>> {
    m[a := Listed(m, a) + [t]]
  }

  /** Splice the transaction out of the list of an address, where it is there. */
  method RemoveOne(m: map<Address, seq<Transaction>>, a: Address, t: Transaction) returns (r: map<Address, seq<Transaction>>)
    ensures forall b :: Listed(r, b) == if b == a then CutFirst(Listed(m, b), t) else Listed(m, b)
  {
    r := m;
    if a in m {
      var i := IndexOfTrs(m[a], t);
      if i != -1 {
        CutFirstAt(m[a], t, i);
        r := m[a := m[a][..i] + m[a][i + 1..]];
      } else {
        CutFirstNone(m[a], t);
      }
    }
  }

  method AddSponsors(m: map<Address, seq<Transaction>>, sponsors: seq<Sponsor>, t: Transaction) returns (r: map<Address, seq<Transaction>>)
    requires DistinctSponsors(sponsors)
    ensures forall b :: Listed(r, b) == Listed(m, b) + (if b in SponsorAddresses(sponsors) then [t] else [])
  {
    r := m;
    for i := 0 to |sponsors|
      invariant forall b :: Listed(r, b) == Listed(m, b) + (if b in SponsorAddresses(sponsors[..i]) then [t] else [])
    {
      SponsorNext(sponsors, i);
      r := AddOne(r, sponsors[i].address, t);
    }
    assert sponsors[..|sponsors|] == sponsors;
  }

  lemma SponsorNext(sponsors: seq<Sponsor>, i: nat)
    requires i < |sponsors|
    ensures SponsorAddresses(sponsors[..i + 1]) == SponsorAddresses(sponsors[..i]) + {sponsors[i].address}
    ensures DistinctSponsors(sponsors) ==> sponsors[i].address !in SponsorAddresses(sponsors[..i])
  {
    assert sponsors[..i + 1] == sponsors[..i] + [sponsors[i]];
  }

  method RemoveSponsors(m: map<Address, seq<Transaction>>, sponsors: seq<Sponsor>, t: Transaction) returns (r: map<Address, seq<Transaction>>)
    requires DistinctSponsors(sponsors)
    ensures forall b :: Listed(r, b) == if b in SponsorAddresses(sponsors) then CutFirst(Listed(m, b), t) else Listed(m, b)
  {
    r := m;
    for i := 0 to |sponsors|
      invariant forall b :: Listed(r, b) == if b in SponsorAddresses(sponsors[..i]) then CutFirst(Listed(m, b), t) else Listed(m, b)
    {
      SponsorNext(sponsors, i);
      r := RemoveOne(r, sponsors[i].address, t);
    }
    assert sponsors[..|sponsors|] == sponsors;
  }

  /** File a transaction under the addresses it credits. */
  method FileRecipients(m: map<Address, seq<Transaction>>, t: Transaction) returns (r: map<Address, seq<Transaction>>)
    requires DistinctSponsors(t.Sponsors())
    ensures forall b :: Listed(r, b) == if b in Recipients(t) then Listed(m, b) + [t] else Listed(m, b)
  {
    hide DistinctSponsors;
    r := m;
    match t.asset {
      case Send(recipient, _) =>
        r := AddOne(m, recipient, t);
      case Vote(_, reward, unstake, sponsors) =>
        if reward != 0 || unstake != 0 {
          r := AddSponsors(m, sponsors, t);
        }
      case Freeze(_, _, sponsors) =>
        r := AddSponsors(m, sponsors, t);
      case _ =>
    }
  }

  /** Take it out of their lists again, wherever it is. */
  method UnfileRecipients(m: map<Address, seq<Transaction>>, t: Transaction) returns (r: map<Address, seq<Transaction>>)
    requires DistinctSponsors(t.Sponsors())
    ensures forall b :: Listed(r, b) == CutFirst(Listed(m, b), t) || (b !in Recipients(t) && Listed(r, b) == Listed(m, b))
  {
    hide DistinctSponsors, CutFirst;
    r := m;
    match t.asset {
      case Send(recipient, _) =>
        r := RemoveOne(m, recipient, t);
      case Vote(_, _, _, sponsors) =>
        r := RemoveSponsors(m, sponsors, t);
      case Freeze(_, _, sponsors) =>
        r := RemoveSponsors(m, sponsors, t);
      case _ =>
    }
  }

  // ---------- the pool ----------

  lemma IndexAppend(p: seq<Transaction>, t: Transaction, a: Address)
    ensures Select(p + [t], SentBy(a)) == if t.sender == a then Select(p, SentBy(a)) + [t] else Select(p, SentBy(a))
    ensures Select(p + [t], Crediting(a)) == if a in Recipients(t) then Select(p, Crediting(a)) + [t] else Select(p, Crediting(a))
  {
    SelectAppend(p, t, SentBy(a));
    SelectAppend(p, t, Crediting(a));
  }

  lemma DistinctAppend(p: seq<Transaction>, t: Transaction)
    requires DistinctIds(p) && NewInPool(p, t)
    ensures DistinctIds(p + [t])
  {
  }

  ghost predicate SponsorsDistinct(p: seq<Transaction>) {
    forall i :: 0 <= i < |p| ==> DistinctSponsors(p[i].Sponsors())
  }

  class TransactionPool {
    const store: LedgerStore
    /** The pooled transactions in the order they were pushed. */
    var pool: seq<Transaction>
    var poolBySender: map<Address, seq<Transaction>>
    var poolByRecipient: map<Address, seq<Transaction>>

    constructor (store: LedgerStore)
      ensures Valid() && this.store == store && pool == [] && Base() == store.View()
    {
      this.store, pool, poolBySender, poolByRecipient := store, [], map[], map[];
    }

    /** Each index lists exactly the pooled transactions it should, each once. */
    ghost predicate Indexed()
      reads this
    {
      && DistinctIds(pool)
      && (forall a :: Listed(poolBySender, a) == Select(pool, SentBy(a)))
      && (forall a :: Listed(poolByRecipient, a) == Select(pool, Crediting(a)))
    }

    /** The ledger under the pool: that of the chain. */
    ghost function Base(): Ledger
      reads this, store
    {
      UndoAll(store.View(), pool)
    }

    /** The indexes are right and the accounts of every pooled transaction exist. */
    ghost predicate Filed()
      reads this, store
    {
      Indexed() && AllHosted(store.accounts.Keys, pool) && SponsorsDistinct(pool)
    }

    /** Besides, undoing in reverse push order finds all it looks up. */
    ghost predicate Valid()
      reads this, store
    {
      Filed() && AllReady(store.View(), pool)
    }

    /** Apply a transaction and keep it; one that is already pooled is left alone. The
        ledger below the pool stays the same when the transaction can be undone. */
    method Push(t: Transaction)
      requires Valid()
      requires NewInPool(pool, t) ==>
                 && Ready(store, t) && Returnable(store.View(), t) && DistinctSponsors(t.Sponsors())
                 && AIRDROP_ADDRESS in store.accounts && SUPPLY_ADDRESS in store.accounts
                 && forall i :: 0 <= i < |t.Sponsors()| ==> t.Sponsors()[i].address in store.accounts
      modifies `pool, `poolBySender, `poolByRecipient, store`accounts, store`delegates, store`usernames
      ensures Valid()
      ensures !old(NewInPool(pool, t)) || Undoable(old(store.View()), t) ==> Base() == old(Base())
      ensures old(NewInPool(pool, t)) ==> pool == old(pool) + [t] && store.View() == ApplyUnconfirmed(old(store.View()), t)
      ensures !old(NewInPool(pool, t)) ==> pool == old(pool) && store.View() == old(store.View())
      ensures old(store.accounts.Keys) <= store.accounts.Keys
      ensures old(NewInPool(pool, t)) && t.asset.Register? ==> t.asset.referral in store.accounts
    {
      hide store.View, Ready, Undoable, Targets, DistinctSponsors, ApplyUnconfirmed, AllReady, UndoAll, Hosted, DistinctIds,
        Select, AllHosted, SponsorsDistinct, Recipients, VoteKeys, Returnable;
      if !NewInPool(pool, t) {
        return;
      }
      ghost var p := pool;
      ghost var l := store.View();
      ReadySender(store, t);
      PushedReady(l, p, t);
      PushedBase(l, p, t);
      ReturnableKeys(l, t);
      DistinctAppend(p, t);
      forall a {
        IndexAppend(p, t, a);
      }
      pool := pool + [t];
      poolBySender := AddOne(poolBySender, t.sender, t);
      poolByRecipient := FileRecipients(poolByRecipient, t);
      ghost var keys := store.accounts.Keys;
      TS.Apply(store, t);
      HostedPush(keys, store.accounts.Keys, p, t);
    }

    /** Undo a pooled transaction, catching what that throws, and forget it. */
    method Remove(t: Transaction) returns (removed: bool, ghost at: nat)
      requires Filed()
      requires forall i :: 0 <= i < |pool| && pool[i].id == t.id ==> pool[i] == t
      modifies `pool, `poolBySender, `poolByRecipient, store`accounts, store`delegates, store`usernames
      ensures Filed()
      ensures store.accounts.Keys == old(store.accounts.Keys)
      ensures removed <==> t in old(pool)
      ensures removed ==> at < |old(pool)| && old(pool)[at] == t && pool == Without(old(pool), at)
      ensures removed && KeysListed(old(store.View()), t) ==> store.View() == UndoCaught(old(store.View()), t)
      ensures !removed ==> pool == old(pool) && store.View() == old(store.View())
    {
      hide store.View, DistinctSponsors, UndoUnconfirmed, Hosted, DistinctIds, Select, AllHosted, CutShort, Leaving, Targets,
        ReadyUndo, CutFirst, Recipients, Without, SponsorsDistinct, UndoCaught, VoteKeys;
      var i := 0;
      while i < |pool| && pool[i].id != t.id
        invariant 0 <= i <= |pool| && forall j :: 0 <= j < i ==> pool[j].id != t.id
      {
        i := i + 1;
      }
      if i == |pool| {
        return false, 0;
      }
      ghost var p := pool;
      ghost var l := store.View();
      PooledReadyUndo(store, p, i);
      ghost var list := store.accounts[t.sender].votes;
      TS.ListedAt(store, t.sender);
      StoreParts(store);
      var threw := TS.Undo(store, t);
      CaughtIs(l, list, t);
      RemovedParts(store.accounts.Keys, p, i);
      pool := Without(pool, i);
      poolBySender := RemoveOne(poolBySender, t.sender, t);
      poolByRecipient := UnfileRecipients(poolByRecipient, t);
      forall a {
        IndexWithout(p, i, a);
      }
      removed, at := true, i;
    }

    /** Remove what an index lists, last first. */
    method RemoveListed(list: seq<Transaction>, ghost f: Transaction -> bool) returns (removed: seq<Transaction>)
      requires Filed() && list == Select(pool, f)
      modifies `pool, `poolBySender, `poolByRecipient, store`accounts, store`delegates, store`usernames
      ensures Filed()
      ensures removed == Reversed(list) && pool == Select(old(pool), Not(f))
      ensures AllListed(old(store.View()), list) ==> store.View() == CaughtAll(old(store.View()), list)
      ensures store.accounts.Keys == old(store.accounts.Keys)
    {
      hide store.View, Select, AllHosted, Listed, Without, SponsorsDistinct, Reversed, DistinctIds, Indexed, UndoCaught, KeysListed;
      removed := [];
      ghost var l := store.View();
      var k := |list|;
      assert list[..k] == list && removed + Reversed(list) == Reversed(list);
      while k > 0
        invariant 0 <= k <= |list| && Filed() && store.accounts.Keys == old(store.accounts.Keys)
        invariant Select(pool, f) == list[..k] && Select(pool, Not(f)) == Select(old(pool), Not(f))
        invariant removed + Reversed(list[..k]) == Reversed(list)
        invariant AllListed(l, list) ==> AllListed(store.View(), list[..k]) && CaughtAll(store.View(), list[..k]) == CaughtAll(l, list)
      {
        k := k - 1;
        IndexedDistinct(this);
        ghost var i := LastListed(pool, f, list[k]);
        ReversedNext(list, k);
        CaughtNext(store.View(), list, k);
        var _, at := Remove(list[k]);
        removed := removed + [list[k]];
      }
      assert list[..0] == [] && removed + Reversed([]) == removed;
      NoneLeft(pool, f);
    }

    /** Remove what one address sent, and then what credits it. */
    method RemoveOf(a: Address) returns (removed: seq<Transaction>)
      requires Filed()
      modifies `pool, `poolBySender, `poolByRecipient, store`accounts, store`delegates, store`usernames
      ensures Filed() && store.accounts.Keys == old(store.accounts.Keys)
      ensures var left := Select(old(pool), Not(SentBy(a)));
        && pool == Select(left, Not(Crediting(a)))
        && removed == Reversed(Select(old(pool), SentBy(a))) + Reversed(Select(left, Crediting(a)))
      ensures multiset(pool) + multiset(removed) == multiset(old(pool))
      ensures AllListed(old(store.View()), Reversed(removed)) ==> store.View() == CaughtAll(old(store.View()), Reversed(removed))
    {
      hide store.View, DistinctIds, Select, AllHosted, Listed, SponsorsDistinct, Recipients, CaughtAll, AllListed, Reversed;
      ghost var l := store.View();
      ghost var p := pool;
      SelectItems(p, SentBy(a));
      var sent := RemoveListed(Listed(poolBySender, a), SentBy(a));
      ghost var left := pool;
      SelectItems(left, Crediting(a));
      var credited := RemoveListed(Listed(poolByRecipient, a), Crediting(a));
      removed := sent + credited;
      BothReversed(Select(p, SentBy(a)), Select(left, Crediting(a)));
      CaughtBoth(l, Select(left, Crediting(a)), Select(p, SentBy(a)));
    }

    /** Make room for a block: remove what its senders sent and what credits them. The
        ledger below the pool stays the same exactly when every stake gives back as
        many milestones, while every removal finds what it looks up. */
    method BatchRemove(ts: seq<Transaction>) returns (removed: seq<Transaction>)
      requires Filed()
      modifies `pool, `poolBySender, `poolByRecipient, store`accounts, store`delegates, store`usernames
      ensures Filed() && store.accounts.Keys == old(store.accounts.Keys)
      ensures pool == Select(old(pool), KeptFrom(ts)) && removed == Removed(old(pool), ts)
      ensures multiset(pool) + multiset(removed) == multiset(old(pool))
      ensures AllListed(old(store.View()), Reversed(removed)) ==> store.View() == CaughtAll(old(store.View()), Reversed(removed))
      ensures var order := pool + Reversed(removed);
        old(Valid()) && AllReady(old(store.View()), order) ==>
          && Valid() && store.View() == UndoAll(old(store.View()), Reversed(removed))
          && (Base() == old(Base()) <==> SameReturns(old(store.View()), old(pool), order))
    {
      hide store.View, Indexed, Select, AllHosted, SponsorsDistinct, Recipients, KeptFrom, UndoAll, AllReady,
        CaughtAll, AllListed, Reversed, SameReturns, Removed;
      removed := [];
      ghost var l := store.View();
      var k := |ts|;
      KeptNone(pool);
      assert ts[k..] == [] && ts[..k] == ts && [] + Removed(pool, ts) == Removed(pool, ts);
      NothingCaught(l);
      while k > 0
        invariant 0 <= k <= |ts| && Filed() && store.accounts.Keys == old(store.accounts.Keys)
        invariant pool == Select(old(pool), KeptFrom(ts[k..]))
        invariant multiset(pool) + multiset(removed) == multiset(old(pool))
        invariant removed + Removed(pool, ts[..k]) == Removed(old(pool), ts)
        invariant AllListed(l, Reversed(removed)) ==> store.View() == CaughtAll(l, Reversed(removed))
      {
        k := k - 1;
        var a := ts[k].sender;
        RemovedNext(pool, ts, k);
        var more := RemoveOf(a);
        ReversedConcat(removed, more);
        CaughtBoth(l, Reversed(more), Reversed(removed));
        KeptNext(ts, k, old(pool));
        assert removed + (more + Removed(pool, ts[..k])) == removed + more + Removed(pool, ts[..k]);
        removed := removed + more;
      }
      assert ts[k..] == ts && ts[..0] == [];
      NothingRemoved(pool);
      assert removed + [] == removed;
      BatchExact(l, old(pool), pool, removed, store.View());
    }

    /** Take the first `limit` of the sort order out of the pool, last first. */
    method PopSorted(limit: nat) returns (popped: seq<Transaction>)
      requires Filed()
      modifies `pool, `poolBySender, `poolByRecipient, store`accounts, store`delegates, store`usernames
      ensures Filed() && store.accounts.Keys == old(store.accounts.Keys)
      ensures popped == Taken(SortTrs(old(pool)), limit)
      ensures multiset(pool) + multiset(popped) == multiset(old(pool))
      ensures AllListed(old(store.View()), popped) ==> store.View() == CaughtAll(old(store.View()), popped)
      ensures var order := pool + popped;
        old(Valid()) && AllReady(old(store.View()), order) ==>
          && Valid() && store.View() == UndoAll(old(store.View()), popped)
          && (Base() == old(Base()) <==> SameReturns(old(store.View()), old(pool), order))
    {
      hide store.View, DistinctIds, Select, AllHosted, Listed, Without, SponsorsDistinct, SortTrs, SortedTrs, Taken, Indexed, AllReady,
        CaughtAll, AllListed, UndoAll, UndoCaught, KeysListed, SameReturns;
      var sorted := SortTrs(pool);
      SortTrsIs(pool);
      popped := Taken(sorted, limit);
      TakenCut(sorted, limit);
      ghost var n := |popped|;
      ghost var l := store.View();
      var k := |popped|;
      assert popped[..k] == popped;
      while k > 0
        invariant 0 <= k <= n && Filed() && store.accounts.Keys == old(store.accounts.Keys)
        invariant multiset(pool) == multiset(sorted[..k] + sorted[n..])
        invariant AllListed(l, popped) ==> AllListed(store.View(), popped[..k]) && CaughtAll(store.View(), popped[..k]) == CaughtAll(l, popped)
      {
        k := k - 1;
        PopStep(pool, sorted, k, n);
        IndexedDistinct(this);
        PoppedThere(pool, sorted, k, n);
        CaughtNext(store.View(), popped, k);
        var _, at := Remove(popped[k]);
      }
      PopDone(sorted, popped, n, store.View());
      PopExact(l, old(pool), pool, popped, store.View());
    }

    /** Take everything out: the ledger is that of the chain again when tied
        transactions were pushed in sort order, and more generally exactly when every
        stake gives back as many milestones in sort order as in push order. */
    method Drain() returns (removed: seq<Transaction>)
      requires Valid()
      modifies `pool, `poolBySender, `poolByRecipient, store`accounts, store`delegates, store`usernames
      ensures Filed() && pool == [] && removed == SortTrs(old(pool))
      ensures AllReady(old(store.View()), removed) ==>
                (store.View() == old(Base()) <==> SameReturns(old(store.View()), old(pool), removed))
      ensures old(TiedSorted(pool)) ==> store.View() == old(Base()) && Valid()
    {
      hide store.View, AllReady, TiedSorted, AllHosted, SponsorsDistinct, SortTrs, Indexed, DistinctIds, UndoAll, CaughtAll, AllListed,
        SameReturns;
      ghost var p := pool;
      ghost var l := store.View();
      SortTrsIs(p);
      removed := PopSorted(|pool|);
      SameLength(pool + removed, p);
      assert multiset(pool + removed) == multiset(pool) + multiset(removed);
      assert pool + removed == removed;
      Drained(l, p, removed, store.View());
    }

    /** Whether a transaction has to wait because of those it depends on. */
    method IsPotentialConflict(t: Transaction) returns (conflict: bool)
      requires Indexed() && NewInPool(pool, t)
      ensures conflict <==> Conflict(pool, t)
    {
      hide Listed, Select, NotAfter, SortTrs, Recipients, DistinctIds, InsertTrs, SortedTrs;
      var dependents := Listed(poolByRecipient, t.sender) + Listed(poolBySender, t.sender);
      DependentsAre(pool, t, dependents);
      if |dependents| == 0 {
        return false;
      }
      assert dependents[0] in dependents;
      if t.asset.Signature? {
        return true;
      }
      assert forall i :: 0 <= i < |dependents| ==> dependents[i] in dependents;
      if t.asset.Register? && exists i :: 0 <= i < |dependents| && dependents[i].asset.Register? {
        return true;
      }
      var sorted := SortTrs(dependents + [t]);
      LastInSort(dependents, t);
      var i := IndexOfTrs(sorted, t);
      conflict := i != |sorted| - 1;
    }
  }

  // ---------- removing several ----------

  function Reversed(s: seq<Transaction>): (r: seq<Transaction>)
    ensures |r| == |s| && multiset(r) == multiset(s)
  {
    if s == [] then []
    else
      assert s == s[..|s| - 1] + [s[|s| - 1]];
      [s[|s| - 1]] + Reversed(s[..|s| - 1])
  }

  lemma ReversedNext(s: seq<Transaction>, k: nat)
    requires k < |s|
    ensures s[..k + 1][..k] == s[..k] && Reversed(s[..k + 1]) == [s[k]] + Reversed(s[..k])
    ensures forall before: seq<Transaction> :: before + Reversed(s[..k + 1]) == before + [s[k]] + Reversed(s[..k])
  {
  }

  /** The last transaction that `f` picks, and the pool without it. */
  lemma {:induction false} SelectLast(p: seq<Transaction>, f: Transaction -> bool) returns (i: nat)
    requires Select(p, f) != []
    ensures i < |p| && f(p[i]) && forall j :: i < j < |p| ==> !f(p[j])
    ensures var s := Select(p, f);
      p[i] == s[|s| - 1] && Select(Without(p, i), f) == s[..|s| - 1] && Select(Without(p, i), Not(f)) == Select(p, Not(f))
  {
    var init, last := p[..|p| - 1], p[|p| - 1];
    if f(last) {
      i := |p| - 1;
      WithoutLast(p, i);
    } else {
      i := SelectLast(init, f);
      WithoutLast(p, i);
      SelectAppend(Without(init, i), last, f);
      SelectAppend(Without(init, i), last, Not(f));
    }
  }

  /** Where the last listed transaction is. */
  lemma LastListed(p: seq<Transaction>, f: Transaction -> bool, t: Transaction) returns (i: nat)
    requires DistinctIds(p) && Select(p, f) != [] && t == Select(p, f)[|Select(p, f)| - 1]
    ensures i < |p| && p[i] == t && t in p
    ensures forall k :: 0 <= k < |p| && p[k].id == t.id ==> k == i && p[k] == t
    ensures Select(Without(p, i), f) == Select(p, f)[..|Select(p, f)| - 1]
    ensures Select(Without(p, i), Not(f)) == Select(p, Not(f))
  {
    hide Select, Without;
    i := SelectLast(p, f);
  }

  function Taken(s: seq<Transaction>, limit: nat): seq<Transaction> {
    if limit <= |s| then s[..limit] else s
  }

  /** What `batchRemove` takes out, in its order. */
  function Removed(p: seq<Transaction>, ts: seq<Transaction>): seq<Transaction>
    decreases |ts|
  {
    if ts == [] then []
    else
      var a := ts[|ts| - 1].sender;
      var left := Select(p, Not(SentBy(a)));
      Reversed(Select(p, SentBy(a))) + Reversed(Select(left, Crediting(a))) +
      Removed(Select(left, Not(Crediting(a))), ts[..|ts| - 1])
  }

  lemma RemovedNext(p: seq<Transaction>, ts: seq<Transaction>, k: nat)
    requires k < |ts|
    ensures var a := ts[k].sender;
      var left := Select(p, Not(SentBy(a)));
      Removed(p, ts[..k + 1]) ==
        Reversed(Select(p, SentBy(a))) + Reversed(Select(left, Crediting(a))) + Removed(Select(left, Not(Crediting(a))), ts[..k])
  {
    hide Select, Reversed;
    assert ts[..k + 1][..k] == ts[..k];
  }

  lemma NothingRemoved(p: seq<Transaction>)
    ensures Removed(p, []) == []
  {
  }

  // ---------- removals one after the other ----------

  /** The list of the sender holds what undoing an up-vote cuts. */
  predicate KeysListed(l: Ledger, t: Transaction) {
    t.IsUp() ==> VoteKeys(t) <= Acc(l, t.sender).votes
  }

  predicate AllListed(l: Ledger, p: seq<Transaction>)
    decreases |p|
  {
    p == [] || (KeysListed(l, p[|p| - 1]) && AllListed(UndoCaught(l, p[|p| - 1]), p[..|p| - 1]))
  }

  lemma CaughtNext(l: Ledger, list: seq<Transaction>, k: nat)
    requires k < |list|
    ensures AllListed(l, list[..k + 1]) <==> KeysListed(l, list[k]) && AllListed(UndoCaught(l, list[k]), list[..k])
    ensures CaughtAll(l, list[..k + 1]) == CaughtAll(UndoCaught(l, list[k]), list[..k])
  {
    hide UndoCaught, KeysListed;
    assert list[..k + 1][..k] == list[..k];
  }

  lemma NothingCaught(l: Ledger)
    ensures Reversed([]) == [] && AllListed(l, []) && CaughtAll(l, []) == l
  {
  }

  lemma {:induction false} CaughtBoth(l: Ledger, p: seq<Transaction>, q: seq<Transaction>)
    ensures CaughtAll(l, p + q) == CaughtAll(CaughtAll(l, q), p)
    ensures AllListed(l, p + q) <==> AllListed(l, q) && AllListed(CaughtAll(l, q), p)
    decreases |q|
  {
    hide UndoCaught, KeysListed;
    if q == [] {
      assert p + q == p;
    } else {
      var init, t := q[..|q| - 1], q[|q| - 1];
      assert (p + q)[..|p + q| - 1] == p + init;
      CaughtBoth(UndoCaught(l, t), p, init);
    }
  }

  lemma {:induction false} ReversedTwice(s: seq<Transaction>)
    ensures Reversed(Reversed(s)) == s
  {
    if s != [] {
      ReversedTwice(s[..|s| - 1]);
      LastReversed(s[..|s| - 1], s[|s| - 1], Reversed(s[..|s| - 1]));
      assert s[..|s| - 1] + [s[|s| - 1]] == s;
    }
  }

  lemma LastReversed(init: seq<Transaction>, last: Transaction, back: seq<Transaction>)
    requires Reversed(back) == init
    ensures Reversed([last] + back) == init + [last]
  {
    hide Reversed;
    ReversedConcat([last], back);
    ReversedOne(last);
  }

  lemma ReversedOne(t: Transaction)
    ensures Reversed([t]) == [t]
  {
    assert [t][..0] == [] && Reversed([]) == [];
  }

  lemma {:induction false} ReversedConcat(s: seq<Transaction>, r: seq<Transaction>)
    ensures Reversed(s + r) == Reversed(r) + Reversed(s)
  {
    if r == [] {
      assert s + r == s;
    } else {
      assert (s + r)[..|s + r| - 1] == s + r[..|r| - 1];
      ReversedConcat(s, r[..|r| - 1]);
    }
  }

  lemma BothReversed(s: seq<Transaction>, r: seq<Transaction>)
    ensures Reversed(Reversed(s) + Reversed(r)) == r + s
  {
    ReversedConcat(Reversed(s), Reversed(r));
    ReversedTwice(s);
    ReversedTwice(r);
  }

  lemma {:induction false} ReadyListed(l: Ledger, p: seq<Transaction>)
    requires AllReady(l, p)
    ensures AllListed(l, p) && CaughtAll(l, p) == UndoAll(l, p)
    decreases |p|
  {
    hide UndoUnconfirmed, Targets, Held;
    if p != [] {
      ReadyListed(UndoUnconfirmed(l, p[|p| - 1]), p[..|p| - 1]);
    }
  }

  /** Removing in another order than that of the pushes. */
  lemma OrderExact(l: Ledger, p: seq<Transaction>, kept: seq<Transaction>, undone: seq<Transaction>)
    requires Normal(l) && AllReady(l, p) && AllReady(l, kept + undone) && multiset(p) == multiset(kept + undone)
    ensures AllListed(l, undone) && AllReady(CaughtAll(l, undone), kept) && CaughtAll(l, undone) == UndoAll(l, undone)
    ensures UndoAll(CaughtAll(l, undone), kept) == UndoAll(l, p) <==> SameReturns(l, p, kept + undone)
  {
    hide UndoAll, AllReady, AllListed, CaughtAll, SameReturns, Normal;
    UndoBoth(l, kept, undone);
    ReadyListed(l, undone);
    OrderIff(l, p, kept + undone);
  }

  lemma BatchExact(l: Ledger, p: seq<Transaction>, kept: seq<Transaction>, removed: seq<Transaction>, m: Ledger)
    requires Normal(l) && multiset(kept) + multiset(removed) == multiset(p)
    requires AllListed(l, Reversed(removed)) ==> m == CaughtAll(l, Reversed(removed))
    ensures var order := kept + Reversed(removed);
      AllReady(l, p) && AllReady(l, order) ==>
        && AllReady(m, kept) && m == UndoAll(l, Reversed(removed))
        && (UndoAll(m, kept) == UndoAll(l, p) <==> SameReturns(l, p, order))
  {
    hide UndoAll, AllReady, AllListed, CaughtAll, SameReturns, Normal, Reversed;
    var undone := Reversed(removed);
    assert multiset(kept + undone) == multiset(p);
    if AllReady(l, p) && AllReady(l, kept + undone) {
      OrderExact(l, p, kept, undone);
    }
  }

  lemma PopExact(l: Ledger, p: seq<Transaction>, kept: seq<Transaction>, popped: seq<Transaction>, m: Ledger)
    requires Normal(l) && multiset(kept) + multiset(popped) == multiset(p)
    requires AllListed(l, popped) ==> m == CaughtAll(l, popped)
    ensures var order := kept + popped;
      AllReady(l, p) && AllReady(l, order) ==>
        && AllReady(m, kept) && m == UndoAll(l, popped)
        && (UndoAll(m, kept) == UndoAll(l, p) <==> SameReturns(l, p, order))
  {
    hide UndoAll, AllReady, AllListed, CaughtAll, SameReturns, Normal;
    assert multiset(kept + popped) == multiset(p);
    if AllReady(l, p) && AllReady(l, kept + popped) {
      OrderExact(l, p, kept, popped);
    }
  }

  lemma Drained(l: Ledger, p: seq<Transaction>, sorted: seq<Transaction>, m: Ledger)
    requires AllReady(l, p) && sorted == SortTrs(p)
    requires AllReady(l, sorted) ==> m == UndoAll(l, sorted)
    ensures AllReady(l, sorted) ==> UndoAll(m, []) == m
    ensures TiedSorted(p) ==> m == UndoAll(l, p) && AllReady(l, sorted) && AllReady(m, [])
  {
    hide TiedSorted, SortedTrs, SortTrs;
    SortTrsIs(p);
    if TiedSorted(p) {
      DrainIsUndoAll(l, p, sorted);
    }
  }

  lemma ReturnableKeys(l: Ledger, t: Transaction)
    requires Returnable(l, t)
    ensures t.IsDown() ==> VoteKeys(t) <= Acc(l, t.sender).votes
  {
  }

  lemma PushedBase(l: Ledger, p: seq<Transaction>, t: Transaction)
    requires Normal(l)
    ensures Undoable(l, t) ==> UndoAll(ApplyUnconfirmed(l, t), p + [t]) == UndoAll(l, p)
  {
    hide ApplyUnconfirmed, UndoUnconfirmed, Undoable, Normal;
    UndoRestoresIff(l, t);
    UndoAllLast(ApplyUnconfirmed(l, t), p, t);
  }

  lemma StoreParts(store: LedgerStore)
    ensures store.View().delegates == store.delegates && Normal(store.View())
  {
  }

  /** What the caught undo leaves, when the list holds what is cut. */
  lemma CaughtIs(l: Ledger, list: seq<Address>, t: Transaction)
    requires Acc(l, t.sender).votes == multiset(list)
    ensures !Targets(l, t) ==> t.asset.Vote?
    ensures !Targets(l, t) && KeysListed(l, t) ==>
              UndoCaught(l, t) == CutShort(l, t, multiset(TS.ListCut(l.delegates, list, t)))
    ensures Targets(l, t) ==> UndoCaught(l, t) == UndoUnconfirmed(l, t)
  {
    hide UndoUnconfirmed, CutShort, FirstMissing, Acc;
    if !Targets(l, t) {
      UntargetedVote(l, t);
      if KeysListed(l, t) && t.IsUp() {
        CutUntilIs(l.delegates, t, list);
      }
    }
  }

  lemma CutUntilIs(ds: map<Address, Delegate>, t: Transaction, list: seq<Address>)
    requires t.IsUp() && VoteKeys(t) <= multiset(list)
    ensures multiset(TS.ListCut(ds, list, t)) == CutList(ds, t, multiset(list))
  {
    hide FirstMissing, VL.CutAll;
    var keys, k := Keys(t.asset.votes), FirstMissing(ds, Keys(t.asset.votes));
    var some := if k < |keys| then keys[..k + 1] else keys;
    assert keys == some + keys[|some|..];
    assert multiset(some) <= multiset(keys);
    VL.CutAllMultiset(list, some);
  }

  lemma IndexedDistinct(p: TransactionPool)
    requires p.Indexed()
    ensures DistinctIds(p.pool)
  {
  }

  lemma PopStep(p: seq<Transaction>, s: seq<Transaction>, k: nat, n: nat)
    requires k < n <= |s| && multiset(p) == multiset(s[..k + 1] + s[n..])
    ensures forall at :: 0 <= at < |p| && p[at] == s[k] ==> multiset(Without(p, at)) == multiset(s[..k] + s[n..])
  {
    hide Without;
    CutLast(s, k, n);
    forall at | 0 <= at < |p| && p[at] == s[k]
      ensures multiset(Without(p, at)) == multiset(s[..k] + s[n..])
    {
      WithoutItems(p, at);
    }
  }

  lemma PopDone(s: seq<Transaction>, popped: seq<Transaction>, n: nat, l: Ledger)
    requires n <= |s| && s[..n] == popped
    ensures multiset(s[..0] + s[n..]) + multiset(popped) == multiset(s)
    ensures CaughtAll(l, popped[..0]) == l
  {
    assert s[..0] + s[n..] == s[n..];
    assert s == popped + s[n..];
  }

  lemma TakenCut(s: seq<Transaction>, limit: nat)
    ensures var n := |Taken(s, limit)|;
      n <= |s| && s[..n] == Taken(s, limit) && s[..n] + s[n..] == s
  {
  }

  lemma CutLast(s: seq<Transaction>, k: nat, n: nat)
    requires k < n <= |s|
    ensures multiset(s[..k + 1] + s[n..]) == multiset(s[..k] + s[n..]) + multiset{s[k]}
    ensures s[k] in s[..k + 1] + s[n..]
  {
    assert s[..k + 1] == s[..k] + [s[k]];
    assert (s[..k + 1] + s[n..])[k] == s[k];
  }

  lemma ItemOf(p: seq<Transaction>, s: seq<Transaction>, j: nat) returns (m: nat)
    requires multiset(p) == multiset(s) && j < |p|
    ensures m < |s| && s[m] == p[j]
  {
    assert p[j] in multiset(s);
    m :| 0 <= m < |s| && s[m] == p[j];
  }

  /** The next transaction to pop is there. */
  lemma PoppedThere(p: seq<Transaction>, s: seq<Transaction>, k: nat, n: nat)
    requires k < n <= |s| && DistinctIds(p) && multiset(p) == multiset(s[..k + 1] + s[n..])
    ensures s[k] in p
    ensures forall i :: 0 <= i < |p| && p[i].id == s[k].id ==> p[i] == s[k]
  {
    var left := s[..k + 1] + s[n..];
    assert left[k] == s[k];
    var at := ItemOf(left, p, k);
  }

  lemma DependentsAre(p: seq<Transaction>, t: Transaction, dependents: seq<Transaction>)
    requires dependents == Select(p, Crediting(t.sender)) + Select(p, SentBy(t.sender))
    ensures forall i :: 0 <= i < |p| && DependsOn(t, p[i]) ==> p[i] in dependents
    ensures forall x :: x in dependents ==> DependsOn(t, x) && exists i :: 0 <= i < |p| && p[i] == x
  {
    hide Recipients, Select;
    SelectItems(p, Crediting(t.sender));
    SelectItems(p, SentBy(t.sender));
  }

  /** After sorting, the new transaction is last exactly when none sorts after it. */
  lemma LastInSort(s: seq<Transaction>, t: Transaction)
    requires t !in s
    ensures var r := SortTrs(s + [t]);
      && |r| == |s| + 1 && t in r
      && (forall i, j :: 0 <= i < j < |r| && r[i] == t ==> r[j] != t)
      && (r[|s|] == t <==> forall x :: x in s ==> NotAfter(x, t))
  {
    hide NotAfter, InsertTrs;
    assert (s + [t])[..|s|] == s;
    var sorted := SortTrs(s);
    SortTrsIs(s);
    InsertTrsItems(sorted, t);
    InsertTrsSorted(sorted, t);
    SameMembers(s, sorted);
    var r := SortTrs(s + [t]);
    forall i, j | 0 <= i < j < |r| && r[i] == t
      ensures r[j] != t
    {
      TwiceCounts(r, t, i, j);
    }
  }

  lemma TwiceCounts(r: seq<Transaction>, t: Transaction, i: nat, j: nat)
    requires i < j < |r|
    ensures r[i] == t && r[j] == t ==> multiset(r)[t] >= 2
  {
    assert r == r[..i] + [r[i]] + r[i + 1..j] + [r[j]] + r[j + 1..];
  }

  lemma SameMembers(s: seq<Transaction>, r: seq<Transaction>)
    requires multiset(s) == multiset(r)
    ensures forall x :: x in s <==> x in r
  {
    forall x
      ensures x in s <==> x in r
    {
      assert x in multiset(s) <==> x in multiset(r);
    }
  }

  lemma KeptNext(ts: seq<Transaction>, k: nat, p: seq<Transaction>)
    requires k < |ts|
    ensures var a := ts[k].sender;
      Select(Select(Select(p, KeptFrom(ts[k + 1..])), Not(SentBy(a))), Not(Crediting(a))) == Select(p, KeptFrom(ts[k..]))
  {
    hide Select, Recipients;
    var a := ts[k].sender;
    var f := KeptFrom(ts[k + 1..]);
    var g: Transaction -> bool := (t: Transaction) => f(t) && !SentBy(a)(t);
    SelectBoth(p, f, Not(SentBy(a)), g);
    assert ts[k..] == [ts[k]] + ts[k + 1..];
    forall t
      ensures KeptFrom(ts[k..])(t) <==> g(t) && Not(Crediting(a))(t)
    {
      KeptMeans(ts[k], ts[k + 1..], t);
    }
    SelectBoth(p, g, Not(Crediting(a)), KeptFrom(ts[k..]));
  }

  lemma KeptMeans(b: Transaction, rest: seq<Transaction>, t: Transaction)
    ensures KeptFrom([b] + rest)(t) <==> KeptFrom(rest)(t) && !DependsOn(b, t)
  {
    var ts := [b] + rest;
    assert ts[0] == b && forall k :: 0 <= k < |rest| ==> ts[k + 1] == rest[k];
  }

  lemma {:induction false} NoneLeft(p: seq<Transaction>, f: Transaction -> bool)
    requires Select(p, f) == []
    ensures Select(p, Not(f)) == p
  {
    if p != [] {
      NoneLeft(p[..|p| - 1], f);
    }
  }

  lemma KeptNone(p: seq<Transaction>)
    ensures Select(p, KeptFrom([])) == p
  {
    SelectAll(p, KeptFrom([]));
  }

  lemma IndexWithout(p: seq<Transaction>, i: nat, a: Address)
    requires DistinctIds(p) && i < |p|
    ensures Select(Without(p, i), SentBy(a)) == CutFirst(Select(p, SentBy(a)), p[i])
    ensures Select(Without(p, i), Crediting(a)) == CutFirst(Select(p, Crediting(a)), p[i])
    ensures a != p[i].sender ==> CutFirst(Select(p, SentBy(a)), p[i]) == Select(p, SentBy(a))
    ensures a !in Recipients(p[i]) ==> CutFirst(Select(p, Crediting(a)), p[i]) == Select(p, Crediting(a))
  {
    hide DistinctIds, Select, Recipients, Without, CutFirst;
    SelectWithout(p, i, SentBy(a));
    SelectWithout(p, i, Crediting(a));
    SelectItems(p, SentBy(a));
    SelectItems(p, Crediting(a));
    if a != p[i].sender {
      CutFirstNone(Select(p, SentBy(a)), p[i]);
    }
    if a !in Recipients(p[i]) {
      CutFirstNone(Select(p, Crediting(a)), p[i]);
    }
  }

  lemma RemovedParts(keys: set<Address>, p: seq<Transaction>, i: nat)
    requires i < |p| && DistinctIds(p) && AllHosted(keys, p) && SponsorsDistinct(p)
    ensures var r := Without(p, i);
      DistinctIds(r) && AllHosted(keys, r) && SponsorsDistinct(r) && DistinctSponsors(p[i].Sponsors()) && p[i] in p
    ensures forall k :: 0 <= k < |p| && p[k].id == p[i].id ==> k == i
  {
    hide Hosted, DistinctSponsors;
    DistinctWithout(p, i);
    var r := Without(p, i);
    assert forall j :: 0 <= j < |r| ==> r[j] == p[if j < i then j else j + 1];
  }

  lemma PooledReadyUndo(store: LedgerStore, p: seq<Transaction>, i: nat)
    requires i < |p| && AllHosted(store.accounts.Keys, p)
    ensures ReadyUndo(store, p[i])
  {
    assert Hosted(store.accounts.Keys, p[i]);
  }

  lemma ReadySender(store: LedgerStore, t: Transaction)
    requires Ready(store, t)
    ensures t.sender in store.accounts
  {
  }

  lemma HostedPush(keys: set<Address>, more: set<Address>, p: seq<Transaction>, t: Transaction)
    requires AllHosted(keys, p) && keys <= more && t.sender in keys && AIRDROP_ADDRESS in keys && SUPPLY_ADDRESS in keys
    requires forall i :: 0 <= i < |t.Sponsors()| ==> t.Sponsors()[i].address in keys
    requires t.asset.Send? ==> t.asset.recipient in more
    ensures AllHosted(more, p + [t])
    ensures SponsorsDistinct(p) && DistinctSponsors(t.Sponsors()) ==> SponsorsDistinct(p + [t])
  {
    var longer := p + [t];
    forall k | 0 <= k < |longer|
      ensures Hosted(more, longer[k])
    {
      assert k < |p| ==> Hosted(keys, p[k]);
    }
  }
}
