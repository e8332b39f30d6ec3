/** core/service/transactionQueue.ts: transactions that wait for the pool. */
module QueueService {
  import opened Model
  import opened Transactions
  import opened Inverse
  import opened Verify
  import opened Blocks
  import opened Totals
  import opened Sound
  import opened BlockRuns
  import opened Store
  import opened Services
  import opened BlockService
  import opened Pool
  import opened CheckUnderPool
  import opened PoolService
  import VS = VerifyService

  const VOTE_FEE_DIVISOR := 10000

  /** A vote's fee depends on its sender's active stakes and is set anew here. */
  function WithFee(x: Account, t: Transaction): Transaction {
    if t.asset.Vote? then t.(fee := CeilDiv(ActiveStake(x.stakes), VOTE_FEE_DIVISOR)) else t
  }

  /** The least fee that ten thousand of are the amount or more. */
  predicate IsTenThousandth(fee: int, amount: int) {
    10000 * (fee - 1) < amount <= 10000 * fee
  }

  /** MAIN: a vote in the queue is taken with a ten-thousandth of its sender's active
      stakes, rounded up, as its fee; any other transaction as it is. */
  lemma FeeIs(x: Account, t: Transaction)
    ensures WithFee(x, t) == t.(fee := WithFee(x, t).fee)
    ensures t.asset.Vote? ==> IsTenThousandth(WithFee(x, t).fee, ActiveStake(x.stakes))
    ensures !t.asset.Vote? ==> WithFee(x, t) == t
  {
  }

  method CalculateFee(store: LedgerStore, t: Transaction) returns (r: Transaction)
    requires t.sender in store.accounts
    ensures r == WithFee(Acc(store.View(), t.sender), t) == t.(fee := r.fee)
    ensures t.asset.Vote? ==> IsTenThousandth(r.fee, ActiveStake(Acc(store.View(), t.sender).stakes))
    ensures !t.asset.Vote? ==> r == t
  {
    store.StoredAt(t.sender);
    if !t.asset.Vote? {
      return t;
    }
    var stakes := store.accounts[t.sender].stakes;
    var sum := 0;
    for i := 0 to |stakes|
      invariant sum == ActiveStake(stakes[..i])
    {
      assert stakes[..i + 1][..i] == stakes[..i];
      if stakes[i].isActive {
        sum := sum + stakes[i].amount;
      }
    }
    assert stakes[..|stakes|] == stakes;
    r := t.(fee := CeilDiv(sum, VOTE_FEE_DIVISOR));
  }

  /** What became of the transaction at the head of the queue. */
  datatype Outcome = Nothing | AlreadyPooled | Waits | Declined | Pooled

  /** Every stake comes from a confirmed or pooled transaction. */
  ghost predicate SourcesKnown(l: Ledger, pool: seq<Transaction>) {
    SourcesIn(l, l.confirmed + Ids(pool))
  }

  lemma SourceIsNew(l: Ledger, pool: seq<Transaction>, t: Transaction)
    requires SourcesKnown(l, pool) && NewInPool(pool, t) && t.id !in l.confirmed
    ensures NewSource(l, t)
  {
    hide SourcesIn;
    SourceNew(l, l.confirmed + Ids(pool), t);
  }

  lemma SourcesPushed(l: Ledger, pool: seq<Transaction>, t: Transaction)
    requires SourcesKnown(l, pool)
    ensures SourcesKnown(ApplyUnconfirmed(l, t), pool + [t])
  {
    hide SourcesIn, ApplyUnconfirmed;
    SourcesKept(l, l.confirmed + Ids(pool), t);
    ApplyParts(l, t);
    assert Ids(pool + [t]) == Ids(pool) + {t.id};
    assert l.confirmed + Ids(pool + [t]) == l.confirmed + Ids(pool) + {t.id};
  }

  /** What passes the check can be pushed, and be undone there exactly when it is regular. */
  lemma VerifiedPushable(l: Ledger, height: nat, pool: seq<Transaction>, t: Transaction)
    requires Sane(l) && SourcesKnown(l, pool) && NewInPool(pool, t)
    requires WellFormed(t) && DownOnly(t) && Verified(l, height, t)
    ensures Returnable(l, t)
    ensures Undoable(l, t) <==> Regular(l, t)
  {
    hide Undoable, Sane, SourcesKnown, Regular, WellFormed, DownOnly, VoteOk, FreezeOk, Acc, Returnable;
    VerifiedReturnable(l, height, t);
    SourceIsNew(l, pool, t);
    SaneDelegates(l, t.sender);
    RegularUndoableIff(l, height, t);
  }

  class TransactionQueue {
    const pool: TransactionPool
    var queue: seq<Transaction>
    var conflictedQueue: seq<Transaction>
    var locked: bool

    constructor (pool: TransactionPool)
      ensures this.pool == pool && queue == [] && conflictedQueue == [] && !locked
    {
      this.pool, queue, conflictedQueue, locked := pool, [], [], false;
    }

    method Lock()
      modifies `locked
      ensures locked
    {
      locked := true;
    }

    method Unlock()
      requires SortedTrs(queue)
      modifies this
      ensures !locked && SortedTrs(queue) && conflictedQueue == []
      ensures multiset(queue) == multiset(old(queue)) + multiset(old(conflictedQueue))
    {
      locked := false;
      Reshuffle();
    }

    /** Queue a transaction in sort order, unless its id is queued. */
    method Push(t: Transaction)
      requires SortedTrs(queue)
      modifies `queue
      ensures SortedTrs(queue)
      ensures multiset(queue) == if NewInPool(old(queue), t) then multiset(old(queue)) + multiset{t} else multiset(old(queue))
    {
      hide SortedTrs, SortTrs;
      if !NewInPool(queue, t) {
        return;
      }
      queue := queue + [t];
      SortTrsIs(queue);
      if |queue| != 1 {
        queue := SortTrs(queue);
      } else {
        SortOne(queue);
      }
    }

    lemma SortOne(s: seq<Transaction>)
      requires |s| == 1
      ensures SortedTrs(s)
    {
    }

    /** Put what waited back into the queue. */
    method Reshuffle()
      modifies `queue, `conflictedQueue
      ensures SortedTrs(queue) && conflictedQueue == []
      ensures multiset(queue) == multiset(old(queue)) + multiset(old(conflictedQueue))
    {
      var all := queue + conflictedQueue;
      conflictedQueue := [];
      SortTrsIs(all);
      queue := SortTrs(all);
    }

    /** Take the head of the queue and decide where it goes. `idle` is whether the
        node synchronises or has no peers. */
    method Process(height: nat, idle: bool) returns (outcome: Outcome)
      requires SortedTrs(queue) && pool.Valid() && StoreOk(pool.store)
      requires Sane(pool.store.View()) && SourcesKnown(pool.store.View(), pool.pool)
      requires forall i :: 0 <= i < |queue| ==> queue[i].sender in pool.store.accounts
      requires queue != [] ==>
                 var l := pool.store.View();
                 var t := WithFee(Acc(l, queue[0].sender), queue[0]);
                 Verified(l, height, t) ==> WellFormed(t) && DownOnly(t)
      modifies `queue, `conflictedQueue, pool`pool, pool`poolBySender, pool`poolByRecipient,
        pool.store`accounts, pool.store`delegates, pool.store`usernames
      ensures SortedTrs(queue) && pool.Valid() && StoreOk(pool.store)
      ensures Sane(pool.store.View()) && SourcesKnown(pool.store.View(), pool.pool)
      ensures old(TiedSorted(pool.pool)) ==> TiedSorted(pool.pool)
      ensures !outcome.Pooled? ==> pool.Base() == old(pool.Base())
      ensures outcome.Nothing? <==> old(queue) == [] || locked || idle
      ensures outcome.Nothing? ==> queue == old(queue)
      ensures !outcome.Nothing? ==> queue == old(queue)[1..]
      ensures !outcome.Nothing? ==>
                var t := old(queue)[0];
                var l := old(pool.store.View());
                var r := WithFee(Acc(l, t.sender), t);
                outcome == if !NewInPool(old(pool.pool), t) then AlreadyPooled
                           else if Conflict(old(pool.pool), t) then Waits
                           else if Verified(l, height, r) then Pooled
                           else Declined
      ensures outcome.Waits? ==> conflictedQueue == old(conflictedQueue) + [old(queue)[0]]
      ensures !outcome.Waits? ==> conflictedQueue == old(conflictedQueue)
      ensures outcome.Pooled? ==>
                var l := old(pool.store.View());
                var r := WithFee(Acc(l, old(queue)[0].sender), old(queue)[0]);
                && pool.pool == old(pool.pool) + [r] && pool.store.View() == ApplyUnconfirmed(l, r)
                && (Regular(l, r) ==> pool.Base() == old(pool.Base()))
      ensures !outcome.Pooled? ==> pool.pool == old(pool.pool) && pool.store.View() == old(pool.store.View())
    {
      hide pool.store.View, SortedTrs, LedgerHosted, Sane, SourcesKnown, Verified, WellFormed, DownOnly, Regular, Conflict, Acc, AllReady,
        TiedSorted, Listed, Select, Ready, Returnable, TiedAfter, AllHosted, SponsorsDistinct, DistinctSponsors, ApplyUnconfirmed,
        Undoable, UndoAll, pool.Indexed;
      if |queue| == 0 || locked || idle {
        return Nothing;
      }
      var t := queue[0];
      TailSorted(queue);
      queue := queue[1..];
      if !NewInPool(pool.pool, t) {
        return AlreadyPooled;
      }
      var conflict := pool.IsPotentialConflict(t);
      if conflict {
        conflictedQueue := conflictedQueue + [t];
        return Waits;
      }
      var store := pool.store;
      ghost var l := store.View();
      ghost var p := pool.pool;
      var r := CalculateFee(store, t);
      FeeKeeps(p, Acc(l, t.sender), t);
      StoreAccounts(store);
      var verified := VS.VerifyUnconfirmed(store, height, r);
      if !verified {
        return Declined;
      }
      PushFacts(store, height, p, r);
      if TiedSorted(p) {
        TiedAppend(p, r);
      }
      ghost var keys := store.accounts.Keys;
      pool.Push(r);
      StoreOkPushed(store, l, keys, r);
      return Pooled;
    }

    /** Push one again: it joins the pool, or waits in the queue if it no longer passes
        the check. */
    method PushBack(height: nat, t: Transaction) returns (verified: bool)
      requires SortedTrs(queue) && pool.Valid() && StoreOk(pool.store)
      requires Sane(pool.store.View()) && SourcesKnown(pool.store.View(), pool.pool)
      requires t.sender in pool.store.accounts && WellFormed(t) && DownOnly(t)
      modifies `queue, pool`pool, pool`poolBySender, pool`poolByRecipient,
        pool.store`accounts, pool.store`delegates, pool.store`usernames
      ensures SortedTrs(queue) && pool.Valid() && StoreOk(pool.store) && old(pool.store.accounts.Keys) <= pool.store.accounts.Keys
      ensures Sane(pool.store.View()) && SourcesKnown(pool.store.View(), pool.pool)
      ensures verified == Verified(old(pool.store.View()), height, t)
      ensures var l, p := old(pool.store.View()), old(pool.pool);
        if verified && NewInPool(p, t)
        then pool.pool == p + [t] && pool.store.View() == ApplyUnconfirmed(l, t) && (Regular(l, t) ==> pool.Base() == old(pool.Base()))
        else pool.pool == p && pool.store.View() == l && pool.Base() == old(pool.Base())
      ensures var q := old(queue);
        multiset(queue) == if !verified && NewInPool(q, t) then multiset(q) + multiset{t} else multiset(q)
    {
      hide pool.store.View, SortedTrs, LedgerHosted, Sane, SourcesKnown, Verified, WellFormed, DownOnly, Regular, Acc, AllReady,
        Listed, Select, Ready, Returnable, TiedAfter, AllHosted, SponsorsDistinct, DistinctSponsors, ApplyUnconfirmed,
        Undoable, UndoAll, pool.Indexed, Conflict, NewInPool;
      var store := pool.store;
      ghost var l := store.View();
      ghost var keys := store.accounts.Keys;
      ghost var p := pool.pool;
      StoreAccounts(store);
      verified := VS.VerifyUnconfirmed(store, height, t);
      if verified {
        if NewInPool(p, t) {
          PushFacts(store, height, p, t);
        }
        pool.Push(t);
        if NewInPool(p, t) {
          StoreOkPushed(store, l, keys, t);
        } else {
          StoreOkMore(store, l, keys);
        }
      } else {
        Push(t);
      }
    }

    /** Push again what was removed for a block, in this order and without looking for
        conflicts. */
    method PushInPool(height: nat, trs: seq<Transaction>)
      requires SortedTrs(queue) && pool.Valid() && StoreOk(pool.store)
      requires Sane(pool.store.View()) && SourcesKnown(pool.store.View(), pool.pool)
      requires forall i :: 0 <= i < |trs| ==> trs[i].sender in pool.store.accounts && WellFormed(trs[i]) && DownOnly(trs[i])
      modifies `queue, pool`pool, pool`poolBySender, pool`poolByRecipient,
        pool.store`accounts, pool.store`delegates, pool.store`usernames
      ensures SortedTrs(queue) && pool.Valid() && StoreOk(pool.store)
      ensures Sane(pool.store.View()) && SourcesKnown(pool.store.View(), pool.pool)
      ensures var back := Repooled(old(pool.store.View()), height, old(pool.pool), trs);
        && pool.pool == old(pool.pool) + back && pool.store.View() == ApplyAll(old(pool.store.View()), back)
        && (AllRegular(old(pool.store.View()), back) ==> pool.Base() == old(pool.Base()))
      ensures multiset(old(queue)) <= multiset(queue)
      ensures AllKept(pool.pool, queue, trs, |trs|)
    {
      hide pool.store.View, SortedTrs, Sane, SourcesKnown, Verified, WellFormed, DownOnly, Regular, ApplyUnconfirmed, NewInPool,
        pool.Valid, pool.Base, Repooled, AllRegular, ApplyAll, StoreOk, AllKept;
      ghost var back: seq<Transaction> := [];
      ghost var start := pool.store.View();
      ghost var p := pool.pool;
      NoneRepooled(start, height, p);
      NoneKept(p, queue, trs);
      for i := 0 to |trs|
        invariant SortedTrs(queue) && pool.Valid() && StoreOk(pool.store) && old(pool.store.accounts.Keys) <= pool.store.accounts.Keys
        invariant Sane(pool.store.View()) && SourcesKnown(pool.store.View(), pool.pool)
        invariant back == Repooled(start, height, p, trs[..i])
        invariant pool.pool == p + back && pool.store.View() == ApplyAll(start, back)
        invariant AllRegular(start, back) ==> pool.Base() == old(pool.Base())
        invariant multiset(old(queue)) <= multiset(queue)
        invariant AllKept(pool.pool, queue, trs, i)
      {
        ghost var l := pool.store.View();
        ghost var before := pool.pool;
        ghost var q := queue;
        var t := trs[i];
        var verified := PushBack(height, t);
        RepooledNext(start, height, p, trs, i);
        BackNext(start, back, t);
        back := Repooled(start, height, p, trs[..i + 1]);
        KeptNow(before, pool.pool, q, queue, trs, i);
      }
      assert trs[..|trs|] == trs;
    }
  }

  /** Some transaction of the list has this id. */
  ghost predicate HasId(p: seq<Transaction>, id: TrsId) {
    exists i :: 0 <= i < |p| && p[i].id == id
  }

  /** The first of these transactions are pooled or queued. */
  ghost predicate AllKept(p: seq<Transaction>, q: seq<Transaction>, trs: seq<Transaction>, i: nat) {
    forall j :: 0 <= j < i && j < |trs| ==> HasId(p, trs[j].id) || HasId(q, trs[j].id)
  }

  lemma HasMore(p: seq<Transaction>, r: seq<Transaction>, id: TrsId)
    requires multiset(p) <= multiset(r) && HasId(p, id)
    ensures HasId(r, id)
  {
    var i :| 0 <= i < |p| && p[i].id == id;
    assert p[i] in multiset(r);
    var j :| 0 <= j < |r| && r[j] == p[i];
  }

  lemma HasItem(p: seq<Transaction>, t: Transaction)
    requires t in multiset(p) || !NewInPool(p, t)
    ensures HasId(p, t.id)
  {
    if t in multiset(p) {
      var i :| 0 <= i < |p| && p[i] == t;
    }
  }

  lemma KeptNow(p: seq<Transaction>, p': seq<Transaction>, q: seq<Transaction>, q': seq<Transaction>, trs: seq<Transaction>, i: nat)
    requires i < |trs| && AllKept(p, q, trs, i) && multiset(p) <= multiset(p') && multiset(q) <= multiset(q')
    requires var t := trs[i]; t in multiset(p') || t in multiset(q') || !NewInPool(p, t) || !NewInPool(q, t)
    ensures AllKept(p', q', trs, i + 1)
  {
    hide HasId, NewInPool;
    forall j | 0 <= j <= i
      ensures HasId(p', trs[j].id) || HasId(q', trs[j].id)
    {
      if j == i && (trs[i] in multiset(p') || !NewInPool(p, trs[i])) {
        if trs[i] in multiset(p') {
          HasItem(p', trs[i]);
        } else {
          HasItem(p, trs[i]);
          HasMore(p, p', trs[i].id);
        }
      } else if j == i {
        if trs[i] in multiset(q') {
          HasItem(q', trs[i]);
        } else {
          HasItem(q, trs[i]);
          HasMore(q, q', trs[i].id);
        }
      } else if HasId(p, trs[j].id) {
        HasMore(p, p', trs[j].id);
      } else {
        HasMore(q, q', trs[j].id);
      }
    }
  }

  lemma NoneKept(p: seq<Transaction>, q: seq<Transaction>, trs: seq<Transaction>)
    ensures AllKept(p, q, trs, 0)
  {
  }

  /** What is pushed again: in order, what passes the check where it stands and is not
      pooled yet. */
  function Repooled(l: Ledger, height: nat, p: seq<Transaction>, trs: seq<Transaction>): seq<Transaction>
    decreases |trs|
  {
    if trs == [] then []
    else
      var back := Repooled(l, height, p, trs[..|trs| - 1]);
      var t := trs[|trs| - 1];
      if Verified(ApplyAll(l, back), height, t) && NewInPool(p + back, t) then back + [t] else back
  }

  lemma NoneRepooled(l: Ledger, height: nat, p: seq<Transaction>)
    ensures Repooled(l, height, p, []) == [] && p + [] == p && ApplyAll(l, []) == l && AllRegular(l, [])
  {
  }

  lemma RepooledNext(l: Ledger, height: nat, p: seq<Transaction>, trs: seq<Transaction>, i: nat)
    requires i < |trs|
    ensures var back := Repooled(l, height, p, trs[..i]);
      Repooled(l, height, p, trs[..i + 1]) ==
      if Verified(ApplyAll(l, back), height, trs[i]) && NewInPool(p + back, trs[i]) then back + [trs[i]] else back
  {
    hide Verified, NewInPool, ApplyAll;
    assert trs[..i + 1][..i] == trs[..i];
  }

  lemma BackNext(l: Ledger, back: seq<Transaction>, t: Transaction)
    ensures ApplyAll(l, back + [t]) == ApplyUnconfirmed(ApplyAll(l, back), t)
    ensures AllRegular(l, back + [t]) <==> AllRegular(l, back) && Regular(ApplyAll(l, back), t)
    ensures forall p: seq<Transaction> :: p + (back + [t]) == p + back + [t]
  {
    hide Regular, ApplyUnconfirmed;
    assert (back + [t])[..|back|] == back;
  }

  lemma TailSorted(s: seq<Transaction>)
    requires SortedTrs(s) && s != []
    ensures SortedTrs(s[1..])
  {
  }

  lemma FeeKeeps(p: seq<Transaction>, x: Account, t: Transaction)
    ensures var r := WithFee(x, t);
      r.sender == t.sender && r.id == t.id && (NewInPool(p, t) <==> NewInPool(p, r)) && (Conflict(p, t) <==> Conflict(p, r))
  {
    hide Recipients;
    var r := WithFee(x, t);
    assert forall q :: NotAfter(q, t) <==> NotAfter(q, r);
    assert forall q :: DependsOn(t, q) <==> DependsOn(r, q);
  }

  lemma StoreAccounts(store: LedgerStore)
    requires StoreOk(store)
    ensures AIRDROP_ADDRESS in store.accounts && SUPPLY_ADDRESS in store.accounts
  {
  }

  lemma StoreOkMore(store: LedgerStore, l: Ledger, keys: set<Address>)
    requires LedgerHosted(keys, l) && keys <= store.accounts.Keys && store.View() == l
    ensures StoreOk(store)
  {
    hide store.View, Acc;
  }

  lemma StoreOkPushed(store: LedgerStore, l: Ledger, keys: set<Address>, t: Transaction)
    requires LedgerHosted(keys, l) && t.sender in keys && keys <= store.accounts.Keys
    requires store.View() == ApplyUnconfirmed(l, t)
    requires t.asset.Register? ==> t.asset.referral in store.accounts
    ensures StoreOk(store)
  {
    hide store.View, ApplyUnconfirmed, Acc;
    StoreOkKept(store, l, keys, t);
  }

  lemma ReturnableNew(l: Ledger, t: Transaction)
    requires Returnable(l, t)
    ensures Newcomer(l, t)
  {
  }

  lemma PushFacts(store: LedgerStore, height: nat, p: seq<Transaction>, t: Transaction)
    requires StoreOk(store) && Sane(store.View()) && SourcesKnown(store.View(), p) && t.sender in store.accounts
    requires NewInPool(p, t) && AllReady(store.View(), p)
    requires WellFormed(t) && DownOnly(t) && Verified(store.View(), height, t)
    ensures Ready(store, t) && (forall i :: 0 <= i < |t.Sponsors()| ==> t.Sponsors()[i].address in store.accounts)
    ensures Returnable(store.View(), t) && DistinctSponsors(t.Sponsors())
    ensures !Conflict(p, t) ==> TiedAfter(p, t)
    ensures Undoable(store.View(), t) <==> Regular(store.View(), t)
    ensures Sane(ApplyUnconfirmed(store.View(), t)) && SourcesKnown(ApplyUnconfirmed(store.View(), t), p + [t])
  {
    hide store.View, Verified, Regular, Conflict, AllReady, Ready, Returnable, TiedAfter, ApplyUnconfirmed, SourcesKnown, StoreOk,
      DownOnly, Undoable, NewInPool;
    var l := store.View();
    VerifiedReady(store, height, t);
    VerifiedPushable(l, height, p, t);
    ReturnableNew(l, t);
    if !Conflict(p, t) {
      AdmittedLast(l, p, t);
    }
    SaneKept(l, height, t);
    SourcesPushed(l, p, t);
  }
}
