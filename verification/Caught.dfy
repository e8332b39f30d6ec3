/** core/service/transactionPool.ts:142-148: removing a pooled transaction whose
    undo throws half-way. A vote for a delegate that is gone gives the fee back and
    cuts some keys; the reward, the unstake, the airdrop and the stakes stay. */
module Caught {
  import opened Model
  import opened Transactions
  import opened Inverse
  import opened Commute
  import opened Blocks
  import opened Pool
  import opened PoolOrder

  // ---------- the undo that is caught ----------

  /** The first key that is no delegate; the number of keys when all are. */
  function FirstMissing(ds: map<Address, Delegate>, keys: seq<Address>): (k: nat)
    ensures k <= |keys|
    ensures forall i :: 0 <= i < k ==> keys[i] in ds
    ensures k < |keys| ==> keys[k] !in ds
  {
    if keys == [] || keys[0] !in ds then 0 else 1 + FirstMissing(ds, keys[1..])
  }

  /** The keys the loop has gone through before it throws. */
  function Reached(ds: map<Address, Delegate>, t: Transaction): seq<Address>
    requires t.asset.Vote?
  {
    Keys(t.asset.votes)[..FirstMissing(ds, Keys(t.asset.votes))]
  }

  /** An up-vote cuts a key before it looks the delegate up, a down-vote puts all back. */
  function CutList(ds: map<Address, Delegate>, t: Transaction, v: multiset<Address>): multiset<Address>
    requires t.asset.Vote?
  {
    if t.IsDown() then v + VoteKeys(t) else v - multiset(CutKeys(ds, t))
  }

  /** The keys cut, the missing one included. */
  function CutKeys(ds: map<Address, Delegate>, t: Transaction): seq<Address>
    requires t.asset.Vote?
  {
    var keys, k := Keys(t.asset.votes), FirstMissing(ds, Keys(t.asset.votes));
    if k < |keys| then keys[..k + 1] else keys
  }

  function CutAccount(t: Transaction, left: multiset<Address>, a: Address, x: Account): Account {
    if a == t.sender then Credit(x, t.fee).(votes := left) else x
  }

  function CutAccounts(m: map<Address, Account>, t: Transaction, left: multiset<Address>): map<Address, Account> {
    map a | a in m.Keys + {t.sender} && CutAccount(t, left, a, Find(m, a)) != EMPTY_ACCOUNT
      :: CutAccount(t, left, a, Find(m, a))
  }

  /** The ledger when the undo of a vote threw, `left` being what is left of the list. */
  function CutShort(l: Ledger, t: Transaction, left: multiset<Address>): Ledger
    requires t.asset.Vote?
  {
    Ledger(CutAccounts(l.accounts, t, left),
           Tally(l.delegates, multiset(Reached(l.delegates, t)), -Sign(t)),
           l.usernames, l.confirmed)
  }

  lemma UntargetedVote(l: Ledger, t: Transaction)
    requires !Targets(l, t)
    ensures t.asset.Vote? && FirstMissing(l.delegates, Keys(t.asset.votes)) < |Keys(t.asset.votes)|
  {
    var d :| d in VoteKeys(t) && d !in l.delegates;
    assert d in Keys(t.asset.votes);
  }

  /** What `remove` leaves of the ledger, whether the undo throws or not. */
  function UndoCaught(l: Ledger, t: Transaction): Ledger {
    if Targets(l, t) then UndoUnconfirmed(l, t)
    else
      UntargetedVote(l, t);
      CutShort(l, t, CutList(l.delegates, t, Acc(l, t.sender).votes))
  }

  lemma CutAt(l: Ledger, t: Transaction, left: multiset<Address>, a: Address)
    requires t.asset.Vote?
    ensures Acc(CutShort(l, t, left), a) == CutAccount(t, left, a, Acc(l, a))
  {
  }

  lemma CutParts(l: Ledger, t: Transaction, left: multiset<Address>)
    requires t.asset.Vote?
    ensures var m := CutShort(l, t, left);
      && Normal(m) && m.delegates == Tally(l.delegates, multiset(Reached(l.delegates, t)), -Sign(t))
      && m.usernames == l.usernames && m.confirmed == l.confirmed
  {
  }

  // ---------- a list that is left otherwise ----------

  function LeaveVotes(who: Address, left: multiset<Address>, a: Address, x: Account): Account {
    if a == who then x.(votes := left) else x
  }

  function LeaveAccounts(m: map<Address, Account>, who: Address, left: multiset<Address>): map<Address, Account> {
    map a | a in m.Keys + {who} && LeaveVotes(who, left, a, Find(m, a)) != EMPTY_ACCOUNT
      :: LeaveVotes(who, left, a, Find(m, a))
  }

  /** The ledger with the votes of one account replaced by what is left of its list. */
  function Leaving(l: Ledger, who: Address, left: multiset<Address>): Ledger {
    l.(accounts := LeaveAccounts(l.accounts, who, left))
  }

  lemma LeavingAt(l: Ledger, who: Address, left: multiset<Address>, a: Address)
    ensures Acc(Leaving(l, who, left), a) == LeaveVotes(who, left, a, Acc(l, a))
  {
  }

  lemma LeavingParts(l: Ledger, who: Address, left: multiset<Address>)
    ensures var m := Leaving(l, who, left);
      Normal(m) && m.delegates == l.delegates && m.usernames == l.usernames && m.confirmed == l.confirmed
  {
  }

  lemma LeavingNone(l: Ledger, who: Address, left: multiset<Address>)
    requires Normal(l) && Acc(l, who).votes == left
    ensures Leaving(l, who, left) == l
  {
    hide Leaving, Acc, Normal;
    LeavingParts(l, who, left);
    forall a {
      LeavingAt(l, who, left, a);
    }
    SameLedger(Leaving(l, who, left), l);
  }

  // ---------- when it takes back all there is ----------

  /** The asset moves no money. */
  predicate PaysNothing(t: Transaction) {
    forall a :: a in Touched(t) ==> AssetChange(t, a) == 0
  }

  lemma PaysNobody(t: Transaction)
    ensures PaysNothing(t) <==> forall a :: AssetChange(t, a) == 0
  {
    hide AssetChange, Touched;
    forall a
      ensures a !in Touched(t) ==> AssetChange(t, a) == 0
    {
      if a !in Touched(t) {
        UntouchedAsset(t, a);
      }
    }
  }

  lemma UntouchedAsset(t: Transaction, a: Address)
    requires a !in Touched(t)
    ensures AssetChange(t, a) == 0
  {
    UntouchedChange(t, a);
  }

  /** No key behind the missing one is a delegate. */
  predicate RestUnknown(ds: map<Address, Delegate>, t: Transaction)
    requires t.asset.Vote?
  {
    var keys, k := Keys(t.asset.votes), FirstMissing(ds, Keys(t.asset.votes));
    forall j :: k < j < |keys| ==> keys[j] !in ds
  }

  /** Nor is it listed any more. */
  predicate RestUnlisted(ds: map<Address, Delegate>, t: Transaction, v: multiset<Address>)
    requires t.asset.Vote?
  {
    RestOut(Keys(t.asset.votes), FirstMissing(ds, Keys(t.asset.votes)), v)
  }

  /** No key behind place `k` is left when those up to it are cut. */
  predicate RestOut(keys: seq<Address>, k: nat, v: multiset<Address>) {
    forall j :: k < j < |keys| ==> keys[j] !in v - multiset(keys[..k + 1])
  }

  /** Nothing is left to take back when the loop throws: no key behind the missing
      one is a delegate or listed, no stake counts the vote and nothing was paid. */
  predicate HarmlessCut(l: Ledger, t: Transaction)
    requires t.asset.Vote?
  {
    var x := Acc(l, t.sender);
    && RestUnknown(l.delegates, t)
    && (t.IsUp() ==> RestUnlisted(l.delegates, t, x.votes) && Fresh(x.stakes, t.createdAt) && PaysNothing(t))
  }

  lemma RestCounts(ds: map<Address, Delegate>, keys: seq<Address>, k: nat, n: int)
    requires k < |keys| && keys[k] !in ds && n != 0
    ensures Tally(ds, multiset(keys[..k]), n) == Tally(ds, multiset(keys), n) <==> forall j :: k < j < |keys| ==> keys[j] !in ds
  {
    var some, all := Tally(ds, multiset(keys[..k]), n), Tally(ds, multiset(keys), n);
    assert keys == keys[..k] + keys[k..];
    var rest := multiset(keys[k..]);
    forall d | d in ds
      ensures some[d] == all[d] <==> rest[d] == 0
    {
      RestOne(n, multiset(keys[..k])[d], rest[d]);
    }
    if forall j :: k < j < |keys| ==> keys[j] !in ds {
      forall d | d in ds
        ensures rest[d] == 0
      {
        assert d !in keys[k..];
      }
      assert some == all;
    } else {
      var j :| k < j < |keys| && keys[j] in ds;
      assert keys[k..][j - k] == keys[j];
      assert keys[j] in rest;
    }
  }

  lemma RestOne(n: int, some: nat, rest: nat)
    requires n != 0
    ensures n * some == n * (some + rest) <==> rest == 0
  {
  }

  lemma RestKeys(v: multiset<Address>, keys: seq<Address>, k: nat)
    requires k < |keys|
    ensures v - multiset(keys[..k + 1]) == v - multiset(keys) <==> RestOut(keys, k, v)
  {
    assert keys == keys[..k + 1] + keys[k + 1..];
    var left, rest := v - multiset(keys[..k + 1]), multiset(keys[k + 1..]);
    assert v - multiset(keys) == left - rest;
    if forall j :: k < j < |keys| ==> keys[j] !in left {
      forall d | d in rest
        ensures d !in left
      {
        assert d in keys[k + 1..];
      }
      assert left - rest == left;
    } else {
      var j :| k < j < |keys| && keys[j] in left;
      assert keys[k + 1..][j - k - 1] == keys[j];
      assert keys[j] in rest;
      assert (left - rest)[keys[j]] < left[keys[j]];
    }
  }

  lemma UnripenFresh(ss: seq<Stake>, now: Timestamp)
    ensures UnripenAll(ss, now) == ss <==> Fresh(ss, now)
  {
    var back := UnripenAll(ss, now);
    forall i | 0 <= i < |ss|
      ensures back[i] == ss[i] <==> !Carries(ss[i], now)
    {
      assert Carries(ss[i], now) ==> Unripen(ss[i], now).voteCount != ss[i].voteCount;
    }
    if Fresh(ss, now) {
      assert back == ss;
    }
  }

  lemma CutKeysAre(ds: map<Address, Delegate>, t: Transaction)
    requires t.asset.Vote? && FirstMissing(ds, Keys(t.asset.votes)) < |Keys(t.asset.votes)|
    ensures CutKeys(ds, t) == Keys(t.asset.votes)[..FirstMissing(ds, Keys(t.asset.votes)) + 1]
  {
    hide FirstMissing, Keys;
  }

  lemma RestMeans(ds: map<Address, Delegate>, t: Transaction, v: multiset<Address>)
    requires t.asset.Vote?
    ensures RestUnlisted(ds, t, v) <==> RestOut(Keys(t.asset.votes), FirstMissing(ds, Keys(t.asset.votes)), v)
  {
    hide FirstMissing, Keys, RestOut;
  }

  lemma CutVotes(ds: map<Address, Delegate>, t: Transaction, v: multiset<Address>)
    requires t.asset.Vote? && FirstMissing(ds, Keys(t.asset.votes)) < |Keys(t.asset.votes)|
    ensures CutList(ds, t, v) == UndoVotes(t, v) <==> (t.IsUp() ==> RestUnlisted(ds, t, v))
  {
    hide FirstMissing, Keys, RestOut, CutKeys, RestUnlisted;
    CutKeysAre(ds, t);
    RestMeans(ds, t, v);
    if t.IsUp() {
      RestKeys(v, Keys(t.asset.votes), FirstMissing(ds, Keys(t.asset.votes)));
    }
  }

  lemma CutFields(t: Transaction, left: multiset<Address>, x: Account)
    requires t.asset.Vote?
    ensures CutAccount(t, left, t.sender, x) == UndoWith(t, t.sender, -Change(t, t.sender), x) <==>
              AssetChange(t, t.sender) == 0 && left == UndoVotes(t, x.votes) && x.stakes == UndoStakes(t, x.stakes)
  {
    hide AssetChange, UndoVotes, UndoStakes;
  }

  /** The voter's account: cut short or undone. */
  lemma CutVoter(l: Ledger, t: Transaction)
    requires !Targets(l, t) && t.asset.Vote?
    ensures var x := Acc(l, t.sender);
      CutAccount(t, CutList(l.delegates, t, x.votes), t.sender, x) == UndoWith(t, t.sender, -Change(t, t.sender), x) <==>
        AssetChange(t, t.sender) == 0 && (t.IsUp() ==> RestUnlisted(l.delegates, t, x.votes) && Fresh(x.stakes, t.createdAt))
  {
    hide AssetChange, UnripenAll, Fresh, Acc, CutAccount, UndoWith, CutList, UndoVotes, RestUnlisted, Targets;
    var x := Acc(l, t.sender);
    UntargetedVote(l, t);
    CutVotes(l.delegates, t, x.votes);
    CutFields(t, CutList(l.delegates, t, x.votes), x);
    UnripenFresh(x.stakes, t.createdAt);
  }

  lemma CutStranger(t: Transaction, left: multiset<Address>, a: Address, x: Account)
    requires a != t.sender
    ensures CutAccount(t, left, a, x) == UndoWith(t, a, -Change(t, a), x) <==> AssetChange(t, a) == 0
  {
    hide AssetChange;
  }

  lemma DownPaysNothing(t: Transaction)
    requires t.IsDown()
    ensures forall a :: AssetChange(t, a) == 0
  {
  }

  lemma CutDelegates(l: Ledger, t: Transaction)
    requires !Targets(l, t) && t.asset.Vote?
    ensures NamesFreed(l.delegates, t) == {}
    ensures Tally(l.delegates, multiset(Reached(l.delegates, t)), -Sign(t)) == UndoDelegates(l.delegates, t) <==>
              RestUnknown(l.delegates, t)
  {
    hide Tally, Keys, FirstMissing;
    UntargetedVote(l, t);
    RestCounts(l.delegates, Keys(t.asset.votes), FirstMissing(l.delegates, Keys(t.asset.votes)), -Sign(t));
  }

  /** One account of the two ledgers. */
  predicate CutSame(l: Ledger, t: Transaction, a: Address)
    requires t.asset.Vote?
  {
    && AssetChange(t, a) == 0
    && (a == t.sender && t.IsUp() ==>
          RestUnlisted(l.delegates, t, Acc(l, a).votes) && Fresh(Acc(l, a).stakes, t.createdAt))
  }

  lemma CutSameIff(l: Ledger, t: Transaction, a: Address)
    requires !Targets(l, t) && t.asset.Vote?
    ensures Acc(CutShort(l, t, CutList(l.delegates, t, Acc(l, t.sender).votes)), a) == Acc(UndoUnconfirmed(l, t), a) <==>
              CutSame(l, t, a)
  {
    hide CutShort, UndoUnconfirmed, Change, AssetChange, UndoWith, CutAccount, Fresh, Targets, CutList, Acc, RestUnlisted;
    var left := CutList(l.delegates, t, Acc(l, t.sender).votes);
    CutAt(l, t, left, a);
    UndoAt(l, t, a);
    if a == t.sender {
      CutVoter(l, t);
    } else {
      CutStranger(t, left, a, Acc(l, a));
    }
  }

  lemma HarmlessMeans(l: Ledger, t: Transaction)
    requires t.asset.Vote?
    ensures HarmlessCut(l, t) <==> RestUnknown(l.delegates, t) && forall a :: CutSame(l, t, a)
  {
    hide AssetChange, RestUnknown, RestUnlisted, Fresh, Acc, PaysNothing;
    PaysNobody(t);
    if t.IsDown() {
      DownPaysNothing(t);
    }
    if forall a :: CutSame(l, t, a) {
      assert CutSame(l, t, t.sender);
      forall a
        ensures AssetChange(t, a) == 0
      {
        assert CutSame(l, t, a);
      }
    }
  }

  /** MAIN: removing a pooled transaction takes back all it did if and only if every
      delegate it votes for is there, or the cut is harmless. */
  lemma CaughtIff(l: Ledger, t: Transaction)
    requires Normal(l)
    ensures UndoCaught(l, t) == UndoUnconfirmed(l, t) <==> Targets(l, t) || (t.asset.Vote? && HarmlessCut(l, t))
  {
    hide CutShort, UndoUnconfirmed, CutSame, HarmlessCut, Targets, CutList, Tally, RestUnknown, UndoDelegates;
    if !Targets(l, t) {
      UntargetedVote(l, t);
      var left := CutList(l.delegates, t, Acc(l, t.sender).votes);
      CutParts(l, t, left);
      UndoParts(l, t);
      CutDelegates(l, t);
      HarmlessMeans(l, t);
      forall a {
        CutSameIff(l, t, a);
      }
      if HarmlessCut(l, t) {
        SameLedger(CutShort(l, t, left), UndoUnconfirmed(l, t));
      }
    }
  }

  // ---------- one removal too early ----------

  /** `t`, undone second although it was applied last, finds what `s` took away. */
  predicate MayGoEarly(l: Ledger, s: Transaction, t: Transaction) {
    && MaySwap(l, s, t)
    && (Elects(s, t) ==> t.asset.Vote? && HarmlessCut(UndoUnconfirmed(l, s), t))
  }

  /** MAIN: removing the earlier of two pooled transactions first is exact if and only
      if the undos may change places, and a vote is not cut short by the delegate
      that went before it. */
  lemma EarlyIff(l: Ledger, s: Transaction, t: Transaction)
    requires Normal(l) && AllReady(l, [s, t])
    ensures UndoCaught(UndoCaught(l, s), t) == UndoAll(l, [s, t]) <==> MayGoEarly(l, s, t)
  {
    hide UndoUnconfirmed, MaySwap, HarmlessCut, CutShort, Held;
    assert [s, t][..1] == [s] && [s][..0] == [];
    assert AllReady(UndoUnconfirmed(l, t), [s]);
    HeldBefore(l, t, s);
    var m := UndoUnconfirmed(l, s);
    UndoParts(l, s);
    assert UndoAll(UndoUnconfirmed(l, t), [s]) == UndoUnconfirmed(UndoUnconfirmed(l, t), s);
    assert UndoAll(l, [s, t]) == UndoUnconfirmed(UndoUnconfirmed(l, t), s);
    assert UndoCaught(l, s) == m;
    SwapIff(l, s, t);
    CaughtIff(m, t);
    if Elects(s, t) {
      GoneTarget(l, s, t);
      assert MaySwap(l, s, t) by {
        NotOrdered(l, s, t);
      }
    } else {
      TargetsCommute(l, s, t);
      assert Targets(l, t) && Targets(m, t);
      assert UndoCaught(m, t) == UndoUnconfirmed(m, t);
    }
  }

  lemma NotOrdered(l: Ledger, s: Transaction, t: Transaction)
    requires Elects(s, t)
    ensures MaySwap(l, s, t) && t.asset.Vote?
  {
  }

  lemma GoneTarget(l: Ledger, s: Transaction, t: Transaction)
    requires Elects(s, t)
    ensures !Targets(UndoUnconfirmed(l, s), t) && t.asset.Vote?
  {
    hide UndoUnconfirmed;
    UndoParts(l, s);
  }

  /** With its delegate gone, a vote is cut without harm only when that delegate is
      its last item and, for an up-vote, nothing was counted or paid. */
  lemma HarmlessIff(l: Ledger, s: Transaction, t: Transaction)
    requires Elects(s, t) && Targets(l, t) && t.asset.Vote?
    requires forall i, j :: 0 <= i < j < |Keys(t.asset.votes)| ==> Keys(t.asset.votes)[i] != Keys(t.asset.votes)[j]
    ensures HarmlessCut(UndoUnconfirmed(l, s), t) <==>
              && Keys(t.asset.votes)[|Keys(t.asset.votes)| - 1] == s.sender
              && (t.IsUp() ==> Fresh(Acc(l, t.sender).stakes, t.createdAt) && PaysNothing(t))
  {
    hide UndoUnconfirmed, Change, AssetChange, PaysNothing, Fresh, Keys;
    var keys := Keys(t.asset.votes);
    var m := UndoUnconfirmed(l, s);
    UndoParts(l, s);
    UndoAt(l, s, t.sender);
    var k := FirstMissing(m.delegates, keys);
    GoneTarget(l, s, t);
    UntargetedVote(m, t);
    forall j | 0 <= j < |keys|
      ensures keys[j] in m.delegates <==> keys[j] != s.sender
    {
      assert keys[j] in multiset(keys);
    }
    assert keys[k] == s.sender;
    if k < |keys| - 1 {
      assert keys[k + 1] in m.delegates;
    }
  }

  // ---------- balances ----------

  /** Removing transactions, last first. */
  function CaughtAll(l: Ledger, p: seq<Transaction>): Ledger
    decreases |p|
  {
    if p == [] then l else CaughtAll(UndoCaught(l, p[|p| - 1]), p[..|p| - 1])
  }

  /** What a removal does not take back of a balance. */
  function KeptBack(l: Ledger, t: Transaction, a: Address): int {
    if Targets(l, t) then 0 else AssetChange(t, a)
  }

  function KeptBackAll(l: Ledger, p: seq<Transaction>, a: Address): int
    decreases |p|
  {
    if p == [] then 0 else KeptBack(l, p[|p| - 1], a) + KeptBackAll(UndoCaught(l, p[|p| - 1]), p[..|p| - 1], a)
  }

  lemma CaughtBalance(l: Ledger, t: Transaction, a: Address)
    ensures Acc(UndoCaught(l, t), a).balance == Acc(l, a).balance - Change(t, a) + KeptBack(l, t, a)
  {
    hide UndoUnconfirmed, CutShort, AssetChange, CutList, Targets, Acc;
    if Targets(l, t) {
      UndoAt(l, t, a);
    } else {
      UntargetedVote(l, t);
      CutAt(l, t, CutList(l.delegates, t, Acc(l, t.sender).votes), a);
    }
  }

  /** MAIN: removing transactions in whatever order takes their fixed changes out of
      every balance, but for what votes cut short do not give back. */
  lemma {:induction false} RemovalBalance(l: Ledger, p: seq<Transaction>, a: Address)
    ensures Acc(CaughtAll(l, p), a).balance == Acc(l, a).balance - PoolChange(p, a) + KeptBackAll(l, p, a)
    decreases |p|
  {
    hide UndoCaught, Change, KeptBack, Acc;
    if p != [] {
      CaughtBalance(l, p[|p| - 1], a);
      RemovalBalance(UndoCaught(l, p[|p| - 1]), p[..|p| - 1], a);
    }
  }

  /** While every undo finds its delegates, removing is undoing. */
  lemma {:induction false} CaughtIsUndo(l: Ledger, p: seq<Transaction>, a: Address)
    requires AllReady(l, p)
    ensures CaughtAll(l, p) == UndoAll(l, p) && KeptBackAll(l, p, a) == 0
    decreases |p|
  {
    hide UndoUnconfirmed, Targets, Held, Acc, AssetChange;
    if p != [] {
      CaughtIsUndo(UndoUnconfirmed(l, p[|p| - 1]), p[..|p| - 1], a);
    }
  }
}
