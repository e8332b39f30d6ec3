/** Undoing a transaction right after applying it: exactly when it restores the
    ledger, for every transaction of every kind. */
module Inverse {
  import opened Model
  import opened Transactions

  /** What the sender's account must be like. */
  predicate UndoableAccount(t: Transaction, x: Account) {
    match t.asset
    case Register(_) => x == EMPTY_ACCOUNT.(balance := t.fee)
    case Send(_, _) => true
    case Signature(_) => x.secondKey == None
    case NewDelegate(_, _) => !x.isDelegate
    case Freeze(_, _, _) => forall i :: 0 <= i < |x.stakes| ==> x.stakes[i].source != t.id
    case Vote(_, _, _, _) => if t.IsDown() then VoteKeys(t) <= x.votes else Fresh(x.stakes, t.createdAt)
  }

  /** The condition on the ledger, checkable before applying. */
  predicate Undoable(l: Ledger, t: Transaction) {
    && UndoableAccount(t, Acc(l, t.sender))
    && (t.asset.NewDelegate? ==> t.sender !in l.delegates && t.asset.username !in l.usernames)
  }

  lemma RipenInverse(s: Stake, now: Timestamp)
    ensures Unripen(Ripen(s, now), now) == s <==> !Carries(s, now)
  {
  }

  lemma RipenAllInverse(ss: seq<Stake>, now: Timestamp)
    ensures UnripenAll(RipenAll(ss, now), now) == ss <==> Fresh(ss, now)
  {
    var back := UnripenAll(RipenAll(ss, now), now);
    forall i | 0 <= i < |ss|
      ensures back[i] == ss[i] <==> !Carries(ss[i], now)
    {
      RipenInverse(ss[i], now);
    }
    if Fresh(ss, now) {
      assert back == ss;
    }
  }

  lemma {:induction false} DropSourceShorter(ss: seq<Stake>, id: TrsId)
    ensures |DropSource(ss, id)| <= |ss|
    ensures |DropSource(ss, id)| == |ss| <==> forall i :: 0 <= i < |ss| ==> ss[i].source != id
  {
    if ss != [] {
      DropSourceShorter(ss[..|ss| - 1], id);
    }
  }

  lemma {:induction false} DropSourceAbsent(ss: seq<Stake>, id: TrsId)
    ensures DropSource(ss, id) == ss <==> forall i :: 0 <= i < |ss| ==> ss[i].source != id
  {
    DropSourceShorter(ss, id);
    if ss != [] && |DropSource(ss, id)| == |ss| {
      var init := ss[..|ss| - 1];
      DropSourceAbsent(init, id);
      assert ss == init + [ss[|ss| - 1]];
    }
  }

  lemma StakeInverse(ss: seq<Stake>, t: Transaction)
    requires t.asset.Freeze?
    ensures DropSource(ss + [StakeOf(t)], t.id) == ss <==> forall i :: 0 <= i < |ss| ==> ss[i].source != t.id
  {
    assert (ss + [StakeOf(t)])[..|ss|] == ss;
    DropSourceAbsent(ss, t.id);
  }

  function AndBack(t: Transaction, chain: seq<Address>, a: Address, x: Account): Account {
    UndoAccount(t, a, ApplyAccount(t, chain, a, x))
  }

  lemma VotesInverse(t: Transaction, v: multiset<Address>)
    ensures UndoVotes(t, ApplyVotes(t, v)) == v <==> (t.IsDown() ==> VoteKeys(t) <= v)
  {
  }

  lemma VoterInverse(t: Transaction, chain: seq<Address>, x: Account)
    requires t.asset.Vote?
    ensures AndBack(t, chain, t.sender, x) == x <==> UndoableAccount(t, x)
  {
    VotesInverse(t, x.votes);
    if t.IsUp() {
      RipenAllInverse(x.stakes, t.createdAt);
    }
  }

  lemma RegistrantInverse(t: Transaction, chain: seq<Address>, x: Account)
    requires t.asset.Register?
    ensures AndBack(t, chain, t.sender, x) == x <==> UndoableAccount(t, x)
  {
  }

  lemma FreezerInverse(t: Transaction, chain: seq<Address>, x: Account)
    requires t.asset.Freeze?
    ensures AndBack(t, chain, t.sender, x) == x <==> UndoableAccount(t, x)
  {
    StakeInverse(x.stakes, t);
    assert AndBack(t, chain, t.sender, x) == x.(stakes := DropSource(x.stakes + [StakeOf(t)], t.id));
  }

  /** One account: only the sender's can fail to come back. */
  lemma AccountInverse(t: Transaction, chain: seq<Address>, a: Address, x: Account)
    ensures AndBack(t, chain, a, x) == x <==> (a == t.sender ==> UndoableAccount(t, x))
  {
    if a == t.sender {
      match t.asset
      case Register(_) => RegistrantInverse(t, chain, x);
      case Freeze(_, _, _) => FreezerInverse(t, chain, x);
      case Vote(_, _, _, _) => VoterInverse(t, chain, x);
      case _ =>
    }
  }

  lemma TallyBack(ds: map<Address, Delegate>, keys: multiset<Address>, k: int)
    ensures Tally(Tally(ds, keys, k), keys, -k) == ds
  {
    var back := Tally(Tally(ds, keys, k), keys, -k);
    assert back.Keys == ds.Keys;
    forall d | d in ds
      ensures back[d] == ds[d]
    {
      assert ds[d].votes + k * keys[d] + -k * keys[d] == ds[d].votes;
    }
  }

  lemma AddBack(ds: map<Address, Delegate>, a: Address, d: Delegate)
    ensures ds[a := d] - {a} == ds <==> a !in ds
  {
    assert a !in ds[a := d] - {a};
    if a !in ds {
      assert ds[a := d] - {a} == ds;
    }
  }

  lemma DelegatesInverse(ds: map<Address, Delegate>, t: Transaction)
    ensures !t.asset.NewDelegate? ==> UndoDelegates(ApplyDelegates(ds, t), t) == ds
    ensures t.asset.NewDelegate? ==> (UndoDelegates(ApplyDelegates(ds, t), t) == ds <==> t.sender !in ds)
  {
    hide Tally, VoteKeys, Sign;
    if t.asset.NewDelegate? {
      AddBack(ds, t.sender, Delegate(t.asset.username, t.asset.url, 0, 0, 0, 0));
    } else if t.asset.Vote? {
      TallyBack(ds, VoteKeys(t), Sign(t));
    }
  }

  lemma NamesInverse(l: Ledger, t: Transaction)
    ensures !t.asset.NewDelegate? ==> UndoUnconfirmed(ApplyUnconfirmed(l, t), t).usernames == l.usernames
    ensures t.asset.NewDelegate? ==>
              (UndoUnconfirmed(ApplyUnconfirmed(l, t), t).usernames == l.usernames <==> t.asset.username !in l.usernames)
  {
    if t.asset.NewDelegate? {
      assert NamesFreed(ApplyDelegates(l.delegates, t), t) == NamesTaken(t) == {t.asset.username};
      assert UndoUnconfirmed(ApplyUnconfirmed(l, t), t).usernames == l.usernames + NamesTaken(t) - NamesTaken(t);
    }
  }

  lemma AndBackAt(l: Ledger, t: Transaction, a: Address)
    ensures Acc(UndoUnconfirmed(ApplyUnconfirmed(l, t), t), a) == AndBack(t, ReferralsRead(l, t), a, Acc(l, a))
  {
    hide ApplyUnconfirmed, UndoUnconfirmed, Change, ApplyWith, UndoWith, ReferralsRead;
    ApplyAt(l, t, a);
    UndoAt(ApplyUnconfirmed(l, t), t, a);
  }

  /** MAIN: applying and then undoing any transaction gives the ledger back
      if and only if the ledger meets `Undoable`. */
  lemma UndoRestoresIff(l: Ledger, t: Transaction)
    requires Normal(l)
    ensures UndoUnconfirmed(ApplyUnconfirmed(l, t), t) == l <==> Undoable(l, t)
  {
    var back := UndoUnconfirmed(ApplyUnconfirmed(l, t), t);
    AndBackAt(l, t, t.sender);
    AccountInverse(t, ReferralsRead(l, t), t.sender, Acc(l, t.sender));
    DelegatesInverse(l.delegates, t);
    NamesInverse(l, t);
    if Undoable(l, t) {
      forall a
        ensures Acc(back, a) == Acc(l, a)
      {
        AndBackAt(l, t, a);
        AccountInverse(t, ReferralsRead(l, t), a, Acc(l, a));
      }
      SameLedger(back, l);
    }
  }

  /** Two votes of one sender at one time: the second cannot be undone. The stake
      counts the first vote only, yet undoing the second takes that count back. */
  lemma SecondVoteAtOneTime(l: Ledger, v: Transaction, w: Transaction, i: nat)
    requires v.IsUp() && w.IsUp() && v.sender == w.sender && v.createdAt == w.createdAt
    requires i < |Acc(l, v.sender).stakes| && Due(Acc(l, v.sender).stakes[i], v.createdAt)
    ensures !Undoable(ApplyUnconfirmed(l, v), w)
    ensures UndoUnconfirmed(ApplyUnconfirmed(ApplyUnconfirmed(l, v), w), w) != ApplyUnconfirmed(l, v)
  {
    var m := ApplyUnconfirmed(l, v);
    ApplyAt(l, v, v.sender);
    assert Carries(Acc(m, v.sender).stakes[i], w.createdAt);
    UndoRestoresIff(m, w);
  }
}
