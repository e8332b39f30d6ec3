/** Which steps may be taken in either order. */
module Commute {
  import opened Model
  import opened Transactions

  /** Only two votes of one sender are tied to the order they were applied in. */
  predicate Ordered(s: Transaction, t: Transaction) {
    s.asset.Vote? && t.asset.Vote? && s.sender == t.sender
  }

  lemma {:induction false} DropConcat(ss: seq<Stake>, tt: seq<Stake>, id: TrsId)
    ensures DropSource(ss + tt, id) == DropSource(ss, id) + DropSource(tt, id)
  {
    if tt == [] {
      assert ss + tt == ss;
    } else {
      assert (ss + tt)[..|ss + tt| - 1] == ss + tt[..|tt| - 1];
      DropConcat(ss, tt[..|tt| - 1], id);
    }
  }

  lemma {:induction false} DropsCommute(ss: seq<Stake>, i: TrsId, j: TrsId)
    ensures DropSource(DropSource(ss, i), j) == DropSource(DropSource(ss, j), i)
  {
    if ss != [] {
      var init, last := ss[..|ss| - 1], ss[|ss| - 1];
      DropsCommute(init, i, j);
      DropConcat(DropSource(init, i), [last], j);
      DropConcat(DropSource(init, j), [last], i);
    }
  }

  lemma {:induction false} DropUnripenCommute(ss: seq<Stake>, id: TrsId, now: Timestamp)
    ensures DropSource(UnripenAll(ss, now), id) == UnripenAll(DropSource(ss, id), now)
  {
    if ss != [] {
      var init, last := ss[..|ss| - 1], ss[|ss| - 1];
      DropUnripenCommute(init, id, now);
      assert UnripenAll(ss, now)[..|ss| - 1] == UnripenAll(init, now);
    }
  }

  /** The undo of one account without the balance. */
  function UndoCore(t: Transaction, a: Address, x: Account): Account {
    if a == t.sender then UndoFields(t, x) else x
  }

  lemma UndoCreditCommute(t: Transaction, a: Address, x: Account, d: int)
    ensures UndoCore(t, a, Credit(x, d)) == Credit(UndoCore(t, a, x), d)
  {
  }

  lemma UndoTwice(s: Transaction, ds: int, t: Transaction, dt: int, a: Address, x: Account)
    ensures UndoWith(s, a, ds, UndoWith(t, a, dt, x)) == Credit(UndoCore(s, a, UndoCore(t, a, x)), ds + dt)
  {
    var core := UndoCore(t, a, x);
    UndoCreditCommute(t, a, x, dt);
    UndoCreditCommute(s, a, core, dt + ds);
    assert Credit(Credit(core, dt), ds) == Credit(core, dt + ds);
  }

  lemma UndoStakesCommute(s: Transaction, t: Transaction, ss: seq<Stake>)
    requires !Ordered(s, t) && s.sender == t.sender
    ensures UndoStakes(s, UndoStakes(t, ss)) == UndoStakes(t, UndoStakes(s, ss))
  {
    hide DropSource;
    if s.asset.Freeze? && t.asset.Freeze? {
      DropsCommute(ss, s.id, t.id);
    } else if s.asset.Freeze? && t.asset.Vote? {
      DropUnripenCommute(ss, s.id, t.createdAt);
    } else if s.asset.Vote? && t.asset.Freeze? {
      DropUnripenCommute(ss, t.id, s.createdAt);
    }
  }

  lemma UndoVotesCommute(s: Transaction, t: Transaction, v: multiset<Address>)
    requires !Ordered(s, t) && s.sender == t.sender
    ensures UndoVotes(s, UndoVotes(t, v)) == UndoVotes(t, UndoVotes(s, v))
  {
    if !s.asset.Vote? {
      assert VoteKeys(s) == multiset{};
    } else {
      assert VoteKeys(t) == multiset{};
    }
  }

  lemma UndoFieldsCommute(s: Transaction, t: Transaction, x: Account)
    requires !Ordered(s, t) && s.sender == t.sender
    ensures UndoFields(s, UndoFields(t, x)) == UndoFields(t, UndoFields(s, x))
  {
    hide UndoStakes, UndoVotes, Ordered;
    UndoStakesCommute(s, t, x.stakes);
    UndoVotesCommute(s, t, x.votes);
  }

  lemma UndoAccountsCommute(s: Transaction, ds: int, t: Transaction, dt: int, a: Address, x: Account)
    requires !Ordered(s, t)
    ensures UndoWith(s, a, ds, UndoWith(t, a, dt, x)) == UndoWith(t, a, dt, UndoWith(s, a, ds, x))
  {
    UndoTwice(s, ds, t, dt, a, x);
    UndoTwice(t, dt, s, ds, a, x);
    if a == s.sender && a == t.sender {
      UndoFieldsCommute(s, t, x);
    }
  }

  lemma TalliesCommute(ds: map<Address, Delegate>, v: multiset<Address>, i: int, w: multiset<Address>, j: int)
    ensures Tally(Tally(ds, v, i), w, j) == Tally(Tally(ds, w, j), v, i)
  {
    var vw, wv := Tally(Tally(ds, v, i), w, j), Tally(Tally(ds, w, j), v, i);
    assert vw.Keys == wv.Keys;
    forall d | d in ds
      ensures vw[d] == wv[d]
    {
      assert (ds[d].votes + i * v[d]) + j * w[d] == (ds[d].votes + j * w[d]) + i * v[d];
    }
  }

  lemma TallyDropCommute(ds: map<Address, Delegate>, keys: multiset<Address>, k: int, a: Address)
    ensures Tally(ds - {a}, keys, k) == Tally(ds, keys, k) - {a}
  {
  }

  lemma UndoDelegatesCommute(ds: map<Address, Delegate>, s: Transaction, t: Transaction)
    ensures UndoDelegates(UndoDelegates(ds, s), t) == UndoDelegates(UndoDelegates(ds, t), s)
  {
    hide Tally, VoteKeys, Sign;
    if s.asset.Vote? && t.asset.Vote? {
      TalliesCommute(ds, VoteKeys(s), -Sign(s), VoteKeys(t), -Sign(t));
    } else if s.asset.Vote? && t.asset.NewDelegate? {
      TallyDropCommute(ds, VoteKeys(s), -Sign(s), t.sender);
    } else if s.asset.NewDelegate? && t.asset.Vote? {
      TallyDropCommute(ds, VoteKeys(t), -Sign(t), s.sender);
    } else if s.asset.NewDelegate? && t.asset.NewDelegate? {
      assert ds - {s.sender} - {t.sender} == ds - {t.sender} - {s.sender};
    }
  }

  lemma UndoKeepsNames(ds: map<Address, Delegate>, s: Transaction, t: Transaction)
    requires !(s.asset.NewDelegate? && t.asset.NewDelegate? && s.sender == t.sender)
    ensures NamesFreed(UndoDelegates(ds, s), t) == NamesFreed(ds, t)
  {
  }

  lemma UndoNamesCommute(names: set<string>, ds: map<Address, Delegate>, s: Transaction, t: Transaction)
    ensures names - NamesFreed(ds, s) - NamesFreed(UndoDelegates(ds, s), t)
         == names - NamesFreed(ds, t) - NamesFreed(UndoDelegates(ds, t), s)
  {
    if !(s.asset.NewDelegate? && t.asset.NewDelegate? && s.sender == t.sender) {
      UndoKeepsNames(ds, s, t);
      UndoKeepsNames(ds, t, s);
    }
  }

  lemma UndosCommuteAt(l: Ledger, s: Transaction, t: Transaction, a: Address)
    requires !Ordered(s, t)
    ensures Acc(UndoUnconfirmed(UndoUnconfirmed(l, s), t), a) == Acc(UndoUnconfirmed(UndoUnconfirmed(l, t), s), a)
  {
    hide *;
    UndoAccountsCommute(s, -Change(s, a), t, -Change(t, a), a, Acc(l, a));
    UndoAt(l, s, a);
    UndoAt(l, t, a);
    UndoAt(UndoUnconfirmed(l, s), t, a);
    UndoAt(UndoUnconfirmed(l, t), s, a);
  }

  /** MAIN: undoing any two transactions is independent of the order, on every
      ledger, unless both are votes of one sender. */
  lemma UndosCommute(l: Ledger, s: Transaction, t: Transaction)
    requires !Ordered(s, t)
    ensures UndoUnconfirmed(UndoUnconfirmed(l, s), t) == UndoUnconfirmed(UndoUnconfirmed(l, t), s)
  {
    hide *;
    forall a {
      UndosCommuteAt(l, s, t, a);
    }
    UndoParts(l, s);
    UndoParts(l, t);
    UndoParts(UndoUnconfirmed(l, s), t);
    UndoParts(UndoUnconfirmed(l, t), s);
    UndoDelegatesCommute(l.delegates, s, t);
    UndoNamesCommute(l.usernames, l.delegates, s, t);
    SameLedger(UndoUnconfirmed(UndoUnconfirmed(l, s), t), UndoUnconfirmed(UndoUnconfirmed(l, t), s));
  }

  /** `t` is pooled, `b` comes in a block: what must hold for `b` to be applied
      as if `t` were not there. */
  predicate Separate(ds: map<Address, Delegate>, b: Transaction, t: Transaction) {
    && b.sender != t.sender
    && (b.asset.Register? ==>
          && Change(t, b.sender) == 0
          && !(t.asset.Register? && b.asset.referral == t.sender))
    && (b.asset.NewDelegate? ==>
          && VoteKeys(t)[b.sender] == 0
          && b.asset.username !in NamesFreed(ds, t))
  }

  lemma ApplyCreditCommute(b: Transaction, chain: seq<Address>, x: Account, d: int)
    requires b.asset.Register? ==> d == 0
    ensures ApplyFields(b, chain, Credit(x, d)) == Credit(ApplyFields(b, chain, x), d)
  {
  }

  lemma ApplyUndoAccountsCommute(b: Transaction, chain: seq<Address>, db: int, t: Transaction, dt: int, a: Address, x: Account)
    requires b.sender != t.sender
    requires b.asset.Register? && a == b.sender ==> dt == 0
    ensures UndoWith(t, a, dt, ApplyWith(b, chain, a, db, x)) == ApplyWith(b, chain, a, db, UndoWith(t, a, dt, x))
  {
    assert Credit(Credit(x, db), dt) == Credit(Credit(x, dt), db);
    if a == b.sender {
      ApplyCreditCommute(b, chain, Credit(x, db), dt);
    } else if a == t.sender {
      UndoCreditCommute(t, a, Credit(x, dt), db);
    }
  }

  /** A delegate that is not voted for may be added before or after counting. */
  lemma TallyAddCommute(ds: map<Address, Delegate>, keys: multiset<Address>, k: int, a: Address, d: Delegate)
    requires keys[a] == 0
    ensures Tally(ds[a := d], keys, k) == Tally(ds, keys, k)[a := d]
  {
    var more, after := Tally(ds[a := d], keys, k), Tally(ds, keys, k)[a := d];
    assert more.Keys == after.Keys;
    assert more[a] == AddVotes(d, k * 0) == d;
  }

  lemma AddDropCommute(ds: map<Address, Delegate>, a: Address, d: Delegate, b: Address)
    requires a != b
    ensures ds[a := d] - {b} == (ds - {b})[a := d]
  {
  }

  lemma ApplyUndoDelegatesCommute(ds: map<Address, Delegate>, b: Transaction, t: Transaction)
    requires Separate(ds, b, t)
    ensures UndoDelegates(ApplyDelegates(ds, b), t) == ApplyDelegates(UndoDelegates(ds, t), b)
  {
    hide Tally, VoteKeys, Sign, Change;
    if b.asset.Vote? && t.asset.Vote? {
      TalliesCommute(ds, VoteKeys(b), Sign(b), VoteKeys(t), -Sign(t));
    } else if b.asset.Vote? && t.asset.NewDelegate? {
      TallyDropCommute(ds, VoteKeys(b), Sign(b), t.sender);
    } else if b.asset.NewDelegate? && t.asset.Vote? {
      TallyAddCommute(ds, VoteKeys(t), -Sign(t), b.sender, Delegate(b.asset.username, b.asset.url, 0, 0, 0, 0));
    } else if b.asset.NewDelegate? && t.asset.NewDelegate? {
      AddDropCommute(ds, b.sender, Delegate(b.asset.username, b.asset.url, 0, 0, 0, 0), t.sender);
    }
  }

  lemma SeparateRead(l: Ledger, b: Transaction, t: Transaction)
    requires Separate(l.delegates, b, t)
    ensures ReferralsRead(UndoUnconfirmed(l, t), b) == ReferralsRead(l, b)
  {
    if b.asset.Register? {
      UndoAt(l, t, b.asset.referral);
    }
  }

  lemma ApplyUndoAt(l: Ledger, b: Transaction, t: Transaction, a: Address)
    requires Separate(l.delegates, b, t)
    ensures Acc(UndoUnconfirmed(ApplyUnconfirmed(l, b), t), a) == Acc(ApplyUnconfirmed(UndoUnconfirmed(l, t), b), a)
  {
    hide ApplyUnconfirmed, UndoUnconfirmed, ReferralsRead, ApplyWith, UndoWith, Change;
    SeparateRead(l, b, t);
    ApplyUndoAccountsCommute(b, ReferralsRead(l, b), Change(b, a), t, -Change(t, a), a, Acc(l, a));
    ApplyAt(l, b, a);
    UndoAt(l, t, a);
    UndoAt(ApplyUnconfirmed(l, b), t, a);
    ApplyAt(UndoUnconfirmed(l, t), b, a);
  }

  lemma ApplyUndoNames(names: set<string>, ds: map<Address, Delegate>, b: Transaction, t: Transaction)
    requires Separate(ds, b, t)
    ensures names + NamesTaken(b) - NamesFreed(ApplyDelegates(ds, b), t) == names - NamesFreed(ds, t) + NamesTaken(b)
  {
    assert NamesFreed(ApplyDelegates(ds, b), t) == NamesFreed(ds, t);
  }

  /** MAIN: applying a block's transaction and undoing a pooled one commute when
      they are separate. */
  lemma ApplyUndoCommute(l: Ledger, b: Transaction, t: Transaction)
    requires Separate(l.delegates, b, t)
    ensures UndoUnconfirmed(ApplyUnconfirmed(l, b), t) == ApplyUnconfirmed(UndoUnconfirmed(l, t), b)
  {
    hide *;
    forall a {
      ApplyUndoAt(l, b, t, a);
    }
    ApplyUndoDelegatesCommute(l.delegates, b, t);
    ApplyUndoNames(l.usernames, l.delegates, b, t);
    ApplyParts(l, b);
    UndoParts(l, t);
    UndoParts(ApplyUnconfirmed(l, b), t);
    ApplyParts(UndoUnconfirmed(l, t), b);
    SameLedger(UndoUnconfirmed(ApplyUnconfirmed(l, b), t), ApplyUnconfirmed(UndoUnconfirmed(l, t), b));
  }

  lemma ConfirmUndoDelegates(ds: map<Address, Delegate>, keys: multiset<Address>, k: int, t: Transaction)
    ensures UndoDelegates(TallyConfirmed(ds, keys, k), t) == TallyConfirmed(UndoDelegates(ds, t), keys, k)
    ensures NamesFreed(TallyConfirmed(ds, keys, k), t) == NamesFreed(ds, t)
  {
    var bt := UndoDelegates(TallyConfirmed(ds, keys, k), t);
    var tb := TallyConfirmed(UndoDelegates(ds, t), keys, k);
    assert bt.Keys == tb.Keys;
    forall d | d in bt
      ensures bt[d] == tb[d]
    {
    }
  }

  /** Confirming one transaction and undoing another never get in each other's way. */
  lemma ConfirmUndoCommute(l: Ledger, b: Transaction, t: Transaction)
    ensures UndoUnconfirmed(Confirm(l, b), t) == Confirm(UndoUnconfirmed(l, t), b)
  {
    ConfirmUndoDelegates(l.delegates, VoteKeys(b), Sign(b), t);
  }

  /** What a pooled registration leaks: a block that registers below it reads its
      referrals, so applying and undoing do not commute. */
  lemma RegistrationLeaks(l: Ledger, b: Transaction, t: Transaction)
    requires b.asset.Register? && t.asset.Register? && b.sender != t.sender && b.asset.referral == t.sender
    requires Acc(l, t.sender).referrals != []
    ensures UndoUnconfirmed(ApplyUnconfirmed(l, b), t) != ApplyUnconfirmed(UndoUnconfirmed(l, t), b)
  {
    hide ApplyUnconfirmed, UndoUnconfirmed, Change;
    var bt := Acc(UndoUnconfirmed(ApplyUnconfirmed(l, b), t), b.sender);
    var tb := Acc(ApplyUnconfirmed(UndoUnconfirmed(l, t), b), b.sender);
    assert bt.referrals == ReferralsVia(b.asset.referral, Acc(l, t.sender).referrals) by {
      ApplyAt(l, b, b.sender);
      UndoAt(ApplyUnconfirmed(l, b), t, b.sender);
    }
    assert tb.referrals == ReferralsVia(b.asset.referral, []) by {
      UndoAt(l, t, t.sender);
      ApplyAt(UndoUnconfirmed(l, t), b, b.sender);
    }
    assert |bt.referrals| > |tb.referrals|;
  }
}
