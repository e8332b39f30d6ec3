/** core/service/round.ts and core/service/slot.ts: generating rounds and paying
    their fees on the repositories. */
module RoundService {
  import opened Model
  import opened Transactions
  import opened Verify
  import opened Rounds
  import opened RoundRuns
  import opened Store
  import opened RewardService

  /** All delegates by rank, cut to the number that forge at this height. */
  method GetAllActiveDelegates(ds: map<Address, Delegate>, height: nat) returns (active: seq<Address>)
    ensures active == ActiveDelegates(ds, height)
  {
    var ranked: seq<Address> := [];
    var rest := ds.Keys;
    while rest != {}
      invariant rest <= ds.Keys
      invariant ranked + Ranked(ds, rest) == Ranked(ds, ds.Keys)
      decreases rest
    {
      FirstExists(ds, rest);
      assert exists a :: a in rest && forall b :: b in rest ==> Before(ds, a, b) by {
        var w :| IsFirst(ds, rest, w);
      }
      var a :| a in rest && forall b :: b in rest ==> Before(ds, a, b);
      FirstUnique(ds, rest, a, FirstOf(ds, rest));
      assert ranked + ([a] + Ranked(ds, rest - {a})) == (ranked + [a]) + Ranked(ds, rest - {a});
      ranked := ranked + [a];
      rest := rest - {a};
    }
    var count := ActiveDelegatesCount(height);
    active := if |ranked| <= count then ranked else ranked[..count];
  }

  /** Deal the slots from the first one on, in the order of the hashes. */
  method GenerateSlots(delegates: seq<Address>, hash: Hash, lastId: BlockId, first: int) returns (r: Round)
    ensures r == DealSlots(SortByHash(delegates, hash, lastId), first)
  {
    var sorted := SortByHash(delegates, hash, lastId);
    r := [];
    for i := 0 to |sorted|
      invariant r == DealSlots(sorted[..i], first)
    {
      r := r + [Slot(sorted[i], first + i, false)];
    }
    assert sorted[..|sorted|] == sorted;
  }

  method GenerateRound(ds: map<Address, Delegate>, height: nat, hash: Hash, lastId: BlockId, first: int) returns (r: Round)
    ensures r == Generate(ds, height, hash, lastId, first)
  {
    var active := GetAllActiveDelegates(ds, height);
    r := GenerateSlots(active, hash, lastId, first);
  }

  // ---------- paying ----------

  method CountForged(r: Round) returns (forged: nat, missed: seq<Address>)
    ensures forged == ForgedCount(r) && missed == Missed(r)
  {
    forged, missed := 0, [];
    for i := 0 to |r|
      invariant forged == ForgedCount(r[..i]) && missed == Missed(r[..i])
    {
      assert r[..i + 1][..i] == r[..i];
      if r[i].isForged {
        forged := forged + 1;
      } else {
        missed := missed + [r[i].generator];
      }
    }
    assert r[..|r|] == r;
  }

  method TotalFees(blocks: seq<Block>) returns (sum: int)
    ensures sum == BlockFees(blocks)
  {
    sum := 0;
    for i := 0 to |blocks|
      invariant sum == BlockFees(blocks[..i])
    {
      assert blocks[..i + 1][..i] == blocks[..i];
      sum := sum + blocks[i].fee;
    }
    assert blocks[..|blocks|] == blocks;
  }

  lemma PayNone(ds: map<Address, Delegate>, k: int)
    ensures PayDelegates(ds, multiset{}, multiset{}, k) == ds
  {
  }

  lemma PayOne(ds: map<Address, Delegate>, gens: multiset<Address>, missed: multiset<Address>, d: Address, k: int)
    requires d in ds
    ensures var m := PayDelegates(ds, gens, missed, k);
      && d in m
      && m[d := AddForged(m[d], k, 0)] == PayDelegates(ds, gens + multiset{d}, missed, k)
      && m[d := AddForged(m[d], 0, k)] == PayDelegates(ds, gens, missed + multiset{d}, k)
  {
    var m := PayDelegates(ds, gens, missed, k);
    OneMore(k, gens[d]);
    OneMore(k, missed[d]);
    var n := PayDelegates(ds, gens + multiset{d}, missed, k);
    var p := PayDelegates(ds, gens, missed + multiset{d}, k);
    forall e | e in ds
      ensures m[d := AddForged(m[d], k, 0)][e] == n[e] && m[d := AddForged(m[d], 0, k)][e] == p[e]
    {
      assert (gens + multiset{d})[e] == gens[e] + (if e == d then 1 else 0);
      assert (missed + multiset{d})[e] == missed[e] + (if e == d then 1 else 0);
    }
  }

  lemma CreditOne(share: int, gens: multiset<Address>, d: Address)
    ensures forall b :: share * (gens + multiset{d})[b] == share * gens[b] + At(d, b, share)
  {
    forall b
      ensures share * (gens + multiset{d})[b] == share * gens[b] + At(d, b, share)
    {
      OneMore(share, gens[b]);
    }
  }

  /** Credit each forger its share and its block (or take both back). */
  method PayForgers(store: LedgerStore, forgers: seq<Address>, share: int, k: int)
    requires forall i :: 0 <= i < |forgers| ==> forgers[i] in store.delegates && forgers[i] in store.accounts
    modifies store`accounts, store`delegates
    ensures store.accounts.Keys == old(store.accounts.Keys)
    ensures store.delegates == PayDelegates(old(store.delegates), multiset(forgers), multiset{}, k)
    ensures Shifted(old(store.View()), store.View(), (b: Address) => share * multiset(forgers)[b])
  {
    hide AbstractAll, Abstract, Shifted, PayDelegates, Acc;
    ghost var before := store.View();
    ghost var ds := store.delegates;
    PayNone(ds, k);
    ShiftNone(before, (b: Address) => share * multiset(forgers[..0])[b]);
    for i := 0 to |forgers|
      invariant store.accounts.Keys == old(store.accounts.Keys)
      invariant store.delegates == PayDelegates(ds, multiset(forgers[..i]), multiset{}, k)
      invariant Shifted(before, store.View(), (b: Address) => share * multiset(forgers[..i])[b])
    {
      ghost var middle := store.View();
      var d := forgers[i];
      assert forgers[..i + 1] == forgers[..i] + [d];
      ghost var done := multiset(forgers[..i]);
      assert multiset(forgers[..i + 1]) == done + multiset{d};
      PayOne(ds, done, multiset{}, d, k);
      store.AddBalance(d, share);
      ghost var paid := store.View();
      store.delegates := store.delegates[d := AddForged(store.delegates[d], k, 0)];
      CreditOne(share, done, d);
      ShiftTwice(before, middle, paid, (b: Address) => share * done[b], (b: Address) => At(d, b, share),
                 (b: Address) => share * multiset(forgers[..i + 1])[b]);
      ShiftAccounts(before, paid, store.View(), (b: Address) => share * multiset(forgers[..i + 1])[b]);
    }
    assert forgers[..|forgers|] == forgers;
  }

  /** A shift is about accounts only. */
  lemma ShiftAccounts(l: Ledger, m: Ledger, n: Ledger, f: Address -> int)
    requires Shifted(l, m, f) && m.accounts == n.accounts
    ensures Shifted(l, n, f)
  {
    forall a
      ensures Acc(n, a) == Credit(Acc(l, a), f(a))
    {
      assert Acc(n, a) == Acc(m, a);
    }
  }

  /** Count the missed slots up or down. */
  method CountMissed(store: LedgerStore, missed: seq<Address>, ghost ds: map<Address, Delegate>, ghost gens: multiset<Address>, k: int)
    requires forall i :: 0 <= i < |missed| ==> missed[i] in ds
    requires store.delegates == PayDelegates(ds, gens, multiset{}, k)
    modifies store`delegates
    ensures store.delegates == PayDelegates(ds, gens, multiset(missed), k)
  {
    for i := 0 to |missed|
      invariant store.delegates == PayDelegates(ds, gens, multiset(missed[..i]), k)
    {
      hide PayDelegates;
      var d := missed[i];
      assert missed[..i + 1] == missed[..i] + [d];
      assert multiset(missed[..i + 1]) == multiset(missed[..i]) + multiset{d};
      PayOne(ds, gens, multiset(missed[..i]), d, k);
      store.delegates := store.delegates[d := AddForged(store.delegates[d], 0, k)];
    }
    assert missed[..|missed|] == missed;
  }

  /** The program finds every delegate of the round and of its blocks. */
  predicate RoundKnown(ds: map<Address, Delegate>, r: Round, chain: seq<Block>) {
    && (forall i :: 0 <= i < |RoundBlocks(chain, r)| ==> RoundBlocks(chain, r)[i].generator in ds)
    && (forall i :: 0 <= i < |Missed(r)| ==> Missed(r)[i] in ds)
  }

  lemma ForgersKnown(ds: map<Address, Delegate>, r: Round, chain: seq<Block>)
    requires RoundKnown(ds, r, chain)
    ensures var forgers := Generators(RoundBlocks(chain, r));
      forall i :: 0 <= i < |forgers| ==> forgers[i] in ds
  {
  }

  /** Pay the fees of a round to its forgers, or take them back. */
  method ProcessReward(store: LedgerStore, r: Round, chain: seq<Block>, undo: bool)
    requires RoundKnown(store.delegates, r, chain) && store.delegates.Keys <= store.accounts.Keys
    modifies store`accounts, store`delegates
    ensures store.accounts.Keys == old(store.accounts.Keys)
    ensures store.View() == Pay(old(store.View()), r, chain, if undo then -1 else 1)
  {
    hide AbstractAll, Abstract, Shifted, PayDelegates, PayAccounts, Acc, Missed, ForgedCount, BlockFees, CeilDiv;
    ghost var before := store.View();
    var forged, missed := CountForged(r);
    if forged == 0 {
      return;
    }
    var k := if undo then -1 else 1;
    var blocks := if forged <= |chain| then chain[|chain| - forged..] else [];
    var forgers: seq<Address> := Generators(blocks);
    ghost var gens: multiset<Address> := multiset(forgers);
    assert blocks == RoundBlocks(chain, r);
    ForgersKnown(store.delegates, r, chain);
    var total := TotalFees(blocks);
    var fee := if |blocks| == 0 then 0 else CeilDiv(total, |blocks|);
    PayForgers(store, forgers, k * fee, k);
    ghost var paid := store.View();
    CountMissed(store, missed, before.delegates, gens, k);
    ShiftAccounts(before, paid, store.View(), (b: Address) => k * fee * gens[b]);
    PaidIs(before, store.View(), r, chain, k);
  }

  lemma PaidIs(l: Ledger, m: Ledger, r: Round, chain: seq<Block>, k: int)
    requires Normal(l) && Normal(m) && ForgedCount(r) > 0
    requires Shifted(l, m, (b: Address) => k * FeeShare(RoundBlocks(chain, r)) * multiset(Generators(RoundBlocks(chain, r)))[b])
    requires m.delegates == PayDelegates(l.delegates, multiset(Generators(RoundBlocks(chain, r))), multiset(Missed(r)), k)
    requires m.usernames == l.usernames && m.confirmed == l.confirmed
    ensures m == Pay(l, r, chain, k)
  {
    hide Acc, PayDelegates, PayAccounts, FeeShare, Generators, Missed, Normal;
    forall b
      ensures Acc(m, b) == Acc(Pay(l, r, chain, k), b)
    {
      PayAt(l, r, chain, k, b);
    }
    PayParts(l, r, chain, k);
    SameLedger(m, Pay(l, r, chain, k));
  }

  // ---------- the first slot of a round ----------

  /** The remainder of the program's language: it takes the sign of the dividend. */
  function Remainder(a: int, b: int): int
    requires b > 0
  {
    if a >= 0 then a % b else -((-a) % b)
  }

  /** The loop of `getFirstSlotNumberInRound` stops at this slot. */
  predicate IsLastOfRun(slot: int, delegates: nat)
    requires delegates > 0
  {
    Remainder(slot, delegates) == delegates - 1
  }

  /** MAIN: counting down from a slot ever stops if and only if the slot is not below
      the first full run of delegates. */
  lemma CountingDownStopsIff(slot: int, delegates: nat)
    requires delegates > 0
    ensures (exists s :: s <= slot && IsLastOfRun(s, delegates)) <==> slot >= delegates - 1 || delegates == 1
  {
    if slot >= delegates - 1 {
      assert IsLastOfRun(delegates - 1, delegates);
    } else if delegates == 1 {
      assert IsLastOfRun(slot, delegates);
    } else {
      forall s | s <= slot
        ensures !IsLastOfRun(s, delegates)
      {
        if s >= 0 {
          assert s % delegates == s;
        }
      }
    }
  }

  /** Count down to the end of a run of slots as long as there are delegates. */
  method GetFirstSlotNumberInRound(timestamp: nat, delegates: nat) returns (slot: int)
    requires delegates > 0 && SlotNumber(timestamp) >= delegates - 1
    ensures slot <= SlotNumber(timestamp) < slot + delegates
    ensures slot % delegates == delegates - 1
  {
    slot := timestamp / SLOT_INTERVAL;
    while Remainder(slot, delegates) != delegates - 1
      invariant delegates - 1 <= slot <= SlotNumber(timestamp)
      invariant forall s :: slot < s <= SlotNumber(timestamp) ==> !IsLastOfRun(s, delegates)
      decreases slot
    {
      slot := slot - 1;
    }
    NextRun(slot, delegates, SlotNumber(timestamp));
  }

  lemma NextRun(slot: int, delegates: nat, top: int)
    requires delegates > 0 && slot >= 0 && IsLastOfRun(slot, delegates)
    requires forall s :: slot < s <= top ==> !IsLastOfRun(s, delegates)
    ensures top < slot + delegates
  {
    var next := slot + delegates;
    assert next == (slot / delegates + 1) * delegates + slot % delegates;
    RemainderOf(next, delegates, slot / delegates + 1, slot % delegates);
    assert IsLastOfRun(next, delegates);
  }

  lemma RemainderOf(x: nat, n: nat, q: int, r: nat)
    requires n > 0 && r < n && x == q * n + r
    ensures x % n == r
  {
    var k := x / n;
    assert x == k * n + x % n;
    if k < q {
      Multiples(k, q, n);
    } else if q < k {
      Multiples(q, k, n);
    }
  }

  lemma Multiples(i: int, j: int, n: nat)
    requires i < j
    ensures j * n >= i * n + n
  {
    assert (j - i - 1) * n >= 0;
  }
}
